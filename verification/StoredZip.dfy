/** The stored-ZIP archive: how it is laid out (sections 4.3.7, 4.3.12 and 4.3.16 of the PKWARE
    APPNOTE) and a reader that starts from the end record. */
module StoredZip {
  import opened Wrappers
  import Crc32

  type Byte = x: int | 0 <= x < 256
  type Bytes = seq<Byte>

  datatype StagedFile = StagedFile(path: Bytes, bytes: Bytes)

  // ----- little-endian fields -----

  function Power(w: nat): (r: nat)
    ensures r > 0
  {
    if w == 0 then 1 else 256 * Power(w - 1)
  }

  /** The low `w` bytes of a number; anything above is lost. */
  function Le(w: nat, x: nat): (r: Bytes)
    ensures |r| == w
    decreases w
  {
    if w == 0 then [] else [x % 256] + Le(w - 1, x / 256)
  }

  function Value(b: Bytes): nat {
    if b == [] then 0 else b[0] + 256 * Value(b[1..])
  }

  /** A field keeps a number modulo its width. */
  lemma {:induction false} ValueOfLe(w: nat, x: nat)
    ensures Value(Le(w, x)) == x % Power(w)
    decreases w
  {
    if w > 0 {
      ValueOfLe(w - 1, x / 256);
      assert Le(w, x)[1..] == Le(w - 1, x / 256);
      LowDigits(x, Power(w - 1));
    }
  }

  lemma LowDigits(x: nat, m: nat)
    requires m > 0
    ensures x % (256 * m) == x % 256 + 256 * ((x / 256) % m)
  {
    var q, r := (x / 256) / m, (x / 256) % m;
    assert x / 256 == m * q + r;
    assert x == (256 * m) * q + (256 * r + x % 256);
    assert 256 * r + x % 256 < 256 * m;
    QuotientIs(x, 256 * m, q, 256 * r + x % 256);
  }

  lemma QuotientIs(x: nat, m: nat, q: nat, r: nat)
    requires m > 0 && r < m && x == m * q + r
    ensures x % m == r
  {
    assert m * (x / m) + x % m == x;
    if x / m < q { Multiples(m, x / m, q); } else if q < x / m { Multiples(m, q, x / m); }
  }

  lemma {:induction false} Multiples(m: nat, a: nat, b: nat)
    requires a < b
    ensures m * a + m <= m * b
    decreases b
  {
    assert m * b == m * (b - 1) + m;
    if a + 1 < b { Multiples(m, a, b - 1); }
  }

  lemma {:induction false} ValueBound(b: Bytes)
    ensures Value(b) < Power(|b|)
  {
    if b != [] { ValueBound(b[1..]); }
  }

  function Size(shape: seq<nat>): nat {
    if shape == [] then 0 else shape[0] + Size(shape[1..])
  }

  /** A header: fields of the given widths, in order. */
  function Encode(shape: seq<nat>, values: seq<nat>): (r: Bytes)
    requires |shape| == |values|
    ensures |r| == Size(shape)
  {
    if shape == [] then [] else Le(shape[0], values[0]) + Encode(shape[1..], values[1..])
  }

  /** Reads such a header at position `p`. */
  function Take(b: Bytes, p: nat, shape: seq<nat>): (r: Option<seq<nat>>)
    ensures r.Some? ==> |r.value| == |shape|
    decreases |shape|
  {
    if p > |b| then None
    else if shape == [] then Some([])
    else if p + shape[0] > |b| then None
    else
      var rest := Take(b, p + shape[0], shape[1..]);
      if rest.None? then None else Some([Value(b[p..p + shape[0]])] + rest.value)
  }

  // ----- the writer's layout -----

  const LOCAL_SIG: nat := 0x0403_4b50
  const CENTRAL_SIG: nat := 0x0201_4b50
  const END_SIG: nat := 0x0605_4b50

  /** Signature, version needed, flags, method, time, date, crc, two sizes, name and extra lengths. */
  function LocalShape(): (r: seq<nat>)
    ensures |r| == 11
  {
    [4, 2, 2, 2, 2, 2, 4, 4, 4, 2, 2]
  }

  /** The same after "version made by", then comment length, disk, two attributes, local header offset. */
  function CentralShape(): (r: seq<nat>)
    ensures |r| == 17
  {
    [4, 2, 2, 2, 2, 2, 2, 4, 4, 4, 2, 2, 2, 2, 2, 4, 4]
  }

  /** Signature, two disk numbers, two counts, directory size and start, comment length. */
  function EndShape(): (r: seq<nat>)
    ensures |r| == 8
  {
    [4, 2, 2, 2, 2, 4, 4, 2]
  }

  /** The same bytes as the checksum takes them. */
  function Raw(data: Bytes): seq<Crc32.Byte> { seq(|data|, i requires 0 <= i < |data| => data[i] as bv8) }

  function CrcOf(data: Bytes): nat { Crc32.Crc(Raw(data)) as int }

  function LocalValues(f: StagedFile): (r: seq<nat>)
    ensures |r| == 11 && r[0] == LOCAL_SIG && r[3] == 0
    ensures r[6] == CrcOf(f.bytes) && r[7] == r[8] == |f.bytes| && r[9] == |f.path| && r[10] == 0
  {
    [LOCAL_SIG, 20, 0, 0, 0, 0] + [CrcOf(f.bytes), |f.bytes|, |f.bytes|, |f.path|, 0]
  }

  function CentralValues(f: StagedFile, offset: nat): (r: seq<nat>)
    ensures |r| == 17 && r[0] == CENTRAL_SIG && r[4] == 0
    ensures r[7] == CrcOf(f.bytes) && r[8] == r[9] == |f.bytes| && r[10] == |f.path| && r[11] == 0 && r[12] == 0
    ensures r[16] == offset
  {
    [CENTRAL_SIG, 20, 20, 0, 0, 0, 0] + [CrcOf(f.bytes), |f.bytes|, |f.bytes|, |f.path|] + [0, 0, 0, 0, 0, offset]
  }

  function EndValues(count: nat, size: nat, start: nat): (r: seq<nat>)
    ensures |r| == 8 && r[0] == END_SIG && r[4] == count && r[5] == size && r[6] == start && r[7] == 0
  {
    [END_SIG, 0, 0, count, count, size, start, 0]
  }

  function Local(f: StagedFile): Bytes {
    Encode(LocalShape(), LocalValues(f)) + f.path + f.bytes
  }

  function Locals(kept: seq<StagedFile>): Bytes {
    if kept == [] then [] else Locals(kept[..|kept| - 1]) + Local(kept[|kept| - 1])
  }

  function Central(f: StagedFile, offset: nat): Bytes {
    Encode(CentralShape(), CentralValues(f, offset)) + f.path
  }

  /** The first `n` records of the central directory. */
  function Directory(kept: seq<StagedFile>, n: nat): Bytes
    requires n <= |kept|
  {
    if n == 0 then [] else Directory(kept, n - 1) + Central(kept[n - 1], |Locals(kept[..n - 1])|)
  }

  function Archive(kept: seq<StagedFile>): Bytes {
    var body, dir := Locals(kept), Directory(kept, |kept|);
    body + dir + Encode(EndShape(), EndValues(|kept|, |dir|, |body|))
  }

  // ----- one entry per path, the last one staged -----

  function IndexOf(kept: seq<StagedFile>, path: Bytes): (r: nat)
    ensures r <= |kept| && (r < |kept| ==> kept[r].path == path) && forall i :: 0 <= i < r ==> kept[i].path != path
  {
    if kept == [] then 0
    else
      var before := IndexOf(kept[..|kept| - 1], path);
      if before < |kept| - 1 then before else if kept[|kept| - 1].path == path then |kept| - 1 else |kept|
  }

  function Keep(kept: seq<StagedFile>, f: StagedFile): seq<StagedFile> {
    var i := IndexOf(kept, f.path);
    if i < |kept| then kept[i := f] else kept + [f]
  }

  function Kept(files: seq<StagedFile>): seq<StagedFile> {
    if files == [] then [] else Keep(Kept(files[..|files| - 1]), files[|files| - 1])
  }

  // ----- a reader -----

  datatype Entry = Entry(path: Bytes, bytes: Bytes, crc: nat)

  /** The end record with its comment reaching exactly to the end of the archive, searched from the back. */
  function FindEnd(b: Bytes, p: nat): Option<nat>
    decreases p
  {
    var v := Take(b, p, EndShape());
    if v.Some? && v.value[0] == END_SIG && p + Size(EndShape()) + v.value[7] == |b| then Some(p)
    else if p == 0 then None
    else FindEnd(b, p - 1)
  }

  function Slice(b: Bytes, p: nat, n: nat): Option<Bytes> {
    if p + n <= |b| then Some(b[p..p + n]) else None
  }

  /** The fields of a local or central header that the reader uses. */
  datatype Head = Head(sig: nat, compression: nat, crc: nat, size: nat, path: nat, extra: nat,
                       comment: nat, offset: nat)

  function LocalHead(v: seq<nat>): Head
    requires |v| == 11
  {
    Head(v[0], v[3], v[6], v[7], v[9], v[10], 0, 0)
  }

  function CentralHead(v: seq<nat>): Head
    requires |v| == 17
  {
    Head(v[0], v[4], v[7], v[8], v[10], v[11], v[12], v[16])
  }

  function TakeLocal(b: Bytes, p: nat): Option<Head> {
    var v := Take(b, p, LocalShape());
    if v.None? then None else Some(LocalHead(v.value))
  }

  function TakeCentral(b: Bytes, p: nat): Option<Head> {
    var v := Take(b, p, CentralShape());
    if v.None? then None else Some(CentralHead(v.value))
  }

  /** The local header at `p` must name the same path and hold stored data with the right checksum. */
  function ReadLocal(b: Bytes, p: nat, path: Bytes, size: nat, crc: nat): Option<Entry> {
    var h := TakeLocal(b, p);
    if h.None? || h.value.sig != LOCAL_SIG || h.value.compression != 0 then None
    else
      var q := p + Size(LocalShape());
      var name, data := Slice(b, q, h.value.path), Slice(b, q + h.value.path + h.value.extra, size);
      if name != Some(path) || data.None? || CrcOf(data.value) != crc then None else Some(Entry(path, data.value, crc))
  }

  /** `n` records of the central directory from `p` on. */
  function ReadDirectory(b: Bytes, p: nat, n: nat): Option<seq<Entry>>
    decreases n
  {
    if n == 0 then Some([])
    else
      var h := TakeCentral(b, p);
      if h.None? || h.value.sig != CENTRAL_SIG || h.value.compression != 0 then None
      else
        var q := p + Size(CentralShape());
        var path := Slice(b, q, h.value.path);
        if path.None? then None
        else
          var entry := ReadLocal(b, h.value.offset, path.value, h.value.size, h.value.crc);
          var rest := ReadDirectory(b, q + h.value.path + h.value.extra + h.value.comment, n - 1);
          if entry.None? || rest.None? then None else Some([entry.value] + rest.value)
  }

  function Read(b: Bytes): Option<seq<Entry>> {
    if |b| < Size(EndShape()) then None
    else
      var end := FindEnd(b, |b| - Size(EndShape()));
      if end.None? then None
      else
        var v := Take(b, end.value, EndShape());
        if v.None? then None else ReadDirectory(b, v.value[6], v.value[4])
  }
}
