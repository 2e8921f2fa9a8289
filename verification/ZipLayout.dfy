/** The archive byte by byte, after sections 4.3.7, 4.3.12 and 4.3.16 of the PKWARE APPNOTE. */
module ZipLayout {
  import opened StoredZip

  ghost function Two(x: nat): Bytes { [x % 256, x / 256 % 256] }

  ghost function Four(x: nat): Bytes { [x % 256, x / 256 % 256, x / 65536 % 256, x / 16777216 % 256] }

  /** 30 bytes, the path and the data. */
  ghost function LocalBytes(f: StagedFile): Bytes {
    [0x50, 0x4b, 3, 4, 20, 0, 0, 0, 0, 0, 0, 0, 0, 0]
    + (Four(CrcOf(f.bytes)) + Four(|f.bytes|) + Four(|f.bytes|) + Two(|f.path|) + [0, 0])
    + f.path + f.bytes
  }

  /** 46 bytes and the path; the last field points back to the local header. */
  ghost function CentralBytes(f: StagedFile, offset: nat): Bytes {
    [0x50, 0x4b, 1, 2, 20, 0, 20, 0, 0, 0, 0, 0, 0, 0, 0, 0]
    + (Four(CrcOf(f.bytes)) + Four(|f.bytes|) + Four(|f.bytes|) + Two(|f.path|)
       + ([0, 0, 0, 0, 0, 0, 0, 0, 0, 0, 0, 0] + Four(offset)))
    + f.path
  }

  ghost function EndBytes(count: nat, size: nat, start: nat): Bytes {
    [0x50, 0x4b, 5, 6, 0, 0, 0, 0] + Two(count) + Two(count) + Four(size) + Four(start) + [0, 0]
  }

  // ----- headers -----

  lemma TwoLow(x: nat)
    ensures Le(2, x) == Two(x)
  {
    assert Le(2, x) == [x % 256] + Le(1, x / 256);
    assert Le(1, x / 256) == [x / 256 % 256];
  }

  lemma FourLow(x: nat)
    ensures Le(4, x) == Four(x)
  {
    assert x / 256 / 256 == x / 65536 && x / 65536 / 256 == x / 16777216;
    assert Le(4, x) == [x % 256] + Le(3, x / 256);
    assert Le(3, x / 256) == [x / 256 % 256] + Le(2, x / 65536);
    assert Le(2, x / 65536) == [x / 65536 % 256] + Le(1, x / 16777216);
    assert Le(1, x / 16777216) == [x / 16777216 % 256];
  }

  lemma {:induction false} Beside(shape: seq<nat>, values: seq<nat>, shape': seq<nat>, values': seq<nat>)
    requires |shape| == |values| && |shape'| == |values'|
    ensures Encode(shape + shape', values + values') == Encode(shape, values) + Encode(shape', values')
  {
    hide Le;
    if shape == [] {
      assert shape + shape' == shape' && values + values' == values';
    } else {
      Beside(shape[1..], values[1..], shape', values');
      assert (shape + shape')[1..] == shape[1..] + shape' && (values + values')[1..] == values[1..] + values';
    }
  }

  lemma Field(w: nat, x: nat)
    ensures Encode([w], [x]) == Le(w, x)
  {
    assert Encode([], []) == [];
  }

  lemma Fields2(w0: nat, w1: nat, x0: nat, x1: nat)
    ensures Encode([w0, w1], [x0, x1]) == Le(w0, x0) + Le(w1, x1)
  {
    assert [w0, w1] == [w0] + [w1] && [x0, x1] == [x0] + [x1];
    Beside([w0], [x0], [w1], [x1]);
    Field(w0, x0);
    Field(w1, x1);
  }

  lemma Fields3(w0: nat, w1: nat, w2: nat, x0: nat, x1: nat, x2: nat)
    ensures Encode([w0, w1, w2], [x0, x1, x2]) == Le(w0, x0) + Le(w1, x1) + Le(w2, x2)
  {
    assert [w0, w1, w2] == [w0, w1] + [w2] && [x0, x1, x2] == [x0, x1] + [x2];
    Beside([w0, w1], [x0, x1], [w2], [x2]);
    Fields2(w0, w1, x0, x1);
    Field(w2, x2);
  }

  /** Checksum, the two sizes and the length of the path, which local and central headers share. */
  lemma Sizes(crc: nat, size: nat, path: nat)
    ensures Encode([4, 4, 4, 2], [crc, size, size, path]) == Four(crc) + Four(size) + Four(size) + Two(path)
  {
    hide Encode, Le, Two, Four;
    assert [4, 4, 4, 2] == [4, 4, 4] + [2] && [crc, size, size, path] == [crc, size, size] + [path];
    Beside([4, 4, 4], [crc, size, size], [2], [path]);
    Fields3(4, 4, 4, crc, size, size);
    Field(2, path);
    FourLow(crc);
    FourLow(size);
    TwoLow(path);
  }

  /** Version needed, flags, method, time and date. */
  lemma Plain()
    ensures Encode([2, 2, 2, 2, 2], [20, 0, 0, 0, 0]) == [20, 0, 0, 0, 0, 0, 0, 0, 0, 0]
  {
    assert [2, 2, 2, 2, 2] == [2, 2, 2] + [2, 2] && [20, 0, 0, 0, 0] == [20, 0, 0] + [0, 0];
    Beside([2, 2, 2], [20, 0, 0], [2, 2], [0, 0]);
    Fields3(2, 2, 2, 20, 0, 0);
    Fields2(2, 2, 0, 0);
    TwoLow(20);
    TwoLow(0);
  }

  lemma Signatures()
    ensures Le(4, LOCAL_SIG) == [0x50, 0x4b, 3, 4]
    ensures Le(4, CENTRAL_SIG) == [0x50, 0x4b, 1, 2]
    ensures Le(4, END_SIG) == [0x50, 0x4b, 5, 6]
  {
    FourLow(0x0403_4b50);
    FourLow(0x0201_4b50);
    FourLow(0x0605_4b50);
    hide Le;
  }

  lemma Zeros()
    ensures Le(2, 0) == [0, 0] && Le(4, 0) == [0, 0, 0, 0] && Le(2, 20) == [20, 0]
  {
    TwoLow(0);
    TwoLow(20);
    FourLow(0);
    hide Le;
  }

  lemma LocalFront()
    ensures Encode([4, 2, 2, 2, 2, 2], [LOCAL_SIG, 20, 0, 0, 0, 0])
            == [0x50, 0x4b, 3, 4, 20, 0, 0, 0, 0, 0, 0, 0, 0, 0]
  {
    hide Encode, Le;
    assert [4, 2, 2, 2, 2, 2] == [4] + [2, 2, 2, 2, 2] && [LOCAL_SIG, 20, 0, 0, 0, 0] == [LOCAL_SIG] + [20, 0, 0, 0, 0];
    Beside([4], [LOCAL_SIG], [2, 2, 2, 2, 2], [20, 0, 0, 0, 0]);
    Field(4, LOCAL_SIG);
    Signatures();
    Plain();
  }

  lemma LocalHeader(crc: nat, size: nat, path: nat)
    ensures Encode([4, 2, 2, 2, 2, 2] + ([4, 4, 4, 2] + [2]),
                   [LOCAL_SIG, 20, 0, 0, 0, 0] + ([crc, size, size, path] + [0]))
            == [0x50, 0x4b, 3, 4, 20, 0, 0, 0, 0, 0, 0, 0, 0, 0]
               + (Four(crc) + Four(size) + Four(size) + Two(path) + [0, 0])
  {
    hide Encode, Le, Four, Two;
    Beside([4, 2, 2, 2, 2, 2], [LOCAL_SIG, 20, 0, 0, 0, 0], [4, 4, 4, 2] + [2], [crc, size, size, path] + [0]);
    Beside([4, 4, 4, 2], [crc, size, size, path], [2], [0]);
    LocalFront();
    Sizes(crc, size, path);
    Field(2, 0);
    Zeros();
  }

  lemma LocalLaid(f: StagedFile)
    ensures Local(f) == LocalBytes(f)
  {
    hide Encode, Le, Four, Two, CrcOf;
    var crc, size, path := CrcOf(f.bytes), |f.bytes|, |f.path|;
    LocalHeader(crc, size, path);
    assert LocalShape() == [4, 2, 2, 2, 2, 2] + ([4, 4, 4, 2] + [2]);
    assert LocalValues(f) == [LOCAL_SIG, 20, 0, 0, 0, 0] + ([crc, size, size, path] + [0]);
  }

  lemma CentralFront()
    ensures Encode([4, 2, 2, 2, 2, 2, 2], [CENTRAL_SIG, 20, 20, 0, 0, 0, 0])
            == [0x50, 0x4b, 1, 2, 20, 0, 20, 0, 0, 0, 0, 0, 0, 0, 0, 0]
  {
    hide Encode, Le;
    assert [4, 2, 2, 2, 2, 2, 2] == [4, 2] + [2, 2, 2, 2, 2];
    assert [CENTRAL_SIG, 20, 20, 0, 0, 0, 0] == [CENTRAL_SIG, 20] + [20, 0, 0, 0, 0];
    Beside([4, 2], [CENTRAL_SIG, 20], [2, 2, 2, 2, 2], [20, 0, 0, 0, 0]);
    Fields2(4, 2, CENTRAL_SIG, 20);
    Signatures();
    Zeros();
    Plain();
  }

  /** No extra field, no comment, disk 0, no attributes; then the offset. */
  lemma CentralBack(offset: nat)
    ensures Encode([2, 2, 2, 2, 4, 4], [0, 0, 0, 0, 0, offset])
            == [0, 0, 0, 0, 0, 0, 0, 0, 0, 0, 0, 0] + Four(offset)
  {
    hide Encode, Le, Four;
    assert [2, 2, 2, 2, 4, 4] == [2, 2, 2] + [2, 4, 4] && [0, 0, 0, 0, 0, offset] == [0, 0, 0] + [0, 0, offset];
    Beside([2, 2, 2], [0, 0, 0], [2, 4, 4], [0, 0, offset]);
    Fields3(2, 2, 2, 0, 0, 0);
    Fields3(2, 4, 4, 0, 0, offset);
    FourLow(offset);
    Zeros();
  }

  lemma CentralHeader(crc: nat, size: nat, path: nat, offset: nat)
    ensures Encode([4, 2, 2, 2, 2, 2, 2] + ([4, 4, 4, 2] + [2, 2, 2, 2, 4, 4]),
                   [CENTRAL_SIG, 20, 20, 0, 0, 0, 0] + ([crc, size, size, path] + [0, 0, 0, 0, 0, offset]))
            == [0x50, 0x4b, 1, 2, 20, 0, 20, 0, 0, 0, 0, 0, 0, 0, 0, 0]
               + (Four(crc) + Four(size) + Four(size) + Two(path)
                  + ([0, 0, 0, 0, 0, 0, 0, 0, 0, 0, 0, 0] + Four(offset)))
  {
    hide Encode, Le, Four, Two;
    var back, backValues := [2, 2, 2, 2, 4, 4], [0, 0, 0, 0, 0, offset];
    Beside([4, 2, 2, 2, 2, 2, 2], [CENTRAL_SIG, 20, 20, 0, 0, 0, 0], [4, 4, 4, 2] + back,
           [crc, size, size, path] + backValues);
    Beside([4, 4, 4, 2], [crc, size, size, path], back, backValues);
    CentralFront();
    Sizes(crc, size, path);
    CentralBack(offset);
  }

  lemma CentralParts(f: StagedFile, offset: nat)
    ensures CentralShape() == [4, 2, 2, 2, 2, 2, 2] + ([4, 4, 4, 2] + [2, 2, 2, 2, 4, 4])
    ensures CentralValues(f, offset) == [CENTRAL_SIG, 20, 20, 0, 0, 0, 0]
            + ([CrcOf(f.bytes), |f.bytes|, |f.bytes|, |f.path|] + [0, 0, 0, 0, 0, offset])
  {
    hide CrcOf;
  }

  lemma CentralLaid(f: StagedFile, offset: nat)
    ensures Central(f, offset) == CentralBytes(f, offset)
  {
    hide Encode, Le, Four, Two, CrcOf, CentralShape, CentralValues;
    CentralParts(f, offset);
    CentralHeader(CrcOf(f.bytes), |f.bytes|, |f.path|, offset);
  }

  lemma EndFront(count: nat)
    ensures Encode([4, 2, 2, 2, 2], [END_SIG, 0, 0, count, count])
            == [0x50, 0x4b, 5, 6, 0, 0, 0, 0] + Two(count) + Two(count)
  {
    hide Encode, Le, Two;
    assert [4, 2, 2, 2, 2] == [4, 2, 2] + [2, 2] && [END_SIG, 0, 0, count, count] == [END_SIG, 0, 0] + [count, count];
    Beside([4, 2, 2], [END_SIG, 0, 0], [2, 2], [count, count]);
    Fields3(4, 2, 2, END_SIG, 0, 0);
    Fields2(2, 2, count, count);
    Signatures();
    Zeros();
    TwoLow(count);
  }

  lemma EndLaid(count: nat, size: nat, start: nat)
    ensures Encode(EndShape(), EndValues(count, size, start)) == EndBytes(count, size, start)
  {
    hide Encode, Le, Four, Two;
    assert EndShape() == [4, 2, 2, 2, 2] + [4, 4, 2];
    assert EndValues(count, size, start) == [END_SIG, 0, 0, count, count] + [size, start, 0];
    Beside([4, 2, 2, 2, 2], [END_SIG, 0, 0, count, count], [4, 4, 2], [size, start, 0]);
    EndFront(count);
    Fields3(4, 4, 2, size, start, 0);
    Zeros();
    FourLow(size);
    FourLow(start);
  }

  // ----- the archive -----

  /** Where the local header of file `i` starts. */
  function LocalStart(kept: seq<StagedFile>, i: nat): nat
    requires i <= |kept|
  {
    if i == 0 then 0 else LocalStart(kept, i - 1) + 30 + |kept[i - 1].path| + |kept[i - 1].bytes|
  }

  /** Where its record starts in the directory. */
  function RecordStart(kept: seq<StagedFile>, i: nat): nat
    requires i <= |kept|
  {
    if i == 0 then 0 else RecordStart(kept, i - 1) + 46 + |kept[i - 1].path|
  }

  /** The bytes `s` stand at `p`. */
  ghost predicate Stands(b: Bytes, p: nat, s: Bytes) {
    p + |s| <= |b| && b[p..p + |s|] == s
  }

  lemma StillStands(b: Bytes, p: nat, s: Bytes, t: Bytes)
    requires Stands(b, p, s)
    ensures Stands(b + t, p, s)
  {
  }

  lemma StandsAfter(a: Bytes, b: Bytes, p: nat, s: Bytes)
    requires Stands(b, p, s)
    ensures Stands(a + b, |a| + p, s)
  {
    assert (a + b)[|a| + p..|a| + p + |s|] == b[p..p + |s|];
  }

  lemma StandsLast(a: Bytes, s: Bytes)
    ensures Stands(a + s, |a|, s)
  {
    assert (a + s)[|a|..] == s;
  }

  lemma {:induction false} LocalsLaid(kept: seq<StagedFile>, n: nat, i: nat)
    requires n <= |kept|
    ensures |Locals(kept[..n])| == LocalStart(kept, n)
    ensures i < n ==> Stands(Locals(kept[..n]), LocalStart(kept, i), LocalBytes(kept[i]))
    decreases n
  {
    hide Local, LocalBytes, Stands;
    if n > 0 {
      LocalsLaid(kept, n - 1, i);
      assert kept[..n][..n - 1] == kept[..n - 1];
      var before, last := Locals(kept[..n - 1]), LocalBytes(kept[n - 1]);
      LocalLaid(kept[n - 1]);
      LocalLength(kept[n - 1]);
      assert Locals(kept[..n]) == before + last;
      hide Locals;
      StandsLast(before, last);
      if i < n - 1 { StillStands(before, LocalStart(kept, i), LocalBytes(kept[i]), last); }
    }
  }

  lemma LocalLength(f: StagedFile)
    ensures |LocalBytes(f)| == 30 + |f.path| + |f.bytes|
  {
    hide CrcOf;
  }

  lemma CentralLength(f: StagedFile, offset: nat)
    ensures |CentralBytes(f, offset)| == 46 + |f.path|
  {
    hide CrcOf;
  }

  lemma {:induction false} DirectoryLaid(kept: seq<StagedFile>, n: nat, i: nat)
    requires n <= |kept|
    ensures |Directory(kept, n)| == RecordStart(kept, n)
    ensures i < n ==> Stands(Directory(kept, n), RecordStart(kept, i), CentralBytes(kept[i], LocalStart(kept, i)))
    decreases n
  {
    hide Central, CentralBytes, Locals, LocalStart, Stands;
    if n > 0 {
      DirectoryLaid(kept, n - 1, i);
      LocalsLaid(kept, n - 1, 0);
      var before, last := Directory(kept, n - 1), CentralBytes(kept[n - 1], LocalStart(kept, n - 1));
      CentralLaid(kept[n - 1], LocalStart(kept, n - 1));
      CentralLength(kept[n - 1], LocalStart(kept, n - 1));
      assert Directory(kept, n) == before + last;
      hide Directory;
      StandsLast(before, last);
      if i < n - 1 { StillStands(before, RecordStart(kept, i), CentralBytes(kept[i], LocalStart(kept, i)), last); }
    }
  }

  /** The local headers in order from the front; then the directory, in the same order, each record
      pointing to its header; then the end record. */
  lemma ArchiveLayout(kept: seq<StagedFile>)
    ensures var b, n := Archive(kept), |kept|;
            var start := LocalStart(kept, n);
            var size := RecordStart(kept, n);
            && |b| == start + size + 22
            && (forall i :: 0 <= i < n ==>
                  && Stands(b, LocalStart(kept, i), LocalBytes(kept[i]))
                  && Stands(b, start + RecordStart(kept, i), CentralBytes(kept[i], LocalStart(kept, i))))
            && Stands(b, start + size, EndBytes(n, size, start))
  {
    hide LocalBytes, CentralBytes, EndBytes, Encode, Locals, Directory, LocalStart, RecordStart;
    var n := |kept|;
    assert kept[..n] == kept;
    LocalsLaid(kept, n, 0);
    DirectoryLaid(kept, n, 0);
    var body, dir := Locals(kept), Directory(kept, n);
    EndLaid(n, |dir|, |body|);
    var end := EndBytes(n, |dir|, |body|);
    var b := Archive(kept);
    assert b == body + dir + end;
    forall i | 0 <= i < n
      ensures Stands(b, LocalStart(kept, i), LocalBytes(kept[i]))
              && Stands(b, |body| + RecordStart(kept, i), CentralBytes(kept[i], LocalStart(kept, i)))
    {
      LocalsLaid(kept, n, i);
      DirectoryLaid(kept, n, i);
      StillStands(body, LocalStart(kept, i), LocalBytes(kept[i]), dir + end);
      assert body + dir + end == body + (dir + end);
      StandsAfter(body, dir, RecordStart(kept, i), CentralBytes(kept[i], LocalStart(kept, i)));
      StillStands(body + dir, |body| + RecordStart(kept, i), CentralBytes(kept[i], LocalStart(kept, i)), end);
    }
  }

  // ----- the order of the entries -----

  predicate IsNew(files: seq<StagedFile>, i: nat)
    requires i < |files|
  {
    forall j :: 0 <= j < i ==> files[j].path != files[i].path
  }

  /** How many different paths are staged before file `i`. */
  function NewBefore(files: seq<StagedFile>, i: nat): nat
    requires i <= |files|
  {
    if i == 0 then 0 else NewBefore(files, i - 1) + if IsNew(files, i - 1) then 1 else 0
  }

  lemma {:induction false} NewBeforePrefix(files: seq<StagedFile>, n: nat, i: nat)
    requires i <= n <= |files|
    ensures NewBefore(files[..n], i) == NewBefore(files, i)
    decreases i
  {
    if i > 0 { NewBeforePrefix(files, n, i - 1); }
  }

  ghost predicate Staged(files: seq<StagedFile>, path: Bytes) {
    exists j :: 0 <= j < |files| && files[j].path == path
  }

  lemma KeepAdds(kept: seq<StagedFile>, f: StagedFile, path: Bytes)
    ensures Staged(Keep(kept, f), path) <==> Staged(kept, path) || path == f.path
  {
    var at := IndexOf(kept, f.path);
    hide IndexOf;
    var more := Keep(kept, f);
    assert at < |more| && more[at].path == f.path;
    if Staged(kept, path) {
      var j :| 0 <= j < |kept| && kept[j].path == path;
      assert more[j].path == path;
    }
    if Staged(more, path) && path != f.path {
      var j :| 0 <= j < |more| && more[j].path == path;
      assert kept[j].path == path;
    }
  }

  lemma {:induction false} PathsKept(files: seq<StagedFile>, path: Bytes)
    ensures Staged(Kept(files), path) <==> Staged(files, path)
    decreases |files|
  {
    if files != [] {
      var before, f := files[..|files| - 1], files[|files| - 1];
      PathsKept(before, path);
      KeepAdds(Kept(before), f, path);
      hide Keep;
      if Staged(before, path) {
        var j :| 0 <= j < |before| && before[j].path == path;
        assert files[j].path == path;
      }
      if Staged(files, path) && path != f.path {
        var j :| 0 <= j < |files| && files[j].path == path;
        assert before[j].path == path;
      }
    }
  }

  lemma NewIsNotKept(files: seq<StagedFile>)
    requires files != []
    ensures var n := |files| - 1;
            IsNew(files, n) <==> IndexOf(Kept(files[..n]), files[n].path) == |Kept(files[..n])|
  {
    var before, path := files[..|files| - 1], files[|files| - 1].path;
    PathsKept(before, path);
    hide Kept, IndexOf;
    assert IsNew(files, |files| - 1) <==> !Staged(before, path) by {
      assert forall j :: 0 <= j < |before| ==> before[j] == files[j];
    }
  }

  /** Entries stand in the order in which their paths were first staged. */
  lemma {:induction false} KeptOrder(files: seq<StagedFile>, i: nat)
    requires i <= |files|
    ensures |Kept(files)| == NewBefore(files, |files|)
    ensures i < |files| && IsNew(files, i) ==>
              NewBefore(files, i) < |Kept(files)| && Kept(files)[NewBefore(files, i)].path == files[i].path
    decreases |files|
  {
    if files != [] {
      var n := |files| - 1;
      var before := files[..n];
      KeptOrder(before, if i < n then i else n);
      NewIsNotKept(files);
      NewBeforePrefix(files, n, n);
      assert Kept(files) == Keep(Kept(before), files[n]);
      assert NewBefore(files, |files|) == NewBefore(files, n) + if IsNew(files, n) then 1 else 0;
      hide NewBefore, IndexOf, Kept;
      if i < n {
        NewBeforePrefix(files, n, i);
        assert IsNew(files, i) ==> IsNew(before, i);
      }
    }
  }
}
