/** Reading back what was written. */
module ZipRoundTrip {
  import opened Wrappers
  import Crc32
  import opened StoredZip

  // ----- fields -----

  /** `s` stands at position `p` of `b`. */
  ghost predicate Holds(b: Bytes, p: nat, s: Bytes) { p + |s| <= |b| && b[p..p + |s|] == s }

  lemma HoldsParts(b: Bytes, p: nat, x: Bytes, y: Bytes)
    requires Holds(b, p, x + y)
    ensures Holds(b, p, x) && Holds(b, p + |x|, y)
  {
    var s := x + y;
    assert b[p..p + |x|] == s[..|x|];
    assert b[p + |x|..p + |s|] == s[|x|..];
  }

  ghost predicate Fits(shape: seq<nat>, values: seq<nat>) {
    |shape| == |values| && forall i :: 0 <= i < |shape| ==> values[i] < Power(shape[i])
  }

  /** What the fields of a header keep of the values. */
  function Wrapped(shape: seq<nat>, values: seq<nat>): seq<nat>
    requires |shape| == |values|
  {
    seq(|shape|, i requires 0 <= i < |shape| => values[i] % Power(shape[i]))
  }

  lemma WrappedFits(shape: seq<nat>, values: seq<nat>)
    requires Fits(shape, values)
    ensures Wrapped(shape, values) == values
  {
    hide Power;
  }

  lemma WrappedFirst(shape: seq<nat>, values: seq<nat>)
    requires |shape| == |values| > 0
    ensures Wrapped(shape, values) == [values[0] % Power(shape[0])] + Wrapped(shape[1..], values[1..])
  {
    hide Power;
  }

  /** Fields read back as written, modulo their widths. */
  lemma {:induction false} TakeEncoded(b: Bytes, p: nat, shape: seq<nat>, values: seq<nat>)
    requires |shape| == |values| && Holds(b, p, Encode(shape, values))
    ensures Take(b, p, shape) == Some(Wrapped(shape, values))
    decreases |shape|
  {
    hide Wrapped, Power;
    if shape != [] {
      HoldsParts(b, p, Le(shape[0], values[0]), Encode(shape[1..], values[1..]));
      ValueOfLe(shape[0], values[0]);
      TakeEncoded(b, p + shape[0], shape[1..], values[1..]);
      WrappedFirst(shape, values);
    } else {
      NothingWrapped(shape, values);
    }
  }

  lemma NothingWrapped(shape: seq<nat>, values: seq<nat>)
    requires shape == values == []
    ensures Wrapped(shape, values) == []
  {
  }

  lemma {:induction false} TakenFit(b: Bytes, p: nat, shape: seq<nat>)
    requires Take(b, p, shape).Some?
    ensures Fits(shape, Take(b, p, shape).value)
    decreases |shape|
  {
    if shape != [] {
      ValueBound(b[p..p + shape[0]]);
      TakenFit(b, p + shape[0], shape[1..]);
    }
  }

  lemma Widths()
    ensures Power(2) == 0x1_0000 && Power(4) == 0x1_0000_0000
  {
    assert Power(1) == 256 * Power(0);
    assert Power(3) == 256 * Power(2);
  }

  // ----- within the limits -----

  /** The 16-bit fields are wide enough for the count and the names. */
  predicate CountsFit(kept: seq<StagedFile>) {
    |kept| < 0x1_0000 && forall i :: 0 <= i < |kept| ==> |kept[i].path| < 0x1_0000
  }

  /** And the 32-bit fields for where the directory starts, and so for every size and offset. */
  predicate WithinLimits(kept: seq<StagedFile>) {
    CountsFit(kept) && |Locals(kept)| < 0x1_0000_0000
  }

  lemma CrcFits(data: Bytes)
    ensures CrcOf(data) < 0x1_0000_0000
  {
    hide Crc32.Crc;
  }

  // ----- where things stand in the archive -----

  lemma {:induction false} LocalStands(kept: seq<StagedFile>, b: Bytes, i: nat)
    requires i < |kept| && Holds(b, 0, Locals(kept))
    ensures Holds(b, |Locals(kept[..i])|, Local(kept[i]))
    decreases |kept|
  {
    hide Local;
    var n := |kept| - 1;
    HoldsParts(b, 0, Locals(kept[..n]), Local(kept[n]));
    if i < n {
      LocalStands(kept[..n], b, i);
      assert kept[..n][..i] == kept[..i];
    }
  }

  /** The directory's record `i`, and the next one right behind it. */
  lemma {:induction false} CentralStands(kept: seq<StagedFile>, n: nat, b: Bytes, p: nat, i: nat)
    requires i < n <= |kept| && Holds(b, p, Directory(kept, n))
    ensures Holds(b, p + |Directory(kept, i)|, Central(kept[i], |Locals(kept[..i])|))
    ensures |Directory(kept, i + 1)| == |Directory(kept, i)| + |Central(kept[i], |Locals(kept[..i])|)|
    decreases n
  {
    hide Central, Locals;
    HoldsParts(b, p, Directory(kept, n - 1), Central(kept[n - 1], |Locals(kept[..n - 1])|));
    if i < n - 1 { CentralStands(kept, n - 1, b, p, i); }
  }

  // ----- reading one entry -----

  lemma LocalFits(f: StagedFile)
    requires |f.path| < 0x1_0000 && |f.bytes| < 0x1_0000_0000
    ensures Fits(LocalShape(), LocalValues(f))
  {
    Widths();
    CrcFits(f.bytes);
    hide CrcOf, Power;
  }

  lemma CentralFits(f: StagedFile, offset: nat)
    requires |f.path| < 0x1_0000 && |f.bytes| < 0x1_0000_0000 && offset < 0x1_0000_0000
    ensures Fits(CentralShape(), CentralValues(f, offset))
  {
    Widths();
    CrcFits(f.bytes);
    hide CrcOf, Power;
  }

  function EntryOf(f: StagedFile): Entry { Entry(f.path, f.bytes, CrcOf(f.bytes)) }

  function HeadOf(f: StagedFile, offset: nat): Head {
    Head(CENTRAL_SIG, 0, CrcOf(f.bytes), |f.bytes|, |f.path|, 0, 0, offset)
  }

  lemma HeadsOf(f: StagedFile, offset: nat)
    ensures CentralHead(CentralValues(f, offset)) == HeadOf(f, offset)
    ensures LocalHead(LocalValues(f)) == Head(LOCAL_SIG, 0, CrcOf(f.bytes), |f.bytes|, |f.path|, 0, 0, 0)
  {
    hide CrcOf, CentralValues, LocalValues;
  }

  lemma LocalReads(b: Bytes, p: nat, f: StagedFile)
    requires Holds(b, p, Local(f)) && |f.path| < 0x1_0000 && |f.bytes| < 0x1_0000_0000
    ensures ReadLocal(b, p, f.path, |f.bytes|, CrcOf(f.bytes)) == Some(EntryOf(f))
  {
    hide LocalShape, LocalValues, CrcOf, Encode, Take, Size, Fits, Wrapped;
    LocalFits(f);
    var head := Encode(LocalShape(), LocalValues(f));
    HoldsParts(b, p, head + f.path, f.bytes);
    HoldsParts(b, p, head, f.path);
    HeadsOf(f, 0);
    hide LocalHead;
    TakeEncoded(b, p, LocalShape(), LocalValues(f));
    WrappedFits(LocalShape(), LocalValues(f));
  }

  lemma CentralReads(b: Bytes, p: nat, f: StagedFile, offset: nat)
    requires Holds(b, p, Central(f, offset))
    requires |f.path| < 0x1_0000 && |f.bytes| < 0x1_0000_0000 && offset < 0x1_0000_0000
    ensures TakeCentral(b, p) == Some(HeadOf(f, offset))
    ensures Slice(b, p + Size(CentralShape()), |f.path|) == Some(f.path)
    ensures |Central(f, offset)| == Size(CentralShape()) + |f.path|
  {
    hide CentralShape, CentralValues, CentralHead, HeadOf, CrcOf, Encode, Take, Size, Fits, Wrapped;
    CentralFits(f, offset);
    HoldsParts(b, p, Encode(CentralShape(), CentralValues(f, offset)), f.path);
    TakeEncoded(b, p, CentralShape(), CentralValues(f, offset));
    WrappedFits(CentralShape(), CentralValues(f, offset));
    HeadsOf(f, offset);
  }

  lemma LocalFills(kept: seq<StagedFile>, b: Bytes, i: nat)
    requires i < |kept| && Holds(b, |Locals(kept[..i])|, Local(kept[i]))
    ensures |kept[i].bytes| <= |b| && |Locals(kept[..i])| <= |b|
  {
    hide Encode, Locals;
  }

  /** Where record `i` and its local header stand. */
  lemma RecordBounds(kept: seq<StagedFile>, b: Bytes, i: nat)
    requires i < |kept| && WithinLimits(kept) && b == Archive(kept)
    ensures Holds(b, |Locals(kept[..i])|, Local(kept[i]))
    ensures Holds(b, |Locals(kept)| + |Directory(kept, i)|, Central(kept[i], |Locals(kept[..i])|))
    ensures |Directory(kept, i + 1)| == |Directory(kept, i)| + |Central(kept[i], |Locals(kept[..i])|)|
    ensures |kept[i].path| < 0x1_0000 && |kept[i].bytes| < 0x1_0000_0000 && |Locals(kept[..i])| < 0x1_0000_0000
  {
    hide Locals, Local, Directory, Central, Archive;
    assert Holds(Locals(kept), 0, Locals(kept));
    hide Holds;
    ArchiveStands(kept);
    LocalStands(kept, b, i);
    LocalStands(kept, Locals(kept), i);
    CentralStands(kept, |kept|, b, |Locals(kept)|, i);
    LocalFills(kept, Locals(kept), i);
  }

  /** Everything the reader finds about record `i`. */
  lemma RecordReads(kept: seq<StagedFile>, b: Bytes, i: nat)
    requires i < |kept| && WithinLimits(kept) && b == Archive(kept)
    ensures var f, p, offset := kept[i], |Locals(kept)| + |Directory(kept, i)|, |Locals(kept[..i])|;
            && TakeCentral(b, p) == Some(HeadOf(f, offset))
            && Slice(b, p + Size(CentralShape()), |f.path|) == Some(f.path)
            && ReadLocal(b, offset, f.path, |f.bytes|, CrcOf(f.bytes)) == Some(EntryOf(f))
            && |Locals(kept)| + |Directory(kept, i + 1)| == p + Size(CentralShape()) + |f.path|
  {
    hide Holds, WithinLimits, Archive, Locals, Directory, Central, Encode, Take, Slice, ReadLocal,
         CrcOf, EntryOf, Local;
    hide CentralShape, CentralValues, Size, TakeCentral, HeadOf;
    RecordBounds(kept, b, i);
    CentralReads(b, |Locals(kept)| + |Directory(kept, i)|, kept[i], |Locals(kept[..i])|);
    LocalReads(b, |Locals(kept[..i])|, kept[i]);
  }

  /** The directory from record `i` on. */
  lemma {:induction false} DirectoryReads(kept: seq<StagedFile>, b: Bytes, i: nat)
    requires i <= |kept| && WithinLimits(kept) && b == Archive(kept)
    ensures ReadDirectory(b, |Locals(kept)| + |Directory(kept, i)|, |kept| - i) == Some(Entries(kept[i..]))
    decreases |kept| - i
  {
    hide Archive, Locals, Directory, Take, CrcOf, WithinLimits, EntryOf, ReadLocal, Slice;
    hide CentralShape, CentralValues, Size, TakeCentral, HeadOf;
    if i < |kept| {
      RecordReads(kept, b, i);
      DirectoryReads(kept, b, i + 1);
      EntriesFrom(kept, i);
      hide ReadDirectory, Entries;
      ReadOne(b, |Locals(kept)| + |Directory(kept, i)|, |kept| - i, kept[i], |Locals(kept[..i])|);
    }
  }

  function Entries(kept: seq<StagedFile>): seq<Entry> {
    if kept == [] then [] else [EntryOf(kept[0])] + Entries(kept[1..])
  }

  lemma EntriesFrom(kept: seq<StagedFile>, i: nat)
    requires i < |kept|
    ensures Entries(kept[i..]) == [EntryOf(kept[i])] + Entries(kept[i + 1..])
  {
    assert kept[i..][1..] == kept[i + 1..];
  }

  lemma ReadOne(b: Bytes, p: nat, n: nat, f: StagedFile, offset: nat)
    requires n > 0 && TakeCentral(b, p) == Some(HeadOf(f, offset))
    requires Slice(b, p + Size(CentralShape()), |f.path|) == Some(f.path)
    requires ReadLocal(b, offset, f.path, |f.bytes|, CrcOf(f.bytes)) == Some(EntryOf(f))
    ensures var rest := ReadDirectory(b, p + Size(CentralShape()) + |f.path|, n - 1);
            rest.Some? ==> ReadDirectory(b, p, n) == Some([EntryOf(f)] + rest.value)
  {
    hide TakeCentral, Slice, ReadLocal, CrcOf, EntryOf, CentralShape, Size;
  }

  lemma ArchiveStands(kept: seq<StagedFile>)
    ensures var b := Archive(kept); var body, dir := Locals(kept), Directory(kept, |kept|);
            && Holds(b, 0, body) && Holds(b, |body|, dir)
            && Holds(b, |body| + |dir|, Encode(EndShape(), EndValues(|kept|, |dir|, |body|)))
            && |b| == |body| + |dir| + Size(EndShape())
  {
    hide Locals, Directory, Encode, EndShape, EndValues, Size;
    var b, body, dir := Archive(kept), Locals(kept), Directory(kept, |kept|);
    HoldsParts(b, 0, body + dir, Encode(EndShape(), EndValues(|kept|, |dir|, |body|)));
    HoldsParts(b, 0, body, dir);
  }

  /** The end record as the reader finds it, whatever was staged. */
  lemma EndReads(kept: seq<StagedFile>)
    ensures var b, body, dir := Archive(kept), Locals(kept), Directory(kept, |kept|);
            |b| >= Size(EndShape())
            && Take(b, |b| - Size(EndShape()), EndShape())
               == Some(Wrapped(EndShape(), EndValues(|kept|, |dir|, |body|)))
  {
    hide Archive, Locals, Directory, Encode, Take, EndShape, EndValues, Holds, Size, Wrapped;
    ArchiveStands(kept);
    var values := EndValues(|kept|, |Directory(kept, |kept|)|, |Locals(kept)|);
    TakeEncoded(Archive(kept), |Archive(kept)| - Size(EndShape()), EndShape(), values);
  }

  lemma EndKeeps(count: nat, size: nat, start: nat)
    ensures var v := Wrapped(EndShape(), EndValues(count, size, start));
            |v| == 8 && v[0] == END_SIG && v[4] == count % 0x1_0000 && v[6] == start % 0x1_0000_0000 && v[7] == 0
  {
    Widths();
    hide Power;
  }

  /** Any archive is read from the directory's start, as far as its 32 bits say, and for as many
      records as the 16 bits of the count say. */
  lemma ReadsFrom(kept: seq<StagedFile>)
    ensures Read(Archive(kept))
            == ReadDirectory(Archive(kept), |Locals(kept)| % 0x1_0000_0000, |kept| % 0x1_0000)
  {
    hide Archive, Locals, Directory, Take, ReadDirectory, EndShape, EndValues, Read, Size, Wrapped;
    EndReads(kept);
    EndKeeps(|kept|, |Directory(kept, |kept|)|, |Locals(kept)|);
    ReadFrom(Archive(kept), Wrapped(EndShape(), EndValues(|kept|, |Directory(kept, |kept|)|, |Locals(kept)|)));
  }

  /** For any list of staged files within the field limits, reading the archive from its end
      record through the directory to the local headers gives each kept file's path, bytes and
      checksum, in order. */
  lemma ArchiveRoundTrip(kept: seq<StagedFile>)
    requires WithinLimits(kept)
    ensures Read(Archive(kept)) == Some(Entries(kept))
  {
    hide Archive, Locals, Directory, ReadDirectory, Entries, Read;
    ReadsFrom(kept);
    DirectoryReads(kept, Archive(kept), 0);
    DirectoryEmpty(kept);
  }

  lemma DirectoryEmpty(kept: seq<StagedFile>)
    ensures kept[0..] == kept && Directory(kept, 0) == []
  {
  }

  /** An end record without a comment, at the very end, is the one the reader finds. */
  lemma ReadFrom(b: Bytes, v: seq<nat>)
    requires |b| >= Size(EndShape()) && Take(b, |b| - Size(EndShape()), EndShape()) == Some(v)
    requires |v| == 8 && v[0] == END_SIG && v[7] == 0
    ensures Read(b) == ReadDirectory(b, v[6], v[4])
  {
    hide Take, ReadDirectory, EndShape, Size;
  }

  // ----- beyond the limits -----

  /** A record's name and data are no longer than its fields can say. */
  lemma HeadBounds(b: Bytes, p: nat)
    requires TakeCentral(b, p).Some?
    ensures TakeCentral(b, p).value.path < 0x1_0000 && TakeCentral(b, p).value.size < 0x1_0000_0000
  {
    Widths();
    TakenFit(b, p, CentralShape());
    var v := Take(b, p, CentralShape()).value;
    assert v[10] < Power(CentralShape()[10]) && v[8] < Power(CentralShape()[8]);
    hide Power, Take;
  }

  /** Whatever is read has as many entries as asked for, each with a name and data that fit their fields. */
  lemma {:induction false} ReadBounds(b: Bytes, p: nat, n: nat)
    requires ReadDirectory(b, p, n).Some?
    ensures var r := ReadDirectory(b, p, n).value;
            |r| == n && forall i :: 0 <= i < n ==> |r[i].path| < 0x1_0000 && |r[i].bytes| < 0x1_0000_0000
    decreases n
  {
    hide TakeCentral, TakeLocal, CrcOf, CentralShape, LocalShape, Size;
    if n > 0 {
      HeadBounds(b, p);
      var h := TakeCentral(b, p).value;
      var q := p + Size(CentralShape());
      ReadBounds(b, q + h.path + h.extra + h.comment, n - 1);
    }
  }

  // ----- which files are kept -----

  /** The bytes staged last under a path. */
  function LastStaged(files: seq<StagedFile>, path: Bytes): Option<Bytes> {
    if files == [] then None
    else if files[|files| - 1].path == path then Some(files[|files| - 1].bytes)
    else LastStaged(files[..|files| - 1], path)
  }

  ghost predicate DistinctPaths(kept: seq<StagedFile>) {
    forall i, j :: 0 <= i < j < |kept| ==> kept[i].path != kept[j].path
  }

  ghost predicate Keeps(kept: seq<StagedFile>, path: Bytes) {
    exists i :: 0 <= i < |kept| && kept[i].path == path
  }

  ghost predicate Lists(entries: seq<Entry>, path: Bytes) {
    exists i :: 0 <= i < |entries| && entries[i].path == path
  }

  /** Each staged path is kept once, with the bytes staged last, and nothing else is kept. */
  lemma {:induction false} KeptIsLastPerPath(files: seq<StagedFile>)
    ensures DistinctPaths(Kept(files))
    ensures forall i :: 0 <= i < |Kept(files)| ==> LastStaged(files, Kept(files)[i].path) == Some(Kept(files)[i].bytes)
    ensures forall path :: LastStaged(files, path).Some? ==> Keeps(Kept(files), path)
  {
    if files != [] {
      var before, f := files[..|files| - 1], files[|files| - 1];
      KeptIsLastPerPath(before);
      var kept, at := Kept(before), IndexOf(Kept(before), f.path);
      hide IndexOf;
      assert Kept(files) == if at < |kept| then kept[at := f] else kept + [f];
      forall path | LastStaged(files, path).Some? ensures Keeps(Kept(files), path) {
        if path == f.path {
          assert Kept(files)[at].path == path;
        } else {
          assert LastStaged(before, path).Some? && Keeps(kept, path);
          var i :| 0 <= i < |kept| && kept[i].path == path;
          assert Kept(files)[i].path == path;
        }
      }
    }
  }

  /** One entry per staged path, with the bytes staged last under it and their checksum. */
  ghost predicate GivesBack(r: Option<seq<Entry>>, files: seq<StagedFile>) {
    && r.Some? && |r.value| == |Kept(files)|
    && (forall i :: 0 <= i < |r.value| ==>
          LastStaged(files, r.value[i].path) == Some(r.value[i].bytes)
          && r.value[i].crc == CrcOf(r.value[i].bytes))
    && (forall i, j :: 0 <= i < j < |r.value| ==> r.value[i].path != r.value[j].path)
    && (forall path :: LastStaged(files, path).Some? ==> Lists(r.value, path))
  }

  /** Reading back any staged list within the limits. */
  lemma StagedRoundTrip(files: seq<StagedFile>)
    requires WithinLimits(Kept(files))
    ensures GivesBack(Read(Archive(Kept(files))), files)
  {
    hide Kept, LastStaged, Read, Archive, Entries, CrcOf, WithinLimits, Lists, Keeps;
    ArchiveRoundTrip(Kept(files));
    EntriesAreLast(files);
  }

  lemma ArchiveBounds(kept: seq<StagedFile>)
    requires Read(Archive(kept)).Some?
    ensures var r := Read(Archive(kept)).value;
            |r| == |kept| % 0x1_0000 && forall i :: 0 <= i < |r| ==> |r[i].path| < 0x1_0000
  {
    hide Read, Archive, ReadDirectory, Locals;
    ReadsFrom(kept);
    ReadBounds(Archive(kept), |Locals(kept)| % 0x1_0000_0000, |kept| % 0x1_0000);
  }

  lemma ListedFits(r: seq<Entry>, path: Bytes)
    requires Lists(r, path) && forall i :: 0 <= i < |r| ==> |r[i].path| < 0x1_0000
    ensures |path| < 0x1_0000
  {
  }

  /** An archive that gives everything back had room for the count and the names. */
  lemma GivenBackFits(files: seq<StagedFile>)
    requires GivesBack(Read(Archive(Kept(files))), files)
    ensures CountsFit(Kept(files))
  {
    hide Kept, LastStaged, Read, Archive, CrcOf, Lists, Keeps;
    var kept := Kept(files);
    ArchiveBounds(kept);
    KeptIsLastPerPath(files);
    forall i | 0 <= i < |kept| ensures |kept[i].path| < 0x1_0000 {
      ListedFits(Read(Archive(kept)).value, kept[i].path);
    }
  }

  /** For archives whose directory starts within 32 bits: reading gives back what was staged if and
      only if the count and every name fit 16 bits. */
  lemma ReadsBackIff(files: seq<StagedFile>)
    requires |Locals(Kept(files))| < 0x1_0000_0000
    ensures GivesBack(Read(Archive(Kept(files))), files) <==> CountsFit(Kept(files))
  {
    hide GivesBack, CountsFit, Read, Archive, Locals, Kept;
    if CountsFit(Kept(files)) { StagedRoundTrip(files); }
    if GivesBack(Read(Archive(Kept(files))), files) { GivenBackFits(files); }
  }

  /** Beyond, the reader goes to the low 32 bits of the start, among the files' own bytes: unless
      the bytes there happen to be a directory record, nothing is read back. */
  lemma BeyondIsLost(files: seq<StagedFile>)
    requires |Kept(files)| % 0x1_0000 > 0
    requires var h := TakeCentral(Archive(Kept(files)), |Locals(Kept(files))| % 0x1_0000_0000);
             h.None? || h.value.sig != CENTRAL_SIG
    ensures Read(Archive(Kept(files))).None?
  {
    hide Archive, Locals, Kept, Read, TakeCentral;
    ReadsFrom(Kept(files));
  }

  lemma EntriesAreLast(files: seq<StagedFile>)
    ensures var r := Entries(Kept(files));
            && |r| == |Kept(files)|
            && (forall i :: 0 <= i < |r| ==>
                  LastStaged(files, r[i].path) == Some(r[i].bytes) && r[i].crc == CrcOf(r[i].bytes))
            && (forall i, j :: 0 <= i < j < |r| ==> r[i].path != r[j].path)
            && (forall path :: LastStaged(files, path).Some? ==> Lists(r, path))
  {
    KeptIsLastPerPath(files);
    EntriesAt(Kept(files));
    hide Kept, LastStaged, Entries, CrcOf, Lists, Keeps;
    forall path | LastStaged(files, path).Some? ensures Lists(Entries(Kept(files)), path) {
      KeptIsListed(Kept(files), path);
    }
  }

  lemma KeptIsListed(kept: seq<StagedFile>, path: Bytes)
    requires Keeps(kept, path)
    ensures Lists(Entries(kept), path)
  {
    EntriesAt(kept);
    hide Entries;
    var i :| 0 <= i < |kept| && kept[i].path == path;
    assert Entries(kept)[i].path == path;
  }

  lemma {:induction false} EntriesAt(kept: seq<StagedFile>)
    ensures |Entries(kept)| == |kept| && forall i :: 0 <= i < |kept| ==> Entries(kept)[i] == EntryOf(kept[i])
  {
    hide EntryOf;
    if kept != [] { EntriesAt(kept[1..]); }
  }
}
