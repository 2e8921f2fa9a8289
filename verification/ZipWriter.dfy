/** The archive writer, pushing bytes into its buffer, proved to lay out exactly `Archive`. */
module ZipWriter {
  import Crc32
  import opened StoredZip

  /** What the central directory needs to know of a written file. */
  datatype Record = Record(name: Bytes, crc: nat, size: nat, offset: nat)

  function RecordOf(kept: seq<StagedFile>, i: nat): Record
    requires i < |kept|
  {
    Record(kept[i].path, CrcOf(kept[i].bytes), |kept[i].bytes|, |Locals(kept[..i])|)
  }

  /** The first `k` fields of a header stand after `start`. */
  ghost predicate Written(start: Bytes, out: Bytes, shape: seq<nat>, values: seq<nat>, k: nat) {
    k <= |shape| == |values| && out == start + Encode(shape[..k], values[..k])
  }

  lemma Begun(start: Bytes, shape: seq<nat>, values: seq<nat>)
    requires |shape| == |values|
    ensures Written(start, start, shape, values, 0)
  {
    assert Encode(shape[..0], values[..0]) == [];
  }

  lemma Finished(start: Bytes, out: Bytes, shape: seq<nat>, values: seq<nat>)
    requires Written(start, out, shape, values, |shape|)
    ensures |shape| == |values| && out == start + Encode(shape, values)
  {
    assert shape[..|shape|] == shape && values[..|values|] == values;
  }

  lemma Wrote(start: Bytes, out: Bytes, shape: seq<nat>, values: seq<nat>, k: nat)
    requires k < |shape| && Written(start, out, shape, values, k)
    ensures Written(start, out + Le(shape[k], values[k]), shape, values, k + 1)
  {
    hide Encode, Le;
    EncodeLast(shape[..k], values[..k], shape[k], values[k]);
    assert shape[..k + 1] == shape[..k] + [shape[k]] && values[..k + 1] == values[..k] + [values[k]];
  }

  lemma {:induction false} EncodeLast(shape: seq<nat>, values: seq<nat>, w: nat, x: nat)
    requires |shape| == |values|
    ensures Encode(shape + [w], values + [x]) == Encode(shape, values) + Le(w, x)
    decreases |shape|
  {
    if shape == [] {
      assert shape + [w] == [w] && values + [x] == [x] && Encode([w], [x]) == Le(w, x) + Encode([w][1..], [x][1..]);
    } else {
      EncodeLast(shape[1..], values[1..], w, x);
      assert (shape + [w])[1..] == shape[1..] + [w] && (values + [x])[1..] == values[1..] + [x];
    }
  }

  lemma LocalFields(f: StagedFile)
    ensures var s, v := LocalShape(), LocalValues(f);
            && s[0] == 4 && s[1] == 2 && s[2] == 2 && s[3] == 2 && s[4] == 2 && s[5] == 2
            && s[6] == 4 && s[7] == 4 && s[8] == 4 && s[9] == 2 && s[10] == 2
            && v[1] == 20 && v[2] == 0 && v[3] == 0 && v[4] == 0 && v[5] == 0
  {
    hide CrcOf;
  }

  lemma CentralFields(f: StagedFile, offset: nat)
    ensures var s, v := CentralShape(), CentralValues(f, offset);
            && s[0] == 4 && s[1] == 2 && s[2] == 2 && s[3] == 2 && s[4] == 2 && s[5] == 2 && s[6] == 2
            && s[7] == 4 && s[8] == 4 && s[9] == 4 && s[10] == 2 && s[11] == 2 && s[12] == 2 && s[13] == 2 && s[14] == 2
            && s[15] == 4 && s[16] == 4
            && v[1] == 20 && v[2] == 20 && v[3] == 0 && v[4] == 0 && v[5] == 0 && v[6] == 0
            && v[13] == 0 && v[14] == 0 && v[15] == 0
  {
    hide CrcOf;
  }

  class ZipWriter {
    var out: Bytes
    const checksum: Crc32.Checksum

    constructor ()
      ensures out == [] && fresh(checksum) && fresh(checksum.table) && checksum.Valid()
    {
      out := [];
      checksum := new Crc32.Checksum();
    }

    method Put16(x: nat)
      modifies this`out
      ensures out == old(out) + Le(2, x)
    {
      out := out + [x % 256];
      out := out + [x / 256 % 256];
      assert Le(2, x) == [x % 256] + Le(1, x / 256);
    }

    method Put32(x: nat)
      modifies this`out
      ensures out == old(out) + Le(4, x)
    {
      out := out + [x % 256];
      out := out + [x / 256 % 256];
      out := out + [x / 256 / 256 % 256];
      out := out + [x / 256 / 256 / 256 % 256];
      assert Le(2, x / 256 / 256) == [x / 256 / 256 % 256] + Le(1, x / 256 / 256 / 256);
      assert Le(4, x) == [x % 256] + ([x / 256 % 256] + Le(2, x / 256 / 256));
    }

    /** The next field of the header being written, a half word. */
    method Field16(x: nat, ghost start: Bytes, ghost shape: seq<nat>, ghost values: seq<nat>, ghost k: nat)
      requires k < |shape| == |values| && shape[k] == 2 && values[k] == x && Written(start, out, shape, values, k)
      modifies this`out
      ensures Written(start, out, shape, values, k + 1)
    {
      hide Written, Le;
      Wrote(start, out, shape, values, k);
      Put16(x);
    }

    method Field32(x: nat, ghost start: Bytes, ghost shape: seq<nat>, ghost values: seq<nat>, ghost k: nat)
      requires k < |shape| == |values| && shape[k] == 4 && values[k] == x && Written(start, out, shape, values, k)
      modifies this`out
      ensures Written(start, out, shape, values, k + 1)
    {
      hide Written, Le;
      Wrote(start, out, shape, values, k);
      Put32(x);
    }

    method Sum(data: Bytes) returns (crc: nat)
      requires checksum.Valid()
      modifies checksum, checksum.table
      ensures checksum.Valid() && crc == CrcOf(data)
    {
      var sum := checksum.Of(Raw(data));
      crc := sum as int;
    }

    method PutLocalHeader(f: StagedFile, crc: nat)
      requires crc == CrcOf(f.bytes)
      modifies this`out
      ensures out == old(out) + Encode(LocalShape(), LocalValues(f))
    {
      hide Encode, Le, Written, LocalShape, LocalValues, CrcOf;
      ghost var start, shape, values := out, LocalShape(), LocalValues(f);
      LocalFields(f);
      Begun(start, shape, values);
      Field32(LOCAL_SIG, start, shape, values, 0);
      Field16(20, start, shape, values, 1);
      Field16(0, start, shape, values, 2);
      Field16(0, start, shape, values, 3);
      Field16(0, start, shape, values, 4);
      Field16(0, start, shape, values, 5);
      Field32(crc, start, shape, values, 6);
      Field32(|f.bytes|, start, shape, values, 7);
      Field32(|f.bytes|, start, shape, values, 8);
      Field16(|f.path|, start, shape, values, 9);
      Field16(0, start, shape, values, 10);
      Finished(start, out, shape, values);
    }

    method PutLocal(f: StagedFile) returns (crc: nat)
      requires checksum.Valid()
      modifies this`out, checksum, checksum.table
      ensures checksum.Valid() && crc == CrcOf(f.bytes) && out == old(out) + Local(f)
    {
      hide Encode, LocalShape, LocalValues, CrcOf;
      var name, data := f.path, f.bytes;
      crc := Sum(data);
      PutLocalHeader(f, crc);
      out := out + name;
      out := out + data;
      assert out == old(out) + (Encode(LocalShape(), LocalValues(f)) + name + data);
    }

    method PutCentral(c: Record, ghost f: StagedFile)
      requires c == Record(f.path, CrcOf(f.bytes), |f.bytes|, c.offset)
      modifies this`out
      ensures out == old(out) + Central(f, c.offset)
    {
      hide Encode, Le, Written, CrcOf, CentralShape, CentralValues;
      ghost var start, shape, values := out, CentralShape(), CentralValues(f, c.offset);
      CentralFields(f, c.offset);
      Begun(start, shape, values);
      Field32(CENTRAL_SIG, start, shape, values, 0);
      Field16(20, start, shape, values, 1);
      Field16(20, start, shape, values, 2);
      Field16(0, start, shape, values, 3);
      Field16(0, start, shape, values, 4);
      Field16(0, start, shape, values, 5);
      Field16(0, start, shape, values, 6);
      Field32(c.crc, start, shape, values, 7);
      Field32(c.size, start, shape, values, 8);
      Field32(c.size, start, shape, values, 9);
      Field16(|c.name|, start, shape, values, 10);
      Field16(0, start, shape, values, 11);
      Field16(0, start, shape, values, 12);
      Field16(0, start, shape, values, 13);
      Field16(0, start, shape, values, 14);
      Field32(0, start, shape, values, 15);
      Field32(c.offset, start, shape, values, 16);
      Finished(start, out, shape, values);
      out := out + c.name;
      assert out == start + (Encode(shape, values) + c.name);
    }

    method PutEnd(central: seq<Record>, cdSize: nat, cdStart: nat)
      modifies this`out
      ensures out == old(out) + Encode(EndShape(), EndValues(|central|, cdSize, cdStart))
    {
      hide Encode, Le, Written;
      ghost var start, shape, values := out, EndShape(), EndValues(|central|, cdSize, cdStart);
      Begun(start, shape, values);
      Field32(END_SIG, start, shape, values, 0);
      Field16(0, start, shape, values, 1);
      Field16(0, start, shape, values, 2);
      Field16(|central|, start, shape, values, 3);
      Field16(|central|, start, shape, values, 4);
      Field32(cdSize, start, shape, values, 5);
      Field32(cdStart, start, shape, values, 6);
      Field16(0, start, shape, values, 7);
      Finished(start, out, shape, values);
    }

    /** Later files replace earlier ones of the same path, in their place. */
    static method Deduplicate(files: seq<StagedFile>) returns (kept: seq<StagedFile>)
      ensures kept == Kept(files)
    {
      kept := [];
      var n := 0;
      while n < |files|
        invariant n <= |files| && kept == Kept(files[..n])
      {
        var f := files[n];
        assert files[..n + 1][..n] == files[..n];
        var replaced, k := false, 0;
        while k < |kept| && !replaced
          invariant k <= |kept| && |kept| == |Kept(files[..n])|
          invariant if replaced then kept == Keep(Kept(files[..n]), f) else kept == Kept(files[..n])
          invariant !replaced ==> forall i :: 0 <= i < k ==> kept[i].path != f.path
        {
          if kept[k].path == f.path {
            FirstOfPath(kept, f.path, k);
            kept := kept[k := f];
            replaced := true;
          }
          k := k + 1;
        }
        if !replaced {
          FirstOfPath(kept, f.path, |kept|);
          kept := kept + [f];
        }
        n := n + 1;
      }
      assert files[..n] == files;
    }

    static lemma FirstOfPath(kept: seq<StagedFile>, path: Bytes, k: nat)
      requires k <= |kept| && (k < |kept| ==> kept[k].path == path) && forall i :: 0 <= i < k ==> kept[i].path != path
      ensures IndexOf(kept, path) == k
    {
      var at := IndexOf(kept, path);
      hide IndexOf;
      assert at < |kept| ==> kept[at].path == path;
      assert k < |kept| ==> kept[k].path == path;
    }

    /** The local headers and data, and what the directory will say of them. */
    method PutFiles(kept: seq<StagedFile>) returns (central: seq<Record>)
      requires out == [] && checksum.Valid()
      modifies this`out, checksum, checksum.table
      ensures checksum.Valid() && out == Locals(kept)
      ensures |central| == |kept| && forall k :: 0 <= k < |kept| ==> central[k] == RecordOf(kept, k)
    {
      hide Local, CrcOf;
      central := [];
      var i := 0;
      while i < |kept|
        invariant i == |central| <= |kept| && checksum.Valid() && out == Locals(kept[..i])
        invariant forall k :: 0 <= k < i ==> central[k] == RecordOf(kept, k)
      {
        var offset := |out|;
        var crc := PutLocal(kept[i]);
        assert kept[..i + 1][..i] == kept[..i];
        central := central + [Record(kept[i].path, crc, |kept[i].bytes|, offset)];
        i := i + 1;
      }
      assert kept[..i] == kept;
    }

    method PutDirectory(central: seq<Record>, ghost kept: seq<StagedFile>)
      requires |central| == |kept| && forall k :: 0 <= k < |kept| ==> central[k] == RecordOf(kept, k)
      modifies this`out
      ensures out == old(out) + Directory(kept, |kept|)
    {
      hide Central, Locals, CrcOf;
      var i := 0;
      while i < |central|
        invariant i <= |central| && out == old(out) + Directory(kept, i)
      {
        PutCentral(central[i], kept[i]);
        i := i + 1;
      }
    }

    /** buildStoredZip. */
    method Build(files: seq<StagedFile>)
      requires out == [] && checksum.Valid()
      modifies this`out, checksum, checksum.table
      ensures checksum.Valid() && out == Archive(Kept(files))
    {
      hide Locals, Directory, Encode, Kept;
      var kept := Deduplicate(files);
      var central := PutFiles(kept);
      var cdStart := |out|;
      PutDirectory(central, kept);
      var cdSize := |out| - cdStart;
      PutEnd(central, cdSize, cdStart);
    }
  }
}
