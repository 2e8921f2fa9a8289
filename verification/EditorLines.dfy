/** Byte offsets and line/column positions in the editor's text. */
module EditorLines {

  /** Where each line starts. */
  function Starts(text: string): (r: seq<nat>)
    ensures r != [] && r[0] == 0 && r[|r| - 1] <= |text|
    ensures forall i, j :: 0 <= i < j < |r| ==> r[i] < r[j]
  {
    if text == "" then [0]
    else
      var before := Starts(text[..|text| - 1]);
      if text[|text| - 1] == '\n' then before + [|text|] else before
  }

  function Newlines(text: string): nat {
    if text == "" then 0 else Newlines(text[..|text| - 1]) + if text[|text| - 1] == '\n' then 1 else 0
  }

  /** Where line `line` ends, its newline not counted. */
  function LineEnd(text: string, line: nat): int
    requires line < |Starts(text)|
  {
    if line + 1 < |Starts(text)| then Starts(text)[line + 1] - 1 else |text|
  }

  /** The line of an offset: how many newlines stand before it. Beyond the text, where an old
      anchor can point, that is the last line. */
  function LineOf(text: string, byte: nat): nat {
    Newlines(if byte <= |text| then text[..byte] else text)
  }

  function Clamped(x: int, lo: int, hi: int): int { if x < lo then lo else if x < hi then x else hi }

  /** The offset of a position, the line kept inside the text and the column inside the line. */
  function Offset(text: string, line: int, col: int): int {
    var l := Clamped(line, 0, |Starts(text)| - 1);
    Starts(text)[l] + Clamped(col, 0, LineEnd(text, l) - Starts(text)[l])
  }

  method LineStarts(text: string) returns (starts: seq<nat>)
    ensures starts == Starts(text)
  {
    starts := [0];
    var i := 0;
    while i < |text|
      invariant i <= |text| && starts == Starts(text[..i])
    {
      assert text[..i + 1][..i] == text[..i];
      if text[i] == '\n' { starts := starts + [i + 1]; }
      i := i + 1;
    }
    assert text[..i] == text;
  }

  /** Binary search for the last line that starts at or before the byte. */
  method ByteToLineCol(text: string, byte: nat, starts: seq<nat>) returns (line: nat, col: nat)
    requires starts == Starts(text)
    ensures line == LineOf(text, byte) && line < |starts| && starts[line] + col == byte
  {
    hide Starts, LineOf;
    var lo, hi := 0, |starts| - 1;
    while lo < hi
      invariant 0 <= lo <= hi < |starts| && starts[lo] <= byte
      invariant forall i :: hi < i < |starts| ==> byte < starts[i]
    {
      var mid := (lo + hi + 1) / 2;
      if starts[mid] <= byte { lo := mid; } else { hi := mid - 1; }
    }
    line, col := lo, byte - starts[lo];
    FoundLine(text, byte, line);
  }

  /** The line that starts at or before the offset and is the last to do so. */
  lemma FoundLine(text: string, byte: nat, line: nat)
    requires line < |Starts(text)| && Starts(text)[line] <= byte
    requires line + 1 < |Starts(text)| ==> byte < Starts(text)[line + 1]
    ensures line == LineOf(text, byte)
  {
    hide Starts, Newlines;
    LastLine(text);
    if byte <= |text| {
      LineContains(text, byte);
      OneLine(text, byte, line, LineOf(text, byte));
    }
  }

  method LineColToByte(text: string, starts: seq<nat>, line: int, col: int) returns (byte: int)
    requires starts == Starts(text)
    ensures byte == Offset(text, line, col)
  {
    var l := if line < 0 then 0 else if line < |starts| - 1 then line else |starts| - 1;
    var lineStart := starts[l];
    var lineEnd := if l + 1 < |starts| then starts[l + 1] - 1 else |text|;
    var width := lineEnd - lineStart;
    byte := lineStart + if col < 0 then 0 else if col < width then col else width;
  }

  /** A line ends before any later one starts. */
  lemma LinesInOrder(text: string, k: nat, l: nat)
    requires k < l < |Starts(text)|
    ensures LineEnd(text, k) < Starts(text)[l]
  {
    var s := Starts(text);
    assert k + 1 == l || s[k + 1] < s[l];
  }

  /** The lines partition the offsets: each offset lies in at most one line. */
  lemma OneLine(text: string, byte: nat, k: nat, l: nat)
    requires k < |Starts(text)| && l < |Starts(text)|
    requires Starts(text)[k] <= byte <= LineEnd(text, k) && Starts(text)[l] <= byte <= LineEnd(text, l)
    ensures k == l
  {
    hide Starts, LineEnd;
    if k < l { LinesInOrder(text, k, l); } else if l < k { LinesInOrder(text, l, k); }
  }

  /** And in the line its newlines count. */
  lemma {:induction false} LineContains(text: string, byte: nat)
    requires byte <= |text|
    ensures var line := LineOf(text, byte);
            line < |Starts(text)| && Starts(text)[line] <= byte <= LineEnd(text, line)
    decreases |text|
  {
    LastLine(text);
    if byte == |text| {
      assert text[..byte] == text;
    } else {
      var before := text[..|text| - 1];
      assert before[..byte] == text[..byte];
      LineContains(before, byte);
    }
  }

  /** The last line's number is the number of newlines. */
  lemma {:induction false} LastLine(text: string)
    ensures |Starts(text)| - 1 == Newlines(text)
  {
    if text != "" { LastLine(text[..|text| - 1]); }
  }

  lemma LineEndInside(text: string, line: nat)
    requires line < |Starts(text)|
    ensures LineEnd(text, line) <= |text|
  {
    var s := Starts(text);
    if line + 1 < |s| { assert s[line + 1] < s[|s| - 1] || line + 1 == |s| - 1; }
  }

  /** An offset goes to a line and column and back unchanged if and only if it lies in the text;
      one beyond comes back as the text's end. */
  lemma OffsetRoundTrip(text: string, byte: nat)
    ensures var line := LineOf(text, byte);
            && line < |Starts(text)|
            && Offset(text, line, byte - Starts(text)[line]) == if byte <= |text| then byte else |text|
  {
    LastLine(text);
    hide Starts, Newlines;
    if byte <= |text| { LineContains(text, byte); }
  }

  /** A column inside its line goes to an offset and back unchanged. */
  lemma PositionRoundTrip(text: string, line: nat, col: nat)
    requires line < |Starts(text)| && Starts(text)[line] + col <= LineEnd(text, line)
    ensures var byte := Offset(text, line, col);
            0 <= byte <= |text| && LineOf(text, byte) == line && byte - Starts(text)[line] == col
  {
    LineEndInside(text, line);
    var byte := Offset(text, line, col);
    assert byte == Starts(text)[line] + col;
    LineContains(text, byte);
    OneLine(text, byte, line, LineOf(text, byte));
  }
}
