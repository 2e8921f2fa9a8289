/** The script editor's buffer: text, cursor, selection, and the two stacks of saved states. */
module EditorBuffer {

  const MAX_UNDO: nat := 500

  datatype EditKind = None | Insert | Delete | Other

  /** A remembered state. The anchor is -1 without a selection, and otherwise any offset at all. */
  datatype Saved = Saved(text: string, cursor: nat, anchor: int)

  datatype Buffer = Buffer(text: string, cursor: nat, anchor: int, undo: seq<Saved>, redo: seq<Saved>,
                           last: EditKind, dirty: bool)

  function Now(b: Buffer): Saved { Saved(b.text, b.cursor, b.anchor) }

  /** Every cursor, live or saved, lies in its own text, and the stacks together are bounded. */
  ghost predicate Valid(b: Buffer) {
    && b.cursor <= |b.text|
    && (forall i :: 0 <= i < |b.undo| ==> b.undo[i].cursor <= |b.undo[i].text|)
    && (forall i :: 0 <= i < |b.redo| ==> b.redo[i].cursor <= |b.redo[i].text|)
    && |b.undo| + |b.redo| <= MAX_UNDO
  }

  // ----- selection -----

  predicate HasSelection(b: Buffer) { b.anchor >= 0 && b.anchor != b.cursor }

  function Min(a: int, b: int): int { if a < b then a else b }
  function Max(a: int, b: int): int { if a < b then b else a }

  function SelBegin(b: Buffer): int { if HasSelection(b) then Min(b.anchor, b.cursor) else b.cursor }
  function SelEnd(b: Buffer): int { if HasSelection(b) then Max(b.anchor, b.cursor) else b.cursor }

  /** Erasing past the end stops at the end. */
  function Erased(text: string, from: int, to: int): string {
    if 0 <= from <= |text| && from <= to then text[..from] + text[Min(to, |text|)..] else text
  }

  function Inserted(text: string, at: nat, s: string): string {
    if at <= |text| then text[..at] + s + text[at..] else text
  }

  // ----- edits -----

  /** Consecutive insertions, or deletions, share the state saved before the first of them. */
  predicate Grouped(b: Buffer, kind: EditKind) {
    b.undo != [] && b.last == kind && (kind == Insert || kind == Delete)
  }

  function PushUndo(b: Buffer, kind: EditKind): Buffer {
    if Grouped(b, kind) then b.(redo := [])
    else
      var pushed := b.undo + [Now(b)];
      b.(undo := if |pushed| > MAX_UNDO then pushed[1..] else pushed, redo := [], last := kind)
  }

  function DeleteSelection(b: Buffer): Buffer {
    if !HasSelection(b) then b
    else PushUndo(b, Other).(text := Erased(b.text, SelBegin(b), SelEnd(b)),
                             cursor := SelBegin(b), anchor := -1, dirty := true)
  }

  function InsertText(b: Buffer, s: string, kind: EditKind): Buffer {
    var b1 := if HasSelection(b) then DeleteSelection(b).(last := Other) else b;
    PushUndo(b1, kind).(text := Inserted(b1.text, b1.cursor, s), cursor := b1.cursor + |s|, dirty := true)
  }

  /** Backspace: `target` is the boundary before the cursor. */
  function Backspace(b: Buffer, target: nat): Buffer {
    if HasSelection(b) then DeleteSelection(b)
    else if b.cursor > 0 && target <= b.cursor then
      PushUndo(b, Delete).(text := Erased(b.text, target, b.cursor), cursor := target, dirty := true)
    else b
  }

  /** Delete: `target` is the boundary after the cursor. */
  function DeleteForward(b: Buffer, target: nat): Buffer {
    if HasSelection(b) then DeleteSelection(b)
    else if b.cursor < |b.text| && b.cursor <= target then
      PushUndo(b, Delete).(text := Erased(b.text, b.cursor, target), dirty := true)
    else b
  }

  /** The menu's Cut saves the state itself before deleting. */
  function Cut(b: Buffer): Buffer {
    if HasSelection(b) then DeleteSelection(PushUndo(b, Other)).(dirty := true) else b
  }

  function MoveTo(b: Buffer, pos: int, extend: bool): Buffer {
    b.(anchor := if !extend then -1 else if b.anchor < 0 then b.cursor else b.anchor,
       cursor := Max(0, Min(pos, |b.text|)))
  }

  function SelectAll(b: Buffer): Buffer { b.(anchor := 0, cursor := |b.text|) }

  function Restore(b: Buffer, s: Saved): Buffer {
    b.(text := s.text, cursor := Min(s.cursor, |s.text|), anchor := s.anchor, dirty := true, last := Other)
  }

  function Undo(b: Buffer): Buffer {
    if b.undo == [] then b
    else
      var n := |b.undo| - 1;
      Restore(b, b.undo[n]).(undo := b.undo[..n], redo := b.redo + [Now(b)])
  }

  function Redo(b: Buffer): Buffer {
    if b.redo == [] then b
    else
      var n := |b.redo| - 1;
      Restore(b, b.redo[n]).(redo := b.redo[..n], undo := b.undo + [Now(b)])
  }

  // ----- the buffer, in place -----

  class CodeBuffer {
    var text: string
    var cursor: nat
    var anchor: int
    var undoStack: seq<Saved>
    var redoStack: seq<Saved>
    var lastEditKind: EditKind
    var dirty: bool

    ghost function State(): Buffer
      reads this
    {
      Buffer(text, cursor, anchor, undoStack, redoStack, lastEditKind, dirty)
    }

    constructor (source: string)
      ensures State() == Buffer(source, 0, -1, [], [], None, false)
    {
      text, cursor, anchor := source, 0, -1;
      undoStack, redoStack, lastEditKind, dirty := [], [], None, false;
    }

    predicate Selecting()
      reads this
    {
      anchor >= 0 && anchor != cursor
    }

    method Push(kind: EditKind)
      modifies this
      ensures State() == PushUndo(old(State()), kind)
    {
      if undoStack != [] && lastEditKind == kind && (kind == Insert || kind == Delete) {
        redoStack := [];
        lastEditKind := kind;
        return;
      }
      undoStack := undoStack + [Saved(text, cursor, anchor)];
      if |undoStack| > MAX_UNDO { undoStack := undoStack[1..]; }
      redoStack := [];
      lastEditKind := kind;
    }

    method EraseSelection()
      modifies this
      ensures State() == DeleteSelection(old(State()))
    {
      if !Selecting() { return; }
      var a, b := Min(anchor, cursor), Max(anchor, cursor);
      Push(Other);
      text := Erased(text, a, b);
      cursor, anchor, dirty := a, -1, true;
    }

    method Type(s: string, kind: EditKind)
      modifies this
      ensures State() == InsertText(old(State()), s, kind)
    {
      if Selecting() {
        EraseSelection();
        lastEditKind := Other;
      }
      Push(kind);
      text := Inserted(text, cursor, s);
      cursor := cursor + |s|;
      dirty := true;
    }

    method OnBackspace(target: nat)
      modifies this
      ensures State() == Backspace(old(State()), target)
    {
      if Selecting() {
        EraseSelection();
      } else if cursor > 0 && target <= cursor {
        Push(Delete);
        text := Erased(text, target, cursor);
        cursor, dirty := target, true;
      }
    }

    method OnDelete(target: nat)
      modifies this
      ensures State() == DeleteForward(old(State()), target)
    {
      if Selecting() {
        EraseSelection();
      } else if cursor < |text| && cursor <= target {
        Push(Delete);
        text := Erased(text, cursor, target);
        dirty := true;
      }
    }

    method OnCut()
      modifies this
      ensures State() == Cut(old(State()))
    {
      if Selecting() {
        Push(Other);
        EraseSelection();
        dirty := true;
      }
    }

    method MoveCursorTo(pos: int, extend: bool)
      modifies this
      ensures State() == MoveTo(old(State()), pos, extend)
    {
      if extend {
        if anchor < 0 { anchor := cursor; }
      } else {
        anchor := -1;
      }
      cursor := Max(0, Min(pos, |text|));
    }

    method ApplyUndo()
      modifies this
      ensures State() == Undo(old(State()))
    {
      if undoStack == [] { return; }
      redoStack := redoStack + [Saved(text, cursor, anchor)];
      var prev := undoStack[|undoStack| - 1];
      undoStack := undoStack[..|undoStack| - 1];
      text := prev.text;
      cursor := Min(prev.cursor, |text|);
      anchor, dirty, lastEditKind := prev.anchor, true, Other;
    }

    method ApplyRedo()
      modifies this
      ensures State() == Redo(old(State()))
    {
      if redoStack == [] { return; }
      undoStack := undoStack + [Saved(text, cursor, anchor)];
      var next := redoStack[|redoStack| - 1];
      redoStack := redoStack[..|redoStack| - 1];
      text := next.text;
      cursor := Min(next.cursor, |text|);
      anchor, dirty, lastEditKind := next.anchor, true, Other;
    }
  }
}
