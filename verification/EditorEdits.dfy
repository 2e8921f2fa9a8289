/** What each command of the script editor does to the text, the cursor, the selection and the saved states. */
module EditorEdits {
  import opened EditorBuffer
  import opened EditorHistory

  /** The saved states after one more: at most 500, the oldest forgotten first. */
  ghost predicate Remembers(before: seq<Saved>, s: Saved, after: seq<Saved>) {
    after == (if |before| < 500 then before else before[1..]) + [s]
  }

  /** The edit goes on where the last one of its kind left off, and needs no state of its own. */
  ghost predicate GoesOn(b: Buffer, kind: EditKind) {
    b.undo != [] && (b.last == kind == Insert || b.last == kind == Delete)
  }

  ghost predicate Saves(b: Buffer, kind: EditKind, b': Buffer) {
    if GoesOn(b, kind) then b'.undo == b.undo else Remembers(b.undo, Saved(b.text, b.cursor, b.anchor), b'.undo)
  }

  /** The selected stretch; its end may lie beyond the text. */
  ghost predicate Selects(b: Buffer, from: int, to: int) {
    && b.anchor >= 0 && from < to
    && ((from == b.anchor && to == b.cursor) || (from == b.cursor && to == b.anchor))
  }

  ghost predicate NothingSelected(b: Buffer) { b.anchor < 0 || b.anchor == b.cursor }

  function Rest(text: string, from: int): string
    requires from >= 0
  {
    if from <= |text| then text[from..] else ""
  }

  lemma PushMeaning(b: Buffer, kind: EditKind)
    requires Valid(b)
    ensures var b' := PushUndo(b, kind);
            && Saves(b, kind, b') && b' == b.(undo := b'.undo, redo := [], last := kind)
  {
    assert |b.undo| == 500 ==> (b.undo + [Now(b)])[1..] == b.undo[1..] + [Now(b)];
  }

  /** The selection goes, the cursor stands where it began, and the state before is saved. */
  ghost predicate Removes(b: Buffer, from: int, to: int, b': Buffer)
    requires 0 <= from <= |b.text| && from <= to
  {
    && b'.text == b.text[..from] + Rest(b.text, to) && b'.cursor == from && b'.anchor == -1
    && Remembers(b.undo, Saved(b.text, b.cursor, b.anchor), b'.undo) && b'.redo == [] && b'.dirty
  }

  lemma DeleteSelectionMeaning(b: Buffer, from: int, to: int)
    requires Valid(b)
    ensures NothingSelected(b) ==> DeleteSelection(b) == b
    ensures Selects(b, from, to) ==> Removes(b, from, to, DeleteSelection(b)) && DeleteSelection(b).last == Other
  {
    PushMeaning(b, Other);
    hide PushUndo;
  }

  /** Typing or pasting puts the text at the cursor, or in the place of the selection. */
  lemma InsertMeaning(b: Buffer, s: string, kind: EditKind, from: int, to: int)
    requires Valid(b)
    ensures var b' := InsertText(b, s, kind);
            && b'.redo == [] && b'.dirty && b'.last == kind
            && (NothingSelected(b) ==>
                  && b'.text == b.text[..b.cursor] + s + b.text[b.cursor..]
                  && b'.cursor == b.cursor + |s| && b'.anchor == b.anchor && Saves(b, kind, b'))
            && (Selects(b, from, to) ==>
                  && b'.text == b.text[..from] + s + Rest(b.text, to)
                  && b'.cursor == from + |s| && b'.anchor == -1
                  && exists mid :: Remembers(b.undo, Saved(b.text, b.cursor, b.anchor), mid)
                       && Remembers(mid, Saved(b.text[..from] + Rest(b.text, to), from, -1), b'.undo))
  {
    DeleteKeeps(b);
    DeleteSelectionMeaning(b, from, to);
    var b1 := if HasSelection(b) then DeleteSelection(b).(last := Other) else b;
    PushMeaning(b1, kind);
    hide PushUndo, DeleteSelection;
    if Selects(b, from, to) {
      assert b1.text[..from] == b.text[..from] && b1.text[from..] == Rest(b.text, to);
      assert !GoesOn(b1, kind);
    }
  }

  /** Backspace erases back to the boundary before the cursor, or erases the selection. */
  lemma BackspaceMeaning(b: Buffer, target: nat, from: int, to: int)
    requires Valid(b)
    ensures var b' := Backspace(b, target);
            && (NothingSelected(b) && 0 < b.cursor && target <= b.cursor ==>
                  && b'.text == b.text[..target] + b.text[b.cursor..] && b'.cursor == target && b'.anchor == b.anchor
                  && Saves(b, Delete, b') && b'.redo == [] && b'.dirty && b'.last == Delete)
            && (NothingSelected(b) && (b.cursor == 0 || target > b.cursor) ==> b' == b)
            && (Selects(b, from, to) ==> Removes(b, from, to, b') && b'.last == Other)
  {
    DeleteSelectionMeaning(b, from, to);
    PushMeaning(b, Delete);
    hide PushUndo, DeleteSelection;
  }

  /** Delete erases forward to the boundary after the cursor, or erases the selection. */
  lemma DeleteMeaning(b: Buffer, target: nat, from: int, to: int)
    requires Valid(b)
    ensures var b' := DeleteForward(b, target);
            && (NothingSelected(b) && b.cursor < |b.text| && b.cursor <= target ==>
                  && b'.text == b.text[..b.cursor] + Rest(b.text, target)
                  && b'.cursor == b.cursor && b'.anchor == b.anchor
                  && Saves(b, Delete, b') && b'.redo == [] && b'.dirty && b'.last == Delete)
            && (NothingSelected(b) && (b.cursor == |b.text| || target < b.cursor) ==> b' == b)
            && (Selects(b, from, to) ==> Removes(b, from, to, b') && b'.last == Other)
  {
    DeleteSelectionMeaning(b, from, to);
    PushMeaning(b, Delete);
    hide PushUndo, DeleteSelection;
  }

  /** Cut saves the state twice before the selection goes. */
  lemma CutMeaning(b: Buffer, from: int, to: int)
    requires Valid(b)
    ensures var b' := Cut(b);
            && (NothingSelected(b) ==> b' == b)
            && (Selects(b, from, to) ==>
                  && b'.text == b.text[..from] + Rest(b.text, to) && b'.cursor == from && b'.anchor == -1
                  && b'.redo == [] && b'.dirty
                  && exists mid :: Remembers(b.undo, Saved(b.text, b.cursor, b.anchor), mid)
                       && Remembers(mid, Saved(b.text, b.cursor, b.anchor), b'.undo))
  {
    PushKeeps(b, Other);
    PushMeaning(b, Other);
    DeleteSelectionMeaning(PushUndo(b, Other), from, to);
    hide PushUndo, DeleteSelection;
  }

  /** The cursor moves into the text; extending keeps the anchor or drops one where the cursor was,
      and moving on lifts it. */
  lemma MoveMeaning(b: Buffer, pos: int, extend: bool)
    ensures var b' := MoveTo(b, pos, extend);
            && (pos < 0 ==> b'.cursor == 0) && (pos > |b.text| ==> b'.cursor == |b.text|)
            && (0 <= pos <= |b.text| ==> b'.cursor == pos)
            && (!extend ==> b'.anchor == -1)
            && (extend && b.anchor < 0 ==> b'.anchor == b.cursor)
            && (extend && b.anchor >= 0 ==> b'.anchor == b.anchor)
            && b'.text == b.text && b'.undo == b.undo && b'.redo == b.redo && b'.dirty == b.dirty
            && b'.last == b.last
    ensures b.text != "" ==> Selects(SelectAll(b), 0, |b.text|)
  {
  }

  /** Undo exchanges the state for the newest saved one, redo for the newest undone one. */
  lemma UndoMeaning(b: Buffer, older: seq<Saved>, s: Saved)
    requires Valid(b)
    ensures b.undo == [] ==> Undo(b) == b
    ensures b.redo == [] ==> Redo(b) == b
    ensures b.undo == older + [s] ==>
              Undo(b) == Buffer(s.text, s.cursor, s.anchor, older, b.redo + [Saved(b.text, b.cursor, b.anchor)], Other,
                                true)
    ensures b.redo == older + [s] ==>
              Redo(b) == Buffer(s.text, s.cursor, s.anchor, b.undo + [Saved(b.text, b.cursor, b.anchor)], older, Other,
                                true)
  {
    assert (older + [s])[..|older|] == older && (older + [s])[|older|] == s;
  }

  // ----- runs of backspaces -----

  function EraseAll(b: Buffer, targets: seq<nat>): Buffer {
    if targets == [] then b else Backspace(EraseAll(b, targets[..|targets| - 1]), targets[|targets| - 1])
  }

  /** Each target lies before the one it follows, the first before the cursor. */
  ghost predicate Backwards(cursor: nat, targets: seq<nat>) {
    && (targets != [] ==> targets[0] < cursor)
    && forall i, j :: 0 <= i < j < |targets| ==> targets[j] < targets[i]
  }

  /** From `b`, everything between `at` and the cursor has been erased, as one step. */
  ghost predicate ErasedBack(b: Buffer, b': Buffer, at: nat) {
    && Valid(b') && at < b.cursor <= |b.text| && b'.text == b.text[..at] + b.text[b.cursor..]
    && b'.cursor == at && b'.anchor < 0 && b'.last == Delete
    && Remembers(b.undo, Saved(b.text, b.cursor, b.anchor), b'.undo)
  }

  lemma FirstBackspace(b: Buffer, target: nat)
    requires Valid(b) && b.anchor < 0 && !GoesOn(b, Delete) && target < b.cursor
    ensures ErasedBack(b, Backspace(b, target), target)
  {
    hide PushUndo, Backspace;
    DoKeeps(b, BackspaceKey(target));
    BackspaceMeaning(b, target, 0, 0);
  }

  lemma NextBackspace(b: Buffer, mid: Buffer, at: nat, target: nat)
    requires ErasedBack(b, mid, at) && target < at
    ensures ErasedBack(b, Backspace(mid, target), target)
  {
    hide PushUndo, Backspace, Valid;
    DoKeeps(mid, BackspaceKey(target));
    BackspaceMeaning(mid, target, 0, 0);
    assert mid.text[..target] == b.text[..target] && mid.text[at..] == b.text[b.cursor..];
  }

  /** However many backspaces follow each other, they erase one stretch and are one undo step. */
  lemma {:induction false} BackspacesAreOneStep(b: Buffer, targets: seq<nat>)
    requires Valid(b) && b.anchor < 0 && !GoesOn(b, Delete) && targets != [] && Backwards(b.cursor, targets)
    ensures var b', last := EraseAll(b, targets), targets[|targets| - 1];
            && ErasedBack(b, b', last)
            && Undo(b').text == b.text && Undo(b').cursor == b.cursor
    decreases |targets|
  {
    hide Backspace, Valid, GoesOn;
    var before, last := targets[..|targets| - 1], targets[|targets| - 1];
    if before == [] {
      assert EraseAll(b, before) == b;
      FirstBackspace(b, last);
    } else {
      BackspacesAreOneStep(b, before);
      NextBackspace(b, EraseAll(b, before), before[|before| - 1], last);
    }
    hide Undo;
    UndoMeaning(EraseAll(b, targets), if |b.undo| < 500 then b.undo else b.undo[1..],
                Saved(b.text, b.cursor, b.anchor));
  }
}
