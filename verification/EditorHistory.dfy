/** Undo and redo as a zipper over the editor's history. */
module EditorHistory {
  import opened EditorBuffer

  // ----- every run keeps the buffer valid -----

  datatype Command =
    | Typed(s: string)
    | Pasted(s: string)
    | Erase
    | BackspaceKey(target: nat)
    | DeleteKey(target: nat)
    | CutItem
    | Move(pos: int, extend: bool, byKey: bool)
    | SelectEverything(byKey: bool)
    | UndoKey
    | RedoKey
    | Save

  function Do(b: Buffer, c: Command): Buffer {
    match c
    case Typed(s) => InsertText(b, s, Insert)
    case Pasted(s) => InsertText(b, s, Other)
    case Erase => DeleteSelection(b)
    case BackspaceKey(target) => Backspace(b, target)
    case DeleteKey(target) => DeleteForward(b, target)
    case CutItem => Cut(b)
    case Move(pos, extend, byKey) => if byKey then MoveTo(b, pos, extend).(last := None) else MoveTo(b, pos, extend)
    case SelectEverything(byKey) => if byKey then SelectAll(b).(last := None) else SelectAll(b)
    case UndoKey => Undo(b)
    case RedoKey => Redo(b)
    case Save => b.(dirty := false)
  }

  function Opened(text: string): Buffer { Buffer(text, 0, -1, [], [], None, false) }

  function DoAll(b: Buffer, commands: seq<Command>): Buffer {
    if commands == [] then b else Do(DoAll(b, commands[..|commands| - 1]), commands[|commands| - 1])
  }

  lemma PushKeeps(b: Buffer, kind: EditKind)
    requires Valid(b)
    ensures var b' := PushUndo(b, kind); Valid(b') && b'.undo != [] && b'.text == b.text && b'.cursor == b.cursor
  {
  }

  lemma DeleteKeeps(b: Buffer)
    requires Valid(b)
    ensures Valid(DeleteSelection(b)) && (HasSelection(b) ==> DeleteSelection(b).anchor == -1)
  {
    if HasSelection(b) { PushKeeps(b, Other); }
    hide PushUndo;
  }

  lemma InsertKeeps(b: Buffer, s: string, kind: EditKind)
    requires Valid(b)
    ensures Valid(InsertText(b, s, kind))
  {
    DeleteKeeps(b);
    var b1 := if HasSelection(b) then DeleteSelection(b).(last := Other) else b;
    hide PushUndo, DeleteSelection;
    PushKeeps(b1, kind);
  }

  lemma DoKeeps(b: Buffer, c: Command)
    requires Valid(b)
    ensures Valid(Do(b, c))
  {
    hide PushUndo, InsertText, DeleteSelection;
    match c
    case Typed(s) => InsertKeeps(b, s, Insert);
    case Pasted(s) => InsertKeeps(b, s, Other);
    case Erase => DeleteKeeps(b);
    case BackspaceKey(target) => DeleteKeeps(b); PushKeeps(b, Delete);
    case DeleteKey(target) => DeleteKeeps(b); PushKeeps(b, Delete);
    case CutItem => PushKeeps(b, Other); DeleteKeeps(PushUndo(b, Other));
    case Move(pos, extend, byKey) =>
    case SelectEverything(byKey) =>
    case UndoKey =>
    case RedoKey =>
    case Save =>
  }

  /** Over every run of commands from an opened file: cursors stay in their texts, and the two
      stacks together hold at most 500 states. */
  lemma {:induction false} RunsKeepBuffersValid(text: string, commands: seq<Command>)
    ensures Valid(DoAll(Opened(text), commands))
  {
    if commands != [] {
      RunsKeepBuffersValid(text, commands[..|commands| - 1]);
      hide Valid, Do;
      DoKeeps(DoAll(Opened(text), commands[..|commands| - 1]), commands[|commands| - 1]);
    }
  }

  // ----- does the selection lie in the text -----

  /** The anchor, live and in every saved state, lies in its own text. */
  ghost predicate Anchored(b: Buffer) {
    && b.anchor <= |b.text|
    && (forall i :: 0 <= i < |b.undo| ==> b.undo[i].anchor <= |b.undo[i].text|)
    && (forall i :: 0 <= i < |b.redo| ==> b.redo[i].anchor <= |b.redo[i].text|)
  }

  /** The selection ends inside the text exactly when the anchor does. */
  lemma SelectionInText(b: Buffer)
    requires Valid(b)
    ensures 0 <= SelBegin(b) <= |b.text| || b.anchor > |b.text|
    ensures SelEnd(b) <= |b.text| <==> b.anchor <= |b.text|
  {
  }

  /** The one command that leaves an anchor behind: a backspace with the anchor at the cursor, which
      is no selection, erasing more than stands after the cursor. */
  predicate StrandsAnchor(b: Buffer, c: Command) {
    && c.BackspaceKey? && b.anchor == b.cursor && 0 < b.cursor && c.target <= b.cursor
    && |b.text| - b.cursor < b.cursor - c.target
  }

  lemma PushKeepsAnchors(b: Buffer, kind: EditKind)
    requires Anchored(b)
    ensures Anchored(PushUndo(b, kind))
  {
  }

  lemma DeleteKeepsAnchors(b: Buffer)
    requires Anchored(b)
    ensures Anchored(DeleteSelection(b))
  {
    PushKeepsAnchors(b, Other);
    hide PushUndo, Erased;
  }

  lemma InsertKeepsAnchors(b: Buffer, s: string, kind: EditKind)
    requires Valid(b) && Anchored(b)
    ensures Anchored(InsertText(b, s, kind))
  {
    DeleteKeeps(b);
    DeleteKeepsAnchors(b);
    var b1 := if HasSelection(b) then DeleteSelection(b).(last := Other) else b;
    hide PushUndo, DeleteSelection, Valid;
    PushKeepsAnchors(b1, kind);
    PushKeepsText(b1, kind);
  }

  lemma PushKeepsText(b: Buffer, kind: EditKind)
    ensures var b' := PushUndo(b, kind); b'.text == b.text && b'.cursor == b.cursor && b'.anchor == b.anchor
  {
  }

  /** With every anchor in its text, a command keeps them there if and only if it is not that one. */
  lemma DoKeepsAnchors(b: Buffer, c: Command)
    requires Valid(b) && Anchored(b)
    ensures Anchored(Do(b, c)) <==> !StrandsAnchor(b, c)
  {
    assert b.cursor <= |b.text|;
    hide PushUndo, InsertText, DeleteSelection, Valid;
    match c
    case Typed(s) => InsertKeepsAnchors(b, s, Insert);
    case Pasted(s) => InsertKeepsAnchors(b, s, Other);
    case Erase => DeleteKeepsAnchors(b);
    case BackspaceKey(target) => DeleteKeepsAnchors(b); PushKeepsAnchors(b, Delete); PushKeepsText(b, Delete);
    case DeleteKey(target) => DeleteKeepsAnchors(b); PushKeepsAnchors(b, Delete); PushKeepsText(b, Delete);
    case CutItem => PushKeepsAnchors(b, Other); DeleteKeepsAnchors(PushUndo(b, Other));
    case Move(pos, extend, byKey) =>
    case SelectEverything(byKey) =>
    case UndoKey =>
    case RedoKey =>
    case Save =>
  }

  /** Over every run of commands from an opened file: the selection, live and saved, has lain in its
      text all along if and only if no command was a backspace that stranded the anchor. */
  lemma AnchorsStayInText(text: string, commands: seq<Command>)
    ensures (forall k :: 0 <= k <= |commands| ==> Anchored(DoAll(Opened(text), commands[..k])))
            <==> (forall k :: 0 <= k < |commands| ==> !StrandsAnchor(DoAll(Opened(text), commands[..k]), commands[k]))
  {
    hide Anchored, StrandsAnchor, DoAll;
    if forall k :: 0 <= k <= |commands| ==> Anchored(DoAll(Opened(text), commands[..k])) {
      forall k | 0 <= k < |commands| ensures !StrandsAnchor(DoAll(Opened(text), commands[..k]), commands[k]) {
        assert Anchored(DoAll(Opened(text), commands[..k])) && Anchored(DoAll(Opened(text), commands[..k + 1]));
        DoNext(text, commands, k);
        RunsKeepBuffersValid(text, commands[..k]);
        DoKeepsAnchors(DoAll(Opened(text), commands[..k]), commands[k]);
      }
    }
    if forall k :: 0 <= k < |commands| ==> !StrandsAnchor(DoAll(Opened(text), commands[..k]), commands[k]) {
      AnchoredUpTo(text, commands, |commands|);
    }
  }

  lemma OpenedAnchored(text: string)
    ensures Anchored(DoAll(Opened(text), []))
  {
  }

  lemma DoNext(text: string, commands: seq<Command>, k: nat)
    requires k < |commands|
    ensures DoAll(Opened(text), commands[..k + 1]) == Do(DoAll(Opened(text), commands[..k]), commands[k])
  {
    assert commands[..k + 1][..k] == commands[..k];
  }

  lemma {:induction false} AnchoredUpTo(text: string, commands: seq<Command>, n: nat)
    requires n <= |commands|
    requires forall k :: 0 <= k < n ==> !StrandsAnchor(DoAll(Opened(text), commands[..k]), commands[k])
    ensures forall k :: 0 <= k <= n ==> Anchored(DoAll(Opened(text), commands[..k]))
    decreases n
  {
    hide Anchored, StrandsAnchor, DoAll;
    if n == 0 {
      assert commands[..0] == [];
      OpenedAnchored(text);
    } else {
      AnchoredUpTo(text, commands, n - 1);
      DoNext(text, commands, n - 1);
      RunsKeepBuffersValid(text, commands[..n - 1]);
      DoKeepsAnchors(DoAll(Opened(text), commands[..n - 1]), commands[n - 1]);
    }
  }

  /** Such a run: extend the selection to the end by a character and back, then erase backwards. */
  lemma AnchorIsStranded()
    ensures var c := [Move(2, false, true), Move(1, true, true), Move(2, true, true), BackspaceKey(1)];
            var b := DoAll(Opened("ab"), c);
            b.text == "a" && SelEnd(b) == 2
  {
    var c := [Move(2, false, true), Move(1, true, true), Move(2, true, true), BackspaceKey(1)];
    var b := Opened("ab");
    DoNext("ab", c, 0);
    DoNext("ab", c, 1);
    DoNext("ab", c, 2);
    DoNext("ab", c, 3);
    assert c[..0] == [] && c[..4] == c;
    var b3 := b.(cursor := 2, anchor := 2, last := None);
    assert DoAll(b, c[..1]) == b.(cursor := 2, anchor := -1, last := None);
    assert DoAll(b, c[..2]) == b.(cursor := 1, anchor := 2, last := None);
    assert DoAll(b, c[..3]) == b3;
    assert Erased("ab", 1, 2) == "a";
  }

  // ----- the zipper -----

  function UndoTimes(b: Buffer, k: nat): Buffer
    decreases k
  {
    if k == 0 then b else UndoTimes(Undo(b), k - 1)
  }

  function RedoTimes(b: Buffer, k: nat): Buffer
    decreases k
  {
    if k == 0 then b else RedoTimes(Redo(b), k - 1)
  }

  /** Same text, cursor, anchor and stacks. */
  predicate Same(a: Buffer, b: Buffer) { Now(a) == Now(b) && a.undo == b.undo && a.redo == b.redo }

  lemma UndoRedo(b: Buffer)
    requires Valid(b)
    ensures Valid(Undo(b)) && Valid(Redo(b))
    ensures b.undo != [] ==> Same(Redo(Undo(b)), b)
    ensures b.redo != [] ==> Same(Undo(Redo(b)), b)
  {
    hide Valid, Same, Undo, Redo;
    if b.undo != [] { UndoThenRedo(b); }
    if b.redo != [] { RedoThenUndo(b); }
    DoKeeps(b, UndoKey);
    DoKeeps(b, RedoKey);
  }

  lemma UndoThenRedo(b: Buffer)
    requires Valid(b) && b.undo != []
    ensures Same(Redo(Undo(b)), b)
  {
    var n := |b.undo| - 1;
    assert b.undo[..n] + [b.undo[n]] == b.undo;
    assert (b.redo + [Now(b)])[..|b.redo|] == b.redo;
  }

  lemma RedoThenUndo(b: Buffer)
    requires Valid(b) && b.redo != []
    ensures Same(Undo(Redo(b)), b)
  {
    var n := |b.redo| - 1;
    assert b.redo[..n] + [b.redo[n]] == b.redo;
    assert (b.undo + [Now(b)])[..|b.undo|] == b.undo;
  }

  lemma SameOn(a: Buffer, b: Buffer)
    requires Same(a, b)
    ensures Same(Redo(a), Redo(b)) && Same(Undo(a), Undo(b))
  {
  }

  lemma {:induction false} SameRedoTimes(a: Buffer, b: Buffer, k: nat)
    requires Same(a, b)
    ensures Same(RedoTimes(a, k), RedoTimes(b, k))
    decreases k
  {
    if k > 0 {
      SameOn(a, b);
      SameRedoTimes(Redo(a), Redo(b), k - 1);
    }
  }

  lemma {:induction false} RedoLast(b: Buffer, k: nat)
    ensures RedoTimes(b, k + 1) == Redo(RedoTimes(b, k))
    decreases k
  {
    hide Redo;
    if k > 0 { RedoLast(Redo(b), k - 1); }
  }

  lemma {:induction false} WithinUndo(b: Buffer, k: nat)
    requires Valid(b) && k <= |b.undo|
    ensures Same(RedoTimes(UndoTimes(b, k), k), b)
    decreases k
  {
    if k > 0 {
      UndoRedo(b);
      WithinUndo(Undo(b), k - 1);
      RedoLast(UndoTimes(b, k), k - 1);
      SameOn(RedoTimes(UndoTimes(Undo(b), k - 1), k - 1), Undo(b));
      hide Undo, Redo;
    }
  }

  /** Undoing stops when there is nothing left, and redoing likewise. */
  lemma {:induction false} UndoStops(b: Buffer, k: nat)
    requires |b.undo| <= k
    ensures UndoTimes(b, k) == UndoTimes(b, |b.undo|)
    decreases k
  {
    if b.undo != [] { UndoStops(Undo(b), k - 1); }
    else if k > 0 { UndoStops(b, k - 1); }
  }

  lemma {:induction false} RedoSplit(b: Buffer, j: nat, k: nat)
    ensures RedoTimes(b, j + k) == RedoTimes(RedoTimes(b, j), k)
    decreases j
  {
    hide Redo;
    if j > 0 { RedoSplit(Redo(b), j - 1, k); }
  }

  lemma {:induction false} RedoCounts(b: Buffer, k: nat)
    ensures |RedoTimes(b, k).undo| == |b.undo| + if k <= |b.redo| then k else |b.redo|
    ensures b.redo == [] ==> RedoTimes(b, k) == b
    decreases k
  {
    if k > 0 { RedoCounts(Redo(b), k - 1); }
  }

  /** k undos followed by k redos restore text, cursor, anchor and both stacks exactly when
      there were k states to undo, or nothing to redo. */
  lemma UndosThenRedos(b: Buffer, k: nat)
    requires Valid(b)
    ensures Same(RedoTimes(UndoTimes(b, k), k), b) <==> k <= |b.undo| || b.redo == []
  {
    var n := |b.undo|;
    if k <= n {
      WithinUndo(b, k);
    } else {
      UndoStops(b, k);
      WithinUndo(b, n);
      var c := UndoTimes(b, n);
      RedoSplit(c, n, k - n);
      SameRedoTimes(RedoTimes(c, n), b, k - n);
      RedoCounts(b, k - n);
    }
  }

  // ----- what one undo takes back -----

  /** An edit that saves its own state is taken back whole by one undo. */
  lemma UndoTakesBack(b: Buffer, s: string, kind: EditKind)
    requires Valid(b) && !HasSelection(b) && !Grouped(b, kind)
    ensures Now(Undo(InsertText(b, s, kind))) == Now(b)
    ensures Redo(InsertText(b, s, kind)) == InsertText(b, s, kind)
  {
  }

  /** Replacing a selection saves two states: one undo only brings back the text without the
      selection, the second the text with it. */
  lemma ReplacingTakesTwoUndos(b: Buffer, s: string, kind: EditKind)
    requires Valid(b) && HasSelection(b)
    ensures var b1 := InsertText(b, s, kind);
            && Now(Undo(b1)) == Saved(Erased(b.text, SelBegin(b), SelEnd(b)), SelBegin(b), -1)
            && Now(Undo(Undo(b1))) == Now(b)
  {
    var d := DeleteSelection(b).(last := Other);
    DeletionSaves(b);
    InsertKeeps(b, s, kind);
    PushTop(d, kind);
    hide PushUndo, DeleteSelection, Erased, SelBegin, SelEnd, Inserted, Valid;
    assert InsertText(b, s, kind).undo == PushUndo(d, kind).undo;
    UndoTwice(InsertText(b, s, kind), Now(b), Now(d));
  }

  /** One undo takes back a piece of typing if and only if there was no selection to replace, and
      the typing saved its own state or joined a burst that began in this very state. */
  lemma OneUndoTakesBack(b: Buffer, s: string, kind: EditKind)
    requires Valid(b)
    ensures Now(Undo(InsertText(b, s, kind))) == Now(b)
            <==> !HasSelection(b) && (Grouped(b, kind) ==> b.undo[|b.undo| - 1] == Now(b))
  {
    if HasSelection(b) {
      ReplacingTakesTwoUndos(b, s, kind);
    } else if !Grouped(b, kind) {
      UndoTakesBack(b, s, kind);
    }
  }

  lemma DeletionSaves(b: Buffer)
    requires Valid(b) && HasSelection(b)
    ensures var d := DeleteSelection(b).(last := Other);
            && Valid(d) && Now(d) == Saved(Erased(b.text, SelBegin(b), SelEnd(b)), SelBegin(b), -1)
            && d.undo != [] && d.undo[|d.undo| - 1] == Now(b)
  {
    DeleteKeeps(b);
    PushTop(b, Other);
    hide PushUndo, Erased, SelEnd;
  }

  lemma UndoTwice(b: Buffer, first: Saved, second: Saved)
    requires Valid(b) && |b.undo| > 1 && b.undo[|b.undo| - 1] == second && b.undo[|b.undo| - 2] == first
    ensures Now(Undo(b)) == second && Now(Undo(Undo(b))) == first
  {
  }

  lemma PushTop(b: Buffer, kind: EditKind)
    requires Valid(b) && !Grouped(b, kind)
    ensures var u := PushUndo(b, kind).undo;
            && u != [] && u[|u| - 1] == Now(b)
            && (|b.undo| > 0 ==> |u| > 1 && u[|u| - 2] == b.undo[|b.undo| - 1])
  {
  }

  // ----- bursts of typing -----

  function TypeAll(b: Buffer, pieces: seq<string>): Buffer {
    if pieces == [] then b else InsertText(TypeAll(b, pieces[..|pieces| - 1]), pieces[|pieces| - 1], Insert)
  }

  function Joined(pieces: seq<string>): string {
    if pieces == [] then "" else Joined(pieces[..|pieces| - 1]) + pieces[|pieces| - 1]
  }

  /** `t` is `b` with `typed` inserted at the cursor as one burst. */
  ghost predicate Burst(b: Buffer, t: Buffer, typed: string) {
    && t.text == Inserted(b.text, b.cursor, typed) && t.cursor == b.cursor + |typed| && t.anchor == b.anchor
    && t.last == Insert && t.redo == [] && t.undo == PushUndo(b, Insert).undo
    && t.undo != [] && Now(Undo(t)) == Now(b)
  }

  lemma BurstStarts(b: Buffer, s: string)
    requires Valid(b) && b.anchor < 0 && !Grouped(b, Insert)
    ensures Burst(b, InsertText(b, s, Insert), s)
  {
    PushTop(b, Insert);
    hide Inserted;
  }

  lemma BurstGoesOn(b: Buffer, t: Buffer, typed: string, s: string)
    requires Valid(b) && b.anchor < 0 && Burst(b, t, typed)
    ensures Burst(b, InsertText(t, s, Insert), typed + s)
  {
    TypeOn(b.text, b.cursor, typed, s);
    GroupedInsert(t, s);
    hide Inserted, InsertText, PushUndo;
  }

  /** Typing without an anchor: the pieces stand in the text in order, and the whole burst
      shares one saved state, the one before it. */
  lemma {:induction false} BurstIsOneStep(b: Buffer, pieces: seq<string>)
    requires Valid(b) && b.anchor < 0 && !Grouped(b, Insert) && pieces != []
    ensures Burst(b, TypeAll(b, pieces), Joined(pieces))
    decreases |pieces|
  {
    hide Burst, Valid, InsertText;
    var n := |pieces| - 1;
    if n == 0 {
      assert pieces[..0] == [] && Joined(pieces) == "" + pieces[0] == pieces[0];
      BurstStarts(b, pieces[0]);
    } else {
      BurstIsOneStep(b, pieces[..n]);
      BurstGoesOn(b, TypeAll(b, pieces[..n]), Joined(pieces[..n]), pieces[n]);
    }
  }

  /** An insertion that joins the burst before it. */
  lemma GroupedInsert(t: Buffer, s: string)
    requires t.anchor < 0 && Grouped(t, Insert)
    ensures InsertText(t, s, Insert)
            == t.(text := Inserted(t.text, t.cursor, s), cursor := t.cursor + |s|, redo := [], dirty := true)
    ensures Now(Undo(InsertText(t, s, Insert))) == Now(Undo(t))
  {
  }

  lemma TypeOn(text: string, at: nat, s: string, t: string)
    requires at <= |text|
    ensures Inserted(Inserted(text, at, s), at + |s|, t) == Inserted(text, at, s + t)
  {
    var one := text[..at] + s + text[at..];
    assert one[..at + |s|] == text[..at] + s && one[at + |s|..] == text[at..];
  }

  /** An anchor left at the cursor is no selection, but typing makes it one: of two pieces typed
      there only the second survives. So a burst is typed in full exactly when there is no anchor. */
  lemma AnchorAtCursorEatsTyping(b: Buffer, s: string, t: string)
    requires Valid(b) && !HasSelection(b) && s != "" && t != ""
    ensures TypeAll(b, [s, t]).text == Inserted(b.text, b.cursor, s + t) <==> b.anchor < 0
    ensures b.anchor >= 0 ==> TypeAll(b, [s, t]).text == Inserted(b.text, b.cursor, t)
  {
    var b1 := InsertText(b, s, Insert);
    assert [s, t][..1] == [s] && [s][..0] == [];
    assert TypeAll(b, [s]) == b1;
    assert TypeAll(b, [s, t]) == InsertText(b1, t, Insert);
    if b.anchor < 0 {
      TypeOn(b.text, b.cursor, s, t);
    } else {
      EraseInserted(b.text, b.cursor, s);
      assert HasSelection(b1) && SelBegin(b1) == b.cursor && SelEnd(b1) == b.cursor + |s|;
      assert |Inserted(b.text, b.cursor, t)| < |Inserted(b.text, b.cursor, s + t)|;
    }
  }

  /** Such an anchor can be had from an opened file: extend the selection by a character and back. */
  lemma AnchorAtCursorIsReached()
    ensures var b := DoAll(Opened("a"), [Move(1, true, true), Move(0, true, true)]);
            Valid(b) && b.anchor == b.cursor && !HasSelection(b)
  {
    var b, commands := Opened("a"), [Move(1, true, true), Move(0, true, true)];
    RunsKeepBuffersValid("a", commands);
    assert commands[..1] == [Move(1, true, true)] && commands[..1][..0] == [];
    assert DoAll(b, commands[..1]) == Do(b, Move(1, true, true));
  }

  lemma EraseInserted(text: string, at: nat, s: string)
    requires at <= |text|
    ensures Erased(Inserted(text, at, s), at, at + |s|) == text
  {
  }
}
