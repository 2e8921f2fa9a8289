/** Which events a pass calls: a start pass starts and does nothing else, and an update pass calls
    each instance at most for its start and then for its update. */
module DispatchPasses {
  import opened ScriptDispatch
  import opened DispatchSafety

  // ----- what one pass adds to the record -----

  /** The record goes on from `old` to `trace`; each call added belongs to this pass, and is a start
      if the pass only starts. */
  ghost predicate Adds(was: seq<Entry>, trace: seq<Entry>, pass: nat, startOnly: bool) {
    && |was| <= |trace| && trace[..|was|] == was
    && forall k :: |was| <= k < |trace| && trace[k].Called? ==>
         trace[k].pass == pass && (startOnly ==> trace[k].event == Start)
  }

  lemma AddsOn(a: seq<Entry>, b: seq<Entry>, c: seq<Entry>, pass: nat, startOnly: bool)
    requires Adds(a, b, pass, startOnly) && Adds(b, c, pass, startOnly)
    ensures Adds(a, c, pass, startOnly)
  {
    assert c[..|a|] == b[..|a|];
    forall k | |a| <= k < |c| && c[k].Called? ensures c[k].pass == pass && (startOnly ==> c[k].event == Start) {
      if k < |b| { assert c[k] == c[..|b|][k]; }
    }
  }

  lemma {:induction false} EffectsAdd(w: World, effects: seq<Effect>, pass: nat, startOnly: bool)
    ensures ApplyAll(w, effects).pass == w.pass
    ensures forall k :: |w.trace| <= k < |ApplyAll(w, effects).trace| ==> ApplyAll(w, effects).trace[k].Destroyed?
    ensures Adds(w.trace, ApplyAll(w, effects).trace, pass, startOnly)
    decreases |effects|
  {
    if effects != [] {
      var w1 := Apply(w, effects[0]);
      EffectsAdd(w1, effects[1..], pass, startOnly);
      var w2 := ApplyAll(w, effects);
      assert w2.trace[..|w.trace|] == w1.trace[..|w.trace|];
      forall k | |w.trace| <= k < |w2.trace| ensures w2.trace[k].Destroyed? {
        if k < |w1.trace| { assert w2.trace[k] == w2.trace[..|w1.trace|][k]; }
      }
    }
  }

  lemma CallAdds(w: World, e: Entity, i: nat, ev: Event, oracle: Oracle, startOnly: bool)
    requires i < |Scripts(w, e)| && (startOnly ==> ev == Start)
    ensures CallAndMark(w, e, i, ev, oracle).pass == w.pass
    ensures Adds(w.trace, CallAndMark(w, e, i, ev, oracle).trace, w.pass, startOnly)
  {
    var inst := Scripts(w, e)[i];
    var w1 := Enter(w, e, i, ev, Breaches(w, inst, ev, oracle));
    assert Adds(w.trace, w1.trace, w.pass, startOnly);
    hide Adds, Enter;
    if Handles(inst, ev) {
      EffectsAdd(w1, oracle(w.calls).effects, w.pass, startOnly);
      AddsOn(w.trace, w1.trace, ApplyAll(w1, oracle(w.calls).effects).trace, w.pass, startOnly);
    }
  }

  lemma InstanceAdds(w: World, e: Entity, i: nat, startOnly: bool, oracle: Oracle)
    requires i < |Scripts(w, e)|
    ensures RunInstance(w, e, i, startOnly, oracle).pass == w.pass
    ensures Adds(w.trace, RunInstance(w, e, i, startOnly, oracle).trace, w.pass, startOnly)
  {
    assert Adds(w.trace, w.trace, w.pass, startOnly);
    var inst := Scripts(w, e)[i];
    hide Adds, CallAndMark;
    if inst.script && !inst.disabled && !(inst.started && startOnly) {
      CallAdds(w, e, i, if inst.started then Update else Start, oracle, startOnly);
      if !inst.started {
        var w1 := CallAndMark(w, e, i, Start, oracle);
        if !startOnly && i < |Scripts(w1, e)| {
          CallAdds(w1, e, i, Update, oracle, startOnly);
          AddsOn(w.trace, w1.trace, CallAndMark(w1, e, i, Update, oracle).trace, w.pass, startOnly);
        }
      }
    }
  }

  lemma {:induction false} VisitAdds(w: World, e: Entity, i: nat, startOnly: bool, oracle: Oracle)
    requires e < w.nextEnt
    ensures VisitFrom(w, e, i, startOnly, oracle).pass == w.pass
    ensures Adds(w.trace, VisitFrom(w, e, i, startOnly, oracle).trace, w.pass, startOnly)
    decreases if i <= Work(w, e) then Work(w, e) + 1 - i else 0
  {
    assert Adds(w.trace, w.trace, w.pass, startOnly);
    hide Adds, RunInstance;
    if i < |Scripts(w, e)| {
      InstanceWork(w, e, i, startOnly, oracle);
      InstanceAdds(w, e, i, startOnly, oracle);
      var w1 := RunInstance(w, e, i, startOnly, oracle);
      VisitAdds(w1, e, i + 1, startOnly, oracle);
      AddsOn(w.trace, w1.trace, VisitFrom(w1, e, i + 1, startOnly, oracle).trace, w.pass, startOnly);
    }
  }

  lemma {:induction false} VisitAllAdds(w: World, pending: seq<Entity>, startOnly: bool, oracle: Oracle)
    requires forall k :: 0 <= k < |pending| ==> pending[k] < w.nextEnt
    ensures VisitAll(w, pending, startOnly, oracle).pass == w.pass
    ensures Adds(w.trace, VisitAll(w, pending, startOnly, oracle).trace, w.pass, startOnly)
    decreases |pending|
  {
    assert Adds(w.trace, w.trace, w.pass, startOnly);
    hide Adds, VisitFrom;
    if pending != [] {
      VisitKeepsEnts(w, pending[0], 0, startOnly, oracle);
      VisitAdds(w, pending[0], 0, startOnly, oracle);
      var w1 := VisitFrom(w, pending[0], 0, startOnly, oracle);
      VisitAllAdds(w1, pending[1..], startOnly, oracle);
      AddsOn(w.trace, w1.trace, VisitAll(w1, pending[1..], startOnly, oracle).trace, w.pass, startOnly);
    }
  }

  /** Whatever the world: every call a start pass makes is a start. */
  lemma StartPassOnlyStarts(w: World, pending: seq<Entity>, oracle: Oracle)
    requires forall k :: 0 <= k < |pending| ==> pending[k] < w.nextEnt
    ensures var trace := Dispatch(w, pending, true, oracle).trace;
            && |w.trace| <= |trace| && trace[..|w.trace|] == w.trace
            && forall k :: |w.trace| <= k < |trace| && trace[k].Called? ==> trace[k].event == Start
  {
    hide VisitAll;
    VisitAllAdds(w.(pass := w.pass + 1), pending, true, oracle);
  }

  // ----- a pass in a run -----

  /** The calls of any pass in any run: all in this pass, starts only if it is a start pass; of one
      instance at most two, a start and then an update; and a start only of an instance that had
      never been called. */
  lemma PassCalls(ops: seq<Op>, files: map<Path, Handlers>, pass: Op, i: nat, k: nat)
    requires Legal(ops, files) && pass.Pass? && Enabled(Run(ops, files), pass)
    requires var w, w' := Run(ops, files), Step(Run(ops, files), pass);
             |w.trace| <= i < |w'.trace| && w'.trace[i].Called? && i <= k < |w'.trace|
    ensures var w, w' := Run(ops, files), Step(Run(ops, files), pass);
            && w'.pass == w.pass + 1 && w'.trace[i].pass == w'.pass
            && (pass.startOnly ==> w'.trace[i].event == Start)
            && (w'.trace[i].event == Start ==> !HasCalled(w.trace, w'.trace[i].id))
            && (i < k && w'.trace[k].Called? && w'.trace[k].id == w'.trace[i].id ==>
                  w'.trace[i].event == Start && w'.trace[k].event == Update && !pass.startOnly)
  {
    var w, w' := Run(ops, files), Step(Run(ops, files), pass);
    hide Orderly, Inv, HasCalled, Adds, VisitAll;
    PassAdds(w, pass);
    OneMore(ops, files, pass);
    hide Run, Step, Legal;
    RunsAreOrderly(ops + [pass], files);
    OrderlyRun(w');
    CallsInOrder(w'.trace, i);
    if HasCalled(w.trace, w'.trace[i].id) { CalledBefore(w.trace, w'.trace, w'.trace[i].id, i); }
    if i < k { CallsAreDisciplined(ops + [pass], files, i, k); }
  }

  lemma PassAdds(w: World, op: Op)
    requires op.Pass? && Enabled(w, op)
    ensures var w' := Step(w, op);
            && w'.pass == w.pass + 1 && |w.trace| <= |w'.trace| && w'.trace[..|w.trace|] == w.trace
            && forall k :: |w.trace| <= k < |w'.trace| && w'.trace[k].Called? ==>
                 w'.trace[k].pass == w'.pass && (op.startOnly ==> w'.trace[k].event == Start)
  {
    hide VisitAll;
    VisitAllAdds(w.(pass := w.pass + 1), op.order, op.startOnly, op.oracle);
  }

  lemma OneMore(ops: seq<Op>, files: map<Path, Handlers>, op: Op)
    requires Legal(ops, files) && Enabled(Run(ops, files), op)
    ensures Legal(ops + [op], files) && Run(ops + [op], files) == Step(Run(ops, files), op)
  {
    hide Step;
    assert (ops + [op])[..|ops|] == ops;
  }

  lemma OrderlyRun(w: World)
    requires Inv(w, {})
    ensures Orderly(w.trace)
  {
    hide Orderly, Unique, Recorded, Flagged;
  }

  lemma CallsInOrder(trace: seq<Entry>, i: nat)
    requires i < |trace| && Orderly(trace) && trace[i].Called?
    ensures trace[i].event == Start ==> !HasCalled(trace[..i], trace[i].id)
  {
    assert InOrder(trace[..i], trace[i]);
    hide HasCalled;
  }

  lemma CalledBefore(was: seq<Entry>, trace: seq<Entry>, id: Id, i: nat)
    requires |was| <= i <= |trace| && trace[..|was|] == was && HasCalled(was, id)
    ensures HasCalled(trace[..i], id)
  {
    var j :| 0 <= j < |was| && was[j].Called? && was[j].id == id;
    assert trace[..i][j] == trace[..|was|][j];
  }

  /** The step of the run during which entry `k` was recorded. */
  ghost predicate RecordedBy(ops: seq<Op>, files: map<Path, Handlers>, m: nat, k: nat)
    requires Legal(ops, files)
    decreases |ops|
  {
    && m < |ops|
    && if m == |ops| - 1 then
         |Run(ops[..m], files).trace| <= k < |Run(ops, files).trace|
       else RecordedBy(ops[..|ops| - 1], files, m, k)
  }

  /** Every update in the record of any run was called by an update pass, and every call by a pass. */
  lemma {:induction false} UpdatesComeFromUpdatePasses(ops: seq<Op>, files: map<Path, Handlers>, k: nat)
    requires Legal(ops, files) && k < |Run(ops, files).trace| && Run(ops, files).trace[k].Called?
    ensures exists m: nat :: RecordedBy(ops, files, m, k) && ops[m].Pass?
                        && (Run(ops, files).trace[k].event == Update ==> !ops[m].startOnly)
    decreases |ops|
  {
    var last := |ops| - 1;
    var before := ops[..last];
    var w, w' := Run(before, files), Run(ops, files);
    StepAdds(w, ops[last]);
    hide Run, Step;
    if k < |w.trace| {
      assert w'.trace[k] == w'.trace[..|w.trace|][k];
      UpdatesComeFromUpdatePasses(before, files, k);
      var m: nat :| RecordedBy(before, files, m, k) && before[m].Pass?
               && (w.trace[k].event == Update ==> !before[m].startOnly);
      assert RecordedBy(ops, files, m, k) && ops[m] == before[m];
    } else {
      assert RecordedBy(ops, files, last, k);
    }
  }

  lemma StepAdds(w: World, op: Op)
    requires Enabled(w, op)
    ensures var w' := Step(w, op);
            && |w.trace| <= |w'.trace| && w'.trace[..|w.trace|] == w.trace
            && forall k :: |w.trace| <= k < |w'.trace| && w'.trace[k].Called? ==>
                 op.Pass? && (w'.trace[k].event == Update ==> !op.startOnly)
  {
    hide VisitAll, Compiled;
    if op.Pass? { VisitAllAdds(w.(pass := w.pass + 1), op.order, op.startOnly, op.oracle); }
  }
}
