/** What disables a script: a breach of its own, and nothing else. */
module DispatchLimits {
  import opened Wrappers
  import opened ScriptDispatch
  import opened DispatchSafety

  /** Every disabled instance has breached a limit. */
  ghost predicate Blamed(w: World) {
    forall e: Entity, i :: 0 <= i < |Scripts(w, e)| && Scripts(w, e)[i].disabled
      ==> HasBreached(w.trace, Scripts(w, e)[i].id)
  }

  lemma BreachStays(trace: seq<Entry>, x: Entry, id: Id)
    ensures HasBreached(trace, id) ==> HasBreached(trace + [x], id)
    ensures x.Called? && x.breached ==> HasBreached(trace + [x], x.id)
  {
    var more := trace + [x];
    if HasBreached(trace, id) {
      var k :| 0 <= k < |trace| && trace[k].Called? && trace[k].id == id && trace[k].breached;
      assert more[k] == trace[k];
    }
    assert more[|trace|] == x;
  }

  lemma ApplyBlames(w: World, x: Effect)
    requires Blamed(w)
    ensures Blamed(Apply(w, x))
    ensures forall id :: HasBreached(w.trace, id) ==> HasBreached(Apply(w, x).trace, id)
  {
    var w' := Apply(w, x);
    forall id | HasBreached(w.trace, id) ensures HasBreached(w'.trace, id) {
      if x.Destroy? { BreachStays(w.trace, Destroyed(x.target), id); }
    }
    hide HasBreached;
    forall e: Entity, i | 0 <= i < |Scripts(w', e)| && Scripts(w', e)[i].disabled
      ensures HasBreached(w'.trace, Scripts(w', e)[i].id)
    {
      assert i < |Scripts(w, e)| && Scripts(w', e)[i] == Scripts(w, e)[i];
    }
  }

  /** Effects keep an instance of a surviving entity in its place. */
  lemma ApplyKeepsPlace(w: World, x: Effect, e: Entity, i: nat)
    requires e < w.nextEnt && i < |Scripts(w, e)|
    ensures var w' := Apply(w, x);
            w.nextEnt <= w'.nextEnt
            && (Scripts(w', e) == [] || (i < |Scripts(w', e)| && Scripts(w', e)[i] == Scripts(w, e)[i]))
  {
  }

  lemma ApplyKeepsGone(w: World, x: Effect, e: Entity)
    requires e < w.nextEnt && e !in w.entities
    ensures e !in Apply(w, x).entities
  {
  }

  lemma {:induction false} EffectsBlame(w: World, effects: seq<Effect>, id: Id)
    requires Blamed(w)
    ensures Blamed(ApplyAll(w, effects))
    ensures HasBreached(w.trace, id) ==> HasBreached(ApplyAll(w, effects).trace, id)
    decreases |effects|
  {
    hide Blamed, HasBreached, Apply;
    if effects != [] {
      ApplyBlames(w, effects[0]);
      EffectsBlame(Apply(w, effects[0]), effects[1..], id);
    }
  }

  lemma {:induction false} EffectsKeepPlace(w: World, effects: seq<Effect>, e: Entity, i: nat)
    requires e < w.nextEnt && (e in w.entities ==> i < |Scripts(w, e)|)
    ensures var w' := ApplyAll(w, effects);
            i < |Scripts(w', e)| ==> i < |Scripts(w, e)| && Scripts(w', e)[i] == Scripts(w, e)[i]
    decreases |effects|
  {
    if effects != [] {
      var w1 := Apply(w, effects[0]);
      if e in w.entities {
        ApplyKeepsPlace(w, effects[0], e, i);
        StillScripted(w, effects[0], e);
      } else {
        ApplyKeepsGone(w, effects[0], e);
      }
      hide Apply;
      EffectsKeepPlace(w1, effects[1..], e, i);
    }
  }

  lemma StillScripted(w: World, x: Effect, e: Entity)
    requires e < w.nextEnt && e in w.entities && Scripts(w, e) != []
    ensures e in Apply(w, x).entities ==> Scripts(Apply(w, x), e) != []
  {
  }

  lemma CallBlames(w: World, e: Entity, i: nat, ev: Event, oracle: Oracle)
    requires Blamed(w) && e < w.nextEnt && i < |Scripts(w, e)|
    ensures Blamed(CallAndMark(w, e, i, ev, oracle))
  {
    var inst := Scripts(w, e)[i];
    var breached := Breaches(w, inst, ev, oracle);
    var w1 := Enter(w, e, i, ev, breached);
    EnterBlames(w, e, i, ev, breached);
    var w2 := Invoke(w, e, i, ev, oracle);
    var effects := if Handles(inst, ev) then oracle(w.calls).effects else [];
    assert w2 == ApplyAll(w1, effects);
    hide Enter, Breaches, Invoke, Blamed, HasBreached, ApplyAll;
    EffectsBlame(w1, effects, inst.id);
    EffectsKeepPlace(w1, effects, e, i);
    assert Blamed(w2);
    if breached && i < |Scripts(w2, e)| {
      assert Scripts(w2, e)[i].id == inst.id;
      MarkBlames(w2, e, i);
    }
    assert CallAndMark(w, e, i, ev, oracle) == if breached then MarkDisabled(w2, e, i) else w2;
  }

  lemma EnterBlames(w: World, e: Entity, i: nat, ev: Event, breached: bool)
    requires Blamed(w) && e < w.nextEnt && i < |Scripts(w, e)|
    ensures var w1 := Enter(w, e, i, ev, breached);
            && Blamed(w1) && e < w1.nextEnt && i < |Scripts(w1, e)| && Scripts(w1, e)[i].id == Scripts(w, e)[i].id
            && (breached ==> HasBreached(w1.trace, Scripts(w, e)[i].id))
  {
    var inst := Scripts(w, e)[i];
    var w1 := Enter(w, e, i, ev, breached);
    var x := Called(inst.id, e, ev, w.pass, breached);
    BreachStays(w.trace, x, inst.id);
    forall f: Entity, k | 0 <= k < |Scripts(w1, f)| && Scripts(w1, f)[k].disabled
      ensures HasBreached(w1.trace, Scripts(w1, f)[k].id)
    {
      assert Scripts(w, f)[k].disabled && Scripts(w, f)[k].id == Scripts(w1, f)[k].id;
      BreachStays(w.trace, x, Scripts(w, f)[k].id);
    }
  }

  lemma MarkBlames(w: World, e: Entity, i: nat)
    requires Blamed(w) && i < |Scripts(w, e)| && HasBreached(w.trace, Scripts(w, e)[i].id)
    ensures Blamed(MarkDisabled(w, e, i))
  {
    hide HasBreached;
    var w' := MarkDisabled(w, e, i);
    forall f: Entity, k | 0 <= k < |Scripts(w', f)| && Scripts(w', f)[k].disabled
      ensures HasBreached(w'.trace, Scripts(w', f)[k].id)
    {
      assert Scripts(w', f)[k].id == Scripts(w, f)[k].id;
      assert !(f == e && k == i) ==> Scripts(w', f)[k] == Scripts(w, f)[k];
    }
  }

  lemma InstanceBlames(w: World, e: Entity, i: nat, startOnly: bool, oracle: Oracle)
    requires Blamed(w) && e < w.nextEnt && i < |Scripts(w, e)|
    ensures Blamed(RunInstance(w, e, i, startOnly, oracle))
  {
    hide Blamed, CallAndMark;
    CallBlames(w, e, i, Start, oracle);
    CallBlames(w, e, i, Update, oracle);
    CallWork(w, e, i, Start, oracle);
    var w1 := CallAndMark(w, e, i, Start, oracle);
    if i < |Scripts(w1, e)| { CallBlames(w1, e, i, Update, oracle); }
  }

  lemma {:induction false} VisitBlames(w: World, e: Entity, i: nat, startOnly: bool, oracle: Oracle)
    requires Blamed(w) && e < w.nextEnt
    ensures Blamed(VisitFrom(w, e, i, startOnly, oracle))
    decreases if i <= Work(w, e) then Work(w, e) + 1 - i else 0
  {
    hide Blamed, RunInstance;
    if i < |Scripts(w, e)| {
      InstanceWork(w, e, i, startOnly, oracle);
      InstanceBlames(w, e, i, startOnly, oracle);
      VisitBlames(RunInstance(w, e, i, startOnly, oracle), e, i + 1, startOnly, oracle);
    }
  }

  lemma {:induction false} VisitAllBlames(w: World, pending: seq<Entity>, startOnly: bool, oracle: Oracle)
    requires Blamed(w) && forall k :: 0 <= k < |pending| ==> pending[k] < w.nextEnt
    ensures Blamed(VisitAll(w, pending, startOnly, oracle))
    decreases |pending|
  {
    hide Blamed, VisitFrom;
    if pending != [] {
      VisitKeepsEnts(w, pending[0], 0, startOnly, oracle);
      VisitBlames(w, pending[0], 0, startOnly, oracle);
      VisitAllBlames(VisitFrom(w, pending[0], 0, startOnly, oracle), pending[1..], startOnly, oracle);
    }
  }

  lemma {:induction false} NoneDisabled(paths: seq<Path>, files: map<Path, Handlers>, id: Id)
    ensures forall k :: 0 <= k < |Compiled(paths, files, id)| ==> !Compiled(paths, files, id)[k].disabled
    decreases |paths|
  {
    if paths != [] { NoneDisabled(paths[1..], files, if paths[0] in files then id + 1 else id); }
  }

  lemma StepBlames(w: World, op: Op)
    requires Blamed(w) && Enabled(w, op)
    ensures Blamed(Step(w, op))
  {
    hide HasBreached, VisitAll, Compiled;
    match op
    case Outside(x) => ApplyBlames(w, x);
    case PlaceEntity(paths) =>
      assert forall f: Entity :: Scripts(Place(w, paths), f) == Scripts(w, f) || Scripts(Place(w, paths), f) == [];
    case LoadScripts(e) =>
      var w' := Load(w, e);
      if w' != w {
        NoneDisabled(w.entities[e].paths, w.files, w.nextId);
        assert forall f: Entity :: f != e ==> Scripts(w', f) == Scripts(w, f);
      }
    case ResetScripts =>
      assert forall f: Entity :: Scripts(Clear(w), f) == [];
    case Pass(order, startOnly, oracle) =>
      var w1 := w.(pass := w.pass + 1);
      assert forall f: Entity :: Scripts(w1, f) == Scripts(w, f);
      VisitAllBlames(w1, order, startOnly, oracle);
  }

  lemma {:induction false} RunsBlame(ops: seq<Op>, files: map<Path, Handlers>)
    requires Legal(ops, files)
    ensures Blamed(Run(ops, files))
    decreases |ops|
  {
    if ops == [] {
      assert forall e: Entity :: Scripts(Run(ops, files), e) == [];
    } else {
      hide Blamed, Step;
      RunsBlame(ops[..|ops| - 1], files);
      StepBlames(Run(ops[..|ops| - 1], files), ops[|ops| - 1]);
    }
  }

  /** In any run an instance is disabled if and only if some call of it breached a limit. */
  lemma DisabledIffBreached(ops: seq<Op>, files: map<Path, Handlers>, e: Entity, i: nat)
    requires Legal(ops, files) && i < |Scripts(Run(ops, files), e)|
    ensures var w := Run(ops, files);
            Scripts(w, e)[i].disabled <==> HasBreached(w.trace, Scripts(w, e)[i].id)
  {
    hide Run, HasBreached, Orderly, Unique, Recorded;
    RunsBlame(ops, files);
    RunsAreOrderly(ops, files);
  }

  /** A call of an instance that is not disabled breaches a limit if and only if there is a handler
      to run and that handler does. */
  lemma BreachMeaning(w: World, e: Entity, i: nat, ev: Event, oracle: Oracle)
    requires Inv(w, {}) && i < |Scripts(w, e)| && !Scripts(w, e)[i].disabled
    ensures var h := Scripts(w, e)[i].handlers;
            Breaches(w, Scripts(w, e)[i], ev, oracle)
            <==> (if ev == Start then h.onStart else h.onUpdate) && oracle(w.calls).limit
  {
    hide HasBreached, HasStarted, HasCalled, HasUpdated, Orderly, Unique, Recorded;
  }
}
