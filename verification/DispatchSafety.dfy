/** What holds over any run of passes, whatever the scripts do to the world in between. */
module DispatchSafety {
  import opened Wrappers
  import opened ScriptDispatch

  // ----- what the record shows -----

  predicate HasCalled(trace: seq<Entry>, id: Id) {
    exists k :: 0 <= k < |trace| && trace[k].Called? && trace[k].id == id
  }

  predicate HasStarted(trace: seq<Entry>, id: Id) {
    exists k :: 0 <= k < |trace| && trace[k].Called? && trace[k].id == id && trace[k].event == Start
  }

  predicate HasUpdated(trace: seq<Entry>, id: Id, pass: nat) {
    exists k :: 0 <= k < |trace| && trace[k].Called? && trace[k].id == id
      && trace[k].event == Update && trace[k].pass == pass
  }

  predicate HasBreached(trace: seq<Entry>, id: Id) {
    exists k :: 0 <= k < |trace| && trace[k].Called? && trace[k].id == id && trace[k].breached
  }

  /** The next entry is in order: a start is the instance's first call, an update comes after a
      start and once a pass, and nothing is called through a destroyed entity or after a breach. */
  predicate InOrder(trace: seq<Entry>, x: Entry) {
    x.Called? ==>
      && (x.event == Start ==> !HasCalled(trace, x.id))
      && (x.event == Update ==> HasStarted(trace, x.id) && !HasUpdated(trace, x.id, x.pass))
      && Destroyed(x.entity) !in trace
      && !HasBreached(trace, x.id)
  }

  ghost predicate Orderly(trace: seq<Entry>) {
    forall k :: 0 <= k < |trace| ==> InOrder(trace[..k], trace[k])
  }

  lemma OrderlyAppend(trace: seq<Entry>, x: Entry)
    requires Orderly(trace) && InOrder(trace, x)
    ensures Orderly(trace + [x])
  {
    var t := trace + [x];
    forall k | 0 <= k < |t| ensures InOrder(t[..k], t[k]) {
      assert t[..k] == if k < |trace| then trace[..k] else trace;
    }
  }

  // ----- the invariant -----

  /** Script ids and entities are handed out once. */
  ghost predicate Unique(w: World) {
    && (forall e :: e in w.entities ==> e < w.nextEnt)
    && (forall e: Entity, i :: 0 <= i < |Scripts(w, e)| ==> Scripts(w, e)[i].id < w.nextId)
    && (forall e: Entity, i, f: Entity, k ::
          0 <= i < |Scripts(w, e)| && 0 <= k < |Scripts(w, f)| && Scripts(w, e)[i].id == Scripts(w, f)[k].id
          ==> e == f && i == k)
  }

  /** The record speaks of the past: ids and entities already handed out, the destroyed ones gone. */
  ghost predicate Recorded(w: World) {
    && (forall id: Id :: HasCalled(w.trace, id) ==> id < w.nextId)
    && (forall e: Entity :: Destroyed(e) in w.trace ==> e < w.nextEnt && e !in w.entities)
    && (forall id: Id, pass: nat :: HasUpdated(w.trace, id, pass) ==> pass <= w.pass)
    && (forall id: Id :: id in w.limited ==> id < w.nextId)
  }

  /** The flags agree with the record; an instance in `busy` is in the middle of a call. */
  ghost predicate Flagged(w: World, busy: set<Id>) {
    forall e: Entity, i :: 0 <= i < |Scripts(w, e)| ==>
      var inst := Scripts(w, e)[i];
      && (if inst.started then HasStarted(w.trace, inst.id) else !HasCalled(w.trace, inst.id) && inst.id !in w.limited)
      && (HasBreached(w.trace, inst.id) || inst.id in w.limited ==> inst.disabled || inst.id in busy)
  }

  ghost predicate Inv(w: World, busy: set<Id>) {
    Unique(w) && Recorded(w) && Flagged(w, busy) && Orderly(w.trace)
  }

  /** From `w` to `w'`: no entity comes back, surviving entities keep their instances in place,
      whatever is attached is new, and nothing is called. */
  ghost predicate Evolves(w: World, w': World) {
    && w.nextEnt <= w'.nextEnt && w.nextId <= w'.nextId && w'.pass == w.pass && w'.limited == w.limited
    && (forall e :: e in w'.entities && e < w.nextEnt ==> e in w.entities && |Scripts(w, e)| <= |Scripts(w', e)|)
    && (forall e: Entity, i :: 0 <= i < |Scripts(w', e)| ==>
          if e in w.entities && i < |Scripts(w, e)| then Scripts(w', e)[i] == Scripts(w, e)[i]
          else Scripts(w', e)[i].id >= w.nextId)
    && (forall id: Id :: HasCalled(w'.trace, id) == HasCalled(w.trace, id))
    && (forall id: Id, pass: nat :: HasUpdated(w'.trace, id, pass) == HasUpdated(w.trace, id, pass))
  }

  // ----- effects -----

  lemma DestroyedSaysNothing(trace: seq<Entry>, e: Entity)
    ensures var t := trace + [Destroyed(e)];
            && (forall id: Id :: HasCalled(t, id) == HasCalled(trace, id))
            && (forall id: Id :: HasStarted(t, id) == HasStarted(trace, id))
            && (forall id: Id, pass: nat :: HasUpdated(t, id, pass) == HasUpdated(trace, id, pass))
            && (forall id: Id :: HasBreached(t, id) == HasBreached(trace, id))
  {
    var t := trace + [Destroyed(e)];
    assert forall k :: 0 <= k < |t| && t[k].Called? ==> k < |trace| && t[k] == trace[k];
    assert forall k :: 0 <= k < |trace| ==> t[k] == trace[k];
  }

  lemma BreachedWasCalled(trace: seq<Entry>, id: Id)
    ensures HasBreached(trace, id) ==> HasCalled(trace, id)
  {
  }

  lemma AttachKeeps(w: World, e: Entity, path: Path, busy: set<Id>)
    requires Inv(w, busy)
    ensures var w' := Apply(w, Attach(e, path)); Inv(w', busy) && Evolves(w, w')
  {
    BreachedWasCalled(w.trace, w.nextId);
    hide HasCalled, HasStarted, HasUpdated, HasBreached, Orderly;
    var w' := Apply(w, Attach(e, path));
    if w' != w {
      assert forall f: Entity :: f != e ==> Scripts(w', f) == Scripts(w, f);
      assert Scripts(w', e) == Scripts(w, e) + [FreshInstance(w, path)];
      hide Scripts, Apply;
    }
  }

  lemma SpawnKeeps(w: World, busy: set<Id>)
    requires Inv(w, busy)
    ensures var w' := Apply(w, Spawn); Inv(w', busy) && Evolves(w, w')
  {
    hide HasCalled, HasStarted, HasUpdated, HasBreached, Orderly;
    var w' := Apply(w, Spawn);
    assert forall f: Entity :: Scripts(w', f) == Scripts(w, f);
  }

  lemma DestroyKeeps(w: World, e: Entity, busy: set<Id>)
    requires Inv(w, busy)
    ensures var w' := Apply(w, Destroy(e)); Inv(w', busy) && Evolves(w, w')
  {
    var w' := Apply(w, Destroy(e));
    if e in w.entities {
      OrderlyAppend(w.trace, Destroyed(e));
      DestroyedSaysNothing(w.trace, e);
      hide HasCalled, HasStarted, HasUpdated, HasBreached, Orderly;
      assert forall f: Entity :: f != e ==> Scripts(w', f) == Scripts(w, f);
      assert Scripts(w', e) == [];
    }
  }

  lemma EffectKeeps(w: World, x: Effect, busy: set<Id>)
    requires Inv(w, busy)
    ensures Inv(Apply(w, x), busy) && Evolves(w, Apply(w, x))
  {
    hide Inv, Evolves;
    match x
    case Spawn => SpawnKeeps(w, busy);
    case Attach(e, path) => AttachKeeps(w, e, path, busy);
    case Destroy(e) => DestroyKeeps(w, e, busy);
  }

  lemma EvolvesOn(w: World, w1: World, w2: World)
    requires Evolves(w, w1) && Evolves(w1, w2) && Unique(w)
    ensures Evolves(w, w2)
  {
    hide HasCalled, HasUpdated;
    forall e, i | 0 <= i < |Scripts(w2, e)|
      ensures if e in w.entities && i < |Scripts(w, e)| then Scripts(w2, e)[i] == Scripts(w, e)[i]
              else Scripts(w2, e)[i].id >= w.nextId
    {
      if e in w1.entities && i < |Scripts(w1, e)| {
        assert Scripts(w2, e)[i] == Scripts(w1, e)[i];
      }
    }
  }

  lemma {:induction false} EffectsKeep(w: World, effects: seq<Effect>, busy: set<Id>)
    requires Inv(w, busy)
    ensures var w' := ApplyAll(w, effects); Inv(w', busy) && Evolves(w, w')
    decreases |effects|
  {
    if effects != [] {
      assert Unique(w);
      hide Inv, Evolves, Apply, Unique;
      EffectKeeps(w, effects[0], busy);
      EffectsKeep(Apply(w, effects[0]), effects[1..], busy);
      EvolvesOn(w, Apply(w, effects[0]), ApplyAll(w, effects));
    }
  }

  // ----- one call -----

  lemma CallSays(trace: seq<Entry>, x: Entry)
    requires x.Called?
    ensures var t := trace + [x];
            && (forall id: Id :: HasCalled(t, id) == (HasCalled(trace, id) || id == x.id))
            && (forall id: Id :: HasStarted(t, id) == (HasStarted(trace, id) || (id == x.id && x.event == Start)))
            && (forall id: Id, pass: nat :: HasUpdated(t, id, pass)
                  == (HasUpdated(trace, id, pass) || (id == x.id && x.event == Update && pass == x.pass)))
            && (forall id: Id :: HasBreached(t, id) == (HasBreached(trace, id) || (id == x.id && x.breached)))
  {
    var t := trace + [x];
    assert t[|trace|] == x;
    assert forall k :: 0 <= k < |trace| ==> t[k] == trace[k];
  }

  /** The instance may be entered now. */
  ghost predicate MayEnter(w: World, e: Entity, i: nat, ev: Event)
    requires i < |Scripts(w, e)|
  {
    var inst := Scripts(w, e)[i];
    !inst.disabled && (if ev.Start? then !inst.started else inst.started && !HasUpdated(w.trace, inst.id, w.pass))
  }

  lemma EnterKeeps(w: World, e: Entity, i: nat, ev: Event, breached: bool)
    requires Inv(w, {}) && i < |Scripts(w, e)| && MayEnter(w, e, i, ev)
    ensures var w' := Enter(w, e, i, ev, breached); var id := Scripts(w, e)[i].id;
            && Inv(w', {id})
            && (!breached ==> Inv(w', {}))
            && HasStarted(w'.trace, id)
  {
    var inst := Scripts(w, e)[i];
    var x := Called(inst.id, e, ev, w.pass, breached);
    var w' := Enter(w, e, i, ev, breached);
    hide HasCalled, HasStarted, HasUpdated, HasBreached, Orderly, InOrder, Enter;
    EnterShape(w, e, i, ev, breached);
    EnterInOrder(w, e, i, ev, breached);
    OrderlyAppend(w.trace, x);
    CallSays(w.trace, x);
    DestroyedStays(w.trace, x);
    EnterUnique(w, w', e, i, inst.(started := true));
    hide Scripts, Unique;
  }

  lemma EnterShape(w: World, e: Entity, i: nat, ev: Event, breached: bool)
    requires i < |Scripts(w, e)|
    ensures var w' := Enter(w, e, i, ev, breached);
            var inst := Scripts(w, e)[i];
            && (forall f: Entity :: f != e ==> Scripts(w', f) == Scripts(w, f))
            && Scripts(w', e) == Scripts(w, e)[i := inst.(started := true)]
            && w'.entities.Keys == w.entities.Keys && w'.nextEnt == w.nextEnt && w'.nextId == w.nextId
            && w'.pass == w.pass && w'.trace == w.trace + [Called(inst.id, e, ev, w.pass, breached)]
            && (forall id: Id :: id != inst.id ==> (id in w'.limited <==> id in w.limited))
            && (inst.id in w'.limited <==> breached)
  {
  }

  lemma EnterUnique(w: World, w': World, e: Entity, i: nat, inst: Instance)
    requires Unique(w) && i < |Scripts(w, e)| && inst.id == Scripts(w, e)[i].id
    requires w'.entities.Keys == w.entities.Keys && w'.nextEnt == w.nextEnt && w'.nextId == w.nextId
    requires (forall f: Entity :: f != e ==> Scripts(w', f) == Scripts(w, f))
    requires Scripts(w', e) == Scripts(w, e)[i := inst]
    ensures Unique(w')
  {
    hide Scripts;
  }

  lemma EnterInOrder(w: World, e: Entity, i: nat, ev: Event, breached: bool)
    requires Inv(w, {}) && i < |Scripts(w, e)| && MayEnter(w, e, i, ev)
    ensures InOrder(w.trace, Called(Scripts(w, e)[i].id, e, ev, w.pass, breached))
  {
    BreachedWasCalled(w.trace, Scripts(w, e)[i].id);
    assert e in w.entities;
    hide HasCalled, HasStarted, HasUpdated, HasBreached, Orderly;
  }

  lemma DestroyedStays(trace: seq<Entry>, x: Entry)
    requires x.Called?
    ensures forall e: Entity :: Destroyed(e) in trace + [x] <==> Destroyed(e) in trace
  {
  }

  /** From `w` to `w'` by a call of `ev` on instance `i` of `e`: no entity comes back, surviving
      entities keep their instances in place, only the called one changes, and only it is updated. */
  ghost predicate Touches(w: World, w': World, e: Entity, i: nat, ev: Event)
    requires i < |Scripts(w, e)|
  {
    var id := Scripts(w, e)[i].id;
    && w.nextEnt <= w'.nextEnt && w.nextId <= w'.nextId && w'.pass == w.pass
    && (forall f: Entity :: f in w'.entities && f < w.nextEnt ==>
          f in w.entities && |Scripts(w, f)| <= |Scripts(w', f)|)
    && (forall f: Entity, k :: 0 <= k < |Scripts(w', f)| ==>
          if f in w.entities && k < |Scripts(w, f)| then
            Scripts(w', f)[k].id == Scripts(w, f)[k].id
            && (Scripts(w, f)[k].id != id ==> Scripts(w', f)[k] == Scripts(w, f)[k])
          else Scripts(w', f)[k].id >= w.nextId)
    && (forall x: Id, pass: nat :: HasUpdated(w'.trace, x, pass) <==>
          HasUpdated(w.trace, x, pass) || (x == id && ev == Update && pass == w.pass))
  }

  lemma EnterTouches(w: World, e: Entity, i: nat, ev: Event, breached: bool)
    requires Unique(w) && i < |Scripts(w, e)|
    ensures Touches(w, Enter(w, e, i, ev, breached), e, i, ev)
  {
    var inst := Scripts(w, e)[i];
    var w' := Enter(w, e, i, ev, breached);
    CallSays(w.trace, Called(inst.id, e, ev, w.pass, breached));
    hide HasUpdated, HasCalled, HasStarted, HasBreached;
    assert forall f: Entity :: f != e ==> Scripts(w', f) == Scripts(w, f);
    assert Scripts(w', e) == Scripts(w, e)[i := inst.(started := true)];
  }

  lemma TouchesOn(w: World, w1: World, w2: World, e: Entity, i: nat, ev: Event)
    requires i < |Scripts(w, e)| && Touches(w, w1, e, i, ev) && Evolves(w1, w2) && Unique(w) && w1.nextEnt == w.nextEnt
    ensures Touches(w, w2, e, i, ev)
  {
    assert forall f: Entity :: f in w.entities ==> f < w.nextEnt;
    hide HasUpdated, HasCalled, Unique;
    forall f: Entity, k | 0 <= k < |Scripts(w2, f)|
      ensures if f in w.entities && k < |Scripts(w, f)| then
                Scripts(w2, f)[k].id == Scripts(w, f)[k].id
                && (Scripts(w, f)[k].id != Scripts(w, e)[i].id ==> Scripts(w2, f)[k] == Scripts(w, f)[k])
              else Scripts(w2, f)[k].id >= w.nextId
    {
      if f in w1.entities && k < |Scripts(w1, f)| {
        assert Scripts(w2, f)[k] == Scripts(w1, f)[k];
      }
    }
  }

  /** The call as a whole: while it runs only its own instance may have a breach on record and not be disabled. */
  lemma InvokeKeeps(w: World, e: Entity, i: nat, ev: Event, oracle: Oracle)
    requires Inv(w, {}) && i < |Scripts(w, e)| && MayEnter(w, e, i, ev)
    ensures var w' := Invoke(w, e, i, ev, oracle); var id := Scripts(w, e)[i].id;
            && Inv(w', {id}) && Touches(w, w', e, i, ev)
            && (!Breaches(w, Scripts(w, e)[i], ev, oracle) ==> Inv(w', {}))
            && (i < |Scripts(w', e)| ==> Scripts(w', e)[i] == Scripts(w, e)[i].(started := true))
  {
    var inst := Scripts(w, e)[i];
    var breached := Breaches(w, inst, ev, oracle);
    var w1 := Enter(w, e, i, ev, breached);
    EnterKeeps(w, e, i, ev, breached);
    EnterTouches(w, e, i, ev, breached);
    assert Scripts(w1, e) == Scripts(w, e)[i := inst.(started := true)];
    if Handles(inst, ev) {
      EffectsKeep(w1, oracle(w.calls).effects, {inst.id});
      if !breached { EffectsKeep(w1, oracle(w.calls).effects, {}); }
      hide Inv, Touches, ApplyAll;
      var w2 := ApplyAll(w1, oracle(w.calls).effects);
      assert Unique(w) by { assert Inv(w, {}); }
      TouchesOn(w, w1, w2, e, i, ev);
      if i < |Scripts(w2, e)| { assert e in w1.entities; }
    }
  }

  lemma MarkKeeps(w: World, e: Entity, i: nat, id: Id)
    requires Inv(w, {id}) && (i < |Scripts(w, e)| ==> Scripts(w, e)[i].id == id)
    requires forall f: Entity, k :: 0 <= k < |Scripts(w, f)| && Scripts(w, f)[k].id == id ==> f == e && k == i
    ensures Inv(MarkDisabled(w, e, i), {})
  {
    hide HasCalled, HasStarted, HasUpdated, HasBreached, Orderly;
    var w' := MarkDisabled(w, e, i);
    if i < |Scripts(w, e)| {
      assert forall f: Entity :: f != e ==> Scripts(w', f) == Scripts(w, f);
      assert Scripts(w', e) == Scripts(w, e)[i := Scripts(w, e)[i].(disabled := true)];
    }
  }

  lemma MarkTouches(w: World, w1: World, e: Entity, i: nat, ev: Event)
    requires i < |Scripts(w, e)| && e < w.nextEnt && Touches(w, w1, e, i, ev)
    ensures Touches(w, MarkDisabled(w1, e, i), e, i, ev)
  {
    hide HasUpdated;
    var w' := MarkDisabled(w1, e, i);
    if i < |Scripts(w1, e)| {
      assert forall f: Entity :: f != e ==> Scripts(w', f) == Scripts(w1, f);
      assert Scripts(w', e) == Scripts(w1, e)[i := Scripts(w1, e)[i].(disabled := true)];
      assert e in w.entities && i < |Scripts(w, e)|;
    }
  }

  /** After the call its own instance is still where it was, or nowhere. */
  lemma CalledStays(w: World, w1: World, e: Entity, i: nat, ev: Event)
    requires Unique(w) && Recorded(w) && i < |Scripts(w, e)| && Touches(w, w1, e, i, ev)
    ensures forall f: Entity, k :: 0 <= k < |Scripts(w1, f)| && Scripts(w1, f)[k].id == Scripts(w, e)[i].id ==>
              f == e && k == i
    ensures i < |Scripts(w1, e)| ==> Scripts(w1, e)[i].id == Scripts(w, e)[i].id
  {
    hide HasCalled, HasUpdated;
    var id := Scripts(w, e)[i].id;
    forall f: Entity, k | 0 <= k < |Scripts(w1, f)| && Scripts(w1, f)[k].id == id ensures f == e && k == i {
      assert id < w.nextId;
    }
  }

  lemma CallKeeps(w: World, e: Entity, i: nat, ev: Event, oracle: Oracle)
    requires Inv(w, {}) && i < |Scripts(w, e)| && MayEnter(w, e, i, ev)
    ensures var w' := CallAndMark(w, e, i, ev, oracle);
            && Inv(w', {}) && Touches(w, w', e, i, ev)
            && (!Breaches(w, Scripts(w, e)[i], ev, oracle) && i < |Scripts(w', e)| ==>
                  Scripts(w', e)[i] == Scripts(w, e)[i].(started := true))
  {
    InvokeKeeps(w, e, i, ev, oracle);
    var w1 := Invoke(w, e, i, ev, oracle);
    assert e in w.entities && e < w.nextEnt;
    CalledStays(w, w1, e, i, ev);
    hide Inv, Touches, Invoke, MarkDisabled, MayEnter;
    if Breaches(w, Scripts(w, e)[i], ev, oracle) {
      MarkKeeps(w1, e, i, Scripts(w, e)[i].id);
      MarkTouches(w, w1, e, i, ev);
    }
  }

  // ----- one pass -----

  /** No instance of `e` from index `i` on has been updated in this pass. */
  ghost predicate Unvisited(w: World, e: Entity, i: nat) {
    forall k :: i <= k < |Scripts(w, e)| ==> !HasUpdated(w.trace, Scripts(w, e)[k].id, w.pass)
  }

  lemma UpdatedWasCalled(trace: seq<Entry>, id: Id, pass: nat)
    ensures HasUpdated(trace, id, pass) ==> HasCalled(trace, id)
  {
  }

  /** A call disturbs no instance still to be visited, here or elsewhere. */
  lemma TouchesElsewhere(w: World, w': World, e: Entity, i: nat, ev: Event, f: Entity, from: nat)
    requires Inv(w, {}) && i < |Scripts(w, e)| && Touches(w, w', e, i, ev) && f < w.nextEnt
    requires Unvisited(w, f, from) && (f != e || from > i || ev == Start)
    ensures Unvisited(w', f, from)
  {
    forall k | from <= k < |Scripts(w', f)| ensures !HasUpdated(w'.trace, Scripts(w', f)[k].id, w'.pass) {
      var x := Scripts(w', f)[k].id;
      UpdatedWasCalled(w.trace, x, w.pass);
      hide HasUpdated, HasCalled;
      if f in w.entities && k < |Scripts(w, f)| {
        assert x == Scripts(w, f)[k].id;
      } else {
        assert x >= w.nextId;
      }
      assert !HasUpdated(w.trace, x, w.pass);
    }
  }

  lemma InstanceKeeps(w: World, e: Entity, i: nat, startOnly: bool, oracle: Oracle)
    requires Inv(w, {}) && e < w.nextEnt && i < |Scripts(w, e)| && Unvisited(w, e, i)
    ensures var w' := RunInstance(w, e, i, startOnly, oracle);
            && Inv(w', {}) && w.nextEnt <= w'.nextEnt && w'.pass == w.pass
            && (forall f: Entity, from: nat ::
                  f < w.nextEnt && Unvisited(w, f, from) && (f != e || from > i) ==> Unvisited(w', f, from))
  {
    var inst := Scripts(w, e)[i];
    if inst.script && !inst.disabled && !(inst.started && startOnly) {
      var ev := if inst.started then Update else Start;
      assert MayEnter(w, e, i, ev);
      hide Inv, MayEnter, Unvisited;
      CallKeeps(w, e, i, ev, oracle);
      var w1 := CallAndMark(w, e, i, ev, oracle);
      Elsewhere(w, w1, e, i, ev);
      if ev == Start {
        TouchesElsewhere(w, w1, e, i, Start, e, i);
        if !Breaches(w, inst, Start, oracle) && !startOnly && i < |Scripts(w1, e)| {
          StartedMayUpdate(w1, e, i);
          CallKeeps(w1, e, i, Update, oracle);
          Elsewhere(w1, CallAndMark(w1, e, i, Update, oracle), e, i, Update);
        }
      }
    }
  }

  lemma StartedMayUpdate(w: World, e: Entity, i: nat)
    requires i < |Scripts(w, e)| && Unvisited(w, e, i) && Scripts(w, e)[i].started && !Scripts(w, e)[i].disabled
    ensures MayEnter(w, e, i, Update)
  {
  }

  lemma Elsewhere(w: World, w': World, e: Entity, i: nat, ev: Event)
    requires Inv(w, {}) && i < |Scripts(w, e)| && Touches(w, w', e, i, ev)
    ensures w.nextEnt <= w'.nextEnt && w'.pass == w.pass
    ensures forall f: Entity, from: nat ::
              f < w.nextEnt && Unvisited(w, f, from) && (f != e || from > i) ==> Unvisited(w', f, from)
  {
    forall f: Entity, from: nat | f < w.nextEnt && Unvisited(w, f, from) && (f != e || from > i)
      ensures Unvisited(w', f, from)
    {
      TouchesElsewhere(w, w', e, i, ev, f, from);
    }
  }

  lemma {:induction false} VisitKeeps(w: World, e: Entity, i: nat, startOnly: bool, oracle: Oracle)
    requires Inv(w, {}) && e < w.nextEnt && Unvisited(w, e, i)
    ensures var w' := VisitFrom(w, e, i, startOnly, oracle);
            && Inv(w', {}) && w.nextEnt <= w'.nextEnt && w'.pass == w.pass
            && (forall f: Entity :: f < w.nextEnt && f != e && Unvisited(w, f, 0) ==> Unvisited(w', f, 0))
    decreases if i <= Work(w, e) then Work(w, e) + 1 - i else 0
  {
    if i < |Scripts(w, e)| {
      UnvisitedNext(w, e, i);
      hide Inv, Unvisited, RunInstance;
      InstanceWork(w, e, i, startOnly, oracle);
      InstanceKeeps(w, e, i, startOnly, oracle);
      VisitKeeps(RunInstance(w, e, i, startOnly, oracle), e, i + 1, startOnly, oracle);
    }
  }

  lemma UnvisitedNext(w: World, e: Entity, i: nat)
    requires Unvisited(w, e, i)
    ensures Unvisited(w, e, i + 1)
  {
  }

  lemma {:induction false} VisitAllKeeps(w: World, pending: seq<Entity>, startOnly: bool, oracle: Oracle)
    requires Inv(w, {}) && (forall k :: 0 <= k < |pending| ==> pending[k] < w.nextEnt && Unvisited(w, pending[k], 0))
    requires forall j, k :: 0 <= j < k < |pending| ==> pending[j] != pending[k]
    ensures Inv(VisitAll(w, pending, startOnly, oracle), {})
    decreases |pending|
  {
    if pending != [] {
      hide Inv, Unvisited, VisitFrom;
      VisitKeeps(w, pending[0], 0, startOnly, oracle);
      var w1 := VisitFrom(w, pending[0], 0, startOnly, oracle);
      forall k | 0 <= k < |pending[1..]| ensures pending[1..][k] < w1.nextEnt && Unvisited(w1, pending[1..][k], 0) {
        assert pending[1..][k] == pending[k + 1];
      }
      VisitAllKeeps(w1, pending[1..], startOnly, oracle);
    }
  }

  /** When a pass begins nothing has been updated in it. */
  lemma PassBegins(w: World, pending: seq<Entity>)
    requires Inv(w, {})
    ensures var w1 := w.(pass := w.pass + 1);
            Inv(w1, {}) && forall k :: 0 <= k < |pending| ==> Unvisited(w1, pending[k], 0)
  {
    var w1 := w.(pass := w.pass + 1);
    hide HasCalled, HasStarted, HasUpdated, HasBreached, Orderly;
    assert forall e: Entity :: Scripts(w1, e) == Scripts(w, e);
  }

  lemma DispatchKeeps(w: World, pending: seq<Entity>, startOnly: bool, oracle: Oracle)
    requires Inv(w, {}) && forall k :: 0 <= k < |pending| ==> pending[k] < w.nextEnt
    requires forall j, k :: 0 <= j < k < |pending| ==> pending[j] != pending[k]
    ensures Inv(Dispatch(w, pending, startOnly, oracle), {})
  {
    hide Inv, Unvisited;
    PassBegins(w, pending);
    VisitAllKeeps(w.(pass := w.pass + 1), pending, startOnly, oracle);
  }

  // ----- nobody is passed over -----

  /** The first `i` instances of `e` have had their call: all are started, and in an update pass updated. */
  ghost predicate Served(w: World, e: Entity, i: nat, startOnly: bool) {
    forall k :: 0 <= k < i && k < |Scripts(w, e)| && Scripts(w, e)[k].script && !Scripts(w, e)[k].disabled ==>
      Scripts(w, e)[k].started && (startOnly || HasUpdated(w.trace, Scripts(w, e)[k].id, w.pass))
  }

  lemma TouchesServed(w: World, w': World, e: Entity, i: nat, ev: Event, startOnly: bool)
    requires Inv(w, {}) && i < |Scripts(w, e)| && Touches(w, w', e, i, ev) && Served(w, e, i, startOnly)
    ensures Served(w', e, i, startOnly)
  {
    hide HasUpdated;
    forall k | 0 <= k < i && k < |Scripts(w', e)| ensures Scripts(w', e)[k] == Scripts(w, e)[k] {
      assert Scripts(w, e)[k].id != Scripts(w, e)[i].id;
    }
  }

  lemma InstanceServes(w: World, e: Entity, i: nat, startOnly: bool, oracle: Oracle)
    requires Inv(w, {}) && e < w.nextEnt && i < |Scripts(w, e)| && Unvisited(w, e, i) && Served(w, e, i, startOnly)
    ensures Served(RunInstance(w, e, i, startOnly, oracle), e, i + 1, startOnly)
  {
    var inst := Scripts(w, e)[i];
    var w' := RunInstance(w, e, i, startOnly, oracle);
    if inst.script && !inst.disabled && !(inst.started && startOnly) {
      var ev := if inst.started then Update else Start;
      assert MayEnter(w, e, i, ev);
      hide Inv, MayEnter, Unvisited, HasUpdated;
      CallKeeps(w, e, i, ev, oracle);
      var w1 := CallAndMark(w, e, i, ev, oracle);
      TouchesServed(w, w1, e, i, ev, startOnly);
      CalledSettles(w, e, i, ev, oracle);
      if ev == Start && !Breaches(w, inst, Start, oracle) && !startOnly && i < |Scripts(w1, e)| {
        TouchesElsewhere(w, w1, e, i, Start, e, i);
        StartedMayUpdate(w1, e, i);
        CallKeeps(w1, e, i, Update, oracle);
        var w2 := CallAndMark(w1, e, i, Update, oracle);
        TouchesServed(w1, w2, e, i, Update, startOnly);
        CalledSettles(w1, e, i, Update, oracle);
      }
    }
  }

  /** After its call an instance is disabled if it breached, and otherwise started and on record. */
  lemma CalledSettles(w: World, e: Entity, i: nat, ev: Event, oracle: Oracle)
    requires Inv(w, {}) && i < |Scripts(w, e)| && MayEnter(w, e, i, ev)
    ensures var w' := CallAndMark(w, e, i, ev, oracle);
            i < |Scripts(w', e)| ==>
              if Breaches(w, Scripts(w, e)[i], ev, oracle) then Scripts(w', e)[i].disabled
              else Scripts(w', e)[i].started && (ev == Update ==> HasUpdated(w'.trace, Scripts(w', e)[i].id, w'.pass))
  {
    CallKeeps(w, e, i, ev, oracle);
    hide Inv, HasUpdated, Invoke;
  }

  /** When an entity's turn is over, every enabled script on it, whenever it was attached, has
      been started, and in an update pass updated. */
  lemma {:induction false} VisitServes(w: World, e: Entity, i: nat, startOnly: bool, oracle: Oracle)
    requires Inv(w, {}) && e < w.nextEnt && Unvisited(w, e, i) && Served(w, e, i, startOnly)
    ensures var w' := VisitFrom(w, e, i, startOnly, oracle);
            Served(w', e, |Scripts(w', e)|, startOnly)
    decreases if i <= Work(w, e) then Work(w, e) + 1 - i else 0
  {
    hide Inv, Unvisited, RunInstance, Served;
    if i < |Scripts(w, e)| {
      UnvisitedNext(w, e, i);
      InstanceWork(w, e, i, startOnly, oracle);
      InstanceKeeps(w, e, i, startOnly, oracle);
      InstanceServes(w, e, i, startOnly, oracle);
      VisitServes(RunInstance(w, e, i, startOnly, oracle), e, i + 1, startOnly, oracle);
    } else {
      ServedFewer(w, e, i, |Scripts(w, e)|, startOnly);
    }
  }

  lemma ServedFewer(w: World, e: Entity, n: nat, fewer: nat, startOnly: bool)
    requires Served(w, e, n, startOnly) && (fewer <= n || |Scripts(w, e)| <= n)
    ensures Served(w, e, fewer, startOnly)
  {
  }

  /** Entities do not come back, and those that survive keep their instances in place. */
  ghost predicate Stays(w: World, w': World) {
    && w.nextEnt <= w'.nextEnt && w'.pass == w.pass
    && forall f: Entity :: f in w'.entities && f < w.nextEnt ==>
         && f in w.entities && |Scripts(w, f)| <= |Scripts(w', f)|
         && forall k :: 0 <= k < |Scripts(w, f)| ==> Scripts(w', f)[k].id == Scripts(w, f)[k].id
  }

  /** And what was served on an entity other than `e` still is. */
  ghost predicate Spares(w: World, w': World, e: Entity, startOnly: bool) {
    forall f: Entity, n: nat ::
      f != e && f < w.nextEnt && (f in w.entities ==> n <= |Scripts(w, f)|) && Served(w, f, n, startOnly)
      ==> Served(w', f, n, startOnly)
  }

  lemma CallSpares(w: World, w': World, e: Entity, i: nat, ev: Event, startOnly: bool)
    requires Inv(w, {}) && i < |Scripts(w, e)| && Touches(w, w', e, i, ev)
    ensures Stays(w, w') && Spares(w, w', e, startOnly)
  {
    hide HasUpdated, HasCalled, HasStarted, HasBreached, Orderly, InOrder;
    forall f: Entity, n: nat | f != e && f < w.nextEnt && (f in w.entities ==> n <= |Scripts(w, f)|)
                               && Served(w, f, n, startOnly)
      ensures Served(w', f, n, startOnly)
    {
      forall k | 0 <= k < n && k < |Scripts(w', f)|
        ensures k < |Scripts(w, f)| && Scripts(w', f)[k] == Scripts(w, f)[k]
      {
        assert f in w'.entities;
        assert Scripts(w, f)[k].id != Scripts(w, e)[i].id;
      }
    }
  }

  lemma SparesOn(w: World, w1: World, w2: World, e: Entity, startOnly: bool)
    requires Stays(w, w1) && Spares(w, w1, e, startOnly) && Stays(w1, w2) && Spares(w1, w2, e, startOnly)
    ensures Stays(w, w2) && Spares(w, w2, e, startOnly)
  {
    StaysOn(w, w1, w2);
    hide Served;
    forall f: Entity, n: nat | f != e && f < w.nextEnt && (f in w.entities ==> n <= |Scripts(w, f)|)
                               && Served(w, f, n, startOnly)
      ensures Served(w2, f, n, startOnly)
    {
      assert Served(w1, f, n, startOnly);
      assert f in w1.entities ==> n <= |Scripts(w1, f)|;
    }
  }

  lemma StaysOn(w: World, w1: World, w2: World)
    requires Stays(w, w1) && Stays(w1, w2)
    ensures Stays(w, w2)
  {
    forall f: Entity | f in w2.entities && f < w.nextEnt
      ensures f in w.entities && |Scripts(w, f)| <= |Scripts(w2, f)|
      ensures forall k :: 0 <= k < |Scripts(w, f)| ==> Scripts(w2, f)[k].id == Scripts(w, f)[k].id
    {
      assert f in w1.entities;
      forall k | 0 <= k < |Scripts(w, f)| ensures Scripts(w2, f)[k].id == Scripts(w, f)[k].id {
        assert Scripts(w1, f)[k].id == Scripts(w, f)[k].id;
      }
    }
  }

  lemma NothingSpares(w: World, e: Entity, startOnly: bool)
    ensures Stays(w, w) && Spares(w, w, e, startOnly)
  {
  }

  lemma InstanceSpares(w: World, e: Entity, i: nat, startOnly: bool, oracle: Oracle)
    requires Inv(w, {}) && e < w.nextEnt && i < |Scripts(w, e)| && Unvisited(w, e, i)
    ensures var w' := RunInstance(w, e, i, startOnly, oracle); Stays(w, w') && Spares(w, w', e, startOnly)
  {
    var inst := Scripts(w, e)[i];
    NothingSpares(w, e, startOnly);
    if inst.script && !inst.disabled && !(inst.started && startOnly) {
      var ev := if inst.started then Update else Start;
      assert MayEnter(w, e, i, ev);
      hide Inv, MayEnter, Unvisited, Stays, Spares, HasUpdated;
      CallKeeps(w, e, i, ev, oracle);
      var w1 := CallAndMark(w, e, i, ev, oracle);
      CallSpares(w, w1, e, i, ev, startOnly);
      if ev == Start && !Breaches(w, inst, Start, oracle) && !startOnly && i < |Scripts(w1, e)| {
        TouchesElsewhere(w, w1, e, i, Start, e, i);
        StartedMayUpdate(w1, e, i);
        CallKeeps(w1, e, i, Update, oracle);
        CallSpares(w1, CallAndMark(w1, e, i, Update, oracle), e, i, Update, startOnly);
        SparesOn(w, w1, CallAndMark(w1, e, i, Update, oracle), e, startOnly);
      }
    }
  }

  lemma {:induction false} VisitSpares(w: World, e: Entity, i: nat, startOnly: bool, oracle: Oracle)
    requires Inv(w, {}) && e < w.nextEnt && Unvisited(w, e, i)
    ensures var w' := VisitFrom(w, e, i, startOnly, oracle); Stays(w, w') && Spares(w, w', e, startOnly)
    decreases if i <= Work(w, e) then Work(w, e) + 1 - i else 0
  {
    if i < |Scripts(w, e)| {
      UnvisitedNext(w, e, i);
      hide Inv, Unvisited, RunInstance, Stays, Spares;
      InstanceWork(w, e, i, startOnly, oracle);
      InstanceKeeps(w, e, i, startOnly, oracle);
      InstanceSpares(w, e, i, startOnly, oracle);
      var w1 := RunInstance(w, e, i, startOnly, oracle);
      VisitSpares(w1, e, i + 1, startOnly, oracle);
      SparesOn(w, w1, VisitFrom(w1, e, i + 1, startOnly, oracle), e, startOnly);
    } else {
      NothingSpares(w, e, startOnly);
    }
  }

  /** Over a pass: every entity of the snapshot has all the instances it began with served. */
  lemma {:induction false} VisitAllServes(w: World, pending: seq<Entity>, startOnly: bool, oracle: Oracle, e: Entity,
      n: nat)
    requires Inv(w, {}) && (forall k :: 0 <= k < |pending| ==> pending[k] < w.nextEnt && Unvisited(w, pending[k], 0))
    requires forall j, k :: 0 <= j < k < |pending| ==> pending[j] != pending[k]
    requires e < w.nextEnt && (e in w.entities ==> n <= |Scripts(w, e)|) && (e in pending || Served(w, e, n, startOnly))
    ensures Stays(w, VisitAll(w, pending, startOnly, oracle))
    ensures Served(VisitAll(w, pending, startOnly, oracle), e, n, startOnly)
    decreases |pending|
  {
    NothingSpares(w, e, startOnly);
    if pending != [] {
      var p := pending[0];
      var w1 := VisitFrom(w, p, 0, startOnly, oracle);
      ServedNone(w, p, startOnly);
      VisitServes(w, p, 0, startOnly, oracle);
      VisitKeeps(w, p, 0, startOnly, oracle);
      VisitSpares(w, p, 0, startOnly, oracle);
      hide Inv, Unvisited, VisitFrom;
      forall k | 0 <= k < |pending[1..]| ensures pending[1..][k] < w1.nextEnt && Unvisited(w1, pending[1..][k], 0) {
        assert pending[1..][k] == pending[k + 1];
      }
      if e == p { ServedFewer(w1, e, |Scripts(w1, e)|, n, startOnly); }
      assert e in pending <==> e == p || e in pending[1..];
      VisitAllServes(w1, pending[1..], startOnly, oracle, e, n);
      StaysOn(w, w1, VisitAll(w, pending, startOnly, oracle));
    }
  }

  lemma ServedNone(w: World, e: Entity, startOnly: bool)
    ensures Served(w, e, 0, startOnly)
  {
  }

  // ----- runs -----

  /** Readable scripts of a path list, as fresh instances. */
  function Compiled(paths: seq<Path>, files: map<Path, Handlers>, id: Id): seq<Instance>
    decreases |paths|
  {
    if paths == [] then []
    else if paths[0] in files then
      [Instance(id, true, files[paths[0]], false, false)] + Compiled(paths[1..], files, id + 1)
    else Compiled(paths[1..], files, id)
  }

  /** loadScripts on one entity: entities that already have scripts are left alone. */
  function Load(w: World, e: Entity): World {
    if e !in w.entities || Scripts(w, e) != [] then w
    else
      var found := Compiled(w.entities[e].paths, w.files, w.nextId);
      if found == [] then w
      else w.(entities := w.entities[e := w.entities[e].(scripts := Some(found))], nextId := w.nextId + |found|)
  }

  /** resetScripts drops every component. */
  function Clear(w: World): World {
    w.(entities := map e | e in w.entities :: w.entities[e].(scripts := None))
  }

  /** An entity of the scene file, listing its scripts. */
  function Place(w: World, paths: seq<Path>): World {
    w.(entities := w.entities[w.nextEnt := Ent(paths, None)], nextEnt := w.nextEnt + 1)
  }

  datatype Op = Outside(effect: Effect) | PlaceEntity(paths: seq<Path>) | LoadScripts(entity: Entity) | ResetScripts
              | Pass(order: seq<Entity>, startOnly: bool, oracle: Oracle)

  /** The snapshot lists each scripted entity once, in some order. */
  ghost predicate Enabled(w: World, op: Op) {
    op.Pass? ==>
      && (forall j, k :: 0 <= j < k < |op.order| ==> op.order[j] != op.order[k])
      && (forall e :: e in op.order <==> e in w.entities && w.entities[e].scripts.Some?)
      && (forall k :: 0 <= k < |op.order| ==> op.order[k] < w.nextEnt)
  }

  ghost function Step(w: World, op: Op): World
    requires Enabled(w, op)
  {
    match op
    case Outside(x) => Apply(w, x)
    case PlaceEntity(paths) => Place(w, paths)
    case LoadScripts(e) => Load(w, e)
    case ResetScripts => Clear(w)
    case Pass(order, startOnly, oracle) => Dispatch(w, order, startOnly, oracle)
  }

  ghost predicate Legal(ops: seq<Op>, files: map<Path, Handlers>)
    decreases |ops|, 0
  {
    ops != [] ==> Legal(ops[..|ops| - 1], files) && Enabled(Run(ops[..|ops| - 1], files), ops[|ops| - 1])
  }

  ghost function Run(ops: seq<Op>, files: map<Path, Handlers>): World
    requires Legal(ops, files)
    decreases |ops|, 1
  {
    if ops == [] then World(map[], 0, 0, files, {}, 0, 0, [])
    else Step(Run(ops[..|ops| - 1], files), ops[|ops| - 1])
  }

  lemma {:induction false} CompiledIds(paths: seq<Path>, files: map<Path, Handlers>, id: Id)
    ensures forall k :: 0 <= k < |Compiled(paths, files, id)| ==>
              Compiled(paths, files, id)[k].id == id + k && !Compiled(paths, files, id)[k].started
    decreases |paths|
  {
    if paths != [] { CompiledIds(paths[1..], files, if paths[0] in files then id + 1 else id); }
  }

  lemma LoadKeeps(w: World, e: Entity)
    requires Inv(w, {})
    ensures Inv(Load(w, e), {})
  {
    var w' := Load(w, e);
    if w' != w {
      CompiledIds(w.entities[e].paths, w.files, w.nextId);
      forall id: Id ensures HasBreached(w.trace, id) ==> HasCalled(w.trace, id) { BreachedWasCalled(w.trace, id); }
      hide HasCalled, HasStarted, HasUpdated, HasBreached, Orderly, Compiled;
      assert forall f: Entity :: f != e ==> Scripts(w', f) == Scripts(w, f);
      assert Scripts(w', e) == Compiled(w.entities[e].paths, w.files, w.nextId);
    }
  }

  lemma ClearKeeps(w: World)
    requires Inv(w, {})
    ensures Inv(Clear(w), {})
  {
    hide HasCalled, HasStarted, HasUpdated, HasBreached, Orderly;
    assert forall f: Entity :: Scripts(Clear(w), f) == [];
  }

  lemma PlaceKeeps(w: World, paths: seq<Path>)
    requires Inv(w, {})
    ensures Inv(Place(w, paths), {})
  {
    hide HasCalled, HasStarted, HasUpdated, HasBreached, Orderly;
    assert forall f: Entity :: Scripts(Place(w, paths), f) == Scripts(w, f);
  }

  /** In any run of passes over a changing world the record is in order. */
  lemma {:induction false} RunsAreOrderly(ops: seq<Op>, files: map<Path, Handlers>)
    requires Legal(ops, files)
    ensures Inv(Run(ops, files), {})
    decreases |ops|
  {
    if ops != [] {
      hide Inv;
      RunsAreOrderly(ops[..|ops| - 1], files);
      var w := Run(ops[..|ops| - 1], files);
      match ops[|ops| - 1]
      case Outside(x) => EffectKeeps(w, x, {});
      case PlaceEntity(paths) => PlaceKeeps(w, paths);
      case LoadScripts(e) => LoadKeeps(w, e);
      case ResetScripts => ClearKeeps(w);
      case Pass(order, startOnly, oracle) => DispatchKeeps(w, order, startOnly, oracle);
    }
  }

  /** Over any run: an instance is started at most once and before its first update, is updated
      at most once a pass, is never called through a destroyed entity, and never again after a breach. */
  lemma CallsAreDisciplined(ops: seq<Op>, files: map<Path, Handlers>, i: nat, k: nat)
    requires Legal(ops, files) && i < k < |Run(ops, files).trace|
    ensures var trace := Run(ops, files).trace;
            trace[k].Called? ==>
              && (trace[i].Called? && trace[i].id == trace[k].id ==>
                    && trace[k].event == Update
                    && (trace[i].event == Update ==> trace[i].pass != trace[k].pass)
                    && !trace[i].breached)
              && trace[i] != Destroyed(trace[k].entity)
    ensures var trace := Run(ops, files).trace;
            trace[k].Called? && trace[k].event == Update ==> HasStarted(trace[..k], trace[k].id)
  {
    RunsAreOrderly(ops, files);
    var trace := Run(ops, files).trace;
    hide Run;
    assert InOrder(trace[..k], trace[k]);
    assert trace[..k][i] == trace[i];
  }

  /** In any run: whatever is attached to an entity when a pass starts, and is still there and not
      disabled when it ends, has been started, and if it was an update pass has been updated in it. */
  lemma PassServesAll(ops: seq<Op>, files: map<Path, Handlers>, pass: Op, e: Entity, k: nat)
    requires Legal(ops, files) && pass.Pass? && Enabled(Run(ops, files), pass) && k < |Scripts(Run(ops, files), e)|
    ensures var w, w' := Run(ops, files), Step(Run(ops, files), pass);
            k < |Scripts(w', e)| ==>
              && Scripts(w', e)[k].id == Scripts(w, e)[k].id
              && (Scripts(w', e)[k].script && !Scripts(w', e)[k].disabled ==>
                    && Scripts(w', e)[k].started
                    && (pass.startOnly || HasUpdated(w'.trace, Scripts(w, e)[k].id, w'.pass)))
  {
    RunsAreOrderly(ops, files);
    var w := Run(ops, files);
    var w1 := w.(pass := w.pass + 1);
    assert e in w.entities && w.entities[e].scripts.Some?;
    assert e in pass.order && e < w.nextEnt;
    hide Inv, Run, HasUpdated, Unvisited, VisitAll, Legal;
    PassBegins(w, pass.order);
    assert Scripts(w1, e) == Scripts(w, e);
    VisitAllServes(w1, pass.order, pass.startOnly, pass.oracle, e, |Scripts(w, e)|);
  }
}
