/** One event run over every scripted entity while the scripts attach, spawn and destroy. */
module ScriptDispatch {
  import opened Wrappers

  type Entity = nat
  type Id = nat
  type Path = nat

  /** Which handlers a script file declares. */
  datatype Handlers = Handlers(onStart: bool, onUpdate: bool)

  /** A script attached to an entity; `id` names its compiled script object. */
  datatype Instance = Instance(id: Id, script: bool, handlers: Handlers, started: bool, disabled: bool)

  /** An entity: the script paths on its Identity, and its ScriptComponent if it has one. */
  datatype Ent = Ent(paths: seq<Path>, scripts: Option<seq<Instance>>)

  datatype Event = Start | Update

  /** What happened, in order. `breached` is the script's limit flag after the call. */
  datatype Entry = Called(id: Id, entity: Entity, event: Event, pass: nat, breached: bool) | Destroyed(entity: Entity)

  /** `files` are the readable scripts that compile; `limited` holds the ids whose limit flag is set. */
  datatype World = World(entities: map<Entity, Ent>, nextEnt: Entity, nextId: Id, files: map<Path, Handlers>,
                         limited: set<Id>, calls: nat, pass: nat, trace: seq<Entry>)

  // ----- what scripts do to the world -----

  datatype Effect = Spawn | Attach(target: Entity, path: Path) | Destroy(target: Entity)

  function Scripts(w: World, e: Entity): seq<Instance> {
    if e in w.entities && w.entities[e].scripts.Some? then w.entities[e].scripts.value else []
  }

  function FreshInstance(w: World, path: Path): Instance
    requires path in w.files
  {
    Instance(w.nextId, true, w.files[path], false, false)
  }

  /** Attaching a path the entity already lists, or one that cannot be read, does nothing. */
  function Apply(w: World, x: Effect): World {
    match x
    case Spawn => w.(entities := w.entities[w.nextEnt := Ent([], None)], nextEnt := w.nextEnt + 1)
    case Attach(e, path) =>
      if e !in w.entities || path in w.entities[e].paths || path !in w.files then w
      else w.(entities := w.entities[e := Ent(w.entities[e].paths + [path],
                                                Some(Scripts(w, e) + [FreshInstance(w, path)]))],
              nextId := w.nextId + 1)
    case Destroy(e) =>
      if e !in w.entities then w else w.(entities := w.entities - {e}, trace := w.trace + [Destroyed(e)])
  }

  function ApplyAll(w: World, effects: seq<Effect>): World
    decreases |effects|
  {
    if effects == [] then w else ApplyAll(Apply(w, effects[0]), effects[1..])
  }

  // ----- one call -----

  /** What the n-th handler to run does, and whether it ends in a limit breach. */
  datatype Outcome = Outcome(effects: seq<Effect>, limit: bool)

  type Oracle = nat -> Outcome

  function SetInstance(w: World, e: Entity, i: nat, inst: Instance): World
    requires i < |Scripts(w, e)|
  {
    w.(entities := w.entities[e := w.entities[e].(scripts := Some(w.entities[e].scripts.value[i := inst]))])
  }

  predicate Handles(inst: Instance, ev: Event) {
    if ev.Start? then inst.handlers.onStart else inst.handlers.onUpdate
  }

  /** The limit flag after the call: a call for an event without a handler leaves it as it was. */
  predicate Breaches(w: World, inst: Instance, ev: Event, oracle: Oracle) {
    if Handles(inst, ev) then oracle(w.calls).limit else inst.id in w.limited
  }

  /** Entering the instance: it counts as started, and the call is on record. */
  function Enter(w: World, e: Entity, i: nat, ev: Event, breached: bool): World
    requires i < |Scripts(w, e)|
  {
    var inst := Scripts(w, e)[i];
    SetInstance(w, e, i, inst.(started := true)).(
      limited := if breached then w.limited + {inst.id} else w.limited - {inst.id},
      calls := if Handles(inst, ev) then w.calls + 1 else w.calls,
      trace := w.trace + [Called(inst.id, e, ev, w.pass, breached)])
  }

  /** The call itself, up to the moment it returns. */
  function Invoke(w: World, e: Entity, i: nat, ev: Event, oracle: Oracle): World
    requires i < |Scripts(w, e)|
  {
    var inst := Scripts(w, e)[i];
    var w1 := Enter(w, e, i, ev, Breaches(w, inst, ev, oracle));
    if Handles(inst, ev) then ApplyAll(w1, oracle(w.calls).effects) else w1
  }

  /** Looks the instance up again: the call may have destroyed the entity. */
  function MarkDisabled(w: World, e: Entity, i: nat): World {
    if i < |Scripts(w, e)| then SetInstance(w, e, i, Scripts(w, e)[i].(disabled := true)) else w
  }

  function CallAndMark(w: World, e: Entity, i: nat, ev: Event, oracle: Oracle): World
    requires i < |Scripts(w, e)|
  {
    var w1 := Invoke(w, e, i, ev, oracle);
    if Breaches(w, Scripts(w, e)[i], ev, oracle) then MarkDisabled(w1, e, i) else w1
  }

  // ----- one instance, one entity, one pass -----

  function RunInstance(w: World, e: Entity, i: nat, startOnly: bool, oracle: Oracle): World
    requires i < |Scripts(w, e)|
  {
    var inst := Scripts(w, e)[i];
    if !inst.script || inst.disabled then w
    else if inst.started then if startOnly then w else CallAndMark(w, e, i, Update, oracle)
    else
      var w1 := CallAndMark(w, e, i, Start, oracle);
      if Breaches(w, inst, Start, oracle) || startOnly || i >= |Scripts(w1, e)| then w1
      else CallAndMark(w1, e, i, Update, oracle)
  }

  /** Files the entity could still attach, plus its instances. */
  function Work(w: World, e: Entity): nat {
    if e in w.entities then |w.files.Keys - set p | p in w.entities[e].paths| + |Scripts(w, e)| else 0
  }

  /** Attaching is idempotent per path, so an entity can only run out of files to attach; no
      entity comes back. */
  lemma ApplyWork(w: World, x: Effect, e: Entity)
    requires e < w.nextEnt
    ensures var w' := Apply(w, x);
            w'.files == w.files && w.nextEnt <= w'.nextEnt
            && (e in w'.entities ==> e in w.entities) && Work(w', e) <= Work(w, e)
  {
    var w' := Apply(w, x);
    if e in w.entities && x.Attach? && x.target == e && w' != w {
      AttachWork(w.files.Keys, w.entities[e].paths, x.path);
      assert w'.entities[e].paths == w.entities[e].paths + [x.path] && |Scripts(w', e)| == |Scripts(w, e)| + 1;
    } else {
      assert e in w'.entities ==> e in w.entities && w'.entities[e] == w.entities[e];
    }
  }

  lemma AttachWork(files: set<Path>, paths: seq<Path>, path: Path)
    requires path in files && path !in paths
    ensures |files - set p | p in (paths + [path])| + 1 == |files - set p | p in paths|
  {
    assert path in files - set p | p in paths;
    assert (files - set p | p in (paths + [path])) == (files - set p | p in paths) - {path};
  }

  lemma {:induction false} ApplyAllWork(w: World, effects: seq<Effect>, e: Entity)
    requires e < w.nextEnt
    ensures var w' := ApplyAll(w, effects);
            w'.files == w.files && w.nextEnt <= w'.nextEnt
            && (e in w'.entities ==> e in w.entities) && Work(w', e) <= Work(w, e)
    decreases |effects|
  {
    if effects != [] {
      ApplyWork(w, effects[0], e);
      hide Apply, Work;
      ApplyAllWork(Apply(w, effects[0]), effects[1..], e);
    }
  }

  lemma CallWork(w: World, e: Entity, i: nat, ev: Event, oracle: Oracle)
    requires e < w.nextEnt && i < |Scripts(w, e)|
    ensures var w' := CallAndMark(w, e, i, ev, oracle);
            w'.files == w.files && w.nextEnt <= w'.nextEnt
            && (e in w'.entities ==> e in w.entities) && Work(w', e) <= Work(w, e)
  {
    var inst := Scripts(w, e)[i];
    var w1 := Enter(w, e, i, ev, Breaches(w, inst, ev, oracle));
    assert Work(w1, e) == Work(w, e);
    ApplyAllWork(w1, oracle(w.calls).effects, e);
    hide ApplyAll;
    var w2 := Invoke(w, e, i, ev, oracle);
    assert Work(MarkDisabled(w2, e, i), e) == Work(w2, e);
  }

  lemma InstanceWork(w: World, e: Entity, i: nat, startOnly: bool, oracle: Oracle)
    requires e < w.nextEnt && i < |Scripts(w, e)|
    ensures var w' := RunInstance(w, e, i, startOnly, oracle);
            w'.files == w.files && w.nextEnt <= w'.nextEnt && Work(w', e) <= Work(w, e)
  {
    hide CallAndMark, Work;
    CallWork(w, e, i, Start, oracle);
    CallWork(w, e, i, Update, oracle);
    var w1 := CallAndMark(w, e, i, Start, oracle);
    if i < |Scripts(w1, e)| { CallWork(w1, e, i, Update, oracle); }
  }

  /** All of one entity's instances by index, those attached on the way included. */
  function VisitFrom(w: World, e: Entity, i: nat, startOnly: bool, oracle: Oracle): World
    requires e < w.nextEnt
    decreases if i <= Work(w, e) then Work(w, e) + 1 - i else 0
  {
    if i >= |Scripts(w, e)| then w
    else
      InstanceWork(w, e, i, startOnly, oracle);
      VisitFrom(RunInstance(w, e, i, startOnly, oracle), e, i + 1, startOnly, oracle)
  }

  lemma {:induction false} VisitKeepsEnts(w: World, e: Entity, i: nat, startOnly: bool, oracle: Oracle)
    requires e < w.nextEnt
    ensures w.nextEnt <= VisitFrom(w, e, i, startOnly, oracle).nextEnt
    decreases if i <= Work(w, e) then Work(w, e) + 1 - i else 0
  {
    if i < |Scripts(w, e)| {
      InstanceWork(w, e, i, startOnly, oracle);
      VisitKeepsEnts(RunInstance(w, e, i, startOnly, oracle), e, i + 1, startOnly, oracle);
    }
  }

  /** The snapshot taken up front, entity by entity. */
  function VisitAll(w: World, pending: seq<Entity>, startOnly: bool, oracle: Oracle): World
    requires forall k :: 0 <= k < |pending| ==> pending[k] < w.nextEnt
    decreases |pending|
  {
    if pending == [] then w
    else
      VisitKeepsEnts(w, pending[0], 0, startOnly, oracle);
      VisitAll(VisitFrom(w, pending[0], 0, startOnly, oracle), pending[1..], startOnly, oracle)
  }

  /** startScripts or updateScripts, over the scripted entities in the view's order. */
  function Dispatch(w: World, pending: seq<Entity>, startOnly: bool, oracle: Oracle): World
    requires forall k :: 0 <= k < |pending| ==> pending[k] < w.nextEnt
  {
    VisitAll(w.(pass := w.pass + 1), pending, startOnly, oracle)
  }

  // ----- the system, in place -----

  class ScriptSystem {
    var entities: map<Entity, Ent>
    var nextEnt: Entity
    var nextId: Id
    var limited: set<Id>
    var calls: nat
    var pass: nat
    var trace: seq<Entry>
    const files: map<Path, Handlers>

    ghost function State(): World
      reads this
    {
      World(entities, nextEnt, nextId, files, limited, calls, pass, trace)
    }

    constructor (files: map<Path, Handlers>)
      ensures State() == World(map[], 0, 0, files, {}, 0, 0, [])
    {
      this.files := files;
      entities, nextEnt, nextId, limited := map[], 0, 0, {};
      calls, pass, trace := 0, 0, [];
    }

    /** The entity's instances, none if it is gone or has no component. */
    function Instances(e: Entity): (r: seq<Instance>)
      reads this
      ensures r == Scripts(State(), e)
    {
      if e in entities && entities[e].scripts.Some? then entities[e].scripts.value else []
    }

    method SetInstanceAt(e: Entity, i: nat, inst: Instance)
      requires i < |Instances(e)|
      modifies this`entities
      ensures State() == SetInstance(old(State()), e, i, inst)
    {
      entities := entities[e := entities[e].(scripts := Some(entities[e].scripts.value[i := inst]))];
    }

    /** attach_script: idempotent per path, and quiet about files it cannot use. */
    method AttachScript(e: Entity, path: Path)
      modifies this`entities, this`nextId
      ensures State() == Apply(old(State()), Attach(e, path))
    {
      if e !in entities { return; }
      if path in entities[e].paths { return; }
      if path !in files { return; }
      var inst := Instance(nextId, true, files[path], false, false);
      entities := entities[e := Ent(entities[e].paths + [path], Some(Instances(e) + [inst]))];
      nextId := nextId + 1;
    }

    method RunEffects(effects: seq<Effect>)
      modifies this`entities, this`nextEnt, this`nextId, this`trace
      ensures State() == ApplyAll(old(State()), effects)
    {
      var k := 0;
      while k < |effects|
        invariant k <= |effects| && ApplyAll(State(), effects[k..]) == ApplyAll(old(State()), effects)
      {
        assert effects[k..][1..] == effects[k + 1..];
        match effects[k] {
          case Spawn =>
            entities := entities[nextEnt := Ent([], None)];
            nextEnt := nextEnt + 1;
          case Attach(e, path) =>
            AttachScript(e, path);
          case Destroy(e) =>
            if e in entities {
              entities := entities - {e};
              trace := trace + [Destroyed(e)];
            }
        }
        k := k + 1;
      }
    }

    /** callEvent on the instance, and the script's limit flag afterwards. A call for an event
        the script does not declare returns at once and leaves the flag alone. */
    method CallEvent(e: Entity, i: nat, ev: Event, oracle: Oracle) returns (limit: bool)
      requires i < |Instances(e)|
      modifies this
      ensures State() == Invoke(old(State()), e, i, ev, oracle)
      ensures limit == Breaches(old(State()), old(Instances(e))[i], ev, oracle)
    {
      hide ApplyAll;
      var inst := Instances(e)[i];
      SetInstanceAt(e, i, inst.(started := true));
      if Handles(inst, ev) {
        var outcome := oracle(calls);
        calls := calls + 1;
        limit := outcome.limit;
        limited := if limit then limited + {inst.id} else limited - {inst.id};
        trace := trace + [Called(inst.id, e, ev, pass, limit)];
        RunEffects(outcome.effects);
      } else {
        limit := inst.id in limited;
        assert limited == if limit then limited + {inst.id} else limited - {inst.id};
        trace := trace + [Called(inst.id, e, ev, pass, limit)];
      }
    }

    method Mark(e: Entity, i: nat)
      modifies this`entities
      ensures State() == MarkDisabled(old(State()), e, i)
    {
      if i < |Instances(e)| { SetInstanceAt(e, i, Instances(e)[i].(disabled := true)); }
    }

    method RunOne(e: Entity, i: nat, startOnly: bool, oracle: Oracle)
      requires i < |Instances(e)|
      modifies this
      ensures State() == RunInstance(old(State()), e, i, startOnly, oracle)
    {
      hide Invoke, MarkDisabled;
      var inst := Instances(e)[i];
      if !inst.script || inst.disabled { return; }
      var needsStart := !inst.started;
      if startOnly && !needsStart { return; }
      if needsStart {
        var limit := CallEvent(e, i, Start, oracle);
        if limit {
          Mark(e, i);
          return;
        }
        if startOnly || i >= |Instances(e)| { return; }
      }
      var limit := CallEvent(e, i, Update, oracle);
      if limit { Mark(e, i); }
    }

    method Run(pending: seq<Entity>, startOnly: bool, oracle: Oracle)
      requires forall k :: 0 <= k < |pending| ==> pending[k] < nextEnt
      modifies this
      ensures State() == Dispatch(old(State()), pending, startOnly, oracle)
    {
      hide RunInstance, Work;
      pass := pass + 1;
      var k := 0;
      while k < |pending|
        invariant k <= |pending| && forall m :: 0 <= m < |pending| ==> pending[m] < nextEnt
        invariant VisitAll(State(), pending[k..], startOnly, oracle)
                  == Dispatch(old(State()), pending, startOnly, oracle)
      {
        var e := pending[k];
        assert pending[k..][1..] == pending[k + 1..];
        VisitKeepsEnts(State(), e, 0, startOnly, oracle);
        ghost var whole := VisitFrom(State(), e, 0, startOnly, oracle);
        var i := 0;
        while i < |Instances(e)|
          invariant e < nextEnt && VisitFrom(State(), e, i, startOnly, oracle) == whole
          decreases if i <= Work(State(), e) then Work(State(), e) + 1 - i else 0
        {
          InstanceWork(State(), e, i, startOnly, oracle);
          InstancesAreWork(State(), e);
          RunOne(e, i, startOnly, oracle);
          i := i + 1;
        }
        k := k + 1;
      }
    }
  }

  lemma InstancesAreWork(w: World, e: Entity)
    ensures |Scripts(w, e)| <= Work(w, e)
  {
  }
}
