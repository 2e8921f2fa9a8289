/** Which bodies are replicated, and under which numbers. */
module ReplicationBodies {
  import opened Wrappers
  import opened Replication
  import opened ReplicationSafety
  import opened ReplicationRuns

  /** Only bodies that move carry an id. */
  ghost predicate MovingOnly(bodies: map<Ent, Body>) {
    forall e :: e in bodies && bodies[e].netId.Some? ==> bodies[e].dynamic
  }

  lemma {:induction false} ScriptsMark(st: Server, effects: seq<Effect>)
    requires MovingOnly(st.bodies)
    ensures MovingOnly(RunScripts(st, effects).bodies)
    decreases |effects|
  {
    if effects != [] { ScriptsMark(RunEffect(st, effects[0]), effects[1..]); }
  }

  lemma {:induction false} LoadMarks(st: Server, file: SceneFile)
    requires MovingOnly(st.bodies) && forall i :: 0 <= i < |file| ==> file[i].netId.None?
    ensures MovingOnly(LoadFile(st, file).bodies)
    decreases |file|
  {
    if file != [] { LoadMarks(AddBody(st, file[0]), file[1..]); }
  }

  lemma {:induction false} IdsMark(bodies: map<Ent, Body>, ents: seq<Ent>, ids: seq<NetId>)
    requires MovingOnly(bodies) && forall i :: 0 <= i < |ents| ==> ents[i] in bodies && bodies[ents[i]].dynamic
    ensures MovingOnly(GiveIds(bodies, ents, ids))
    decreases |ents|
  {
    if ents != [] && ids != [] { IdsMark(GiveId(bodies, ents[0], ids[0]), ents[1..], ids[1..]); }
  }

  lemma SceneMarks(st: Server, firstLoad: bool)
    requires MovingOnly(st.bodies)
    ensures MovingOnly(AssignSceneNetIds(st, firstLoad).bodies)
  {
    var ents := Ascending(Unreplicated(st.bodies), 0, st.nextEnt);
    AscendingMembers(Unreplicated(st.bodies), 0, st.nextEnt);
    hide Ascending, GiveIds, MovingOnly;
    IdsMark(st.bodies, ents, if firstLoad then ents else st.sceneNetIds);
  }

  lemma InitMarks(room: Room, startEffects: seq<Effect>)
    requires room.Valid()
    ensures MovingOnly(Init(room, startEffects).bodies)
  {
    LoadMarks(EMPTY_ROOM, room.file);
    hide MovingOnly, LoadFile, RunScripts, AssignSceneNetIds;
    ScriptsMark(LoadFile(EMPTY_ROOM, room.file), startEffects);
    SceneMarks(RunScripts(LoadFile(EMPTY_ROOM, room.file), startEffects), true);
  }

  lemma RemoveMarks(st: Server, s: SessionId)
    requires MovingOnly(st.bodies) && s in st.sessions
    ensures MovingOnly(RemoveSession(st, s).bodies)
  {
  }

  lemma {:induction false} RemoveAllMarks(st: Server, dead: set<SessionId>, o: Order)
    requires Picks(o) && dead <= st.sessions.Keys && MovingOnly(st.bodies)
    ensures MovingOnly(RemoveSessions(st, dead, o).bodies)
    decreases dead
  {
    if dead != {} {
      hide MovingOnly, RemoveSession;
      RemoveMarks(st, o(dead));
      SessionsLeft(st, o(dead));
      RemoveAllMarks(RemoveSession(st, o(dead)), dead - {o(dead)}, o);
    }
  }

  lemma SessionsLeft(st: Server, s: SessionId)
    requires s in st.sessions
    ensures RemoveSession(st, s).sessions == st.sessions - {s}
  {
  }

  lemma HelloMarks(st: Server, s: SessionId, versionOk: bool, name: Name, look: Look, effects: seq<Effect>, room: Room,
      o: Order)
    requires Picks(o) && MovingOnly(st.bodies)
    ensures MovingOnly(OnHello(st, s, versionOk, name, look, effects, room, o).bodies)
  {
    hide RunScripts, IntroduceAll, Replay, Send, Joined;
    var st0 := Touch(st, s);
    var st1 := if s in st0.sessions then st0
               else st0.(sessions := st0.sessions[s := UNJOINED], log := st0.log[s := []]);
    var st2 := SpawnPlayer(st1, s, name, look);
    assert MovingOnly(st2.bodies);
    ScriptsMark(st2, effects);
    ScriptsKeepSessions(st2, effects);
  }

  lemma {:induction false} DestroyMarks(st: Server, victims: set<Ent>, o: Order)
    requires Picks(o) && victims <= st.bodies.Keys && MovingOnly(st.bodies)
    ensures MovingOnly(DestroyAll(st, victims, o).bodies)
    decreases victims
  {
    if victims != {} { DestroyMarks(RemoveBody(st, o(victims), true), victims - {o(victims)}, o); }
  }

  lemma ResetMarks(st: Server, startEffects: seq<Effect>, room: Room, o: Order)
    requires Picks(o) && room.Valid() && MovingOnly(st.bodies)
    ensures MovingOnly(ApplyPendingReset(st, startEffects, room, o).bodies)
  {
    hide MovingOnly, DestroyAll, LoadFile, AssignSceneNetIds, RunScripts;
    if st.resetRequested {
      var st0 := st.(resetRequested := false);
      var st1 := DestroyAll(st0, st0.bodies.Keys - SparedEntities(st0), o);
      DestroyMarks(st0, st0.bodies.Keys - SparedEntities(st0), o);
      LoadMarks(st1, room.file);
      SceneMarks(LoadFile(st1, room.file), false);
      ScriptsMark(Rebuild(st0, room, o), startEffects);
    }
  }

  lemma {:induction false} AnnounceMarks(st: Server, todo: set<Ent>, o: Order)
    requires Picks(o) && todo <= st.bodies.Keys && MovingOnly(st.bodies)
    requires forall e :: e in todo ==> st.bodies[e].dynamic
    ensures MovingOnly(AnnounceAll(st, todo, o).bodies)
    decreases todo
  {
    hide Send, Joined;
    if todo != {} { AnnounceMarks(Announce(st, o(todo)), todo - {o(todo)}, o); }
  }

  lemma {:induction false} FlushLeavesBodies(st: Server)
    ensures FlushDespawns(st).bodies == st.bodies
    decreases |st.pending|
  {
    hide Send, Joined, Without;
    if st.pending != [] { FlushLeavesBodies(FlushOne(st)); }
  }

  lemma TickMarks(st: Server, dt: real, effects: seq<Effect>, startEffects: seq<Effect>, room: Room, o: Order)
    requires Picks(o) && room.Valid() && MovingOnly(st.bodies)
    ensures MovingOnly(Tick(st, dt, effects, startEffects, room, o).bodies)
  {
    hide MovingOnly, RemoveSessions, RunScripts, ApplyPendingReset, AnnounceAll, FlushDespawns, Idle;
    var st0 := st.(clock := st.clock + dt);
    IdleKnown(st0, room);
    RemoveAllMarks(st0, Idle(st0, room), o);
    ScriptsMark(RemoveSessions(st0, Idle(st0, room), o), effects);
    var st1 := BeforeReset(st, dt, effects, room, o);
    ResetMarks(st1, startEffects, room, o);
    var st2 := ApplyPendingReset(st1, startEffects, room, o);
    AnnounceMarks(st2, Unreplicated(st2.bodies), o);
    FlushLeavesBodies(AnnounceAll(st2, Unreplicated(st2.bodies), o));
  }

  lemma IdleKnown(st: Server, room: Room)
    ensures Idle(st, room) <= st.sessions.Keys
  {
  }

  lemma StepMarks(st: Server, ev: Event, room: Room)
    requires ev.Valid() && room.Valid() && MovingOnly(st.bodies)
    ensures MovingOnly(Step(st, ev, room).bodies)
  {
    hide MovingOnly, OnHello, Tick, RemoveSession;
    match ev
    case Hello(s, ok, name, look, effects, o) => HelloMarks(st, s, ok, name, look, effects, room, o);
    case TickEvent(dt, effects, startEffects, o) => TickMarks(st, dt, effects, startEffects, room, o);
    case Disconnect(s) => if s in st.sessions { RemoveMarks(st, s); }
    case _ =>
  }

  lemma {:induction false} RunMarks(room: Room, startEffects: seq<Effect>, events: seq<Event>)
    requires room.Valid() && AllValid(events)
    ensures MovingOnly(Run(room, startEffects, events).bodies)
  {
    hide MovingOnly, Init, Step;
    if events == [] {
      InitMarks(room, startEffects);
    } else {
      RunMarks(room, startEffects, events[..|events| - 1]);
      StepMarks(Run(room, startEffects, events[..|events| - 1]), events[|events| - 1], room);
    }
  }

  /** In every run, a body with an id is one that moves; and after a tick every body that moves has one. */
  lemma ReplicatedBodies(room: Room, startEffects: seq<Effect>, events: seq<Event>, e: Ent)
    requires room.Valid() && AllValid(events) && events != [] && events[|events| - 1].TickEvent?
    requires Init(room, startEffects).nextEnt <= 0x4000_0000 && InRange(Run(room, startEffects, events))
    requires e in Run(room, startEffects, events).bodies
    ensures var b := Run(room, startEffects, events).bodies[e]; b.netId.Some? <==> b.dynamic
  {
    hide Init, Inv, Tick;
    RunMarks(room, startEffects, events);
    var before, last := events[..|events| - 1], events[|events| - 1];
    var st := Run(room, startEffects, before);
    StepCounts(st, last, room);
    RunKeeps(room, startEffects, before, {});
    TickKeeps(st, last.dt, last.effects, last.startEffects, room, last.order, {});
    assert !(e in Unreplicated(Run(room, startEffects, events).bodies));
  }

  /** The numbers themselves: the scene's own below 2^30, players from 2^30 on, and what was spawned
      from 3 * 2^29 on, each in the order it came. */
  lemma NumbersInUse(room: Room, startEffects: seq<Effect>, events: seq<Event>, e: Ent)
    requires room.Valid() && AllValid(events)
    requires Init(room, startEffects).nextEnt <= 0x4000_0000 && InRange(Run(room, startEffects, events))
    requires var st := Run(room, startEffects, events); e in st.bodies && st.bodies[e].netId.Some?
    ensures var st := Run(room, startEffects, events);
            var id := st.bodies[e].netId.value;
            || (id < 0x4000_0000 && id in st.sceneNetIds)
            || 0x4000_0000 <= id < 0x4000_0000 + st.nextPlayer <= 0x6000_0000
            || 0x6000_0000 <= id < 0x6000_0000 + st.nextSpawn
  {
    hide Init, Step, Run, ClientsOk, RosterOk, SessionsOk;
    RunKeeps(room, startEffects, events, {});
  }

  /** A new body is announced under the next of those numbers, with its own looks, to everyone joined. */
  lemma AnnouncedAs(st: Server, e: Ent, s: SessionId)
    requires e in st.bodies && s in st.log
    ensures var st' := Announce(st, e);
            var id := 0x6000_0000 + st.nextSpawn;
            && st'.bodies[e].netId == Some(id) && st'.nextSpawn == st.nextSpawn + 1
            && st'.spawned == st.spawned + [Spawned(id, st.bodies[e].look)]
            && s in st'.log
            && st'.log[s] == if s in st.sessions && st.sessions[s].spawned
                             then st.log[s] + [SpawnEntity(id, st.bodies[e].look)] else st.log[s]
  {
  }

  // ----- when a reset is due -----

  lemma {:induction false} ScriptsAsk(st: Server, effects: seq<Effect>)
    ensures RunScripts(st, effects).resetRequested <==> st.resetRequested || RequestReset in effects
    decreases |effects|
  {
    if effects != [] { ScriptsAsk(RunEffect(st, effects[0]), effects[1..]); }
  }

  /** A reset asked for is carried out by the next tick, and once: after a tick one is due only if
      the start scripts that the reset ran asked for another. */
  lemma ResetIsServed(st: Server, dt: real, effects: seq<Effect>, startEffects: seq<Effect>, room: Room, o: Order)
    requires Picks(o)
    ensures Tick(st, dt, effects, startEffects, room, o).resetRequested
            <==> (st.resetRequested || RequestReset in effects) && RequestReset in startEffects
  {
    hide RunScripts, RemoveSessions, DestroyAll, LoadFile, GiveIds, Ascending, AnnounceAll, FlushDespawns;
    var st0 := st.(clock := st.clock + dt);
    IdleKnown(st0, room);
    ScriptsAsk(RemoveSessions(st0, Idle(st0, room), o), effects);
    var st1 := BeforeReset(st, dt, effects, room, o);
    if st1.resetRequested { ScriptsAsk(Rebuild(st1.(resetRequested := false), room, o), startEffects); }
  }
}
