/** The replication theorems over every run of a room. */
module ReplicationRuns {
  import opened Wrappers
  import opened Replication
  import opened ReplicationSafety

  // ----- every step keeps the invariant -----

  lemma ResetKeeps(st: Server, startEffects: seq<Effect>, room: Room, o: Order, claims: set<NetId>)
    requires Inv(st, claims) && room.Valid() && Picks(o)
    ensures Inv(ApplyPendingReset(st, startEffects, room, o), claims)
  {
    hide Inv, Rebuild, RunScripts;
    if st.resetRequested {
      FlagKeeps(st, false, st.clock, claims);
      var st1 := st.(resetRequested := false);
      assert st1 == st.(resetRequested := false, clock := st.clock);
      RebuildKeeps(st1, room, o, claims);
      ScriptsKeep(Rebuild(st1, room, o), startEffects, claims);
    }
  }

  lemma BeforeResetKeeps(st: Server, dt: real, effects: seq<Effect>, room: Room, o: Order, claims: set<NetId>)
    requires Inv(st, claims) && Picks(o)
    ensures Inv(BeforeReset(st, dt, effects, room, o), claims)
  {
    hide Inv, RunScripts, RemoveSessions;
    var st0 := st.(clock := st.clock + dt);
    FlagKeeps(st, st.resetRequested, st.clock + dt, claims);
    assert st0 == st.(resetRequested := st.resetRequested, clock := st.clock + dt);
    RemoveSessionsKeep(st0, Idle(st0, room), o, claims);
    ScriptsKeep(RemoveSessions(st0, Idle(st0, room), o), effects, claims);
  }

  /** A tick leaves nothing unannounced: every dynamic body has an id, and no removal is pending. */
  lemma TickKeeps(st: Server, dt: real, effects: seq<Effect>, startEffects: seq<Effect>, room: Room, o: Order,
      claims: set<NetId>)
    requires Inv(st, claims) && room.Valid() && Picks(o)
    ensures var st' := Tick(st, dt, effects, startEffects, room, o);
            Inv(st', claims) && st'.pending == [] && Unreplicated(st'.bodies) == {}
  {
    hide Inv, BeforeReset, ApplyPendingReset, FlushDespawns, AnnounceAll;
    BeforeResetKeeps(st, dt, effects, room, o, claims);
    ResetKeeps(BeforeReset(st, dt, effects, room, o), startEffects, room, o, claims);
    var st2 := ApplyPendingReset(BeforeReset(st, dt, effects, room, o), startEffects, room, o);
    AnnounceAllKeeps(st2, Unreplicated(st2.bodies), o, claims);
    FlushAllKeeps(AnnounceAll(st2, Unreplicated(st2.bodies), o), claims);
  }

  lemma StepKeeps(st: Server, ev: Event, room: Room, claims: set<NetId>)
    requires Inv(st, claims) && room.Valid() && ev.Valid() && InRange(Step(st, ev, room))
    ensures Inv(Step(st, ev, room), claims)
  {
    hide Inv, OnConnect, RemoveSession, OnHello, Touch, Tick;
    match ev
    case Connect(s) => ConnectKeeps(st, s, claims);
    case Disconnect(s) => if s in st.sessions { RemoveSessionKeeps(st, s, claims); }
    case Hello(s, ok, name, look, effects, o) => HelloKeeps(st, s, ok, name, look, effects, room, o, claims);
    case Input(s) => TouchKeeps(st, s, claims);
    case AskReset =>
      FlagKeeps(st, true, st.clock, claims);
      assert st.(resetRequested := true) == st.(resetRequested := true, clock := st.clock);
    case TickEvent(dt, effects, startEffects, o) => TickKeeps(st, dt, effects, startEffects, room, o, claims);
  }

  // ----- the beginning -----

  const EMPTY_ROOM: Server := Server(map[], map[], 1, 0, 0, [], [], [], false, 0.0, map[])

  lemma EmptyKeeps(claims: set<NetId>)
    requires SceneClaims(claims)
    ensures Inv(EMPTY_ROOM, claims)
  {
  }

  /** Before anyone has connected and before ids are handed out. */
  ghost predicate Unnumbered(st: Server) {
    && st.sessions == map[] && st.log == map[] && st.spawned == [] && st.pending == []
    && forall e :: e in st.bodies ==> st.bodies[e].netId.None?
  }

  lemma {:induction false} ScriptsLeaveUnnumbered(st: Server, effects: seq<Effect>)
    requires Unnumbered(st)
    ensures Unnumbered(RunScripts(st, effects))
    decreases |effects|
  {
    if effects != [] { ScriptsLeaveUnnumbered(RunEffect(st, effects[0]), effects[1..]); }
  }

  /** The world just before the first assignment of ids. */
  function Loaded(room: Room, startEffects: seq<Effect>): Server {
    RunScripts(LoadFile(EMPTY_ROOM, room.file), startEffects)
  }

  lemma LoadedKeeps(room: Room, startEffects: seq<Effect>, claims: set<NetId>)
    requires room.Valid() && SceneClaims(claims)
    ensures Inv(Loaded(room, startEffects), claims) && Unnumbered(Loaded(room, startEffects))
  {
    EmptyKeeps(claims);
    LoadFileKeeps(EMPTY_ROOM, room.file, claims);
    ScriptsKeep(LoadFile(EMPTY_ROOM, room.file), startEffects, claims);
    LoadedBodies(EMPTY_ROOM, room.file);
    var st := LoadFile(EMPTY_ROOM, room.file);
    forall e | e in st.bodies ensures st.bodies[e].netId.None? {
      assert st.bodies[1 + (e - 1)] == room.file[e - 1];
    }
    ScriptsLeaveUnnumbered(st, startEffects);
  }

  lemma InitKeeps(room: Room, startEffects: seq<Effect>, claims: set<NetId>)
    requires room.Valid() && SceneClaims(claims) && Init(room, startEffects).nextEnt <= PLAYER_BASE
    ensures Inv(Init(room, startEffects), claims)
  {
    var st := Loaded(room, startEffects);
    LoadedKeeps(room, startEffects, claims);
    var ents := Ascending(Unreplicated(st.bodies), 0, st.nextEnt);
    AscendingMembers(Unreplicated(st.bodies), 0, st.nextEnt);
    var st1 := st.(sceneNetIds := ents);
    assert forall id :: !Live(st1, id);
    assert Inv(st1, claims);
    GiveIdsKeeps(st1, ents, ents, claims);
  }

  // ----- counters and recorded ids -----

  /** The player counter never goes back, and the recorded scene ids never change. */
  lemma StepCounts(st: Server, ev: Event, room: Room)
    requires ev.Valid()
    ensures var st' := Step(st, ev, room);
            st.nextPlayer <= st'.nextPlayer && st'.sceneNetIds == st.sceneNetIds
  {
    hide IntroduceAll, Replay, RunScripts, RemoveSessions, DestroyAll, LoadFile, AnnounceAll, FlushDespawns, GiveIds;
    match ev
    case Connect(s) =>
    case Disconnect(s) =>
    case Hello(s, ok, name, look, effects, o) => HelloCounts(st, s, ok, name, look, effects, room, o);
    case Input(s) =>
    case AskReset =>
    case TickEvent(dt, effects, startEffects, o) => TickFrame(st, dt, effects, startEffects, room, o);
  }

  lemma HelloCounts(st: Server, s: SessionId, ok: bool, name: Name, look: Look, effects: seq<Effect>,
      room: Room, o: Order)
    requires Picks(o)
    ensures var st' := OnHello(st, s, ok, name, look, effects, room, o);
            st.nextPlayer <= st'.nextPlayer && st'.sceneNetIds == st.sceneNetIds
  {
    hide IntroduceAll, Replay, RunScripts;
    var st0 := Touch(st, s);
    if ok {
      var st1 := if s in st0.sessions then st0
                 else st0.(sessions := st0.sessions[s := UNJOINED], log := st0.log[s := []]);
      ScriptsKeepSessions(SpawnPlayer(st1, s, name, look), effects);
    }
  }

  /** What a tick leaves alone, and whom it removes. */
  lemma TickFrame(st: Server, dt: real, effects: seq<Effect>, startEffects: seq<Effect>, room: Room, o: Order)
    requires Picks(o)
    ensures BeforeReset(st, dt, effects, room, o).sceneNetIds == st.sceneNetIds
    ensures var st' := Tick(st, dt, effects, startEffects, room, o);
            && st'.nextPlayer == st.nextPlayer && st'.sceneNetIds == st.sceneNetIds
            && st'.sessions == st.sessions - Idle(st.(clock := st.clock + dt), room)
  {
    hide RunScripts, RemoveSessions, DestroyAll, LoadFile, AnnounceAll, FlushDespawns, GiveIds;
    var st0 := st.(clock := st.clock + dt);
    var st1 := RemoveSessions(st0, Idle(st0, room), o);
    ScriptsKeepSessions(st1, effects);
    var st2 := RunScripts(st1, effects);
    if st2.resetRequested { ScriptsKeepSessions(Rebuild(st2.(resetRequested := false), room, o), startEffects); }
  }

  // ----- every run -----

  lemma {:induction false} RunKeeps(room: Room, startEffects: seq<Effect>, events: seq<Event>, claims: set<NetId>)
    requires room.Valid() && SceneClaims(claims) && AllValid(events)
    requires Init(room, startEffects).nextEnt <= PLAYER_BASE && InRange(Run(room, startEffects, events))
    ensures Inv(Run(room, startEffects, events), claims)
    decreases |events|
  {
    hide Inv, Step, Init;
    if events == [] {
      InitKeeps(room, startEffects, claims);
    } else {
      var before := Run(room, startEffects, events[..|events| - 1]);
      StepCounts(before, events[|events| - 1], room);
      RunKeeps(room, startEffects, events[..|events| - 1], claims);
      StepKeeps(before, events[|events| - 1], room, claims);
    }
  }

  /** The replica of a session's client agrees with the room: the joined client knows its own
      id, shows exactly the live spawned bodies as they look, and exactly the other joined
      players under their names; an unjoined client shows no spawned body at all. */
  ghost predicate Agrees(st: Server, s: SessionId, c: Client)
    requires s in st.sessions
  {
    if st.sessions[s].spawned then
      && c.joined && c.me == st.sessions[s].netId
      && (forall id :: IsSpawnId(id) ==> (id in c.reps <==> Live(st, id)))
      && (forall e :: e in st.bodies && st.bodies[e].netId.Some? && IsSpawnId(st.bodies[e].netId.value)
            ==> st.bodies[e].netId.value in c.reps && c.reps[st.bodies[e].netId.value] == Proxy(st.bodies[e].look))
      && (forall id :: IsPlayerId(id) ==> (id in c.reps <==> exists t :: t != s && Owns(st, t, id)))
      && (forall t :: t != s && t in st.sessions && st.sessions[t].spawned
            ==> st.sessions[t].netId in c.reps && c.reps[st.sessions[t].netId] == Avatar(st.sessions[t].name))
    else !c.joined && forall id :: IsSpawnId(id) ==> id !in c.reps
  }

  lemma InvAgrees(st: Server, claims: set<NetId>, s: SessionId)
    requires Inv(st, claims) && st.pending == [] && s in st.sessions
    ensures Agrees(st, s, Replica(st, claims, s))
  {
    hide Fold;
    var c := Replica(st, claims, s);
    assert Mirrors(st, s, c, {}, st.spawned);
    if st.sessions[s].spawned {
      forall id | IsSpawnId(id) && id in c.reps ensures Live(st, id) {
        var x :| x in st.spawned && x.netId == id;
      }
      forall id | IsSpawnId(id) && Live(st, id) ensures id in c.reps {
        var e :| e in st.bodies && st.bodies[e].netId == Some(id);
      }
      forall id | IsPlayerId(id) ensures id in c.reps <==> exists t :: t != s && Owns(st, t, id) {
      }
    }
  }

  lemma StreamsOfSessions(st: Server, claims: set<NetId>)
    requires Inv(st, claims)
    ensures st.log.Keys == st.sessions.Keys
  {
  }

  /** At every tick boundary of every run, every client agrees with the room, late joiners,
      survivors of resets and all; and then every dynamic body of the room has an id. */
  lemma ReplicaAgreement(room: Room, startEffects: seq<Effect>, events: seq<Event>, claims: set<NetId>, s: SessionId)
    requires room.Valid() && SceneClaims(claims) && AllValid(events)
    requires Init(room, startEffects).nextEnt <= PLAYER_BASE && InRange(Run(room, startEffects, events))
    requires events != [] && events[|events| - 1].TickEvent? && s in Run(room, startEffects, events).log
    ensures var st := Run(room, startEffects, events);
            && Unreplicated(st.bodies) == {}
            && s in st.sessions && Agrees(st, s, Replica(st, claims, s))
  {
    hide Inv, Tick, Init, Agrees, Replica;
    var before := Run(room, startEffects, events[..|events| - 1]);
    var last := events[|events| - 1];
    StepCounts(before, last, room);
    RunKeeps(room, startEffects, events[..|events| - 1], claims);
    TickKeeps(before, last.dt, last.effects, last.startEffects, room, last.order, claims);
    var st := Run(room, startEffects, events);
    StreamsOfSessions(st, claims);
    InvAgrees(st, claims, s);
  }
}
