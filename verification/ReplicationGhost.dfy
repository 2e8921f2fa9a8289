/** How agreement on the scene's own bodies is lost: the two ways a reset can break its guard,
    and runs in which a late joiner and a client that saw a removal end up disagreeing with the room. */
module ReplicationGhost {
  import opened Wrappers
  import opened Replication
  import opened ReplicationSafety
  import opened ReplicationRuns
  import opened ReplicationIdentity
  import opened ReplicationStreams
  import opened ReplicationScene

  // ----- a reset that breaks its guard -----

  /** A recorded id that did not stand when the reset was acted on, and that the file has a body
      for, stands again; clients were told it is gone and are told nothing more. */
  lemma RevivedBodyIsMissing(st: Server, ev: Event, room: Room, claims: set<NetId>, s: SessionId, k: nat)
    requires Inv(st, {}) && SceneInv(st) && room.Valid() && ev.TickEvent? && ev.Valid()
    requires s in Joined(st) && s in st.log && Owes(st, claims, s) && s in Step(st, ev, room).sessions
    requires var mid := BeforeReset(st, ev.dt, ev.effects, room, ev.order);
             && mid.resetRequested && k < |mid.sceneNetIds| && !Live(mid, mid.sceneNetIds[k])
             && k < |FileEnts(room.file, mid.nextEnt)|
             && DestroyBody(FileEnts(room.file, mid.nextEnt)[k]) !in ev.startEffects
    ensures var st' := Step(st, ev, room);
            var id := BeforeReset(st, ev.dt, ev.effects, room, ev.order).sceneNetIds[k];
            s in st'.log && Live(st', id) && id !in Replica(st', claims, s).reps
  {
    FateInTick(st, ev, room, claims, s, k);
  }

  /** A recorded id that stood, and that the file no longer has a body for, is gone without a word. */
  lemma DroppedBodyIsShown(st: Server, ev: Event, room: Room, claims: set<NetId>, s: SessionId, k: nat)
    requires Inv(st, {}) && SceneInv(st) && room.Valid() && ev.TickEvent? && ev.Valid()
    requires s in Joined(st) && s in st.log && Owes(st, claims, s) && s in Step(st, ev, room).sessions
    requires var mid := BeforeReset(st, ev.dt, ev.effects, room, ev.order);
             && mid.resetRequested && k < |mid.sceneNetIds| && Live(mid, mid.sceneNetIds[k])
             && |FileEnts(room.file, mid.nextEnt)| <= k
    ensures var st' := Step(st, ev, room);
            var id := BeforeReset(st, ev.dt, ev.effects, room, ev.order).sceneNetIds[k];
            s in st'.log && !Live(st', id) && id in Replica(st', claims, s).reps
  {
    FateInTick(st, ev, room, claims, s, k);
  }

  /** One recorded id in a tick with a reset: what the client shows of it, and whether it stands. */
  lemma FateInTick(st: Server, ev: Event, room: Room, claims: set<NetId>, s: SessionId, k: nat)
    requires Inv(st, {}) && SceneInv(st) && room.Valid() && ev.TickEvent? && ev.Valid()
    requires s in Joined(st) && s in st.log && Owes(st, claims, s) && s in Step(st, ev, room).sessions
    requires var mid := BeforeReset(st, ev.dt, ev.effects, room, ev.order);
             mid.resetRequested && k < |mid.sceneNetIds|
    ensures var st' := Step(st, ev, room);
            var mid := BeforeReset(st, ev.dt, ev.effects, room, ev.order);
            var ents, id := FileEnts(room.file, mid.nextEnt), mid.sceneNetIds[k];
            var again := k < |ents| && DestroyBody(ents[k]) in ev.startEffects;
            && s in st'.log
            && (id in Replica(st', claims, s).reps <==> Live(mid, id) && !again)
            && (Live(st', id) <==> k < |ents| && !again)
  {
    var mid := BeforeReset(st, ev.dt, ev.effects, room, ev.order);
    BeforeResetKeeps(st, ev.dt, ev.effects, room, ev.order, {});
    RecordedIsScene(mid, k);
    hide Inv, Step, Tick, Live, BeforeReset, Replica, Joined, FileEnts, SceneInv, Owes;
    LiveAfter(st, ev, room, mid.sceneNetIds[k]);
    TickShows(st, ev, room, claims, s, mid.sceneNetIds[k]);
    hide ApplyPendingReset;
    ResetOnRecorded(mid, ev.startEffects, room, ev.order, k);
  }

  lemma LiveAfter(st: Server, ev: Event, room: Room, id: NetId)
    requires Inv(st, {}) && SceneInv(st) && room.Valid() && ev.TickEvent? && ev.Valid() && IsSceneId(id)
    ensures var mid := BeforeReset(st, ev.dt, ev.effects, room, ev.order);
            && (id in mid.pending ==> !Live(mid, id))
            && (Live(Step(st, ev, room), id)
                <==> Live(AfterReset(st, ev.dt, ev.effects, ev.startEffects, room, ev.order), id))
  {
    TickWorld(st, ev.dt, ev.effects, ev.startEffects, room, ev.order);
    assert Step(st, ev, room) == Tick(st, ev.dt, ev.effects, ev.startEffects, room, ev.order);
    hide Inv, Tick, Live, BeforeReset, AfterReset;
  }

  lemma RecordedIsScene(st: Server, k: nat)
    requires Inv(st, {}) && k < |st.sceneNetIds|
    ensures IsSceneId(st.sceneNetIds[k])
  {
  }

  // ----- a room with one body -----

  function OneBodyRoom(look: Look): Room { Room([Body(true, None, look)], 1, 60.0) }

  function Emptied(): Server { Server(map[], map[], 2, 0, 0, [], [], [1], false, 0.0, map[]) }

  function Furnished(look: Look): Server { Emptied().(bodies := map[1 := Body(true, Some(1), look)]) }

  lemma FirstLoad(look: Look)
    ensures Init(OneBodyRoom(look), []) == Furnished(look)
  {
    var file := OneBodyRoom(look).file;
    var st := LoadFile(EMPTY_ROOM, file);
    assert file[1..] == [];
    var loaded := AddBody(EMPTY_ROOM, file[0]);
    assert LoadFile(loaded, []) == loaded && st == LoadFile(loaded, file[1..]);
    assert st.bodies == map[1 := Body(true, None, look)];
    assert RunScripts(st, []) == st && Unreplicated(st.bodies) == {1};
    assert Ascending({1}, 2, 2) == [] && Ascending({1}, 1, 2) == [1] && Ascending({1}, 0, 2) == [1];
    assert GiveIds(st.bodies, [1], [1]) == GiveId(st.bodies, 1, 1) by {
      assert [1][1..] == [] && GiveIds(GiveId(st.bodies, 1, 1), [], []) == GiveId(st.bodies, 1, 1);
    }
    assert GiveId(st.bodies, 1, 1) == map[1 := Body(true, Some(1), look)];
  }

  /** The first player of a room with nobody in it. */
  lemma FirstJoin(st: Server, look: Look, s: SessionId, name: Name, o: Order)
    requires Picks(o) && (st == Emptied() || st == Furnished(look))
    ensures var st' := OnHello(st, s, true, name, look, [], OneBodyRoom(look), o);
            && st'.sessions == map[s := Session(PLAYER_BASE, name, 2, true, 0.0)]
            && st'.log == map[s := [ServerWelcome(PLAYER_BASE)]]
            && st' == st.(sessions := st'.sessions, log := st'.log, nextEnt := 3, nextPlayer := 1,
                          bodies := st.bodies[2 := Body(true, Some(PLAYER_BASE), look)])
  {
    hide IntroduceAll, Replay;
    var st1 := st.(sessions := map[s := UNJOINED], log := map[s := []]);
    assert Touch(st, s) == st;
    assert st1 == st.(sessions := st.sessions[s := UNJOINED], log := st.log[s := []]);
    assert Joined(st1) == {} && |Joined(st1)| == 0;
    var st2 := SpawnPlayer(st1, s, name, look);
    assert RunScripts(st2, []) == st2;
    assert st2 == st.(sessions := map[s := Session(PLAYER_BASE, name, 2, true, 0.0)], log := map[s := []],
                      nextEnt := 3, nextPlayer := 1, bodies := st.bodies[2 := Body(true, Some(PLAYER_BASE), look)]);
    hide SpawnPlayer, RunScripts, IntroduceAll, Replay, Touch, Joined;
    FirstWords(st2, s, o);
  }

  lemma FirstWords(st: Server, s: SessionId, o: Order)
    requires Picks(o) && st.sessions.Keys == {s} && st.spawned == [] && st.log == map[s := []]
    ensures var st3 := st.(log := Send(st.log, {s}, ServerWelcome(st.sessions[s].netId)));
            var st4 := IntroduceAll(st3, s, st3.sessions.Keys - {s}, o);
            Replay(st4, s, st4.spawned) == st.(log := map[s := [ServerWelcome(st.sessions[s].netId)]])
  {
    var m := ServerWelcome(st.sessions[s].netId);
    assert [] + [m] == [m];
    assert Send(st.log, {s}, m) == map[s := [m]];
    assert st.sessions.Keys - {s} == {};
    Alone(st.(log := map[s := [m]]), s, {}, o);
  }

  lemma Alone(st: Server, s: SessionId, others: set<SessionId>, o: Order)
    requires Picks(o) && s in st.sessions && others == {}
    ensures IntroduceAll(st, s, others, o) == st
  {
  }

  // ----- the late joiner -----

  lemma Destroyed(look: Look, o: Order)
    requires Picks(o)
    ensures Tick(Furnished(look), 0.0, [DestroyBody(1)], [], OneBodyRoom(look), o) == Emptied()
  {
    var room, st := OneBodyRoom(look), Furnished(look);
    assert Idle(st, room) == {};
    assert [DestroyBody(1)][1..] == [];
    var st1 := BeforeReset(st, 0.0, [DestroyBody(1)], room, o);
    assert st1 == RunEffect(st, DestroyBody(1)) == Emptied().(pending := [1]);
    assert Unreplicated(st1.bodies) == {};
    assert Joined(st1) == {};
    assert FlushOne(st1) == Emptied() by { assert [1][1..] == [] && Send(map[], {}, DespawnEntity(1)) == map[]; }
    assert FlushDespawns(st1) == FlushDespawns(FlushOne(st1)) == Emptied();
  }

  /** A run in which a client that joins after a removal shows the body it claimed from its own
      copy of the scene, though no body of the room carries that id: removals are not replayed. */
  lemma LateJoinerKeepsDestroyedBody(look: Look, s: SessionId, name: Name, o: Order)
    requires Picks(o)
    ensures var events := [TickEvent(0.0, [DestroyBody(1)], [], o), Hello(s, true, name, look, [], o)];
            AllValid(events)
            && var st := Run(OneBodyRoom(look), [], events);
            && s in st.log && s in Joined(st) && !Live(st, 1)
            && 1 in Replica(st, {1}, s).reps
  {
    var room := OneBodyRoom(look);
    var e0, e1 := TickEvent(0.0, [DestroyBody(1)], [], o), Hello(s, true, name, look, [], o);
    var events := [e0, e1];
    hide OnHello, Tick, Init, Live, Joined;
    FirstLoad(look);
    Destroyed(look, o);
    assert events[..1] == [e0] && [e0][..0] == [];
    assert Run(room, [], []) == Init(room, []);
    assert Run(room, [], [e0]) == Emptied();
    var st := Run(room, [], events);
    assert st == OnHello(Emptied(), s, true, name, look, [], room, o);
    FirstJoin(Emptied(), look, s, name, o);
    OnlyWelcomed(st, look, s, name);
  }

  lemma OnlyWelcomed(st: Server, look: Look, s: SessionId, name: Name)
    requires st.sessions == map[s := Session(PLAYER_BASE, name, 2, true, 0.0)]
    requires st.log == map[s := [ServerWelcome(PLAYER_BASE)]]
    requires st.bodies == map[2 := Body(true, Some(PLAYER_BASE), look)]
    ensures s in Joined(st) && !Live(st, 1) && 1 in Replica(st, {1}, s).reps
  {
    assert [] + [ServerWelcome(PLAYER_BASE)] == [ServerWelcome(PLAYER_BASE)];
    FoldAppend(FreshClient({1}), [], ServerWelcome(PLAYER_BASE));
  }

  // ----- the client that saw the removal -----

  function Occupied(look: Look, s: SessionId, name: Name): Server {
    Server(map[s := Session(PLAYER_BASE, name, 2, true, 0.0)],
           map[1 := Body(true, Some(1), look), 2 := Body(true, Some(PLAYER_BASE), look)],
           3, 1, 0, [], [], [1], false, 0.0, map[s := [ServerWelcome(PLAYER_BASE)]])
  }

  lemma FirstEvent(look: Look, s: SessionId, name: Name, o: Order)
    requires Picks(o)
    ensures var room, ev := OneBodyRoom(look), Hello(s, true, name, look, [], o);
            && At(room, [], [ev], 0) == Init(room, []) == Furnished(look)
            && At(room, [], [ev], 1) == Run(room, [], [ev]) == Occupied(look, s, name)
  {
    var room, ev := OneBodyRoom(look), Hello(s, true, name, look, [], o);
    hide OnHello, Init;
    FirstLoad(look);
    FirstJoin(Furnished(look), look, s, name, o);
    AtStep(room, [], [ev], 0);
    assert [ev][..0] == [] && [ev][..1] == [ev];
  }

  lemma Arrives(look: Look, s: SessionId, name: Name, o: Order)
    requires Picks(o)
    ensures var st := Occupied(look, s, name);
            Inv(st, {}) && SceneInv(st) && s in Joined(st) && Owes(st, {1}, s)
  {
    var room, ev, st := OneBodyRoom(look), Hello(s, true, name, look, [], o), Occupied(look, s, name);
    hide Step, Init, Run, At, Inv, SceneInv, Live, Owes;
    FirstEvent(look, s, name, o);
    RunKeepsScene(room, [], [ev], 1);
    RunKeepsScene(room, [], [ev], 0);
    AtStep(room, [], [ev], 0);
    OnlyBodyDue(look);
    AdmittedAgrees(Furnished(look), ev, room, {1}, s);
  }

  lemma OnlyBodyDue(look: Look)
    ensures ClaimsFit(Furnished(look), {1})
  {
    var st := Furnished(look);
    assert st.bodies[1].netId == Some(1);
  }

  /** Its one client has seen body 1 removed, and showed all that was due. */
  ghost predicate Bereft(st: Server, s: SessionId) {
    && Inv(st, {}) && SceneInv(st) && s in Joined(st) && s in st.log && Owes(st, {1}, s)
    && st.sessions.Keys == {s} && st.sessions[s].lastActive == 0.0 && st.clock == 0.0
    && st.sceneNetIds == [1] && !Live(st, 1)
  }

  lemma MidRemoval(look: Look, s: SessionId, name: Name, o: Order)
    requires Picks(o)
    ensures var st := Occupied(look, s, name);
            var mid := BeforeReset(st, 0.0, [DestroyBody(1)], OneBodyRoom(look), o);
            && Idle(st, OneBodyRoom(look)) == {} && st.(clock := 0.0 + 0.0) == st
            && !Live(mid, 1) && !mid.resetRequested
  {
    var st, room := Occupied(look, s, name), OneBodyRoom(look);
    assert Idle(st, room) == {};
    assert [DestroyBody(1)][1..] == [];
    assert BeforeReset(st, 0.0, [DestroyBody(1)], room, o) == RunEffect(st, DestroyBody(1));
  }

  lemma RemovalFrame(st: Server, room: Room, s: SessionId, o: Order)
    requires Picks(o) && Idle(st.(clock := st.clock + 0.0), room) == {}
    requires !BeforeReset(st, 0.0, [DestroyBody(1)], room, o).resetRequested
    ensures var ev := TickEvent(0.0, [DestroyBody(1)], [], o);
            var st' := Step(st, ev, room);
            && st'.sessions == st.sessions && st'.sceneNetIds == st.sceneNetIds && st'.clock == st.clock
            && TickSpares(st, ev, room)
            && AfterReset(st, 0.0, [DestroyBody(1)], [], room, o) == BeforeReset(st, 0.0, [DestroyBody(1)], room, o)
  {
    TickFrame(st, 0.0, [DestroyBody(1)], [], room, o);
    hide AnnounceAll, FlushDespawns, RemoveSessions, RunScripts;
    var st0 := st.(clock := st.clock + 0.0);
    ScriptsKeepSessions(RemoveSessions(st0, Idle(st0, room), o), [DestroyBody(1)]);
    assert st.sessions - {} == st.sessions;
  }

  lemma SeesRemoval(st: Server, look: Look, s: SessionId, name: Name, o: Order)
    requires Picks(o) && st == Occupied(look, s, name) && Inv(st, {}) && SceneInv(st) && Owes(st, {1}, s)
    ensures Bereft(Step(st, TickEvent(0.0, [DestroyBody(1)], [], o), OneBodyRoom(look)), s)
  {
    var room, ev := OneBodyRoom(look), TickEvent(0.0, [DestroyBody(1)], [], o);
    hide Inv, SceneInv, Owes, AnnounceAll, FlushDespawns, Live, BeforeReset, Idle, Replica;
    MidRemoval(look, s, name, o);
    RemovalFrame(st, room, s, o);
    LiveAfter(st, ev, room, 1);
    StillIn(st, ev, room);
    hide Step, TickSpares;
    TickAgrees(st, ev, room, {1}, s);
  }

  lemma StillIn(st: Server, ev: Event, room: Room)
    requires Inv(st, {}) && SceneInv(st) && room.Valid() && ev.TickEvent? && ev.Valid()
    ensures Inv(Step(st, ev, room), {}) && SceneInv(Step(st, ev, room))
  {
    TickFrame(st, ev.dt, ev.effects, ev.startEffects, room, ev.order);
    hide SceneInv, Tick;
    StepKeeps(st, ev, room, {});
    StepKeepsScene(st, ev, room);
  }

  lemma ComesBack(st: Server, look: Look, s: SessionId, o: Order)
    requires Picks(o) && Bereft(st, s)
    ensures var st' := Step(st, TickEvent(0.0, [RequestReset], [], o), OneBodyRoom(look));
            s in st'.log && s in Joined(st') && Live(st', 1) && 1 !in Replica(st', {1}, s).reps
  {
    var room, ev := OneBodyRoom(look), TickEvent(0.0, [RequestReset], [], o);
    assert Idle(st, room) == {};
    var mid := BeforeReset(st, 0.0, [RequestReset], room, o);
    assert [RequestReset][1..] == [];
    assert mid == RunEffect(st, RequestReset);
    LiveByBodies(st, mid);
    assert room.file[1..] == [] && FileEnts(room.file, mid.nextEnt) == [mid.nextEnt] + FileEnts([], mid.nextEnt + 1);
    TickFrame(st, 0.0, [RequestReset], [], room, o);
    hide Inv, SceneInv, Owes, Live, BeforeReset, Tick;
    RevivedBodyIsMissing(st, ev, room, {1}, s, 0);
  }

  lemma RunThree(room: Room, e0: Event, e1: Event, e2: Event)
    requires e0.Valid() && e1.Valid() && e2.Valid()
    ensures AllValid([e0, e1, e2])
            && Run(room, [], [e0, e1, e2]) == Step(Step(Run(room, [], [e0]), e1, room), e2, room)
  {
    hide Step, Event.Valid;
    assert [e0, e1, e2][..2] == [e0, e1] && [e0, e1][..1] == [e0];
    assert Run(room, [], [e0, e1]) == Step(Run(room, [], [e0]), e1, room);
  }

  /** A run in which a client sees a body removed, a reset puts the body back under its recorded
      id, and the client, told nothing, does not show it. */
  lemma ResetRevivesRemovedBody(look: Look, s: SessionId, name: Name, o: Order)
    requires Picks(o)
    ensures var events := [Hello(s, true, name, look, [], o), TickEvent(0.0, [DestroyBody(1)], [], o),
                           TickEvent(0.0, [RequestReset], [], o)];
            AllValid(events)
            && var st := Run(OneBodyRoom(look), [], events);
            && s in st.log && s in Joined(st) && Live(st, 1)
            && 1 !in Replica(st, {1}, s).reps
  {
    var room := OneBodyRoom(look);
    var e0, e1 := Hello(s, true, name, look, [], o), TickEvent(0.0, [DestroyBody(1)], [], o);
    var e2 := TickEvent(0.0, [RequestReset], [], o);
    hide Inv, SceneInv, Owes, Live, Step, Run, Replica, Occupied, Bereft, Joined;
    RunThree(room, e0, e1, e2);
    FirstEvent(look, s, name, o);
    Arrives(look, s, name, o);
    SeesRemoval(Occupied(look, s, name), look, s, name, o);
    ComesBack(Step(Occupied(look, s, name), e1, room), look, s, o);
  }
}
