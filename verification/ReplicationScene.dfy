/** The scene's own bodies: what a client shows of them in every run, and exactly when that is
    what stands in the room. */
module ReplicationScene {
  import opened Wrappers
  import opened Replication
  import opened ReplicationSafety
  import opened ReplicationRuns
  import opened ReplicationIdentity
  import opened ReplicationStreams

  // ----- a reset -----

  /** Which recorded id a rebuilt body carries. */
  lemma RebuiltCarries(st: Server, room: Room, o: Order, k: nat, e: Ent)
    requires Inv(st, {}) && room.Valid() && Picks(o) && k < |st.sceneNetIds|
    ensures var ents := FileEnts(room.file, st.nextEnt);
            var bodies := Rebuild(st, room, o).bodies;
            e in bodies && bodies[e].netId == Some(st.sceneNetIds[k]) <==> k < |ents| && e == ents[k]
  {
    hide ClientsOk, RosterOk, Rebuild, FileEnts;
    RebuiltBodies(st, room, o);
    var ents := FileEnts(room.file, st.nextEnt);
    if e in ents {
      var j :| 0 <= j < |ents| && ents[j] == e;
    }
  }

  lemma RebuiltScene(st: Server, startEffects: seq<Effect>, room: Room, o: Order, k: nat)
    requires Inv(st, {}) && room.Valid() && Picks(o) && k < |st.sceneNetIds|
    ensures var ents, id := FileEnts(room.file, st.nextEnt), st.sceneNetIds[k];
            && (Live(Rebuild(st, room, o), id) <==> k < |ents|)
            && (Killed(Rebuild(st, room, o), startEffects, id) <==> k < |ents| && DestroyBody(ents[k]) in startEffects)
  {
    var ents, id := FileEnts(room.file, st.nextEnt), st.sceneNetIds[k];
    var bodies := Rebuild(st, room, o).bodies;
    hide Inv, Rebuild, FileEnts;
    forall e ensures e in bodies && bodies[e].netId == Some(id) <==> k < |ents| && e == ents[k] {
      RebuiltCarries(st, room, o, k, e);
    }
    if k < |ents| { assert ents[k] in bodies && bodies[ents[k]].netId == Some(id); }
  }

  /** The fate of one recorded id in a reset: it stands again if the file has a body for it
      and the start scripts leave that body alone, and its removal is queued if they do not. */
  lemma ResetOnRecorded(st: Server, startEffects: seq<Effect>, room: Room, o: Order, k: nat)
    requires Inv(st, {}) && room.Valid() && Picks(o) && st.resetRequested && k < |st.sceneNetIds|
    ensures var st' := ApplyPendingReset(st, startEffects, room, o);
            var ents, id := FileEnts(room.file, st.nextEnt), st.sceneNetIds[k];
            && (Live(st', id) <==> k < |ents| && DestroyBody(ents[k]) !in startEffects)
            && (id in st'.pending <==> id in st.pending || (k < |ents| && DestroyBody(ents[k]) in startEffects))
  {
    var id := st.sceneNetIds[k];
    assert IsSceneId(id);
    hide Inv, Rebuild, FileEnts, RunScripts, Live, Killed, RoomOk;
    var st0 := st.(resetRequested := false);
    FlagKeeps(st, false, st.clock, {});
    assert st0 == st.(resetRequested := false, clock := st.clock);
    RebuildKeeps(st0, room, o, {});
    RebuiltScene(st0, startEffects, room, o, k);
    QuietReset(st0, room, o);
    InvRoom(Rebuild(st0, room, o));
    ScriptsOnScene(Rebuild(st0, room, o), startEffects, id);
  }

  lemma InvRoom(st: Server)
    requires Inv(st, {})
    ensures RoomOk(st)
  {
  }

  /** Ids that were never recorded do not stand before or after. */
  lemma ResetOnUnrecorded(st: Server, startEffects: seq<Effect>, room: Room, o: Order, id: NetId)
    requires Inv(st, {}) && room.Valid() && Picks(o) && st.resetRequested && IsSceneId(id) && id !in st.sceneNetIds
    ensures var st' := ApplyPendingReset(st, startEffects, room, o);
            !Live(st, id) && !Live(st', id) && (id in st.pending <==> id in st'.pending)
  {
    NeverLive(st, id);
    ResetFrame(st, startEffects, room, o);
    hide Inv, RunScripts, Rebuild;
    ResetKeeps(st, startEffects, room, o, {});
    NeverLive(ApplyPendingReset(st, startEffects, room, o), id);
    var st0 := st.(resetRequested := false);
    FlagKeeps(st, false, st.clock, {});
    assert st0 == st.(resetRequested := false, clock := st.clock);
    RebuildKeeps(st0, room, o, {});
    QuietReset(st0, room, o);
    InvRoom(Rebuild(st0, room, o));
    ScriptsOnScene(Rebuild(st0, room, o), startEffects, id);
    KilledLives(Rebuild(st0, room, o), startEffects, id);
    NeverLive(Rebuild(st0, room, o), id);
  }

  lemma NeverLive(st: Server, id: NetId)
    requires Inv(st, {}) && IsSceneId(id) && id !in st.sceneNetIds
    ensures !Live(st, id)
  {
  }

  /** A reset sends nothing, and leaves sessions and the recorded ids alone. */
  lemma ResetFrame(st: Server, startEffects: seq<Effect>, room: Room, o: Order)
    requires Picks(o)
    ensures var st' := ApplyPendingReset(st, startEffects, room, o);
            st'.log == st.log && st'.sessions == st.sessions && st'.sceneNetIds == st.sceneNetIds
  {
    hide RunScripts, DestroyAll, LoadFile, GiveIds;
    if st.resetRequested { ScriptsKeepSessions(Rebuild(st.(resetRequested := false), room, o), startEffects); }
  }

  /** The guard under which a reset is harmless to clients: every recorded id the file has a body
      for stands at that moment or is destroyed again by the start scripts, and no other stands. */
  ghost predicate ResetSpares(st: Server, startEffects: seq<Effect>, room: Room) {
    var ents := FileEnts(room.file, st.nextEnt);
    forall k :: 0 <= k < |st.sceneNetIds| ==>
      if k < |ents| then Live(st, st.sceneNetIds[k]) || DestroyBody(ents[k]) in startEffects
      else !Live(st, st.sceneNetIds[k])
  }

  /** What a client that showed what was due shows after the reset's removals are announced
      is what then stands, exactly under that guard. */
  lemma ResetSettles(st: Server, startEffects: seq<Effect>, room: Room, o: Order)
    requires Inv(st, {}) && room.Valid() && Picks(o) && st.resetRequested && PendingGone(st)
    ensures var st' := ApplyPendingReset(st, startEffects, room, o);
            (forall id :: IsSceneId(id) ==> (Due(st, id) && id !in st'.pending <==> Live(st', id)))
            <==> ResetSpares(st, startEffects, room)
  {
    var ids := st.sceneNetIds;
    assert forall k :: 0 <= k < |ids| ==> IsSceneId(ids[k]);
    hide Inv, Live, ApplyPendingReset, FileEnts;
    var st' := ApplyPendingReset(st, startEffects, room, o);
    var ents := FileEnts(room.file, st.nextEnt);
    forall k | 0 <= k < |ids|
      ensures (Due(st, ids[k]) && ids[k] !in st'.pending <==> Live(st', ids[k]))
              <==> if k < |ents| then Live(st, ids[k]) || DestroyBody(ents[k]) in startEffects else !Live(st, ids[k])
    {
      ResetOnRecorded(st, startEffects, room, o, k);
    }
    forall id | IsSceneId(id) && id !in ids
      ensures Due(st, id) && id !in st'.pending <==> Live(st', id)
    {
      ResetOnUnrecorded(st, startEffects, room, o, id);
    }
  }

  // ----- a tick -----

  /** The tick up to the point where what appeared and what went is announced. */
  ghost function AfterReset(st: Server, dt: real, effects: seq<Effect>, startEffects: seq<Effect>, room: Room,
      o: Order): Server
    requires Picks(o)
  {
    ApplyPendingReset(BeforeReset(st, dt, effects, room, o), startEffects, room, o)
  }

  /** Up to the announcements a session that stays hears nothing about the scene. */
  lemma BeforeAnnouncing(st: Server, dt: real, effects: seq<Effect>, startEffects: seq<Effect>, room: Room, o: Order,
      s: SessionId)
    requires Inv(st, {}) && Picks(o) && s in st.sessions && s !in Idle(st.(clock := st.clock + dt), room)
    ensures var st2 := AfterReset(st, dt, effects, startEffects, room, o);
            && s in st2.log && Quiet(Stream(st.log, s), Stream(st2.log, s)) && (s in Joined(st2) <==> s in Joined(st))
  {
    hide Quiet, RunScripts, RemoveSessions, ApplyPendingReset, InRange, WorldOk, RosterOk, ClientsOk;
    var st0 := st.(clock := st.clock + dt);
    FlagKeeps(st, st.resetRequested, st.clock + dt, {});
    assert st0 == st.(resetRequested := st.resetRequested, clock := st.clock + dt);
    RemoveSessionsKeep(st0, Idle(st0, room), o, {});
    RemoveSessionsQuiet(st0, Idle(st0, room), o, s);
    var st1 := RemoveSessions(st0, Idle(st0, room), o);
    assert st1.sessions == st0.sessions - Idle(st0, room);
    ScriptsKeepSessions(st1, effects);
    ResetFrame(BeforeReset(st, dt, effects, room, o), startEffects, room, o);
  }

  lemma TickTells(st: Server, dt: real, effects: seq<Effect>, startEffects: seq<Effect>, room: Room, o: Order,
      s: SessionId, id: NetId)
    requires Inv(st, {}) && room.Valid() && Picks(o) && s in st.sessions && s in st.log
    requires s in Tick(st, dt, effects, startEffects, room, o).sessions
    ensures var st' := Tick(st, dt, effects, startEffects, room, o);
            && s in st'.log && (s in Joined(st') <==> s in Joined(st))
            && (AllPolite(st.log[s]) ==> AllPolite(st'.log[s]))
            && (DespawnEntity(id) in st'.log[s]
                <==> DespawnEntity(id) in st.log[s]
                     || (s in Joined(st) && id in AfterReset(st, dt, effects, startEffects, room, o).pending))
  {
    TickFrame(st, dt, effects, startEffects, room, o);
    BeforeAnnouncing(st, dt, effects, startEffects, room, o, s);
    var st2 := AfterReset(st, dt, effects, startEffects, room, o);
    assert Tick(st, dt, effects, startEffects, room, o)
           == FlushDespawns(AnnounceAll(st2, Unreplicated(st2.bodies), o));
    hide Inv, Quiet, AfterReset, AllPolite, Unreplicated, Tick, BeforeReset;
    AnnouncementsTell(st2, Stream(st.log, s), Unreplicated(st2.bodies), o, s, id);
  }

  lemma AnnouncementsTell(st: Server, log: seq<Message>, todo: set<Ent>, o: Order, s: SessionId, id: NetId)
    requires Picks(o) && todo <= st.bodies.Keys && s in st.log && Quiet(log, Stream(st.log, s))
    ensures var st' := FlushDespawns(AnnounceAll(st, todo, o));
            && s in st'.log && (s in Joined(st') <==> s in Joined(st))
            && (AllPolite(log) ==> AllPolite(st'.log[s]))
            && (DespawnEntity(id) in st'.log[s] <==> DespawnEntity(id) in log || (s in Joined(st) && id in st.pending))
  {
    hide Quiet, AllPolite, AnnounceAll, FlushDespawns;
    AnnounceAllQuiet(st, todo, o, s);
    var st3 := AnnounceAll(st, todo, o);
    QuietJoin(log, Stream(st.log, s), Stream(st3.log, s));
    QuietTells(log, Stream(st3.log, s));
    HasStream(st, todo, o, s);
    FlushTells(st3, s, id);
  }

  lemma {:induction false} HasStream(st: Server, todo: set<Ent>, o: Order, s: SessionId)
    requires Picks(o) && todo <= st.bodies.Keys
    ensures s in st.log <==> s in AnnounceAll(st, todo, o).log
    decreases todo
  {
    if todo != {} { HasStream(Announce(st, o(todo)), todo - {o(todo)}, o, s); }
  }

  lemma TickWorld(st: Server, dt: real, effects: seq<Effect>, startEffects: seq<Effect>, room: Room, o: Order)
    requires Inv(st, {}) && room.Valid() && Picks(o)
    ensures var mid := BeforeReset(st, dt, effects, room, o);
            var st2 := AfterReset(st, dt, effects, startEffects, room, o);
            var st' := Tick(st, dt, effects, startEffects, room, o);
            && Settles(st, mid) && st'.pending == []
            && forall id :: IsSceneId(id) ==> (Live(st2, id) <==> Live(st', id))
  {
    hide Inv, Live, RunScripts, RemoveSessions, ApplyPendingReset, RoomOk, AnnounceAll, FlushDespawns;
    var st0 := st.(clock := st.clock + dt);
    FlagKeeps(st, st.resetRequested, st.clock + dt, {});
    assert st0 == st.(resetRequested := st.resetRequested, clock := st.clock + dt);
    LiveByBodies(st, st0);
    RemoveSessionsScene(st0, Idle(st0, room), o);
    RemoveSessionsKeep(st0, Idle(st0, room), o, {});
    InvRoom(RemoveSessions(st0, Idle(st0, room), o));
    ScriptsSettle(RemoveSessions(st0, Idle(st0, room), o), effects);
    BeforeResetKeeps(st, dt, effects, room, o, {});
    ResetKeeps(BeforeReset(st, dt, effects, room, o), startEffects, room, o, {});
    var st2 := AfterReset(st, dt, effects, startEffects, room, o);
    AnnounceAllScene(st2, Unreplicated(st2.bodies), o);
    AnnounceAllKeeps(st2, Unreplicated(st2.bodies), o, {});
    FlushAllKeeps(AnnounceAll(st2, Unreplicated(st2.bodies), o), {});
    LiveByBodies(AnnounceAll(st2, Unreplicated(st2.bodies), o), Tick(st, dt, effects, startEffects, room, o));
  }

  // ----- what clients show -----

  /** No stream names a scene body but to announce its removal, and nobody unjoined is told of one. */
  ghost predicate SceneInv(st: Server) {
    && PendingGone(st)
    && forall s :: s in st.log ==>
         AllPolite(st.log[s]) && (s !in Joined(st) ==> forall id :: DespawnEntity(id) !in st.log[s])
  }

  /** The client shows just the scene bodies that stand in the room. */
  ghost predicate SceneAgrees(st: Server, claims: set<NetId>, s: SessionId)
    requires s in st.log
  {
    forall id :: IsSceneId(id) ==> (id in Replica(st, claims, s).reps <==> Live(st, id))
  }

  /** And those whose removal it is still to hear of. */
  ghost predicate Owes(st: Server, claims: set<NetId>, s: SessionId)
    requires s in st.log
  {
    forall id :: IsSceneId(id) ==> (id in Replica(st, claims, s).reps <==> Due(st, id))
  }

  lemma Shown(st: Server, claims: set<NetId>, s: SessionId, id: NetId)
    requires SceneInv(st) && s in st.log && IsSceneId(id)
    ensures var c := Replica(st, claims, s);
            && (id in c.reps <==> id in claims && DespawnEntity(id) !in st.log[s])
            && (id in c.reps ==> c.reps[id] == Claimed)
  {
    FoldScene(claims, st.log[s], id);
  }

  lemma StaysJoined(st: Server, ev: Event, room: Room, t: SessionId)
    requires ev.Valid() && !ev.TickEvent? && t in Joined(st) && t in Step(st, ev, room).sessions
    ensures t in Joined(Step(st, ev, room))
  {
    hide OnHello;
    match ev
    case Hello(s, ok, name, look, effects, o) => HelloStaysJoined(st, s, ok, name, look, effects, room, o, t);
    case _ =>
  }

  lemma HelloStaysJoined(st: Server, s: SessionId, ok: bool, name: Name, look: Look, effects: seq<Effect>,
      room: Room, o: Order, t: SessionId)
    requires Picks(o) && t in Joined(st)
    ensures t in Joined(OnHello(st, s, ok, name, look, effects, room, o))
  {
    hide IntroduceAll, Replay, RunScripts, Send;
    var st0 := Touch(st, s);
    if ok {
      var st1 := if s in st0.sessions then st0
                 else st0.(sessions := st0.sessions[s := UNJOINED], log := st0.log[s := []]);
      ScriptsKeepSessions(SpawnPlayer(st1, s, name, look), effects);
    }
  }

  lemma TickKeepsSceneInv(st: Server, dt: real, effects: seq<Effect>, startEffects: seq<Effect>, room: Room, o: Order)
    requires Inv(st, {}) && SceneInv(st) && room.Valid() && Picks(o)
    ensures SceneInv(Tick(st, dt, effects, startEffects, room, o))
  {
    var st' := Tick(st, dt, effects, startEffects, room, o);
    TickWorld(st, dt, effects, startEffects, room, o);
    TickKeeps(st, dt, effects, startEffects, room, o, {});
    TickFrame(st, dt, effects, startEffects, room, o);
    StreamsOf(st);
    StreamsOf(st');
    hide Inv, Tick, AllPolite, Live, BeforeReset, AfterReset;
    forall s | s in st'.log
      ensures AllPolite(st'.log[s]) && (s !in Joined(st') ==> forall id :: DespawnEntity(id) !in st'.log[s])
    {
      assert s in st.sessions && s in st.log;
      TickTells(st, dt, effects, startEffects, room, o, s, 0);
      forall id | s !in Joined(st') ensures DespawnEntity(id) !in st'.log[s] {
        TickTells(st, dt, effects, startEffects, room, o, s, id);
      }
    }
  }

  lemma StepKeepsScene(st: Server, ev: Event, room: Room)
    requires Inv(st, {}) && SceneInv(st) && room.Valid() && ev.Valid() && InRange(Step(st, ev, room))
    ensures SceneInv(Step(st, ev, room))
  {
    var st' := Step(st, ev, room);
    StepKeeps(st, ev, room, {});
    StreamsOf(st);
    StreamsOf(st');
    hide Inv, Quiet, AllPolite, Live, OnHello, OnConnect, OnDisconnect, Touch, Tick;
    if ev.TickEvent? {
      TickKeepsSceneInv(st, ev.dt, ev.effects, ev.startEffects, room, ev.order);
    } else {
      StepSettles(st, ev, room);
      forall s | s in st'.log
        ensures AllPolite(st'.log[s]) && (s !in Joined(st') ==> forall id :: DespawnEntity(id) !in st'.log[s])
      {
        StepQuiet(st, ev, room, s);
        QuietTells(Stream(st.log, s), Stream(st'.log, s));
        if s in Joined(st) { StaysJoined(st, ev, room, s); }
      }
    }
  }

  lemma StreamsOf(st: Server)
    requires Inv(st, {})
    ensures st.log.Keys == st.sessions.Keys
  {
  }

  /** The guard of a whole tick: if the scripts asked for a reset, it is harmless. */
  ghost predicate TickSpares(st: Server, ev: Event, room: Room)
    requires ev.TickEvent? && ev.Valid()
  {
    var mid := BeforeReset(st, ev.dt, ev.effects, room, ev.order);
    mid.resetRequested ==> ResetSpares(mid, ev.startEffects, room)
  }

  /** A claim whose removal the client has not been told of. */
  ghost predicate Holds(st: Server, claims: set<NetId>, s: SessionId, id: NetId)
    requires s in st.log
  {
    id in claims && DespawnEntity(id) !in st.log[s]
  }

  lemma TickHolds(st: Server, ev: Event, room: Room, claims: set<NetId>, s: SessionId, id: NetId)
    requires Inv(st, {}) && SceneInv(st) && room.Valid() && ev.TickEvent? && ev.Valid() && IsSceneId(id)
    requires s in Joined(st) && s in st.log && s in Step(st, ev, room).sessions
    ensures var st' := Step(st, ev, room);
            && s in Joined(st') && s in st'.log
            && (id in Replica(st', claims, s).reps
                <==> Holds(st, claims, s, id)
                     && id !in AfterReset(st, ev.dt, ev.effects, ev.startEffects, room, ev.order).pending)
  {
    var st' := Tick(st, ev.dt, ev.effects, ev.startEffects, room, ev.order);
    assert Step(st, ev, room) == st';
    TickTells(st, ev.dt, ev.effects, ev.startEffects, room, ev.order, s, id);
    TickKeepsSceneInv(st, ev.dt, ev.effects, ev.startEffects, room, ev.order);
    hide Inv, Tick, Step, BeforeReset, AfterReset, Replica, Joined, SceneInv;
    Shown(st', claims, s, id);
  }

  lemma TickShows(st: Server, ev: Event, room: Room, claims: set<NetId>, s: SessionId, id: NetId)
    requires Inv(st, {}) && SceneInv(st) && room.Valid() && ev.TickEvent? && ev.Valid() && IsSceneId(id)
    requires s in Joined(st) && s in st.log && Owes(st, claims, s) && s in Step(st, ev, room).sessions
    ensures var st' := Step(st, ev, room);
            && s in Joined(st') && s in st'.log
            && (id in Replica(st', claims, s).reps
                <==> Due(BeforeReset(st, ev.dt, ev.effects, room, ev.order), id)
                     && id !in AfterReset(st, ev.dt, ev.effects, ev.startEffects, room, ev.order).pending)
  {
    TickWorld(st, ev.dt, ev.effects, ev.startEffects, room, ev.order);
    hide Inv, Tick, Step, Live, BeforeReset, AfterReset, Replica, Joined, SceneInv;
    Shown(st, claims, s, id);
    TickHolds(st, ev, room, claims, s, id);
  }

  /** What stands after a tick is what is still to be shown, exactly when the tick spares its clients. */
  lemma TickLeaves(st: Server, ev: Event, room: Room)
    requires Inv(st, {}) && SceneInv(st) && room.Valid() && ev.TickEvent? && ev.Valid()
    ensures var st' := Step(st, ev, room);
            && st'.pending == []
            && ((forall id :: IsSceneId(id) ==>
                  (Due(BeforeReset(st, ev.dt, ev.effects, room, ev.order), id)
                   && id !in AfterReset(st, ev.dt, ev.effects, ev.startEffects, room, ev.order).pending
                   <==> Live(st', id)))
                <==> TickSpares(st, ev, room))
  {
    var mid := BeforeReset(st, ev.dt, ev.effects, room, ev.order);
    TickWorld(st, ev.dt, ev.effects, ev.startEffects, room, ev.order);
    BeforeResetKeeps(st, ev.dt, ev.effects, room, ev.order, {});
    hide Inv, Tick, Live, BeforeReset, ResetSpares;
    if mid.resetRequested { ResetSettles(mid, ev.startEffects, room, ev.order); }
  }

  /** A client that showed what was due when the tick began shows what stands when it ends
      if and only if the tick's reset, should there be one, met its guard. */
  lemma TickAgrees(st: Server, ev: Event, room: Room, claims: set<NetId>, s: SessionId)
    requires Inv(st, {}) && SceneInv(st) && room.Valid() && ev.TickEvent? && ev.Valid()
    requires s in Joined(st) && s in st.log && Owes(st, claims, s) && s in Step(st, ev, room).sessions
    ensures var st' := Step(st, ev, room);
            && s in Joined(st') && s in st'.log
            && (SceneAgrees(st', claims, s) <==> TickSpares(st, ev, room))
            && (SceneAgrees(st', claims, s) <==> Owes(st', claims, s))
  {
    TickLeaves(st, ev, room);
    hide Inv, Step, Live, BeforeReset, AfterReset, Replica, TickSpares, SceneInv, Joined;
    TickShows(st, ev, room, claims, s, 0);
    forall id | IsSceneId(id)
      ensures id in Replica(Step(st, ev, room), claims, s).reps
              <==> Due(BeforeReset(st, ev.dt, ev.effects, room, ev.order), id)
                   && id !in AfterReset(st, ev.dt, ev.effects, ev.startEffects, room, ev.order).pending
    {
      TickShows(st, ev, room, claims, s, id);
    }
  }

  /** Between ticks a joined client goes on showing what is due. */
  lemma StepOwes(st: Server, ev: Event, room: Room, claims: set<NetId>, s: SessionId)
    requires Inv(st, {}) && SceneInv(st) && room.Valid() && ev.Valid() && !ev.TickEvent? && InRange(Step(st, ev, room))
    requires s in st.log && s in Step(st, ev, room).log
    ensures Owes(Step(st, ev, room), claims, s) <==> Owes(st, claims, s)
  {
    var st' := Step(st, ev, room);
    StepKeepsScene(st, ev, room);
    StepQuiet(st, ev, room, s);
    StepSettles(st, ev, room);
    QuietTells(Stream(st.log, s), Stream(st'.log, s));
    hide Inv, Step, Live, Replica, Quiet, SceneInv;
    forall id | IsSceneId(id)
      ensures id in Replica(st', claims, s).reps <==> id in Replica(st, claims, s).reps
    {
      Shown(st, claims, s, id);
      Shown(st', claims, s, id);
    }
  }

  /** The claims of a newcomer are the bodies due to be shown. */
  ghost predicate ClaimsFit(st: Server, claims: set<NetId>) {
    forall id :: IsSceneId(id) ==> (id in claims <==> Due(st, id))
  }

  /** A tick admits nobody. */
  lemma TickAdmitsNobody(st: Server, ev: Event, room: Room, s: SessionId)
    requires ev.TickEvent? && ev.Valid() && s !in Joined(st)
    ensures s !in Joined(Step(st, ev, room))
  {
    TickFrame(st, ev.dt, ev.effects, ev.startEffects, room, ev.order);
    hide Tick;
  }

  lemma AdmittedShows(st: Server, ev: Event, room: Room, claims: set<NetId>, s: SessionId, id: NetId)
    requires Inv(st, {}) && SceneInv(st) && room.Valid() && ev.Valid() && InRange(Step(st, ev, room)) && IsSceneId(id)
    requires !ev.TickEvent? && s !in Joined(st) && s in Step(st, ev, room).log
    ensures id in Replica(Step(st, ev, room), claims, s).reps <==> id in claims
  {
    var st' := Step(st, ev, room);
    StepKeepsScene(st, ev, room);
    StepQuiet(st, ev, room, s);
    QuietTells(Stream(st.log, s), Stream(st'.log, s));
    assert DespawnEntity(id) !in Stream(st.log, s);
    hide Inv, Step, Replica, Quiet, SceneInv;
    Shown(st', claims, s, id);
  }

  /** The event that admits a session leaves its client showing just its claims. */
  lemma AdmittedAgrees(st: Server, ev: Event, room: Room, claims: set<NetId>, s: SessionId)
    requires Inv(st, {}) && SceneInv(st) && room.Valid() && ev.Valid() && InRange(Step(st, ev, room))
    requires s !in Joined(st) && s in Joined(Step(st, ev, room)) && s in Step(st, ev, room).log
    ensures var st' := Step(st, ev, room);
            && (Owes(st', claims, s) <==> ClaimsFit(st, claims))
            && (SceneAgrees(st', claims, s) <==> forall id :: IsSceneId(id) ==> (id in claims <==> Live(st', id)))
  {
    hide Inv, SceneInv, Step, Live, Replica, Joined;
    if ev.TickEvent? {
      TickAdmitsNobody(st, ev, room, s);
    } else {
      StepSettles(st, ev, room);
      forall id | IsSceneId(id) ensures id in Replica(Step(st, ev, room), claims, s).reps <==> id in claims {
        AdmittedShows(st, ev, room, claims, s, id);
      }
    }
  }

  // ----- every run -----

  /** The room after the first `m` events. */
  ghost function At(room: Room, startEffects: seq<Effect>, events: seq<Event>, m: nat): Server
    requires AllValid(events) && m <= |events|
  {
    Run(room, startEffects, events[..m])
  }

  lemma AtStep(room: Room, startEffects: seq<Effect>, events: seq<Event>, m: nat)
    requires AllValid(events) && m < |events|
    ensures At(room, startEffects, events, m + 1) == Step(At(room, startEffects, events, m), events[m], room)
  {
    assert events[..m + 1][..m] == events[..m];
  }

  lemma {:induction false} AtInRange(room: Room, startEffects: seq<Effect>, events: seq<Event>, m: nat)
    requires AllValid(events) && m <= |events| && InRange(Run(room, startEffects, events))
    ensures InRange(At(room, startEffects, events, m))
    decreases |events| - m
  {
    hide Step, Run;
    if m == |events| {
      assert events[..m] == events;
    } else {
      AtInRange(room, startEffects, events, m + 1);
      AtStep(room, startEffects, events, m);
      StepCounts(At(room, startEffects, events, m), events[m], room);
    }
  }

  lemma InitKeepsScene(room: Room, startEffects: seq<Effect>)
    requires room.Valid()
    ensures SceneInv(Init(room, startEffects))
  {
    LoadedKeeps(room, startEffects, {});
    hide LoadFile, RunScripts, GiveIds, Ascending;
    assert Init(room, startEffects) == AssignSceneNetIds(Loaded(room, startEffects), true);
  }

  lemma {:induction false} RunKeepsScene(room: Room, startEffects: seq<Effect>, events: seq<Event>, m: nat)
    requires room.Valid() && AllValid(events) && m <= |events|
    requires Init(room, startEffects).nextEnt <= PLAYER_BASE && InRange(Run(room, startEffects, events))
    ensures Inv(At(room, startEffects, events, m), {}) && SceneInv(At(room, startEffects, events, m))
    decreases m
  {
    hide Inv, SceneInv, Step, Init;
    AtInRange(room, startEffects, events, m);
    RunKeeps(room, startEffects, events[..m], {});
    if m == 0 {
      InitKeepsScene(room, startEffects);
    } else {
      RunKeepsScene(room, startEffects, events, m - 1);
      AtStep(room, startEffects, events, m - 1);
      StepKeepsScene(At(room, startEffects, events, m - 1), events[m - 1], room);
    }
  }

  /** In every run every client shows, of the scene's bodies, its claims but for those whose
      removal has been announced on its stream, and shows them as its own copies. */
  lemma SceneShown(room: Room, startEffects: seq<Effect>, events: seq<Event>, claims: set<NetId>, s: SessionId,
      id: NetId)
    requires room.Valid() && AllValid(events)
    requires Init(room, startEffects).nextEnt <= PLAYER_BASE && InRange(Run(room, startEffects, events))
    requires s in Run(room, startEffects, events).log && IsSceneId(id)
    ensures var st := Run(room, startEffects, events);
            var c := Replica(st, claims, s);
            && (id in c.reps <==> id in claims && DespawnEntity(id) !in st.log[s])
            && (id in c.reps ==> c.reps[id] == Claimed)
  {
    hide Inv, SceneInv, Run, Init, Replica;
    RunKeepsScene(room, startEffects, events, |events|);
    assert events[..|events|] == events;
    Shown(Run(room, startEffects, events), claims, s, id);
  }

  /** The `m`th event, if a tick, spares the clients; the room after it agrees with this one. */
  ghost predicate Spares(room: Room, startEffects: seq<Effect>, events: seq<Event>, m: nat)
    requires AllValid(events) && m < |events|
  {
    events[m].TickEvent? ==> TickSpares(At(room, startEffects, events, m), events[m], room)
  }

  ghost predicate AgreesAfter(room: Room, startEffects: seq<Effect>, events: seq<Event>, m: nat, claims: set<NetId>,
      s: SessionId)
    requires AllValid(events) && m < |events|
  {
    var st := At(room, startEffects, events, m + 1);
    events[m].TickEvent? ==> s in st.log && SceneAgrees(st, claims, s)
  }

  ghost predicate JoinedSince(room: Room, startEffects: seq<Effect>, events: seq<Event>, n: nat, s: SessionId)
    requires AllValid(events)
  {
    forall m :: n <= m <= |events| ==>
      s in Joined(At(room, startEffects, events, m)) && s in At(room, startEffects, events, m).log
  }

  ghost predicate AllSpare(room: Room, startEffects: seq<Effect>, events: seq<Event>, n: nat, k: nat)
    requires AllValid(events) && k <= |events|
  {
    forall m :: n <= m < k ==> Spares(room, startEffects, events, m)
  }

  ghost predicate AllAgree(room: Room, startEffects: seq<Effect>, events: seq<Event>, n: nat, k: nat,
      claims: set<NetId>, s: SessionId)
    requires AllValid(events) && k <= |events|
  {
    forall m :: n <= m < k ==> AgreesAfter(room, startEffects, events, m, claims, s)
  }

  /** One event further. */
  lemma SceneNext(room: Room, startEffects: seq<Effect>, events: seq<Event>, n: nat, k: nat, claims: set<NetId>,
      s: SessionId)
    requires room.Valid() && AllValid(events) && n <= k < |events|
    requires Init(room, startEffects).nextEnt <= PLAYER_BASE && InRange(Run(room, startEffects, events))
    requires JoinedSince(room, startEffects, events, n, s)
    requires s in At(room, startEffects, events, k).log && s in At(room, startEffects, events, k + 1).log
    requires Owes(At(room, startEffects, events, k), claims, s)
    ensures Spares(room, startEffects, events, k) <==> AgreesAfter(room, startEffects, events, k, claims, s)
    ensures Spares(room, startEffects, events, k) ==> Owes(At(room, startEffects, events, k + 1), claims, s)
  {
    hide Step, Init, Run, Owes, SceneAgrees, TickSpares, Inv, SceneInv;
    RunKeepsScene(room, startEffects, events, k);
    AtStep(room, startEffects, events, k);
    AtInRange(room, startEffects, events, k + 1);
    assert s in Joined(At(room, startEffects, events, k)) && s in Joined(At(room, startEffects, events, k + 1));
    if events[k].TickEvent? {
      TickAgrees(At(room, startEffects, events, k), events[k], room, claims, s);
    } else {
      StepOwes(At(room, startEffects, events, k), events[k], room, claims, s);
    }
  }

  /** From a moment at which a joined client shows what is due, up to the `k`th event: it agrees
      at every tick boundary if and only if every tick spares it. */
  lemma {:induction false} SceneSince(room: Room, startEffects: seq<Effect>, events: seq<Event>, n: nat, k: nat,
      claims: set<NetId>, s: SessionId)
    requires room.Valid() && AllValid(events) && n <= k <= |events|
    requires Init(room, startEffects).nextEnt <= PLAYER_BASE && InRange(Run(room, startEffects, events))
    requires JoinedSince(room, startEffects, events, n, s)
    requires s in At(room, startEffects, events, n).log && Owes(At(room, startEffects, events, n), claims, s)
    ensures AllSpare(room, startEffects, events, n, k) <==> AllAgree(room, startEffects, events, n, k, claims, s)
    ensures s in At(room, startEffects, events, k).log
    ensures AllSpare(room, startEffects, events, n, k) ==> Owes(At(room, startEffects, events, k), claims, s)
    decreases k
  {
    hide Init, Run, Owes, Spares, AgreesAfter;
    if n < k {
      SceneSince(room, startEffects, events, n, k - 1, claims, s);
      assert s in At(room, startEffects, events, k).log;
      if AllSpare(room, startEffects, events, n, k - 1) {
        SceneNext(room, startEffects, events, n, k - 1, claims, s);
      }
    }
  }

  /** For every run and every client admitted by its event `n`: its claims were the bodies due
      and every later tick spared the clients, if and only if it started out showing what was
      due and agreed with the room on the scene's bodies at every tick boundary since. */
  lemma SceneAgreement(room: Room, startEffects: seq<Effect>, events: seq<Event>, n: nat, claims: set<NetId>,
      s: SessionId)
    requires room.Valid() && AllValid(events) && n < |events|
    requires Init(room, startEffects).nextEnt <= PLAYER_BASE && InRange(Run(room, startEffects, events))
    requires s !in Joined(At(room, startEffects, events, n)) && JoinedSince(room, startEffects, events, n + 1, s)
    ensures s in At(room, startEffects, events, n + 1).log
    ensures ClaimsFit(At(room, startEffects, events, n), claims)
            && AllSpare(room, startEffects, events, n + 1, |events|)
            <==> Owes(At(room, startEffects, events, n + 1), claims, s)
                 && AllAgree(room, startEffects, events, n + 1, |events|, claims, s)
  {
    hide Init, Run, Owes, Step, Inv, SceneInv, AllSpare, AllAgree, ClaimsFit;
    var st, st' := At(room, startEffects, events, n), At(room, startEffects, events, n + 1);
    RunKeepsScene(room, startEffects, events, n);
    AtStep(room, startEffects, events, n);
    AtInRange(room, startEffects, events, n + 1);
    assert s in Joined(st') && s in st'.log;
    AdmittedAgrees(st, events[n], room, claims, s);
    if Owes(st', claims, s) {
      SceneSince(room, startEffects, events, n + 1, |events|, claims, s);
    }
  }

  // ----- agreement at the boundaries alone -----

  /** When a tick leaves a client in agreement, whatever it showed before. Without a reset: apart from
      ids whose removal the tick announces it holds just those that stand. With one: it holds every
      recorded id that is to stand and not about to be announced, and any other only if it is. */
  ghost predicate TickFits(st: Server, ev: Event, room: Room, claims: set<NetId>, s: SessionId)
    requires ev.TickEvent? && ev.Valid() && s in st.log
  {
    var mid := BeforeReset(st, ev.dt, ev.effects, room, ev.order);
    var ents := FileEnts(room.file, mid.nextEnt);
    if !mid.resetRequested then
      forall id :: IsSceneId(id) && id !in mid.pending ==> (Holds(st, claims, s, id) <==> Live(mid, id))
    else
      && (forall k :: 0 <= k < |mid.sceneNetIds| ==>
            var id := mid.sceneNetIds[k];
            if k < |ents| then
              DestroyBody(ents[k]) in ev.startEffects || (Holds(st, claims, s, id) && id !in mid.pending)
            else Holds(st, claims, s, id) ==> id in mid.pending)
      && (forall id :: IsSceneId(id) && id !in mid.sceneNetIds && Holds(st, claims, s, id) ==> id in mid.pending)
  }

  /** Any joined client: a tick leaves it in agreement if and only if the tick fits it. */
  lemma TickAgreesWhen(st: Server, ev: Event, room: Room, claims: set<NetId>, s: SessionId)
    requires Inv(st, {}) && SceneInv(st) && room.Valid() && ev.TickEvent? && ev.Valid()
    requires s in Joined(st) && s in st.log && s in Step(st, ev, room).sessions
    ensures var st' := Step(st, ev, room);
            && s in Joined(st') && s in st'.log
            && (SceneAgrees(st', claims, s) <==> TickFits(st, ev, room, claims, s))
            && (SceneAgrees(st', claims, s) <==> Owes(st', claims, s))
  {
    hide Inv, Step, Live, BeforeReset, AfterReset, Replica, Joined, SceneInv, TickFits, Holds, PendingGone;
    TickEnds(st, ev, room);
    TickHolds(st, ev, room, claims, s, 0);
    forall id | IsSceneId(id)
      ensures id in Replica(Step(st, ev, room), claims, s).reps
              <==> Holds(st, claims, s, id)
                   && id !in AfterReset(st, ev.dt, ev.effects, ev.startEffects, room, ev.order).pending
    {
      TickHolds(st, ev, room, claims, s, id);
    }
    FitsWhen(st, ev, room, claims, s);
  }

  lemma TickEnds(st: Server, ev: Event, room: Room)
    requires Inv(st, {}) && SceneInv(st) && room.Valid() && ev.TickEvent? && ev.Valid()
    ensures var mid := BeforeReset(st, ev.dt, ev.effects, room, ev.order);
            var st2 := AfterReset(st, ev.dt, ev.effects, ev.startEffects, room, ev.order);
            var st' := Step(st, ev, room);
            && Inv(mid, {}) && PendingGone(mid) && st'.pending == []
            && forall id :: IsSceneId(id) ==> (Live(st2, id) <==> Live(st', id))
  {
    TickWorld(st, ev.dt, ev.effects, ev.startEffects, room, ev.order);
    assert Step(st, ev, room) == Tick(st, ev.dt, ev.effects, ev.startEffects, room, ev.order);
    hide Inv, Tick, Step, Live, BeforeReset, AfterReset, PendingGone;
    BeforeResetKeeps(st, ev.dt, ev.effects, room, ev.order, {});
  }

  /** The same condition in terms of what is left to show after the tick's announcements. */
  lemma FitsWhen(st: Server, ev: Event, room: Room, claims: set<NetId>, s: SessionId)
    requires ev.TickEvent? && ev.Valid() && room.Valid() && s in st.log
    requires var mid := BeforeReset(st, ev.dt, ev.effects, room, ev.order); Inv(mid, {}) && PendingGone(mid)
    ensures var st2 := AfterReset(st, ev.dt, ev.effects, ev.startEffects, room, ev.order);
            (forall id :: IsSceneId(id) ==> (Holds(st, claims, s, id) && id !in st2.pending <==> Live(st2, id)))
            <==> TickFits(st, ev, room, claims, s)
  {
    var mid := BeforeReset(st, ev.dt, ev.effects, room, ev.order);
    var st2 := ApplyPendingReset(mid, ev.startEffects, room, ev.order);
    if mid.resetRequested {
      var ids, ents := mid.sceneNetIds, FileEnts(room.file, mid.nextEnt);
      assert forall k :: 0 <= k < |ids| ==> IsSceneId(ids[k]);
      hide Inv, Live, BeforeReset, ApplyPendingReset, FileEnts, Holds;
      forall k | 0 <= k < |ids|
        ensures (Holds(st, claims, s, ids[k]) && ids[k] !in st2.pending <==> Live(st2, ids[k]))
                <==> if k < |ents| then DestroyBody(ents[k]) in ev.startEffects
                                        || (Holds(st, claims, s, ids[k]) && ids[k] !in mid.pending)
                     else Holds(st, claims, s, ids[k]) ==> ids[k] in mid.pending
      {
        ResetOnRecorded(mid, ev.startEffects, room, ev.order, k);
      }
      forall id | IsSceneId(id) && id !in ids
        ensures (Holds(st, claims, s, id) && id !in st2.pending <==> Live(st2, id))
                <==> (Holds(st, claims, s, id) ==> id in mid.pending)
      {
        ResetOnUnrecorded(mid, ev.startEffects, room, ev.order, id);
      }
    }
  }

  /** For every run and every client admitted by its event `n`, the first tick since being event `f`:
      it agrees with the room on the scene's bodies at every tick boundary since if and only if
      that first tick fits it and every later one spares the clients. */
  lemma BoundaryAgreement(room: Room, startEffects: seq<Effect>, events: seq<Event>, n: nat, f: nat,
      claims: set<NetId>, s: SessionId)
    requires room.Valid() && AllValid(events) && n < f < |events| && events[f].TickEvent?
    requires forall m :: n < m < f ==> !events[m].TickEvent?
    requires Init(room, startEffects).nextEnt <= PLAYER_BASE && InRange(Run(room, startEffects, events))
    requires JoinedSince(room, startEffects, events, n + 1, s)
    ensures s in At(room, startEffects, events, f).log
    ensures AllAgree(room, startEffects, events, n + 1, |events|, claims, s)
            <==> TickFits(At(room, startEffects, events, f), events[f], room, claims, s)
                 && AllSpare(room, startEffects, events, f + 1, |events|)
  {
    hide Init, Run, Owes, Step, Inv, SceneInv, TickFits, SceneAgrees, TickSpares;
    var st, st' := At(room, startEffects, events, f), At(room, startEffects, events, f + 1);
    RunKeepsScene(room, startEffects, events, f);
    AtStep(room, startEffects, events, f);
    assert s in Joined(st) && s in st.log && s in Joined(st') && s in st'.log;
    TickAgreesWhen(st, events[f], room, claims, s);
    assert AgreesAfter(room, startEffects, events, f, claims, s) <==> SceneAgrees(st', claims, s);
    if SceneAgrees(st', claims, s) {
      SceneSince(room, startEffects, events, f + 1, |events|, claims, s);
    }
    hide At;
    AgreeFrom(room, startEffects, events, n, f, claims, s);
  }

  lemma AgreeFrom(room: Room, startEffects: seq<Effect>, events: seq<Event>, n: nat, f: nat, claims: set<NetId>,
      s: SessionId)
    requires AllValid(events) && n < f < |events| && forall m :: n < m < f ==> !events[m].TickEvent?
    ensures AllAgree(room, startEffects, events, n + 1, |events|, claims, s)
            <==> AgreesAfter(room, startEffects, events, f, claims, s)
                 && AllAgree(room, startEffects, events, f + 1, |events|, claims, s)
  {
    hide At, SceneAgrees;
    assert forall m :: n < m < f ==> AgreesAfter(room, startEffects, events, m, claims, s);
  }

  /** What a stream has announced as removed stays removed for its client. */
  lemma {:induction false} RemovalIsFinal(room: Room, startEffects: seq<Effect>, events: seq<Event>, n: nat, k: nat,
      claims: set<NetId>, s: SessionId, id: NetId)
    requires room.Valid() && AllValid(events) && n <= k <= |events| && IsSceneId(id)
    requires Init(room, startEffects).nextEnt <= PLAYER_BASE && InRange(Run(room, startEffects, events))
    requires JoinedSince(room, startEffects, events, n, s)
    requires s in At(room, startEffects, events, n).log
    requires DespawnEntity(id) in At(room, startEffects, events, n).log[s]
    ensures var st := At(room, startEffects, events, k);
            s in st.log && DespawnEntity(id) in st.log[s] && id !in Replica(st, claims, s).reps
    decreases k
  {
    hide Init, Run, Step, Inv, SceneInv, Replica, Quiet;
    var st := At(room, startEffects, events, k);
    assert s in Joined(st) && s in st.log;
    RunKeepsScene(room, startEffects, events, k);
    Shown(st, claims, s, id);
    if n < k {
      RemovalIsFinal(room, startEffects, events, n, k - 1, claims, s, id);
      RunKeepsScene(room, startEffects, events, k - 1);
      AtStep(room, startEffects, events, k - 1);
      StepRemembers(At(room, startEffects, events, k - 1), events[k - 1], room, s, id);
    }
  }

  lemma StepRemembers(st: Server, ev: Event, room: Room, s: SessionId, id: NetId)
    requires Inv(st, {}) && room.Valid() && ev.Valid() && s in st.log && s in st.sessions
    requires s in Step(st, ev, room).log && s in Step(st, ev, room).sessions && DespawnEntity(id) in st.log[s]
    ensures DespawnEntity(id) in Step(st, ev, room).log[s]
  {
    hide Inv, Quiet, Tick, OnHello, OnConnect, OnDisconnect;
    if ev.TickEvent? {
      TickTells(st, ev.dt, ev.effects, ev.startEffects, room, ev.order, s, id);
    } else {
      StepQuiet(st, ev, room, s);
      QuietTells(Stream(st.log, s), Stream(Step(st, ev, room).log, s));
    }
  }
}
