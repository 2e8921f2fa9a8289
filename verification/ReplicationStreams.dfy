/** What the server's operations tell clients about the scene's own bodies, and what they do to
    them: between ticks nothing is said, and ids only move from the living to the pending. */
module ReplicationStreams {
  import opened Wrappers
  import opened Replication
  import opened ReplicationSafety

  predicate IsSceneId(id: NetId) { id < PLAYER_BASE }

  // ----- what a stream says about the scene -----

  /** Only DespawnEntity ever names a body of the scene. */
  predicate Polite(m: Message) {
    m.PlayerJoin? || m.PlayerLeave? || m.SpawnEntity? ==> !IsSceneId(m.netId)
  }

  ghost predicate AllPolite(log: seq<Message>) {
    forall m :: m in log ==> Polite(m)
  }

  function Stream(log: map<SessionId, seq<Message>>, t: SessionId): seq<Message> {
    if t in log then log[t] else []
  }

  /** The stream was continued without a word on the scene. */
  ghost predicate Quiet(log: seq<Message>, log': seq<Message>) {
    && |log| <= |log'| && log'[..|log|] == log
    && forall i :: |log| <= i < |log'| ==> Polite(log'[i]) && !log'[i].DespawnEntity?
  }

  lemma {:induction false} FoldScene(claims: set<NetId>, log: seq<Message>, id: NetId)
    requires AllPolite(log) && IsSceneId(id)
    ensures var c := Fold(FreshClient(claims), log);
            && (id in c.reps <==> id in claims && DespawnEntity(id) !in log)
            && (id in c.reps ==> c.reps[id] == Claimed)
    decreases |log|
  {
    if log != [] {
      var last := |log| - 1;
      assert log == log[..last] + [log[last]];
      assert log[last] in log && forall m :: m in log[..last] ==> m in log;
      FoldScene(claims, log[..last], id);
      assert DespawnEntity(id) in log <==> DespawnEntity(id) in log[..last] || log[last] == DespawnEntity(id);
    }
  }

  lemma QuietSelf(log: seq<Message>)
    ensures Quiet(log, log)
  {
  }

  lemma QuietJoin(a: seq<Message>, b: seq<Message>, c: seq<Message>)
    requires Quiet(a, b) && Quiet(b, c)
    ensures Quiet(a, c)
  {
    assert c[..|a|] == b[..|a|];
    forall i | |a| <= i < |c| ensures Polite(c[i]) && !c[i].DespawnEntity? {
      if i < |b| { assert c[i] == c[..|b|][i]; }
    }
  }

  lemma QuietTells(log: seq<Message>, log': seq<Message>)
    requires Quiet(log, log')
    ensures AllPolite(log) ==> AllPolite(log')
    ensures forall id :: DespawnEntity(id) in log' <==> DespawnEntity(id) in log
  {
    forall m | m in log' ensures m in log || (Polite(m) && !m.DespawnEntity?) {
      var i :| 0 <= i < |log'| && log'[i] == m;
      if i < |log| { assert log'[..|log|][i] == m; }
    }
    forall m | m in log ensures m in log' {
      var i :| 0 <= i < |log| && log[i] == m;
      assert log'[..|log|][i] == log'[i];
    }
  }

  lemma SendQuiet(log: map<SessionId, seq<Message>>, to: set<SessionId>, m: Message, t: SessionId)
    requires Polite(m) && !m.DespawnEntity?
    ensures Quiet(Stream(log, t), Stream(Send(log, to, m), t))
  {
  }

  // ----- which operations leave the streams quiet -----

  ghost predicate PlayersNamed(st: Server) {
    forall s :: s in st.sessions && st.sessions[s].spawned ==> !IsSceneId(st.sessions[s].netId)
  }

  lemma {:induction false} IntroduceAllQuiet(st: Server, s: SessionId, others: set<SessionId>, o: Order, t: SessionId)
    requires Picks(o) && s in st.sessions && others <= st.sessions.Keys && PlayersNamed(st) && st.sessions[s].spawned
    ensures Quiet(Stream(st.log, t), Stream(IntroduceAll(st, s, others, o).log, t))
    decreases others
  {
    if others != {} {
      var x := o(others);
      var me, them := st.sessions[s], st.sessions[x];
      var log1 := Send(st.log, {x}, PlayerJoin(me.netId, me.name));
      SendQuiet(st.log, {x}, PlayerJoin(me.netId, me.name), t);
      var st1 := Introduce(st, s, x);
      if them.spawned {
        SendQuiet(log1, {s}, PlayerJoin(them.netId, them.name), t);
        QuietJoin(Stream(st.log, t), Stream(log1, t), Stream(st1.log, t));
      }
      hide Quiet, Send;
      IntroduceAllQuiet(st1, s, others - {x}, o, t);
      QuietJoin(Stream(st.log, t), Stream(st1.log, t), Stream(IntroduceAll(st, s, others, o).log, t));
    }
  }

  lemma {:induction false} ReplayQuiet(st: Server, s: SessionId, spawns: seq<Spawned>, t: SessionId)
    requires forall x :: x in spawns ==> IsSpawnId(x.netId)
    ensures Quiet(Stream(st.log, t), Stream(Replay(st, s, spawns).log, t))
    decreases |spawns|
  {
    if spawns != [] {
      var m := SpawnEntity(spawns[0].netId, spawns[0].look);
      var st1 := st.(log := Send(st.log, {s}, m));
      SendQuiet(st.log, {s}, m, t);
      hide Quiet, Send;
      ReplayQuiet(st1, s, spawns[1..], t);
      QuietJoin(Stream(st.log, t), Stream(st1.log, t), Stream(Replay(st, s, spawns).log, t));
    }
  }

  /** The replay list as messages. */
  function Spawnings(spawns: seq<Spawned>): seq<Message> {
    seq(|spawns|, i requires 0 <= i < |spawns| => SpawnEntity(spawns[i].netId, spawns[i].look))
  }

  /** The newcomer alone is sent every entry of the list once, in order. */
  lemma {:induction false} ReplaySends(st: Server, s: SessionId, spawns: seq<Spawned>, t: SessionId)
    requires t in st.log
    ensures var log := Replay(st, s, spawns).log;
            t in log && log[t] == if t == s then st.log[t] + Spawnings(spawns) else st.log[t]
    decreases |spawns|
  {
    if spawns == [] {
      assert Spawnings(spawns) == [];
    } else {
      var m := SpawnEntity(spawns[0].netId, spawns[0].look);
      ReplaySends(st.(log := Send(st.log, {s}, m)), s, spawns[1..], t);
      assert Spawnings(spawns) == [m] + Spawnings(spawns[1..]);
      assert st.log[t] + [m] + Spawnings(spawns[1..]) == st.log[t] + Spawnings(spawns);
    }
  }

  lemma {:induction false} AnnounceAllQuiet(st: Server, todo: set<Ent>, o: Order, t: SessionId)
    requires Picks(o) && todo <= st.bodies.Keys
    ensures Quiet(Stream(st.log, t), Stream(AnnounceAll(st, todo, o).log, t))
    decreases todo
  {
    if todo != {} {
      var e := o(todo);
      var st1 := Announce(st, e);
      SendQuiet(st.log, Joined(st), SpawnEntity(SPAWN_BASE + st.nextSpawn, st.bodies[e].look), t);
      hide Quiet, Send, Joined;
      AnnounceAllQuiet(st1, todo - {e}, o, t);
      QuietJoin(Stream(st.log, t), Stream(st1.log, t), Stream(AnnounceAll(st, todo, o).log, t));
    }
  }

  lemma RemoveSessionQuiet(st: Server, s: SessionId, t: SessionId)
    requires Inv(st, {}) && s in st.sessions && t != s
    ensures Quiet(Stream(st.log, t), Stream(RemoveSession(st, s).log, t))
  {
    hide ClientsOk, WorldOk, RosterOk;
    var id := st.sessions[s].netId;
    if id != 0 { SendQuiet(st.log - {s}, (st.log - {s}).Keys, PlayerLeave(id), t); }
  }

  lemma HelloQuiet(st: Server, s: SessionId, ok: bool, name: Name, look: Look, effects: seq<Effect>,
      room: Room, o: Order, t: SessionId)
    requires Inv(st, {}) && Picks(o)
    ensures Quiet(Stream(st.log, t), Stream(OnHello(st, s, ok, name, look, effects, room, o).log, t))
  {
    var st0 := Touch(st, s);
    var st1 := if s in st0.sessions then st0
               else st0.(sessions := st0.sessions[s := UNJOINED], log := st0.log[s := []]);
    assert PlayersNamed(st1) && RosterOk(st) && st1.spawned == st.spawned && Stream(st1.log, t) == Stream(st.log, t);
    SpawnsAreSpawns(st);
    hide Inv, WorldOk, RosterOk, ClientsOk, SessionsOk, IntroduceAll, Replay, RunScripts, Quiet, SpawnPlayer;
    QuietSelf(Stream(st.log, t));
    if ok && !st1.sessions[s].spawned && |Joined(st1)| < room.maxPlayers {
      ScriptsKeepSessions(SpawnPlayer(st1, s, name, look), effects);
      AdmissionQuiet(st1, s, name, look, effects, o, t);
    }
  }

  lemma AdmissionQuiet(st: Server, s: SessionId, name: Name, look: Look, effects: seq<Effect>, o: Order, t: SessionId)
    requires Picks(o) && s in st.sessions && PlayersNamed(st) && forall x :: x in st.spawned ==> IsSpawnId(x.netId)
    ensures var st2 := RunScripts(SpawnPlayer(st, s, name, look), effects);
            s in st2.sessions
            && var st3 := st2.(log := Send(st2.log, {s}, ServerWelcome(st2.sessions[s].netId)));
            var st4 := IntroduceAll(st3, s, st3.sessions.Keys - {s}, o);
            Quiet(Stream(st.log, t), Stream(Replay(st4, s, st4.spawned).log, t))
  {
    hide IntroduceAll, Replay, RunScripts, Send, Quiet;
    ScriptsKeepSessions(SpawnPlayer(st, s, name, look), effects);
    var st2 := RunScripts(SpawnPlayer(st, s, name, look), effects);
    var m := ServerWelcome(st2.sessions[s].netId);
    var st3 := st2.(log := Send(st2.log, {s}, m));
    SendQuiet(st2.log, {s}, m, t);
    assert PlayersNamed(st3);
    hide PlayersNamed, SpawnPlayer;
    IntroduceAllQuiet(st3, s, st3.sessions.Keys - {s}, o, t);
    var st4 := IntroduceAll(st3, s, st3.sessions.Keys - {s}, o);
    ReplayQuiet(st4, s, st4.spawned, t);
    QuietJoin(Stream(st.log, t), Stream(st3.log, t), Stream(st4.log, t));
    QuietJoin(Stream(st.log, t), Stream(st4.log, t), Stream(Replay(st4, s, st4.spawned).log, t));
  }

  /** Between ticks nobody hears anything about the scene. */
  lemma StepQuiet(st: Server, ev: Event, room: Room, t: SessionId)
    requires Inv(st, {}) && ev.Valid() && !ev.TickEvent? && t in Step(st, ev, room).log
    ensures Quiet(Stream(st.log, t), Stream(Step(st, ev, room).log, t))
  {
    hide WorldOk, ClientsOk, RosterOk, OnHello;
    match ev
    case Hello(s, ok, name, look, effects, o) => HelloQuiet(st, s, ok, name, look, effects, room, o, t);
    case Disconnect(s) => if s in st.sessions { RemoveSessionQuiet(st, s, t); }
    case _ =>
  }

  /** A tick's announcements end with the pending removals, told to everyone joined. */
  lemma {:induction false} FlushTells(st: Server, t: SessionId, id: NetId)
    requires t in st.log
    ensures var log' := FlushDespawns(st).log;
            && t in log' && (AllPolite(st.log[t]) ==> AllPolite(log'[t]))
            && (DespawnEntity(id) in log'[t]
                <==> DespawnEntity(id) in st.log[t] || (t in Joined(st) && id in st.pending))
    decreases |st.pending|
  {
    if st.pending != [] {
      var st1 := FlushOne(st);
      assert Joined(st1) == Joined(st);
      hide Without, Joined;
      FlushTells(st1, t, id);
      assert id in st.pending <==> id == st.pending[0] || id in st1.pending;
      assert t in Joined(st) ==> st1.log[t] == st.log[t] + [DespawnEntity(st.pending[0])];
    }
  }

  // ----- what happens to the scene's bodies -----

  /** A body of this id stands in the room and is destroyed by the script. */
  ghost predicate Killed(st: Server, effects: seq<Effect>, id: NetId) {
    exists e :: e in st.bodies && st.bodies[e].netId == Some(id) && DestroyBody(e) in effects
  }

  lemma EffectOnScene(st: Server, x: Effect, id: NetId)
    requires WorldOk(st) && IsSceneId(id)
    ensures var st' := RunEffect(st, x);
            && (Live(st', id) <==> Live(st, id) && !Killed(st, [x], id))
            && (id in st'.pending <==> id in st.pending || Killed(st, [x], id))
  {
    var st' := RunEffect(st, x);
    forall e | e in st.bodies && st.bodies[e].netId == Some(id) && x != DestroyBody(e) ensures Live(st', id) {
      assert e in st'.bodies && st'.bodies[e] == st.bodies[e];
    }
    forall e | e in st'.bodies && st'.bodies[e].netId == Some(id) ensures Live(st, id) {
      assert e in st.bodies && st'.bodies[e] == st.bodies[e];
    }
  }

  lemma KilledSplit(st: Server, effects: seq<Effect>, id: NetId)
    requires effects != [] && forall e :: e in st.bodies ==> e < st.nextEnt
    ensures Killed(st, effects, id)
            <==> Killed(st, [effects[0]], id) || Killed(RunEffect(st, effects[0]), effects[1..], id)
  {
    var x, st1 := effects[0], RunEffect(st, effects[0]);
    assert forall y :: y in effects <==> y == x || y in effects[1..];
    forall e | e in st.bodies && st.bodies[e].netId == Some(id) && DestroyBody(e) in effects && x != DestroyBody(e)
      ensures Killed(st1, effects[1..], id)
    {
      assert e in st1.bodies && st1.bodies[e] == st.bodies[e];
    }
    forall e | e in st1.bodies && st1.bodies[e].netId == Some(id)
      ensures e in st.bodies && st.bodies[e] == st1.bodies[e]
    {
    }
  }

  /** Scripts move the ids of the bodies they destroy from the living to the pending. */
  lemma {:induction false} ScriptsOnScene(st: Server, effects: seq<Effect>, id: NetId)
    requires RoomOk(st) && IsSceneId(id)
    ensures var st' := RunScripts(st, effects);
            && (Live(st', id) <==> Live(st, id) && !Killed(st, effects, id))
            && (id in st'.pending <==> id in st.pending || Killed(st, effects, id))
    decreases |effects|
  {
    if effects != [] {
      EffectOnScene(st, effects[0], id);
      EffectKeepsRoom(st, effects[0]);
      KilledSplit(st, effects, id);
      hide RoomOk, RunEffect, Live, Killed;
      KilledLives(st, effects, id);
      ScriptsOnScene(RunEffect(st, effects[0]), effects[1..], id);
    }
  }

  lemma KilledLives(st: Server, effects: seq<Effect>, id: NetId)
    ensures Killed(st, effects, id) ==> Live(st, id)
  {
  }

  // ----- owed and settled -----

  /** No removal waits to be announced of a body that stands in the room. */
  ghost predicate PendingGone(st: Server) {
    forall id :: id in st.pending && IsSceneId(id) ==> !Live(st, id)
  }

  /** Scene ids that clients should be showing: the living, and the dead not yet announced. */
  ghost predicate Due(st: Server, id: NetId) { Live(st, id) || id in st.pending }

  /** The step may have moved scene ids from the living to the pending, and did nothing else to them. */
  ghost predicate Settles(st: Server, st': Server) {
    && (forall id :: IsSceneId(id) ==> (Due(st, id) <==> Due(st', id)))
    && (PendingGone(st) ==> PendingGone(st'))
  }

  lemma ScriptsSettle(st: Server, effects: seq<Effect>)
    requires RoomOk(st)
    ensures Settles(st, RunScripts(st, effects))
  {
    var st' := RunScripts(st, effects);
    hide RoomOk, Live, Killed, RunScripts;
    forall id | IsSceneId(id)
      ensures Due(st, id) <==> Due(st', id)
      ensures PendingGone(st) && id in st'.pending ==> !Live(st', id)
    {
      ScriptsOnScene(st, effects, id);
      KilledLives(st, effects, id);
    }
  }

  /** Neither the living nor the pending scene ids changed. */
  ghost predicate SceneSame(st: Server, st': Server) {
    forall id :: IsSceneId(id) ==> (Live(st, id) <==> Live(st', id)) && (id in st.pending <==> id in st'.pending)
  }

  lemma RemoveSessionScene(st: Server, s: SessionId)
    requires Inv(st, {}) && s in st.sessions
    ensures SceneSame(st, RemoveSession(st, s))
  {
    hide ClientsOk, WorldOk, RosterOk;
    var st' := RemoveSession(st, s);
    var p := st.sessions[s];
    forall id: NetId, e: Ent | IsSceneId(id) && e in st.bodies && st.bodies[e].netId == Some(id) ensures Live(st', id) {
      assert e in st'.bodies && st'.bodies[e] == st.bodies[e];
    }
    forall id: NetId, e: Ent | IsSceneId(id) && e in st'.bodies && st'.bodies[e].netId == Some(id)
      ensures Live(st, id)
    {
      assert e in st.bodies && st'.bodies[e] == st.bodies[e];
    }
  }

  lemma SpawnPlayerScene(st: Server, s: SessionId, name: Name, look: Look)
    requires WorldOk(st) && s in st.sessions
    ensures SceneSame(st, SpawnPlayer(st, s, name, look))
  {
    var st' := SpawnPlayer(st, s, name, look);
    forall id: NetId, e: Ent | IsSceneId(id) && e in st.bodies && st.bodies[e].netId == Some(id) ensures Live(st', id) {
      assert e in st'.bodies && st'.bodies[e] == st.bodies[e];
    }
    forall id: NetId, e: Ent | IsSceneId(id) && e in st'.bodies && st'.bodies[e].netId == Some(id)
      ensures Live(st, id)
    {
      assert e in st.bodies && st'.bodies[e] == st.bodies[e];
    }
  }

  lemma AnnounceScene(st: Server, e: Ent)
    requires e in st.bodies && st.bodies[e].netId.None?
    ensures SceneSame(st, Announce(st, e))
  {
    AnnounceLive(st, e);
  }

  lemma {:induction false} RemoveSessionsScene(st: Server, dead: set<SessionId>, o: Order)
    requires Inv(st, {}) && Picks(o) && dead <= st.sessions.Keys
    ensures SceneSame(st, RemoveSessions(st, dead, o))
    decreases dead
  {
    hide Inv, Live, RemoveSession;
    if dead != {} {
      var s := o(dead);
      RemoveSessionScene(st, s);
      RemoveSessionKeeps(st, s, {});
      RemoveSessionsScene(RemoveSession(st, s), dead - {s}, o);
    }
  }

  lemma {:induction false} RemoveSessionsQuiet(st: Server, dead: set<SessionId>, o: Order, t: SessionId)
    requires Inv(st, {}) && Picks(o) && dead <= st.sessions.Keys && t !in dead
    ensures Quiet(Stream(st.log, t), Stream(RemoveSessions(st, dead, o).log, t))
    decreases dead
  {
    hide Inv, Quiet, RemoveSession;
    if dead == {} {
      QuietSelf(Stream(st.log, t));
    } else {
      var s := o(dead);
      RemoveSessionQuiet(st, s, t);
      RemoveSessionKeeps(st, s, {});
      RemoveSessionsQuiet(RemoveSession(st, s), dead - {s}, o, t);
      QuietJoin(Stream(st.log, t), Stream(RemoveSession(st, s).log, t), Stream(RemoveSessions(st, dead, o).log, t));
    }
  }

  lemma {:induction false} AnnounceAllScene(st: Server, todo: set<Ent>, o: Order)
    requires Inv(st, {}) && Picks(o) && todo <= st.bodies.Keys && forall e :: e in todo ==> st.bodies[e].netId.None?
    ensures SceneSame(st, AnnounceAll(st, todo, o))
    decreases todo
  {
    hide Inv, Live;
    if todo != {} {
      var e := o(todo);
      AnnounceScene(st, e);
      AnnounceKeeps(st, e, {});
      assert AnnounceAll(st, todo, o) == AnnounceAll(Announce(st, e), todo - {e}, o);
      AnnounceAllScene(Announce(st, e), todo - {e}, o);
    }
  }

  lemma HelloSettles(st: Server, s: SessionId, ok: bool, name: Name, look: Look, effects: seq<Effect>,
      room: Room, o: Order)
    requires Inv(st, {}) && Picks(o) && InRange(OnHello(st, s, ok, name, look, effects, room, o))
    ensures Settles(st, OnHello(st, s, ok, name, look, effects, room, o))
  {
    hide ClientsOk, IntroduceAll, Replay, RunScripts, Live, WorldOk, RosterOk, SessionsOk;
    var st0 := Touch(st, s);
    LiveByBodies(st, st0);
    TouchKeeps(st, s, {});
    if ok {
      var st1 := if s in st0.sessions then st0
                 else st0.(sessions := st0.sessions[s := UNJOINED], log := st0.log[s := []]);
      LiveByBodies(st, st1);
      if s !in st0.sessions { NewSessionKeeps(st0, s, 0.0, {}); }
      if !st1.sessions[s].spawned && |Joined(st1)| < room.maxPlayers {
        var st2 := SpawnPlayer(st1, s, name, look);
        ScriptsKeepSessions(st2, effects);
        SpawnPlayerScene(st1, s, name, look);
        SpawnPlayerRoster(st1, s, name, look);
        ScriptsSettle(st2, effects);
        LiveByBodies(RunScripts(st2, effects), OnHello(st, s, ok, name, look, effects, room, o));
      }
    }
  }

  lemma LiveByBodies(st: Server, st': Server)
    requires st'.bodies == st.bodies
    ensures forall id :: Live(st, id) <==> Live(st', id)
  {
  }

  lemma StepSettles(st: Server, ev: Event, room: Room)
    requires Inv(st, {}) && ev.Valid() && !ev.TickEvent? && InRange(Step(st, ev, room))
    ensures Settles(st, Step(st, ev, room))
  {
    hide ClientsOk, WorldOk, RosterOk, Live, OnHello, RemoveSession;
    match ev
    case Connect(s) => LiveByBodies(st, OnConnect(st, s));
    case Disconnect(s) => if s in st.sessions { RemoveSessionScene(st, s); }
    case Hello(s, ok, name, look, effects, o) => HelloSettles(st, s, ok, name, look, effects, room, o);
    case Input(s) => LiveByBodies(st, Touch(st, s));
    case AskReset => LiveByBodies(st, st.(resetRequested := true));
  }
}
