/** The room server and the network client as objects updated in place, each method proved
    against its function in Replication. */
module GameServer {
  import opened Wrappers
  import opened Replication

  class Server {
    var sessions: map<SessionId, Session>
    var bodies: map<Ent, Body>
    var nextEnt: nat
    var nextPlayer: nat
    var nextSpawn: nat
    var spawned: seq<Spawned>
    var pending: seq<NetId>
    var sceneNetIds: seq<NetId>
    var resetRequested: bool
    var resettingScene: bool
    var clock: real
    var log: map<SessionId, seq<Message>>
    const room: Room

    ghost function State(): Replication.Server
      reads this
    {
      Replication.Server(sessions, bodies, nextEnt, nextPlayer, nextSpawn, spawned, pending, sceneNetIds,
                         resetRequested, clock, log)
    }

    constructor (room: Room, startEffects: seq<Effect>)
      ensures State() == Init(room, startEffects) && this.room == room && !resettingScene
    {
      this.room := room;
      sessions, bodies, log := map[], map[], map[];
      nextEnt, nextPlayer, nextSpawn := 1, 0, 0;
      spawned, pending, sceneNetIds := [], [], [];
      resetRequested, resettingScene, clock := false, false, 0.0;
      new;
      ReadFile();
      RunScriptEffects(startEffects);
      NumberScene(true);
    }

    // ----- the world -----

    method CreateBody(b: Body) returns (e: Ent)
      modifies this`bodies, this`nextEnt
      ensures e == old(nextEnt) && State() == AddBody(old(State()), b)
    {
      e := nextEnt;
      bodies := bodies[e := b];
      nextEnt := nextEnt + 1;
    }

    method OnNetIdDestroyed(netId: NetId)
      modifies this`pending
      ensures pending == NoteDestroyed(old(pending), Some(netId), resettingScene)
    {
      var sceneBody := netId < PLAYER_BASE;
      if sceneBody && resettingScene { return; }
      if sceneBody || netId >= SPAWN_BASE { pending := pending + [netId]; }
    }

    method DestroyEntity(e: Ent)
      requires e in bodies
      modifies this`bodies, this`pending
      ensures State() == RemoveBody(old(State()), e, resettingScene)
    {
      if bodies[e].netId.Some? { OnNetIdDestroyed(bodies[e].netId.value); }
      bodies := bodies - {e};
    }

    method ReadFile()
      modifies this`bodies, this`nextEnt
      ensures State() == LoadFile(old(State()), room.file)
    {
      var i := 0;
      while i < |room.file|
        invariant i <= |room.file|
        invariant LoadFile(State(), room.file[i..]) == LoadFile(old(State()), room.file)
      {
        assert room.file[i..][1..] == room.file[i + 1..];
        var _ := CreateBody(room.file[i]);
        i := i + 1;
      }
    }

    method RunScriptEffects(effects: seq<Effect>)
      requires !resettingScene
      modifies this`bodies, this`nextEnt, this`pending, this`resetRequested
      ensures State() == RunScripts(old(State()), effects)
    {
      var i := 0;
      while i < |effects|
        invariant i <= |effects|
        invariant RunScripts(State(), effects[i..]) == RunScripts(old(State()), effects)
      {
        assert effects[i..][1..] == effects[i + 1..];
        match effects[i] {
          case SpawnBody(dynamic, look) => var _ := CreateBody(Body(dynamic, None, look));
          case DestroyBody(e) => if e in bodies && !IsPlayerBody(bodies[e]) { DestroyEntity(e); }
          case RequestReset => resetRequested := true;
        }
        i := i + 1;
      }
    }

    static lemma GiveIdsStep(b: map<Ent, Body>, ents: seq<Ent>, ids: seq<NetId>, i: nat)
      requires i < |ents| && i < |ids| && forall k :: 0 <= k < |ents| ==> ents[k] in b
      ensures GiveIds(b, ents[i..], ids[i..]) == GiveIds(GiveId(b, ents[i], ids[i]), ents[i + 1..], ids[i + 1..])
    {
      assert ents[i..][1..] == ents[i + 1..] && ids[i..][1..] == ids[i + 1..];
    }

    static lemma GiveIdsDone(b: map<Ent, Body>, ents: seq<Ent>, ids: seq<NetId>, n: nat)
      requires n <= |ents| && n <= |ids| && (n == |ents| || n == |ids|) && forall k :: 0 <= k < |ents| ==> ents[k] in b
      ensures GiveIds(b, ents[n..], ids[n..]) == b
    {
    }

    /** The bodies without an id in ascending Identity order; first load records what it hands out. */
    method NumberScene(firstLoad: bool)
      modifies this`bodies, this`sceneNetIds
      ensures State() == AssignSceneNetIds(old(State()), firstLoad)
    {
      hide Ascending, GiveIds;
      var ents := Ascending(Unreplicated(bodies), 0, nextEnt);
      AscendingMembers(Unreplicated(bodies), 0, nextEnt);
      if firstLoad { sceneNetIds := []; }
      ghost var ids := if firstLoad then ents else sceneNetIds;
      var n := if firstLoad || |ents| <= |sceneNetIds| then |ents| else |sceneNetIds|;
      var i := 0;
      while i < n
        invariant i <= n && n <= |ents| && n <= |ids|
        invariant bodies.Keys == old(bodies.Keys)
        invariant GiveIds(bodies, ents[i..], ids[i..]) == GiveIds(old(bodies), ents, ids)
        invariant sceneNetIds == if firstLoad then ents[..i] else old(sceneNetIds)
      {
        GiveIdsStep(bodies, ents, ids, i);
        if firstLoad {
          bodies := GiveId(bodies, ents[i], ents[i]);
          sceneNetIds := sceneNetIds + [ents[i]];
        } else {
          bodies := GiveId(bodies, ents[i], sceneNetIds[i]);
        }
        i := i + 1;
      }
      GiveIdsDone(bodies, ents, ids, n);
    }

    // ----- sending -----

    /** One send per session of `to`, in whatever order. */
    method Broadcast(to: set<SessionId>, m: Message)
      modifies this`log
      ensures log == Send(old(log), to, m)
    {
      var todo := to;
      while todo != {}
        invariant todo <= to && log == Send(old(log), to - todo, m)
        decreases todo
      {
        var s :| s in todo;
        if s in log { log := log[s := log[s] + [m]]; }
        todo := todo - {s};
      }
      assert to - todo == to;
    }

    // ----- sessions -----

    method OnConnect(s: SessionId)
      modifies this`sessions, this`log
      ensures State() == Replication.OnConnect(old(State()), s)
    {
      if s !in sessions {
        sessions := sessions[s := UNJOINED];
        log := log[s := []];
      }
      sessions := sessions[s := sessions[s].(lastActive := clock)];
    }

    method DropSession(s: SessionId)
      requires s in sessions && !resettingScene
      modifies this`sessions, this`bodies, this`pending, this`log
      ensures State() == RemoveSession(old(State()), s)
    {
      var ses := sessions[s];
      if ses.spawned && ses.entity in bodies { DestroyEntity(ses.entity); }
      sessions := sessions - {s};
      log := log - {s};
      if ses.netId != 0 { Broadcast(log.Keys, PlayerLeave(ses.netId)); }
    }

    method OnDisconnect(s: SessionId)
      requires !resettingScene
      modifies this`sessions, this`bodies, this`pending, this`log
      ensures State() == Replication.OnDisconnect(old(State()), s)
    {
      if s in sessions { DropSession(s); }
    }

    method OnInput(s: SessionId)
      modifies this`sessions
      ensures State() == Touch(old(State()), s)
    {
      if s in sessions { sessions := sessions[s := sessions[s].(lastActive := clock)]; }
    }

    method CountSpawned() returns (n: nat)
      ensures n == |Joined(State())|
    {
      n := 0;
      ghost var joined := Joined(State());
      var todo := sessions.Keys;
      while todo != {}
        invariant todo <= sessions.Keys
        invariant n == |joined - todo|
        decreases todo
      {
        var s :| s in todo;
        if sessions[s].spawned {
          assert joined - (todo - {s}) == (joined - todo) + {s};
          n := n + 1;
        } else {
          assert joined - (todo - {s}) == joined - todo;
        }
        todo := todo - {s};
      }
      assert joined - todo == joined;
    }

    method OnHello(s: SessionId, versionOk: bool, name: Name, look: Look, effects: seq<Effect>, o: Order)
      requires Picks(o) && !resettingScene
      modifies this
      ensures State() == Replication.OnHello(old(State()), s, versionOk, name, look, effects, room, o)
      ensures !resettingScene
    {
      hide RunScripts, IntroduceAll, Replay, Send;
      OnInput(s);
      if !versionOk { return; }
      if s !in sessions {
        sessions := sessions[s := UNJOINED];
        log := log[s := []];
      }
      if sessions[s].spawned { return; }
      var active := CountSpawned();
      if active >= room.maxPlayers { return; }
      Admit(s, name, look, effects, o);
    }

    /** The newcomer's body, scripts, welcome, introductions and replay. */
    method Admit(s: SessionId, name: Name, look: Look, effects: seq<Effect>, o: Order)
      requires Picks(o) && !resettingScene && s in sessions
      modifies this
      ensures s in RunScripts(SpawnPlayer(old(State()), s, name, look), effects).sessions
      ensures var st2 := RunScripts(SpawnPlayer(old(State()), s, name, look), effects);
              var st3 := st2.(log := Send(st2.log, {s}, ServerWelcome(st2.sessions[s].netId)));
              var st4 := IntroduceAll(st3, s, st3.sessions.Keys - {s}, o);
              State() == Replay(st4, s, st4.spawned)
      ensures !resettingScene
    {
      hide RunScripts, IntroduceAll, Replay, Send;
      ghost var st1 := State();
      var netId := PLAYER_BASE + nextPlayer;
      nextPlayer := nextPlayer + 1;
      var e := CreateBody(Body(true, Some(netId), look));
      sessions := sessions[s := Session(netId, name, e, true, sessions[s].lastActive)];
      assert State() == SpawnPlayer(st1, s, name, look);
      ScriptsKeepSessions(State(), effects);
      RunScriptEffects(effects);
      Broadcast({s}, ServerWelcome(netId));
      MeetEveryone(s, o);
      ReplaySpawns(s);
    }

    /** The newcomer to the others, and the joined ones to the newcomer. */
    method MeetEveryone(s: SessionId, o: Order)
      requires Picks(o) && s in sessions
      modifies this`log
      ensures State() == IntroduceAll(old(State()), s, old(sessions.Keys) - {s}, o)
    {
      var todo := sessions.Keys - {s};
      while todo != {}
        invariant todo <= sessions.Keys
        invariant IntroduceAll(State(), s, todo, o) == IntroduceAll(old(State()), s, old(sessions.Keys) - {s}, o)
        decreases todo
      {
        var t := o(todo);
        Broadcast({t}, PlayerJoin(sessions[s].netId, sessions[s].name));
        if sessions[t].spawned { Broadcast({s}, PlayerJoin(sessions[t].netId, sessions[t].name)); }
        todo := todo - {t};
      }
    }

    method ReplaySpawns(s: SessionId)
      modifies this`log
      ensures State() == Replay(old(State()), s, old(spawned))
    {
      var i := 0;
      while i < |spawned|
        invariant i <= |spawned|
        invariant Replay(State(), s, spawned[i..]) == Replay(old(State()), s, old(spawned))
      {
        assert spawned[i..][1..] == spawned[i + 1..];
        Broadcast({s}, SpawnEntity(spawned[i].netId, spawned[i].look));
        i := i + 1;
      }
    }

    // ----- the tick -----

    method SweepIdleSessions(o: Order)
      requires Picks(o) && !resettingScene
      modifies this`sessions, this`bodies, this`pending, this`log
      ensures State() == RemoveSessions(old(State()), Idle(old(State()), room), o)
    {
      var dead := set s | s in sessions && clock - sessions[s].lastActive > room.idleTimeout;
      assert dead == Idle(State(), room);
      while dead != {}
        invariant dead <= sessions.Keys
        invariant RemoveSessions(State(), dead, o) == RemoveSessions(old(State()), Idle(old(State()), room), o)
        decreases dead
      {
        var s := o(dead);
        DropSession(s);
        dead := dead - {s};
      }
    }

    method ResetToInitial(spared: set<Ent>, o: Order)
      requires Picks(o) && resettingScene
      modifies this`bodies, this`nextEnt, this`pending
      ensures State() == LoadFile(DestroyAll(old(State()), old(bodies.Keys) - spared, o), room.file)
    {
      var victims := bodies.Keys - spared;
      while victims != {}
        invariant victims <= bodies.Keys
        invariant DestroyAll(State(), victims, o) == DestroyAll(old(State()), old(bodies.Keys) - spared, o)
        decreases victims
      {
        var e := o(victims);
        DestroyEntity(e);
        victims := victims - {e};
      }
      ReadFile();
    }

    method ResetScene(startEffects: seq<Effect>, o: Order)
      requires Picks(o) && !resettingScene
      modifies this
      ensures State() == ApplyPendingReset(old(State()), startEffects, room, o) && !resettingScene
    {
      if !resetRequested { return; }
      resetRequested := false;
      var alive := set s | s in sessions && sessions[s].spawned :: sessions[s].entity;
      assert alive == SparedEntities(State());
      resettingScene := true;
      ResetToInitial(alive, o);
      resettingScene := false;
      NumberScene(false);
      RunScriptEffects(startEffects);
    }

    method AnnounceBody(e: Ent)
      requires e in bodies
      modifies this`bodies, this`nextSpawn, this`spawned, this`log
      ensures State() == Announce(old(State()), e)
    {
      var netId, look := SPAWN_BASE + nextSpawn, bodies[e].look;
      nextSpawn := nextSpawn + 1;
      bodies := bodies[e := bodies[e].(netId := Some(netId))];
      spawned := spawned + [Spawned(netId, look)];
      Broadcast((set s | s in sessions && sessions[s].spawned), SpawnEntity(netId, look));
    }

    method DetectAndAnnounceSpawns(o: Order)
      requires Picks(o)
      modifies this`bodies, this`nextSpawn, this`spawned, this`log
      ensures State() == AnnounceAll(old(State()), Unreplicated(old(bodies)), o)
    {
      var freshBodies := Unreplicated(bodies);
      while freshBodies != {}
        invariant freshBodies <= bodies.Keys
        invariant AnnounceAll(State(), freshBodies, o) == AnnounceAll(old(State()), Unreplicated(old(bodies)), o)
        decreases freshBodies
      {
        var e := o(freshBodies);
        AnnounceBody(e);
        freshBodies := freshBodies - {e};
      }
    }

    method Forget(netId: NetId)
      modifies this`spawned
      ensures spawned == Without(old(spawned), netId)
    {
      var kept, i := [], 0;
      while i < |spawned|
        invariant i <= |spawned| && kept + Without(spawned[i..], netId) == Without(spawned, netId)
      {
        assert spawned[i..][1..] == spawned[i + 1..];
        if spawned[i].netId != netId { kept := kept + [spawned[i]]; }
        i := i + 1;
      }
      spawned := kept;
    }

    method FlushPending()
      modifies this`pending, this`spawned, this`log
      ensures State() == FlushDespawns(old(State()))
    {
      hide Without, Send;
      ghost var queue := pending;
      var i := 0;
      while i < |pending|
        invariant i <= |pending| && pending == queue
        invariant FlushDespawns(State().(pending := pending[i..])) == FlushDespawns(old(State()))
      {
        assert pending[i..][1..] == pending[i + 1..];
        Forget(pending[i]);
        Broadcast((set s | s in sessions && sessions[s].spawned), DespawnEntity(pending[i]));
        i := i + 1;
      }
      pending := [];
    }

    method Tick(dt: real, effects: seq<Effect>, startEffects: seq<Effect>, o: Order)
      requires Picks(o) && !resettingScene
      modifies this
      ensures State() == Replication.Tick(old(State()), dt, effects, startEffects, room, o) && !resettingScene
    {
      hide RunScripts, RemoveSessions, ApplyPendingReset, AnnounceAll, FlushDespawns, Unreplicated;
      clock := clock + dt;
      SweepIdleSessions(o);
      RunScriptEffects(effects);
      ResetScene(startEffects, o);
      DetectAndAnnounceSpawns(o);
      FlushPending();
    }
  }

  class NetClient {
    var joined: bool
    var me: NetId
    var reps: map<NetId, Rep>

    ghost function State(): Client
      reads this
    {
      Client(joined, me, reps)
    }

    /** The scene's own bodies are claimed when the scene is loaded. */
    constructor (claims: set<NetId>)
      ensures State() == FreshClient(claims)
    {
      joined, me := false, 0;
      reps := map id | id in claims :: Claimed;
    }

    method EnsurePlayerAvatar(id: NetId)
      modifies this`reps
      ensures reps == if id in old(reps) then old(reps) else old(reps)[id := Avatar([])]
    {
      if id !in reps { reps := reps[id := Avatar([])]; }
    }

    /** Only avatars have a nametag. */
    method SetAvatarName(id: NetId, name: Name)
      modifies this`reps
      ensures reps == if id in old(reps) && old(reps)[id].Avatar? then old(reps)[id := Avatar(name)] else old(reps)
    {
      if id in reps && reps[id].Avatar? { reps := reps[id := Avatar(name)]; }
    }

    method RemoveRep(id: NetId)
      modifies this`reps
      ensures reps == old(reps) - {id}
    {
      reps := reps - {id};
    }

    method Handle(m: Message)
      modifies this
      ensures State() == Receive(old(State()), m)
    {
      match m
      case ServerWelcome(id) =>
        me, joined := id, true;
      case PlayerJoin(id, name) =>
        if id != me {
          EnsurePlayerAvatar(id);
          SetAvatarName(id, name);
        }
      case PlayerLeave(id) =>
        RemoveRep(id);
      case SpawnEntity(id, look) =>
        if id !in reps { reps := reps[id := Proxy(look)]; }
      case DespawnEntity(id) =>
        RemoveRep(id);
    }

    /** Drains the queue of received messages. */
    method ProcessIncoming(queue: seq<Message>)
      modifies this
      ensures State() == Fold(old(State()), queue)
    {
      var i := 0;
      while i < |queue|
        invariant i <= |queue| && State() == Fold(old(State()), queue[..i])
      {
        Handle(queue[i]);
        assert queue[..i + 1][..i] == queue[..i];
        i := i + 1;
      }
      assert queue[..i] == queue;
    }
  }
}
