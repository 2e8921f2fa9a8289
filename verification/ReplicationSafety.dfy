/** What every run of a room keeps: ids stay distinct and in their ranges, and every
    client's replica is what its stream has told it about the room. */
module ReplicationSafety {
  import opened Wrappers
  import opened Replication

  // ----- the invariant -----

  /** The player counter has not run into the spawn range. */
  predicate InRange(st: Server) { st.nextPlayer <= SPAWN_BASE - PLAYER_BASE }

  ghost predicate IdOk(st: Server, id: NetId) {
    || (id < PLAYER_BASE && id in st.sceneNetIds)
    || (PLAYER_BASE <= id < PLAYER_BASE + st.nextPlayer)
    || (SPAWN_BASE <= id < SPAWN_BASE + st.nextSpawn)
  }

  ghost predicate WorldOk(st: Server) {
    && (forall e :: e in st.bodies ==> e < st.nextEnt)
    && (forall e :: e in st.bodies && st.bodies[e].netId.Some? ==> IdOk(st, st.bodies[e].netId.value))
    && (forall e, f :: e in st.bodies && f in st.bodies && e != f && st.bodies[e].netId.Some?
          ==> st.bodies[e].netId != st.bodies[f].netId)
    && (forall i, j :: 0 <= i < j < |st.sceneNetIds| ==> st.sceneNetIds[i] != st.sceneNetIds[j])
    && (forall i :: 0 <= i < |st.sceneNetIds| ==> st.sceneNetIds[i] < PLAYER_BASE)
  }

  ghost predicate SessionsOk(st: Server) {
    && st.log.Keys == st.sessions.Keys
    && (forall s :: s in st.sessions ==>
          var p := st.sessions[s];
          if p.spawned then
            p.entity in st.bodies && st.bodies[p.entity].netId == Some(p.netId)
            && PLAYER_BASE <= p.netId < PLAYER_BASE + st.nextPlayer
          else p.netId == 0)
    && (forall s, t :: s in st.sessions && t in st.sessions && s != t
          && st.sessions[s].spawned && st.sessions[t].spawned
          ==> st.sessions[s].entity != st.sessions[t].entity)
  }

  ghost predicate Live(st: Server, id: NetId) {
    exists e :: e in st.bodies && st.bodies[e].netId == Some(id)
  }

  ghost predicate RosterOk(st: Server) {
    && (forall i, j :: 0 <= i < j < |st.spawned| ==> st.spawned[i].netId != st.spawned[j].netId)
    && (forall x :: x in st.spawned ==> SPAWN_BASE <= x.netId < SPAWN_BASE + st.nextSpawn)
    && (forall e :: e in st.bodies && st.bodies[e].netId.Some? && IsSpawnId(st.bodies[e].netId.value)
          ==> Spawned(st.bodies[e].netId.value, st.bodies[e].look) in st.spawned)
    && (forall x :: x in st.spawned ==> x.netId in st.pending || Live(st, x.netId))
    && (forall id :: id in st.pending ==>
          !IsPlayerId(id) && (IsSpawnId(id) ==> !Live(st, id) && id < SPAWN_BASE + st.nextSpawn))
  }

  ghost predicate Owns(st: Server, t: SessionId, id: NetId) {
    t in st.sessions && st.sessions[t].spawned && st.sessions[t].netId == id
  }

  /** What the client of session `s` may show in the player range: current players other than
      itself, under their names. */
  ghost predicate ShowsOnlyPlayers(st: Server, s: SessionId, c: Client) {
    forall id :: id in c.reps && IsPlayerId(id) ==>
      exists t :: t != s && Owns(st, t, id) && c.reps[id] == Avatar(st.sessions[t].name)
  }

  /** And in the spawn range: the objects in `known`. */
  ghost predicate ShowsOnlySpawns(c: Client, known: seq<Spawned>) {
    forall id :: id in c.reps && IsSpawnId(id) ==> exists x :: x in known && x.netId == id
  }

  /** What it must show: the players outside `unmet` and the objects in `known`. */
  ghost predicate Shows(st: Server, s: SessionId, c: Client, unmet: set<SessionId>, known: seq<Spawned>) {
    && (forall t :: t in st.sessions && t != s && t !in unmet && st.sessions[t].spawned ==>
          st.sessions[t].netId in c.reps && c.reps[st.sessions[t].netId] == Avatar(st.sessions[t].name))
    && (forall x :: x in known ==> x.netId in c.reps && c.reps[x.netId] == Proxy(x.look))
  }

  ghost predicate NoSpawns(c: Client) {
    forall id :: id in c.reps ==> !IsSpawnId(id)
  }

  ghost predicate Mirrors(st: Server, s: SessionId, c: Client, unmet: set<SessionId>, known: seq<Spawned>)
    requires s in st.sessions
  {
    && c.joined == st.sessions[s].spawned && c.me == st.sessions[s].netId
    && ShowsOnlyPlayers(st, s, c) && ShowsOnlySpawns(c, known)
    && (if st.sessions[s].spawned then Shows(st, s, c, unmet, known) else NoSpawns(c))
  }

  /** The replica of session `s`: a fresh client after reading its whole stream. */
  ghost function Replica(st: Server, claims: set<NetId>, s: SessionId): Client
    requires s in st.log
  {
    Fold(FreshClient(claims), st.log[s])
  }

  ghost predicate ClientsOk(st: Server, claims: set<NetId>)
    requires st.log.Keys == st.sessions.Keys
  {
    forall s :: s in st.sessions ==> Mirrors(st, s, Replica(st, claims, s), {}, st.spawned)
  }

  /** The scene bodies a client claims have scene ids. */
  ghost predicate SceneClaims(claims: set<NetId>) {
    forall id :: id in claims ==> id < PLAYER_BASE
  }

  ghost predicate Inv(st: Server, claims: set<NetId>) {
    InRange(st) && SceneClaims(claims) && WorldOk(st) && SessionsOk(st) && RosterOk(st) && ClientsOk(st, claims)
  }

  // ----- one message -----

  lemma FoldAppend(c: Client, log: seq<Message>, m: Message)
    ensures Fold(c, log + [m]) == Receive(Fold(c, log), m)
  {
    assert (log + [m])[..|log|] == log;
  }

  lemma Delivered(log: map<SessionId, seq<Message>>, to: set<SessionId>, m: Message, s: SessionId, c: Client)
    requires s in log
    ensures Fold(c, Send(log, to, m)[s]) == if s in to then Receive(Fold(c, log[s]), m) else Fold(c, log[s])
  {
    FoldAppend(c, log[s], m);
  }

  /** Clients depend on the sessions, the roster and the streams, not on the bodies. */
  lemma ClientsFollow(st: Server, st': Server, claims: set<NetId>)
    requires st.log.Keys == st.sessions.Keys && ClientsOk(st, claims)
    requires st'.log == st.log && st'.spawned == st.spawned
    requires st'.sessions.Keys == st.sessions.Keys
    requires forall s :: s in st.sessions ==>
               st'.sessions[s] == st.sessions[s].(lastActive := st'.sessions[s].lastActive)
    ensures ClientsOk(st', claims)
  {
    forall s | s in st'.sessions ensures Mirrors(st', s, Replica(st', claims, s), {}, st'.spawned) {
      var c := Replica(st, claims, s);
      assert Mirrors(st, s, c, {}, st.spawned);
      forall id | id in c.reps && IsPlayerId(id)
        ensures exists t :: t != s && Owns(st', t, id) && c.reps[id] == Avatar(st'.sessions[t].name)
      {
        var t :| t != s && Owns(st, t, id) && c.reps[id] == Avatar(st.sessions[t].name);
        assert Owns(st', t, id);
      }
    }
  }

  /** The world and its roster do not depend on who is connected or what was said. */
  lemma SameWorld(st: Server, st': Server)
    requires WorldOk(st) && RosterOk(st)
    requires st'.bodies == st.bodies && st'.nextEnt == st.nextEnt && st'.nextPlayer == st.nextPlayer
    requires st'.nextSpawn == st.nextSpawn && st'.spawned == st.spawned && st'.pending == st.pending
    requires st'.sceneNetIds == st.sceneNetIds
    ensures WorldOk(st') && RosterOk(st')
  {
    assert forall id :: Live(st', id) == Live(st, id);
    assert forall id :: IdOk(st', id) == IdOk(st, id);
  }

  // ----- scripts and bodies -----

  /** The part of the invariant that does not look at clients. */
  ghost predicate RoomOk(st: Server) { InRange(st) && WorldOk(st) && SessionsOk(st) && RosterOk(st) }

  lemma AddBodyKeeps(st: Server, b: Body, claims: set<NetId>)
    requires Inv(st, claims) && b.netId.None?
    ensures Inv(AddBody(st, b), claims)
  {
    hide WorldOk, RosterOk;
    AddBodyRoom(st, b);
    ClientsFollow(st, AddBody(st, b), claims);
  }

  lemma AddBodyRoom(st: Server, b: Body)
    requires RoomOk(st) && b.netId.None?
    ensures RoomOk(AddBody(st, b))
  {
    var st' := AddBody(st, b);
    forall id: NetId | Live(st, id) ensures Live(st', id) {
      var e :| e in st.bodies && st.bodies[e].netId == Some(id);
      assert e in st'.bodies && st'.bodies[e] == st.bodies[e];
    }
  }

  lemma RemoveBodyKeeps(st: Server, e: Ent, resetting: bool, claims: set<NetId>)
    requires Inv(st, claims) && e in st.bodies
    requires forall s :: s in st.sessions && st.sessions[s].spawned ==> st.sessions[s].entity != e
    ensures Inv(RemoveBody(st, e, resetting), claims)
  {
    hide WorldOk, RosterOk;
    RemoveBodyRoom(st, e, resetting);
    ClientsFollow(st, RemoveBody(st, e, resetting), claims);
  }

  lemma RemoveBodyRoom(st: Server, e: Ent, resetting: bool)
    requires RoomOk(st) && e in st.bodies
    requires forall s :: s in st.sessions && st.sessions[s].spawned ==> st.sessions[s].entity != e
    ensures RoomOk(RemoveBody(st, e, resetting))
  {
    var st' := RemoveBody(st, e, resetting);
    forall id: NetId | Live(st, id) && st.bodies[e].netId != Some(id) ensures Live(st', id) {
      var f :| f in st.bodies && st.bodies[f].netId == Some(id);
      assert f in st'.bodies && st'.bodies[f] == st.bodies[f];
    }
    forall id: NetId | Live(st', id) ensures Live(st, id) && st.bodies[e].netId != Some(id) {
      var f :| f in st'.bodies && st'.bodies[f].netId == Some(id);
      assert f in st.bodies && st.bodies[f] == st'.bodies[f];
    }
  }

  lemma EffectKeeps(st: Server, x: Effect, claims: set<NetId>)
    requires Inv(st, claims)
    ensures Inv(RunEffect(st, x), claims)
  {
    match x
    case SpawnBody(dynamic, look) => AddBodyKeeps(st, Body(dynamic, None, look), claims);
    case DestroyBody(e) =>
      if e in st.bodies && !IsPlayerBody(st.bodies[e]) { RemoveBodyKeeps(st, e, false, claims); }
    case RequestReset => FlagKeeps(st, true, st.clock, claims);
  }

  lemma FlagKeeps(st: Server, flag: bool, clock: real, claims: set<NetId>)
    requires Inv(st, claims)
    ensures Inv(st.(resetRequested := flag, clock := clock), claims)
  {
    hide ClientsOk, WorldOk, RosterOk;
    var st' := st.(resetRequested := flag, clock := clock);
    SameWorld(st, st');
    ClientsFollow(st, st', claims);
  }

  lemma {:induction false} ScriptsKeep(st: Server, effects: seq<Effect>, claims: set<NetId>)
    requires Inv(st, claims)
    ensures Inv(RunScripts(st, effects), claims)
    decreases |effects|
  {
    hide Inv, RunEffect;
    if effects != [] {
      EffectKeeps(st, effects[0], claims);
      ScriptsKeep(RunEffect(st, effects[0]), effects[1..], claims);
    }
  }

  lemma {:induction false} DestroyAllKeeps(st: Server, victims: set<Ent>, o: Order, claims: set<NetId>)
    requires Inv(st, claims) && Picks(o) && victims <= st.bodies.Keys && victims !! SparedEntities(st)
    ensures var st' := DestroyAll(st, victims, o);
            && Inv(st', claims) && st'.bodies == st.bodies - victims
            && st' == st.(bodies := st'.bodies, pending := st'.pending)
    decreases victims
  {
    hide Inv, NoteDestroyed;
    if victims == {} {
      assert st.bodies - victims == st.bodies;
    } else {
      var e := o(victims);
      var st1 := RemoveBody(st, e, true);
      assert forall s :: s in st.sessions && st.sessions[s].spawned ==> st.sessions[s].entity in SparedEntities(st);
      RemoveBodyKeeps(st, e, true, claims);
      assert SparedEntities(st1) == SparedEntities(st);
      DestroyAllKeeps(st1, victims - {e}, o, claims);
      assert st.bodies - {e} - (victims - {e}) == st.bodies - victims;
    }
  }

  lemma {:induction false} LoadFileKeeps(st: Server, file: SceneFile, claims: set<NetId>)
    requires Inv(st, claims) && forall i :: 0 <= i < |file| ==> file[i].netId.None?
    ensures Inv(LoadFile(st, file), claims)
    decreases |file|
  {
    hide Inv;
    if file != [] {
      AddBodyKeeps(st, file[0], claims);
      LoadFileKeeps(AddBody(st, file[0]), file[1..], claims);
    }
  }

  /** Handing out scene ids that no live body carries. */
  lemma {:induction false} GiveIdsKeeps(st: Server, ents: seq<Ent>, ids: seq<NetId>, claims: set<NetId>)
    requires Inv(st, claims)
    requires forall i :: 0 <= i < |ents| ==> ents[i] in st.bodies && st.bodies[ents[i]].netId.None?
    requires forall i, j :: 0 <= i < j < |ents| ==> ents[i] != ents[j]
    requires forall i, j :: 0 <= i < j < |ids| ==> ids[i] != ids[j]
    requires forall i :: 0 <= i < |ids| ==> ids[i] in st.sceneNetIds && !Live(st, ids[i])
    ensures Inv(st.(bodies := GiveIds(st.bodies, ents, ids)), claims)
    decreases |ents|
  {
    if ents != [] && ids != [] {
      var st1 := st.(bodies := GiveId(st.bodies, ents[0], ids[0]));
      GiveSceneIdKeeps(st, ents[0], ids[0], claims);
      forall i | 0 <= i < |ids[1..]| ensures !Live(st1, ids[1..][i]) {
        assert ids[1..][i] == ids[i + 1] && ids[i + 1] != ids[0];
        forall e | e in st1.bodies ensures st1.bodies[e].netId != Some(ids[i + 1]) {
          if e != ents[0] { assert st1.bodies[e] == st.bodies[e]; }
        }
      }
      GiveIdsKeeps(st1, ents[1..], ids[1..], claims);
    } else {
      assert st.(bodies := GiveIds(st.bodies, ents, ids)) == st;
    }
  }

  lemma GiveSceneIdKeeps(st: Server, e: Ent, id: NetId, claims: set<NetId>)
    requires Inv(st, claims) && e in st.bodies && st.bodies[e].netId.None?
    requires id in st.sceneNetIds && !Live(st, id)
    ensures Inv(st.(bodies := GiveId(st.bodies, e, id)), claims)
  {
    hide ClientsOk;
    var st' := st.(bodies := GiveId(st.bodies, e, id));
    assert id < PLAYER_BASE;
    forall x: NetId | Live(st, x) ensures Live(st', x) {
      var f :| f in st.bodies && st.bodies[f].netId == Some(x);
      assert f != e && f in st'.bodies && st'.bodies[f] == st.bodies[f];
    }
    forall x: NetId | Live(st', x) && x != id ensures Live(st, x) {
      var f :| f in st'.bodies && st'.bodies[f].netId == Some(x);
      assert f != e && f in st.bodies && st.bodies[f] == st'.bodies[f];
    }
    forall f | f in st.bodies && f != e ensures st.bodies[f].netId != Some(id) {
    }
    ClientsFollow(st, st', claims);
  }

  /** After the teardown only players are left, so every recorded scene id is free. */
  lemma RebuildKeeps(st: Server, room: Room, o: Order, claims: set<NetId>)
    requires Inv(st, claims) && room.Valid() && Picks(o)
    ensures Inv(Rebuild(st, room, o), claims)
  {
    var victims := st.bodies.Keys - SparedEntities(st);
    var st1 := DestroyAll(st, victims, o);
    DestroyAllKeeps(st, victims, o, claims);
    OnlyPlayersAreSpared(st, st1);
    LoadFileKeeps(st1, room.file, claims);
    var st2 := LoadFile(st1, room.file);
    assert SceneFree(st2) by { NoSceneIdsAfterLoad(st1, room.file); }
    AssignAgainKeeps(st2, claims);
  }

  /** No live body carries a scene id. */
  ghost predicate SceneFree(st: Server) {
    forall e :: e in st.bodies && st.bodies[e].netId.Some? ==> IsPlayerId(st.bodies[e].netId.value)
  }

  lemma NoSceneIdsAfterLoad(st: Server, file: SceneFile)
    requires WorldOk(st) && SceneFree(st)
    requires forall i :: 0 <= i < |file| ==> file[i].netId.None?
    ensures SceneFree(LoadFile(st, file))
  {
    LoadedBodies(st, file);
    var st' := LoadFile(st, file);
    forall e | e in st'.bodies && e !in st.bodies ensures st'.bodies[e].netId.None? {
      assert st'.bodies[st.nextEnt + (e - st.nextEnt)] == file[e - st.nextEnt];
    }
  }

  lemma AssignAgainKeeps(st: Server, claims: set<NetId>)
    requires Inv(st, claims) && SceneFree(st)
    ensures Inv(AssignSceneNetIds(st, false), claims)
  {
    var ents := Ascending(Unreplicated(st.bodies), 0, st.nextEnt);
    AscendingMembers(Unreplicated(st.bodies), 0, st.nextEnt);
    assert forall i :: 0 <= i < |st.sceneNetIds| ==> !Live(st, st.sceneNetIds[i]);
    GiveIdsKeeps(st, ents, st.sceneNetIds, claims);
  }

  lemma OnlyPlayersAreSpared(st: Server, st1: Server)
    requires SessionsOk(st) && InRange(st) && st1.bodies == st.bodies - (st.bodies.Keys - SparedEntities(st))
    ensures SceneFree(st1)
  {
  }

  /** Loading adds the file's bodies at the next entity ids and touches nothing else. */
  lemma {:induction false} LoadedBodies(st: Server, file: SceneFile)
    requires forall e :: e in st.bodies ==> e < st.nextEnt
    ensures var st' := LoadFile(st, file);
            && st' == st.(bodies := st'.bodies, nextEnt := st.nextEnt + |file|)
            && (forall e :: e in st'.bodies <==> e in st.bodies || st.nextEnt <= e < st.nextEnt + |file|)
            && (forall e :: e in st.bodies ==> st'.bodies[e] == st.bodies[e])
            && (forall i :: 0 <= i < |file| ==> st'.bodies[st.nextEnt + i] == file[i])
    decreases |file|
  {
    if file != [] {
      var st1 := AddBody(st, file[0]);
      LoadedBodies(st1, file[1..]);
      var st' := LoadFile(st, file);
      forall i | 0 <= i < |file| ensures st'.bodies[st.nextEnt + i] == file[i] {
        if i == 0 {
          assert st.nextEnt in st1.bodies;
        } else {
          assert st'.bodies[st1.nextEnt + (i - 1)] == file[1..][i - 1];
        }
      }
    }
  }

  // ----- announcements -----

  lemma AnnounceKeeps(st: Server, e: Ent, claims: set<NetId>)
    requires Inv(st, claims) && e in st.bodies && st.bodies[e].netId.None?
    ensures Inv(Announce(st, e), claims)
  {
    hide Fold;
    var st' := Announce(st, e);
    AnnounceRoster(st, e);
    forall s | s in st'.sessions ensures Mirrors(st', s, Replica(st', claims, s), {}, st'.spawned) {
      AnnounceReaches(st, e, claims, s);
    }
  }

  lemma AnnounceRoster(st: Server, e: Ent)
    requires InRange(st) && WorldOk(st) && SessionsOk(st) && RosterOk(st)
    requires e in st.bodies && st.bodies[e].netId.None?
    ensures var st' := Announce(st, e); WorldOk(st') && SessionsOk(st') && RosterOk(st')
  {
    var st' := Announce(st, e);
    var id := SPAWN_BASE + st.nextSpawn;
    AnnounceWorld(st, e);
    hide WorldOk, SessionsOk;
    AnnounceLive(st, e);
    assert Spawned(id, st.bodies[e].look) in st'.spawned;
    assert forall x :: x in st.spawned ==> x in st'.spawned;
    assert forall x :: x in st'.spawned ==> x in st.spawned || x.netId == id;
  }

  lemma AnnounceWorld(st: Server, e: Ent)
    requires InRange(st) && WorldOk(st) && SessionsOk(st)
    requires e in st.bodies && st.bodies[e].netId.None?
    ensures var st' := Announce(st, e); WorldOk(st') && SessionsOk(st')
  {
    var st' := Announce(st, e);
    assert forall f :: f in st.bodies && f != e ==> st'.bodies[f] == st.bodies[f];
    assert WorldOk(st') by { hide SessionsOk; }
  }

  lemma AnnounceLive(st: Server, e: Ent)
    requires e in st.bodies && st.bodies[e].netId.None?
    ensures forall id :: Live(Announce(st, e), id) <==> Live(st, id) || id == SPAWN_BASE + st.nextSpawn
  {
    var st' := Announce(st, e);
    var id := SPAWN_BASE + st.nextSpawn;
    assert Live(st', id) by { assert e in st'.bodies && st'.bodies[e].netId == Some(id); }
    forall x: NetId | Live(st, x) ensures Live(st', x) {
      var f :| f in st.bodies && st.bodies[f].netId == Some(x);
      assert f != e && f in st'.bodies && st'.bodies[f] == st.bodies[f];
    }
    forall x: NetId | Live(st', x) && x != id ensures Live(st, x) {
      var f :| f in st'.bodies && st'.bodies[f].netId == Some(x);
      assert f != e && f in st.bodies && st.bodies[f] == st'.bodies[f];
    }
  }

  lemma AnnounceReaches(st: Server, e: Ent, claims: set<NetId>, s: SessionId)
    requires Inv(st, claims) && e in st.bodies && st.bodies[e].netId.None? && s in st.sessions
    ensures var st' := Announce(st, e); Mirrors(st', s, Replica(st', claims, s), {}, st'.spawned)
  {
    hide Fold, WorldOk, Mirrors, Receive;
    var x := Spawned(SPAWN_BASE + st.nextSpawn, st.bodies[e].look);
    var c := Replica(st, claims, s);
    Delivered(st.log, Joined(st), SpawnEntity(x.netId, x.look), s, FreshClient(claims));
    assert Mirrors(st, s, c, {}, st.spawned);
    SpawnShown(st, Announce(st, e), s, c, x);
  }

  lemma SpawnShown(st: Server, st': Server, s: SessionId, c: Client, x: Spawned)
    requires s in st.sessions && st'.sessions == st.sessions && st'.spawned == st.spawned + [x]
    requires Mirrors(st, s, c, {}, st.spawned) && IsSpawnId(x.netId)
    requires forall y :: y in st.spawned ==> y.netId != x.netId
    ensures Mirrors(st', s, if s in Joined(st) then Receive(c, SpawnEntity(x.netId, x.look)) else c, {}, st'.spawned)
  {
    var c' := if s in Joined(st) then Receive(c, SpawnEntity(x.netId, x.look)) else c;
    assert x in st'.spawned;
    assert forall y :: y in st.spawned ==> y in st'.spawned;
    assert x.netId !in c.reps;
    PlayersStay(st, st', s, c, c');
  }

  /** The players a client shows depend on the sessions alone. */
  lemma PlayersStay(st: Server, st': Server, s: SessionId, c: Client, c': Client)
    requires ShowsOnlyPlayers(st, s, c) && st'.sessions == st.sessions
    requires forall id :: id in c'.reps && IsPlayerId(id) ==> id in c.reps && c.reps[id] == c'.reps[id]
    ensures ShowsOnlyPlayers(st', s, c')
  {
    forall id | id in c'.reps && IsPlayerId(id)
      ensures exists t :: t != s && Owns(st', t, id) && c'.reps[id] == Avatar(st'.sessions[t].name)
    {
      var t :| t != s && Owns(st, t, id) && c.reps[id] == Avatar(st.sessions[t].name);
      assert Owns(st', t, id);
    }
  }

  lemma {:induction false} AnnounceAllKeeps(st: Server, todo: set<Ent>, o: Order, claims: set<NetId>)
    requires Inv(st, claims) && Picks(o) && todo <= st.bodies.Keys
    requires forall e :: e in todo ==> st.bodies[e].netId.None?
    ensures var st' := AnnounceAll(st, todo, o);
            Inv(st', claims) && Unreplicated(st'.bodies) == Unreplicated(st.bodies) - todo && st'.pending == st.pending
    decreases todo
  {
    hide Inv;
    if todo != {} {
      var e := o(todo);
      var st1 := Announce(st, e);
      AnnounceKeeps(st, e, claims);
      assert Unreplicated(st1.bodies) == Unreplicated(st.bodies) - {e};
      AnnounceAllKeeps(st1, todo - {e}, o, claims);
    }
  }

  lemma {:induction false} WithoutMembers(xs: seq<Spawned>, id: NetId)
    ensures forall x :: x in Without(xs, id) <==> x in xs && x.netId != id
    ensures (forall i, j :: 0 <= i < j < |xs| ==> xs[i].netId != xs[j].netId) ==>
              forall i, j :: 0 <= i < j < |Without(xs, id)| ==> Without(xs, id)[i].netId != Without(xs, id)[j].netId
  {
    if xs != [] {
      WithoutMembers(xs[1..], id);
      assert forall x :: x in xs <==> x == xs[0] || x in xs[1..];
      if xs[0].netId != id {
        var w := Without(xs[1..], id);
        assert Without(xs, id) == [xs[0]] + w;
        forall j | 0 <= j < |w| && (forall i, j :: 0 <= i < j < |xs| ==> xs[i].netId != xs[j].netId)
          ensures w[j].netId != xs[0].netId
        {
          assert w[j] in xs[1..];
        }
      }
    }
  }

  lemma FlushRoster(st: Server)
    requires InRange(st) && WorldOk(st) && SessionsOk(st) && RosterOk(st) && st.pending != []
    ensures var st' := FlushOne(st); WorldOk(st') && SessionsOk(st') && RosterOk(st')
  {
    var st' := FlushOne(st);
    WithoutMembers(st.spawned, st.pending[0]);
    assert forall id :: Live(st', id) == Live(st, id);
    assert st.pending[0] in st.pending;
    assert forall id :: id in st.pending <==> id == st.pending[0] || id in st'.pending;
    forall e | e in st'.bodies && st'.bodies[e].netId.Some? && IsSpawnId(st'.bodies[e].netId.value)
      ensures Spawned(st'.bodies[e].netId.value, st'.bodies[e].look) in st'.spawned
    {
      assert Live(st, st.bodies[e].netId.value);
    }
  }

  lemma FlushReaches(st: Server, claims: set<NetId>, s: SessionId)
    requires Inv(st, claims) && st.pending != [] && s in st.sessions
    ensures var st' := FlushOne(st); Mirrors(st', s, Replica(st', claims, s), {}, st'.spawned)
  {
    hide Fold, WorldOk, Mirrors, Receive;
    var id := st.pending[0];
    var c := Replica(st, claims, s);
    assert id in st.pending;
    Delivered(st.log, Joined(st), DespawnEntity(id), s, FreshClient(claims));
    assert Mirrors(st, s, c, {}, st.spawned);
    DespawnShown(st, FlushOne(st), s, c, id);
  }

  lemma DespawnShown(st: Server, st': Server, s: SessionId, c: Client, id: NetId)
    requires s in st.sessions && st'.sessions == st.sessions && st'.spawned == Without(st.spawned, id)
    requires Mirrors(st, s, c, {}, st.spawned) && !IsPlayerId(id)
    requires forall t :: t in st.sessions && st.sessions[t].spawned ==> IsPlayerId(st.sessions[t].netId)
    ensures Mirrors(st', s, if s in Joined(st) then Receive(c, DespawnEntity(id)) else c, {}, st'.spawned)
  {
    hide Without;
    var c' := if s in Joined(st) then Receive(c, DespawnEntity(id)) else c;
    WithoutMembers(st.spawned, id);
    PlayersStay(st, st', s, c, c');
    forall p | p in c'.reps && IsSpawnId(p) ensures exists x :: x in st'.spawned && x.netId == p {
      assert p != id;
      var x :| x in st.spawned && x.netId == p;
      assert x in st'.spawned;
    }
  }

  lemma FlushKeeps(st: Server, claims: set<NetId>)
    requires Inv(st, claims) && st.pending != []
    ensures Inv(FlushOne(st), claims)
  {
    hide Fold, Mirrors;
    var st' := FlushOne(st);
    FlushRoster(st);
    forall s | s in st'.sessions ensures Mirrors(st', s, Replica(st', claims, s), {}, st'.spawned) {
      FlushReaches(st, claims, s);
    }
  }

  lemma {:induction false} FlushAllKeeps(st: Server, claims: set<NetId>)
    requires Inv(st, claims)
    ensures var st' := FlushDespawns(st); Inv(st', claims) && st'.pending == [] && st'.bodies == st.bodies
    decreases |st.pending|
  {
    hide Inv;
    if st.pending != [] {
      FlushKeeps(st, claims);
      FlushAllKeeps(FlushOne(st), claims);
    }
  }

  // ----- sessions come and go -----

  lemma ConnectKeeps(st: Server, s: SessionId, claims: set<NetId>)
    requires Inv(st, claims)
    ensures Inv(OnConnect(st, s), claims)
  {
    if s in st.sessions {
      TouchKeeps(st, s, claims);
    } else {
      NewSessionKeeps(st, s, st.clock, claims);
    }
  }

  lemma TouchKeeps(st: Server, s: SessionId, claims: set<NetId>)
    requires Inv(st, claims)
    ensures Inv(Touch(st, s), claims)
  {
    hide ClientsOk, WorldOk, RosterOk;
    var st' := Touch(st, s);
    SameWorld(st, st');
    ClientsFollow(st, st', claims);
  }

  lemma NewSessionKeeps(st: Server, s: SessionId, lastActive: real, claims: set<NetId>)
    requires Inv(st, claims) && s !in st.sessions
    ensures Inv(st.(sessions := st.sessions[s := UNJOINED.(lastActive := lastActive)], log := st.log[s := []]), claims)
  {
    var st' := st.(sessions := st.sessions[s := UNJOINED.(lastActive := lastActive)], log := st.log[s := []]);
    hide WorldOk, RosterOk, Mirrors, Fold;
    SameWorld(st, st');
    forall t | t in st'.sessions ensures Mirrors(st', t, Replica(st', claims, t), {}, st'.spawned) {
      if t != s {
        assert Mirrors(st, t, Replica(st, claims, t), {}, st.spawned);
        NewcomerUnseen(st, st', s, t, Replica(st, claims, t));
      } else {
        FreshMirrors(st', s, claims);
      }
    }
  }

  lemma FreshMirrors(st: Server, s: SessionId, claims: set<NetId>)
    requires s in st.sessions && st.sessions[s].netId == 0 && !st.sessions[s].spawned
    requires s in st.log && st.log[s] == [] && SceneClaims(claims)
    ensures Mirrors(st, s, Replica(st, claims, s), {}, st.spawned)
  {
  }

  lemma NewcomerUnseen(st: Server, st': Server, s: SessionId, t: SessionId, c: Client)
    requires s !in st.sessions && t in st.sessions && !UNJOINED.spawned
    requires st'.sessions.Keys == st.sessions.Keys + {s} && !st'.sessions[s].spawned && st'.spawned == st.spawned
    requires forall x :: x in st.sessions ==> st'.sessions[x] == st.sessions[x]
    requires Mirrors(st, t, c, {}, st.spawned)
    ensures Mirrors(st', t, c, {}, st.spawned)
  {
    forall id | id in c.reps && IsPlayerId(id)
      ensures exists x :: x != t && Owns(st', x, id) && c.reps[id] == Avatar(st'.sessions[x].name)
    {
      var x :| x != t && Owns(st, x, id) && c.reps[id] == Avatar(st.sessions[x].name);
      assert Owns(st', x, id);
    }
  }

  lemma RemoveSessionWorld(st: Server, s: SessionId)
    requires WorldOk(st) && SessionsOk(st) && s in st.sessions
    ensures var st' := RemoveSession(st, s); WorldOk(st') && SessionsOk(st')
  {
    var st' := RemoveSession(st, s);
    assert WorldOk(st') by { hide SessionsOk; }
  }

  lemma RemoveSessionRoster(st: Server, s: SessionId)
    requires InRange(st) && WorldOk(st) && SessionsOk(st) && RosterOk(st) && s in st.sessions
    ensures var st' := RemoveSession(st, s); WorldOk(st') && SessionsOk(st') && RosterOk(st')
  {
    var st' := RemoveSession(st, s);
    var p := st.sessions[s];
    RemoveSessionWorld(st, s);
    assert p.netId == 0 || IsPlayerId(p.netId);
    hide WorldOk, SessionsOk;
    forall id: NetId | Live(st, id) && id != p.netId ensures Live(st', id) {
      var f :| f in st.bodies && st.bodies[f].netId == Some(id);
      assert f in st'.bodies && st'.bodies[f] == st.bodies[f];
    }
    forall id: NetId | Live(st', id) ensures Live(st, id) {
      var f :| f in st'.bodies && st'.bodies[f].netId == Some(id);
      assert f in st.bodies && st.bodies[f] == st'.bodies[f];
    }
  }

  lemma PlayerIdsDiffer(st: Server, s: SessionId)
    requires WorldOk(st) && SessionsOk(st) && s in st.sessions
    ensures forall t :: t in st.sessions && t != s && st.sessions[t].spawned ==>
              st.sessions[t].netId != st.sessions[s].netId
  {
    forall t | t in st.sessions && t != s && st.sessions[t].spawned
      ensures st.sessions[t].netId != st.sessions[s].netId
    {
      if st.sessions[s].spawned {
        assert st.bodies[st.sessions[s].entity].netId != st.bodies[st.sessions[t].entity].netId;
      }
    }
  }

  lemma RemoveSessionReaches(st: Server, s: SessionId, claims: set<NetId>, t: SessionId)
    requires Inv(st, claims) && s in st.sessions && t in st.sessions && t != s
    ensures var st' := RemoveSession(st, s); Mirrors(st', t, Replica(st', claims, t), {}, st'.spawned)
  {
    hide Fold, RosterOk, Mirrors, Receive;
    var id := st.sessions[s].netId;
    var c := Replica(st, claims, t);
    assert Mirrors(st, t, c, {}, st.spawned);
    if id != 0 { Delivered(st.log - {s}, (st.log - {s}).Keys, PlayerLeave(id), t, FreshClient(claims)); }
    PlayerIdsDiffer(st, s);
    LeaveShown(st, RemoveSession(st, s), s, t, c);
  }

  lemma LeaveShown(st: Server, st': Server, s: SessionId, t: SessionId, c: Client)
    requires s in st.sessions && t in st.sessions && t != s
    requires st'.sessions == st.sessions - {s} && st'.spawned == st.spawned
    requires Mirrors(st, t, c, {}, st.spawned)
    requires var p := st.sessions[s]; if p.spawned then IsPlayerId(p.netId) else p.netId == 0
    requires forall x :: x in st.sessions && x != s && st.sessions[x].spawned ==>
               st.sessions[x].netId != st.sessions[s].netId
    ensures var id := st.sessions[s].netId;
            Mirrors(st', t, if id != 0 then Receive(c, PlayerLeave(id)) else c, {}, st'.spawned)
  {
    var id := st.sessions[s].netId;
    var c' := if id != 0 then Receive(c, PlayerLeave(id)) else c;
    forall p | p in c'.reps && IsPlayerId(p)
      ensures exists x :: x != t && Owns(st', x, p) && c'.reps[p] == Avatar(st'.sessions[x].name)
    {
      var x :| x != t && Owns(st, x, p) && c.reps[p] == Avatar(st.sessions[x].name);
      assert x != s;
      assert Owns(st', x, p);
    }
  }

  lemma RemoveSessionKeeps(st: Server, s: SessionId, claims: set<NetId>)
    requires Inv(st, claims) && s in st.sessions
    ensures Inv(RemoveSession(st, s), claims) && RemoveSession(st, s).sessions == st.sessions - {s}
  {
    hide Fold, Mirrors;
    var st' := RemoveSession(st, s);
    RemoveSessionRoster(st, s);
    forall t | t in st'.sessions ensures Mirrors(st', t, Replica(st', claims, t), {}, st'.spawned) {
      RemoveSessionReaches(st, s, claims, t);
    }
  }

  lemma {:induction false} RemoveSessionsKeep(st: Server, dead: set<SessionId>, o: Order, claims: set<NetId>)
    requires Inv(st, claims) && Picks(o) && dead <= st.sessions.Keys
    ensures Inv(RemoveSessions(st, dead, o), claims)
    decreases dead
  {
    hide Inv;
    if dead != {} {
      var s := o(dead);
      RemoveSessionKeeps(st, s, claims);
      RemoveSessionsKeep(RemoveSession(st, s), dead - {s}, o, claims);
    }
  }

  // ----- a hello -----

  /** While a newcomer is being introduced: the others in `unmet` have not heard of it, it has
      not heard of them, and it has read the first `k` spawns of the replay. */
  ghost predicate Greeting(st: Server, claims: set<NetId>, s: SessionId, unmet: set<SessionId>, k: nat) {
    && s in st.sessions && st.sessions[s].spawned && s !in unmet && k <= |st.spawned|
    && InRange(st) && SceneClaims(claims) && WorldOk(st) && SessionsOk(st) && RosterOk(st)
    && Mirrors(st, s, Replica(st, claims, s), unmet, st.spawned[..k])
    && (forall t :: t in st.sessions && t != s ==>
          Mirrors(st, t, Replica(st, claims, t), if t in unmet then {s} else {}, st.spawned))
  }

  lemma SpawnPlayerRoster(st: Server, s: SessionId, name: Name, look: Look)
    requires WorldOk(st) && SessionsOk(st) && RosterOk(st) && s in st.sessions && !st.sessions[s].spawned
    requires InRange(SpawnPlayer(st, s, name, look))
    ensures var st' := SpawnPlayer(st, s, name, look); WorldOk(st') && SessionsOk(st') && RosterOk(st')
  {
    assert forall e :: e in st.bodies ==> st.bodies[e].netId != Some(PLAYER_BASE + st.nextPlayer);
    SpawnPlayerWorld(st, s, name, look);
    var st' := SpawnPlayer(st, s, name, look);
    assert forall f :: f in st.bodies ==> f != st.nextEnt;
    hide WorldOk, SessionsOk;
    forall id: NetId | Live(st, id) ensures Live(st', id) {
      var f :| f in st.bodies && st.bodies[f].netId == Some(id);
      assert f in st'.bodies && st'.bodies[f] == st.bodies[f];
    }
    forall id: NetId | Live(st', id) && !IsPlayerId(id) ensures Live(st, id) {
      var f :| f in st'.bodies && st'.bodies[f].netId == Some(id);
      assert f in st.bodies && st.bodies[f] == st'.bodies[f];
    }
  }

  lemma SpawnPlayerWorld(st: Server, s: SessionId, name: Name, look: Look)
    requires WorldOk(st) && SessionsOk(st) && s in st.sessions && !st.sessions[s].spawned
    requires InRange(SpawnPlayer(st, s, name, look))
    requires forall e :: e in st.bodies ==> st.bodies[e].netId != Some(PLAYER_BASE + st.nextPlayer)
    ensures var st' := SpawnPlayer(st, s, name, look); WorldOk(st') && SessionsOk(st')
  {
    var st' := SpawnPlayer(st, s, name, look);
    assert WorldOk(st') by { hide SessionsOk; }
  }

  /** The bodies-only part of the invariant through a script run, with clients set aside. */
  lemma {:induction false} ScriptsKeepRoom(st: Server, effects: seq<Effect>)
    requires RoomOk(st)
    ensures RoomOk(RunScripts(st, effects))
    decreases |effects|
  {
    if effects != [] {
      EffectKeepsRoom(st, effects[0]);
      hide RunEffect, RoomOk;
      ScriptsKeepRoom(RunEffect(st, effects[0]), effects[1..]);
    }
  }

  lemma EffectKeepsRoom(st: Server, x: Effect)
    requires RoomOk(st)
    ensures RoomOk(RunEffect(st, x))
  {
    match x
    case SpawnBody(dynamic, look) => AddBodyRoom(st, Body(dynamic, None, look));
    case DestroyBody(e) =>
      if e in st.bodies && !IsPlayerBody(st.bodies[e]) { RemoveBodyRoom(st, e, false); }
    case RequestReset =>
      assert forall id :: Live(RunEffect(st, x), id) == Live(st, id);
  }

  /** What the newcomer's client shows before it is welcomed is what an unjoined client may show. */
  lemma Welcomed(st: Server, st': Server, claims: set<NetId>, s: SessionId)
    requires SessionsOk(st) && SessionsOk(st') && s in st.sessions && !st.sessions[s].spawned && ClientsOk(st, claims)
    requires s in st'.sessions && st'.sessions[s].spawned && st'.sessions.Keys == st.sessions.Keys
    requires forall t :: t in st.sessions && t != s ==> st'.sessions[t] == st.sessions[t]
    requires st'.spawned == st.spawned
    requires st'.log == Send(st.log, {s}, ServerWelcome(st'.sessions[s].netId))
    ensures Mirrors(st', s, Replica(st', claims, s), st'.sessions.Keys - {s}, st'.spawned[..0])
    ensures forall t :: t in st'.sessions && t != s ==> Mirrors(st', t, Replica(st', claims, t), {s}, st'.spawned)
  {
    hide Fold, Mirrors;
    forall t | t in st'.sessions
      ensures Mirrors(st', t, Replica(st', claims, t), if t == s then st'.sessions.Keys - {s} else {s},
                      if t == s then st'.spawned[..0] else st'.spawned)
    {
      var c := Replica(st, claims, t);
      assert Mirrors(st, t, c, {}, st.spawned);
      Delivered(st.log, {s}, ServerWelcome(st'.sessions[s].netId), t, FreshClient(claims));
      WelcomeShown(st, st', s, t, c);
    }
  }

  lemma WelcomeShown(st: Server, st': Server, s: SessionId, t: SessionId, c: Client)
    requires s in st.sessions && t in st.sessions && !st.sessions[s].spawned
    requires st'.sessions.Keys == st.sessions.Keys && st'.sessions[s].spawned && st'.spawned == st.spawned
    requires forall x :: x in st.sessions && x != s ==> st'.sessions[x] == st.sessions[x]
    requires Mirrors(st, t, c, {}, st.spawned)
    ensures t != s ==> Mirrors(st', t, c, {s}, st'.spawned)
    ensures t == s ==>
              Mirrors(st', s, Receive(c, ServerWelcome(st'.sessions[s].netId)),
                      st'.sessions.Keys - {s}, st'.spawned[..0])
  {
    forall id | id in c.reps && IsPlayerId(id)
      ensures exists x :: x != t && Owns(st', x, id) && c.reps[id] == Avatar(st'.sessions[x].name)
    {
      var x :| x != t && Owns(st, x, id) && c.reps[id] == Avatar(st.sessions[x].name);
      assert Owns(st', x, id);
    }
  }

  /** Someone's avatar appears: a name for an id nobody else has. */
  lemma JoinShown(st: Server, t: SessionId, c: Client, unmet: set<SessionId>, known: seq<Spawned>, o: SessionId)
    requires WorldOk(st) && SessionsOk(st) && InRange(st) && RosterOk(st)
    requires t in st.sessions && o in st.sessions && o != t && st.sessions[o].spawned
    requires Mirrors(st, t, c, unmet, known) && (forall x :: x in known ==> IsSpawnId(x.netId))
    ensures Mirrors(st, t, Receive(c, PlayerJoin(st.sessions[o].netId, st.sessions[o].name)), unmet - {o}, known)
  {
    hide RosterOk;
    var id, name := st.sessions[o].netId, st.sessions[o].name;
    var c' := Receive(c, PlayerJoin(id, name));
    PlayerIdsDiffer(st, o);
    assert id != c.me;
    if id in c.reps {
      var x :| x != t && Owns(st, x, id) && c.reps[id] == Avatar(st.sessions[x].name);
      assert x == o;
    }
    assert Owns(st, o, id);
    assert c'.reps == c.reps[id := Avatar(name)];
  }

  /** The invariant looks at a state's log only through the replicas. */
  lemma IntroduceReaches(st: Server, claims: set<NetId>, s: SessionId, o: SessionId, unmet: set<SessionId>,
      k: nat, t: SessionId)
    requires Greeting(st, claims, s, unmet, k) && o in unmet && o in st.sessions && t in st.sessions
    ensures var st' := Introduce(st, s, o);
            Mirrors(st', t, Replica(st', claims, t),
                    if t == s then unmet - {o} else if t in unmet - {o} then {s} else {},
                    if t == s then st.spawned[..k] else st.spawned)
  {
    hide Fold, Mirrors, WorldOk, RosterOk, Receive, InRange;
    var me, them := st.sessions[s], st.sessions[o];
    var log1 := Send(st.log, {o}, PlayerJoin(me.netId, me.name));
    var st' := Introduce(st, s, o);
    Delivered(st.log, {o}, PlayerJoin(me.netId, me.name), t, FreshClient(claims));
    Delivered(log1, {s}, PlayerJoin(them.netId, them.name), t, FreshClient(claims));
    var c := Replica(st, claims, t);
    if t == s {
      assert forall x :: x in st.spawned[..k] ==> IsSpawnId(x.netId) by { SpawnsAreSpawns(st); }
      if them.spawned {
        JoinShown(st, s, c, unmet, st.spawned[..k], o);
      } else {
        UnspawnedUnmet(st, s, c, unmet, st.spawned[..k], o);
      }
      SameSight(st, st', t, Replica(st', claims, t), unmet - {o}, st.spawned[..k]);
    } else if t == o {
      assert forall x :: x in st.spawned ==> IsSpawnId(x.netId) by { SpawnsAreSpawns(st); }
      JoinShown(st, o, c, {s}, st.spawned, s);
      assert {s} - {s} == {};
      SameSight(st, st', t, Replica(st', claims, t), {}, st.spawned);
    } else {
      SameSight(st, st', t, c, if t in unmet then {s} else {}, st.spawned);
    }
  }

  lemma SpawnsAreSpawns(st: Server)
    requires RosterOk(st)
    ensures forall x :: x in st.spawned ==> IsSpawnId(x.netId)
  {
  }

  lemma SameSight(st: Server, st': Server, t: SessionId, c: Client, unmet: set<SessionId>, known: seq<Spawned>)
    requires t in st.sessions && st'.sessions == st.sessions && st'.spawned == st.spawned
    requires Mirrors(st, t, c, unmet, known)
    ensures Mirrors(st', t, c, unmet, known)
  {
    PlayersStay(st, st', t, c, c);
  }

  lemma UnspawnedUnmet(st: Server, t: SessionId, c: Client, unmet: set<SessionId>, known: seq<Spawned>, o: SessionId)
    requires t in st.sessions && o in st.sessions && !st.sessions[o].spawned
    requires Mirrors(st, t, c, unmet, known)
    ensures Mirrors(st, t, c, unmet - {o}, known)
  {
  }

  lemma {:induction false} IntroduceAllGreets(st: Server, claims: set<NetId>, s: SessionId,
      unmet: set<SessionId>, o: Order)
    requires Picks(o) && unmet <= st.sessions.Keys && Greeting(st, claims, s, unmet, 0)
    ensures var st' := IntroduceAll(st, s, unmet, o); Greeting(st', claims, s, {}, 0) && st' == st.(log := st'.log)
    decreases unmet
  {
    if unmet != {} {
      var t := o(unmet);
      IntroduceKeeps(st, claims, s, t, unmet, 0);
      hide Greeting, Introduce;
      IntroduceLog(st, s, t);
      IntroduceAllGreets(Introduce(st, s, t), claims, s, unmet - {t}, o);
    }
  }

  lemma IntroduceLog(st: Server, s: SessionId, o: SessionId)
    requires s in st.sessions && o in st.sessions
    ensures Introduce(st, s, o) == st.(log := Introduce(st, s, o).log)
  {
  }

  lemma IntroduceKeeps(st: Server, claims: set<NetId>, s: SessionId, o: SessionId, unmet: set<SessionId>, k: nat)
    requires Greeting(st, claims, s, unmet, k) && o in unmet && o in st.sessions
    ensures Greeting(Introduce(st, s, o), claims, s, unmet - {o}, k)
  {
    hide Fold, Mirrors, WorldOk, RosterOk;
    var st' := Introduce(st, s, o);
    SameWorld(st, st');
    forall t | t in st'.sessions
      ensures Mirrors(st', t, Replica(st', claims, t),
                      if t == s then unmet - {o} else if t in unmet - {o} then {s} else {},
                      if t == s then st.spawned[..k] else st.spawned)
    {
      IntroduceReaches(st, claims, s, o, unmet, k, t);
    }
  }

  /** The replay's next message. */
  function ReplayOne(st: Server, s: SessionId, k: nat): Server
    requires k < |st.spawned|
  {
    st.(log := Send(st.log, {s}, SpawnEntity(st.spawned[k].netId, st.spawned[k].look)))
  }

  lemma ReplayNext(st: Server, s: SessionId, k: nat)
    requires k < |st.spawned|
    ensures var st1 := ReplayOne(st, s, k);
            st1.spawned == st.spawned && Replay(st, s, st.spawned[k..]) == Replay(st1, s, st1.spawned[k + 1..])
  {
    assert st.spawned[k..][1..] == st.spawned[k + 1..];
    assert st.spawned[k..][0] == st.spawned[k];
  }

  lemma ReplayStep(st: Server, claims: set<NetId>, s: SessionId, k: nat)
    requires Greeting(st, claims, s, {}, k) && k < |st.spawned|
    ensures Greeting(ReplayOne(st, s, k), claims, s, {}, k + 1)
  {
    hide Fold, Mirrors, Receive, WorldOk, RosterOk;
    var x := st.spawned[k];
    var st' := ReplayOne(st, s, k);
    SameWorld(st, st');
    forall t | t in st'.sessions
      ensures Mirrors(st', t, Replica(st', claims, t), {}, if t == s then st.spawned[..k + 1] else st.spawned)
    {
      var c := Replica(st, claims, t);
      Delivered(st.log, {s}, SpawnEntity(x.netId, x.look), t, FreshClient(claims));
      if t == s { ReplayShown(st, s, c, k); }
      SameSight(st, st', t, Replica(st', claims, t), {}, if t == s then st.spawned[..k + 1] else st.spawned);
    }
  }

  lemma ReplayShown(st: Server, s: SessionId, c: Client, k: nat)
    requires s in st.sessions && st.sessions[s].spawned && k < |st.spawned| && RosterOk(st)
    requires Mirrors(st, s, c, {}, st.spawned[..k])
    ensures Mirrors(st, s, Receive(c, SpawnEntity(st.spawned[k].netId, st.spawned[k].look)), {}, st.spawned[..k + 1])
  {
    var x := st.spawned[k];
    assert x in st.spawned;
    var c' := Receive(c, SpawnEntity(x.netId, x.look));
    PlayersStay(st, st, s, c, c');
    forall y | y in st.spawned[..k] ensures y.netId != x.netId {
      var i :| 0 <= i < k && st.spawned[i] == y;
    }
    assert c'.reps == c.reps[x.netId := Proxy(x.look)];
    forall y | y in st.spawned[..k + 1] ensures y.netId in c'.reps && c'.reps[y.netId] == Proxy(y.look) {
      if y in st.spawned[..k] {
        var i :| 0 <= i < k && st.spawned[i] == y;
      }
    }
  }

  lemma Greeted(st: Server, claims: set<NetId>, s: SessionId)
    requires Greeting(st, claims, s, {}, |st.spawned|)
    ensures Inv(st, claims)
  {
    hide Mirrors, Replica, WorldOk, RosterOk, SessionsOk;
    assert st.spawned[..|st.spawned|] == st.spawned;
  }

  lemma {:induction false} ReplayAllGreets(st: Server, claims: set<NetId>, s: SessionId, k: nat)
    requires Greeting(st, claims, s, {}, k)
    ensures Inv(Replay(st, s, st.spawned[k..]), claims)
    decreases |st.spawned| - k
  {
    if k == |st.spawned| {
      Greeted(st, claims, s);
    } else {
      ReplayNext(st, s, k);
      ReplayStep(st, claims, s, k);
      hide Greeting, Inv, Replay, ReplayOne;
      ReplayAllGreets(ReplayOne(st, s, k), claims, s, k + 1);
    }
  }

  /** From the moment the newcomer's body exists: its scripts, the welcome, introductions both ways, the replay. */
  lemma WelcomeKeeps(st: Server, s: SessionId, name: Name, look: Look, effects: seq<Effect>, o: Order,
      claims: set<NetId>)
    requires Inv(st, claims) && Picks(o) && s in st.sessions && !st.sessions[s].spawned
    requires InRange(SpawnPlayer(st, s, name, look))
    ensures var st2 := RunScripts(SpawnPlayer(st, s, name, look), effects);
            s in st2.sessions
            && var st3 := st2.(log := Send(st2.log, {s}, ServerWelcome(st2.sessions[s].netId)));
            var st4 := IntroduceAll(st3, s, st3.sessions.Keys - {s}, o);
            Inv(Replay(st4, s, st4.spawned), claims)
  {
    hide Mirrors, WorldOk, RosterOk, Fold, Live;
    var st1 := SpawnPlayer(st, s, name, look);
    SpawnPlayerRoster(st, s, name, look);
    ScriptsKeepRoom(st1, effects);
    ScriptsKeepSessions(st1, effects);
    var st2 := RunScripts(st1, effects);
    var st3 := st2.(log := Send(st2.log, {s}, ServerWelcome(st2.sessions[s].netId)));
    LogAside(st2, st3);
    Welcomed(st, st3, claims, s);
    IntroduceAllGreets(st3, claims, s, st3.sessions.Keys - {s}, o);
    var st4 := IntroduceAll(st3, s, st3.sessions.Keys - {s}, o);
    ReplayAllGreets(st4, claims, s, 0);
    assert st4.spawned[0..] == st4.spawned;
  }

  lemma LogAside(st: Server, st': Server)
    requires RoomOk(st) && st' == st.(log := st'.log) && st'.log.Keys == st.log.Keys
    ensures RoomOk(st')
  {
    hide WorldOk, RosterOk;
    SameWorld(st, st');
  }

  lemma HelloKeeps(st: Server, s: SessionId, ok: bool, name: Name, look: Look, effects: seq<Effect>,
      room: Room, o: Order, claims: set<NetId>)
    requires Inv(st, claims) && Picks(o) && InRange(OnHello(st, s, ok, name, look, effects, room, o))
    ensures Inv(OnHello(st, s, ok, name, look, effects, room, o), claims)
  {
    hide Inv, WorldOk, RosterOk, SessionsOk, ClientsOk, Introduce, Replay, RunEffect;
    TouchKeeps(st, s, claims);
    var st0 := Touch(st, s);
    if ok {
      var st1 := if s in st0.sessions then st0
                 else st0.(sessions := st0.sessions[s := UNJOINED], log := st0.log[s := []]);
      if s !in st0.sessions { NewSessionKeeps(st0, s, 0.0, claims); }
      assert Inv(st1, claims);
      if !st1.sessions[s].spawned && |Joined(st1)| < room.maxPlayers {
        ScriptsKeepSessions(SpawnPlayer(st1, s, name, look), effects);
        WelcomeKeeps(st1, s, name, look, effects, o, claims);
      }
    }
  }
}
