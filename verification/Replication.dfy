/** The replication protocol as functions on values: the server's handlers and tick, the
    reliable messages they put on each session's stream, and the client's fold over them. */
module Replication {
  import opened Wrappers

  // ----- ids -----

  /** Entities are named by Identity.id, a counter that only climbs. */
  type Ent = nat
  type SessionId = nat
  type NetId = nat

  const PLAYER_BASE: nat := 0x4000_0000
  const SPAWN_BASE: nat := 0x6000_0000
  const NET_IDS: nat := 0x1_0000_0000

  predicate IsPlayerId(id: NetId) { PLAYER_BASE <= id < SPAWN_BASE }
  predicate IsSpawnId(id: NetId) { SPAWN_BASE <= id }

  /** What a SpawnEntity message carries beside the id, opaque here. */
  datatype Look = Look(kind: nat, scale: nat, color: nat)

  type Name = seq<nat>

  // ----- messages and the client -----

  datatype Message =
    | ServerWelcome(netId: NetId)
    | PlayerJoin(netId: NetId, name: Name)
    | PlayerLeave(netId: NetId)
    | SpawnEntity(netId: NetId, look: Look)
    | DespawnEntity(netId: NetId)

  /** A represented entity: a scene body the client loaded itself, a proxy, or another player's avatar. */
  datatype Rep = Claimed | Proxy(look: Look) | Avatar(name: Name)

  datatype Client = Client(joined: bool, me: NetId, reps: map<NetId, Rep>)

  /** A client that has loaded the scene and claimed its bodies. */
  function FreshClient(claims: set<NetId>): Client {
    Client(false, 0, map id | id in claims :: Claimed)
  }

  function Receive(c: Client, m: Message): Client {
    match m
    case ServerWelcome(id) => c.(joined := true, me := id)
    case PlayerJoin(id, name) =>
      if id == c.me then c
      else if id in c.reps && !c.reps[id].Avatar? then c
      else c.(reps := c.reps[id := Avatar(name)])
    case PlayerLeave(id) => c.(reps := c.reps - {id})
    case SpawnEntity(id, look) =>
      if id in c.reps then c else c.(reps := c.reps[id := Proxy(look)])
    case DespawnEntity(id) => c.(reps := c.reps - {id})
  }

  function Fold(c: Client, log: seq<Message>): Client {
    if log == [] then c else Receive(Fold(c, log[..|log| - 1]), log[|log| - 1])
  }

  // ----- the server's state -----

  /** `netId` is None until the body is replicated. */
  datatype Body = Body(dynamic: bool, netId: Option<NetId>, look: Look)

  datatype Session = Session(netId: NetId, name: Name, entity: Ent, spawned: bool, lastActive: real)

  const UNJOINED: Session := Session(0, [], 0, false, 0.0)

  datatype Spawned = Spawned(netId: NetId, look: Look)

  /** `log` is what was sent reliably to each current session since it appeared. */
  datatype Server = Server(
    sessions: map<SessionId, Session>,
    bodies: map<Ent, Body>,
    nextEnt: nat,
    nextPlayer: nat,
    nextSpawn: nat,
    spawned: seq<Spawned>,
    pending: seq<NetId>,
    sceneNetIds: seq<NetId>,
    resetRequested: bool,
    clock: real,
    log: map<SessionId, seq<Message>>)

  /** The scene as loaded: its bodies in file order. */
  type SceneFile = seq<Body>

  /** The room's settings; bodies in the file carry no net id. */
  datatype Room = Room(file: SceneFile, maxPlayers: nat, idleTimeout: real) {
    ghost predicate Valid() {
      forall i :: 0 <= i < |file| ==> file[i].netId.None?
    }
  }

  /** The order in which a container happens to be iterated: which element of a non-empty set comes first. */
  type Order = set<nat> -> nat

  ghost predicate Picks(o: Order) {
    forall s: set<nat> {:trigger o(s)} :: s != {} ==> o(s) in s
  }

  function Joined(st: Server): set<SessionId> {
    set s | s in st.sessions && st.sessions[s].spawned
  }

  /** Appends a message to the streams of the given sessions. */
  function Send(log: map<SessionId, seq<Message>>, to: set<SessionId>, m: Message): map<SessionId, seq<Message>> {
    map s | s in log :: if s in to then log[s] + [m] else log[s]
  }

  // ----- scripts -----

  /** What a running script can do to the replicated world. Player bodies are not destroyed by scripts. */
  datatype Effect = SpawnBody(dynamic: bool, look: Look) | DestroyBody(ent: Ent) | RequestReset

  function AddBody(st: Server, b: Body): Server {
    st.(bodies := st.bodies[st.nextEnt := b], nextEnt := st.nextEnt + 1)
  }

  /** The observer of NetId destruction: players are announced by PlayerLeave, and a scene
      body taken down by a reset comes straight back. */
  function NoteDestroyed(pending: seq<NetId>, netId: Option<NetId>, resetting: bool): seq<NetId> {
    if netId.None? then pending
    else
      var sceneBody := netId.value < PLAYER_BASE;
      if sceneBody && resetting then pending
      else if sceneBody || netId.value >= SPAWN_BASE then pending + [netId.value]
      else pending
  }

  function RemoveBody(st: Server, e: Ent, resetting: bool): Server
    requires e in st.bodies
  {
    st.(bodies := st.bodies - {e}, pending := NoteDestroyed(st.pending, st.bodies[e].netId, resetting))
  }

  predicate IsPlayerBody(b: Body) { b.netId.Some? && IsPlayerId(b.netId.value) }

  function RunEffect(st: Server, x: Effect): Server {
    match x
    case SpawnBody(dynamic, look) => AddBody(st, Body(dynamic, None, look))
    case DestroyBody(e) => if e in st.bodies && !IsPlayerBody(st.bodies[e]) then RemoveBody(st, e, false) else st
    case RequestReset => st.(resetRequested := true)
  }

  function RunScripts(st: Server, effects: seq<Effect>): Server
    decreases |effects|
  {
    if effects == [] then st else RunScripts(RunEffect(st, effects[0]), effects[1..])
  }

  // ----- scene ids -----

  function LoadFile(st: Server, file: SceneFile): (r: Server)
    ensures r == st.(bodies := r.bodies, nextEnt := st.nextEnt + |file|)
    decreases |file|
  {
    if file == [] then st else LoadFile(AddBody(st, file[0]), file[1..])
  }

  /** Dynamic bodies that carry no net id. */
  function Unreplicated(bodies: map<Ent, Body>): set<Ent> {
    set e | e in bodies && bodies[e].dynamic && bodies[e].netId.None?
  }

  /** The members of a set of ids in ascending order, looking from `lo` up to `hi`. */
  function Ascending(s: set<Ent>, lo: nat, hi: nat): seq<Ent>
    decreases hi - lo
  {
    if lo >= hi then []
    else if lo in s then [lo] + Ascending(s, lo + 1, hi)
    else Ascending(s, lo + 1, hi)
  }

  function GiveId(bodies: map<Ent, Body>, e: Ent, id: NetId): map<Ent, Body>
    requires e in bodies
  {
    bodies[e := bodies[e].(netId := Some(id))]
  }

  function GiveIds(bodies: map<Ent, Body>, ents: seq<Ent>, ids: seq<NetId>): map<Ent, Body>
    requires forall i :: 0 <= i < |ents| ==> ents[i] in bodies
  {
    if ents == [] || ids == [] then bodies
    else GiveIds(GiveId(bodies, ents[0], ids[0]), ents[1..], ids[1..])
  }

  lemma {:induction false} AscendingMembers(s: set<Ent>, lo: nat, hi: nat)
    ensures forall i :: 0 <= i < |Ascending(s, lo, hi)| ==>
              Ascending(s, lo, hi)[i] in s && lo <= Ascending(s, lo, hi)[i] < hi
    ensures forall i, j :: 0 <= i < j < |Ascending(s, lo, hi)| ==> Ascending(s, lo, hi)[i] < Ascending(s, lo, hi)[j]
    ensures forall e :: e in s && lo <= e < hi ==> e in Ascending(s, lo, hi)
    decreases hi - lo
  {
    if lo < hi { AscendingMembers(s, lo + 1, hi); }
  }

  /** First load: each body's net id is its Identity.id, and the ids are recorded. Afterwards:
      the recorded ids are handed out again in load order, as far as they go. */
  function AssignSceneNetIds(st: Server, firstLoad: bool): Server {
    var ents := Ascending(Unreplicated(st.bodies), 0, st.nextEnt);
    AscendingMembers(Unreplicated(st.bodies), 0, st.nextEnt);
    if firstLoad then st.(bodies := GiveIds(st.bodies, ents, ents), sceneNetIds := ents)
    else st.(bodies := GiveIds(st.bodies, ents, st.sceneNetIds))
  }

  /** Loading the room: the file, then the start scripts, then the first assignment of ids. */
  function Init(room: Room, startEffects: seq<Effect>): Server {
    var st := Server(map[], map[], 1, 0, 0, [], [], [], false, 0.0, map[]);
    AssignSceneNetIds(RunScripts(LoadFile(st, room.file), startEffects), true)
  }

  // ----- session handlers -----

  function OnConnect(st: Server, s: SessionId): Server {
    if s in st.sessions then st.(sessions := st.sessions[s := st.sessions[s].(lastActive := st.clock)])
    else st.(sessions := st.sessions[s := UNJOINED.(lastActive := st.clock)], log := st.log[s := []])
  }

  /** despawnPlayer, erase, and the farewell to everyone left. */
  function RemoveSession(st: Server, s: SessionId): Server
    requires s in st.sessions
  {
    var ses := st.sessions[s];
    var st1 := if ses.spawned && ses.entity in st.bodies then RemoveBody(st, ses.entity, false) else st;
    var log := st1.log - {s};
    st1.(sessions := st1.sessions - {s},
         log := if ses.netId != 0 then Send(log, log.Keys, PlayerLeave(ses.netId)) else log)
  }

  function OnDisconnect(st: Server, s: SessionId): Server {
    if s in st.sessions then RemoveSession(st, s) else st
  }

  function Touch(st: Server, s: SessionId): Server {
    if s in st.sessions then st.(sessions := st.sessions[s := st.sessions[s].(lastActive := st.clock)]) else st
  }

  /** A new player body; its scripts are compiled at once and may act. */
  function SpawnPlayer(st: Server, s: SessionId, name: Name, look: Look): Server
    requires s in st.sessions
  {
    var id := PLAYER_BASE + st.nextPlayer;
    AddBody(st, Body(true, Some(id), look)).(
      sessions := st.sessions[s := st.sessions[s].(netId := id, name := name, entity := st.nextEnt, spawned := true)],
      nextPlayer := st.nextPlayer + 1)
  }

  /** Introduces the newcomer and one other session to each other. */
  function Introduce(st: Server, s: SessionId, other: SessionId): Server
    requires s in st.sessions && other in st.sessions
  {
    var me, them := st.sessions[s], st.sessions[other];
    var log := Send(st.log, {other}, PlayerJoin(me.netId, me.name));
    st.(log := if them.spawned then Send(log, {s}, PlayerJoin(them.netId, them.name)) else log)
  }

  function IntroduceAll(st: Server, s: SessionId, others: set<SessionId>, o: Order): (r: Server)
    requires Picks(o) && s in st.sessions && others <= st.sessions.Keys
    ensures r == st.(log := r.log)
    decreases others
  {
    if others == {} then st
    else
      var t := o(others);
      IntroduceAll(Introduce(st, s, t), s, others - {t}, o)
  }

  function Replay(st: Server, s: SessionId, spawns: seq<Spawned>): (r: Server)
    ensures r == st.(log := r.log)
    decreases |spawns|
  {
    if spawns == [] then st
    else Replay(st.(log := Send(st.log, {s}, SpawnEntity(spawns[0].netId, spawns[0].look))), s, spawns[1..])
  }

  /** ClientHello. `name` is the sanitised name; `effects` is what the player's scripts do while compiling. */
  function OnHello(st: Server, s: SessionId, versionOk: bool, name: Name, look: Look, effects: seq<Effect>,
      room: Room, o: Order): Server
    requires Picks(o)
  {
    var st := Touch(st, s);
    if !versionOk then st
    else
      var st1 := if s in st.sessions then st else st.(sessions := st.sessions[s := UNJOINED], log := st.log[s := []]);
      if st1.sessions[s].spawned || |Joined(st1)| >= room.maxPlayers then st1
      else
        var st2 := RunScripts(SpawnPlayer(st1, s, name, look), effects);
        ScriptsKeepSessions(SpawnPlayer(st1, s, name, look), effects);
        var st3 := st2.(log := Send(st2.log, {s}, ServerWelcome(st2.sessions[s].netId)));
        var st4 := IntroduceAll(st3, s, st3.sessions.Keys - {s}, o);
        Replay(st4, s, st4.spawned)
  }

  lemma {:induction false} ScriptsKeepSessions(st: Server, effects: seq<Effect>)
    ensures var st' := RunScripts(st, effects);
            && st'.sessions == st.sessions && st'.log == st.log && st'.spawned == st.spawned
            && st'.nextPlayer == st.nextPlayer && st'.nextSpawn == st.nextSpawn && st'.sceneNetIds == st.sceneNetIds
            && st.nextEnt <= st'.nextEnt && st'.clock == st.clock
    decreases |effects|
  {
    if effects != [] { ScriptsKeepSessions(RunEffect(st, effects[0]), effects[1..]); }
  }

  // ----- the tick -----

  function Idle(st: Server, room: Room): set<SessionId> {
    set s | s in st.sessions && st.clock - st.sessions[s].lastActive > room.idleTimeout
  }

  function RemoveSessions(st: Server, dead: set<SessionId>, o: Order): (r: Server)
    requires Picks(o) && dead <= st.sessions.Keys
    ensures r == st.(sessions := st.sessions - dead, bodies := r.bodies, pending := r.pending, log := r.log)
    decreases dead
  {
    if dead == {} then assert st.sessions - dead == st.sessions; st
    else
      var s := o(dead);
      assert st.sessions - {s} - (dead - {s}) == st.sessions - dead;
      RemoveSessions(RemoveSession(st, s), dead - {s}, o)
  }

  function SparedEntities(st: Server): set<Ent> {
    set s | s in st.sessions && st.sessions[s].spawned :: st.sessions[s].entity
  }

  function DestroyAll(st: Server, victims: set<Ent>, o: Order): (r: Server)
    requires Picks(o) && victims <= st.bodies.Keys
    ensures r == st.(bodies := r.bodies, pending := r.pending)
    decreases victims
  {
    if victims == {} then st
    else
      var e := o(victims);
      DestroyAll(RemoveBody(st, e, true), victims - {e}, o)
  }

  /** Tears the world down around the players and rebuilds it from the file under the recorded ids. */
  function Rebuild(st: Server, room: Room, o: Order): Server
    requires Picks(o)
  {
    AssignSceneNetIds(LoadFile(DestroyAll(st, st.bodies.Keys - SparedEntities(st), o), room.file), false)
  }

  function ApplyPendingReset(st: Server, startEffects: seq<Effect>, room: Room, o: Order): Server
    requires Picks(o)
  {
    if !st.resetRequested then st
    else RunScripts(Rebuild(st.(resetRequested := false), room, o), startEffects)
  }

  function Announce(st: Server, e: Ent): Server
    requires e in st.bodies
  {
    var id, look := SPAWN_BASE + st.nextSpawn, st.bodies[e].look;
    st.(bodies := GiveId(st.bodies, e, id),
        nextSpawn := st.nextSpawn + 1,
        spawned := st.spawned + [Spawned(id, look)],
        log := Send(st.log, Joined(st), SpawnEntity(id, look)))
  }

  function AnnounceAll(st: Server, freshBodies: set<Ent>, o: Order): (r: Server)
    requires Picks(o) && freshBodies <= st.bodies.Keys
    ensures r == st.(bodies := r.bodies, nextSpawn := r.nextSpawn, spawned := r.spawned, log := r.log)
    decreases freshBodies
  {
    if freshBodies == {} then st
    else
      var e := o(freshBodies);
      AnnounceAll(Announce(st, e), freshBodies - {e}, o)
  }

  function Without(spawned: seq<Spawned>, id: NetId): seq<Spawned> {
    if spawned == [] then []
    else if spawned[0].netId == id then Without(spawned[1..], id)
    else [spawned[0]] + Without(spawned[1..], id)
  }

  /** Announces the oldest pending removal. */
  function FlushOne(st: Server): Server
    requires st.pending != []
  {
    st.(pending := st.pending[1..],
        spawned := Without(st.spawned, st.pending[0]),
        log := Send(st.log, Joined(st), DespawnEntity(st.pending[0])))
  }

  function FlushDespawns(st: Server): (r: Server)
    ensures r == st.(pending := [], spawned := r.spawned, log := r.log)
    decreases |st.pending|
  {
    if st.pending == [] then st else FlushDespawns(FlushOne(st))
  }

  /** The first half of a tick: reap the silent and run the scripts. */
  function BeforeReset(st: Server, dt: real, effects: seq<Effect>, room: Room, o: Order): Server
    requires Picks(o)
  {
    var st0 := st.(clock := st.clock + dt);
    RunScripts(RemoveSessions(st0, Idle(st0, room), o), effects)
  }

  /** One tick: reap the silent, run the scripts, act on a reset, announce what appeared and what went. */
  function Tick(st: Server, dt: real, effects: seq<Effect>, startEffects: seq<Effect>, room: Room, o: Order): Server
    requires Picks(o)
  {
    var st2 := ApplyPendingReset(BeforeReset(st, dt, effects, room, o), startEffects, room, o);
    FlushDespawns(AnnounceAll(st2, Unreplicated(st2.bodies), o))
  }

  // ----- runs -----

  datatype Event =
    | Connect(s: SessionId)
    | Disconnect(s: SessionId)
    | Hello(s: SessionId, versionOk: bool, name: Name, look: Look, effects: seq<Effect>, order: Order)
    | Input(s: SessionId)
    | AskReset
    | TickEvent(dt: real, effects: seq<Effect>, startEffects: seq<Effect>, order: Order)
  {
    ghost predicate Valid() {
      match this
      case Hello(_, _, _, _, _, o) => Picks(o)
      case TickEvent(_, _, _, o) => Picks(o)
      case _ => true
    }
  }

  ghost function Step(st: Server, ev: Event, room: Room): Server
    requires ev.Valid()
  {
    match ev
    case Connect(s) => OnConnect(st, s)
    case Disconnect(s) => OnDisconnect(st, s)
    case Hello(s, ok, name, look, effects, o) => OnHello(st, s, ok, name, look, effects, room, o)
    case Input(s) => Touch(st, s)
    case AskReset => st.(resetRequested := true)
    case TickEvent(dt, effects, startEffects, o) => Tick(st, dt, effects, startEffects, room, o)
  }

  ghost predicate AllValid(events: seq<Event>) {
    forall i :: 0 <= i < |events| ==> events[i].Valid()
  }

  ghost function Run(room: Room, startEffects: seq<Effect>, events: seq<Event>): Server
    requires AllValid(events)
  {
    if events == [] then Init(room, startEffects)
    else Step(Run(room, startEffects, events[..|events| - 1]), events[|events| - 1], room)
  }
}
