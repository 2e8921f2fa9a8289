/** The room manager's lock regions: the port table, the room table, and one reaper pass. */
module Rooms {
  import opened Wrappers

  type Port = nat
  type Time = nat
  /** A token is 128 random bits; it identifies a room for as long as anyone remembers it. */
  type Token = nat

  /** Times in milliseconds; `idle` is the idle window. */
  datatype Config = Config(portMin: Port, portMax: Port, maxRooms: nat, idle: nat, cooldown: nat)

  datatype Room = Room(game: nat, version: int, port: Port, maxPlayers: nat, players: nat, lastOccupied: Time)

  /** In use (None), or cooling down until a time. */
  type PortTable = map<Port, Option<Time>>

  // ----- ports -----

  function Purge(ports: PortTable, now: Time): PortTable {
    map p | p in ports && (ports[p].None? || ports[p].value > now) :: ports[p]
  }

  /** The lowest port of the pool from `lo` on that the table does not mention. */
  function LowestFree(ports: PortTable, lo: Port, hi: Port): (r: Option<Port>)
    ensures r.Some? ==> lo <= r.value <= hi && r.value !in ports && forall p :: lo <= p < r.value ==> p in ports
    ensures r.None? ==> forall p :: lo <= p <= hi ==> p in ports
    decreases hi + 1 - lo
  {
    if lo > hi then None
    else if lo !in ports then Some(lo)
    else LowestFree(ports, lo + 1, hi)
  }

  function Claim(ports: PortTable, cfg: Config, now: Time): (PortTable, Option<Port>) {
    var left := Purge(ports, now);
    match LowestFree(left, cfg.portMin, cfg.portMax)
    case Some(p) => (left[p := None], Some(p))
    case None => (left, None)
  }

  function Release(ports: PortTable, p: Port, cfg: Config, now: Time): PortTable {
    ports[p := Some(now + cfg.cooldown)]
  }

  // ----- rooms -----

  predicate Joinable(r: Room, game: nat, version: int) {
    r.game == game && r.version == version && r.players < r.maxPlayers
  }

  /** What a status probe found. */
  datatype Verdict = Exited | Answer(sessions: nat, players: nat) | Silent

  function Refreshed(r: Room, v: Verdict, now: Time): Room {
    if !v.Answer? then r
    else if v.sessions > 0 then r.(players := v.players, lastOccupied := now)
    else r.(players := v.players)
  }

  predicate Doomed(r: Room, v: Verdict, cfg: Config, now: Time) {
    v.Exited? || ((v.Silent? || v.sessions == 0) && now - r.lastOccupied >= cfg.idle)
  }

  /** The rooms after a pass over the probed ones in the given order, and those to be stopped. */
  function MarkAll(rooms: map<Token, Room>, statuses: seq<(Token, Verdict)>, cfg: Config, now: Time)
      : (map<Token, Room>, seq<(Token, Port)>)
  {
    if statuses == [] then (rooms, [])
    else
      var (seen, dead) := MarkAll(rooms, statuses[..|statuses| - 1], cfg, now);
      var (t, v) := statuses[|statuses| - 1];
      if t !in seen then (seen, dead)
      else
        (seen[t := Refreshed(seen[t], v, now)],
         if Doomed(seen[t], v, cfg, now) then dead + [(t, seen[t].port)] else dead)
  }

  // ----- the manager -----

  class RoomManager {
    const cfg: Config
    var rooms: map<Token, Room>
    var ports: PortTable

    constructor (cfg: Config)
      ensures this.cfg == cfg && rooms == map[] && ports == map[]
    {
      this.cfg := cfg;
      rooms, ports := map[], map[];
    }

    method FindJoinable(game: nat, version: int) returns (found: Option<Token>)
      ensures found.Some? ==> found.value in rooms
      ensures found.Some? ==> rooms[found.value].game == game && rooms[found.value].version == version
      ensures found.Some? ==> rooms[found.value].players < rooms[found.value].maxPlayers
      ensures found.None? ==> forall t :: t in rooms && rooms[t].game == game && rooms[t].version == version ==>
                                rooms[t].maxPlayers <= rooms[t].players
    {
      var todo := rooms.Keys;
      while todo != {}
        invariant todo <= rooms.Keys
        invariant forall t :: t in rooms && t !in todo ==> !Joinable(rooms[t], game, version)
        decreases todo
      {
        var t :| t in todo;
        if Joinable(rooms[t], game, version) { return Some(t); }
        todo := todo - {t};
      }
      found := None;
    }

    method ClaimPort(now: Time) returns (port: Option<Port>)
      modifies this`ports
      ensures (ports, port) == Claim(old(ports), cfg, now)
    {
      var todo := ports.Keys;
      while todo != {}
        invariant todo <= ports.Keys
        invariant ports == map p | p in old(ports) &&
                    (p in todo || old(ports)[p].None? || old(ports)[p].value > now) :: old(ports)[p]
        decreases todo
      {
        var p :| p in todo;
        if ports[p].Some? && ports[p].value <= now { ports := ports - {p}; }
        todo := todo - {p};
      }
      assert ports == Purge(old(ports), now);
      var p := cfg.portMin;
      while p <= cfg.portMax
        invariant LowestFree(ports, p, cfg.portMax) == LowestFree(Purge(old(ports), now), cfg.portMin, cfg.portMax)
        invariant ports == Purge(old(ports), now)
      {
        if p !in ports {
          ports := ports[p := None];
          return Some(p);
        }
        p := p + 1;
      }
      port := None;
    }

    method ReleasePort(port: Port, now: Time)
      modifies this`ports
      ensures ports == Release(old(ports), port, cfg, now)
    {
      ports := ports[port := Some(now + cfg.cooldown)];
    }

    method Insert(token: Token, room: Room)
      modifies this`rooms
      ensures rooms == old(rooms)[token := room]
    {
      rooms := rooms[token := room];
    }

    /** The reaper's second lock region. */
    method Mark(statuses: seq<(Token, Verdict)>, now: Time) returns (dead: seq<(Token, Port)>)
      modifies this`rooms
      ensures (rooms, dead) == MarkAll(old(rooms), statuses, cfg, now)
    {
      dead := [];
      var i := 0;
      while i < |statuses|
        invariant i <= |statuses| && (rooms, dead) == MarkAll(old(rooms), statuses[..i], cfg, now)
      {
        assert statuses[..i + 1][..i] == statuses[..i];
        var (t, v) := statuses[i];
        if t in rooms {
          var room := rooms[t];
          ghost var before := rooms;
          match v {
            case Exited =>
              dead := dead + [(t, room.port)];
            case Answer(sessions, players) =>
              rooms := rooms[t := room.(players := players)];
              if sessions > 0 {
                rooms := rooms[t := rooms[t].(lastOccupied := now)];
              } else if now - room.lastOccupied >= cfg.idle {
                dead := dead + [(t, room.port)];
              }
            case Silent =>
              if now - room.lastOccupied >= cfg.idle { dead := dead + [(t, room.port)]; }
          }
          assert rooms == before[t := Refreshed(room, v, now)];
        }
        i := i + 1;
      }
      assert statuses[..i] == statuses;
    }

    method Stop(token: Token)
      modifies this`rooms
      ensures rooms == old(rooms) - {token}
    {
      rooms := rooms - {token};
    }
  }
}
