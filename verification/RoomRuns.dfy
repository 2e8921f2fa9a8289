/** Interleavings of any number of joins with one reaper and a shutdown, each lock region one step. */
module RoomRuns {
  import opened Wrappers
  import opened Rooms

  // ----- the state and its steps -----

  /** Where a join stands between its lock regions. `Spawning` holds its port with no lock at all. */
  datatype Phase = Looking | Counting | Claiming | Spawning(port: Port)

  datatype Join = Join(game: nat, version: int, maxPlayers: nat, phase: Phase)

  /** The reaper between its lock regions: `Stopping` is about to stop the first of `dead`,
      `Releasing` has stopped it and still owes its port. */
  datatype Reaper =
    | Asleep
    | Probing(tokens: set<Token>)
    | Stopping(dead: seq<(Token, Port)>)
    | Releasing(dead: seq<(Token, Port)>)

  datatype Entry = Claimed(port: Port, at: Time) | Released(port: Port, at: Time)

  type JoinId = nat

  datatype State = State(now: Time, rooms: map<Token, Room>, ports: PortTable, joins: map<JoinId, Join>,
                         reaper: Reaper, issued: set<Token>, history: seq<Entry>)

  const START: State := State(0, map[], map[], map[], Asleep, {}, [])

  /** One step of a join, of the reaper or of a shutdown. `Dropped` abandons a join wherever it
      stands, as when the request it serves is cancelled; a port it had claimed is not given back. */
  datatype Action =
    | Advance(dt: nat)
    | Begin(j: JoinId, game: nat, version: int, maxPlayers: nat)
    | Look(j: JoinId, found: Option<Token>)
    | Count(j: JoinId)
    | ClaimPort(j: JoinId)
    | Started(j: JoinId, token: Token)
    | Failed(j: JoinId)
    | Dropped(j: JoinId)
    | Snapshot
    | Mark(statuses: seq<(Token, Verdict)>)
    | StopNext
    | ReleaseNext
    | ShutDownOne(token: Token)

  predicate At(st: State, j: JoinId, phase: Phase) { j in st.joins && st.joins[j].phase == phase }

  predicate DistinctTokens(statuses: seq<(Token, Verdict)>) {
    forall i, k :: 0 <= i < k < |statuses| ==> statuses[i].0 != statuses[k].0
  }

  ghost predicate Enabled(st: State, a: Action) {
    match a
    case Advance(dt) => true
    case Begin(j, _, _, _) => j !in st.joins
    case Look(j, found) =>
      At(st, j, Looking)
      && (found.Some? ==>
            found.value in st.rooms && Joinable(st.rooms[found.value], st.joins[j].game, st.joins[j].version))
      && (found.None? ==> forall t :: t in st.rooms ==> !Joinable(st.rooms[t], st.joins[j].game, st.joins[j].version))
    case Count(j) => At(st, j, Counting)
    case ClaimPort(j) => At(st, j, Claiming)
    case Started(j, token) => j in st.joins && st.joins[j].phase.Spawning? && token !in st.issued
    case Failed(j) => j in st.joins && st.joins[j].phase.Spawning?
    case Dropped(j) => j in st.joins
    case Snapshot => st.reaper.Asleep?
    case Mark(statuses) =>
      st.reaper.Probing? && DistinctTokens(statuses)
      && forall i :: 0 <= i < |statuses| ==> statuses[i].0 in st.reaper.tokens
    case StopNext => st.reaper.Stopping? && st.reaper.dead != []
    case ReleaseNext => st.reaper.Releasing? && st.reaper.dead != []
    case ShutDownOne(_) => true
  }

  function Enter(st: State, j: JoinId, phase: Phase): State
    requires j in st.joins
  {
    st.(joins := st.joins[j := st.joins[j].(phase := phase)])
  }

  function Leave(st: State, j: JoinId): State { st.(joins := st.joins - {j}) }

  function Idle(dead: seq<(Token, Port)>): Reaper { if dead == [] then Asleep else Stopping(dead) }

  function GiveBack(st: State, p: Port, cfg: Config): State {
    st.(ports := Release(st.ports, p, cfg, st.now), history := st.history + [Released(p, st.now)])
  }

  ghost function Step(st: State, a: Action, cfg: Config): State
    requires Enabled(st, a)
  {
    match a
    case Advance(dt) => st.(now := st.now + dt)
    case Begin(j, game, version, maxPlayers) => st.(joins := st.joins[j := Join(game, version, maxPlayers, Looking)])
    case Look(j, found) => if found.Some? then Leave(st, j) else Enter(st, j, Counting)
    case Count(j) => if |st.rooms| >= cfg.maxRooms then Leave(st, j) else Enter(st, j, Claiming)
    case ClaimPort(j) =>
      var (ports, got) := Claim(st.ports, cfg, st.now);
      var st1 := st.(ports := ports);
      if got.None? then Leave(st1, j)
      else Enter(st1, j, Spawning(got.value)).(history := st.history + [Claimed(got.value, st.now)])
    case Started(j, token) =>
      var join := st.joins[j];
      Leave(st, j).(rooms := st.rooms[token := Room(join.game, join.version, join.phase.port,
                                                    join.maxPlayers, 0, st.now)],
                    issued := st.issued + {token})
    case Failed(j) => GiveBack(Leave(st, j), st.joins[j].phase.port, cfg)
    case Dropped(j) => Leave(st, j)
    case Snapshot => st.(reaper := Probing(st.rooms.Keys))
    case Mark(statuses) =>
      var (rooms, dead) := MarkAll(st.rooms, statuses, cfg, st.now);
      st.(rooms := rooms, reaper := Idle(dead))
    case StopNext => st.(rooms := st.rooms - {st.reaper.dead[0].0}, reaper := Releasing(st.reaper.dead))
    case ReleaseNext => GiveBack(st, st.reaper.dead[0].1, cfg).(reaper := Idle(st.reaper.dead[1..]))
    case ShutDownOne(token) => st.(rooms := st.rooms - {token})
  }

  ghost predicate Legal(actions: seq<Action>, cfg: Config)
    decreases |actions|, 0
  {
    actions != [] ==>
      var before := actions[..|actions| - 1];
      Legal(before, cfg) && Enabled(Run(before, cfg), actions[|actions| - 1])
  }

  ghost function Run(actions: seq<Action>, cfg: Config): State
    requires Legal(actions, cfg)
    decreases |actions|, 1
  {
    if actions == [] then START
    else Step(Run(actions[..|actions| - 1], cfg), actions[|actions| - 1], cfg)
  }

  // ----- who holds which port -----

  function Dead(r: Reaper): seq<(Token, Port)> {
    if r.Stopping? || r.Releasing? then r.dead else []
  }

  ghost predicate Held(st: State, cfg: Config, p: Port) {
    cfg.portMin <= p <= cfg.portMax && p in st.ports && st.ports[p].None?
  }

  predicate Spawns(st: State, j: JoinId, p: Port) { At(st, j, Spawning(p)) }

  /** Ports of live rooms, of spawning joins and of rooms stopped but not yet released are
      pairwise distinct, inside the pool, and marked in use. */
  ghost predicate Exclusive(st: State, cfg: Config) {
    var dead := Dead(st.reaper);
    && (forall t :: t in st.rooms ==> Held(st, cfg, st.rooms[t].port))
    && (forall j, p: Port :: Spawns(st, j, p) ==> Held(st, cfg, p))
    && (forall i :: 0 <= i < |dead| ==> Held(st, cfg, dead[i].1))
    && (forall t, u :: t in st.rooms && u in st.rooms && t != u ==> st.rooms[t].port != st.rooms[u].port)
    && (forall j, k, p: Port :: Spawns(st, j, p) && Spawns(st, k, p) ==> j == k)
    && (forall i, k :: 0 <= i < k < |dead| ==> dead[i].1 != dead[k].1)
    && (forall t, j :: t in st.rooms ==> !Spawns(st, j, st.rooms[t].port))
    && (forall i, j :: 0 <= i < |dead| ==> !Spawns(st, j, dead[i].1))
    && (forall t, i :: t in st.rooms && 0 <= i < |dead| ==> (st.rooms[t].port == dead[i].1 <==> t == dead[i].0))
  }

  /** Tokens are issued once, and a room that has been stopped is gone. */
  ghost predicate Tokens(st: State) {
    var dead := Dead(st.reaper);
    && (forall t :: t in st.rooms ==> t in st.issued)
    && (forall i :: 0 <= i < |dead| ==> dead[i].0 in st.issued)
    && (st.reaper.Releasing? ==> dead != [] && dead[0].0 !in st.rooms)
  }

  ghost predicate Safe(st: State, cfg: Config) { Exclusive(st, cfg) && Tokens(st) }

  // ----- the steps that touch ports -----

  lemma ClaimIsFree(ports: PortTable, cfg: Config, now: Time)
    ensures var (after, got) := Claim(ports, cfg, now);
            && (forall p :: p in ports && ports[p].None? ==> p in after && after[p].None?)
            && (got.Some? ==> (
                  && cfg.portMin <= got.value <= cfg.portMax && got.value in after && after[got.value].None?
                  && (got.value in ports ==> ports[got.value].Some? && ports[got.value].value <= now)))
  {
  }

  /** The port may be claimed: not in the table, or its cooldown has run out. */
  predicate Claimable(ports: PortTable, p: Port, now: Time) {
    p in ports ==> ports[p].Some? && ports[p].value <= now
  }

  /** A claim takes the lowest port of the pool that may be claimed, if there is one, and changes
      no entry but those whose cooldown has run out. */
  lemma ClaimMeaning(ports: PortTable, cfg: Config, now: Time)
    ensures var (after, got) := Claim(ports, cfg, now);
            && (got.None? <==> forall p :: cfg.portMin <= p <= cfg.portMax ==> !Claimable(ports, p, now))
            && (got.Some? ==>
                  && cfg.portMin <= got.value <= cfg.portMax && Claimable(ports, got.value, now)
                  && got.value in after && after[got.value].None?
                  && forall p :: cfg.portMin <= p < got.value ==> !Claimable(ports, p, now))
            && (forall p :: got != Some(p) ==>
                  (p in after <==> p in ports && !Claimable(ports, p, now)) && (p in after ==> after[p] == ports[p]))
  {
    var left := Purge(ports, now);
    assert forall p :: p in left <==> p in ports && !Claimable(ports, p, now);
    assert forall p :: p in left ==> left[p] == ports[p];
    var r := LowestFree(left, cfg.portMin, cfg.portMax);
    assert Claim(ports, cfg, now) == (if r.Some? then (left[r.value := None], r) else (left, r));
    hide Purge, Claim, LowestFree;
    assert r.Some? ==> Claimable(ports, r.value, now);
  }

  /** A port given back may be claimed again exactly from the end of its cooldown on. */
  lemma ReleaseMeaning(ports: PortTable, p: Port, cfg: Config, at: Time, now: Time)
    ensures Claimable(Release(ports, p, cfg, at), p, now) <==> at + cfg.cooldown <= now
    ensures forall q :: q != p ==> (Claimable(Release(ports, p, cfg, at), q, now) <==> Claimable(ports, q, now))
  {
  }

  lemma ClaimKeeps(st: State, j: JoinId, cfg: Config)
    requires Safe(st, cfg) && Enabled(st, ClaimPort(j))
    ensures Safe(Step(st, ClaimPort(j), cfg), cfg)
  {
    ClaimIsFree(st.ports, cfg, st.now);
    hide Claim;
    var st' := Step(st, ClaimPort(j), cfg);
    var got := Claim(st.ports, cfg, st.now).1;
    assert forall k, p: Port :: Spawns(st', k, p) ==> (k != j && Spawns(st, k, p)) || (k == j && got == Some(p));
    assert forall p: Port :: Held(st, cfg, p) ==> Held(st', cfg, p) && got != Some(p);
  }

  lemma GiveBackKeeps(st: State, p: Port, cfg: Config)
    requires Safe(st, cfg)
    requires (forall t :: t in st.rooms ==> st.rooms[t].port != p) && (forall j :: !Spawns(st, j, p))
    requires forall i :: 0 <= i < |Dead(st.reaper)| ==> Dead(st.reaper)[i].1 != p
    ensures Safe(GiveBack(st, p, cfg), cfg)
  {
    var st' := GiveBack(st, p, cfg);
    assert forall q: Port :: Held(st, cfg, q) && q != p ==> Held(st', cfg, q);
    assert forall j, q: Port :: Spawns(st', j, q) == Spawns(st, j, q);
  }

  lemma FailedKeeps(st: State, j: JoinId, cfg: Config)
    requires Safe(st, cfg) && Enabled(st, Failed(j))
    ensures Safe(Step(st, Failed(j), cfg), cfg)
  {
    var p := st.joins[j].phase.port;
    assert Spawns(st, j, p);
    LeaveKeeps(st, j, cfg);
    var st1 := Leave(st, j);
    assert forall k, q: Port :: Spawns(st1, k, q) ==> Spawns(st, k, q) && k != j;
    GiveBackKeeps(st1, p, cfg);
  }

  lemma LeaveKeeps(st: State, j: JoinId, cfg: Config)
    requires Safe(st, cfg)
    ensures Safe(Leave(st, j), cfg)
  {
    var st' := Leave(st, j);
    assert forall k, q: Port :: Spawns(st', k, q) ==> Spawns(st, k, q);
    assert forall q: Port :: Held(st', cfg, q) == Held(st, cfg, q);
  }

  /** Moving a join between phases that hold no port. */
  lemma EnterKeeps(st: State, j: JoinId, phase: Phase, cfg: Config)
    requires Safe(st, cfg) && j in st.joins && !phase.Spawning?
    ensures Safe(Enter(st, j, phase), cfg)
  {
    var st' := Enter(st, j, phase);
    assert forall k, q: Port :: Spawns(st', k, q) ==> Spawns(st, k, q);
    assert forall q: Port :: Held(st', cfg, q) == Held(st, cfg, q);
  }

  lemma StartedKeeps(st: State, j: JoinId, token: Token, cfg: Config)
    requires Safe(st, cfg) && Enabled(st, Started(j, token))
    ensures Safe(Step(st, Started(j, token), cfg), cfg)
  {
    var st' := Step(st, Started(j, token), cfg);
    var p := st.joins[j].phase.port;
    assert Spawns(st, j, p);
    assert forall k, q: Port :: Spawns(st', k, q) ==> Spawns(st, k, q) && k != j;
    assert forall q: Port :: Held(st', cfg, q) == Held(st, cfg, q);
  }

  // ----- the reaper -----

  /** A pass keeps every room at its port and lists distinct rooms of the table. */
  lemma {:induction false} MarkedRooms(rooms: map<Token, Room>, statuses: seq<(Token, Verdict)>, cfg: Config, now: Time)
    requires DistinctTokens(statuses)
    ensures var (after, dead) := MarkAll(rooms, statuses, cfg, now);
            && after.Keys == rooms.Keys && (forall t :: t in rooms ==> after[t].port == rooms[t].port)
            && (forall i :: 0 <= i < |dead| ==> dead[i].0 in rooms && dead[i].1 == rooms[dead[i].0].port)
            && (forall i :: 0 <= i < |dead| ==> exists k :: 0 <= k < |statuses| && statuses[k].0 == dead[i].0)
            && (forall i, k :: 0 <= i < k < |dead| ==> dead[i].0 != dead[k].0)
  {
    if statuses != [] {
      var last := |statuses| - 1;
      MarkedRooms(rooms, statuses[..last], cfg, now);
      var (seen, dead0) := MarkAll(rooms, statuses[..last], cfg, now);
      assert forall i :: 0 <= i < |dead0| ==> dead0[i].0 != statuses[last].0;
      var (after, dead) := MarkAll(rooms, statuses, cfg, now);
      forall i | 0 <= i < |dead| ensures exists k :: 0 <= k < |statuses| && statuses[k].0 == dead[i].0 {
        if i < |dead0| {
          var k :| 0 <= k < |statuses[..last]| && statuses[..last][k].0 == dead0[i].0;
          assert statuses[k].0 == dead[i].0;
        } else {
          assert statuses[last].0 == dead[i].0;
        }
      }
    }
  }

  lemma MarkKeeps(st: State, statuses: seq<(Token, Verdict)>, cfg: Config)
    requires Safe(st, cfg) && Enabled(st, Mark(statuses))
    ensures Safe(Step(st, Mark(statuses), cfg), cfg)
  {
    MarkedRooms(st.rooms, statuses, cfg, st.now);
    hide MarkAll;
    var st' := Step(st, Mark(statuses), cfg);
    assert forall k, q: Port :: Spawns(st', k, q) == Spawns(st, k, q);
    assert forall q: Port :: Held(st', cfg, q) == Held(st, cfg, q);
  }

  lemma StopKeeps(st: State, cfg: Config)
    requires Safe(st, cfg) && Enabled(st, StopNext)
    ensures Safe(Step(st, StopNext, cfg), cfg)
  {
    var st' := Step(st, StopNext, cfg);
    assert Dead(st'.reaper) == Dead(st.reaper);
    assert forall t :: t in st'.rooms ==> t in st.rooms && st'.rooms[t] == st.rooms[t];
    assert forall k, q: Port :: Spawns(st', k, q) == Spawns(st, k, q);
    assert forall q: Port :: Held(st', cfg, q) == Held(st, cfg, q);
  }

  lemma ReleaseKeeps(st: State, cfg: Config)
    requires Safe(st, cfg) && Enabled(st, ReleaseNext)
    ensures Safe(Step(st, ReleaseNext, cfg), cfg)
  {
    var dead := st.reaper.dead;
    var st1 := st.(reaper := Idle(dead[1..]));
    assert forall i :: 0 <= i < |dead[1..]| ==> dead[1..][i] == dead[i + 1];
    assert Dead(st1.reaper) == dead[1..];
    assert forall k, q: Port :: Spawns(st1, k, q) == Spawns(st, k, q);
    assert forall q: Port :: Held(st1, cfg, q) == Held(st, cfg, q);
    assert Safe(st1, cfg);
    GiveBackKeeps(st1, dead[0].1, cfg);
    assert Step(st, ReleaseNext, cfg) == GiveBack(st1, dead[0].1, cfg);
  }

  lemma ShutDownKeeps(st: State, token: Token, cfg: Config)
    requires Safe(st, cfg)
    ensures Safe(st.(rooms := st.rooms - {token}), cfg)
  {
    var st' := st.(rooms := st.rooms - {token});
    assert forall k, q: Port :: Spawns(st', k, q) == Spawns(st, k, q);
    assert forall q: Port :: Held(st', cfg, q) == Held(st, cfg, q);
  }

  lemma QuietKeeps(st: State, st': State, cfg: Config)
    requires Safe(st, cfg) && st'.rooms == st.rooms && st'.ports == st.ports && st'.issued == st.issued
    requires Dead(st'.reaper) == Dead(st.reaper) && (st'.reaper.Releasing? ==> st.reaper.Releasing?)
    requires forall k, q: Port :: Spawns(st', k, q) ==> Spawns(st, k, q)
    ensures Safe(st', cfg)
  {
    assert forall q: Port :: Held(st', cfg, q) == Held(st, cfg, q);
  }

  lemma StepKeeps(st: State, a: Action, cfg: Config)
    requires Safe(st, cfg) && Enabled(st, a)
    ensures Safe(Step(st, a, cfg), cfg)
  {
    hide Safe;
    match a
    case Advance(dt) => QuietKeeps(st, Step(st, a, cfg), cfg);
    case Begin(j, game, version, maxPlayers) => QuietKeeps(st, Step(st, a, cfg), cfg);
    case Look(j, found) => if found.Some? { LeaveKeeps(st, j, cfg); } else { EnterKeeps(st, j, Counting, cfg); }
    case Count(j) =>
      if |st.rooms| >= cfg.maxRooms { LeaveKeeps(st, j, cfg); } else { EnterKeeps(st, j, Claiming, cfg); }
    case ClaimPort(j) => ClaimKeeps(st, j, cfg);
    case Started(j, token) => StartedKeeps(st, j, token, cfg);
    case Failed(j) => FailedKeeps(st, j, cfg);
    case Dropped(j) => LeaveKeeps(st, j, cfg);
    case Snapshot => QuietKeeps(st, Step(st, a, cfg), cfg);
    case Mark(statuses) => MarkKeeps(st, statuses, cfg);
    case StopNext => StopKeeps(st, cfg);
    case ReleaseNext => ReleaseKeeps(st, cfg);
    case ShutDownOne(token) => ShutDownKeeps(st, token, cfg);
  }

  /** Under every interleaving, ports stay exclusive. */
  lemma {:induction false} PortsStayExclusive(actions: seq<Action>, cfg: Config)
    requires Legal(actions, cfg)
    ensures Safe(Run(actions, cfg), cfg)
    decreases |actions|
  {
    if actions != [] {
      hide Safe, Step;
      PortsStayExclusive(actions[..|actions| - 1], cfg);
      StepKeeps(Run(actions[..|actions| - 1], cfg), actions[|actions| - 1], cfg);
    }
  }

  // ----- leaks -----

  /** The port is marked in use for a live room, a spawning join or the reaper. */
  ghost predicate HasHolder(st: State, p: Port) {
    || (exists t :: t in st.rooms && st.rooms[t].port == p)
    || (exists j :: Spawns(st, j, p))
    || (exists i :: 0 <= i < |Dead(st.reaper)| && Dead(st.reaper)[i].1 == p)
  }

  /** In use, and nobody left to give it back. */
  ghost predicate Leaked(st: State, cfg: Config, p: Port) { Held(st, cfg, p) && !HasHolder(st, p) }

  /** The two steps that lose a port: a join dropped while it spawns, and a shutdown of a room that
      the reaper is not about to release. */
  ghost predicate Loses(st: State, a: Action, p: Port) {
    || (a.Dropped? && Spawns(st, a.j, p))
    || (a.ShutDownOne? && a.token in st.rooms && st.rooms[a.token].port == p
        && forall i :: 0 <= i < |Dead(st.reaper)| ==> Dead(st.reaper)[i].1 != p)
  }

  lemma ClaimLeaks(st: State, j: JoinId, cfg: Config, p: Port)
    requires Safe(st, cfg) && Enabled(st, ClaimPort(j))
    ensures Leaked(Step(st, ClaimPort(j), cfg), cfg, p) <==> Leaked(st, cfg, p)
  {
    ClaimIsFree(st.ports, cfg, st.now);
    ClaimOnlyAdds(st.ports, cfg, st.now, p);
    hide Claim, Safe;
    var st' := Step(st, ClaimPort(j), cfg);
    var got := Claim(st.ports, cfg, st.now).1;
    assert forall k :: Spawns(st, k, p) ==> k != j && Spawns(st', k, p);
    assert forall k :: Spawns(st', k, p) ==> Spawns(st, k, p) || got == Some(p);
    assert got == Some(p) ==> Spawns(st', j, p);
  }

  lemma ClaimOnlyAdds(ports: PortTable, cfg: Config, now: Time, p: Port)
    ensures var (after, got) := Claim(ports, cfg, now);
            p in after && after[p].None? ==> (p in ports && ports[p].None?) || got == Some(p)
  {
  }

  lemma LeaveLeaks(st: State, j: JoinId, cfg: Config, p: Port)
    requires Safe(st, cfg) && j in st.joins
    ensures Leaked(Leave(st, j), cfg, p) <==> Leaked(st, cfg, p) || Spawns(st, j, p)
  {
    var st' := Leave(st, j);
    assert forall k :: Spawns(st', k, p) <==> Spawns(st, k, p) && k != j;
  }

  lemma FailedLeaks(st: State, j: JoinId, cfg: Config, p: Port)
    requires Safe(st, cfg) && Enabled(st, Failed(j))
    ensures Leaked(Step(st, Failed(j), cfg), cfg, p) <==> Leaked(st, cfg, p)
  {
    var st' := Step(st, Failed(j), cfg);
    assert Spawns(st, j, st.joins[j].phase.port);
    assert forall k :: Spawns(st', k, p) <==> Spawns(st, k, p) && k != j;
  }

  lemma StartedLeaks(st: State, j: JoinId, token: Token, cfg: Config, p: Port)
    requires Safe(st, cfg) && Enabled(st, Started(j, token))
    ensures Leaked(Step(st, Started(j, token), cfg), cfg, p) <==> Leaked(st, cfg, p)
  {
    var st' := Step(st, Started(j, token), cfg);
    assert Spawns(st, j, st.joins[j].phase.port);
    assert forall k :: Spawns(st', k, p) <==> Spawns(st, k, p) && k != j;
    assert token in st'.rooms && st'.rooms[token].port == st.joins[j].phase.port;
    assert forall t :: t in st.rooms ==> t in st'.rooms && st'.rooms[t] == st.rooms[t];
  }

  lemma MarkLeaks(st: State, statuses: seq<(Token, Verdict)>, cfg: Config, p: Port)
    requires Safe(st, cfg) && Enabled(st, Mark(statuses))
    ensures Leaked(Step(st, Mark(statuses), cfg), cfg, p) <==> Leaked(st, cfg, p)
  {
    MarkedRooms(st.rooms, statuses, cfg, st.now);
    hide MarkAll, Safe;
    var st' := Step(st, Mark(statuses), cfg);
    assert forall k :: Spawns(st', k, p) <==> Spawns(st, k, p);
    assert forall t :: t in st.rooms ==> t in st'.rooms && st'.rooms[t].port == st.rooms[t].port;
  }

  lemma StopLeaks(st: State, cfg: Config, p: Port)
    requires Safe(st, cfg) && Enabled(st, StopNext)
    ensures Leaked(Step(st, StopNext, cfg), cfg, p) <==> Leaked(st, cfg, p)
  {
    var st' := Step(st, StopNext, cfg);
    assert Dead(st'.reaper) == Dead(st.reaper);
    assert forall k :: Spawns(st', k, p) <==> Spawns(st, k, p);
    assert forall t :: t in st'.rooms ==> t in st.rooms && st'.rooms[t] == st.rooms[t];
    assert forall t :: t in st.rooms && t !in st'.rooms ==> t == Dead(st.reaper)[0].0;
  }

  lemma ReleaseLeaks(st: State, cfg: Config, p: Port)
    requires Safe(st, cfg) && Enabled(st, ReleaseNext)
    ensures Leaked(Step(st, ReleaseNext, cfg), cfg, p) <==> Leaked(st, cfg, p)
  {
    var st', dead := Step(st, ReleaseNext, cfg), st.reaper.dead;
    assert Dead(st.reaper) == dead && Dead(st'.reaper) == dead[1..];
    assert forall k :: Spawns(st', k, p) <==> Spawns(st, k, p);
    assert forall i :: 0 <= i < |dead[1..]| ==> dead[1..][i] == dead[i + 1];
    assert forall i :: 0 < i < |dead| ==> dead[i] == dead[1..][i - 1];
  }

  lemma ShutDownLeaks(st: State, token: Token, cfg: Config, p: Port)
    requires Safe(st, cfg)
    ensures Leaked(Step(st, ShutDownOne(token), cfg), cfg, p)
            <==> Leaked(st, cfg, p) || Loses(st, ShutDownOne(token), p)
  {
    var st' := Step(st, ShutDownOne(token), cfg);
    assert forall k :: Spawns(st', k, p) <==> Spawns(st, k, p);
    assert forall t :: t in st'.rooms <==> t in st.rooms && t != token;
  }

  lemma QuietLeaks(st: State, st': State, cfg: Config, p: Port)
    requires st'.rooms == st.rooms && st'.ports == st.ports && Dead(st'.reaper) == Dead(st.reaper)
    requires forall k :: Spawns(st', k, p) <==> Spawns(st, k, p)
    ensures Leaked(st', cfg, p) <==> Leaked(st, cfg, p)
  {
  }

  lemma LookLeaks(st: State, j: JoinId, found: Option<Token>, cfg: Config, p: Port)
    requires Safe(st, cfg) && Enabled(st, Look(j, found))
    ensures Leaked(Step(st, Look(j, found), cfg), cfg, p) <==> Leaked(st, cfg, p)
  {
    hide Safe, Leaked;
    if found.Some? { LeaveLeaks(st, j, cfg, p); } else { QuietLeaks(st, Enter(st, j, Counting), cfg, p); }
  }

  lemma CountLeaks(st: State, j: JoinId, cfg: Config, p: Port)
    requires Safe(st, cfg) && Enabled(st, Count(j))
    ensures Leaked(Step(st, Count(j), cfg), cfg, p) <==> Leaked(st, cfg, p)
  {
    hide Safe, Leaked;
    if |st.rooms| >= cfg.maxRooms {
      LeaveLeaks(st, j, cfg, p);
    } else {
      QuietLeaks(st, Enter(st, j, Claiming), cfg, p);
    }
  }

  lemma DroppedLeaks(st: State, j: JoinId, cfg: Config, p: Port)
    requires Safe(st, cfg) && Enabled(st, Dropped(j))
    ensures Leaked(Step(st, Dropped(j), cfg), cfg, p) <==> Leaked(st, cfg, p) || Loses(st, Dropped(j), p)
  {
    hide Safe, Leaked;
    LeaveLeaks(st, j, cfg, p);
  }

  lemma OtherLeaks(st: State, a: Action, cfg: Config, p: Port)
    requires Enabled(st, a) && (a.Advance? || a.Begin? || a.Snapshot?)
    ensures Leaked(Step(st, a, cfg), cfg, p) <==> Leaked(st, cfg, p)
  {
    hide Leaked;
    QuietLeaks(st, Step(st, a, cfg), cfg, p);
  }

  /** A port is leaked after a step if and only if it was before, or this step loses it: nothing
      claims or gives back a leaked port ever again. */
  lemma StepLeaks(st: State, a: Action, cfg: Config, p: Port)
    requires Safe(st, cfg) && Enabled(st, a)
    ensures Leaked(Step(st, a, cfg), cfg, p) <==> Leaked(st, cfg, p) || Loses(st, a, p)
  {
    hide Safe, Leaked, Claim, MarkAll, Step;
    match a
    case Look(j, found) => LookLeaks(st, j, found, cfg, p);
    case Count(j) => CountLeaks(st, j, cfg, p);
    case ClaimPort(j) => ClaimLeaks(st, j, cfg, p);
    case Started(j, token) => StartedLeaks(st, j, token, cfg, p);
    case Failed(j) => FailedLeaks(st, j, cfg, p);
    case Dropped(j) => DroppedLeaks(st, j, cfg, p);
    case Mark(statuses) => MarkLeaks(st, statuses, cfg, p);
    case StopNext => StopLeaks(st, cfg, p);
    case ReleaseNext => ReleaseLeaks(st, cfg, p);
    case ShutDownOne(token) => ShutDownLeaks(st, token, cfg, p);
    case _ => OtherLeaks(st, a, cfg, p);
  }

  ghost predicate EverLost(actions: seq<Action>, cfg: Config, p: Port)
    requires Legal(actions, cfg)
    decreases |actions|
  {
    actions != [] &&
    (EverLost(actions[..|actions| - 1], cfg, p)
     || Loses(Run(actions[..|actions| - 1], cfg), actions[|actions| - 1], p))
  }

  /** Under every interleaving a port is marked in use with nobody to give it back if and only if
      some step on the way lost it. */
  lemma {:induction false} LeaksAreLosses(actions: seq<Action>, cfg: Config, p: Port)
    requires Legal(actions, cfg)
    ensures Leaked(Run(actions, cfg), cfg, p) <==> EverLost(actions, cfg, p)
    decreases |actions|
  {
    if actions != [] {
      hide Safe, Step, Leaked, Loses;
      var before := actions[..|actions| - 1];
      LeaksAreLosses(before, cfg, p);
      PortsStayExclusive(before, cfg);
      StepLeaks(Run(before, cfg), actions[|actions| - 1], cfg, p);
    }
  }

  // ----- cooling down -----

  /** Whatever has been released is still cooling down, or has had its time. */
  ghost predicate Cooling(st: State, cfg: Config) {
    forall i :: 0 <= i < |st.history| && st.history[i].Released? ==>
      var p, until := st.history[i].port, st.history[i].at + cfg.cooldown;
      st.now >= until || (p in st.ports && st.ports[p].Some? && st.ports[p].value >= until)
  }

  ghost predicate Past(st: State) {
    forall i :: 0 <= i < |st.history| ==> st.history[i].at <= st.now
  }

  /** No port is claimed again before its cooldown has run. */
  ghost predicate Rested(history: seq<Entry>, cfg: Config) {
    forall i, k :: 0 <= i < k < |history| && history[i].Released? && history[k].Claimed?
      && history[i].port == history[k].port
      ==> history[k].at >= history[i].at + cfg.cooldown
  }

  lemma ClaimRests(st: State, j: JoinId, cfg: Config)
    requires Safe(st, cfg) && Cooling(st, cfg) && Past(st) && Rested(st.history, cfg) && Enabled(st, ClaimPort(j))
    ensures var st' := Step(st, ClaimPort(j), cfg); Cooling(st', cfg) && Past(st') && Rested(st'.history, cfg)
  {
    var (after, got) := Claim(st.ports, cfg, st.now);
    var left := Purge(st.ports, st.now);
    assert forall p :: p in left ==> p in st.ports && left[p] == st.ports[p];
    hide Safe, LowestFree;
    var st' := Step(st, ClaimPort(j), cfg);
    forall i | 0 <= i < |st'.history| && st'.history[i].Released?
      ensures st'.now >= st'.history[i].at + cfg.cooldown
              || (st'.history[i].port in st'.ports && st'.ports[st'.history[i].port].Some?
                  && st'.ports[st'.history[i].port].value >= st'.history[i].at + cfg.cooldown)
    {
      assert i < |st.history| && st'.history[i] == st.history[i];
    }
  }

  lemma GiveBackRests(st: State, p: Port, cfg: Config)
    requires Cooling(st, cfg) && Past(st) && Rested(st.history, cfg)
    ensures var st' := GiveBack(st, p, cfg); Cooling(st', cfg) && Past(st') && Rested(st'.history, cfg)
  {
  }

  lemma FailedRests(st: State, j: JoinId, cfg: Config)
    requires Cooling(st, cfg) && Past(st) && Rested(st.history, cfg) && Enabled(st, Failed(j))
    ensures var st' := Step(st, Failed(j), cfg); Cooling(st', cfg) && Past(st') && Rested(st'.history, cfg)
  {
    hide Rested, Cooling, Past, GiveBack;
    QuietRests(st, Leave(st, j), cfg);
    GiveBackRests(Leave(st, j), st.joins[j].phase.port, cfg);
  }

  lemma ReleaseRests(st: State, cfg: Config)
    requires Cooling(st, cfg) && Past(st) && Rested(st.history, cfg) && Enabled(st, ReleaseNext)
    ensures var st' := Step(st, ReleaseNext, cfg); Cooling(st', cfg) && Past(st') && Rested(st'.history, cfg)
  {
    hide Rested, Cooling, Past;
    var st1 := GiveBack(st, st.reaper.dead[0].1, cfg);
    GiveBackRests(st, st.reaper.dead[0].1, cfg);
    hide GiveBack;
    QuietRests(st1, Step(st, ReleaseNext, cfg), cfg);
  }

  lemma StepRests(st: State, a: Action, cfg: Config)
    requires Safe(st, cfg) && Cooling(st, cfg) && Past(st) && Rested(st.history, cfg) && Enabled(st, a)
    ensures var st' := Step(st, a, cfg); Cooling(st', cfg) && Past(st') && Rested(st'.history, cfg)
  {
    hide Safe, Claim, MarkAll, Rested, Cooling, Past, GiveBack;
    match a
    case ClaimPort(j) => ClaimRests(st, j, cfg);
    case Failed(j) => FailedRests(st, j, cfg);
    case ReleaseNext => ReleaseRests(st, cfg);
    case _ => QuietRests(st, Step(st, a, cfg), cfg);
  }

  lemma QuietRests(st: State, st': State, cfg: Config)
    requires Cooling(st, cfg) && Past(st)
    requires st'.history == st.history && st'.ports == st.ports && st'.now >= st.now
    ensures Cooling(st', cfg) && Past(st')
  {
  }

  /** Under every interleaving, between a port's release and its next claim the cooldown passes. */
  lemma {:induction false} CooldownsAreKept(actions: seq<Action>, cfg: Config)
    requires Legal(actions, cfg)
    ensures var st := Run(actions, cfg); Cooling(st, cfg) && Past(st) && Rested(st.history, cfg)
    decreases |actions|
  {
    if actions != [] {
      hide Safe, Step, Cooling, Past, Rested;
      var before := actions[..|actions| - 1];
      CooldownsAreKept(before, cfg);
      PortsStayExclusive(before, cfg);
      StepRests(Run(before, cfg), actions[|actions| - 1], cfg);
    }
  }

  // ----- how many rooms -----

  function Spawners(st: State): set<JoinId> {
    set j | j in st.joins && st.joins[j].phase.Spawning?
  }

  ghost function Image<K>(keys: set<K>, f: map<K, Port>): set<Port>
    requires keys <= f.Keys
  {
    set a | a in keys :: f[a]
  }

  lemma {:induction false} ImageSize<K>(keys: set<K>, f: map<K, Port>)
    requires keys <= f.Keys && forall a, b :: a in keys && b in keys && a != b ==> f[a] != f[b]
    ensures |Image(keys, f)| == |keys|
    decreases keys
  {
    if keys != {} {
      var k :| k in keys;
      ImageSize(keys - {k}, f);
      assert Image(keys, f) == Image(keys - {k}, f) + {f[k]};
    }
  }

  /** The ports of the pool. */
  function Pool(lo: Port, hi: Port): (r: set<Port>)
    ensures |r| == if lo <= hi then hi - lo + 1 else 0
    ensures forall p :: p in r <==> lo <= p <= hi
    decreases hi + 1 - lo
  {
    if lo > hi then {} else {lo} + Pool(lo + 1, hi)
  }

  lemma DisjointFit<T>(a: set<T>, b: set<T>, all: set<T>)
    requires a <= all && b <= all && a !! b
    ensures |a| + |b| <= |all|
  {
    assert |a + b| == |a| + |b|;
    SubsetSize(a + b, all);
  }

  function RoomPorts(st: State): set<Port> { set t | t in st.rooms :: st.rooms[t].port }

  function SpawnPorts(st: State): set<Port> { set j | j in Spawners(st) :: st.joins[j].phase.port }

  lemma CountRoomPorts(st: State, cfg: Config)
    requires Safe(st, cfg)
    ensures |RoomPorts(st)| == |st.rooms|
  {
    var ports := map t | t in st.rooms :: st.rooms[t].port;
    ImageSize(st.rooms.Keys, ports);
    assert RoomPorts(st) == Image(st.rooms.Keys, ports);
  }

  lemma CountSpawnPorts(st: State, cfg: Config)
    requires Safe(st, cfg)
    ensures |SpawnPorts(st)| == |Spawners(st)|
  {
    var ports := map j | j in Spawners(st) :: st.joins[j].phase.port;
    forall j, k | j in Spawners(st) && k in Spawners(st) && j != k ensures ports[j] != ports[k] {
      assert Spawns(st, j, ports[j]) && Spawns(st, k, ports[k]);
    }
    ImageSize(Spawners(st), ports);
    assert SpawnPorts(st) == Image(Spawners(st), ports);
  }

  lemma SafeFitsPool(st: State, cfg: Config)
    requires Safe(st, cfg)
    ensures |st.rooms| + |Spawners(st)| <= |Pool(cfg.portMin, cfg.portMax)|
  {
    CountRoomPorts(st, cfg);
    CountSpawnPorts(st, cfg);
    var pool := Pool(cfg.portMin, cfg.portMax);
    forall p | p in SpawnPorts(st) ensures p in pool && p !in RoomPorts(st) {
      var j :| j in Spawners(st) && st.joins[j].phase.port == p;
      assert Spawns(st, j, p);
    }
    forall p | p in RoomPorts(st) ensures p in pool {
    }
    hide Safe, RoomPorts, SpawnPorts, Spawners;
    DisjointFit(RoomPorts(st), SpawnPorts(st), pool);
  }

  /** The pool is the true bound on rooms and rooms being started, under every interleaving. */
  lemma PoolBoundsRooms(actions: seq<Action>, cfg: Config)
    requires Legal(actions, cfg)
    ensures var st := Run(actions, cfg);
            |st.rooms| + |Spawners(st)| <= if cfg.portMin <= cfg.portMax then cfg.portMax - cfg.portMin + 1 else 0
  {
    PortsStayExclusive(actions, cfg);
    SafeFitsPool(Run(actions, cfg), cfg);
  }
}
