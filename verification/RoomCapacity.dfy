/** How far concurrent joins can overshoot `maxRooms`: the test and the insertion are separate
    lock regions, so the limit holds for one join at a time and slips by one for each further one. */
module RoomCapacity {
  import opened Wrappers
  import opened Rooms
  import opened RoomRuns

  /** Joins that have passed the capacity test and not finished. */
  function Admitted(st: State): set<JoinId> {
    set j | j in st.joins && (st.joins[j].phase.Claiming? || st.joins[j].phase.Spawning?)
  }

  /** Never more than `J` joins under way at once. */
  ghost predicate AtMost(actions: seq<Action>, cfg: Config, J: nat)
    requires Legal(actions, cfg)
    decreases |actions|
  {
    |Run(actions, cfg).joins| <= J && (actions != [] ==> AtMost(actions[..|actions| - 1], cfg, J))
  }

  function Bound(cfg: Config, J: nat): nat { if cfg.maxRooms == 0 then 0 else cfg.maxRooms - 1 + J }

  // ----- the bound -----

  lemma AdmittedFit(st: State)
    ensures |Admitted(st)| <= |st.joins|
  {
    SubsetSize(Admitted(st), st.joins.Keys);
  }

  lemma LeaveAdmitted(st: State, j: JoinId)
    ensures |Admitted(Leave(st, j))| == |Admitted(st)| - if j in Admitted(st) then 1 else 0
  {
    assert Admitted(Leave(st, j)) == Admitted(st) - {j};
  }

  lemma SameAdmitted(st: State, st': State)
    requires Admitted(st') == Admitted(st) && st'.rooms.Keys <= st.rooms.Keys
    ensures |st'.rooms| + |Admitted(st')| <= |st.rooms| + |Admitted(st)|
  {
    SubsetSize(st'.rooms.Keys, st.rooms.Keys);
  }

  lemma ClaimWithin(st: State, j: JoinId, cfg: Config)
    requires Enabled(st, ClaimPort(j))
    ensures var st' := Step(st, ClaimPort(j), cfg); |st'.rooms| + |Admitted(st')| <= |st.rooms| + |Admitted(st)|
  {
    hide Claim;
    var (ports, got) := Claim(st.ports, cfg, st.now);
    var st1, st' := st.(ports := ports), Step(st, ClaimPort(j), cfg);
    if got.None? {
      assert Admitted(st1) == Admitted(st) && st' == Leave(st1, j);
      hide Admitted, Step, Enabled;
      LeaveAdmitted(st1, j);
    } else {
      assert Admitted(st') == Admitted(st) && st'.rooms == st.rooms;
    }
  }

  /** A join that ends leaves the admitted; if it ends well, a room takes its place. */
  lemma EndWithin(st: State, j: JoinId, a: Action, cfg: Config)
    requires Enabled(st, a) && (a == Failed(j) || (a.Started? && a.j == j))
    ensures var st' := Step(st, a, cfg); |st'.rooms| + |Admitted(st')| <= |st.rooms| + |Admitted(st)|
  {
    LeaveAdmitted(st, j);
    assert Admitted(Step(st, a, cfg)) == Admitted(Leave(st, j));
    assert j in Admitted(st);
  }

  /** Passing the test is the one step that can add to the sum, and only below the limit. */
  lemma CountWithin(st: State, j: JoinId, cfg: Config, J: nat)
    requires Enabled(st, Count(j)) && |Step(st, Count(j), cfg).joins| <= J
    requires |st.rooms| + |Admitted(st)| <= Bound(cfg, J)
    ensures var st' := Step(st, Count(j), cfg); |st'.rooms| + |Admitted(st')| <= Bound(cfg, J)
  {
    if |st.rooms| >= cfg.maxRooms { LeaveAdmitted(st, j); } else { AdmittedFit(Step(st, Count(j), cfg)); }
  }

  lemma LookWithin(st: State, j: JoinId, found: Option<Token>, cfg: Config)
    requires Enabled(st, Look(j, found))
    ensures var st' := Step(st, Look(j, found), cfg); |st'.rooms| + |Admitted(st')| <= |st.rooms| + |Admitted(st)|
  {
    if found.Some? { LeaveAdmitted(st, j); } else { SameAdmitted(st, Step(st, Look(j, found), cfg)); }
  }

  lemma MarkWithin(st: State, statuses: seq<(Token, Verdict)>, cfg: Config)
    requires Enabled(st, Mark(statuses))
    ensures var st' := Step(st, Mark(statuses), cfg); |st'.rooms| + |Admitted(st')| <= |st.rooms| + |Admitted(st)|
  {
    MarkedRooms(st.rooms, statuses, cfg, st.now);
    hide MarkAll;
    SameAdmitted(st, Step(st, Mark(statuses), cfg));
  }

  lemma StepWithin(st: State, a: Action, cfg: Config, J: nat)
    requires Enabled(st, a) && |Step(st, a, cfg).joins| <= J
    requires |st.rooms| + |Admitted(st)| <= Bound(cfg, J)
    ensures var st' := Step(st, a, cfg); |st'.rooms| + |Admitted(st')| <= Bound(cfg, J)
  {
    hide Claim, MarkAll, Purge;
    match a
    case Look(j, found) => LookWithin(st, j, found, cfg);
    case Count(j) => CountWithin(st, j, cfg, J);
    case ClaimPort(j) => ClaimWithin(st, j, cfg);
    case Started(j, token) => EndWithin(st, j, a, cfg);
    case Failed(j) => EndWithin(st, j, a, cfg);
    case Dropped(j) => LeaveAdmitted(st, j);
    case Mark(statuses) => MarkWithin(st, statuses, cfg);
    case _ => SameAdmitted(st, Step(st, a, cfg));
  }

  /** With at most `J` joins under way at once, rooms and admitted joins together never exceed
      `maxRooms - 1 + J`; with one at a time `maxRooms` is a true limit. */
  lemma {:induction false} OvershootIsBounded(actions: seq<Action>, cfg: Config, J: nat)
    requires Legal(actions, cfg) && AtMost(actions, cfg, J)
    ensures var st := Run(actions, cfg); |st.rooms| + |Admitted(st)| <= Bound(cfg, J)
    decreases |actions|
  {
    if actions == [] {
      assert Admitted(START) == {};
    } else {
      hide Step, Admitted;
      OvershootIsBounded(actions[..|actions| - 1], cfg, J);
      StepWithin(Run(actions[..|actions| - 1], cfg), actions[|actions| - 1], cfg, J);
    }
  }

  // ----- the bound is reached -----

  lemma Extend(actions: seq<Action>, a: Action, cfg: Config, J: nat)
    requires Legal(actions, cfg) && AtMost(actions, cfg, J) && Enabled(Run(actions, cfg), a)
    requires |Step(Run(actions, cfg), a, cfg).joins| <= J
    ensures Legal(actions + [a], cfg) && Run(actions + [a], cfg) == Step(Run(actions, cfg), a, cfg)
    ensures AtMost(actions + [a], cfg, J)
  {
    assert (actions + [a])[..|actions|] == actions;
  }

  /** `n` rooms nobody can join, on the first `n` ports, and joins `lo..hi` past the test. */
  ghost predicate Shape(st: State, cfg: Config, n: nat, lo: JoinId, hi: JoinId) {
    RoomShape(st, n) && PortShape(st, cfg, n) && JoinShape(st, lo, hi)
  }

  ghost predicate RoomShape(st: State, n: nat) {
    && |st.rooms| == n && (forall t :: t in st.rooms ==> t in st.issued && st.rooms[t].maxPlayers == 0)
    && (forall t :: t in st.issued ==> t < n)
  }

  ghost predicate PortShape(st: State, cfg: Config, n: nat) {
    && (forall p :: p in st.ports <==> cfg.portMin <= p < cfg.portMin + n)
    && (forall p :: p in st.ports ==> st.ports[p].None?)
  }

  ghost predicate JoinShape(st: State, lo: JoinId, hi: JoinId) {
    && lo <= hi && |st.joins| == hi - lo
    && (forall j :: j in st.joins <==> lo <= j < hi)
    && (forall j :: j in st.joins ==> st.joins[j].phase == Claiming && st.joins[j].maxPlayers == 0)
  }

  /** One more join passes the test. */
  lemma Admit(actions: seq<Action>, cfg: Config, J: nat, n: nat, lo: JoinId, hi: JoinId) returns (r: seq<Action>)
    requires Legal(actions, cfg) && AtMost(actions, cfg, J) && Shape(Run(actions, cfg), cfg, n, lo, hi)
    requires n < cfg.maxRooms && hi - lo < J
    ensures Legal(r, cfg) && AtMost(r, cfg, J) && Shape(Run(r, cfg), cfg, n, lo, hi + 1)
  {
    hide Legal, Run, AtMost;
    var a, b, c := Begin(hi, 0, 0, 0), Look(hi, None), Count(hi);
    Extend(actions, a, cfg, J);
    Extend(actions + [a], b, cfg, J);
    Extend(actions + [a] + [b], c, cfg, J);
    r := actions + [a] + [b] + [c];
  }

  /** The oldest admitted join claims the next port and opens its room. */
  lemma Open(actions: seq<Action>, cfg: Config, J: nat, n: nat, lo: JoinId, hi: JoinId) returns (r: seq<Action>)
    requires Legal(actions, cfg) && AtMost(actions, cfg, J) && Shape(Run(actions, cfg), cfg, n, lo, hi)
    requires lo < hi && cfg.portMin + n <= cfg.portMax
    ensures Legal(r, cfg) && AtMost(r, cfg, J) && Shape(Run(r, cfg), cfg, n + 1, lo + 1, hi)
  {
    JoinsNow(actions, cfg, J);
    var a, b := ClaimPort(lo), Started(lo, n);
    ShapeClaims(Run(actions, cfg), cfg, n, lo, hi);
    HoldingOpens(Run(actions, cfg), cfg, n, lo);
    OpenedShape(Run(actions, cfg), cfg, n, lo, hi);
    hide Legal, Run, AtMost, Step, Shape, Holding, Opened, Enabled;
    Extend(actions, a, cfg, J);
    Extend(actions + [a], b, cfg, J);
    r := actions + [a] + [b];
  }

  lemma NextPort(st: State, cfg: Config, n: nat, lo: JoinId, hi: JoinId)
    requires Shape(st, cfg, n, lo, hi) && cfg.portMin + n <= cfg.portMax
    ensures Claim(st.ports, cfg, st.now) == (st.ports[cfg.portMin + n := None], Some(cfg.portMin + n))
  {
    assert Purge(st.ports, st.now) == st.ports;
    assert cfg.portMin + n !in st.ports;
    var got := LowestFree(st.ports, cfg.portMin, cfg.portMax);
    hide LowestFree;
    assert got.Some? && got.value !in st.ports;
  }

  /** The shape with its oldest join already holding the next port. */
  function Holding(st: State, cfg: Config, n: nat, lo: JoinId): State
    requires lo in st.joins
  {
    Enter(st.(ports := st.ports[cfg.portMin + n := None]), lo, Spawning(cfg.portMin + n)).(
      history := st.history + [Claimed(cfg.portMin + n, st.now)])
  }

  lemma ShapeClaims(st: State, cfg: Config, n: nat, lo: JoinId, hi: JoinId)
    requires Shape(st, cfg, n, lo, hi) && lo < hi && cfg.portMin + n <= cfg.portMax
    ensures Enabled(st, ClaimPort(lo)) && Step(st, ClaimPort(lo), cfg) == Holding(st, cfg, n, lo)
    ensures |Holding(st, cfg, n, lo).joins| == |st.joins|
  {
    NextPort(st, cfg, n, lo, hi);
    hide Claim;
  }

  /** The shape once that join's room is open. */
  function Opened(st: State, cfg: Config, n: nat, lo: JoinId): State
    requires lo in st.joins
  {
    var join := st.joins[lo];
    st.(rooms := st.rooms[n := Room(join.game, join.version, cfg.portMin + n, join.maxPlayers, 0, st.now)],
        ports := st.ports[cfg.portMin + n := None],
        joins := st.joins - {lo},
        issued := st.issued + {n},
        history := st.history + [Claimed(cfg.portMin + n, st.now)])
  }

  lemma HoldingOpens(st: State, cfg: Config, n: nat, lo: JoinId)
    requires lo in st.joins && n !in st.issued
    ensures var st1 := Holding(st, cfg, n, lo);
            Enabled(st1, Started(lo, n)) && Step(st1, Started(lo, n), cfg) == Opened(st, cfg, n, lo)
  {
    var st1 := Holding(st, cfg, n, lo);
    assert st1.joins - {lo} == st.joins - {lo};
  }

  lemma OpenedRooms(st: State, cfg: Config, n: nat, lo: JoinId)
    requires RoomShape(st, n) && lo in st.joins && st.joins[lo].maxPlayers == 0
    ensures RoomShape(Opened(st, cfg, n, lo), n + 1)
  {
    var st' := Opened(st, cfg, n, lo);
    assert n !in st.rooms;
    assert st'.rooms.Keys == st.rooms.Keys + {n};
  }

  lemma OpenedPorts(st: State, cfg: Config, n: nat, lo: JoinId)
    requires PortShape(st, cfg, n) && lo in st.joins
    ensures PortShape(Opened(st, cfg, n, lo), cfg, n + 1)
  {
  }

  lemma OpenedJoins(st: State, cfg: Config, n: nat, lo: JoinId, hi: JoinId)
    requires JoinShape(st, lo, hi) && lo < hi
    ensures lo in st.joins && |Opened(st, cfg, n, lo).joins| <= |st.joins|
    ensures JoinShape(Opened(st, cfg, n, lo), lo + 1, hi)
  {
    var st' := Opened(st, cfg, n, lo);
    assert st'.joins.Keys == st.joins.Keys - {lo};
  }

  lemma OpenedShape(st: State, cfg: Config, n: nat, lo: JoinId, hi: JoinId)
    requires Shape(st, cfg, n, lo, hi) && lo < hi
    ensures lo in st.joins && |Opened(st, cfg, n, lo).joins| <= |st.joins|
    ensures Shape(Opened(st, cfg, n, lo), cfg, n + 1, lo + 1, hi)
  {
    assert lo in st.joins && st.joins[lo].maxPlayers == 0;
    hide RoomShape, PortShape, JoinShape, Opened;
    OpenedJoins(st, cfg, n, lo, hi);
    OpenedRooms(st, cfg, n, lo);
    OpenedPorts(st, cfg, n, lo);
  }

  lemma JoinsNow(actions: seq<Action>, cfg: Config, J: nat)
    requires Legal(actions, cfg) && AtMost(actions, cfg, J)
    ensures |Run(actions, cfg).joins| <= J
  {
  }

  lemma {:induction false} Fill(cfg: Config, J: nat, n: nat) returns (r: seq<Action>)
    requires 0 < J && n <= cfg.maxRooms && cfg.portMin + n <= cfg.portMax + 1
    ensures Legal(r, cfg) && AtMost(r, cfg, J) && Shape(Run(r, cfg), cfg, n, n, n)
    decreases n
  {
    if n == 0 {
      r := [];
    } else {
      hide Legal, Run, AtMost, Shape;
      r := Fill(cfg, J, n - 1);
      r := Admit(r, cfg, J, n - 1, n - 1, n - 1);
      r := Open(r, cfg, J, n - 1, n - 1, n);
    }
  }

  lemma {:induction false} Gather(cfg: Config, J: nat, k: nat) returns (r: seq<Action>)
    requires 0 < cfg.maxRooms && k <= J && 0 < J && cfg.portMin + cfg.maxRooms <= cfg.portMax + 2
    ensures Legal(r, cfg) && AtMost(r, cfg, J)
            && Shape(Run(r, cfg), cfg, cfg.maxRooms - 1, cfg.maxRooms - 1, cfg.maxRooms - 1 + k)
    decreases k
  {
    hide Legal, Run, AtMost, Shape;
    if k == 0 {
      r := Fill(cfg, J, cfg.maxRooms - 1);
    } else {
      r := Gather(cfg, J, k - 1);
      r := Admit(r, cfg, J, cfg.maxRooms - 1, cfg.maxRooms - 1, cfg.maxRooms - 1 + k - 1);
    }
  }

  lemma {:induction false} OpenMany(cfg: Config, J: nat, k: nat) returns (r: seq<Action>)
    requires 0 < cfg.maxRooms && k <= J && 0 < J && cfg.portMin + cfg.maxRooms - 1 + k <= cfg.portMax + 1
    ensures Legal(r, cfg) && AtMost(r, cfg, J)
            && Shape(Run(r, cfg), cfg, cfg.maxRooms - 1 + k, cfg.maxRooms - 1 + k, cfg.maxRooms - 1 + J)
    decreases k
  {
    hide Legal, Run, AtMost, Shape;
    if k == 0 {
      r := Gather(cfg, J, J);
    } else {
      r := OpenMany(cfg, J, k - 1);
      r := Open(r, cfg, J, cfg.maxRooms - 1 + k - 1, cfg.maxRooms - 1 + k - 1, cfg.maxRooms - 1 + J);
    }
  }

  /** The bound cannot be improved: whenever the pool is large enough, some run with at most `J`
      joins at once ends with `maxRooms - 1 + J` live rooms. So from two concurrent joins on,
      `maxRooms` is not a limit. */
  lemma OvershootIsReached(cfg: Config, J: nat)
    requires 0 < cfg.maxRooms && 0 < J && cfg.maxRooms - 1 + J <= cfg.portMax - cfg.portMin + 1
    ensures exists actions ::
              Legal(actions, cfg) && AtMost(actions, cfg, J) && |Run(actions, cfg).rooms| == cfg.maxRooms - 1 + J
  {
    var actions := OpenMany(cfg, J, J);
  }

  lemma {:induction false} FewerJoins(actions: seq<Action>, cfg: Config, few: nat, many: nat)
    requires Legal(actions, cfg) && AtMost(actions, cfg, few) && few <= many
    ensures AtMost(actions, cfg, many)
    decreases |actions|
  {
    hide Run;
    if actions != [] { FewerJoins(actions[..|actions| - 1], cfg, few, many); }
  }

  /** When `maxRooms` is a limit: every run with at most `J` joins under way at once keeps to it
      if and only if `J` is at most one, no room is allowed at all, or the pool has no port to spare. */
  lemma MaxRoomsIsALimit(cfg: Config, J: nat)
    ensures (forall actions :: Legal(actions, cfg) && AtMost(actions, cfg, J) ==>
              |Run(actions, cfg).rooms| <= cfg.maxRooms)
            <==> J <= 1 || cfg.maxRooms == 0 || cfg.portMax - cfg.portMin + 1 <= cfg.maxRooms
  {
    hide Legal, Run, AtMost;
    if J <= 1 || cfg.maxRooms == 0 || cfg.portMax - cfg.portMin + 1 <= cfg.maxRooms {
      forall actions | Legal(actions, cfg) && AtMost(actions, cfg, J)
        ensures |Run(actions, cfg).rooms| <= cfg.maxRooms
      {
        OvershootIsBounded(actions, cfg, J);
        PoolBoundsRooms(actions, cfg);
      }
    } else {
      OvershootIsReached(cfg, 2);
      var actions :| Legal(actions, cfg) && AtMost(actions, cfg, 2) && |Run(actions, cfg).rooms| == cfg.maxRooms + 1;
      FewerJoins(actions, cfg, 2, J);
    }
  }
}
