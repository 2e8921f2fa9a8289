/** Which rooms the reaper stops: those whose process is gone, and those nobody has been in for the
    idle window. */
module RoomReaper {
  import opened Wrappers
  import opened Rooms
  import opened RoomRuns

  // ----- one pass -----

  /** The probe of room `t` found its process gone, or nobody in it for at least the idle window. */
  ghost predicate FoundDead(r: Room, v: Verdict, cfg: Config, now: Time) {
    match v
    case Exited => true
    case Answer(sessions, _) => sessions == 0 && r.lastOccupied + cfg.idle <= now
    case Silent => r.lastOccupied + cfg.idle <= now
  }

  ghost predicate Listed(dead: seq<(Token, Port)>, t: Token) {
    exists i :: 0 <= i < |dead| && dead[i].0 == t
  }

  ghost predicate Probed(statuses: seq<(Token, Verdict)>, t: Token) {
    exists k :: 0 <= k < |statuses| && statuses[k].0 == t
  }

  ghost predicate ProbedDead(rooms: map<Token, Room>, statuses: seq<(Token, Verdict)>, cfg: Config, now: Time,
      t: Token)
  {
    && t in rooms
    && exists k :: 0 <= k < |statuses| && statuses[k].0 == t && FoundDead(rooms[t], statuses[k].1, cfg, now)
  }

  /** What a pass makes of a room: a room that answers has its players counted, one with sessions
      is occupied now, and nothing else about any room changes. */
  ghost predicate Refreshes(r: Room, v: Verdict, now: Time, r': Room) {
    && r'.game == r.game && r'.version == r.version && r'.port == r.port && r'.maxPlayers == r.maxPlayers
    && r'.players == (if v.Answer? then v.players else r.players)
    && r'.lastOccupied == (if v.Answer? && v.sessions > 0 then now else r.lastOccupied)
  }

  /** For any table and any probes of distinct rooms: a room is listed if and only if it is in the
      table and its probe found it dead, and each room comes out as its probe says. */
  lemma {:induction false} PassMeaning(rooms: map<Token, Room>, statuses: seq<(Token, Verdict)>, cfg: Config, now: Time)
    requires DistinctTokens(statuses)
    ensures var (after, dead) := MarkAll(rooms, statuses, cfg, now);
            && after.Keys == rooms.Keys
            && (forall t :: Listed(dead, t) <==> ProbedDead(rooms, statuses, cfg, now, t))
            && (forall k :: 0 <= k < |statuses| && statuses[k].0 in rooms ==>
                  Refreshes(rooms[statuses[k].0], statuses[k].1, now, after[statuses[k].0]))
            && (forall t :: t in rooms && !Probed(statuses, t) ==> after[t] == rooms[t])
    decreases |statuses|
  {
    if statuses != [] {
      var last := |statuses| - 1;
      var before := statuses[..last];
      var (t, v) := statuses[last];
      PassMeaning(rooms, before, cfg, now);
      assert forall k :: 0 <= k < last ==> before[k] == statuses[k] && statuses[k].0 != t;
      assert !Probed(before, t);
      assert forall u :: Probed(statuses, u) <==> Probed(before, u) || u == t by { ProbedMore(statuses); }
      var (seen, dead0) := MarkAll(rooms, before, cfg, now);
      var (after, dead) := MarkAll(rooms, statuses, cfg, now);
      forall u ensures Listed(dead, u) <==> ProbedDead(rooms, statuses, cfg, now, u) {
        ListedMore(dead0, (t, if t in seen then seen[t].port else 0), u);
        ProbedDeadMore(rooms, statuses, cfg, now, u);
      }
    }
  }

  lemma ProbedMore(statuses: seq<(Token, Verdict)>)
    requires statuses != []
    ensures var last := |statuses| - 1;
            forall u :: Probed(statuses, u) <==> Probed(statuses[..last], u) || u == statuses[last].0
  {
    var last := |statuses| - 1;
    forall u ensures Probed(statuses, u) <==> Probed(statuses[..last], u) || u == statuses[last].0 {
      if Probed(statuses[..last], u) {
        var k :| 0 <= k < last && statuses[..last][k].0 == u;
        assert statuses[k].0 == u;
      }
      if Probed(statuses, u) {
        var k :| 0 <= k < |statuses| && statuses[k].0 == u;
        assert k < last ==> statuses[..last][k].0 == u;
      }
    }
  }

  lemma ListedMore(dead: seq<(Token, Port)>, x: (Token, Port), u: Token)
    ensures Listed(dead + [x], u) <==> Listed(dead, u) || u == x.0
  {
    if Listed(dead, u) {
      var i :| 0 <= i < |dead| && dead[i].0 == u;
      assert (dead + [x])[i].0 == u;
    }
    assert (dead + [x])[|dead|] == x;
  }

  lemma ProbedDeadMore(rooms: map<Token, Room>, statuses: seq<(Token, Verdict)>, cfg: Config, now: Time, u: Token)
    requires statuses != []
    ensures var last := |statuses| - 1;
            ProbedDead(rooms, statuses, cfg, now, u)
            <==> ProbedDead(rooms, statuses[..last], cfg, now, u)
                 || (u in rooms && u == statuses[last].0 && FoundDead(rooms[u], statuses[last].1, cfg, now))
  {
    hide FoundDead;
    var last := |statuses| - 1;
    if ProbedDead(rooms, statuses[..last], cfg, now, u) {
      var k :| 0 <= k < last && statuses[..last][k].0 == u && FoundDead(rooms[u], statuses[..last][k].1, cfg, now);
      assert statuses[k].0 == u;
    }
    if ProbedDead(rooms, statuses, cfg, now, u) {
      var k :| 0 <= k < |statuses| && statuses[k].0 == u && FoundDead(rooms[u], statuses[k].1, cfg, now);
      assert k < last ==> statuses[..last][k] == statuses[k];
    }
  }

  // ----- every run -----

  ghost predicate FindsPlayers(a: Action, t: Token) {
    a.Mark? && exists k :: 0 <= k < |a.statuses| && a.statuses[k].0 == t && a.statuses[k].1.Answer?
                           && a.statuses[k].1.sessions > 0
  }

  /** When room `t` started, or was last found with sessions in it by a pass since. */
  ghost function LastOccupied(actions: seq<Action>, cfg: Config, t: Token): Option<Time>
    requires Legal(actions, cfg)
    decreases |actions|
  {
    if actions == [] then None
    else
      var before, a := actions[..|actions| - 1], actions[|actions| - 1];
      if (a.Started? && a.token == t) || (FindsPlayers(a, t) && t in Run(before, cfg).rooms)
      then Some(Run(before, cfg).now)
      else LastOccupied(before, cfg, t)
  }

  /** Some pass found the process of room `t` gone. */
  ghost predicate SeenExited(actions: seq<Action>, t: Token) {
    exists i, k :: 0 <= i < |actions| && actions[i].Mark? && 0 <= k < |actions[i].statuses|
                   && actions[i].statuses[k] == (t, Exited)
  }

  lemma StepOccupied(st: State, a: Action, cfg: Config, t: Token)
    requires Safe(st, cfg) && Enabled(st, a) && t in Step(st, a, cfg).rooms
    ensures a.Started? && a.token == t ==> Step(st, a, cfg).rooms[t].lastOccupied == st.now
    ensures !(a.Started? && a.token == t) ==>
              && t in st.rooms
              && Step(st, a, cfg).rooms[t].lastOccupied
                 == if FindsPlayers(a, t) then st.now else st.rooms[t].lastOccupied
  {
    hide Safe, Claim;
    if a.Mark? {
      PassMeaning(st.rooms, a.statuses, cfg, st.now);
      hide MarkAll, Listed, ProbedDead;
      if Probed(a.statuses, t) {
        var k :| 0 <= k < |a.statuses| && a.statuses[k].0 == t;
        assert FindsPlayers(a, t) <==> a.statuses[k].1.Answer? && a.statuses[k].1.sessions > 0;
      }
    }
  }

  /** In every run the time kept for a room is the time it started or was last found occupied. */
  lemma {:induction false} OccupiedWhen(actions: seq<Action>, cfg: Config, t: Token)
    requires Legal(actions, cfg) && t in Run(actions, cfg).rooms
    ensures LastOccupied(actions, cfg, t) == Some(Run(actions, cfg).rooms[t].lastOccupied)
    decreases |actions|
  {
    if actions != [] {
      var before, a := actions[..|actions| - 1], actions[|actions| - 1];
      PortsStayExclusive(before, cfg);
      StepOccupied(Run(before, cfg), a, cfg, t);
      hide Step, Safe, FindsPlayers;
      if !(a.Started? && a.token == t) { OccupiedWhen(before, cfg, t); }
    }
  }

  /** Every live room on the reaper's list had exited, or has been empty for the idle window. */
  ghost predicate ListIsDue(actions: seq<Action>, cfg: Config)
    requires Legal(actions, cfg)
  {
    var st := Run(actions, cfg);
    forall i :: 0 <= i < |Dead(st.reaper)| && Dead(st.reaper)[i].0 in st.rooms ==>
      SeenExited(actions, Dead(st.reaper)[i].0)
      || st.rooms[Dead(st.reaper)[i].0].lastOccupied + cfg.idle <= st.now
  }

  lemma {:induction false} DeadAreDue(actions: seq<Action>, cfg: Config)
    requires Legal(actions, cfg)
    ensures ListIsDue(actions, cfg)
    decreases |actions|
  {
    if actions != [] {
      var before, a := actions[..|actions| - 1], actions[|actions| - 1];
      DeadAreDue(before, cfg);
      PortsStayExclusive(before, cfg);
      var st, st' := Run(before, cfg), Run(actions, cfg);
      forall i | 0 <= i < |Dead(st'.reaper)| && Dead(st'.reaper)[i].0 in st'.rooms
        ensures SeenExited(actions, Dead(st'.reaper)[i].0)
                || st'.rooms[Dead(st'.reaper)[i].0].lastOccupied + cfg.idle <= st'.now
      {
        var t := Dead(st'.reaper)[i].0;
        if a.Mark? {
          MarkIsDue(st, a.statuses, cfg, t);
          if (t, Exited) in a.statuses {
            var k :| 0 <= k < |a.statuses| && a.statuses[k] == (t, Exited);
            assert actions[|actions| - 1].statuses[k] == (t, Exited);
          }
        } else {
          StepDead(st, a, cfg, i);
          StepOccupied(st, a, cfg, t);
          var j :| 0 <= j < |Dead(st.reaper)| && Dead(st.reaper)[j].0 == t;
          if SeenExited(before, t) { StillSeen(actions, t); }
        }
      }
    }
  }

  lemma StillSeen(actions: seq<Action>, t: Token)
    requires actions != [] && SeenExited(actions[..|actions| - 1], t)
    ensures SeenExited(actions, t)
  {
    var before := actions[..|actions| - 1];
    var i, k :| 0 <= i < |before| && before[i].Mark? && 0 <= k < |before[i].statuses|
                && before[i].statuses[k] == (t, Exited);
    assert actions[i] == before[i];
  }

  lemma MarkIsDue(st: State, statuses: seq<(Token, Verdict)>, cfg: Config, t: Token)
    requires Enabled(st, Mark(statuses)) && Listed(Dead(Step(st, Mark(statuses), cfg).reaper), t)
    ensures var st' := Step(st, Mark(statuses), cfg);
            t in st'.rooms && ((t, Exited) in statuses || st'.rooms[t].lastOccupied + cfg.idle <= st'.now)
  {
    PassMeaning(st.rooms, statuses, cfg, st.now);
    hide MarkAll;
  }

  /** Whoever is on the list after any other step was on it before, and did not just start. */
  lemma StepDead(st: State, a: Action, cfg: Config, i: nat)
    requires Safe(st, cfg) && Enabled(st, a) && !a.Mark? && i < |Dead(Step(st, a, cfg).reaper)|
    ensures exists j :: 0 <= j < |Dead(st.reaper)| && Dead(st.reaper)[j] == Dead(Step(st, a, cfg).reaper)[i]
    ensures !(a.Started? && a.token == Dead(Step(st, a, cfg).reaper)[i].0)
    ensures st.now <= Step(st, a, cfg).now
  {
    hide Claim, Exclusive;
    var after := Dead(Step(st, a, cfg).reaper);
    if a.ReleaseNext? {
      assert after == st.reaper.dead[1..];
      assert Dead(st.reaper)[i + 1] == after[i];
    } else {
      assert Dead(st.reaper)[i] == after[i];
    }
  }

  /** In every run: a live room the reaper is about to stop had exited, or has been empty for at
      least the idle window since it started or was last found occupied. */
  lemma StopsOnlyTheDue(actions: seq<Action>, cfg: Config)
    requires Legal(actions, cfg) && Enabled(Run(actions, cfg), StopNext)
    ensures var st := Run(actions, cfg);
            var t := st.reaper.dead[0].0;
            t in st.rooms ==>
              SeenExited(actions, t)
              || (LastOccupied(actions, cfg, t).Some? && LastOccupied(actions, cfg, t).value + cfg.idle <= st.now)
  {
    DeadAreDue(actions, cfg);
    var t := Run(actions, cfg).reaper.dead[0].0;
    assert Dead(Run(actions, cfg).reaper)[0].0 == t;
    hide Run, SeenExited, LastOccupied;
    if t in Run(actions, cfg).rooms { OccupiedWhen(actions, cfg, t); }
  }

  /** And every room that a pass probes and finds dead is on its list when the pass is over. */
  lemma DueAreListed(actions: seq<Action>, cfg: Config, statuses: seq<(Token, Verdict)>, t: Token)
    requires Legal(actions, cfg) && Enabled(Run(actions, cfg), Mark(statuses))
    ensures var st := Run(actions, cfg);
            Listed(Dead(Step(st, Mark(statuses), cfg).reaper), t) <==> ProbedDead(st.rooms, statuses, cfg, st.now, t)
  {
    var st := Run(actions, cfg);
    PassMeaning(st.rooms, statuses, cfg, st.now);
    hide MarkAll, Run;
    assert Listed([], t) == false;
  }
}
