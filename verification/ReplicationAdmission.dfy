/** Who is in the room: exactly which event joins a session, and what it takes to have joined. */
module ReplicationAdmission {
  import opened Replication
  import opened ReplicationRuns
  import opened ReplicationScene

  // ----- one hello -----

  /** The state in which a hello in the right version is decided on: its session is known. */
  function Known(st: Server, s: SessionId): (r: Server)
    ensures s in r.sessions && r.bodies == st.bodies && r.nextEnt == st.nextEnt && r.nextPlayer == st.nextPlayer
  {
    var st0 := Touch(st, s);
    if s in st0.sessions then st0 else st0.(sessions := st0.sessions[s := UNJOINED], log := st0.log[s := []])
  }

  lemma KnownJoined(st: Server, s: SessionId)
    ensures Joined(Known(st, s)) == Joined(st)
  {
  }

  /** A hello joins its session if and only if it is in the version the server speaks and there is
      room, whether the server knew the session or not, and it joins nobody else. */
  lemma HelloJoins(st: Server, ev: Event, room: Room)
    requires ev.Hello? && ev.Valid()
    ensures forall t :: t in Joined(Step(st, ev, room))
                        <==> t in Joined(st) || (t == ev.s && ev.versionOk && |Joined(st)| < room.maxPlayers)
  {
    var s := ev.s;
    var st1 := Known(st, s);
    KnownJoined(st, s);
    hide IntroduceAll, Replay, RunScripts, Send;
    assert Joined(Touch(st, s)) == Joined(st);
    if ev.versionOk && !st1.sessions[s].spawned && |Joined(st1)| < room.maxPlayers {
      var st2 := SpawnPlayer(st1, s, ev.name, ev.look);
      ScriptsKeepSessions(st2, ev.effects);
      assert Joined(st2) == Joined(st1) + {s};
      assert Step(st, ev, room).sessions == st2.sessions;
    } else if ev.versionOk {
      assert Step(st, ev, room) == st1;
    }
  }

  /** A hello in any other version leaves everything as it was, but for the time its session, if
      the server knows it, was last active. */
  lemma WrongVersionIsRefused(st: Server, ev: Event, room: Room)
    requires ev.Hello? && ev.Valid() && !ev.versionOk
    ensures var st' := Step(st, ev, room);
            && st' == st.(sessions := st'.sessions) && st'.sessions.Keys == st.sessions.Keys
            && forall t :: t in st.sessions ==>
                 st'.sessions[t] == if t == ev.s then st.sessions[t].(lastActive := st.clock) else st.sessions[t]
  {
  }

  /** The newcomer is the next player, under the name it gave, with a new body of its own; nobody
      else's session changes, and only it is welcomed. */
  lemma NewcomerGets(st: Server, ev: Event, room: Room)
    requires ev.Hello? && ev.Valid() && ev.versionOk && ev.s !in Joined(st) && |Joined(st)| < room.maxPlayers
    ensures var st' := Step(st, ev, room);
            && ev.s in st'.sessions && st'.nextPlayer == st.nextPlayer + 1 && st.nextEnt < st'.nextEnt
            && st'.sessions[ev.s] == Session(0x4000_0000 + st.nextPlayer, ev.name, st.nextEnt, true,
                                             if ev.s in st.sessions then st.clock else 0.0)
            && forall t :: t in st.sessions && t != ev.s ==> t in st'.sessions && st'.sessions[t] == st.sessions[t]
  {
    var s := ev.s;
    var st1 := Known(st, s);
    KnownJoined(st, s);
    hide IntroduceAll, Replay, RunScripts, Send;
    var st2 := SpawnPlayer(st1, s, ev.name, ev.look);
    ScriptsKeepSessions(st2, ev.effects);
    assert Step(st, ev, room).sessions == st2.sessions;
    assert Step(st, ev, room).nextEnt == RunScripts(st2, ev.effects).nextEnt;
  }

  // ----- every event -----

  /** The event may join the session: its hello, in the right version, into a room that is not full. */
  ghost predicate Admits(st: Server, ev: Event, room: Room, s: SessionId) {
    ev.Hello? && ev.s == s && ev.versionOk && |Joined(st)| < room.maxPlayers
  }

  /** The event ends the session: its disconnect, or a tick that finds it silent for too long. */
  ghost predicate Ends(st: Server, ev: Event, room: Room, s: SessionId) {
    || ev == Disconnect(s)
    || (ev.TickEvent? && s in st.sessions && st.clock + ev.dt - st.sessions[s].lastActive > room.idleTimeout)
  }

  /** Who is joined after an event: those it admits, and those who were and whom it does not end. */
  lemma StepJoins(st: Server, ev: Event, room: Room, s: SessionId)
    requires ev.Valid()
    ensures s in Joined(Step(st, ev, room)) <==> Admits(st, ev, room, s) || (s in Joined(st) && !Ends(st, ev, room, s))
  {
    hide OnHello, Tick;
    match ev
    case Hello(_, _, _, _, _, _) => HelloJoins(st, ev, room);
    case TickEvent(dt, effects, startEffects, o) => TickFrame(st, dt, effects, startEffects, room, o);
    case Disconnect(t) => DisconnectLeaves(st, t);
    case _ =>
  }

  lemma DisconnectLeaves(st: Server, t: SessionId)
    ensures OnDisconnect(st, t).sessions == st.sessions - {t}
  {
  }

  /** The session was admitted by event `i` and none since has ended it. */
  ghost predicate AdmittedBy(room: Room, startEffects: seq<Effect>, events: seq<Event>, i: nat, s: SessionId)
    requires AllValid(events) && i < |events|
  {
    && Admits(At(room, startEffects, events, i), events[i], room, s)
    && forall m :: i < m < |events| ==> !Ends(At(room, startEffects, events, m), events[m], room, s)
  }

  /** In any run a session is joined if and only if some hello of its own, in the right version and
      with room left, admitted it, and nothing has ended it since. */
  lemma {:induction false} JoinedIff(room: Room, startEffects: seq<Effect>, events: seq<Event>, s: SessionId)
    requires AllValid(events)
    ensures s in Joined(Run(room, startEffects, events))
            <==> exists i :: 0 <= i < |events| && AdmittedBy(room, startEffects, events, i, s)
    decreases |events|
  {
    hide Init, Step, Joined, Admits, Ends;
    if events == [] {
      NobodyAtFirst(room, startEffects, s);
    } else {
      var last := |events| - 1;
      var before := events[..last];
      JoinedIff(room, startEffects, before, s);
      StepJoins(Run(room, startEffects, before), events[last], room, s);
      SameBefore(room, startEffects, events, s);
      if s in Joined(Run(room, startEffects, events)) {
        if Admits(Run(room, startEffects, before), events[last], room, s) {
          assert AdmittedBy(room, startEffects, events, last, s);
        } else {
          var i :| 0 <= i < |before| && AdmittedBy(room, startEffects, before, i, s);
          assert AdmittedBy(room, startEffects, events, i, s);
        }
      }
      if i :| 0 <= i < |events| && AdmittedBy(room, startEffects, events, i, s) {
        if i < last { assert AdmittedBy(room, startEffects, before, i, s); }
      }
    }
  }

  lemma SameBefore(room: Room, startEffects: seq<Effect>, events: seq<Event>, s: SessionId)
    requires AllValid(events) && events != []
    ensures var last := |events| - 1;
            && At(room, startEffects, events, last) == Run(room, startEffects, events[..last])
            && forall m :: 0 <= m < last ==>
                 At(room, startEffects, events, m) == At(room, startEffects, events[..last], m)
  {
    hide Run;
    forall m | 0 <= m < |events| - 1
      ensures At(room, startEffects, events, m) == At(room, startEffects, events[..|events| - 1], m)
    {
      assert events[..|events| - 1][..m] == events[..m];
    }
  }

  lemma NobodyAtFirst(room: Room, startEffects: seq<Effect>, s: SessionId)
    ensures s !in Joined(Run(room, startEffects, []))
  {
    hide LoadFile, RunScripts, GiveIds, Ascending;
    ScriptsKeepSessions(LoadFile(EMPTY_ROOM, room.file), startEffects);
  }
}
