/** When a session ends by itself. Traffic of a session the server knows keeps it alive, and silence
    ends it at the first tick past the idle timeout; but a hello of a session it does not know is
    admitted as one last heard when the server started. */
module ReplicationSessions {
  import opened Replication
  import opened ReplicationRuns

  /** The event is traffic of session `s`, or its end. */
  predicate Concerns(ev: Event, s: SessionId) {
    match ev
    case Connect(t) => t == s
    case Disconnect(t) => t == s
    case Hello(t, _, _, _, _, _) => t == s
    case Input(t) => t == s
    case _ => false
  }

  ghost function RunFrom(st: Server, events: seq<Event>, room: Room): Server
    requires AllValid(events)
  {
    if events == [] then st
    else Step(RunFrom(st, events[..|events| - 1], room), events[|events| - 1], room)
  }

  predicate HasTick(events: seq<Event>) {
    exists i :: 0 <= i < |events| && events[i].TickEvent?
  }

  /** A message of a session, or its connection, is heard, and the session there to be kept, if and
      only if the server knows the session, or it connects, or it says hello in a version the server
      speaks at the very time the server started. */
  lemma HeardIff(st: Server, ev: Event, room: Room, s: SessionId)
    requires ev.Valid() && Concerns(ev, s) && !ev.Disconnect?
    ensures var st' := Step(st, ev, room);
            && st'.clock == st.clock
            && (s in st'.sessions && st'.sessions[s].lastActive == st.clock
                <==> s in st.sessions || ev.Connect? || (ev.Hello? && ev.versionOk && st.clock == 0.0))
  {
    hide OnHello;
    match ev
    case Hello(t, ok, name, look, effects, o) =>
      HelloOnSession(st, t, ok, name, look, effects, room, o, s);
      if s !in st.sessions { HelloOfUnknown(st, ev, room, s); }
    case _ =>
  }

  /** A hello keeps every session, hears its own, and leaves the times of the others alone. */
  lemma HelloOnSession(st: Server, t: SessionId, ok: bool, name: Name, look: Look, effects: seq<Effect>, room: Room,
      o: Order, s: SessionId)
    requires Picks(o)
    ensures var st' := OnHello(st, t, ok, name, look, effects, room, o);
            && st'.clock == st.clock
            && (s in st.sessions ==>
                  && s in st'.sessions
                  && st'.sessions[s].lastActive == if s == t then st.clock else st.sessions[s].lastActive)
            && (s != t ==> (s in st'.sessions <==> s in st.sessions))
  {
    hide OnHello, SpawnPlayer;
    var st1 := Greeted(st, t);
    SpawnKeepsTimes(st1, t, name, look);
    HelloLeaves(st, t, ok, name, look, effects, room, o);
  }

  /** The session heard, and known from now on. */
  function Greeted(st: Server, t: SessionId): (r: Server)
    ensures t in r.sessions
  {
    var st0 := Touch(st, t);
    if t in st0.sessions then st0 else st0.(sessions := st0.sessions[t := UNJOINED], log := st0.log[t := []])
  }

  lemma HelloLeaves(st: Server, t: SessionId, ok: bool, name: Name, look: Look, effects: seq<Effect>, room: Room,
      o: Order)
    requires Picks(o)
    ensures var st', st1 := OnHello(st, t, ok, name, look, effects, room, o), Greeted(st, t);
            && st'.clock == st.clock
            && (st' == Touch(st, t) || st'.sessions == st1.sessions
                || st'.sessions == SpawnPlayer(st1, t, name, look).sessions)
  {
    hide IntroduceAll, Replay, RunScripts, Send, Joined;
    if ok { ScriptsKeepSessions(SpawnPlayer(Greeted(st, t), t, name, look), effects); }
  }

  lemma SpawnKeepsTimes(st: Server, t: SessionId, name: Name, look: Look)
    requires t in st.sessions
    ensures var st' := SpawnPlayer(st, t, name, look);
            && st'.sessions.Keys == st.sessions.Keys && st'.clock == st.clock
            && forall s :: s in st.sessions ==> st'.sessions[s].lastActive == st.sessions[s].lastActive
  {
  }

  /** An event of others, or a tick: the session stays as it was, unless the tick finds it silent too long. */
  lemma StepOnSession(st: Server, ev: Event, room: Room, s: SessionId)
    requires ev.Valid() && !Concerns(ev, s)
    ensures var st' := Step(st, ev, room);
            && st'.clock == st.clock + (if ev.TickEvent? then ev.dt else 0.0)
            && (s in st'.sessions <==>
                  && s in st.sessions
                  && (ev.TickEvent? ==> st'.clock - st.sessions[s].lastActive <= room.idleTimeout))
            && (s in st'.sessions ==> st'.sessions[s].lastActive == st.sessions[s].lastActive)
  {
    hide OnHello, Tick;
    match ev
    case Hello(t, ok, name, look, effects, o) => HelloOnSession(st, t, ok, name, look, effects, room, o, s);
    case TickEvent(dt, effects, startEffects, o) =>
      TickFrame(st, dt, effects, startEffects, room, o);
      TickClock(st, dt, effects, startEffects, room, o);
    case _ =>
  }

  lemma TickClock(st: Server, dt: real, effects: seq<Effect>, startEffects: seq<Effect>, room: Room, o: Order)
    requires Picks(o)
    ensures Tick(st, dt, effects, startEffects, room, o).clock == st.clock + dt
  {
    hide RunScripts, RemoveSessions, DestroyAll, LoadFile, AnnounceAll, FlushDespawns, GiveIds;
    var st0 := st.(clock := st.clock + dt);
    ScriptsKeepSessions(RemoveSessions(st0, Idle(st0, room), o), effects);
    var mid := BeforeReset(st, dt, effects, room, o);
    if mid.resetRequested { ScriptsKeepSessions(Rebuild(mid.(resetRequested := false), room, o), startEffects); }
  }

  /** Through any run without a word from a session: it is still there if and only if there was no
      tick, or by the last one no more than the idle timeout had passed since it was last active. */
  lemma {:induction false} SilenceIsReaped(st: Server, events: seq<Event>, room: Room, s: SessionId)
    requires AllValid(events) && s in st.sessions
    requires forall i :: 0 <= i < |events| ==> !Concerns(events[i], s) && (events[i].TickEvent? ==> 0.0 <= events[i].dt)
    ensures var st' := RunFrom(st, events, room);
            && st.clock <= st'.clock
            && (s in st'.sessions
                <==> !HasTick(events) || st'.clock - st.sessions[s].lastActive <= room.idleTimeout)
            && (s in st'.sessions ==> st'.sessions[s].lastActive == st.sessions[s].lastActive)
    decreases |events|
  {
    if events != [] {
      hide Step, Concerns;
      var before, last := events[..|events| - 1], events[|events| - 1];
      assert HasTick(events) <==> HasTick(before) || last.TickEvent? by { TickAmong(events); }
      SilenceIsReaped(st, before, room, s);
      StepOnSession(RunFrom(st, before, room), last, room, s);
    }
  }

  lemma TickAmong(events: seq<Event>)
    requires events != []
    ensures HasTick(events) <==> HasTick(events[..|events| - 1]) || events[|events| - 1].TickEvent?
  {
    var before := events[..|events| - 1];
    if HasTick(before) {
      var i :| 0 <= i < |before| && before[i].TickEvent?;
      assert events[i].TickEvent?;
    }
    if HasTick(events) {
      var i :| 0 <= i < |events| && events[i].TickEvent?;
      assert i < |before| ==> before[i].TickEvent?;
    }
  }

  // ----- a hello of an unknown session -----

  /** It makes a session last active at time zero, and admits it if there is room. */
  lemma HelloOfUnknown(st: Server, ev: Event, room: Room, s: SessionId)
    requires ev.Hello? && ev.Valid() && ev.s == s && s !in st.sessions
    ensures var st' := Step(st, ev, room);
            && (s in st'.sessions <==> ev.versionOk)
            && (s in st'.sessions ==> st'.sessions[s].lastActive == 0.0)
            && (s in Joined(st') <==> ev.versionOk && |Joined(st)| < room.maxPlayers)
  {
    hide IntroduceAll, Replay, RunScripts, Send, SpawnPlayer;
    var st1 := st.(sessions := st.sessions[s := UNJOINED], log := st.log[s := []]);
    assert Joined(st1) == Joined(st);
    SpawnJoins(st1, s, ev.name, ev.look);
    ScriptsKeepSessions(SpawnPlayer(st1, s, ev.name, ev.look), ev.effects);
  }

  lemma SpawnJoins(st: Server, s: SessionId, name: Name, look: Look)
    requires s in st.sessions
    ensures var st' := SpawnPlayer(st, s, name, look);
            && s in Joined(st') && st'.sessions[s].lastActive == st.sessions[s].lastActive
  {
  }

  /** So from then on, without another word, it lasts until the server has run for longer than the
      idle timeout, however short a time ago it was admitted. */
  lemma UnknownHelloIsReaped(st: Server, ev: Event, events: seq<Event>, room: Room, s: SessionId)
    requires ev.Hello? && ev.Valid() && ev.s == s && s !in st.sessions && AllValid(events)
    requires forall i :: 0 <= i < |events| ==> !Concerns(events[i], s) && (events[i].TickEvent? ==> 0.0 <= events[i].dt)
    ensures var st' := RunFrom(Step(st, ev, room), events, room);
            s in st'.sessions <==> ev.versionOk && (!HasTick(events) || st'.clock <= room.idleTimeout)
    decreases |events|
  {
    hide Step, Concerns;
    HelloOfUnknown(st, ev, room, s);
    if ev.versionOk {
      SilenceIsReaped(Step(st, ev, room), events, room, s);
    } else {
      StaysUnknown(Step(st, ev, room), events, room, s);
    }
  }

  lemma {:induction false} StaysUnknown(st: Server, events: seq<Event>, room: Room, s: SessionId)
    requires AllValid(events) && s !in st.sessions && forall i :: 0 <= i < |events| ==> !Concerns(events[i], s)
    ensures s !in RunFrom(st, events, room).sessions
    decreases |events|
  {
    if events != [] {
      hide Step, Concerns;
      StaysUnknown(st, events[..|events| - 1], room, s);
      StepOnSession(RunFrom(st, events[..|events| - 1], room), events[|events| - 1], room, s);
    }
  }

  /** Such a run: in a room that has been up for longer than the timeout a session says hello,
      is joined, and is gone after the next tick, though no time has passed. */
  lemma AdmittedAndReaped(room: Room, startEffects: seq<Effect>, up: real, s: SessionId, name: Name, look: Look,
      o: Order)
    requires Picks(o) && 0 < room.maxPlayers && 0.0 <= room.idleTimeout < up
    ensures var e0, e1 := TickEvent(up, [], [], o), Hello(s, true, name, look, [], o);
            var e2 := TickEvent(0.0, [], [], o);
            AllValid([e0, e1, e2])
            && var st1 := Step(Step(Init(room, startEffects), e0, room), e1, room);
            && s in Joined(st1) && s !in Step(st1, e2, room).sessions
  {
    hide Init, Step;
    var st := Init(room, startEffects);
    var e0, e1 := TickEvent(up, [], [], o), Hello(s, true, name, look, [], o);
    var e2 := TickEvent(0.0, [], [], o);
    InitClock(room, startEffects);
    var st0 := Step(st, e0, room);
    StaysEmpty(st, e0, room);
    StepOnSession(st, e0, room, s);
    HelloOfUnknown(st0, e1, room, s);
    HeardIff(st0, e1, room, s);
    var st1 := Step(st0, e1, room);
    assert [e2][..0] == [];
    assert [e2][0].TickEvent?;
    UnknownHelloIsReaped(st0, e1, [e2], room, s);
    assert RunFrom(st1, [e2], room) == Step(RunFrom(st1, [], room), e2, room);
    StepOnSession(st1, e2, room, s);
  }

  lemma InitClock(room: Room, startEffects: seq<Effect>)
    ensures Init(room, startEffects).sessions == map[] && Init(room, startEffects).clock == 0.0
  {
    hide LoadFile, RunScripts, GiveIds, Ascending;
    ScriptsKeepSessions(LoadFile(EMPTY_ROOM, room.file), startEffects);
  }

  lemma StaysEmpty(st: Server, ev: Event, room: Room)
    requires ev.TickEvent? && ev.Valid() && st.sessions == map[]
    ensures Step(st, ev, room).sessions == map[] && Joined(Step(st, ev, room)) == {}
  {
    TickFrame(st, ev.dt, ev.effects, ev.startEffects, room, ev.order);
    hide Tick;
  }
}
