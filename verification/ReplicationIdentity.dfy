/** Identity across resets, and the room's capacity, over every run. */
module ReplicationIdentity {
  import opened Wrappers
  import opened Replication
  import opened ReplicationSafety
  import opened ReplicationRuns

  // ----- distinct ids -----

  ghost predicate NoSharedIds(st: Server) {
    forall e, f :: e in st.bodies && f in st.bodies && e != f && st.bodies[e].netId.Some?
      ==> st.bodies[e].netId != st.bodies[f].netId
  }

  /** The three ranges: ids recorded for the scene at load, ids of players, ids of announced spawns. */
  ghost predicate DistinctIds(st: Server) {
    && NoSharedIds(st)
    && (forall e :: e in st.bodies && st.bodies[e].netId.Some? ==> IdOk(st, st.bodies[e].netId.value))
    && (forall s :: s in st.sessions && st.sessions[s].spawned ==>
          IsPlayerId(st.sessions[s].netId) && st.sessions[s].entity in st.bodies
          && st.bodies[st.sessions[s].entity].netId == Some(st.sessions[s].netId))
  }

  /** In every reachable state all live ids are distinct and in range, the scene's own being
      among those recorded at load. */
  lemma IdsStayDistinct(room: Room, startEffects: seq<Effect>, events: seq<Event>)
    requires room.Valid() && AllValid(events)
    requires Init(room, startEffects).nextEnt <= PLAYER_BASE && InRange(Run(room, startEffects, events))
    ensures DistinctIds(Run(room, startEffects, events))
    ensures Run(room, startEffects, events).sceneNetIds == Init(room, startEffects).sceneNetIds
  {
    hide Init, Step;
    RunKeeps(room, startEffects, events, {});
    SceneIdsFixed(room, startEffects, events);
    hide Fold, Mirrors, RosterOk;
  }

  lemma {:induction false} SceneIdsFixed(room: Room, startEffects: seq<Effect>, events: seq<Event>)
    requires AllValid(events)
    ensures Run(room, startEffects, events).sceneNetIds == Init(room, startEffects).sceneNetIds
    decreases |events|
  {
    hide Init, Step;
    if events != [] {
      SceneIdsFixed(room, startEffects, events[..|events| - 1]);
      StepCounts(Run(room, startEffects, events[..|events| - 1]), events[|events| - 1], room);
    }
  }

  // ----- the ids of the file's bodies -----

  /** The entity ids of the file's dynamic bodies when the file is read from `base` on. */
  function FileEnts(file: SceneFile, base: Ent): seq<Ent>
    decreases |file|
  {
    if file == [] then []
    else (if file[0].dynamic then [base] else []) + FileEnts(file[1..], base + 1)
  }

  lemma {:induction false} FileEntsShift(file: SceneFile, base: Ent, other: Ent)
    ensures |FileEnts(file, base)| == |FileEnts(file, other)|
    ensures forall k :: 0 <= k < |FileEnts(file, base)| ==>
              0 <= FileEnts(file, base)[k] - base == FileEnts(file, other)[k] - other < |file|
              && file[FileEnts(file, base)[k] - base].dynamic
    decreases |file|
  {
    if file != [] { FileEntsShift(file[1..], base + 1, other + 1); }
  }

  lemma {:induction false} FileEntsComplete(file: SceneFile, base: Ent, i: nat)
    requires i < |file| && file[i].dynamic
    ensures base + i in FileEnts(file, base)
    decreases |file|
  {
    if i > 0 { FileEntsComplete(file[1..], base + 1, i - 1); }
  }

  /** A set that holds the file's dynamic bodies and nothing else between its ends lists as the file does. */
  lemma {:induction false} AscendingFile(s: set<Ent>, file: SceneFile, base: Ent, hi: Ent)
    requires base + |file| <= hi
    requires forall i :: 0 <= i < |file| ==> (base + i in s <==> file[i].dynamic)
    ensures Ascending(s, base, hi) == FileEnts(file, base) + Ascending(s, base + |file|, hi)
    decreases |file|
  {
    if file != [] {
      assert base + 0 in s <==> file[0].dynamic;
      forall i | 0 <= i < |file[1..]| ensures (base + 1 + i in s <==> file[1..][i].dynamic) {
        assert base + (i + 1) in s <==> file[i + 1].dynamic;
      }
      AscendingFile(s, file[1..], base + 1, hi);
    }
  }

  lemma {:induction false} AscendingFrom(s: set<Ent>, lo: nat, mid: nat, hi: nat)
    requires lo <= mid <= hi && forall e :: e in s ==> !(lo <= e < mid)
    ensures Ascending(s, lo, hi) == Ascending(s, mid, hi)
    decreases mid - lo
  {
    if lo < mid { AscendingFrom(s, lo + 1, mid, hi); }
  }

  lemma {:induction false} GiveIdsAt(bodies: map<Ent, Body>, ents: seq<Ent>, ids: seq<NetId>)
    requires forall i :: 0 <= i < |ents| ==> ents[i] in bodies && bodies[ents[i]].netId.None?
    requires forall i, j :: 0 <= i < j < |ents| ==> ents[i] != ents[j]
    ensures GiveIds(bodies, ents, ids).Keys == bodies.Keys
    ensures forall e :: e in bodies && e !in ents ==> GiveIds(bodies, ents, ids)[e] == bodies[e]
    ensures forall e :: e in bodies ==> GiveIds(bodies, ents, ids)[e].dynamic == bodies[e].dynamic
    ensures forall k :: 0 <= k < |ents| ==>
              GiveIds(bodies, ents, ids)[ents[k]].netId == if k < |ids| then Some(ids[k]) else None
    decreases |ents|
  {
    if ents != [] && ids != [] {
      var b := GiveId(bodies, ents[0], ids[0]);
      GiveIdsAt(b, ents[1..], ids[1..]);
      assert forall e :: e in ents <==> e == ents[0] || e in ents[1..];
      var r := GiveIds(bodies, ents, ids);
      forall k | 0 <= k < |ents| ensures r[ents[k]].netId == if k < |ids| then Some(ids[k]) else None {
        if k > 0 { assert ents[k] == ents[1..][k - 1]; }
      }
    }
  }

  // ----- which file bodies outlive the start scripts -----

  /** A body without an id survives a script run exactly when nothing in it destroys that body. */
  lemma {:induction false} SurvivesScripts(st: Server, effects: seq<Effect>, e: Ent)
    requires e < st.nextEnt && forall f :: f in st.bodies ==> f < st.nextEnt && st.bodies[f].netId.None?
    ensures var st' := RunScripts(st, effects);
            && st.nextEnt <= st'.nextEnt
            && (e in st'.bodies <==> e in st.bodies && DestroyBody(e) !in effects)
            && (e in st'.bodies ==> st'.bodies[e] == st.bodies[e])
    decreases |effects|
  {
    if effects != [] {
      SurvivesScripts(RunEffect(st, effects[0]), effects[1..], e);
      assert DestroyBody(e) in effects <==> effects[0] == DestroyBody(e) || DestroyBody(e) in effects[1..];
    }
  }

  /** Start scripts that leave the file's dynamic bodies alone. */
  ghost predicate SparesFile(file: SceneFile, effects: seq<Effect>) {
    forall i :: 0 <= i < |file| && file[i].dynamic ==> DestroyBody(1 + i) !in effects
  }

  lemma LoadedFile(room: Room, startEffects: seq<Effect>, i: nat)
    requires room.Valid() && i < |room.file|
    ensures var st := Loaded(room, startEffects);
            && |room.file| < st.nextEnt
            && (1 + i in Unreplicated(st.bodies) <==> room.file[i].dynamic && DestroyBody(1 + i) !in startEffects)
  {
    LoadedBodies(EMPTY_ROOM, room.file);
    var st := LoadFile(EMPTY_ROOM, room.file);
    forall e | e in st.bodies ensures st.bodies[e].netId.None? {
      assert st.bodies[1 + (e - 1)] == room.file[e - 1];
    }
    assert st.bodies[1 + i] == room.file[i];
    SurvivesScripts(st, startEffects, 1 + i);
  }

  /** The recorded ids begin with the file's own exactly when the start scripts spared its bodies. */
  lemma RecordedIds(room: Room, startEffects: seq<Effect>)
    requires room.Valid()
    ensures FileEnts(room.file, 1) <= Init(room, startEffects).sceneNetIds <==> SparesFile(room.file, startEffects)
  {
    var st := Loaded(room, startEffects);
    var u := Unreplicated(st.bodies);
    var ids := Init(room, startEffects).sceneNetIds;
    assert ids == Ascending(u, 0, st.nextEnt);
    forall i | 0 <= i < |room.file|
      ensures |room.file| < st.nextEnt
      ensures 1 + i in u <==> room.file[i].dynamic && DestroyBody(1 + i) !in startEffects
    {
      LoadedFile(room, startEffects, i);
    }
    if SparesFile(room.file, startEffects) {
      NothingAtZero(room, startEffects);
      AscendingFrom(u, 0, 1, st.nextEnt);
      AscendingFile(u, room.file, 1, st.nextEnt);
    } else {
      var i :| 0 <= i < |room.file| && room.file[i].dynamic && DestroyBody(1 + i) in startEffects;
      FileEntsComplete(room.file, 1, i);
      AscendingMembers(u, 0, st.nextEnt);
      assert 1 + i !in ids;
    }
  }

  lemma NothingAtZero(room: Room, startEffects: seq<Effect>)
    requires room.Valid()
    ensures 0 !in Loaded(room, startEffects).bodies && 1 + |room.file| <= Loaded(room, startEffects).nextEnt
  {
    LoadedBodies(EMPTY_ROOM, room.file);
    var st := LoadFile(EMPTY_ROOM, room.file);
    forall e | e in st.bodies ensures st.bodies[e].netId.None? {
      assert st.bodies[1 + (e - 1)] == room.file[e - 1];
    }
    SurvivesScripts(st, startEffects, 0);
  }

  // ----- a reset -----

  /** After the file is read again its bodies stand at the next entity ids, numbered in order
      from the recorded ids, and everyone spared is untouched. Nothing is sent, the replay list
      stays, and the only removals left to announce are those of spawned bodies. */
  lemma RebuiltBodies(st: Server, room: Room, o: Order)
    requires Inv(st, {}) && room.Valid() && Picks(o)
    ensures var st' := Rebuild(st, room, o);
            var ents := FileEnts(room.file, st.nextEnt);
            && st' == st.(bodies := st'.bodies, nextEnt := st.nextEnt + |room.file|, pending := st'.pending)
            && (forall e :: e in st'.bodies <==> e in SparedEntities(st) || st.nextEnt <= e < st.nextEnt + |room.file|)
            && (forall e :: e in SparedEntities(st) ==> e in st.bodies && st'.bodies[e] == st.bodies[e])
            && (forall k :: 0 <= k < |ents| ==> (
                  && ents[k] in st'.bodies
                  && st'.bodies[ents[k]].netId == if k < |st.sceneNetIds| then Some(st.sceneNetIds[k]) else None))
            && (forall e :: st.nextEnt <= e < st.nextEnt + |room.file| && e !in ents ==> st'.bodies[e].netId.None?)
            && (forall e :: e in Unreplicated(st'.bodies) <==>
                  exists k :: |st.sceneNetIds| <= k < |ents| && e == ents[k])
  {
    hide Inv, DestroyAll, LoadFile, GiveIds, Ascending, FileEnts;
    var st1 := DestroyAll(st, st.bodies.Keys - SparedEntities(st), o);
    TornDown(st, o);
    var st2 := LoadFile(st1, room.file);
    LoadedBodies(st1, room.file);
    FileAmong(st1, st2, room.file);
    var ents := FileEnts(room.file, st.nextEnt);
    Numbered(st2, ents, st.sceneNetIds);
    forall e | st.nextEnt <= e < st.nextEnt + |room.file| ensures st2.bodies[e].netId.None? {
      assert st2.bodies[st.nextEnt + (e - st.nextEnt)] == room.file[e - st.nextEnt];
    }
    assert Rebuild(st, room, o) == st2.(bodies := GiveIds(st2.bodies, ents, st.sceneNetIds));
  }

  /** What the teardown leaves: the joined players' bodies, with their ids. */
  lemma TornDown(st: Server, o: Order)
    requires Inv(st, {}) && Picks(o)
    ensures var st1 := DestroyAll(st, st.bodies.Keys - SparedEntities(st), o);
            && (forall e :: e in st1.bodies <==> e in SparedEntities(st))
            && (forall e :: e in st1.bodies ==> e < st1.nextEnt && st1.bodies[e].netId.Some?)
            && (forall e :: e in SparedEntities(st) ==> e in st.bodies && st1.bodies[e] == st.bodies[e])
            && SceneFree(st1)
  {
    var victims := st.bodies.Keys - SparedEntities(st);
    DestroyAllKeeps(st, victims, o, {});
    OnlyPlayersAreSpared(st, DestroyAll(st, victims, o));
    hide Fold, Mirrors, RosterOk, IdOk, DestroyAll;
  }

  /** Numbering the bodies without ids leaves exactly the overflow without. */
  lemma Numbered(st: Server, ents: seq<Ent>, ids: seq<NetId>)
    requires forall k :: 0 <= k < |ents| ==> ents[k] in st.bodies && st.bodies[ents[k]].netId.None?
    requires forall i, j :: 0 <= i < j < |ents| ==> ents[i] != ents[j]
    requires forall e :: e in ents <==> e in Unreplicated(st.bodies)
    ensures var bodies := GiveIds(st.bodies, ents, ids);
            && bodies.Keys == st.bodies.Keys
            && (forall e :: e in st.bodies && e !in ents ==> bodies[e] == st.bodies[e])
            && (forall k :: 0 <= k < |ents| ==> bodies[ents[k]].netId == if k < |ids| then Some(ids[k]) else None)
            && (forall e :: e in Unreplicated(bodies) <==> exists k :: |ids| <= k < |ents| && e == ents[k])
  {
    GiveIdsAt(st.bodies, ents, ids);
    var bodies := GiveIds(st.bodies, ents, ids);
    forall e ensures e in Unreplicated(bodies) <==> exists k :: |ids| <= k < |ents| && e == ents[k] {
      if e in ents {
        var k :| 0 <= k < |ents| && ents[k] == e;
      }
    }
  }

  /** The bodies without an id after loading are the file's, in file order. */
  lemma FileAmong(st1: Server, st2: Server, file: SceneFile)
    requires SceneFree(st1) && st2.nextEnt == st1.nextEnt + |file|
    requires forall i :: 0 <= i < |file| ==> file[i].netId.None?
    requires forall e :: e in st1.bodies ==> e < st1.nextEnt && st1.bodies[e].netId.Some?
    requires forall e :: e in st2.bodies <==> e in st1.bodies || st1.nextEnt <= e < st1.nextEnt + |file|
    requires forall e :: e in st1.bodies ==> st2.bodies[e] == st1.bodies[e]
    requires forall i :: 0 <= i < |file| ==> st2.bodies[st1.nextEnt + i] == file[i]
    ensures Ascending(Unreplicated(st2.bodies), 0, st2.nextEnt) == FileEnts(file, st1.nextEnt)
    ensures var ents := FileEnts(file, st1.nextEnt);
            && (forall k :: 0 <= k < |ents| ==> ents[k] in st2.bodies && st2.bodies[ents[k]].netId.None?)
            && (forall i, j :: 0 <= i < j < |ents| ==> ents[i] != ents[j])
            && (forall e :: e in ents <==> e in Unreplicated(st2.bodies))
  {
    var u := Unreplicated(st2.bodies);
    forall e | e in u ensures st1.nextEnt <= e {
    }
    forall i | 0 <= i < |file| ensures st1.nextEnt + i in u <==> file[i].dynamic {
      assert st2.bodies[st1.nextEnt + i] == file[i];
    }
    AscendingFrom(u, 0, st1.nextEnt, st2.nextEnt);
    AscendingFile(u, file, st1.nextEnt, st2.nextEnt);
    AscendingMembers(u, 0, st2.nextEnt);
  }

  /** A reset of a room whose scene file could not be loaded: with no file to go back to nothing is
      torn down or rebuilt, and the recorded ids are handed out to whatever has none. */
  function ResetInPlace(st: Server): Server {
    AssignSceneNetIds(st.(resetRequested := false), false)
  }

  /** It keeps live ids distinct if and only if none of the recorded ids it hands out is in use:
      as many as there are dynamic bodies without an id, from the first on. */
  lemma ResetInPlaceIds(st: Server)
    requires Inv(st, {})
    ensures var nameless := Ascending(Unreplicated(st.bodies), 0, st.nextEnt);
            NoSharedIds(ResetInPlace(st))
            <==> forall k :: 0 <= k < |nameless| && k < |st.sceneNetIds| ==> !Live(st, st.sceneNetIds[k])
  {
    var nameless, ids := Ascending(Unreplicated(st.bodies), 0, st.nextEnt), st.sceneNetIds;
    AscendingMembers(Unreplicated(st.bodies), 0, st.nextEnt);
    GiveIdsAt(st.bodies, nameless, ids);
    assert WorldOk(st);
    var st' := ResetInPlace(st);
    assert st'.bodies == GiveIds(st.bodies, nameless, ids);
    hide Ascending, GiveIds, ResetInPlace, Inv, WorldOk, ClientsOk, RosterOk, SessionsOk;
    SharedIds(st, st', nameless);
  }

  lemma SharedIds(st: Server, st': Server, ents: seq<Ent>)
    requires WorldOk(st) && st'.bodies.Keys == st.bodies.Keys
    requires forall k :: 0 <= k < |ents| ==> ents[k] in st.bodies && st.bodies[ents[k]].netId.None?
    requires forall i, j :: 0 <= i < j < |ents| ==> ents[i] != ents[j]
    requires forall e :: e in st.bodies && e !in ents ==> st'.bodies[e] == st.bodies[e]
    requires forall k :: 0 <= k < |ents| ==>
               st'.bodies[ents[k]].netId == if k < |st.sceneNetIds| then Some(st.sceneNetIds[k]) else None
    ensures NoSharedIds(st')
            <==> forall k :: 0 <= k < |ents| && k < |st.sceneNetIds| ==> !Live(st, st.sceneNetIds[k])
  {
    hide IdOk;
    if exists k :: 0 <= k < |ents| && k < |st.sceneNetIds| && Live(st, st.sceneNetIds[k]) {
      var k :| 0 <= k < |ents| && k < |st.sceneNetIds| && Live(st, st.sceneNetIds[k]);
      var e :| e in st.bodies && st.bodies[e].netId == Some(st.sceneNetIds[k]);
      assert e !in ents && st'.bodies[e].netId == st'.bodies[ents[k]].netId;
    } else {
      forall e, f | e in st'.bodies && f in st'.bodies && e != f && st'.bodies[e].netId.Some?
        ensures st'.bodies[e].netId != st'.bodies[f].netId
      {
        if e in ents { var i :| 0 <= i < |ents| && ents[i] == e; }
        if f in ents { var j :| 0 <= j < |ents| && ents[j] == f; }
        assert e !in ents ==> Live(st, st.bodies[e].netId.value);
        assert f !in ents && st.bodies[f].netId.Some? ==> Live(st, st.bodies[f].netId.value);
      }
    }
  }

  /** Tearing the world down for a reset queues the removal of spawned bodies only. */
  lemma {:induction false} TeardownAnnouncesSpawnsOnly(st: Server, victims: set<Ent>, o: Order)
    requires Picks(o) && victims <= st.bodies.Keys
    ensures forall id :: id in DestroyAll(st, victims, o).pending ==> id in st.pending || IsSpawnId(id)
    ensures forall id :: id in st.pending ==> id in DestroyAll(st, victims, o).pending
    decreases victims
  {
    if victims != {} {
      var e := o(victims);
      TeardownAnnouncesSpawnsOnly(RemoveBody(st, e, true), victims - {e}, o);
    }
  }

  /** Each of the file's replicated bodies carries the id it had at first load: the first body of
      the file was entity 1, and a body's first id was its entity number. */
  ghost predicate FirstLoadIds(file: SceneFile, base: Ent, bodies: map<Ent, Body>) {
    forall i :: 0 <= i < |file| && file[i].dynamic ==> base + i in bodies && bodies[base + i].netId == Some(1 + i)
  }

  lemma FirstIdsByRank(file: SceneFile, base: Ent, bodies: map<Ent, Body>, ids: seq<NetId>)
    requires var ents := FileEnts(file, base);
             forall k :: 0 <= k < |ents| ==>
               ents[k] in bodies && bodies[ents[k]].netId == if k < |ids| then Some(ids[k]) else None
    ensures FirstLoadIds(file, base, bodies) <==> FileEnts(file, 1) <= ids
  {
    hide FileEnts;
    var ents, firsts := FileEnts(file, base), FileEnts(file, 1);
    FileEntsShift(file, base, 1);
    if FirstLoadIds(file, base, bodies) {
      forall k | 0 <= k < |ents| ensures k < |ids| && ids[k] == firsts[k] {
        var i := ents[k] - base;
        assert file[i].dynamic && bodies[base + i].netId == Some(1 + i);
      }
      if firsts != [] {
        var last := |firsts| - 1;
        var i: nat := ents[last] - base;
        assert file[i].dynamic && bodies[base + i].netId == Some(1 + i);
      }
      assert firsts == ids[..|firsts|];
    } else {
      var i :| 0 <= i < |file| && file[i].dynamic && !(base + i in bodies && bodies[base + i].netId == Some(1 + i));
      FileEntsComplete(file, base, i);
      var k :| 0 <= k < |ents| && ents[k] == base + i;
      assert firsts[k] == 1 + i;
      assert k < |ids| ==> ids[k] != firsts[k];
    }
  }

  /** Any reset in any run, however many came before: nothing is sent and the replay list stays;
      only spawned bodies' removals are queued; and every replicated body of the file stands
      again under its first-load id, none left over to be announced as a spawn, if and only
      if the first start scripts destroyed none of them. */
  lemma ResetsRestoreIds(room: Room, startEffects: seq<Effect>, events: seq<Event>, dt: real,
      effects: seq<Effect>, o: Order)
    requires room.Valid() && AllValid(events) && Picks(o)
    requires Init(room, startEffects).nextEnt <= PLAYER_BASE && InRange(Run(room, startEffects, events))
    ensures var st := BeforeReset(Run(room, startEffects, events), dt, effects, room, o);
            var st' := Rebuild(st, room, o);
            && st'.log == st.log && st'.spawned == st.spawned && st'.sessions == st.sessions
            && (forall id :: id in st'.pending ==> id in st.pending || IsSpawnId(id))
            && (FirstLoadIds(room.file, st.nextEnt, st'.bodies) <==> SparesFile(room.file, startEffects))
            && (SparesFile(room.file, startEffects) ==> Unreplicated(st'.bodies) == {})
  {
    hide Inv, Init, BeforeReset, FirstLoadIds, SparesFile, Unreplicated, FileEnts, DestroyAll, AssignSceneNetIds;
    var now := Run(room, startEffects, events);
    var st := BeforeReset(now, dt, effects, room, o);
    RunKeeps(room, startEffects, events, {});
    BeforeResetKeeps(now, dt, effects, room, o, {});
    SceneIdsFixed(room, startEffects, events);
    TickFrame(now, dt, effects, [], room, o);
    RebuiltBodies(st, room, o);
    QuietReset(st, room, o);
    RecordedIds(room, startEffects);
    FirstIdsByRank(room.file, st.nextEnt, Rebuild(st, room, o).bodies, st.sceneNetIds);
    assert FirstLoadIds(room.file, st.nextEnt, Rebuild(st, room, o).bodies) <==> SparesFile(room.file, startEffects);
    if SparesFile(room.file, startEffects) {
      FileEntsShift(room.file, 1, st.nextEnt);
      assert forall e :: e !in Unreplicated(Rebuild(st, room, o).bodies);
    }
  }

  lemma QuietReset(st: Server, room: Room, o: Order)
    requires Picks(o)
    ensures forall id :: id in Rebuild(st, room, o).pending ==> id in st.pending || IsSpawnId(id)
    ensures forall id :: id in st.pending ==> id in Rebuild(st, room, o).pending
  {
    hide DestroyAll, LoadFile;
    TeardownAnnouncesSpawnsOnly(st, st.bodies.Keys - SparedEntities(st), o);
  }

  // ----- capacity -----

  /** Joined sessions only ever grow by one admitted newcomer. */
  lemma StepAdmits(st: Server, ev: Event, room: Room)
    requires ev.Valid()
    ensures |Joined(Step(st, ev, room))| <= |Joined(st)|
            || |Joined(Step(st, ev, room))| <= room.maxPlayers
  {
    hide IntroduceAll, Replay, RunScripts, RemoveSessions, DestroyAll, LoadFile, AnnounceAll, FlushDespawns, GiveIds;
    var st' := Step(st, ev, room);
    match ev
    case Hello(s, ok, name, look, effects, o) => HelloAdmits(st, s, ok, name, look, effects, room, o);
    case TickEvent(dt, effects, startEffects, o) =>
      TickFrame(st, dt, effects, startEffects, room, o);
      SubsetSize(Joined(st'), Joined(st));
    case _ => SubsetSize(Joined(st'), Joined(st));
  }

  lemma HelloAdmits(st: Server, s: SessionId, ok: bool, name: Name, look: Look, effects: seq<Effect>,
      room: Room, o: Order)
    requires Picks(o)
    ensures var st' := OnHello(st, s, ok, name, look, effects, room, o);
            |Joined(st')| <= |Joined(st)| || |Joined(st')| <= room.maxPlayers
  {
    var st' := OnHello(st, s, ok, name, look, effects, room, o);
    HelloSessions(st, s, ok, name, look, effects, room, o);
    hide OnHello;
    if |Joined(st)| < room.maxPlayers {
      SubsetSize(Joined(st'), Joined(st) + {s});
    } else {
      SubsetSize(Joined(st'), Joined(st));
    }
  }

  /** A hello touches its own session only, and joins it only when there is room. */
  lemma HelloSessions(st: Server, s: SessionId, ok: bool, name: Name, look: Look, effects: seq<Effect>,
      room: Room, o: Order)
    requires Picks(o)
    ensures var st' := OnHello(st, s, ok, name, look, effects, room, o);
            && Joined(st') <= Joined(st) + {s}
            && (s in Joined(st') ==> s in Joined(st) || |Joined(st)| < room.maxPlayers)
  {
    hide IntroduceAll, Replay, RunScripts;
    var st0 := Touch(st, s);
    assert Joined(st0) == Joined(st);
    if ok {
      var st1 := if s in st0.sessions then st0
                 else st0.(sessions := st0.sessions[s := UNJOINED], log := st0.log[s := []]);
      assert Joined(st1) == Joined(st);
      ScriptsKeepSessions(SpawnPlayer(st1, s, name, look), effects);
    }
  }

  /** No run ever has more players joined than the room admits. */
  lemma {:induction false} CapacityHolds(room: Room, startEffects: seq<Effect>, events: seq<Event>)
    requires AllValid(events)
    ensures |Joined(Run(room, startEffects, events))| <= room.maxPlayers
    decreases |events|
  {
    if events == [] {
      hide LoadFile, AssignSceneNetIds;
      NobodyAtFirst(room, startEffects);
    } else {
      hide Init, Step, Joined;
      CapacityHolds(room, startEffects, events[..|events| - 1]);
      StepAdmits(Run(room, startEffects, events[..|events| - 1]), events[|events| - 1], room);
    }
  }

  lemma NobodyAtFirst(room: Room, startEffects: seq<Effect>)
    ensures Joined(Init(room, startEffects)) == {}
  {
    ScriptsKeepSessions(LoadFile(EMPTY_ROOM, room.file), startEffects);
  }
}
