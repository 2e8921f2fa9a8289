/** Where each field of a message stands on the wire, byte by byte. */
module WireLayout {
  import opened NetProtocol

  ghost function Two(v: u16): Bytes { [v % 256, v / 256] }

  ghost function Four(v: u32): Bytes { [v % 256, v / 256 % 256, v / 65536 % 256, v / 16777216] }

  ghost function Eight(v: u64): Bytes {
    [v % 256, v / 256 % 256, v / 0x1_0000 % 256, v / 0x100_0000 % 256, v / 0x1_0000_0000 % 256,
     v / 0x100_0000_0000 % 256, v / 0x1_0000_0000_0000 % 256, v / 0x100_0000_0000_0000]
  }

  ghost function Place(v: Vec3): Bytes { Four(v.x) + Four(v.y) + Four(v.z) }

  ghost function Turn(q: Quat): Bytes { Four(q.x) + Four(q.y) + Four(q.z) + Four(q.w) }

  ghost function Paint(c: Color): Bytes { Four(c.r) + Four(c.g) + Four(c.b) + Four(c.a) }

  /** 44 bytes: id, position, rotation, velocity. */
  ghost function Entity(e: EntityState): (b: Bytes)
    ensures |b| == 44
  {
    Four(e.netId) + Place(e.pos) + Turn(e.rot) + Place(e.vel)
  }

  /** The length a string is announced with. */
  ghost function Prefix(s: Bytes): Bytes { Two(|s| % 0x1_0000) }

  // ----- fields -----

  lemma ByteAt(v: u8, t: Bytes)
    ensures W8(v, t) == [v] + t
  {
    assert LE(v, 1) == [v];
  }

  lemma TwoAt(v: u16, t: Bytes)
    ensures W16(v, t) == Two(v) + t
  {
    assert LE(v, 2) == [v % 256] + LE(v / 256, 1);
    assert LE(v, 2) == Two(v);
  }

  lemma FourDigits(v: u32)
    ensures LE(v, 4) == Four(v)
  {
    assert v / 256 / 256 == v / 65536 && v / 65536 / 256 == v / 16777216;
    assert LE(v, 4) == [v % 256] + LE(v / 256, 3);
    assert LE(v / 256, 3) == [v / 256 % 256] + LE(v / 65536, 2);
    assert LE(v / 65536, 2) == [v / 65536 % 256] + LE(v / 16777216, 1);
    assert LE(v / 16777216, 1) == [v / 16777216];
  }

  lemma FourAt(v: u32, t: Bytes)
    ensures W32(v, t) == Four(v) + t
  {
    FourDigits(v);
  }

  lemma EightDigits(v: u64)
    ensures LE(v, 8) == Eight(v)
  {
    var w := v / 0x1_0000_0000;
    assert v / 256 / 256 == v / 0x1_0000 && v / 0x1_0000 / 256 == v / 0x100_0000 && v / 0x100_0000 / 256 == w;
    assert LE(v, 8) == [v % 256] + LE(v / 256, 7);
    assert LE(v / 256, 7) == [v / 256 % 256] + LE(v / 0x1_0000, 6);
    assert LE(v / 0x1_0000, 6) == [v / 0x1_0000 % 256] + LE(v / 0x100_0000, 5);
    assert LE(v / 0x100_0000, 5) == [v / 0x100_0000 % 256] + LE(w, 4);
    FourDigits(w);
    assert w / 256 == v / 0x100_0000_0000 && w / 65536 == v / 0x1_0000_0000_0000;
    assert w / 16777216 == v / 0x100_0000_0000_0000;
    hide LE;
  }

  lemma EightAt(v: u64, t: Bytes)
    ensures W64(v, t) == Eight(v) + t
  {
    EightDigits(v);
  }

  lemma PlaceAt(v: Vec3, t: Bytes)
    ensures WVec3(v, t) == Place(v) + t
  {
    Fours();
    hide W32, Four;
  }

  lemma Fours()
    ensures forall v: u32, t: Bytes :: W32(v, t) == Four(v) + t
  {
    forall v: u32, t: Bytes { FourAt(v, t); }
  }

  lemma TurnAt(q: Quat, t: Bytes)
    ensures WQuat(q, t) == Turn(q) + t
  {
    Fours();
    hide W32, Four;
  }

  lemma PaintAt(c: Color, t: Bytes)
    ensures WColor(c, t) == Paint(c) + t
  {
    Fours();
    hide W32, Four;
  }

  lemma TextAt(s: Bytes, t: Bytes)
    ensures WStr(s, t) == Prefix(s) + s + t
  {
    TwoAt(|s| % 0x1_0000, s + t);
    hide W16, Two;
  }

  lemma EntityAt(e: EntityState, t: Bytes)
    ensures WEntity(e, t) == Entity(e) + t
  {
    hide W32, Four, WVec3, WQuat, Place, Turn;
    var t1 := Place(e.vel) + t;
    var t2 := Turn(e.rot) + t1;
    PlaceAt(e.vel, t);
    TurnAt(e.rot, t1);
    PlaceAt(e.pos, t2);
    FourAt(e.netId, Place(e.pos) + t2);
  }

  // ----- messages -----

  ghost function Number(m: Message): u8 {
    if m.ClientHello? then 1
    else if m.ServerWelcome? then 2
    else if m.InputCommand? then 3
    else if m.Snapshot? then 4
    else if m.PlayerJoin? then 5
    else if m.PlayerLeave? then 6
    else if m.SpawnEntity? then 7
    else if m.DespawnEntity? then 8
    else 9
  }

  /** The fields of a message with no list in it, in order. */
  ghost function Fields(m: Message): Bytes
    requires !m.Snapshot?
  {
    match m
    case ClientHello(version, name) => Two(version) + Prefix(name) + name
    case ServerWelcome(id, scene, rate) => Four(id) + Four(scene) + Two(rate)
    case InputCommand(s, keys, yaw, pitch, dt) => Four(s) + Eight(keys) + Four(yaw) + Four(pitch) + Four(dt)
    case PlayerJoin(id, name) => Four(id) + Prefix(name) + name
    case PlayerLeave(id) => Four(id)
    case SpawnEntity(id, kind, scale, color) => Four(id) + [kind] + Place(scale) + Paint(color)
    case DespawnEntity(id) => Four(id)
    case Explosion(pos, radius, speed, up, spin) => Place(pos) + Four(radius) + Four(speed) + Four(up) + Four(spin)
  }

  lemma InputLaid(m: Message, t: Bytes)
    requires m.InputCommand?
    ensures WBody(m, t) == Fields(m) + t
  {
    hide W32, W64, Four, Eight;
    var t1 := Four(m.dt) + t;
    var t2 := Four(m.lookPitch) + t1;
    var t3 := Four(m.lookYaw) + t2;
    FourAt(m.dt, t);
    FourAt(m.lookPitch, t1);
    FourAt(m.lookYaw, t2);
    EightAt(m.keys, t3);
    FourAt(m.sequence, Eight(m.keys) + t3);
  }

  lemma SpawnLaid(m: Message, t: Bytes)
    requires m.SpawnEntity?
    ensures WBody(m, t) == Fields(m) + t
  {
    hide W8, W32, WVec3, WColor, Four, Place, Paint;
    var t1 := Paint(m.color) + t;
    var t2 := Place(m.scale) + t1;
    PaintAt(m.color, t);
    PlaceAt(m.scale, t1);
    ByteAt(m.kind, t2);
    FourAt(m.netId, [m.kind] + t2);
  }

  lemma ExplosionLaid(m: Message, t: Bytes)
    requires m.Explosion?
    ensures WBody(m, t) == Fields(m) + t
  {
    hide W32, WVec3, Four, Place;
    var t1 := Four(m.spin) + t;
    var t2 := Four(m.upBias) + t1;
    var t3 := Four(m.speed) + t2;
    FourAt(m.spin, t);
    FourAt(m.upBias, t1);
    FourAt(m.speed, t2);
    FourAt(m.radius, t3);
    PlaceAt(m.pos, Four(m.radius) + t3);
  }

  lemma NamedLaid(m: Message, t: Bytes)
    requires m.ClientHello? || m.PlayerJoin?
    ensures WBody(m, t) == Fields(m) + t
  {
    hide W16, W32, WStr, Two, Four, Prefix;
    var t1 := Prefix(m.name) + m.name + t;
    TextAt(m.name, t);
    if m.ClientHello? { TwoAt(m.protocolVersion, t1); } else { FourAt(m.netId, t1); }
  }

  lemma WelcomeLaid(m: Message, t: Bytes)
    requires m.ServerWelcome?
    ensures WBody(m, t) == Fields(m) + t
  {
    hide W16, W32, Two, Four;
    var t1 := Two(m.tickRate) + t;
    TwoAt(m.tickRate, t);
    FourAt(m.sceneId, t1);
    FourAt(m.playerNetId, Four(m.sceneId) + t1);
  }

  lemma IdLaid(m: Message, t: Bytes)
    requires m.PlayerLeave? || m.DespawnEntity?
    ensures WBody(m, t) == Fields(m) + t
  {
    FourAt(m.netId, t);
  }

  /** What every message but the snapshot looks like on the wire. */
  lemma Layout(m: Message)
    requires !m.Snapshot?
    ensures Encode(m) == [Number(m)] + Fields(m)
  {
    assert TypeOf(m) == Number(m);
    ByteAt(TypeOf(m), WBody(m, []));
    hide W8, WBody, Fields, Number, TypeOf;
    match m
    case InputCommand(_, _, _, _, _) => InputLaid(m, []);
    case SpawnEntity(_, _, _, _) => SpawnLaid(m, []);
    case Explosion(_, _, _, _, _) => ExplosionLaid(m, []);
    case ServerWelcome(_, _, _) => WelcomeLaid(m, []);
    case PlayerLeave(_) => IdLaid(m, []);
    case DespawnEntity(_) => IdLaid(m, []);
    case ClientHello(_, _) => NamedLaid(m, []);
    case PlayerJoin(_, _) => NamedLaid(m, []);
  }

  lemma {:induction false} EntitiesLaid(es: seq<EntityState>, t: Bytes, k: nat)
    ensures |WEntities(es, t)| == 44 * |es| + |t|
    ensures k < |es| ==> WEntities(es, t)[44 * k..44 * k + 44] == Entity(es[k])
    decreases es
  {
    hide WEntity, Entity;
    if es != [] {
      EntityAt(es[0], WEntities(es[1..], t));
      EntitiesLaid(es[1..], t, if k > 0 then k - 1 else 0);
    }
  }

  /** A snapshot: two ticks and a 16-bit count, then 44 bytes an entity, in the order of the list. */
  lemma SnapshotLayout(tick: u32, ack: u32, es: seq<EntityState>)
    ensures var b := Encode(Snapshot(tick, ack, es));
            && |b| == 11 + 44 * |es|
            && b[..11] == [4] + Four(tick) + Four(ack) + Two(|es| % 0x1_0000)
            && forall k :: 0 <= k < |es| ==> b[11 + 44 * k..55 + 44 * k] == Entity(es[k])
  {
    hide W8, W16, W32, WEntities, Entity;
    var m, tail := Snapshot(tick, ack, es), WEntities(es, []);
    ByteAt(4, WBody(m, []));
    Fours();
    TwoAt(|es| % 0x1_0000, tail);
    EntitiesLaid(es, [], 0);
    var front := [4] + Four(tick) + Four(ack) + Two(|es| % 0x1_0000);
    var b := Encode(m);
    assert b == front + tail;
    forall k | 0 <= k < |es| ensures b[11 + 44 * k..55 + 44 * k] == Entity(es[k]) {
      EntitiesLaid(es, [], k);
    }
  }
}
