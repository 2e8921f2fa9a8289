/** The wire format: little-endian fields, one type byte, and a body per message. */
module NetProtocol {
  import opened Wrappers

  type u8 = x: int | 0 <= x < 0x100
  type u16 = x: int | 0 <= x < 0x1_0000
  type u32 = x: int | 0 <= x < 0x1_0000_0000
  type u64 = x: int | 0 <= x < 0x1_0000_0000_0000_0000

  /** A float travels as its 32 bits. */
  type f32 = u32

  type Bytes = seq<u8>

  datatype Vec3 = Vec3(x: f32, y: f32, z: f32)
  datatype Quat = Quat(x: f32, y: f32, z: f32, w: f32)
  datatype Color = Color(r: f32, g: f32, b: f32, a: f32)
  datatype EntityState = EntityState(netId: u32, pos: Vec3, rot: Quat, vel: Vec3)

  datatype Message =
    | ClientHello(protocolVersion: u16, name: Bytes)
    | ServerWelcome(playerNetId: u32, sceneId: u32, tickRate: u16)
    | InputCommand(sequence: u32, keys: u64, lookYaw: f32, lookPitch: f32, dt: f32)
    | Snapshot(serverTick: u32, ackSeq: u32, entities: seq<EntityState>)
    | PlayerJoin(netId: u32, name: Bytes)
    | PlayerLeave(netId: u32)
    | SpawnEntity(netId: u32, kind: u8, scale: Vec3, color: Color)
    | DespawnEntity(netId: u32)
    | Explosion(pos: Vec3, radius: f32, speed: f32, upBias: f32, spin: f32)

  datatype Channel = Unreliable | Reliable

  function TypeOf(m: Message): u8 {
    match m
    case ClientHello(_, _) => 1
    case ServerWelcome(_, _, _) => 2
    case InputCommand(_, _, _, _, _) => 3
    case Snapshot(_, _, _) => 4
    case PlayerJoin(_, _) => 5
    case PlayerLeave(_) => 6
    case SpawnEntity(_, _, _, _) => 7
    case DespawnEntity(_) => 8
    case Explosion(_, _, _, _, _) => 9
  }

  function ChannelFor(t: u8): Channel {
    if t == 3 || t == 4 then Unreliable else Reliable
  }

  /** Only input and snapshots may be lost: all that a replica is folded from travels reliably. */
  lemma OnlyInputAndSnapshotsMayBeLost(m: Message)
    ensures ChannelFor(TypeOf(m)) == Unreliable <==> m.InputCommand? || m.Snapshot?
  {
  }

  // ----- little-endian integers -----

  function Pow256(n: nat): (p: nat)
    ensures p >= 1
  {
    if n == 0 then 1 else 256 * Pow256(n - 1)
  }

  /** The `n` low bytes of a number, least significant first. */
  function LE(v: nat, n: nat): (b: Bytes)
    ensures |b| == n
  {
    if n == 0 then [] else [v % 256] + LE(v / 256, n - 1)
  }

  function FromLE(b: Bytes): (v: nat)
    ensures v < Pow256(|b|)
  {
    if b == [] then 0 else b[0] + 256 * FromLE(b[1..])
  }

  lemma {:induction false} FromToLE(v: nat, n: nat)
    requires v < Pow256(n)
    ensures FromLE(LE(v, n)) == v
  {
    if n > 0 {
      FromToLE(v / 256, n - 1);
      assert LE(v, n)[1..] == LE(v / 256, n - 1);
    }
  }

  lemma {:induction false} ToFromLE(b: Bytes)
    ensures LE(FromLE(b), |b|) == b
  {
    if b != [] {
      ToFromLE(b[1..]);
      assert FromLE(b) % 256 == b[0] && FromLE(b) / 256 == FromLE(b[1..]);
    }
  }

  lemma Pows()
    ensures Pow256(1) == 0x100 && Pow256(2) == 0x1_0000 && Pow256(4) == 0x1_0000_0000
    ensures Pow256(8) == 0x1_0000_0000_0000_0000
  {
    assert Pow256(2) == 256 * Pow256(1);
    assert Pow256(3) == 256 * Pow256(2);
    assert Pow256(4) == 256 * Pow256(3);
    assert Pow256(5) == 256 * Pow256(4);
    assert Pow256(6) == 256 * Pow256(5);
    assert Pow256(7) == 256 * Pow256(6);
    assert Pow256(8) == 256 * Pow256(7);
  }

  // ----- fields: a writer puts a value in front of what follows, a reader takes it off -----

  /** What a read leaves: the value and the remaining bytes, or nothing once the buffer ran out. */
  datatype Read<+T> = Got(value: T, rest: Bytes) | Short {
    predicate IsFailure() { Short? }
    function PropagateFailure<U>(): Read<U> requires Short? { Short }
    function Extract(): (T, Bytes) requires Got? { (value, rest) }
  }

  function ReadLE(b: Bytes, n: nat): (r: Read<nat>)
    ensures r.Got? <==> |b| >= n
    ensures r.Got? ==> r.value < Pow256(n) && b == LE(r.value, n) + r.rest
  {
    if |b| < n then Short
    else
      ToFromLE(b[..n]);
      Got(FromLE(b[..n]), b[n..])
  }

  lemma ReadWritten(v: nat, n: nat, t: Bytes)
    requires v < Pow256(n)
    ensures ReadLE(LE(v, n) + t, n) == Got(v, t)
  {
    var b := LE(v, n) + t;
    assert b[..n] == LE(v, n) && b[n..] == t;
    FromToLE(v, n);
  }

  function W8(v: u8, t: Bytes): Bytes { LE(v, 1) + t }
  function W16(v: u16, t: Bytes): Bytes { LE(v, 2) + t }
  function W32(v: u32, t: Bytes): Bytes { LE(v, 4) + t }
  function W64(v: u64, t: Bytes): Bytes { LE(v, 8) + t }
  function WVec3(v: Vec3, t: Bytes): Bytes { W32(v.x, W32(v.y, W32(v.z, t))) }
  function WQuat(q: Quat, t: Bytes): Bytes { W32(q.x, W32(q.y, W32(q.z, W32(q.w, t)))) }
  function WColor(c: Color, t: Bytes): Bytes { W32(c.r, W32(c.g, W32(c.b, W32(c.a, t)))) }

  /** The length prefix is truncated to 16 bits. */
  function WStr(s: Bytes, t: Bytes): Bytes { W16(|s| % 0x1_0000, s + t) }

  function WEntity(e: EntityState, t: Bytes): Bytes {
    W32(e.netId, WVec3(e.pos, WQuat(e.rot, WVec3(e.vel, t))))
  }

  function WEntities(es: seq<EntityState>, t: Bytes): Bytes {
    if es == [] then t else WEntity(es[0], WEntities(es[1..], t))
  }

  function R8(b: Bytes): (r: Read<u8>)
    ensures r.Got? ==> b == W8(r.value, r.rest)
  {
    Pows();
    var (v, t) :- ReadLE(b, 1);
    Got(v, t)
  }

  function R16(b: Bytes): (r: Read<u16>)
    ensures r.Got? ==> b == W16(r.value, r.rest)
  {
    Pows();
    var (v, t) :- ReadLE(b, 2);
    Got(v, t)
  }

  function R32(b: Bytes): (r: Read<u32>)
    ensures r.Got? ==> b == W32(r.value, r.rest)
  {
    Pows();
    var (v, t) :- ReadLE(b, 4);
    Got(v, t)
  }

  function R64(b: Bytes): (r: Read<u64>)
    ensures r.Got? ==> b == W64(r.value, r.rest)
  {
    Pows();
    var (v, t) :- ReadLE(b, 8);
    Got(v, t)
  }

  function RVec3(b: Bytes): (r: Read<Vec3>)
    ensures r.Got? ==> b == WVec3(r.value, r.rest)
  {
    var (x, t1) :- R32(b);
    var (y, t2) :- R32(t1);
    var (z, t3) :- R32(t2);
    Got(Vec3(x, y, z), t3)
  }

  function RQuat(b: Bytes): (r: Read<Quat>)
    ensures r.Got? ==> b == WQuat(r.value, r.rest)
  {
    var (x, t1) :- R32(b);
    var (y, t2) :- R32(t1);
    var (z, t3) :- R32(t2);
    var (w, t4) :- R32(t3);
    Got(Quat(x, y, z, w), t4)
  }

  function RColor(b: Bytes): (c: Read<Color>)
    ensures c.Got? ==> b == WColor(c.value, c.rest)
  {
    var (r, t1) :- R32(b);
    var (g, t2) :- R32(t1);
    var (bl, t3) :- R32(t2);
    var (a, t4) :- R32(t3);
    Got(Color(r, g, bl, a), t4)
  }

  function RStr(b: Bytes): (r: Read<Bytes>)
    ensures r.Got? ==> |r.value| < 0x1_0000 && b == WStr(r.value, r.rest)
  {
    var (n, t) :- R16(b);
    if |t| < n then Short
    else
      assert t == t[..n] + t[n..];
      Got(t[..n], t[n..])
  }

  function REntity(b: Bytes): (r: Read<EntityState>)
    ensures r.Got? ==> b == WEntity(r.value, r.rest)
  {
    var (id, t1) :- R32(b);
    var (pos, t2) :- RVec3(t1);
    var (rot, t3) :- RQuat(t2);
    var (vel, t4) :- RVec3(t3);
    Got(EntityState(id, pos, rot, vel), t4)
  }

  function REntities(b: Bytes, n: nat): (r: Read<seq<EntityState>>)
    ensures r.Got? ==> |r.value| == n && b == WEntities(r.value, r.rest)
  {
    if n == 0 then Got([], b)
    else
      var (e, t1) :- REntity(b);
      var (es, t2) :- REntities(t1, n - 1);
      assert ([e] + es)[1..] == es;
      Got([e] + es, t2)
  }

  // ----- messages -----

  function WBody(m: Message, t: Bytes): Bytes {
    match m
    case ClientHello(v, name) => W16(v, WStr(name, t))
    case ServerWelcome(id, scene, rate) => W32(id, W32(scene, W16(rate, t)))
    case InputCommand(s, k, yaw, pitch, dt) => W32(s, W64(k, W32(yaw, W32(pitch, W32(dt, t)))))
    case Snapshot(tick, ack, es) => W32(tick, W32(ack, W16(|es| % 0x1_0000, WEntities(es, t))))
    case PlayerJoin(id, name) => W32(id, WStr(name, t))
    case PlayerLeave(id) => W32(id, t)
    case SpawnEntity(id, kind, scale, color) => W32(id, W8(kind, WVec3(scale, WColor(color, t))))
    case DespawnEntity(id) => W32(id, t)
    case Explosion(pos, r, s, u, sp) => WVec3(pos, W32(r, W32(s, W32(u, W32(sp, t)))))
  }

  function RBody(tag: u8, b: Bytes): Read<Message> {
    if tag == 1 then
      var (v, t1) :- R16(b);
      var (name, t2) :- RStr(t1);
      Got(ClientHello(v, name), t2)
    else if tag == 2 then
      var (id, t1) :- R32(b);
      var (scene, t2) :- R32(t1);
      var (rate, t3) :- R16(t2);
      Got(ServerWelcome(id, scene, rate), t3)
    else if tag == 3 then
      var (s, t1) :- R32(b);
      var (k, t2) :- R64(t1);
      var (yaw, t3) :- R32(t2);
      var (pitch, t4) :- R32(t3);
      var (dt, t5) :- R32(t4);
      Got(InputCommand(s, k, yaw, pitch, dt), t5)
    else if tag == 4 then
      var (tick, t1) :- R32(b);
      var (ack, t2) :- R32(t1);
      var (n, t3) :- R16(t2);
      var (es, t4) :- REntities(t3, n);
      Got(Snapshot(tick, ack, es), t4)
    else if tag == 5 then
      var (id, t1) :- R32(b);
      var (name, t2) :- RStr(t1);
      Got(PlayerJoin(id, name), t2)
    else if tag == 6 then
      var (id, t1) :- R32(b);
      Got(PlayerLeave(id), t1)
    else if tag == 7 then
      var (id, t1) :- R32(b);
      var (kind, t2) :- R8(t1);
      var (scale, t3) :- RVec3(t2);
      var (color, t4) :- RColor(t3);
      Got(SpawnEntity(id, kind, scale, color), t4)
    else if tag == 8 then
      var (id, t1) :- R32(b);
      Got(DespawnEntity(id), t1)
    else if tag == 9 then
      var (pos, t1) :- RVec3(b);
      var (r, t2) :- R32(t1);
      var (s, t3) :- R32(t2);
      var (u, t4) :- R32(t3);
      var (sp, t5) :- R32(t4);
      Got(Explosion(pos, r, s, u, sp), t5)
    else Short
  }

  function Encode(m: Message): Bytes { W8(TypeOf(m), WBody(m, [])) }

  /** The message at the front of a buffer; None if it is truncated or of no known type. */
  function Decode(b: Bytes): Option<Message> {
    match R8(b)
    case Short => None
    case Got(tag, t) =>
      match RBody(tag, t)
      case Short => None
      case Got(m, _) => Some(m)
  }

  /** The lengths fit their 16-bit prefixes. */
  predicate Fits(m: Message) {
    match m
    case ClientHello(_, name) => |name| < 0x1_0000
    case PlayerJoin(_, name) => |name| < 0x1_0000
    case Snapshot(_, _, es) => |es| < 0x1_0000
    case _ => true
  }

  // ----- reading what was written -----

  lemma Scalars()
    ensures forall v: u8, t: Bytes :: R8(W8(v, t)) == Got(v, t)
    ensures forall v: u16, t: Bytes :: R16(W16(v, t)) == Got(v, t)
    ensures forall v: u32, t: Bytes :: R32(W32(v, t)) == Got(v, t)
    ensures forall v: u64, t: Bytes :: R64(W64(v, t)) == Got(v, t)
  {
    Pows();
    forall v: u8, t: Bytes { ReadWritten(v, 1, t); }
    forall v: u16, t: Bytes { ReadWritten(v, 2, t); }
    forall v: u32, t: Bytes { ReadWritten(v, 4, t); }
    forall v: u64, t: Bytes { ReadWritten(v, 8, t); }
  }

  lemma Composites()
    ensures forall v: Vec3, t: Bytes :: RVec3(WVec3(v, t)) == Got(v, t)
    ensures forall q: Quat, t: Bytes :: RQuat(WQuat(q, t)) == Got(q, t)
    ensures forall c: Color, t: Bytes :: RColor(WColor(c, t)) == Got(c, t)
  {
    hide R32, W32;
    Scalars();
  }

  lemma StrWritten(s: Bytes, t: Bytes)
    requires |s| < 0x1_0000
    ensures RStr(WStr(s, t)) == Got(s, t)
  {
    hide R16, W16;
    Scalars();
    assert (s + t)[..|s|] == s && (s + t)[|s|..] == t;
  }

  lemma EntityWritten(e: EntityState, t: Bytes)
    ensures REntity(WEntity(e, t)) == Got(e, t)
  {
    hide R32, W32, RVec3, WVec3, RQuat, WQuat;
    Scalars();
    Composites();
  }

  lemma {:induction false} EntitiesWritten(es: seq<EntityState>, t: Bytes)
    ensures REntities(WEntities(es, t), |es|) == Got(es, t)
  {
    hide REntity, WEntity;
    if es != [] {
      EntityWritten(es[0], WEntities(es[1..], t));
      EntitiesWritten(es[1..], t);
      assert [es[0]] + es[1..] == es;
    }
  }

  lemma BodyWritten(m: Message, t: Bytes)
    requires Fits(m)
    ensures RBody(TypeOf(m), WBody(m, t)) == Got(m, t)
  {
    hide R8, W8, R16, W16, R32, W32, R64, W64, RVec3, WVec3, RColor, WColor, RStr, WStr, REntities, WEntities;
    Scalars();
    Composites();
    match m
    case ClientHello(_, name) => StrWritten(name, t);
    case PlayerJoin(_, name) => StrWritten(name, t);
    case Snapshot(_, _, es) => EntitiesWritten(es, t);
    case _ =>
  }

  /** Whatever was read is what would have been written. */
  lemma BodyRead(tag: u8, b: Bytes)
    requires RBody(tag, b).Got?
    ensures var r := RBody(tag, b);
            Fits(r.value) && TypeOf(r.value) == tag && b == WBody(r.value, r.rest)
  {
    hide R8, W8, R16, W16, R32, W32, R64, W64, RVec3, WVec3, RColor, WColor, RStr, WStr, REntities, WEntities;
  }

  // ----- the tail is only carried along -----

  lemma Carried(u: Bytes)
    ensures forall v: u8, t: Bytes :: W8(v, t) + u == W8(v, t + u)
    ensures forall v: u16, t: Bytes :: W16(v, t) + u == W16(v, t + u)
    ensures forall v: u32, t: Bytes :: W32(v, t) + u == W32(v, t + u)
    ensures forall v: u64, t: Bytes :: W64(v, t) + u == W64(v, t + u)
  {
    hide LE;
    forall v: u8, t: Bytes ensures W8(v, t) + u == W8(v, t + u) { assert LE(v, 1) + t + u == LE(v, 1) + (t + u); }
    forall v: u16, t: Bytes ensures W16(v, t) + u == W16(v, t + u) { assert LE(v, 2) + t + u == LE(v, 2) + (t + u); }
    forall v: u32, t: Bytes ensures W32(v, t) + u == W32(v, t + u) { assert LE(v, 4) + t + u == LE(v, 4) + (t + u); }
    forall v: u64, t: Bytes ensures W64(v, t) + u == W64(v, t + u) { assert LE(v, 8) + t + u == LE(v, 8) + (t + u); }
  }

  lemma CarriedComposites(u: Bytes)
    ensures forall v: Vec3, t: Bytes :: WVec3(v, t) + u == WVec3(v, t + u)
    ensures forall q: Quat, t: Bytes :: WQuat(q, t) + u == WQuat(q, t + u)
    ensures forall c: Color, t: Bytes :: WColor(c, t) + u == WColor(c, t + u)
    ensures forall s: Bytes, t: Bytes :: WStr(s, t) + u == WStr(s, t + u)
  {
    hide W32, W16;
    Carried(u);
    forall s: Bytes, t: Bytes ensures WStr(s, t) + u == WStr(s, t + u) {
      assert s + t + u == s + (t + u);
    }
  }

  lemma {:induction false} CarriedEntities(es: seq<EntityState>, t: Bytes, u: Bytes)
    ensures WEntities(es, t) + u == WEntities(es, t + u)
  {
    hide W32, WVec3, WQuat;
    if es != [] {
      Carried(u);
      CarriedComposites(u);
      CarriedEntities(es[1..], t, u);
    }
  }

  lemma CarriedBody(m: Message, t: Bytes, u: Bytes)
    ensures WBody(m, t) + u == WBody(m, t + u)
  {
    hide W8, W16, W32, W64, WVec3, WColor, WStr, WEntities;
    Carried(u);
    CarriedComposites(u);
    if m.Snapshot? { CarriedEntities(m.entities, t, u); }
  }

  // ----- the codec -----

  /** A message within the length limits decodes from the front of any buffer that starts with its encoding. */
  lemma DecodeEncode(m: Message, rest: Bytes)
    requires Fits(m)
    ensures Decode(Encode(m) + rest) == Some(m)
  {
    hide R8, W8, RBody, WBody;
    Scalars();
    Carried(rest);
    CarriedBody(m, [], rest);
    assert [] + rest == rest;
    BodyWritten(m, rest);
  }

  /** The encoding is canonical: a buffer that decodes to a message starts with that message's encoding. */
  lemma EncodeDecode(b: Bytes)
    requires Decode(b).Some?
    ensures Fits(Decode(b).value) && Encode(Decode(b).value) <= b
  {
    hide W8, RBody, WBody;
    var tag := R8(b);
    var body := RBody(tag.value, tag.rest);
    BodyRead(tag.value, tag.rest);
    Carried(body.rest);
    CarriedBody(body.value, [], body.rest);
    assert [] + body.rest == body.rest;
    assert b == Encode(body.value) + body.rest;
  }

  /** A message survives the wire exactly when its lengths fit. */
  lemma SurvivesWire(m: Message)
    ensures Decode(Encode(m)) == Some(m) <==> Fits(m)
  {
    hide Decode, Encode;
    if Fits(m) {
      DecodeEncode(m, []);
      assert Encode(m) + [] == Encode(m);
    }
    if Decode(Encode(m)) == Some(m) { EncodeDecode(Encode(m)); }
  }

  /** Every strict prefix of an encoding is rejected. */
  lemma PrefixRejected(m: Message, n: nat)
    requires Fits(m) && n < |Encode(m)|
    ensures Decode(Encode(m)[..n]).None?
  {
    hide Decode, Encode;
    var p := Encode(m)[..n];
    DecodeEncode(m, []);
    assert Encode(m) + [] == Encode(m);
    if Decode(p).Some? {
      var m' := Decode(p).value;
      EncodeDecode(p);
      var k := |Encode(m')|;
      assert Encode(m) == Encode(m') + Encode(m)[k..];
      DecodeEncode(m', Encode(m)[k..]);
    }
  }

  /** No encoding is a prefix of another message's: a stream of messages splits in one way. */
  lemma PrefixFree(m: Message, m': Message)
    requires Fits(m) && Fits(m') && Encode(m) <= Encode(m')
    ensures m == m'
  {
    hide Decode, Encode;
    var rest := Encode(m')[|Encode(m)|..];
    assert Encode(m') == Encode(m) + rest;
    DecodeEncode(m, rest);
    DecodeEncode(m', []);
    assert Encode(m') + [] == Encode(m');
  }
}
