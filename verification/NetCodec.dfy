/** The codec as it runs: a writer that appends to its buffer, and a reader whose cursor
    stops for good at the first read past the end. */
module NetCodec {
  import opened Wrappers
  import opened NetProtocol

  class ByteWriter {
    var buf: Bytes

    constructor ()
      ensures buf == []
    {
      buf := [];
    }

    /** The loop behind u16, u32 and u64: the low bytes first. */
    method Raw(v: nat, n: nat)
      modifies this
      ensures buf == old(buf) + LE(v, n)
    {
      var i, rest := 0, v;
      while i < n
        invariant 0 <= i <= n
        invariant old(buf) + LE(v, n) == buf + LE(rest, n - i)
      {
        assert LE(rest, n - i) == [rest % 256] + LE(rest / 256, n - i - 1);
        buf := buf + [rest % 256];
        rest := rest / 256;
        i := i + 1;
      }
    }

    // Each write is stated with whatever bytes `t` follow it, as the format is.

    method U8(v: u8)
      modifies this
      ensures forall t: Bytes :: buf + t == old(buf) + W8(v, t)
    {
      hide LE;
      Raw(v, 1);
      assert forall t: Bytes :: buf + t == old(buf) + (LE(v, 1) + t);
    }

    method U16(v: u16)
      modifies this
      ensures forall t: Bytes :: buf + t == old(buf) + W16(v, t)
    {
      hide LE;
      Raw(v, 2);
      assert forall t: Bytes :: buf + t == old(buf) + (LE(v, 2) + t);
    }

    method U32(v: u32)
      modifies this
      ensures forall t: Bytes :: buf + t == old(buf) + W32(v, t)
    {
      hide LE;
      Raw(v, 4);
      assert forall t: Bytes :: buf + t == old(buf) + (LE(v, 4) + t);
    }

    method U64(v: u64)
      modifies this
      ensures forall t: Bytes :: buf + t == old(buf) + W64(v, t)
    {
      hide LE;
      Raw(v, 8);
      assert forall t: Bytes :: buf + t == old(buf) + (LE(v, 8) + t);
    }

    method WriteVec3(v: Vec3)
      modifies this
      ensures forall t: Bytes :: buf + t == old(buf) + WVec3(v, t)
    {
      hide W32;
      U32(v.x);
      U32(v.y);
      U32(v.z);
    }

    method WriteQuat(q: Quat)
      modifies this
      ensures forall t: Bytes :: buf + t == old(buf) + WQuat(q, t)
    {
      hide W32;
      U32(q.x);
      U32(q.y);
      U32(q.z);
      U32(q.w);
    }

    method WriteColor(c: Color)
      modifies this
      ensures forall t: Bytes :: buf + t == old(buf) + WColor(c, t)
    {
      hide W32;
      U32(c.r);
      U32(c.g);
      U32(c.b);
      U32(c.a);
    }

    method WriteStr(s: Bytes)
      modifies this
      ensures forall t: Bytes :: buf + t == old(buf) + WStr(s, t)
    {
      hide W16;
      U16(|s| % 0x1_0000);
      ghost var head := buf;
      buf := buf + s;
      assert forall t: Bytes :: buf + t == head + (s + t);
    }

    method WriteEntity(e: EntityState)
      modifies this
      ensures forall t: Bytes :: buf + t == old(buf) + WEntity(e, t)
    {
      hide W32, WVec3, WQuat;
      U32(e.netId);
      WriteVec3(e.pos);
      WriteQuat(e.rot);
      WriteVec3(e.vel);
    }

    method WriteEntities(es: seq<EntityState>)
      modifies this
      ensures forall t: Bytes :: buf + t == old(buf) + WEntities(es, t)
    {
      hide WEntity;
      var i := 0;
      while i < |es|
        invariant 0 <= i <= |es|
        invariant forall t: Bytes :: old(buf) + WEntities(es, t) == buf + WEntities(es[i..], t)
      {
        assert es[i..][0] == es[i] && es[i..][1..] == es[i + 1..];
        WriteEntity(es[i]);
        i := i + 1;
      }
    }

    method WriteBody(m: Message)
      modifies this
      ensures forall t: Bytes :: buf + t == old(buf) + WBody(m, t)
    {
      hide W8, W16, W32, W64, WVec3, WColor, WStr, WEntities;
      match m
      case ClientHello(v, name) => U16(v); WriteStr(name);
      case ServerWelcome(id, scene, rate) => U32(id); U32(scene); U16(rate);
      case InputCommand(s, k, yaw, pitch, dt) => U32(s); U64(k); U32(yaw); U32(pitch); U32(dt);
      case Snapshot(tick, ack, es) => U32(tick); U32(ack); U16(|es| % 0x1_0000); WriteEntities(es);
      case PlayerJoin(id, name) => U32(id); WriteStr(name);
      case PlayerLeave(id) => U32(id);
      case SpawnEntity(id, kind, scale, color) => U32(id); U8(kind); WriteVec3(scale); WriteColor(color);
      case DespawnEntity(id) => U32(id);
      case Explosion(pos, r, s, u, sp) => WriteVec3(pos); U32(r); U32(s); U32(u); U32(sp);
    }
  }

  method EncodeMessage(m: Message) returns (b: Bytes)
    ensures b == Encode(m)
  {
    hide W8, WBody;
    var w := new ByteWriter();
    w.U8(TypeOf(m));
    ghost var head := w.buf;
    w.WriteBody(m);
    b := w.buf;
    assert b == b + [];
    assert head + WBody(m, []) == [] + Encode(m);
  }

  // ----- reader -----

  class ByteReader {
    const data: Bytes
    var pos: nat
    var ok: bool

    constructor (data: Bytes)
      ensures Valid() && this.data == data && ok && Left() == Some(data)
    {
      this.data := data;
      pos, ok := 0, true;
    }

    ghost predicate Valid() reads this { pos <= |data| }

    /** The bytes still to be read, or None once a read has failed. */
    ghost function Left(): Option<Bytes>
      requires Valid()
      reads this
    {
      if ok then Some(data[pos..]) else None
    }

    method Take(n: nat) returns (b: bool)
      requires Valid()
      modifies this`ok
      ensures Valid() && b == (old(ok) && |data| - pos >= n)
      ensures ok == b
    {
      if !ok || |data| - pos < n { ok := false; }
      b := ok;
    }

    /** The loop behind the integer reads; a failed read gives zero and never moves. */
    method Raw(n: nat) returns (v: nat)
      requires Valid() && n > 0
      modifies this
      ensures Valid()
      ensures match old(Left())
              case None => Left() == None && v == 0
              case Some(b) =>
                match ReadLE(b, n)
                case Short => Left() == None && v == 0
                case Got(x, t) => Left() == Some(t) && v == x
    {
      var t := Take(n);
      if !t { return 0; }
      ghost var b := data[pos..];
      v := 0;
      var i := n;
      while i > 0
        invariant 0 <= i <= n && pos == old(pos) && ok
        invariant v == FromLE(b[i..n])
      {
        i := i - 1;
        assert b[i..n][1..] == b[i + 1..n];
        v := data[pos + i] + 256 * v;
      }
      assert b[..n] == b[0..n];
      pos := pos + n;
    }

    method U8() returns (v: u8)
      requires Valid()
      modifies this
      ensures Valid()
      ensures match old(Left())
              case None => Left() == None && v == 0
              case Some(b) =>
                match R8(b) case Short => Left() == None && v == 0 case Got(x, t) => Left() == Some(t) && v == x
    {
      hide LE, FromLE;
      Pows();
      v := Raw(1);
    }

    method U16() returns (v: u16)
      requires Valid()
      modifies this
      ensures Valid()
      ensures match old(Left())
              case None => Left() == None && v == 0
              case Some(b) =>
                match R16(b) case Short => Left() == None && v == 0 case Got(x, t) => Left() == Some(t) && v == x
    {
      hide LE, FromLE;
      Pows();
      v := Raw(2);
    }

    method U32() returns (v: u32)
      requires Valid()
      modifies this
      ensures Valid()
      ensures match old(Left())
              case None => Left() == None && v == 0
              case Some(b) =>
                match R32(b) case Short => Left() == None && v == 0 case Got(x, t) => Left() == Some(t) && v == x
    {
      hide LE, FromLE;
      Pows();
      v := Raw(4);
    }

    method U64() returns (v: u64)
      requires Valid()
      modifies this
      ensures Valid()
      ensures match old(Left())
              case None => Left() == None && v == 0
              case Some(b) =>
                match R64(b) case Short => Left() == None && v == 0 case Got(x, t) => Left() == Some(t) && v == x
    {
      hide LE, FromLE;
      Pows();
      v := Raw(8);
    }

    method ReadVec3() returns (v: Vec3)
      requires Valid()
      modifies this
      ensures Valid() && Did(old(Left()), RVec3, v)
    {
      hide R32;
      var x := U32();
      var y := U32();
      var z := U32();
      v := Vec3(x, y, z);
    }

    method ReadQuat() returns (q: Quat)
      requires Valid()
      modifies this
      ensures Valid() && Did(old(Left()), RQuat, q)
    {
      hide R32;
      var x := U32();
      var y := U32();
      var z := U32();
      var w := U32();
      q := Quat(x, y, z, w);
    }

    method ReadColor() returns (c: Color)
      requires Valid()
      modifies this
      ensures Valid() && Did(old(Left()), RColor, c)
    {
      hide R32;
      var r := U32();
      var g := U32();
      var b := U32();
      var a := U32();
      c := Color(r, g, b, a);
    }

    method ReadStr() returns (s: Bytes)
      requires Valid()
      modifies this
      ensures Valid() && Did(old(Left()), RStr, s)
    {
      hide R16;
      var n := U16();
      var t := Take(n);
      if !t { return []; }
      s := data[pos..pos + n];
      assert data[pos..][..n] == s && data[pos..][n..] == data[pos + n..];
      pos := pos + n;
    }

    method ReadEntity() returns (e: EntityState)
      requires Valid()
      modifies this
      ensures Valid() && Did(old(Left()), REntity, e)
    {
      hide R32, RVec3, RQuat;
      var id := U32();
      var p := ReadVec3();
      var rot := ReadQuat();
      var vel := ReadVec3();
      e := EntityState(id, p, rot, vel);
    }

    /** A read of a composite: what the format says, or a failure that stays. */
    ghost predicate Did<T>(before: Option<Bytes>, read: Bytes -> Read<T>, v: T)
      requires Valid()
      reads this
    {
      match before
      case None => Left() == None
      case Some(b) => match read(b) case Short => Left() == None case Got(x, t) => Left() == Some(t) && v == x
    }

    method ReadBody(tag: u8) returns (m: Option<Message>)
      requires Valid() && ok
      modifies this
      ensures Valid()
      ensures var r := RBody(tag, old(Left()).value);
              if ok && m.Some? then r == Got(m.value, Left().value) else r == Short
    {
      hide R8, R16, R32, R64, RVec3, RQuat, RColor, RStr, REntity, REntities;
      if tag == 1 {
        var v := U16();
        var name := ReadStr();
        m := Some(ClientHello(v, name));
      } else if tag == 2 {
        var id := U32();
        var scene := U32();
        var rate := U16();
        m := Some(ServerWelcome(id, scene, rate));
      } else if tag == 3 {
        var s := U32();
        var k := U64();
        var yaw := U32();
        var pitch := U32();
        var dt := U32();
        m := Some(InputCommand(s, k, yaw, pitch, dt));
      } else if tag == 4 {
        m := ReadSnapshot();
      } else if tag == 5 {
        var id := U32();
        var name := ReadStr();
        m := Some(PlayerJoin(id, name));
      } else if tag == 6 {
        var id := U32();
        m := Some(PlayerLeave(id));
      } else if tag == 7 {
        var id := U32();
        var kind := U8();
        var scale := ReadVec3();
        var color := ReadColor();
        m := Some(SpawnEntity(id, kind, scale, color));
      } else if tag == 8 {
        var id := U32();
        m := Some(DespawnEntity(id));
      } else if tag == 9 {
        var p := ReadVec3();
        var r := U32();
        var s := U32();
        var u := U32();
        var sp := U32();
        m := Some(Explosion(p, r, s, u, sp));
      } else {
        m := None;
      }
    }

    method ReadSnapshot() returns (m: Option<Message>)
      requires Valid() && ok
      modifies this
      ensures Valid()
      ensures var r := RBody(4, old(Left()).value);
              if ok && m.Some? then r == Got(m.value, Left().value) else r == Short
    {
      hide R16, R32, REntities;
      var tick := U32();
      var ack := U32();
      var count := U16();
      if !ok { return None; }
      var es := ReadEntities(count);
      m := Some(Snapshot(tick, ack, es));
    }

    method ReadEntities(count: nat) returns (es: seq<EntityState>)
      requires Valid() && ok
      modifies this
      ensures Valid()
      ensures match REntities(old(Left()).value, count)
              case Short => Left() == None
              case Got(x, t) => Left() == Some(t) && es == x
    {
      hide REntity, REntities;
      ghost var start := data[pos..];
      es := [];
      ExtendNothing(REntities(start, count));
      var i := 0;
      while i < count
        invariant 0 <= i <= count && Valid()
        invariant REntities(start, count) == if ok then Extend(es, REntities(data[pos..], count - i)) else Short
      {
        ghost var sofar := es;
        if ok { EntitiesStep(data[pos..], count - i); }
        var e := ReadEntity();
        es := es + [e];
        if ok { ExtendOne(sofar, e, REntities(data[pos..], count - i - 1)); }
        i := i + 1;
      }
      if ok { NoEntities(data[pos..]); }
      assert es + [] == es;
    }
  }

  lemma EntitiesStep(b: Bytes, n: nat)
    requires n > 0
    ensures REntities(b, n) ==
            match REntity(b) case Short => Short case Got(e, t) => Extend([e], REntities(t, n - 1))
  {
    hide REntity;
  }

  lemma NoEntities(b: Bytes)
    ensures REntities(b, 0) == Got([], b)
  {
  }

  /** What a list reader that has already collected `sofar` will produce. */
  ghost function Extend(sofar: seq<EntityState>, r: Read<seq<EntityState>>): Read<seq<EntityState>> {
    match r
    case Short => Short
    case Got(v, t) => Got(sofar + v, t)
  }

  lemma ExtendNothing(r: Read<seq<EntityState>>)
    ensures Extend([], r) == r
  {
    if r.Got? { assert [] + r.value == r.value; }
  }

  lemma ExtendOne(sofar: seq<EntityState>, e: EntityState, r: Read<seq<EntityState>>)
    ensures Extend(sofar + [e], r) == Extend(sofar, Extend([e], r))
  {
    if r.Got? { assert sofar + [e] + r.value == sofar + ([e] + r.value); }
  }

  method DecodeMessage(b: Bytes) returns (m: Option<Message>)
    ensures m == Decode(b)
  {
    hide R8, RBody;
    if |b| == 0 {
      EmptyRejected();
      return None;
    }
    var r := new ByteReader(b);
    var tag := r.U8();
    FirstByte(b);
    m := r.ReadBody(tag);
    if !r.ok { m := None; }
  }

  lemma EmptyRejected()
    ensures Decode([]) == None
  {
  }

  lemma FirstByte(b: Bytes)
    requires b != []
    ensures R8(b).Got?
  {
  }
}
