/** The checksum of ZIP entries (section 8 of RFC 1952): a table-driven loop, and the
    bit-at-a-time register it abbreviates. */
module Crc32 {

  type Byte = bv8
  type Word = bv32

  const POLY: Word := 0xEDB8_8320
  const ONES: Word := 0xFFFF_FFFF

  // ----- the operations on words, named so that proofs can set their bits aside -----

  function Xor(a: Word, b: Word): Word { a ^ b }
  function Half(c: Word): Word { c >> 1 }
  function Odd(c: Word): bool { c & 1 == 1 }
  function LowByte(c: Word): Byte { (c & 0xFF) as bv8 }
  function DropByte(c: Word): Word { c >> 8 }
  function Wide(b: Byte): Word { b as bv32 }

  /** One shift of the register: a bit falling off the low end is reduced by the polynomial. */
  function BitStep(c: Word): Word { if Odd(c) then Xor(POLY, Half(c)) else Half(c) }

  function Steps(c: Word, k: nat): Word
    decreases k
  {
    if k == 0 then c else Steps(BitStep(c), k - 1)
  }

  // ----- the table-driven form -----

  function Table(i: Byte): Word { Steps(Wide(i), 8) }

  function TableStep(c: Word, b: Byte): Word { Xor(Table(LowByte(Xor(c, Wide(b)))), DropByte(c)) }

  function Register(c: Word, data: seq<Byte>): Word {
    if data == [] then c else TableStep(Register(c, data[..|data| - 1]), data[|data| - 1])
  }

  function Crc(data: seq<Byte>): Word { Xor(Register(ONES, data), ONES) }

  lemma ByteIndex(b: Byte)
    ensures 0 <= b as int < 256 && (b as int) as bv8 == b
  {
  }

  /** The checksum with its table, filled on first use. */
  class Checksum {
    const table: array<Word>
    var ready: bool

    ghost predicate Valid()
      reads this, table
    {
      table.Length == 256 && (ready ==> forall i :: 0 <= i < 256 ==> table[i] == Table(i as bv8))
    }

    constructor ()
      ensures Valid() && fresh(table) && !ready
    {
      table := new Word[256];
      ready := false;
    }

    method Fill()
      requires Valid()
      modifies this, table
      ensures Valid() && ready
    {
      hide Xor, Half, Odd;
      var i := 0;
      while i < 256
        invariant i <= 256 && forall j :: 0 <= j < i ==> table[j] == Table(j as bv8)
        modifies table
      {
        var c := Wide(i as bv8);
        var k := 0;
        while k < 8
          invariant k <= 8 && Steps(c, 8 - k) == Table(i as bv8)
          modifies {}
        {
          c := if Odd(c) then Xor(POLY, Half(c)) else Half(c);
          k := k + 1;
        }
        table[i] := c;
        i := i + 1;
      }
      ready := true;
    }

    method Of(data: seq<Byte>) returns (crc: Word)
      requires Valid()
      modifies this, table
      ensures Valid() && ready && crc == Crc(data)
    {
      hide Xor, LowByte, DropByte, Wide, Table;
      if !ready { Fill(); }
      var c := ONES;
      var i := 0;
      while i < |data|
        invariant i <= |data| && c == Register(ONES, data[..i])
        modifies {}
      {
        assert data[..i + 1][..i] == data[..i];
        var b := LowByte(Xor(c, Wide(data[i])));
        ByteIndex(b);
        c := Xor(table[b as int], DropByte(c));
        i := i + 1;
      }
      assert data[..i] == data;
      crc := Xor(c, ONES);
    }
  }

  // ----- laws of words -----

  lemma XorCommutes(a: Word, b: Word)
    ensures Xor(a, b) == Xor(b, a)
  {
  }

  lemma XorCancels(a: Word)
    ensures Xor(a, 0) == a && Xor(a, a) == 0
  {
  }

  lemma XorAssociates(a: Word, b: Word, c: Word)
    ensures Xor(Xor(a, b), c) == Xor(a, Xor(b, c))
  {
  }

  lemma XorLaws(a: Word, b: Word, c: Word)
    ensures Xor(a, b) == Xor(b, a) && Xor(Xor(a, b), c) == Xor(a, Xor(b, c))
    ensures Xor(a, 0) == a && Xor(a, a) == 0 && Xor(a, Xor(a, b)) == b
  {
    XorCommutes(a, b);
    XorCommutes(0, b);
    XorCancels(a);
    XorCancels(b);
    XorAssociates(a, b, c);
    XorAssociates(a, a, b);
    hide Xor;
  }

  lemma XorHalves(a: Word, b: Word)
    ensures Half(Xor(a, b)) == Xor(Half(a), Half(b))
    ensures Odd(Xor(a, b)) == (Odd(a) != Odd(b))
  {
  }

  /** The step is linear over exclusive or. */
  lemma BitStepLinear(a: Word, b: Word)
    ensures BitStep(Xor(a, b)) == Xor(BitStep(a), BitStep(b))
  {
    XorHalves(a, b);
    var x, y := Half(a), Half(b);
    XorLaws(POLY, x, y);
    XorLaws(x, POLY, y);
    XorLaws(Xor(POLY, x), POLY, y);
    XorLaws(POLY, Xor(POLY, x), y);
    hide Xor, Half, Odd;
  }

  lemma {:induction false} StepsLinear(a: Word, b: Word, k: nat)
    ensures Steps(Xor(a, b), k) == Xor(Steps(a, k), Steps(b, k))
    decreases k
  {
    hide Xor, BitStep;
    if k > 0 {
      BitStepLinear(a, b);
      StepsLinear(BitStep(a), BitStep(b), k - 1);
    }
  }

  lemma StepsTwice(c: Word, k: nat)
    ensures k >= 2 ==> Steps(c, k) == Steps(BitStep(BitStep(c)), k - 2)
  {
    hide BitStep;
  }

  lemma StepsOfEight(c: Word)
    ensures Steps(c, 8) == BitStep(BitStep(BitStep(BitStep(BitStep(BitStep(BitStep(BitStep(c))))))))
  {
    hide BitStep;
    var c2 := BitStep(BitStep(c));
    var c4 := BitStep(BitStep(c2));
    var c6 := BitStep(BitStep(c4));
    StepsTwice(c, 8);
    StepsTwice(c2, 6);
    StepsTwice(c4, 4);
    StepsTwice(c6, 2);
  }

  /** With an empty low byte eight steps are a plain shift. */
  lemma HighByteShifts(c: Word)
    requires c & 0xFF == 0
    ensures BitStep(BitStep(BitStep(BitStep(BitStep(BitStep(BitStep(BitStep(c)))))))) == DropByte(c)
  {
  }

  lemma ByteSplit(c: Word, b: Byte) returns (high: Word)
    ensures Xor(c, Wide(b)) == Xor(Wide(LowByte(Xor(c, Wide(b)))), high)
    ensures high & 0xFF == 0 && DropByte(high) == DropByte(c)
  {
    high := c & 0xFFFF_FF00;
  }

  /** One table step is eight shifts of the register with the byte folded in. */
  lemma TableStepIsEight(c: Word, b: Byte)
    ensures TableStep(c, b) == Steps(Xor(c, Wide(b)), 8)
  {
    var high := ByteSplit(c, b);
    HighByteShifts(high);
    hide Xor, LowByte, DropByte, Wide, BitStep;
    StepsLinear(Wide(LowByte(Xor(c, Wide(b)))), high, 8);
    StepsOfEight(high);
    hide Steps;
  }

  // ----- the bit-at-a-time form -----

  /** Bits low end first, the order in which they are fed. */
  function Bits(c: Word, k: nat): (r: seq<bool>)
    ensures |r| == k
    decreases k
  {
    if k == 0 then [] else [Odd(c)] + Bits(Half(c), k - 1)
  }

  function MessageBits(data: seq<Byte>): seq<bool> {
    if data == [] then [] else MessageBits(data[..|data| - 1]) + Bits(Wide(data[|data| - 1]), 8)
  }

  function FeedBit(c: Word, bit: bool): Word { BitStep(Xor(c, if bit then 1 else 0)) }

  function FeedBits(c: Word, bits: seq<bool>): Word {
    if bits == [] then c else FeedBit(FeedBits(c, bits[..|bits| - 1]), bits[|bits| - 1])
  }

  function Shifted(b: Word, k: nat): Word
    decreases k
  {
    if k == 0 then b else Shifted(Half(b), k - 1)
  }

  lemma LowBitSplit(b: Word) returns (high: Word)
    ensures b == Xor(if Odd(b) then 1 else 0, high) && !Odd(high) && Half(high) == Half(b)
  {
    high := b & 0xFFFF_FFFE;
  }

  lemma FeedLowBit(c: Word, b: Word)
    ensures BitStep(Xor(c, b)) == Xor(FeedBit(c, Odd(b)), Half(b))
  {
    var high := LowBitSplit(b);
    var low: Word := if Odd(b) then 1 else 0;
    XorLaws(c, low, high);
    BitStepLinear(Xor(c, low), high);
    hide Xor, Odd, Half;
  }

  /** Feeding the bits one by one or folding them in at once comes to the same. */
  lemma {:induction false} FeedIsFold(c: Word, b: Word, k: nat)
    requires Shifted(b, k) == 0
    ensures FeedBits(c, Bits(b, k)) == Steps(Xor(c, b), k)
    decreases k
  {
    if k == 0 {
      XorLaws(c, b, b);
    } else {
      FeedFirst(c, Odd(b), Bits(Half(b), k - 1));
      FeedLowBit(c, b);
      hide Xor, Odd, Half, FeedBit, BitStep;
      FeedIsFold(FeedBit(c, Odd(b)), Half(b), k - 1);
    }
  }

  lemma {:induction false} FeedFirst(c: Word, bit: bool, rest: seq<bool>)
    ensures FeedBits(c, [bit] + rest) == FeedBits(FeedBit(c, bit), rest)
    decreases |rest|
  {
    hide FeedBit;
    if rest == [] {
      assert [bit][..0] == [];
      assert [bit] + rest == [bit];
    } else {
      FeedFirst(c, bit, rest[..|rest| - 1]);
      assert ([bit] + rest)[..|rest|] == [bit] + rest[..|rest| - 1];
    }
  }

  lemma {:induction false} FeedConcat(c: Word, a: seq<bool>, b: seq<bool>)
    ensures FeedBits(c, a + b) == FeedBits(FeedBits(c, a), b)
    decreases |b|
  {
    hide FeedBit;
    if b == [] {
      assert a + b == a;
    } else {
      FeedConcat(c, a, b[..|b| - 1]);
      assert (a + b)[..|a + b| - 1] == a + b[..|b| - 1];
    }
  }

  lemma ShiftedTwice(c: Word, k: nat)
    ensures k >= 2 ==> Shifted(c, k) == Shifted(Half(Half(c)), k - 2)
  {
    hide Half;
  }

  lemma EightHalves(c: Word)
    ensures Half(Half(Half(Half(Half(Half(Half(Half(c)))))))) == DropByte(c)
  {
  }

  lemma ShiftedEight(c: Word)
    ensures Shifted(c, 8) == DropByte(c)
  {
    hide Half, DropByte;
    EightHalves(c);
    var c2 := Half(Half(c));
    var c4 := Half(Half(c2));
    var c6 := Half(Half(c4));
    ShiftedTwice(c, 8);
    ShiftedTwice(c2, 6);
    ShiftedTwice(c4, 4);
    ShiftedTwice(c6, 2);
  }

  lemma ByteDrops(b: Byte)
    ensures DropByte(Wide(b)) == 0
  {
  }

  /** The table-driven register is the bit-at-a-time one, for every message and starting value. */
  lemma {:induction false} RegisterIsBitSerial(c: Word, data: seq<Byte>)
    ensures Register(c, data) == FeedBits(c, MessageBits(data))
  {
    if data == [] {
      assert MessageBits(data) == [];
    } else {
      hide Xor, Half, Odd, LowByte, DropByte, Wide, BitStep, FeedBit, FeedBits, Bits, Steps, TableStep, Shifted;
      var before, b := data[..|data| - 1], data[|data| - 1];
      RegisterIsBitSerial(c, before);
      FeedConcat(c, MessageBits(before), Bits(Wide(b), 8));
      ShiftedEight(Wide(b));
      ByteDrops(b);
      FeedIsFold(FeedBits(c, MessageBits(before)), Wide(b), 8);
      TableStepIsEight(Register(c, before), b);
    }
  }
}
