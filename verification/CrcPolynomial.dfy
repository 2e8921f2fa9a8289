/** The checksum as polynomial arithmetic: it is the remainder of a long division by the IEEE
    polynomial over the two-element field, and it tells apart messages that differ in one byte. */
module CrcPolynomial {
  import opened Crc32

  /** Coefficients, highest degree first. */
  type Poly = seq<bool>

  /** x^32 + x^26 + x^23 + x^22 + x^16 + x^12 + x^11 + x^10 + x^8 + x^7 + x^5 + x^4 + x^2 + x + 1. */
  const TERMS: set<nat> := {32, 26, 23, 22, 16, 12, 11, 10, 8, 7, 5, 4, 2, 1, 0}

  /** The divisor without its leading term. */
  function Divisor(): (r: Poly)
    ensures |r| == 32 && forall i :: 0 <= i < 32 ==> r[i] == (31 - i in TERMS)
  {
    seq(32, i => 31 - i in TERMS)
  }

  function Plus(a: Poly, b: Poly): (r: Poly)
    requires |a| == |b|
    ensures |r| == |a| && forall i :: 0 <= i < |a| ==> r[i] == (a[i] != b[i])
  {
    seq(|a|, i requires 0 <= i < |a| => a[i] != b[i])
  }

  function Zeros(n: nat): (r: Poly)
    ensures |r| == n && forall i :: 0 <= i < n ==> !r[i]
  {
    seq(n, i => false)
  }

  function Ones(n: nat): (r: Poly)
    ensures |r| == n && forall i :: 0 <= i < n ==> r[i]
  {
    seq(n, i => true)
  }

  /** The remainder of long division: a leading term is cancelled by a multiple of the divisor. */
  function Remainder(p: Poly): (r: Poly)
    ensures |r| == if |p| <= 32 then |p| else 32
    decreases |p|
  {
    if |p| <= 32 then p
    else if p[0] then Remainder(Plus(p[1..33], Divisor()) + p[33..])
    else Remainder(p[1..])
  }

  // ----- the register as a polynomial -----

  lemma {:induction false} BitsOfXor(a: Word, b: Word, k: nat)
    ensures Bits(Xor(a, b), k) == Plus(Bits(a, k), Bits(b, k))
    decreases k
  {
    hide Xor, Half, Odd;
    if k > 0 {
      XorHalves(a, b);
      BitsOfXor(Half(a), Half(b), k - 1);
    }
  }

  lemma {:induction false} BitsLast(c: Word, k: nat)
    ensures Bits(c, k + 1) == Bits(c, k) + [Odd(Shifted(c, k))]
    decreases k
  {
    hide Half, Odd;
    if k > 0 { BitsLast(Half(c), k - 1); }
  }

  lemma {:induction false} ShiftedSum(c: Word, a: nat, b: nat)
    ensures Shifted(c, a + b) == Shifted(Shifted(c, a), b)
    decreases a
  {
    hide Half;
    if a > 0 { ShiftedSum(Half(c), a - 1, b); }
  }

  lemma AllDropped(c: Word)
    ensures DropByte(DropByte(DropByte(DropByte(c)))) == 0
  {
  }

  lemma ShiftedOut(c: Word)
    ensures Shifted(c, 32) == 0
  {
    AllDropped(c);
    hide DropByte, Half;
    ShiftedSum(c, 8, 24);
    ShiftedSum(Shifted(c, 8), 8, 16);
    ShiftedSum(Shifted(Shifted(c, 8), 8), 8, 8);
    ShiftedEight(c);
    ShiftedEight(DropByte(c));
    ShiftedEight(DropByte(DropByte(c)));
    ShiftedEight(DropByte(DropByte(DropByte(c))));
    hide Shifted;
  }

  lemma BitsOfHalf(c: Word)
    ensures Bits(Half(c), 32) == Bits(c, 32)[1..] + [false]
  {
    ShiftedOut(c);
    BitsLast(Half(c), 31);
    assert Shifted(c, 32) == Shifted(Half(c), 31);
    assert Bits(c, 32) == [Odd(c)] + Bits(Half(c), 31);
    assert !Odd(0);
  }

  lemma HalfForgets(c: Word, bit: bool)
    ensures Half(Xor(c, if bit then 1 else 0)) == Half(c) && Odd(Xor(c, if bit then 1 else 0)) == (Odd(c) != bit)
  {
  }

  lemma {:induction false} BitsAt(c: Word, k: nat, i: nat)
    requires i < k
    ensures Bits(c, k)[i] == Odd(Shifted(c, i))
    decreases i
  {
    hide Odd, Half;
    if i > 0 { BitsAt(Half(c), k - 1, i - 1); }
  }

  predicate Bit(c: Word, mask: Word) { c & mask == mask }

  /** One of the eight low bits of a word. */
  predicate LowBit(c: Word, i: nat) {
    if i == 0 then Bit(c, 1) else if i == 1 then Bit(c, 2) else if i == 2 then Bit(c, 4) else if i == 3 then Bit(c, 8)
    else if i == 4 then Bit(c, 16) else if i == 5 then Bit(c, 32) else if i == 6 then Bit(c, 64) else Bit(c, 128)
  }

  lemma OddHalves(c: Word)
    ensures Bit(c, 1) == Odd(c) && Bit(c, 2) == Odd(Half(c))
  {
  }

  lemma BitsUnderShift(c: Word)
    ensures Bit(Half(Half(c)), 1) == Bit(c, 4) && Bit(Half(Half(c)), 2) == Bit(c, 8)
  {
  }

  lemma NibbleUnderShift(c: Word)
    ensures Bit(Half(Half(c)), 4) == Bit(c, 16) && Bit(Half(Half(c)), 8) == Bit(c, 32)
  {
  }

  lemma TopUnderShift(c: Word)
    ensures Bit(Half(Half(c)), 16) == Bit(c, 64) && Bit(Half(Half(c)), 32) == Bit(c, 128)
  {
  }

  lemma ShiftedOnce(c: Word)
    ensures Shifted(c, 0) == c && Shifted(c, 1) == Half(c)
  {
    hide Half;
  }

  lemma ShiftedFew(c: Word, i: nat)
    requires i < 8
    ensures var c2 := Half(Half(c)); var c4 := Half(Half(c2));
            Shifted(c, i) == if i < 2 then Shifted(c, i) else if i < 4 then Shifted(c2, i - 2)
                             else if i < 6 then Shifted(c4, i - 4) else Shifted(Half(Half(c4)), i - 6)
  {
    hide Half, Shifted;
    var c2 := Half(Half(c));
    if i >= 2 {
      ShiftedTwice(c, i);
      if i >= 4 {
        ShiftedTwice(c2, i - 2);
        if i >= 6 { ShiftedTwice(Half(Half(c2)), i - 4); }
      }
    }
  }

  lemma LowPair(c: Word, i: nat)
    requires i < 2
    ensures Odd(Shifted(c, i)) == if i == 0 then Bit(c, 1) else Bit(c, 2)
  {
    hide Odd, Half, Bit, Shifted;
    ShiftedOnce(c);
    OddHalves(c);
  }

  /** The eight low bits are the first eight to be shifted out. */
  lemma LowBitsShiftOut(c: Word, i: nat)
    requires i < 8
    ensures Odd(Shifted(c, i)) == LowBit(c, i)
  {
    hide Odd, Half, Bit, Shifted;
    ShiftedFew(c, i);
    var c2 := Half(Half(c));
    if i < 2 {
      LowPair(c, i);
    } else if i < 4 {
      LowPair(c2, i - 2);
      BitsUnderShift(c);
    } else if i < 6 {
      LowPair(Half(Half(c2)), i - 4);
      BitsUnderShift(c2);
      NibbleUnderShift(c);
    } else {
      LowPair(Half(Half(Half(Half(c2)))), i - 6);
      BitsUnderShift(Half(Half(c2)));
      NibbleUnderShift(c2);
      TopUnderShift(c);
    }
  }

  /** Bit by bit, a word is its four bytes. */
  lemma WordBit(c: Word, i: nat)
    requires i < 32
    ensures Bits(c, 32)[i] == if i < 8 then LowBit(c, i) else if i < 16 then LowBit(DropByte(c), i - 8)
                              else if i < 24 then LowBit(DropByte(DropByte(c)), i - 16)
                              else LowBit(DropByte(DropByte(DropByte(c))), i - 24)
  {
    hide Odd, Half, DropByte, LowBit, Shifted;
    BitsAt(c, 32, i);
    hide Bits;
    ShiftedEight(c);
    ShiftedEight(DropByte(c));
    ShiftedEight(DropByte(DropByte(c)));
    if i < 8 {
      LowBitsShiftOut(c, i);
    } else {
      ShiftedSum(c, 8, i - 8);
      if i < 16 {
        LowBitsShiftOut(DropByte(c), i - 8);
      } else {
        ShiftedSum(DropByte(c), 8, i - 16);
        if i < 24 {
          LowBitsShiftOut(DropByte(DropByte(c)), i - 16);
        } else {
          ShiftedSum(DropByte(DropByte(c)), 8, i - 24);
          LowBitsShiftOut(DropByte(DropByte(DropByte(c))), i - 24);
        }
      }
    }
  }

  lemma PolyBytes(i: nat)
    requires i < 8
    ensures DropByte(POLY) == 0xED_B883 && DropByte(0xED_B883) == 0xED_B8 && DropByte(0xED_B8) == 0xED
    ensures LowBit(POLY, i) == (31 - i in TERMS) && LowBit(0xED_B883, i) == (23 - i in TERMS)
    ensures LowBit(0xED_B8, i) == (15 - i in TERMS) && LowBit(0xED, i) == (7 - i in TERMS)
  {
  }

  /** The reflected constant of the code is the polynomial. */
  lemma PolyBits()
    ensures Bits(POLY, 32) == Divisor()
  {
    hide Bits, LowBit, DropByte;
    forall i | 0 <= i < 32 ensures Bits(POLY, 32)[i] == Divisor()[i] {
      PolyBytes(i % 8);
      WordBit(POLY, i);
    }
  }

  // ----- the division -----

  /** The dividend: the message times x^32, plus the starting value lined up with its first 32 bits. */
  function Dividend(c: Word, m: seq<bool>): Poly {
    Plus(Bits(c, 32) + Zeros(|m|), m + Zeros(32))
  }

  /** What is left of the dividend after its first term. */
  lemma DividendTail(c: Word, bit: bool, m: seq<bool>)
    ensures var d := Dividend(c, [bit] + m);
            |d| == |m| + 33 && d[0] == (Odd(c) != bit) && d[1..] == Dividend(Half(c), m)
  {
    BitsOfHalf(c);
    assert Bits(c, 32)[0] == Odd(c);
    hide Bits, Half, Odd;
    var d, rest := Dividend(c, [bit] + m), Dividend(Half(c), m);
    forall i | 0 <= i < |rest| ensures d[i + 1] == rest[i] {
      assert ([bit] + m + Zeros(32))[i + 1] == (m + Zeros(32))[i];
      assert (Bits(c, 32) + Zeros(|m| + 1))[i + 1] == (Bits(Half(c), 32) + Zeros(|m|))[i];
    }
  }

  /** Cancelling the leading term adds the divisor to the register. */
  lemma DividendPlus(c: Word, m: seq<bool>)
    ensures var d := Dividend(c, m); |d| == |m| + 32 && Plus(d[..32], Divisor()) + d[32..] == Dividend(Xor(POLY, c), m)
  {
    BitsOfXor(POLY, c, 32);
    PolyBits();
    hide Bits, Xor;
    var d, e := Dividend(c, m), Dividend(Xor(POLY, c), m);
    assert Bits(Xor(POLY, c), 32) == Plus(Divisor(), Bits(c, 32));
    forall i | 0 <= i < |d| ensures (Plus(d[..32], Divisor()) + d[32..])[i] == e[i] {
    }
  }

  /** One step of the register is one step of the division. */
  lemma DivideStep(c: Word, bit: bool, rest: seq<bool>)
    ensures Remainder(Dividend(c, [bit] + rest)) == Remainder(Dividend(FeedBit(c, bit), rest))
  {
    DividendTail(c, bit, rest);
    HalfForgets(c, bit);
    DividendPlus(Half(c), rest);
    var d := Dividend(c, [bit] + rest);
    assert FeedBit(c, bit) == BitStep(Xor(c, if bit then 1 else 0));
    hide Divisor, Zeros, FeedBit, Dividend, Plus, Xor, Half, Odd;
    assert d[1..][..32] == d[1..33] && d[1..][32..] == d[33..];
  }

  /** Feeding a message bit by bit into the register is dividing it. */
  lemma {:induction false} FeedingDivides(c: Word, m: seq<bool>)
    ensures Remainder(Dividend(c, m)) == Bits(FeedBits(c, m), 32)
    decreases |m|
  {
    hide Bits, FeedBit;
    if m == [] {
      assert Dividend(c, m) == Bits(c, 32);
    } else {
      hide Dividend, Remainder, FeedBits;
      assert m == [m[0]] + m[1..];
      FeedFirst(c, m[0], m[1..]);
      DivideStep(c, m[0], m[1..]);
      FeedingDivides(FeedBit(c, m[0]), m[1..]);
    }
  }

  /** For every message: the checksum's bits are the complement of the remainder of the message
      times x^32, with its first 32 terms complemented. */
  lemma CrcIsRemainder(data: seq<Byte>)
    ensures var m := MessageBits(data);
            Bits(Crc(data), 32) == Plus(Remainder(Plus(Ones(32) + Zeros(|m|), m + Zeros(32))), Ones(32))
  {
    var m := MessageBits(data);
    RegisterIsBitSerial(ONES, data);
    FeedingDivides(ONES, m);
    OnesBits();
    BitsOfXor(Register(ONES, data), ONES, 32);
    hide Bits, Xor, Register, FeedBits, MessageBits, Remainder;
  }

  lemma FullBytes(i: nat)
    ensures DropByte(ONES) == 0xFF_FFFF && DropByte(0xFF_FFFF) == 0xFFFF && DropByte(0xFFFF) == 0xFF
    ensures LowBit(ONES, i) && LowBit(0xFF_FFFF, i) && LowBit(0xFFFF, i) && LowBit(0xFF, i)
  {
  }

  lemma OnesBits()
    ensures Bits(ONES, 32) == Ones(32)
  {
    hide Bits, LowBit, DropByte;
    forall i | 0 <= i < 32 ensures Bits(ONES, 32)[i] {
      FullBytes(i % 8);
      WordBit(ONES, i);
    }
  }

  // ----- error detection -----

  lemma BitStepInjective(a: Word, b: Word)
    requires BitStep(a) == BitStep(b)
    ensures a == b
  {
  }

  lemma {:induction false} StepsInjective(a: Word, b: Word, k: nat)
    requires Steps(a, k) == Steps(b, k)
    ensures a == b
    decreases k
  {
    hide BitStep;
    if k > 0 {
      StepsInjective(BitStep(a), BitStep(b), k - 1);
      BitStepInjective(a, b);
    }
  }

  lemma XorInjective(a: Word, b: Word, c: Word)
    requires Xor(a, c) == Xor(b, c)
    ensures a == b
  {
  }

  lemma WideInjective(x: Byte, y: Byte, c: Word)
    requires Xor(c, Wide(x)) == Xor(c, Wide(y))
    ensures x == y
  {
  }

  lemma {:induction false} RegisterInjective(c: Word, d: Word, data: seq<Byte>)
    requires Register(c, data) == Register(d, data)
    ensures c == d
    decreases |data|
  {
    if data != [] {
      var before, b := data[..|data| - 1], data[|data| - 1];
      var c1, d1 := Register(c, before), Register(d, before);
      TableStepIsEight(c1, b);
      TableStepIsEight(d1, b);
      hide TableStep, Steps, Xor, Wide, Register;
      StepsInjective(Xor(c1, Wide(b)), Xor(d1, Wide(b)), 8);
      XorInjective(c1, d1, Wide(b));
      RegisterInjective(c, d, before);
    }
  }

  lemma {:induction false} RegisterConcat(c: Word, a: seq<Byte>, b: seq<Byte>)
    ensures Register(c, a + b) == Register(Register(c, a), b)
    decreases |b|
  {
    hide TableStep;
    if b == [] {
      assert a + b == a;
    } else {
      RegisterConcat(c, a, b[..|b| - 1]);
      assert (a + b)[..|a + b| - 1] == a + b[..|b| - 1];
    }
  }

  /** Two messages that differ in exactly one byte have different checksums. */
  lemma OneByteIsNoticed(a: seq<Byte>, x: Byte, y: Byte, b: seq<Byte>)
    ensures Crc(a + [x] + b) == Crc(a + [y] + b) <==> x == y
  {
    if Crc(a + [x] + b) == Crc(a + [y] + b) {
      var c := Register(ONES, a);
      RegisterConcat(ONES, a + [x], b);
      RegisterConcat(ONES, a + [y], b);
      RegisterConcat(ONES, a, [x]);
      RegisterConcat(ONES, a, [y]);
      assert Register(c, [x]) == TableStep(c, x) && Register(c, [y]) == TableStep(c, y);
      hide Register, TableStep, Steps, Xor, Wide;
      XorInjective(Register(ONES, a + [x] + b), Register(ONES, a + [y] + b), ONES);
      RegisterInjective(TableStep(c, x), TableStep(c, y), b);
      TableStepIsEight(c, x);
      TableStepIsEight(c, y);
      StepsInjective(Xor(c, Wide(x)), Xor(c, Wide(y)), 8);
      WideInjective(x, y, c);
    }
  }
}
