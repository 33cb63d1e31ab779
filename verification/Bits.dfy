/** Bits of the fixed-width words the emulator shifts around, and the few facts
    that connect a shifted word with the integers a specification speaks of.
    Every lemma is about one conversion only, so that no proof elsewhere has to
    mix bit vectors and integers. */
module Bits {

  /** The number a byte stands for. */
  function Value(b: bv8): (n: nat)
    ensures n < 256
  {
    b as nat
  }

  /** The number a word stands for. */
  function WordValue(w: bv16): (n: nat)
    ensures n < 0x10000
  {
    w as nat
  }

  /** A number as a shift count. */
  function ShiftCount(n: nat): (k: bv8)
    requires n < 8
    ensures k < 8
  {
    n as bv8
  }

  /** The bit of `b` that a right shift by `k` moves to the bottom. */
  function BottomAfter(b: bv8, k: bv8): (r: bv8)
    requires k < 8
    ensures r < 2
  {
    (b >> k) & 1
  }

  /** Bit `n` of a byte. */
  function BitOf(b: bv8, n: nat): (r: bv8)
    requires n < 8
    ensures r < 2
  {
    BottomAfter(b, ShiftCount(n))
  }

  /** Bit `n` of a byte, as a number. */
  function Bit(b: bv8, n: nat): (r: nat)
    requires n < 8
    ensures r < 2
  {
    Value(BitOf(b, n))
  }

  /** One clock of a pattern shifter. */
  function Push(w: bv16): bv16 {
    w << 1
  }

  /** One clock of an attribute shifter. */
  function PushBit(b: bv8, fill: bv8): bv8 {
    (b << 1) | fill
  }

  /** `w` after `n` single-bit left shifts with zero fill. */
  function Shl(w: bv16, n: nat): bv16 {
    if n == 0 then w else Push(Shl(w, n - 1))
  }

  function ShlBy(w: bv16, k: bv8): bv16
    requires k < 8
  {
    w << k
  }

  /** `b` after `n` single-bit left shifts that bring in `fill` from the right. */
  function ShlFill(b: bv8, fill: bv8, n: nat): bv8 {
    if n == 0 then b else PushBit(ShlFill(b, fill, n - 1), fill)
  }

  /** Eight copies of a one-bit value. */
  function Spread(bit: bv8): bv8 {
    if bit == 0 then 0 else 0xFF
  }

  /** Two bytes as one word. */
  function Word(hi: bv8, lo: bv8): bv16 {
    ((hi as bv16) << 8) | (lo as bv16)
  }

  /** `w` with its low byte replaced. */
  function WithLow(w: bv16, lo: bv8): bv16 {
    (w & 0xFF00) | (lo as bv16)
  }

  /** The bit a 16-bit shifter shows at fine X offset `x`. */
  function Tap16(w: bv16, x: bv8): (r: bv8)
    requires x < 8
    ensures r < 2
  {
    if (w >> (15 - x)) & 1 == 0 then 0 else 1
  }

  /** The bit an 8-bit shifter shows at fine X offset `x`. */
  function Tap8(b: bv8, x: bv8): (r: bv8)
    requires x < 8
    ensures r < 2
  {
    (b >> (7 - x)) & 1
  }

  /** A two-bit value from its bits. */
  function Pair(h: bv8, l: bv8): bv8 {
    (h << 1) | l
  }

  // ---- conversions -------------------------------------------------------

  lemma ByteRoundTrip(b: bv8)
    ensures Value(b) as bv8 == b
  {}

  lemma NumberRoundTrip(n: nat)
    requires n < 256
    ensures Value(n as bv8) == n
  {}

  /** Bit n counts 2^n. */
  lemma BitMeaning(b: bv8)
    ensures Value(b) == Bit(b, 0) + 2 * Bit(b, 1) + 4 * Bit(b, 2) + 8 * Bit(b, 3)
                      + 16 * Bit(b, 4) + 32 * Bit(b, 5) + 64 * Bit(b, 6) + 128 * Bit(b, 7)
  {
    Counts();
    hide Value, ShiftCount, Bit, BitOf;
    SumOfBits(b);
    BitParts(b);
  }

  lemma Counts()
    ensures ShiftCount(0) == 0 && ShiftCount(1) == 1 && ShiftCount(2) == 2 && ShiftCount(3) == 3
    ensures ShiftCount(4) == 4 && ShiftCount(5) == 5 && ShiftCount(6) == 6 && ShiftCount(7) == 7
  {}

  lemma BitParts(b: bv8)
    ensures forall n :: 0 <= n < 8 ==> Bit(b, n) == Value(BottomAfter(b, ShiftCount(n)))
  {
    hide Value, ShiftCount, BottomAfter;
  }

  /** What is left of a byte behind its k low bits. */
  function Rest(b: bv8, k: bv8): bv8
    requires k < 8
  {
    b >> k
  }

  lemma Halves(b: bv8, k: bv8)
    requires k < 7
    ensures Value(Rest(b, k)) == 2 * Value(Rest(b, k + 1)) + Value(BottomAfter(b, k))
  {
    hide Value;
    HalfOf(Rest(b, k));
    RestNext(b, k);
  }

  lemma RestNext(b: bv8, k: bv8)
    requires k < 7
    ensures Rest(b, k + 1) == Rest(b, k) >> 1 && BottomAfter(b, k) == Rest(b, k) & 1
  {}

  lemma HalfOf(b: bv8)
    ensures Value(b) == 2 * Value(b >> 1) + Value(b & 1)
  {}

  lemma Ends(b: bv8)
    ensures Rest(b, 0) == b && Rest(b, 7) == BottomAfter(b, 7)
  {}

  lemma SumOfBits(b: bv8)
    ensures Value(b) == Value(BottomAfter(b, 0)) + 2 * Value(BottomAfter(b, 1)) + 4 * Value(BottomAfter(b, 2))
      + 8 * Value(BottomAfter(b, 3)) + 16 * Value(BottomAfter(b, 4)) + 32 * Value(BottomAfter(b, 5))
      + 64 * Value(BottomAfter(b, 6)) + 128 * Value(BottomAfter(b, 7))
  {
    hide Value, BottomAfter, Rest;
    Halves(b, 0);
    Halves(b, 1);
    Halves(b, 2);
    Halves(b, 3);
    Halves(b, 4);
    Halves(b, 5);
    Halves(b, 6);
    Ends(b);
  }

  lemma OneBit(b: bv8)
    requires b < 2
    ensures (Value(b) == 1 <==> b == 1) && (Value(b) == 0 <==> b == 0)
  {}

  lemma BitIsOne(b: bv8, n: nat)
    requires n < 8
    ensures Bit(b, n) == 1 <==> BottomAfter(b, ShiftCount(n)) == 1
  {
    hide Value, BottomAfter, ShiftCount;
    OneBit(BitOf(b, n));
  }

  /** The bit index x+i counted on the number side and on the byte side. */
  lemma BitIndex(x: bv8, i: nat)
    requires x < 8 && i < 8
    ensures x + ShiftCount(i) < 8 <==> Value(x) + i < 8
    ensures Value(x) + i < 8 ==> ShiftCount(7 - Value(x) - i) == 7 - x - ShiftCount(i)
    ensures Value(x) + i >= 8 ==> Value(x) + i < 15 && ShiftCount(15 - Value(x) - i) == 15 - x - ShiftCount(i)
  {
    var k := ShiftCount(i);
    NumberRoundTrip(i);
    assert Value(x + k) == Value(x) + Value(k);
    if x + k < 8 {
      assert Value(7 - x - k) == 7 - Value(x) - i;
      ByteRoundTrip(7 - x - k);
    } else {
      assert Value(15 - x - k) == 15 - Value(x) - i;
      ByteRoundTrip(15 - x - k);
    }
  }

  lemma PairValue(h: bv8, l: bv8)
    requires h < 2 && l < 2
    ensures Pair(h, l) < 4 && Value(Pair(h, l)) == 2 * Value(h) + Value(l)
  {}

  lemma ZeroValue(b: bv8)
    ensures b == 0 <==> Value(b) == 0
  {}

  lemma SmallField(w: bv16)
    ensures w < 2 ==> WordValue(w) < 2
    ensures w < 8 ==> WordValue(w) < 8
    ensures w < 32 ==> WordValue(w) < 32
  {}

  function WithoutTwo(w: bv16): bv16 {
    w >> 2
  }

  function LowTwo(w: bv16): bv16 {
    w & 3
  }

  /** Dropping the two low bits of a 5-bit field divides it by four. */
  lemma Quarter(w: bv16)
    requires w < 32
    ensures WordValue(WithoutTwo(w)) == WordValue(w) / 4
  {
    hide WordValue, WithoutTwo, LowTwo;
    QuarterSplit(w);
    DivMod4(WordValue(w), WordValue(WithoutTwo(w)), WordValue(LowTwo(w)));
  }

  lemma QuarterSplit(w: bv16)
    requires w < 32
    ensures WordValue(w) == 4 * WordValue(WithoutTwo(w)) + WordValue(LowTwo(w)) && WordValue(LowTwo(w)) < 4
  {}

  lemma DivMod4(n: nat, q: nat, r: nat)
    requires n == 4 * q + r && r < 4
    ensures n / 4 == q && n % 4 == r
  {}

  // ---- shifters ----------------------------------------------------------

  lemma PushShifted(w: bv16, k: bv8)
    requires k < 7
    ensures Push(ShlBy(w, k)) == ShlBy(w, k + 1)
  {}

  lemma NextCount(n: nat)
    requires n < 7
    ensures ShiftCount(n) < 7 && ShiftCount(n + 1) == ShiftCount(n) + 1
  {}

  lemma {:induction false} ShlIsShift(w: bv16, n: nat)
    requires n < 8
    ensures Shl(w, n) == ShlBy(w, ShiftCount(n))
  {
    hide ShiftCount, Push, ShlBy;
    if n == 0 {
      NoShiftBy(w);
    } else {
      ShlIsShift(w, n - 1);
      NextCount(n - 1);
      PushShifted(w, ShiftCount(n - 1));
    }
  }

  lemma NoShiftBy(w: bv16)
    ensures ShlBy(w, ShiftCount(0)) == w
  {}

  /** The tapped bit before it is narrowed to a byte. */
  function Peek(w: bv16, k: bv8, x: bv8): bv16
    requires x < 8 && k < 8
  {
    ((w << k) >> (15 - x)) & 1
  }

  function Widen(b: bv8): bv16 {
    b as bv16
  }

  lemma TapOfConcat(hi: bv8, lo: bv8, x: bv8, i: bv8)
    requires x < 8 && i < 8
    ensures ((((((hi as bv16) << 8) | (lo as bv16)) << i) >> (15 - x)) & 1)
         == if x + i < 8 then ((hi >> (7 - x - i)) & 1) as bv16 else ((lo >> (15 - x - i)) & 1) as bv16
  {}

  lemma PeekOfWord(hi: bv8, lo: bv8, x: bv8, k: bv8)
    requires x < 8 && k < 8
    ensures Peek(Word(hi, lo), k, x)
         == if x + k < 8 then Widen(BottomAfter(hi, 7 - x - k)) else Widen(BottomAfter(lo, 15 - x - k))
  {
    TapOfConcat(hi, lo, x, k);
  }

  lemma TapIsPeek(w: bv16, k: bv8, x: bv8)
    requires x < 8 && k < 8
    ensures Tap16(ShlBy(w, k), x) == if Peek(w, k, x) == 0 then 0 else 1
  {}

  lemma WidenBit(b: bv8)
    requires b < 2
    ensures (if Widen(b) == 0 then 0 else 1) == b
  {}

  lemma TapOfShifted(w: bv16, hi: bv8, lo: bv8, x: bv8, k: bv8)
    requires x < 8 && k < 8
    requires w == Word(hi, lo)
    ensures x + k < 8 ==> Tap16(ShlBy(w, k), x) == BottomAfter(hi, 7 - x - k)
    ensures x + k >= 8 ==> Tap16(ShlBy(w, k), x) == BottomAfter(lo, 15 - x - k)
  {
    hide Word, Tap16, ShlBy, Peek, Widen, BottomAfter;
    PeekOfWord(hi, lo, x, k);
    TapIsPeek(w, k, x);
    if x + k < 8 {
      WidenBit(BottomAfter(hi, 7 - x - k));
    } else {
      WidenBit(BottomAfter(lo, 15 - x - k));
    }
  }

  /** After `i` shifts, the word (hi, lo) shows bit 7-(x+i) of `hi`, or of `lo`
      once x+i has run past the first byte. */
  lemma TapOfWord(w: bv16, hi: bv8, lo: bv8, x: bv8, i: nat)
    requires x < 8 && i < 8
    requires w == Word(hi, lo)
    ensures Value(x) + i < 15
    ensures Tap16(Shl(w, i), x)
         == if Value(x) + i < 8 then BitOf(hi, 7 - Value(x) - i) else BitOf(lo, 15 - Value(x) - i)
  {
    hide Word, Tap16, BottomAfter, ShiftCount, Value, ShlBy;
    ShlIsShift(w, i);
    BitIndex(x, i);
    TapOfShifted(w, hi, lo, x, ShiftCount(i));
  }

  lemma {:induction false} ShlFillOfSpread(bit: bv8, fill: bv8, n: nat)
    requires bit < 2 && fill < 2 && n < 8
    ensures ShlFill(Spread(bit), fill, n) == HalfFilled(bit, fill, ShiftCount(n))
  {
    if n > 0 {
      ShlFillOfSpread(bit, fill, n - 1);
      if n == 1 {} else if n == 2 {} else if n == 3 {} else if n == 4 {}
      else if n == 5 {} else if n == 6 {} else { assert n == 7; }
    }
  }

  /** 8-k copies of `bit` followed by k copies of `fill`. */
  function HalfFilled(bit: bv8, fill: bv8, k: bv8): bv8
    requires k < 8
  {
    (Spread(bit) << k) | (Spread(fill) >> (8 - k))
  }

  lemma TapOfHalfFilled(bit: bv8, fill: bv8, x: bv8, k: bv8)
    requires bit < 2 && fill < 2 && x < 8 && k < 8
    ensures Tap8(HalfFilled(bit, fill, k), x) == if x + k < 8 then bit else fill
  {}

  /** An attribute shifter holding eight copies of `bit` shows `bit` until x+n
      reaches the next tile, whose `fill` bit it shows from then on. */
  lemma TapOfSpread(bit: bv8, fill: bv8, x: bv8, n: nat)
    requires bit < 2 && fill < 2 && x < 8 && n < 8
    ensures Tap8(ShlFill(Spread(bit), fill, n), x) == if Value(x) + n < 8 then bit else fill
  {
    hide ShiftCount, HalfFilled, Tap8, Spread, Value;
    ShlFillOfSpread(bit, fill, n);
    BitIndex(x, n);
    TapOfHalfFilled(bit, fill, x, ShiftCount(n));
  }

  lemma NoShift(lo: bv16, hi: bv16, atLo: bv8, atHi: bv8, fillLo: bv8, fillHi: bv8)
    ensures Shl(lo, 0) == lo && Shl(hi, 0) == hi
    ensures ShlFill(atLo, fillLo, 0) == atLo && ShlFill(atHi, fillHi, 0) == atHi
  {}

  /** Eight shifts move the low byte of a pattern shifter up. */
  lemma EightShifts(w: bv16, hi: bv8, lo: bv8)
    requires w == Word(hi, lo)
    ensures Shl(w, 8) == Word(lo, 0)
  {
    ShlIsShift(w, 7);
  }

  /** Eight shifts replace an attribute shifter whatever it held. */
  lemma EightFills(b: bv8, fill: bv8)
    requires fill < 2
    ensures ShlFill(b, fill, 8) == Spread(fill)
  {
    assert ShlFill(b, fill, 2) & 3 == Spread(fill) & 3;
    assert ShlFill(b, fill, 3) & 7 == Spread(fill) & 7;
    assert ShlFill(b, fill, 4) & 15 == Spread(fill) & 15;
    assert ShlFill(b, fill, 5) & 31 == Spread(fill) & 31;
    assert ShlFill(b, fill, 6) & 63 == Spread(fill) & 63;
    assert ShlFill(b, fill, 7) & 127 == Spread(fill) & 127;
  }

  /** Loading a low byte, as the tile reload does. */
  lemma LoadLow(w: bv16, hi: bv8, oldLo: bv8, lo: bv8)
    requires w == Word(hi, oldLo)
    ensures WithLow(w, lo) == Word(hi, lo)
  {}

  /** A byte-wide shift by eight moves a freshly loaded low byte up. */
  lemma MoveUp(w: bv16, lo: bv8)
    ensures WithLow(w, lo) << 8 == Word(lo, 0)
  {}
}
