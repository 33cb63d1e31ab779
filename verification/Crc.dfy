/** The checksum the screen tests compare pictures by: CRC-32C, whose polynomial is that
    of section 12.1 of RFC 3720, in reversed bit order. */
module Crc {
  const POLY: bv32 := 0x82f63b78

  predicate Odd(x: bv32) {
    x & 1 != 0
  }

  function Half(x: bv32): bv32 {
    x >> 1
  }

  function Xor(a: bv32, b: bv32): bv32 {
    a ^ b
  }

  /** One bit out of the register. */
  function BitStep(crc: bv32): bv32 {
    if Odd(crc) then Xor(Half(crc), POLY) else Half(crc)
  }

  function BitSteps(crc: bv32, n: nat): bv32 {
    if n == 0 then crc else BitStep(BitSteps(crc, n - 1))
  }

  function AsWord(b: bv8): bv32 {
    b as bv32
  }

  function Not(a: bv32): bv32 {
    !a
  }

  /** One byte into the register. */
  function ByteStep(crc: bv32, b: bv8): bv32 {
    BitSteps(Xor(crc, AsWord(b)), 8)
  }

  function Fold(crc: bv32, buf: seq<bv8>): bv32
    decreases |buf|
  {
    if buf == [] then crc else Fold(ByteStep(crc, buf[0]), buf[1..])
  }

  function Checksum(crc: bv32, buf: seq<bv8>): bv32 {
    Not(Fold(Not(crc), buf))
  }

  method Crc32c(start: bv32, buf: seq<bv8>) returns (result: bv32)
    ensures result == Checksum(start, buf)
  {
    hide Not, Xor, AsWord, BitStep;
    var crc := Not(start);
    var i := 0;
    while i < |buf|
      invariant i <= |buf|
      invariant Fold(crc, buf[i..]) == Fold(Not(start), buf)
    {
      crc := Xor(crc, AsWord(buf[i]));
      ghost var fed := crc;
      for k := 0 to 8
        invariant crc == BitSteps(fed, k)
      {
        crc := BitStep(crc);
      }
      assert buf[i..][1..] == buf[i + 1..];
      i := i + 1;
    }
    result := Not(crc);
  }

  /** The term x^e of a polynomial, in reversed bit order. */
  function Term(e: bv32): bv32
    requires e < 32
  {
    1 << (31 - e)
  }

  /** The polynomial of section 12.1 of RFC 3720 below its leading term x^32. */
  lemma Polynomial()
    ensures POLY == Term(28) | Term(27) | Term(26) | Term(25) | Term(23) | Term(22) | Term(20) | Term(19) | Term(18)
                  | Term(14) | Term(13) | Term(11) | Term(10) | Term(9) | Term(8) | Term(6) | Term(0)
  {}

  lemma EightSteps(c: bv32)
    ensures BitSteps(c, 8) == BitStep(BitStep(BitStep(BitStep(BitStep(BitStep(BitStep(BitStep(c))))))))
  {
    hide BitStep;
    assert BitSteps(c, 1) == BitStep(BitSteps(c, 0));
    assert BitSteps(c, 3) == BitStep(BitSteps(c, 2)) && BitSteps(c, 2) == BitStep(BitSteps(c, 1));
    assert BitSteps(c, 5) == BitStep(BitSteps(c, 4)) && BitSteps(c, 4) == BitStep(BitSteps(c, 3));
    assert BitSteps(c, 7) == BitStep(BitSteps(c, 6)) && BitSteps(c, 6) == BitStep(BitSteps(c, 5));
  }

  lemma OneByte(c: bv32, b: bv8, x: bv32)
    requires x == Xor(c, AsWord(b))
    ensures ByteStep(c, b) == BitStep(BitStep(BitStep(BitStep(BitStep(BitStep(BitStep(BitStep(x))))))))
  {
    hide Xor, AsWord, BitStep, BitSteps;
    EightSteps(x);
  }

  /** The register behind each of the nine digits. */
  lemma DigitSteps()
    ensures ByteStep(0xFFFFFFFF, 0x31) == 0x6F0A661C
    ensures ByteStep(0x6F0A661C, 0x32) == 0x8CAA3B9F
    ensures ByteStep(0x8CAA3B9F, 0x33) == 0xEF84D04D
    ensures ByteStep(0xEF84D04D, 0x34) == 0x09C50B11
    ensures ByteStep(0x09C50B11, 0x35) == 0xE72EDCCA
    ensures ByteStep(0xE72EDCCA, 0x36) == 0xBECA8E79
    ensures ByteStep(0xBECA8E79, 0x37) == 0xEDBD6815
    ensures ByteStep(0xEDBD6815, 0x38) == 0x9F787F65
    ensures ByteStep(0x9F787F65, 0x39) == 0x1CF96D7C
  {
    OneByte(0xFFFFFFFF, 0x31, 0xFFFFFFCE);
    OneByte(0x6F0A661C, 0x32, 0x6F0A662E);
    OneByte(0x8CAA3B9F, 0x33, 0x8CAA3BAC);
    OneByte(0xEF84D04D, 0x34, 0xEF84D079);
    OneByte(0x09C50B11, 0x35, 0x09C50B24);
    OneByte(0xE72EDCCA, 0x36, 0xE72EDCFC);
    OneByte(0xBECA8E79, 0x37, 0xBECA8E4E);
    OneByte(0xEDBD6815, 0x38, 0xEDBD682D);
    OneByte(0x9F787F65, 0x39, 0x9F787F5C);
  }

  lemma FoldNext(c: bv32, d: seq<bv8>, i: nat, x: bv32)
    requires i < |d| && ByteStep(c, d[i]) == x
    ensures Fold(c, d[i..]) == Fold(x, d[i + 1..])
  {
    hide ByteStep;
    assert d[i..][1..] == d[i + 1..];
  }

  /** The checksum of the nine digits "123456789". */
  lemma CheckValue()
    ensures Checksum(0, [0x31, 0x32, 0x33, 0x34, 0x35, 0x36, 0x37, 0x38, 0x39]) == 0xE3069283
  {
    hide ByteStep, Fold;
    var d: seq<bv8> := [0x31, 0x32, 0x33, 0x34, 0x35, 0x36, 0x37, 0x38, 0x39];
    DigitSteps();
    assert d == d[0..];
    FoldNext(0xFFFFFFFF, d, 0, 0x6F0A661C);
    FoldNext(0x6F0A661C, d, 1, 0x8CAA3B9F);
    FoldNext(0x8CAA3B9F, d, 2, 0xEF84D04D);
    FoldNext(0xEF84D04D, d, 3, 0x09C50B11);
    FoldNext(0x09C50B11, d, 4, 0xE72EDCCA);
    FoldNext(0xE72EDCCA, d, 5, 0xBECA8E79);
    FoldNext(0xBECA8E79, d, 6, 0xEDBD6815);
    FoldNext(0xEDBD6815, d, 7, 0x9F787F65);
    FoldNext(0x9F787F65, d, 8, 0x1CF96D7C);
    FoldNothing(0x1CF96D7C);
    assert d[9..] == [];
  }

  lemma FoldNothing(c: bv32)
    ensures Fold(c, []) == c
  {}

  // ---- chaining ----------------------------------------------------------------

  lemma {:induction false} FoldConcat(crc: bv32, a: seq<bv8>, b: seq<bv8>)
    ensures Fold(crc, a + b) == Fold(Fold(crc, a), b)
    decreases |a|
  {
    if a == [] {
      assert a + b == b;
    } else {
      FoldConcat(ByteStep(crc, a[0]), a[1..], b);
      assert (a + b)[1..] == a[1..] + b;
    }
  }

  lemma NotTwice(a: bv32)
    ensures Not(Not(a)) == a
  {}

  /** A checksum may be computed piece by piece. */
  lemma Chaining(crc: bv32, a: seq<bv8>, b: seq<bv8>)
    ensures Checksum(Checksum(crc, a), b) == Checksum(crc, a + b)
  {
    hide Not;
    NotTwice(Fold(Not(crc), a));
    FoldConcat(Not(crc), a, b);
  }

  // ---- no information is lost --------------------------------------------------

  /** The polynomial's top bit tells which branch was taken, so a bit step can be undone. */
  function Undo(crc: bv32): bv32 {
    if crc & 0x80000000 != 0 then ((crc ^ POLY) << 1) | 1 else crc << 1
  }

  lemma UndoesBitStep(crc: bv32)
    ensures Undo(BitStep(crc)) == crc
  {}

  lemma {:induction false} BitStepsInjective(x: bv32, y: bv32, n: nat)
    requires BitSteps(x, n) == BitSteps(y, n)
    ensures x == y
  {
    hide BitStep, Undo;
    if n > 0 {
      UndoesBitStep(BitSteps(x, n - 1));
      UndoesBitStep(BitSteps(y, n - 1));
      BitStepsInjective(x, y, n - 1);
    }
  }

  lemma XorInjective(x: bv32, y: bv32, z: bv32)
    requires Xor(x, z) == Xor(y, z)
    ensures x == y
  {}

  lemma {:induction false} FoldInjective(x: bv32, y: bv32, buf: seq<bv8>)
    requires Fold(x, buf) == Fold(y, buf)
    ensures x == y
    decreases |buf|
  {
    hide Xor, AsWord, BitSteps;
    if buf != [] {
      FoldInjective(ByteStep(x, buf[0]), ByteStep(y, buf[0]), buf[1..]);
      BitStepsInjective(Xor(x, AsWord(buf[0])), Xor(y, AsWord(buf[0])), 8);
      XorInjective(x, y, AsWord(buf[0]));
    }
  }

  // ---- a word at a time --------------------------------------------------------

  lemma HalfXor(x: bv32, y: bv32)
    ensures Half(Xor(x, y)) == Xor(Half(x), Half(y))
  {}

  lemma OddXor(x: bv32, y: bv32)
    ensures Odd(Xor(x, y)) <==> Odd(x) != Odd(y)
  {}

  lemma XorTwice(x: bv32, y: bv32, p: bv32)
    ensures Xor(Xor(x, p), Xor(y, p)) == Xor(x, y)
    ensures Xor(Xor(x, p), y) == Xor(Xor(x, y), p) && Xor(x, Xor(y, p)) == Xor(Xor(x, y), p)
  {
    hide Xor;
    XorAssociative(x, p, Xor(y, p));
    XorBack(y, p);
    XorAssociative(x, p, y);
    XorCommutes(p, y);
    XorAssociative(x, y, p);
  }

  lemma XorBack(y: bv32, p: bv32)
    ensures Xor(p, Xor(y, p)) == y
  {}

  lemma XorCommutes(a: bv32, b: bv32)
    ensures Xor(a, b) == Xor(b, a)
  {}

  lemma BitStepLinear(x: bv32, y: bv32)
    ensures BitStep(Xor(x, y)) == Xor(BitStep(x), BitStep(y))
  {
    hide Odd, Half, Xor;
    HalfXor(x, y);
    OddXor(x, y);
    XorTwice(Half(x), Half(y), POLY);
  }

  lemma {:induction false} BitStepsLinear(x: bv32, y: bv32, n: nat)
    ensures BitSteps(Xor(x, y), n) == Xor(BitSteps(x, n), BitSteps(y, n))
  {
    hide BitStep, Xor;
    if n > 0 {
      BitStepsLinear(x, y, n - 1);
      BitStepLinear(BitSteps(x, n - 1), BitSteps(y, n - 1));
    }
  }

  lemma {:induction false} BitStepsPlus(x: bv32, m: nat, n: nat)
    ensures BitSteps(BitSteps(x, m), n) == BitSteps(x, m + n)
  {
    hide BitStep;
    if n > 0 {
      BitStepsPlus(x, m, n - 1);
    }
  }

  function Up8(w: bv32): bv32 {
    w << 8
  }

  function Twice(x: bv32): bv32 {
    x << 1
  }

  lemma StepOfTwice(x: bv32)
    requires x <= 0x7FFFFFFF
    ensures BitStep(Twice(x)) == x
  {}

  lemma Doubles(w: bv32)
    requires w <= 0xFFFFFF
    ensures Up8(w) == Twice(w << 7) && w << 7 == Twice(w << 6) && w << 6 == Twice(w << 5) && w << 5 == Twice(w << 4)
    ensures w << 4 == Twice(w << 3) && w << 3 == Twice(w << 2) && w << 2 == Twice(w << 1) && w << 1 == Twice(w)
  {}

  lemma Bounds(w: bv32)
    requires w <= 0xFFFFFF
    ensures w << 7 <= 0x7FFFFFFF && w << 6 <= 0x7FFFFFFF && w << 5 <= 0x7FFFFFFF && w << 4 <= 0x7FFFFFFF
    ensures w << 3 <= 0x7FFFFFFF && w << 2 <= 0x7FFFFFFF && w << 1 <= 0x7FFFFFFF
  {}

  /** Eight steps on a word whose low byte is clear only shift it. */
  lemma EightBits(w: bv32)
    requires w <= 0xFFFFFF
    ensures BitSteps(Up8(w), 8) == w
  {
    Doubles(w);
    Bounds(w);
    hide BitStep, Up8, Twice;
    var x := Up8(w);
    assert BitSteps(x, 1) == BitStep(BitSteps(x, 0));
    StepOfTwice(w << 7);
    assert BitSteps(x, 2) == BitStep(BitSteps(x, 1));
    StepOfTwice(w << 6);
    assert BitSteps(x, 3) == BitStep(BitSteps(x, 2));
    StepOfTwice(w << 5);
    assert BitSteps(x, 4) == BitStep(BitSteps(x, 3));
    StepOfTwice(w << 4);
    assert BitSteps(x, 5) == BitStep(BitSteps(x, 4));
    StepOfTwice(w << 3);
    assert BitSteps(x, 6) == BitStep(BitSteps(x, 5));
    StepOfTwice(w << 2);
    assert BitSteps(x, 7) == BitStep(BitSteps(x, 6));
    StepOfTwice(w << 1);
    StepOfTwice(w);
  }

  /** At most four bytes as one word, the first lowest. */
  function Joined(d: seq<bv8>): bv32 {
    if d == [] then 0 else Xor(AsWord(d[0]), Up8(Joined(d[1..])))
  }

  predicate Below24(w: bv32) {
    w <= 0xFFFFFF
  }

  predicate FitsIn(w: bv32, bytes: nat) {
    if bytes == 0 then w == 0 else if bytes == 1 then w <= 0xFF
    else if bytes == 2 then w <= 0xFFFF else if bytes == 3 then w <= 0xFFFFFF else true
  }

  lemma BelowNext(w: bv32, b: bv8, bytes: nat)
    requires FitsIn(w, bytes) && bytes < 4
    ensures FitsIn(Xor(AsWord(b), Up8(w)), bytes + 1) && Below24(w)
  {}

  lemma {:induction false} WordBelow(d: seq<bv8>)
    requires |d| <= 4
    ensures FitsIn(Joined(d), |d|)
  {
    hide Xor, Up8, AsWord;
    if d != [] {
      WordBelow(d[1..]);
      BelowNext(Joined(d[1..]), d[0], |d| - 1);
    }
  }

  lemma XorZero(c: bv32)
    ensures Xor(c, 0) == c
  {}

  lemma XorAssociative(a: bv32, b: bv32, c: bv32)
    ensures Xor(Xor(a, b), c) == Xor(a, Xor(b, c))
  {}

  /** Up to four bytes fed one by one are the word fed at once. */
  lemma {:induction false} Wordwise(crc: bv32, d: seq<bv8>)
    requires |d| <= 4
    ensures Fold(crc, d) == BitSteps(Xor(crc, Joined(d)), 8 * |d|)
    decreases |d|
  {
    hide Xor, Up8, AsWord, BitStep, BitSteps;
    if d == [] {
      XorZero(crc);
      NoSteps(crc);
    } else {
      var rest := Joined(d[1..]);
      Wordwise(ByteStep(crc, d[0]), d[1..]);
      WordBelow(d[1..]);
      BelowNext(rest, d[0], |d| - 1);
      SmallWord(rest);
      BitStepsLinear(Xor(crc, AsWord(d[0])), Up8(rest), 8);
      XorAssociative(crc, AsWord(d[0]), Up8(rest));
      BitStepsPlus(Xor(crc, Joined(d)), 8, 8 * (|d| - 1));
    }
  }

  lemma NoSteps(crc: bv32)
    ensures BitSteps(crc, 0) == crc
  {}

  lemma SmallWord(w: bv32)
    requires Below24(w)
    ensures BitSteps(Up8(w), 8) == w
  {
    EightBits(w);
  }

  lemma SplitWord(b: bv8, w: bv32, c: bv8, x: bv32)
    requires Below24(w) && Below24(x) && Xor(AsWord(b), Up8(w)) == Xor(AsWord(c), Up8(x))
    ensures b == c && w == x
  {}

  lemma {:induction false} WordInjective(d: seq<bv8>, e: seq<bv8>)
    requires |d| == |e| <= 4 && Joined(d) == Joined(e)
    ensures d == e
  {
    hide Xor, Up8, AsWord;
    if d != [] {
      WordBelow(d[1..]);
      WordBelow(e[1..]);
      BelowNext(Joined(d[1..]), d[0], |d| - 1);
      BelowNext(Joined(e[1..]), e[0], |d| - 1);
      SplitWord(d[0], Joined(d[1..]), e[0], Joined(e[1..]));
      WordInjective(d[1..], e[1..]);
      assert d == [d[0]] + d[1..] && e == [e[0]] + e[1..];
    }
  }

  /** Buffers that differ, and only inside four consecutive bytes, have different
      checksums, whatever surrounds the difference. */
  lemma BurstDetected(crc: bv32, prefix: seq<bv8>, d: seq<bv8>, e: seq<bv8>, suffix: seq<bv8>)
    requires |d| == |e| <= 4 && d != e
    ensures Checksum(crc, prefix + d + suffix) != Checksum(crc, prefix + e + suffix)
  {
    hide Not, Xor, Fold, BitSteps;
    var c := Fold(Not(crc), prefix);
    FoldConcat(Not(crc), prefix + d, suffix);
    FoldConcat(Not(crc), prefix + e, suffix);
    FoldConcat(Not(crc), prefix, d);
    FoldConcat(Not(crc), prefix, e);
    if Checksum(crc, prefix + d + suffix) == Checksum(crc, prefix + e + suffix) {
      NotTwice(Fold(Not(crc), prefix + d + suffix));
      NotTwice(Fold(Not(crc), prefix + e + suffix));
      FoldInjective(Fold(c, d), Fold(c, e), suffix);
      Wordwise(c, d);
      Wordwise(c, e);
      BitStepsInjective(Xor(c, Joined(d)), Xor(c, Joined(e)), 8 * |d|);
      XorCancels(c, Joined(d), Joined(e));
      WordInjective(d, e);
    }
  }

  lemma XorCancels(c: bv32, x: bv32, y: bv32)
    requires Xor(c, x) == Xor(c, y)
    ensures x == y
  {}
}
