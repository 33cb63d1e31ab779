/** Arithmetic on numbers of any length, one byte at a time: what a program gets from
    CLC and then LDA, ADC, STA for every byte, or SEC and LDA, SBC, STA, in binary and
    in decimal mode. */
module Chains {
  import opened Arith
  import opened Bits
  import opened Cpu
  import opened Processor

  // ---- numbers of many bytes ---------------------------------------------------

  /** A digit at a place. */
  function Weighted(place: nat, digit: int): (n: int)
    ensures digit >= 0 ==> n >= 0
  {
    place * digit
  }

  lemma WeightedSum(place: nat, a: int, v: int, c: int)
    ensures Weighted(place, a + v + c) == Weighted(place, a) + Weighted(place, v) + Weighted(place, c)
    ensures Weighted(place, a - v - c) == Weighted(place, a) - Weighted(place, v) - Weighted(place, c)
    ensures Weighted(place, 0) == 0 && Weighted(place, 1) == place
  {}

  /** A carry out of a digit is one unit of the next place. */
  lemma WeightedCarry(base: nat, place: nat, digit: int, carry: bool)
    ensures Weighted(place, digit + if carry then base else 0)
         == Weighted(place, digit) + if carry then base * place else 0
    ensures Weighted(place, digit - if carry then base else 0)
         == Weighted(place, digit) - if carry then base * place else 0
  {
    assert place * base == base * place;
  }

  /** Little-endian. */
  function Number256(s: seq<bv8>): nat {
    if s == [] then 0 else Number256(s[..|s| - 1]) + Weighted(Pow(256, |s| - 1), Value(s[|s| - 1]))
  }

  /** The same bytes in two's complement. */
  function Signed256(s: seq<bv8>): int {
    if s == [] then 0 else Number256(s[..|s| - 1]) + Weighted(Pow(256, |s| - 1), Signed(s[|s| - 1]))
  }

  /** Two decimal digits a byte. */
  function Number100(s: seq<bv8>): nat {
    if s == [] then 0 else Number100(s[..|s| - 1]) + Weighted(Pow(100, |s| - 1), Digits(s[|s| - 1]))
  }

  lemma {:induction false} Bound256(s: seq<bv8>)
    ensures Number256(s) < Pow(256, |s|)
  {
    if s != [] {
      Bound256(s[..|s| - 1]);
      MulMonotone(Pow(256, |s| - 1), Value(s[|s| - 1]), 256);
    }
  }

  predicate AllBcd(s: seq<bv8>) {
    forall i :: 0 <= i < |s| ==> Bcd(s[i])
  }

  lemma {:induction false} Bound100(s: seq<bv8>)
    requires AllBcd(s)
    ensures Number100(s) < Pow(100, |s|)
  {
    if s != [] {
      Bound100(s[..|s| - 1]);
      MulMonotone(Pow(100, |s| - 1), Digits(s[|s| - 1]), 100);
    }
  }

  lemma Split(s: seq<bv8>, b: bv8)
    ensures Number256(s + [b]) == Number256(s) + Weighted(Pow(256, |s|), Value(b))
    ensures Signed256(s + [b]) == Number256(s) + Weighted(Pow(256, |s|), Signed(b))
    ensures Number100(s + [b]) == Number100(s) + Weighted(Pow(100, |s|), Digits(b))
  {
    assert (s + [b])[..|s|] == s;
  }

  /** The two's complement reading differs from the plain one by 256^n when the top bit
      is set. */
  lemma SignedIsNumber(s: seq<bv8>)
    requires s != []
    ensures Signed256(s) == Number256(s) - if Value(s[|s| - 1]) >= 128 then Pow(256, |s|) else 0
  {
    var p := Pow(256, |s| - 1);
    assert p * (Value(s[|s| - 1]) - 256) == p * Value(s[|s| - 1]) - p * 256;
  }

  /** The sign and the range of a number are those of its top digit. */
  lemma TopDigit(place: nat, low: nat, k: int)
    requires low < place
    ensures low + Weighted(place, k) < 0 <==> k < 0
    ensures -(128 * place) <= low + Weighted(place, k) < 128 * place <==> -128 <= k < 128
  {
    MulMonotone(place, k, 0);
    MulMonotone(place, -1, k);
    MulMonotone(place, k, -128);
    MulMonotone(place, -129, k);
    MulMonotone(place, k, 128);
    MulMonotone(place, 127, k);
    assert place * -129 == -129 * place && place * 127 == 127 * place;
  }

  lemma PowNext(base: nat, n: nat)
    requires base > 0
    ensures Pow(base, n + 1) == base * Pow(base, n)
  {}

  // ---- one byte more -----------------------------------------------------------

  /** r and the carry are the sum of p and q; the overflow bit says whether the signed
      sum fits in as many bytes. */
  predicate IsSum(p: seq<bv8>, q: seq<bv8>, r: seq<bv8>, carry: bool, overflow: bool) {
    && |p| == |q| == |r|
    && Number256(r) + (if carry then Pow(256, |r|) else 0) == Number256(p) + Number256(q)
    && (p != [] ==> (overflow <==> !InSignedRange(Signed256(p) + Signed256(q), |p|)))
  }

  predicate InSignedRange(n: int, bytes: nat)
    requires bytes > 0
  {
    -(128 * Pow(256, bytes - 1)) <= n < 128 * Pow(256, bytes - 1)
  }

  lemma SumStep(p: seq<bv8>, q: seq<bv8>, r: seq<bv8>, c: bool, o: bool, a: bv8, v: bv8)
    requires IsSum(p, q, r, c, o)
    ensures var s := AddBinary(a, v, c);
      IsSum(p + [a], q + [v], r + [s.result], s.carry, AddOverflows(a, v, s.result))
  {
    hide AddBinary, AddOverflows, Number256, Signed256, Pow, InSignedRange;
    UnsignedSumStep(p, q, r, c, a, v);
    SignedSumStep(p, q, r, c, a, v);
  }

  lemma UnsignedSumStep(p: seq<bv8>, q: seq<bv8>, r: seq<bv8>, c: bool, a: bv8, v: bv8)
    requires |p| == |q| == |r|
    requires Number256(r) + (if c then Pow(256, |r|) else 0) == Number256(p) + Number256(q)
    ensures var s := AddBinary(a, v, c);
      Number256(r + [s.result]) + (if s.carry then Pow(256, |r| + 1) else 0) == Number256(p + [a]) + Number256(q + [v])
  {
    hide Weighted, Value, AddBinary, AddOverflows, Number256, Signed256, Pow, Signed;
    var s := AddBinary(a, v, c);
    AddBinaryMeaning(a, v, c);
    Split(p, a);
    Split(q, v);
    Split(r, s.result);
    PowNext(256, |p|);
    SumCore(256, Pow(256, |p|), Number256(p), Number256(q), Number256(r), c, Value(a), Value(v),
      Value(s.result), s.carry);
  }

  lemma SignedSumStep(p: seq<bv8>, q: seq<bv8>, r: seq<bv8>, c: bool, a: bv8, v: bv8)
    requires |p| == |q| == |r|
    requires Number256(r) + (if c then Pow(256, |r|) else 0) == Number256(p) + Number256(q)
    ensures AddOverflows(a, v, AddBinary(a, v, c).result) <==>
      !InSignedRange(Signed256(p + [a]) + Signed256(q + [v]), |p| + 1)
  {
    hide Weighted, Value, AddBinary, AddOverflows, Number256, Signed256, Pow, Signed;
    var sum := Signed(a) + Signed(v) + Number(c);
    AddBinaryMeaning(a, v, c);
    Split(p, a);
    Split(q, v);
    Bound256(r);
    SumCore(256, Pow(256, |p|), Number256(p), Number256(q), Number256(r), c, Signed(a), Signed(v), sum, false);
    TopDigit(Pow(256, |p|), Number256(r), sum);
  }

  /** Adding one digit more to a sum. */
  lemma SumCore(base: nat, place: nat, p: int, q: int, r: int, c: bool, a: int, v: int, result: int, carry: bool)
    requires r + (if c then place else 0) == p + q
    requires result + (if carry then base else 0) == a + v + Number(c)
    ensures r + Weighted(place, result) + (if carry then base * place else 0)
         == (p + Weighted(place, a)) + (q + Weighted(place, v))
  {
    WeightedSum(place, a, v, Number(c));
    WeightedSum(place, 0, 0, 0);
    WeightedCarry(base, place, result, carry);
  }

  /** r is p - q, carry means that nothing was borrowed, and the negative and overflow
      bits differ exactly when p is less than q as signed numbers. */
  predicate IsDifference(p: seq<bv8>, q: seq<bv8>, r: seq<bv8>, carry: bool, negative: bool, overflow: bool) {
    && |p| == |q| == |r|
    && Number256(r) - (if carry then 0 else Pow(256, |r|)) == Number256(p) - Number256(q)
    && (carry <==> Number256(p) >= Number256(q))
    && (p != [] ==> (negative != overflow <==> Signed256(p) < Signed256(q)))
  }

  lemma DifferenceStep(p: seq<bv8>, q: seq<bv8>, r: seq<bv8>, c: bool, n: bool, o: bool, a: bv8, v: bv8)
    requires IsDifference(p, q, r, c, n, o)
    ensures var s := SubBinary(a, v, c);
      IsDifference(p + [a], q + [v], r + [s.result], s.carry, High(s.result), SubOverflows(a, v, s.result))
  {
    hide SubBinary, SubOverflows, High, Number256, Signed256, Pow;
    UnsignedDifferenceStep(p, q, r, c, a, v);
    SignedDifferenceStep(p, q, r, c, a, v);
  }

  lemma UnsignedDifferenceStep(p: seq<bv8>, q: seq<bv8>, r: seq<bv8>, c: bool, a: bv8, v: bv8)
    requires |p| == |q| == |r|
    requires Number256(r) - (if c then 0 else Pow(256, |r|)) == Number256(p) - Number256(q)
    ensures var s := SubBinary(a, v, c);
      var p', q', r' := p + [a], q + [v], r + [s.result];
      && Number256(r') - (if s.carry then 0 else Pow(256, |r'|)) == Number256(p') - Number256(q')
      && (s.carry <==> Number256(p') >= Number256(q'))
  {
    hide Weighted, Value, SubBinary, SubOverflows, High, Number256, Signed256, Pow, Signed;
    var s := SubBinary(a, v, c);
    SubBinaryMeaning(a, v, c);
    Split(p, a);
    Split(q, v);
    Split(r, s.result);
    Bound256(r + [s.result]);
    PowNext(256, |p|);
    DifferenceCore(256, Pow(256, |p|), Number256(p), Number256(q), Number256(r), c, Value(a), Value(v),
      Value(s.result), s.carry);
  }

  lemma SignedDifferenceStep(p: seq<bv8>, q: seq<bv8>, r: seq<bv8>, c: bool, a: bv8, v: bv8)
    requires |p| == |q| == |r|
    requires Number256(r) - (if c then 0 else Pow(256, |r|)) == Number256(p) - Number256(q)
    ensures var s := SubBinary(a, v, c);
      High(s.result) != SubOverflows(a, v, s.result) <==> Signed256(p + [a]) < Signed256(q + [v])
  {
    hide Weighted, Value, SubBinary, SubOverflows, High, Number256, Signed256, Pow, Signed;
    var difference := Signed(a) - Signed(v) - Number(!c);
    SubBinaryMeaning(a, v, c);
    Split(p, a);
    Split(q, v);
    Bound256(r);
    DifferenceCore(256, Pow(256, |p|), Number256(p), Number256(q), Number256(r), c, Signed(a), Signed(v),
      difference, true);
    TopDigit(Pow(256, |p|), Number256(r), difference);
  }

  /** Subtracting one digit more. */
  lemma DifferenceCore(base: nat, place: nat, p: int, q: int, r: int, c: bool, a: int, v: int, result: int, carry: bool)
    requires r - (if c then 0 else place) == p - q
    requires result - (if carry then 0 else base) == a - v - Number(!c)
    ensures r + Weighted(place, result) - (if carry then 0 else base * place)
         == (p + Weighted(place, a)) - (q + Weighted(place, v))
  {
    WeightedSum(place, a, v, Number(!c));
    WeightedSum(place, 0, 0, 0);
    WeightedCarry(base, place, result, !carry);
  }

  // ---- decimal -----------------------------------------------------------------

  predicate IsDecimalSum(p: seq<bv8>, q: seq<bv8>, r: seq<bv8>, carry: bool) {
    && |p| == |q| == |r| && AllBcd(r)
    && Number100(r) + (if carry then Pow(100, |r|) else 0) == Number100(p) + Number100(q)
  }

  lemma DecimalSumStep(p: seq<bv8>, q: seq<bv8>, r: seq<bv8>, c: bool, a: bv8, v: bv8)
    requires IsDecimalSum(p, q, r, c) && Bcd(a) && Bcd(v)
    ensures var s := AddDecimal(a, v, c); IsDecimalSum(p + [a], q + [v], r + [s.result], s.carry)
  {
    hide Weighted, Value, AddDecimal, Number100, Pow, Bcd, Digits;
    var s := AddDecimal(a, v, c);
    AddDecimalMeaning(a, v, c);
    Split(p, a);
    Split(q, v);
    Split(r, s.result);
    PowNext(100, |p|);
    SumCore(100, Pow(100, |p|), Number100(p), Number100(q), Number100(r), c, Digits(a), Digits(v),
      Digits(s.result), s.carry);
  }

  /** r is p - q modulo 100^n, and carry means that nothing was borrowed. */
  predicate IsDecimalDifference(p: seq<bv8>, q: seq<bv8>, r: seq<bv8>, carry: bool) {
    && |p| == |q| == |r| && AllBcd(r)
    && Number100(r) - (if carry then 0 else Pow(100, |r|)) == Number100(p) - Number100(q)
    && (carry <==> Number100(p) >= Number100(q))
  }

  lemma DecimalDifferenceStep(p: seq<bv8>, q: seq<bv8>, r: seq<bv8>, c: bool, a: bv8, v: bv8)
    requires IsDecimalDifference(p, q, r, c) && Bcd(a) && Bcd(v)
    ensures var s := AddDecimal(a, NinesComplement(v), c);
      IsDecimalDifference(p + [a], q + [v], r + [s.result], s.carry)
  {
    hide Weighted, Value, AddDecimal, Number100, Pow, Bcd, Digits, NinesComplement;
    var s := AddDecimal(a, NinesComplement(v), c);
    Complement99(v);
    AddDecimalMeaning(a, NinesComplement(v), c);
    Split(p, a);
    Split(q, v);
    Split(r, s.result);
    Bound100(r + [s.result]);
    PowNext(100, |p|);
    DifferenceCore(100, Pow(100, |p|), Number100(p), Number100(q), Number100(r), c, Digits(a), Digits(v),
      Digits(s.result), s.carry);
  }

  // ---- programs ----------------------------------------------------------------

  /** The result may overlap an operand as long as no operand byte is overwritten
      before it is read. */
  predicate Usable(operand: nat, result: nat, n: nat) {
    operand + n <= MEMORY && result + n <= MEMORY && (result <= operand || operand + n <= result)
  }

  /** LDA, ADC, STA. */
  method AddOne(cpu: Cpu6502, p: nat, q: nat, r: nat)
    requires cpu.Ok() && p < MEMORY && q < MEMORY && r < MEMORY
    modifies cpu
    ensures cpu.Ok() && cpu.DecimalOn() == old(cpu.DecimalOn())
    ensures var a, v, c := old(cpu.memory[p]), old(cpu.memory[q]), old(Flag(cpu.flags, CARRY));
      var s := if old(cpu.DecimalOn()) then AddDecimal(a, v, c) else AddBinary(a, v, c);
      && cpu.memory == old(cpu.memory)[r := s.result] && Flag(cpu.flags, CARRY) == s.carry
      && Flag(cpu.flags, OVERFLOW) == AddOverflows(a, v, s.result)
  {
    hide Flag, Change, TestZn, Added, AddDecimal, AddBinary, AddOverflows, High;
    TestZnThenChange(cpu.flags, cpu.memory[p], 0, true);
    cpu.Lda(p);
    SumFlags(cpu.a, cpu.flags, cpu.memory[q], cpu.DecimalOn());
    cpu.Adc(q);
    cpu.Sta(r);
  }

  /** LDA, SBC, STA. */
  method SubtractOne(cpu: Cpu6502, p: nat, q: nat, r: nat)
    requires cpu.Ok() && p < MEMORY && q < MEMORY && r < MEMORY
    modifies cpu
    ensures cpu.Ok() && cpu.DecimalOn() == old(cpu.DecimalOn())
    ensures var a, v, c := old(cpu.memory[p]), old(cpu.memory[q]), old(Flag(cpu.flags, CARRY));
      var s := if old(cpu.DecimalOn()) then AddDecimal(a, NinesComplement(v), c) else SubBinary(a, v, c);
      && cpu.memory == old(cpu.memory)[r := s.result] && Flag(cpu.flags, CARRY) == s.carry
      && (!old(cpu.DecimalOn()) ==> Flag(cpu.flags, OVERFLOW) == SubOverflows(a, v, s.result))
      && Flag(cpu.flags, NEGATIVE) == High(s.result)
  {
    hide Flag, Change, TestZn, Subtracted, AddDecimal, SubBinary, SubOverflows, High, NinesComplement;
    TestZnThenChange(cpu.flags, cpu.memory[p], 0, true);
    cpu.Lda(p);
    DifferenceFlags(cpu.a, cpu.flags, cpu.memory[q], cpu.DecimalOn());
    cpu.Sbc(q);
    cpu.Sta(r);
  }

  lemma SumFlags(a: bv8, f: bv8, v: bv8, decimal: bool)
    ensures var o := Added(a, f, v, decimal);
      var s := if decimal then AddDecimal(a, v, Flag(f, CARRY)) else AddBinary(a, v, Flag(f, CARRY));
      && o.a == s.result && Flag(o.flags, CARRY) == s.carry && Flag(o.flags, OVERFLOW) == AddOverflows(a, v, s.result)
      && Flag(o.flags, DECIMAL) == Flag(f, DECIMAL)
  {
    hide Flag, ArithmeticFlags, AddDecimal, AddBinary, AddOverflows, High;
    var s := if decimal then AddDecimal(a, v, Flag(f, CARRY)) else AddBinary(a, v, Flag(f, CARRY));
    OneOutcome(f, s.carry, AddOverflows(a, v, s.result), s.result);
  }

  lemma DifferenceFlags(a: bv8, f: bv8, v: bv8, decimal: bool)
    ensures var o := Subtracted(a, f, v, decimal);
      var w := if decimal then NinesComplement(v) else v;
      var s := if decimal then AddDecimal(a, w, Flag(f, CARRY)) else SubBinary(a, w, Flag(f, CARRY));
      && o.a == s.result && Flag(o.flags, CARRY) == s.carry && Flag(o.flags, OVERFLOW) == SubOverflows(a, w, s.result)
      && Flag(o.flags, NEGATIVE) == High(s.result) && Flag(o.flags, DECIMAL) == Flag(f, DECIMAL)
  {
    hide Flag, ArithmeticFlags, AddDecimal, SubBinary, SubOverflows, High, NinesComplement;
    var w := if decimal then NinesComplement(v) else v;
    var t := if decimal then AddDecimal(a, w, Flag(f, CARRY)) else SubBinary(a, w, Flag(f, CARRY));
    OneOutcome(f, t.carry, SubOverflows(a, w, t.result), t.result);
  }

  lemma OneOutcome(f: bv8, carry: bool, overflow: bool, result: bv8)
    ensures var g := ArithmeticFlags(f, carry, overflow, result);
      && Flag(g, CARRY) == carry && Flag(g, OVERFLOW) == overflow && Flag(g, NEGATIVE) == High(result)
      && Flag(g, DECIMAL) == Flag(f, DECIMAL)
  {
    ArithmeticFlagsMeaning(f, carry, overflow, result);
    assert ArithmeticFlags(f, carry, overflow, result) & 0x3C & DECIMAL == f & 0x3C & DECIMAL;
  }

  /** CLC, then LDA, ADC, STA for each of n bytes: the n-byte sum, its carry out, and the
      signed overflow of the whole. */
  method AddBytes(cpu: Cpu6502, p: nat, q: nat, r: nat, n: nat)
    requires cpu.Ok() && !cpu.DecimalOn() && Usable(p, r, n) && Usable(q, r, n)
    modifies cpu
    ensures cpu.Ok()
    ensures IsSum(old(cpu.memory[p..p + n]), old(cpu.memory[q..q + n]), cpu.memory[r..r + n],
      Flag(cpu.flags, CARRY), Flag(cpu.flags, OVERFLOW))
    ensures SameAround(old(cpu.memory), cpu.memory, r, n)
  {
    hide Flag, Change, IsSum, SameAround;
    ghost var before := cpu.memory;
    ClearedCarry(cpu.flags);
    cpu.Clc();
    NoSum(cpu.flags);
    Empty(before, p);
    Empty(before, q);
    NoneChanged(before, r);
    Empty(before, r);
    for i := 0 to n
      invariant cpu.Ok() && !cpu.DecimalOn() && SameAround(before, cpu.memory, r, i)
      invariant IsSum(before[p..p + i], before[q..q + i], cpu.memory[r..r + i],
        Flag(cpu.flags, CARRY), Flag(cpu.flags, OVERFLOW))
    {
      AddBytesNext(cpu, p, q, r, i, n, before);
    }
  }

  method AddBytesNext(cpu: Cpu6502, p: nat, q: nat, r: nat, i: nat, n: nat, ghost before: seq<bv8>)
    requires i < n && Usable(p, r, n) && Usable(q, r, n)
    requires cpu.Ok() && !cpu.DecimalOn() && SameAround(before, cpu.memory, r, i)
    requires IsSum(before[p..p + i], before[q..q + i], cpu.memory[r..r + i],
      Flag(cpu.flags, CARRY), Flag(cpu.flags, OVERFLOW))
    modifies cpu
    ensures cpu.Ok() && !cpu.DecimalOn() && SameAround(before, cpu.memory, r, i + 1)
    ensures IsSum(before[p..p + (i + 1)], before[q..q + (i + 1)], cpu.memory[r..r + (i + 1)],
      Flag(cpu.flags, CARRY), Flag(cpu.flags, OVERFLOW))
  {
    hide Flag, IsSum, AddBinary, AddOverflows, SameAround, Usable;
    ghost var mem := cpu.memory;
    OperandKept(before, mem, p, r, i, n);
    OperandKept(before, mem, q, r, i, n);
    ghost var done := mem[r..r + i];
    SumStep(before[p..p + i], before[q..q + i], done, Flag(cpu.flags, CARRY), Flag(cpu.flags, OVERFLOW),
      before[p + i], before[q + i]);
    AddOne(cpu, p + i, q + i, r + i);
    OneMore(before, p, i);
    OneMore(before, q, i);
    OneByte(before, mem, r, i, cpu.memory[r + i]);
  }

  /** SEC, then LDA, SBC, STA: the difference, no borrow, and the signed comparison. */
  method SubtractBytes(cpu: Cpu6502, p: nat, q: nat, r: nat, n: nat)
    requires cpu.Ok() && !cpu.DecimalOn() && Usable(p, r, n) && Usable(q, r, n)
    modifies cpu
    ensures cpu.Ok()
    ensures IsDifference(old(cpu.memory[p..p + n]), old(cpu.memory[q..q + n]), cpu.memory[r..r + n],
      Flag(cpu.flags, CARRY), Flag(cpu.flags, NEGATIVE), Flag(cpu.flags, OVERFLOW))
    ensures SameAround(old(cpu.memory), cpu.memory, r, n)
  {
    hide Flag, Change, IsDifference, SameAround;
    ghost var before := cpu.memory;
    ClearedCarry(cpu.flags);
    cpu.Sec();
    NoDifference(cpu.flags);
    Empty(before, p);
    Empty(before, q);
    NoneChanged(before, r);
    Empty(before, r);
    for i := 0 to n
      invariant cpu.Ok() && !cpu.DecimalOn() && SameAround(before, cpu.memory, r, i)
      invariant IsDifference(before[p..p + i], before[q..q + i], cpu.memory[r..r + i],
        Flag(cpu.flags, CARRY), Flag(cpu.flags, NEGATIVE), Flag(cpu.flags, OVERFLOW))
    {
      SubtractBytesNext(cpu, p, q, r, i, n, before);
    }
  }

  method SubtractBytesNext(cpu: Cpu6502, p: nat, q: nat, r: nat, i: nat, n: nat, ghost before: seq<bv8>)
    requires i < n && Usable(p, r, n) && Usable(q, r, n)
    requires cpu.Ok() && !cpu.DecimalOn() && SameAround(before, cpu.memory, r, i)
    requires IsDifference(before[p..p + i], before[q..q + i], cpu.memory[r..r + i],
      Flag(cpu.flags, CARRY), Flag(cpu.flags, NEGATIVE), Flag(cpu.flags, OVERFLOW))
    modifies cpu
    ensures cpu.Ok() && !cpu.DecimalOn() && SameAround(before, cpu.memory, r, i + 1)
    ensures IsDifference(before[p..p + (i + 1)], before[q..q + (i + 1)], cpu.memory[r..r + (i + 1)],
      Flag(cpu.flags, CARRY), Flag(cpu.flags, NEGATIVE), Flag(cpu.flags, OVERFLOW))
  {
    hide Flag, IsDifference, SubBinary, SubOverflows, High, SameAround, Usable;
    ghost var mem := cpu.memory;
    OperandKept(before, mem, p, r, i, n);
    OperandKept(before, mem, q, r, i, n);
    ghost var done := mem[r..r + i];
    DifferenceStep(before[p..p + i], before[q..q + i], done, Flag(cpu.flags, CARRY), Flag(cpu.flags, NEGATIVE),
      Flag(cpu.flags, OVERFLOW), before[p + i], before[q + i]);
    SubtractOne(cpu, p + i, q + i, r + i);
    OneMore(before, p, i);
    OneMore(before, q, i);
    OneByte(before, mem, r, i, cpu.memory[r + i]);
  }

  /** The addition in decimal mode, on decimal operands. */
  method AddDecimalBytes(cpu: Cpu6502, p: nat, q: nat, r: nat, n: nat)
    requires cpu.Ok() && cpu.DecimalOn() && Usable(p, r, n) && Usable(q, r, n)
    requires AllBcd(cpu.memory[p..p + n]) && AllBcd(cpu.memory[q..q + n])
    modifies cpu
    ensures cpu.Ok()
    ensures IsDecimalSum(old(cpu.memory[p..p + n]), old(cpu.memory[q..q + n]), cpu.memory[r..r + n],
      Flag(cpu.flags, CARRY))
    ensures SameAround(old(cpu.memory), cpu.memory, r, n)
  {
    hide Flag, Change, IsDecimalSum, AllBcd, Bcd, SameAround;
    ghost var before := cpu.memory;
    ClearedCarry(cpu.flags);
    cpu.Clc();
    NoSum(cpu.flags);
    Empty(before, p);
    Empty(before, q);
    NoneChanged(before, r);
    Empty(before, r);
    for i := 0 to n
      invariant cpu.Ok() && cpu.DecimalOn() && SameAround(before, cpu.memory, r, i)
      invariant IsDecimalSum(before[p..p + i], before[q..q + i], cpu.memory[r..r + i],
        Flag(cpu.flags, CARRY))
    {
      BcdAt(before, p, n, i);
      BcdAt(before, q, n, i);
      AddDecimalBytesNext(cpu, p, q, r, i, n, before);
    }
  }

  method AddDecimalBytesNext(cpu: Cpu6502, p: nat, q: nat, r: nat, i: nat, n: nat, ghost before: seq<bv8>)
    requires i < n && Usable(p, r, n) && Usable(q, r, n)
    requires cpu.Ok() && cpu.DecimalOn() && SameAround(before, cpu.memory, r, i)
    requires Bcd(before[p + i]) && Bcd(before[q + i])
    requires IsDecimalSum(before[p..p + i], before[q..q + i], cpu.memory[r..r + i],
      Flag(cpu.flags, CARRY))
    modifies cpu
    ensures cpu.Ok() && cpu.DecimalOn() && SameAround(before, cpu.memory, r, i + 1)
    ensures IsDecimalSum(before[p..p + (i + 1)], before[q..q + (i + 1)], cpu.memory[r..r + (i + 1)],
      Flag(cpu.flags, CARRY))
  {
    hide Flag, IsDecimalSum, AddDecimal, AddOverflows, Bcd, SameAround, Usable;
    ghost var mem := cpu.memory;
    OperandKept(before, mem, p, r, i, n);
    OperandKept(before, mem, q, r, i, n);
    ghost var done := mem[r..r + i];
    DecimalSumStep(before[p..p + i], before[q..q + i], done, Flag(cpu.flags, CARRY), before[p + i], before[q + i]);
    AddOne(cpu, p + i, q + i, r + i);
    OneMore(before, p, i);
    OneMore(before, q, i);
    OneByte(before, mem, r, i, cpu.memory[r + i]);
  }

  /** The subtraction in decimal mode, on decimal operands. */
  method SubtractDecimalBytes(cpu: Cpu6502, p: nat, q: nat, r: nat, n: nat)
    requires cpu.Ok() && cpu.DecimalOn() && Usable(p, r, n) && Usable(q, r, n)
    requires AllBcd(cpu.memory[p..p + n]) && AllBcd(cpu.memory[q..q + n])
    modifies cpu
    ensures cpu.Ok()
    ensures IsDecimalDifference(old(cpu.memory[p..p + n]), old(cpu.memory[q..q + n]), cpu.memory[r..r + n],
      Flag(cpu.flags, CARRY))
    ensures SameAround(old(cpu.memory), cpu.memory, r, n)
  {
    hide Flag, Change, IsDecimalDifference, AllBcd, Bcd, SameAround;
    ghost var before := cpu.memory;
    ClearedCarry(cpu.flags);
    cpu.Sec();
    NoDifference(cpu.flags);
    Empty(before, p);
    Empty(before, q);
    NoneChanged(before, r);
    Empty(before, r);
    for i := 0 to n
      invariant cpu.Ok() && cpu.DecimalOn() && SameAround(before, cpu.memory, r, i)
      invariant IsDecimalDifference(before[p..p + i], before[q..q + i], cpu.memory[r..r + i],
        Flag(cpu.flags, CARRY))
    {
      BcdAt(before, p, n, i);
      BcdAt(before, q, n, i);
      SubtractDecimalBytesNext(cpu, p, q, r, i, n, before);
    }
  }

  method SubtractDecimalBytesNext(cpu: Cpu6502, p: nat, q: nat, r: nat, i: nat, n: nat, ghost before: seq<bv8>)
    requires i < n && Usable(p, r, n) && Usable(q, r, n)
    requires cpu.Ok() && cpu.DecimalOn() && SameAround(before, cpu.memory, r, i)
    requires Bcd(before[p + i]) && Bcd(before[q + i])
    requires IsDecimalDifference(before[p..p + i], before[q..q + i], cpu.memory[r..r + i],
      Flag(cpu.flags, CARRY))
    modifies cpu
    ensures cpu.Ok() && cpu.DecimalOn() && SameAround(before, cpu.memory, r, i + 1)
    ensures IsDecimalDifference(before[p..p + (i + 1)], before[q..q + (i + 1)], cpu.memory[r..r + (i + 1)],
      Flag(cpu.flags, CARRY))
  {
    hide Flag, IsDecimalDifference, AddDecimal, NinesComplement, High, Bcd, SameAround, Usable;
    ghost var mem := cpu.memory;
    OperandKept(before, mem, p, r, i, n);
    OperandKept(before, mem, q, r, i, n);
    ghost var done := mem[r..r + i];
    DecimalDifferenceStep(before[p..p + i], before[q..q + i], done, Flag(cpu.flags, CARRY),
      before[p + i], before[q + i]);
    SubtractOne(cpu, p + i, q + i, r + i);
    OneMore(before, p, i);
    OneMore(before, q, i);
    OneByte(before, mem, r, i, cpu.memory[r + i]);
  }

  predicate SameAround(before: seq<bv8>, after: seq<bv8>, r: nat, n: nat) {
    |before| == |after| == MEMORY && forall j :: 0 <= j < MEMORY && !(r <= j < r + n) ==> before[j] == after[j]
  }

  lemma NoneChanged(s: seq<bv8>, r: nat)
    requires |s| == MEMORY
    ensures SameAround(s, s, r, 0)
  {}

  /** Storing the next result byte. */
  lemma OneByte(before: seq<bv8>, memory: seq<bv8>, r: nat, i: nat, x: bv8)
    requires SameAround(before, memory, r, i) && r + i < MEMORY
    ensures var after := memory[r + i := x];
      SameAround(before, after, r, i + 1) && after[r..r + (i + 1)] == memory[r..r + i] + [x]
  {}

  /** The next operand byte has not been overwritten. */
  lemma OperandKept(before: seq<bv8>, memory: seq<bv8>, operand: nat, r: nat, i: nat, n: nat)
    requires SameAround(before, memory, r, i) && Usable(operand, r, n) && i < n
    ensures |before| == |memory| == MEMORY && operand + i < MEMORY && r + i < MEMORY
    ensures memory[operand + i] == before[operand + i]
  {}

  lemma OneMore(s: seq<bv8>, at: nat, n: nat)
    requires at + n < |s|
    ensures s[at..at + n + 1] == s[at..at + n] + [s[at + n]]
  {}

  lemma ClearedCarry(f: bv8)
    ensures !Flag(Change(f, false, CARRY), CARRY) && Flag(Change(f, true, CARRY), CARRY)
    ensures forall on :: Flag(Change(f, on, CARRY), DECIMAL) == Flag(f, DECIMAL)
  {}

  lemma BcdAt(s: seq<bv8>, at: nat, n: nat, i: nat)
    requires at + n <= |s| && AllBcd(s[at..at + n]) && i < n
    ensures Bcd(s[at + i])
  {
    assert s[at..at + n][i] == s[at + i];
  }

  lemma Empty(s: seq<bv8>, at: nat)
    requires at <= |s|
    ensures s[at..at + 0] == []
  {}

  lemma NoDifference(f: bv8)
    requires Flag(f, CARRY)
    ensures forall n, o :: IsDifference([], [], [], Flag(f, CARRY), n, o)
    ensures IsDecimalDifference([], [], [], Flag(f, CARRY))
  {}

  lemma NoSum(f: bv8)
    requires !Flag(f, CARRY)
    ensures (forall o :: IsSum([], [], [], Flag(f, CARRY), o)) && IsDecimalSum([], [], [], Flag(f, CARRY))
  {}
}
