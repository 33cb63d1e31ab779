/** The 6502: arithmetic, flags, memory instructions and the stack, on flat memory.
    Whether decimal mode exists depends on the flavour of the chip. */
module Cpu {
  import opened Bits

  const CARRY: bv8 := 0x01
  const ZERO: bv8 := 0x02
  const INT_DISABLE: bv8 := 0x04
  const DECIMAL: bv8 := 0x08
  const BREAK: bv8 := 0x10
  const UNUSED: bv8 := 0x20
  const OVERFLOW: bv8 := 0x40
  const NEGATIVE: bv8 := 0x80

  // ---- flags -------------------------------------------------------------------

  predicate Flag(flags: bv8, mask: bv8) {
    flags & mask != 0
  }

  /** One flag replaced. */
  function Change(flags: bv8, on: bool, mask: bv8): bv8 {
    flags ^ (((if on then 0xFF else 0) ^ flags) & mask)
  }

  function TestZn(flags: bv8, value: bv8): bv8 {
    (flags & !(ZERO | NEGATIVE)) | (if value != 0 then value & 0x80 else ZERO)
  }

  /** The flags an addition or subtraction leaves. */
  function ArithmeticFlags(flags: bv8, carry: bool, overflow: bool, result: bv8): bv8 {
    TestZn(Change(Change(flags, carry, CARRY), overflow, OVERFLOW), result)
  }

  lemma ArithmeticFlagsMeaning(f: bv8, carry: bool, overflow: bool, result: bv8)
    ensures var g := ArithmeticFlags(f, carry, overflow, result);
      && Flag(g, CARRY) == carry && Flag(g, OVERFLOW) == overflow
      && Flag(g, ZERO) == (result == 0) && Flag(g, NEGATIVE) == High(result)
      && g & 0x3C == f & 0x3C
  {}

  lemma ChangeMeaning(f: bv8, on: bool, mask: bv8, other: bv8)
    requires mask != 0 && mask & other == 0
    requires mask == 1 || mask == 2 || mask == 4 || mask == 8 || mask == 16 || mask == 32 || mask == 64 || mask == 128
    ensures Flag(Change(f, on, mask), mask) == on
    ensures Change(f, on, mask) & other == f & other
  {}

  // ---- arithmetic --------------------------------------------------------------

  function Number(bit: bool): nat {
    if bit then 1 else 0
  }

  /** A byte read as a two's complement number. */
  function Signed(b: bv8): (n: int)
    ensures -128 <= n < 128
  {
    if Value(b) < 128 then Value(b) else Value(b) - 256
  }

  predicate High(b: bv8) {
    b >= 0x80
  }

  function Narrow(n: nat): (b: bv8)
    requires n < 256
    ensures Value(b) == n
  {
    NumberRoundTrip(n);
    n as bv8
  }

  function Byte(n: int): (b: bv8)
    ensures 0 <= n < 256 ==> Value(b) == n
  {
    Narrow(n % 256)
  }

  /** The two hexadecimal digits of a byte. */
  function LowDigit(b: bv8): (n: nat)
    ensures n < 16
  {
    Value(b) % 16
  }

  function HighDigit(b: bv8): (n: nat)
    ensures n < 16
  {
    Value(b) / 16
  }

  datatype Sum = Sum(result: bv8, carry: bool)

  function AddBinary(a: bv8, v: bv8, carry: bool): Sum {
    var result16 := Value(a) + Value(v) + Number(carry);
    Sum(Byte(result16 % 256), result16 > 255)
  }

  function SubBinary(a: bv8, v: bv8, carry: bool): Sum {
    var result16 := Value(a) - Value(v) - Number(!carry);
    Sum(Byte(result16 % 256), result16 >= 0)
  }

  function AddDecimal(a: bv8, v: bv8, carry: bool): Sum {
    var hi := DigitsHigh(LowDigit(a), HighDigit(a), LowDigit(v), HighDigit(v), Number(carry));
    var lo := DigitsLow(LowDigit(a), LowDigit(v), Number(carry));
    Sum(Byte(Corrected(hi, lo)), hi > 0x90)
  }

  /** Both digits, the high ones less 160 if they are more than 90 hexadecimal. */
  function Corrected(hi: nat, lo: nat): (n: nat)
    ensures n < 256
  {
    ((if hi > 0x90 then hi - 0xA0 else hi) + lo) % 256
  }

  /** The low digits with the carry, less ten if that is more than nine. */
  function DigitsLow(al: nat, vl: nat, carry: nat): nat {
    var lo := vl + al + carry;
    (if lo > 9 then lo - 10 else lo) % 16
  }

  /** The high digits in place, with the carry from the low ones. */
  function DigitsHigh(al: nat, ah: nat, vl: nat, vh: nat, carry: nat): nat {
    var lo := vl + al + carry;
    var hi := 16 * vh + 16 * ah;
    if lo > 9 then hi + 0x10 else hi
  }

  /** Bit 7 of these is the overflow flag of an addition and of a subtraction. */
  predicate AddOverflows(a: bv8, v: bv8, r: bv8) {
    !(a ^ v) & (a ^ r) & 0x80 != 0
  }

  predicate SubOverflows(a: bv8, v: bv8, r: bv8) {
    (a ^ v) & (a ^ r) & 0x80 != 0
  }

  lemma OverflowBits(a: bv8, v: bv8, r: bv8)
    ensures AddOverflows(a, v, r) <==> High(a) == High(v) && High(r) != High(v)
    ensures SubOverflows(a, v, r) <==> High(a) != High(v) && High(a) != High(r)
  {}

  /** Binary addition: result and carry are the sum; the overflow bit says that the
      signed sum does not fit in a byte. */
  lemma AddBinaryMeaning(a: bv8, v: bv8, carry: bool)
    ensures var s := AddBinary(a, v, carry);
      && Value(s.result) + 256 * Number(s.carry) == Value(a) + Value(v) + Number(carry)
      && (AddOverflows(a, v, s.result) <==> !(-128 <= Signed(a) + Signed(v) + Number(carry) < 128))
      && (!AddOverflows(a, v, s.result) ==> Signed(s.result) == Signed(a) + Signed(v) + Number(carry))
  {
    OverflowBits(a, v, AddBinary(a, v, carry).result);
    hide Value, Byte, High, AddOverflows;
    SignBit(a);
    SignBit(v);
    SignBit(AddBinary(a, v, carry).result);
  }

  /** Binary subtraction: carry means no borrow, and the negative and overflow bits
      together tell whether the signed difference is negative. */
  lemma SubBinaryMeaning(a: bv8, v: bv8, carry: bool)
    ensures var s := SubBinary(a, v, carry);
      && Value(s.result) - 256 * Number(!s.carry) == Value(a) - Value(v) - Number(!carry)
      && (SubOverflows(a, v, s.result) <==> !(-128 <= Signed(a) - Signed(v) - Number(!carry) < 128))
      && (High(s.result) != SubOverflows(a, v, s.result) <==> Signed(a) - Signed(v) - Number(!carry) < 0)
  {
    OverflowBits(a, v, SubBinary(a, v, carry).result);
    hide Value, Byte, High, SubOverflows;
    SignBit(a);
    SignBit(v);
    SignBit(SubBinary(a, v, carry).result);
  }

  lemma SignBit(b: bv8)
    ensures High(b) <==> Value(b) >= 128
  {}

  /** A byte of two decimal digits, and its number. */
  predicate Bcd(b: bv8) {
    HighDigit(b) < 10 && LowDigit(b) < 10
  }

  function Digits(b: bv8): nat {
    10 * HighDigit(b) + LowDigit(b)
  }

  /** Decimal addition of decimal operands: two digits and a decimal carry. */
  lemma AddDecimalMeaning(a: bv8, v: bv8, carry: bool)
    requires Bcd(a) && Bcd(v)
    ensures var s := AddDecimal(a, v, carry);
      Bcd(s.result) && Digits(s.result) + 100 * Number(s.carry) == Digits(a) + Digits(v) + Number(carry)
  {
    hide Value, Byte, Corrected, LowDigit, HighDigit, DigitsHigh, DigitsLow;
    DecimalDigits(LowDigit(a), HighDigit(a), LowDigit(v), HighDigit(v), Number(carry));
    SplitDigits(AddDecimal(a, v, carry).result);
  }

  lemma SplitDigits(b: bv8)
    ensures LowDigit(b) == Value(b) % 16 && HighDigit(b) == Value(b) / 16
  {
    hide Value;
  }

  lemma DecimalDigits(al: nat, ah: nat, vl: nat, vh: nat, carry: nat)
    requires al < 10 && ah < 10 && vl < 10 && vh < 10 && carry < 2
    ensures var lo, hi := DigitsLow(al, vl, carry), DigitsHigh(al, ah, vl, vh, carry);
      var r := Corrected(hi, lo);
      && r / 16 < 10 && r % 16 < 10
      && 10 * (r / 16) + r % 16 + 100 * Number(hi > 0x90) == 10 * ah + al + 10 * vh + vl + carry
  {
    var lo := vl + al + carry;
    var tens := vh + ah + if lo > 9 then 1 else 0;
    TwoDigits(if tens > 9 then tens - 10 else tens, if lo > 9 then lo - 10 else lo);
  }

  lemma TwoDigits(tens: nat, ones: nat)
    requires tens < 10 && ones < 10
    ensures (16 * tens + ones) / 16 == tens && (16 * tens + ones) % 16 == ones
    ensures ones % 16 == ones && (16 * tens + ones) % 256 == 16 * tens + ones
  {}

  /** The operand of a decimal subtraction is complemented to 99. */
  lemma Complement99(v: bv8)
    requires Bcd(v)
    ensures Bcd(NinesComplement(v)) && Digits(NinesComplement(v)) == 99 - Digits(v)
  {
    hide Value;
    Complement(v);
  }

  lemma Complement(v: bv8)
    requires Value(v) <= 0x99
    ensures Value(NinesComplement(v)) == 0x99 - Value(v)
  {}

  // ---- one-byte operations -----------------------------------------------------

  function Up(b: bv8): bv8 { b << 1 }

  function Down(b: bv8): bv8 { b >> 1 }

  function Next(b: bv8): bv8 { b + 1 }

  function Previous(b: bv8): bv8 { b - 1 }

  function Minus(b: bv8, v: bv8): bv8 { b - v }

  predicate AtLeast(b: bv8, v: bv8) { b >= v }

  function Both(b: bv8, v: bv8): bv8 { b & v }

  function Either(b: bv8, v: bv8): bv8 { b | v }

  function Differ(b: bv8, v: bv8): bv8 { b ^ v }

  function NinesComplement(b: bv8): bv8 { 0x99 - b }

  // ---- instructions on states --------------------------------------------------

  /** Registers and memory. */
  datatype State = State(a: bv8, x: bv8, y: bv8, sp: bv8, flags: bv8, pc: nat, mem: seq<bv8>)

  const MEMORY: nat := 0x1_0000

  predicate Valid(s: State) {
    |s.mem| == MEMORY && s.pc < MEMORY && Flag(s.flags, UNUSED)
  }

  predicate InDecimal(s: State, capable: bool) {
    capable && Flag(s.flags, DECIMAL)
  }

  /** Accumulator and flags after an addition or a subtraction. */
  datatype Outcome = Outcome(a: bv8, flags: bv8)

  function Added(a: bv8, flags: bv8, v: bv8, decimal: bool): Outcome {
    var r := if decimal then AddDecimal(a, v, Flag(flags, CARRY)) else AddBinary(a, v, Flag(flags, CARRY));
    Outcome(r.result, ArithmeticFlags(flags, r.carry, AddOverflows(a, v, r.result), r.result))
  }

  function Subtracted(a: bv8, flags: bv8, operand: bv8, decimal: bool): Outcome {
    var v := if decimal then NinesComplement(operand) else operand;
    var r := if decimal then AddDecimal(a, v, Flag(flags, CARRY)) else SubBinary(a, v, Flag(flags, CARRY));
    Outcome(r.result, ArithmeticFlags(flags, r.carry, SubOverflows(a, v, r.result), r.result))
  }

  function Adc(s: State, addr: nat, capable: bool): State
    requires addr < |s.mem|
  {
    var r := Added(s.a, s.flags, s.mem[addr], InDecimal(s, capable));
    s.(a := r.a, flags := r.flags)
  }

  function Sbc(s: State, addr: nat, capable: bool): State
    requires addr < |s.mem|
  {
    var r := Subtracted(s.a, s.flags, s.mem[addr], InDecimal(s, capable));
    s.(a := r.a, flags := r.flags)
  }

  function Cmp(s: State, addr: nat): State
    requires addr < |s.mem|
  {
    s.(flags := TestZn(Change(s.flags, AtLeast(s.a, s.mem[addr]), CARRY), Minus(s.a, s.mem[addr])))
  }

  function And(s: State, addr: nat): State
    requires addr < |s.mem|
  {
    s.(a := Both(s.a, s.mem[addr]), flags := TestZn(s.flags, Both(s.a, s.mem[addr])))
  }

  function Ora(s: State, addr: nat): State
    requires addr < |s.mem|
  {
    s.(a := Either(s.a, s.mem[addr]), flags := TestZn(s.flags, Either(s.a, s.mem[addr])))
  }

  function Eor(s: State, addr: nat): State
    requires addr < |s.mem|
  {
    s.(a := Differ(s.a, s.mem[addr]), flags := TestZn(s.flags, Differ(s.a, s.mem[addr])))
  }

  /** A memory instruction that replaces a byte and leaves its sign and zero flags. */
  function Modify(s: State, addr: nat, flags: bv8, value: bv8): State
    requires addr < |s.mem|
  {
    s.(mem := s.mem[addr := value], flags := TestZn(flags, value))
  }

  function Inc(s: State, addr: nat): State
    requires addr < |s.mem|
  {
    Modify(s, addr, s.flags, Next(s.mem[addr]))
  }

  function Dec(s: State, addr: nat): State
    requires addr < |s.mem|
  {
    Modify(s, addr, s.flags, Previous(s.mem[addr]))
  }

  function Asl(s: State, addr: nat): State
    requires addr < |s.mem|
  {
    Modify(s, addr, Change(s.flags, Flag(s.mem[addr], 0x80), CARRY), Up(s.mem[addr]))
  }

  function Lsr(s: State, addr: nat): State
    requires addr < |s.mem|
  {
    Modify(s, addr, Change(s.flags, Flag(s.mem[addr], 1), CARRY), Down(s.mem[addr]))
  }

  function Rol(s: State, addr: nat): State
    requires addr < |s.mem|
  {
    Modify(s, addr, Change(s.flags, Flag(s.mem[addr], 0x80), CARRY),
      Change(Up(s.mem[addr]), Flag(s.flags, CARRY), 1))
  }

  function Ror(s: State, addr: nat): State
    requires addr < |s.mem|
  {
    Modify(s, addr, Change(s.flags, Flag(s.mem[addr], 1), CARRY),
      Change(Down(s.mem[addr]), Flag(s.flags, CARRY), 0x80))
  }

  function Lda(s: State, addr: nat): State
    requires addr < |s.mem|
  {
    s.(a := s.mem[addr], flags := TestZn(s.flags, s.mem[addr]))
  }

  function Sta(s: State, addr: nat): State
    requires addr < |s.mem|
  {
    s.(mem := s.mem[addr := s.a])
  }

  function WithCarry(s: State, on: bool): State {
    s.(flags := Change(s.flags, on, CARRY))
  }

  // ---- stack -------------------------------------------------------------------

  const NMI_VECTOR: nat := 0xFFFA
  const IRQ_VECTOR: nat := 0xFFFE

  function High8(n: nat): bv8 {
    Byte(n / 256 % 256)
  }

  function Low8(n: nat): bv8 {
    Byte(n % 256)
  }

  function Address(low: bv8, high: bv8): (n: nat)
    ensures n < MEMORY
  {
    256 * Value(high) + Value(low)
  }

  /** Bytes go to page one, downwards, and the pointer wraps inside the page. */
  function PushByte(s: State, v: bv8): State
    requires |s.mem| == MEMORY
  {
    s.(mem := s.mem[0x100 + Value(s.sp) := v], sp := Previous(s.sp))
  }

  function PopByte(s: State): State {
    s.(sp := Next(s.sp))
  }

  function TopByte(s: State): bv8
    requires |s.mem| == MEMORY
  {
    s.mem[0x100 + Value(Next(s.sp))]
  }

  function Jsr(s: State, target: nat): State
    requires |s.mem| == MEMORY
  {
    var ret := (s.pc + MEMORY - 1) % MEMORY;
    PushByte(PushByte(s, High8(ret)), Low8(ret)).(pc := target)
  }

  function Rts(s: State): State
    requires |s.mem| == MEMORY
  {
    var t := PopByte(s);
    PopByte(t).(pc := (Address(TopByte(s), TopByte(t)) + 1) % MEMORY)
  }

  /** Program counter and flags are stacked, interrupts disabled, and the vector taken.
      Only BRK stacks the break bit. */
  function EnterIsr(s: State, vector: nat, brk: bool): State
    requires |s.mem| == MEMORY && vector + 1 < MEMORY
  {
    var t := PushByte(PushByte(s, High8(s.pc)), Low8(s.pc));
    var u := PushByte(t, if brk then WithBreak(s.flags) else WithoutBreak(s.flags));
    u.(flags := Change(s.flags, true, INT_DISABLE), pc := Address(u.mem[vector], u.mem[vector + 1]))
  }

  function Rti(s: State): State
    requires |s.mem| == MEMORY
  {
    var t := PopByte(s);
    var u := PopByte(t);
    PopByte(u).(flags := Restored(TopByte(s)), pc := Address(TopByte(t), TopByte(u)))
  }

  function WithBreak(flags: bv8): bv8 { flags | 0x10 }

  function WithoutBreak(flags: bv8): bv8 { flags & !0x10 }

  function Restored(flags: bv8): bv8 { (flags & !0x10) | 0x20 }

  /** The break bit of the stacked flags does not survive a return. */
  lemma RestoredFlags(f: bv8)
    ensures Restored(WithBreak(f)) == Restored(f) && Restored(WithoutBreak(f)) == Restored(f)
    ensures Flag(Restored(f), UNUSED) && !Flag(Restored(f), BREAK)
    ensures Flag(f, UNUSED) ==> Restored(f) == WithoutBreak(f)
    ensures Flag(Change(f, true, INT_DISABLE), UNUSED) == Flag(f, UNUSED)
  {}

  // ---- what comparisons and rotations compute ----------------------------------

  lemma AtLeastValue(b: bv8, v: bv8)
    ensures AtLeast(b, v) <==> Value(b) >= Value(v)
    ensures Minus(b, v) == 0 <==> b == v
  {}

  lemma TestZnMeaning(f: bv8, w: bv8)
    ensures Flag(TestZn(f, w), ZERO) == (w == 0) && Flag(TestZn(f, w), NEGATIVE) == High(w)
    ensures Flag(TestZn(f, w), CARRY) == Flag(f, CARRY)
  {}

  /** Carry tells the unsigned order, zero equality. */
  lemma CmpMeaning(s: State, addr: nat)
    requires addr < |s.mem|
    ensures var t := Cmp(s, addr);
      && (Flag(t.flags, CARRY) <==> Value(s.a) >= Value(s.mem[addr]))
      && (Flag(t.flags, ZERO) <==> s.a == s.mem[addr])
  {
    hide Flag, Change, TestZn, AtLeast, Minus, Value, High;
    var v := s.mem[addr];
    AtLeastValue(s.a, v);
    TestZnMeaning(Change(s.flags, AtLeast(s.a, v), CARRY), Minus(s.a, v));
    TestZnThenChange(s.flags, 0, 0, AtLeast(s.a, v));
  }

  lemma UpValue(b: bv8, on: bool)
    ensures Value(Change(Up(b), on, 1)) + 256 * Number(Flag(b, 0x80)) == 2 * Value(b) + Number(on)
  {
    hide Value, Change, Up, LowSeven, Flag;
    UpLow(b, on);
    TopBit(b);
  }

  function LowSeven(b: bv8): bv8 { b & 0x7F }

  lemma UpLow(b: bv8, on: bool)
    ensures Value(Change(Up(b), on, 1)) == 2 * Value(LowSeven(b)) + Number(on)
  {
    assert Change(Up(b), on, 1) == LowSeven(b) + LowSeven(b) + if on then 1 else 0;
  }

  lemma TopBit(b: bv8)
    ensures Value(b) == Value(LowSeven(b)) + 128 * Number(Flag(b, 0x80))
  {}

  lemma DownValue(b: bv8, on: bool)
    ensures 2 * Value(Change(Down(b), on, 0x80)) + Number(Flag(b, 1)) == Value(b) + 256 * Number(on)
  {
    assert Change(Down(b), on, 0x80) == (b >> 1) + if on then 0x80 else 0;
    assert b as int == 2 * ((b >> 1) as int) + ((b & 1) as int);
  }

  /** A rotation moves the nine bits of byte and carry: doubling in one direction, halving
      in the other. */
  lemma RolMeaning(s: State, addr: nat)
    requires addr < |s.mem|
    ensures var t := Rol(s, addr);
      Value(t.mem[addr]) + 256 * Number(Flag(t.flags, CARRY)) == 2 * Value(s.mem[addr]) + Number(Flag(s.flags, CARRY))
  {
    hide Flag, Change, TestZn, Up, Value, High;
    UpValue(s.mem[addr], Flag(s.flags, CARRY));
    TestZnThenChange(s.flags, 0, 0, Flag(s.mem[addr], 0x80));
    TestZnMeaning(Change(s.flags, Flag(s.mem[addr], 0x80), CARRY), Rol(s, addr).mem[addr]);
  }

  lemma RorMeaning(s: State, addr: nat)
    requires addr < |s.mem|
    ensures var t := Ror(s, addr);
      2 * Value(t.mem[addr]) + Number(Flag(t.flags, CARRY)) == Value(s.mem[addr]) + 256 * Number(Flag(s.flags, CARRY))
  {
    hide Flag, Change, TestZn, Down, Value, High;
    DownValue(s.mem[addr], Flag(s.flags, CARRY));
    TestZnThenChange(s.flags, 0, 0, Flag(s.mem[addr], 1));
    TestZnMeaning(Change(s.flags, Flag(s.mem[addr], 1), CARRY), Ror(s, addr).mem[addr]);
  }

  /** ROR undoes ROL: memory and carry are back. */
  lemma RotateBack(s: State, addr: nat)
    requires addr < |s.mem|
    ensures var t := Ror(Rol(s, addr), addr);
      t.mem == s.mem && Flag(t.flags, CARRY) == Flag(s.flags, CARRY)
  {
    hide Flag, Change, TestZn, Up, Down, Value, High;
    RolMeaning(s, addr);
    RorMeaning(Rol(s, addr), addr);
    var t := Ror(Rol(s, addr), addr);
    SameValue(t.mem[addr], s.mem[addr]);
    assert t.mem == s.mem[addr := t.mem[addr]];
  }

  lemma SameValue(b: bv8, v: bv8)
    requires Value(b) == Value(v)
    ensures b == v
  {
    ByteRoundTrip(b);
    ByteRoundTrip(v);
  }

  /** The flag tests of the second instruction overwrite those of the first. */
  lemma TestZnTwice(f: bv8, u: bv8, w: bv8)
    ensures TestZn(TestZn(f, u), w) == TestZn(f, w)
  {}

  lemma TestZnThenChange(f: bv8, u: bv8, w: bv8, on: bool)
    ensures TestZn(Change(TestZn(f, u), on, CARRY), w) == TestZn(Change(f, on, CARRY), w)
    ensures Flag(TestZn(f, u), CARRY) == Flag(f, CARRY)
    ensures Flag(TestZn(f, u), DECIMAL) == Flag(f, DECIMAL)
    ensures Flag(Change(f, on, CARRY), DECIMAL) == Flag(f, DECIMAL)
    ensures Flag(Change(f, on, CARRY), CARRY) == on
  {}

  lemma TestZnThenArithmetic(f: bv8, u: bv8, carry: bool, overflow: bool, w: bv8)
    ensures ArithmeticFlags(TestZn(f, u), carry, overflow, w) == ArithmeticFlags(f, carry, overflow, w)
  {}

  lemma FlagsKeepUnused(f: bv8, on: bool, overflow: bool, w: bv8)
    requires Flag(f, UNUSED)
    ensures Flag(TestZn(f, w), UNUSED) && Flag(Change(f, on, CARRY), UNUSED)
    ensures Flag(ArithmeticFlags(f, on, overflow, w), UNUSED)
  {}

  lemma ChangeKeepsUnused(f: bv8, on: bool, mask: bv8)
    requires Flag(f, UNUSED) && mask & UNUSED == 0
    ensures Flag(Change(f, on, mask), UNUSED)
  {}

  lemma ArithmeticKeepsUnused(a: bv8, f: bv8, v: bv8, decimal: bool)
    requires Flag(f, UNUSED)
    ensures Flag(Added(a, f, v, decimal).flags, UNUSED) && Flag(Subtracted(a, f, v, decimal).flags, UNUSED)
  {
    hide Flag, Change, TestZn, AddOverflows, SubOverflows, AddDecimal, AddBinary, SubBinary, NinesComplement,
      ArithmeticFlags;
    var r := if decimal then AddDecimal(a, v, Flag(f, CARRY)) else AddBinary(a, v, Flag(f, CARRY));
    FlagsKeepUnused(f, r.carry, AddOverflows(a, v, r.result), r.result);
    var w := if decimal then NinesComplement(v) else v;
    var t := if decimal then AddDecimal(a, w, Flag(f, CARRY)) else SubBinary(a, w, Flag(f, CARRY));
    FlagsKeepUnused(f, t.carry, SubOverflows(a, w, t.result), t.result);
  }

  lemma SubtractAfterTest(a: bv8, f: bv8, u: bv8, v: bv8, decimal: bool)
    ensures Subtracted(a, TestZn(f, u), v, decimal) == Subtracted(a, f, v, decimal)
  {
    hide Flag, Change, TestZn, SubOverflows, AddDecimal, SubBinary, NinesComplement, ArithmeticFlags;
    TestZnThenChange(f, u, 0, true);
    var w := if decimal then NinesComplement(v) else v;
    var t := if decimal then AddDecimal(a, w, Flag(f, CARRY)) else SubBinary(a, w, Flag(f, CARRY));
    TestZnThenArithmetic(f, u, t.carry, SubOverflows(a, w, t.result), t.result);
  }
}
