/** What the instructions compute, bit by bit and number by number, with every flag, stack
    cell and vector named by its place. */
module InstructionLaws {
  import opened Bits
  import opened Cpu

  // ---- flags -------------------------------------------------------------------

  /** Which flag is which bit of the status byte. */
  lemma FlagBits(f: bv8)
    ensures (Flag(f, CARRY) <==> Bit(f, 0) == 1) && (Flag(f, ZERO) <==> Bit(f, 1) == 1)
    ensures (Flag(f, INT_DISABLE) <==> Bit(f, 2) == 1) && (Flag(f, DECIMAL) <==> Bit(f, 3) == 1)
    ensures (Flag(f, BREAK) <==> Bit(f, 4) == 1) && (Flag(f, UNUSED) <==> Bit(f, 5) == 1)
    ensures (Flag(f, OVERFLOW) <==> Bit(f, 6) == 1) && (Flag(f, NEGATIVE) <==> Bit(f, 7) == 1)
  {
    Counts();
    FlagShifts(f);
    hide Flag, Value, BottomAfter, ShiftCount, Bit;
    BitIsOne(f, 0);
    BitIsOne(f, 1);
    BitIsOne(f, 2);
    BitIsOne(f, 3);
    BitIsOne(f, 4);
    BitIsOne(f, 5);
    BitIsOne(f, 6);
    BitIsOne(f, 7);
  }

  lemma FlagShifts(f: bv8)
    ensures (Flag(f, CARRY) <==> BottomAfter(f, 0) == 1) && (Flag(f, ZERO) <==> BottomAfter(f, 1) == 1)
    ensures (Flag(f, INT_DISABLE) <==> BottomAfter(f, 2) == 1) && (Flag(f, DECIMAL) <==> BottomAfter(f, 3) == 1)
    ensures (Flag(f, BREAK) <==> BottomAfter(f, 4) == 1) && (Flag(f, UNUSED) <==> BottomAfter(f, 5) == 1)
    ensures (Flag(f, OVERFLOW) <==> BottomAfter(f, 6) == 1) && (Flag(f, NEGATIVE) <==> BottomAfter(f, 7) == 1)
  {}

  /** g is f with bit n changed, and nothing else. */
  predicate ButBit(f: bv8, g: bv8, n: nat, on: bool)
    requires n < 8
  {
    Bit(g, n) == Number(on) && forall m :: 0 <= m < 8 && m != n ==> Bit(g, m) == Bit(f, m)
  }

  lemma ChangedBit(f: bv8, on: bool, n: nat, m: nat)
    requires n < 8 && m < 8
    ensures Bit(Change(f, on, 1 << ShiftCount(n)), m) == if m == n then Number(on) else Bit(f, m)
  {
    ChangedBottom(f, on, ShiftCount(n), ShiftCount(m));
    CountsDiffer(n, m);
    hide Value, Change, BottomAfter, ShiftCount;
    OneBit(BitOf(Change(f, on, 1 << ShiftCount(n)), m));
  }

  lemma CountsDiffer(n: nat, m: nat)
    requires n < 8 && m < 8
    ensures ShiftCount(n) == ShiftCount(m) <==> n == m
  {
    NumberRoundTrip(n);
    NumberRoundTrip(m);
  }

  lemma ChangedBottom(f: bv8, on: bool, k: bv8, j: bv8)
    requires k < 8 && j < 8
    ensures BottomAfter(Change(f, on, 1 << k), j) == if j == k then (if on then 1 else 0) else BottomAfter(f, j)
  {}

  /** Changing a bit of a byte changes that bit alone. */
  lemma ChangeBit(f: bv8, on: bool, n: nat)
    requires n < 8
    ensures ButBit(f, Change(f, on, 1 << ShiftCount(n)), n, on)
  {
    hide Change, Bit, ShiftCount;
    forall m | 0 <= m < 8
      ensures Bit(Change(f, on, 1 << ShiftCount(n)), m) == if m == n then Number(on) else Bit(f, m)
    {
      ChangedBit(f, on, n, m);
    }
  }

  /** The masks of the flags that instructions set one by one. */
  lemma Masks()
    ensures 1 << ShiftCount(0) == CARRY && 1 << ShiftCount(2) == INT_DISABLE && 1 << ShiftCount(3) == DECIMAL
    ensures 1 << ShiftCount(6) == OVERFLOW && (1 as bv8) << ShiftCount(7) == 0x80
  {
    Counts();
  }

  /** g is f with the zero and negative flags of a byte. */
  predicate Tested(f: bv8, g: bv8, b: bv8) {
    && (Bit(g, 1) == 1 <==> Value(b) == 0) && Bit(g, 7) == Bit(b, 7)
    && forall m :: 0 <= m < 8 && m != 1 && m != 7 ==> Bit(g, m) == Bit(f, m)
  }

  lemma TestedFlags(f: bv8, b: bv8)
    ensures Tested(f, TestZn(f, b), b)
  {
    forall m | 0 <= m < 8
      ensures Bit(TestZn(f, b), m) == if m == 1 then Number(b == 0) else if m == 7 then Bit(b, 7) else Bit(f, m)
    {
      TestedBit(f, b, m);
    }
    hide TestZn, Bit;
    OneNumber(b);
  }

  lemma OneNumber(b: bv8)
    ensures b == 0 <==> Value(b) == 0
  {}

  lemma TestedBit(f: bv8, b: bv8, m: nat)
    requires m < 8
    ensures Bit(TestZn(f, b), m) == if m == 1 then Number(b == 0) else if m == 7 then Bit(b, 7) else Bit(f, m)
  {
    Counts();
    TestedBottom(f, b, ShiftCount(m));
    CountsDiffer(m, 1);
    CountsDiffer(m, 7);
    hide Value, TestZn, BottomAfter, ShiftCount;
    OneBit(BitOf(TestZn(f, b), m));
  }

  lemma TestedBottom(f: bv8, b: bv8, k: bv8)
    requires k < 8
    ensures BottomAfter(TestZn(f, b), k)
         == if k == 1 then (if b == 0 then 1 else 0) else if k == 7 then BottomAfter(b, 7) else BottomAfter(f, k)
  {}

  // ---- AND, ORA and EOR --------------------------------------------------------

  lemma BothBottom(a: bv8, v: bv8, k: bv8)
    requires k < 8
    ensures BottomAfter(Both(a, v), k) == Both(BottomAfter(a, k), BottomAfter(v, k))
  {}

  lemma EitherBottom(a: bv8, v: bv8, k: bv8)
    requires k < 8
    ensures BottomAfter(Either(a, v), k) == Either(BottomAfter(a, k), BottomAfter(v, k))
  {}

  lemma DifferBottom(a: bv8, v: bv8, k: bv8)
    requires k < 8
    ensures BottomAfter(Differ(a, v), k) == Differ(BottomAfter(a, k), BottomAfter(v, k))
  {}

  lemma LogicOne(p: bv8, q: bv8)
    requires p < 2 && q < 2
    ensures Both(p, q) == 1 <==> p == 1 && q == 1
    ensures Either(p, q) == 1 <==> p == 1 || q == 1
    ensures Differ(p, q) == 1 <==> (p == 1) != (q == 1)
  {}

  lemma LogicBits(a: bv8, v: bv8, n: nat)
    requires n < 8
    ensures Bit(Both(a, v), n) == 1 <==> Bit(a, n) == 1 && Bit(v, n) == 1
    ensures Bit(Either(a, v), n) == 1 <==> Bit(a, n) == 1 || Bit(v, n) == 1
    ensures Bit(Differ(a, v), n) == 1 <==> (Bit(a, n) == 1) != (Bit(v, n) == 1)
  {
    BothBottom(a, v, ShiftCount(n));
    EitherBottom(a, v, ShiftCount(n));
    DifferBottom(a, v, ShiftCount(n));
    LogicOne(BottomAfter(a, ShiftCount(n)), BottomAfter(v, ShiftCount(n)));
    hide Both, Either, Differ, Value, BottomAfter, ShiftCount, Bit;
    BitIsOne(Both(a, v), n);
    BitIsOne(Either(a, v), n);
    BitIsOne(Differ(a, v), n);
    BitIsOne(a, n);
    BitIsOne(v, n);
  }

  /** The accumulator is combined with a byte, bit by bit, and tested. */
  predicate Combines(s: State, t: State, addr: nat, rule: (bool, bool) -> bool)
    requires addr < |s.mem|
  {
    && (forall n :: 0 <= n < 8 ==> (Bit(t.a, n) == 1 <==> rule(Bit(s.a, n) == 1, Bit(s.mem[addr], n) == 1)))
    && Tested(s.flags, t.flags, t.a) && t == s.(a := t.a, flags := t.flags)
  }

  lemma AndMeaning(s: State, addr: nat)
    requires addr < |s.mem|
    ensures Combines(s, And(s, addr), addr, (p, q) => p && q)
  {
    hide Both, TestZn, Bit, Tested;
    forall n | 0 <= n < 8
      ensures Bit(Both(s.a, s.mem[addr]), n) == 1 <==> Bit(s.a, n) == 1 && Bit(s.mem[addr], n) == 1
    {
      LogicBits(s.a, s.mem[addr], n);
    }
    TestedFlags(s.flags, Both(s.a, s.mem[addr]));
  }

  lemma OraMeaning(s: State, addr: nat)
    requires addr < |s.mem|
    ensures Combines(s, Ora(s, addr), addr, (p, q) => p || q)
  {
    hide Either, TestZn, Bit, Tested;
    forall n | 0 <= n < 8
      ensures Bit(Either(s.a, s.mem[addr]), n) == 1 <==> Bit(s.a, n) == 1 || Bit(s.mem[addr], n) == 1
    {
      LogicBits(s.a, s.mem[addr], n);
    }
    TestedFlags(s.flags, Either(s.a, s.mem[addr]));
  }

  lemma EorMeaning(s: State, addr: nat)
    requires addr < |s.mem|
    ensures Combines(s, Eor(s, addr), addr, (p, q) => p != q)
  {
    hide Differ, TestZn, Bit, Tested;
    forall n | 0 <= n < 8
      ensures Bit(Differ(s.a, s.mem[addr]), n) == 1 <==> (Bit(s.a, n) == 1) != (Bit(s.mem[addr], n) == 1)
    {
      LogicBits(s.a, s.mem[addr], n);
    }
    TestedFlags(s.flags, Differ(s.a, s.mem[addr]));
  }

  // ---- shifts ------------------------------------------------------------------

  lemma ShiftedBottom(b: bv8, on: bool, k: bv8)
    requires k < 8
    ensures BottomAfter(Change(Up(b), on, 1), k) == if k == 0 then (if on then 1 else 0) else BottomAfter(b, k - 1)
    ensures BottomAfter(Change(Down(b), on, 0x80), k) == if k == 7 then (if on then 1 else 0) else BottomAfter(b, k + 1)
  {}

  lemma ShiftedBits(b: bv8, on: bool, n: nat)
    requires n < 8
    ensures Bit(Change(Up(b), on, 1), n) == if n == 0 then Number(on) else Bit(b, n - 1)
    ensures Bit(Change(Down(b), on, 0x80), n) == if n == 7 then Number(on) else Bit(b, n + 1)
  {
    ShiftedBottom(b, on, ShiftCount(n));
    Counts();
    if n < 7 { NextCount(n); }
    if n > 0 { NextCount(n - 1); }
    CountsDiffer(n, 0);
    CountsDiffer(n, 7);
    hide Value, Change, Up, Down, BottomAfter, ShiftCount;
    OneBit(BitOf(Change(Up(b), on, 1), n));
    OneBit(BitOf(Change(Down(b), on, 0x80), n));
  }

  lemma NothingIn(b: bv8)
    ensures Change(Up(b), false, 1) == Up(b) && Change(Down(b), false, 0x80) == Down(b)
  {}

  /** The carry and then the tests of a shifted byte. */
  lemma CarryAndTest(f: bv8, on: bool, v: bv8)
    ensures var g := TestZn(Change(f, on, CARRY), v);
      && Bit(g, 0) == Number(on) && (Bit(g, 1) == 1 <==> Value(v) == 0) && Bit(g, 7) == Bit(v, 7)
      && forall m :: 2 <= m < 7 ==> Bit(g, m) == Bit(f, m)
  {
    Masks();
    ChangeBit(f, on, 0);
    hide Change, TestZn, Bit, ShiftCount;
    TestedFlags(Change(f, on, CARRY), v);
  }

  /** A byte moves up by one place: `low` comes in at the bottom and bit 7 becomes the
      carry. */
  predicate MovesUp(s: State, t: State, addr: nat, low: nat)
    requires addr < |s.mem| == |t.mem|
  {
    && t.mem == s.mem[addr := t.mem[addr]] && Bit(t.mem[addr], 0) == low
    && (forall n :: 1 <= n < 8 ==> Bit(t.mem[addr], n) == Bit(s.mem[addr], n - 1))
    && Bit(t.flags, 0) == Bit(s.mem[addr], 7)
  }

  /** A byte moves down by one place: `high` comes in on top and bit 0 becomes the carry. */
  predicate MovesDown(s: State, t: State, addr: nat, high: nat)
    requires addr < |s.mem| == |t.mem|
  {
    && t.mem == s.mem[addr := t.mem[addr]] && Bit(t.mem[addr], 7) == high
    && (forall n :: 0 <= n < 7 ==> Bit(t.mem[addr], n) == Bit(s.mem[addr], n + 1))
    && Bit(t.flags, 0) == Bit(s.mem[addr], 0)
  }

  /** Zero and negative of the byte that was written; all flags but these and the carry,
      and all registers, stay. */
  predicate Written(s: State, t: State, addr: nat)
    requires addr < |t.mem|
  {
    && (Bit(t.flags, 1) == 1 <==> Value(t.mem[addr]) == 0) && Bit(t.flags, 7) == Bit(t.mem[addr], 7)
    && (forall m :: 2 <= m < 7 ==> Bit(t.flags, m) == Bit(s.flags, m))
    && t == s.(mem := t.mem, flags := t.flags)
  }

  lemma TopAndBottom(b: bv8)
    ensures Number(Flag(b, 0x80)) == Bit(b, 7) && Number(Flag(b, 1)) == Bit(b, 0)
  {
    hide Flag, Bit;
    FlagBits(b);
  }

  lemma UpMeaning(s: State, addr: nat, low: bool)
    requires addr < |s.mem|
    ensures var t := Modify(s, addr, Change(s.flags, Flag(s.mem[addr], 0x80), CARRY), Change(Up(s.mem[addr]), low, 1));
      MovesUp(s, t, addr, Number(low)) && Written(s, t, addr)
  {
    hide Flag, Change, TestZn, Up, Bit, Value;
    var b := s.mem[addr];
    forall n | 0 <= n < 8 ensures Bit(Change(Up(b), low, 1), n) == if n == 0 then Number(low) else Bit(b, n - 1) {
      ShiftedBits(b, low, n);
    }
    TopAndBottom(b);
    CarryAndTest(s.flags, Flag(b, 0x80), Change(Up(b), low, 1));
  }

  lemma DownMeaning(s: State, addr: nat, high: bool)
    requires addr < |s.mem|
    ensures var t := Modify(s, addr, Change(s.flags, Flag(s.mem[addr], 1), CARRY),
                            Change(Down(s.mem[addr]), high, 0x80));
      MovesDown(s, t, addr, Number(high)) && Written(s, t, addr)
  {
    hide Flag, Change, TestZn, Down, Bit, Value;
    var b := s.mem[addr];
    forall n | 0 <= n < 8
      ensures Bit(Change(Down(b), high, 0x80), n) == if n == 7 then Number(high) else Bit(b, n + 1)
    {
      ShiftedBits(b, high, n);
    }
    TopAndBottom(b);
    CarryAndTest(s.flags, Flag(b, 1), Change(Down(b), high, 0x80));
  }

  lemma AslMeaning(s: State, addr: nat)
    requires addr < |s.mem|
    ensures MovesUp(s, Asl(s, addr), addr, 0) && Written(s, Asl(s, addr), addr)
  {
    hide Flag, Change, Up, Modify, MovesUp, Written;
    NothingIn(s.mem[addr]);
    UpMeaning(s, addr, false);
  }

  lemma LsrMeaning(s: State, addr: nat)
    requires addr < |s.mem|
    ensures MovesDown(s, Lsr(s, addr), addr, 0) && Written(s, Lsr(s, addr), addr)
  {
    hide Flag, Change, Down, Modify, MovesDown, Written;
    NothingIn(s.mem[addr]);
    DownMeaning(s, addr, false);
  }

  lemma RolBits(s: State, addr: nat)
    requires addr < |s.mem|
    ensures MovesUp(s, Rol(s, addr), addr, Bit(s.flags, 0)) && Written(s, Rol(s, addr), addr)
  {
    hide Flag, Change, Up, Modify, MovesUp, Written, Bit;
    FlagBits(s.flags);
    UpMeaning(s, addr, Flag(s.flags, CARRY));
  }

  lemma RorBits(s: State, addr: nat)
    requires addr < |s.mem|
    ensures MovesDown(s, Ror(s, addr), addr, Bit(s.flags, 0)) && Written(s, Ror(s, addr), addr)
  {
    hide Flag, Change, Down, Modify, MovesDown, Written, Bit;
    FlagBits(s.flags);
    DownMeaning(s, addr, Flag(s.flags, CARRY));
  }

  // ---- increment, decrement ------------------------------------------------------

  lemma NextNumber(b: bv8)
    ensures Value(Next(b)) == (Value(b) + 1) % 256 && Value(Previous(b)) == (Value(b) + 255) % 256
  {
    NextByte(b);
    PreviousByte(b);
  }

  lemma NextByte(b: bv8)
    ensures Value(Next(b)) == if Value(b) == 255 then 0 else Value(b) + 1
  {}

  lemma PreviousByte(b: bv8)
    ensures Value(Previous(b)) == if Value(b) == 0 then 255 else Value(b) - 1
  {}

  lemma IncMeaning(s: State, addr: nat)
    requires addr < |s.mem|
    ensures var t := Inc(s, addr);
      && Value(t.mem[addr]) == (Value(s.mem[addr]) + 1) % 256 && t.mem == s.mem[addr := t.mem[addr]]
      && Written(s, t, addr) && Bit(t.flags, 0) == Bit(s.flags, 0)
  {
    hide TestZn, Next, Bit, Value;
    NextNumber(s.mem[addr]);
    TestedFlags(s.flags, Next(s.mem[addr]));
  }

  lemma DecMeaning(s: State, addr: nat)
    requires addr < |s.mem|
    ensures var t := Dec(s, addr);
      && Value(t.mem[addr]) == (Value(s.mem[addr]) + 255) % 256 && t.mem == s.mem[addr := t.mem[addr]]
      && Written(s, t, addr) && Bit(t.flags, 0) == Bit(s.flags, 0)
  {
    hide TestZn, Previous, Bit, Value;
    NextNumber(s.mem[addr]);
    TestedFlags(s.flags, Previous(s.mem[addr]));
  }

  // ---- two instructions in one -------------------------------------------------

  /** The byte in memory after the first half combines with the accumulator; zero and
      negative are those of the accumulator, and everything but carry, byte and accumulator
      stays. */
  predicate CombinesMoved(s: State, t: State, addr: nat, rule: (bool, bool) -> bool)
    requires addr < |t.mem|
  {
    && (forall n :: 0 <= n < 8 ==> (Bit(t.a, n) == 1 <==> rule(Bit(s.a, n) == 1, Bit(t.mem[addr], n) == 1)))
    && (Bit(t.flags, 1) == 1 <==> Value(t.a) == 0) && Bit(t.flags, 7) == Bit(t.a, 7)
    && (forall m :: 2 <= m < 7 ==> Bit(t.flags, m) == Bit(s.flags, m))
    && t == s.(a := t.a, mem := t.mem, flags := t.flags)
  }

  /** RLA: the byte is rotated up through the carry and and-ed into the accumulator. */
  lemma RlaMeaning(s: State, addr: nat)
    requires addr < |s.mem|
    ensures var t := And(Rol(s, addr), addr);
      MovesUp(s, t, addr, Bit(s.flags, 0)) && CombinesMoved(s, t, addr, (p, q) => p && q)
  {
    hide And, Rol, Bit, Value;
    RolBits(s, addr);
    AndMeaning(Rol(s, addr), addr);
  }

  /** SLO: the byte is shifted up and or-ed into the accumulator. */
  lemma SloMeaning(s: State, addr: nat)
    requires addr < |s.mem|
    ensures var t := Ora(Asl(s, addr), addr);
      MovesUp(s, t, addr, 0) && CombinesMoved(s, t, addr, (p, q) => p || q)
  {
    hide Ora, Asl, Bit, Value;
    AslMeaning(s, addr);
    OraMeaning(Asl(s, addr), addr);
  }

  /** SRE: the byte is shifted down and exclusive-or-ed into the accumulator. */
  lemma SreMeaning(s: State, addr: nat)
    requires addr < |s.mem|
    ensures var t := Eor(Lsr(s, addr), addr);
      MovesDown(s, t, addr, 0) && CombinesMoved(s, t, addr, (p, q) => p != q)
  {
    hide Eor, Lsr, Bit, Value;
    LsrMeaning(s, addr);
    EorMeaning(Lsr(s, addr), addr);
  }

  /** DCP: the byte is decremented and compared with the accumulator. */
  lemma DcpMeaning(s: State, addr: nat)
    requires addr < |s.mem|
    ensures var t := Cmp(Dec(s, addr), addr);
      && Value(t.mem[addr]) == (Value(s.mem[addr]) + 255) % 256 && t.mem == s.mem[addr := t.mem[addr]]
      && (Bit(t.flags, 0) == 1 <==> Value(s.a) >= Value(t.mem[addr]))
      && (Bit(t.flags, 1) == 1 <==> s.a == t.mem[addr]) && t.a == s.a
  {
    hide Dec, Flag, Bit, Value, Change, TestZn, AtLeast, Minus;
    DecMeaning(s, addr);
    CmpMeaning(Dec(s, addr), addr);
    FlagBits(Cmp(Dec(s, addr), addr).flags);
  }

  // ---- interrupts and the stack ------------------------------------------------

  /** What an interrupt stacks of the flags: bit 4 tells BRK from the interrupts, all
      others are the flags. */
  lemma StackedFlags(f: bv8)
    ensures ButBit(f, WithBreak(f), 4, true) && ButBit(f, WithoutBreak(f), 4, false)
  {
    forall n | 0 <= n < 8
      ensures Bit(WithBreak(f), n) == if n == 4 then 1 else Bit(f, n)
      ensures Bit(WithoutBreak(f), n) == if n == 4 then 0 else Bit(f, n)
    {
      StackedBit(f, n);
    }
  }

  lemma StackedBit(f: bv8, n: nat)
    requires n < 8
    ensures Bit(WithBreak(f), n) == if n == 4 then 1 else Bit(f, n)
    ensures Bit(WithoutBreak(f), n) == if n == 4 then 0 else Bit(f, n)
  {
    StackedBottom(f, ShiftCount(n));
    Counts();
    CountsDiffer(n, 4);
    hide Value, WithBreak, WithoutBreak, BottomAfter, ShiftCount;
    OneBit(BitOf(WithBreak(f), n));
    OneBit(BitOf(WithoutBreak(f), n));
  }

  lemma StackedBottom(f: bv8, k: bv8)
    requires k < 8
    ensures BottomAfter(WithBreak(f), k) == if k == 4 then 1 else BottomAfter(f, k)
    ensures BottomAfter(WithoutBreak(f), k) == if k == 4 then 0 else BottomAfter(f, k)
  {}

  /** Entering an interrupt: program counter and flags lie in page one, the pointer is three
      below, interrupts are disabled, and execution goes on at the address stored, low byte
      first, in the vector. */
  lemma InterruptMeaning(s: State, vector: nat, brk: bool)
    requires Valid(s) && 0x200 <= vector && vector + 1 < MEMORY
    ensures var t := EnterIsr(s, vector, brk);
      && t.pc == Value(s.mem[vector]) + 256 * Value(s.mem[vector + 1])
      && Value(t.sp) == (Value(s.sp) + 253) % 256
      && Value(t.mem[0x100 + Value(s.sp)]) == s.pc / 256
      && Value(t.mem[0x100 + (Value(s.sp) + 255) % 256]) == s.pc % 256
      && ButBit(s.flags, t.mem[0x100 + (Value(s.sp) + 254) % 256], 4, brk)
      && ButBit(s.flags, t.flags, 2, true) && t == s.(mem := t.mem, sp := t.sp, flags := t.flags, pc := t.pc)
  {
    Masks();
    ChangeBit(s.flags, true, 2);
    StackedFlags(s.flags);
    EnteredParts(s, vector, brk);
    HalvesOf(s.pc);
    hide EnterIsr, Value, Change, WithBreak, WithoutBreak, High8, Low8, Previous, ButBit, Flag, ShiftCount;
  }

  lemma HalvesOf(pc: nat)
    requires pc < MEMORY
    ensures Value(High8(pc)) == pc / 256 && Value(Low8(pc)) == pc % 256
  {
    hide Value, Byte;
    assert pc / 256 % 256 == pc / 256;
  }

  /** The bytes an interrupt stacks, where they lie, and where it goes. */
  lemma EnteredParts(s: State, vector: nat, brk: bool)
    requires Valid(s) && 0x200 <= vector && vector + 1 < MEMORY
    ensures var t := EnterIsr(s, vector, brk);
      && t.pc == Value(s.mem[vector]) + 256 * Value(s.mem[vector + 1])
      && Value(t.sp) == (Value(s.sp) + 253) % 256
      && t.mem[0x100 + Value(s.sp)] == High8(s.pc)
      && t.mem[0x100 + (Value(s.sp) + 255) % 256] == Low8(s.pc)
      && t.mem[0x100 + (Value(s.sp) + 254) % 256] == (if brk then WithBreak(s.flags) else WithoutBreak(s.flags))
      && t == s.(mem := t.mem, sp := t.sp, flags := Change(s.flags, true, INT_DISABLE), pc := t.pc)
  {
    hide Value, Change, WithBreak, WithoutBreak, High8, Low8, Previous, Flag;
    ThreeDown(s.sp);
    ThreeApart(Value(s.sp));
  }

  lemma ThreeApart(n: nat)
    requires n < 256
    ensures n != (n + 255) % 256 && n != (n + 254) % 256 && (n + 255) % 256 != (n + 254) % 256
  {}

  lemma ThreeDown(sp: bv8)
    ensures var p, q := Previous(sp), Previous(Previous(sp));
      && Value(p) == (Value(sp) + 255) % 256 && Value(q) == (Value(sp) + 254) % 256
      && Value(Previous(q)) == (Value(sp) + 253) % 256
  {
    hide Value, Previous;
    NextNumber(sp);
    NextNumber(Previous(sp));
    NextNumber(Previous(Previous(sp)));
  }

  /** Above page one an interrupt changes nothing. */
  lemma MemoryKept(s: State, vector: nat, brk: bool)
    requires Valid(s) && vector + 1 < MEMORY
    ensures var t := EnterIsr(s, vector, brk);
      Valid(t) && forall a :: 0x200 <= a < MEMORY ==> t.mem[a] == s.mem[a]
  {
    hide Value, Change, WithBreak, WithoutBreak, High8, Low8, Previous, Flag, Address;
    RestoredFlags(s.flags);
  }

  /** The three vectors. */
  lemma VectorsTaken(s: State)
    requires Valid(s)
    ensures EnterIsr(s, NMI_VECTOR, false).pc == Value(s.mem[0xFFFA]) + 256 * Value(s.mem[0xFFFB])
    ensures forall brk :: EnterIsr(s, IRQ_VECTOR, brk).pc == Value(s.mem[0xFFFE]) + 256 * Value(s.mem[0xFFFF])
  {
    hide Value, EnterIsr, Flag, ButBit;
    InterruptMeaning(s, NMI_VECTOR, false);
    InterruptMeaning(s, IRQ_VECTOR, true);
    InterruptMeaning(s, IRQ_VECTOR, false);
  }
}
