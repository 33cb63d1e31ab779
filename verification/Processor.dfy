/** The processor's instruction methods. Each plain instruction is proved against its
    state function; each undocumented one against the composition of two of them. */
module Processor {
  import opened Bits
  import opened Cpu
  import opened InstructionLaws

  class Cpu6502 {
    var a: bv8
    var x: bv8
    var y: bv8
    var sp: bv8
    var flags: bv8
    var pc: nat
    /** The flat memory behind the read and write callbacks. */
    var memory: seq<bv8>
    /** Whether this flavour of the chip has a decimal mode. */
    const decimalCapable: bool
    var intDelay: bool
    var nmiPending: bool
    var irqPending: bool

    function Snapshot(): State
      reads this
    {
      State(a, x, y, sp, flags, pc, memory)
    }

    predicate Ok()
      reads this
    {
      Valid(Snapshot())
    }

    constructor (memory: seq<bv8>, decimalCapable: bool)
      requires |memory| == MEMORY
      ensures Ok() && this.memory == memory && this.decimalCapable == decimalCapable
      ensures pc == Value(memory[0xFFFC]) + 256 * Value(memory[0xFFFD])
      ensures sp == 0xFD && flags == 0x34 && a == x == y == 0 && !intDelay && !nmiPending && !irqPending
    {
      this.memory, this.decimalCapable := memory, decimalCapable;
      a, x, y, sp, flags, intDelay := 0, 0, 0, 0xFD, 0x34, false;
      nmiPending, irqPending := false, false;
      pc := Address(memory[0xFFFC], memory[0xFFFD]);
    }

    function Read(addr: nat): bv8
      requires addr < |memory|
      reads this`memory
    {
      memory[addr]
    }

    method Write(addr: nat, value: bv8)
      requires addr < |memory|
      modifies this`memory
      ensures memory == old(memory)[addr := value]
    {
      memory := memory[addr := value];
    }

    method SetCarry(on: bool)
      requires Ok()
      modifies this`flags
      ensures Ok() && flags == Change(old(flags), on, CARRY)
    {
      FlagsKeepUnused(flags, on, on, 0);
      flags := Change(flags, on, CARRY);
    }

    method SetOverflow(on: bool)
      modifies this`flags
      ensures flags == Change(old(flags), on, OVERFLOW)
    {
      flags := Change(flags, on, OVERFLOW);
    }

    method TestZnOf(value: bv8)
      modifies this`flags
      ensures flags == TestZn(old(flags), value)
    {
      flags := TestZn(flags, value);
    }

    /** The zero and negative flags of a value, on their own. */
    method Test(value: bv8)
      requires Ok()
      modifies this`flags
      ensures Ok() && flags == TestZn(old(flags), value)
    {
      hide Flag, TestZn;
      FlagsKeepUnused(flags, true, true, value);
      TestZnOf(value);
    }

    /** Any flag but bit 5. */
    method SetFlag(mask: bv8, on: bool)
      requires Ok() && mask & UNUSED == 0
      modifies this`flags
      ensures Ok() && flags == Change(old(flags), on, mask)
    {
      ChangeKeepsUnused(flags, on, mask);
      hide Flag, Change;
      flags := Change(flags, on, mask);
    }

    method Move(a: bv8, x: bv8, y: bv8, sp: bv8)
      requires Ok()
      modifies this`a, this`x, this`y, this`sp
      ensures Ok() && Snapshot() == old(Snapshot()).(a := a, x := x, y := y, sp := sp)
    {
      hide Flag;
      this.a, this.x, this.y, this.sp := a, x, y, sp;
    }

    method Store(addr: nat, value: bv8)
      requires Ok() && addr < MEMORY
      modifies this`memory
      ensures Ok() && Snapshot() == old(Snapshot()).(mem := old(memory)[addr := value])
    {
      hide Flag;
      Write(addr, value);
    }

    method Jump(target: nat)
      requires Ok() && target < MEMORY
      modifies this`pc
      ensures Ok() && Snapshot() == old(Snapshot()).(pc := target)
    {
      hide Flag;
      pc := target;
    }

    predicate DecimalOn()
      reads this`flags
    {
      decimalCapable && Flag(flags, DECIMAL)
    }

    /** Sum of the accumulator and a byte, in the current mode; sets the carry. */
    method AddByte(value: bv8) returns (result8: bv8)
      modifies this`flags
      ensures var r := if old(DecimalOn()) then AddDecimal(a, value, old(Flag(flags, CARRY)))
                       else AddBinary(a, value, old(Flag(flags, CARRY)));
        result8 == r.result && flags == Change(old(flags), r.carry, CARRY)
    {
      hide Value, Byte, Flag, Change;
      if !DecimalOn() {
        var result16 := Value(a) + Value(value) + Number(Flag(flags, CARRY));
        flags := Change(flags, result16 > 255, CARRY);
        result8 := Byte(result16 % 256);
      } else {
        result8 := AddDigits(value);
      }
    }

    method AddDigits(value: bv8) returns (result8: bv8)
      modifies this`flags
      ensures var r := AddDecimal(a, value, old(Flag(flags, CARRY)));
        result8 == r.result && flags == Change(old(flags), r.carry, CARRY)
    {
      hide LowDigit, HighDigit, Byte, Flag, Change;
      var lo := LowDigit(value) + LowDigit(a) + Number(Flag(flags, CARRY));
      var hi := 16 * HighDigit(value) + 16 * HighDigit(a);
      var bcdCarry := false;
      if lo > 9 {
        lo := lo - 10;
        hi := hi + 0x10;
      }
      assert hi == DigitsHigh(LowDigit(a), HighDigit(a), LowDigit(value), HighDigit(value), Number(Flag(flags, CARRY)));
      assert lo % 16 == DigitsLow(LowDigit(a), LowDigit(value), Number(Flag(flags, CARRY)));
      if hi > 0x90 {
        hi := hi - 0xA0;
        bcdCarry := true;
      }
      flags := Change(flags, bcdCarry, CARRY);
      result8 := Byte((hi + lo % 16) % 256);
    }

    method Adc(addr: nat)
      requires Ok() && addr < MEMORY
      modifies this`a, this`flags
      ensures Ok() && Snapshot() == Cpu.Adc(old(Snapshot()), addr, decimalCapable)
    {
      hide Flag, Added, Subtracted;
      ArithmeticKeepsUnused(a, flags, Read(addr), DecimalOn());
      AddValue(Read(addr));
    }

    /** The part of an addition after the operand has been read. */
    method AddValue(value: bv8)
      modifies this`a, this`flags
      ensures Outcome(a, flags) == Added(old(a), old(flags), value, old(DecimalOn()))
    {
      hide Flag, Change, TestZn, AddOverflows, AddDecimal, AddBinary;
      var result8 := AddByte(value);
      SetOverflow(AddOverflows(a, value, result8));
      TestZnOf(result8);
      a := result8;
    }

    method Sbc(addr: nat)
      requires Ok() && addr < MEMORY
      modifies this`a, this`flags
      ensures Ok() && Snapshot() == Cpu.Sbc(old(Snapshot()), addr, decimalCapable)
    {
      hide Flag, Added, Subtracted;
      ArithmeticKeepsUnused(a, flags, Read(addr), DecimalOn());
      var _ := SubtractValue(Read(addr));
    }

    /** The part of a subtraction after the operand has been read. In decimal mode the
        operand is replaced by its complement. */
    method SubtractValue(operand: bv8) returns (value: bv8)
      modifies this`a, this`flags
      ensures value == if old(DecimalOn()) then NinesComplement(operand) else operand
      ensures Outcome(a, flags) == Subtracted(old(a), old(flags), operand, old(DecimalOn()))
    {
      hide Flag, Change, TestZn, SubOverflows, AddDecimal, Value, Byte, NinesComplement;
      value := operand;
      var result8;
      if !DecimalOn() {
        var result16 := Value(a) - Value(value) - Number(!Flag(flags, CARRY));
        flags := Change(flags, result16 >= 0, CARRY);
        result8 := Byte(result16 % 256);
      } else {
        value := NinesComplement(value);
        result8 := AddDigits(value);
      }
      SetOverflow(SubOverflows(a, value, result8));
      TestZnOf(result8);
      a := result8;
    }

    method And(addr: nat)
      requires Ok() && addr < MEMORY
      modifies this`a, this`flags
      ensures Ok() && Snapshot() == Cpu.And(old(Snapshot()), addr)
    {
      hide Flag, Change, TestZn, Up, Down, Next, Previous, Minus, AtLeast, Both, Either, Differ, NinesComplement;
      var val := Read(addr);
      FlagsKeepUnused(flags, true, true, Both(a, val));
      a := Both(a, val);
      TestZnOf(a);
    }

    method Ora(addr: nat)
      requires Ok() && addr < MEMORY
      modifies this`a, this`flags
      ensures Ok() && Snapshot() == Cpu.Ora(old(Snapshot()), addr)
    {
      hide Flag, Change, TestZn, Up, Down, Next, Previous, Minus, AtLeast, Both, Either, Differ, NinesComplement;
      var val := Read(addr);
      FlagsKeepUnused(flags, true, true, Either(a, val));
      a := Either(a, val);
      TestZnOf(a);
    }

    method Eor(addr: nat)
      requires Ok() && addr < MEMORY
      modifies this`a, this`flags
      ensures Ok() && Snapshot() == Cpu.Eor(old(Snapshot()), addr)
    {
      hide Flag, Change, TestZn, Up, Down, Next, Previous, Minus, AtLeast, Both, Either, Differ, NinesComplement;
      var val := Read(addr);
      FlagsKeepUnused(flags, true, true, Differ(a, val));
      a := Differ(a, val);
      TestZnOf(a);
    }

    method Cmp(addr: nat)
      requires Ok() && addr < MEMORY
      modifies this`flags
      ensures Ok() && Snapshot() == Cpu.Cmp(old(Snapshot()), addr)
    {
      hide Flag, Change, TestZn, Up, Down, Next, Previous, Minus, AtLeast, Both, Either, Differ, NinesComplement;
      var val := Read(addr);
      var result := Minus(a, val);
      SetCarry(AtLeast(a, val));
      FlagsKeepUnused(flags, true, true, result);
      TestZnOf(result);
    }

    method Inc(addr: nat)
      requires Ok() && addr < MEMORY
      modifies this`memory, this`flags
      ensures Ok() && Snapshot() == Cpu.Inc(old(Snapshot()), addr)
    {
      hide Flag, Change, TestZn, Up, Down, Next, Previous, Minus, AtLeast, Both, Either, Differ, NinesComplement;
      var val := Read(addr);
      Write(addr, val);
      val := Next(val);
      FlagsKeepUnused(flags, true, true, val);
      TestZnOf(val);
      Write(addr, val);
    }

    method Dec(addr: nat)
      requires Ok() && addr < MEMORY
      modifies this`memory, this`flags
      ensures Ok() && Snapshot() == Cpu.Dec(old(Snapshot()), addr)
    {
      hide Flag, Change, TestZn, Up, Down, Next, Previous, Minus, AtLeast, Both, Either, Differ, NinesComplement;
      var val := Read(addr);
      Write(addr, val);
      val := Previous(val);
      FlagsKeepUnused(flags, true, true, val);
      TestZnOf(val);
      Write(addr, val);
    }

    method Asl(addr: nat)
      requires Ok() && addr < MEMORY
      modifies this`memory, this`flags
      ensures Ok() && Snapshot() == Cpu.Asl(old(Snapshot()), addr)
    {
      hide Flag, Change, TestZn, Up, Down, Next, Previous, Minus, AtLeast, Both, Either, Differ, NinesComplement;
      var val := Read(addr);
      Write(addr, val);
      SetCarry(Flag(val, 0x80));
      val := Up(val);
      FlagsKeepUnused(flags, true, true, val);
      TestZnOf(val);
      Write(addr, val);
    }

    method Lsr(addr: nat)
      requires Ok() && addr < MEMORY
      modifies this`memory, this`flags
      ensures Ok() && Snapshot() == Cpu.Lsr(old(Snapshot()), addr)
    {
      hide Flag, Change, TestZn, Up, Down, Next, Previous, Minus, AtLeast, Both, Either, Differ, NinesComplement;
      var val := Read(addr);
      Write(addr, val);
      SetCarry(Flag(val, 1));
      val := Down(val);
      FlagsKeepUnused(flags, true, true, val);
      TestZnOf(val);
      Write(addr, val);
    }

    method Rol(addr: nat)
      requires Ok() && addr < MEMORY
      modifies this`memory, this`flags
      ensures Ok() && Snapshot() == Cpu.Rol(old(Snapshot()), addr)
    {
      hide Flag, Change, TestZn, Up, Down, Next, Previous, Minus, AtLeast, Both, Either, Differ, NinesComplement;
      var val := Read(addr);
      Write(addr, val);
      var oldCarry := Flag(flags, CARRY);
      SetCarry(Flag(val, 0x80));
      val := Up(val);
      val := Change(val, oldCarry, 1);
      FlagsKeepUnused(flags, true, true, val);
      TestZnOf(val);
      Write(addr, val);
    }

    method Ror(addr: nat)
      requires Ok() && addr < MEMORY
      modifies this`memory, this`flags
      ensures Ok() && Snapshot() == Cpu.Ror(old(Snapshot()), addr)
    {
      hide Flag, Change, TestZn, Up, Down, Next, Previous, Minus, AtLeast, Both, Either, Differ, NinesComplement;
      var val := Read(addr);
      Write(addr, val);
      var oldCarry := Flag(flags, CARRY);
      SetCarry(Flag(val, 1));
      val := Down(val);
      val := Change(val, oldCarry, 0x80);
      FlagsKeepUnused(flags, true, true, val);
      TestZnOf(val);
      Write(addr, val);
    }

    method Lda(addr: nat)
      requires Ok() && addr < MEMORY
      modifies this`a, this`flags
      ensures Ok() && Snapshot() == Cpu.Lda(old(Snapshot()), addr)
    {
      hide Flag, Change, TestZn, Up, Down, Next, Previous, Minus, AtLeast, Both, Either, Differ, NinesComplement;
      FlagsKeepUnused(flags, true, true, Read(addr));
      a := Read(addr);
      TestZnOf(a);
    }

    method Sta(addr: nat)
      requires Ok() && addr < MEMORY
      modifies this`memory
      ensures Ok() && Snapshot() == Cpu.Sta(old(Snapshot()), addr)
    {
      Write(addr, a);
    }

    method Clc()
      requires Ok()
      modifies this`flags
      ensures Ok() && Snapshot() == Cpu.WithCarry(old(Snapshot()), false)
    {
      SetCarry(false);
    }

    method Sec()
      requires Ok()
      modifies this`flags
      ensures Ok() && Snapshot() == Cpu.WithCarry(old(Snapshot()), true)
    {
      SetCarry(true);
    }

    // ---- stack and interrupts ----------------------------------------------------

    method Push(value: bv8)
      requires Ok()
      modifies this`memory, this`sp
      ensures Ok() && Snapshot() == PushByte(old(Snapshot()), value)
    {
      Write(0x100 + Value(sp), value);
      sp := Previous(sp);
    }

    method Pop() returns (value: bv8)
      requires Ok()
      modifies this`sp
      ensures Ok() && Snapshot() == PopByte(old(Snapshot())) && value == TopByte(old(Snapshot()))
    {
      sp := Next(sp);
      value := Read(0x100 + Value(sp));
    }

    method Jsr(target: nat)
      requires Ok() && target < MEMORY
      modifies this`memory, this`sp, this`pc
      ensures Ok() && Snapshot() == Cpu.Jsr(old(Snapshot()), target)
    {
      hide PushByte;
      var ret := (pc + MEMORY - 1) % MEMORY;
      Push(High8(ret));
      Push(Low8(ret));
      KeepsPc(old(Snapshot()), High8(ret), Low8(ret));
      pc := target;
    }

    method Rts()
      requires Ok()
      modifies this`sp, this`pc
      ensures Ok() && Snapshot() == Cpu.Rts(old(Snapshot()))
    {
      var low := Pop();
      var high := Pop();
      pc := (Address(low, high) + 1) % MEMORY;
    }

    method SwitchToIsr(vector: nat, brk: bool)
      requires Ok() && vector + 1 < MEMORY
      modifies this`memory, this`sp, this`pc, this`flags
      ensures Ok() && Snapshot() == EnterIsr(old(Snapshot()), vector, brk)
    {
      hide Flag, Change, WithBreak, WithoutBreak, Restored, Value, High8, Low8, Address, Previous;
      Push(High8(pc));
      Push(Low8(pc));
      if brk {
        Push(WithBreak(flags));
      } else {
        Push(WithoutBreak(flags));
      }
      var low := Read(vector);
      RestoredFlags(flags);
      flags := Change(flags, true, INT_DISABLE);
      pc := Address(low, Read(vector + 1));
    }

    /** A two-byte instruction: the byte after the opcode is skipped. */
    method Brk()
      requires Ok()
      modifies this`memory, this`sp, this`pc, this`flags
      ensures Ok() && Snapshot() == EnterIsr(old(Snapshot()).(pc := (old(pc) + 1) % MEMORY), IRQ_VECTOR, true)
      ensures pc == Value(old(memory)[0xFFFE]) + 256 * Value(old(memory)[0xFFFF])
    {
      hide EnterIsr, Value, Flag;
      VectorsTaken(Snapshot().(pc := (pc + 1) % MEMORY));
      pc := (pc + 1) % MEMORY;
      SwitchToIsr(IRQ_VECTOR, true);
    }

    method Rti()
      requires Ok()
      modifies this`sp, this`pc, this`flags
      ensures Ok() && Snapshot() == Cpu.Rti(old(Snapshot()))
    {
      hide Flag, Restored, Address, Value, Next;
      var saved := Pop();
      RestoredFlags(saved);
      flags := Restored(saved);
      var low := Pop();
      var high := Pop();
      pc := Address(low, high);
    }

    method Pha()
      requires Ok()
      modifies this`memory, this`sp
      ensures Ok() && Snapshot() == PushByte(old(Snapshot()), old(a))
    {
      Push(a);
    }

    method Pla()
      requires Ok()
      modifies this`sp, this`a, this`flags
      ensures Ok() && a == TopByte(old(Snapshot())) && flags == TestZn(old(flags), a)
      ensures Snapshot() == PopByte(old(Snapshot())).(a := a, flags := flags)
    {
      hide Flag, TestZn, TopByte;
      a := Pop();
      FlagsKeepUnused(flags, true, true, a);
      TestZnOf(a);
    }

    method Php()
      requires Ok()
      modifies this`memory, this`sp
      ensures Ok() && Snapshot() == PushByte(old(Snapshot()), WithBreak(old(flags)))
    {
      Push(WithBreak(flags));
    }

    /** Bit 5 is set whatever was stacked; interrupts wait for one more instruction. */
    method Plp()
      requires Ok()
      modifies this`sp, this`flags, this`intDelay
      ensures Ok() && flags == TopByte(old(Snapshot())) | 0x20 && intDelay
      ensures Snapshot() == PopByte(old(Snapshot())).(flags := flags)
    {
      var saved := Pop();
      flags := saved | 0x20;
      intDelay := true;
    }

    method Cli()
      requires Ok()
      modifies this`flags, this`intDelay
      ensures Ok() && flags == Change(old(flags), false, INT_DISABLE) && intDelay
    {
      flags := Change(flags, false, INT_DISABLE);
      intDelay := true;
    }

    method Sei()
      requires Ok()
      modifies this`flags, this`intDelay
      ensures Ok() && flags == Change(old(flags), true, INT_DISABLE) && intDelay
    {
      flags := Change(flags, true, INT_DISABLE);
      intDelay := true;
    }

    method Sed()
      requires Ok()
      modifies this`flags
      ensures Ok() && flags == Change(old(flags), true, DECIMAL)
    {
      flags := Change(flags, true, DECIMAL);
    }

    method Cld()
      requires Ok()
      modifies this`flags
      ensures Ok() && flags == Change(old(flags), false, DECIMAL)
    {
      flags := Change(flags, false, DECIMAL);
    }

    /** After an instruction: a pending NMI is taken first, and a pending IRQ right
        behind it, whatever the NMI entry did to the interrupt flag. */
    method TakeInterrupts()
      requires Ok()
      modifies this`memory, this`sp, this`pc, this`flags, this`nmiPending, this`irqPending
      ensures Ok()
      ensures Snapshot() == AfterPoll(old(Snapshot()), !intDelay && old(nmiPending), !intDelay && old(irqPending))
      ensures nmiPending == (intDelay && old(nmiPending)) && irqPending == (intDelay && old(irqPending))
      ensures !intDelay && old(irqPending) ==> pc == Value(old(memory)[0xFFFE]) + 256 * Value(old(memory)[0xFFFF])
      ensures !intDelay && old(nmiPending) && !old(irqPending) ==>
        pc == Value(old(memory)[0xFFFA]) + 256 * Value(old(memory)[0xFFFB])
    {
      hide AfterPoll, Value, Flag;
      PollTaken(Snapshot());
      ServePending();
    }

    method ServePending()
      requires Ok()
      modifies this`memory, this`sp, this`pc, this`flags, this`nmiPending, this`irqPending
      ensures Ok()
      ensures Snapshot() == AfterPoll(old(Snapshot()), !intDelay && old(nmiPending), !intDelay && old(irqPending))
      ensures nmiPending == (intDelay && old(nmiPending)) && irqPending == (intDelay && old(irqPending))
    {
      hide EnterIsr;
      if !intDelay {
        if nmiPending {
          nmiPending := false;
          SwitchToIsr(NMI_VECTOR, false);
        }
        if irqPending {
          irqPending := false;
          SwitchToIsr(IRQ_VECTOR, false);
        }
      }
    }

    // ---- undocumented instructions -----------------------------------------------

    /** DEC then CMP. */
    method Dcp(addr: nat)
      requires Ok() && addr < MEMORY
      modifies this`memory, this`flags
      ensures Ok() && Snapshot() == Cpu.Cmp(Cpu.Dec(old(Snapshot()), addr), addr)
    {
      hide Flag, Change, TestZn, Up, Down, Next, Previous, Minus, AtLeast, Both, Either, Differ, NinesComplement;
      var val := Read(addr);
      Write(addr, val);
      val := Previous(val);
      TestZnThenChange(flags, val, Minus(a, val), AtLeast(a, val));
      var result := Minus(a, val);
      SetCarry(AtLeast(a, val));
      FlagsKeepUnused(flags, true, true, result);
      TestZnOf(result);
      Write(addr, val);
    }

    /** INC then SBC, outside decimal mode; in decimal mode the complement of the
        operand is written back, so it never agrees with the pair. */
    method Isc(addr: nat)
      requires Ok() && addr < MEMORY
      modifies this`memory, this`a, this`flags
      ensures Ok()
      ensures Snapshot() == IncSubtract(old(Snapshot()), addr, decimalCapable)
      ensures Snapshot() == Cpu.Sbc(Cpu.Inc(old(Snapshot()), addr), addr, decimalCapable) <==> !old(DecimalOn())
    {
      hide Flag, Next, NinesComplement, Added, Subtracted, Cpu.Sbc, Cpu.Inc;
      var value := Read(addr);
      IscAgrees(Snapshot(), addr, decimalCapable);
      Write(addr, value);
      value := Next(value);
      ArithmeticKeepsUnused(a, flags, value, DecimalOn());
      value := SubtractValue(value);
      Write(addr, value);
    }

    /** ROL then AND. */
    method Rla(addr: nat)
      requires Ok() && addr < MEMORY
      modifies this`memory, this`a, this`flags
      ensures Ok() && Snapshot() == Cpu.And(Cpu.Rol(old(Snapshot()), addr), addr)
    {
      hide Flag, Change, TestZn, Up, Down, Next, Previous, Minus, AtLeast, Both, Either, Differ, NinesComplement;
      var val := Read(addr);
      Write(addr, val);
      var oldCarry := Flag(flags, CARRY);
      SetCarry(Flag(val, 0x80));
      val := Up(val);
      val := Change(val, oldCarry, 1);
      TestZnTwice(flags, val, Both(a, val));
      FlagsKeepUnused(flags, true, true, Both(a, val));
      a := Both(a, val);
      TestZnOf(a);
      Write(addr, val);
    }

    /** ROR then ADC, in every mode. */
    method Rra(addr: nat)
      requires Ok() && addr < MEMORY
      modifies this`memory, this`a, this`flags
      ensures Ok() && Snapshot() == Cpu.Adc(Cpu.Ror(old(Snapshot()), addr), addr, decimalCapable)
    {
      hide Flag, Change, TestZn, Down, Added, Subtracted, Cpu.Adc, Cpu.Ror;
      RorThenAdc(Snapshot(), addr, decimalCapable);
      RorKeepsValid(Snapshot(), addr);
      AdcKeepsValid(Cpu.Ror(Snapshot(), addr), addr, decimalCapable);
      var value := Read(addr);
      Write(addr, value);
      var oldCarry := Flag(flags, CARRY);
      SetCarry(Flag(value, 1));
      value := Down(value);
      value := Change(value, oldCarry, 0x80);
      TestZnOf(value);
      Write(addr, value);
      assert memory == old(memory)[addr := value];
      AddValue(value);
    }

    /** ASL then ORA. */
    method Slo(addr: nat)
      requires Ok() && addr < MEMORY
      modifies this`memory, this`a, this`flags
      ensures Ok() && Snapshot() == Cpu.Ora(Cpu.Asl(old(Snapshot()), addr), addr)
    {
      hide Flag, Change, TestZn, Up, Down, Next, Previous, Minus, AtLeast, Both, Either, Differ, NinesComplement;
      var val := Read(addr);
      Write(addr, val);
      SetCarry(Flag(val, 0x80));
      val := Up(val);
      TestZnTwice(flags, val, Either(a, val));
      FlagsKeepUnused(flags, true, true, Either(a, val));
      a := Either(a, val);
      TestZnOf(a);
      Write(addr, val);
    }

    /** LSR then EOR. */
    method Sre(addr: nat)
      requires Ok() && addr < MEMORY
      modifies this`memory, this`a, this`flags
      ensures Ok() && Snapshot() == Cpu.Eor(Cpu.Lsr(old(Snapshot()), addr), addr)
    {
      hide Flag, Change, TestZn, Up, Down, Next, Previous, Minus, AtLeast, Both, Either, Differ, NinesComplement;
      var val := Read(addr);
      Write(addr, val);
      SetCarry(Flag(val, 1));
      val := Down(val);
      TestZnTwice(flags, val, Differ(a, val));
      FlagsKeepUnused(flags, true, true, Differ(a, val));
      a := Differ(a, val);
      TestZnOf(a);
      Write(addr, val);
    }
  }

  /** The state after pending interrupts have been taken. */
  function AfterPoll(s: State, nmi: bool, irq: bool): State
    requires |s.mem| == MEMORY
  {
    var t := if nmi then EnterIsr(s, NMI_VECTOR, false) else s;
    if irq then EnterIsr(t, IRQ_VECTOR, false) else t
  }

  /** Where the processor goes on after pending interrupts. */
  lemma PollTaken(s: State)
    requires Valid(s)
    ensures AfterPoll(s, true, false).pc == Value(s.mem[0xFFFA]) + 256 * Value(s.mem[0xFFFB])
    ensures forall nmi :: AfterPoll(s, nmi, true).pc == Value(s.mem[0xFFFE]) + 256 * Value(s.mem[0xFFFF])
  {
    hide EnterIsr, Value, Flag;
    MemoryKept(s, NMI_VECTOR, false);
    VectorsTaken(s);
    VectorsTaken(EnterIsr(s, NMI_VECTOR, false));
  }

  lemma KeepsPc(s: State, high: bv8, low: bv8)
    requires |s.mem| == MEMORY
    ensures PushByte(PushByte(s, high), low).pc == s.pc
    ensures var t := PushByte(PushByte(s, high), low);
      t == s.(mem := t.mem, sp := t.sp) && |t.mem| == MEMORY
  {}

  /** ROR then ADC is an addition of the rotated byte with the bit rotated out as carry. */
  lemma RorThenAdc(s: State, addr: nat, capable: bool)
    requires Valid(s) && addr < MEMORY
    ensures var v := Change(Down(s.mem[addr]), Flag(s.flags, CARRY), 0x80);
      var f := TestZn(Change(s.flags, Flag(s.mem[addr], 1), CARRY), v);
      var r := Added(s.a, f, v, capable && Flag(f, DECIMAL));
      Cpu.Adc(Cpu.Ror(s, addr), addr, capable) == s.(a := r.a, flags := r.flags, mem := s.mem[addr := v])
  {
    hide Flag, Change, TestZn, Down, Added;
  }

  lemma RorKeepsValid(s: State, addr: nat)
    requires Valid(s) && addr < MEMORY
    ensures Valid(Cpu.Ror(s, addr))
  {
    hide Flag, Change, TestZn, Down;
    var v := Change(Down(s.mem[addr]), Flag(s.flags, CARRY), 0x80);
    FlagsKeepUnused(s.flags, Flag(s.mem[addr], 1), true, 0);
    FlagsKeepUnused(Change(s.flags, Flag(s.mem[addr], 1), CARRY), true, true, v);
  }

  lemma AdcKeepsValid(s: State, addr: nat, capable: bool)
    requires Valid(s) && addr < MEMORY
    ensures Valid(Cpu.Adc(s, addr, capable))
  {
    hide Flag, Added, Subtracted;
    ArithmeticKeepsUnused(s.a, s.flags, s.mem[addr], InDecimal(s, capable));
  }

  /** INC then SBC is a subtraction of the incremented byte. */
  lemma IncThenSbc(s: State, addr: nat, capable: bool)
    requires Valid(s) && addr < MEMORY
    ensures var v := Next(s.mem[addr]);
      var r := Subtracted(s.a, s.flags, v, InDecimal(s, capable));
      Cpu.Sbc(Cpu.Inc(s, addr), addr, capable) == s.(a := r.a, flags := r.flags, mem := s.mem[addr := v])
  {
    hide Flag, Change, TestZn, Next, Subtracted;
    var v := Next(s.mem[addr]);
    TestZnThenChange(s.flags, v, 0, true);
    SubtractAfterTest(s.a, s.flags, v, v, InDecimal(s, capable));
  }

  /** What ISC does: the incremented byte is subtracted, and in decimal mode it is the
      complement of that byte that goes back to memory. */
  function IncSubtract(s: State, addr: nat, capable: bool): State
    requires addr < |s.mem|
  {
    var v := Next(s.mem[addr]);
    var r := Subtracted(s.a, s.flags, v, InDecimal(s, capable));
    s.(a := r.a, flags := r.flags, mem := s.mem[addr := if InDecimal(s, capable) then NinesComplement(v) else v])
  }

  lemma IscAgrees(s: State, addr: nat, capable: bool)
    requires Valid(s) && addr < MEMORY
    ensures IncSubtract(s, addr, capable) == Cpu.Sbc(Cpu.Inc(s, addr), addr, capable) <==> !InDecimal(s, capable)
  {
    hide Flag, Next, NinesComplement, Subtracted, Cpu.Sbc;
    IncThenSbc(s, addr, capable);
    var v := Next(s.mem[addr]);
    NotItsComplement(v);
    var t := Cpu.Sbc(Cpu.Inc(s, addr), addr, capable);
    assert IncSubtract(s, addr, capable).mem[addr] == if InDecimal(s, capable) then NinesComplement(v) else v;
    assert t.mem[addr] == v;
  }

  lemma NotItsComplement(v: bv8)
    ensures NinesComplement(v) != v
  {}

  /** The steps that every other instruction is made of. */
  datatype Part =
    | Test(value: bv8) | SetFlag(mask: bv8, on: bool) | Move(a: bv8, x: bv8, y: bv8, sp: bv8)
    | Store(value: bv8) | Jump

  method PerformPart(cpu: Cpu6502, part: Part, operand: nat)
    requires cpu.Ok() && operand < MEMORY && (part.SetFlag? ==> part.mask & UNUSED == 0)
    modifies cpu
    ensures cpu.Ok()
  {
    hide Valid;
    match part
    case Test(value) => cpu.Test(value);
    case SetFlag(mask, on) => cpu.SetFlag(mask, on);
    case Move(a, x, y, sp) => cpu.Move(a, x, y, sp);
    case Store(value) => cpu.Store(operand, value);
    case Jump => cpu.Jump(operand);
  }

  /** The instructions of this model, what the CPU does between instructions, and the parts
      of all others. */
  datatype Opcode =
    | ADC | SBC | AND | ORA | EOR | CMP | INC | DEC | ASL | LSR
    | ROL | ROR | LDA | STA | DCP | ISC | RLA | RRA | SLO | SRE
    | CLC | SEC | CLI | SEI | CLD | SED | RTS | BRK | RTI | PHA | PLA | PHP | PLP | JSR | POLL
    | STEP(part: Part)

  /** Bit 5 is the only flag that no instruction sets or clears by itself. */
  predicate Flags(op: Opcode) {
    op.STEP? && op.part.SetFlag? ==> op.part.mask & UNUSED == 0
  }

  method Perform(cpu: Cpu6502, op: Opcode, operand: nat)
    requires cpu.Ok() && operand < MEMORY && Flags(op)
    modifies cpu
    ensures cpu.Ok()
  {
    hide Valid;
    match op
    case ADC => cpu.Adc(operand);
    case SBC => cpu.Sbc(operand);
    case AND => cpu.And(operand);
    case ORA => cpu.Ora(operand);
    case EOR => cpu.Eor(operand);
    case CMP => cpu.Cmp(operand);
    case INC => cpu.Inc(operand);
    case DEC => cpu.Dec(operand);
    case ASL => cpu.Asl(operand);
    case LSR => cpu.Lsr(operand);
    case ROL => cpu.Rol(operand);
    case ROR => cpu.Ror(operand);
    case LDA => cpu.Lda(operand);
    case STA => cpu.Sta(operand);
    case DCP => cpu.Dcp(operand);
    case ISC => cpu.Isc(operand);
    case RLA => cpu.Rla(operand);
    case RRA => cpu.Rra(operand);
    case SLO => cpu.Slo(operand);
    case SRE => cpu.Sre(operand);
    case CLC => cpu.Clc();
    case SEC => cpu.Sec();
    case CLI => cpu.Cli();
    case SEI => cpu.Sei();
    case CLD => cpu.Cld();
    case SED => cpu.Sed();
    case RTS => cpu.Rts();
    case BRK => cpu.Brk();
    case RTI => cpu.Rti();
    case PHA => cpu.Pha();
    case PLA => cpu.Pla();
    case PHP => cpu.Php();
    case PLP => cpu.Plp();
    case JSR => cpu.Jsr(operand);
    case POLL => cpu.TakeInterrupts();
    case STEP(part) => PerformPart(cpu, part, operand);
  }

  /** Bit 5 of the flags is set in every state that instructions and interrupts reach from
      reset, whatever they pull from the stack, write or set. */
  method FromReset(memory: seq<bv8>, decimalCapable: bool, code: seq<(Opcode, nat)>) returns (cpu: Cpu6502)
    requires |memory| == MEMORY && forall i :: 0 <= i < |code| ==> code[i].1 < MEMORY && Flags(code[i].0)
    ensures cpu.Ok() && Flag(cpu.flags, UNUSED)
  {
    cpu := new Cpu6502(memory, decimalCapable);
    for i := 0 to |code|
      invariant cpu.Ok() && fresh(cpu)
    {
      Perform(cpu, code[i].0, code[i].1);
    }
  }
}
