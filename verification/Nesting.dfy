/** Calls, interrupts and saved bytes nested on the 6502 stack: as long as they use at
    most 256 bytes, every return finds what its entry left, wherever the stack pointer
    wraps and whatever runs in between. */
module Nesting {
  import opened Bits
  import opened Cpu
  import opened Processor

  // ---- bytes on the stack ------------------------------------------------------

  function StackCell(sp: bv8, k: nat): (c: nat)
    ensures 0x100 <= c < 0x200
  {
    0x100 + (Value(sp) + 1 + k) % 256
  }

  /** The bytes above the stack pointer, the top one first. */
  predicate Holds(mem: seq<bv8>, sp: bv8, bytes: seq<bv8>) {
    |mem| == MEMORY && |bytes| <= 256 && forall k :: 0 <= k < |bytes| ==> mem[StackCell(sp, k)] == bytes[k]
  }

  lemma NextValue(sp: bv8)
    ensures Value(Next(sp)) == (Value(sp) + 1) % 256
  {}

  lemma PreviousValue(sp: bv8)
    ensures Value(Previous(sp)) == (Value(sp) + 255) % 256
  {}

  lemma BackAndForth(sp: bv8)
    ensures Next(Previous(sp)) == sp
  {}

  lemma StackCellBelow(sp: bv8, k: nat)
    ensures StackCell(Previous(sp), k) == if k == 0 then 0x100 + Value(sp) else StackCell(sp, k - 1)
  {
    PreviousValue(sp);
    hide Value, Previous;
  }

  lemma Pushed(s: State, bytes: seq<bv8>, v: bv8)
    requires Holds(s.mem, s.sp, bytes) && |bytes| < 256
    ensures Holds(PushByte(s, v).mem, PushByte(s, v).sp, [v] + bytes)
  {
    hide Value, Next, Previous;
    var t := PushByte(s, v);
    forall k | 0 <= k < |bytes| + 1 ensures t.mem[StackCell(t.sp, k)] == ([v] + bytes)[k] {
      StackCellBelow(s.sp, k);
    }
  }

  lemma Popped(s: State, bytes: seq<bv8>)
    requires Holds(s.mem, s.sp, bytes) && bytes != []
    ensures TopByte(s) == bytes[0] && Holds(s.mem, PopByte(s).sp, bytes[1..])
  {
    NextValue(s.sp);
    hide Value, Next;
    assert StackCell(s.sp, 0) == 0x100 + Value(Next(s.sp));
    forall k | 0 <= k < |bytes| - 1 ensures s.mem[StackCell(Next(s.sp), k)] == bytes[1..][k] {
      assert StackCell(Next(s.sp), k) == StackCell(s.sp, k + 1);
    }
  }

  // ---- the reference machine ---------------------------------------------------

  /** What an entry leaves for its return: nothing of it is on a byte stack. */
  datatype Frame =
    | Called(pc: nat, sp: bv8)
    | Interrupted(pc: nat, flags: bv8, brk: bool, sp: bv8)
    | Saved(value: bv8, sp: bv8)

  /** The bytes the processor uses for a frame, the top one first. */
  function Bytes(f: Frame): seq<bv8> {
    match f
    case Called(pc, _) => [Low8((pc + MEMORY - 1) % MEMORY), High8((pc + MEMORY - 1) % MEMORY)]
    case Interrupted(pc, flags, brk, _) =>
      [if brk then WithBreak(flags) else WithoutBreak(flags), Low8(pc), High8(pc)]
    case Saved(value, _) => [value]
  }

  function AllBytes(frames: seq<Frame>): seq<bv8> {
    if frames == [] then [] else Bytes(frames[0]) + AllBytes(frames[1..])
  }

  /** A frame's entry had the stack pointer its return must restore. */
  function Above(sp: bv8, f: Frame): bv8 {
    match f
    case Called(_, _) => Next(Next(sp))
    case Interrupted(_, _, _, _) => Next(Next(Next(sp)))
    case Saved(_, _) => Next(sp)
  }

  predicate Proper(f: Frame) {
    f.Saved? || f.pc < MEMORY
  }

  predicate Chained(sp: bv8, frames: seq<Frame>)
    decreases |frames|
  {
    frames == [] || (frames[0].sp == Above(sp, frames[0]) && Proper(frames[0]) && Chained(frames[0].sp, frames[1..]))
  }

  /** One step of a program. `Work` is anything that leaves the stack alone: it may set
      the registers and flags and store anywhere but in live stack bytes. */
  datatype Event =
    | Call(target: nat)
    | Return
    | Break
    | Interrupt(nmi: bool)
    | ReturnFromInterrupt
    | Save
    | Restore
    | Work(a: bv8, flags: bv8, pc: nat, addr: nat, value: bv8)

  /** Registers, open frames, and the six bytes of the interrupt vectors. */
  datatype Machine = Machine(a: bv8, flags: bv8, pc: nat, sp: bv8, frames: seq<Frame>, vectors: seq<bv8>)

  predicate Room(m: Machine, n: nat) {
    |AllBytes(m.frames)| + n <= 256
  }

  predicate Legal(m: Machine, e: Event) {
    |m.vectors| == 6 &&
    match e
    case Call(target) => target < MEMORY && Room(m, 2)
    case Return => m.frames != [] && m.frames[0].Called?
    case Break => Room(m, 3)
    case Interrupt(_) => Room(m, 3)
    case ReturnFromInterrupt => m.frames != [] && m.frames[0].Interrupted?
    case Save => Room(m, 1)
    case Restore => m.frames != [] && m.frames[0].Saved?
    case Work(_, flags, pc, addr, _) =>
      && Flag(flags, UNUSED) && pc < MEMORY && addr < MEMORY
      && forall k :: 0 <= k < |AllBytes(m.frames)| ==> addr != StackCell(m.sp, k)
  }

  function Lowered(sp: bv8, n: nat): bv8
    decreases n
  {
    if n == 0 then sp else Lowered(Previous(sp), n - 1)
  }

  function Enter(m: Machine, pc: nat, brk: bool, vector: nat): Machine {
    Machine(m.a, Change(m.flags, true, INT_DISABLE), vector, Lowered(m.sp, 3),
      [Interrupted(pc, m.flags, brk, m.sp)] + m.frames, m.vectors)
  }

  const NMI_AT: nat := 0
  const IRQ_AT: nat := 4

  function Step(m: Machine, e: Event): Machine
    requires Legal(m, e)
  {
    match e
    case Call(target) => m.(pc := target, sp := Lowered(m.sp, 2), frames := [Called(m.pc, m.sp)] + m.frames)
    case Return => m.(pc := m.frames[0].pc, sp := m.frames[0].sp, frames := m.frames[1..])
    case Break => Enter(m, (m.pc + 1) % MEMORY, true, Vector(m.vectors, IRQ_AT))
    case Interrupt(nmi) => Enter(m, m.pc, false, Vector(m.vectors, if nmi then NMI_AT else IRQ_AT))
    case ReturnFromInterrupt =>
      m.(flags := Restored(m.frames[0].flags), pc := m.frames[0].pc, sp := m.frames[0].sp, frames := m.frames[1..])
    case Save => m.(sp := Lowered(m.sp, 1), frames := [Saved(m.a, m.sp)] + m.frames)
    case Restore =>
      m.(a := m.frames[0].value, flags := TestZn(m.flags, m.frames[0].value), sp := m.frames[0].sp,
         frames := m.frames[1..])
    case Work(a, flags, pc, addr, value) =>
      m.(a := a, flags := flags, pc := pc,
         vectors := if addr < NMI_VECTOR then m.vectors else m.vectors[addr - NMI_VECTOR := value])
  }

  function Vector(vectors: seq<bv8>, at: nat): nat
    requires at + 1 < |vectors|
  {
    Address(vectors[at], vectors[at + 1])
  }

  // ---- the processor follows it ------------------------------------------------

  predicate Matches(s: State, m: Machine) {
    && Valid(s) && s.a == m.a && s.flags == m.flags && s.pc == m.pc && s.sp == m.sp
    && Holds(s.mem, s.sp, AllBytes(m.frames)) && Chained(m.sp, m.frames)
    && s.mem[NMI_VECTOR..] == m.vectors
  }

  lemma Recompose(n: nat)
    requires n < MEMORY
    ensures Address(Low8(n), High8(n)) == n
  {
    hide Byte, Value;
    assert n == 256 * (n / 256) + n % 256 && n / 256 < 256;
    assert n / 256 % 256 == n / 256;
  }

  lemma RecomposeReturn(pc: nat)
    requires pc < MEMORY
    ensures var ret := (pc + MEMORY - 1) % MEMORY; (Address(Low8(ret), High8(ret)) + 1) % MEMORY == pc
  {
    hide Address, Low8, High8;
    Recompose((pc + MEMORY - 1) % MEMORY);
  }

  lemma UpAgain(sp: bv8)
    ensures Next(Lowered(sp, 1)) == sp && Next(Next(Lowered(sp, 2))) == sp && Next(Next(Next(Lowered(sp, 3)))) == sp
    ensures Lowered(sp, 1) == Previous(sp) && Lowered(sp, 2) == Previous(Previous(sp))
    ensures Lowered(sp, 3) == Previous(Previous(Previous(sp)))
  {
    hide Next, Previous;
    BackAndForth(sp);
    assert Lowered(sp, 1) == Previous(sp);
    assert Lowered(Previous(sp), 1) == Previous(Previous(sp));
    assert Lowered(Previous(Previous(sp)), 1) == Previous(Previous(Previous(sp)));
    assert Lowered(Previous(sp), 2) == Previous(Previous(Previous(sp)));
    BackAndForth(Previous(sp));
    BackAndForth(Previous(Previous(sp)));
  }

  lemma CallFollows(s: State, m: Machine, target: nat)
    requires Matches(s, m) && Legal(m, Call(target))
    ensures Matches(Jsr(s, target), Step(m, Call(target)))
  {
    hide Flag, Value, Next, Previous, Holds, Lowered, High8, Low8;
    var ret := (s.pc + MEMORY - 1) % MEMORY;
    UpAgain(s.sp);
    Pushed(s, AllBytes(m.frames), High8(ret));
    Pushed(PushByte(s, High8(ret)), [High8(ret)] + AllBytes(m.frames), Low8(ret));
    assert [Low8(ret)] + ([High8(ret)] + AllBytes(m.frames)) == Bytes(Called(m.pc, m.sp)) + AllBytes(m.frames);
    OnePush(s, High8(ret));
    OnePush(PushByte(s, High8(ret)), Low8(ret));
    assert ([Called(m.pc, m.sp)] + m.frames)[1..] == m.frames;
  }

  lemma ReturnFollows(s: State, m: Machine)
    requires Matches(s, m) && Legal(m, Return)
    ensures Matches(Rts(s), Step(m, Return))
  {
    hide Flag, Value, Next, Previous, Holds, High8, Low8, Address, TopByte;
    var f, rest := m.frames[0], AllBytes(m.frames[1..]);
    RecomposeReturn(f.pc);
    var all := AllBytes(m.frames);
    assert all == Bytes(f) + rest && all[1..][1..] == rest && all[1] == Bytes(f)[1];
    Popped(s, all);
    Popped(PopByte(s), all[1..]);
  }

  lemma EnterFollows(s: State, m: Machine, pc: nat, vector: nat, brk: bool)
    requires Matches(s, m) && Room(m, 3) && pc < MEMORY && vector <= IRQ_AT
    ensures Matches(EnterIsr(s.(pc := pc), NMI_VECTOR + vector, brk), Enter(m, pc, brk, Vector(m.vectors, vector)))
  {
    hide Flag, Value, Next, Previous, Holds, Lowered, High8, Low8, Address, WithBreak, WithoutBreak, Restored, Change;
    var s' := s.(pc := pc);
    var flags := if brk then WithBreak(s.flags) else WithoutBreak(s.flags);
    RestoredFlags(s.flags);
    UpAgain(s.sp);
    var t := PushByte(s', High8(pc));
    var u := PushByte(t, Low8(pc));
    var w := PushByte(u, flags);
    var rest := AllBytes(m.frames);
    Pushed(s', rest, High8(pc));
    Pushed(t, [High8(pc)] + rest, Low8(pc));
    Pushed(u, [Low8(pc)] + ([High8(pc)] + rest), flags);
    var f := Interrupted(pc, m.flags, brk, m.sp);
    assert [flags] + ([Low8(pc)] + ([High8(pc)] + rest)) == Bytes(f) + rest;
    assert ([f] + m.frames)[1..] == m.frames;
    VectorsStay(s', High8(pc), Low8(pc), flags);
    assert s.mem[NMI_VECTOR..][vector] == s.mem[NMI_VECTOR + vector];
    assert s.mem[NMI_VECTOR..][vector + 1] == s.mem[NMI_VECTOR + vector + 1];
  }

  /** Pushing writes page one only. */
  lemma VectorsStay(s: State, a: bv8, b: bv8, c: bv8)
    requires |s.mem| == MEMORY
    ensures var w := PushByte(PushByte(PushByte(s, a), b), c);
      |w.mem| == MEMORY && w.mem[NMI_VECTOR..] == s.mem[NMI_VECTOR..]
  {
    OnePush(s, a);
    OnePush(PushByte(s, a), b);
    OnePush(PushByte(PushByte(s, a), b), c);
  }

  lemma OnePush(s: State, v: bv8)
    requires |s.mem| == MEMORY
    ensures |PushByte(s, v).mem| == MEMORY && PushByte(s, v).mem[NMI_VECTOR..] == s.mem[NMI_VECTOR..]
  {}

  lemma ReturnFromInterruptFollows(s: State, m: Machine)
    requires Matches(s, m) && Legal(m, ReturnFromInterrupt)
    ensures Matches(Rti(s), Step(m, ReturnFromInterrupt))
  {
    hide Flag, Value, Next, Previous, Holds, High8, Low8, Address, TopByte, WithBreak, WithoutBreak, Restored;
    var f, rest := m.frames[0], AllBytes(m.frames[1..]);
    Recompose(f.pc);
    RestoredFlags(f.flags);
    var all := AllBytes(m.frames);
    assert all == Bytes(f) + rest && all[1..][1..][1..] == rest;
    assert all[0] == Bytes(f)[0] && all[1..][0] == Bytes(f)[1] && all[1..][1..][0] == Bytes(f)[2];
    Popped(s, all);
    Popped(PopByte(s), all[1..]);
    Popped(PopByte(PopByte(s)), all[1..][1..]);
  }

  lemma SaveFollows(s: State, m: Machine)
    requires Matches(s, m) && Legal(m, Save)
    ensures Matches(PushByte(s, s.a), Step(m, Save))
  {
    hide Flag, Value, Next, Previous, Holds, Lowered;
    UpAgain(s.sp);
    OnePush(s, s.a);
    Pushed(s, AllBytes(m.frames), s.a);
    assert [s.a] + AllBytes(m.frames) == Bytes(Saved(m.a, m.sp)) + AllBytes(m.frames);
    assert ([Saved(m.a, m.sp)] + m.frames)[1..] == m.frames;
  }

  lemma RestoreFollows(s: State, m: Machine)
    requires Matches(s, m) && Legal(m, Restore)
    ensures TopByte(s) == m.frames[0].value
    ensures Matches(PopByte(s).(a := TopByte(s), flags := TestZn(s.flags, TopByte(s))), Step(m, Restore))
  {
    hide Flag, Value, Next, Previous, Holds, TopByte, TestZn;
    var rest := AllBytes(m.frames[1..]);
    assert AllBytes(m.frames) == [m.frames[0].value] + rest;
    assert AllBytes(m.frames)[1..] == rest;
    Popped(s, AllBytes(m.frames));
    FlagsKeepUnused(s.flags, true, true, m.frames[0].value);
  }

  lemma WorkFollows(s: State, m: Machine, e: Event)
    requires Matches(s, m) && Legal(m, e) && e.Work?
    ensures Matches(State(e.a, s.x, s.y, s.sp, e.flags, e.pc, s.mem[e.addr := e.value]), Step(m, e))
  {
    hide Flag, Value, StackCell;
  }

  /** One event on the processor. */
  method Perform(cpu: Cpu6502, e: Event, ghost m: Machine)
    requires Matches(cpu.Snapshot(), m) && Legal(m, e)
    modifies cpu
    ensures Matches(cpu.Snapshot(), Step(m, e))
  {
    hide Flag, Value, Holds, Chained, Jsr, Rts, Rti, EnterIsr, PushByte, PopByte, TestZn, TopByte, AllBytes, StackCell;
    match e
    case Call(target) =>
      CallFollows(cpu.Snapshot(), m, target);
      cpu.Jsr(target);
    case Return =>
      ReturnFollows(cpu.Snapshot(), m);
      cpu.Rts();
    case Break =>
      EnterFollows(cpu.Snapshot(), m, (cpu.pc + 1) % MEMORY, IRQ_AT, true);
      cpu.Brk();
    case Interrupt(nmi) =>
      EnterFollows(cpu.Snapshot(), m, cpu.pc, if nmi then NMI_AT else IRQ_AT, false);
      cpu.SwitchToIsr(if nmi then NMI_VECTOR else IRQ_VECTOR, false);
    case ReturnFromInterrupt =>
      ReturnFromInterruptFollows(cpu.Snapshot(), m);
      cpu.Rti();
    case Save =>
      SaveFollows(cpu.Snapshot(), m);
      cpu.Pha();
    case Restore =>
      RestoreFollows(cpu.Snapshot(), m);
      cpu.Pla();
    case Work(a, flags, pc, addr, value) =>
      WorkFollows(cpu.Snapshot(), m, e);
      cpu.a, cpu.flags, cpu.pc, cpu.memory := a, flags, pc, cpu.memory[addr := value];
  }

  predicate Program(m: Machine, events: seq<Event>)
    decreases |events|
  {
    events == [] || (Legal(m, events[0]) && Program(Step(m, events[0]), events[1..]))
  }

  function Run(m: Machine, events: seq<Event>): Machine
    requires Program(m, events)
    decreases |events|
  {
    if events == [] then m else Run(Step(m, events[0]), events[1..])
  }

  /** Every program that nests its entries and returns and stays within 256 stacked
      bytes runs on the processor as on the reference machine: each return restores the
      stack pointer and the interrupted program counter, a return from interrupt the
      flags with the break bit clear and bit 5 set. */
  method Execute(cpu: Cpu6502, events: seq<Event>, ghost m: Machine)
    requires Matches(cpu.Snapshot(), m) && Program(m, events)
    modifies cpu
    ensures Matches(cpu.Snapshot(), Run(m, events))
    decreases |events|
  {
    hide Matches, Legal, Step;
    if events != [] {
      Perform(cpu, events[0], m);
      Execute(cpu, events[1..], Step(m, events[0]));
    }
  }

  /** The reference machine at reset: nothing stacked. */
  function AtReset(memory: seq<bv8>): Machine
    requires |memory| == MEMORY
  {
    Machine(0, 0x34, Address(memory[0xFFFC], memory[0xFFFD]), 0xFD, [], memory[NMI_VECTOR..])
  }

  /** Where a program stands after its last event, if that was an interrupt. */
  lemma {:induction false} LastEntry(m: Machine, events: seq<Event>)
    requires Program(m, events) && events != [] && |m.vectors| == 6
    ensures var r := Run(m, events);
      var last := events[|events| - 1];
      && |r.vectors| == 6
      && (last == Interrupt(true) ==> r.pc == Value(r.vectors[0]) + 256 * Value(r.vectors[1]))
      && (last == Interrupt(false) || last == Break ==> r.pc == Value(r.vectors[4]) + 256 * Value(r.vectors[5]))
    decreases |events|
  {
    hide Step, Legal, Value;
    var n := Step(m, events[0]);
    OneEntry(m, events[0]);
    if |events| == 1 {
      assert Run(m, events) == Run(n, []) == n;
    } else {
      LastEntry(n, events[1..]);
    }
  }

  lemma OneEntry(m: Machine, e: Event)
    requires Legal(m, e)
    ensures var r := Step(m, e);
      && |r.vectors| == |m.vectors| == 6
      && (e == Interrupt(true) ==> r.pc == Value(r.vectors[0]) + 256 * Value(r.vectors[1]))
      && (e == Interrupt(false) || e == Break ==> r.pc == Value(r.vectors[4]) + 256 * Value(r.vectors[5]))
  {
    hide Change, TestZn, Restored, Lowered, Value, AllBytes;
  }

  lemma NoEvents(m: Machine)
    ensures Run(m, []) == m
  {}

  /** The same from reset, where the stack is empty. */
  method ExecuteFromReset(memory: seq<bv8>, decimalCapable: bool, events: seq<Event>) returns (cpu: Cpu6502)
    requires |memory| == MEMORY && Program(AtReset(memory), events)
    ensures Matches(cpu.Snapshot(), Run(AtReset(memory), events))
    // where the vectors lie, low byte first
    ensures |cpu.memory| == MEMORY
    ensures events == [] ==> cpu.pc == Value(memory[0xFFFC]) + 256 * Value(memory[0xFFFD])
    ensures events != [] && events[|events| - 1] == Interrupt(true) ==>
      cpu.pc == Value(cpu.memory[0xFFFA]) + 256 * Value(cpu.memory[0xFFFB])
    ensures events != [] && events[|events| - 1] in {Interrupt(false), Break} ==>
      cpu.pc == Value(cpu.memory[0xFFFE]) + 256 * Value(cpu.memory[0xFFFF])
  {
    hide Flag, Program, Run, Value;
    if events != [] { LastEntry(AtReset(memory), events); } else { NoEvents(AtReset(memory)); }
    cpu := new Cpu6502(memory, decimalCapable);
    assert AllBytes([]) == [];
    Execute(cpu, events, AtReset(memory));
  }

  /** A pending NMI and a pending IRQ taken at once are two nested interrupts: the IRQ
      handler runs first and returns into the NMI handler. */
  lemma BackToBack(s: State, m: Machine)
    requires Matches(s, m) && Room(m, 6) && |m.vectors| == 6
    ensures Legal(m, Interrupt(true)) && Legal(Step(m, Interrupt(true)), Interrupt(false))
    ensures Matches(Processor.AfterPoll(s, true, true), Step(Step(m, Interrupt(true)), Interrupt(false)))
  {
    hide Matches, EnterIsr, Enter, Vector, Room;
    RoomForTwo(m);
    EnterBoth(s, m);
  }

  lemma EnterBoth(s: State, m: Machine)
    requires Matches(s, m) && Room(m, 3) && |m.vectors| == 6
    requires var n := Enter(m, m.pc, false, Vector(m.vectors, NMI_AT)); Room(n, 3) && n.vectors == m.vectors
    ensures var n := Enter(m, m.pc, false, Vector(m.vectors, NMI_AT));
      Matches(EnterIsr(EnterIsr(s, NMI_VECTOR, false), IRQ_VECTOR, false),
        Enter(n, n.pc, false, Vector(n.vectors, IRQ_AT)))
  {
    hide Matches, EnterIsr, Enter, Vector, Room;
    SamePc(s, m);
    EnterFollows(s, m, s.pc, NMI_AT, false);
    var t := EnterIsr(s, NMI_VECTOR, false);
    var n := Enter(m, m.pc, false, Vector(m.vectors, NMI_AT));
    SamePc(t, n);
    EnterFollows(t, n, t.pc, IRQ_AT, false);
  }

  lemma RoomForTwo(m: Machine)
    requires Room(m, 6) && |m.vectors| == 6
    ensures Room(m, 3)
    ensures var n := Enter(m, m.pc, false, Vector(m.vectors, NMI_AT)); Room(n, 3) && n.vectors == m.vectors
  {
    hide Lowered, Change, WithoutBreak, High8, Low8, Address;
    var f := Interrupted(m.pc, m.flags, false, m.sp);
    assert ([f] + m.frames)[1..] == m.frames;
    assert |Bytes(f)| == 3;
  }

  lemma SamePc(s: State, m: Machine)
    requires Matches(s, m)
    ensures s.pc == m.pc < MEMORY && s.(pc := s.pc) == s && |s.mem| == MEMORY
  {
    hide Holds, Chained, Flag;
  }
}
