/** Whole runs of a bus, against a machine that keeps no lists and no bytes: only which
    ports there are, where each window begins, and what was put on the bus so far. */
module BusHistory {
  import opened AddressSpace

  /** Everything that can happen to a bus and the modules on it. */
  datatype Operation =
    | Read(addr: nat) | Poke(addr: nat) | Write(addr: nat, value: bv8)
    | AddRead(port: Port) | AddWrite(port: Port)
    | DropModule(mod: Module) | DropBase(base: nat) | Clear
    | Bank(mod: Module, number: nat) | Enable(mod: Module, on: bool)

  /** What an operation reports. */
  datatype Reply = Byte(value: bv8) | Accepted(ok: bool) | Done

  /** What was put on the bus: a written byte, and the cell that kept it, or a cell. */
  datatype Carried = Wrote(value: bv8, kept: Option<Cell>) | Saw(cell: Cell)

  /** The reference: ports without order, the window and state of every module, what
      happened, and what the cells and the bus held before. */
  datatype Reference = Reference(
    readers: set<Port>, writers: set<Port>, starts: map<Module, nat>, enabled: set<Module>,
    events: seq<Carried>, image: imap<Cell, bv8>, bus: bv8)

  /** The byte most recently written to a cell, through any alias of it and any layout. */
  function LastWritten(events: seq<Carried>, image: imap<Cell, bv8>, cell: Cell): bv8 {
    if events == [] then if cell in image then image[cell] else 0
    else
      var last := events[|events| - 1];
      if last.Wrote? && last.kept == Some(cell) then last.value
      else LastWritten(events[..|events| - 1], image, cell)
  }

  /** The byte most recently put on the bus. */
  function LastDriven(events: seq<Carried>, image: imap<Cell, bv8>, bus: bv8): bv8 {
    if events == [] then bus
    else
      match events[|events| - 1]
      case Wrote(value, _) => value
      case Saw(cell) => LastWritten(events[..|events| - 1], image, cell)
  }

  predicate Listens(m: Reference, p: Port, addr: nat) {
    Covers(p, addr) && p.mod in m.enabled && p.mod in m.starts
  }

  function CellBehind(m: Reference, p: Port, addr: nat): Cell
    requires Listens(m, p, addr)
  {
    Cell(p.mod.backing, m.starts[p.mod] + (addr - p.base))
  }

  /** The cell a read of addr finds. */
  ghost function Source(m: Reference, addr: nat): Option<Cell> {
    if exists p :: p in m.readers && Listens(m, p, addr) then
      var p :| p in m.readers && Listens(m, p, addr);
      Some(CellBehind(m, p, addr))
    else None
  }

  /** The cell that keeps a byte written to addr. */
  ghost function Sink(m: Reference, addr: nat): Option<Cell> {
    if exists p :: p in m.writers && Listens(m, p, addr) && p.mod.writable then
      var p :| p in m.writers && Listens(m, p, addr) && p.mod.writable;
      Some(CellBehind(m, p, addr))
    else None
  }

  ghost predicate ByteTaken(p: Port, i: nat, ports: set<Port>) {
    exists q :: q in ports && Covers(q, (p.base + i) % ADDRESSES)
  }

  /** A port is taken on when no byte of it, wrapped, belongs to another. */
  ghost predicate Takes(ports: set<Port>, p: Port) {
    forall i :: 0 <= i < p.mod.size ==> !ByteTaken(p, i, ports)
  }

  /** The demands on the modules and addresses of an operation. */
  predicate Proper(op: Operation, mods: set<Module>) {
    match op
    case Read(addr) => addr < ADDRESSES
    case Poke(addr) => addr < ADDRESSES
    case Write(addr, _) => addr < ADDRESSES
    case AddRead(p) => p.base < ADDRESSES && p.mod in mods
    case AddWrite(p) => p.base < ADDRESSES && p.mod in mods
    case Bank(x, _) => x in mods && 0 < x.size <= x.backing.Length
    case Enable(x, _) => x in mods
    case _ => true
  }

  function WindowOf(x: Module, number: nat): nat
    requires 0 < x.size <= x.backing.Length
  {
    QuotientPositive(x.backing.Length, x.size);
    (number % x.BankCount()) * x.size
  }

  function OfOthers(ports: set<Port>, x: Module): set<Port> {
    set p | p in ports && p.mod != x
  }

  function Elsewhere(ports: set<Port>, base: nat): set<Port> {
    set p | p in ports && p.base != base
  }

  ghost function Following(m: Reference, op: Operation, mods: set<Module>): Reference
    requires Proper(op, mods)
  {
    match op
    case Read(addr) => if Source(m, addr).Some? then m.(events := m.events + [Saw(Source(m, addr).value)]) else m
    case Poke(_) => m
    case Write(addr, value) => m.(events := m.events + [Wrote(value, Sink(m, addr))])
    case AddRead(p) => if Takes(m.readers, p) then m.(readers := m.readers + {p}) else m
    case AddWrite(p) => if Takes(m.writers, p) then m.(writers := m.writers + {p}) else m
    case DropModule(x) => m.(readers := OfOthers(m.readers, x), writers := OfOthers(m.writers, x))
    case DropBase(base) => m.(readers := Elsewhere(m.readers, base), writers := Elsewhere(m.writers, base))
    case Clear => m.(readers := {}, writers := {})
    case Bank(x, number) => m.(starts := m.starts[x := WindowOf(x, number)])
    case Enable(x, on) => m.(enabled := if on then m.enabled + {x} else m.enabled - {x})
  }

  /** A mapped address answers with the byte last written to its cell, any other with
      the byte last driven. */
  ghost function Answer(m: Reference, addr: nat): bv8 {
    match Source(m, addr)
    case Some(cell) => LastWritten(m.events, m.image, cell)
    case None => LastDriven(m.events, m.image, m.bus)
  }

  ghost function Replied(m: Reference, op: Operation): Reply {
    match op
    case Read(addr) => Byte(Answer(m, addr))
    case Poke(addr) => Byte(Answer(m, addr))
    case AddRead(p) => Accepted(Takes(m.readers, p))
    case AddWrite(p) => Accepted(Takes(m.writers, p))
    case _ => Done
  }

  ghost function Finally(m: Reference, ops: seq<Operation>, mods: set<Module>): Reference
    requires forall op <- ops :: Proper(op, mods)
    decreases |ops|
  {
    if ops == [] then m else Finally(Following(m, ops[0], mods), ops[1..], mods)
  }

  ghost function Replies(m: Reference, ops: seq<Operation>, mods: set<Module>): seq<Reply>
    requires forall op <- ops :: Proper(op, mods)
    decreases |ops|
  {
    if ops == [] then [] else [Replied(m, ops[0])] + Replies(Following(m, ops[0], mods), ops[1..], mods)
  }

  // ---- the bus and its reference -----------------------------------------------

  /** A sorted, disjoint list of the ports of a set. */
  ghost predicate Lists(list: seq<Port>, ports: set<Port>, mods: set<Module>) {
    && Ordered(list)
    && (forall p <- list :: p in ports && p.mod in mods)
    && (forall p <- ports :: p in list)
  }

  ghost predicate Windows(m: Reference, mods: set<Module>)
    reads mods
  {
    forall x <- mods :: x.Fits() && x in m.starts && x.start == m.starts[x] && (x.valid <==> x in m.enabled)
  }

  ghost predicate StoreHolds(store: array<bv8>, events: seq<Carried>, image: imap<Cell, bv8>)
    reads store
  {
    forall k :: 0 <= k < store.Length ==> store[k] == LastWritten(events, image, Cell(store, k))
  }

  ghost predicate Holds(events: seq<Carried>, image: imap<Cell, bv8>, mods: set<Module>)
    reads set x | x in mods :: x.backing
  {
    forall x <- mods :: StoreHolds(x.backing, events, image)
  }

  ghost predicate Follows(bus: Bus, m: Reference, mods: set<Module>)
    reads bus, mods, set x | x in mods :: x.backing
  {
    && Lists(bus.readPorts, m.readers, mods) && Lists(bus.writePorts, m.writers, mods)
    && Windows(m, mods) && Holds(m.events, m.image, mods)
    && bus.lastBusValue == LastDriven(m.events, m.image, m.bus)
  }

  /** Any bus follows the machine that remembers nothing yet. */
  ghost function Snapshot(bus: Bus, mods: set<Module>): Reference
    reads bus, mods, set x | x in mods :: x.backing
  {
    Reference((set p | p in bus.readPorts), (set p | p in bus.writePorts), (map x | x in mods :: x.start),
            (set x | x in mods && x.valid), [],
            (imap x, k | x in mods && 0 <= k < x.backing.Length :: Cell(x.backing, k) := x.backing[k]),
            bus.lastBusValue)
  }

  lemma SnapshotFollows(bus: Bus, mods: set<Module>)
    requires Ordered(bus.readPorts) && Ordered(bus.writePorts) && forall x <- mods :: x.Fits()
    requires (forall p <- bus.readPorts :: p.mod in mods) && (forall p <- bus.writePorts :: p.mod in mods)
    ensures Follows(bus, Snapshot(bus, mods), mods)
  {}

  // ---- one operation -----------------------------------------------------------

  lemma SourceReached(list: seq<Port>, m: Reference, mods: set<Module>, addr: nat)
    requires Lists(list, m.readers, mods) && Windows(m, mods)
    ensures Source(m, addr) == Reached(list, addr)
    ensures Source(m, addr).Some? ==> exists x :: x in mods && Source(m, addr).value.store == x.backing
  {
    if p :| p in m.readers && Listens(m, p, addr) {
      forall q | q in m.readers && Listens(m, q, addr) ensures q == p {
        AtMostOneAnswers(list, p, q, addr);
      }
      ReachedBy(list, p, addr);
    } else {
      NobodyAnswers(list, addr);
    }
  }

  lemma SinkTarget(list: seq<Port>, m: Reference, mods: set<Module>, addr: nat)
    requires Lists(list, m.writers, mods) && Windows(m, mods)
    ensures Sink(m, addr) == Target(list, addr)
  {
    if p :| p in m.writers && Listens(m, p, addr) {
      forall q | q in m.writers && Listens(m, q, addr) ensures q == p {
        AtMostOneAnswers(list, p, q, addr);
      }
      AtMostOneWriter(list, p, addr);
    } else {
      NobodyAnswers(list, addr);
    }
  }

  lemma TakesFree(list: seq<Port>, ports: set<Port>, mods: set<Module>, p: Port)
    requires Lists(list, ports, mods)
    ensures Takes(ports, p) <==> EveryByteFree(p, list)
  {
    forall i | 0 <= i < p.mod.size ensures ByteFree(p, i, list) <==> !ByteTaken(p, i, ports) {}
  }

  lemma WrittenNext(m: Reference, event: Carried, cell: Cell)
    ensures LastWritten(m.events + [event], m.image, cell) ==
      if event.Wrote? && event.kept == Some(cell) then event.value else LastWritten(m.events, m.image, cell)
  {
    assert (m.events + [event])[..|m.events|] == m.events;
  }

  lemma DrivenNext(m: Reference, event: Carried)
    ensures LastDriven(m.events + [event], m.image, m.bus) ==
      match event
      case Wrote(value, _) => value
      case Saw(cell) => LastWritten(m.events, m.image, cell)
  {
    assert (m.events + [event])[..|m.events|] == m.events;
  }

  /** Seeing a cell changes none. */
  lemma HoldsOn(m: Reference, cell: Cell, mods: set<Module>)
    requires Holds(m.events, m.image, mods)
    ensures Holds(m.events + [Saw(cell)], m.image, mods)
  {
    forall x <- mods ensures StoreHolds(x.backing, m.events + [Saw(cell)], m.image) {
      forall k | 0 <= k < x.backing.Length
        ensures x.backing[k] == LastWritten(m.events + [Saw(cell)], m.image, Cell(x.backing, k))
      {
        WrittenNext(m, Saw(cell), Cell(x.backing, k));
      }
    }
  }

  method PerformRead(bus: Bus, addr: nat, ghost m: Reference, ghost mods: set<Module>) returns (value: bv8)
    requires Follows(bus, m, mods) && addr < ADDRESSES
    modifies bus`lastBusValue
    ensures Follows(bus, Following(m, Read(addr), mods), mods) && value == Answer(m, addr)
  {
    hide LastWritten, LastDriven, Reached, Source, Ordered;
    SourceReached(bus.readPorts, m, mods, addr);
    value := bus.Read(addr);
    if Source(m, addr).Some? {
      DrivenNext(m, Saw(Source(m, addr).value));
      HoldsOn(m, Source(m, addr).value, mods);
    }
  }

  method PerformPoke(bus: Bus, addr: nat, ghost m: Reference, ghost mods: set<Module>) returns (value: bv8)
    requires Follows(bus, m, mods) && addr < ADDRESSES
    ensures Follows(bus, Following(m, Poke(addr), mods), mods) && value == Answer(m, addr)
  {
    hide LastWritten, LastDriven, Reached, Source, Ordered;
    SourceReached(bus.readPorts, m, mods, addr);
    value := bus.Poke(addr);
  }

  method PerformWrite(bus: Bus, addr: nat, value: bv8, ghost m: Reference, ghost mods: set<Module>)
    requires Follows(bus, m, mods) && addr < ADDRESSES
    modifies bus`lastBusValue, set x | x in mods :: x.backing
    ensures Follows(bus, Following(m, Write(addr, value), mods), mods)
  {
    hide LastWritten, LastDriven, Target, Sink, Ordered;
    ghost var event := Wrote(value, Sink(m, addr));
    SinkTarget(bus.writePorts, m, mods, addr);
    TargetInStores(bus.writePorts, addr);
    bus.Write(addr, value);
    DrivenNext(m, event);
    forall x <- mods ensures StoreHolds(x.backing, m.events + [event], m.image) {
      var a := x.backing;
      forall k | 0 <= k < a.Length ensures a[k] == LastWritten(m.events + [event], m.image, Cell(a, k)) {
        WrittenNext(m, event, Cell(a, k));
      }
    }
  }

  method PerformAdd(bus: Bus, reading: bool, p: Port, ghost m: Reference, ghost mods: set<Module>) returns (ok: bool)
    requires Follows(bus, m, mods) && p.base < ADDRESSES && p.mod in mods
    modifies bus`readPorts, bus`writePorts
    ensures Follows(bus, Following(m, if reading then AddRead(p) else AddWrite(p), mods), mods)
    ensures ok <==> Takes(if reading then m.readers else m.writers, p)
  {
    hide Takes, EveryByteFree, Ordered, Holds;
    if reading {
      TakesFree(bus.readPorts, m.readers, mods, p);
      ok := bus.AddReadPort(p);
    } else {
      TakesFree(bus.writePorts, m.writers, mods, p);
      ok := bus.AddWritePort(p);
    }
  }

  method PerformDrop(bus: Bus, op: Operation, ghost m: Reference, ghost mods: set<Module>)
    requires Follows(bus, m, mods) && (op.DropModule? || op.DropBase? || op.Clear?)
    modifies bus`readPorts, bus`writePorts
    ensures Follows(bus, Following(m, op, mods), mods)
  {
    hide Ordered, Holds;
    match op
    case DropModule(x) => bus.RemoveModule(x);
    case DropBase(base) => bus.RemoveBase(base);
    case Clear => bus.Clear();
  }

  method PerformChange(bus: Bus, op: Operation, ghost m: Reference, ghost mods: set<Module>)
    requires Follows(bus, m, mods) && Proper(op, mods) && (op.Bank? || op.Enable?)
    modifies mods
    ensures Follows(bus, Following(m, op, mods), mods)
  {
    hide Ordered, Holds;
    match op
    case Bank(x, number) => x.SetBank(number);
    case Enable(x, on) => x.valid := on;
  }

  /** Carries out one operation. */
  method Perform(bus: Bus, op: Operation, ghost m: Reference, ghost mods: set<Module>) returns (reply: Reply)
    requires Follows(bus, m, mods) && Proper(op, mods)
    modifies bus, mods, set x | x in mods :: x.backing
    ensures Follows(bus, Following(m, op, mods), mods) && reply == Replied(m, op)
  {
    hide Follows, Following, Answer, Takes;
    reply := Done;
    match op
    case Read(addr) =>
      var value := PerformRead(bus, addr, m, mods);
      reply := Byte(value);
    case Poke(addr) =>
      var value := PerformPoke(bus, addr, m, mods);
      reply := Byte(value);
    case Write(addr, value) =>
      PerformWrite(bus, addr, value, m, mods);
    case AddRead(p) =>
      var ok := PerformAdd(bus, true, p, m, mods);
      reply := Accepted(ok);
    case AddWrite(p) =>
      var ok := PerformAdd(bus, false, p, m, mods);
      reply := Accepted(ok);
    case DropModule(_) => PerformDrop(bus, op, m, mods);
    case DropBase(_) => PerformDrop(bus, op, m, mods);
    case Clear => PerformDrop(bus, op, m, mods);
    case Bank(_, _) => PerformChange(bus, op, m, mods);
    case Enable(_, _) => PerformChange(bus, op, m, mods);
  }

  /** Every run, whatever is added, removed, banked and switched in it: a mapped read
      returns the byte last written through any alias of the cell it then finds, an
      unmapped one the byte last driven on the bus. */
  method Run(bus: Bus, ops: seq<Operation>, ghost m: Reference, ghost mods: set<Module>) returns (replies: seq<Reply>)
    requires Follows(bus, m, mods) && forall op <- ops :: Proper(op, mods)
    modifies bus, mods, set x | x in mods :: x.backing
    ensures Follows(bus, Finally(m, ops, mods), mods) && replies == Replies(m, ops, mods)
    decreases |ops|
  {
    hide Follows, Following, Replied, Proper;
    replies := [];
    if ops != [] {
      var reply := Perform(bus, ops[0], m, mods);
      var rest := Run(bus, ops[1..], Following(m, ops[0], mods), mods);
      replies := [reply] + rest;
    }
  }

  /** From any bus and any bytes. */
  method RunFrom(bus: Bus, ops: seq<Operation>, ghost mods: set<Module>) returns (replies: seq<Reply>)
    requires bus.Valid() && (forall x <- mods :: x.Fits()) && forall op <- ops :: Proper(op, mods)
    requires (forall p <- bus.readPorts :: p.mod in mods) && (forall p <- bus.writePorts :: p.mod in mods)
    modifies bus, mods, set x | x in mods :: x.backing
    ensures bus.Valid() && replies == Replies(old(Snapshot(bus, mods)), ops, mods)
  {
    hide Replies, Snapshot, Proper;
    SnapshotFollows(bus, mods);
    replies := Run(bus, ops, Snapshot(bus, mods), mods);
  }
}
