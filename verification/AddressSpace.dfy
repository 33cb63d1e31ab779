/** The emulator's buses. Modules are placed at base addresses; a list of ports,
    sorted by base address, decodes every access. Reads outside any module see the
    byte last driven on the bus. */
module AddressSpace {
  const ADDRESSES: nat := 0x1_0000

  datatype Option<+T> = Some(value: T) | None

  /** Anything that can be placed on a bus and is backed by bytes: RAM, ROM, or a
      window of `size` bytes onto a larger image that bank switching moves. */
  class Module {
    const size: nat
    const writable: bool
    const backing: array<bv8>
    var valid: bool
    /** Where the window begins in its image. */
    var start: nat

    ghost predicate Fits()
      reads this`start
    {
      0 < size && start + size <= backing.Length
    }

    constructor (size: nat, writable: bool, backing: array<bv8>)
      requires 0 < size <= backing.Length
      ensures Fits() && valid && start == 0
      ensures this.size == size && this.writable == writable && this.backing == backing
    {
      this.size := size;
      this.writable := writable;
      this.backing := backing;
      valid := true;
      start := 0;
    }

    /** Read-only modules ignore writes. */
    method Store(offset: nat, value: bv8)
      requires Fits() && offset < size
      modifies backing
      ensures forall k | 0 <= k < backing.Length ::
        backing[k] == if writable && k == start + offset then value else old(backing[k])
    {
      if writable {
        backing[start + offset] := value;
      }
    }

    /** The number of whole windows in the image. */
    function BankCount(): nat
      requires 0 < size
    {
      backing.Length / size
    }

    /** Selects a bank; numbers past the image wrap around. */
    method SetBank(number: nat)
      requires 0 < size <= backing.Length
      modifies this`start
      ensures Fits() && start == (number % BankCount()) * size
    {
      QuotientPositive(backing.Length, size);
      start := (number % BankCount()) * size;
      LastBankFits(backing.Length, size, number % BankCount());
    }
  }

  lemma QuotientPositive(n: nat, d: nat)
    requires 0 < d <= n
    ensures n / d > 0
  {}

  lemma LastBankFits(n: nat, d: nat, k: nat)
    requires 0 < d && k < n / d
    ensures k * d + d <= n
  {
    var q := n / d;
    assert q * d <= n;
    assert (q - 1 - k) * d >= 0;
    assert (q - 1 - k) * d == q * d - d - k * d;
  }

  datatype Port = Port(mod: Module, base: nat)

  predicate Covers(p: Port, addr: nat) {
    p.base <= addr < p.base + p.mod.size
  }

  predicate Apart(p: Port, q: Port) {
    p.base + p.mod.size <= q.base || q.base + q.mod.size <= p.base
  }

  /** Sorted by base address, and no two ports share an address. */
  ghost predicate Ordered(ports: seq<Port>) {
    && (forall p <- ports :: p.base < ADDRESSES && 0 < p.mod.size)
    && (forall i, j :: 0 <= i < j < |ports| ==> ports[i].base + ports[i].mod.size <= ports[j].base)
  }

  /** The overlap check: every byte of the new port, its address wrapped to 16 bits,
      must be free. */
  ghost predicate EveryByteFree(p: Port, ports: seq<Port>) {
    forall i :: 0 <= i < p.mod.size ==> ByteFree(p, i, ports)
  }

  ghost predicate ByteFree(p: Port, i: nat, ports: seq<Port>) {
    Free((p.base + i) % ADDRESSES, ports)
  }

  ghost predicate Free(addr: nat, ports: seq<Port>) {
    forall q <- ports :: !Covers(q, addr)
  }

  /** Checking bytes catches every overlap, even of ports that run past the top. */
  lemma FreeIsApart(p: Port, ports: seq<Port>)
    requires p.base < ADDRESSES && 0 < p.mod.size && Ordered(ports)
    ensures EveryByteFree(p, ports) ==> forall q <- ports :: Apart(p, q)
    ensures p.base + p.mod.size <= ADDRESSES && (forall q <- ports :: Apart(p, q)) ==> EveryByteFree(p, ports)
  {
    if EveryByteFree(p, ports) {
      forall q <- ports ensures Apart(p, q) {
        var top := if p.base < q.base then q.base else p.base;
        if top < p.base + p.mod.size {
          assert ByteFree(p, top - p.base, ports);
          assert !Covers(q, top);
        }
      }
    }
    if p.base + p.mod.size <= ADDRESSES && forall q <- ports :: Apart(p, q) {
      forall i | 0 <= i < p.mod.size ensures ByteFree(p, i, ports) {
        forall q <- ports ensures !Covers(q, p.base + i) {
          assert Apart(p, q);
        }
      }
    }
  }

  /** A port that is apart from all others is accepted if and only if the bottom
      addresses are free that its end would wrap to, although it can never answer there.
      A port inside the address space wraps to none. */
  lemma AcceptedExactly(p: Port, ports: seq<Port>)
    requires p.base < ADDRESSES && 0 < p.mod.size && Ordered(ports)
    requires forall q <- ports :: Apart(p, q)
    ensures EveryByteFree(p, ports) <==>
      forall a :: 0 <= a < p.base + p.mod.size - ADDRESSES && a < ADDRESSES ==> Free(a, ports)
  {
    if EveryByteFree(p, ports) {
      forall a | 0 <= a < p.base + p.mod.size - ADDRESSES && a < ADDRESSES ensures Free(a, ports) {
        assert ByteFree(p, a + ADDRESSES - p.base, ports);
      }
    }
    if forall a :: 0 <= a < p.base + p.mod.size - ADDRESSES && a < ADDRESSES ==> Free(a, ports) {
      forall i | 0 <= i < p.mod.size ensures ByteFree(p, i, ports) {
        var a := (p.base + i) % ADDRESSES;
        if p.base <= a {
          forall q <- ports ensures !Covers(q, a) {
            assert Apart(p, q);
          }
        } else {
          WrappedByte(p.base, p.mod.size, i);
          assert Free(a, ports);
        }
      }
    }
  }

  /** A byte whose address wraps below the base wraps to one of the bottom addresses. */
  lemma WrappedByte(base: nat, size: nat, i: nat)
    requires base < ADDRESSES && i < size && (base + i) % ADDRESSES < base
    ensures (base + i) % ADDRESSES < base + size - ADDRESSES
  {
    assert base + i >= ADDRESSES;
  }

  /** A two-byte port at the last address is refused because of a port at address zero. */
  lemma WrapRefused(p: Port, q: Port)
    requires p.base == 0xFFFF && p.mod.size == 2 && q.base == 0 && q.mod.size == 1
    ensures Apart(p, q) && !EveryByteFree(p, [q])
  {
    assert q in [q] && Covers(q, 0);
    assert !Free(0, [q]);
    AcceptedExactly(p, [q]);
  }

  /** The list after appending p and sorting by base address. */
  function Placed(ports: seq<Port>, p: Port): (r: seq<Port>)
    ensures |r| == |ports| + 1
    ensures p in r && (forall q <- ports :: q in r) && (forall q <- r :: q in ports || q == p)
  {
    if ports == [] || p.base < ports[0].base then [p] + ports
    else [ports[0]] + Placed(ports[1..], p)
  }

  ghost predicate Sorted(ports: seq<Port>) {
    forall i, j :: 0 <= i < j < |ports| ==> ports[i].base <= ports[j].base
  }

  /** The last of the leading ports that begin at or below addr. */
  ghost function LastBelow(ports: seq<Port>, addr: nat): (r: Option<Port>)
    ensures r.Some? ==> r.value in ports && r.value.base <= addr
  {
    if ports == [] || addr < ports[0].base then None
    else if LastBelow(ports[1..], addr).None? then Some(ports[0])
    else LastBelow(ports[1..], addr)
  }

  /** The port that a search settles on. */
  ghost function PortAt(ports: seq<Port>, addr: nat): Option<Port>
    reads set p | p in ports :: p.mod
  {
    match LastBelow(ports, addr)
    case Some(p) => if p.mod.valid && Covers(p, addr) then Some(p) else None
    case None => None
  }

  lemma {:induction false} LastBelowAt(ports: seq<Port>, addr: nat, n: nat)
    requires n <= |ports|
    requires (forall k :: 0 <= k < n ==> ports[k].base <= addr) && (n < |ports| ==> addr < ports[n].base)
    ensures LastBelow(ports, addr) == if n == 0 then None else Some(ports[n - 1])
  {
    if n > 0 {
      LastBelowAt(ports[1..], addr, n - 1);
    }
  }

  /** In a disjoint list only the last port that begins at or below addr can contain it. */
  lemma {:induction false} CoveredIsLast(ports: seq<Port>, p: Port, addr: nat)
    requires Ordered(ports) && p in ports && Covers(p, addr)
    ensures LastBelow(ports, addr) == Some(p)
  {
    if p != ports[0] {
      CoveredIsLast(ports[1..], p, addr);
    }
  }

  lemma {:induction false} LastBelowPlaced(ports: seq<Port>, p: Port, addr: nat)
    requires Sorted(ports)
    ensures var q := LastBelow(ports, addr);
      LastBelow(Placed(ports, p), addr) == if p.base <= addr && (q.None? || q.value.base <= p.base) then Some(p) else q
  {
    if ports == [] || p.base < ports[0].base {
      assert Placed(ports, p)[1..] == ports;
    } else {
      LastBelowPlaced(ports[1..], p, addr);
      assert Placed(ports, p)[1..] == Placed(ports[1..], p);
    }
  }

  /** A module of no bytes is accepted anywhere, and hides the rest of the port it is
      placed into: exactly the addresses of that port from its own base on. When both begin
      at the same address this takes the empty module to be sorted behind the other; the
      order of equal bases is not fixed, and in front of it the module would hide nothing. */
  lemma EmptyModuleHides(ports: seq<Port>, z: Port, addr: nat)
    requires Ordered(ports) && z.mod.size == 0
    ensures EveryByteFree(z, ports)
    ensures PortAt(Placed(ports, z), addr) ==
      if exists q :: q in ports && Covers(q, addr) && q.base <= z.base <= addr then None else PortAt(ports, addr)
  {
    LastBelowPlaced(ports, z, addr);
    forall q | q in ports && Covers(q, addr) ensures LastBelow(ports, addr) == Some(q) {
      CoveredIsLast(ports, q, addr);
    }
  }

  lemma {:induction false} PlacedOrdered(ports: seq<Port>, p: Port)
    requires Ordered(ports) && p.base < ADDRESSES && 0 < p.mod.size
    requires forall q <- ports :: Apart(p, q)
    ensures Ordered(Placed(ports, p))
  {
    hide Placed;
    if ports == [] || p.base < ports[0].base {
      PlacedFront(ports, p);
      forall q <- ports ensures p.base + p.mod.size <= q.base {
        assert Apart(p, q) && p.base < q.base;
      }
      InFront(p, ports);
    } else {
      PlacedBehind(ports, p);
      PlacedOrdered(ports[1..], p);
      var r := Placed(ports[1..], p);
      forall q <- r ensures ports[0].base + ports[0].mod.size <= q.base {
        if q == p { assert Apart(p, ports[0]); }
      }
      InFront(ports[0], r);
    }
  }

  lemma PlacedFront(ports: seq<Port>, p: Port)
    requires ports == [] || p.base < ports[0].base
    ensures Placed(ports, p) == [p] + ports
  {}

  lemma PlacedBehind(ports: seq<Port>, p: Port)
    requires ports != [] && ports[0].base <= p.base
    ensures Placed(ports, p) == [ports[0]] + Placed(ports[1..], p)
  {}

  /** A port below all others may stand in front of them. */
  lemma InFront(p: Port, ports: seq<Port>)
    requires Ordered(ports) && p.base < ADDRESSES && 0 < p.mod.size
    requires forall q <- ports :: p.base + p.mod.size <= q.base
    ensures Ordered([p] + ports)
  {}

  /** An ordered list is determined by its ports: the order of additions is forgotten. */
  lemma {:induction false} SamePorts(a: seq<Port>, b: seq<Port>)
    requires Ordered(a) && Ordered(b)
    requires (forall p <- a :: p in b) && (forall p <- b :: p in a)
    ensures a == b
  {
    NothingInside(a, b);
    NothingInside(b, a);
    if a == [] {
      assert b == [];
    } else {
      assert a[0] in b;
      assert b[0] in a;
      assert a[0].base <= b[0].base <= a[0].base;
      assert a[0] == b[0];
      forall p ensures p in a[1..] <==> p in b[1..] {
        assert p in a <==> p == a[0] || p in a[1..];
        assert p in b <==> p == b[0] || p in b[1..];
        assert a[0] !in a[1..] && b[0] !in b[1..];
      }
      SamePorts(a[1..], b[1..]);
    }
  }

  lemma NothingInside(a: seq<Port>, b: seq<Port>)
    requires forall p <- a :: p in b
    ensures b == [] ==> a == []
  {
    if a != [] {
      assert a[0] in b;
    }
  }

  /** The port that answers at addr, if any. */
  ghost predicate Answers(ports: seq<Port>, p: Port, addr: nat)
    reads p.mod`valid
  {
    p in ports && Covers(p, addr) && p.mod.valid
  }

  lemma AtMostOneAnswers(ports: seq<Port>, p: Port, q: Port, addr: nat)
    requires Ordered(ports) && Answers(ports, p, addr) && Answers(ports, q, addr)
    ensures p == q
  {
    var i :| 0 <= i < |ports| && ports[i] == p;
    var j :| 0 <= j < |ports| && ports[j] == q;
    assert i == j;
  }

  function Stores(ports: seq<Port>): set<array<bv8>> {
    set p | p in ports :: p.mod.backing
  }

  /** A byte of some image. Two ports, or two windows, may name the same cell. */
  datatype Cell = Cell(store: array<bv8>, index: nat)

  /** The cell an access reaches through a list of ports. */
  ghost function Reached(ports: seq<Port>, addr: nat): (r: Option<Cell>)
    reads set p | p in ports :: p.mod
  {
    if exists p :: p in ports && Answers(ports, p, addr) then
      var p :| p in ports && Answers(ports, p, addr);
      Some(Cell(p.mod.backing, p.mod.start + (addr - p.base)))
    else None
  }

  lemma ReachedBy(ports: seq<Port>, p: Port, addr: nat)
    requires Ordered(ports) && Answers(ports, p, addr)
    ensures Reached(ports, addr) == Some(Cell(p.mod.backing, p.mod.start + (addr - p.base)))
  {
    forall q | Answers(ports, q, addr) ensures q == p {
      AtMostOneAnswers(ports, p, q, addr);
    }
  }

  /** `after` holds the ports of `before` and p. */
  ghost predicate SameBut(before: seq<Port>, after: seq<Port>, p: Port) {
    p in after && (forall q <- before :: q in after) && (forall q <- after :: q in before || q == p)
  }

  // ---- nametables --------------------------------------------------------------

  function TableBase(i: nat): nat {
    0x2000 + 0x400 * i
  }

  /** Apart from ports at the four nametable bases, nothing is in 0x2000-0x2FFF. */
  ghost predicate TablesOnly(ports: seq<Port>) {
    forall p <- ports :: (exists i :: 0 <= i < 4 && p.base == TableBase(i)) || OutsideTables(p)
  }

  predicate OutsideTables(p: Port) {
    p.base + p.mod.size <= 0x2000 || 0x3000 <= p.base
  }

  /** The ports outside the tables, and the first n tables. */
  ghost predicate TablesPlaced(ports: seq<Port>, tables: seq<Module>, n: nat, rest: seq<Port>)
    requires n <= |tables|
  {
    && (forall i :: 0 <= i < n ==> Port(tables[i], TableBase(i)) in ports)
    && (forall q <- rest :: OutsideTables(q) ==> q in ports)
    && (forall q <- ports :: (q in rest && OutsideTables(q)) || Table(tables, n, q))
  }

  ghost predicate Table(tables: seq<Module>, n: nat, q: Port)
    requires n <= |tables|
  {
    exists i :: 0 <= i < n && q == Port(tables[i], TableBase(i))
  }

  ghost predicate Removed(before: seq<Port>, after: seq<Port>, base: nat) {
    (forall q <- before :: q.base != base ==> q in after) && (forall q <- after :: q in before && q.base != base)
  }

  /** `after` is `before` without the ports at the first n table bases. */
  ghost predicate TablesRemoved(before: seq<Port>, after: seq<Port>, n: nat) {
    && (forall q <- before :: (forall i :: 0 <= i < n ==> q.base != TableBase(i)) ==> q in after)
    && (forall q <- after :: q in before && forall i :: 0 <= i < n ==> q.base != TableBase(i))
  }

  lemma RemovedNext(before: seq<Port>, mid: seq<Port>, after: seq<Port>, n: nat)
    requires TablesRemoved(before, mid, n) && Removed(mid, after, TableBase(n))
    ensures TablesRemoved(before, after, n + 1)
  {}

  lemma AllRemoved(before: seq<Port>, after: seq<Port>, tables: seq<Module>)
    requires Ordered(before) && TablesOnly(before) && TablesRemoved(before, after, 4)
    ensures TablesPlaced(after, tables, 0, before)
  {}

  lemma PlacedOnly(ports: seq<Port>, tables: seq<Module>, rest: seq<Port>)
    requires |tables| == 4 && TablesPlaced(ports, tables, 4, rest)
    ensures TablesOnly(ports)
  {
    forall q <- ports ensures (exists i :: 0 <= i < 4 && q.base == TableBase(i)) || OutsideTables(q) {
      if !OutsideTables(q) {
        assert Table(tables, 4, q);
      }
    }
  }

  lemma TableFits(ports: seq<Port>, tables: seq<Module>, n: nat, rest: seq<Port>)
    requires n < |tables| <= 4 && (forall m <- tables :: m.size == 0x400)
    requires Ordered(ports) && TablesPlaced(ports, tables, n, rest)
    ensures EveryByteFree(Port(tables[n], TableBase(n)), ports)
  {
    var p := Port(tables[n], TableBase(n));
    forall q <- ports ensures Apart(p, q) {
      if !OutsideTables(q) {
        assert Table(tables, n, q);
      }
    }
    FreeIsApart(p, ports);
  }

  lemma TableAdded(before: seq<Port>, after: seq<Port>, tables: seq<Module>, n: nat, rest: seq<Port>)
    requires n < |tables| && TablesPlaced(before, tables, n, rest)
    requires SameBut(before, after, Port(tables[n], TableBase(n)))
    ensures TablesPlaced(after, tables, n + 1, rest)
  {
    forall q <- after ensures (q in rest && OutsideTables(q)) || Table(tables, n + 1, q) {
      if q in before && Table(tables, n, q) {
        var i :| 0 <= i < n && q == Port(tables[i], TableBase(i));
        assert q == Port(tables[i], TableBase(i));
      }
    }
  }

  /** Every nametable address reaches the table placed there. */
  lemma TableReached(ports: seq<Port>, tables: seq<Module>, rest: seq<Port>, i: nat, offset: nat)
    requires Ordered(ports) && |tables| == 4 && TablesPlaced(ports, tables, 4, rest)
    requires i < 4 && offset < 0x400 == tables[i].size && tables[i].valid
    ensures Reached(ports, TableBase(i) + offset) == Some(Cell(tables[i].backing, tables[i].start + offset))
  {
    ReachedBy(ports, Port(tables[i], TableBase(i)), TableBase(i) + offset);
  }

  /** Every other address reaches what it reached before. */
  lemma OthersReached(before: seq<Port>, after: seq<Port>, tables: seq<Module>, addr: nat)
    requires Ordered(before) && Ordered(after) && TablesOnly(before)
    requires |tables| == 4 && (forall m <- tables :: m.size == 0x400) && TablesPlaced(after, tables, 4, before)
    requires forall p <- before :: !OutsideTables(p) ==> p.base + p.mod.size <= 0x3000
    requires !(0x2000 <= addr < 0x3000)
    ensures Reached(after, addr) == Reached(before, addr)
  {
    hide Ordered, TablesOnly, TablesPlaced, Reached, OutsideTables, Answers;
    forall p ensures Answers(before, p, addr) <==> Answers(after, p, addr) {
      SameAnswer(before, after, tables, p, addr);
    }
    if p :| Answers(before, p, addr) {
      ReachedBy(before, p, addr);
      ReachedBy(after, p, addr);
    } else {
      NobodyAnswers(before, addr);
      NobodyAnswers(after, addr);
    }
  }

  lemma SameAnswer(before: seq<Port>, after: seq<Port>, tables: seq<Module>, p: Port, addr: nat)
    requires TablesOnly(before)
    requires |tables| == 4 && (forall m <- tables :: m.size == 0x400) && TablesPlaced(after, tables, 4, before)
    requires forall p <- before :: !OutsideTables(p) ==> p.base + p.mod.size <= 0x3000
    requires !(0x2000 <= addr < 0x3000)
    ensures Answers(before, p, addr) <==> Answers(after, p, addr)
  {
    if p in after && !(p in before && OutsideTables(p)) {
      assert Table(tables, 4, p);
    }
  }

  /** A module placed at two bases is a mirror: both addresses are one cell. */
  lemma Mirrors(ports: seq<Port>, p: Port, q: Port, offset: nat)
    requires Ordered(ports) && p in ports && q in ports && p.mod == q.mod
    requires offset < p.mod.size && p.mod.valid
    ensures Reached(ports, p.base + offset) == Reached(ports, q.base + offset)
      == Some(Cell(p.mod.backing, p.mod.start + offset))
  {
    ReachedBy(ports, p, p.base + offset);
    ReachedBy(ports, q, q.base + offset);
  }

  lemma PortAtIfAny(ports: seq<Port>, addr: nat)
    ensures Ordered(ports) && PortAt(ports, addr).None? ==> forall p <- ports :: !Answers(ports, p, addr)
  {
    if Ordered(ports) && PortAt(ports, addr).None? {
      forall p <- ports ensures !Answers(ports, p, addr) {
        if Answers(ports, p, addr) {
          CoveredIsLast(ports, p, addr);
        }
      }
    }
  }

  class Bus {
    var readPorts: seq<Port>
    var writePorts: seq<Port>
    var lastBusValue: bv8

    ghost predicate Valid()
      reads this`readPorts, this`writePorts, set p | p in readPorts :: p.mod, set p | p in writePorts :: p.mod
    {
      && Ordered(readPorts) && Ordered(writePorts)
      && (forall p <- readPorts :: p.mod.Fits())
      && (forall p <- writePorts :: p.mod.Fits())
    }

    constructor ()
      ensures Valid() && readPorts == [] && writePorts == [] && lastBusValue == 0
    {
      readPorts, writePorts, lastBusValue := [], [], 0;
    }

    /** Appends and sorts, or refuses when a byte is taken. */
    method AddPortTo(ports: seq<Port>, p: Port) returns (ok: bool, added: seq<Port>)
      requires p.base < ADDRESSES
      ensures ok <==> EveryByteFree(p, ports)
      ensures added == if ok then Placed(ports, p) else ports
      ensures Ordered(ports) && 0 < p.mod.size ==> Ordered(added)
    {
      ok, added := true, ports;
      var i := 0;
      while i < p.mod.size
        invariant i <= p.mod.size
        invariant forall k :: 0 <= k < i ==> ByteFree(p, k, ports)
      {
        var taken := AnyCovers(ports, (p.base + i) % ADDRESSES);
        if taken {
          assert !ByteFree(p, i, ports);
          return false, ports;
        }
        i := i + 1;
      }
      if Ordered(ports) && 0 < p.mod.size {
        FreeIsApart(p, ports);
        PlacedOrdered(ports, p);
      }
      added := Placed(ports, p);
    }

    method AnyCovers(ports: seq<Port>, addr: nat) returns (any: bool)
      ensures any <==> !Free(addr, ports)
    {
      for i := 0 to |ports|
        invariant forall k :: 0 <= k < i ==> !Covers(ports[k], addr)
      {
        if Covers(ports[i], addr) {
          return true;
        }
      }
      return false;
    }

    method AddReadPort(p: Port) returns (ok: bool)
      requires Valid() && p.base < ADDRESSES && p.mod.Fits()
      modifies this`readPorts
      ensures Valid() && (ok <==> EveryByteFree(p, old(readPorts)))
      ensures ok ==> forall q :: q in readPorts <==> q in old(readPorts) || q == p
      ensures !ok ==> readPorts == old(readPorts)
    {
      ok, readPorts := AddPortTo(readPorts, p);
    }

    method AddWritePort(p: Port) returns (ok: bool)
      requires Valid() && p.base < ADDRESSES && p.mod.Fits()
      modifies this`writePorts
      ensures Valid() && (ok <==> EveryByteFree(p, old(writePorts)))
      ensures ok ==> forall q :: q in writePorts <==> q in old(writePorts) || q == p
      ensures !ok ==> writePorts == old(writePorts)
    {
      ok, writePorts := AddPortTo(writePorts, p);
    }

    /** One module for both directions. */
    method AddPort(p: Port) returns (ok: bool)
      requires Valid() && p.base < ADDRESSES && p.mod.Fits()
      modifies this`readPorts, this`writePorts
      ensures Valid()
      ensures ok <==> EveryByteFree(p, old(readPorts)) && EveryByteFree(p, old(writePorts))
      ensures ok ==> SameBut(old(readPorts), readPorts, p) && SameBut(old(writePorts), writePorts, p)
    {
      ok := AddReadPort(p);
      if ok {
        ok := AddWritePort(p);
      }
    }

    /** Keeps the ports that are not at a base address, in order. */
    method WithoutBase(ports: seq<Port>, base: nat) returns (kept: seq<Port>)
      requires Ordered(ports)
      ensures Ordered(kept)
      ensures forall q :: q in kept <==> q in ports && q.base != base
    {
      kept := [];
      for i := 0 to |ports|
        invariant forall q :: q in kept <==> q in ports[..i] && q.base != base
        invariant forall j, k :: 0 <= j < k < |kept| ==> kept[j].base + kept[j].mod.size <= kept[k].base
        invariant i < |ports| ==> forall q <- kept :: q.base + q.mod.size <= ports[i].base
      {
        if ports[i].base != base {
          kept := kept + [ports[i]];
        }
        assert ports[..i + 1] == ports[..i] + [ports[i]];
      }
      assert ports[..|ports|] == ports;
    }

    /** Keeps the ports of other modules, in order. */
    method WithoutModule(ports: seq<Port>, gone: Module) returns (kept: seq<Port>)
      requires Ordered(ports)
      ensures Ordered(kept)
      ensures forall q :: q in kept <==> q in ports && q.mod != gone
    {
      kept := [];
      for i := 0 to |ports|
        invariant forall q :: q in kept <==> q in ports[..i] && q.mod != gone
        invariant forall j, k :: 0 <= j < k < |kept| ==> kept[j].base + kept[j].mod.size <= kept[k].base
        invariant i < |ports| ==> forall q <- kept :: q.base + q.mod.size <= ports[i].base
      {
        if ports[i].mod != gone {
          kept := kept + [ports[i]];
        }
        assert ports[..i + 1] == ports[..i] + [ports[i]];
      }
      assert ports[..|ports|] == ports;
    }

    method RemoveModule(gone: Module)
      requires Valid()
      modifies this`readPorts, this`writePorts
      ensures Valid()
      ensures forall q :: q in readPorts <==> q in old(readPorts) && q.mod != gone
      ensures forall q :: q in writePorts <==> q in old(writePorts) && q.mod != gone
    {
      var r := WithoutModule(readPorts, gone);
      var w := WithoutModule(writePorts, gone);
      readPorts, writePorts := r, w;
    }

    method RemoveBase(base: nat)
      requires Valid()
      modifies this`readPorts, this`writePorts
      ensures Valid()
      ensures Removed(old(readPorts), readPorts, base) && Removed(old(writePorts), writePorts, base)
    {
      var r := WithoutBase(readPorts, base);
      var w := WithoutBase(writePorts, base);
      readPorts, writePorts := r, w;
    }

    method RemoveTable(i: nat, ghost r: seq<Port>, ghost w: seq<Port>)
      requires Valid() && TablesRemoved(r, readPorts, i) && TablesRemoved(w, writePorts, i)
      modifies this`readPorts, this`writePorts
      ensures Valid() && TablesRemoved(r, readPorts, i + 1) && TablesRemoved(w, writePorts, i + 1)
    {
      hide TablesRemoved, Removed, Ordered;
      ghost var readBefore, writeBefore := readPorts, writePorts;
      RemoveBase(TableBase(i));
      RemovedNext(r, readBefore, readPorts, i);
      RemovedNext(w, writeBefore, writePorts, i);
    }

    /** Clears the nametable ports, then places the four given tables. */
    method SetMirroring(tables: seq<Module>)
      requires Valid() && TablesOnly(readPorts) && TablesOnly(writePorts)
      requires |tables| == 4 && forall m <- tables :: m.Fits() && m.size == 0x400
      modifies this`readPorts, this`writePorts
      ensures Valid() && TablesOnly(readPorts) && TablesOnly(writePorts)
      ensures TablesPlaced(readPorts, tables, 4, old(readPorts))
      ensures TablesPlaced(writePorts, tables, 4, old(writePorts))
    {
      ghost var r, w := readPorts, writePorts;
      RemoveTables(r, w);
      AllRemoved(r, readPorts, tables);
      AllRemoved(w, writePorts, tables);
      PlaceTables(tables, r, w);
      PlacedOnly(readPorts, tables, r);
      PlacedOnly(writePorts, tables, w);
    }

    method RemoveTables(ghost r: seq<Port>, ghost w: seq<Port>)
      requires Valid() && r == readPorts && w == writePorts
      modifies this`readPorts, this`writePorts
      ensures Valid() && TablesRemoved(r, readPorts, 4) && TablesRemoved(w, writePorts, 4)
    {
      assert TablesRemoved(r, readPorts, 0) && TablesRemoved(w, writePorts, 0);
      hide TablesRemoved, Ordered;
      RemoveTable(0, r, w);
      RemoveTable(1, r, w);
      RemoveTable(2, r, w);
      RemoveTable(3, r, w);
    }

    method PlaceTables(tables: seq<Module>, ghost r: seq<Port>, ghost w: seq<Port>)
      requires |tables| == 4 && (forall m <- tables :: m.Fits() && m.size == 0x400)
      requires Valid() && TablesPlaced(readPorts, tables, 0, r) && TablesPlaced(writePorts, tables, 0, w)
      modifies this`readPorts, this`writePorts
      ensures Valid() && TablesPlaced(readPorts, tables, 4, r) && TablesPlaced(writePorts, tables, 4, w)
    {
      hide TablesPlaced, Ordered;
      PlaceTable(tables, 0, r, w);
      PlaceTable(tables, 1, r, w);
      PlaceTable(tables, 2, r, w);
      PlaceTable(tables, 3, r, w);
    }

    method PlaceTable(tables: seq<Module>, i: nat, ghost r: seq<Port>, ghost w: seq<Port>)
      requires i < |tables| <= 4 && (forall m <- tables :: m.Fits() && m.size == 0x400)
      requires Valid() && TablesPlaced(readPorts, tables, i, r) && TablesPlaced(writePorts, tables, i, w)
      modifies this`readPorts, this`writePorts
      ensures Valid() && TablesPlaced(readPorts, tables, i + 1, r) && TablesPlaced(writePorts, tables, i + 1, w)
    {
      hide TablesPlaced, EveryByteFree, SameBut, Ordered;
      ghost var readBefore, writeBefore := readPorts, writePorts;
      TableFits(readPorts, tables, i, r);
      TableFits(writePorts, tables, i, w);
      var ok := AddPort(Port(tables[i], TableBase(i)));
      TableAdded(readBefore, readPorts, tables, i, r);
      TableAdded(writeBefore, writePorts, tables, i, w);
    }

    method Clear()
      modifies this`readPorts, this`writePorts
      ensures Valid() && readPorts == [] && writePorts == []
    {
      readPorts, writePorts := [], [];
    }

    /** Walks to the first port above addr; only the one before it can answer. */
    method FindPort(addr: nat, ports: seq<Port>) returns (found: Option<Port>)
      ensures found == PortAt(ports, addr)
      ensures found.Some? ==> Answers(ports, found.value, addr)
      ensures Ordered(ports) && found.None? ==> forall p <- ports :: !Answers(ports, p, addr)
    {
      var it := 0;
      while it < |ports| && ports[it].base <= addr
        invariant it <= |ports|
        invariant forall k :: 0 <= k < it ==> ports[k].base <= addr
      {
        it := it + 1;
      }
      LastBelowAt(ports, addr, it);
      PortAtIfAny(ports, addr);
      if it == 0 {
        return None;
      }
      it := it - 1;
      if ports[it].mod.valid && addr < ports[it].base + ports[it].mod.size {
        found := Some(ports[it]);
      } else {
        found := None;
      }
    }

    /** A mapped read drives the bus; an unmapped one sees what was driven last. */
    method Read(addr: nat) returns (value: bv8)
      requires Valid()
      modifies this`lastBusValue
      ensures lastBusValue == value
      ensures match Reached(readPorts, addr)
        case None => value == old(lastBusValue)
        case Some(cell) => cell.index < cell.store.Length && value == cell.store[cell.index]
    {
      var port := FindPort(addr, readPorts);
      match port
      case None =>
        value := lastBusValue;
      case Some(p) =>
        ReachedBy(readPorts, p, addr);
        value := p.mod.backing[p.mod.start + (addr - p.base)];
        lastBusValue := value;
    }

    /** Reading without side effects. */
    method Poke(addr: nat) returns (value: bv8)
      requires Valid()
      ensures match Reached(readPorts, addr)
        case None => value == lastBusValue
        case Some(cell) => cell.index < cell.store.Length && value == cell.store[cell.index]
    {
      var port := FindPort(addr, readPorts);
      match port
      case None =>
        value := lastBusValue;
      case Some(p) =>
        ReachedBy(readPorts, p, addr);
        value := p.mod.backing[p.mod.start + (addr - p.base)];
    }

    /** A write always drives the bus, and stores through a writable module. */
    method Write(addr: nat, value: bv8)
      requires Valid()
      modifies this`lastBusValue, Stores(writePorts)
      ensures lastBusValue == value
      ensures var target := Target(writePorts, addr);
        forall a: array<bv8>, k: nat | a in Stores(writePorts) && k < a.Length ::
          a[k] == if target == Some(Cell(a, k)) then value else old(a[k])
    {
      hide Target, Ordered;
      var port := FindPort(addr, writePorts);
      lastBusValue := value;
      if port.Some? {
        StoreOf(writePorts, port.value);
        port.value.mod.Store(addr - port.value.base, value);
        AtMostOneWriter(writePorts, port.value, addr);
      } else {
        NobodyAnswers(writePorts, addr);
      }
    }
  }

  lemma NobodyAnswers(ports: seq<Port>, addr: nat)
    requires forall p <- ports :: !Answers(ports, p, addr)
    ensures Target(ports, addr) == None && Reached(ports, addr) == None
  {}

  lemma StoreOf(ports: seq<Port>, p: Port)
    requires p in ports
    ensures p.mod.backing in Stores(ports)
  {}

  /** The cell a write changes: writes to read-only modules are lost. */
  ghost function Target(ports: seq<Port>, addr: nat): (r: Option<Cell>)
    reads set p | p in ports :: p.mod
  {
    if exists p :: p in ports && Answers(ports, p, addr) && p.mod.writable then Reached(ports, addr) else None
  }

  lemma AtMostOneWriter(ports: seq<Port>, p: Port, addr: nat)
    requires Ordered(ports) && Answers(ports, p, addr)
    ensures Target(ports, addr) ==
      if p.mod.writable then Some(Cell(p.mod.backing, p.mod.start + (addr - p.base))) else None
  {
    ReachedBy(ports, p, addr);
    forall q | Answers(ports, q, addr) ensures q == p {
      AtMostOneAnswers(ports, p, q, addr);
    }
  }

  lemma TargetInStores(ports: seq<Port>, addr: nat)
    requires forall p <- ports :: p.mod.Fits()
    ensures Target(ports, addr).Some? ==> Target(ports, addr).value.store in Stores(ports)
  {}
}
