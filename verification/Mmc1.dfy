/** The MMC1 cartridge: a serial port fills four 5-bit registers one bit at a time,
    and the registers move the windows through which the CPU and the PPU see the
    cartridge's images. */
module Mmc1 {
  import opened Bits
  import opened AddressSpace
  import opened Arith

  const PRG_BANK: nat := 0x4000
  const CHR_BANK: nat := 0x1000
  const CRT_BANK: nat := 0x2000
  /** PRG images of this size have a 256 KB outer bank. */
  const PRG_LARGE: nat := 0x80000

  // ---- what the registers mean -------------------------------------------------

  /** The register file. `bits` are the bits received since the last commit. */
  datatype Regs = Regs(ctrl: nat, chr0: nat, chr1: nat, prg: nat, lastChr: nat, bits: seq<nat>)

  predicate WellFormed(r: Regs) {
    && r.ctrl < 32 && r.chr0 < 32 && r.chr1 < 32 && r.prg < 32 && r.lastChr < 2
    && |r.bits| < 5 && forall i :: 0 <= i < |r.bits| ==> r.bits[i] < 2
  }

  /** A number from its bits, lowest first. */
  function Packed(bits: seq<nat>): nat {
    if bits == [] then 0 else bits[0] + 2 * Packed(bits[1..])
  }

  /** One accepted write. Bit 7 drops the bits received so far and fixes the last PRG
      bank; any other value contributes its lowest bit, and the fifth bit commits the
      number to the register chosen by address bits 13 and 14. */
  function Accept(r: Regs, addr: nat, value: bv8): Regs {
    if Bit(value, 7) == 1 then
      r.(bits := [], ctrl := r.ctrl - r.ctrl / 4 % 4 * 4 + 12)
    else
      var bits := r.bits + [Bit(value, 0)];
      if |bits| < 5 then r.(bits := bits)
      else Commit(r.(bits := []), addr / 0x2000 % 4, Packed(bits))
  }

  function Commit(r: Regs, select: nat, value: nat): Regs {
    if select == 0 then r.(ctrl := value)
    else if select == 1 then r.(chr0 := value, lastChr := 0)
    else if select == 2 then r.(chr1 := value, lastChr := 1)
    else r.(prg := value)
  }

  lemma {:induction false} PackedBound(bits: seq<nat>)
    requires forall i :: 0 <= i < |bits| ==> bits[i] < 2
    ensures Packed(bits) < Pow(2, |bits|)
  {
    if bits != [] {
      PackedBound(bits[1..]);
    }
  }

  lemma {:induction false} PackedSnoc(bits: seq<nat>, b: nat)
    ensures Packed(bits + [b]) == Packed(bits) + b * Pow(2, |bits|)
  {
    if bits == [] {
      assert (bits + [b])[1..] == [];
    } else {
      PackedSnoc(bits[1..], b);
      assert (bits + [b])[1..] == bits[1..] + [b];
    }
  }

  lemma AcceptWellFormed(r: Regs, addr: nat, value: bv8)
    requires WellFormed(r)
    ensures WellFormed(Accept(r, addr, value))
  {
    PackedBound(r.bits + [Bit(value, 0)]);
    assert Pow(2, 5) == 32;
  }

  /** Five writes without bit 7 put their lowest bits, the first lowest, in the
      register picked by the fifth address, whatever the first four addresses were. */
  lemma FiveWrites(r: Regs, addrs: seq<nat>, values: seq<bv8>)
    requires r.bits == [] && |addrs| == |values| == 5
    requires forall v <- values :: Bit(v, 7) == 0
    ensures AcceptAll(r, addrs, values) == Commit(r, addrs[4] / 0x2000 % 4,
      Bit(values[0], 0) + 2 * Bit(values[1], 0) + 4 * Bit(values[2], 0) + 8 * Bit(values[3], 0)
      + 16 * Bit(values[4], 0))
  {
    hide Accept, AcceptAll, Commit, Bit;
    var v := values;
    Unfold5(r, addrs, v);
    FourBits(r, addrs, v);
    AcceptFifth(r, addrs[4], v[4], Bit(v[0], 0), Bit(v[1], 0), Bit(v[2], 0), Bit(v[3], 0));
  }

  lemma FourBits(r: Regs, addrs: seq<nat>, v: seq<bv8>)
    requires r.bits == [] && |addrs| == |v| == 5 && forall b <- v :: Bit(b, 7) == 0
    ensures Accept(Accept(Accept(Accept(r, addrs[0], v[0]), addrs[1], v[1]), addrs[2], v[2]), addrs[3], v[3])
         == r.(bits := [Bit(v[0], 0), Bit(v[1], 0), Bit(v[2], 0), Bit(v[3], 0)])
  {
    hide Accept, Bit;
    var b0, b1, b2, b3 := Bit(v[0], 0), Bit(v[1], 0), Bit(v[2], 0), Bit(v[3], 0);
    AcceptEarly(r, addrs[0], v[0], [b0]);
    AcceptEarly(r.(bits := [b0]), addrs[1], v[1], [b0, b1]);
    AcceptEarly(r.(bits := [b0, b1]), addrs[2], v[2], [b0, b1, b2]);
    AcceptEarly(r.(bits := [b0, b1, b2]), addrs[3], v[3], [b0, b1, b2, b3]);
  }

  lemma AcceptEarly(r: Regs, addr: nat, value: bv8, more: seq<nat>)
    requires |r.bits| < 4 && Bit(value, 7) == 0 && more == r.bits + [Bit(value, 0)]
    ensures Accept(r, addr, value) == r.(bits := more)
  {}

  lemma AcceptFifth(r: Regs, addr: nat, value: bv8, b0: nat, b1: nat, b2: nat, b3: nat)
    requires r.bits == [] && Bit(value, 7) == 0
    ensures Accept(r.(bits := [b0, b1, b2, b3]), addr, value)
         == Commit(r, addr / 0x2000 % 4, b0 + 2 * b1 + 4 * b2 + 8 * b3 + 16 * Bit(value, 0))
  {
    hide Commit, Bit;
    var b := [b0, b1, b2, b3, Bit(value, 0)];
    assert [b0, b1, b2, b3] + [Bit(value, 0)] == b;
    PackedFive(b);
    assert r.(bits := [b0, b1, b2, b3]).(bits := []) == r;
  }

  lemma PackedFive(b: seq<nat>)
    requires |b| == 5
    ensures Packed(b) == b[0] + 2 * b[1] + 4 * b[2] + 8 * b[3] + 16 * b[4]
  {
    assert b[4..][1..] == [] && b[3..][1..] == b[4..] && b[2..][1..] == b[3..] && b[1..][1..] == b[2..];
    assert Packed(b[4..]) == b[4];
    assert Packed(b[3..]) == b[3] + 2 * b[4];
    assert Packed(b[2..]) == b[2] + 2 * b[3] + 4 * b[4];
    assert Packed(b[1..]) == b[1] + 2 * b[2] + 4 * b[3] + 8 * b[4];
  }

  function AcceptAll(r: Regs, addrs: seq<nat>, values: seq<bv8>): Regs
    requires |addrs| == |values|
    decreases |values|
  {
    if values == [] then r else AcceptAll(Accept(r, addrs[0], values[0]), addrs[1..], values[1..])
  }

  lemma Unfold5(r: Regs, a: seq<nat>, v: seq<bv8>)
    requires |a| == |v| == 5
    ensures AcceptAll(r, a, v) ==
      Accept(Accept(Accept(Accept(Accept(r, a[0], v[0]), a[1], v[1]), a[2], v[2]), a[3], v[3]), a[4], v[4])
  {
    assert a[1..][1..] == a[2..] && a[2..][1..] == a[3..] && a[3..][1..] == a[4..] && a[4..][1..] == [];
    assert v[1..][1..] == v[2..] && v[2..][1..] == v[3..] && v[3..][1..] == v[4..] && v[4..][1..] == [];
    var r1 := Accept(r, a[0], v[0]);
    var r2 := Accept(r1, a[1], v[1]);
    var r3 := Accept(r2, a[2], v[2]);
    var r4 := Accept(r3, a[3], v[3]);
    assert AcceptAll(r1, a[1..], v[1..]) == AcceptAll(r2, a[2..], v[2..]);
    assert AcceptAll(r2, a[2..], v[2..]) == AcceptAll(r3, a[3..], v[3..]);
    assert AcceptAll(r3, a[3..], v[3..]) == AcceptAll(r4, a[4..], v[4..]);
    assert AcceptAll(r4, a[4..], v[4..]) == Accept(r4, a[4], v[4]);
  }

  // ---- where the CPU and the PPU look ------------------------------------------

  /** Position in an image of `size` bytes of the byte at CPU address 0x8000 + off. */
  function PrgIndex(r: Regs, size: nat, off: nat): nat
    requires size >= PRG_BANK
  {
    var mode, b := r.ctrl / 4 % 4, r.prg % 16;
    if mode < 2 then ((b - b % 2) * PRG_BANK + off) % size
    else if mode == 2 then (if off < PRG_BANK then off else (b * PRG_BANK + (off - PRG_BANK)) % size)
    else if off < PRG_BANK then (b * PRG_BANK + off) % size
    else size - PRG_BANK + (off - PRG_BANK)
  }

  /** Whether the outer bank of a 512 KB image takes part: it comes from the CHR
      register written last, which must not be CHR 1 in 8 KB mode. */
  predicate OuterApplies(r: Regs) {
    r.lastChr == 0 || r.ctrl / 16 == 1
  }

  function OuterReg(r: Regs): nat {
    if r.lastChr == 0 then r.chr0 else r.chr1
  }

  /** A 512 KB image behaves like the 256 KB half the outer bank picks, or, when the
      outer bank does not take part, like one image. */
  function PrgByte(r: Regs, size: nat, off: nat): nat
    requires size >= PRG_BANK
  {
    if size == PRG_LARGE && OuterApplies(r) then
      OuterReg(r) / 16 % 2 * (PRG_LARGE / 2) + PrgIndex(r, PRG_LARGE / 2, off)
    else PrgIndex(r, size, off)
  }

  /** Position in the CHR image of the byte at PPU address off < 0x2000. */
  function ChrByte(r: Regs, size: nat, off: nat): nat
    requires size > 0
  {
    if r.ctrl / 16 == 0 then ((r.chr0 - r.chr0 % 2) * CHR_BANK + off) % size
    else if off < CHR_BANK then (r.chr0 * CHR_BANK + off) % size
    else (r.chr1 * CHR_BANK + (off - CHR_BANK)) % size
  }

  /** Which of the two name tables the PPU sees at 0x2000 + off: the first or the second
      throughout, or the one that address bit 10 or 11 selects. */
  predicate SecondTable(r: Regs, off: nat) {
    match r.ctrl % 4
    case 0 => false
    case 1 => true
    case 2 => off / 0x400 % 2 == 1
    case _ => off / 0x800 % 2 == 1
  }

  /** Every position is inside the image. */
  lemma PrgInBounds(r: Regs, size: nat, off: nat)
    requires size % PRG_BANK == 0 && 0 < size && off < 2 * PRG_BANK
    ensures PrgByte(r, size, off) < size
  {}

  lemma ChrInBounds(r: Regs, size: nat, off: nat)
    requires 0 < size
    ensures ChrByte(r, size, off) < size
  {}

  /** The mapped byte depends on the bank only through whole windows: bank k of an
      image of n banks starts at (k mod n) * bank, so an offset inside the window
      lands where plain address arithmetic modulo the image does. */
  lemma WindowIndex(k: nat, bank: nat, count: nat, off: nat)
    requires 0 < count && off < bank
    ensures 0 < count * bank
    ensures (k % count) * bank + off == (k * bank + off) % (count * bank)
  {
    var q, m := k / count, k % count;
    InsideImage(m, bank, count, off);
    assert k * bank + off == (count * bank) * q + (m * bank + off) by {
      assert k == count * q + m;
      Distribute(count, q, m, bank);
    }
    DivUnique(k * bank + off, count * bank, q, m * bank + off);
  }

  lemma InsideImage(m: nat, bank: nat, count: nat, off: nat)
    requires m < count && off < bank
    ensures m * bank + off < count * bank
  {
    MulMonotone(bank, m, count);
    assert m * bank <= (count - 1) * bank == count * bank - bank;
  }

  lemma Distribute(count: nat, q: nat, m: nat, bank: nat)
    ensures (count * q + m) * bank == (count * bank) * q + m * bank
  {}

  // ---- the write filter --------------------------------------------------------

  /** The cycle counter is 32 bits wide. */
  const COUNTER: nat := 0x1_0000_0000

  /** A write is dropped when the counter has not passed the stored byte by more than
      two. */
  predicate Dropped(cycles: nat, lastWriteCycle: nat) {
    cycles <= lastWriteCycle + 2
  }

  /** The stored byte: the low eight bits of the cycle of the last accepted write, or its
      initial value before there has been one. Cycles are counted from power-on. */
  function StoredCycle(accepted: Option<nat>): (b: nat)
    ensures b < 256
  {
    match accepted
    case None => 0xFF
    case Some(cycle) => cycle % COUNTER % 256
  }

  /** Accepting a write at a cycle stores its low byte. */
  lemma StoredCycleAfter(cycle: nat)
    ensures StoredCycle(Some(cycle)) == cycle % COUNTER % 256 == cycle % 256
  {}

  /** What the filter is for: dropping a write within two cycles of an accepted one. */
  predicate TooSoon(accepted: Option<nat>, cycle: nat) {
    accepted.Some? && cycle <= accepted.value + 2
  }

  /** When the filter does what it is for. Before the first accepted write the counter
      must have passed cycle 257. Just after one, that write must have come in the first
      256 cycles of the counter, or the counter must have wrapped in between. Later, the
      counter must not have wrapped, or have passed the stored byte again. */
  predicate FilterCondition(accepted: Option<nat>, cycle: nat) {
    match accepted
    case None => cycle % COUNTER > 257
    case Some(last) =>
      if cycle <= last + 2 then last % COUNTER < 256 || cycle / COUNTER > last / COUNTER
      else cycle / COUNTER == last / COUNTER || cycle % COUNTER > last % 256 + 2
  }

  /** The filter drops a write exactly when it comes within two cycles of an accepted one,
      if and only if the condition holds: for every history and every later cycle. */
  lemma FilterExact(accepted: Option<nat>, cycle: nat)
    requires accepted.Some? ==> accepted.value < cycle
    ensures (Dropped(cycle % COUNTER, StoredCycle(accepted)) <==> TooSoon(accepted, cycle))
      <==> FilterCondition(accepted, cycle)
  {
    if accepted.Some? {
      var last := accepted.value;
      Epochs(last, cycle);
      StoredCycleAfter(last);
      if cycle <= last + 2 && cycle / COUNTER == last / COUNTER {
        assert cycle % COUNTER - last % COUNTER == cycle - last;
        ByteOfCount(last % COUNTER);
      } else if cycle / COUNTER == last / COUNTER {
        assert cycle % COUNTER > last % COUNTER + 2;
        ByteOfCount(last % COUNTER);
      } else if cycle <= last + 2 {
        assert cycle / COUNTER == last / COUNTER + 1 && cycle % COUNTER < 2;
      }
    }
  }

  lemma Epochs(last: nat, cycle: nat)
    requires last < cycle
    ensures last == COUNTER * (last / COUNTER) + last % COUNTER
    ensures cycle == COUNTER * (cycle / COUNTER) + cycle % COUNTER
    ensures cycle / COUNTER >= last / COUNTER
  {}

  lemma ByteOfCount(n: nat)
    ensures n % 256 <= n && (n < 256 <==> n == n % 256) && (n >= 256 ==> n % 256 + 256 <= n)
  {}

  /** From cycle 256 of the counter on, a second write is accepted until the counter
      wraps: read-modify-write instructions write twice. */
  lemma NeverDroppedLater(last: nat, cycle: nat)
    requires 256 <= last % COUNTER && last < cycle && cycle / COUNTER == last / COUNTER
    ensures !Dropped(cycle % COUNTER, StoredCycle(Some(last)))
  {
    Epochs(last, cycle);
    ByteOfCount(last % COUNTER);
    StoredCycleAfter(last);
  }

  // ---- banks -------------------------------------------------------------------

  /** The number of the bank a window is set to. */
  function BankOf(m: Module): nat
    requires m.size > 0
    reads m`start
  {
    m.start / m.size
  }

  /** The bank numbers the code hands to the PRG windows before the outer bank. */
  function LowBank(r: Regs): nat {
    var b := r.prg % 16;
    if r.ctrl / 4 % 4 < 2 then b - b % 2 else if r.ctrl / 4 % 4 == 2 then 0 else b
  }

  function HighBank(r: Regs, count: nat): nat
    requires count > 0
  {
    var b := r.prg % 16;
    if r.ctrl / 4 % 4 < 2 then b - b % 2 + 1 else if r.ctrl / 4 % 4 == 2 then b else count - 1
  }

  /** The banks after the outer bank has been applied. */
  function LowSlot(r: Regs, count: nat): nat
    requires count > 0
  {
    if count == 32 && OuterApplies(r) then LowBank(r) % count % 16 + OuterReg(r) / 16 % 2 * 16 else LowBank(r)
  }

  function HighSlot(r: Regs, count: nat): nat
    requires count > 0
  {
    if count == 32 && OuterApplies(r) then HighBank(r, count) % count % 16 + OuterReg(r) / 16 % 2 * 16
    else HighBank(r, count)
  }

  lemma LowMeaning(r: Regs, count: nat, off: nat)
    requires count > 0 && off < PRG_BANK
    ensures LowBank(r) % count * PRG_BANK + off == PrgIndex(r, count * PRG_BANK, off)
  {
    WindowIndex(LowBank(r), PRG_BANK, count, off);
  }

  lemma HighMeaning(r: Regs, count: nat, off: nat)
    requires count > 0 && off < PRG_BANK
    ensures HighBank(r, count) % count * PRG_BANK + off == PrgIndex(r, count * PRG_BANK, PRG_BANK + off)
  {
    if r.ctrl / 4 % 4 == 3 {
      DivUnique(count - 1, count, 0, count - 1);
    } else {
      WindowIndex(HighBank(r, count), PRG_BANK, count, off);
      assert r.ctrl / 4 % 4 < 2 ==>
        HighBank(r, count) * PRG_BANK + off == (r.prg % 16 - r.prg % 16 % 2) * PRG_BANK + (PRG_BANK + off);
    }
  }

  /** With the outer bank, both windows move within the chosen half. */
  lemma OuterLow(r: Regs, off: nat)
    requires off < PRG_BANK && OuterApplies(r)
    ensures LowSlot(r, 32) % 32 * PRG_BANK + off == PrgByte(r, PRG_LARGE, off)
  {
    LowMeaning(r, 16, off);
    BankFacts(r);
    hide PrgIndex, LowBank, HighBank, OuterReg;
    InHalf(LowBank(r), OuterReg(r) / 16 % 2);
  }

  lemma OuterHigh(r: Regs, off: nat)
    requires off < PRG_BANK && OuterApplies(r)
    ensures HighSlot(r, 32) % 32 * PRG_BANK + off == PrgByte(r, PRG_LARGE, PRG_BANK + off)
  {
    HighMeaning(r, 16, off);
    BankFacts(r);
    hide PrgIndex, LowBank, HighBank, OuterReg;
    InHalf(HighBank(r, 16), OuterReg(r) / 16 % 2);
  }

  lemma BankFacts(r: Regs)
    ensures LowBank(r) < 16 && HighBank(r, 32) < 32 && HighBank(r, 32) % 16 == HighBank(r, 16) < 16
    ensures LowBank(r) % 32 % 16 == LowBank(r) && HighBank(r, 32) % 32 == HighBank(r, 32)
    ensures OuterReg(r) / 16 % 2 < 2
  {}

  lemma InHalf(b: nat, half: nat)
    requires b < 16 && half < 2
    ensures b % 16 == b && (b + half * 16) % 32 == b + half * 16
    ensures (b + half * 16) * PRG_BANK == half * (PRG_LARGE / 2) + b * PRG_BANK
  {}

  /** The two CPU windows together show the PRG bytes the registers ask for. */
  lemma PrgMeaning(r: Regs, count: nat, off: nat)
    requires count > 0 && off < PRG_BANK
    ensures LowSlot(r, count) % count * PRG_BANK + off == PrgByte(r, count * PRG_BANK, off)
    ensures HighSlot(r, count) % count * PRG_BANK + off == PrgByte(r, count * PRG_BANK, PRG_BANK + off)
  {
    if count == 32 && OuterApplies(r) {
      OuterLow(r, off);
      OuterHigh(r, off);
    } else {
      LowMeaning(r, count, off);
      HighMeaning(r, count, off);
    }
  }

  function ChrLowSlot(r: Regs): nat {
    if r.ctrl / 16 == 0 then r.chr0 - r.chr0 % 2 else r.chr0
  }

  function ChrHighSlot(r: Regs): nat {
    if r.ctrl / 16 == 0 then r.chr0 - r.chr0 % 2 + 1 else r.chr1
  }

  /** The same for the two PPU windows. */
  lemma ChrMeaning(r: Regs, count: nat, off: nat)
    requires count > 0 && off < CHR_BANK
    ensures ChrLowSlot(r) % count * CHR_BANK + off == ChrByte(r, count * CHR_BANK, off)
    ensures ChrHighSlot(r) % count * CHR_BANK + off == ChrByte(r, count * CHR_BANK, CHR_BANK + off)
  {
    ChrLowMeaning(r, count, off);
    ChrHighMeaning(r, count, off);
  }

  lemma ChrLowMeaning(r: Regs, count: nat, off: nat)
    requires count > 0 && off < CHR_BANK
    ensures ChrLowSlot(r) % count * CHR_BANK + off == ChrByte(r, count * CHR_BANK, off)
  {
    WindowIndex(ChrLowSlot(r), CHR_BANK, count, off);
  }

  lemma ChrHighMeaning(r: Regs, count: nat, off: nat)
    requires count > 0 && off < CHR_BANK
    ensures ChrHighSlot(r) % count * CHR_BANK + off == ChrByte(r, count * CHR_BANK, CHR_BANK + off)
  {
    WindowIndex(ChrHighSlot(r), CHR_BANK, count, off);
    assert r.ctrl / 16 == 0 ==>
      ChrHighSlot(r) * CHR_BANK + off == (r.chr0 - r.chr0 % 2) * CHR_BANK + (CHR_BANK + off);
  }

  /** What is on the bus when the ROM and the CPU drive it at once. */
  function Conflicting(value: bv8, seen: bv8): bv8 {
    value & seen
  }

  /** Only the bits that both drive high arrive. */
  lemma ConflictBits(value: bv8, seen: bv8, n: nat)
    requires n < 8
    ensures Bit(Conflicting(value, seen), n) == 1 <==> Bit(value, n) == 1 && Bit(seen, n) == 1
  {
    ConflictShift(value, seen, ShiftCount(n));
    hide Conflicting, Value, BottomAfter, ShiftCount, Bit;
    BitIsOne(Conflicting(value, seen), n);
    BitIsOne(value, n);
    BitIsOne(seen, n);
  }

  lemma ConflictShift(value: bv8, seen: bv8, k: bv8)
    requires k < 8
    ensures BottomAfter(Conflicting(value, seen), k) == 1 <==> BottomAfter(value, k) == 1 && BottomAfter(seen, k) == 1
  {}

  predicate Below(ports: seq<Port>, top: nat) {
    forall p <- ports :: p.base + p.mod.size <= top
  }

  predicate Above(ports: seq<Port>, bottom: nat) {
    forall p <- ports :: bottom <= p.base
  }

  /** No port has a byte in the RAM's place. */
  predicate NothingAt(ports: seq<Port>) {
    forall p <- ports :: p.base + p.mod.size <= 0x6000 || 0x8000 <= p.base
  }

  lemma BelowIsFree(p: Port, ports: seq<Port>, top: nat)
    requires Ordered(ports) && Below(ports, top) && top <= p.base && 0 < p.mod.size
    requires p.base + p.mod.size <= ADDRESSES
    ensures EveryByteFree(p, ports)
  {
    FreeIsApart(p, ports);
  }

  // ---- the cartridge -----------------------------------------------------------

  datatype RegWrite = RegWrite(addr: nat, value: bv8, cycles: nat)

  /** The register file after a run of writes: dropped writes leave no trace, and on
      boards with bus conflicts the byte the CPU sees at the address masks the value. */
  function Run(r: Regs, last: nat, ws: seq<RegWrite>, image: seq<bv8>, conflicts: bool): Regs
    decreases |ws|
  {
    if ws == [] then r
    else if Dropped(ws[0].cycles, last) then Run(r, last, ws[1..], image, conflicts)
    else Run(Accept(r, ws[0].addr, Masked(r, ws[0], image, conflicts)), ws[0].cycles % 256, ws[1..], image, conflicts)
  }

  function Masked(r: Regs, w: RegWrite, image: seq<bv8>, conflicts: bool): bv8 {
    if conflicts && 0x8000 <= w.addr && PRG_BANK <= |image| && PrgByte(r, |image|, w.addr - 0x8000) < |image|
    then Conflicting(w.value, image[PrgByte(r, |image|, w.addr - 0x8000)])
    else w.value
  }

  /** The register file if the filter did what it is for, on writes at cycles counted
      from power-on without wrapping. */
  function IdealRun(r: Regs, accepted: Option<nat>, ws: seq<RegWrite>, image: seq<bv8>, conflicts: bool): Regs
    decreases |ws|
  {
    if ws == [] then r
    else if TooSoon(accepted, ws[0].cycles) then IdealRun(r, accepted, ws[1..], image, conflicts)
    else
      IdealRun(Accept(r, ws[0].addr, Masked(r, ws[0], image, conflicts)), Some(ws[0].cycles), ws[1..], image, conflicts)
  }

  /** The condition holds at every write of the run. */
  predicate Conditions(accepted: Option<nat>, ws: seq<RegWrite>)
    decreases |ws|
  {
    ws == [] ||
    (&& (accepted.Some? ==> accepted.value < ws[0].cycles)
     && FilterCondition(accepted, ws[0].cycles)
     && Conditions(if TooSoon(accepted, ws[0].cycles) then accepted else Some(ws[0].cycles), ws[1..]))
  }

  /** The same writes as the counter shows them. */
  function Counted(ws: seq<RegWrite>): (c: seq<RegWrite>)
    ensures |c| == |ws|
  {
    if ws == [] then [] else [ws[0].(cycles := ws[0].cycles % COUNTER)] + Counted(ws[1..])
  }

  /** Where the condition holds throughout, the filter is invisible except for what it is
      meant to drop. */
  lemma {:induction false} FilteredRun(r: Regs, accepted: Option<nat>, ws: seq<RegWrite>, image: seq<bv8>,
      conflicts: bool)
    requires Conditions(accepted, ws)
    ensures Run(r, StoredCycle(accepted), Counted(ws), image, conflicts) == IdealRun(r, accepted, ws, image, conflicts)
    decreases |ws|
  {
    if ws != [] {
      FilterExact(accepted, ws[0].cycles);
      assert Counted(ws)[1..] == Counted(ws[1..]);
      hide Accept, Masked, FilterCondition;
      if TooSoon(accepted, ws[0].cycles) {
        FilteredRun(r, accepted, ws[1..], image, conflicts);
      } else {
        StoredCycleAfter(ws[0].cycles);
        SameMask(r, ws[0], image, conflicts);
        FilteredRun(Accept(r, ws[0].addr, Masked(r, ws[0], image, conflicts)), Some(ws[0].cycles), ws[1..], image,
          conflicts);
      }
    }
  }

  lemma SameMask(r: Regs, w: RegWrite, image: seq<bv8>, conflicts: bool)
    ensures Masked(r, w.(cycles := w.cycles % COUNTER), image, conflicts) == Masked(r, w, image, conflicts)
  {}

  /** The filter fails at power-on: the first 258 cycles lose every write, although
      none has been accepted. */
  lemma {:induction false} PowerOnLoses(r: Regs, ws: seq<RegWrite>, image: seq<bv8>, conflicts: bool)
    requires forall i :: 0 <= i < |ws| ==> ws[i].cycles <= 257
    ensures Run(r, StoredCycle(None), ws, image, conflicts) == r
    decreases |ws|
  {
    if ws != [] {
      PowerOnLoses(r, ws[1..], image, conflicts);
    }
  }

  /** It fails later: of two writes in successive cycles after cycle 256 both count. Two
      writes with bit 0 set leave two received bits. */
  lemma SecondWriteCounts(r: Regs, image: seq<bv8>)
    requires r.bits == []
    ensures Run(r, StoredCycle(None), [RegWrite(0x8000, 1, 300), RegWrite(0x8000, 1, 301)], image, false)
      == r.(bits := [1, 1])
  {
    var ws := [RegWrite(0x8000, 1, 300), RegWrite(0x8000, 1, 301)];
    BitsOfOne();
    assert Accept(r, 0x8000, 1) == r.(bits := [1]);
    assert Accept(r.(bits := [1]), 0x8000, 1) == r.(bits := [1, 1]);
    assert ws[1..] == [ws[1]] && ws[1..][1..] == [];
    assert Run(r, 0xFF, ws, image, false) == Run(r.(bits := [1]), 300 % 256, ws[1..], image, false);
  }

  lemma BitsOfOne()
    ensures Bit(1, 0) == 1 && Bit(1, 7) == 0
  {
    NumberRoundTrip(0);
    NumberRoundTrip(7);
  }

  /** And it fails when the counter wraps: 300 cycles after an accepted write, a write at
      counter value 43 is lost. */
  lemma WrapLoses(r: Regs, image: seq<bv8>)
    ensures StoredCycle(Some(COUNTER - 257)) == 255
    ensures Run(r, StoredCycle(Some(COUNTER - 257)), [RegWrite(0x8000, 0x80, (COUNTER - 257 + 300) % COUNTER)], image,
      false) == r
  {}

  /** The images a cartridge brings; CHR is RAM when the cartridge has no CHR ROM. */
  class Cartridge {
    const prg: array<bv8>
    const chr: array<bv8>
    const crt: array<bv8>
    const prgLow: Module
    const prgHi: Module
    const chrLow: Module
    const chrHi: Module
    /** Its image is a stand-in, never on a bus, when the cartridge has no RAM. */
    const crtBank: Module
    const hasRam: bool
    const usesChrRam: bool
    const cpuBus: Bus
    const ppuBus: Bus
    const nt1: Module
    const nt2: Module
    const handleBusConflicts: bool

    var ctrlReg: nat
    var chr0Reg: nat
    var chr1Reg: nat
    var prgReg: nat
    var shiftRegister: nat
    var writeCount: nat
    var lastWrittenChrReg: nat
    var lastWriteCycle: nat
    ghost var bits: seq<nat>

    /** The windows, each at the start of its image. */
    constructor (prg: array<bv8>, chr: array<bv8>, crt: array<bv8>, hasRam: bool, usesChrRam: bool, cpuBus: Bus,
        ppuBus: Bus, nt1: Module, nt2: Module, handleBusConflicts: bool)
      requires prg.Length >= PRG_BANK && prg.Length % PRG_BANK == 0 && (prg.Length == PRG_LARGE ==> hasRam)
      requires chr.Length >= CHR_BANK && chr.Length % CHR_BANK == 0
      requires crt.Length >= CRT_BANK && crt.Length % CRT_BANK == 0
      requires prg != chr && crt != prg && crt != chr && cpuBus != ppuBus
      requires nt1.size == nt2.size == 0x400
      ensures Images() && this.cpuBus == cpuBus && this.ppuBus == ppuBus && this.nt1 == nt1 && this.nt2 == nt2
      ensures prgLow.Fits() && prgHi.Fits() && chrLow.Fits() && chrHi.Fits() && crtBank.Fits()
      ensures prgLow.valid && prgHi.valid && chrLow.valid && chrHi.valid
      ensures fresh(prgLow) && fresh(prgHi) && fresh(chrLow) && fresh(chrHi) && fresh(crtBank)
      ensures this.prg == prg && this.chr == chr && this.handleBusConflicts == handleBusConflicts
      ensures lastWriteCycle == 0xFF && shiftRegister == 0 && writeCount == 0 && bits == []
      ensures lastWrittenChrReg == 0 && ctrlReg == chr0Reg == chr1Reg == prgReg == 0
      ensures this.hasRam == hasRam && this.usesChrRam == usesChrRam && this.crt == crt
    {
      this.prg, this.chr, this.crt := prg, chr, crt;
      prgLow := new Module(PRG_BANK, false, prg);
      prgHi := new Module(PRG_BANK, false, prg);
      chrLow := new Module(CHR_BANK, true, chr);
      chrHi := new Module(CHR_BANK, true, chr);
      crtBank := new Module(CRT_BANK, true, crt);
      this.hasRam, this.usesChrRam, this.handleBusConflicts := hasRam, usesChrRam, handleBusConflicts;
      this.cpuBus, this.ppuBus, this.nt1, this.nt2 := cpuBus, ppuBus, nt1, nt2;
      ctrlReg, chr0Reg, chr1Reg, prgReg := 0, 0, 0, 0;
      shiftRegister, writeCount, bits := 0, 0, [];
      lastWrittenChrReg, lastWriteCycle := 0, 0xFF;
    }

    /** Puts the cartridge on the buses: RAM at 0x6000, PRG from 0x8000, CHR from 0. */
    method Init()
      requires Images() && Serial() && lastWrittenChrReg < 2
      requires cpuBus.Valid() && ppuBus.Valid() && nt1.Fits() && nt2.Fits()
      requires prgLow.Fits() && prgHi.Fits() && chrLow.Fits() && chrHi.Fits() && crtBank.Fits()
      requires prgLow.valid && prgHi.valid && chrLow.valid && chrHi.valid
      requires Below(cpuBus.readPorts, 0x6000) && Below(cpuBus.writePorts, 0x6000)
      requires TablesOnly(ppuBus.readPorts) && TablesOnly(ppuBus.writePorts)
      requires Above(ppuBus.readPorts, 0x2000) && Above(ppuBus.writePorts, 0x2000)
      modifies this`ctrlReg, this`chr0Reg, this`chr1Reg, this`prgReg, cpuBus`readPorts, cpuBus`writePorts,
        ppuBus`readPorts, ppuBus`writePorts, chrLow`start, chrHi`start, prgLow`start, prgHi`start, crtBank
      ensures Serial() && InRange() && Banked()
      ensures State() == Regs(0x0C, 0, 0, 0, old(lastWrittenChrReg), old(bits))
    {
      hide Below, Above, Banked, TablesOnly, Ordered;
      Wire();
      Start();
    }

    /** Power-on registers: 16 KB PRG mode with the last bank fixed, one-screen mirroring. */
    method Start()
      requires Images() && Wired() && crtBank.Fits() && lastWrittenChrReg < 2
      modifies this`ctrlReg, this`chr0Reg, this`chr1Reg, this`prgReg,
        ppuBus`readPorts, ppuBus`writePorts, chrLow`start, chrHi`start, prgLow`start, prgHi`start, crtBank
      ensures InRange() && Banked() && File() == Regs(0x0C, 0, 0, 0, lastWrittenChrReg, [])
    {
      hide Banked, Wired, Images, CrtStart;
      ResetRegisters();
      ApplyBanking();
    }

    method ResetRegisters()
      requires Images() && Wired() && lastWrittenChrReg < 2
      modifies this`ctrlReg, this`chr0Reg, this`chr1Reg, this`prgReg
      ensures Wired() && InRange() && File() == Regs(0x0C, 0, 0, 0, lastWrittenChrReg, [])
    {
      ctrlReg, chr0Reg, chr1Reg, prgReg := 0x0C, 0, 0, 0;
    }

    method Wire()
      requires Images()
      requires cpuBus.Valid() && ppuBus.Valid() && nt1.Fits() && nt2.Fits()
      requires prgLow.Fits() && prgHi.Fits() && chrLow.Fits() && chrHi.Fits() && crtBank.Fits()
      requires prgLow.valid && prgHi.valid && chrLow.valid && chrHi.valid
      requires Below(cpuBus.readPorts, 0x6000) && Below(cpuBus.writePorts, 0x6000)
      requires TablesOnly(ppuBus.readPorts) && TablesOnly(ppuBus.writePorts)
      requires Above(ppuBus.readPorts, 0x2000) && Above(ppuBus.writePorts, 0x2000)
      modifies cpuBus`readPorts, cpuBus`writePorts, ppuBus`readPorts, ppuBus`writePorts
      ensures Wired()
    {
      hide Below, Above, TablesOnly, Ordered;
      WireCpu();
      WirePpu();
    }

    method WireCpu()
      requires Images() && cpuBus.Valid() && prgLow.Fits() && prgHi.Fits() && crtBank.Fits()
      requires Below(cpuBus.readPorts, 0x6000) && Below(cpuBus.writePorts, 0x6000)
      modifies cpuBus`readPorts, cpuBus`writePorts
      ensures cpuBus.Valid()
      ensures Port(prgLow, 0x8000) in cpuBus.readPorts && Port(prgHi, 0xC000) in cpuBus.readPorts
      ensures RamPorts()
    {
      if hasRam {
        BelowIsFree(Port(crtBank, 0x6000), cpuBus.readPorts, 0x6000);
        BelowIsFree(Port(crtBank, 0x6000), cpuBus.writePorts, 0x6000);
        var _ := cpuBus.AddPort(Port(crtBank, 0x6000));
      }
      BelowIsFree(Port(prgLow, 0x8000), cpuBus.readPorts, 0x8000);
      var _ := cpuBus.AddReadPort(Port(prgLow, 0x8000));
      BelowIsFree(Port(prgHi, 0xC000), cpuBus.readPorts, 0xC000);
      var _ := cpuBus.AddReadPort(Port(prgHi, 0xC000));
    }

    method WirePpu()
      requires Images() && ppuBus.Valid() && chrLow.Fits() && chrHi.Fits()
      requires TablesOnly(ppuBus.readPorts) && TablesOnly(ppuBus.writePorts)
      requires Above(ppuBus.readPorts, 0x2000) && Above(ppuBus.writePorts, 0x2000)
      modifies ppuBus`readPorts, ppuBus`writePorts
      ensures ppuBus.Valid() && ChrPorts() && TablesOnly(ppuBus.readPorts) && TablesOnly(ppuBus.writePorts)
    {
      AddChrReads();
      hide TablesOnly, Ordered;
      if usesChrRam {
        AddChrWrites();
      }
    }

    method AddChrReads()
      requires Images() && ppuBus.Valid() && chrLow.Fits() && chrHi.Fits()
      requires TablesOnly(ppuBus.readPorts) && Above(ppuBus.readPorts, 0x2000)
      modifies ppuBus`readPorts
      ensures ppuBus.Valid() && TablesOnly(ppuBus.readPorts)
      ensures Port(chrLow, 0) in ppuBus.readPorts && Port(chrHi, 0x1000) in ppuBus.readPorts
    {
      var low, high := Port(chrLow, 0), Port(chrHi, 0x1000);
      FreeIsApart(low, ppuBus.readPorts);
      var _ := ppuBus.AddReadPort(low);
      FreeIsApart(high, ppuBus.readPorts);
      var _ := ppuBus.AddReadPort(high);
      assert OutsideTables(low) && OutsideTables(high);
    }

    method AddChrWrites()
      requires Images() && ppuBus.Valid() && chrLow.Fits() && chrHi.Fits()
      requires TablesOnly(ppuBus.writePorts) && Above(ppuBus.writePorts, 0x2000)
      modifies ppuBus`writePorts
      ensures ppuBus.Valid() && TablesOnly(ppuBus.writePorts)
      ensures Port(chrLow, 0) in ppuBus.writePorts && Port(chrHi, 0x1000) in ppuBus.writePorts
    {
      var low, high := Port(chrLow, 0), Port(chrHi, 0x1000);
      FreeIsApart(low, ppuBus.writePorts);
      var _ := ppuBus.AddWritePort(low);
      FreeIsApart(high, ppuBus.writePorts);
      var _ := ppuBus.AddWritePort(high);
      assert OutsideTables(low) && OutsideTables(high);
    }

    /** The cartridge's RAM is on the bus, or nothing is in its place. */
    ghost predicate RamPorts()
      reads cpuBus`readPorts, cpuBus`writePorts
    {
      if hasRam then Port(crtBank, 0x6000) in cpuBus.readPorts && Port(crtBank, 0x6000) in cpuBus.writePorts
      else NothingAt(cpuBus.readPorts) && NothingAt(cpuBus.writePorts)
    }

    /** The committed registers. */
    ghost function File(): Regs
      reads this`ctrlReg, this`chr0Reg, this`chr1Reg, this`prgReg, this`lastWrittenChrReg
    {
      Regs(ctrlReg, chr0Reg, chr1Reg, prgReg, lastWrittenChrReg, [])
    }

    ghost function State(): Regs
      reads this`ctrlReg, this`chr0Reg, this`chr1Reg, this`prgReg, this`lastWrittenChrReg, this`bits
    {
      File().(bits := bits)
    }

    /** Sizes the image setup asserts, and windows of their own onto each image. */
    ghost predicate Images() {
      && prg.Length >= PRG_BANK && prg.Length % PRG_BANK == 0
      && chr.Length >= CHR_BANK && chr.Length % CHR_BANK == 0
      && prgLow.backing == prg && prgHi.backing == prg && prgLow.size == prgHi.size == PRG_BANK
      && chrLow.backing == chr && chrHi.backing == chr && chrLow.size == chrHi.size == CHR_BANK
      && crtBank.backing == crt && crtBank.size == CRT_BANK <= crt.Length && crt.Length % CRT_BANK == 0
      && (prg.Length == PRG_LARGE ==> hasRam)
      && nt1.size == nt2.size == 0x400
      && !prgLow.writable && !prgHi.writable && chrLow.writable && chrHi.writable && crtBank.writable
      && prgLow != prgHi && chrLow != chrHi && prg != chr && crt != prg && crt != chr
      && nt1 !in {prgLow, prgHi, chrLow, chrHi, crtBank} && nt2 !in {prgLow, prgHi, chrLow, chrHi, crtBank}
      && cpuBus != ppuBus
    }

    ghost predicate InRange()
      reads this`ctrlReg, this`chr0Reg, this`chr1Reg, this`prgReg, this`lastWrittenChrReg
    {
      && ctrlReg < 32 && chr0Reg < 32 && chr1Reg < 32 && prgReg < 32
      && lastWrittenChrReg < 2
    }

    /** The shift register holds the received bits, the latest on top. */
    ghost predicate Serial()
      reads this`bits, this`writeCount, this`shiftRegister
    {
      && |bits| == writeCount < 5 && (forall i :: 0 <= i < |bits| ==> bits[i] < 2)
      && shiftRegister == Packed(bits) * Pow(2, 5 - writeCount)
    }

    /** The windows are where the register file puts them. */
    ghost predicate PrgBanked(r: Regs)
      reads prgLow`start, prgHi`start
      requires Images()
    {
      var count := prg.Length / PRG_BANK;
      && prgLow.start == LowSlot(r, count) % count * PRG_BANK && prgLow.Fits()
      && prgHi.start == HighSlot(r, count) % count * PRG_BANK && prgHi.Fits()
    }

    ghost predicate ChrBanked(r: Regs)
      reads chrLow`start, chrHi`start
      requires Images()
    {
      var count := chr.Length / CHR_BANK;
      && chrLow.start == ChrLowSlot(r) % count * CHR_BANK && chrLow.Fits()
      && chrHi.start == ChrHighSlot(r) % count * CHR_BANK && chrHi.Fits()
    }

    method ApplyChr()
      requires Images() && InRange()
      modifies chrLow`start, chrHi`start
      ensures ChrBanked(File())
      ensures chrLow.Fits() && chrHi.Fits()
    {
      if ctrlReg / 16 == 1 {
        chrLow.SetBank(chr0Reg);
        chrHi.SetBank(chr1Reg);
      } else {
        var bank := chr0Reg - chr0Reg % 2;
        chrLow.SetBank(bank);
        chrHi.SetBank(bank + 1);
      }
    }

    method ApplyPrg()
      requires Images() && InRange()
      modifies prgLow`start, prgHi`start
      ensures prgLow.Fits() && prgHi.Fits()
      ensures prgLow.start == LowBank(File()) % (prg.Length / PRG_BANK) * PRG_BANK
      ensures prgHi.start == HighBank(File(), prg.Length / PRG_BANK) % (prg.Length / PRG_BANK) * PRG_BANK
    {
      var bank := prgReg % 16;
      match ctrlReg / 4 % 4
      case 0 | 1 =>
        bank := bank - bank % 2;
        prgLow.SetBank(bank);
        prgHi.SetBank(bank + 1);
      case 2 =>
        prgLow.SetBank(0);
        prgHi.SetBank(bank);
      case _ =>
        prgLow.SetBank(bank);
        prgHi.SetBank(prgHi.BankCount() - 1);
    }

    /** The 512 KB boards take a PRG half and a RAM bank from the CHR register. */
    method ApplyOuter()
      requires Images() && InRange() && prgLow.Fits() && prgHi.Fits() && crtBank.Fits()
      requires var count := prg.Length / PRG_BANK;
        && prgLow.start == LowBank(File()) % count * PRG_BANK
        && prgHi.start == HighBank(File(), count) % count * PRG_BANK
      modifies prgLow`start, prgHi`start, crtBank`start
      ensures PrgBanked(File()) && crtBank.Fits()
      ensures crtBank.start == CrtStart(File(), old(crtBank.start))
    {
      hide LowBank, HighBank;
      if prg.Length == PRG_LARGE {
        var reg := if lastWrittenChrReg == 0 then chr0Reg else chr1Reg;
        if lastWrittenChrReg == 0 || ctrlReg / 16 == 1 {
          crtBank.SetBank(reg / 4 % 4);
          MultipleMod(LowBank(File()) % 32, PRG_BANK);
          MultipleMod(HighBank(File(), 32) % 32, PRG_BANK);
          prgLow.SetBank(BankOf(prgLow) % 16 + reg / 16 % 2 * 16);
          prgHi.SetBank(BankOf(prgHi) % 16 + reg / 16 % 2 * 16);
        }
      }
    }

    /** The work RAM bank moves only with the outer bank; otherwise it stays. */
    ghost function CrtStart(r: Regs, before: nat): nat
      requires Images()
    {
      if prg.Length == PRG_LARGE && OuterApplies(r)
      then OuterReg(r) / 4 % 4 % (crt.Length / CRT_BANK) * CRT_BANK
      else before
    }

    /** The tables at 0x2000, 0x2400, 0x2800 and 0x2C00 in each mirroring mode. */
    function Tables(mode: nat): seq<Module> {
      if mode == 0 then [nt1, nt1, nt1, nt1]
      else if mode == 1 then [nt2, nt2, nt2, nt2]
      else if mode == 2 then [nt1, nt2, nt1, nt2]
      else [nt1, nt1, nt2, nt2]
    }

    /** The CHR windows can be read, and written exactly when the cartridge has CHR RAM. */
    ghost predicate ChrPorts()
      reads ppuBus`readPorts, ppuBus`writePorts
    {
      && Port(chrLow, 0) in ppuBus.readPorts && Port(chrHi, 0x1000) in ppuBus.readPorts
      && (if usesChrRam then Port(chrLow, 0) in ppuBus.writePorts && Port(chrHi, 0x1000) in ppuBus.writePorts
          else Above(ppuBus.writePorts, 0x2000))
    }

    ghost predicate Mirrored(mode: nat)
      reads ppuBus`readPorts, ppuBus`writePorts
    {
      && (forall i :: 0 <= i < 4 ==> Port(Tables(mode)[i], TableBase(i)) in ppuBus.readPorts)
      && (forall i :: 0 <= i < 4 ==> Port(Tables(mode)[i], TableBase(i)) in ppuBus.writePorts)
    }

    method ApplyMirroring()
      requires Images() && ppuBus.Valid() && TablesOnly(ppuBus.readPorts) && TablesOnly(ppuBus.writePorts)
      requires ChrPorts() && nt1.Fits() && nt2.Fits()
      modifies ppuBus`readPorts, ppuBus`writePorts
      ensures ppuBus.Valid() && TablesOnly(ppuBus.readPorts) && TablesOnly(ppuBus.writePorts)
      ensures ChrPorts() && Mirrored(ctrlReg % 4)
    {
      var tables := Tables(ctrlReg % 4);
      assert OutsideTables(Port(chrLow, 0)) && OutsideTables(Port(chrHi, 0x1000));
      ppuBus.SetMirroring(tables);
    }

    ghost predicate RamGated()
      reads this`prgReg, crtBank
    {
      crtBank.Fits() && (crtBank.valid <==> prgReg / 16 == 0)
    }

    /** Both buses are usable, and the cartridge's ports are where they belong. */
    ghost predicate Wired()
      reads cpuBus`readPorts, cpuBus`writePorts, ppuBus`readPorts, ppuBus`writePorts
      reads set p | p in cpuBus.readPorts :: p.mod, set p | p in cpuBus.writePorts :: p.mod
      reads set p | p in ppuBus.readPorts :: p.mod, set p | p in ppuBus.writePorts :: p.mod
      reads prgLow, prgHi, chrLow, chrHi, nt1, nt2
    {
      && cpuBus.Valid() && ppuBus.Valid()
      && Port(prgLow, 0x8000) in cpuBus.readPorts && Port(prgHi, 0xC000) in cpuBus.readPorts
      && prgLow.valid && prgHi.valid && chrLow.valid && chrHi.valid
      && TablesOnly(ppuBus.readPorts) && TablesOnly(ppuBus.writePorts) && ChrPorts() && RamPorts()
      && nt1.Fits() && nt2.Fits()
    }

    method EnableRam()
      requires InRange()
      modifies crtBank`valid
      ensures crtBank.valid <==> prgReg / 16 == 0
    {
      crtBank.valid := prgReg / 16 == 0;
    }

    method ApplyWindows()
      requires Images() && InRange() && Wired() && crtBank.Fits()
      modifies chrLow`start, chrHi`start, prgLow`start, prgHi`start, crtBank
      ensures Wired()
      ensures PrgBanked(File()) && ChrBanked(File()) && RamGated() && crtBank.Fits()
      ensures crtBank.start == CrtStart(File(), old(crtBank.start))
    {
      hide PrgBanked, ChrBanked, CrtStart, TablesOnly, Ordered;
      ApplyChr();
      ApplyPrgAndRam();
    }

    method ApplyPrgAndRam()
      requires Images() && InRange() && crtBank.Fits()
      modifies prgLow`start, prgHi`start, crtBank
      ensures PrgBanked(File()) && RamGated() && crtBank.Fits()
      ensures prgLow.Fits() && prgHi.Fits()
      ensures crtBank.start == CrtStart(File(), old(crtBank.start))
    {
      hide LowBank, HighBank, LowSlot, HighSlot, CrtStart;
      ApplyPrg();
      EnableRam();
      ApplyOuter();
    }

    method ApplyBanking()
      requires Images() && InRange() && Wired() && crtBank.Fits()
      modifies ppuBus`readPorts, ppuBus`writePorts, chrLow`start, chrHi`start, prgLow`start, prgHi`start, crtBank
      ensures Banked() && crtBank.start == CrtStart(File(), old(crtBank.start))
    {
      hide TablesOnly, Ordered, Tables, PrgBanked, ChrBanked, RamGated, InRange, CrtStart;
      ApplyMirroring();
      ApplyWindows();
    }

    /** Everything the register file controls is in place. */
    ghost predicate Banked()
      requires Images()
      reads this`ctrlReg, this`chr0Reg, this`chr1Reg, this`prgReg, this`lastWrittenChrReg
      reads cpuBus`readPorts, cpuBus`writePorts, ppuBus`readPorts, ppuBus`writePorts
      reads prgLow, prgHi, chrLow, chrHi, crtBank, nt1, nt2
      reads set p | p in cpuBus.readPorts :: p.mod, set p | p in cpuBus.writePorts :: p.mod
      reads set p | p in ppuBus.readPorts :: p.mod, set p | p in ppuBus.writePorts :: p.mod
    {
      Wired() && crtBank.Fits() && PrgBanked(File()) && ChrBanked(File()) && RamGated() && Mirrored(ctrlReg % 4)
    }

    /** The CPU reads PRG bytes: address 0x8000 + off reaches exactly the byte of the
        image that the register file asks for. */
    lemma PrgReached(off: nat)
      requires Images() && Banked() && off < 2 * PRG_BANK
      ensures PrgByte(File(), prg.Length, off) < prg.Length
      ensures Reached(cpuBus.readPorts, 0x8000 + off) == Some(Cell(prg, PrgByte(File(), prg.Length, off)))
    {
      hide PrgByte, LowSlot, HighSlot, Ordered, TablesOnly, Reached, ChrBanked, RamGated, Mirrored;
      var count := prg.Length / PRG_BANK;
      PrgInBounds(File(), prg.Length, off);
      if off < PRG_BANK {
        PrgMeaning(File(), count, off);
        ReachedBy(cpuBus.readPorts, Port(prgLow, 0x8000), 0x8000 + off);
      } else {
        PrgMeaning(File(), count, off - PRG_BANK);
        ReachedBy(cpuBus.readPorts, Port(prgHi, 0xC000), 0x8000 + off);
      }
    }

    /** The same for the PPU: address off reaches the CHR byte asked for. */
    lemma ChrReached(off: nat)
      requires Images() && Banked() && off < 2 * CHR_BANK
      ensures ChrByte(File(), chr.Length, off) < chr.Length
      ensures Reached(ppuBus.readPorts, off) == Some(Cell(chr, ChrByte(File(), chr.Length, off)))
    {
      hide ChrByte, ChrLowSlot, ChrHighSlot, Ordered, TablesOnly, Reached, PrgBanked, RamGated, Mirrored;
      var count := chr.Length / CHR_BANK;
      ChrInBounds(File(), chr.Length, off);
      if off < CHR_BANK {
        ChrMeaning(File(), count, off);
        ReachedBy(ppuBus.readPorts, Port(chrLow, 0), off);
      } else {
        ChrMeaning(File(), count, off - CHR_BANK);
        ReachedBy(ppuBus.readPorts, Port(chrHi, 0x1000), off);
      }
    }

    /** And every name table address reaches the table that the mirroring mode selects. */
    lemma NameTableReached(off: nat)
      requires Images() && Banked() && off < 0x1000 && nt1.valid && nt2.valid
      ensures var table := if SecondTable(File(), off) then nt2 else nt1;
        && table.start + off % 0x400 < table.backing.Length
        && Reached(ppuBus.readPorts, 0x2000 + off) == Some(Cell(table.backing, table.start + off % 0x400))
    {
      hide Ordered, TablesOnly, Reached, PrgBanked, ChrBanked, RamGated;
      var i, k := off / 0x400, off % 0x400;
      assert off == 0x400 * i + k && off / 0x800 == i / 2;
      var table := Tables(ctrlReg % 4)[i];
      assert Port(table, TableBase(i)) in ppuBus.readPorts;
      ReachedBy(ppuBus.readPorts, Port(table, TableBase(i)), 0x2000 + off);
    }

    /** With CHR RAM a write reaches the byte that a read does; CHR ROM is never written. */
    lemma ChrWritten(off: nat)
      requires Images() && Banked() && off < 2 * CHR_BANK
      ensures Target(ppuBus.writePorts, off) ==
        if usesChrRam then Some(Cell(chr, ChrByte(File(), chr.Length, off))) else None
    {
      hide ChrByte, ChrLowSlot, ChrHighSlot, Ordered, TablesOnly, Target, PrgBanked, RamGated, Mirrored;
      var count := chr.Length / CHR_BANK;
      if !usesChrRam {
        NobodyAnswers(ppuBus.writePorts, off);
      } else if off < CHR_BANK {
        ChrMeaning(File(), count, off);
        AtMostOneWriter(ppuBus.writePorts, Port(chrLow, 0), off);
      } else {
        ChrMeaning(File(), count, off - CHR_BANK);
        AtMostOneWriter(ppuBus.writePorts, Port(chrHi, 0x1000), off);
      }
    }

    /** Work RAM answers reads and writes at the same cell while bit 4 of the PRG register
        is clear, and otherwise neither. */
    lemma RamReached(off: nat)
      requires Images() && Banked() && off < CRT_BANK
      ensures crtBank.start + off < crt.Length
      ensures var cell := if hasRam && prgReg / 16 == 0 then Some(Cell(crt, crtBank.start + off)) else None;
        Reached(cpuBus.readPorts, 0x6000 + off) == Target(cpuBus.writePorts, 0x6000 + off) == cell
    {
      hide Ordered, TablesOnly, Target, Reached, PrgBanked, ChrBanked, Mirrored;
      var p := Port(crtBank, 0x6000);
      if hasRam && crtBank.valid {
        ReachedBy(cpuBus.readPorts, p, 0x6000 + off);
        AtMostOneWriter(cpuBus.writePorts, p, 0x6000 + off);
      } else if hasRam {
        OnlyCover(cpuBus.readPorts, p, 0x6000 + off);
        OnlyCover(cpuBus.writePorts, p, 0x6000 + off);
        NobodyAnswers(cpuBus.readPorts, 0x6000 + off);
        NobodyAnswers(cpuBus.writePorts, 0x6000 + off);
      } else {
        NobodyAnswers(cpuBus.readPorts, 0x6000 + off);
        NobodyAnswers(cpuBus.writePorts, 0x6000 + off);
      }
    }

    /** What the PPU reads from a name table. */
    method ReadTable(off: nat) returns (value: bv8)
      requires Images() && Banked() && off < 0x1000 && nt1.valid && nt2.valid
      modifies ppuBus`lastBusValue
      ensures Banked()
      ensures var table := if SecondTable(File(), off) then nt2 else nt1;
        table.start + off % 0x400 < table.backing.Length && value == table.backing[table.start + off % 0x400]
    {
      hide Banked, SecondTable, Ordered, Reached;
      NameTableReached(off);
      BusesUsable();
      value := ppuBus.Read(0x2000 + off);
    }

    /** The value a write to addr delivers: on boards with bus conflicts it is and-ed
        with the PRG byte the CPU sees there. */
    ghost function Driven(addr: nat, value: bv8): bv8
      requires 0x8000 <= addr < 0x1_0000 && Images()
      reads this`ctrlReg, this`chr0Reg, this`chr1Reg, this`prgReg, this`lastWrittenChrReg, prg
    {
      if handleBusConflicts then
        PrgInBounds(File(), prg.Length, addr - 0x8000);
        Conflicting(value, prg[PrgByte(File(), prg.Length, addr - 0x8000)])
      else value
    }

    method Conflict(addr: nat, value: bv8) returns (driven: bv8)
      requires 0x8000 <= addr < 0x1_0000 && Images() && Banked()
      modifies cpuBus`lastBusValue
      ensures Banked() && driven == Driven(addr, value)
    {
      hide Banked, Images, PrgByte, Ordered, Reached, Conflicting;
      driven := value;
      if handleBusConflicts {
        PrgReached(addr - 0x8000);
        BusesUsable();
        var seen := cpuBus.Read(addr);
        driven := Conflicting(value, seen);
      }
    }

    lemma BusesUsable()
      requires Images() && Banked()
      ensures cpuBus.Valid() && ppuBus.Valid()
    {}

    /** Updates the registers for an accepted write; `apply` says that the banks must
        follow. */
    method Take(addr: nat, value: bv8) returns (apply: bool)
      requires Serial() && InRange()
      modifies this`ctrlReg, this`chr0Reg, this`chr1Reg, this`prgReg, this`shiftRegister, this`writeCount,
        this`lastWrittenChrReg, this`bits
      ensures Serial() && InRange()
      ensures State() == Accept(old(State()), addr, value)
      ensures !apply ==> File() == old(File())
    {
      hide Bit, Packed, Pow;
      NothingReceived();
      if Bit(value, 7) == 1 {
        shiftRegister, writeCount, bits := 0, 0, [];
        ctrlReg := ctrlReg - ctrlReg / 4 % 4 * 4 + 12;
        apply := true;
      } else {
        ShiftIn(shiftRegister, bits, value);
        shiftRegister := shiftRegister / 2 + 16 * Bit(value, 0);
        writeCount := writeCount + 1;
        bits := bits + [Bit(value, 0)];
        apply := writeCount == 5;
        if apply {
          StoreRegister(addr / 0x2000 % 4);
          shiftRegister, writeCount, bits := 0, 0, [];
        }
      }
    }

    method StoreRegister(select: nat)
      requires select < 4 && InRange() && shiftRegister < 32
      modifies this`ctrlReg, this`chr0Reg, this`chr1Reg, this`prgReg, this`lastWrittenChrReg
      ensures InRange()
      ensures File() == Commit(old(File()), select, shiftRegister)
    {
      match select
      case 0 =>
        ctrlReg := shiftRegister;
      case 1 =>
        chr0Reg := shiftRegister;
        lastWrittenChrReg := 0;
      case 2 =>
        chr1Reg := shiftRegister;
        lastWrittenChrReg := 1;
      case _ =>
        prgReg := shiftRegister;
    }

    /** A write to 0x8000-0xFFFF. */
    method RegisterWrite(addr: nat, value: bv8, cycles: nat) returns (accepted: bool)
      requires 0x8000 <= addr < 0x1_0000
      requires Images() && Serial() && InRange() && Banked()
      modifies this`ctrlReg, this`chr0Reg, this`chr1Reg, this`prgReg, this`shiftRegister, this`writeCount,
        this`lastWrittenChrReg, this`lastWriteCycle, this`bits, cpuBus`lastBusValue,
        ppuBus`readPorts, ppuBus`writePorts, chrLow`start, chrHi`start, prgLow`start, prgHi`start, crtBank
      ensures Serial() && InRange() && Banked()
      ensures accepted <==> !Dropped(cycles, old(lastWriteCycle))
      ensures !accepted ==> State() == old(State()) && lastWriteCycle == old(lastWriteCycle)
      ensures accepted ==> lastWriteCycle == cycles % 256
      ensures accepted ==> State() == Accept(old(State()), addr, old(Driven(addr, value)))
    {
      hide Banked, Images, Serial, InRange, Accept, Driven, Dropped;
      var driven := Conflict(addr, value);
      accepted := !Dropped(cycles, lastWriteCycle);
      if accepted {
        Update(addr, driven, cycles);
      }
    }

    /** Any run of writes. */
    method RegisterWrites(ws: seq<RegWrite>)
      requires forall w <- ws :: 0x8000 <= w.addr < 0x1_0000
      requires Images() && Serial() && InRange() && Banked()
      modifies this`ctrlReg, this`chr0Reg, this`chr1Reg, this`prgReg, this`shiftRegister, this`writeCount,
        this`lastWrittenChrReg, this`lastWriteCycle, this`bits, cpuBus`lastBusValue,
        ppuBus`readPorts, ppuBus`writePorts, chrLow`start, chrHi`start, prgLow`start, prgHi`start, crtBank
      ensures Serial() && InRange() && Banked()
      ensures State() == Run(old(State()), old(lastWriteCycle), ws, prg[..], handleBusConflicts)
      decreases |ws|
    {
      hide Banked, Images, Serial, InRange, Accept, Driven, Dropped;
      if ws != [] {
        RunStep(ws, prg[..]);
        var _ := RegisterWrite(ws[0].addr, ws[0].value, ws[0].cycles);
        RegisterWrites(ws[1..]);
      }
    }

    lemma RunStep(ws: seq<RegWrite>, image: seq<bv8>)
      requires Images() && image == prg[..] && ws != [] && 0x8000 <= ws[0].addr < 0x1_0000
      ensures Run(State(), lastWriteCycle, ws, image, handleBusConflicts) ==
        if Dropped(ws[0].cycles, lastWriteCycle) then Run(State(), lastWriteCycle, ws[1..], image, handleBusConflicts)
        else Run(Accept(State(), ws[0].addr, Driven(ws[0].addr, ws[0].value)), ws[0].cycles % 256, ws[1..], image,
          handleBusConflicts)
    {
      hide Accept, Dropped, Conflicting;
      PrgInBounds(State(), prg.Length, ws[0].addr - 0x8000);
      assert PrgByte(State(), prg.Length, ws[0].addr - 0x8000) == PrgByte(File(), prg.Length, ws[0].addr - 0x8000);
    }

    /** Bits received but not committed move nothing. */
    lemma IgnoresBits()
      ensures forall size, off: nat :: size >= PRG_BANK ==> PrgByte(State(), size, off) == PrgByte(File(), size, off)
      ensures forall size, off: nat :: size > 0 ==> ChrByte(State(), size, off) == ChrByte(File(), size, off)
      ensures forall off :: SecondTable(State(), off) == SecondTable(File(), off)
    {}

    /** What the CPU reads from the cartridge. */
    method ReadPrg(off: nat) returns (value: bv8)
      requires Images() && Banked() && off < 2 * PRG_BANK
      modifies cpuBus`lastBusValue
      ensures Banked()
      ensures PrgByte(File(), prg.Length, off) < prg.Length && value == prg[PrgByte(File(), prg.Length, off)]
    {
      hide Banked, PrgByte, Ordered, Reached;
      PrgReached(off);
      BusesUsable();
      value := cpuBus.Read(0x8000 + off);
    }

    /** What the PPU reads from the cartridge. */
    method ReadChr(off: nat) returns (value: bv8)
      requires Images() && Banked() && off < 2 * CHR_BANK
      modifies ppuBus`lastBusValue
      ensures Banked()
      ensures ChrByte(File(), chr.Length, off) < chr.Length && value == chr[ChrByte(File(), chr.Length, off)]
    {
      hide Banked, ChrByte, Ordered, Reached;
      ChrReached(off);
      BusesUsable();
      value := ppuBus.Read(off);
    }

    lemma BankedParts()
      requires Images() && Banked()
      ensures Wired() && crtBank.Fits()
    {}

    method Update(addr: nat, driven: bv8, cycles: nat)
      requires Images() && Serial() && InRange() && Banked()
      modifies this`ctrlReg, this`chr0Reg, this`chr1Reg, this`prgReg, this`shiftRegister, this`writeCount,
        this`lastWrittenChrReg, this`lastWriteCycle, this`bits,
        ppuBus`readPorts, ppuBus`writePorts, chrLow`start, chrHi`start, prgLow`start, prgHi`start, crtBank
      ensures Serial() && InRange() && Banked()
      ensures lastWriteCycle == cycles % 256
      ensures State() == Accept(old(State()), addr, driven)
    {
      hide Images, CrtStart, Accept, Serial, InRange, Banked, RamPorts, ChrPorts, TablesOnly, Ordered;
      BankedParts();
      lastWriteCycle := cycles % 256;
      var apply := Take(addr, driven);
      if apply {
        ApplyBanking();
      }
    }
  }

  lemma OnlyCover(ports: seq<Port>, p: Port, addr: nat)
    requires Ordered(ports) && p in ports && Covers(p, addr)
    ensures forall q <- ports :: Covers(q, addr) ==> q == p
  {}

  lemma ShiftIn(shift: nat, bits: seq<nat>, value: bv8)
    requires |bits| < 5 && forall i :: 0 <= i < |bits| ==> bits[i] < 2
    requires shift == Packed(bits) * Pow(2, 5 - |bits|)
    ensures var more := bits + [Bit(value, 0)];
      && shift / 2 + 16 * Bit(value, 0) == Packed(more) * Pow(2, 5 - |more|) < 32
      && (|more| == 5 ==> shift / 2 + 16 * Bit(value, 0) == Packed(more))
  {
    hide Bit, Packed, Pow;
    var b := Bit(value, 0);
    PackedBound(bits);
    PackedSnoc(bits, b);
    ShiftArithmetic(shift, Packed(bits), Packed(bits + [b]), |bits|, b);
  }

  lemma NothingReceived()
    ensures Packed([]) * Pow(2, 5) == 0
  {}

  lemma ShiftArithmetic(shift: nat, p: nat, more: nat, n: nat, b: nat)
    requires n < 5 && p < Pow(2, n) && b < 2
    requires shift == p * Pow(2, 5 - n) && more == p + b * Pow(2, n)
    ensures shift / 2 + 16 * b == more * Pow(2, 5 - (n + 1)) < 32
    ensures n + 1 == 5 ==> shift / 2 + 16 * b == more
  {
    assert Pow(2, 0) == 1 && Pow(2, 1) == 2 && Pow(2, 2) == 4 && Pow(2, 3) == 8;
    assert Pow(2, 4) == 16 && Pow(2, 5) == 32;
  }

  /** A cartridge put into a console: after any run of register writes the CPU and the PPU
      read the bytes that the reference register file asks for. */
  method PlayCartridge(cpuBus: Bus, ppuBus: Bus, nt1: Module, nt2: Module, prg: array<bv8>, chr: array<bv8>,
      crt: array<bv8>, hasRam: bool, usesChrRam: bool, conflicts: bool, ws: seq<RegWrite>, prgOff: nat, chrOff: nat,
      ntOff: nat)
    returns (p: bv8, c: bv8, n: bv8)
    requires prg.Length >= PRG_BANK && prg.Length % PRG_BANK == 0 && (prg.Length == PRG_LARGE ==> hasRam)
    requires chr.Length >= CHR_BANK && chr.Length % CHR_BANK == 0
    requires crt.Length >= CRT_BANK && crt.Length % CRT_BANK == 0
    requires prg != chr && crt != prg && crt != chr && cpuBus != ppuBus
    requires nt1.Fits() && nt2.Fits() && nt1.size == nt2.size == 0x400 && nt1.valid && nt2.valid
    requires cpuBus.Valid() && ppuBus.Valid()
    requires Below(cpuBus.readPorts, 0x6000) && Below(cpuBus.writePorts, 0x6000)
    requires TablesOnly(ppuBus.readPorts) && TablesOnly(ppuBus.writePorts)
    requires Above(ppuBus.readPorts, 0x2000) && Above(ppuBus.writePorts, 0x2000)
    requires forall w <- ws :: 0x8000 <= w.addr < 0x1_0000
    requires prgOff < 2 * PRG_BANK && chrOff < 2 * CHR_BANK && ntOff < 0x1000
    modifies cpuBus, ppuBus
    ensures var r := Run(Regs(0x0C, 0, 0, 0, 0, []), 0xFF, ws, prg[..], conflicts);
      && PrgByte(r, prg.Length, prgOff) < prg.Length && p == prg[PrgByte(r, prg.Length, prgOff)]
      && ChrByte(r, chr.Length, chrOff) < chr.Length && c == chr[ChrByte(r, chr.Length, chrOff)]
      && var table := if SecondTable(r, ntOff) then nt2 else nt1;
         table.start + ntOff % 0x400 < table.backing.Length && n == table.backing[table.start + ntOff % 0x400]
  {
    hide Run, PrgByte, ChrByte, SecondTable, Ordered, TablesOnly, Below, Above;
    hide Cartridge.Banked;
    var cart := new Cartridge(prg, chr, crt, hasRam, usesChrRam, cpuBus, ppuBus, nt1, nt2, conflicts);
    cart.Init();
    p, c, n := Play(cart, ws, prgOff, chrOff, ntOff);
  }

  method Play(cart: Cartridge, ws: seq<RegWrite>, prgOff: nat, chrOff: nat, ntOff: nat)
    returns (p: bv8, c: bv8, n: bv8)
    requires cart.nt1.valid && cart.nt2.valid
    requires cart.Images() && cart.Serial() && cart.InRange() && cart.Banked()
    requires forall w <- ws :: 0x8000 <= w.addr < 0x1_0000
    requires prgOff < 2 * PRG_BANK && chrOff < 2 * CHR_BANK && ntOff < 0x1000
    modifies cart, cart.cpuBus, cart.ppuBus, cart.prgLow, cart.prgHi, cart.chrLow, cart.chrHi, cart.crtBank
    ensures var r := Run(old(cart.State()), old(cart.lastWriteCycle), ws, cart.prg[..], cart.handleBusConflicts);
      && PrgByte(r, cart.prg.Length, prgOff) < cart.prg.Length
      && p == cart.prg[PrgByte(r, cart.prg.Length, prgOff)]
      && ChrByte(r, cart.chr.Length, chrOff) < cart.chr.Length
      && c == cart.chr[ChrByte(r, cart.chr.Length, chrOff)]
      && var table := if SecondTable(r, ntOff) then cart.nt2 else cart.nt1;
         table.start + ntOff % 0x400 < table.backing.Length && n == table.backing[table.start + ntOff % 0x400]
  {
    hide Run, PrgByte, ChrByte, SecondTable, Cartridge.Serial, Cartridge.InRange, Cartridge.Banked;
    cart.RegisterWrites(ws);
    cart.IgnoresBits();
    p := cart.ReadPrg(prgOff);
    c := cart.ReadChr(chrOff);
    n := cart.ReadTable(ntOff);
  }
}
