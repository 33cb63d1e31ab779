/** The PPU's register port: one write toggle shared by the scroll and address registers,
    a data port that reads one access late, and a copy of palette memory kept for the
    renderer. */
module PpuPort {
  import opened Bits
  import opened Picture
  import opened Scroll

  // ---- the temporary register --------------------------------------------------

  function ScrollFirst(t: bv16, val: bv8): bv16 {
    (t & !0x001F) | ((val as bv16) >> 3)
  }

  function ScrollSecond(t: bv16, val: bv8): bv16 {
    (t & !0x73E0) | (((val & 7) as bv16) << 12) | (((val & 0xF8) as bv16) << 2)
  }

  function SelectTable(t: bv16, val: bv8): bv16 {
    (t & !0x0C00) | (((val & 3) as bv16) << 10)
  }

  function AddressFirst(t: bv16, val: bv8): bv16 {
    (t & 0x00FF) | (((val & 0x3F) as bv16) << 8)
  }

  function AddressSecond(t: bv16, val: bv8): bv16 {
    (t & 0xFF00) | (val as bv16)
  }

  function LowThree(b: bv8): bv8 {
    b & 7
  }

  function HighFive(b: bv8): bv8 {
    b >> 3
  }

  function LowBit(b: bv8): bv8 {
    b & 1
  }

  function NextBit(b: bv8): bv8 {
    (b >> 1) & 1
  }

  lemma ThreeAndFive(b: bv8)
    ensures Value(LowThree(b)) == Value(b) % 8 && Value(HighFive(b)) == Value(b) / 8
  {}

  lemma LowBits(b: bv8)
    ensures Value(LowBit(b)) == Value(b) % 2 && Value(NextBit(b)) == Value(b) / 2 % 2
  {
    hide Value, LowBit, NextBit;
    BitsSplit(b);
  }

  lemma BitsSplit(b: bv8)
    ensures Value(b) == 4 * Value(b >> 2) + 2 * Value(NextBit(b)) + Value(LowBit(b))
    ensures Value(NextBit(b)) < 2 && Value(LowBit(b)) < 2
  {}

  lemma WidenValue(b: bv8)
    ensures WordValue(Widen(b)) == Value(b)
  {}

  lemma ScrollFirstBits(t: bv16, val: bv8)
    ensures var n := ScrollFirst(t, val);
      CoarseX(n) == Widen(HighFive(val)) && TableX(n) == TableX(t) && n & 0xFBE0 == t & 0xFBE0
  {}

  lemma ScrollSecondBits(t: bv16, val: bv8)
    ensures var n := ScrollSecond(t, val);
      && CoarseY(n) == Widen(HighFive(val)) && FineBits(n) == Widen(LowThree(val)) && TableY(n) == TableY(t)
      && n & 0x841F == t & 0x841F
  {}

  lemma SelectTableBits(t: bv16, val: bv8)
    ensures var n := SelectTable(t, val);
      && TableX(n) == Widen(LowBit(val)) && TableY(n) == Widen(NextBit(val)) && PageOf(n) == PageOf(t)
      && CoarseX(n) == CoarseX(t) && CoarseY(n) == CoarseY(t) && FineBits(n) == FineBits(t)
  {}

  /** The first scroll write sets the tile column inside the name table. */
  lemma ScrollFirstMeaning(t: bv16, val: bv8)
    ensures ColumnOf(ScrollFirst(t, val)) == ColumnOf(t) / 32 * 32 + Value(val) / 8
    ensures SameRow(t, ScrollFirst(t, val))
  {
    hide ScrollFirst, SameRow, ColumnOf, CoarseX, TableX, HighFive, LowThree, Value, Widen, WordValue;
    var n := ScrollFirst(t, val);
    ScrollFirstBits(t, val);
    ThreeAndFive(val);
    WidenValue(HighFive(val));
    ColumnParts(t);
    ColumnParts(n);
    RowBits(t, n);
  }

  /** The second sets the pixel row inside the name table, all eight bits of it. */
  lemma ScrollSecondMeaning(t: bv16, val: bv8)
    ensures RowOf(ScrollSecond(t, val)) == Row(RowOf(t).nt, Value(val))
    ensures SameColumn(t, ScrollSecond(t, val))
  {
    hide ScrollSecond, SameColumn, RowOf, CoarseY, FineBits, TableY, HighFive, LowThree, Value, Widen, WordValue;
    var n := ScrollSecond(t, val);
    ScrollSecondBits(t, val);
    ThreeAndFive(val);
    WidenValue(HighFive(val));
    WidenValue(LowThree(val));
    RowParts(t);
    RowParts(n);
    ColumnBits(t, n);
  }

  /** The pixel column named by a table, a tile column in it and a pixel of the tile. */
  lemma CornerColumn(c: nat, table: nat, x: nat)
    requires x < 256
    ensures 8 * ((c % 32 + 32 * (table % 2)) / 32 * 32 + x / 8) + x % 8 == 256 * (table % 2) + x
  {}

  /** A control write picks the name table and nothing else. */
  lemma SelectTableMeaning(t: bv16, val: bv8)
    ensures var n := SelectTable(t, val);
      && ColumnOf(n) == ColumnOf(t) % 32 + 32 * (Value(val) % 2)
      && RowOf(n) == Row(Value(val) / 2 % 2, RowOf(t).y) && PageOf(n) == PageOf(t)
  {
    hide SelectTable, ColumnOf, RowOf, PageOf, CoarseX, CoarseY, TableX, TableY, FineBits, LowBit, NextBit, Value;
    hide Widen, WordValue;
    var n := SelectTable(t, val);
    SelectTableBits(t, val);
    LowBits(val);
    WidenValue(LowBit(val));
    WidenValue(NextBit(val));
    ColumnParts(t);
    ColumnParts(n);
    RowParts(t);
    RowParts(n);
  }

  // ---- addresses ---------------------------------------------------------------

  function HighByte(v: bv16): bv8 {
    (v >> 8) as bv8
  }

  function LowByte(v: bv16): bv8 {
    (v & 0xFF) as bv8
  }

  function SixBits(b: bv8): (n: bv8)
    ensures Value(n) == Value(b) % 64
  {
    b & 0x3F
  }

  /** The 14 address bits of the register. */
  function VramAddress(v: bv16): (a: nat)
    ensures a < 0x4000
  {
    256 * Value(SixBits(HighByte(v))) + Value(LowByte(v))
  }

  lemma VramAddressMeaning(v: bv16)
    ensures VramAddress(v) == WordValue(v) % 0x4000
  {
    TwoBytes(v);
    hide Value, WordValue, HighByte, LowByte, SixBits;
    LowFourteen(Value(HighByte(v)), Value(LowByte(v)));
  }

  lemma TwoBytes(v: bv16)
    ensures WordValue(v) == 256 * Value(HighByte(v)) + Value(LowByte(v))
  {}

  lemma LowFourteen(high: nat, low: nat)
    requires low < 256
    ensures (256 * high + low) % 0x4000 == 256 * (high % 64) + low
  {
    assert high == 64 * (high / 64) + high % 64;
  }

  /** The register after an access: it moves by 1 or 32 and wraps at 16 bits. */
  function Moved(v: bv16, by32: bool): bv16 {
    if by32 then v + 32 else v + 1
  }

  lemma MovedLow(v: bv16, step: bv8)
    ensures LowByte(v + (step as bv16)) == LowByte(v) + step
  {}

  lemma MovedHighOne(v: bv16)
    ensures HighByte(v + 1) == if LowByte(v) == 0xFF then HighByte(v) + 1 else HighByte(v)
  {}

  lemma MovedHigh32(v: bv16)
    ensures HighByte(v + 32) == if LowByte(v) >= 0xE0 then HighByte(v) + 1 else HighByte(v)
  {}

  lemma ByteSums(b: bv8)
    ensures Value(b + 1) == (Value(b) + 1) % 256 && (b == 0xFF <==> Value(b) == 255)
    ensures Value(b + 32) == (Value(b) + 32) % 256 && (b >= 0xE0 <==> Value(b) >= 224)
  {}

  /** Address bits above the fourteenth never disturb the low ones. */
  lemma MovedAddress(v: bv16, by32: bool)
    ensures VramAddress(Moved(v, by32)) == (VramAddress(v) + if by32 then 32 else 1) % 0x4000
  {
    MovedLow(v, 1);
    MovedLow(v, 32);
    MovedHighOne(v);
    MovedHigh32(v);
    ByteSums(LowByte(v));
    ByteSums(HighByte(v));
    hide Value, HighByte, LowByte, SixBits;
    var high, low, step := Value(HighByte(v)), Value(LowByte(v)), if by32 then 32 else 1;
    Carry(high, low, step);
  }

  lemma Carry(high: nat, low: nat, step: nat)
    requires high < 256 && low < 256 && step < 256
    ensures (256 * (high % 64) + low + step) % 0x4000 ==
      if low + step < 256 then 256 * (high % 64) + (low + step) % 256
      else 256 * ((high + 1) % 256 % 64) + (low + step) % 256
  {
    NextHigh(high);
    var sum := low + step;
    assert sum % 256 == if sum < 256 then sum else sum - 256;
    WrapOnce(high % 64, sum);
  }

  lemma NextHigh(high: nat)
    requires high < 256
    ensures (high + 1) % 256 % 64 == if high % 64 == 63 then 0 else high % 64 + 1
  {}

  lemma WrapOnce(page: nat, sum: nat)
    requires page < 64 && sum < 512
    ensures (256 * page + sum) % 0x4000 == if page == 63 && sum >= 256 then sum - 256 else 256 * page + sum
  {}

  /** Two address writes load the register with the written bytes, the top two address
      bits cleared. */
  lemma LoadedAddress(t: bv16, high: bv8, low: bv8)
    ensures VramAddress(AddressSecond(AddressFirst(t, high), low)) == 256 * (Value(high) % 64) + Value(low)
  {
    LoadedBytes(t, high, low);
    hide Value, HighByte, LowByte;
  }

  lemma LoadedBytes(t: bv16, high: bv8, low: bv8)
    ensures var v := AddressSecond(AddressFirst(t, high), low);
      HighByte(v) == high & 0x3F && LowByte(v) == low && SixBits(high & 0x3F) == SixBits(high)
  {}

  /** The first address write replaces the upper byte and clears its two upper bits. */
  lemma AddressFirstMeaning(t: bv16, val: bv8)
    ensures WordValue(AddressFirst(t, val)) == 256 * (Value(val) % 64) + WordValue(t) % 256
  {
    AddressBytes(t, val);
    TwoBytes(t);
    TwoBytes(AddressFirst(t, val));
    hide Value, WordValue, HighByte, LowByte, SixBits, AddressFirst, AddressSecond;
    LowOf(Value(HighByte(t)), Value(LowByte(t)));
  }

  lemma LowOf(high: nat, low: nat)
    requires low < 256
    ensures (256 * high + low) % 256 == low && (256 * high + low) / 256 * 256 == 256 * high
  {}

  /** The second replaces the lower byte. */
  lemma AddressSecondMeaning(t: bv16, val: bv8)
    ensures WordValue(AddressSecond(t, val)) == WordValue(t) / 256 * 256 + Value(val)
  {
    AddressBytes(t, val);
    TwoBytes(t);
    TwoBytes(AddressSecond(t, val));
    hide Value, WordValue, HighByte, LowByte, SixBits, AddressFirst, AddressSecond;
    LowOf(Value(HighByte(t)), Value(LowByte(t)));
  }

  lemma AddressBytes(t: bv16, val: bv8)
    ensures HighByte(AddressFirst(t, val)) == SixBits(val) && LowByte(AddressFirst(t, val)) == LowByte(t)
    ensures HighByte(AddressSecond(t, val)) == HighByte(t) && LowByte(AddressSecond(t, val)) == val
  {}

  /** Where an address really goes: palette addresses repeat every 32 bytes and the
      backdrop entries of the two palettes are shared; 0x3000-0x3EFF repeats 0x2000. */
  function Effective(a: nat): (e: nat)
    requires a < 0x4000
    ensures e < 0x4000 && (e >= 0x3F00 <==> a >= 0x3F00)
  {
    if a >= 0x3F00 then 0x3F00 + Canonical(a % 0x100)
    else if a >= 0x3000 then a - 0x1000
    else a
  }

  function Canonical(i: nat): (c: nat)
    ensures c < 32
  {
    if i % 0x20 % 4 == 0 then i % 0x20 % 0x10 else i % 0x20
  }

  lemma CanonicalTwice(i: nat)
    ensures Canonical(Canonical(i)) == Canonical(i)
  {}

  /** Every entry the renderer looks up is one that the port keeps up to date. */
  lemma RendererIsCanonical(y: Layered)
    requires y.background.pattern < 4 && y.background.palette < 4
    requires y.sprite.pattern < 4 && y.sprite.palette < 4
    ensures Canonical(PaletteIndex(y)) == PaletteIndex(y)
  {}

  /** The register with address bit 12 cleared: what is under a palette address. */
  function Under(v: bv16): (a: nat)
    ensures a < 0x3000
  {
    256 * Value(HighByte(v) & 0x2F) + Value(LowByte(v))
  }

  // ---- the port ----------------------------------------------------------------

  predicate By32(ctrl: bv8) {
    ctrl & 4 != 0
  }

  /** The stride is bit 2 of the control register. */
  lemma StrideBit(ctrl: bv8)
    ensures By32(ctrl) <==> Value(ctrl) / 4 % 2 == 1
  {
    BitMeaning(ctrl);
    StrideShift(ctrl);
    Counts();
    hide By32, Value, BottomAfter, ShiftCount, Bit;
    BitParts(ctrl);
    SmallBit(BottomAfter(ctrl, 2));
    ThirdBit(Bit(ctrl, 0), Bit(ctrl, 1), Bit(ctrl, 2),
      Bit(ctrl, 3) + 2 * Bit(ctrl, 4) + 4 * Bit(ctrl, 5) + 8 * Bit(ctrl, 6) + 16 * Bit(ctrl, 7));
  }

  lemma StrideShift(ctrl: bv8)
    ensures By32(ctrl) <==> BottomAfter(ctrl, 2) == 1
  {}

  lemma SmallBit(b: bv8)
    requires b < 2
    ensures b == 1 <==> Value(b) == 1
  {}

  lemma ThirdBit(b0: nat, b1: nat, b2: nat, rest: nat)
    requires b0 < 2 && b1 < 2 && b2 < 2
    ensures (b0 + 2 * b1 + 4 * b2 + 8 * rest) / 4 % 2 == b2
  {}

  /** How far an access moves the address: 32 exactly when bit 2 of the control register
      is set. */
  function Stride(ctrl: bv8): nat {
    if Value(ctrl) / 4 % 2 == 1 then 32 else 1
  }

  function Stepped(a: nat, ctrl: bv8): nat {
    (a + Stride(ctrl)) % 0x4000
  }

  lemma Strides(v: bv16, ctrl: bv8)
    ensures VramAddress(Moved(v, By32(ctrl))) == Stepped(VramAddress(v), ctrl)
  {
    hide VramAddress, Moved, By32, Value;
    StrideBit(ctrl);
    MovedAddress(v, By32(ctrl));
  }

  /** What is fetched behind a palette read lies 0x1000 below it. */
  lemma UnderMeaning(v: bv16)
    requires VramAddress(v) >= 0x3F00
    ensures Under(v) == VramAddress(v) - 0x1000
  {
    UnderByte(HighByte(v));
    hide Value, HighByte, LowByte, SixBits;
    assert Value(SixBits(HighByte(v))) == 63;
  }

  lemma UnderByte(b: bv8)
    ensures Value(SixBits(b)) == 63 ==> Value(b & 0x2F) == 47
  {}

  /** A palette read shows six bits of the entry and two of the decaying bus. */
  function PaletteRead(entry: bv8, decay: bv8): bv8 {
    (entry & 0x3F) | (decay & !0x3F)
  }

  function AfterPaletteRead(decay: bv8, value: bv8): bv8 {
    (decay & 0x3F) | value
  }

  lemma PaletteReadMeaning(entry: bv8, decay: bv8)
    ensures PaletteRead(entry, decay) & 0x3F == entry & 0x3F && PaletteRead(entry, decay) & 0xC0 == decay & 0xC0
  {}

  /** The decaying bus keeps its two upper bits and collects the six bits of the entry. */
  lemma AfterPaletteReadMeaning(entry: bv8, decay: bv8)
    ensures var after := AfterPaletteRead(decay, PaletteRead(entry, decay));
      after & 0xC0 == decay & 0xC0 && after & 0x3F == (decay | entry) & 0x3F
  {}

  /** The PPU side of the address space: which cell each address is wired to (name tables
      and mirrors may share cells) and whether it can be written. */
  class RegisterPort {
    const place: seq<nat>
    const writable: seq<bool>
    var cells: seq<bv8>
    var paletteCopy: seq<bv8>
    var t: bv16
    var v: bv16
    var fineX: bv8
    var ctrl: bv8
    var w: bool
    var readBuffer: bv8
    var decay: bv8
    var oam: seq<bv8>
    var oamAddr: bv8

    /** Palette memory is RAM of its own. */
    ghost predicate Layout() {
      && |place| == |writable| == 0x4000
      && (forall i :: 0 <= i < 32 && Canonical(i) == i ==> writable[0x3F00 + i])
      && (forall i, a :: 0 <= i < 32 && Canonical(i) == i && 0 <= a < 0x4000 && place[a] == place[0x3F00 + i] ==>
            a == 0x3F00 + i)
    }

    ghost predicate Valid()
      reads this`cells, this`paletteCopy
    {
      && Layout() && |paletteCopy| == 32
      && (forall a :: 0 <= a < 0x4000 ==> place[a] < |cells|)
      && (forall i :: 0 <= i < 32 && Canonical(i) == i ==> paletteCopy[i] == cells[place[0x3F00 + i]])
    }

    constructor (place: seq<nat>, writable: seq<bool>, cells: seq<bv8>, paletteCopy: seq<bv8>)
      requires |place| == |writable| == 0x4000 && |paletteCopy| == 32
      requires forall a :: 0 <= a < 0x4000 ==> place[a] < |cells|
      ensures this.place == place && this.writable == writable && this.cells == cells
      ensures this.paletteCopy == paletteCopy && !w && readBuffer == 0 && decay == 0 && AttributesClean()
      ensures ctrl == 0 && t == v == 0 && fineX == 0 && |oam| == 256 && oamAddr == 0
      ensures Layout() ==>
        (forall i :: 0 <= i < 32 && Canonical(i) == i ==> paletteCopy[i] == cells[place[0x3F00 + i]]) ==>
        Valid()
    {
      this.place, this.writable, this.cells, this.paletteCopy := place, writable, cells, paletteCopy;
      t, v, fineX, ctrl, w, readBuffer, decay := 0, 0, 0, 0, false, 0, 0;
      oam, oamAddr := seq(256, _ => 0), 0;
    }

    /** The cell an address reaches. */
    function CellAt(a: nat): nat
      requires a < 0x4000 && |place| == 0x4000
    {
      place[Effective(a)]
    }

    method ScrollWrite(val: bv8)
      modifies this`t, this`fineX, this`w, this`decay
      ensures w == !old(w) && decay == val
      ensures !old(w) ==> t == ScrollFirst(old(t), val) && fineX == val & 7
      ensures old(w) ==> t == ScrollSecond(old(t), val) && fineX == old(fineX)
    {
      decay := val;
      if !w {
        t := ScrollFirst(t, val);
        fineX := val & 7;
        w := true;
      } else {
        t := ScrollSecond(t, val);
        w := false;
      }
    }

    method AddrWrite(val: bv8)
      modifies this`t, this`v, this`w, this`decay
      ensures w == !old(w) && decay == val
      ensures !old(w) ==> t == AddressFirst(old(t), val) && v == old(v)
      ensures old(w) ==> t == AddressSecond(old(t), val) && v == t
    {
      decay := val;
      if !w {
        t := AddressFirst(t, val);
        w := true;
      } else {
        t := AddressSecond(t, val);
        v := t;
        w := false;
      }
    }

    method CtrlWrite(val: bv8)
      modifies this`t, this`ctrl, this`decay
      ensures ctrl == val && decay == val && t == SelectTable(old(t), val)
    {
      decay := val;
      ctrl := val;
      t := SelectTable(t, val);
    }

    /** A status read clears the toggle; what it returns is not part of this class. */
    method StatusRead()
      modifies this`w
      ensures !w
    {
      w := false;
    }

    /** The scroll position of the next frame: a control write and two scroll writes
        place the screen's corner at plane pixel (256 * nt + x, 240 * nt' + y). */
    method SetScroll(select: bv8, x: bv8, y: bv8)
      requires !w
      modifies this`t, this`fineX, this`w, this`ctrl, this`decay
      ensures !w
      ensures 8 * ColumnOf(t) + Value(fineX) == 256 * (Value(select) % 2) + Value(x)
      ensures RowOf(t) == Row(Value(select) / 2 % 2, Value(y))
    {
      hide SelectTable, ScrollFirst, ScrollSecond, ColumnOf, RowOf, PageOf, Value;
      CtrlWrite(select);
      SelectTableMeaning(old(t), select);
      ghost var t1 := t;
      ScrollWrite(x);
      ScrollFirstMeaning(t1, x);
      ThreeAndFive(x);
      CornerColumn(ColumnOf(old(t)), Value(select), Value(x));
      ghost var t2 := t;
      ScrollWrite(y);
      ScrollSecondMeaning(t2, y);
    }

    method Advance()
      modifies this`v
      ensures v == Moved(old(v), By32(ctrl))
      ensures VramAddress(v) == Stepped(VramAddress(old(v)), ctrl)
    {
      hide VramAddress, Moved, By32, Stepped;
      Strides(v, ctrl);
      v := Moved(v, By32(ctrl));
    }

    method BusWrite(address: nat, val: bv8)
      requires address < 0x4000 && |place| == |writable| == 0x4000 && place[address] < |cells|
      modifies this`cells
      ensures cells == if writable[address] then old(cells)[place[address] := val] else old(cells)
    {
      if writable[address] {
        cells := cells[place[address] := val];
      }
    }

    method PaletteSlot(address: nat) returns (paletteIndex: nat)
      ensures paletteIndex == Canonical(address % 0x100)
    {
      paletteIndex := address % 0x100;
      paletteIndex := paletteIndex % 0x20;
      if paletteIndex % 4 == 0 {
        paletteIndex := paletteIndex % 0x10;
      }
    }

    method DataWrite(val: bv8)
      requires Valid()
      modifies this`cells, this`paletteCopy, this`v, this`decay
      ensures Valid() && decay == val && v == Moved(old(v), By32(ctrl))
      ensures VramAddress(v) == Stepped(VramAddress(old(v)), ctrl)
      ensures cells == if writable[Effective(VramAddress(old(v)))]
                       then old(cells)[CellAt(VramAddress(old(v))) := val] else old(cells)
      ensures paletteCopy == if VramAddress(old(v)) < 0x3F00 then old(paletteCopy)
                             else old(paletteCopy)[Canonical(VramAddress(old(v)) % 0x100) := val]
    {
      hide VramAddress, Moved, By32, Canonical, Stepped;
      decay := val;
      var address := VramAddress(v);
      if address >= 0x3F00 {
        WritePalette(address, val);
      } else {
        if address >= 0x3000 {
          address := address - 0x1000;
        }
        BusWrite(address, val);
      }
      Advance();
    }

    method WritePalette(to: nat, val: bv8)
      requires Valid() && 0x3F00 <= to < 0x4000
      modifies this`cells, this`paletteCopy
      ensures Valid()
      ensures cells == if writable[Effective(to)] then old(cells)[CellAt(to) := val] else old(cells)
      ensures paletteCopy == old(paletteCopy)[Canonical(to % 0x100) := val]
    {
      hide Canonical;
      var paletteIndex := PaletteSlot(to);
      CanonicalTwice(to % 0x100);
      paletteCopy := paletteCopy[paletteIndex := val];
      BusWrite(0x3F00 + paletteIndex, val);
    }

    /** Below the palette a read returns what the previous one fetched. A palette read
        answers at once, with the entry the renderer uses, and fetches from the memory
        under the palette. */
    method DataRead() returns (value: bv8)
      requires Valid()
      modifies this`readBuffer, this`v, this`decay
      ensures Valid() && v == Moved(old(v), By32(ctrl))
      ensures VramAddress(v) == Stepped(VramAddress(old(v)), ctrl)
      ensures var a := VramAddress(old(v));
        if a < 0x3F00 then value == old(readBuffer) && readBuffer == cells[CellAt(a)] && decay == value
        else
          && value == PaletteRead(paletteCopy[Canonical(a % 0x100)], old(decay))
          && value & 0x3F == paletteCopy[Canonical(a % 0x100)] & 0x3F && value & 0xC0 == old(decay) & 0xC0
          && readBuffer == cells[place[a - 0x1000]] && decay & 0xC0 == old(decay) & 0xC0
          && decay & 0x3F == (old(decay) | paletteCopy[Canonical(a % 0x100)]) & 0x3F
    {
      hide VramAddress, Moved, By32, Canonical, Under, PaletteRead, AfterPaletteRead, Stepped;
      var address := VramAddress(v);
      if address >= 0x3F00 {
        value := ReadPalette(address);
      } else {
        if address >= 0x3000 {
          address := address - 0x1000;
        }
        value := readBuffer;
        readBuffer := cells[place[address]];
        decay := value;
      }
      Advance();
    }

    method ReadPalette(from: nat) returns (value: bv8)
      requires Valid() && 0x3F00 <= from == VramAddress(v)
      modifies this`readBuffer, this`decay
      ensures Valid()
      ensures value == PaletteRead(paletteCopy[Canonical(from % 0x100)], old(decay))
      ensures value & 0x3F == paletteCopy[Canonical(from % 0x100)] & 0x3F && value & 0xC0 == old(decay) & 0xC0
      ensures readBuffer == cells[place[from - 0x1000]] && decay & 0xC0 == old(decay) & 0xC0
      ensures decay & 0x3F == (old(decay) | paletteCopy[Canonical(from % 0x100)]) & 0x3F
    {
      hide VramAddress, Canonical, Under, PaletteRead, AfterPaletteRead;
      var paletteIndex := PaletteSlot(from);
      CanonicalTwice(from % 0x100);
      value := cells[place[0x3F00 + paletteIndex]];
      readBuffer := cells[place[Under(v)]];
      UnderMeaning(v);
      PaletteReadMeaning(value, decay);
      AfterPaletteReadMeaning(value, decay);
      value := PaletteRead(value, decay);
      decay := AfterPaletteRead(decay, value);
    }

    method OamAddrWrite(val: bv8)
      modifies this`oamAddr, this`decay
      ensures oamAddr == val && decay == val
    {
      decay := val;
      oamAddr := val;
    }

    /** The byte a write to OAM stores. */
    method Keep(val: bv8, drawing: bool) returns (kept: bv8)
      ensures kept == Stored(val, oamAddr, drawing)
    {
      kept := val;
      if drawing {
        kept := 0xFF;
      }
      if oamAddr % 4 == 2 {
        kept := kept & 0xE3;
      }
    }

    /** Sprite attributes never keep bits 2 to 4; writes while a picture is drawn
        (`drawing`) store 0xFF instead. */
    method OamDataWrite(val: bv8, drawing: bool)
      requires |oam| == 256
      modifies this`oam, this`oamAddr, this`decay
      ensures |oam| == 256 && oamAddr == old(oamAddr) + 1 && decay == val
      ensures oam == old(oam)[Value(old(oamAddr)) := Stored(val, old(oamAddr), drawing)]
      ensures var byte := if drawing then 0xFF else val;
        if Value(old(oamAddr)) % 4 == 2 then MaskedAttribute(byte, oam[Value(old(oamAddr))])
        else oam[Value(old(oamAddr))] == byte
      ensures old(AttributesClean()) ==> AttributesClean()
    {
      StoredMeaning(val, oamAddr, drawing);
      StoredClean(val, oamAddr, drawing);
      IsAttribute(oamAddr);
      hide Stored, Value, CleanByte, MaskedAttribute;
      decay := val;
      var kept := Keep(val, drawing);
      oam := oam[Value(oamAddr) := kept];
      oamAddr := oamAddr + 1;
    }

    /** A DMA transfer fills OAM from the current address on, around the end, and masks
        nothing: the attributes are clean afterwards exactly when they came that way. */
    method OamDma(data: seq<bv8>)
      requires |oam| == |data| == 256
      modifies this`oam
      ensures |oam| == 256 && forall i :: 0 <= i < 256 ==> oam[(Value(oamAddr) + i) % 256] == data[i]
      ensures AttributesClean() <==> CleanTransfer(oamAddr, data)
    {
      hide Value, Clean, CleanTransfer;
      for i := 0 to 256
        invariant |oam| == 256
        invariant forall k :: 0 <= k < i ==> oam[DmaSlot(oamAddr, k)] == data[k]
      {
        oam := oam[DmaSlot(oamAddr, i) := data[i]];
      }
      CleanExactly(oamAddr, oam, data);
    }

    ghost predicate AttributesClean()
      reads this`oam
    {
      Clean(oam)
    }
  }

  // ---- bulk transfers ----------------------------------------------------------

  /** Address of the k-th access of a transfer. */
  function At(start: nat, by32: bool, k: nat): (a: nat)
    ensures a < 0x4000
  {
    (start + k * if by32 then 32 else 1) % 0x4000
  }

  lemma NextAt(start: nat, by32: bool, k: nat)
    ensures (At(start, by32, k) + if by32 then 32 else 1) % 0x4000 == At(start, by32, k + 1)
  {
    var step := if by32 then 32 else 1;
    var n := start + k * step;
    assert start + (k + 1) * step == n + step by {
      assert (k + 1) * step == k * step + step;
    }
    ModAdd(n, step);
  }

  lemma ModAdd(n: nat, step: nat)
    ensures (n % 0x4000 + step) % 0x4000 == (n + step) % 0x4000
  {}

  /** The transfer touches n writable cells, all different, and neither it nor the
      read-ahead behind it reaches the palette. */
  ghost predicate Plain(port: RegisterPort, start: nat, by32: bool, n: nat) {
    Apart(port, start, by32, n) && forall k :: 0 <= k <= n ==> At(start, by32, k) < 0x3F00
  }

  /** The transfer touches n writable cells, all different. */
  ghost predicate Apart(port: RegisterPort, start: nat, by32: bool, n: nat) {
    && |port.place| == |port.writable| == 0x4000
    && (forall k :: 0 <= k < n ==> port.writable[Effective(At(start, by32, k))])
    && (forall j, k :: 0 <= j < k < n ==> port.CellAt(At(start, by32, j)) != port.CellAt(At(start, by32, k)))
  }

  method SetAddress(port: RegisterPort, high: bv8, low: bv8)
    requires port.Valid() && !port.w
    modifies port`t, port`v, port`w, port`decay
    ensures port.Valid() && !port.w
    ensures VramAddress(port.v) == 256 * (Value(high) % 64) + Value(low)
  {
    hide VramAddress, AddressFirst, AddressSecond, Value;
    LoadedAddress(port.t, high, low);
    port.AddrWrite(high);
    port.AddrWrite(low);
  }

  /** The first n bytes of a transfer have arrived. */
  ghost predicate Arrived(port: RegisterPort, start: nat, by32: bool, data: seq<bv8>, n: nat)
    reads port`cells
  {
    && |port.place| == 0x4000 && n <= |data|
    && forall k :: 0 <= k < n ==>
         port.CellAt(At(start, by32, k)) < |port.cells| && port.cells[port.CellAt(At(start, by32, k))] == data[k]
  }

  method WriteAll(port: RegisterPort, data: seq<bv8>, ghost start: nat)
    requires port.Valid() && VramAddress(port.v) == At(start, By32(port.ctrl), 0)
    requires Apart(port, start, By32(port.ctrl), |data|)
    modifies port`cells, port`paletteCopy, port`v, port`decay
    ensures port.Valid() && Arrived(port, start, By32(port.ctrl), data, |data|)
    ensures VramAddress(port.v) == At(start, By32(port.ctrl), |data|)
  {
    hide VramAddress, At, By32;
    for i := 0 to |data|
      invariant port.Valid() && VramAddress(port.v) == At(start, By32(port.ctrl), i)
      invariant Arrived(port, start, By32(port.ctrl), data, i)
    {
      WriteNext(port, data, start, i);
    }
  }

  method WriteNext(port: RegisterPort, data: seq<bv8>, ghost start: nat, i: nat)
    requires i < |data| && port.Valid() && VramAddress(port.v) == At(start, By32(port.ctrl), i)
    requires Apart(port, start, By32(port.ctrl), |data|) && Arrived(port, start, By32(port.ctrl), data, i)
    modifies port`cells, port`paletteCopy, port`v, port`decay
    ensures port.Valid() && VramAddress(port.v) == At(start, By32(port.ctrl), i + 1)
    ensures Arrived(port, start, By32(port.ctrl), data, i + 1)
  {
    hide VramAddress, Moved, At, Effective, By32, Canonical;
    MovedAddress(port.v, By32(port.ctrl));
    NextAt(start, By32(port.ctrl), i);
    port.DataWrite(data[i]);
  }

  method ReadAll(port: RegisterPort, n: nat, ghost start: nat, ghost data: seq<bv8>)
    returns (stale: bv8, back: seq<bv8>)
    requires port.Valid() && VramAddress(port.v) == At(start, By32(port.ctrl), 0)
    requires |data| == n && Plain(port, start, By32(port.ctrl), n)
    requires Arrived(port, start, By32(port.ctrl), data, n)
    modifies port`readBuffer, port`v, port`decay
    ensures port.Valid() && stale == old(port.readBuffer) && back == data
  {
    hide VramAddress, Moved, At, Effective, By32, Canonical, Under, PaletteRead, AfterPaletteRead;
    ghost var by32 := By32(port.ctrl);
    MovedAddress(port.v, by32);
    NextAt(start, by32, 0);
    stale := port.DataRead();
    back := [];
    for i := 0 to n
      invariant port.Valid() && VramAddress(port.v) == At(start, by32, i + 1)
      invariant i < n ==> port.readBuffer == data[i]
      invariant back == data[..i]
    {
      var value := ReadNext(port, start, data, i);
      back := back + [value];
    }
  }

  method ReadNext(port: RegisterPort, ghost start: nat, ghost data: seq<bv8>, ghost i: nat) returns (value: bv8)
    requires i < |data| && port.Valid() && VramAddress(port.v) == At(start, By32(port.ctrl), i + 1)
    requires Plain(port, start, By32(port.ctrl), |data|) && Arrived(port, start, By32(port.ctrl), data, |data|)
    requires port.readBuffer == data[i]
    modifies port`readBuffer, port`v, port`decay
    ensures port.Valid() && VramAddress(port.v) == At(start, By32(port.ctrl), i + 2)
    ensures value == data[i] && (i + 1 < |data| ==> port.readBuffer == data[i + 1])
  {
    hide VramAddress, Moved, At, Effective, By32, Canonical, Under, PaletteRead, AfterPaletteRead;
    MovedAddress(port.v, By32(port.ctrl));
    NextAt(start, By32(port.ctrl), i + 1);
    value := port.DataRead();
  }

  /** Writing bytes to an address and reading one more byte back from it returns one
      stale byte and then exactly what was written. */
  method RoundTrip(port: RegisterPort, high: bv8, low: bv8, data: seq<bv8>) returns (stale: bv8, back: seq<bv8>)
    requires port.Valid() && !port.w
    requires Plain(port, 256 * (Value(high) % 64) + Value(low), By32(port.ctrl), |data|)
    modifies port
    ensures port.Valid() && stale == old(port.readBuffer) && back == data
  {
    hide VramAddress, Apart, At, Effective, Value, By32, Arrived;
    ghost var start := 256 * (Value(high) % 64) + Value(low);
    SetAddress(port, high, low);
    AtZero(start, By32(port.ctrl));
    WriteAll(port, data, start);
    SetAddress(port, high, low);
    stale, back := ReadAll(port, |data|, start, data);
  }

  /** A program uploads bytes: it writes the control register, the address and then the data.
      Byte k lands behind the address k strides on. */
  method Upload(port: RegisterPort, ctrl: bv8, high: bv8, low: bv8, data: seq<bv8>)
    requires port.Valid() && !port.w
    requires Apart(port, 256 * (Value(high) % 64) + Value(low), Stride(ctrl) == 32, |data|)
    modifies port
    ensures port.Valid()
    ensures var start := 256 * (Value(high) % 64) + Value(low);
      && VramAddress(port.v) == (start + |data| * Stride(ctrl)) % 0x4000
      && forall k :: 0 <= k < |data| ==> port.cells[port.CellAt((start + k * Stride(ctrl)) % 0x4000)] == data[k]
  {
    hide VramAddress, Apart, Stride, Value, Effective;
    port.CtrlWrite(ctrl);
    SetAddress(port, high, low);
    ghost var start := VramAddress(port.v);
    WriteFrom(port, data, start);
  }

  method WriteFrom(port: RegisterPort, data: seq<bv8>, ghost start: nat)
    requires port.Valid() && VramAddress(port.v) == start
    requires Apart(port, start, Stride(port.ctrl) == 32, |data|)
    modifies port`cells, port`paletteCopy, port`v, port`decay
    ensures port.Valid()
    ensures VramAddress(port.v) == (start + |data| * Stride(port.ctrl)) % 0x4000
    ensures forall k :: 0 <= k < |data| ==>
      port.cells[port.CellAt((start + k * Stride(port.ctrl)) % 0x4000)] == data[k]
  {
    hide VramAddress, Apart, By32, At, Arrived, Stride, Effective;
    StrideBit(port.ctrl);
    AtZero(start, By32(port.ctrl));
    StrideOf(port.ctrl);
    ghost var by32 := Stride(port.ctrl) == 32;
    assert by32 == By32(port.ctrl);
    assert Apart(port, start, by32, |data|);
    WriteAll(port, data, start);
    Landed(port, start, data);
  }

  lemma StrideOf(ctrl: bv8)
    ensures Stride(ctrl) == (if By32(ctrl) then 32 else 1) && (Stride(ctrl) == 32 <==> By32(ctrl))
  {
    hide By32, Value;
    StrideBit(ctrl);
  }

  lemma Landed(port: RegisterPort, start: nat, data: seq<bv8>)
    requires port.Valid() && Arrived(port, start, By32(port.ctrl), data, |data|)
    ensures At(start, By32(port.ctrl), |data|) == (start + |data| * Stride(port.ctrl)) % 0x4000
    ensures forall k :: 0 <= k < |data| ==>
      port.cells[port.CellAt((start + k * Stride(port.ctrl)) % 0x4000)] == data[k]
  {
    hide Effective, Stride, By32;
    StrideOf(port.ctrl);
  }

  datatype DataAccess = Put(val: bv8) | Get

  /** Whatever is written and read at the data port, every access moves the address on by
      the stride. */
  method Walk(port: RegisterPort, ctrl: bv8, high: bv8, low: bv8, accesses: seq<DataAccess>)
    requires port.Valid() && !port.w
    modifies port
    ensures port.Valid()
    ensures var start := 256 * (Value(high) % 64) + Value(low);
      VramAddress(port.v) == (start + |accesses| * Stride(ctrl)) % 0x4000
  {
    hide VramAddress, Stride, Value;
    port.CtrlWrite(ctrl);
    SetAddress(port, high, low);
    WalkFrom(port, accesses, VramAddress(port.v));
  }

  method WalkFrom(port: RegisterPort, accesses: seq<DataAccess>, ghost start: nat)
    requires port.Valid() && VramAddress(port.v) == start
    modifies port`cells, port`paletteCopy, port`v, port`decay, port`readBuffer
    ensures port.Valid() && VramAddress(port.v) == (start + |accesses| * Stride(port.ctrl)) % 0x4000
  {
    hide VramAddress, By32, At, Stride, RegisterPort.Valid;
    AtZero(start, By32(port.ctrl));
    for i := 0 to |accesses|
      invariant port.Valid() && VramAddress(port.v) == At(start, By32(port.ctrl), i)
    {
      WalkNext(port, accesses[i], start, i);
    }
    StrideOf(port.ctrl);
    Walked(start, port.ctrl, |accesses|);
  }

  method WalkNext(port: RegisterPort, access: DataAccess, ghost start: nat, ghost i: nat)
    requires port.Valid() && VramAddress(port.v) == At(start, By32(port.ctrl), i)
    modifies port`cells, port`paletteCopy, port`v, port`decay, port`readBuffer
    ensures port.Valid() && VramAddress(port.v) == At(start, By32(port.ctrl), i + 1)
  {
    hide VramAddress, By32, At, Moved, Stepped, Canonical, Effective;
    MovedAddress(port.v, By32(port.ctrl));
    NextAt(start, By32(port.ctrl), i);
    match access
    case Put(val) => port.DataWrite(val);
    case Get => var _ := port.DataRead();
  }

  lemma Walked(start: nat, ctrl: bv8, n: nat)
    ensures At(start, By32(ctrl), n) == (start + n * Stride(ctrl)) % 0x4000
  {
    hide By32, Stride;
    StrideOf(ctrl);
  }

  lemma AtZero(start: nat, by32: bool)
    requires start < 0x4000
    ensures At(start, by32, 0) == start
  {}

  // ---- a console ---------------------------------------------------------------

  /** The cell behind each address of a console: pattern memory, two name tables side by
      side or one above the other, and the palette. All other addresses share a cell that
      cannot be written. */
  function Wiring(sideways: bool, a: nat): (cell: nat)
    requires a < 0x4000
    ensures cell < 0x2821
  {
    if a < 0x2000 then a
    else if a < 0x3000 then 0x2000 + 0x400 * Side(sideways, a / 0x400 % 4) + a % 0x400
    else if 0x3F00 <= a < 0x3F20 then 0x2800 + (a - 0x3F00)
    else 0x2820
  }

  /** Which of the two tables is at position `quarter` of the four. */
  function Side(sideways: bool, quarter: nat): (side: nat)
    requires quarter < 4
    ensures side < 2
  {
    if sideways then quarter % 2 else quarter / 2
  }

  function Writable(chrRam: bool, a: nat): bool {
    if a < 0x2000 then chrRam else a < 0x3000 || 0x3F00 <= a < 0x3F20
  }

  /** Two name tables in four places. Side by side they repeat vertically, one above the
      other horizontally; the two tables never share a cell, and nothing but the tables, the
      pattern memory and the palette is wired to cells of its own. */
  lemma WiringMeaning(sideways: bool, off: nat, other: nat)
    requires off < 0x400 && other < 0x400
    ensures sideways ==>
      && Wiring(true, 0x2000 + off) == Wiring(true, 0x2800 + off)
      && Wiring(true, 0x2400 + off) == Wiring(true, 0x2C00 + off)
      && Wiring(true, 0x2000 + off) != Wiring(true, 0x2400 + other)
    ensures !sideways ==>
      && Wiring(false, 0x2000 + off) == Wiring(false, 0x2400 + off)
      && Wiring(false, 0x2800 + off) == Wiring(false, 0x2C00 + off)
      && Wiring(false, 0x2000 + off) != Wiring(false, 0x2800 + other)
    ensures Wiring(sideways, 0x2000 + off) == Wiring(sideways, 0x2000 + other) ==> off == other
  {
    hide Side;
    Sides();
    Quarter4(0, off);
    Quarter4(1, off);
    Quarter4(2, off);
    Quarter4(3, off);
    Quarter4(0, other);
    Quarter4(1, other);
    Quarter4(2, other);
  }

  lemma Sides()
    ensures Side(true, 0) == Side(true, 2) == 0 && Side(true, 1) == Side(true, 3) == 1
    ensures Side(false, 0) == Side(false, 1) == 0 && Side(false, 2) == Side(false, 3) == 1
  {}

  /** A console's register port at power-on. */
  method PowerOn(sideways: bool, chrRam: bool) returns (port: RegisterPort)
    ensures fresh(port) && port.Valid() && !port.w && |port.oam| == 256 && port.AttributesClean()
    ensures !By32(port.ctrl) && port.readBuffer == 0
    ensures port.place == seq(0x4000, a requires 0 <= a < 0x4000 => Wiring(sideways, a))
    ensures port.writable == seq(0x4000, a requires 0 <= a < 0x4000 => Writable(chrRam, a))
    ensures forall a :: 0 <= a < 0x2000 ==> (port.writable[a] <==> chrRam)
  {
    port := new RegisterPort(seq(0x4000, a requires 0 <= a < 0x4000 => Wiring(sideways, a)),
      seq(0x4000, a requires 0 <= a < 0x4000 => Writable(chrRam, a)), seq(0x2821, _ => 0), seq(32, _ => 0));
  }

  /** From power-on, with either mirroring: after any run of port accesses, a status read and
      a control write, up to 1 KB written to a name table comes back, behind one stale byte. */
  method FromPowerOn(sideways: bool, chrRam: bool, accesses: seq<PortAccess>, table: nat, data: seq<bv8>)
    returns (stale: bv8, back: seq<bv8>)
    requires table < 4 && |data| <= 0x400
    ensures back == data
  {
    hide Plain, By32, Value, Wiring, Writable;
    var port := PowerOn(sideways, chrRam);
    AnyRun(port, accesses);
    port.StatusRead();
    port.CtrlWrite(0);
    var high: bv8 := [0x20, 0x24, 0x28, 0x2C][table];
    TableHigh(table, high);
    TableIsPlain(port, sideways, chrRam, table, |data|);
    stale, back := RoundTrip(port, high, 0, data);
  }

  lemma TableHigh(table: nat, high: bv8)
    requires table < 4 && high == [0x20, 0x24, 0x28, 0x2C][table]
    ensures 256 * (Value(high) % 64) + Value(0) == 0x2000 + 0x400 * table && !By32(0)
  {}

  lemma TableIsPlain(port: RegisterPort, sideways: bool, chrRam: bool, table: nat, n: nat)
    requires port.place == seq(0x4000, a requires 0 <= a < 0x4000 => Wiring(sideways, a))
    requires port.writable == seq(0x4000, a requires 0 <= a < 0x4000 => Writable(chrRam, a))
    requires table < 4 && n <= 0x400
    ensures Plain(port, 0x2000 + 0x400 * table, false, n)
  {
    hide At, Effective, Wiring, Writable, Side, RegisterPort.CellAt;
    var start := 0x2000 + 0x400 * table;
    forall k | 0 <= k <= n ensures At(start, false, k) == start + k < 0x3F00 {
      InTable(table, k);
    }
    forall k | 0 <= k < n
      ensures port.writable[Effective(At(start, false, k))]
      ensures port.CellAt(At(start, false, k)) == 0x2000 + 0x400 * Side(sideways, table) + k
    {
      InTable(table, k);
      Behind(port, sideways, chrRam, table, k);
    }
  }

  lemma Behind(port: RegisterPort, sideways: bool, chrRam: bool, table: nat, k: nat)
    requires port.place == seq(0x4000, a requires 0 <= a < 0x4000 => Wiring(sideways, a))
    requires port.writable == seq(0x4000, a requires 0 <= a < 0x4000 => Writable(chrRam, a))
    requires table < 4 && k < 0x400
    ensures var a := 0x2000 + 0x400 * table + k;
      port.writable[Effective(a)] && port.CellAt(a) == 0x2000 + 0x400 * Side(sideways, table) + k
  {
    Quarter4(table, k);
  }

  lemma InTable(table: nat, k: nat)
    requires table < 4 && k <= 0x400
    ensures At(0x2000 + 0x400 * table, false, k) == 0x2000 + 0x400 * table + k < 0x3F00
  {}

  lemma Quarter4(table: nat, k: nat)
    requires table < 4 && k < 0x400
    ensures (0x2000 + 0x400 * table + k) / 0x400 % 4 == table && (0x2000 + 0x400 * table + k) % 0x400 == k
  {}

  // ---- the palette copy over whole runs ------------------------------------------

  datatype PortAccess =
    | WriteScroll(val: bv8) | WriteAddr(val: bv8) | WriteCtrl(val: bv8) | WriteData(val: bv8)
    | WriteOamAddr(val: bv8) | WriteOamData(val: bv8, drawing: bool)
    | ReadStatus | ReadData

  /** Whatever is written and read through the port, in whatever order, the renderer's
      copy of every palette entry it can look up is the entry in palette memory, and
      clean sprite attributes stay clean. */
  method AnyRun(port: RegisterPort, accesses: seq<PortAccess>)
    requires port.Valid() && |port.oam| == 256
    modifies port
    ensures port.Valid() && |port.oam| == 256
    ensures old(port.AttributesClean()) ==> port.AttributesClean()
    ensures forall y: Layered ::
      y.background.pattern < 4 && y.background.palette < 4 && y.sprite.pattern < 4 && y.sprite.palette < 4 ==>
        port.paletteCopy[PaletteIndex(y)] == port.cells[port.place[0x3F00 + PaletteIndex(y)]]
  {
    for i := 0 to |accesses|
      invariant port.Valid() && |port.oam| == 256
      invariant old(port.AttributesClean()) ==> port.AttributesClean()
    {
      match accesses[i]
      case WriteOamAddr(val) => port.OamAddrWrite(val);
      case WriteOamData(val, drawing) => port.OamDataWrite(val, drawing);
      case WriteScroll(val) => port.ScrollWrite(val);
      case WriteAddr(val) => port.AddrWrite(val);
      case WriteCtrl(val) => port.CtrlWrite(val);
      case WriteData(val) => port.DataWrite(val);
      case ReadStatus => port.StatusRead();
      case ReadData => var _ := port.DataRead();
    }
    forall y: Layered |
        y.background.pattern < 4 && y.background.palette < 4 && y.sprite.pattern < 4 && y.sprite.palette < 4
      ensures port.paletteCopy[PaletteIndex(y)] == port.cells[port.place[0x3F00 + PaletteIndex(y)]]
    {
      RendererIsCanonical(y);
    }
  }

  function DmaSlot(oamAddr: bv8, i: nat): (slot: nat)
    ensures slot < 256
  {
    (Value(oamAddr) + i) % 256
  }

  /** Bits 2 to 4 of every attribute byte are clear. */
  ghost predicate Clean(oam: seq<bv8>) {
    |oam| == 256 && forall k :: 0 <= k < 64 ==> CleanByte(oam[4 * k + 2])
  }

  predicate CleanByte(b: bv8) {
    b & 0x1C == 0
  }

  lemma CleanExactly(oamAddr: bv8, oam: seq<bv8>, data: seq<bv8>)
    requires |oam| == |data| == 256
    requires forall i :: 0 <= i < 256 ==> oam[DmaSlot(oamAddr, i)] == data[i]
    ensures Clean(oam) <==> CleanTransfer(oamAddr, data)
  {
    hide Value, CleanByte, DmaSlot;
    if Clean(oam) {
      forall i | 0 <= i < 256 && DmaSlot(oamAddr, i) % 4 == 2 ensures CleanByte(data[i]) {
        AttributeSlot(DmaSlot(oamAddr, i));
      }
    }
    if CleanTransfer(oamAddr, data) {
      forall k | 0 <= k < 64 ensures CleanByte(oam[4 * k + 2]) {
        var i := SlotFrom(oamAddr, 4 * k + 2);
        assert oam[DmaSlot(oamAddr, i)] == data[i];
      }
    }
  }

  lemma AttributeSlot(slot: nat)
    requires slot < 256 && slot % 4 == 2
    ensures slot / 4 < 64 && slot == 4 * (slot / 4) + 2
  {}

  /** Every slot is filled from somewhere. */
  lemma SlotFrom(oamAddr: bv8, slot: nat) returns (i: nat)
    requires slot < 256
    ensures i < 256 && DmaSlot(oamAddr, i) == slot
  {
    hide Value;
    i := if Value(oamAddr) <= slot then slot - Value(oamAddr) else slot + 256 - Value(oamAddr);
  }

  predicate CleanTransfer(oamAddr: bv8, data: seq<bv8>)
    requires |data| == 256
  {
    forall i :: 0 <= i < 256 && DmaSlot(oamAddr, i) % 4 == 2 ==> CleanByte(data[i])
  }

  function Stored(val: bv8, oamAddr: bv8, drawing: bool): bv8 {
    var kept := if drawing then 0xFF else val;
    if oamAddr % 4 == 2 then kept & 0xE3 else kept
  }

  /** Bits 2 to 4 are clear in the stored byte, and the other five are those of the byte. */
  predicate MaskedAttribute(byte: bv8, stored: bv8) {
    forall n :: 0 <= n < 8 ==> Bit(stored, n) == if 2 <= n <= 4 then 0 else Bit(byte, n)
  }

  lemma StoredMeaning(val: bv8, oamAddr: bv8, drawing: bool)
    ensures var byte := if drawing then 0xFF else val;
      if oamAddr % 4 == 2 then MaskedAttribute(byte, Stored(val, oamAddr, drawing))
      else Stored(val, oamAddr, drawing) == byte
  {
    var byte: bv8 := if drawing then 0xFF else val;
    forall n | 0 <= n < 8 ensures Bit(byte & 0xE3, n) == if 2 <= n <= 4 then 0 else Bit(byte, n) {
      MaskedBit(byte, n);
    }
    hide Bit;
  }

  lemma MaskedBit(byte: bv8, n: nat)
    requires n < 8
    ensures Bit(byte & 0xE3, n) == if 2 <= n <= 4 then 0 else Bit(byte, n)
  {
    Counts();
    MaskedShift(byte, ShiftCount(n));
    NumberRoundTrip(n);
    hide Value, BottomAfter;
    OneBit(BitOf(byte & 0xE3, n));
  }

  lemma MaskedShift(byte: bv8, k: bv8)
    requires k < 8
    ensures BottomAfter(byte & 0xE3, k) == if 2 <= k <= 4 then 0 else BottomAfter(byte, k)
  {}

  lemma StoredClean(val: bv8, oamAddr: bv8, drawing: bool)
    ensures oamAddr % 4 == 2 ==> CleanByte(Stored(val, oamAddr, drawing))
  {}

  lemma IsAttribute(oamAddr: bv8)
    ensures oamAddr % 4 == 2 <==> Value(oamAddr) % 4 == 2
  {}
}
