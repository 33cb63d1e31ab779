/** What the packed address register's masks, increments and fetch addresses mean
    in tile columns and pixel rows. The register's fields are coarse X (0x001F),
    coarse Y (0x03E0), the horizontal (0x0400) and vertical (0x0800) name table bits
    and fine Y (0x7000). */
module Scroll {
  import opened Bits
  import opened Picture

  /** w is v moved to another column. */
  ghost predicate SameRow(v: bv16, w: bv16) {
    RowOf(v) == RowOf(w) && PageOf(v) == PageOf(w)
  }

  /** w is v moved to another row. */
  ghost predicate SameColumn(v: bv16, w: bv16) {
    ColumnOf(v) == ColumnOf(w) && PageOf(v) == PageOf(w)
  }

  /** Column and row, taken apart into the register's fields. */
  lemma ColumnParts(v: bv16)
    ensures ColumnOf(v) / 32 == WordValue(TableX(v)) && ColumnOf(v) % 32 == WordValue(CoarseX(v))
  {
    hide WordValue, CoarseX, TableX;
    FieldSizes(v);
  }

  lemma RowParts(v: bv16)
    ensures RowOf(v).nt == WordValue(TableY(v))
    ensures RowOf(v).y / 8 == WordValue(CoarseY(v)) && RowOf(v).y % 8 == WordValue(FineBits(v))
    ensures RowOf(v).y / 16 == WordValue(CoarseY(v)) / 2 && RowOf(v).y / 32 == WordValue(CoarseY(v)) / 4
  {
    hide WordValue, CoarseY, TableY, FineBits;
    FieldSizes(v);
    EightParts(WordValue(CoarseY(v)), WordValue(FineBits(v)));
  }

  lemma EightParts(coarse: nat, fine: nat)
    requires fine < 8
    ensures var y := 8 * coarse + fine;
      y / 8 == coarse && y % 8 == fine && y / 16 == coarse / 2 && y / 32 == coarse / 4
  {}

  lemma HalfColumn(coarse: nat, table: nat)
    requires table < 2
    ensures ((coarse + 32 * table) / 2) % 2 == (coarse / 2) % 2
  {
    assert (coarse + 32 * table) / 2 == coarse / 2 + 16 * table;
  }

  lemma RowBits(v: bv16, w: bv16)
    requires v & 0xFBE0 == w & 0xFBE0
    ensures TableY(v) == TableY(w) && CoarseY(v) == CoarseY(w) && FineBits(v) == FineBits(w)
    ensures SameRow(v, w)
  {
    assert v & 0x8000 == w & 0x8000;
    hide WordValue;
  }

  lemma ColumnBits(v: bv16, w: bv16)
    requires v & 0x841F == w & 0x841F
    ensures CoarseX(v) == CoarseX(w) && TableX(v) == TableX(w)
    ensures SameColumn(v, w)
  {
    assert v & 0x8000 == w & 0x8000;
    hide WordValue;
  }

  /** Column, row and page together are the whole register. */
  lemma Fields(v: bv16, w: bv16)
    requires ColumnOf(v) == ColumnOf(w) && SameRow(v, w)
    ensures v == w
  {
    hide ColumnOf, RowOf, PageOf, WordValue;
    FieldValues(v);
    FieldValues(w);
    WordRoundTrip(v);
    WordRoundTrip(w);
  }

  lemma WordRoundTrip(v: bv16)
    ensures WordValue(v) as bv16 == v
  {}

  lemma FieldValues(v: bv16)
    ensures WordValue(v) == ColumnOf(v) % 32 + 0x400 * (ColumnOf(v) / 32) + 0x800 * RowOf(v).nt
                         + 32 * (RowOf(v).y / 8) + 0x1000 * (RowOf(v).y % 8) + PageOf(v)
  {
    hide ColumnOf, RowOf, WordValue, CoarseX, CoarseY, TableX, TableY, FineBits, PageOf;
    FieldSplit(v);
    ColumnParts(v);
    RowParts(v);
  }

  lemma FieldSplit(v: bv16)
    ensures WordValue(v) == WordValue(CoarseX(v)) + 0x400 * WordValue(TableX(v)) + 0x800 * WordValue(TableY(v))
                         + 32 * WordValue(CoarseY(v)) + 0x1000 * WordValue(FineBits(v)) + PageOf(v)
  {}

  // ---- increments and copies ---------------------------------------------

  lemma NextWord(w: bv16)
    requires w < 32
    ensures WordValue(w + 1) == WordValue(w) + 1
  {}

  lemma FieldConstants(w: bv16)
    ensures (w == 0 <==> WordValue(w) == 0) && (w == 7 <==> WordValue(w) == 7)
    ensures (w == 29 <==> WordValue(w) == 29) && (w == 31 <==> WordValue(w) == 31)
  {}

  lemma Flipped(w: bv16)
    requires w < 2
    ensures WordValue(1 - w) == 1 - WordValue(w) && WordValue(w) < 2
  {}

  /** Coarse X below 31. */
  lemma ColumnNoOverflow(v: bv16)
    requires v & 0x001F != 31
    ensures ColumnOf(v + 1) == (ColumnOf(v) + 1) % 64 && SameRow(v, v + 1)
  {
    hide WordValue, CoarseX, TableX, SameRow;
    ColumnBitsNext(v, v + 1);
    RowBits(v, v + 1);
    NextWord(CoarseX(v));
    FieldConstants(CoarseX(v));
    FieldSizes(v);
  }

  lemma ColumnBitsNext(v: bv16, w: bv16)
    requires v & 0x001F != 31 && w == v + 1
    ensures CoarseX(v) != 31 && CoarseX(w) == CoarseX(v) + 1 && TableX(w) == TableX(v) && v & 0xFBE0 == w & 0xFBE0
  {}

  /** Coarse X 31: column 0 of the other name table. */
  lemma ColumnOverflow(v: bv16)
    requires v & 0x001F == 31
    ensures var w := (v & !0x001F) ^ 0x0400;
      ColumnOf(w) == (ColumnOf(v) + 1) % 64 && SameRow(v, w)
  {
    hide WordValue, CoarseX, TableX, SameRow;
    var w := (v & !0x001F) ^ 0x0400;
    ColumnBitsWrap(v, w);
    RowBits(v, w);
    FieldConstants(CoarseX(v));
    FieldConstants(CoarseX(w));
    Flipped(TableX(v));
  }

  lemma ColumnBitsWrap(v: bv16, w: bv16)
    requires v & 0x001F == 31 && w == (v & !0x001F) ^ 0x0400
    ensures CoarseX(v) == 31 && CoarseX(w) == 0 && TableX(w) == 1 - TableX(v) && v & 0xFBE0 == w & 0xFBE0
  {}

  /** Fine Y below 7. */
  lemma FineRow(v: bv16)
    requires v & 0x7000 != 0x7000
    ensures RowOf(v + 0x1000) == NextRow(RowOf(v)) && SameColumn(v, v + 0x1000)
  {
    var w := v + 0x1000;
    FineRowBits(v, w);
    ColumnBits(v, w);
    hide WordValue, CoarseY, TableY, FineBits, SameColumn;
    NextWord(FineBits(v));
    FieldConstants(FineBits(v));
    FieldSizes(v);
  }

  lemma FineRowBits(v: bv16, w: bv16)
    requires v & 0x7000 != 0x7000 && w == v + 0x1000
    ensures TableY(w) == TableY(v) && CoarseY(w) == CoarseY(v) && v & 0x841F == w & 0x841F
    ensures FineBits(v) != 7 && FineBits(w) == FineBits(v) + 1
  {}

  /** What the next row is, field by field. */
  lemma NextRowFields(v: bv16, w: bv16)
    requires FineBits(v) == 7 && FineBits(w) == 0
    requires CoarseY(v) == 29 ==> CoarseY(w) == 0 && TableY(w) == 1 - TableY(v)
    requires CoarseY(v) == 31 ==> CoarseY(w) == 0 && TableY(w) == TableY(v)
    requires CoarseY(v) != 29 && CoarseY(v) != 31 ==> CoarseY(w) == CoarseY(v) + 1 && TableY(w) == TableY(v)
    ensures RowOf(w) == NextRow(RowOf(v))
  {
    hide WordValue, CoarseY, TableY, FineBits;
    FieldConstants(FineBits(v));
    FieldConstants(FineBits(w));
    FieldConstants(CoarseY(v));
    FieldConstants(CoarseY(w));
    NextWord(CoarseY(v));
    Flipped(TableY(v));
    FieldSizes(v);
  }

  /** Fine Y overflow on coarse row 29: row 0 of the other name table. */
  lemma RowFlip(v: bv16)
    requires v & 0x7000 == 0x7000 && ((v & !0x7000) & 0x03E0) >> 5 == 29
    ensures var w := (((v & !0x7000) ^ 0x0800) & !0x03E0) | 0;
      RowOf(w) == NextRow(RowOf(v)) && SameColumn(v, w)
  {
    var w := (((v & !0x7000) ^ 0x0800) & !0x03E0) | 0;
    ColumnBits(v, w);
    hide RowOf, NextRow, SameColumn;
    NextRowFields(v, w);
  }

  /** Fine Y overflow on coarse row 31: row 0 of the same name table. */
  lemma RowInvalid(v: bv16)
    requires v & 0x7000 == 0x7000 && ((v & !0x7000) & 0x03E0) >> 5 == 31
    ensures var w := ((v & !0x7000) & !0x03E0) | 0;
      RowOf(w) == NextRow(RowOf(v)) && SameColumn(v, w)
  {
    var w := ((v & !0x7000) & !0x03E0) | 0;
    ColumnBits(v, w);
    hide RowOf, NextRow, SameColumn;
    NextRowFields(v, w);
  }

  /** Fine Y overflow anywhere else: the next coarse row. */
  lemma RowCarry(v: bv16, cy: bv16)
    requires v & 0x7000 == 0x7000 && cy == ((v & !0x7000) & 0x03E0) >> 5 && cy != 29 && cy != 31
    ensures var w := ((v & !0x7000) & !0x03E0) | ((cy + 1) << 5);
      RowOf(w) == NextRow(RowOf(v)) && SameColumn(v, w)
  {
    var w := ((v & !0x7000) & !0x03E0) | ((cy + 1) << 5);
    ColumnBits(v, w);
    hide RowOf, NextRow, SameColumn;
    NextRowFields(v, w);
  }

  lemma HorizontalCopy(v: bv16, t: bv16)
    ensures var w := (v & !0x041F) | (t & 0x041F);
      ColumnOf(w) == ColumnOf(t) && SameRow(v, w)
  {
    var w := (v & !0x041F) | (t & 0x041F);
    assert CoarseX(w) == CoarseX(t) && TableX(w) == TableX(t);
    RowBits(v, w);
    hide WordValue, SameRow;
  }

  lemma VerticalCopy(v: bv16, t: bv16)
    ensures var w := (((v & !0x03E0) & !0x0800) & !0x7000) | (t & 0x7BE0);
      RowOf(w) == RowOf(t) && SameColumn(v, w)
  {
    var w := (((v & !0x03E0) & !0x0800) & !0x7000) | (t & 0x7BE0);
    assert TableY(w) == TableY(t) && CoarseY(w) == CoarseY(t) && FineBits(w) == FineBits(t);
    ColumnBits(v, w);
    hide WordValue, SameColumn;
  }

  // ---- fetch addresses -------------------------------------------------------

  /** Address of the name table read. */
  function NameTableFetch(v: bv16): (a: nat)
    ensures a < 0x10000
  {
    WordValue(0x2000 | (v & !0x7000))
  }

  /** Address of the attribute read. */
  function AttributeFetch(v: bv16): (a: nat)
    ensures a < 0x10000
  {
    WordValue(0x23C0 | (v & 0x0C00) | ((v >> 4) & 0x38) | ((v >> 2) & 0x07))
  }

  /** Background pattern table as the tile fetch selects it. */
  function FetchBase(ctrl: bv8): nat {
    if (ctrl >> 4) & 1 == 0 then 0x0000 else 0x1000
  }

  function FineY(v: bv16): nat {
    WordValue((v & 0x7000) >> 12)
  }

  /** The attribute byte moved so that the tile's quadrant is in bits 0 and 1. */
  function QuadrantByte(v: bv16, attr: bv8): bv8 {
    var half := if ((v & 0x03E0) >> 5) & 2 != 0 then attr >> 4 else attr;
    if (v & 0x001F) & 2 != 0 then half >> 2 else half
  }

  function FirstBit(b: bv8): bv8 {
    b & 1
  }

  function SecondBit(b: bv8): bv8 {
    (b & 2) >> 1
  }

  lemma NameTableAddress(v: bv16)
    ensures NameTableFetch(v)
         == PageOf(v) + 0x2000 + 0x800 * RowOf(v).nt + 0x400 * (ColumnOf(v) / 32) + 32 * (RowOf(v).y / 8)
            + ColumnOf(v) % 32
  {
    hide ColumnOf, RowOf, WordValue, CoarseX, CoarseY, TableX, TableY, FineBits, NameTableFetch, PageOf;
    ColumnParts(v);
    RowParts(v);
    NameTableAddressBits(v);
  }

  lemma NameTableAddressBits(v: bv16)
    ensures NameTableFetch(v)
         == PageOf(v) + 0x2000 + 0x800 * WordValue(TableY(v)) + 0x400 * WordValue(TableX(v))
            + 32 * WordValue(CoarseY(v)) + WordValue(CoarseX(v))
  {
    hide WordValue, CoarseX, CoarseY, TableX, TableY, PageOf;
    WithoutFine(v & !0x7000, v);
    OnTop(v & !0x7000);
  }

  lemma WithoutFine(w: bv16, v: bv16)
    requires w == v & !0x7000
    ensures WordValue(w) == PageOf(v) + 0x800 * WordValue(TableY(v)) + 0x400 * WordValue(TableX(v))
                            + 32 * WordValue(CoarseY(v)) + WordValue(CoarseX(v))
  {
    hide WordValue, CoarseX, CoarseY, TableX, TableY, FineBits, PageOf;
    FieldsKept(w, v);
    FieldSplit(w);
    FieldConstants(FineBits(w));
  }

  lemma FieldsKept(w: bv16, v: bv16)
    requires w == v & !0x7000
    ensures CoarseX(w) == CoarseX(v) && CoarseY(w) == CoarseY(v) && FineBits(w) == 0
    ensures TableX(w) == TableX(v) && TableY(w) == TableY(v) && PageOf(w) == PageOf(v)
  {}

  lemma OnTop(w: bv16)
    requires w & 0x7000 == 0
    ensures WordValue(0x2000 | w) == 0x2000 + WordValue(w)
  {}

  lemma AttributeAddress(v: bv16)
    ensures AttributeFetch(v)
         == 0x23C0 + 0x800 * RowOf(v).nt + 0x400 * (ColumnOf(v) / 32) + 8 * (RowOf(v).y / 32) + (ColumnOf(v) % 32) / 4
  {
    hide ColumnOf, RowOf, WordValue, WithoutTwo, CoarseX, CoarseY, TableX, TableY, FineBits, AttributeFetch;
    AttributeAddressBits(v);
    Quarter(CoarseX(v));
    Quarter(CoarseY(v));
    ColumnParts(v);
    RowParts(v);
  }

  lemma AttributeAddressBits(v: bv16)
    ensures AttributeFetch(v)
         == 0x23C0 + 0x800 * WordValue(TableY(v)) + 0x400 * WordValue(TableX(v))
            + 8 * WordValue(WithoutTwo(CoarseY(v))) + WordValue(WithoutTwo(CoarseX(v)))
  {}


  lemma FineYOfRow(v: bv16)
    ensures FineY(v) == RowOf(v).y % 8
  {
    assert (v & 0x7000) >> 12 == FineBits(v);
    hide WordValue, RowOf;
    RowParts(v);
  }

  lemma FetchBaseMeaning(ctrl: bv8)
    ensures FetchBase(ctrl) == BackgroundTable(ctrl)
  {}

  /** The two quadrant tests of the tile fetch and the bits they select. */
  lemma QuadrantShift(v: bv16, attr: bv8)
    ensures FirstBit(QuadrantByte(v, attr)) == BitOf(attr, Quadrant(ColumnOf(v), RowOf(v)))
    ensures SecondBit(QuadrantByte(v, attr)) == BitOf(attr, Quadrant(ColumnOf(v), RowOf(v)) + 1)
  {
    QuadrantOf(v);
    QuadrantBits(attr, ((v & 0x03E0) >> 5) & 2 != 0, (v & 0x001F) & 2 != 0);
  }

  lemma QuadrantOf(v: bv16)
    ensures Quadrant(ColumnOf(v), RowOf(v))
         == (if ((v & 0x03E0) >> 5) & 2 != 0 then 4 else 0) + (if (v & 0x001F) & 2 != 0 then 2 else 0)
  {
    hide RowOf, WordValue, CoarseX, CoarseY, TableX, TableY, FineBits;
    FieldSizes(v);
    CoarseBits(v);
    CoarseSecond(CoarseY(v));
    CoarseSecond(CoarseX(v));
    HalfColumn(WordValue(CoarseX(v)), WordValue(TableX(v)));
    RowParts(v);
  }

  lemma CoarseBits(v: bv16)
    ensures (v & 0x03E0) >> 5 == CoarseY(v) && v & 0x1F == CoarseX(v)
  {}

  lemma QuadrantBits(attr: bv8, lowRows: bool, rightColumns: bool)
    ensures var a := if lowRows then attr >> 4 else attr;
      var b := if rightColumns then a >> 2 else a;
      var q := (if lowRows then 4 else 0) + (if rightColumns then 2 else 0);
      b & 1 == BitOf(attr, q) && (b & 2) >> 1 == BitOf(attr, q + 1)
  {
    var a := if lowRows then attr >> 4 else attr;
    var b := if rightColumns then a >> 2 else a;
    var q: bv8 := (if lowRows then 4 else 0) + (if rightColumns then 2 else 0);
    assert b & 1 == (attr >> q) & 1;
    assert (b & 2) >> 1 == (attr >> (q + 1)) & 1;
  }

  lemma CoarseSecond(w: bv16)
    requires w < 32
    ensures (w & 2 != 0) <==> (WordValue(w) / 2) % 2 == 1
  {
    CoarseSplit(w);
    hide WordValue;
  }

  lemma CoarseSplit(w: bv16)
    requires w < 32
    ensures WordValue(w) == 4 * WordValue(w >> 2) + (if w & 2 != 0 then 2 else 0) + WordValue(w & 1)
    ensures WordValue(w & 1) < 2
  {}

  /** What the reads of one tile fetch return, in terms of the tile the register
      points at. */
  lemma FetchMeaning(s: Scene, v: bv16)
    requires WellFormed(s) && s.page == PageOf(v)
    ensures var c, r := ColumnOf(v), RowOf(v);
      && TileIndex(s, c, r) == Value(s.vram[NameTableFetch(v)])
      && PatternAddress(s, c, r) == TileIndex(s, c, r) * 0x10 + FetchBase(s.ctrl) + FineY(v)
      && AttributeByte(s, c, r) == s.vram[AttributeFetch(v)]
  {
    hide ColumnOf, RowOf, PageOf, NameTableFetch, AttributeFetch, FetchBase, BackgroundTable, FineY, Value;
    NameTableAddress(v);
    FineYOfRow(v);
    FetchBaseMeaning(s.ctrl);
    AttributeAddress(v);
  }

  /** The attribute bits of the tile the register points at. */
  lemma AttributeMeaning(s: Scene, v: bv16, attr: bv8)
    requires WellFormed(s) && attr == AttributeByte(s, ColumnOf(v), RowOf(v))
    ensures FirstBit(QuadrantByte(v, attr)) == AttributeLow(s, ColumnOf(v), RowOf(v))
    ensures SecondBit(QuadrantByte(v, attr)) == AttributeHigh(s, ColumnOf(v), RowOf(v))
  {
    hide ColumnOf, RowOf, BitOf, AttributeByte, Quadrant, QuadrantByte, FirstBit, SecondBit;
    QuadrantShift(v, attr);
  }
}
