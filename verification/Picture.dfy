/** The picture the PPU is meant to produce, as a random-access function: the
    colour of pixel (x, line) is computed from video memory, OAM, palette and the
    control registers alone. Nothing in this module scans, shifts or prefetches;
    it is the reference the rendering pipeline is proved against. */
module Picture {
  import opened Bits

  /** What a frame is drawn from. `page` is 0x8000 when bit 15 of the address
      register is set (the register is 16 bits wide in the program), else 0. */
  datatype Scene = Scene(
    vram: seq<bv8>, oam: seq<bv8>, palette: seq<bv8>,
    ctrl: bv8, mask: bv8, t: bv16, fineX: bv8, page: nat)

  ghost predicate WellFormed(s: Scene) {
    && |s.vram| == 0x10000 && |s.oam| == 256 && |s.palette| == 32
    && s.fineX < 8 && (s.page == 0 || s.page == 0x8000)
  }

  // ---- scroll position -----------------------------------------------------

  function CoarseX(v: bv16): (w: bv16)
    ensures w < 32
  {
    v & 0x1F
  }

  function CoarseY(v: bv16): (w: bv16)
    ensures w < 32
  {
    (v >> 5) & 0x1F
  }

  function TableX(v: bv16): (w: bv16)
    ensures w < 2
  {
    (v >> 10) & 1
  }

  function TableY(v: bv16): (w: bv16)
    ensures w < 2
  {
    (v >> 11) & 1
  }

  function FineBits(v: bv16): (w: bv16)
    ensures w < 8
  {
    (v >> 12) & 7
  }

  lemma FieldSizes(v: bv16)
    ensures WordValue(CoarseX(v)) < 32 && WordValue(CoarseY(v)) < 32 && WordValue(FineBits(v)) < 8
    ensures WordValue(TableX(v)) < 2 && WordValue(TableY(v)) < 2
  {
    hide WordValue, CoarseX, CoarseY, TableX, TableY, FineBits;
    SmallField(CoarseX(v));
    SmallField(CoarseY(v));
    SmallField(FineBits(v));
    SmallField(TableX(v));
    SmallField(TableY(v));
  }

  /** Tile column 0..63 over both horizontal name tables. */
  function ColumnOf(v: bv16): (c: nat)
    ensures c < 64
  {
    FieldSizes(v);
    WordValue(CoarseX(v)) + 32 * WordValue(TableX(v))
  }

  /** Tile column j of the screen whose left edge is at t. */
  function ScreenColumn(t: bv16, j: nat): (c: nat)
    ensures c < 64
  {
    (ColumnOf(t) + j) % 64
  }

  lemma NextScreenColumn(t: bv16, j: nat)
    ensures (ScreenColumn(t, j) + 1) % 64 == ScreenColumn(t, j + 1)
  {
    hide ColumnOf;
    var n := ColumnOf(t) + j;
    assert (n % 64 + 1) % 64 == (n + 1) % 64;
  }

  lemma FirstScreenColumn(t: bv16)
    ensures ScreenColumn(t, 0) == ColumnOf(t)
  {
    hide ColumnOf;
  }

  /** A pixel row: which vertical name table, and the row inside it. Rows 240 to
      255 are the attribute bytes read as tiles. */
  datatype PixelRow = Row(nt: nat, y: nat)

  type Row = r: PixelRow | r.nt < 2 && r.y < 256 witness Row(0, 0)

  function RowOf(v: bv16): Row {
    FieldSizes(v);
    Row(WordValue(TableY(v)), 8 * WordValue(CoarseY(v)) + WordValue(FineBits(v)))
  }

  function PageOf(v: bv16): (p: nat)
    ensures p == 0 || p == 0x8000
  {
    if v & 0x8000 != 0 then 0x8000 else 0
  }

  /** Row number z of the endless strip of 240-row name tables. */
  function Strip(z: nat): Row {
    Row((z / 240) % 2, z % 240)
  }

  /** The row shown on visible line `line` when the scroll register holds `t`.
      For a coarse Y below 30 this is row (Y(t) + line) mod 480; a register set to
      rows 240..255 first runs to row 255 and then restarts at row 0 of the same
      name table. */
  function RowAt(t: bv16, line: nat): Row {
    var r := RowOf(t);
    if r.y < 240 then Strip(240 * r.nt + r.y + line)
    else if r.y + line < 256 then Row(r.nt, r.y + line)
    else Strip(240 * r.nt + (r.y + line - 256))
  }

  /** The row below. */
  function NextRow(r: Row): Row {
    if r.y == 239 then Row(if r.nt == 0 then 1 else 0, 0)
    else if r.y == 255 then Row(r.nt, 0)
    else Row(r.nt, r.y + 1)
  }

  lemma StripNext(z: nat)
    ensures Strip(z + 1) == NextRow(Strip(z))
  {
    var q, r := z / 240, z % 240;
    assert z == 240 * q + r;
    if r < 239 {
      Quotient240(z + 1, q, r + 1);
    } else {
      Quotient240(z + 1, q + 1, 0);
    }
  }

  lemma Quotient240(z: nat, q: nat, r: nat)
    requires z == 240 * q + r && r < 240
    ensures z / 240 == q && z % 240 == r
  {}

  lemma StripStart(nt: nat)
    requires nt < 2
    ensures Strip(240 * nt) == Row(nt, 0)
  {}

  lemma RowAtNext(t: bv16, line: nat)
    ensures RowAt(t, line + 1) == NextRow(RowAt(t, line))
  {
    hide RowOf, Strip;
    var r := RowOf(t);
    if r.y < 240 {
      StripNext(240 * r.nt + r.y + line);
    } else if r.y + line >= 256 {
      StripNext(240 * r.nt + (r.y + line - 256));
    } else {
      StripStart(r.nt);
    }
  }

  /** Number of a row in the plane of both vertical name tables. */
  function PlaneRow(r: Row): nat {
    240 * r.nt + r.y
  }

  /** The plane is 480 rows high and wraps around. */
  function OnPlane(z: nat): nat {
    z % 480
  }

  /** The scroll law: below row 240 the rows shown are consecutive in the 480-row plane;
      from row 240 on, the walk through the attribute rows returns to row 0 of the same
      name table and goes on from there. */
  lemma ScrollLaw(t: bv16, line: nat)
    ensures RowOf(t).y < 240 ==>
      RowAt(t, line).y < 240 && PlaneRow(RowAt(t, line)) == OnPlane(PlaneRow(RowOf(t)) + line)
    ensures RowOf(t).y >= 240 && RowOf(t).y + line >= 256 ==>
      PlaneRow(RowAt(t, line)) == OnPlane(240 * RowOf(t).nt + (RowOf(t).y + line - 256))
  {
    hide RowOf, Strip, OnPlane;
    var r := RowOf(t);
    if r.y < 240 {
      StripIsPlane(240 * r.nt + r.y + line);
    } else if r.y + line >= 256 {
      StripIsPlane(240 * r.nt + (r.y + line - 256));
    }
  }

  lemma StripIsPlane(z: nat)
    ensures PlaneRow(Strip(z)) == OnPlane(z) && Strip(z).y < 240
  {
    var q, r := z / 240, z % 240;
    assert z == 480 * (q / 2) + (240 * (q % 2) + r);
  }

  lemma RowAtStart(t: bv16)
    ensures RowAt(t, 0) == RowOf(t)
  {}

  // ---- background ----------------------------------------------------------

  datatype Dot = Dot(pattern: nat, palette: nat)

  /** Name table byte of tile (column c, row r). */
  function TileIndex(s: Scene, c: nat, r: Row): (i: nat)
    requires WellFormed(s) && c < 64
    ensures i < 256
  {
    Value(s.vram[s.page + 0x2000 + 0x800 * r.nt + 0x400 * (c / 32) + 32 * (r.y / 8) + c % 32])
  }

  function BackgroundTable(ctrl: bv8): (a: nat)
    ensures a == 0 || a == 0x1000
  {
    if ctrl & 0x10 != 0 then 0x1000 else 0
  }

  function PatternAddress(s: Scene, c: nat, r: Row): (a: nat)
    requires WellFormed(s) && c < 64
    ensures a < 0x2000 - 8
  {
    BackgroundTable(s.ctrl) + 16 * TileIndex(s, c, r) + r.y % 8
  }

  function TileLow(s: Scene, c: nat, r: Row): bv8
    requires WellFormed(s) && c < 64
  {
    s.vram[PatternAddress(s, c, r)]
  }

  function TileHigh(s: Scene, c: nat, r: Row): bv8
    requires WellFormed(s) && c < 64
  {
    s.vram[PatternAddress(s, c, r) + 8]
  }

  /** One attribute byte serves a 4x4 block of tiles, two bits per 2x2 quadrant. */
  function AttributeByte(s: Scene, c: nat, r: Row): bv8
    requires WellFormed(s) && c < 64
  {
    s.vram[0x23C0 + 0x800 * r.nt + 0x400 * (c / 32) + 8 * (r.y / 32) + (c % 32) / 4]
  }

  function Quadrant(c: nat, r: Row): (q: nat)
    ensures q == 0 || q == 2 || q == 4 || q == 6
  {
    4 * ((r.y / 16) % 2) + 2 * ((c / 2) % 2)
  }

  function AttributeLow(s: Scene, c: nat, r: Row): (b: bv8)
    requires WellFormed(s) && c < 64
    ensures b < 2
  {
    BitOf(AttributeByte(s, c, r), Quadrant(c, r))
  }

  function AttributeHigh(s: Scene, c: nat, r: Row): (b: bv8)
    requires WellFormed(s) && c < 64
    ensures b < 2
  {
    BitOf(AttributeByte(s, c, r), Quadrant(c, r) + 1)
  }

  /** The background dot at column px of the 512-pixel plane, row r. */
  function PlaneDot(s: Scene, px: nat, r: Row): (d: Dot)
    requires WellFormed(s) && px < 512
    ensures d.pattern < 4 && d.palette < 4
  {
    var c := px / 8;
    Dot(2 * Bit(TileHigh(s, c, r), 7 - px % 8) + Bit(TileLow(s, c, r), 7 - px % 8),
        2 * Value(AttributeHigh(s, c, r)) + Value(AttributeLow(s, c, r)))
  }

  function PlaneX(s: Scene, x: nat): (px: nat)
    ensures px < 512
  {
    (8 * ColumnOf(s.t) + Value(s.fineX) + x) % 512
  }

  function BackgroundDot(s: Scene, x: nat, r: Row): (d: Dot)
    requires WellFormed(s)
    ensures d.pattern < 4 && d.palette < 4
  {
    PlaneDot(s, PlaneX(s, x), r)
  }

  function ShowsBackground(s: Scene, x: nat): bool {
    s.mask & 0x08 != 0 && (x >= 8 || s.mask & 0x02 != 0)
  }

  function ShowsSprites(s: Scene, x: nat): bool {
    s.mask & 0x10 != 0 && (x >= 8 || s.mask & 0x04 != 0)
  }

  /** At least one layer is switched on. */
  predicate Rendering(mask: bv8) {
    mask & 0x08 != 0 || mask & 0x10 != 0
  }

  /** The switches by the bits of the mask register: background 3, sprites 4, and in the
      leftmost eight pixels also 1 and 2. */
  lemma SwitchBits(s: Scene, x: nat)
    ensures ShowsBackground(s, x) <==> Bit(s.mask, 3) == 1 && (x >= 8 || Bit(s.mask, 1) == 1)
    ensures ShowsSprites(s, x) <==> Bit(s.mask, 4) == 1 && (x >= 8 || Bit(s.mask, 2) == 1)
    ensures Rendering(s.mask) <==> Bit(s.mask, 3) == 1 || Bit(s.mask, 4) == 1
  {
    MaskShifts(s.mask);
    Counts();
    hide Value, BottomAfter, ShiftCount;
    BitIsOne(s.mask, 1);
    BitIsOne(s.mask, 2);
    BitIsOne(s.mask, 3);
    BitIsOne(s.mask, 4);
  }

  lemma MaskShifts(mask: bv8)
    ensures (mask & 0x02 != 0 <==> BottomAfter(mask, 1) == 1) && (mask & 0x04 != 0 <==> BottomAfter(mask, 2) == 1)
    ensures (mask & 0x08 != 0 <==> BottomAfter(mask, 3) == 1) && (mask & 0x10 != 0 <==> BottomAfter(mask, 4) == 1)
  {}

  /** Bit 4 of the control register picks the background's pattern table, bit 5 the height
      of sprites. */
  lemma ControlBits(ctrl: bv8)
    ensures BackgroundTable(ctrl) == 0x1000 * Bit(ctrl, 4) && Height(ctrl) == 8 + 8 * Bit(ctrl, 5)
  {
    ControlShifts(ctrl);
    Counts();
    hide Value, BottomAfter, ShiftCount;
    BitIsOne(ctrl, 4);
    BitIsOne(ctrl, 5);
  }

  lemma ControlShifts(ctrl: bv8)
    ensures (ctrl & 0x10 != 0 <==> BottomAfter(ctrl, 4) == 1) && (ctrl & 0x20 != 0 <==> BottomAfter(ctrl, 5) == 1)
  {}

  /** A sprite whose Y byte is below 255 covers as many lines as it is high, from the line
      below its Y on, and one at 255 none. */
  lemma SpriteLines(y: bv8, ctrl: bv8, first: nat, line: nat)
    requires 1 <= line
    ensures InRange(y, EvaluationLine(first, line), Height(ctrl)) <==>
      Value(y) < 255 && Value(y) + 1 <= line <= Value(y) + 8 + 8 * Bit(ctrl, 5)
  {
    ControlBits(ctrl);
    LastByte(y);
    hide Value, Height, Bit;
  }

  lemma LastByte(y: bv8)
    ensures y == 255 <==> Value(y) == 255
  {}

  // ---- sprites -------------------------------------------------------------

  datatype Sprite = Sprite(y: bv8, tile: bv8, attr: bv8, x: bv8)

  function OamSprite(s: Scene, i: nat): Sprite
    requires WellFormed(s) && i < 64
  {
    Sprite(s.oam[4 * i], s.oam[4 * i + 1], s.oam[4 * i + 2], s.oam[4 * i + 3])
  }

  function Height(ctrl: bv8): (h: nat)
    ensures h == 8 || h == 16
  {
    if ctrl & 0x20 != 0 then 16 else 8
  }

  predicate InRange(y: bv8, line: nat, height: nat) {
    line >= Value(y) && line < Value(y) + height && y != 255
  }

  /** The OAM indices below n of the sprites that touch `line`, in OAM order. */
  function Touching(s: Scene, line: nat, n: nat): (l: seq<nat>)
    requires WellFormed(s) && n <= 64
    ensures |l| <= n
    ensures forall k :: 0 <= k < |l| ==> l[k] < n && InRange(OamSprite(s, l[k]).y, line, Height(s.ctrl))
    ensures forall k, m :: 0 <= k < m < |l| ==> l[k] < l[m]
  {
    if n == 0 then []
    else if InRange(OamSprite(s, n - 1).y, line, Height(s.ctrl)) then Touching(s, line, n - 1) + [n - 1]
    else Touching(s, line, n - 1)
  }

  /** The sprites the hardware keeps for one line: the first eight that touch it. */
  function FirstEight(s: Scene, line: nat): (l: seq<nat>)
    requires WellFormed(s)
    ensures |l| <= 8
    ensures forall k :: 0 <= k < |l| ==> l[k] < 64 && InRange(OamSprite(s, l[k]).y, line, Height(s.ctrl))
  {
    var l := Touching(s, line, 64);
    if |l| <= 8 then l else l[..8]
  }

  /** The line sprites are evaluated on for visible line `line`: the line before,
      or whatever number the pre-render line carried. */
  function EvaluationLine(first: nat, line: nat): nat {
    if line == 0 then first else line - 1
  }

  /** A sprite is never drawn when its Y is 239 or more, or when it is sprite 0
      with attribute bits that, with the sprite-0 mark added, make the byte 0xFF,
      which the prefetch buffer uses for an empty slot. */
  predicate Drawable(s: Scene, i: nat)
    requires WellFormed(s) && i < 64
  {
    Value(OamSprite(s, i).y) < 0xEF && !(i == 0 && OamSprite(s, 0).attr | 0x08 == 0xFF)
  }

  function SpriteRow(s: Scene, i: nat, evaluated: nat): (row: nat)
    requires WellFormed(s) && i < 64 && InRange(OamSprite(s, i).y, evaluated, Height(s.ctrl))
    ensures row < Height(s.ctrl)
  {
    var sp := OamSprite(s, i);
    if sp.attr & 0x80 != 0 then Height(s.ctrl) - 1 - (evaluated - Value(sp.y)) else evaluated - Value(sp.y)
  }

  /** Pattern address of a sprite row: an 8x16 sprite takes its table from bit 0 of
      the tile number and its lower half from the next tile. */
  function SpriteAddress(s: Scene, i: nat, row: nat): (a: nat)
    requires WellFormed(s) && i < 64 && row < Height(s.ctrl)
    ensures a < 0x2000 - 8
  {
    var tile := Value(OamSprite(s, i).tile);
    if Height(s.ctrl) == 16 then TallAddress(tile, row)
    else (if s.ctrl & 0x08 != 0 then 0x1000 else 0) + 16 * tile + row
  }

  function TallAddress(tile: nat, row: nat): (a: nat)
    requires tile < 256 && row < 16
    ensures a < 0x2000 - 8
  {
    0x1000 * (tile % 2) + 16 * (tile - tile % 2 + row / 8) + row % 8
  }

  /** Pattern of sprite i at pixel x; 0 is transparent. */
  function SpritePattern(s: Scene, i: nat, evaluated: nat, x: nat): (p: nat)
    requires WellFormed(s) && i < 64 && InRange(OamSprite(s, i).y, evaluated, Height(s.ctrl))
    ensures p < 4
  {
    var sp := OamSprite(s, i);
    if !Drawable(s, i) || x < Value(sp.x) || x >= Value(sp.x) + 8 then 0
    else
      var a := SpriteAddress(s, i, SpriteRow(s, i, evaluated));
      var col := if sp.attr & 0x40 != 0 then 7 - (x - Value(sp.x)) else x - Value(sp.x);
      2 * Bit(s.vram[a + 8], 7 - col) + Bit(s.vram[a], 7 - col)
  }

  /** The k-th sprite of the line's list is opaque at x. */
  predicate Opaque(s: Scene, evaluated: nat, x: nat, k: nat)
    requires WellFormed(s) && k < |FirstEight(s, evaluated)|
  {
    SpritePattern(s, FirstEight(s, evaluated)[k], evaluated, x) != 0
  }

  /** Position in the line's list, from k on, of the first sprite opaque at x;
      the length of the list when there is none. */
  function FirstOpaque(s: Scene, evaluated: nat, x: nat, k: nat): (w: nat)
    requires WellFormed(s) && k <= |FirstEight(s, evaluated)|
    ensures k <= w <= |FirstEight(s, evaluated)|
    ensures w < |FirstEight(s, evaluated)| ==> Opaque(s, evaluated, x, w)
    ensures forall j :: k <= j < w ==> !Opaque(s, evaluated, x, j)
    decreases |FirstEight(s, evaluated)| - k
  {
    var l := FirstEight(s, evaluated);
    if k == |l| || Opaque(s, evaluated, x, k) then k else FirstOpaque(s, evaluated, x, k + 1)
  }

  // ---- composition ---------------------------------------------------------

  datatype Layered = Layered(background: Dot, sprite: Dot, behind: bool, zero: bool)

  /** Both layers at pixel x of a line that shows row r and the sprites found on line
      `evaluated`, with the masks applied. */
  function Layers(s: Scene, evaluated: nat, x: nat, r: Row): (y: Layered)
    requires WellFormed(s)
    ensures y.background.pattern < 4 && y.background.palette < 4
    ensures y.sprite.pattern < 4 && y.sprite.palette < 4
  {
    var bg := if ShowsBackground(s, x) then BackgroundDot(s, x, r) else Dot(0, 0);
    var l := FirstEight(s, evaluated);
    var w := if ShowsSprites(s, x) then FirstOpaque(s, evaluated, x, 0) else |l|;
    if w == |l| then Layered(bg, Dot(0, 0), false, false)
    else
      var a := OamSprite(s, l[w]).attr;
      Layered(bg, Dot(SpritePattern(s, l[w], evaluated, x), Value(a & 3)), a & 0x20 != 0, l[w] == 0)
  }

  /** Index into palette memory. */
  function PaletteIndex(y: Layered): (p: nat)
    requires y.background.pattern < 4 && y.background.palette < 4
    requires y.sprite.pattern < 4 && y.sprite.palette < 4
    ensures p < 32
  {
    if y.sprite.pattern != 0 && (y.background.pattern == 0 || !y.behind) then
      16 + 4 * y.sprite.palette + y.sprite.pattern
    else if y.background.pattern != 0 then
      4 * y.background.palette + y.background.pattern
    else 0
  }

  function LineColour(s: Scene, evaluated: nat, x: nat, r: Row): bv8
    requires WellFormed(s)
  {
    Greyscale(s.mask, s.palette[PaletteIndex(Layers(s, evaluated, x, r))])
  }

  /** Pixel x of a line of the picture of a scene. `first` is the number the pre-render
      line carried. */
  function Colour(s: Scene, first: nat, x: nat, line: nat): bv8
    requires WellFormed(s)
  {
    LineColour(s, EvaluationLine(first, line), x, RowAt(s.t, line))
  }

  /** Only the grey column of the palette when the greyscale bit is set. */
  function Greyscale(mask: bv8, c: bv8): bv8 {
    if mask & 1 != 0 then c & 0x30 else c
  }

  /** Without the greyscale bit, bit 0 of the mask register, a pixel is its palette entry;
      with it only bits 4 and 5 of the entry are left, the grey column of the palette. */
  predicate Shaded(mask: bv8, entry: bv8, pixel: bv8) {
    if Value(mask) % 2 == 0 then pixel == entry else Value(pixel) == 16 * (Value(entry) / 16 % 4)
  }

  lemma GreyscaleMeaning(mask: bv8, c: bv8)
    ensures Shaded(mask, c, Greyscale(mask, c))
  {
    LowestBit(mask);
    GreyBits(c);
    hide Value;
    GreyNumber(Value(c & 0x0F), Value((c >> 4) & 3), Value(c >> 6));
  }

  lemma LowestBit(b: bv8)
    ensures Value(b) % 2 == if b & 1 == 0 then 0 else 1
  {
    HalfOf(b);
    hide Value;
    assert b & 1 == 0 || b & 1 == 1;
    OneOrNone();
  }

  lemma OneOrNone()
    ensures Value(0) == 0 && Value(1) == 1
  {}

  lemma GreyBits(c: bv8)
    ensures Value(c) == Value(c & 0x0F) + 16 * Value((c >> 4) & 3) + 64 * Value(c >> 6)
    ensures Value(c & 0x30) == 16 * Value((c >> 4) & 3) && Value(c & 0x0F) < 16 && Value((c >> 4) & 3) < 4
  {}

  lemma GreyNumber(low: nat, grey: nat, high: nat)
    requires low < 16 && grey < 4
    ensures (low + 16 * grey + 64 * high) / 16 % 4 == grey
  {
    assert low + 16 * grey + 64 * high == 16 * (grey + 4 * high) + low;
    assert (16 * (grey + 4 * high) + low) / 16 == grey + 4 * high;
  }

  /** The palette entry of a pixel. */
  function Entry(s: Scene, evaluated: nat, x: nat, r: Row): bv8
    requires WellFormed(s)
  {
    s.palette[PaletteIndex(Layers(s, evaluated, x, r))]
  }

  lemma LineShaded(s: Scene, evaluated: nat, x: nat, r: Row)
    requires WellFormed(s)
    ensures Shaded(s.mask, Entry(s, evaluated, x, r), LineColour(s, evaluated, x, r))
  {
    hide Layers, PaletteIndex, Greyscale, Shaded;
    GreyscaleMeaning(s.mask, Entry(s, evaluated, x, r));
  }

  /** A sprite-0 hit: an opaque pixel of sprite 0 is the one drawn over an opaque
      background pixel, not in the last column. */
  predicate LineOverlap(s: Scene, evaluated: nat, x: nat, r: Row)
    requires WellFormed(s)
  {
    var y := Layers(s, evaluated, x, r);
    y.zero && y.background.pattern != 0 && x != 255
  }

  predicate Overlap(s: Scene, first: nat, x: nat, line: nat)
    requires WellFormed(s)
  {
    LineOverlap(s, EvaluationLine(first, line), x, RowAt(s.t, line))
  }

  // ---- frames ----------------------------------------------------------------

  /** What one visible line is drawn from. */
  datatype Shot = Shot(scene: Scene, row: Row)

  /** What every visible line of a frame is drawn from, and what follows the last. */
  ghost predicate Film(f: seq<Shot>) {
    |f| == 241 && forall line :: 0 <= line < 241 ==> WellFormed(f[line].scene)
  }

  ghost predicate Shows(f: seq<Shot>, line: nat, s: Scene, r: Row) {
    Film(f) && line < 241 && f[line] == Shot(s, r)
  }

  /** The frame of a scene that does not change. */
  function Still(s: Scene): (f: seq<Shot>) {
    seq(241, line requires 0 <= line < 241 => Shot(s, RowAt(s.t, line)))
  }

  /** What a program does to the PPU at the end of a visible line: it leaves it alone, or it
      changes video memory, palette and registers, with or without loading the scroll
      register as the second address write does. */
  datatype Write =
    | Keep
    | Rewrite(vram: seq<bv8>, palette: seq<bv8>, ctrl: bv8, mask: bv8, t: bv16, fineX: bv8, jump: bool)

  /** Rendering stays enabled or disabled, and sprites keep their size. */
  ghost predicate Allowed(s: Scene, w: Write) {
    w.Rewrite? ==>
      && |w.vram| == 0x10000 && |w.palette| == 32 && w.fineX < 8
      && Height(w.ctrl) == Height(s.ctrl) && Rendering(w.mask) == Rendering(s.mask)
  }

  function Rewritten(s: Scene, w: Write): Scene {
    if w.Keep? then s
    else Scene(w.vram, s.oam, w.palette, w.ctrl, w.mask, w.t, w.fineX, if w.jump then PageOf(w.t) else s.page)
  }

  ghost predicate AllAllowed(s: Scene, writes: seq<Write>) {
    forall w <- writes :: Allowed(s, w)
  }

  /** The line below: the row goes on from the scroll register. */
  function NextShot(shot: Shot, w: Write): Shot {
    Shot(Rewritten(shot.scene, w), NextRow(if w.Rewrite? && w.jump then RowOf(w.t) else shot.row))
  }

  /** The frame that a program makes of a scene, line by line. */
  function Shots(shot: Shot, writes: seq<Write>): (f: seq<Shot>)
    ensures |f| == |writes| + 1
    decreases |writes|
  {
    [shot] + if writes == [] then [] else Shots(NextShot(shot, writes[0]), writes[1..])
  }

  lemma RewrittenKeeps(s: Scene, w: Write)
    requires WellFormed(s) && Allowed(s, w)
    ensures var n := Rewritten(s, w);
      WellFormed(n) && n.oam == s.oam && Height(n.ctrl) == Height(s.ctrl) && Rendering(n.mask) == Rendering(s.mask)
  {}

  /** Line `line` of the film made by the writes, and its step to the next. */
  ghost predicate MadeAt(f: seq<Shot>, writes: seq<Write>, line: nat)
    requires line < |f| == |writes| + 1
  {
    && WellFormed(f[line].scene)
    && (line < |writes| ==> Allowed(f[line].scene, writes[line]) && f[line + 1] == NextShot(f[line], writes[line]))
  }

  ghost predicate Made(f: seq<Shot>, writes: seq<Write>) {
    && |writes| == 240 && Film(f)
    && forall line :: 0 <= line < 241 ==> MadeAt(f, writes, line)
  }

  lemma {:induction false} ShotsAt(shot: Shot, writes: seq<Write>, line: nat)
    requires WellFormed(shot.scene) && AllAllowed(shot.scene, writes) && line <= |writes|
    ensures Shots(shot, writes)[0] == shot && MadeAt(Shots(shot, writes), writes, line)
    decreases |writes|
  {
    if writes != [] {
      var next := NextShot(shot, writes[0]);
      RewrittenKeeps(shot.scene, writes[0]);
      forall w <- writes[1..] ensures Allowed(next.scene, w) {
        assert w in writes;
      }
      ShotsAt(next, writes[1..], if line == 0 then 0 else line - 1);
    }
  }

  lemma MadeWell(f: seq<Shot>, writes: seq<Write>, line: nat)
    requires line < |f| == |writes| + 1 && MadeAt(f, writes, line)
    ensures WellFormed(f[line].scene)
  {}

  lemma ShotsMade(shot: Shot, writes: seq<Write>)
    requires WellFormed(shot.scene) && |writes| == 240 && AllAllowed(shot.scene, writes)
    ensures Made(Shots(shot, writes), writes) && Shots(shot, writes)[0] == shot
  {
    hide Shots, Allowed, AllAllowed, NextShot, WellFormed, MadeAt;
    var f := Shots(shot, writes);
    ShotsAt(shot, writes, 0);
    forall line | 0 <= line < 241 ensures MadeAt(f, writes, line) && WellFormed(f[line].scene) {
      ShotsAt(shot, writes, line);
      MadeWell(f, writes, line);
    }
  }

  /** A split screen: a program that rewrites the registers and the scroll register once, at
      the end of line k, shows one scene down to that line and below it another, from the
      row below the one that the new registers name. */
  lemma {:induction false} SplitRows(f: seq<Shot>, writes: seq<Write>, k: nat, line: nat)
    requires Made(f, writes) && f[0].row == RowAt(f[0].scene.t, 0) && k < 240 && line <= 240
    requires forall i :: 0 <= i < 240 ==> if i == k then writes[i].Rewrite? && writes[i].jump else writes[i].Keep?
    ensures f[line] ==
      if line <= k then Shot(f[0].scene, RowAt(f[0].scene.t, line))
      else Shot(Rewritten(f[0].scene, writes[k]), RowAt(writes[k].t, line - k))
  {
    hide RowAt, NextRow, Allowed, WellFormed;
    if line > 0 {
      SplitRows(f, writes, k, line - 1);
      assert MadeAt(f, writes, line - 1);
      if line <= k {
        RowAtNext(f[0].scene.t, line - 1);
      } else {
        RowAtStart(writes[k].t);
        RowAtNext(writes[k].t, line - 1 - k);
      }
    }
  }

  /** Left alone, a program's frame is the frame of the scene. */
  lemma StillMade(s: Scene)
    requires WellFormed(s)
    ensures Made(Still(s), seq(240, _ => Keep))
  {
    hide RowAt, NextRow;
    forall line | 0 <= line < 240 ensures RowAt(s.t, line + 1) == NextRow(RowAt(s.t, line)) {
      RowAtNext(s.t, line);
    }
  }

  /** Pixel number n of the frame, in drawing order. */
  ghost function Pixel(f: seq<Shot>, first: nat, n: nat): bv8
    requires Film(f) && n < 240 * 256
  {
    LineColour(f[n / 256].scene, EvaluationLine(first, n / 256), n % 256, f[n / 256].row)
  }

  /** A sprite-0 hit at pixel x of a line of the film. */
  ghost predicate Hit(f: seq<Shot>, first: nat, x: nat, line: nat)
    requires Film(f) && line < 240
  {
    LineOverlap(f[line].scene, EvaluationLine(first, line), x, f[line].row)
  }

  ghost predicate OverlapAt(f: seq<Shot>, first: nat, n: nat)
    requires Film(f) && n < 240 * 256
  {
    Hit(f, first, n % 256, n / 256)
  }

  ghost predicate OverlapBefore(f: seq<Shot>, first: nat, n: nat)
    requires Film(f) && n <= 240 * 256
  {
    exists k :: 0 <= k < n && OverlapAt(f, first, k)
  }

  /** The byte the overflow scan looks at for sprite n when it started at sprite
      `start`: the scan walks diagonally through OAM. */
  predicate DiagonalHit(s: Scene, line: nat, start: nat, n: nat)
    requires WellFormed(s) && start <= n < 64
  {
    InRange(s.oam[4 * n + (n - start) % 4], line, Height(s.ctrl))
  }

  /** Sprite n is the first one from `start` on at which the scan hits. */
  ghost predicate FirstHit(s: Scene, line: nat, start: nat, n: nat)
    requires WellFormed(s) && start <= n < 64
  {
    DiagonalHit(s, line, start, n) && forall k :: start <= k < n ==> !DiagonalHit(s, line, start, k)
  }

  ghost predicate DiagonalFrom(s: Scene, line: nat, start: nat)
    requires WellFormed(s)
  {
    exists n :: start <= n < 64 && DiagonalHit(s, line, start, n)
  }

  lemma OnlyFirst(s: Scene, line: nat, start: nat, n: nat)
    requires WellFormed(s) && start <= n < 64 && DiagonalHit(s, line, start, n)
    requires forall k :: start <= k < n ==> !DiagonalHit(s, line, start, k)
    ensures DiagonalFrom(s, line, start)
    ensures forall k :: start <= k < 64 && FirstHit(s, line, start, k) ==> k == n
  {
    hide DiagonalHit;
  }

  lemma NoneFirst(s: Scene, line: nat, start: nat)
    requires WellFormed(s) && forall k :: start <= k < 64 ==> !DiagonalHit(s, line, start, k)
    ensures !DiagonalFrom(s, line, start) && forall k :: start <= k < 64 ==> !FirstHit(s, line, start, k)
  {
    hide DiagonalHit;
  }

  /** The overflow flag is raised on a line: eight sprites were found among the
      first `start`, no fewer do, and the diagonal scan from there hits. */
  ghost predicate Overflows(s: Scene, line: nat)
    requires WellFormed(s)
  {
    exists start :: 0 < start < 64 && EighthAt(s, line, start) && DiagonalFrom(s, line, start)
  }

  predicate EighthAt(s: Scene, line: nat, start: nat)
    requires WellFormed(s) && 0 < start < 64
  {
    |Touching(s, line, start)| == 8 && |Touching(s, line, start - 1)| == 7
  }

  /** The sprites of line k are evaluated on the line before it, with what is drawn then. */
  ghost predicate OverflowAt(f: seq<Shot>, first: nat, k: nat)
    requires Film(f) && k < 241
  {
    var s := f[if k == 0 then 0 else k - 1].scene;
    Rendering(s.mask) && Overflows(s, EvaluationLine(first, k))
  }

  ghost predicate OverflowBefore(f: seq<Shot>, first: nat, n: nat)
    requires Film(f) && n <= 241
  {
    exists k :: 0 <= k < n && OverflowAt(f, first, k)
  }

  // ---- what the definitions mean -------------------------------------------

  /** Touching is the filter of OAM by range, and it only ever grows at the end. */
  lemma {:induction false} TouchingComplete(s: Scene, line: nat, n: nat, i: nat)
    requires WellFormed(s) && i < n <= 64
    ensures i in Touching(s, line, n) <==> InRange(OamSprite(s, i).y, line, Height(s.ctrl))
  {
    if i < n - 1 {
      TouchingComplete(s, line, n - 1, i);
    }
  }

  lemma {:induction false} TouchingPrefix(s: Scene, line: nat, m: nat, n: nat)
    requires WellFormed(s) && m <= n <= 64
    ensures Touching(s, line, m) <= Touching(s, line, n)
  {
    hide InRange, OamSprite, Height;
    if m < n {
      TouchingPrefix(s, line, m, n - 1);
    }
  }

  /** Only the Y coordinate hides a sprite, if and only if sprite 0 is hidden by its Y
      anyway or its attribute byte does not become 0xFF with the sprite-0 mark added. */
  lemma DrawableExact(s: Scene)
    requires WellFormed(s)
    ensures (forall i :: 0 <= i < 64 ==> (Drawable(s, i) <==> Value(OamSprite(s, i).y) < 0xEF)) <==>
      Value(OamSprite(s, 0).y) >= 0xEF || OamSprite(s, 0).attr | 0x08 != 0xFF
  {
    hide Value;
    if OamSprite(s, 0).attr | 0x08 == 0xFF {
      assert !Drawable(s, 0);
    }
  }

  /** The attribute bytes that become 0xFF. */
  lemma MarkedAttributes(attr: bv8)
    ensures attr | 0x08 == 0xFF <==> attr == 0xF7 || attr == 0xFF
    ensures attr & 0x1C == 0 ==> attr | 0x08 != 0xFF
  {}

  /** With the three unused attribute bits of sprite 0 clear, as the OAM port stores
      them, only the Y coordinate can hide a sprite. */
  lemma DrawableWhenStored(s: Scene, i: nat)
    requires WellFormed(s) && i < 64 && OamSprite(s, 0).attr & 0x1C == 0
    ensures Drawable(s, i) <==> Value(OamSprite(s, i).y) < 0xEF
  {
    MarkedAttributes(OamSprite(s, 0).attr);
    DrawableExact(s);
  }

  /** A hidden sprite 0 leaves no trace anywhere in the frame: no pixel of it is shown
      and it never hits. */
  lemma HiddenZero(s: Scene, evaluated: nat, x: nat, r: Row)
    requires WellFormed(s) && OamSprite(s, 0).attr | 0x08 == 0xFF
    ensures !Drawable(s, 0) && !Layers(s, evaluated, x, r).zero && !LineOverlap(s, evaluated, x, r)
  {
    var l := FirstEight(s, evaluated);
    forall k | 0 <= k < |l| && l[k] == 0 ensures SpritePattern(s, l[k], evaluated, x) == 0 {}
  }

  /** A sprite 0 in the middle of the screen with an opaque pattern vanishes because its
      attribute byte is 0xF7; any other sprite with the same bytes is drawn. */
  lemma VanishingSprite(s: Scene, x: nat)
    requires WellFormed(s) && OamSprite(s, 0) == Sprite(100, 0, 0xF7, 50) == OamSprite(s, 1)
    requires forall a :: 0 <= a < 0x2000 ==> s.vram[a] == 0xFF
    requires 50 <= x < 58
    ensures SpritePattern(s, 0, 100, x) == 0 && SpritePattern(s, 1, 100, x) == 3
  {
    hide SpriteAddress;
    assert Value(100) == 100 && Value(50) == 50;
    BitsOfFF(57 - x);
    BitsOfFF(x - 50);
  }

  lemma BitsOfFF(n: nat)
    requires n < 8
    ensures Bit(0xFF, n) == 1
  {}

  /** In the steady state the pre-render line is number 261: no sprite that
      touches it is drawable, so visible line 0 has no sprites. */
  lemma NoSpritesOnLineZero(s: Scene, x: nat, r: Row)
    requires WellFormed(s)
    ensures Layers(s, 261, x, r).sprite == Dot(0, 0)
  {
    var l := FirstEight(s, 261);
    forall k | 0 <= k < |l|
      ensures SpritePattern(s, l[k], 261, x) == 0
    {
      assert Value(OamSprite(s, l[k]).y) + 16 > 261;
    }
  }
}
