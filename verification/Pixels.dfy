/** Facts about a single pixel: what the shift registers, the sprite column and row
    arithmetic and the palette address computation amount to. */
module Pixels {
  import opened Arith
  import opened Bits
  import opened Picture

  /** Plane column of pixel i of screen tile j: which tile, and where in it. */
  lemma PlaneTile(s: Scene, j: nat, i: nat)
    requires s.fineX < 8 && i < 8
    ensures var f := Value(s.fineX);
      var px := PlaneX(s, 8 * j + i);
      if f + i < 8 then px / 8 == ScreenColumn(s.t, j) && px % 8 == f + i
      else px / 8 == ScreenColumn(s.t, j + 1) && px % 8 == f + i - 8
  {
    hide ColumnOf;
    var f := Value(s.fineX);
    var c := ColumnOf(s.t) + j;
    assert PlaneX(s, 8 * j + i) == (8 * c + (f + i)) % 512;
    PlaneDivision(c, f + i);
  }

  lemma PlaneDivision(c: nat, o: nat)
    requires o < 16
    ensures ((8 * c + o) % 512) / 8 == if o < 8 then c % 64 else (c + 1) % 64
    ensures ((8 * c + o) % 512) % 8 == if o < 8 then o else o - 8
  {
    var d, e := if o < 8 then c else c + 1, if o < 8 then o else o - 8;
    var q, m := d / 64, d % 64;
    DivUnique(8 * c + o, 512, q, 8 * m + e);
    DivUnique(8 * m + e, 8, m, e);
  }

  /** What the pattern shifters show, i pixels into screen tile j, is the pattern of the
      background plane's dot. */
  lemma PatternTap(s: Scene, r: Row, j: nat, i: nat, lo: bv16, hi: bv16)
    requires WellFormed(s) && i < 8
    requires var c0, c1 := ScreenColumn(s.t, j), ScreenColumn(s.t, j + 1);
      lo == Word(TileLow(s, c0, r), TileLow(s, c1, r)) && hi == Word(TileHigh(s, c0, r), TileHigh(s, c1, r))
    ensures BackgroundDot(s, 8 * j + i, r).pattern
         == Value(Pair(Tap16(Shl(hi, i), s.fineX), Tap16(Shl(lo, i), s.fineX)))
  {
    hide ColumnOf, TileLow, TileHigh, AttributeLow, AttributeHigh, Word, Tap16, Shl;
    hide Pair, BitOf, Value, PlaneX, ScreenColumn;
    var c0, c1 := ScreenColumn(s.t, j), ScreenColumn(s.t, j + 1);
    PairValue(Tap16(Shl(hi, i), s.fineX), Tap16(Shl(lo, i), s.fineX));
    TapOfWord(lo, TileLow(s, c0, r), TileLow(s, c1, r), s.fineX, i);
    TapOfWord(hi, TileHigh(s, c0, r), TileHigh(s, c1, r), s.fineX, i);
    PlaneTile(s, j, i);
  }

  /** What the attribute shifters show there is its palette. */
  lemma AttributeTap(s: Scene, r: Row, j: nat, i: nat, latchLo: bv8, latchHi: bv8)
    requires WellFormed(s) && i < 8
    requires var c1 := ScreenColumn(s.t, j + 1);
      latchLo == AttributeLow(s, c1, r) && latchHi == AttributeHigh(s, c1, r)
    ensures var c0 := ScreenColumn(s.t, j);
      BackgroundDot(s, 8 * j + i, r).palette
        == Value(Pair(Tap8(ShlFill(Spread(AttributeHigh(s, c0, r)), latchHi, i), s.fineX),
                      Tap8(ShlFill(Spread(AttributeLow(s, c0, r)), latchLo, i), s.fineX)))
  {
    hide ColumnOf, TileLow, TileHigh, AttributeLow, AttributeHigh, Tap8, ShlFill, Spread;
    hide Pair, BitOf, Value, PlaneX, ScreenColumn;
    var c0 := ScreenColumn(s.t, j);
    PairValue(Tap8(ShlFill(Spread(AttributeHigh(s, c0, r)), latchHi, i), s.fineX),
              Tap8(ShlFill(Spread(AttributeLow(s, c0, r)), latchLo, i), s.fineX));
    TapOfSpread(AttributeLow(s, c0, r), latchLo, s.fineX, i);
    TapOfSpread(AttributeHigh(s, c0, r), latchHi, s.fineX, i);
    PlaneTile(s, j, i);
  }

  /** The shifters and latches hold screen tiles j and j+1 of row r. */
  predicate Loaded(s: Scene, r: Row, j: nat, lo: bv16, hi: bv16, atLo: bv8, atHi: bv8, latchLo: bv8, latchHi: bv8)
    requires WellFormed(s)
  {
    var c0, c1 := ScreenColumn(s.t, j), ScreenColumn(s.t, j + 1);
    && lo == Word(TileLow(s, c0, r), TileLow(s, c1, r)) && hi == Word(TileHigh(s, c0, r), TileHigh(s, c1, r))
    && atLo == Spread(AttributeLow(s, c0, r)) && latchLo == AttributeLow(s, c1, r)
    && atHi == Spread(AttributeHigh(s, c0, r)) && latchHi == AttributeHigh(s, c1, r)
  }

  /** What they show after i shifts is the dot of the background plane. */
  lemma BackgroundTap(s: Scene, r: Row, j: nat, i: nat, lo: bv16, hi: bv16, atLo: bv8, atHi: bv8,
      latchLo: bv8, latchHi: bv8)
    requires WellFormed(s) && i < 8 && Loaded(s, r, j, lo, hi, atLo, atHi, latchLo, latchHi)
    ensures var d := BackgroundDot(s, 8 * j + i, r);
      && d.pattern == Value(Pair(Tap16(Shl(hi, i), s.fineX), Tap16(Shl(lo, i), s.fineX)))
      && d.palette == Value(Pair(Tap8(ShlFill(atHi, latchHi, i), s.fineX), Tap8(ShlFill(atLo, latchLo, i), s.fineX)))
  {
    hide BackgroundDot, ScreenColumn, TileLow, TileHigh, AttributeLow, AttributeHigh, Word, Spread;
    hide Value, Pair, Tap16, Tap8, Shl, ShlFill;
    PatternTap(s, r, j, i, lo, hi);
    AttributeTap(s, r, j, i, latchLo, latchHi);
  }

  /** A byte xor 7 counts a sprite column from the other side. */
  lemma FlipColumn(d: nat)
    requires d < 8
    ensures Value((d as bv8) ^ 7) == 7 - d && (d as bv8) < 8 && (d as bv8) ^ 7 < 8
  {}

  /** The bit a sprite's pattern byte shows d pixels in, flipped or not. */
  lemma SpriteTap(b: bv8, d: nat, flip: bool)
    requires d < 8
    ensures (d as bv8) < 8 && (d as bv8) ^ 7 < 8
    ensures Tap8(b, if flip then (d as bv8) ^ 7 else d as bv8) == BitOf(b, 7 - (if flip then 7 - d else d))
  {
    FlipColumn(d);
    NumberRoundTrip(d);
    ColumnBit(b, if flip then (d as bv8) ^ 7 else d as bv8);
  }

  lemma ColumnBit(b: bv8, column: bv8)
    requires column < 8
    ensures Tap8(b, column) == BitOf(b, 7 - Value(column))
  {
    assert Value(7 - column) == 7 - Value(column);
    ByteRoundTrip(7 - column);
  }

  /** Palette addresses are built from disjoint bit fields. */
  lemma PaletteBits(palette: bv8, pattern: bv8)
    requires palette < 4 && pattern < 4
    ensures (0x10 | (palette * 4) | pattern) as nat == 16 + 4 * (palette as nat) + pattern as nat
    ensures (0x00 | (palette * 4) | pattern) as nat == 4 * (palette as nat) + pattern as nat
  {
    assert 0x10 | (palette * 4) | pattern == 0x10 + (palette << 2) + pattern;
    assert 0x00 | (palette * 4) | pattern == (palette << 2) + pattern;
  }

  /** Palette addresses of the renderer: 0 for the backdrop, then four entries per
      palette, sprites in the upper half. */
  function SpriteEntry(palette: bv8, pattern: bv8): bv8 {
    0x10 | (palette * 4) | pattern
  }

  function BackgroundEntry(palette: bv8, pattern: bv8): bv8 {
    0x00 | (palette * 4) | pattern
  }

  lemma EntryValues(palette: bv8, pattern: bv8)
    requires palette < 4 && pattern < 4
    ensures Value(SpriteEntry(palette, pattern)) == 16 + 4 * Value(palette) + Value(pattern)
    ensures Value(BackgroundEntry(palette, pattern)) == 4 * Value(palette) + Value(pattern)
    ensures Value(palette) < 4 && Value(pattern) < 4
  {
    PaletteBits(palette, pattern);
  }

  /** The left-column masks concern the first tile only. */
  lemma LayerSwitches(s: Scene, j: nat, i: nat)
    requires i < 8
    ensures ShowsBackground(s, j * 8 + i) == (s.mask & 0x08 != 0 && !(j == 0 && s.mask & 0x02 == 0))
    ensures ShowsSprites(s, j * 8 + i) == (s.mask & 0x10 != 0 && !(j == 0 && s.mask & 0x04 == 0))
    ensures ShowsBackground(s, j * 8 + i) || ShowsSprites(s, j * 8 + i) ==> Rendering(s.mask)
  {}

  lemma BackgroundLayer(s: Scene, evaluated: nat, x: nat, r: Row)
    requires WellFormed(s)
    ensures Layers(s, evaluated, x, r).background ==
      if ShowsBackground(s, x) then BackgroundDot(s, x, r) else Dot(0, 0)
  {}

  lemma SamePaletteIndex(y: Layered, behind: bool, zero: bool)
    requires y.background.pattern < 4 && y.background.palette < 4
    requires y.sprite.pattern < 4 && y.sprite.palette < 4 && y.behind == behind
    ensures PaletteIndex(y) == PaletteIndex(Layered(y.background, y.sprite, behind, zero))
  {}

  lemma OverlapNext(f: seq<Shot>, first: nat, n: nat)
    requires Film(f) && n < 240 * 256
    ensures OverlapBefore(f, first, n + 1) <==> OverlapBefore(f, first, n) || OverlapAt(f, first, n)
  {
    hide OverlapAt;
  }

  lemma OverflowNext(f: seq<Shot>, first: nat, n: nat)
    requires Film(f) && n < 241
    ensures OverflowBefore(f, first, n + 1) <==> OverflowBefore(f, first, n) || OverflowAt(f, first, n)
  {
    hide OverflowAt;
  }

  lemma NothingYet(f: seq<Shot>, first: nat)
    requires Film(f)
    ensures !OverlapBefore(f, first, 0) && !OverflowBefore(f, first, 0)
  {}

  /** Drawing order and screen coordinates name the same pixels. */
  lemma PixelAt(f: seq<Shot>, first: nat, x: nat, line: nat)
    requires Film(f) && x < 256 && line < 240
    ensures 256 * line + x < 240 * 256
    ensures Pixel(f, first, 256 * line + x)
         == LineColour(f[line].scene, EvaluationLine(first, line), x, f[line].row)
    ensures OverlapAt(f, first, 256 * line + x) <==> Hit(f, first, x, line)
  {
    hide LineColour, LineOverlap;
    Coordinates(x, line);
  }

  lemma HitSomewhere(f: seq<Shot>, first: nat)
    requires Film(f)
    ensures OverlapBefore(f, first, 240 * 256) <==>
      exists x, line :: 0 <= x < 256 && 0 <= line < 240 && Hit(f, first, x, line)
  {
    hide Hit;
    if OverlapBefore(f, first, 240 * 256) {
      var k :| 0 <= k < 240 * 256 && OverlapAt(f, first, k);
      assert Hit(f, first, k % 256, k / 256);
    }
    if x, line :| 0 <= x < 256 && 0 <= line < 240 && Hit(f, first, x, line) {
      PixelAt(f, first, x, line);
      assert OverlapAt(f, first, 256 * line + x);
    }
  }

  /** Every pixel of a film is its palette entry, in grey where the line's mask says so. */
  lemma FilmShaded(f: seq<Shot>, first: nat)
    requires Film(f)
    ensures forall x, line :: 0 <= x < 256 && 0 <= line < 240 ==>
      Shaded(f[line].scene.mask, Entry(f[line].scene, EvaluationLine(first, line), x, f[line].row),
        LineColour(f[line].scene, EvaluationLine(first, line), x, f[line].row))
  {
    hide Shaded, Entry, LineColour, EvaluationLine;
    forall x, line | 0 <= x < 256 && 0 <= line < 240
      ensures Shaded(f[line].scene.mask, Entry(f[line].scene, EvaluationLine(first, line), x, f[line].row),
        LineColour(f[line].scene, EvaluationLine(first, line), x, f[line].row))
    {
      LineShaded(f[line].scene, EvaluationLine(first, line), x, f[line].row);
    }
  }

  lemma PictureShaded(s: Scene, first: nat)
    requires WellFormed(s)
    ensures forall x, line :: 0 <= x < 256 && 0 <= line < 240 ==>
      Shaded(s.mask, Entry(s, EvaluationLine(first, line), x, RowAt(s.t, line)), Colour(s, first, x, line))
  {
    hide Shaded, Entry, LineColour, EvaluationLine, RowAt;
    forall x, line | 0 <= x < 256 && 0 <= line < 240
      ensures Shaded(s.mask, Entry(s, EvaluationLine(first, line), x, RowAt(s.t, line)), Colour(s, first, x, line))
    {
      LineShaded(s, EvaluationLine(first, line), x, RowAt(s.t, line));
    }
  }

  /** The pixels of a frame whose scene does not change. */
  lemma StillPixels(s: Scene, first: nat)
    requires WellFormed(s)
    ensures forall x, line :: 0 <= x < 256 && 0 <= line < 240 ==>
      LineColour(Still(s)[line].scene, EvaluationLine(first, line), x, Still(s)[line].row) == Colour(s, first, x, line)
    ensures forall x, line :: 0 <= x < 256 && 0 <= line < 240 ==>
      (Hit(Still(s), first, x, line) <==> Overlap(s, first, x, line))
  {
    hide LineColour, LineOverlap, RowAt, EvaluationLine;
  }

  /** The overflow flag of a frame whose scene does not change. */
  lemma StillOverflow(s: Scene, first: nat)
    requires WellFormed(s)
    ensures OverflowBefore(Still(s), first, 241) <==>
      Rendering(s.mask) && exists k :: 0 <= k < 241 && Overflows(s, EvaluationLine(first, k))
  {
    hide Overflows, Rendering, RowAt;
    forall k | 0 <= k < 241
      ensures OverflowAt(Still(s), first, k) <==> Rendering(s.mask) && Overflows(s, EvaluationLine(first, k)) {}
  }

  lemma Coordinates(x: nat, line: nat)
    requires x < 256
    ensures (256 * line + x) % 256 == x && (256 * line + x) / 256 == line
  {}
}
