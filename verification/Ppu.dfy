/** The PPU's rendering pipeline: two-tile prefetch into shift registers, sprite
    evaluation and prefetch one line ahead, and the scanline loop that moves the
    packed scroll register. A frame in which no program touches the PPU draws
    exactly the picture of module Picture.

    `Cycle` is one suspension of the PPU coroutine per tick. The specification log
    records, line by line, the line number a scheduler can observe and the number
    of ticks the line took. */
module Ppu {
  import opened Bits
  import opened Picture
  import opened Scroll
  import opened Pixels
  import opened Sprites

  const UINT_MAX: nat := 0xFFFF_FFFF

  const SPRITE_OVERFLOW: bv8 := 0x20
  const SPRITE0_HIT: bv8 := 0x40
  const VERTICAL_BLANK: bv8 := 0x80

  /** The status byte once the pre-render line has dropped its three flags. */
  function Cleared(status: bv8): bv8 {
    Without(Without(Without(status, SPRITE0_HIT), SPRITE_OVERFLOW), VERTICAL_BLANK)
  }

  function Without(status: bv8, flag: bv8): bv8 {
    status & !flag
  }

  /** The three flags are the upper bits of the status byte. */
  lemma StatusMeaning(status: bv8)
    ensures Value(Cleared(status)) == Value(status) % 32
    ensures Value(Cleared(status) | VERTICAL_BLANK) == 128 + Value(status) % 32
  {
    StatusBits(status);
    hide Value, Cleared;
    LowFive(Value(status & 0x1F), Value(status >> 5));
  }

  lemma StatusBits(status: bv8)
    ensures Cleared(status) == status & 0x1F && Value(status) == 32 * Value(status >> 5) + Value(status & 0x1F)
    ensures Value(Cleared(status) | VERTICAL_BLANK) == 128 + Value(status & 0x1F) && Value(status & 0x1F) < 32
  {}

  lemma LowFive(low: nat, high: nat)
    requires low < 32
    ensures (32 * high + low) % 32 == low
  {}

  // ---- what a frame logs -----------------------------------------------------

  /** Lines 0 to n-1 with their lengths; line 0 may lack its idle dot. */
  function VisibleLog(skipZero: bool, n: nat): seq<(nat, nat)> {
    if n == 0 then []
    else VisibleLog(skipZero, n - 1) + [(n - 1, if n == 1 && skipZero then 340 else 341)]
  }

  /** n lines from line 240 on. */
  function BlankLog(n: nat): seq<(nat, nat)> {
    if n == 0 then [] else BlankLog(n - 1) + [(240 + n - 1, 341)]
  }

  /** Line numbers and lengths of a frame: the pre-render line, which carries the
      number `first`, then lines 0 to 260. */
  function FrameLog(first: nat, skipFirst: bool, skipZero: bool): seq<(nat, nat)> {
    [(first, if skipFirst then 340 else 341)] + VisibleLog(skipZero, 240) + BlankLog(21)
  }

  function Ticks(l: seq<(nat, nat)>): nat {
    if l == [] then 0 else Ticks(l[..|l| - 1]) + l[|l| - 1].1
  }

  lemma TicksSnoc(l: seq<(nat, nat)>, e: (nat, nat))
    ensures Ticks(l + [e]) == Ticks(l) + e.1
  {
    assert (l + [e])[..|l|] == l;
  }

  lemma {:induction false} TicksConcat(a: seq<(nat, nat)>, b: seq<(nat, nat)>)
    ensures Ticks(a + b) == Ticks(a) + Ticks(b)
  {
    if b == [] {
      assert a + b == a;
    } else {
      var e := b[|b| - 1];
      TicksConcat(a, b[..|b| - 1]);
      assert a + b == (a + b[..|b| - 1]) + [e];
      TicksSnoc(a + b[..|b| - 1], e);
    }
  }

  lemma {:induction false} VisibleTicks(skipZero: bool, n: nat)
    ensures Ticks(VisibleLog(skipZero, n)) == 341 * n - if n > 0 && skipZero then 1 else 0
  {
    if n > 0 {
      VisibleTicks(skipZero, n - 1);
      TicksSnoc(VisibleLog(skipZero, n - 1), (n - 1, if n == 1 && skipZero then 340 else 341));
    }
  }

  lemma {:induction false} BlankTicks(n: nat)
    ensures Ticks(BlankLog(n)) == 341 * n
  {
    if n > 0 {
      BlankTicks(n - 1);
      TicksSnoc(BlankLog(n - 1), (240 + n - 1, 341));
    }
  }

  /** A frame takes 262 lines of 341 ticks, less one tick for each missing idle dot. */
  lemma FrameTicks(first: nat, skipFirst: bool, skipZero: bool)
    ensures Ticks(FrameLog(first, skipFirst, skipZero))
         == 89342 - (if skipFirst then 1 else 0) - (if skipZero then 1 else 0)
  {
    var head := [(first, if skipFirst then 340 else 341)];
    TicksSnoc([], head[0]);
    assert [] + head == head;
    VisibleTicks(skipZero, 240);
    BlankTicks(21);
    TicksConcat(head, VisibleLog(skipZero, 240));
    TicksConcat(head + VisibleLog(skipZero, 240), BlankLog(21));
  }

  class PPU {
    // scroll registers
    var v: bv16
    var t: bv16
    var fineX: bv8
    // control registers
    var ctrl: bv8
    var mask: bv8
    var status: bv8
    // background shifters, latches and prefetch buffers
    var tileLo: bv16
    var tileHi: bv16
    var attrShiftLo: bv8
    var attrShiftHi: bv8
    var attrLatchLo: bv8
    var attrLatchHi: bv8
    var prefetchedAtLo: bv8
    var prefetchedAtHi: bv8
    var prefetchedBgLo: bv8
    var prefetchedBgHi: bv8
    // position and flags
    var currentLine: nat
    var clocks: nat
    var oddFrame: bool
    var skipCycle: bool
    var suppressVbl: bool
    var sprite0HitCycle: nat
    var spriteOverflowCycle: nat
    var frames: nat

    const oam: array<bv8>
    const palette: array<bv8>
    const framebuffer: array<bv8>
    const secondaryOam: array<Sprite>
    const prefetchedSprites: array<Prefetched>
    /** What a bus read returns at each address; no drawing code writes it. */
    var vram: seq<bv8>

    /** (line, ticks) of every finished scanline. */
    ghost var log: seq<(nat, nat)>

    /** A PPU at power-on, with the bus contents it will read. */
    constructor (vram: seq<bv8>)
      requires |vram| == 0x10000
      ensures Valid() && this.vram == vram && ctrl == 0 && mask == 0 && status == 0 && v == 0 && t == 0 && fineX == 0
      ensures currentLine == 0 && clocks == 0 && frames == 0 && log == []
      ensures !oddFrame && !skipCycle && !suppressVbl && tileLo == tileHi == 0 && attrShiftLo == attrShiftHi == 0
      ensures attrLatchLo == attrLatchHi == prefetchedAtLo == prefetchedAtHi == prefetchedBgLo == prefetchedBgHi == 0
      ensures sprite0HitCycle == UINT_MAX && spriteOverflowCycle == UINT_MAX
      ensures fresh(oam) && fresh(palette) && fresh(framebuffer) && fresh(secondaryOam) && fresh(prefetchedSprites)
    {
      this.vram := vram;
      ctrl, mask, status, v, t, fineX := 0, 0, 0, 0, 0, 0;
      tileLo, tileHi, attrShiftLo, attrShiftHi, attrLatchLo, attrLatchHi := 0, 0, 0, 0, 0, 0;
      prefetchedAtLo, prefetchedAtHi, prefetchedBgLo, prefetchedBgHi := 0, 0, 0, 0;
      currentLine, clocks, frames, log := 0, 0, 0, [];
      oddFrame, skipCycle, suppressVbl := false, false, false;
      sprite0HitCycle, spriteOverflowCycle := UINT_MAX, UINT_MAX;
      oam := new bv8[256](_ => 0);
      palette := new bv8[32](_ => 0);
      framebuffer := new bv8[240 * 256](_ => 0);
      secondaryOam := new Sprite[8](_ => EMPTY);
      prefetchedSprites := new Prefetched[8](_ => Prefetched(0, 0xFF, 0, 0));
    }

    ghost predicate Valid()
      reads this`vram, this`fineX
    {
      && oam.Length == 256 && palette.Length == 32 && framebuffer.Length == 240 * 256
      && secondaryOam.Length == 8 && prefetchedSprites.Length == 8
      && framebuffer != oam && framebuffer != palette && oam != palette
      && |vram| == 0x10000 && fineX < 8
    }

    ghost function TheScene(): (s: Scene)
      requires Valid()
      reads this`vram, this`ctrl, this`mask, this`t, this`fineX, this`v, oam, palette
      ensures WellFormed(s) && s.ctrl == ctrl && s.mask == mask && s.t == t && s.fineX == fineX && s.vram == vram
      ensures s.page == PageOf(v)
    {
      Scene(vram, oam[..], palette[..], ctrl, mask, t, fineX, PageOf(v))
    }

    // ---- pipeline invariants -------------------------------------------------

    /** Before screen tile j of a line that shows row r: tile j and j+1 sit in the shifters,
        and the scroll register points at the tile after them. */
    ghost predicate BackgroundReady(s: Scene, r: Row, j: nat)
      requires WellFormed(s)
      reads this`tileLo, this`tileHi, this`attrShiftLo, this`attrShiftHi, this`attrLatchLo, this`attrLatchHi, this`v
    {
      && Loaded(s, r, j, tileLo, tileHi, attrShiftLo, attrShiftHi, attrLatchLo, attrLatchHi)
      && ColumnOf(v) == ScreenColumn(s.t, j + 2) && RowOf(v) == r
    }

    /** Tile j alone sits in the shifters, before the tile after it is loaded. */
    ghost predicate BackgroundDrained(s: Scene, r: Row, j: nat)
      requires WellFormed(s)
      reads this`tileLo, this`tileHi, this`attrShiftLo, this`attrShiftHi, this`attrLatchLo, this`attrLatchHi, this`v
    {
      var c := ScreenColumn(s.t, j);
      && tileLo == Word(TileLow(s, c, r), 0)
      && tileHi == Word(TileHigh(s, c, r), 0)
      && attrShiftLo == Spread(AttributeLow(s, c, r))
      && attrShiftHi == Spread(AttributeHigh(s, c, r))
      && ColumnOf(v) == ScreenColumn(s.t, j + 1) && RowOf(v) == r
    }

    /** The prefetch buffers hold tile (c, r). */
    ghost predicate PrefetchHolds(s: Scene, c: nat, r: Row)
      requires WellFormed(s) && c < 64 && r.nt < 2 && r.y < 256
      reads this`prefetchedBgLo, this`prefetchedBgHi, this`prefetchedAtLo, this`prefetchedAtHi
    {
      && prefetchedBgLo == TileLow(s, c, r) && prefetchedBgHi == TileHigh(s, c, r)
      && prefetchedAtLo == AttributeLow(s, c, r) && prefetchedAtHi == AttributeHigh(s, c, r)
    }

    ghost predicate SecondaryReady(s: Scene, line: nat)
      requires secondaryOam.Length == 8 && WellFormed(s)
      reads secondaryOam
    {
      forall k :: 0 <= k < 8 ==> secondaryOam[k] == Secondary(s, line, k)
    }

    /** The sprite slots hold what evaluating `line` found. */
    ghost predicate SpritesReady(s: Scene, line: nat)
      requires prefetchedSprites.Length == 8 && WellFormed(s)
      reads prefetchedSprites
    {
      forall k :: 0 <= k < 8 ==> SlotHolds(s, line, k, prefetchedSprites[k])
    }

    /** The first n pixels of the frame are on screen, and the sprite-0 hit is
        recorded exactly when one of them had the overlap. */
    ghost predicate Drawn(f: seq<Shot>, first: nat, n: nat)
      requires framebuffer.Length == 240 * 256 && Film(f) && n <= 240 * 256
      reads this`sprite0HitCycle, framebuffer
    {
      && (forall k :: 0 <= k < n ==> framebuffer[k] == Pixel(f, first, k))
      && (sprite0HitCycle != UINT_MAX <==> OverlapBefore(f, first, n))
    }

    // ---- scroll register -----------------------------------------------------

    method CoarseXIncrement()
      modifies this`v
      ensures ColumnOf(v) == (ColumnOf(old(v)) + 1) % 64 && SameRow(old(v), v)
    {
      hide ColumnOf, SameRow;
      var w := v;
      if w & 0x001F != 31 {
        ColumnNoOverflow(w);
        w := w + 1;
      } else {
        ColumnOverflow(w);
        w := (w & !0x001F) ^ 0x0400;
      }
      v := w;
    }

    method YIncrement()
      modifies this`v
      ensures RowOf(v) == NextRow(RowOf(old(v))) && SameColumn(old(v), v)
    {
      hide RowOf, NextRow, SameColumn;
      var w := v;
      if w & 0x7000 != 0x7000 {
        FineRow(w);
        w := w + 0x1000;
      } else {
        var coarseY := ((w & !0x7000) & 0x03E0) >> 5;
        if coarseY == 29 { // the last row of tiles
          RowFlip(w);
          w := (((w & !0x7000) ^ 0x0800) & !0x03E0) | 0;
        } else if coarseY == 31 { // an invalid row: no flip
          RowInvalid(w);
          w := ((w & !0x7000) & !0x03E0) | 0;
        } else {
          RowCarry(w, coarseY);
          w := ((w & !0x7000) & !0x03E0) | ((coarseY + 1) << 5);
        }
      }
      v := w;
    }

    method ResetHorizontalScroll()
      modifies this`v
      ensures ColumnOf(v) == ColumnOf(t) && SameRow(old(v), v)
    {
      hide ColumnOf, SameRow;
      HorizontalCopy(v, t);
      v := (v & !0x041F) | (t & 0x041F);
    }

    method ResetVerticalScroll()
      modifies this`v
      ensures RowOf(v) == RowOf(t) && SameColumn(old(v), v)
    {
      hide RowOf, SameColumn;
      VerticalCopy(v, t);
      v := (((v & !0x03E0) & !0x0800) & !0x7000) | (t & 0x7BE0);
    }

    // ---- background ----------------------------------------------------------

    /** n suspensions of the coroutine. */
    method Cycle(n: nat)
      modifies this`clocks
      ensures clocks == old(clocks) + n
    {
      for i := 0 to n
        invariant clocks == old(clocks) + i
      {
        clocks := clocks + 1;
      }
    }

    method PpuRead(addr: nat) returns (r: bv8)
      requires |vram| == 0x10000 && addr < 0x10000
      ensures r == vram[addr]
    {
      r := vram[addr];
    }

    /** The name table and attribute reads of a tile fetch. */
    method FetchNames(ghost s: Scene) returns (patternAddr: nat, attrByte: bv8)
      requires Valid() && s == TheScene()
      modifies this`clocks
      ensures patternAddr == PatternAddress(s, ColumnOf(v), RowOf(v))
      ensures attrByte == AttributeByte(s, ColumnOf(v), RowOf(v))
      ensures clocks == old(clocks) + 3
    {
      hide ColumnOf, RowOf, PageOf, NameTableFetch, AttributeFetch, FetchBase, FineY, Value;
      hide PatternAddress, TileIndex, AttributeByte;
      FetchMeaning(s, v);
      var ntByte := PpuRead(NameTableFetch(v));
      patternAddr := Value(ntByte) * 0x10 + FetchBase(ctrl) + FineY(v);
      Cycle(2);

      attrByte := PpuRead(AttributeFetch(v));
      Cycle(1);
    }

    /** All four reads of a tile, into the prefetch buffers. */
    method ReadTile(ghost s: Scene)
      requires Valid() && s == TheScene()
      modifies this`clocks, this`prefetchedBgLo, this`prefetchedBgHi, this`prefetchedAtLo, this`prefetchedAtHi
      ensures PrefetchHolds(s, ColumnOf(v), RowOf(v))
      ensures clocks == old(clocks) + 8
    {
      hide ColumnOf, RowOf, PageOf, PatternAddress, AttributeByte, AttributeLow, AttributeHigh;
      hide QuadrantByte, FirstBit, SecondBit;
      var patternAddr, attrByte := FetchNames(s);
      AttributeMeaning(s, v, attrByte);

      prefetchedBgLo := PpuRead(patternAddr);
      Cycle(2);
      prefetchedBgHi := PpuRead(patternAddr + 8);
      Cycle(3);

      attrByte := QuadrantByte(v, attrByte);
      prefetchedAtLo := FirstBit(attrByte);
      prefetchedAtHi := SecondBit(attrByte);
    }

    method FetchNextTile(ghost s: Scene)
      requires Valid() && s == TheScene()
      modifies this`clocks, this`v
      modifies this`prefetchedBgLo, this`prefetchedBgHi, this`prefetchedAtLo, this`prefetchedAtHi
      ensures PrefetchHolds(s, ColumnOf(old(v)), RowOf(old(v)))
      ensures ColumnOf(v) == if Rendering(mask) then (ColumnOf(old(v)) + 1) % 64 else ColumnOf(old(v))
      ensures s == TheScene() && RowOf(v) == RowOf(old(v))
      ensures clocks == old(clocks) + 8
    {
      hide ColumnOf, RowOf, Rendering, PrefetchHolds;
      ReadTile(s);
      NextColumn(s);
    }

    method NextColumn(ghost s: Scene)
      requires Valid() && s == TheScene()
      modifies this`v
      ensures s == TheScene() && RowOf(v) == RowOf(old(v))
      ensures ColumnOf(v) == if Rendering(mask) then (ColumnOf(old(v)) + 1) % 64 else ColumnOf(old(v))
    {
      hide Rendering, ColumnOf, RowOf, PageOf;
      if Rendering(mask) {
        CoarseXIncrement();
      }
    }

    method ReloadShifts()
      modifies this`tileLo, this`tileHi, this`attrLatchLo, this`attrLatchHi
      ensures tileLo == WithLow(old(tileLo), prefetchedBgLo)
      ensures tileHi == WithLow(old(tileHi), prefetchedBgHi)
      ensures attrLatchLo == prefetchedAtLo && attrLatchHi == prefetchedAtHi
    {
      hide WithLow;
      tileLo := WithLow(tileLo, prefetchedBgLo);
      tileHi := WithLow(tileHi, prefetchedBgHi);
      attrLatchLo := prefetchedAtLo;
      attrLatchHi := prefetchedAtHi;
    }

    /** Tile j is in the shifters; loading the tile at the scroll register completes
        the state before screen tile j. */
    method FetchAndReload(ghost s: Scene, ghost r: Row, ghost j: nat)
      requires Valid() && s == TheScene()
      requires Rendering(mask) ==> BackgroundDrained(s, r, j)
      modifies this`clocks, this`v, this`tileLo, this`tileHi, this`attrLatchLo, this`attrLatchHi
      modifies this`prefetchedBgLo, this`prefetchedBgHi, this`prefetchedAtLo, this`prefetchedAtHi
      ensures Rendering(mask) ==> BackgroundReady(s, r, j)
      ensures s == TheScene()
      ensures clocks == old(clocks) + 8
    {
      hide TheScene;
      hide Rendering, ColumnOf, RowOf, PageOf, TileLow, TileHigh, AttributeLow, AttributeHigh;
      hide Word, WithLow, Spread, ScreenColumn;
      FetchNextTile(s);
      ReloadShifts();
      if Rendering(mask) {
        NextScreenColumn(s.t, j + 1);
        ghost var c0, c1 := ScreenColumn(s.t, j), ScreenColumn(s.t, j + 1);
        LoadLow(old(tileLo), TileLow(s, c0, r), 0, TileLow(s, c1, r));
        LoadLow(old(tileHi), TileHigh(s, c0, r), 0, TileHigh(s, c1, r));
      }
    }

    // ---- drawing -------------------------------------------------------------

    /** The background dot the shifters show, (0, 0) when the layer is off. */
    method BackgroundPixel(render: bool) returns (pattern: bv8, palette: bv8)
      requires fineX < 8
      ensures pattern < 4 && palette < 4
      ensures render ==> Value(pattern) == Value(Pair(Tap16(tileHi, fineX), Tap16(tileLo, fineX)))
      ensures render ==> Value(palette) == Value(Pair(Tap8(attrShiftHi, fineX), Tap8(attrShiftLo, fineX)))
      ensures !render ==> pattern == 0 && palette == 0
    {
      hide Tap16, Tap8, Pair, Value;
      pattern, palette := 0, 0;
      if render {
        PairValue(Tap16(tileHi, fineX), Tap16(tileLo, fineX));
        PairValue(Tap8(attrShiftHi, fineX), Tap8(attrShiftLo, fineX));
        pattern := Pair(Tap16(tileHi, fineX), Tap16(tileLo, fineX));
        palette := Pair(Tap8(attrShiftHi, fineX), Tap8(attrShiftLo, fineX));
      }
    }

    /** Pattern of one sprite slot at screen column x, 0 when it is not there. */
    method SlotPattern(p: Prefetched, x: nat, ghost s: Scene, ghost line: nat, ghost k: nat) returns (pattern: bv8)
      requires WellFormed(s) && k < 8 && SlotHolds(s, line, k, p)
      ensures pattern < 4
      ensures Value(pattern) ==
        if k < |FirstEight(s, line)| then SpritePattern(s, FirstEight(s, line)[k], line, x) else 0
    {
      hide FirstEight, SpriteAddress, SpriteRow, Tap8, BitOf, Pair, Value, Tagged, InRange;
      pattern := 0;
      ZeroValue(0);
      if p.attr == 0xFF || x < Value(p.x) || x >= Value(p.x) + 8 {
        return;
      }
      var spriteX := (x - Value(p.x)) as bv8;
      var i := FirstEight(s, line)[k];
      TaggedAttributes(OamSprite(s, i), i);
      SpriteTap(p.high, x - Value(p.x), p.attr & 0x40 != 0);
      SpriteTap(p.low, x - Value(p.x), p.attr & 0x40 != 0);
      if p.attr & 0x40 != 0 {
        spriteX := spriteX ^ 7;
      }
      pattern := Pair(Tap8(p.high, spriteX), Tap8(p.low, spriteX));
      PairValue(Tap8(p.high, spriteX), Tap8(p.low, spriteX));
    }

    /** The first opaque sprite at column x, and the sprite-0 hit test. */
    method SelectSprite(x: nat, bgPattern: bv8, ghost s: Scene, ghost line: nat)
      returns (pattern: bv8, palette: bv8, behind: bool)
      requires Valid() && WellFormed(s) && SpritesReady(s, line) && x < 256
      modifies this`sprite0HitCycle
      ensures pattern < 4 && palette < 4
      ensures var l := FirstEight(s, line);
        var w := FirstOpaque(s, line, x, 0);
        if w == |l| then
          pattern == 0 && palette == 0 && !behind && sprite0HitCycle == old(sprite0HitCycle)
        else
          var a := OamSprite(s, l[w]).attr;
          && Value(pattern) == SpritePattern(s, l[w], line, x) && palette == a & 3 && (behind <==> a & 0x20 != 0)
          && sprite0HitCycle == if l[w] == 0 && bgPattern != 0 && x != 255 && old(sprite0HitCycle) == UINT_MAX
                                then x + 1 else old(sprite0HitCycle)
    {
      hide FirstEight, SpriteAddress, SpriteRow, Value, Tagged, InRange, SpritePattern, Drawable;
      ghost var l := FirstEight(s, line);
      pattern, palette, behind := 0, 0, false;
      for j := 0 to 8
        invariant sprite0HitCycle == old(sprite0HitCycle)
        invariant j <= |l| ==> FirstOpaque(s, line, x, 0) == FirstOpaque(s, line, x, j)
        invariant j > |l| ==> FirstOpaque(s, line, x, 0) == |l|
      {
        var sprite := prefetchedSprites[j];
        var opaquePattern := SlotPattern(sprite, x, s, line, j);
        ZeroValue(opaquePattern);
        if opaquePattern != 0 {
          OpaqueIsDrawable(s, l[j], line, x);
          TaggedAttributes(OamSprite(s, l[j]), l[j]);
          pattern := opaquePattern;
          palette := sprite.attr & 3;
          behind := sprite.attr & 0x20 != 0;
          if sprite.attr & 0x08 != 0 && bgPattern != 0 && x != 255 {
            if sprite0HitCycle == UINT_MAX {
              sprite0HitCycle := x + 1;
            }
          }
          return;
        }
      }
    }

    /** The sprite layer at column x, (0, 0) when it is off. */
    method SpritePixel(render: bool, x: nat, bgPattern: bv8, ghost s: Scene, ghost e: nat, ghost r: Row)
      returns (pattern: bv8, palette: bv8, behind: bool)
      requires Valid() && WellFormed(s) && x < 256 && render == ShowsSprites(s, x)
      requires render ==> SpritesReady(s, e)
      requires Layers(s, e, x, r).background.pattern == Value(bgPattern)
      modifies this`sprite0HitCycle
      ensures pattern < 4 && palette < 4
      ensures var y := Layers(s, e, x, r);
        && y.sprite == Dot(Value(pattern), Value(palette)) && y.behind == behind
        && sprite0HitCycle == if LineOverlap(s, e, x, r) && old(sprite0HitCycle) == UINT_MAX
                              then x + 1 else old(sprite0HitCycle)
    {
      hide BackgroundDot, FirstOpaque, FirstEight, SpritePattern, OamSprite, Value, ShowsBackground, ShowsSprites;
      pattern, palette, behind := 0, 0, false;
      ZeroValue(0);
      ZeroValue(bgPattern);
      if render {
        pattern, palette, behind := SelectSprite(x, bgPattern, s, e);
      }
    }

    /** Both layers at column x, their priority and greyscale, and the sprite-0 hit. */
    method PixelColour(j: nat, i: nat, x: nat, ghost s: Scene, ghost e: nat, ghost r: Row)
      returns (outputColor: bv8)
      requires Valid() && s == TheScene() && j < 32 && i < 8 && x == j * 8 + i
      requires Rendering(mask) ==> SpritesReady(s, e)
      requires Rendering(mask) ==>
        var d := BackgroundDot(s, x, r);
        && d.pattern == Value(Pair(Tap16(tileHi, fineX), Tap16(tileLo, fineX)))
        && d.palette == Value(Pair(Tap8(attrShiftHi, fineX), Tap8(attrShiftLo, fineX)))
      modifies this`sprite0HitCycle
      ensures outputColor == LineColour(s, e, x, r)
      ensures sprite0HitCycle == if LineOverlap(s, e, x, r) && old(sprite0HitCycle) == UINT_MAX
                                 then x + 1 else old(sprite0HitCycle)
    {
      hide Layers, BackgroundDot, Value, Pair, Tap16, Tap8, Greyscale, PaletteIndex, SpritesReady, LineOverlap;
      var renderBg := mask & 0x08 != 0 && !(j == 0 && mask & 0x02 == 0);
      var renderSprites := mask & 0x10 != 0 && !(j == 0 && mask & 0x04 == 0);
      LayerSwitches(s, j, i);
      hide ShowsBackground, ShowsSprites, Rendering;

      var bgPattern, bgPalette := BackgroundPixel(renderBg);
      ghost var y := Layers(s, e, x, r);
      BackgroundLayer(s, e, x, r);
      ZeroValue(0);
      assert y.background == Dot(Value(bgPattern), Value(bgPalette));
      var spritePattern, spritePalette, behind := SpritePixel(renderSprites, x, bgPattern, s, e, r);

      outputColor := Compose(bgPattern, bgPalette, spritePattern, spritePalette, behind);
      SamePaletteIndex(y, behind, false);
    }

    /** Pixel i of screen tile j. */
    method DrawPixel(j: nat, i: nat, ghost s: Scene, ghost r: Row, ghost f: seq<Shot>, ghost first: nat)
      requires Valid() && s == TheScene() && j < 32 && i < 8 && currentLine < 240 && Shows(f, currentLine, s, r)
      requires Rendering(mask) ==> SpritesReady(s, EvaluationLine(first, currentLine))
      requires Rendering(mask) ==>
        var d := BackgroundDot(s, 8 * j + i, r);
        && d.pattern == Value(Pair(Tap16(tileHi, fineX), Tap16(tileLo, fineX)))
        && d.palette == Value(Pair(Tap8(attrShiftHi, fineX), Tap8(attrShiftLo, fineX)))
      requires Drawn(f, first, 256 * currentLine + 8 * j + i)
      modifies this`sprite0HitCycle, framebuffer
      ensures Drawn(f, first, 256 * currentLine + 8 * j + i + 1)
    {
      hide BackgroundDot, Value, Pair, Tap16, Tap8, SpritesReady, Rendering, LineColour, LineOverlap, OverlapBefore;
      hide TheScene, Pixel, OverlapAt;
      var x := j * 8 + i;
      ghost var n := 256 * currentLine + x;
      PixelAt(f, first, x, currentLine);
      var outputColor := PixelColour(j, i, x, s, EvaluationLine(first, currentLine), r);
      framebuffer[x + currentLine * 256] := outputColor;
      OverlapNext(f, first, n);
    }

    /** Priority between the layers, palette lookup and greyscale. */
    method Compose(bgPattern: bv8, bgPalette: bv8, spritePattern: bv8, spritePalette: bv8, behind: bool)
      returns (outputColor: bv8)
      requires palette.Length == 32
      requires bgPattern < 4 && bgPalette < 4 && spritePattern < 4 && spritePalette < 4
      ensures Value(bgPattern) < 4 && Value(bgPalette) < 4 && Value(spritePattern) < 4 && Value(spritePalette) < 4
      ensures outputColor == Greyscale(mask, palette[PaletteIndex(Layered(
        Dot(Value(bgPattern), Value(bgPalette)), Dot(Value(spritePattern), Value(spritePalette)), behind, false))])
    {
      hide Value, SpriteEntry, BackgroundEntry;
      EntryValues(spritePalette, spritePattern);
      EntryValues(bgPalette, bgPattern);
      ZeroValue(bgPattern);
      ZeroValue(spritePattern);
      if bgPattern == 0 {
        if spritePattern == 0 {
          outputColor := palette[0x00];
        } else {
          outputColor := palette[Value(SpriteEntry(spritePalette, spritePattern))];
        }
      } else {
        if spritePattern != 0 && !behind {
          outputColor := palette[Value(SpriteEntry(spritePalette, spritePattern))];
        } else {
          outputColor := palette[Value(BackgroundEntry(bgPalette, bgPattern))];
        }
      }
      if mask & 1 != 0 {
        outputColor := outputColor & 0x30;
      }
    }

    // ---- sprites -------------------------------------------------------------

    /** After eight sprites have been found the scan walks diagonally through OAM, taking
        tile numbers, attributes and X coordinates for Y coordinates: the first byte it
        meets that happens to be in range raises the overflow flag. */
    method DoBuggyOverflowEvaluation(startingSprite: nat, ghost s: Scene)
      requires Valid() && s == TheScene() && startingSprite < 64
      modifies this`spriteOverflowCycle
      ensures spriteOverflowCycle <= old(spriteOverflowCycle)
      ensures DiagonalFrom(s, currentLine, startingSprite) ==> spriteOverflowCycle != UINT_MAX
      ensures !DiagonalFrom(s, currentLine, startingSprite) ==> spriteOverflowCycle == old(spriteOverflowCycle)
      ensures forall n :: startingSprite <= n < 64 && FirstHit(s, currentLine, startingSprite, n) ==>
        var cycle := 113 + 2 * n + if Rendering(mask) then 1 else 0;
        spriteOverflowCycle == if old(spriteOverflowCycle) > cycle then cycle else old(spriteOverflowCycle)
    {
      hide InRange, FirstHit, DiagonalFrom;
      var n := startingSprite;
      var m := 0;
      while n < 64
        invariant startingSprite <= n <= 64 && m == (n - startingSprite) % 4
        invariant forall k :: startingSprite <= k < n ==> !DiagonalHit(s, currentLine, startingSprite, k)
        invariant spriteOverflowCycle == old(spriteOverflowCycle)
      {
        var y := oam[n * 4 + m];
        if InRange(y, currentLine, Height(ctrl)) {
          OnlyFirst(s, currentLine, startingSprite, n);
          var count := 65 + 48 + n * 2 + if Rendering(mask) then 1 else 0;
          if spriteOverflowCycle > count {
            spriteOverflowCycle := count;
          }
          return;
        }
        m := (m + 1) % 4;
        n := n + 1;
      }
      NoneFirst(s, currentLine, startingSprite);
    }

    /** Secondary OAM lists exactly the sprites of l. */
    ghost predicate Found(s: Scene, l: seq<nat>)
      requires secondaryOam.Length == 8 && WellFormed(s) && forall m :: 0 <= m < |l| ==> l[m] < 64
      reads secondaryOam
    {
      forall k :: 0 <= k < 8 ==> secondaryOam[k] == Listed(s, l, k)
    }

    method ClearSecondary(ghost s: Scene)
      requires Valid() && WellFormed(s)
      modifies secondaryOam
      ensures Found(s, [])
    {
      for k := 0 to 8
        invariant forall m :: 0 <= m < k ==> secondaryOam[m] == EMPTY
      {
        secondaryOam[k] := EMPTY;
      }
    }

    /** Sprite i joins the list when it touches the line. */
    method ConsiderSprite(i: nat, found: nat, ghost s: Scene) returns (found': nat)
      requires Valid() && s == TheScene() && i < 64
      requires found == |Touching(s, currentLine, i)| < 8 && Found(s, Touching(s, currentLine, i))
      modifies secondaryOam
      ensures found' == |Touching(s, currentLine, i + 1)| <= 8 && Found(s, Touching(s, currentLine, i + 1))
      ensures found' == 8 ==> found == 7
    {
      hide InRange, Tagged;
      found' := found;
      var sp := Sprite(oam[4 * i], oam[4 * i + 1], oam[4 * i + 2], oam[4 * i + 3]);
      if InRange(sp.y, currentLine, Height(ctrl)) {
        secondaryOam[found] := Tagged(sp, i);
        found' := found + 1;
      }
    }

    method SpriteEvaluation(ghost s: Scene)
      requires Valid() && s == TheScene()
      requires spriteOverflowCycle <= UINT_MAX
      modifies this`spriteOverflowCycle, secondaryOam
      ensures SecondaryReady(s, currentLine)
      ensures spriteOverflowCycle <= UINT_MAX
      ensures spriteOverflowCycle != UINT_MAX <==> old(spriteOverflowCycle) != UINT_MAX || Overflows(s, currentLine)
    {
      hide InRange, Listed, DiagonalFrom, Overflows, Touching;
      ClearSecondary(s);
      var found := 0;
      var i := 0;
      TouchingNone(s, currentLine);
      while i < 64
        invariant i <= 64 && found == |Touching(s, currentLine, i)| <= 8
        invariant found == 8 ==> 0 < i && |Touching(s, currentLine, i - 1)| == 7
        invariant Found(s, Touching(s, currentLine, i))
        invariant spriteOverflowCycle == old(spriteOverflowCycle)
      {
        if found == 8 {
          TouchingPrefix(s, currentLine, i, 64);
          assert FirstEight(s, currentLine) == Touching(s, currentLine, i);
          DoBuggyOverflowEvaluation(i, s);
          OverflowsFrom(s, currentLine, i);
          return;
        }
        found := ConsiderSprite(i, found, s);
        i := i + 1;
      }
      TouchingPrefix(s, currentLine, 63, 64);
      NoOverflow(s, currentLine);
    }

    /** Fetches the two pattern bytes of each evaluated sprite, 64 ticks in all. */
    method PrefetchSprites(ghost s: Scene)
      requires Valid() && s == TheScene()
      requires Rendering(mask) ==> SecondaryReady(s, currentLine)
      modifies this`clocks, prefetchedSprites
      ensures Rendering(mask) ==> SpritesReady(s, currentLine)
      ensures clocks == old(clocks) + 64
    {
      hide Rendering;
      for i := 0 to 8
        invariant clocks == old(clocks) + 8 * i
        invariant Rendering(mask) ==> SecondaryReady(s, currentLine)
        invariant Rendering(mask) ==> forall k :: 0 <= k < i ==> SlotHolds(s, currentLine, k, prefetchedSprites[k])
      {
        PrefetchSprite(i, s);
      }
    }

    method PrefetchSprite(i: nat, ghost s: Scene)
      requires Valid() && s == TheScene() && i < 8
      modifies this`clocks, prefetchedSprites
      ensures forall k :: 0 <= k < 8 && k != i ==> prefetchedSprites[k] == old(prefetchedSprites[k])
      ensures secondaryOam[i] == Secondary(s, currentLine, i) ==> SlotHolds(s, currentLine, i, prefetchedSprites[i])
      ensures clocks == old(clocks) + 8
    {
      hide InRange, Tagged, Value, FirstEight, SpriteAddress, SpriteRow, FetchAddress;
      var data := secondaryOam[i];
      var addr := FetchAddress(data, ctrl, currentLine);
      Cycle(2 + 2); // two dummy reads
      var patternLow := PpuRead(addr);
      Cycle(2);
      var patternHigh := PpuRead(addr + 8);
      Cycle(2);
      if Value(data.y) >= 0xEF {
        prefetchedSprites[i] := prefetchedSprites[i].(attr := 0xFF);
      } else {
        prefetchedSprites[i] := Prefetched(data.x, data.attr, patternHigh, patternLow);
      }
      if data == Secondary(s, currentLine, i) {
        SlotFilled(s, currentLine, i, data, prefetchedSprites[i]);
      }
    }

    // ---- tiles and lines -----------------------------------------------------

    /** One pixel clock of the shifters, the n-th since they held the given words. */
    method Shift(ghost lo: bv16, ghost hi: bv16, ghost atLo: bv8, ghost atHi: bv8, ghost n: nat)
      requires tileLo == Shl(lo, n) && tileHi == Shl(hi, n)
      requires attrShiftLo == ShlFill(atLo, attrLatchLo, n) && attrShiftHi == ShlFill(atHi, attrLatchHi, n)
      modifies this`tileLo, this`tileHi, this`attrShiftLo, this`attrShiftHi
      ensures tileLo == Shl(lo, n + 1) && tileHi == Shl(hi, n + 1)
      ensures attrShiftLo == ShlFill(atLo, attrLatchLo, n + 1) && attrShiftHi == ShlFill(atHi, attrLatchHi, n + 1)
    {
      hide Push, PushBit;
      tileLo := Push(tileLo);
      tileHi := Push(tileHi);
      attrShiftLo := PushBit(attrShiftLo, attrLatchLo);
      attrShiftHi := PushBit(attrShiftHi, attrLatchHi);
    }

    /** One pixel and one clock of the shifters, the i-th since they held the given words. */
    method RenderPixel(j: nat, i: nat, ghost s: Scene, ghost r: Row, ghost f: seq<Shot>, ghost first: nat,
        ghost lo: bv16, ghost hi: bv16, ghost atLo: bv8, ghost atHi: bv8)
      requires Valid() && s == TheScene() && j < 32 && i < 8 && currentLine < 240
      requires Shows(f, currentLine, s, r)
      requires Rendering(mask) ==>
        && Loaded(s, r, j, lo, hi, atLo, atHi, attrLatchLo, attrLatchHi)
        && SpritesReady(s, EvaluationLine(first, currentLine))
      requires tileLo == Shl(lo, i) && tileHi == Shl(hi, i)
      requires attrShiftLo == ShlFill(atLo, attrLatchLo, i) && attrShiftHi == ShlFill(atHi, attrLatchHi, i)
      requires Drawn(f, first, 256 * currentLine + 8 * j + i)
      modifies this`tileLo, this`tileHi, this`attrShiftLo, this`attrShiftHi, this`sprite0HitCycle, framebuffer
      ensures tileLo == Shl(lo, i + 1) && tileHi == Shl(hi, i + 1)
      ensures attrShiftLo == ShlFill(atLo, attrLatchLo, i + 1) && attrShiftHi == ShlFill(atHi, attrLatchHi, i + 1)
      ensures Drawn(f, first, 256 * currentLine + 8 * j + i + 1)
    {
      hide Shows, TheScene, Loaded, Rendering, SpritesReady, Drawn, BackgroundDot, Value, Pair, Tap16, Tap8;
      hide Shl, ShlFill;
      if Rendering(mask) {
        BackgroundTap(s, r, j, i, lo, hi, atLo, atHi, attrLatchLo, attrLatchHi);
      }
      DrawPixel(j, i, s, r, f, first);
      Shift(lo, hi, atLo, atHi, i);
    }

    /** Eight pixels. */
    method RenderPixels(j: nat, ghost s: Scene, ghost r: Row, ghost f: seq<Shot>, ghost first: nat)
      requires Valid() && s == TheScene() && j < 32 && currentLine < 240
      requires Shows(f, currentLine, s, r)
      requires Rendering(mask) ==>
        BackgroundReady(s, r, j) && SpritesReady(s, EvaluationLine(first, currentLine))
      requires Drawn(f, first, 256 * currentLine + 8 * j)
      modifies this`tileLo, this`tileHi, this`attrShiftLo, this`attrShiftHi, this`sprite0HitCycle, framebuffer
      ensures tileLo == Shl(old(tileLo), 8) && tileHi == Shl(old(tileHi), 8)
      ensures attrShiftLo == ShlFill(old(attrShiftLo), attrLatchLo, 8)
      ensures attrShiftHi == ShlFill(old(attrShiftHi), attrLatchHi, 8)
      ensures Drawn(f, first, 256 * currentLine + 8 * j + 8)
    {
      hide TheScene, Loaded, Rendering, SpritesReady, Drawn, Shl, ShlFill, ColumnOf, RowOf, ScreenColumn;
      ghost var lo, hi, atLo, atHi := tileLo, tileHi, attrShiftLo, attrShiftHi;
      NoShift(lo, hi, atLo, atHi, attrLatchLo, attrLatchHi);
      for i := 0 to 8
        invariant s == TheScene()
        invariant tileLo == Shl(lo, i) && tileHi == Shl(hi, i)
        invariant attrShiftLo == ShlFill(atLo, attrLatchLo, i) && attrShiftHi == ShlFill(atHi, attrLatchHi, i)
        invariant Drawn(f, first, 256 * currentLine + 8 * j + i)
      {
        RenderPixel(j, i, s, r, f, first, lo, hi, atLo, atHi);
      }
    }

    method RenderTile(j: nat, ghost s: Scene, ghost r: Row, ghost f: seq<Shot>, ghost first: nat)
      requires Valid() && s == TheScene() && j < 32 && currentLine < 240
      requires Shows(f, currentLine, s, r)
      requires Rendering(mask) ==>
        BackgroundReady(s, r, j) && SpritesReady(s, EvaluationLine(first, currentLine))
      requires Drawn(f, first, 256 * currentLine + 8 * j)
      modifies this`tileLo, this`tileHi, this`attrShiftLo, this`attrShiftHi, this`sprite0HitCycle, framebuffer
      ensures Rendering(mask) ==> BackgroundDrained(s, r, j + 1)
      ensures Drawn(f, first, 256 * currentLine + 8 * j + 8)
    {
      hide Shows, Rendering, SpritesReady, Drawn, Word, Spread, Shl, ShlFill, TheScene;
      hide ColumnOf, ScreenColumn, RowOf, TileLow, TileHigh, AttributeLow, AttributeHigh;
      if Rendering(mask) {
        ghost var c0, c1 := ScreenColumn(s.t, j), ScreenColumn(s.t, j + 1);
        EightShifts(tileLo, TileLow(s, c0, r), TileLow(s, c1, r));
        EightShifts(tileHi, TileHigh(s, c0, r), TileHigh(s, c1, r));
        EightFills(attrShiftLo, attrLatchLo);
        EightFills(attrShiftHi, attrLatchHi);
      }
      RenderPixels(j, s, r, f, first);
    }

    /** Eight clocks of the attribute shifters alone. */
    method RefillAttributes()
      requires attrLatchLo < 2 && attrLatchHi < 2
      modifies this`attrShiftLo, this`attrShiftHi
      ensures attrShiftLo == Spread(attrLatchLo) && attrShiftHi == Spread(attrLatchHi)
    {
      hide Spread, PushBit;
      ghost var atLo, atHi := attrShiftLo, attrShiftHi;
      for i := 0 to 8
        invariant attrShiftLo == ShlFill(atLo, attrLatchLo, i) && attrShiftHi == ShlFill(atHi, attrLatchHi, i)
      {
        attrShiftLo := PushBit(attrShiftLo, attrLatchLo);
        attrShiftHi := PushBit(attrShiftHi, attrLatchHi);
      }
      EightFills(atLo, attrLatchLo);
      EightFills(atHi, attrLatchHi);
    }

    /** The freshly loaded low bytes move up. */
    method ByteUp(ghost lo: bv16, ghost hi: bv16, ghost newLo: bv8, ghost newHi: bv8)
      requires tileLo == WithLow(lo, newLo) && tileHi == WithLow(hi, newHi)
      modifies this`tileLo, this`tileHi
      ensures tileLo == Word(newLo, 0) && tileHi == Word(newHi, 0)
    {
      MoveUp(lo, newLo);
      MoveUp(hi, newHi);
      hide WithLow, Word;
      tileLo := tileLo << 8;
      tileHi := tileHi << 8;
    }

    /** The prefetched tile becomes the upper half of the shifters. */
    method LoadFirstTile()
      requires prefetchedAtLo < 2 && prefetchedAtHi < 2
      modifies this`tileLo, this`tileHi, this`attrShiftLo, this`attrShiftHi, this`attrLatchLo, this`attrLatchHi
      ensures tileLo == Word(prefetchedBgLo, 0) && tileHi == Word(prefetchedBgHi, 0)
      ensures attrShiftLo == Spread(prefetchedAtLo) && attrShiftHi == Spread(prefetchedAtHi)
    {
      hide Word, WithLow, Spread;
      ReloadShifts();
      ByteUp(old(tileLo), old(tileHi), prefetchedBgLo, prefetchedBgHi);
      RefillAttributes();
    }

    /** The first tile of the next line, alone in the shifters. */
    method PrefetchFirstTile(ghost s: Scene, ghost r: Row)
      requires Valid() && s == TheScene()
      requires Rendering(mask) ==> ColumnOf(v) == ColumnOf(t) && RowOf(v) == r
      modifies this`clocks, this`v, this`tileLo, this`tileHi
      modifies this`attrShiftLo, this`attrShiftHi, this`attrLatchLo, this`attrLatchHi
      modifies this`prefetchedBgLo, this`prefetchedBgHi, this`prefetchedAtLo, this`prefetchedAtHi
      ensures Rendering(mask) ==> BackgroundDrained(s, r, 0)
      ensures s == TheScene()
      ensures clocks == old(clocks) + 8
    {
      hide TheScene, Rendering, ColumnOf, RowOf, TileLow, TileHigh, AttributeLow, AttributeHigh;
      hide Word, Spread, ScreenColumn;
      FirstScreenColumn(t);
      NextScreenColumn(t, 0);
      FetchNextTile(s);
      LoadFirstTile();
    }

    /** The two tiles fetched at the end of a line fill the shifters for the next. */
    method PrefetchTwoTiles(ghost s: Scene, ghost r: Row)
      requires Valid() && s == TheScene()
      requires Rendering(mask) ==> ColumnOf(v) == ColumnOf(t) && RowOf(v) == r
      modifies this`clocks, this`v, this`tileLo, this`tileHi
      modifies this`attrShiftLo, this`attrShiftHi, this`attrLatchLo, this`attrLatchHi
      modifies this`prefetchedBgLo, this`prefetchedBgHi, this`prefetchedAtLo, this`prefetchedAtHi
      ensures Rendering(mask) ==> BackgroundReady(s, r, 0)
      ensures s == TheScene()
      ensures clocks == old(clocks) + 16
    {
      hide TheScene, Rendering, ColumnOf, RowOf, BackgroundDrained, BackgroundReady;
      PrefetchFirstTile(s, r);
      FetchAndReload(s, r, 0);
    }

    // ---- scanlines -----------------------------------------------------------

    /** The last four ticks of a line; on the pre-render line of an odd frame they
        decide whether line 0 starts one tick early. */
    method DoUnusedNtFetches()
      requires |vram| == 0x10000
      modifies this`clocks, this`skipCycle
      ensures clocks == old(clocks) + 4
      ensures skipCycle == (currentLine == 261 && oddFrame && Rendering(mask))
    {
      hide Rendering, NameTableFetch;
      var ntAddr := NameTableFetch(v);
      var dummy := PpuRead(ntAddr);
      Cycle(1);
      skipCycle := currentLine == 261 && oddFrame && Rendering(mask);
      Cycle(1);
      dummy := PpuRead(ntAddr);
      Cycle(2);
    }

    method SetUnreadFlags()
      modifies this`sprite0HitCycle, this`spriteOverflowCycle
      ensures sprite0HitCycle == if old(sprite0HitCycle) != UINT_MAX then 0 else UINT_MAX
      ensures spriteOverflowCycle == if old(spriteOverflowCycle) != UINT_MAX then 0 else UINT_MAX
    {
      if sprite0HitCycle != UINT_MAX {
        sprite0HitCycle := 0;
      }
      if spriteOverflowCycle != UINT_MAX {
        spriteOverflowCycle := 0;
      }
    }

    method EndLine(ghost ticks: nat)
      modifies this`currentLine, this`clocks, this`sprite0HitCycle, this`spriteOverflowCycle, this`log
      ensures currentLine == old(currentLine) + 1 && clocks == 0
      ensures sprite0HitCycle == if old(sprite0HitCycle) != UINT_MAX then 0 else UINT_MAX
      ensures spriteOverflowCycle == if old(spriteOverflowCycle) != UINT_MAX then 0 else UINT_MAX
      ensures log == old(log) + [(old(currentLine), ticks)]
    {
      log := log + [(currentLine, ticks)];
      currentLine := currentLine + 1;
      clocks := 0;
      SetUnreadFlags();
    }

    /** The overflow flag stands exactly when one of the first n evaluated lines
        overflowed. */
    ghost predicate OverflowKnown(f: seq<Shot>, first: nat, n: nat)
      requires Film(f) && n <= 241
      reads this`spriteOverflowCycle
    {
      && spriteOverflowCycle <= UINT_MAX
      && (spriteOverflowCycle != UINT_MAX <==> OverflowBefore(f, first, n))
    }

    /** The end of a drawn line forgets at which dots the flags were raised, not that they were. */
    method CloseLine(ghost ticks: nat, ghost f: seq<Shot>, ghost first: nat, ghost pixels: nat, ghost lines: nat)
      requires Valid() && Film(f) && pixels <= 240 * 256 && lines <= 241
      requires Drawn(f, first, pixels) && OverflowKnown(f, first, lines)
      modifies this`currentLine, this`clocks, this`sprite0HitCycle, this`spriteOverflowCycle, this`log
      ensures currentLine == old(currentLine) + 1 && clocks == 0
      ensures Drawn(f, first, pixels) && OverflowKnown(f, first, lines)
      ensures log == old(log) + [(old(currentLine), ticks)]
    {
      hide Film, OverlapBefore, OverflowBefore, Pixel;
      EndLine(ticks);
    }

    /** Everything the pipeline holds when visible line `line` begins. */
    ghost predicate LineStart(f: seq<Shot>, first: nat, line: nat)
      requires framebuffer.Length == 240 * 256 && prefetchedSprites.Length == 8 && Film(f) && line <= 240
      reads this`tileLo, this`tileHi, this`attrShiftLo, this`attrShiftHi, this`attrLatchLo, this`attrLatchHi, this`v
      reads this`sprite0HitCycle, this`spriteOverflowCycle, framebuffer, prefetchedSprites
    {
      var s, r := f[line].scene, f[line].row;
      && (Rendering(s.mask) ==> BackgroundReady(s, r, 0) && SpritesReady(s, EvaluationLine(first, line)))
      && Drawn(f, first, 256 * line)
      && OverflowKnown(f, first, line + 1)
    }

    method IdleTick()
      modifies this`clocks
      ensures clocks == old(clocks) + if skipCycle then 0 else 1
    {
      if !skipCycle {
        Cycle(1);
      }
    }

    method ClearFlags()
      modifies this`status, this`sprite0HitCycle, this`spriteOverflowCycle
      ensures sprite0HitCycle == UINT_MAX && spriteOverflowCycle == UINT_MAX
      ensures status == Without(Without(old(status), SPRITE0_HIT), SPRITE_OVERFLOW)
    {
      hide Without;
      status := Without(status, SPRITE0_HIT);
      sprite0HitCycle := UINT_MAX;
      status := Without(status, SPRITE_OVERFLOW);
      spriteOverflowCycle := UINT_MAX;
    }

    /** Evaluates the line's sprites when rendering; `n` lines were evaluated before. */
    method EvaluateWhenRendering(ghost s: Scene, ghost f: seq<Shot>, ghost first: nat, ghost n: nat)
      requires Valid() && s == TheScene() && currentLine == EvaluationLine(first, n)
      requires Film(f) && n < 241 && f[if n == 0 then 0 else n - 1].scene == s
      requires OverflowKnown(f, first, n)
      modifies this`spriteOverflowCycle, secondaryOam
      ensures Rendering(mask) ==> SecondaryReady(s, currentLine)
      ensures OverflowKnown(f, first, n + 1)
    {
      hide Rendering, Overflows, SecondaryReady, OverflowBefore;
      OverflowNext(f, first, n);
      if Rendering(mask) {
        SpriteEvaluation(s);
      }
    }

    /** After the last tile of a line: one row down, back to the left edge. */
    method NextLineScroll(ghost s: Scene)
      requires Valid() && s == TheScene()
      modifies this`v
      ensures s == TheScene()
      ensures Rendering(mask) ==> ColumnOf(v) == ColumnOf(t) && RowOf(v) == NextRow(RowOf(old(v)))
    {
      hide Rendering, RowOf, ColumnOf, PageOf, NextRow;
      if Rendering(mask) {
        YIncrement();
        ResetHorizontalScroll();
      }
    }

    method ResetVerticalWhenRendering(ghost s: Scene)
      requires Valid() && s == TheScene()
      modifies this`v
      ensures s == TheScene() && ColumnOf(v) == ColumnOf(old(v))
      ensures Rendering(mask) ==> RowOf(v) == RowOf(t)
    {
      hide Rendering, RowOf, ColumnOf, PageOf;
      if Rendering(mask) {
        ResetVerticalScroll();
      }
    }

    /** Two tiles ahead and the four closing ticks. */
    method FetchAhead(ghost s: Scene, ghost r: Row)
      requires Valid() && s == TheScene()
      requires Rendering(mask) ==> ColumnOf(v) == ColumnOf(t) && RowOf(v) == r
      modifies this`clocks, this`v, this`skipCycle, this`tileLo, this`tileHi
      modifies this`attrShiftLo, this`attrShiftHi, this`attrLatchLo, this`attrLatchHi
      modifies this`prefetchedBgLo, this`prefetchedBgHi, this`prefetchedAtLo, this`prefetchedAtHi
      ensures Rendering(mask) ==> BackgroundReady(s, r, 0)
      ensures s == TheScene()
      ensures clocks == old(clocks) + 20
      ensures skipCycle == (currentLine == 261 && oddFrame && Rendering(mask))
    {
      hide TheScene, Rendering, ColumnOf, RowOf, PageOf, BackgroundReady;
      PrefetchTwoTiles(s, r);
      DoUnusedNtFetches();
    }

    /** First 257 ticks of the pre-render line. */
    method BeginPreRender(ghost s: Scene, ghost f: seq<Shot>)
      requires Valid() && s == TheScene() && Film(f) && f[0].scene == s
      modifies this`status, this`sprite0HitCycle, this`spriteOverflowCycle, this`clocks, this`v
      modifies this`tileLo, this`tileHi, this`attrLatchLo, this`attrLatchHi
      modifies this`prefetchedBgLo, this`prefetchedBgHi, this`prefetchedAtLo, this`prefetchedAtHi
      modifies secondaryOam
      ensures s == TheScene()
      ensures Rendering(mask) ==> SecondaryReady(s, currentLine)
      ensures Drawn(f, currentLine, 0) && OverflowKnown(f, currentLine, 1)
      ensures status == Cleared(old(status))
      ensures clocks == old(clocks) + if skipCycle then 256 else 257
    {
      hide TheScene, Film, Rendering, PageOf, SecondaryReady, Drawn, OverflowKnown, Cleared;
      StartPreRender(f);
      EvaluateWhenRendering(s, f, currentLine, 0);
      BlindFetches(s);
    }

    /** The flags of the last frame go, the first sprite flags before the first tick. */
    method StartPreRender(ghost f: seq<Shot>)
      requires Valid() && Film(f)
      modifies this`status, this`sprite0HitCycle, this`spriteOverflowCycle, this`clocks
      ensures Drawn(f, currentLine, 0) && OverflowKnown(f, currentLine, 0)
      ensures status == Cleared(old(status))
      ensures clocks == old(clocks) + if skipCycle then 0 else 1
    {
      hide Film, OverlapBefore, OverflowBefore, Pixel, Without;
      ClearFlags();
      NothingYet(f, currentLine);
      IdleTick();
      status := Without(status, VERTICAL_BLANK);
    }

    /** The other 84 ticks: the scroll register is reloaded whole. */
    method FinishPreRender(ghost s: Scene)
      requires Valid() && s == TheScene()
      requires Rendering(mask) ==> SecondaryReady(s, currentLine)
      modifies this`clocks, this`v, this`skipCycle, prefetchedSprites
      modifies this`tileLo, this`tileHi, this`attrShiftLo, this`attrShiftHi, this`attrLatchLo, this`attrLatchHi
      modifies this`prefetchedBgLo, this`prefetchedBgHi, this`prefetchedAtLo, this`prefetchedAtHi
      ensures s == TheScene()
      ensures Rendering(mask) ==> BackgroundReady(s, RowOf(s.t), 0) && SpritesReady(s, currentLine)
      ensures skipCycle == (currentLine == 261 && oddFrame && Rendering(mask))
      ensures clocks == old(clocks) + 84
    {
      hide TheScene, Rendering, RowOf, ColumnOf, PageOf, SpritesReady, SecondaryReady, BackgroundReady, NextRow;
      NextLineScroll(s);
      PrefetchSprites(s);
      ResetVerticalWhenRendering(s);
      FetchAhead(s, RowOf(s.t));
    }

    method ScanlinePreRender(ghost s: Scene, ghost f: seq<Shot>)
      requires Valid() && s == TheScene() && Shows(f, 0, s, RowOf(s.t))
      modifies this`status, this`sprite0HitCycle, this`spriteOverflowCycle, this`clocks, this`v, this`skipCycle
      modifies this`tileLo, this`tileHi, this`attrShiftLo, this`attrShiftHi, this`attrLatchLo, this`attrLatchHi
      modifies this`prefetchedBgLo, this`prefetchedBgHi, this`prefetchedAtLo, this`prefetchedAtHi
      modifies this`currentLine, this`log, secondaryOam, prefetchedSprites
      ensures s == TheScene()
      ensures LineStart(f, old(currentLine), 0)
      ensures status == Cleared(old(status))
      ensures currentLine == old(currentLine) + 1 && clocks == 0
      ensures skipCycle == (old(currentLine) == 261 && oddFrame && Rendering(mask))
      ensures log == old(log) + [(old(currentLine), if old(skipCycle) then 340 else 341)]
    {
      hide TheScene, Film, LineStart, Rendering, SecondaryReady, Drawn, OverflowKnown, Cleared;
      ghost var c0 := clocks;
      BeginPreRender(s, f);
      ClosePreRender(s, f, c0);
    }

    method ClosePreRender(ghost s: Scene, ghost f: seq<Shot>, ghost c0: nat)
      requires Valid() && s == TheScene() && clocks == c0 + if skipCycle then 256 else 257
      requires Shows(f, 0, s, RowOf(s.t))
      requires Rendering(mask) ==> SecondaryReady(s, currentLine)
      requires Drawn(f, currentLine, 0) && OverflowKnown(f, currentLine, 1)
      modifies this`sprite0HitCycle, this`spriteOverflowCycle, this`clocks, this`v, this`skipCycle
      modifies this`tileLo, this`tileHi, this`attrShiftLo, this`attrShiftHi, this`attrLatchLo, this`attrLatchHi
      modifies this`prefetchedBgLo, this`prefetchedBgHi, this`prefetchedAtLo, this`prefetchedAtHi
      modifies this`currentLine, this`log, prefetchedSprites
      ensures s == TheScene()
      ensures LineStart(f, old(currentLine), 0)
      ensures currentLine == old(currentLine) + 1 && clocks == 0
      ensures skipCycle == (old(currentLine) == 261 && oddFrame && Rendering(mask))
      ensures log == old(log) + [(old(currentLine), if old(skipCycle) then 340 else 341)]
    {
      hide TheScene, Film, Drawn, OverflowKnown, Rendering, RowOf, SpritesReady, SecondaryReady, BackgroundReady;
      FinishPreRender(s);
      CloseLine(clocks - c0, f, currentLine, 0, 1);
    }

    /** The 32 tile fetches of the pre-render line, which draw nothing. */
    method BlindFetches(ghost s: Scene)
      requires Valid() && s == TheScene()
      modifies this`clocks, this`v, this`tileLo, this`tileHi, this`attrLatchLo, this`attrLatchHi
      modifies this`prefetchedBgLo, this`prefetchedBgHi, this`prefetchedAtLo, this`prefetchedAtHi
      ensures s == TheScene()
      ensures clocks == old(clocks) + 256
    {
      hide Rendering, RowOf, ColumnOf, PageOf, PrefetchHolds, WithLow;
      for i := 0 to 32
        invariant s == TheScene()
        invariant clocks == old(clocks) + 8 * i
      {
        FetchNextTile(s);
        ReloadShifts();
      }
    }

    /** First 257 ticks of a visible line: evaluation for the next line, and the
        line's pixels. */
    method DrawLine(ghost s: Scene, ghost r: Row, ghost f: seq<Shot>, ghost first: nat)
      requires Valid() && s == TheScene() && currentLine < 240 && clocks == 0 && Shows(f, currentLine, s, r)
      requires LineStart(f, first, currentLine)
      modifies this`sprite0HitCycle, this`spriteOverflowCycle, this`clocks, this`v
      modifies this`tileLo, this`tileHi, this`attrShiftLo, this`attrShiftHi, this`attrLatchLo, this`attrLatchHi
      modifies this`prefetchedBgLo, this`prefetchedBgHi, this`prefetchedAtLo, this`prefetchedAtHi
      modifies secondaryOam, framebuffer
      ensures s == TheScene()
      ensures Rendering(mask) ==> SecondaryReady(s, currentLine) && RowOf(v) == r
      ensures Drawn(f, first, 256 * (currentLine + 1)) && OverflowKnown(f, first, currentLine + 2)
      ensures clocks == if skipCycle then 256 else 257
    {
      hide TheScene, Film, Rendering, RowOf, SpritesReady, SecondaryReady, OverflowKnown, Drawn, BackgroundReady;
      IdleTick();
      EvaluateWhenRendering(s, f, first, currentLine + 1);
      DrawTiles(s, r, f, first);
    }

    /** The other 84 ticks: scroll to row r, fetch the next line's sprites and first tiles. */
    method PrepareLine(ghost s: Scene, ghost r: Row)
      requires Valid() && s == TheScene()
      requires Rendering(mask) ==> SecondaryReady(s, currentLine) && NextRow(RowOf(v)) == r
      modifies this`clocks, this`v, this`skipCycle, prefetchedSprites
      modifies this`tileLo, this`tileHi, this`attrShiftLo, this`attrShiftHi, this`attrLatchLo, this`attrLatchHi
      modifies this`prefetchedBgLo, this`prefetchedBgHi, this`prefetchedAtLo, this`prefetchedAtHi
      ensures s == TheScene()
      ensures Rendering(mask) ==> BackgroundReady(s, r, 0) && SpritesReady(s, currentLine)
      ensures skipCycle == (currentLine == 261 && oddFrame && Rendering(mask))
      ensures clocks == old(clocks) + 84
    {
      hide TheScene, Rendering, RowOf, ColumnOf, PageOf, SpritesReady, SecondaryReady, NextRow, BackgroundReady;
      NextLineScroll(s);
      PrefetchSprites(s);
      FetchAhead(s, r);
    }

    /** What a program does in the last of the ticks that draw, before the scroll register
        is stepped. */
    method Program(w: Write, ghost s: Scene)
      requires Valid() && s == TheScene() && Allowed(s, w)
      modifies this`vram, this`ctrl, this`mask, this`t, this`fineX, this`v, palette
      ensures Valid() && TheScene() == Rewritten(s, w)
      ensures RowOf(v) == if w.Rewrite? && w.jump then RowOf(w.t) else RowOf(old(v))
    {
      hide RowOf, PageOf, Height, Rendering;
      if w.Rewrite? {
        vram, ctrl, mask, t, fineX := w.vram, w.ctrl, w.mask, w.t, w.fineX;
        forall i | 0 <= i < 32 { palette[i] := w.palette[i]; }
        assert palette[..] == w.palette;
        if w.jump {
          v := t;
        }
      }
    }

    /** A visible line. It shows what the registers and the memory held from the end of the
        line before, whatever the program writes at its own end. */
    method ScanlineRender(w: Write, ghost f: seq<Shot>, ghost first: nat)
      requires Valid() && currentLine < 240 && clocks == 0 && Film(f) && TheScene() == f[currentLine].scene
      requires LineStart(f, first, currentLine)
      requires Allowed(f[currentLine].scene, w) && f[currentLine + 1] == NextShot(f[currentLine], w)
      modifies this`sprite0HitCycle, this`spriteOverflowCycle, this`clocks, this`v, this`skipCycle
      modifies this`tileLo, this`tileHi, this`attrShiftLo, this`attrShiftHi, this`attrLatchLo, this`attrLatchHi
      modifies this`prefetchedBgLo, this`prefetchedBgHi, this`prefetchedAtLo, this`prefetchedAtHi
      modifies this`vram, this`ctrl, this`mask, this`t, this`fineX, palette
      modifies this`currentLine, this`log, secondaryOam, prefetchedSprites, framebuffer
      ensures Valid() && currentLine == old(currentLine) + 1 && clocks == 0
      ensures TheScene() == f[currentLine].scene
      ensures LineStart(f, first, currentLine)
      ensures !skipCycle
      ensures log == old(log) + [(old(currentLine), if old(skipCycle) then 340 else 341)]
    {
      hide TheScene, Rendering, RowOf, NextRow, SecondaryReady, Drawn, OverflowKnown, LineStart, Rewritten, Allowed;
      ghost var s, r := f[currentLine].scene, f[currentLine].row;
      ghost var n := Rewritten(s, w);
      DrawLine(s, r, f, first);
      Program(w, s);
      KeepsSecondary(s, w, currentLine);
      EndVisibleLine(n, f[currentLine + 1].row, f, first);
    }

    /** The sprites found on a line stay those of the line. */
    lemma KeepsSecondary(s: Scene, w: Write, line: nat)
      requires secondaryOam.Length == 8 && WellFormed(s) && Allowed(s, w)
      ensures var n := Rewritten(s, w);
        && WellFormed(n) && Rendering(n.mask) == Rendering(s.mask)
        && (SecondaryReady(s, line) ==> SecondaryReady(n, line))
    {
      RewrittenKeeps(s, w);
      SameSecondary(s, Rewritten(s, w), line);
    }

    /** The last 84 ticks of a visible line and the start of the next. */
    method EndVisibleLine(ghost s: Scene, ghost r: Row, ghost f: seq<Shot>, ghost first: nat)
      requires Valid() && s == TheScene() && currentLine < 240 && Shows(f, currentLine + 1, s, r)
      requires Rendering(mask) ==> SecondaryReady(s, currentLine) && NextRow(RowOf(v)) == r
      requires Drawn(f, first, 256 * (currentLine + 1)) && OverflowKnown(f, first, currentLine + 2)
      modifies this`sprite0HitCycle, this`spriteOverflowCycle, this`clocks, this`v, this`skipCycle
      modifies this`tileLo, this`tileHi, this`attrShiftLo, this`attrShiftHi, this`attrLatchLo, this`attrLatchHi
      modifies this`prefetchedBgLo, this`prefetchedBgHi, this`prefetchedAtLo, this`prefetchedAtHi
      modifies this`currentLine, this`log, prefetchedSprites
      ensures s == TheScene()
      ensures currentLine == old(currentLine) + 1 && clocks == 0
      ensures LineStart(f, first, currentLine)
      ensures !skipCycle
      ensures log == old(log) + [(old(currentLine), old(clocks) + 84)]
    {
      hide TheScene, Film, Rendering, RowOf, SpritesReady, SecondaryReady, Drawn, OverflowKnown, NextRow;
      hide BackgroundReady;
      PrepareLine(s, r);
      CloseLine(clocks, f, first, 256 * (currentLine + 1), currentLine + 2);
    }

    /** The 32 tiles of a visible line. */
    method DrawTiles(ghost s: Scene, ghost r: Row, ghost f: seq<Shot>, ghost first: nat)
      requires Valid() && s == TheScene() && currentLine < 240 && Shows(f, currentLine, s, r)
      requires Rendering(mask) ==>
        BackgroundReady(s, r, 0) && SpritesReady(s, EvaluationLine(first, currentLine))
      requires Drawn(f, first, 256 * currentLine)
      modifies this`clocks, this`v, this`tileLo, this`tileHi, this`attrShiftLo, this`attrShiftHi
      modifies this`attrLatchLo, this`attrLatchHi, this`sprite0HitCycle, framebuffer
      modifies this`prefetchedBgLo, this`prefetchedBgHi, this`prefetchedAtLo, this`prefetchedAtHi
      ensures s == TheScene()
      ensures Rendering(mask) ==> RowOf(v) == r
      ensures Drawn(f, first, 256 * (currentLine + 1))
      ensures clocks == old(clocks) + 256
    {
      hide TheScene, Film, Rendering, RowOf, ColumnOf, PageOf, SpritesReady, Drawn, EvaluationLine, Loaded;
      hide ScreenColumn;
      for i := 0 to 32
        invariant s == TheScene()
        invariant Rendering(mask) ==> BackgroundReady(s, r, i)
        invariant Drawn(f, first, 256 * currentLine + 8 * i)
        invariant clocks == old(clocks) + 8 * i
      {
        RenderTile(i, s, r, f, first);
        FetchAndReload(s, r, i + 1);
      }
      assert 256 * currentLine + 8 * 32 == 256 * (currentLine + 1);
    }

    method SetVblank()
      modifies this`status
      ensures status == old(status) | VERTICAL_BLANK
    {
      status := status | VERTICAL_BLANK;
    }

    /** A line that draws nothing; line 241 raises the VBlank flag after one tick. */
    method ScanlineIdle()
      requires clocks == 0
      modifies this`status, this`suppressVbl, this`clocks, this`currentLine, this`log
      modifies this`sprite0HitCycle, this`spriteOverflowCycle
      ensures currentLine == old(currentLine) + 1 && clocks == 0
      ensures sprite0HitCycle == if old(sprite0HitCycle) != UINT_MAX then 0 else UINT_MAX
      ensures spriteOverflowCycle == if old(spriteOverflowCycle) != UINT_MAX then 0 else UINT_MAX
      ensures log == old(log) + [(old(currentLine), if skipCycle then 340 else 341)]
      ensures old(currentLine) == 241 ==>
        !suppressVbl && status == if old(suppressVbl) then old(status) else old(status) | VERTICAL_BLANK
      ensures old(currentLine) != 241 ==> suppressVbl == old(suppressVbl) && status == old(status)
    {
      IdleTick();
      if currentLine == 241 {
        if !suppressVbl {
          SetVblank();
        } else {
          suppressVbl := false;
        }
      }
      Cycle(1);
      Cycle(1);
      CycleFast(338);
      EndLine(clocks);
    }

    /** n ticks spent in one suspension through the coroutine's skip counter. */
    method CycleFast(n: nat)
      modifies this`clocks
      ensures clocks == old(clocks) + n
    {
      clocks := clocks + n;
    }

    // ---- the frame -----------------------------------------------------------

    /** The 240 visible lines. */
    method VisibleLines(writes: seq<Write>, ghost f: seq<Shot>, ghost first: nat)
      requires Valid() && currentLine == 0 && clocks == 0 && Made(f, writes) && TheScene() == f[0].scene
      requires LineStart(f, first, 0)
      modifies this`sprite0HitCycle, this`spriteOverflowCycle, this`clocks, this`v, this`skipCycle
      modifies this`tileLo, this`tileHi, this`attrShiftLo, this`attrShiftHi, this`attrLatchLo, this`attrLatchHi
      modifies this`prefetchedBgLo, this`prefetchedBgHi, this`prefetchedAtLo, this`prefetchedAtHi
      modifies this`vram, this`ctrl, this`mask, this`t, this`fineX, palette
      modifies this`currentLine, this`log, secondaryOam, prefetchedSprites, framebuffer
      ensures Valid() && currentLine == 240 && clocks == 0 && !skipCycle
      ensures TheScene() == f[240].scene
      ensures LineStart(f, first, 240)
      ensures log == old(log) + VisibleLog(old(skipCycle), 240)
    {
      hide TheScene, LineStart, NextShot, Allowed;
      for i := 0 to 240
        invariant Valid() && currentLine == i && clocks == 0
        invariant TheScene() == f[i].scene
        invariant LineStart(f, first, i)
        invariant skipCycle == (i == 0 && old(skipCycle))
        invariant log == old(log) + VisibleLog(old(skipCycle), i)
      {
        assert MadeAt(f, writes, i);
        ScanlineRender(writes[i], f, first);
      }
    }

    /** Lines 240 to 260. */
    method BlankLines()
      requires currentLine == 240 && clocks == 0 && !skipCycle
      modifies this`status, this`suppressVbl, this`clocks, this`currentLine, this`log
      modifies this`sprite0HitCycle, this`spriteOverflowCycle
      ensures currentLine == 261 && clocks == 0
      ensures sprite0HitCycle == if old(sprite0HitCycle) != UINT_MAX then 0 else UINT_MAX
      ensures spriteOverflowCycle == if old(spriteOverflowCycle) != UINT_MAX then 0 else UINT_MAX
      ensures log == old(log) + BlankLog(21)
      ensures !suppressVbl && status == if old(suppressVbl) then old(status) else old(status) | VERTICAL_BLANK
    {
      for i := 240 to 261
        invariant currentLine == i && clocks == 0
        invariant i == 240 ==> sprite0HitCycle == old(sprite0HitCycle)
        invariant i == 240 ==> spriteOverflowCycle == old(spriteOverflowCycle)
        invariant i > 240 ==> sprite0HitCycle == if old(sprite0HitCycle) != UINT_MAX then 0 else UINT_MAX
        invariant i > 240 ==> spriteOverflowCycle == if old(spriteOverflowCycle) != UINT_MAX then 0 else UINT_MAX
        invariant log == old(log) + BlankLog(i - 240)
        invariant i <= 241 ==> suppressVbl == old(suppressVbl) && status == old(status)
        invariant i > 241 ==>
          !suppressVbl && status == if old(suppressVbl) then old(status) else old(status) | VERTICAL_BLANK
      {
        ScanlineIdle();
      }
    }

    lemma MadeShows(f: seq<Shot>, writes: seq<Write>, s: Scene)
      requires Made(f, writes) && f[0] == Shot(s, RowOf(s.t))
      ensures Film(f) && |f| == 241 && Shows(f, 0, s, RowOf(s.t))
    {
      hide RowOf, MadeAt;
    }

    /** The scanlines of one frame. */
    method FrameLines(writes: seq<Write>, ghost f: seq<Shot>)
      requires Valid() && Made(f, writes) && f[0] == Shot(TheScene(), RowOf(t))
      modifies this`status, this`suppressVbl, this`sprite0HitCycle, this`spriteOverflowCycle
      modifies this`clocks, this`v, this`skipCycle, this`currentLine, this`log
      modifies this`tileLo, this`tileHi, this`attrShiftLo, this`attrShiftHi, this`attrLatchLo, this`attrLatchHi
      modifies this`prefetchedBgLo, this`prefetchedBgHi, this`prefetchedAtLo, this`prefetchedAtHi
      modifies this`vram, this`ctrl, this`mask, this`t, this`fineX, palette
      modifies secondaryOam, prefetchedSprites, framebuffer
      ensures Valid() && TheScene() == f[240].scene
      ensures Drawn(f, old(currentLine), 240 * 256) && OverflowKnown(f, old(currentLine), 241)
      ensures var skipZero := old(currentLine) == 261 && oddFrame && Rendering(old(mask));
        log == old(log) + FrameLog(old(currentLine), old(skipCycle), skipZero)
      ensures currentLine == 261 && clocks == 0 && !skipCycle && !suppressVbl
      ensures status == if old(suppressVbl) then Cleared(old(status)) else Cleared(old(status)) | VERTICAL_BLANK
    {
      hide TheScene, Made, Film, Shows, RowOf, Rendering, LineStart, Drawn, OverflowKnown, Cleared, VisibleLog;
      hide BlankLog;
      ghost var first := currentLine;
      MadeShows(f, writes, TheScene());
      ScanlinePreRender(TheScene(), f);
      currentLine := 0;
      LinesBelow(writes, f, first);
    }

    /** All lines but the pre-render line. */
    method LinesBelow(writes: seq<Write>, ghost f: seq<Shot>, ghost first: nat)
      requires Valid() && currentLine == 0 && clocks == 0 && Made(f, writes) && TheScene() == f[0].scene
      requires LineStart(f, first, 0)
      modifies this`status, this`suppressVbl, this`sprite0HitCycle, this`spriteOverflowCycle
      modifies this`clocks, this`v, this`skipCycle, this`currentLine, this`log
      modifies this`tileLo, this`tileHi, this`attrShiftLo, this`attrShiftHi, this`attrLatchLo, this`attrLatchHi
      modifies this`prefetchedBgLo, this`prefetchedBgHi, this`prefetchedAtLo, this`prefetchedAtHi
      modifies this`vram, this`ctrl, this`mask, this`t, this`fineX, palette
      modifies secondaryOam, prefetchedSprites, framebuffer
      ensures Valid() && TheScene() == f[240].scene
      ensures Drawn(f, first, 240 * 256) && OverflowKnown(f, first, 241)
      ensures log == old(log) + VisibleLog(old(skipCycle), 240) + BlankLog(21)
      ensures currentLine == 261 && clocks == 0 && !skipCycle && !suppressVbl
      ensures status == if old(suppressVbl) then old(status) else old(status) | VERTICAL_BLANK
    {
      hide TheScene, MadeAt, Rendering, LineStart, Drawn, OverflowKnown, VisibleLog, BlankLog;
      VisibleLines(writes, f, first);
      FinishFrame(f, first);
    }

    /** The blank lines leave the picture and both sprite flags. */
    method FinishFrame(ghost f: seq<Shot>, ghost first: nat)
      requires Valid() && currentLine == 240 && clocks == 0 && !skipCycle && Film(f)
      requires LineStart(f, first, 240)
      modifies this`status, this`suppressVbl, this`clocks, this`currentLine, this`log
      modifies this`sprite0HitCycle, this`spriteOverflowCycle
      ensures TheScene() == old(TheScene())
      ensures Drawn(f, first, 240 * 256) && OverflowKnown(f, first, 241)
      ensures currentLine == 261 && clocks == 0 && !suppressVbl
      ensures log == old(log) + BlankLog(21)
      ensures status == if old(suppressVbl) then old(status) else old(status) | VERTICAL_BLANK
    {
      hide TheScene, Rendering, BackgroundReady, SpritesReady, OverflowBefore, OverlapBefore, Pixel, BlankLog;
      BlankLines();
    }

    /** One whole frame. At the end of every visible line the program may rewrite video
        memory, palette and registers, and move the picture with the scroll register: each
        line shows what was written by the end of the line before, on the row that the
        scroll register has gone on to. */
    method SplitFrame(writes: seq<Write>, ghost f: seq<Shot>)
      requires Valid() && |writes| == 240 && AllAllowed(TheScene(), writes)
      requires f == Shots(Shot(TheScene(), RowOf(t)), writes)
      modifies this`status, this`suppressVbl, this`sprite0HitCycle, this`spriteOverflowCycle
      modifies this`clocks, this`v, this`skipCycle, this`currentLine, this`log, this`oddFrame, this`frames
      modifies this`tileLo, this`tileHi, this`attrShiftLo, this`attrShiftHi, this`attrLatchLo, this`attrLatchHi
      modifies this`prefetchedBgLo, this`prefetchedBgHi, this`prefetchedAtLo, this`prefetchedAtHi
      modifies this`vram, this`ctrl, this`mask, this`t, this`fineX, palette
      modifies secondaryOam, prefetchedSprites, framebuffer
      ensures Valid() && Film(f) && TheScene() == f[240].scene
      ensures forall x, line :: 0 <= x < 256 && 0 <= line < 240 ==>
        framebuffer[256 * line + x] == LineColour(f[line].scene, EvaluationLine(old(currentLine), line), x, f[line].row)
      ensures forall x, line :: 0 <= x < 256 && 0 <= line < 240 ==>
        Shaded(f[line].scene.mask, Entry(f[line].scene, EvaluationLine(old(currentLine), line), x, f[line].row),
          framebuffer[256 * line + x])
      ensures sprite0HitCycle != UINT_MAX <==>
        exists x, line :: 0 <= x < 256 && 0 <= line < 240 && Hit(f, old(currentLine), x, line)
      ensures spriteOverflowCycle != UINT_MAX <==> OverflowBefore(f, old(currentLine), 241)
      ensures var skipZero := old(currentLine) == 261 && old(oddFrame) && Rendering(old(mask));
        log == old(log) + FrameLog(old(currentLine), old(skipCycle), skipZero)
      ensures currentLine == 261 && clocks == 0 && !skipCycle && !suppressVbl
      ensures oddFrame == !old(oddFrame) && frames == (old(frames) + 1) % 0x1_0000_0000
      ensures status == if old(suppressVbl) then Cleared(old(status)) else Cleared(old(status)) | VERTICAL_BLANK
    {
      hide TheScene, Shots, Made, AllAllowed, RowOf, Shaded, Entry, LineColour, Hit, OverflowBefore, FrameLog;
      hide Rendering, Cleared, EvaluationLine;
      ShotsMade(Shot(TheScene(), RowOf(t)), writes);
      ghost var first := currentLine;
      AnyFrame(writes, f);
      FilmShaded(f, first);
    }

    /** The frame of any film that the writes make. */
    method AnyFrame(writes: seq<Write>, ghost f: seq<Shot>)
      requires Valid() && Made(f, writes) && f[0] == Shot(TheScene(), RowOf(t))
      modifies this`status, this`suppressVbl, this`sprite0HitCycle, this`spriteOverflowCycle
      modifies this`clocks, this`v, this`skipCycle, this`currentLine, this`log, this`oddFrame, this`frames
      modifies this`tileLo, this`tileHi, this`attrShiftLo, this`attrShiftHi, this`attrLatchLo, this`attrLatchHi
      modifies this`prefetchedBgLo, this`prefetchedBgHi, this`prefetchedAtLo, this`prefetchedAtHi
      modifies this`vram, this`ctrl, this`mask, this`t, this`fineX, palette
      modifies secondaryOam, prefetchedSprites, framebuffer
      ensures Valid() && Film(f) && TheScene() == f[240].scene
      ensures forall x, line :: 0 <= x < 256 && 0 <= line < 240 ==>
        framebuffer[256 * line + x] == LineColour(f[line].scene, EvaluationLine(old(currentLine), line), x, f[line].row)
      ensures sprite0HitCycle != UINT_MAX <==>
        exists x, line :: 0 <= x < 256 && 0 <= line < 240 && Hit(f, old(currentLine), x, line)
      ensures spriteOverflowCycle != UINT_MAX <==> OverflowBefore(f, old(currentLine), 241)
      ensures var skipZero := old(currentLine) == 261 && old(oddFrame) && Rendering(old(mask));
        log == old(log) + FrameLog(old(currentLine), old(skipCycle), skipZero)
      ensures currentLine == 261 && clocks == 0 && !skipCycle && !suppressVbl
      ensures oddFrame == !old(oddFrame) && frames == (old(frames) + 1) % 0x1_0000_0000
      ensures status == if old(suppressVbl) then Cleared(old(status)) else Cleared(old(status)) | VERTICAL_BLANK
    {
      hide TheScene, MadeAt, RowOf, Rendering, OverflowBefore, OverlapBefore, Pixel, LineColour, Hit, Cleared, FrameLog;
      FrameLines(writes, f);
      oddFrame := !oddFrame;
      frames := (frames + 1) % 0x1_0000_0000;
      ghost var first := old(currentLine);
      forall x, line | 0 <= x < 256 && 0 <= line < 240
        ensures framebuffer[256 * line + x] == LineColour(f[line].scene, EvaluationLine(first, line), x, f[line].row)
      {
        PixelAt(f, first, x, line);
      }
      HitSomewhere(f, first);
    }

    /** One whole frame in which no program touches the PPU. */
    method RenderFrame(ghost s: Scene)
      requires Valid() && s == TheScene()
      modifies this`status, this`suppressVbl, this`sprite0HitCycle, this`spriteOverflowCycle
      modifies this`clocks, this`v, this`skipCycle, this`currentLine, this`log, this`oddFrame, this`frames
      modifies this`tileLo, this`tileHi, this`attrShiftLo, this`attrShiftHi, this`attrLatchLo, this`attrLatchHi
      modifies this`prefetchedBgLo, this`prefetchedBgHi, this`prefetchedAtLo, this`prefetchedAtHi
      modifies this`vram, this`ctrl, this`mask, this`t, this`fineX, palette
      modifies secondaryOam, prefetchedSprites, framebuffer
      ensures Valid() && s == TheScene()
      // every pixel is the pixel of the picture
      ensures forall x, line :: 0 <= x < 256 && 0 <= line < 240 ==>
        framebuffer[256 * line + x] == Colour(s, old(currentLine), x, line)
      // which is the palette entry of the layer on top, or the grey of it
      ensures forall x, line :: 0 <= x < 256 && 0 <= line < 240 ==>
        Shaded(mask, Entry(s, EvaluationLine(old(currentLine), line), x, RowAt(s.t, line)), framebuffer[256 * line + x])
      // both sprite flags say what happened in this frame
      ensures sprite0HitCycle != UINT_MAX <==>
        exists x, line :: 0 <= x < 256 && 0 <= line < 240 && Overlap(s, old(currentLine), x, line)
      ensures spriteOverflowCycle != UINT_MAX <==>
        Rendering(mask) && exists k :: 0 <= k < 241 && Overflows(s, EvaluationLine(old(currentLine), k))
      // the frame's shape and length
      ensures var skipZero := old(currentLine) == 261 && old(oddFrame) && Rendering(mask);
        log == old(log) + FrameLog(old(currentLine), old(skipCycle), skipZero)
      ensures currentLine == 261 && clocks == 0 && !skipCycle
      ensures oddFrame == !old(oddFrame) && frames == (old(frames) + 1) % 0x1_0000_0000
      ensures !suppressVbl
      ensures status == if old(suppressVbl) then Cleared(old(status)) else Cleared(old(status)) | VERTICAL_BLANK
    {
      hide TheScene, Made, RowOf, RowAt, Rendering, Overflows, OverflowBefore, LineColour, LineOverlap, Cleared;
      hide FrameLog, Shaded, Entry;
      PictureShaded(s, currentLine);
      StillMade(s);
      RowAtStart(s.t);
      StillOverflow(s, currentLine);
      ghost var first := currentLine;
      AnyFrame(seq(240, _ => Keep), Still(s));
      StillPixels(s, first);
    }
  }

  /** What a program leaves in the PPU between two frames. */
  datatype Setup = Setup(vram: seq<bv8>, oam: seq<bv8>, palette: seq<bv8>, ctrl: bv8, mask: bv8, t: bv16, fineX: bv8)

  predicate Proper(u: Setup) {
    |u.vram| == 0x10000 && |u.oam| == 256 && |u.palette| == 32 && u.fineX < 8
  }

  method Load(ppu: PPU, u: Setup)
    requires ppu.Valid() && Proper(u)
    modifies ppu`vram, ppu`ctrl, ppu`mask, ppu`t, ppu`fineX, ppu.oam, ppu.palette
    ensures ppu.Valid()
    ensures ppu.TheScene() == Scene(u.vram, u.oam, u.palette, u.ctrl, u.mask, u.t, u.fineX, PageOf(ppu.v))
  {
    ppu.vram, ppu.ctrl, ppu.mask, ppu.t, ppu.fineX := u.vram, u.ctrl, u.mask, u.t, u.fineX;
    forall i | 0 <= i < 256 { ppu.oam[i] := u.oam[i]; }
    forall i | 0 <= i < 32 { ppu.palette[i] := u.palette[i]; }
    assert ppu.oam[..] == u.oam && ppu.palette[..] == u.palette;
  }

  /** One frame of a new setup. */
  method ShowFrame(ppu: PPU, u: Setup) returns (picture: seq<bv8>)
    requires ppu.Valid() && Proper(u) && PageOf(ppu.v) == 0
    modifies ppu, ppu.oam, ppu.palette, ppu.secondaryOam, ppu.prefetchedSprites, ppu.framebuffer
    ensures ppu.Valid() && PageOf(ppu.v) == 0
    ensures |picture| == 240 * 256
    ensures forall x, line :: 0 <= x < 256 && 0 <= line < 240 ==>
      picture[256 * line + x]
        == Colour(Scene(u.vram, u.oam, u.palette, u.ctrl, u.mask, u.t, u.fineX, 0), old(ppu.currentLine), x, line)
    ensures var skipZero := old(ppu.currentLine) == 261 && old(ppu.oddFrame) && Rendering(u.mask);
      ppu.log == old(ppu.log) + FrameLog(old(ppu.currentLine), old(ppu.skipCycle), skipZero)
    ensures ppu.currentLine == 261 && !ppu.skipCycle && ppu.oddFrame == !old(ppu.oddFrame)
  {
    hide Colour, Overlap, Overflows, Rendering, PageOf, FrameLog, Proper, PPU.TheScene;
    Load(ppu, u);
    ghost var s := ppu.TheScene();
    ppu.RenderFrame(s);
    picture := ppu.framebuffer[..];
  }

  /** Two frames from power-on, with everything rewritten in the vertical blank between
      them: each shows the picture of what was set up for it, and the second is one tick
      shorter exactly when rendering is on. */
  method TwoFrames(u: Setup, w: Setup) returns (one: seq<bv8>, two: seq<bv8>, ghost ticks: nat)
    requires Proper(u) && Proper(w)
    ensures |one| == |two| == 240 * 256
    ensures forall x, line :: 0 <= x < 256 && 0 <= line < 240 ==>
      one[256 * line + x] == Colour(Scene(u.vram, u.oam, u.palette, u.ctrl, u.mask, u.t, u.fineX, 0), 0, x, line)
    ensures forall x, line :: 0 <= x < 256 && 0 <= line < 240 ==>
      two[256 * line + x] == Colour(Scene(w.vram, w.oam, w.palette, w.ctrl, w.mask, w.t, w.fineX, 0), 261, x, line)
    ensures ticks == 2 * 89342 - if Rendering(w.mask) then 1 else 0
  {
    hide Colour, Rendering, PageOf, FrameLog, Ticks, Proper;
    NoPage();
    var ppu := new PPU(seq(0x10000, _ => 0));
    one := ShowFrame(ppu, u);
    assert ppu.log == FrameLog(0, false, false);
    two := ShowFrame(ppu, w);
    FrameTicks(0, false, false);
    FrameTicks(261, false, Rendering(w.mask));
    TicksConcat(FrameLog(0, false, false), FrameLog(261, false, Rendering(w.mask)));
    ticks := Ticks(ppu.log);
  }

  lemma NoPage()
    ensures PageOf(0) == 0
  {}
}
