/** Sprite evaluation and prefetch data, and what they mean in terms of OAM. */
module Sprites {
  import opened Bits
  import opened Picture
  import opened Pixels

  const EMPTY: Sprite := Sprite(0xFF, 0xFF, 0xFF, 0xFF)

  datatype Prefetched = Prefetched(x: bv8, attr: bv8, high: bv8, low: bv8)

  /** An OAM entry as sprite evaluation copies it: bit 3 marks sprite 0. */
  function Tagged(sp: Sprite, i: nat): Sprite {
    sp.(attr := if i == 0 then sp.attr | 0x08 else sp.attr & !0x08)
  }

  /** What slot k of secondary OAM holds after evaluating `line`. */
  function Secondary(s: Scene, line: nat, k: nat): Sprite
    requires WellFormed(s)
  {
    Listed(s, FirstEight(s, line), k)
  }

  /** Entry k of secondary OAM when the sprites found are those of list l. */
  function Listed(s: Scene, l: seq<nat>, k: nat): Sprite
    requires WellFormed(s) && forall m :: 0 <= m < |l| ==> l[m] < 64
  {
    if k < |l| then Tagged(OamSprite(s, l[k]), l[k]) else EMPTY
  }

  /** What sprite slot k holds for drawing the line after `line`. */
  ghost predicate SlotHolds(s: Scene, line: nat, k: nat, p: Prefetched)
    requires WellFormed(s)
  {
    var l := FirstEight(s, line);
    if k < |l| && Drawable(s, l[k]) then
      var sp := OamSprite(s, l[k]);
      var a := SpriteAddress(s, l[k], SpriteRow(s, l[k], line));
      p == Prefetched(sp.x, Tagged(sp, l[k]).attr, s.vram[a + 8], s.vram[a]) && p.attr != 0xFF
    else p.attr == 0xFF
  }

  /** First pattern address of a tile: an 8x16 sprite chooses its table with bit 0. */
  function FetchTile(tile: bv8, ctrl: bv8): (addr: nat)
    ensures addr < 0x2000
  {
    if Height(ctrl) == 16 then Value(tile & 1) * 0x1000 + Value(tile & !1) * 0x10
    else (if ctrl & 0x08 != 0 then 0x1000 else 0x0000) + Value(tile) * 0x10
  }

  /** The row of the sprite on a line; a vertical flip is an xor. */
  function FetchRow(data: Sprite, line: nat, height: nat): bv8
    requires height == 8 || height == 16
  {
    var row := ((line - Value(data.y)) % 256) as bv8;
    if data.attr & 0x80 != 0 then row ^ ((height - 1) as bv8) else row
  }

  /** Pattern address of a secondary OAM entry; rows 8 to 15 are in the next tile. */
  function FetchAddress(data: Sprite, ctrl: bv8, line: nat): (addr: nat)
    ensures addr + 8 < 0x10000
  {
    var row := FetchRow(data, line, Height(ctrl));
    FetchTile(data.tile, ctrl) + Value(row) + Value(row & 8)
  }

  lemma TagBits(attr: bv8)
    ensures (attr | 0x08) & 0x80 == attr & 0x80 && (attr & !0x08) & 0x80 == attr & 0x80
    ensures (attr | 0x08) & 0x40 == attr & 0x40 && (attr & !0x08) & 0x40 == attr & 0x40
    ensures (attr | 0x08) & 0x20 == attr & 0x20 && (attr & !0x08) & 0x20 == attr & 0x20
    ensures (attr | 0x08) & 3 == attr & 3 && (attr & !0x08) & 3 == attr & 3
    ensures (attr | 0x08) & 0x08 == 0x08 && (attr & !0x08) & 0x08 == 0
    ensures attr & !0x08 != 0xFF
  {}

  /** The sprite-0 mark changes no attribute the renderer uses. */
  lemma TaggedAttributes(sp: Sprite, i: nat)
    ensures Tagged(sp, i) == sp.(attr := Tagged(sp, i).attr)
    ensures var a := Tagged(sp, i).attr;
      && a & 0x80 == sp.attr & 0x80 && a & 0x40 == sp.attr & 0x40
      && a & 0x20 == sp.attr & 0x20 && a & 3 == sp.attr & 3
      && (a & 0x08 != 0 <==> i == 0)
      && (i != 0 ==> a != 0xFF)
  {
    TagBits(sp.attr);
  }

  /** Row arithmetic of the sprite fetch: flipping is xor with height-1, and the
      second half of an 8x16 sprite is one tile further. */
  lemma SpriteRowBits(d: nat, height: nat)
    requires (height == 8 || height == 16) && d < height
    ensures Value((d as bv8) ^ ((height - 1) as bv8)) == height - 1 - d
    ensures Value(d as bv8) == d
    ensures Value((d as bv8) & 8) == if d >= 8 then 8 else 0
  {
    if height == 8 { FlipColumn(d); } else { FlipRow16(d); }
  }

  lemma FlipRow16(d: nat)
    requires d < 16
    ensures Value((d as bv8) ^ 15) == 15 - d
    ensures Value(d as bv8) == d
    ensures Value((d as bv8) & 8) == if d >= 8 then 8 else 0
  {}

  lemma TileBits(tile: bv8)
    ensures Value(tile & 1) == Value(tile) % 2
    ensures Value(tile & !1) == Value(tile) - Value(tile) % 2
  {
    TileBitsSplit(tile);
  }

  lemma TileBitsSplit(tile: bv8)
    ensures tile as int == 2 * ((tile >> 1) as int) + ((tile & 1) as int) && 0 <= (tile & 1) as int < 2
    ensures (tile & !1) as int == 2 * ((tile >> 1) as int)
  {}

  /** The address arithmetic of the fetch is the address of the sprite's row. */
  lemma FetchAddressMeaning(s: Scene, i: nat, line: nat)
    requires WellFormed(s) && i < 64 && InRange(OamSprite(s, i).y, line, Height(s.ctrl))
    ensures FetchAddress(Tagged(OamSprite(s, i), i), s.ctrl, line) == SpriteAddress(s, i, SpriteRow(s, i, line))
  {
    hide Value, Tagged, FetchRow, FetchTile, InRange, OamSprite, TallAddress;
    var sp := OamSprite(s, i);
    TaggedAttributes(sp, i);
    FetchRowMeaning(Tagged(sp, i), line, Height(s.ctrl));
    FetchTileMeaning(sp.tile, s.ctrl);
    var row := SpriteRow(s, i, line);
    if row < 16 { TallRow(Value(sp.tile), row); }
  }

  lemma TallRow(tile: nat, row: nat)
    requires tile < 256 && row < 16
    ensures TallAddress(tile, row) == 0x1000 * (tile % 2) + 16 * (tile - tile % 2) + row + if row >= 8 then 8 else 0
  {}

  lemma FetchTileMeaning(tile: bv8, ctrl: bv8)
    ensures FetchTile(tile, ctrl)
         == if Height(ctrl) == 16 then 0x1000 * (Value(tile) % 2) + 16 * (Value(tile) - Value(tile) % 2)
            else (if ctrl & 0x08 != 0 then 0x1000 else 0) + 16 * Value(tile)
  {
    hide Value;
    TileBits(tile);
  }

  /** The row inside the sprite, and the extra tile from row 8 on. */
  lemma FetchRowMeaning(sp: Sprite, line: nat, height: nat)
    requires (height == 8 || height == 16) && InRange(sp.y, line, height)
    ensures var row := FetchRow(sp, line, height);
      var d := line - Value(sp.y);
      var e := if sp.attr & 0x80 != 0 then height - 1 - d else d;
      Value(row) == e && Value(row & 8) == if e >= 8 then 8 else 0
  {
    hide Value;
    var d := line - Value(sp.y);
    assert d % 256 == d;
    SpriteRowBits(d, height);
    FlippedLow(d, height);
  }

  lemma FlippedLow(d: nat, height: nat)
    requires (height == 8 || height == 16) && d < height
    ensures Value(((d as bv8) ^ ((height - 1) as bv8)) & 8) == if height - 1 - d >= 8 then 8 else 0
  {
    if height == 8 {} else {}
  }

  /** The slot a prefetch fills from secondary OAM. */
  lemma SlotFilled(s: Scene, line: nat, k: nat, data: Sprite, p: Prefetched)
    requires WellFormed(s) && k < 8 && data == Secondary(s, line, k)
    requires if Value(data.y) >= 0xEF then p.attr == 0xFF
             else var a := FetchAddress(data, s.ctrl, line);
               p == Prefetched(data.x, data.attr, s.vram[a + 8], s.vram[a])
    ensures SlotHolds(s, line, k, p)
  {
    hide FirstEight, InRange, SpriteAddress, SpriteRow, FetchAddress, Value, Tagged;
    var l := FirstEight(s, line);
    if k < |l| {
      FetchAddressMeaning(s, l[k], line);
      TaggedAttributes(OamSprite(s, l[k]), l[k]);
      TaggedFull(OamSprite(s, l[k]), l[k]);
    }
  }

  /** The mark makes only a sprite 0 with all other attribute bits set look empty. */
  lemma TaggedFull(sp: Sprite, i: nat)
    ensures Tagged(sp, i).attr == 0xFF <==> i == 0 && sp.attr | 0x08 == 0xFF
    ensures Tagged(sp, i).y == sp.y && Value(EMPTY.y) == 0xFF
  {}

  lemma OpaqueIsDrawable(s: Scene, i: nat, line: nat, x: nat)
    requires WellFormed(s) && i < 64 && InRange(OamSprite(s, i).y, line, Height(s.ctrl))
    requires SpritePattern(s, i, line, x) != 0
    ensures Drawable(s, i)
  {}

  lemma TouchingNone(s: Scene, line: nat)
    requires WellFormed(s)
    ensures Touching(s, line, 0) == []
  {}

  /** What evaluation finds depends on OAM and the sprite height alone. */
  lemma {:induction false} SameTouching(s: Scene, t: Scene, line: nat, n: nat)
    requires WellFormed(s) && WellFormed(t) && s.oam == t.oam && Height(s.ctrl) == Height(t.ctrl) && n <= 64
    ensures Touching(s, line, n) == Touching(t, line, n)
  {
    hide Height, InRange;
    if n > 0 {
      SameTouching(s, t, line, n - 1);
    }
  }

  lemma SameEight(s: Scene, t: Scene, line: nat)
    requires WellFormed(s) && WellFormed(t) && s.oam == t.oam && Height(s.ctrl) == Height(t.ctrl)
    ensures FirstEight(s, line) == FirstEight(t, line)
  {
    hide Height, InRange, Touching;
    SameTouching(s, t, line, 64);
  }

  lemma SameSecondary(s: Scene, t: Scene, line: nat)
    requires WellFormed(s) && WellFormed(t) && s.oam == t.oam && Height(s.ctrl) == Height(t.ctrl)
    ensures forall k :: 0 <= k < 8 ==> Secondary(s, line, k) == Secondary(t, line, k)
  {
    hide Height, InRange, FirstEight, Tagged;
    SameEight(s, t, line);
  }

  // ---- overflow ------------------------------------------------------------

  /** The eighth sprite is found at one place only. */
  lemma EighthUnique(s: Scene, line: nat, m: nat, n: nat)
    requires WellFormed(s) && 0 < m < 64 && 0 < n < 64
    requires EighthAt(s, line, m) && EighthAt(s, line, n)
    ensures m == n
  {
    if m < n { TouchingPrefix(s, line, m, n - 1); }
    if n < m { TouchingPrefix(s, line, n, m - 1); }
  }

  lemma OverflowsFrom(s: Scene, line: nat, start: nat)
    requires WellFormed(s) && 0 < start < 64 && EighthAt(s, line, start)
    ensures Overflows(s, line) <==> DiagonalFrom(s, line, start)
  {
    if Overflows(s, line) {
      var other :| 0 < other < 64 && EighthAt(s, line, other) && DiagonalFrom(s, line, other);
      EighthUnique(s, line, start, other);
    }
  }

  lemma NoOverflow(s: Scene, line: nat)
    requires WellFormed(s) && |Touching(s, line, 63)| < 8
    ensures !Overflows(s, line)
  {
    if Overflows(s, line) {
      var start :| 0 < start < 64 && EighthAt(s, line, start);
      TouchingPrefix(s, line, start, 63);
    }
  }
}
