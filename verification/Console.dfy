/** The console's main loop: a CPU cycle is one CPU run and three PPU ticks, and a frame
    is run until the PPU reaches line 241. What the loop sees of the PPU is the position
    of the raster, described here tick by tick. */
module Console {
  import Ppu

  datatype Phase = PreRender | Visible | Idle

  /** The PPU between ticks: the line it is in, how many of the line's ticks are spent,
      and how many the line has. A PPU that has just been reset is in front of its
      pre-render line, which keeps whatever line number was current. */
  datatype Raster = Raster(phase: Phase, line: nat, dot: nat, length: nat, skip: bool, odd: bool, frames: nat)

  predicate WellFormed(r: Raster) {
    && 340 <= r.length <= 341 && r.dot <= r.length && (r.dot == 0 ==> r.phase == PreRender)
    && (r.phase == Visible ==> r.line < 240)
    && (r.phase == Idle ==> 240 <= r.line <= 260)
    && r.line < 262 && r.frames < 0x1_0000_0000
  }

  /** One PPU tick while rendering is enabled or not. Shortly before the end of every
      line that fetches, the PPU decides whether the next line loses its idle dot. */
  function Tick(r: Raster, rendering: bool): (n: Raster)
    requires WellFormed(r)
    ensures WellFormed(n)
  {
    if r.dot < r.length then
      if r.phase != Idle && r.dot + 3 == r.length then
        r.(dot := r.dot + 1, skip := r.line == 261 && r.odd && rendering)
      else r.(dot := r.dot + 1)
    else
      var next := r.(dot := 1, length := if r.skip then 340 else 341);
      match r.phase
      case PreRender => next.(phase := Visible, line := 0)
      case Visible => if r.line == 239 then next.(phase := Idle, line := 240) else next.(line := r.line + 1)
      case Idle =>
        if r.line < 260 then next.(line := r.line + 1)
        else next.(phase := PreRender, line := 261, odd := !r.odd, frames := (r.frames + 1) % 0x1_0000_0000)
  }

  // ---- the raster and the rendering pipeline -----------------------------------

  /** The state n ticks after r. Rendering may be switched at any time: b(i) says whether
      it is enabled in tick i, and the first of the n ticks is tick `from`. */
  function After(r: Raster, b: nat -> bool, from: nat, n: nat): (a: Raster)
    requires WellFormed(r)
    ensures WellFormed(a)
  {
    if n == 0 then r else Tick(After(r, b, from, n - 1), b(from + n - 1))
  }

  /** The line numbers seen after each of the next n ticks. */
  function Watch(r: Raster, b: nat -> bool, from: nat, n: nat): seq<nat>
    requires WellFormed(r)
  {
    if n == 0 then [] else Watch(r, b, from, n - 1) + [After(r, b, from, n).line]
  }

  function Repeat(x: nat, n: nat): seq<nat> {
    if n == 0 then [] else Repeat(x, n - 1) + [x]
  }

  /** A log of (line, ticks) pairs, tick by tick. */
  function Show(log: seq<(nat, nat)>): seq<nat> {
    if log == [] then [] else Show(log[..|log| - 1]) + Repeat(log[|log| - 1].0, log[|log| - 1].1)
  }

  lemma {:induction false} AfterPlus(r: Raster, b: nat -> bool, from: nat, m: nat, n: nat)
    requires WellFormed(r)
    ensures After(r, b, from, m + n) == After(After(r, b, from, m), b, from + m, n)
  {
    hide Tick;
    if n > 0 {
      AfterPlus(r, b, from, m, n - 1);
    }
  }

  lemma {:induction false} WatchPlus(r: Raster, b: nat -> bool, from: nat, m: nat, n: nat)
    requires WellFormed(r)
    ensures Watch(r, b, from, m + n) == Watch(r, b, from, m) + Watch(After(r, b, from, m), b, from + m, n)
  {
    hide Tick;
    if n > 0 {
      WatchPlus(r, b, from, m, n - 1);
      AfterPlus(r, b, from, m, n);
    }
  }

  /** The skip decision at the end of a line, when rendering is enabled or not in the tick
      that takes it. */
  function SkipAfter(r: Raster, on: bool): bool {
    if r.phase == Idle then r.skip else r.line == 261 && r.odd && on
  }

  /** Inside a line nothing moves but the dot, and the skip decision near the end. */
  lemma {:induction false} InsideLine(r: Raster, b: nat -> bool, from: nat, k: nat)
    requires WellFormed(r) && r.dot == 1 && k < r.length
    ensures var on := b(from + r.length - 4);
      After(r, b, from, k) == r.(dot := 1 + k, skip := if k + 2 < r.length - 1 then r.skip else SkipAfter(r, on))
    ensures Watch(r, b, from, k) == Repeat(r.line, k)
  {
    hide Tick, SkipAfter;
    if k > 0 {
      InsideLine(r, b, from, k - 1);
      InsideTick(r, b(from + k - 1), k, b(from + r.length - 4));
    }
  }

  lemma InsideTick(r: Raster, b: bool, dot: nat, on: bool)
    requires WellFormed(r) && 0 < dot < r.length && (dot + 3 == r.length ==> b == on)
    ensures Tick(r.(dot := dot, skip := if dot + 1 < r.length - 1 then r.skip else SkipAfter(r, on)), b)
         == r.(dot := dot + 1, skip := if dot + 2 < r.length - 1 then r.skip else SkipAfter(r, on))
  {}

  /** From the end of one line to the end of the next. */
  lemma LineRun(r: Raster, b: nat -> bool, from: nat)
    requires WellFormed(r) && r.dot == r.length
    ensures var s := Tick(r, b(from));
      && After(r, b, from, s.length) == s.(dot := s.length, skip := SkipAfter(s, b(from + s.length - 3)))
      && Watch(r, b, from, s.length) == Repeat(s.line, s.length)
  {
    hide Tick, After, Watch, Repeat, SkipAfter;
    OneTick(r, b, from);
    var s := Tick(r, b(from));
    InsideLine(s, b, from + 1, s.length - 1);
    AfterPlus(r, b, from, 1, s.length - 1);
    WatchPlus(r, b, from, 1, s.length - 1);
    RepeatFront(s.line, s.length - 1);
  }

  lemma OneTick(r: Raster, b: nat -> bool, from: nat)
    requires WellFormed(r)
    ensures After(r, b, from, 1) == Tick(r, b(from)) && Watch(r, b, from, 1) == [Tick(r, b(from)).line]
    ensures r.dot == r.length ==> Tick(r, b(from)).dot == 1
  {
    assert After(r, b, from, 0) == r && Watch(r, b, from, 0) == [];
  }

  lemma {:induction false} RepeatFront(x: nat, n: nat)
    ensures [x] + Repeat(x, n) == Repeat(x, n + 1)
  {
    if n > 0 {
      RepeatFront(x, n - 1);
      assert [x] + Repeat(x, n) == ([x] + Repeat(x, n - 1)) + [x];
    }
  }

  /** The raster has shown exactly this log and is in state a, at the end of a line. */
  predicate Shown(r: Raster, b: nat -> bool, log: seq<(nat, nat)>, a: Raster) {
    && WellFormed(r) && a.dot == a.length
    && Watch(r, b, 0, Ppu.Ticks(log)) == Show(log) && After(r, b, 0, Ppu.Ticks(log)) == a
  }

  /** The end of the line that follows the line that has ended in state a. */
  function LineEnd(a: Raster, on: bool): Raster
    requires WellFormed(a)
  {
    var s := Tick(a, on);
    s.(dot := s.length, skip := SkipAfter(s, on))
  }

  /** The tick that decides, in the line after the log, whether a dot is skipped. */
  function Sample(log: seq<(nat, nat)>, a: Raster): nat {
    Ppu.Ticks(log) + if a.skip then 337 else 338
  }

  lemma ShowLine(r: Raster, b: nat -> bool, log: seq<(nat, nat)>, a: Raster)
    requires WellFormed(a) && Shown(r, b, log, a)
    ensures var e := LineEnd(a, b(Sample(log, a))); WellFormed(e) && Shown(r, b, log + [(e.line, e.length)], e)
  {
    hide Tick, After, Watch, Show, Repeat, SkipAfter, Ppu.Ticks;
    var m := Ppu.Ticks(log);
    NewLine(a, b(m), b(Sample(log, a)));
    var e := LineEnd(a, b(Sample(log, a)));
    Ppu.TicksSnoc(log, (e.line, e.length));
    ShowSnoc(log, (e.line, e.length));
    LineRun(a, b, m);
    AfterPlus(r, b, 0, m, e.length);
    WatchPlus(r, b, 0, m, e.length);
  }

  /** The first tick of a line takes no decision. */
  lemma NewLine(a: Raster, b: bool, on: bool)
    requires WellFormed(a) && a.dot == a.length
    ensures Tick(a, b) == Tick(a, on) && Tick(a, on).length == if a.skip then 340 else 341
  {}

  lemma ShowSnoc(log: seq<(nat, nat)>, x: (nat, nat))
    ensures Show(log + [x]) == Show(log) + Repeat(x.0, x.1)
  {
    assert (log + [x])[..|log|] == log;
  }

  /** The end of a frame: the last idle line is spent. */
  predicate FrameOver(r: Raster) {
    WellFormed(r) && r.phase == Idle && r.line == 260 && r.dot == r.length
  }

  /** Whether the frame after r skips a dot: it is odd, and rendering is enabled in the
      tick of the pre-render line that decides. */
  predicate Skips(r: Raster, b: nat -> bool) {
    !r.odd && b(if r.skip then 337 else 338)
  }

  /** The state at the end of a line of the frame after r. */
  function EndOf(r: Raster, phase: Phase, line: nat, length: nat, skip: bool): Raster {
    Raster(phase, line, length, length, skip, !r.odd, (r.frames + 1) % 0x1_0000_0000)
  }

  lemma PreRenderRun(r: Raster, b: nat -> bool)
    requires FrameOver(r)
    ensures var length := if r.skip then 340 else 341;
      Shown(r, b, [(261, length)], EndOf(r, PreRender, 261, length, Skips(r, b)))
  {
    assert Shown(r, b, [], r);
    ShowLine(r, b, [], r);
    assert [] + [(261, if r.skip then 340 else 341)] == [(261, if r.skip then 340 else 341)];
  }

  /** The end of the line after, for every line of a frame but its last. */
  lemma NextEnd(r: Raster, on: bool, line: nat, length: nat, skip: bool)
    requires FrameOver(r) && 340 <= length <= 341
    ensures LineEnd(EndOf(r, PreRender, 261, length, skip), on)
         == EndOf(r, Visible, 0, if skip then 340 else 341, false)
    ensures line < 239 ==>
      LineEnd(EndOf(r, Visible, line, length, false), on) == EndOf(r, Visible, line + 1, 341, false)
    ensures LineEnd(EndOf(r, Visible, 239, length, false), on) == EndOf(r, Idle, 240, 341, false)
    ensures 240 <= line < 260 ==>
      LineEnd(EndOf(r, Idle, line, length, false), on) == EndOf(r, Idle, line + 1, 341, false)
  {}

  /** What a state between two lines of a frame is. */
  lemma EndKept(r: Raster, line: nat, length: nat, skip: bool)
    requires FrameOver(r) && 340 <= length <= 341
    ensures var e := EndOf(r, PreRender, 261, length, skip); WellFormed(e)
    ensures line < 240 ==> var e := EndOf(r, Visible, line, length, skip);
      WellFormed(e) && e.line == line && e.length == length
    ensures 240 <= line <= 260 ==> var e := EndOf(r, Idle, line, length, skip);
      WellFormed(e) && e.line == line && e.length == length
  {}

  lemma {:induction false} VisibleRun(r: Raster, b: nat -> bool, n: nat)
    requires FrameOver(r) && 0 < n <= 240
    ensures var length := if n == 1 && Skips(r, b) then 340 else 341;
      Shown(r, b, [(261, if r.skip then 340 else 341)] + Ppu.VisibleLog(Skips(r, b), n),
        EndOf(r, Visible, n - 1, length, false))
  {
    hide Shown, LineEnd, EndOf, Skips;
    var pre := if r.skip then 340 else 341;
    var head := [(261, pre)];
    var length := if n == 1 && Skips(r, b) then 340 else 341;
    var log := head + Ppu.VisibleLog(Skips(r, b), n - 1);
    EndKept(r, n - 1, length, false);
    if n == 1 {
      PreRenderRun(r, b);
      assert log == head;
      var a := EndOf(r, PreRender, 261, pre, Skips(r, b));
      EndKept(r, 0, pre, Skips(r, b));
      NextEnd(r, b(Sample(log, a)), 0, pre, Skips(r, b));
      ShowLine(r, b, log, a);
    } else {
      VisibleRun(r, b, n - 1);
      var before := if n == 2 && Skips(r, b) then 340 else 341;
      var a := EndOf(r, Visible, n - 2, before, false);
      EndKept(r, n - 2, before, false);
      NextEnd(r, b(Sample(log, a)), n - 2, before, false);
      ShowLine(r, b, log, a);
    }
    assert head + Ppu.VisibleLog(Skips(r, b), n) == log + [(n - 1, length)];
  }

  lemma {:induction false} BlankRun(r: Raster, b: nat -> bool, n: nat)
    requires FrameOver(r) && 0 < n <= 21
    ensures Shown(r, b,
        [(261, if r.skip then 340 else 341)] + Ppu.VisibleLog(Skips(r, b), 240) + Ppu.BlankLog(n),
        EndOf(r, Idle, 239 + n, 341, false))
  {
    hide Shown, LineEnd, EndOf, Skips, Ppu.VisibleLog;
    var head := [(261, if r.skip then 340 else 341)] + Ppu.VisibleLog(Skips(r, b), 240);
    var log := head + Ppu.BlankLog(n - 1);
    EndKept(r, 239 + n, 341, false);
    if n == 1 {
      VisibleRun(r, b, 240);
      assert log == head;
      var a := EndOf(r, Visible, 239, 341, false);
      EndKept(r, 239, 341, false);
      NextEnd(r, b(Sample(log, a)), 239, 341, false);
      ShowLine(r, b, log, a);
    } else {
      BlankRun(r, b, n - 1);
      var a := EndOf(r, Idle, 238 + n, 341, false);
      EndKept(r, 238 + n, 341, false);
      NextEnd(r, b(Sample(log, a)), 238 + n, 341, false);
      ShowLine(r, b, log, a);
    }
    assert head + Ppu.BlankLog(n) == log + [(239 + n, 341)];
  }

  /** Whenever rendering is switched, the raster shows, tick by tick, the lines and
      lengths of a frame that the rendering pipeline logs, with a dot skipped exactly when
      the frame is odd and rendering is enabled in the deciding tick, and it is back at
      the end of a frame with the parity flipped. */
  lemma ShowsFrame(r: Raster, b: nat -> bool)
    requires FrameOver(r)
    ensures var log := Ppu.FrameLog(261, r.skip, Skips(r, b));
      && Watch(r, b, 0, Ppu.Ticks(log)) == Show(log)
      && After(r, b, 0, Ppu.Ticks(log)) == EndOf(r, Idle, 260, 341, false)
  {
    hide Ppu.VisibleLog, Ppu.BlankLog, Ppu.Ticks, Watch, Show, After, Skips;
    BlankRun(r, b, 21);
  }

  // ---- running frames ----------------------------------------------------------

  /** Ticks until line 241 if no idle dot is skipped on the way. */
  function Distance(r: Raster): int {
    r.length - r.dot + 341 *
      (match r.phase
       case PreRender => 241
       case Visible => 240 - r.line
       case Idle => if r.line <= 240 then 0 else 260 - r.line + 242)
  }

  /** Every tick outside line 241 gets closer to it, and reaches it at its start unless
      the PPU was reset in it. */
  lemma Closer(r: Raster, b: bool)
    requires WellFormed(r) && r.line != 241
    ensures Distance(r) >= 0
    ensures Tick(r, b).line == 241 ==> Tick(r, b).dot == 1 && Tick(r, b).phase == Idle
    ensures Tick(r, b).line != 241 ==> Distance(Tick(r, b)) < Distance(r)
  {}

  /** Nominal ticks since the start of line 241, each line counted as 341. */
  function Position(r: Raster): int {
    r.dot - 1 + 341 *
      (match r.phase
       case PreRender => 20
       case Visible => 21 + r.line
       case Idle => if r.line < 241 then 261 else r.line - 241)
  }

  /** States of a PPU that has been running: only line 0 can be short, in odd frames,
      and the decision is pending from the end of the pre-render line to that of line 0. */
  predicate Steady(r: Raster) {
    && WellFormed(r) && 1 <= r.dot
    && (r.phase == PreRender ==> r.line == 261)
    && (r.length == 340 ==> r.odd && r.phase == Visible && r.line == 0)
    && (r.skip ==> r.odd && (if r.phase == PreRender then r.dot + 2 >= r.length
                             else r.phase == Visible && r.line == 0 && r.dot + 2 < r.length))
  }

  /** Idle dots the tick from r jumps over, as seen from the nominal position. */
  function Jump(r: Raster): nat {
    if r.dot == r.length == 340 then 1 else 0
  }

  lemma SteadyTick(r: Raster, b: bool)
    requires Steady(r)
    ensures Steady(Tick(r, b))
    ensures 0 <= Position(r) < 89342
    ensures Position(Tick(r, b)) == (Position(r) + 1 + Jump(r)) % 89342
    ensures Jump(r) == 1 ==> r.odd && Position(r) == 341 * 21 + 339
    ensures Position(r) + 1 == 341 * 20 ==>
      Tick(r, b).odd == !r.odd && Tick(r, b).frames == (r.frames + 1) % 0x1_0000_0000
    ensures Position(r) + 1 != 341 * 20 ==> Tick(r, b).odd == r.odd && Tick(r, b).frames == r.frames
    ensures r.line == 241 <==> Position(r) < 341
  {}

  /** A position at most one frame ahead. */
  function Around(p: int): int {
    if p >= 89342 then p - 89342 else p
  }

  /** n ticks into the frame after r, which skips a dot or not: the decision is taken in tick
      338 of the pre-render line, and from the end of line 0 on the raster is one position
      further if the dot has been skipped. */
  predicate Inside(r: Raster, skips: bool, a: Raster, n: nat) {
    var length := if skips then 340 else 341;
    && Steady(a) && a.odd == !r.odd
    && (if n <= 341 then
          a.phase == PreRender && a.dot == n && a.length == 341 && (n >= 339 ==> a.skip == skips)
        else if n <= 341 + length then
          && a.phase == Visible && a.line == 0 && a.dot == n - 341 && a.length == length
        else
          && Position(a) == Around(341 * 20 - 1 + n + 341 - length)
          && !(341 * 20 <= Position(a) < 341 * 22))
  }

  lemma FirstInside(r: Raster, b: bool, skips: bool)
    requires FrameOver(r) && !r.skip
    ensures Inside(r, skips, Tick(r, b), 1)
  {}

  lemma NextInside(r: Raster, skips: bool, a: Raster, n: nat, b: bool)
    requires Inside(r, skips, a, n) && 0 < n < 89342 - (if skips then 1 else 0) && (skips ==> !r.odd)
    requires n == 338 ==> (skips <==> !r.odd && b)
    ensures Inside(r, skips, Tick(a, b), n + 1)
  {
    hide Inside;
    if n <= 341 {
      NextInPreRender(r, skips, a, n, b);
    } else if n <= 341 + if skips then 340 else 341 {
      NextInLineZero(r, skips, a, n, b);
    } else {
      NextLater(r, skips, a, n, b);
    }
  }

  lemma NextInPreRender(r: Raster, skips: bool, a: Raster, n: nat, b: bool)
    requires Inside(r, skips, a, n) && 0 < n <= 341 && (skips ==> !r.odd)
    requires n == 338 ==> (skips <==> !r.odd && b)
    ensures Inside(r, skips, Tick(a, b), n + 1)
  {
    hide Position, Around;
  }

  lemma NextInLineZero(r: Raster, skips: bool, a: Raster, n: nat, b: bool)
    requires Inside(r, skips, a, n) && 341 < n <= 341 + if skips then 340 else 341
    ensures Inside(r, skips, Tick(a, b), n + 1)
  {}

  lemma NextLater(r: Raster, skips: bool, a: Raster, n: nat, b: bool)
    requires Inside(r, skips, a, n) && 341 + (if skips then 340 else 341) < n < 89342 - if skips then 1 else 0
    ensures Inside(r, skips, Tick(a, b), n + 1)
  {
    hide Tick, Steady, Position;
    SteadyTick(a, b);
    NoShortLine(a);
  }

  lemma NoShortLine(a: Raster)
    requires Steady(a) && !(341 * 20 <= Position(a) < 341 * 22)
    ensures Jump(a) == 0
  {}

  lemma {:induction false} InFrame(r: Raster, b: nat -> bool, n: nat)
    requires FrameOver(r) && !r.skip && 0 < n <= 89342 - if Skips(r, b) then 1 else 0
    ensures Inside(r, Skips(r, b), After(r, b, 0, n), n)
    decreases n
  {
    hide Inside, Tick;
    if n == 1 {
      FirstInside(r, b(0), Skips(r, b));
      OneTick(r, b, 0);
    } else {
      InFrame(r, b, n - 1);
      NextInside(r, Skips(r, b), After(r, b, 0, n - 1), n - 1, b(n - 1));
    }
  }

  /** A frame takes 89342 ticks, less one exactly when it is odd and rendering is enabled in
      the deciding tick, whenever else rendering is switched: its end comes then, and not
      before. */
  lemma FrameLength(r: Raster, b: nat -> bool)
    requires FrameOver(r) && !r.skip
    ensures var ticks := 89342 - if !r.odd && b(338) then 1 else 0;
      && FrameOver(After(r, b, 0, ticks))
      && forall n :: 0 < n < ticks ==> !FrameOver(After(r, b, 0, n))
  {
    hide After, Watch, Show, Ppu.FrameLog, Ppu.Ticks, Inside;
    Ppu.FrameTicks(261, false, Skips(r, b));
    ShowsFrame(r, b);
    forall n | 0 < n < 89342 - if Skips(r, b) then 1 else 0 ensures !FrameOver(After(r, b, 0, n)) {
      InFrame(r, b, n);
      NotOver(r, Skips(r, b), After(r, b, 0, n), n);
    }
  }

  lemma NotOver(r: Raster, skips: bool, a: Raster, n: nat)
    requires Inside(r, skips, a, n) && 0 < n < 89342 - if skips then 1 else 0
    ensures !FrameOver(a)
  {}

  /** A frame is over at one place of a running raster: in the tick before the pre-render
      line. */
  lemma FrameOverMeaning(r: Raster)
    requires Steady(r)
    ensures FrameOver(r) <==> Position(r) + 1 == 341 * 20
  {}

  /** A PPU at power-on or reset: in front of a pre-render line, in an even frame. The
      line number and a pending skipped dot may be left over. */
  predicate JustReset(r: Raster) {
    WellFormed(r) && r.phase == PreRender && r.dot == 0 && !r.odd && r.length == if r.skip then 340 else 341
  }

  /** Where a call of the frame loop may be followed from. */
  predicate Start(r0: Raster) {
    JustReset(r0) || (Steady(r0) && r0.line == 241 && r0.dot <= 3)
  }

  /** The tick since r0, in line 241, that decides in the pre-render line. */
  function Deciding(r0: Raster): int {
    341 * 21 - 3 - r0.dot
  }

  /** A running PPU since it was in line 241: the frame counter moves at the pre-render
      line, and an idle dot is skipped in line 0 exactly when the frame is odd and rendering
      is enabled (`on`) in the deciding tick. */
  predicate Running(r0: Raster, r: Raster, jumps: nat, on: bool) {
    && Steady(r)
    && (jumps == 1 <==> !r0.odd && on && Position(r) >= 341 * 22)
    && (341 * 21 - 3 <= Position(r) < 341 * 21 ==> (r.skip <==> !r0.odd && on))
    && (341 * 21 <= Position(r) < 341 * 22 ==> (r.length == 340 <==> !r0.odd && on))
    && (if Position(r) < 341 * 20 then r.odd == r0.odd && r.frames == r0.frames
        else r.odd == !r0.odd && r.frames == (r0.frames + 1) % 0x1_0000_0000)
  }

  /** A PPU in its first frame since reset, up to line 240: only its pre-render line can
      be short. */
  predicate Warming(r0: Raster, r: Raster, jumps: nat) {
    && WellFormed(r) && !r.odd && r.frames == r0.frames
    && (r.phase == Idle ==> r.line == 240)
    && (if r.phase == PreRender then
          jumps == 0 && r.length == r0.length && (r.dot + 2 >= r.length ==> !r.skip)
        else r.length == 341 && r.dot >= 1 && !r.skip && (jumps == 1 <==> r0.length == 340))
  }

  /** Where the PPU is, a number of ticks after r0: `jumps` idle dots have been skipped. */
  predicate Since(r0: Raster, r: Raster, ticks: nat, jumps: nat, on: bool) {
    && jumps <= 1 && Position(r) == Position(r0) + ticks + jumps
    && (if JustReset(r0) then Warming(r0, r, jumps) else Running(r0, r, jumps, on))
  }

  /** Line 241 has come round. A running PPU has counted exactly one frame; after a reset
      the first line 241 comes before the first frame is counted. */
  predicate Back(r0: Raster, r: Raster, ticks: nat, jumps: nat, on: bool) {
    && Steady(r) && r.line == 241
    && (if JustReset(r0) then !r.odd && r.frames == r0.frames && (jumps == 1 <==> r0.skip)
        else r.odd == !r0.odd && r.frames == (r0.frames + 1) % 0x1_0000_0000 && (jumps == 1 <==> !r0.odd && on))
    && jumps <= 1 && Position(r0) + ticks + jumps == 89342 + r.dot - 1
  }

  lemma WarmingTick(r0: Raster, r: Raster, b: bool, jumps: nat)
    requires JustReset(r0) && Warming(r0, r, jumps) && jumps <= 1 && Position(r) + 1 < 89342
    ensures Position(Tick(r, b)) == Position(r) + 1 + Jump(r)
    ensures jumps + Jump(r) <= 1 && Warming(r0, Tick(r, b), jumps + Jump(r))
  {}

  lemma WarmingLast(r0: Raster, r: Raster, b: bool, jumps: nat)
    requires JustReset(r0) && Warming(r0, r, jumps) && Position(r) + 1 == 89342
    ensures Steady(Tick(r, b)) && Tick(r, b).line == 241 && Tick(r, b).dot == 1 && Jump(r) == 0
    ensures !Tick(r, b).odd && Tick(r, b).frames == r0.frames
  {}

  /** If tick `ticks` since r0 is the deciding one, rendering is `on` in it. */
  predicate Agrees(r0: Raster, ticks: nat, b: bool, on: bool) {
    !JustReset(r0) && ticks == Deciding(r0) ==> b == on
  }

  lemma SteadyOn(r: Raster, b: bool)
    requires Steady(r) && Position(r) + 1 < 89342
    ensures Position(Tick(r, b)) == Position(r) + 1 + Jump(r)
  {
    hide Tick, Steady, Position;
    SteadyTick(r, b);
  }

  /** The decision, and the short line that follows from it. */
  lemma RunningShort(r0: Raster, r: Raster, b: bool, ticks: nat, jumps: nat, on: bool)
    requires Since(r0, r, ticks, jumps, on) && Start(r0) && !JustReset(r0)
    requires Position(r) + 1 < 89342 && Agrees(r0, ticks, b, on)
    ensures var n := Tick(r, b);
      && (341 * 21 - 3 <= Position(n) < 341 * 21 ==> (n.skip <==> !r0.odd && on))
      && (341 * 21 <= Position(n) < 341 * 22 ==> (n.length == 340 <==> !r0.odd && on))
      && (jumps + Jump(r) == 1 <==> !r0.odd && on && Position(n) >= 341 * 22)
  {}

  lemma RunningTick(r0: Raster, r: Raster, b: bool, ticks: nat, jumps: nat, on: bool)
    requires Since(r0, r, ticks, jumps, on) && Start(r0) && !JustReset(r0)
    requires Position(r) + 1 < 89342 && Agrees(r0, ticks, b, on)
    ensures Position(Tick(r, b)) == Position(r) + 1 + Jump(r)
    ensures jumps + Jump(r) <= 1 && Running(r0, Tick(r, b), jumps + Jump(r), on)
  {
    hide Position, Tick;
    SteadyOn(r, b);
    SteadyTick(r, b);
    RunningShort(r0, r, b, ticks, jumps, on);
  }

  /** Ticks short of line 241. */
  lemma SinceTick(r0: Raster, r: Raster, b: bool, ticks: nat, jumps: nat, on: bool)
    requires Since(r0, r, ticks, jumps, on) && Start(r0) && Position(r) + 1 < 89342 && Agrees(r0, ticks, b, on)
    ensures Since(r0, Tick(r, b), ticks + 1, jumps + Jump(r), on)
  {
    hide Warming, Running, Agrees, Start, Tick, Position, Jump;
    if JustReset(r0) {
      WarmingTick(r0, r, b, jumps);
    } else {
      RunningTick(r0, r, b, ticks, jumps, on);
    }
  }

  /** The tick that reaches line 241. */
  lemma SinceLast(r0: Raster, r: Raster, b: bool, ticks: nat, jumps: nat, on: bool)
    requires Since(r0, r, ticks, jumps, on) && Start(r0) && Position(r) + 1 == 89342
    ensures Back(r0, Tick(r, b), ticks + 1, jumps + Jump(r), on) && Tick(r, b).dot == 1
  {
    if JustReset(r0) {
      WarmingLast(r0, r, b, jumps);
    } else {
      SteadyTick(r, b);
      SteadyTick(r0, b);
    }
  }

  /** On the way line 241 is not seen, except by a PPU reset in it. */
  lemma OnTheWay(r0: Raster, r: Raster, ticks: nat, jumps: nat, on: bool)
    requires Since(r0, r, ticks, jumps, on) && Start(r0)
    ensures WellFormed(r) && Position(r) < 89342
    ensures Position(r) >= 341 * 21 ==> r.line != 241
    ensures r.line == 241 && JustReset(r0) ==> r.phase == PreRender
    ensures r.line == 241 && !JustReset(r0) ==> Position(r) < 341
  {}

  /** The PPU's share of one CPU cycle. */
  function Ticks3(r: Raster, rendering: bool): Raster
    requires WellFormed(r)
  {
    Tick(Tick(Tick(r, rendering), rendering), rendering)
  }

  const CPU_CYCLES_FIRST: nat := 341 * 4 / 12 * 241
  const DECAY: nat := 12886364

  /** Three ticks of a PPU on its way to line 241 cannot jump over the line. */
  lemma ThreeCloser(r: Raster, b: bool)
    requires WellFormed(r) && r.line != 241
    ensures var n := Ticks3(r, b);
      && (n.line == 241 ==> n.phase == Idle && n.dot <= 3)
      && (n.line != 241 ==> 0 <= Distance(n) < Distance(r))
  {
    var r1 := Tick(r, b);
    var r2 := Tick(r1, b);
    Closer(r, b);
    if r1.line != 241 {
      Closer(r1, b);
      if r2.line != 241 {
        Closer(r2, b);
        Closer2(Tick(r2, b));
      }
    }
  }

  lemma Closer2(r: Raster)
    requires WellFormed(r)
    ensures Distance(r) >= 0
  {}

  /** Three ticks of a running PPU since line 241, with the dots skipped on the way. */
  function Jump3(r: Raster, b: bool): nat
    requires WellFormed(r)
  {
    Jump(r) + Jump(Tick(r, b)) + Jump(Tick(Tick(r, b), b))
  }

  lemma SinceThree(r0: Raster, r: Raster, b: bool, ticks: nat, jumps: nat, on: bool)
    requires Since(r0, r, ticks, jumps, on) && Start(r0) && WellFormed(r) && Position(r) + 4 < 89342
    requires Agrees(r0, ticks, b, on) && Agrees(r0, ticks + 1, b, on) && Agrees(r0, ticks + 2, b, on)
    ensures Since(r0, Ticks3(r, b), ticks + 3, jumps + Jump3(r, b), on)
  {
    hide Running, Warming, Tick, Steady, Start, WellFormed, Agrees;
    var r1 := Tick(r, b);
    var r2 := Tick(r1, b);
    SinceTick(r0, r, b, ticks, jumps, on);
    SinceTick(r0, r1, b, ticks + 1, jumps + Jump(r), on);
    SinceTick(r0, r2, b, ticks + 2, jumps + Jump(r) + Jump(r1), on);
  }

  predicate SinceOrBack(r0: Raster, r: Raster, ticks: nat, jumps: nat, on: bool) {
    if r.line == 241 then Back(r0, r, ticks, jumps, on) && r.dot <= 3 else Since(r0, r, ticks, jumps, on)
  }

  lemma StartSince(r0: Raster, on: bool)
    requires Start(r0)
    ensures Since(r0, r0, 0, 0, on)
  {}

  /** The first loop ends before line 241 comes round. */
  lemma NotYetBack(r0: Raster, r: Raster, jumps: nat, on: bool)
    requires Start(r0) && Since(r0, r, 3 * CPU_CYCLES_FIRST, jumps, on)
    ensures r.line != 241
  {}

  lemma BackIsSteady(r0: Raster, r: Raster, ticks: nat, jumps: nat, on: bool)
    requires Back(r0, r, ticks, jumps, on)
    ensures Steady(r) && r.line == 241
    ensures Steady(r0) && r0.line == 241 && r0.dot <= 3 ==>
      ticks + jumps == 89342 + r.dot - r0.dot && jumps == if !r0.odd && on then 1 else 0
  {}

  lemma SinceOrLast(r0: Raster, r: Raster, b: bool, ticks: nat, jumps: nat, on: bool)
    requires r.line != 241 && Since(r0, r, ticks, jumps, on) && Start(r0) && Agrees(r0, ticks, b, on)
    ensures WellFormed(r)
    ensures var n := Tick(r, b);
      SinceOrBack(r0, n, ticks + 1, jumps + Jump(r), on) && (n.line == 241 ==> n.dot == 1)
  {
    OnTheWay(r0, r, ticks, jumps, on);
    if Position(r) + 1 == 89342 {
      SinceLast(r0, r, b, ticks, jumps, on);
    } else {
      SinceTick(r0, r, b, ticks, jumps, on);
      OnTheWay(r0, Tick(r, b), ticks + 1, jumps + Jump(r), on);
      Closer(r, b);
      assert Position(Tick(r, b)) > Position(r);
    }
  }

  lemma BackTick(r0: Raster, r: Raster, b: bool, ticks: nat, jumps: nat, on: bool)
    requires Back(r0, r, ticks, jumps, on) && r.dot <= 2
    ensures Back(r0, Tick(r, b), ticks + 1, jumps, on) && Tick(r, b).dot == r.dot + 1 && Jump(r) == 0
  {}

  /** Three ticks cannot jump over line 241. */
  lemma ThreeTowards(r0: Raster, r: Raster, b: bool, ticks: nat, jumps: nat, on: bool)
    requires r.line != 241 && Since(r0, r, ticks, jumps, on) && Start(r0) && WellFormed(r)
    requires Agrees(r0, ticks, b, on) && Agrees(r0, ticks + 1, b, on) && Agrees(r0, ticks + 2, b, on)
    ensures SinceOrBack(r0, Ticks3(r, b), ticks + 3, jumps + Jump3(r, b), on)
  {
    hide Back, Tick, Since, Start, Agrees;
    var r1 := Tick(r, b);
    var r2 := Tick(r1, b);
    SinceOrLast(r0, r, b, ticks, jumps, on);
    if r1.line == 241 {
      BackTick(r0, r1, b, ticks + 1, jumps + Jump(r), on);
      BackTick(r0, r2, b, ticks + 2, jumps + Jump(r), on);
      StaysInLine(r1, b);
      StaysInLine(r2, b);
    } else {
      SinceOrLast(r0, r1, b, ticks + 1, jumps + Jump(r), on);
      if r2.line == 241 {
        BackTick(r0, r2, b, ticks + 2, jumps + Jump(r) + Jump(r1), on);
        StaysInLine(r2, b);
      } else {
        SinceOrLast(r0, r2, b, ticks + 2, jumps + Jump(r) + Jump(r1), on);
      }
    }
  }

  /** The three ticks of a CPU cycle see rendering as the CPU cycle leaves it. */
  lemma Deciding3(r0: Raster, cycles: nat, total: nat, start: nat, rendering: nat -> bool, on: bool)
    requires Start(r0) && total == start + 12 * cycles
    requires on == (Deciding(r0) >= 0 && rendering(start / 12 + Deciding(r0) / 3))
    ensures var b := rendering(total / 12);
      Agrees(r0, 3 * cycles, b, on) && Agrees(r0, 3 * cycles + 1, b, on) && Agrees(r0, 3 * cycles + 2, b, on)
  {
    assert total / 12 == start / 12 + cycles;
  }

  lemma StaysInLine(r: Raster, b: bool)
    requires WellFormed(r) && r.dot < r.length
    ensures Tick(r, b).line == r.line
  {}

  class Console {
    var raster: Raster
    var totalCycles: nat
    var oamDecayCycles: nat
    /** How often the PPU's decaying register bits have been cleared. */
    var decayClears: nat
    /** Whether rendering is enabled once the CPU has run its n-th cycle. */
    const rendering: nat -> bool

    constructor (raster: Raster, rendering: nat -> bool)
      requires WellFormed(raster)
      ensures Valid() && this.raster == raster && this.rendering == rendering
      ensures totalCycles == oamDecayCycles == decayClears == 0
    {
      this.raster, this.rendering := raster, rendering;
      totalCycles, oamDecayCycles, decayClears := 0, 0, 0;
    }

    ghost predicate Valid()
      reads this
    {
      WellFormed(raster) && oamDecayCycles < DECAY
    }

    /** The CPU first, then three PPU ticks. */
    method RunCpuCycle()
      requires Valid()
      modifies this
      ensures Valid() && totalCycles == old(totalCycles) + 12
      ensures raster == Ticks3(old(raster), rendering(old(totalCycles) / 12))
      ensures decayClears == old(decayClears) + if old(oamDecayCycles) + 12 >= 12886364 then 1 else 0
      ensures oamDecayCycles == if old(oamDecayCycles) + 12 >= 12886364 then 0 else old(oamDecayCycles) + 12
    {
      var b := rendering(totalCycles / 12);
      raster := Tick(raster, b);
      raster := Tick(raster, b);
      raster := Tick(raster, b);
      totalCycles, oamDecayCycles := totalCycles + 12, oamDecayCycles + 12;
      if oamDecayCycles >= DECAY {
        decayClears := decayClears + 1;
        oamDecayCycles := 0;
      }
    }

    /** A PPU in steady state at the start of line 241. */
    ghost predicate AtFrame()
      reads this
    {
      Steady(raster) && raster.line == 241 && raster.dot <= 3
    }

    /** Whether rendering is enabled in the CPU cycle that contains the deciding tick of the
        frame that starts with raster r0. */
    ghost predicate Decision(r0: Raster)
      reads this`totalCycles
    {
      Deciding(r0) >= 0 && rendering(totalCycles / 12 + Deciding(r0) / 3)
    }

    /** A frame: enough CPU cycles for 241 lines, then until line 241 is reached. The
        call ends from every state of the PPU; the first loop may happen to end in line
        241, and otherwise the call stops within three ticks of the line's start. In
        steady state it counts exactly one frame and is back at the start of line 241
        after the ticks of one frame, less the dot skipped (`jumps`) exactly when the frame
        is odd and rendering is enabled in the deciding tick of the pre-render line,
        whenever else the program switches it. From a reset it reaches steady state. */
    method RunFrame() returns (cycles: nat, early: bool, ghost jumps: nat)
      requires Valid()
      modifies this
      ensures Valid() && raster.line == 241 && cycles >= 27233
      ensures totalCycles == old(totalCycles) + 12 * cycles
      ensures !early ==> raster.phase == Idle && raster.dot <= 3
      ensures early ==> cycles == 27233
      ensures old(Start(raster)) ==>
        AtFrame() && !early && Back(old(raster), raster, 3 * cycles, jumps, old(Decision(raster)))
      ensures old(AtFrame()) ==> 3 * cycles == 89342 - jumps + raster.dot - old(raster.dot)
      ensures old(AtFrame()) ==>
        (if !old(raster.odd) && rendering(old(totalCycles) / 12 + (7158 - old(raster.dot)) / 3)
         then jumps == 1 else jumps == 0)
    {
      hide Since, Back, Steady;
      ghost var r0, known, on := raster, Start(raster), Decision(raster);
      cycles, jumps := 0, 0;
      if known { StartSince(r0, on); }
      while cycles < CPU_CYCLES_FIRST
        invariant cycles <= CPU_CYCLES_FIRST
        invariant Valid() && totalCycles == old(totalCycles) + 12 * cycles
        invariant known ==> Since(r0, raster, 3 * cycles, jumps, on)
      {
        if known { Deciding3(r0, cycles, totalCycles, old(totalCycles), rendering, on); }
        jumps := FirstCycle(r0, 3 * cycles, jumps, known, on);
        cycles := cycles + 1;
      }
      if known {
        NotYetBack(r0, raster, jumps, on);
      }
      early := raster.line == 241;
      while raster.line != 241
        invariant Valid() && totalCycles == old(totalCycles) + 12 * cycles && cycles >= CPU_CYCLES_FIRST
        invariant early ==> raster.line == 241 && cycles == CPU_CYCLES_FIRST
        invariant !early && raster.line == 241 ==> raster.phase == Idle && raster.dot <= 3
        invariant known ==> !early && SinceOrBack(r0, raster, 3 * cycles, jumps, on)
        decreases raster.line != 241, Distance(raster)
      {
        jumps := LaterCycle(r0, 3 * cycles, jumps, known, on);
        cycles := cycles + 1;
      }
      if known { BackIsSteady(r0, raster, 3 * cycles, jumps, on); }
    }

    method FirstCycle(ghost r0: Raster, ghost ticks: nat, ghost jumps: nat, ghost known: bool, ghost on: bool)
      returns (ghost total: nat)
      requires Valid()
      requires known ==> Start(r0) && Since(r0, raster, ticks, jumps, on)
      requires known ==> var b := rendering(totalCycles / 12);
        Agrees(r0, ticks, b, on) && Agrees(r0, ticks + 1, b, on) && Agrees(r0, ticks + 2, b, on)
      requires ticks < 3 * CPU_CYCLES_FIRST
      modifies this
      ensures Valid() && totalCycles == old(totalCycles) + 12
      ensures known ==> Since(r0, raster, ticks + 3, total, on)
    {
      ghost var before := raster;
      RunCpuCycle();
      ghost var b := rendering(old(totalCycles) / 12);
      total := jumps + Jump3(before, b);
      if known {
        SinceThree(r0, before, b, ticks, jumps, on);
      }
    }

    method LaterCycle(ghost r0: Raster, ghost ticks: nat, ghost jumps: nat, ghost known: bool, ghost on: bool)
      returns (ghost total: nat)
      requires Valid() && raster.line != 241 && ticks >= 3 * CPU_CYCLES_FIRST
      requires known ==> Start(r0) && Since(r0, raster, ticks, jumps, on)
      modifies this
      ensures Valid() && totalCycles == old(totalCycles) + 12
      ensures raster.line == 241 ==> raster.phase == Idle && raster.dot <= 3
      ensures raster.line != 241 ==> 0 <= Distance(raster) < old(Distance(raster))
      ensures known ==> SinceOrBack(r0, raster, ticks + 3, total, on)
    {
      hide Ticks3, Jump3, Since, SinceOrBack, Start, WellFormed, Distance;
      ghost var before := raster;
      RunCpuCycle();
      ghost var b := rendering(old(totalCycles) / 12);
      total := jumps + Jump3(before, b);
      ThreeCloser(before, b);
      if known {
        ThreeTowards(r0, before, b, ticks, jumps, on);
      }
    }

    /** Soft reset: the coroutines start over; the PPU keeps its line number, its frame
        counter and a pending skipped dot. */
    method SoftReset()
      requires Valid()
      modifies this`raster, this`totalCycles
      ensures Valid() && JustReset(raster) && totalCycles == 0
      ensures raster.frames == old(raster.frames) && raster.line == old(raster.line) && raster.skip == old(raster.skip)
    {
      totalCycles := 0;
      raster := raster.(phase := PreRender, dot := 0, length := if raster.skip then 340 else 341, odd := false);
    }

    /** From a reset in any state, the first call synchronises with line 241, and every
        further call counts exactly one frame. */
    method RunAfterReset(n: nat)
      requires Valid()
      modifies this
      ensures Valid() && AtFrame() && raster.frames == (old(raster.frames) + n) % 0x1_0000_0000
    {
      SoftReset();
      var _, _, _ := RunFrame();
      for i := 0 to n
        invariant Valid() && AtFrame() && raster.frames == (old(raster.frames) + i) % 0x1_0000_0000
      {
        var _, _, _ := RunFrame();
      }
    }
  }
}
