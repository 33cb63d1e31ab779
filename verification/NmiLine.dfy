/** The NMI line between the PPU and the CPU: it follows the vertical blank flag and the
    enable bit of the control register, except in the first ticks of a line, and the CPU
    latches its falling edges. */
module NmiLine {
  import opened Console

  /** The PPU's tick counter inside a line, as the CPU can observe it: the long wait of
      an idle line counts all its ticks at its end. */
  function Clocks(r: Raster): nat {
    if r.dot == 0 then 0
    else if r.phase == Idle && WellFormed(r) && r.dot - 1 > r.length - 338 then r.length - 338
    else r.dot - 1
  }

  /** The tick that ends the idle dot of a line, or that starts a line without one. */
  predicate AfterIdleDot(r: Raster) {
    r.dot + 339 == r.length
  }

  datatype Event = PpuTick(rendering: bool) | StatusRead | CtrlWrite(nmi: bool) | Poll

  class Line {
    var raster: Raster
    /** The vertical blank flag and the NMI enable bit. */
    var vblank: bool
    var nmiEnabled: bool
    var suppressVbl: bool
    // the CPU's side
    var lineLow: bool
    var nmiPending: bool
    var intDelay: bool
    /** Falling edges, and writes that turned the enable bit off, since the last vertical
        blank began. */
    ghost var raises: nat
    ghost var offs: nat

    /** A low line means that the flag is set; every edge after the first needs a write
        that turned NMIs off; and no edge is left to come once the flag is clear. */
    ghost predicate Valid()
      reads this
    {
      && WellFormed(raster)
      && (lineLow ==> vblank)
      && raises <= offs + (if (lineLow && nmiEnabled) || !vblank then 1 else 0)
    }

    constructor (raster: Raster)
      requires WellFormed(raster)
      ensures Valid() && this.raster == raster && !vblank && !lineLow
      ensures !nmiEnabled && !suppressVbl && !nmiPending && !intDelay && raises == offs == 0
    {
      this.raster := raster;
      vblank, nmiEnabled, suppressVbl, lineLow, nmiPending, intDelay := false, false, false, false, false, false;
      raises, offs := 0, 0;
    }

    method PullNmiLow()
      modifies this`lineLow, this`nmiPending, this`raises
      ensures lineLow && nmiPending == (old(nmiPending) || !old(lineLow))
      ensures raises == old(raises) + if old(lineLow) then 0 else 1
    {
      if !lineLow {
        nmiPending := true;
        raises := raises + 1;
      }
      lineLow := true;
    }

    method UpdateNmiLogic()
      modifies this`lineLow, this`nmiPending, this`raises, this`intDelay
      ensures lineLow == (vblank && nmiEnabled)
      ensures nmiPending == (old(nmiPending) || (lineLow && !old(lineLow)))
      ensures raises == old(raises) + if lineLow && !old(lineLow) then 1 else 0
      ensures intDelay == (old(intDelay) || lineLow)
    {
      if vblank && nmiEnabled {
        intDelay := true;
        PullNmiLow();
      } else {
        lineLow := false;
      }
    }

    /** One PPU tick: the flag is set behind the idle dot of line 241, unless it has been
        suppressed, and cleared behind that of the pre-render line. */
    method Clock(rendering: bool)
      requires Valid()
      modifies this
      ensures Valid()
      ensures raster == Tick(old(raster), rendering) && nmiEnabled == old(nmiEnabled)
      ensures var sets, clears := SetsVblank(raster), ClearsVblank(raster);
        && vblank == (if sets then old(vblank) || !old(suppressVbl) else if clears then false else old(vblank))
        && suppressVbl == (if sets then false else old(suppressVbl))
      ensures nmiPending == (old(nmiPending) || (lineLow && !old(lineLow)))
      ensures SetsVblank(raster) && !old(suppressVbl) ==>
        offs == 0 && raises == if lineLow && !old(lineLow) then 1 else 0
      ensures !(SetsVblank(raster) && !old(suppressVbl)) ==> offs == old(offs) && raises == old(raises)
    {
      raster := Tick(raster, rendering);
      if SetsVblank(raster) {
        if !suppressVbl {
          raises, offs := 0, 0;
          vblank := true;
          UpdateNmiLogic();
        } else {
          suppressVbl := false;
        }
      } else if ClearsVblank(raster) {
        vblank := false;
        UpdateNmiLogic();
      }
    }

    /** Reading the status clears the flag. On line 241 a read just before the flag would
        be set suppresses it, and one just after takes back the pending NMI. */
    method StatusRead()
      requires Valid()
      modifies this
      ensures Valid() && raster == old(raster) && nmiEnabled == old(nmiEnabled)
      ensures !vblank && !lineLow && raises == old(raises) && offs == old(offs)
      ensures suppressVbl == (old(suppressVbl) || (raster.line == 241 && Clocks(raster) == 0))
      ensures nmiPending == (old(nmiPending) && !(raster.line == 241 && Clocks(raster) in {1, 2}))
    {
      if raster.line == 241 {
        if Clocks(raster) == 0 {
          suppressVbl := true;
        }
        if Clocks(raster) == 1 || Clocks(raster) == 2 {
          nmiPending := false;
        }
      }
      vblank := false;
      UpdateNmiLogic();
    }

    /** A control write takes effect on the line only after the first two ticks. */
    method CtrlWrite(nmi: bool)
      requires Valid()
      modifies this
      ensures Valid() && raster == old(raster) && nmiEnabled == nmi && vblank == old(vblank)
      ensures offs == old(offs) + if old(nmiEnabled) && !nmi then 1 else 0
      ensures lineLow == if Clocks(raster) > 1 then vblank && nmi else old(lineLow)
      ensures nmiPending == (old(nmiPending) || (lineLow && !old(lineLow)))
      ensures raises == old(raises) + if lineLow && !old(lineLow) then 1 else 0
      ensures suppressVbl == old(suppressVbl)
    {
      if nmiEnabled && !nmi {
        offs := offs + 1;
      }
      nmiEnabled := nmi;
      if Clocks(raster) > 1 {
        UpdateNmiLogic();
      }
    }

    /** The CPU between instructions. */
    method Poll()
      requires Valid()
      modifies this`nmiPending
      ensures Valid() && !nmiPending
    {
      nmiPending := false;
    }

    /** Over any interleaving: a low line implies the flag, and each vertical blank raises
        at most one NMI more than there were writes turning NMIs off in it. */
    method Run(events: seq<Event>)
      requires Valid()
      modifies this
      ensures Valid() && (lineLow ==> vblank) && raises <= 1 + offs
    {
      for i := 0 to |events|
        invariant Valid()
      {
        match events[i]
        case PpuTick(rendering) => Clock(rendering);
        case StatusRead => StatusRead();
        case CtrlWrite(nmi) => CtrlWrite(nmi);
        case Poll => Poll();
      }
    }

    /** A status read in the tick before the flag would be set loses the whole vertical
        blank: whatever else happens before the next one begins, there is no flag, no low
        line and no NMI. */
    method SuppressedByRead(events: seq<Event>)
      requires Valid() && raster.line == 241 && Clocks(raster) == 0 && Begins(raster, events) <= 1
      modifies this
      ensures Valid() && !vblank && !lineLow && raises == old(raises)
      ensures nmiPending ==> old(nmiPending)
    {
      StatusRead();
      for i := 0 to |events|
        invariant Valid() && !vblank && !lineLow && raises == old(raises) && (nmiPending ==> old(nmiPending))
        invariant Begins(raster, events[i..]) <= if suppressVbl then 1 else 0
      {
        assert events[i..][0] == events[i] && events[i..][1..] == events[i + 1..];
        match events[i]
        case PpuTick(rendering) => Clock(rendering);
        case StatusRead => StatusRead();
        case CtrlWrite(nmi) => CtrlWrite(nmi);
        case Poll => Poll();
      }
    }
  }

  /** How often the events reach the tick that sets the flag. */
  function Begins(r: Raster, events: seq<Event>): nat
    requires WellFormed(r)
    decreases |events|
  {
    if events == [] then 0
    else if events[0].PpuTick? then
      var n := Tick(r, events[0].rendering);
      (if SetsVblank(n) then 1 else 0) + Begins(n, events[1..])
    else Begins(r, events[1..])
  }

  predicate SetsVblank(r: Raster) {
    r.phase == Idle && r.line == 241 && AfterIdleDot(r)
  }

  predicate ClearsVblank(r: Raster) {
    r.phase == PreRender && AfterIdleDot(r)
  }

  /** What a running PPU's tick counter shows: the ticks since the start of the line, which
      stop at three in an idle line. */
  lemma ClocksMeaning(r: Raster)
    requires Steady(r)
    ensures var ticks := Position(r) % 341;
      Clocks(r) == if r.phase == Idle && ticks > 3 then 3 else ticks
  {
    hide Steady;
    LinePlace(r);
  }

  lemma LinePlace(r: Raster)
    requires Steady(r)
    ensures WellFormed(r) && 1 <= r.dot <= 341 && Position(r) % 341 == r.dot - 1
    ensures r.phase == Idle ==> r.length == 341
  {}

  /** The flag is set in the second tick of line 241 and cleared in the second of the
      pre-render line, and at no other place of a running PPU's frame. */
  lemma FlagPlaces(r: Raster)
    requires Steady(r)
    ensures SetsVblank(r) <==> Position(r) == 1
    ensures ClearsVblank(r) <==> Position(r) == 20 * 341 + 1
  {}

  /** The vertical blank lasts 6820 ticks: set at r, the flag is cleared 20 lines later and
      neither set nor cleared in between, however rendering is switched. */
  lemma {:induction false} BlankLasts(r: Raster, b: nat -> bool, n: nat)
    requires Steady(r) && SetsVblank(r) && n <= 6820
    ensures var a := After(r, b, 0, n);
      && Steady(a) && Position(a) == 1 + n
      && (ClearsVblank(a) <==> n == 6820) && (SetsVblank(a) <==> n == 0)
  {
    hide SetsVblank, ClearsVblank, Tick, Position;
    FlagPlaces(r);
    if n > 0 {
      BlankLasts(r, b, n - 1);
      SteadyTick(After(r, b, 0, n - 1), b(n - 1));
      SmallPosition(1 + n);
    }
    FlagPlaces(After(r, b, 0, n));
  }

  lemma SmallPosition(p: int)
    requires 0 <= p < 89342
    ensures p % 89342 == p
  {}
}
