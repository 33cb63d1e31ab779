/** Clock division and skipped resumptions. A stepper divides one master clock among
    receivers, each a coroutine that gives up control once per tick of its own clock;
    a coroutine that has nothing to do for n ticks may say so instead of being resumed
    n times. */
module Stepper {
  import opened Arith

  // ---- skipped resumptions -----------------------------------------------------

  /** What a receiver does between two pieces of work: n ticks, one yield each, or
      n ticks in one yield that asks to be skipped n-1 times. */
  datatype Wait = Cycle(n: nat) | CycleFast(n: nat)

  class Receiver {
    /** The waits of the receiver's code, in order. */
    const code: seq<Wait>
    /** Index of the wait the coroutine is suspended in; -1 before its first run. */
    var at: int
    /** Yields the current wait has still to make. */
    var yieldsLeft: nat
    var skipCount: nat

    ghost predicate Valid()
      reads this
    {
      && (forall w <- code :: w.n > 0)
      && -1 <= at < |code|
      && (at == -1 ==> yieldsLeft == 0 && skipCount == 0)
      && (at >= 0 ==> yieldsLeft + skipCount < code[at].n)
      && (at >= 0 && code[at].Cycle? ==> skipCount == 0)
      && (at >= 0 && code[at].CycleFast? ==> yieldsLeft == 0)
    }

    /** Ticks of the receiver's clock counted so far. */
    ghost function Elapsed(): nat
      requires Valid()
      reads this
    {
      if at == -1 then 0 else TicksBefore(code, at) + code[at].n - yieldsLeft - skipCount
    }

    constructor (code: seq<Wait>)
      requires forall w <- code :: w.n > 0
      ensures Valid() && this.code == code && Elapsed() == 0
    {
      this.code := code;
      at, yieldsLeft, skipCount := -1, 0, 0;
    }

    /** One tick: a pending skip is used up, otherwise the coroutine runs to its next
        yield. It may not be called once the code has run out. */
    method RunCo()
      requires Valid() && Elapsed() < TicksBefore(code, |code|)
      modifies this
      ensures Valid() && Elapsed() == old(Elapsed()) + 1
    {
      if skipCount > 0 {
        skipCount := skipCount - 1;
      } else {
        Resume();
      }
    }

    method Resume()
      requires Valid() && skipCount == 0 && Elapsed() < TicksBefore(code, |code|)
      modifies this
      ensures Valid() && Elapsed() == old(Elapsed()) + 1
    {
      if yieldsLeft > 0 {
        yieldsLeft := yieldsLeft - 1;
      } else {
        at := at + 1;
        match code[at]
        case Cycle(n) =>
          yieldsLeft := n - 1;
        case CycleFast(n) =>
          skipCount := n - 1;
      }
    }

    /** After `ticks` ticks the coroutine stands in the wait that plain counting of
        clock ticks assigns to it, however the waits are split into plain and fast. */
    method RunTicks(ticks: nat)
      requires Valid() && at == -1 && 0 < ticks <= TicksBefore(code, |code|)
      modifies this
      ensures Valid() && 0 <= at && TicksBefore(code, at) < ticks <= TicksBefore(code, at + 1)
    {
      for i := 0 to ticks
        invariant Valid() && Elapsed() == i
      {
        RunCo();
      }
    }
  }

  /** Ticks the first k waits take together. */
  function TicksBefore(code: seq<Wait>, k: nat): nat
    requires k <= |code|
  {
    if k == 0 then 0 else TicksBefore(code, k - 1) + code[k - 1].n
  }

  lemma {:induction false} TicksGrow(code: seq<Wait>, j: nat, k: nat)
    requires j <= k <= |code|
    ensures TicksBefore(code, j) <= TicksBefore(code, k)
    decreases k
  {
    if j < k {
      TicksGrow(code, j, k - 1);
    }
  }

  /** The wait a tick count falls into is the only one. */
  lemma WaitUnique(code: seq<Wait>, ticks: nat, j: nat, k: nat)
    requires j < |code| && k < |code|
    requires TicksBefore(code, j) < ticks <= TicksBefore(code, j + 1)
    requires TicksBefore(code, k) < ticks <= TicksBefore(code, k + 1)
    ensures j == k
  {
    if j < k {
      TicksGrow(code, j + 1, k);
    } else if k < j {
      TicksGrow(code, k + 1, j);
    }
  }

  // ---- clock division ----------------------------------------------------------

  /** One receiver: its divisor, its position in the divided clock, and how often it
      has been run. */
  datatype Entry = Entry(clockRate: nat, curClock: nat, runs: nat)

  predicate Positive(rates: seq<nat>) {
    forall i :: 0 <= i < |rates| ==> rates[i] > 0
  }

  /** Run at each clock the rate divides. */
  predicate RanAt(before: Entry, after: Entry, clock: nat)
    requires before.clockRate > 0
  {
    && after.clockRate == before.clockRate && after.curClock == before.curClock
    && after.runs - before.runs == Ceil(clock + 1, after.clockRate) - Ceil(clock, after.clockRate)
  }

  /** The first n receivers that a master tick runs. */
  function Due(es: seq<Entry>, n: nat): seq<nat>
    requires n <= |es|
  {
    if n == 0 then []
    else Due(es, n - 1) + if es[n - 1].curClock + 1 == es[n - 1].clockRate then [n - 1] else []
  }

  predicate Rated(es: seq<Entry>) {
    forall i :: 0 <= i < |es| ==> es[i].clockRate > 0
  }

  /** The first n receivers that a clock of a whole step runs. */
  function RunsAt(es: seq<Entry>, clock: nat, n: nat): seq<nat>
    requires n <= |es| && Rated(es)
  {
    if n == 0 then []
    else RunsAt(es, clock, n - 1) + if clock % es[n - 1].clockRate == 0 then [n - 1] else []
  }

  function WholeOrder(es: seq<Entry>, max: nat): seq<nat>
    requires Rated(es)
  {
    if max == 0 then [] else WholeOrder(es, max - 1) + RunsAt(es, max - 1, |es|)
  }

  lemma {:induction false} SameRates(es: seq<Entry>, fs: seq<Entry>, clock: nat, n: nat)
    requires Rated(es) && Rated(fs) && |es| == |fs| && n <= |es|
    requires forall i :: 0 <= i < |es| ==> es[i].clockRate == fs[i].clockRate
    ensures RunsAt(es, clock, n) == RunsAt(fs, clock, n)
  {
    if n > 0 {
      SameRates(es, fs, clock, n - 1);
    }
  }

  /** A whole step of the console's clocks runs the CPU once and then the PPU three times. */
  lemma ConsoleOrder(cpu: Entry, ppu: Entry)
    requires cpu.clockRate == 12 && ppu.clockRate == 4
    ensures WholeOrder([cpu, ppu], 12) == [0, 1, 1, 1]
  {
    hide RunsAt, WholeOrder;
    var es := [cpu, ppu];
    OrderFrom(es, 0);
  }

  /** The order of the clocks before `clock`, one at a time. */
  function OrderBefore(clock: nat): seq<nat> {
    if clock == 0 then [] else if clock <= 4 then [0, 1] else if clock <= 8 then [0, 1, 1] else [0, 1, 1, 1]
  }

  lemma {:induction false} OrderFrom(es: seq<Entry>, left: nat)
    requires |es| == 2 && es[0].clockRate == 12 && es[1].clockRate == 4 && left <= 12
    ensures WholeOrder(es, 12 - left) == OrderBefore(12 - left)
    decreases 12 - left
  {
    if left < 12 {
      OrderFrom(es, left + 1);
      assert RunsAt(es, 11 - left, 1) == if (11 - left) % 12 == 0 then [0] else [];
    }
  }

  class ParallelStepper {
    var entries: seq<Entry>
    /** The receivers that have been run, in order. */
    ghost var trace: seq<nat>

    ghost predicate Valid()
      reads this
    {
      forall i :: 0 <= i < |entries| ==> entries[i].curClock < entries[i].clockRate
    }

    constructor (rates: seq<nat>)
      requires Positive(rates)
      ensures Valid() && |entries| == |rates|
      ensures forall i :: 0 <= i < |rates| ==> entries[i] == Entry(rates[i], 0, 0)
      ensures trace == []
    {
      trace := [];
      entries := seq(|rates|, i requires 0 <= i < |rates| => Entry(rates[i], 0, 0));
    }

    /** One master clock tick. */
    method Step()
      requires Valid()
      modifies this
      ensures Valid()
      ensures |entries| == |old(entries)|
      ensures forall i :: 0 <= i < |entries| ==> entries[i] == Advanced(old(entries)[i], 1)
      ensures trace == old(trace) + Due(old(entries), |old(entries)|)
    {
      for i := 0 to |entries|
        invariant |entries| == |old(entries)|
        invariant trace == old(trace) + Due(old(entries), i)
        invariant forall k :: 0 <= k < i ==> entries[k] == Advanced(old(entries)[k], 1)
        invariant forall k :: i <= k < |entries| ==> entries[k] == old(entries)[k]
      {
        var e := entries[i];
        OneTick(e);
        if e.curClock + 1 == e.clockRate {
          entries := entries[i := Entry(e.clockRate, 0, e.runs + 1)];
          trace := trace + [i];
        } else {
          entries := entries[i := e.(curClock := e.curClock + 1)];
        }
      }
    }

    method StepMany(n: nat)
      requires Valid()
      modifies this
      ensures Valid() && |entries| == |old(entries)|
      ensures forall i :: 0 <= i < |entries| ==> entries[i] == Advanced(old(entries)[i], n)
    {
      forall i | 0 <= i < |entries| ensures Advanced(entries[i], 0) == entries[i] {
        DivUnique(entries[i].curClock, entries[i].clockRate, 0, entries[i].curClock);
      }
      for k := 0 to n
        invariant Valid() && |entries| == |old(entries)|
        invariant forall i :: 0 <= i < |entries| ==> entries[i] == Advanced(old(entries)[i], k)
      {
        Step();
        forall i | 0 <= i < |entries| ensures entries[i] == Advanced(old(entries)[i], k + 1) {
          AdvancedTwice(old(entries)[i], k);
        }
      }
    }

    /** A whole period of the slowest receiver: each runs at the clocks its rate divides. */
    method StepWhole(max: nat)
      requires Valid()
      modifies this
      ensures Valid() && |entries| == |old(entries)|
      ensures forall i :: 0 <= i < |entries| ==>
        entries[i] == old(entries)[i].(runs := old(entries)[i].runs + Ceil(max, old(entries)[i].clockRate))
      ensures trace == old(trace) + WholeOrder(old(entries), max)
    {
      for clock := 0 to max
        invariant trace == old(trace) + WholeOrder(old(entries), clock)
        invariant Valid() && |entries| == |old(entries)|
        invariant forall i :: 0 <= i < |entries| ==>
          entries[i] == old(entries)[i].(runs := old(entries)[i].runs + Ceil(clock, old(entries)[i].clockRate))
      {
        ghost var before := entries;
        RunIfClock(clock);
        SameRates(before, old(entries), clock, |before|);
      }
    }

    method RunIfClock(clock: nat)
      requires Valid()
      modifies this
      ensures Valid() && |entries| == |old(entries)|
      ensures forall i :: 0 <= i < |entries| ==> RanAt(old(entries)[i], entries[i], clock)
      ensures trace == old(trace) + RunsAt(old(entries), clock, |old(entries)|)
    {
      for i := 0 to |entries|
        invariant trace == old(trace) + RunsAt(old(entries), clock, i)
        invariant |entries| == |old(entries)|
        invariant forall k :: i <= k < |entries| ==> entries[k] == old(entries)[k]
        invariant forall k :: 0 <= k < i ==> RanAt(old(entries)[k], entries[k], clock)
      {
        CeilNext(clock, entries[i].clockRate);
        if clock % entries[i].clockRate == 0 {
          entries := entries[i := entries[i].(runs := entries[i].runs + 1)];
          trace := trace + [i];
        }
      }
    }
  }

  /** An entry after n further master ticks. */
  function Advanced(e: Entry, n: nat): Entry
    requires e.clockRate > 0
  {
    Entry(e.clockRate, (e.curClock + n) % e.clockRate, e.runs + (e.curClock + n) / e.clockRate)
  }

  lemma OneTick(e: Entry)
    requires e.curClock < e.clockRate
    ensures Advanced(e, 1) == if e.curClock + 1 == e.clockRate then Entry(e.clockRate, 0, e.runs + 1)
      else e.(curClock := e.curClock + 1)
  {
    if e.curClock + 1 == e.clockRate {
      DivUnique(e.curClock + 1, e.clockRate, 1, 0);
    } else {
      DivUnique(e.curClock + 1, e.clockRate, 0, e.curClock + 1);
    }
  }

  lemma AdvancedTwice(e: Entry, n: nat)
    requires e.clockRate > 0
    ensures Advanced(Advanced(e, n), 1) == Advanced(e, n + 1)
  {
    var t := e.curClock + n;
    var q, r := t / e.clockRate, t % e.clockRate;
    assert t == e.clockRate * q + r;
    AddMultiple(r + 1, e.clockRate, q);
  }

  /** Multiples of rate among 0 .. n-1. */
  function Ceil(n: nat, rate: nat): nat
    requires rate > 0
  {
    (n + rate - 1) / rate
  }

  lemma CeilNext(n: nat, rate: nat)
    requires rate > 0
    ensures Ceil(n + 1, rate) == Ceil(n, rate) + if n % rate == 0 then 1 else 0
  {
    var q, r := n / rate, n % rate;
    assert n == rate * q + r;
    AddMultiple(r + rate - 1, rate, q);
    AddMultiple(r + rate, rate, q);
    if r == 0 {
      DivUnique(rate - 1, rate, 0, rate - 1);
    } else {
      DivUnique(r + rate - 1, rate, 1, r - 1);
    }
    DivUnique(r + rate, rate, 1, r);
  }

  /** Stepping whole periods runs a receiver as often as stepping tick by tick exactly
      when its rate divides the period. */
  lemma WholeIsExact(max: nat, rate: nat, k: nat)
    requires 0 < rate && 0 < k
    ensures k * Ceil(max, rate) == (k * max) / rate <==> max % rate == 0
  {
    if max % rate == 0 {
      DividingRate(max, rate, k);
    } else {
      OtherRate(max, rate, k);
    }
  }

  lemma DividingRate(max: nat, rate: nat, k: nat)
    requires 0 < rate && max % rate == 0
    ensures k * Ceil(max, rate) == (k * max) / rate
  {
    var q := max / rate;
    assert max == rate * q;
    AddMultiple(rate - 1, rate, q);
    DivUnique(rate - 1, rate, 0, rate - 1);
    Reorder(k, q, rate);
    MultipleMod(k * q, rate);
  }

  lemma Reorder(k: nat, q: nat, rate: nat)
    ensures k * (rate * q) == (k * q) * rate == rate * (k * q)
  {}

  /** Otherwise whole periods run it too often. */
  lemma OtherRate(max: nat, rate: nat, k: nat)
    requires 0 < rate && 0 < k && max % rate != 0
    ensures k * Ceil(max, rate) > (k * max) / rate
  {
    var q, r := max / rate, max % rate;
    assert max == rate * q + r;
    AddMultiple(r + rate - 1, rate, q);
    DivUnique(r + rate - 1, rate, 1, r - 1);
    assert k * max == rate * (k * q) + k * r by {
      Reorder(k, q, rate);
      assert k * (rate * q + r) == k * (rate * q) + k * r;
    }
    AddMultiple(k * r, rate, k * q);
    MulMonotone(k, r, rate);
    QuotientBelow(k * r, rate, k);
    assert k * (q + 1) == k * q + k;
  }

  lemma QuotientBelow(n: nat, rate: nat, k: nat)
    requires 0 < rate && n < rate * k
    ensures n / rate < k
  {
    MulMonotone(rate, k, n / rate);
  }

  /** The period is a multiple of every rate. */
  predicate AllDivide(rates: seq<nat>, max: nat)
    requires Positive(rates)
  {
    forall i :: 0 <= i < |rates| ==> max % rates[i] == 0
  }

  /** k * max single steps of the receivers from reset. */
  method BySteps(rates: seq<nat>, max: nat, k: nat) returns (runs: seq<nat>)
    requires Positive(rates)
    ensures |runs| == |rates| && forall i :: 0 <= i < |rates| ==> runs[i] == (k * max) / rates[i]
  {
    var a := new ParallelStepper(rates);
    a.StepMany(k * max);
    runs := seq(|rates|, i requires 0 <= i < |a.entries| reads a => a.entries[i].runs);
  }

  /** k whole steps of the receivers from reset. */
  method ByWhole(rates: seq<nat>, max: nat, k: nat) returns (runs: seq<nat>)
    requires Positive(rates)
    ensures |runs| == |rates| && forall i :: 0 <= i < |rates| ==> runs[i] == k * Ceil(max, rates[i])
  {
    var b := new ParallelStepper(rates);
    for j := 0 to k
      invariant b.Valid() && |b.entries| == |rates|
      invariant forall i :: 0 <= i < |rates| ==> b.entries[i] == Entry(rates[i], 0, j * Ceil(max, rates[i]))
    {
      b.StepWhole(max);
      forall i | 0 <= i < |rates|
        ensures j * Ceil(max, rates[i]) + Ceil(max, rates[i]) == (j + 1) * Ceil(max, rates[i]) {}
    }
    runs := seq(|rates|, i requires 0 <= i < |b.entries| reads b => b.entries[i].runs);
  }

  /** The run counts agree, for any number k of periods, exactly when every rate
      divides the period. */
  method Compare(rates: seq<nat>, max: nat, k: nat) returns (same: bool)
    requires Positive(rates) && 0 < k
    ensures same <==> AllDivide(rates, max)
  {
    var a := BySteps(rates, max, k);
    var b := ByWhole(rates, max, k);
    same := a == b;
    forall i | 0 <= i < |rates| ensures a[i] == b[i] <==> max % rates[i] == 0 {
      WholeIsExact(max, rates[i], k);
    }
  }
}
