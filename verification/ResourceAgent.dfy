/**
 The per-container counters of the resource agent (resource_agent/main.go): deltas between
 successful readings, and what they mean for the classification of a spike.
 */
module ResourceAgent {
  import opened Machine
  import opened Model
  import Processor

  /** The cumulative counters of one successful reading (uint64 values). */
  datatype Reading = Reading(usage: nat, throttled: nat, rbytes: nat, wbytes: nat, high: nat, oomKill: nat)

  /** The momentary values read beside them; limit and I/O wait may be unreadable. */
  datatype Gauges = Gauges(
    memCurrent: nat, memLimit: Option<nat>, ioWait: Option<real>, psiSome: real, psiFull: real)

  /** A tick either fails before anything is stored, or reads all counters. */
  datatype Tick = Failed | Read(r: Reading, g: Gauges)

  function SafeDelta(curr: nat, prev: nat): nat { if curr < prev then 0 else curr - prev }

  function Clamp100(v: real): real { if v < 0.0 then 0.0 else if v > 100.0 then 100.0 else v }

  /** The uint64 sum wraps at the largest delta: 1/0 is +Inf, and the score is clamped to 0. */
  function MemPressureScore(deltaHigh: nat): real {
    if deltaHigh == 0 then 0.0
    else
      var d := Wrap64(1 + deltaHigh);
      if d == 0 then 0.0 else Clamp100((1.0 - 1.0 / d as real) * 100.0)
  }

  /** What one tick emits. */
  datatype Snapshot = Snapshot(
    service: string, timeMs: int, cpuPct: real, throttlePct: real, memCurrent: nat, memLimit: nat,
    memPressurePct: real, readPerS: int, writePerS: int, ioWaitPct: real, oomKills: nat,
    psiSome: real, psiFull: real)

  function Pct(delta: nat, interval: real): real
    requires interval > 0.0
  {
    Clamp100(delta as real / (interval * 1_000_000.0) * 100.0)
  }

  function PerSecond(delta: nat, interval: real): int
    requires interval > 0.0
  {
    (delta as real / interval).Floor
  }

  function Kept(last: Option<Reading>, t: Tick): Option<Reading> { if t.Read? then Some(t.r) else last }

  /** The share of the interval: 100 from the full interval in microseconds on, proportional below. */
  lemma {:induction false} PctExactly(delta: nat, interval: real)
    requires interval > 0.0
    ensures Pct(delta, interval) == 100.0 <==> delta as real >= interval * 1_000_000.0
    ensures delta as real <= interval * 1_000_000.0 ==>
      Pct(delta, interval) * (interval * 1_000_000.0) == 100.0 * delta as real
    ensures 0.0 <= Pct(delta, interval) <= 100.0
  {
    var x, y := delta as real, interval * 1_000_000.0;
    assert x / y * y == x;
    assert x >= y <==> x / y >= 1.0;
  }

  lemma {:induction false} QuotientTimes(x: real, c: real)
    requires c > 0.0
    ensures x / c * c == x
  {}

  lemma {:induction false} ScaleOrder(x: real, y: real, c: real)
    requires c > 0.0
    ensures x <= y ==> x * c <= y * c
    ensures x < y ==> x * c < y * c
  {
    assert (y - x) * c == y * c - x * c;
  }

  /** A floor f of d / c, as a bound on d. */
  lemma {:induction false} FloorBounds(f: real, x: real, c: real, d: real)
    requires c > 0.0 && f <= x < f + 1.0 && x * c == d
    ensures f * c <= d < f * c + c
  {
    ScaleOrder(f, x, c);
    calc {
      d;
      x * c;
    < { ScaleOrder(x, f + 1.0, c); }
      (f + 1.0) * c;
      f * c + c;
    }
  }

  /** The floored rate. */
  lemma {:induction false} PerSecondExactly(delta: nat, interval: real)
    requires interval > 0.0
    ensures var n := PerSecond(delta, interval) as real;
      n * interval <= delta as real < n * interval + interval
  {
    var x, n := delta as real / interval, PerSecond(delta, interval) as real;
    QuotientTimes(delta as real, interval);
    assert n <= x < n + 1.0;
    FloorBounds(n, x, interval, delta as real);
  }

  /** containerState of the source, updated in place by readSnapshot. */
  class ContainerState {
    var prev: Reading
    var hasPrev: bool

    constructor ()
      ensures !hasPrev
    {
      prev, hasPrev := Reading(0, 0, 0, 0, 0, 0), false;
    }

    function Last(): Option<Reading>
      reads this
    {
      if hasPrev then Some(prev) else None
    }

    method ReadSnapshot(name: string, t: Tick, nowMs: int, interval: real) returns (snap: Option<Snapshot>)
      requires interval > 0.0
      modifies this
      ensures Last() == Kept(old(Last()), t)
      ensures snap.Some? <==> t.Read? && old(Last()).Some?
      ensures snap.Some? ==>
        && snap.value.oomKills == SafeDelta(t.r.oomKill, old(prev).oomKill)
        && snap.value.memPressurePct == MemPressureScore(SafeDelta(t.r.high, old(prev).high))
        && snap.value.throttlePct == Pct(SafeDelta(t.r.throttled, old(prev).throttled), interval)
        && snap.value.cpuPct == Pct(SafeDelta(t.r.usage, old(prev).usage), interval)
        && snap.value.readPerS == PerSecond(SafeDelta(t.r.rbytes, old(prev).rbytes), interval)
        && snap.value.writePerS == PerSecond(SafeDelta(t.r.wbytes, old(prev).wbytes), interval)
        && snap.value.service == name && snap.value.timeMs == nowMs
        && snap.value.memCurrent == t.g.memCurrent && snap.value.memLimit == t.g.memLimit.Or(0)
        && snap.value.ioWaitPct == t.g.ioWait.Or(0.0)
        && snap.value.psiSome == t.g.psiSome && snap.value.psiFull == t.g.psiFull
    {
      if t.Failed? {
        return None;
      }
      var cur, now := t.r, t.g;
      if !hasPrev {
        prev, hasPrev := cur, true;
        return None;
      }
      var s := Snapshot(
        service := name,
        timeMs := nowMs,
        cpuPct := Pct(SafeDelta(cur.usage, prev.usage), interval),
        throttlePct := Pct(SafeDelta(cur.throttled, prev.throttled), interval),
        memCurrent := now.memCurrent,
        memLimit := now.memLimit.Or(0),
        memPressurePct := MemPressureScore(SafeDelta(cur.high, prev.high)),
        readPerS := PerSecond(SafeDelta(cur.rbytes, prev.rbytes), interval),
        writePerS := PerSecond(SafeDelta(cur.wbytes, prev.wbytes), interval),
        ioWaitPct := now.ioWait.Or(0.0),
        oomKills := SafeDelta(cur.oomKill, prev.oomKill),
        psiSome := now.psiSome,
        psiFull := now.psiFull);
      prev := cur;
      return Some(s);
    }
  }

  // ---- Runs of ticks -----------------------------------------------------------------------

  function LastReading(ticks: seq<Tick>): Option<Reading> {
    if ticks == [] then None else Kept(LastReading(ticks[..|ticks| - 1]), ticks[|ticks| - 1])
  }

  /** The OOM kills reported over a run: the sum of the emitted deltas. */
  function Reported(ticks: seq<Tick>): nat {
    if ticks == [] then 0
    else
      var init, t := ticks[..|ticks| - 1], ticks[|ticks| - 1];
      var last := LastReading(init);
      Reported(init) + if t.Read? && last.Some? then SafeDelta(t.r.oomKill, last.value.oomKill) else 0
  }

  /** The counter values of the successful readings, in order. */
  function Counts(ticks: seq<Tick>): seq<nat> {
    if ticks == [] then []
    else
      var init, t := ticks[..|ticks| - 1], ticks[|ticks| - 1];
      if t.Read? then Counts(init) + [t.r.oomKill] else Counts(init)
  }

  /** The sum of the upward steps of a sequence of counter values. */
  function Climb(cs: seq<nat>): nat {
    if |cs| < 2 then 0
    else
      var n := |cs| - 1;
      Climb(cs[..n]) + if cs[n] > cs[n - 1] then cs[n] - cs[n - 1] else 0
  }

  lemma {:induction false} LastCount(ticks: seq<Tick>)
    ensures LastReading(ticks).Some? <==> Counts(ticks) != []
    ensures Counts(ticks) != [] ==> Counts(ticks)[|Counts(ticks)| - 1] == LastReading(ticks).value.oomKill
  {
    if ticks != [] {
      LastCount(ticks[..|ticks| - 1]);
    }
  }

  /** Failed ticks neither lose nor repeat anything: the reports add up to the upward steps. */
  lemma {:induction false} ReportsAddUp(ticks: seq<Tick>)
    ensures Reported(ticks) == Climb(Counts(ticks))
  {
    if ticks != [] {
      var init, t := ticks[..|ticks| - 1], ticks[|ticks| - 1];
      ReportsAddUp(init);
      LastCount(init);
      var cs := Counts(init);
      if t.Read? {
        assert (cs + [t.r.oomKill])[..|cs|] == cs;
      }
    }
  }

  ghost predicate NonDecreasing(cs: seq<nat>) { forall i, j :: 0 <= i <= j < |cs| ==> cs[i] <= cs[j] }

  /** A counter that is never reset climbs from its first to its last value, and only then. */
  lemma {:induction false} ClimbIsDifference(cs: seq<nat>)
    requires cs != []
    ensures cs[0] + Climb(cs) >= cs[|cs| - 1]
    ensures cs[0] + Climb(cs) == cs[|cs| - 1] <==> NonDecreasing(cs)
  {
    if |cs| > 1 {
      var n := |cs| - 1;
      var init := cs[..n];
      ClimbIsDifference(init);
      assert NonDecreasing(cs) <==> NonDecreasing(init) && cs[n - 1] <= cs[n] by {
        if NonDecreasing(init) && cs[n - 1] <= cs[n] {
          assert forall i :: 0 <= i < n ==> init[i] <= init[n - 1];
        }
        if NonDecreasing(cs) {
          assert forall i, j :: 0 <= i <= j < n ==> init[i] == cs[i] && init[j] == cs[j];
        }
      }
    }
  }

  /** Over any run the reports equal last minus first exactly when no reset was observed. */
  lemma {:induction false} ReportsAreDifference(ticks: seq<Tick>)
    requires Counts(ticks) != []
    ensures var cs := Counts(ticks);
      cs[0] + Reported(ticks) == cs[|cs| - 1] <==> NonDecreasing(cs)
  {
    ReportsAddUp(ticks);
    ClimbIsDifference(Counts(ticks));
  }

  // ---- From counters to causes -----------------------------------------------------------------

  lemma {:induction false} ReciprocalBounds(y: real)
    requires y >= 2.0
    ensures 0.0 < 1.0 / y <= 0.5
  {}

  /** The score says "pressure" exactly when a high event occurred, but for one wrapped value. */
  lemma {:induction false} ScoreMeansHighEvent(d: nat)
    requires d < TWO64
    ensures MemPressureScore(d) >= 50.0 <==> 0 < d < TWO64 - 1
    ensures MemPressureScore(d) == 0.0 <==> d == 0 || d == TWO64 - 1
    ensures 0.0 <= MemPressureScore(d) < 100.0
  {
    if 0 < d < TWO64 - 1 {
      var x := 1.0 / (1 + d) as real;
      ReciprocalBounds((1 + d) as real);
      assert 0.0 < x <= 0.5;
    }
  }

  lemma {:induction false} ReciprocalOrder(x: real, y: real)
    requires x > 0.0 && y > 0.0
    ensures 1.0 / x <= 1.0 / y <==> x >= y
  {
    assert 1.0 / x * x == 1.0 && 1.0 / y * y == 1.0;
  }

  /** The score reaches 1 - 1/n of the scale with the (n-1)-th high event, and not before. */
  lemma {:induction false} ScoreReaches(d: nat, n: nat)
    requires d < TWO64 - 1 && n > 1
    ensures MemPressureScore(d) >= (1.0 - 1.0 / n as real) * 100.0 <==> d >= n - 1
  {
    if d == 0 {
      ReciprocalBounds(n as real);
    } else {
      ScoreMeansHighEvent(d);
      ReciprocalOrder((1 + d) as real, n as real);
    }
  }

  /** So the promised 75% takes three high events: two fall short of it. */
  lemma {:induction false} TwoEventsFallShort(d: nat)
    requires d < TWO64 - 1
    ensures MemPressureScore(2) < 75.0
    ensures MemPressureScore(d) >= 75.0 <==> d >= 3
  {
    ScoreReaches(2, 4);
    ScoreReaches(d, 4);
  }

  /**
   A spike towards an internal destination that saw no OOM kill and no throttling is blamed
   on memory exactly when the container had a high event in the last interval.
   */
  lemma {:induction false} MemoryBlamedForHighEvents(u: Resource, d: nat)
    requires d < TWO64 - 1
    requires u.oomKills == 0 && u.throttle <= 1.0 && u.memPressure == MemPressureScore(d)
    ensures Processor.DetectCause(Internal, Some(u)).kind == ByMemory <==> d > 0
    ensures Processor.DetectCause(Internal, Some(u)) ==
      if d > 0 then Cause(ByMemory, MemPressure) else Cause(ByNetwork, Nothing)
  {
    ScoreMeansHighEvent(d);
    Processor.CauseExactly(Internal, Some(u));
  }
}
