/**
 The per-flow estimator of round-trip time and deviation (collector/stats/stats.go,
 updateFlowMdev), in wrapping integer arithmetic, next to the real-valued rule 2.3
 of section 2 of RFC 6298 that it approximates.
 */
module Ewma {
  import opened Machine

  /** `Fresh` is a flow whose `initialized` flag is still false. */
  datatype Flow = Fresh | Tracked(srtt: nat, mdev: nat)

  function AbsDiff(a: nat, b: nat): nat {
    if a > b then a - b else b - a
  }

  function Step(f: Flow, rtt: nat): Flow {
    match f
    case Fresh => Tracked(rtt, 0)
    case Tracked(srtt, mdev) =>
      Tracked(Wrap64(7 * srtt + rtt) / 8, Wrap64(3 * mdev + AbsDiff(rtt, srtt)) / 4)
  }

  /** Below this round-trip time (2^61 microseconds) nothing in `Step` can wrap. */
  const EWMA_LIMIT: nat := 0x2000_0000_0000_0000

  /** Without wrapping, the two new values are the floors of the weighted means. */
  lemma {:induction false} StepFloors(f: Flow, rtt: nat)
    requires f.Tracked?
    requires rtt < EWMA_LIMIT && f.srtt < EWMA_LIMIT && f.mdev < EWMA_LIMIT
    ensures var g := Step(f, rtt);
      && 8 * g.srtt <= 7 * f.srtt + rtt <= 8 * g.srtt + 7
      && 4 * g.mdev <= 3 * f.mdev + AbsDiff(rtt, f.srtt) <= 4 * g.mdev + 3
  {}

  function Run(f: Flow, rtts: seq<nat>): Flow {
    if rtts == [] then f else Step(Run(f, rtts[..|rtts| - 1]), rtts[|rtts| - 1])
  }

  lemma {:induction false} RunOfOne(rtt: nat)
    ensures Run(Fresh, [rtt]) == Tracked(rtt, 0)
  {
    assert [rtt][..0] == [];
  }

  /** The jitter value updateFlowMdev returns for the flow it has just updated. */
  function Jitter(f: Flow): nat {
    if f.Fresh? then 0 else f.mdev
  }

  ghost predicate Within(rtts: seq<nat>, lo: nat, hi: nat) {
    forall i :: 0 <= i < |rtts| ==> lo <= rtts[i] <= hi
  }

  // ---- The range of the estimates -------------------------------------------------

  /** srtt never leaves the range of the samples; mdev never exceeds its width. */
  lemma {:induction false} EstimatesStayInRange(rtts: seq<nat>, lo: nat, hi: nat)
    requires rtts != [] && Within(rtts, lo, hi) && hi < EWMA_LIMIT
    ensures var f := Run(Fresh, rtts);
      f.Tracked? && lo <= f.srtt <= hi && f.mdev <= hi - lo
  {
    if |rtts| > 1 {
      var init, rtt := rtts[..|rtts| - 1], rtts[|rtts| - 1];
      EstimatesStayInRange(init, lo, hi);
      StepFloors(Run(Fresh, init), rtt);
    }
  }

  /** One microsecond at the limit already wraps: a steady flow is estimated as 0. */
  lemma {:induction false} WrapsAtTheLimit()
    ensures Run(Fresh, [EWMA_LIMIT, EWMA_LIMIT]) == Tracked(0, 0)
  {
    assert [EWMA_LIMIT, EWMA_LIMIT][..1] == [EWMA_LIMIT];
    assert Run(Fresh, [EWMA_LIMIT]) == Tracked(EWMA_LIMIT, 0);
  }

  // ---- The real-valued rule it approximates ---------------------------------------

  datatype RealFlow = RealFresh | RealTracked(srtt: real, mdev: real)

  function RealAbs(x: real): real { if x < 0.0 then -x else x }

  function RealStep(f: RealFlow, rtt: real): RealFlow {
    match f
    case RealFresh => RealTracked(rtt, 0.0)
    case RealTracked(srtt, mdev) =>
      RealTracked(0.875 * srtt + 0.125 * rtt, 0.75 * mdev + 0.25 * RealAbs(srtt - rtt))
  }

  function RealRun(rtts: seq<nat>): RealFlow {
    if rtts == [] then RealFresh else RealStep(RealRun(rtts[..|rtts| - 1]), rtts[|rtts| - 1] as real)
  }

  /** The integer estimates are at most this far from the real ones. */
  ghost predicate Tracks(f: Flow, g: RealFlow) {
    && f.Tracked? && g.RealTracked?
    && 0.0 <= g.srtt - f.srtt as real < 7.0
    && -7.0 < g.mdev - f.mdev as real < 10.0
  }

  lemma {:induction false} StepTracks(f: Flow, g: RealFlow, rtt: nat)
    requires Tracks(f, g)
    requires 7 * f.srtt + rtt < TWO64 && 3 * f.mdev + AbsDiff(rtt, f.srtt) < TWO64
    ensures Tracks(Step(f, rtt), RealStep(g, rtt as real))
  {}

  /** Rounding errors never accumulate, however long the run. */
  lemma {:induction false} IntegerTracksReal(rtts: seq<nat>)
    requires rtts != [] && Within(rtts, 0, EWMA_LIMIT - 1)
    ensures Tracks(Run(Fresh, rtts), RealRun(rtts))
  {
    if |rtts| > 1 {
      var init := rtts[..|rtts| - 1];
      IntegerTracksReal(init);
      EstimatesStayInRange(init, 0, EWMA_LIMIT - 1);
      StepTracks(Run(Fresh, init), RealRun(init), rtts[|rtts| - 1]);
    }
  }

  // ---- A constant round-trip time -------------------------------------------------

  function Repeat(x: nat, n: nat): seq<nat> { seq(n, _ => x) }

  lemma {:induction false} RunRepeat(f: Flow, r: nat, n: nat)
    requires n > 0
    ensures Run(f, Repeat(r, n)) == Step(Run(f, Repeat(r, n - 1)), r)
  {
    assert Repeat(r, n)[..n - 1] == Repeat(r, n - 1);
  }

  /** Settled on `r`: srtt at most 7 below (never above), deviation at most 7. */
  predicate Settled(f: Flow, r: nat) {
    f.Tracked? && f.srtt <= r <= f.srtt + 7 && f.mdev <= 7
  }

  /** What n samples of r must have achieved: `dist` is the distance at the start. */
  ghost predicate Progress(f: Flow, g: Flow, r: nat, n: nat, dev: nat)
    requires f.Tracked?
  {
    var dist := AbsDiff(r, f.srtt);
    && g.Tracked? && g.mdev <= dev && AbsDiff(r, g.srtt) <= dist
    && (f.srtt <= r ==> g.srtt <= r && (r - g.srtt <= 7 || r - g.srtt + n <= dist))
    && (f.srtt >= r ==> g.srtt >= r && (g.srtt == r || g.srtt - r + n <= dist))
    && (n >= dist ==> g.mdev <= 7 || g.mdev + (n - dist) <= dev)
  }

  lemma {:induction false} StepProgress(f: Flow, g: Flow, r: nat, n: nat, dev: nat)
    requires f.Tracked? && r < EWMA_LIMIT && f.srtt < EWMA_LIMIT
    requires AbsDiff(r, f.srtt) <= dev < EWMA_LIMIT && Progress(f, g, r, n, dev)
    ensures Progress(f, Step(g, r), r, n + 1, dev)
  {}

  lemma {:induction false} Approaches(f: Flow, r: nat, n: nat, dev: nat)
    requires f.Tracked? && r < EWMA_LIMIT && f.srtt < EWMA_LIMIT
    requires f.mdev <= dev && AbsDiff(r, f.srtt) <= dev < EWMA_LIMIT
    ensures Progress(f, Run(f, Repeat(r, n)), r, n, dev)
  {
    if n > 0 {
      Approaches(f, r, n - 1, dev);
      RunRepeat(f, r, n);
      StepProgress(f, Run(f, Repeat(r, n - 1)), r, n - 1, dev);
    }
  }

  function SettlingTime(f: Flow, r: nat): nat {
    if f.Fresh? then 0
    else
      var dist := AbsDiff(r, f.srtt);
      dist + if f.mdev > dist then f.mdev else dist
  }

  lemma {:induction false} FreshSettlesAtOnce(r: nat, n: nat)
    requires n > 0 && r < EWMA_LIMIT
    ensures Run(Fresh, Repeat(r, n)) == Tracked(r, 0)
  {
    RunRepeat(Fresh, r, n);
    if n > 1 {
      FreshSettlesAtOnce(r, n - 1);
      StepFloors(Tracked(r, 0), r);
    }
  }

  /** From any state, |srtt - r| + max(mdev, |srtt - r|) samples of r settle the flow on r. */
  lemma {:induction false} SettlesOnConstant(f: Flow, r: nat, n: nat)
    requires r < EWMA_LIMIT
    requires f.Tracked? ==> f.srtt < EWMA_LIMIT && f.mdev < EWMA_LIMIT
    requires n > SettlingTime(f, r)
    ensures var g := Run(f, Repeat(r, n));
      Settled(g, r) && (f.Tracked? && f.srtt >= r ==> g.srtt == r)
  {
    if f.Fresh? {
      FreshSettlesAtOnce(r, n);
    } else {
      var dist := AbsDiff(r, f.srtt);
      Approaches(f, r, n, if f.mdev > dist then f.mdev else dist);
    }
  }
}
