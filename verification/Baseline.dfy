/**
 One connection of the statistics engine as a value: the last 1000 round-trip times, the
 gated baseline `stableP99` and the spike test (collector/stats/stats.go). `ConnStats.dfy`
 shows that the ring buffers of the source implement it.
 */
module Baseline {
  import opened Machine
  import opened OrderStats
  import Ewma

  const RING: nat := 1000
  const SPIKE_MULTIPLIER: nat := 3

  datatype Conn = Conn(rtts: seq<nat>, jitters: seq<nat>, stableP99: nat)

  const EMPTY := Conn([], [], 0)

  function Push(w: seq<nat>, x: nat): seq<nat> { Last(RING, w + [x]) }

  function Latest(w: seq<nat>): nat { if w == [] then 0 else w[|w| - 1] }

  /** updateStableP99: the gate opens on the first sample and whenever jitter is low. */
  function Rebase(stable: nat, rtts: seq<nat>, jitter: nat): nat {
    var p99 := Percentile(rtts, 99);
    if p99 == 0 then stable
    else if stable == 0 || jitter <= Percentile(rtts, 50) / 2 then p99
    else stable
  }

  function AddSample(c: Conn, rtt: nat, jitter: nat): Conn {
    var rtts := Push(c.rtts, rtt);
    Conn(rtts, Push(c.jitters, jitter), Rebase(c.stableP99, rtts, jitter))
  }

  datatype Verdict = Verdict(spike: bool, threshold: nat)

  function IsSpike(c: Conn, latest: nat): Verdict {
    var baseline := if c.stableP99 == 0 then Percentile(c.rtts, 99) else c.stableP99;
    if baseline == 0 then Verdict(false, 0)
    else
      var threshold := Wrap64(baseline * SPIKE_MULTIPLIER);
      Verdict(latest > threshold, threshold)
  }

  /** What a publish reports about the connection. */
  function Report(c: Conn): Verdict { IsSpike(c, Latest(c.rtts)) }

  /** With a baseline whose triple fits in 64 bits, the fallback and the wrap play no part. */
  lemma {:induction false} ReportWithBaseline(c: Conn)
    requires 0 < c.stableP99 && 3 * c.stableP99 < TWO64
    ensures Report(c) == Verdict(Latest(c.rtts) > 3 * c.stableP99, 3 * c.stableP99)
  {}

  // ---- Runs ------------------------------------------------------------------------

  datatype Sample = Sample(rtt: nat, jitter: nat)

  function Feed(c: Conn, ss: seq<Sample>): Conn {
    if ss == [] then c
    else
      var s := ss[|ss| - 1];
      AddSample(Feed(c, ss[..|ss| - 1]), s.rtt, s.jitter)
  }

  function Rtts(ss: seq<Sample>): seq<nat> { seq(|ss|, i requires 0 <= i < |ss| => ss[i].rtt) }

  function Window(ss: seq<Sample>): seq<nat> { Last(RING, Rtts(ss)) }

  ghost predicate InRange(ss: seq<Sample>, lo: nat, hi: nat) {
    forall i :: 0 <= i < |ss| ==> lo <= ss[i].rtt <= hi
  }

  /** handleEvent records only round-trip times above 0; they are uint64 values. */
  ghost predicate Recorded(ss: seq<Sample>) { InRange(ss, 1, TWO64 - 1) }

  /** A connection that has only ever been fed holds exactly the last 1000 samples. */
  lemma {:induction false} FeedKeepsWindow(c: Conn, ss: seq<Sample>)
    requires |c.rtts| <= RING
    ensures Feed(c, ss).rtts == Last(RING, c.rtts + Rtts(ss))
  {
    if ss == [] {
      assert c.rtts + Rtts(ss) == c.rtts;
    } else {
      var init, rtt := ss[..|ss| - 1], ss[|ss| - 1].rtt;
      var before := c.rtts + Rtts(init);
      calc {
        Feed(c, ss).rtts;
        Push(Feed(c, init).rtts, rtt);
        { FeedKeepsWindow(c, init); }
        Last(RING, Last(RING, before) + [rtt]);
        { LastOfLast(RING, before, [rtt]); }
        Last(RING, before + [rtt]);
        { assert before + [rtt] == c.rtts + Rtts(ss); }
        Last(RING, c.rtts + Rtts(ss));
      }
    }
  }

  lemma {:induction false} WindowOfFeed(ss: seq<Sample>)
    ensures Feed(EMPTY, ss).rtts == Window(ss)
    ensures |Window(ss)| == if |ss| < RING then |ss| else RING
    ensures ss != [] ==> Latest(Window(ss)) == ss[|ss| - 1].rtt
  {
    FeedKeepsWindow(EMPTY, ss);
    assert [] + Rtts(ss) == Rtts(ss);
  }

  lemma {:induction false} JittersOfFeed(ss: seq<Sample>)
    requires ss != []
    ensures Latest(Feed(EMPTY, ss).jitters) == ss[|ss| - 1].jitter
  {}

  /** Every value of the window is one of the samples. */
  lemma {:induction false} WindowBounds(ss: seq<Sample>, lo: nat, hi: nat, p: nat)
    requires ss != [] && InRange(ss, lo, hi)
    ensures lo <= Percentile(Window(ss), p) <= hi
  {}

  // ---- The gate ----------------------------------------------------------------------

  /** The last sample of the run opens the gate. */
  predicate Adopts(ss: seq<Sample>)
    requires ss != []
  {
    Feed(EMPTY, ss[..|ss| - 1]).stableP99 == 0 ||
    ss[|ss| - 1].jitter <= Percentile(Window(ss), 50) / 2
  }

  /** One more sample either replaces the baseline by the p99 of the window or keeps it. */
  lemma {:induction false} AfterSample(ss: seq<Sample>)
    requires Recorded(ss) && ss != []
    ensures Feed(EMPTY, ss).stableP99 ==
      if Adopts(ss) then Percentile(Window(ss), 99) else Feed(EMPTY, ss[..|ss| - 1]).stableP99
  {
    WindowOfFeed(ss);
    WindowBounds(ss, 1, TWO64 - 1, 99);
  }

  lemma {:induction false} BaselineInRange(ss: seq<Sample>, lo: nat, hi: nat)
    requires ss != [] && 0 < lo <= hi < TWO64 && InRange(ss, lo, hi)
    ensures lo <= Feed(EMPTY, ss).stableP99 <= hi
  {
    AfterSample(ss);
    WindowBounds(ss, lo, hi, 99);
    if !Adopts(ss) {
      BaselineInRange(ss[..|ss| - 1], lo, hi);
    }
  }

  /**
   In every reachable state there is a baseline exactly when there are samples, so the
   current-p99 fallback of isSpike never supplies a nonzero baseline.
   */
  lemma {:induction false} FallbackIsDead(ss: seq<Sample>)
    requires Recorded(ss)
    ensures var c := Feed(EMPTY, ss);
      && (c.stableP99 > 0 <==> ss != [])
      && (c.stableP99 == 0 ==> c.rtts == [] && Percentile(c.rtts, 99) == 0)
  {
    if ss != [] {
      BaselineInRange(ss, 1, TWO64 - 1);
    }
  }

  // ---- False alarms and missed spikes ------------------------------------------------

  /** A lifetime inside [m, 3m] never raises an alarm. */
  lemma {:induction false} NoFalseAlarm(ss: seq<Sample>, m: nat)
    requires 0 < m && 9 * m < TWO64
    requires InRange(ss, m, 3 * m)
    ensures !Report(Feed(EMPTY, ss)).spike
  {
    if ss != [] {
      WindowOfFeed(ss);
      BaselineInRange(ss, m, 3 * m);
      ReportWithBaseline(Feed(EMPTY, ss));
    }
  }

  /** Few enough samples above b in every window so far. */
  ghost predicate MostlyAtMost(ss: seq<Sample>, b: nat) {
    forall k :: 0 < k <= |ss| ==>
      CountAbove(Window(ss[..k]), b) < (|Window(ss[..k])| + 99) / 100
  }

  lemma {:induction false} BaselineStaysLow(ss: seq<Sample>, b: nat)
    requires Recorded(ss) && ss != [] && MostlyAtMost(ss, b)
    ensures Feed(EMPTY, ss).stableP99 <= b
  {
    AfterSample(ss);
    if Adopts(ss) {
      assert ss[..|ss|] == ss;
      P99AtMost(Window(ss), b);
    } else {
      var init := ss[..|ss| - 1];
      assert forall k :: 0 < k <= |init| ==> init[..k] == ss[..k];
      BaselineStaysLow(init, b);
    }
  }

  /** The baseline then stays at most b, and any latest sample above 3b is reported. */
  lemma {:induction false} NoMissedSpike(ss: seq<Sample>, b: nat)
    requires Recorded(ss) && ss != [] && MostlyAtMost(ss, b)
    ensures Feed(EMPTY, ss).stableP99 <= b
    ensures ss[|ss| - 1].rtt > 3 * b ==> Report(Feed(EMPTY, ss)).spike
  {
    BaselineStaysLow(ss, b);
    BaselineInRange(ss, 1, TWO64 - 1);
    WindowOfFeed(ss);
    if ss[|ss| - 1].rtt > 3 * b {
      ReportWithBaseline(Feed(EMPTY, ss));
    }
  }

  /**
   The gate, when open, lets the newest sample raise its own baseline: it stands out only if
   few enough samples of the window reach a third of it. With the gate closed it has to
   exceed three times the baseline before it.
   */
  predicate StandsOut(ss: seq<Sample>)
    requires ss != [] && ss[|ss| - 1].rtt > 0
  {
    var rtt, w := ss[|ss| - 1].rtt, Window(ss);
    if Adopts(ss) then CountAbove(w, (rtt - 1) / 3) < (|w| + 99) / 100
    else rtt > 3 * Feed(EMPTY, ss[..|ss| - 1]).stableP99
  }

  /** Exactly when the newest sample is reported. */
  lemma {:induction false} ReportedExactly(ss: seq<Sample>)
    requires ss != [] && InRange(ss, 1, (TWO64 - 1) / 3)
    ensures Report(Feed(EMPTY, ss)).spike <==> StandsOut(ss)
  {
    var c, rtt, w := Feed(EMPTY, ss), ss[|ss| - 1].rtt, Window(ss);
    WindowOfFeed(ss);
    BaselineInRange(ss, 1, (TWO64 - 1) / 3);
    ReportWithBaseline(c);
    AfterSample(ss);
    P99AtMost(w, (rtt - 1) / 3);
  }

  /**
   So the promise that a spike cannot move the baseline fails: while a connection has at
   most 100 samples, whatever sample opens the gate goes unreported, however large.
   */
  lemma {:induction false} GateHidesSpike(ss: seq<Sample>)
    requires 0 < |ss| <= 100 && Adopts(ss)
    requires InRange(ss, 1, (TWO64 - 1) / 3)
    ensures !Report(Feed(EMPTY, ss)).spike
    ensures Feed(EMPTY, ss).stableP99 >= ss[|ss| - 1].rtt
  {
    var w := Window(ss);
    AfterSample(ss);
    WindowOfFeed(ss);
    P99IsMaxOfSmallWindow(w);
    assert w[|w| - 1] <= Percentile(w, 99);
    WindowBounds(ss, 1, (TWO64 - 1) / 3, 99);
    ReportWithBaseline(Feed(EMPTY, ss));
  }

  /** A sample without jitter, such as the first of a new flow, always opens the gate. */
  lemma {:induction false} CalmSampleIsHidden(ss: seq<Sample>, rtt: nat)
    requires |ss| < 100 && InRange(ss, 1, (TWO64 - 1) / 3) && 1 <= rtt <= (TWO64 - 1) / 3
    ensures !Report(Feed(EMPTY, ss + [Sample(rtt, 0)])).spike
    ensures Feed(EMPTY, ss + [Sample(rtt, 0)]).stableP99 >= rtt
  {
    GateHidesSpike(ss + [Sample(rtt, 0)]);
  }

  // ---- Recovery ----------------------------------------------------------------------

  /** The samples a connection with a single flow records for a run of round-trip times. */
  function OneFlow(f: Ewma.Flow, rtts: seq<nat>): (ss: seq<Sample>)
    ensures Rtts(ss) == rtts
  {
    if rtts == [] then []
    else
      OneFlow(f, rtts[..|rtts| - 1]) + [Sample(rtts[|rtts| - 1], Ewma.Jitter(Ewma.Run(f, rtts)))]
  }

  lemma {:induction false} ConstantPercentile(r: nat, n: nat, p: nat)
    requires n > 0
    ensures Percentile(Ewma.Repeat(r, n), p) == r
  {}

  lemma {:induction false} RebaseOfFeed(c: Conn, ss: seq<Sample>)
    requires ss != []
    ensures var c' := Feed(c, ss);
      c'.stableP99 == Rebase(Feed(c, ss[..|ss| - 1]).stableP99, c'.rtts, ss[|ss| - 1].jitter)
  {}

  /**
   From any state of connection and flow, a constant round-trip time r >= 14 wins: after
   enough samples the estimates settle, the baseline is r and nothing is reported.
   */
  lemma {:induction false} Recovers(c: Conn, f: Ewma.Flow, r: nat, n: nat)
    requires |c.rtts| <= RING
    requires 14 <= r < Ewma.EWMA_LIMIT
    requires f.Tracked? ==> f.srtt < Ewma.EWMA_LIMIT && f.mdev < Ewma.EWMA_LIMIT
    requires n >= RING && n > Ewma.SettlingTime(f, r)
    ensures var rtts := Ewma.Repeat(r, n);
      var c', f' := Feed(c, OneFlow(f, rtts)), Ewma.Run(f, rtts);
      && Ewma.Settled(f', r) && (f.Tracked? && f.srtt >= r ==> f'.srtt == r)
      && c'.rtts == Ewma.Repeat(r, RING)
      && c'.stableP99 == r
      && Report(c') == Verdict(false, 3 * r)
  {
    var rtts := Ewma.Repeat(r, n);
    var ss := OneFlow(f, rtts);
    var c' := Feed(c, ss);
    Ewma.SettlesOnConstant(f, r, n);
    assert c'.rtts == Ewma.Repeat(r, RING) by {
      FeedKeepsWindow(c, ss);
    }
    ConstantPercentile(r, RING, 50);
    ConstantPercentile(r, RING, 99);
    assert c'.stableP99 == r by {
      RebaseOfFeed(c, ss);
    }
    ReportWithBaseline(c');
  }

  /** The run of the next two lemmas: 1, 29, then 13 for ever. */
  function Stuck(n: nat): seq<nat> { [1, 29] + Ewma.Repeat(13, n) }

  lemma {:induction false} StuckPrefix(n: nat)
    requires n > 0
    ensures Stuck(n)[..|Stuck(n)| - 1] == Stuck(n - 1) && Stuck(n)[n + 1] == 13
  {}

  lemma {:induction false} StuckFlow(n: nat)
    ensures Ewma.Run(Ewma.Fresh, Stuck(n)) == Ewma.Tracked(if n < 2 then 4 + n else 6, 7)
  {
    if n == 0 {
      assert Stuck(0) == [1, 29] && [1, 29][..1] == [1];
      assert Ewma.Run(Ewma.Fresh, [1]) == Ewma.Tracked(1, 0);
    } else {
      StuckPrefix(n);
      StuckFlow(n - 1);
    }
  }

  lemma {:induction false} StuckStart(ss: seq<Sample>)
    requires |ss| == 2 && Rtts(ss) == [1, 29] && ss[1].jitter == 7
    ensures Rebase(Feed(EMPTY, ss[..1]).stableP99, Window(ss), 7) == 29
  {
    var w := Window(ss);
    assert w == [1, 29] && w[1..] == [29];
    PercentileAtMost(w, 50, 28);
    PercentileAtMost(w, 99, 28);
    PercentileBounds(w, 50, 1, 29);
    PercentileBounds(w, 99, 1, 29);
  }

  lemma {:induction false} CountThirteens(w: seq<nat>)
    requires forall i :: 0 <= i < |w| ==> w[i] == 13
    ensures CountAbove(w, 13) == 0
  {
    if w != [] {
      CountThirteens(w[1..]);
    }
  }

  lemma {:induction false} MedianAtMostThirteen(ss: seq<Sample>, n: nat)
    requires n > 0 && Rtts(ss) == [1, 29] + Ewma.Repeat(13, n)
    ensures Percentile(Window(ss), 50) <= 13
  {
    var w := Window(ss);
    WindowOfFeed(ss);
    assert CountAbove(w, 13) <= 1 by {
      if n + 2 <= RING {
        CountThirteens(w[2..]);
        assert w[1..][1..] == w[2..];
      } else if n + 1 == RING {
        CountThirteens(w[1..]);
      } else {
        CountThirteens(w);
      }
    }
    PercentileAtMost(w, 50, 13);
  }

  /**
   The bound 14 is sharp, and the failure is reachable: after 1 and 29, a connection whose
   round-trip time stays at 13 keeps the baseline 29 for ever.
   */
  lemma {:induction false} ThirteenNeverRecovers(n: nat)
    ensures Feed(EMPTY, OneFlow(Ewma.Fresh, Stuck(n))).stableP99 == 29
  {
    var ss := OneFlow(Ewma.Fresh, Stuck(n));
    assert ss[|ss| - 1].jitter == 7 by {
      StuckFlow(n);
    }
    WindowOfFeed(ss);
    RebaseOfFeed(EMPTY, ss);
    if n == 0 {
      StuckStart(ss);
    } else {
      assert ss[..|ss| - 1] == OneFlow(Ewma.Fresh, Stuck(n - 1)) by {
        StuckPrefix(n);
      }
      ThirteenNeverRecovers(n - 1);
      MedianAtMostThirteen(ss, n);
    }
  }
}
