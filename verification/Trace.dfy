/**
 What the statistics engine holds and publishes after any run, read off the log of its steps:
 which event came last, which resource was forwarded last, which ticks published. Nothing
 here refers to how the engine computes it.
 */
module Trace {
  import opened Machine
  import opened Model
  import opened OrderStats
  import opened Baseline
  import opened Processor
  import Ewma

  // ---- One event ---------------------------------------------------------------------

  /**
   An event marks its connection as seen, with the types of its two addresses. Connect and rtt
   events with a positive latency add it to the rings of the connection and advance the
   estimate of their flow; retransmissions are counted; nothing else happens to anything.
   */
  lemma {:induction false} EventExactly(r: Resolver, st: State, e: Event, now: nat)
    ensures var st' := HandleEvent(r, st, e, now);
      var k, f := ConnKey(r.name(e.saddr), r.name(e.daddr)), FlowKey(e.pid, e.saddr, e.daddr, e.dport);
      var before := if k in st.conns then st.conns[k] else ConnRec(EMPTY, 0, now, Internal, Internal, []);
      && k in st'.conns
      && var after := st'.conns[k];
      && after.lastSeen == now && after.history == before.history
      && (after.srcType == Internal <==> r.isInternal(e.saddr))
      && (after.dstType == Internal <==> r.isInternal(e.daddr))
      && after.retransmit == (if e.kind == Retransmit then Wrap32(before.retransmit + 1) else before.retransmit)
      && (forall k' :: k' != k ==> (k' in st'.conns <==> k' in st.conns))
      && (forall k' :: k' != k && k' in st.conns ==> st'.conns[k'] == st.conns[k'])
      && st'.resources == st.resources
      && if (e.kind == Connect || e.kind == Rtt) && e.latency > 0 then
           var flow := Ewma.Step(if f in st.flows then st.flows[f].flow else Ewma.Fresh, e.latency);
           && st'.flows == st.flows[f := FlowRec(flow, now)]
           && after.stats.rtts == Last(1000, before.stats.rtts + [e.latency])
           && after.stats.jitters == Last(1000, before.stats.jitters + [Ewma.Jitter(flow)])
         else
           st'.flows == st.flows && after.stats == before.stats
  {}

  /** So the newest round-trip time of a connection is that of its last measuring event. */
  lemma {:induction false} NewestIsRecorded(r: Resolver, steps: seq<Step>, e: Event, now: nat)
    requires (e.kind == Connect || e.kind == Rtt) && e.latency > 0
    ensures var st, k := Run(r, steps + [OnEvent(e, now)]), ConnKey(r.name(e.saddr), r.name(e.daddr));
      k in st.conns && SnapOf(st, k).vals.latest == e.latency && SnapOf(st, k).samples > 0
  {
    var steps' := steps + [OnEvent(e, now)];
    assert Front(steps') == steps && Final(steps') == OnEvent(e, now);
    EventExactly(r, Run(r, steps), e, now);
  }

  // ---- The last event ----------------------------------------------------------------

  predicate IsOf(r: Resolver, s: Step, k: ConnKey) { s.OnEvent? && Concerns(r, s.e, k) }

  predicate IsSampleOf(s: Step, f: FlowKey) { s.OnEvent? && Measures(s.e) && OnFlow(s.e, f) }

  /** The position of the last event of connection k in the log. */
  function LastEvent(r: Resolver, steps: seq<Step>, k: ConnKey): (i: Option<nat>)
    ensures i.Some? ==> i.value < |steps| && IsOf(r, steps[i.value], k)
    ensures forall j :: (if i.Some? then i.value + 1 else 0) <= j < |steps| ==> !IsOf(r, steps[j], k)
  {
    if steps == [] then None
    else if IsOf(r, Final(steps), k) then Some(|steps| - 1)
    else LastEvent(r, Front(steps), k)
  }

  /** The position of the last sample of flow f in the log. */
  function LastSample(steps: seq<Step>, f: FlowKey): (i: Option<nat>)
    ensures i.Some? ==> i.value < |steps| && IsSampleOf(steps[i.value], f)
    ensures forall j :: (if i.Some? then i.value + 1 else 0) <= j < |steps| ==> !IsSampleOf(steps[j], f)
  {
    if steps == [] then None
    else if IsSampleOf(Final(steps), f) then Some(|steps| - 1)
    else LastSample(Front(steps), f)
  }

  /** No sweep after step i came more than 30 seconds after it. */
  ghost predicate NotSwept(steps: seq<Step>, i: nat)
    requires i < |steps|
  {
    forall j :: i < j < |steps| && steps[j].OnSweep? ==> steps[j].at - steps[i].at <= 30_000_000_000
  }

  lemma {:induction false} SweptByLast(steps: seq<Step>, i: nat)
    requires steps != [] && i < |steps| - 1
    ensures NotSwept(steps, i) <==>
      NotSwept(Front(steps), i) && (Final(steps).OnSweep? ==> Final(steps).at - steps[i].at <= 30_000_000_000)
  {
    assert forall j :: i < j < |Front(steps)| ==> Front(steps)[j] == steps[j];
  }

  /** What the table keeps of the last event of a connection. */
  ghost predicate Remembers(r: Resolver, cs: ConnRec, s: Step) {
    && s.OnEvent? && cs.lastSeen == s.at
    && (cs.srcType == Internal <==> r.isInternal(s.e.saddr))
    && (cs.dstType == Internal <==> r.isInternal(s.e.daddr))
  }

  lemma {:induction false} OtherStepsKeepConn(r: Resolver, st: State, s: Step, k: ConnKey)
    requires !IsOf(r, s, k)
    ensures var st' := Apply(r, st, s);
      && (k in st'.conns <==>
            k in st.conns && (s.OnSweep? ==> s.at - st.conns[k].lastSeen <= 30_000_000_000))
      && (k in st'.conns ==>
            && st'.conns[k].lastSeen == st.conns[k].lastSeen
            && st'.conns[k].srcType == st.conns[k].srcType && st'.conns[k].dstType == st.conns[k].dstType)
  {}

  /**
   Exactly which connections are tracked after a run: those with an event after whose last one
   no sweep came more than 30 seconds later. Its time and its addresses are what the table holds.
   */
  lemma {:induction false} TrackedExactly(r: Resolver, steps: seq<Step>, k: ConnKey)
    ensures var i := LastEvent(r, steps, k);
      && (k in Run(r, steps).conns <==> i.Some? && NotSwept(steps, i.value))
      && (k in Run(r, steps).conns ==> Remembers(r, Run(r, steps).conns[k], steps[i.value]))
  {
    if steps != [] {
      var st, s := Run(r, Front(steps)), Final(steps);
      TrackedExactly(r, Front(steps), k);
      if IsOf(r, s, k) {
        EventExactly(r, st, s.e, s.at);
      } else {
        OtherStepsKeepConn(r, st, s, k);
        var i := LastEvent(r, steps, k);
        if i.Some? {
          SweptByLast(steps, i.value);
        }
      }
    }
  }

  lemma {:induction false} OtherStepsAgeFlow(r: Resolver, st: State, s: Step, f: FlowKey)
    requires !IsSampleOf(s, f)
    ensures var st' := Apply(r, st, s);
      && (f in st'.flows <==>
            f in st.flows && (s.OnSweep? ==> s.at - st.flows[f].lastSeen <= 30_000_000_000))
      && (f in st'.flows ==> st'.flows[f].lastSeen == st.flows[f].lastSeen)
  {}

  /** The same for flows and their samples. */
  lemma {:induction false} FlowTrackedExactly(r: Resolver, steps: seq<Step>, f: FlowKey)
    ensures var i := LastSample(steps, f);
      && (f in Run(r, steps).flows <==> i.Some? && NotSwept(steps, i.value))
      && (f in Run(r, steps).flows ==> Run(r, steps).flows[f].lastSeen == steps[i.value].at)
  {
    if steps != [] {
      var st, s := Run(r, Front(steps)), Final(steps);
      FlowTrackedExactly(r, Front(steps), f);
      if IsSampleOf(s, f) {
        EventExactly(r, st, s.e, s.at);
      } else {
        OtherStepsAgeFlow(r, st, s, f);
        var i := LastSample(steps, f);
        if i.Some? {
          SweptByLast(steps, i.value);
        }
      }
    }
  }

  /**
   A sweep removes, and announces, exactly the tracked connections whose last event is more
   than 30 seconds old, and drops exactly the flows whose last sample is.
   */
  lemma {:induction false} SweepExactly(r: Resolver, steps: seq<Step>, now: nat, k: ConnKey, f: FlowKey)
    ensures var st, st', i := Run(r, steps), Run(r, steps + [OnSweep(now)]), LastEvent(r, steps, k);
      && (k in st.conns ==> i.Some?)
      && (k in Expired(st, now) <==> k in st.conns && now - steps[i.value].at > 30_000_000_000)
      && (k in st'.conns <==> k in st.conns && now - steps[i.value].at <= 30_000_000_000)
    ensures var st, st', i := Run(r, steps), Run(r, steps + [OnSweep(now)]), LastSample(steps, f);
      && (f in st.flows ==> i.Some?)
      && (f in st'.flows <==> f in st.flows && now - steps[i.value].at <= 30_000_000_000)
  {
    var steps' := steps + [OnSweep(now)];
    assert Front(steps') == steps && Final(steps') == OnSweep(now);
    TrackedExactly(r, steps, k);
    FlowTrackedExactly(r, steps, f);
  }

  /** With sweeps at most 10 seconds apart, no connection outlives its last event by more than 40. */
  lemma {:induction false} LifetimeBound(r: Resolver, steps: seq<Step>, k: ConnKey)
    requires Clocked(steps) && Punctual(steps) && k in Run(r, steps).conns
    ensures var i := LastEvent(r, steps, k);
      i.Some? && Now(steps) <= steps[i.value].at + 40_000_000_000
  {
    TrackedExactly(r, steps, k);
    FreshSinceSweep(r, steps, k);
  }

  // ---- What a publish says -----------------------------------------------------------

  /** The resource snapshot forwarded last for a service. */
  function LastResource(steps: seq<Step>, service: string): Option<Resource> {
    if steps == [] then None
    else if Final(steps).OnResource? && Final(steps).service == service then Some(Final(steps).resource)
    else LastResource(Front(steps), service)
  }

  lemma {:induction false} ResourceIsLast(r: Resolver, steps: seq<Step>, service: string)
    ensures LastResource(steps, service) ==
      var known := Run(r, steps).resources;
      if service in known then Some(known[service]) else None
  {
    if steps != [] {
      ResourceIsLast(r, Front(steps), service);
    }
  }

  /** A snapshot that tells the truth about the last event e and the last resource res. */
  ghost predicate Explained(r: Resolver, e: Event, res: Option<Resource>, snap: Snap) {
    && (snap.srcType == Internal <==> r.isInternal(e.saddr))
    && (snap.dstType == Internal <==> r.isInternal(e.daddr))
    && (if snap.spike then snap.evidence == res && CauseFits(r.isInternal(e.daddr), res, snap.cause)
        else snap.evidence == None && snap.cause == Cause(NoCause, NoSignal))
  }

  lemma {:induction false} SnapshotExplained(
    r: Resolver, k: ConnKey, cs: ConnRec, known: map<string, Resource>, s: Step)
    requires Remembers(r, cs, s)
    ensures Explained(r, s.e, if k.dst in known then Some(known[k.dst]) else None, SnapFor(k, cs, known))
  {
    CauseExactly(cs.dstType, if k.dst in known then Some(known[k.dst]) else None);
  }

  /** The threshold is three times the baseline or, without one, the p99; nothing exceeds one that is missing. */
  lemma {:induction false} ThresholdExactly(c: Conn, latest: nat)
    ensures var v, base := IsSpike(c, latest), if c.stableP99 > 0 then c.stableP99 else Percentile(c.rtts, 99);
      && v.threshold == 3 * base % 0x1_0000_0000_0000_0000
      && (v.spike <==> base > 0 && latest > v.threshold)
  {}

  lemma {:induction false} BaselineWithSamples(r: Resolver, steps: seq<Step>, k: ConnKey)
    requires Decoded(steps) && k in Run(r, steps).conns
    ensures Run(r, steps).conns[k].stats.stableP99 == 0 ==> Run(r, steps).conns[k].stats.rtts == []
  {
    ConnIsFeed(r, steps, k);
    LifeInRange(r, steps, k, TWO64 - 1);
    FallbackIsDead(ConnLife(r, steps, k));
  }

  /**
   Every publish of every run: the types are those of the last event of the connection, and
   cause and evidence come from the resource forwarded last for the destination.
   */
  lemma {:induction false} PublishExplains(r: Resolver, steps: seq<Step>, k: ConnKey)
    requires k in Run(r, steps).conns
    ensures var i, snap := LastEvent(r, steps, k), SnapOf(Run(r, steps), k);
      snap.key == k && i.Some? && Explained(r, steps[i.value].e, LastResource(steps, k.dst), snap)
  {
    var st, i := Run(r, steps), LastEvent(r, steps, k);
    TrackedExactly(r, steps, k);
    ResourceIsLast(r, steps, k.dst);
    SnapshotExplained(r, k, st.conns[k], st.resources, steps[i.value]);
  }

  lemma {:induction false} Wrap32IsModulo(n: nat)
    ensures Wrap32(n) == n % 0x1_0000_0000
  {}

  lemma {:induction false} PublishedRetransmits(r: Resolver, steps: seq<Step>, k: ConnKey)
    requires k in Run(r, steps).conns
    ensures SnapOf(Run(r, steps), k).retransmit == Retransmits(r, steps, k) % 0x1_0000_0000
  {
    RetransmitsAreCounted(r, steps, k);
    Wrap32IsModulo(Retransmits(r, steps, k));
  }

  /** The threshold of every publish is three times the baseline, and the verdict compares with it. */
  lemma {:induction false} PublishedThreshold(r: Resolver, steps: seq<Step>, k: ConnKey)
    requires Decoded(steps) && k in Run(r, steps).conns
    ensures var c, snap := Run(r, steps).conns[k].stats, SnapOf(Run(r, steps), k);
      && snap.threshold == 3 * c.stableP99 % 0x1_0000_0000_0000_0000
      && (snap.spike <==> snap.vals.latest > snap.threshold)
  {
    BaselineWithSamples(r, steps, k);
    ThresholdExactly(Run(r, steps).conns[k].stats, Latest(Run(r, steps).conns[k].stats.rtts));
  }

  // ---- Histories ---------------------------------------------------------------------

  /** What was published about connection k since it was created, with the time in milliseconds. */
  function PublishedPoints(r: Resolver, steps: seq<Step>, k: ConnKey): seq<Point> {
    if steps == [] || k !in Run(r, steps).conns then []
    else
      var before := PublishedPoints(r, Front(steps), k);
      if Final(steps).OnTick? && k in Run(r, Front(steps)).conns then
        before + [Point(Final(steps).at / 1_000_000, SnapOf(Run(r, Front(steps)), k).vals)]
      else before
  }

  lemma {:induction false} OtherStepsKeepHistory(r: Resolver, st: State, s: Step, k: ConnKey)
    requires !s.OnTick? && k in Apply(r, st, s).conns
    ensures Apply(r, st, s).conns[k].history == if k in st.conns then st.conns[k].history else []
  {}

  lemma {:induction false} TickAddsPoint(r: Resolver, st: State, now: nat, k: ConnKey)
    requires k in st.conns
    ensures var st' := Apply(r, st, OnTick(now));
      k in st'.conns && st'.conns[k].history
         == Last(3600, st.conns[k].history + [Point(now / 1_000_000, SnapOf(st, k).vals)])
  {}

  /** A history holds the last 3600 of them, in order. */
  lemma {:induction false} HistoryExactly(r: Resolver, steps: seq<Step>, k: ConnKey)
    requires k in Run(r, steps).conns
    ensures Run(r, steps).conns[k].history == Last(3600, PublishedPoints(r, steps, k))
  {
    var st, s := Run(r, Front(steps)), Final(steps);
    if k in st.conns {
      HistoryExactly(r, Front(steps), k);
    }
    if s.OnTick? {
      TickAddsPoint(r, st, s.at, k);
      LastOfLast(3600, PublishedPoints(r, Front(steps), k), [Point(s.at / 1_000_000, SnapOf(st, k).vals)]);
    } else {
      OtherStepsKeepHistory(r, st, s, k);
    }
  }

  // ---- What is sent ------------------------------------------------------------------

  /**
   A publish sends each connection's snapshot exactly once, a sweep one removal for each expired
   connection, under its text key, and a joiner gets one entry for each published history.
   */
  lemma {:induction false} SentOnce(st: State, order: seq<ConnKey>)
    requires forall i :: 0 <= i < |order| ==> order[i] in st.conns
    ensures var stats, removes, entries := StatsMsgs(Snaps(st, order)), RemoveMsgs(order), HistoryEntries(st, order);
      && |stats| == |removes| == |entries| == |order|
      && forall i :: 0 <= i < |order| ==>
           var k := order[i];
           && stats[i] == Stats(SnapOf(st, k)) && removes[i] == Remove(k.src + "→" + k.dst)
           && entries[i] == ConnHistory(k.src + "→" + k.dst, st.conns[k].history)
  {}
}
