/**
 The event, publish and sweep loop of the statistics engine (collector/stats/stats.go,
 Processor) over the two maps `conns` and `flows`.
 */
module Processor {
  import opened Machine
  import opened OrderStats
  import opened Baseline
  import opened Model
  import Ewma

  const SECOND: nat := 1_000_000_000
  const CONN_TTL: nat := 30 * SECOND
  const SWEEP_INTERVAL: nat := 10 * SECOND
  const MAX_HISTORY: nat := 3600

  datatype FlowKey = FlowKey(sock: nat, saddr: string, daddr: string, dport: nat)

  datatype FlowRec = FlowRec(flow: Ewma.Flow, lastSeen: nat)

  datatype ConnRec = ConnRec(
    stats: Conn, retransmit: nat, lastSeen: nat, srcType: NodeType, dstType: NodeType, history: seq<Point>)

  datatype State = State(
    conns: map<ConnKey, ConnRec>, flows: map<FlowKey, FlowRec>, resources: map<string, Resource>)

  const INIT := State(map[], map[], map[])

  /** The service resolver, fixed for the run. */
  datatype Resolver = Resolver(name: string -> string, isInternal: string -> bool)

  function KeyOf(r: Resolver, e: Event): ConnKey { ConnKey(r.name(e.saddr), r.name(e.daddr)) }

  function FlowOf(e: Event): FlowKey { FlowKey(e.pid, e.saddr, e.daddr, e.dport) }

  /** The connection a flow is accounted under. */
  function Owner(r: Resolver, f: FlowKey): ConnKey { ConnKey(r.name(f.saddr), r.name(f.daddr)) }

  function NodeTypeOf(r: Resolver, ip: string): NodeType {
    if r.isInternal(ip) then Internal else External
  }

  // ---- Events ------------------------------------------------------------------------

  predicate IsSample(e: Event) { (e.kind.Connect? || e.kind.Rtt?) && e.latency > 0 }

  function FlowBefore(st: State, e: Event): Ewma.Flow {
    if FlowOf(e) in st.flows then st.flows[FlowOf(e)].flow else Ewma.Fresh
  }

  /** updateFlowMdev. */
  function FlowAfter(st: State, e: Event): Ewma.Flow { Ewma.Step(FlowBefore(st, e), e.latency) }

  /** getOrCreateConn. */
  function Found(st: State, k: ConnKey, now: nat): ConnRec {
    if k in st.conns then st.conns[k] else ConnRec(EMPTY, 0, now, Internal, Internal, [])
  }

  /** What an event does to its connection, given the jitter of its flow. */
  function AfterEvent(r: Resolver, cs: ConnRec, e: Event, jitter: nat, now: nat): ConnRec {
    var seen := cs.(srcType := NodeTypeOf(r, e.saddr), dstType := NodeTypeOf(r, e.daddr), lastSeen := now);
    if IsSample(e) then
      seen.(stats := AddSample(seen.stats, e.latency, jitter))
    else if e.kind.Retransmit? then
      seen.(retransmit := Wrap32(seen.retransmit + 1))
    else
      seen
  }

  function NextConn(r: Resolver, st: State, e: Event, now: nat): ConnRec {
    AfterEvent(r, Found(st, KeyOf(r, e), now), e, Ewma.Jitter(FlowAfter(st, e)), now)
  }

  function NextFlows(st: State, e: Event, now: nat): map<FlowKey, FlowRec> {
    if IsSample(e) then st.flows[FlowOf(e) := FlowRec(FlowAfter(st, e), now)] else st.flows
  }

  function HandleEvent(r: Resolver, st: State, e: Event, now: nat): State {
    st.(conns := st.conns[KeyOf(r, e) := NextConn(r, st, e, now)], flows := NextFlows(st, e, now))
  }

  // ---- Publishing --------------------------------------------------------------------

  function ValsOf(c: Conn): Vals {
    Vals(Latest(c.rtts), Average(c.rtts), Percentile(c.rtts, 50), Percentile(c.rtts, 95),
         Percentile(c.rtts, 99), Latest(c.jitters))
  }

  /** detectCause: the first rule that applies. */
  function DetectCause(dstType: NodeType, res: Option<Resource>): Cause {
    if dstType.External? then Cause(ByExternal, ExternalDst)
    else if res.None? then Cause(ByNetwork, Nothing)
    else
      var u := res.value;
      if u.oomKills > 0 then Cause(ByMemory, OomKill)
      else if u.throttle > 25.0 then Cause(ByCpu, ThrottleHigh)
      else if u.throttle > 1.0 && u.cpu > 60.0 then Cause(ByCpu, ThrottleBurst)
      else if u.memPressure > 20.0 then Cause(ByMemory, MemPressure)
      else Cause(ByNetwork, Nothing)
  }

  /** A container that is throttled all the time, or now and then while it is busy. */
  predicate Starved(u: Resource) { u.throttle > 25.0 || (u.throttle > 1.0 && u.cpu > 60.0) }

  /**
   When each cause is right: an OOM kill outranks the CPU, the CPU outranks memory pressure,
   and without a snapshot of an internal destination nothing but the network is blamed.
   */
  predicate CauseFits(inside: bool, res: Option<Resource>, c: Cause) {
    var known := inside && res.Some?;
    && (c == Cause(ByExternal, ExternalDst) <==> !inside)
    && (c == Cause(ByMemory, OomKill) <==> known && res.value.oomKills > 0)
    && (c == Cause(ByCpu, ThrottleHigh) <==> known && res.value.oomKills == 0 && res.value.throttle > 25.0)
    && (c == Cause(ByCpu, ThrottleBurst) <==>
          known && res.value.oomKills == 0 && 1.0 < res.value.throttle <= 25.0 && res.value.cpu > 60.0)
    && (c == Cause(ByMemory, MemPressure) <==>
          known && res.value.oomKills == 0 && !Starved(res.value) && res.value.memPressure > 20.0)
    && (c == Cause(ByNetwork, Nothing) <==>
          inside && (res.Some? ==> res.value.oomKills == 0 && !Starved(res.value) && res.value.memPressure <= 20.0))
  }

  lemma {:induction false} CauseExactly(dstType: NodeType, res: Option<Resource>)
    ensures CauseFits(dstType == Internal, res, DetectCause(dstType, res))
  {}

  function SnapFor(k: ConnKey, cs: ConnRec, resources: map<string, Resource>): Snap {
    var verdict := Report(cs.stats);
    var res := if k.dst in resources then Some(resources[k.dst]) else None;
    Snap(k, cs.srcType, cs.dstType, ValsOf(cs.stats), cs.retransmit, |cs.stats.rtts|,
         verdict.spike, verdict.threshold,
         if verdict.spike then DetectCause(cs.dstType, res) else Cause(NoCause, NoSignal),
         if verdict.spike then res else None)
  }

  function SnapOf(st: State, k: ConnKey): Snap
    requires k in st.conns
  {
    SnapFor(k, st.conns[k], st.resources)
  }

  function Published(cs: ConnRec, now: nat): ConnRec {
    cs.(history := Last(MAX_HISTORY, cs.history + [Point(now / 1_000_000, ValsOf(cs.stats))]))
  }

  function Publish(st: State, now: nat): State {
    st.(conns := map k | k in st.conns :: Published(st.conns[k], now))
  }

  // ---- Expiry ------------------------------------------------------------------------

  predicate Stale(lastSeen: nat, now: nat) { now - lastSeen > CONN_TTL }

  function Expired(st: State, now: nat): set<ConnKey> {
    set k | k in st.conns && Stale(st.conns[k].lastSeen, now)
  }

  function Sweep(st: State, now: nat): State {
    st.(conns := map k | k in st.conns && !Stale(st.conns[k].lastSeen, now) :: st.conns[k],
        flows := map f | f in st.flows && !Stale(st.flows[f].lastSeen, now) :: st.flows[f])
  }

  // ---- Whole runs --------------------------------------------------------------------

  datatype Step =
    | OnEvent(e: Event, at: nat)
    | OnTick(at: nat)
    | OnSweep(at: nat)
    | OnResource(service: string, resource: Resource, at: nat)

  function Apply(r: Resolver, st: State, s: Step): State {
    match s
    case OnEvent(e, now) => HandleEvent(r, st, e, now)
    case OnTick(now) => Publish(st, now)
    case OnSweep(now) => Sweep(st, now)
    case OnResource(service, u, _) => st.(resources := st.resources[service := u])
  }

  function Front<T>(s: seq<T>): seq<T>
    requires s != []
  {
    s[..|s| - 1]
  }

  function Final<T>(s: seq<T>): T
    requires s != []
  {
    s[|s| - 1]
  }

  function Run(r: Resolver, steps: seq<Step>): State {
    if steps == [] then INIT else Apply(r, Run(r, Front(steps)), Final(steps))
  }

  /** The time of the last step; the run starts at time 0. */
  function Now(steps: seq<Step>): nat { if steps == [] then 0 else Final(steps).at }

  /** An event that carries a round-trip time. */
  predicate Measures(e: Event) { e.kind in {Connect, Rtt} && e.latency > 0 }

  /** An event between the services of connection k. */
  predicate Concerns(r: Resolver, e: Event, k: ConnKey) { k.src == r.name(e.saddr) && k.dst == r.name(e.daddr) }

  /** An event on flow f. */
  predicate OnFlow(e: Event, f: FlowKey) {
    f.sock == e.pid && f.saddr == e.saddr && f.daddr == e.daddr && f.dport == e.dport
  }

  /** The clock is monotonic. */
  ghost predicate Clocked(steps: seq<Step>) {
    steps != [] ==> Clocked(Front(steps)) && Now(Front(steps)) <= Now(steps)
  }

  // ---- No orphan flows ---------------------------------------------------------------

  /** Every flow has its connection, which was seen no earlier than the flow. */
  ghost predicate NoOrphans(r: Resolver, st: State, now: nat) {
    && (forall f :: f in st.flows ==> Owner(r, f) in st.conns)
    && (forall f :: f in st.flows ==> st.flows[f].lastSeen <= st.conns[Owner(r, f)].lastSeen)
    && (forall k :: k in st.conns ==> st.conns[k].lastSeen <= now)
  }

  /** Seeing a flow and its connection at the same, latest instant keeps the invariant. */
  lemma {:induction false} SeenTogether(
    r: Resolver, st: State, k: ConnKey, cs: ConnRec, flows: map<FlowKey, FlowRec>, now: nat)
    requires NoOrphans(r, st, now) && cs.lastSeen == now
    requires forall f :: f in flows ==>
      (f in st.flows && flows[f] == st.flows[f]) || (Owner(r, f) == k && flows[f].lastSeen == now)
    ensures NoOrphans(r, st.(conns := st.conns[k := cs], flows := flows), now)
  {}

  lemma {:induction false} StepKeepsOwners(r: Resolver, st: State, s: Step, now: nat)
    requires NoOrphans(r, st, now) && now <= s.at
    ensures NoOrphans(r, Apply(r, st, s), s.at)
  {
    if s.OnEvent? {
      SeenTogether(r, st, KeyOf(r, s.e), NextConn(r, st, s.e, s.at), NextFlows(st, s.e, s.at), s.at);
    }
  }

  lemma {:induction false} NoOrphanFlows(r: Resolver, steps: seq<Step>)
    requires Clocked(steps)
    ensures NoOrphans(r, Run(r, steps), Now(steps))
  {
    if steps != [] {
      NoOrphanFlows(r, Front(steps));
      StepKeepsOwners(r, Run(r, Front(steps)), Final(steps), Now(Front(steps)));
    }
  }

  // ---- Sweeps --------------------------------------------------------------

  function LastSweep(steps: seq<Step>): nat {
    if steps == [] then 0
    else if Final(steps).OnSweep? then Final(steps).at
    else LastSweep(Front(steps))
  }

  /** Sweeps come at most 10 seconds apart: no step is later than that after the last one. */
  ghost predicate Punctual(steps: seq<Step>) {
    steps != [] ==> Punctual(Front(steps)) && Now(steps) <= LastSweep(Front(steps)) + 10_000_000_000
  }

  lemma {:induction false} LastSweepIsPast(steps: seq<Step>)
    requires Clocked(steps)
    ensures LastSweep(steps) <= Now(steps)
  {
    if steps != [] {
      LastSweepIsPast(Front(steps));
    }
  }

  lemma {:induction false} FreshSinceSweep(r: Resolver, steps: seq<Step>, k: ConnKey)
    requires Clocked(steps) && k in Run(r, steps).conns
    ensures LastSweep(steps) <= Run(r, steps).conns[k].lastSeen + CONN_TTL
    ensures LastSweep(steps) <= Now(steps)
  {
    LastSweepIsPast(steps);
    if steps != [] && k in Run(r, Front(steps)).conns {
      FreshSinceSweep(r, Front(steps), k);
      LastSweepIsPast(Front(steps));
    }
  }

  // ---- One removal for each creation -------------------------------------------------

  /** How often the run has created, and how often it has removed, connection k. */
  function Created(r: Resolver, steps: seq<Step>, k: ConnKey): nat {
    if steps == [] then 0
    else
      var st := Run(r, Front(steps));
      Created(r, Front(steps), k)
      + if Final(steps).OnEvent? && Concerns(r, Final(steps).e, k) && k !in st.conns then 1 else 0
  }

  function Removed(r: Resolver, steps: seq<Step>, k: ConnKey): nat {
    if steps == [] then 0
    else
      var st := Run(r, Front(steps));
      Removed(r, Front(steps), k)
      + if Final(steps).OnSweep? && k in Expired(st, Final(steps).at) then 1 else 0
  }

  lemma {:induction false} RemovalsBalanceCreations(r: Resolver, steps: seq<Step>, k: ConnKey)
    ensures Created(r, steps, k) == Removed(r, steps, k) + if k in Run(r, steps).conns then 1 else 0
  {
    if steps != [] {
      RemovalsBalanceCreations(r, Front(steps), k);
    }
  }

  // ---- Every connection and flow is a run of the single-object models ------------------

  /** The round-trip times recorded for flow f since it was last created. */
  function FlowLife(r: Resolver, steps: seq<Step>, f: FlowKey): seq<nat> {
    if steps == [] then []
    else
      var before := FlowLife(r, Front(steps), f);
      match Final(steps)
      case OnEvent(e, _) => if Measures(e) && OnFlow(e, f) then before + [e.latency] else before
      case OnSweep(now) => if f in Run(r, steps).flows then before else []
      case _ => before
  }

  /** Its samples since it was last created: each with the jitter of its flow at the time. */
  function ConnLife(r: Resolver, steps: seq<Step>, k: ConnKey): seq<Sample> {
    if steps == [] then []
    else
      var before := ConnLife(r, Front(steps), k);
      match Final(steps)
      case OnEvent(e, _) =>
        if Measures(e) && Concerns(r, e, k) then
          var f := FlowKey(e.pid, e.saddr, e.daddr, e.dport);
          before + [Sample(e.latency, Ewma.Jitter(Ewma.Run(Ewma.Fresh, FlowLife(r, steps, f))))]
        else before
      case OnSweep(now) => if k in Run(r, steps).conns then before else []
      case _ => before
  }

  lemma {:induction false} OtherStepsKeepFlow(r: Resolver, st: State, s: Step, f: FlowKey)
    requires !(s.OnEvent? && Measures(s.e) && OnFlow(s.e, f))
    ensures var st' := Apply(r, st, s);
      && (f in st'.flows ==> f in st.flows && st'.flows[f].flow == st.flows[f].flow)
      && (!s.OnSweep? && f in st.flows ==> f in st'.flows)
  {}

  lemma {:induction false} FlowIsRun(r: Resolver, steps: seq<Step>, f: FlowKey)
    ensures var st, life := Run(r, steps), FlowLife(r, steps, f);
      if f in st.flows then st.flows[f].flow == Ewma.Run(Ewma.Fresh, life) else life == []
  {
    if steps != [] {
      var st, s, before := Run(r, Front(steps)), Final(steps), FlowLife(r, Front(steps), f);
      FlowIsRun(r, Front(steps), f);
      if s.OnEvent? && Measures(s.e) && OnFlow(s.e, f) {
        assert (before + [s.e.latency])[..|before|] == before;
        assert FlowBefore(st, s.e) == Ewma.Run(Ewma.Fresh, before);
      } else {
        OtherStepsKeepFlow(r, st, s, f);
      }
    }
  }

  lemma {:induction false} OtherStepsKeepStats(r: Resolver, st: State, s: Step, k: ConnKey)
    requires !(s.OnEvent? && Measures(s.e) && Concerns(r, s.e, k))
    ensures var st' := Apply(r, st, s);
      k in st'.conns ==>
        st'.conns[k].stats == if k in st.conns then st.conns[k].stats else EMPTY
    ensures !s.OnSweep? && k in st.conns ==> k in Apply(r, st, s).conns
  {}

  lemma {:induction false} FeedOneMore(ss: seq<Sample>, s: Sample)
    ensures Feed(EMPTY, ss + [s]) == AddSample(Feed(EMPTY, ss), s.rtt, s.jitter)
  {}

  lemma {:induction false} SampleIsAdded(r: Resolver, st: State, e: Event, now: nat, k: ConnKey)
    requires Measures(e) && Concerns(r, e, k)
    ensures var st', f := HandleEvent(r, st, e, now), FlowKey(e.pid, e.saddr, e.daddr, e.dport);
      && k in st'.conns && f in st'.flows
      && st'.conns[k].stats == AddSample(
           if k in st.conns then st.conns[k].stats else EMPTY, e.latency, Ewma.Jitter(st'.flows[f].flow))
  {}

  lemma {:induction false} FeedGrows(r: Resolver, steps: seq<Step>, k: ConnKey, e: Event, now: nat)
    requires steps != [] && Final(steps) == OnEvent(e, now) && Measures(e) && Concerns(r, e, k)
    requires var st, before := Run(r, Front(steps)), ConnLife(r, Front(steps), k);
      if k in st.conns then st.conns[k].stats == Feed(EMPTY, before) else before == []
    ensures k in Run(r, steps).conns && Run(r, steps).conns[k].stats == Feed(EMPTY, ConnLife(r, steps, k))
  {
    var f := FlowKey(e.pid, e.saddr, e.daddr, e.dport);
    SampleIsAdded(r, Run(r, Front(steps)), e, now, k);
    FlowIsRun(r, steps, f);
    var jitter := Ewma.Jitter(Ewma.Run(Ewma.Fresh, FlowLife(r, steps, f)));
    FeedOneMore(ConnLife(r, Front(steps), k), Sample(e.latency, jitter));
  }

  /** A connection in the table is the feed of the samples of its lifetime, nothing else. */
  lemma {:induction false} ConnIsFeed(r: Resolver, steps: seq<Step>, k: ConnKey)
    ensures var st, life := Run(r, steps), ConnLife(r, steps, k);
      if k in st.conns then st.conns[k].stats == Feed(EMPTY, life) else life == []
  {
    if steps != [] {
      var s := Final(steps);
      ConnIsFeed(r, Front(steps), k);
      if s.OnEvent? && Measures(s.e) && Concerns(r, s.e, k) {
        FeedGrows(r, steps, k, s.e, s.at);
      } else {
        OtherStepsKeepStats(r, Run(r, Front(steps)), s, k);
      }
    }
  }

  ghost predicate LatenciesUpTo(steps: seq<Step>, hi: nat) {
    forall i :: 0 <= i < |steps| && steps[i].OnEvent? ==> steps[i].e.latency <= hi
  }

  /** Latencies are uint64 values. */
  ghost predicate Decoded(steps: seq<Step>) { LatenciesUpTo(steps, TWO64 - 1) }

  lemma {:induction false} LifeInRange(r: Resolver, steps: seq<Step>, k: ConnKey, hi: nat)
    requires LatenciesUpTo(steps, hi)
    ensures InRange(ConnLife(r, steps, k), 1, hi)
  {
    if steps != [] {
      LifeInRange(r, Front(steps), k, hi);
    }
  }

  /**
   What every publish of every run reports. There is a baseline exactly when there are
   samples; a lifetime within a factor of 3 raises no alarm; a baseline with few enough
   samples above b hides nothing above 3b.
   */
  lemma {:induction false} EngineVerdicts(r: Resolver, steps: seq<Step>, k: ConnKey, m: nat, b: nat)
    requires Decoded(steps) && k in Run(r, steps).conns
    ensures var st, life := Run(r, steps), ConnLife(r, steps, k);
      var cs, snap := st.conns[k].stats, SnapOf(st, k);
      && (cs.stableP99 > 0 <==> cs.rtts != [])
      && (0 < m && 9 * m < TWO64 && InRange(life, m, 3 * m) ==> !snap.spike)
      && (life != [] && MostlyAtMost(life, b) && snap.vals.latest > 3 * b ==> snap.spike)
  {
    var life := ConnLife(r, steps, k);
    ConnIsFeed(r, steps, k);
    LifeInRange(r, steps, k, TWO64 - 1);
    FallbackIsDead(life);
    WindowOfFeed(life);
    if 0 < m && 9 * m < TWO64 && InRange(life, m, 3 * m) {
      NoFalseAlarm(life, m);
    }
    if life != [] && MostlyAtMost(life, b) {
      NoMissedSpike(life, b);
    }
  }

  /**
   Exactly when a publish reports a connection, in every run whose latencies can be tripled:
   with the gate open at the newest sample it must stand out from its own window, with the
   gate closed from the baseline before it.
   */
  lemma {:induction false} PublishedSpikeExactly(r: Resolver, steps: seq<Step>, k: ConnKey)
    requires LatenciesUpTo(steps, (TWO64 - 1) / 3) && k in Run(r, steps).conns
    ensures InRange(ConnLife(r, steps, k), 1, (TWO64 - 1) / 3)
    ensures SnapOf(Run(r, steps), k).spike <==>
      ConnLife(r, steps, k) != [] && StandsOut(ConnLife(r, steps, k))
  {
    var life := ConnLife(r, steps, k);
    ConnIsFeed(r, steps, k);
    LifeInRange(r, steps, k, (TWO64 - 1) / 3);
    if life != [] {
      ReportedExactly(life);
    }
  }

  /** One more event with a round-trip time is one more sample of its flow and connection. */
  lemma {:induction false} LifeGrows(r: Resolver, steps: seq<Step>, e: Event, now: nat)
    requires Measures(e)
    ensures var steps', k, f := steps + [OnEvent(e, now)], KeyOf(r, e), FlowOf(e);
      && FlowLife(r, steps', f) == FlowLife(r, steps, f) + [e.latency]
      && ConnLife(r, steps', k) == ConnLife(r, steps, k)
           + [Sample(e.latency, Ewma.Jitter(Ewma.Run(Ewma.Fresh, FlowLife(r, steps', f))))]
  {
    var steps' := steps + [OnEvent(e, now)];
    assert Front(steps') == steps && Final(steps') == OnEvent(e, now);
  }

  /** The first sample of a flow adds a sample with jitter 0 to its connection. */
  lemma {:induction false} FirstOfFlow(r: Resolver, steps: seq<Step>, e: Event, now: nat)
    requires Measures(e) && FlowOf(e) !in Run(r, steps).flows
    ensures ConnLife(r, steps + [OnEvent(e, now)], KeyOf(r, e))
         == ConnLife(r, steps, KeyOf(r, e)) + [Sample(e.latency, 0)]
  {
    LifeGrows(r, steps, e, now);
    FlowIsRun(r, steps, FlowOf(e));
    Ewma.RunOfOne(e.latency);
    assert [] + [e.latency] == [e.latency];
  }

  /** The verdict of a publish is that of the feed of the lifetime. */
  lemma {:induction false} SpikeOfLife(r: Resolver, steps: seq<Step>, k: ConnKey)
    requires k in Run(r, steps).conns
    ensures SnapOf(Run(r, steps), k).spike == Report(Feed(EMPTY, ConnLife(r, steps, k))).spike
    ensures Run(r, steps).conns[k].stats.stableP99 == Feed(EMPTY, ConnLife(r, steps, k)).stableP99
  {
    ConnIsFeed(r, steps, k);
  }

  /**
   The first sample of a new flow has jitter 0 and opens the gate: in every run, whenever
   it reaches a connection with fewer than 100 samples, however slow, the next publish does
   not report it and the baseline has risen to it.
   */
  lemma {:induction false} NewFlowHidesSpike(r: Resolver, steps: seq<Step>, e: Event, now: nat)
    requires LatenciesUpTo(steps, (TWO64 - 1) / 3) && e.latency <= (TWO64 - 1) / 3
    requires Measures(e) && FlowKey(e.pid, e.saddr, e.daddr, e.dport) !in Run(r, steps).flows
    requires |ConnLife(r, steps, ConnKey(r.name(e.saddr), r.name(e.daddr)))| < 100
    ensures var st, k := Run(r, steps + [OnEvent(e, now)]), ConnKey(r.name(e.saddr), r.name(e.daddr));
      k in st.conns && !SnapOf(st, k).spike && st.conns[k].stats.stableP99 >= e.latency
  {
    var steps', k := steps + [OnEvent(e, now)], KeyOf(r, e);
    assert Front(steps') == steps && Final(steps') == OnEvent(e, now);
    FirstOfFlow(r, steps, e, now);
    LifeInRange(r, steps, k, (TWO64 - 1) / 3);
    CalmSampleIsHidden(ConnLife(r, steps, k), e.latency);
    SpikeOfLife(r, steps', k);
  }

  lemma {:induction false} LifeIsShort(r: Resolver, steps: seq<Step>, k: ConnKey)
    ensures |ConnLife(r, steps, k)| <= |steps|
  {
    if steps != [] {
      LifeIsShort(r, Front(steps), k);
    }
  }

  /** Only events bring flows. */
  lemma {:induction false} FlowsComeFromEvents(r: Resolver, steps: seq<Step>, f: FlowKey)
    requires forall i :: 0 <= i < |steps| && steps[i].OnEvent? ==> FlowOf(steps[i].e) != f
    ensures f !in Run(r, steps).flows
  {
    if steps != [] {
      FlowsComeFromEvents(r, Front(steps), f);
      OtherStepsKeepFlow(r, Run(r, Front(steps)), Final(steps), f);
    }
  }

  /** For instance one flow a thousand times slower than the steady flow before it. */
  lemma {:induction false} SlowFlowGoesUnreported(r: Resolver, src: string, dst: string)
    ensures var steady := seq(60, i requires 0 <= i < 60 => OnEvent(Event(Rtt, 1, src, dst, 80, 100), i));
      var slow := Event(Rtt, 2, src, dst, 80, 100_000);
      var st, k := Run(r, steady + [OnEvent(slow, 60)]), KeyOf(r, slow);
      k in st.conns && !SnapOf(st, k).spike && st.conns[k].stats.stableP99 >= 100_000
  {
    var steady := seq(60, i requires 0 <= i < 60 => OnEvent(Event(Rtt, 1, src, dst, 80, 100), i));
    var slow := Event(Rtt, 2, src, dst, 80, 100_000);
    FlowsComeFromEvents(r, steady, FlowOf(slow));
    LifeIsShort(r, steady, KeyOf(r, slow));
    NewFlowHidesSpike(r, steady, slow, 60);
  }

  /** What the numbers v say about the last 1000 samples w of a lifetime; all are zero before the first. */
  ghost predicate Summarises(v: Vals, life: seq<Sample>) {
    if life == [] then v == Vals(0, 0, 0, 0, 0, 0)
    else
      var w := Last(1000, Rtts(life));
      && v.latest == life[|life| - 1].rtt && v.jitter == life[|life| - 1].jitter
      && v.p50 in w && (forall b: nat :: v.p50 <= b <==> CountAbove(w, b) < |w| - |w| / 2)
      && v.p95 in w && (forall b: nat :: v.p95 <= b <==> CountAbove(w, b) < |w| - 95 * |w| / 100)
      && v.p99 in w && (forall b: nat :: v.p99 <= b <==> CountAbove(w, b) < (|w| + 99) / 100)
      && v.p50 <= v.p95 <= v.p99
      && (|w| <= 100 ==> forall i :: 0 <= i < |w| ==> w[i] <= v.p99)
      && (Sum(w) < TWO64 ==> v.avg == Sum(w) / |w|)
  }

  /** Every published snapshot counts and summarises the samples of its connection's lifetime. */
  lemma {:induction false} SnapshotMeans(r: Resolver, steps: seq<Step>, k: ConnKey)
    requires k in Run(r, steps).conns
    ensures var life, snap := ConnLife(r, steps, k), SnapOf(Run(r, steps), k);
      && snap.key == k && snap.samples == (if |life| < 1000 then |life| else 1000)
      && Summarises(snap.vals, life)
  {
    var life := ConnLife(r, steps, k);
    ConnIsFeed(r, steps, k);
    WindowOfFeed(life);
    if life != [] {
      JittersOfFeed(life);
      PublishedRanks(Window(life));
      PercentileMonotone(Window(life), 50, 95);
      PercentileMonotone(Window(life), 95, 99);
      if |Window(life)| <= 100 {
        P99IsMaxOfSmallWindow(Window(life));
      }
    }
  }

  lemma {:induction false} FlowLifeBounded(r: Resolver, steps: seq<Step>, f: FlowKey)
    requires LatenciesUpTo(steps, Ewma.EWMA_LIMIT - 1)
    ensures Ewma.Within(FlowLife(r, steps, f), 0, Ewma.EWMA_LIMIT - 1)
    ensures f in Run(r, steps).flows ==> FlowLife(r, steps, f) != []
  {
    if steps != [] {
      FlowLifeBounded(r, Front(steps), f);
    }
  }

  /** Every flow estimate stays close to the real-valued rule applied to the flow's samples. */
  lemma {:induction false} FlowTracksRealRule(r: Resolver, steps: seq<Step>, f: FlowKey)
    requires LatenciesUpTo(steps, Ewma.EWMA_LIMIT - 1)
    requires f in Run(r, steps).flows
    ensures var life := FlowLife(r, steps, f);
      life != [] && Ewma.Tracks(Run(r, steps).flows[f].flow, Ewma.RealRun(life))
  {
    FlowIsRun(r, steps, f);
    FlowLifeBounded(r, steps, f);
    Ewma.IntegerTracksReal(FlowLife(r, steps, f));
  }

  // ---- Retransmissions -----------------------------------------------------------------

  predicate IsRetransmit(r: Resolver, s: Step, k: ConnKey) {
    s.OnEvent? && s.e.kind.Retransmit? && Concerns(r, s.e, k)
  }

  /** Retransmit events of connection k since it was last created. */
  function Retransmits(r: Resolver, steps: seq<Step>, k: ConnKey): nat {
    if steps == [] || k !in Run(r, steps).conns then 0
    else Retransmits(r, Front(steps), k) + if IsRetransmit(r, Final(steps), k) then 1 else 0
  }

  lemma {:induction false} WrapCounts(n: nat)
    ensures Wrap32(n + 1) == Wrap32(Wrap32(n) + 1)
  {}

  lemma {:induction false} RetransmitStep(r: Resolver, st: State, s: Step, k: ConnKey)
    requires k in Apply(r, st, s).conns
    ensures var before := if k in st.conns then st.conns[k].retransmit else 0;
      Apply(r, st, s).conns[k].retransmit == if IsRetransmit(r, s, k) then Wrap32(before + 1) else before
  {}

  /** The counter of a live connection is their number, in 32 bits. */
  lemma {:induction false} RetransmitsAreCounted(r: Resolver, steps: seq<Step>, k: ConnKey)
    requires k in Run(r, steps).conns
    ensures Run(r, steps).conns[k].retransmit == Wrap32(Retransmits(r, steps, k))
  {
    var st, s := Run(r, Front(steps)), Final(steps);
    RetransmitStep(r, st, s, k);
    WrapCounts(Retransmits(r, Front(steps), k));
    if k in st.conns {
      RetransmitsAreCounted(r, Front(steps), k);
    }
  }

  // ---- What a publish, a sweep and a join send ----------------------------------------

  /** One visit of each key of a map, in the arbitrary order Go iterates in. */
  ghost predicate Enumerates(order: seq<ConnKey>, keys: set<ConnKey>) {
    && (forall i, j :: 0 <= i < j < |order| ==> order[i] != order[j])
    && (forall i :: 0 <= i < |order| ==> order[i] in keys)
    && (forall k :: k in keys ==> k in order)
  }

  lemma {:induction false} VisitOne(order: seq<ConnKey>, keys: set<ConnKey>, k: ConnKey)
    requires Enumerates(order, keys) && k !in keys
    ensures Enumerates(order + [k], keys + {k})
  {}

  function StatsMsgs(snaps: seq<Snap>): seq<Msg> {
    seq(|snaps|, i requires 0 <= i < |snaps| => Stats(snaps[i]))
  }

  function RemoveMsgs(order: seq<ConnKey>): seq<Msg> {
    seq(|order|, i requires 0 <= i < |order| => Remove(KeyText(order[i])))
  }

  function Snaps(st: State, order: seq<ConnKey>): seq<Snap>
    requires forall i :: 0 <= i < |order| ==> order[i] in st.conns
  {
    seq(|order|, i requires 0 <= i < |order| => SnapOf(st, order[i]))
  }

  /** The histories of the connections that have been published at least once. */
  function HistoryEntries(st: State, order: seq<ConnKey>): seq<ConnHistory>
    requires forall i :: 0 <= i < |order| ==> order[i] in st.conns
  {
    seq(|order|, i requires 0 <= i < |order| => ConnHistory(KeyText(order[i]), st.conns[order[i]].history))
  }

  function WithHistory(st: State): set<ConnKey> { set k | k in st.conns && st.conns[k].history != [] }
}
