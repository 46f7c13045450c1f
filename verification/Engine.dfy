/** The engine as it is written: maps updated in place, key by key (collector/stats/stats.go). */
module Engine {
  import opened Machine
  import opened Baseline
  import opened Model
  import opened Processor
  import Ewma

  // ---- Ranging over a Go map -----------------------------------------------------------

  /** A range over the keys of a Go map: each key once, in any order. */
  method VisitOrder(keys: set<ConnKey>) returns (order: seq<ConnKey>)
    ensures Enumerates(order, keys)
  {
    var todo := keys;
    ghost var done: set<ConnKey> := {};
    order := [];
    while todo != {}
      invariant done !! todo && done + todo == keys
      invariant Enumerates(order, done)
      decreases todo
    {
      var key :| key in todo;
      VisitOne(order, done, key);
      order, todo, done := order + [key], todo - {key}, done + {key};
    }
  }

  /** A range loop that rewrites every value in place and collects one result for each. */
  method UpdateEach<V, R>(m: map<ConnKey, V>, update: V -> V, report: (ConnKey, V) -> R)
    returns (m': map<ConnKey, V>, out: seq<R>, order: seq<ConnKey>)
    ensures m' == map k | k in m :: update(m[k])
    ensures Enumerates(order, m.Keys)
    ensures out == seq(|order|, i requires 0 <= i < |order| => report(order[i], m[order[i]]))
  {
    order := VisitOrder(m.Keys);
    m', out := m, [];
    for i := 0 to |order|
      invariant m'.Keys == m.Keys && |out| == i
      invariant forall j :: 0 <= j < i ==> m'[order[j]] == update(m[order[j]])
      invariant forall j :: i <= j < |order| ==> m'[order[j]] == m[order[j]]
      invariant forall j :: 0 <= j < i ==> out[j] == report(order[j], m[order[j]])
    {
      out := out + [report(order[i], m'[order[i]])];
      m' := m'[order[i] := update(m'[order[i]])];
    }
    assert forall k :: k in m ==> k in order;
  }

  /** A range loop that deletes the stale values while it visits them. */
  method DeleteEach<V>(m: map<ConnKey, V>, stale: V -> bool)
    returns (m': map<ConnKey, V>, gone: seq<ConnKey>)
    ensures m' == map k | k in m && !stale(m[k]) :: m[k]
    ensures Enumerates(gone, set k | k in m && stale(m[k]))
  {
    var order := VisitOrder(m.Keys);
    m', gone := m, [];
    ghost var dead: set<ConnKey> := {};
    for i := 0 to |order|
      invariant forall k :: k in dead <==> k in order[..i] && stale(m[k])
      invariant Enumerates(gone, dead)
      invariant m' == map k | k in m && k !in dead :: m[k]
    {
      var key := order[i];
      assert order[..i + 1] == order[..i] + [key];
      if stale(m'[key]) {
        VisitOne(gone, dead, key);
        gone, m', dead := gone + [key], m' - {key}, dead + {key};
      }
    }
    assert dead == set k | k in m && stale(m[k]);
  }

  // ---- The engine -------------------------------------------------------------------------

  lemma {:induction false} SameSnaps(st: State, order: seq<ConnKey>, out: seq<Snap>)
    requires Enumerates(order, st.conns.Keys)
    requires out == seq(|order|, i requires 0 <= i < |order| => SnapFor(order[i], st.conns[order[i]], st.resources))
    ensures out == Snaps(st, order)
  {}

  class Engine {
    const resolver: Resolver
    var conns: map<ConnKey, ConnRec>
    var flows: map<FlowKey, FlowRec>
    var resources: map<string, Resource>
    /** What has gone to the broadcast and to the two store callbacks. */
    var sent: seq<Msg>
    var stored: seq<Snap>
    var storedResources: seq<(string, Resource)>

    function Abs(): State
      reads this
    {
      State(conns, flows, resources)
    }

    constructor (resolver: Resolver)
      ensures Abs() == Processor.INIT && this.resolver == resolver
      ensures sent == [] && stored == [] && storedResources == []
    {
      this.resolver := resolver;
      conns, flows, resources := map[], map[], map[];
      sent, stored, storedResources := [], [], [];
    }

    method UpdateFlowMdev(key: FlowKey, rttUs: nat, now: nat) returns (jitterUs: nat)
      modifies this`flows
      ensures var before := if key in old(flows) then old(flows[key].flow) else Ewma.Fresh;
        && flows == old(flows)[key := FlowRec(Ewma.Step(before, rttUs), now)]
        && jitterUs == Ewma.Jitter(Ewma.Step(before, rttUs))
    {
      var fs := if key in flows then flows[key] else FlowRec(Ewma.Fresh, now);
      fs := fs.(lastSeen := now);
      if fs.flow.Fresh? {
        fs := fs.(flow := Ewma.Tracked(rttUs, 0));
        flows := flows[key := fs];
        return 0;
      }
      var errUs := Ewma.AbsDiff(rttUs, fs.flow.srtt);
      var mdev := Wrap64(3 * fs.flow.mdev + errUs) / 4;
      var srtt := Wrap64(7 * fs.flow.srtt + rttUs) / 8;
      flows := flows[key := fs.(flow := Ewma.Tracked(srtt, mdev))];
      return mdev;
    }

    method HandleEvent(e: Event, now: nat)
      modifies this
      ensures Abs() == Processor.HandleEvent(resolver, old(Abs()), e, now)
      ensures sent == old(sent)
        + [RawEvent(e.kind, resolver.name(e.saddr), resolver.name(e.daddr), e.dport, e.latency, now)]
      ensures stored == old(stored) && storedResources == old(storedResources)
    {
      var dstService := resolver.name(e.daddr);
      var srcService := resolver.name(e.saddr);
      sent := sent + [RawEvent(e.kind, srcService, dstService, e.dport, e.latency, now)];
      var connKey := ConnKey(srcService, dstService);
      var cs := if connKey in conns then conns[connKey] else ConnRec(EMPTY, 0, now, Internal, Internal, []);
      cs := cs.(srcType := NodeTypeOf(resolver, e.saddr), dstType := NodeTypeOf(resolver, e.daddr));
      cs := cs.(lastSeen := now);
      if e.kind.Connect? || e.kind.Rtt? {
        if e.latency > 0 {
          var jitterUs := UpdateFlowMdev(FlowKey(e.pid, e.saddr, e.daddr, e.dport), e.latency, now);
          cs := cs.(stats := AddSample(cs.stats, e.latency, jitterUs));
        }
      } else if e.kind.Retransmit? {
        cs := cs.(retransmit := Wrap32(cs.retransmit + 1));
      }
      conns := conns[connKey := cs];
    }

    /** The locked part of a publish: one snapshot and one history point for each connection. */
    method TakeSnapshots(now: nat) returns (out: seq<Snap>, ghost order: seq<ConnKey>)
      modifies this`conns
      ensures Abs() == Publish(old(Abs()), now)
      ensures Enumerates(order, old(conns).Keys)
      ensures out == Snaps(old(Abs()), order)
    {
      var res := resources;
      conns, out, order := UpdateEach(
        conns, cs => Published(cs, now), (k, cs) => SnapFor(k, cs, res));
      SameSnaps(old(Abs()), order, out);
    }

    /** Each connection gets one history point, one stats message and one stored row. */
    method PublishSnapshots(now: nat) returns (ghost order: seq<ConnKey>)
      modifies this
      ensures Abs() == Publish(old(Abs()), now)
      ensures Enumerates(order, old(conns).Keys)
      ensures sent == old(sent) + StatsMsgs(Snaps(old(Abs()), order))
      ensures stored == old(stored) + Snaps(old(Abs()), order) && storedResources == old(storedResources)
    {
      var out;
      out, order := TakeSnapshots(now);
      SendAll(out);
    }

    /** The unlocked part of a publish. */
    method SendAll(out: seq<Snap>)
      modifies this`sent, this`stored
      ensures sent == old(sent) + StatsMsgs(out) && stored == old(stored) + out
    {
      for i := 0 to |out|
        invariant sent == old(sent) + StatsMsgs(out)[..i]
        invariant stored == old(stored) + out[..i]
      {
        sent := sent + [Stats(out[i])];
        stored := stored + [out[i]];
      }
    }

    /** The locked part of a sweep. */
    method DeleteExpired(now: nat) returns (expired: seq<ConnKey>)
      modifies this`conns, this`flows
      ensures Abs() == Sweep(old(Abs()), now)
      ensures Enumerates(expired, Expired(old(Abs()), now))
    {
      conns, expired := DeleteEach(conns, (cs: ConnRec) => Stale(cs.lastSeen, now));
      flows := map f | f in flows && !Stale(flows[f].lastSeen, now) :: flows[f];
    }

    /** Each expired connection is deleted and announced once. */
    method SweepExpired(now: nat) returns (ghost order: seq<ConnKey>)
      modifies this
      ensures Abs() == Sweep(old(Abs()), now)
      ensures Enumerates(order, Expired(old(Abs()), now))
      ensures sent == old(sent) + RemoveMsgs(order)
      ensures stored == old(stored) && storedResources == old(storedResources)
    {
      var expired := DeleteExpired(now);
      order := expired;
      for i := 0 to |expired|
        invariant sent == old(sent) + RemoveMsgs(order)[..i]
        modifies this`sent
      {
        sent := sent + [Remove(KeyText(expired[i]))];
      }
    }

    method ForwardResource(service: string, u: Resource)
      modifies this`resources, this`sent, this`storedResources
      ensures resources == old(resources)[service := u]
      ensures sent == old(sent) + [ResourceMsg(service, u)]
      ensures storedResources == old(storedResources) + [(service, u)]
    {
      resources := resources[service := u];
      sent := sent + [ResourceMsg(service, u)];
      storedResources := storedResources + [(service, u)];
    }

    /** A copy of every non-empty history, one entry for each connection. */
    method GetHistory() returns (result: seq<ConnHistory>, order: seq<ConnKey>)
      ensures Enumerates(order, WithHistory(Abs()))
      ensures result == HistoryEntries(Abs(), order)
    {
      var keys := VisitOrder(conns.Keys);
      result, order := [], [];
      for i := 0 to |keys|
        invariant Enumerates(order, set k | k in keys[..i] && conns[k].history != [])
        invariant result == HistoryEntries(Abs(), order)
      {
        var key := keys[i];
        assert keys[..i + 1] == keys[..i] + [key];
        if conns[key].history != [] {
          VisitOne(order, (set k | k in keys[..i] && conns[k].history != []), key);
          result := result + [ConnHistory(KeyText(key), conns[key].history)];
          order := order + [key];
        }
      }
      assert keys[..|keys|] == keys;
    }
  }
}
