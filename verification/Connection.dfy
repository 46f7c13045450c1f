/**
 One tracked connection as it is written (collector/stats/stats.go, connStats): its rings
 and its plain fields, changed in place by what handleEvent and publishSnapshots do to it,
 proved to implement the record `Processor.ConnRec`.
 */
module Connection {
  import opened Machine
  import opened Baseline
  import opened Model
  import opened Processor
  import opened ConnStats

  class Connection {
    const stats: ConnStats
    var retransmit: nat
    var lastSeen: nat
    var srcType: NodeType
    var dstType: NodeType
    var history: seq<Point>

    ghost predicate Valid()
      reads this, stats, stats.ring, stats.jitterRing
    {
      stats.Valid()
    }

    ghost function Rec(): ConnRec
      reads this, stats
    {
      ConnRec(stats.value, retransmit, lastSeen, srcType, dstType, history)
    }

    constructor (now: nat)
      ensures Valid() && fresh(stats) && fresh(stats.ring) && fresh(stats.jitterRing)
      ensures Rec() == ConnRec(EMPTY, 0, now, Internal, Internal, [])
    {
      stats := new ConnStats();
      retransmit, lastSeen, srcType, dstType, history := 0, now, Internal, Internal, [];
    }

    /** What handleEvent does to the connection of an event. */
    method OnEvent(r: Resolver, e: Event, jitterUs: nat, now: nat)
      requires Valid()
      modifies this, stats, stats.ring, stats.jitterRing
      ensures Valid()
      ensures Rec() == AfterEvent(r, old(Rec()), e, jitterUs, now)
    {
      srcType := NodeTypeOf(r, e.saddr);
      dstType := NodeTypeOf(r, e.daddr);
      lastSeen := now;
      if e.kind.Connect? || e.kind.Rtt? {
        if e.latency > 0 {
          stats.Record(e.latency, jitterUs);
        }
      } else if e.kind.Retransmit? {
        retransmit := Wrap32(retransmit + 1);
      }
    }

    /** What a publish reads off the connection. */
    method Measure(key: ConnKey, resources: map<string, Resource>) returns (snap: Snap)
      requires Valid()
      ensures snap == SnapFor(key, Rec(), resources)
    {
      var avg, p50, p95, p99 := stats.Percentiles();
      var jitter := stats.LatestJitter();
      var latestUs := stats.LatestRtt();
      var spike, threshold := stats.IsSpike(latestUs);
      var cause, evidence := Cause(NoCause, NoSignal), None;
      if spike {
        if key.dst in resources {
          evidence := Some(resources[key.dst]);
        }
        cause := DetectCause(dstType, evidence);
      }
      snap := Snap(key, srcType, dstType, Vals(latestUs, avg, p50, p95, p99, jitter), retransmit,
                   stats.count, spike, threshold, cause, evidence);
    }

    /** One turn of the loop of publishSnapshots. */
    method Publish(key: ConnKey, resources: map<string, Resource>, now: nat) returns (snap: Snap)
      requires Valid()
      modifies this`history
      ensures Valid()
      ensures snap == SnapFor(key, old(Rec()), resources)
      ensures Rec() == Published(old(Rec()), now)
    {
      snap := Measure(key, resources);
      history := history + [Point(now / 1_000_000, snap.vals)];
      if |history| > Processor.MAX_HISTORY {
        history := history[|history| - Processor.MAX_HISTORY..];
      }
    }
  }
}
