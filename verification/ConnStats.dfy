/**
 The ring buffers of one connection (collector/stats/stats.go, connStats), updated in
 place, proved to implement the value `Baseline.Conn`.
 */
module ConnStats {
  import opened Machine
  import opened OrderStats
  import opened Baseline

  /** The index the source computes for the i-th oldest of `count` samples. */
  function Slot(head: nat, count: nat, i: nat): (k: nat)
    requires head < RING && count <= RING
    ensures k < RING
  {
    (head - count + i + RING) % RING
  }

  /** The samples in a ring, oldest first. */
  function Unroll(ring: seq<nat>, head: nat, count: nat): seq<nat>
    requires |ring| == RING && head < RING && count <= RING
  {
    seq(count, i requires 0 <= i < count => ring[Slot(head, count, i)])
  }

  lemma {:induction false} SlotMoves(head: nat, count: nat, i: nat)
    requires head < RING && count <= RING
    ensures var head' := (head + 1) % RING;
      && (count < RING && i < count ==> Slot(head', count + 1, i) == Slot(head, count, i) != head)
      && (count < RING ==> Slot(head', count + 1, count) == head)
      && (count == RING && i < RING - 1 ==> Slot(head', count, i) == Slot(head, count, i + 1) != head)
      && (count == RING ==> Slot(head', count, RING - 1) == head)
  {}

  /** Overwriting slot `head` and moving on drops the oldest sample exactly when full. */
  lemma {:induction false} RingPush(ring: seq<nat>, head: nat, count: nat, x: nat)
    requires |ring| == RING && head < RING && count <= RING
    ensures Unroll(ring[head := x], (head + 1) % RING, if count < RING then count + 1 else count)
         == Push(Unroll(ring, head, count), x)
  {
    var count' := if count < RING then count + 1 else count;
    var head' := (head + 1) % RING;
    var got, want := Unroll(ring[head := x], head', count'), Push(Unroll(ring, head, count), x);
    forall i | 0 <= i < count'
      ensures got[i] == want[i]
    {
      SlotMoves(head, count, i);
    }
  }

  lemma {:induction false} NewestSlot(ring: seq<nat>, head: nat, count: nat)
    requires |ring| == RING && head < RING && 0 < count <= RING
    ensures ring[(head - 1 + RING) % RING] == Latest(Unroll(ring, head, count))
  {}

  /** Sorting a copy and indexing it yields the sample of that rank. */
  function SortedAt(samples: seq<nat>, idx: nat): (v: nat)
    requires idx < |samples|
    ensures v == Rank(samples, idx)
  {
    RankIsSortedIndex(samples, idx);
    Sort(samples)[idx]
  }

  lemma {:induction false} SumAppend(s: seq<nat>, x: nat)
    ensures Wrap64(Wrap64(Sum(s)) + x) == Wrap64(Sum(s + [x]))
  {}

  class ConnStats {
    const ring: array<nat>
    var head: nat
    var count: nat
    const jitterRing: array<nat>
    var jitterHead: nat
    var jitterCount: nat
    var stableP99: nat

    /** The connection as a value, kept up to date by every method. */
    ghost var value: Conn

    ghost predicate Valid()
      reads this, ring, jitterRing
    {
      && Shaped()
      && value == Conn(Unroll(ring[..], head, count), Unroll(jitterRing[..], jitterHead, jitterCount), stableP99)
    }

    ghost predicate Shaped()
      reads this
    {
      && ring != jitterRing && ring.Length == jitterRing.Length == RING
      && head < RING && count <= RING
      && jitterHead < RING && jitterCount <= RING
    }

    constructor ()
      ensures Valid() && fresh(ring) && fresh(jitterRing)
      ensures value == EMPTY
    {
      ring, jitterRing := new nat[RING], new nat[RING];
      head, count, jitterHead, jitterCount, stableP99 := 0, 0, 0, 0, 0;
      value := EMPTY;
    }

    method AddRtt(us: nat)
      requires Valid()
      modifies this`head, this`count, this`value, ring
      ensures Valid()
      ensures value == old(value).(rtts := Push(old(value.rtts), us))
    {
      RingPush(ring[..], head, count, us);
      ring[head] := us;
      value := value.(rtts := Push(value.rtts, us));
      head := (head + 1) % RING;
      if count < RING {
        count := count + 1;
      }
    }

    method AddJitter(us: nat)
      requires Valid()
      modifies this`jitterHead, this`jitterCount, this`value, jitterRing
      ensures Valid()
      ensures value == old(value).(jitters := Push(old(value.jitters), us))
    {
      RingPush(jitterRing[..], jitterHead, jitterCount, us);
      jitterRing[jitterHead] := us;
      value := value.(jitters := Push(value.jitters, us));
      jitterHead := (jitterHead + 1) % RING;
      if jitterCount < RING {
        jitterCount := jitterCount + 1;
      }
    }

    method LatestJitter() returns (us: nat)
      requires Valid()
      ensures us == Latest(value.jitters)
    {
      if jitterCount == 0 {
        return 0;
      }
      NewestSlot(jitterRing[..], jitterHead, jitterCount);
      us := jitterRing[(jitterHead - 1 + RING) % RING];
    }

    /** The newest round-trip time, as a publish reads it. */
    method LatestRtt() returns (us: nat)
      requires Valid()
      ensures us == Latest(value.rtts)
    {
      if count == 0 {
        return 0;
      }
      NewestSlot(ring[..], head, count);
      us := ring[(head - 1 + RING) % RING];
    }

    /** The copy loop of percentiles: the valid samples, oldest first, and their wrapped sum. */
    method CopySamples() returns (samples: seq<nat>, sum: nat)
      requires Valid()
      ensures samples == value.rtts
      ensures sum == Wrap64(Sum(samples))
    {
      ghost var w := value.rtts;
      samples, sum := [], 0;
      for i := 0 to count
        invariant samples == w[..i]
        invariant sum == Wrap64(Sum(samples))
      {
        var us := ring[(head - count + i + RING) % RING];
        assert us == w[i];
        SumAppend(samples, us);
        samples := samples + [us];
        sum := Wrap64(sum + us);
      }
    }

    /** Copies the ring, sums it, sorts the copy and indexes it by rank. */
    method Percentiles() returns (avg: nat, p50: nat, p95: nat, p99: nat)
      requires Valid()
      ensures var w := value.rtts;
        && avg == Average(w)
        && p50 == Percentile(w, 50) && p95 == Percentile(w, 95) && p99 == Percentile(w, 99)
    {
      if count == 0 {
        return 0, 0, 0, 0;
      }
      var samples, sum := CopySamples();
      avg := sum / count;
      p50 := SortedAt(samples, PercentileIdx(count, 50));
      p95 := SortedAt(samples, PercentileIdx(count, 95));
      p99 := SortedAt(samples, PercentileIdx(count, 99));
    }

    method UpdateStableP99(jitterUs: nat)
      requires Valid()
      modifies this`stableP99, this`value
      ensures Valid()
      ensures var old' := old(value);
        value == old'.(stableP99 := Rebase(old'.stableP99, old'.rtts, jitterUs))
    {
      var _, p50, _, p99 := Percentiles();
      if p99 == 0 {
        return;
      }
      var stableThreshold := p50 / 2;
      if stableP99 == 0 || jitterUs <= stableThreshold {
        stableP99 := p99;
        value := value.(stableP99 := p99);
      }
    }

    method IsSpike(latestUs: nat) returns (spike: bool, threshold: nat)
      requires Valid()
      ensures Verdict(spike, threshold) == Baseline.IsSpike(value, latestUs)
    {
      var baseline := stableP99;
      if baseline == 0 {
        var _, _, _, p99 := Percentiles();
        baseline := p99;
      }
      if baseline == 0 {
        return false, 0;
      }
      threshold := Wrap64(baseline * SPIKE_MULTIPLIER);
      spike := latestUs > threshold;
    }

    /** The three updates handleEvent makes for a round-trip time. */
    method Record(rtt: nat, jitterUs: nat)
      requires Valid()
      modifies this, ring, jitterRing
      ensures Valid()
      ensures value == AddSample(old(value), rtt, jitterUs)
    {
      AddRtt(rtt);
      AddJitter(jitterUs);
      UpdateStableP99(jitterUs);
    }
  }
}
