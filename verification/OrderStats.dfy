/**
 Percentiles by rank of a window of samples: copy, sort, index
 (collector/stats/stats.go, percentiles and percentileIdx).
 */
module OrderStats {
  import opened Machine

  // ---- Sorting ---------------------------------------------------------------------

  predicate Sorted(s: seq<nat>) {
    forall i, j :: 0 <= i <= j < |s| ==> s[i] <= s[j]
  }

  function Insert(x: nat, s: seq<nat>): seq<nat> {
    if s == [] || x <= s[0] then [x] + s else [s[0]] + Insert(x, s[1..])
  }

  /** The result of sort.Slice with `<`: for numbers there is only one. */
  function Sort(s: seq<nat>): seq<nat> {
    if s == [] then [] else Insert(s[0], Sort(s[1..]))
  }

  lemma {:induction false} InsertAdds(x: nat, s: seq<nat>)
    ensures multiset(Insert(x, s)) == multiset(s) + multiset{x}
  {
    if s != [] && x > s[0] {
      InsertAdds(x, s[1..]);
      assert s == [s[0]] + s[1..];
    }
  }

  lemma {:induction false} InsertBounded(x: nat, s: seq<nat>, lo: nat)
    requires lo <= x && forall i :: 0 <= i < |s| ==> lo <= s[i]
    ensures forall i :: 0 <= i < |Insert(x, s)| ==> lo <= Insert(x, s)[i]
  {
    if s != [] && x > s[0] {
      InsertBounded(x, s[1..], lo);
    }
  }

  lemma {:induction false} InsertSorts(x: nat, s: seq<nat>)
    requires Sorted(s)
    ensures Sorted(Insert(x, s))
  {
    if s != [] && x > s[0] {
      InsertSorts(x, s[1..]);
      InsertBounded(x, s[1..], s[0]);
    }
  }

  lemma {:induction false} SortSorts(s: seq<nat>)
    ensures Sorted(Sort(s)) && multiset(Sort(s)) == multiset(s) && |Sort(s)| == |s|
  {
    if s != [] {
      SortSorts(s[1..]);
      InsertSorts(s[0], Sort(s[1..]));
      InsertAdds(s[0], Sort(s[1..]));
      assert s == [s[0]] + s[1..];
    }
    assert |multiset(Sort(s))| == |multiset(s)|;
  }

  lemma {:induction false} SortKeepsMembers(s: seq<nat>)
    ensures forall x :: x in Sort(s) <==> x in s
  {
    SortSorts(s);
    forall x
      ensures x in Sort(s) <==> x in s
    {
      assert x in Sort(s) <==> x in multiset(Sort(s));
    }
  }

  // ---- Counting --------------------------------------------------------------------

  /** How many samples lie above b. */
  function CountAbove(s: seq<nat>, b: nat): nat {
    if s == [] then 0 else (if s[0] > b then 1 else 0) + CountAbove(s[1..], b)
  }

  lemma {:induction false} CountInsert(x: nat, s: seq<nat>, b: nat)
    ensures CountAbove(Insert(x, s), b) == CountAbove(s, b) + if x > b then 1 else 0
  {
    if s == [] || x <= s[0] {
      assert ([x] + s)[1..] == s;
    } else {
      CountInsert(x, s[1..], b);
      assert Insert(x, s)[1..] == Insert(x, s[1..]);
    }
  }

  lemma {:induction false} CountSort(s: seq<nat>, b: nat)
    ensures CountAbove(Sort(s), b) == CountAbove(s, b)
  {
    if s != [] {
      CountSort(s[1..], b);
      CountInsert(s[0], Sort(s[1..]), b);
    }
  }

  lemma {:induction false} AllAbove(s: seq<nat>, b: nat)
    requires forall i :: 0 <= i < |s| ==> s[i] > b
    ensures CountAbove(s, b) == |s|
  {
    if s != [] {
      AllAbove(s[1..], b);
    }
  }

  lemma {:induction false} CountAtMost(s: seq<nat>, b: nat)
    ensures CountAbove(s, b) <= |s|
  {
    if s != [] {
      CountAtMost(s[1..], b);
    }
  }

  /** In a sorted sequence the samples above b are the last ones. */
  lemma {:induction false} CountSorted(s: seq<nat>, i: nat, b: nat)
    requires Sorted(s) && i < |s|
    ensures CountAbove(s, b) <= |s|
    ensures s[i] <= b <==> CountAbove(s, b) < |s| - i
  {
    if s[0] > b {
      AllAbove(s, b);
    } else if i > 0 {
      CountSorted(s[1..], i - 1, b);
    } else {
      CountAtMost(s[1..], b);
    }
  }

  lemma {:induction false} CountAntitone(s: seq<nat>, a: nat, b: nat)
    requires a <= b
    ensures CountAbove(s, b) <= CountAbove(s, a)
  {
    if s != [] {
      CountAntitone(s[1..], a, b);
    }
  }

  // ---- Ranks -----------------------------------------------------------------------

  function CountAtLeast(s: seq<nat>, v: nat): nat {
    if v == 0 then |s| else CountAbove(s, v - 1)
  }

  /** v is a sample with at least idx + 1 samples at or below it and |s| - idx at or above. */
  predicate HasRank(s: seq<nat>, idx: nat, v: nat) {
    v in s && CountAbove(s, v) < |s| - idx <= CountAtLeast(s, v)
  }

  /** Sorting and indexing finds a sample of the given rank. */
  lemma {:induction false} SortedHasRank(s: seq<nat>, idx: nat)
    requires idx < |s| == |Sort(s)|
    ensures HasRank(s, idx, Sort(s)[idx])
  {
    var v := Sort(s)[idx];
    SortSorts(s);
    SortKeepsMembers(s);
    CountSort(s, v);
    CountSorted(Sort(s), idx, v);
    if v > 0 {
      CountSort(s, v - 1);
      CountSorted(Sort(s), idx, v - 1);
    }
  }

  /** A rank is at most b exactly when few enough samples lie above b. */
  lemma {:induction false} RankAtMost(s: seq<nat>, idx: nat, v: nat, b: nat)
    requires HasRank(s, idx, v)
    ensures v <= b <==> CountAbove(s, b) < |s| - idx
  {
    if v <= b {
      CountAntitone(s, v, b);
    } else {
      CountAntitone(s, b, v - 1);
    }
  }

  lemma {:induction false} RankUnique(s: seq<nat>, idx: nat)
    ensures forall v, w :: HasRank(s, idx, v) && HasRank(s, idx, w) ==> v == w
  {
    forall v, w | HasRank(s, idx, v) && HasRank(s, idx, w)
      ensures v == w
    {
      RankAtMost(s, idx, v, w);
      RankAtMost(s, idx, w, w);
      RankAtMost(s, idx, v, v);
      RankAtMost(s, idx, w, v);
    }
  }

  /** The sample of rank idx, defined by counting alone. */
  function Rank(s: seq<nat>, idx: nat): (v: nat)
    requires idx < |s|
    ensures HasRank(s, idx, v)
  {
    SortSorts(s);
    SortedHasRank(s, idx);
    RankUnique(s, idx);
    var v :| v in s && HasRank(s, idx, v);
    v
  }

  /** There is one sample value of each rank: the one that copying and sorting finds. */
  lemma {:induction false} RankIsSortedIndex(s: seq<nat>, idx: nat)
    requires idx < |s|
    ensures |Sort(s)| == |s| && Rank(s, idx) == Sort(s)[idx]
  {
    SortSorts(s);
    SortedHasRank(s, idx);
    RankUnique(s, idx);
  }

  // ---- Percentiles -----------------------------------------------------------------

  function PercentileIdx(n: nat, p: nat): (idx: nat)
    requires n > 0
    ensures idx < n
  {
    var idx := n * p / 100;
    if idx >= n then n - 1 else idx
  }

  /** The p-th percentile of a window; an empty window has percentile 0. */
  function Percentile(s: seq<nat>, p: nat): nat {
    if s == [] then 0 else Rank(s, PercentileIdx(|s|, p))
  }

  lemma {:induction false} MulMonotone(a: nat, b: nat, n: nat)
    requires a <= b
    ensures a * n <= b * n
  {
    assert b * n == a * n + (b - a) * n;
  }

  /** Below 100 the clamp of the index plays no part. */
  lemma {:induction false} IdxBelow100(n: nat, p: nat)
    requires n > 0
    ensures PercentileIdx(n, p) == if p < 100 then n * p / 100 else n - 1
  {
    if p < 100 {
      MulMonotone(p, 99, n);
    } else {
      MulMonotone(100, p, n);
    }
  }

  /**
   The count that decides every percentile, in both directions: with n samples, p out of 100
   is at most b exactly when fewer than n - floor(n * p / 100) of them lie above b.
   */
  lemma {:induction false} PercentileAtMost(s: seq<nat>, p: nat, b: nat)
    requires s != []
    ensures Percentile(s, p) <= b <==> CountAbove(s, b) < if p < 100 then |s| - |s| * p / 100 else 1
  {
    IdxBelow100(|s|, p);
    RankAtMost(s, PercentileIdx(|s|, p), Percentile(s, p), b);
  }

  /** For the three percentiles that are published. */
  lemma {:induction false} PublishedRanks(s: seq<nat>)
    requires s != []
    ensures forall b: nat :: Percentile(s, 50) <= b <==> CountAbove(s, b) < |s| - |s| / 2
    ensures forall b: nat :: Percentile(s, 95) <= b <==> CountAbove(s, b) < |s| - 95 * |s| / 100
    ensures forall b: nat :: Percentile(s, 99) <= b <==> CountAbove(s, b) < (|s| + 99) / 100
    ensures Percentile(s, 50) in s && Percentile(s, 95) in s && Percentile(s, 99) in s
  {
    forall b: nat
      ensures Percentile(s, 50) <= b <==> CountAbove(s, b) < |s| - |s| / 2
      ensures Percentile(s, 95) <= b <==> CountAbove(s, b) < |s| - 95 * |s| / 100
      ensures Percentile(s, 99) <= b <==> CountAbove(s, b) < (|s| + 99) / 100
    {
      PercentileAtMost(s, 50, b);
      PercentileAtMost(s, 95, b);
      PercentileAtMost(s, 99, b);
    }
  }

  /** p99 tolerates fewer than ceil(n/100) samples above the bound. */
  lemma {:induction false} P99AtMost(s: seq<nat>, b: nat)
    requires s != []
    ensures Percentile(s, 99) <= b <==> CountAbove(s, b) < (|s| + 99) / 100
  {
    PercentileAtMost(s, 99, b);
  }

  lemma {:induction false} IdxMonotone(n: nat, p: nat, q: nat)
    requires n > 0 && p <= q
    ensures PercentileIdx(n, p) <= PercentileIdx(n, q)
  {
    MulMonotone(p, q, n);
  }

  /** A higher percentile is never smaller. */
  lemma {:induction false} PercentileMonotone(s: seq<nat>, p: nat, q: nat)
    requires p <= q
    ensures Percentile(s, p) <= Percentile(s, q)
  {
    if s != [] {
      IdxMonotone(|s|, p, q);
      RankAtMost(s, PercentileIdx(|s|, q), Percentile(s, q), Percentile(s, q));
      RankAtMost(s, PercentileIdx(|s|, p), Percentile(s, p), Percentile(s, q));
    }
  }

  /** Bounds on all samples carry over to every percentile. */
  lemma {:induction false} PercentileBounds(s: seq<nat>, p: nat, lo: nat, hi: nat)
    requires s != [] && forall i :: 0 <= i < |s| ==> lo <= s[i] <= hi
    ensures lo <= Percentile(s, p) <= hi
  {}

  lemma {:induction false} NoneAbove(s: seq<nat>, i: nat, b: nat)
    requires i < |s| && CountAbove(s, b) == 0
    ensures s[i] <= b
  {
    if i > 0 {
      NoneAbove(s[1..], i - 1, b);
    }
  }

  /** Up to 100 samples, p99 is simply the largest one. */
  lemma {:induction false} P99IsMaxOfSmallWindow(s: seq<nat>)
    requires 0 < |s| <= 100
    ensures Percentile(s, 99) in s && forall i :: 0 <= i < |s| ==> s[i] <= Percentile(s, 99)
  {
    var v := Percentile(s, 99);
    P99AtMost(s, v);
    forall i | 0 <= i < |s|
      ensures s[i] <= v
    {
      NoneAbove(s, i, v);
    }
  }

  // ---- The mean --------------------------------------------------------------------

  function Sum(s: seq<nat>): nat {
    if s == [] then 0 else Sum(s[..|s| - 1]) + s[|s| - 1]
  }

  /** The mean as computed: the sum is a uint64 and wraps, the division floors. */
  function Average(s: seq<nat>): nat {
    if s == [] then 0 else Wrap64(Sum(s)) / |s|
  }

  lemma {:induction false} SumBounds(s: seq<nat>, lo: nat, hi: nat)
    requires forall i :: 0 <= i < |s| ==> lo <= s[i] <= hi
    ensures |s| * lo <= Sum(s) <= |s| * hi
  {
    if s != [] {
      SumBounds(s[..|s| - 1], lo, hi);
      assert |s| * lo == (|s| - 1) * lo + lo && |s| * hi == (|s| - 1) * hi + hi;
    }
  }

  lemma {:induction false} NoWrap(n: nat, hi: nat)
    requires n <= 1000 && 1000 * hi < TWO64
    ensures n * hi < TWO64
  {
    MulMonotone(n, 1000, hi);
  }

  lemma {:induction false} FlooredQuotient(sum: nat, n: nat, lo: nat, hi: nat)
    requires n > 0 && n * lo <= sum <= n * hi
    ensures sum / n * n <= sum < (sum / n + 1) * n
    ensures lo <= sum / n <= hi
  {
    var q := sum / n;
    assert sum == q * n + sum % n;
    assert q <= hi by {
      if q > hi {
        MulMonotone(hi + 1, q, n);
        assert false;
      }
    }
    assert lo <= q by {
      if q < lo {
        MulMonotone(q + 1, lo, n);
        assert false;
      }
    }
  }

  /** With samples below 2^64 / 1000 a full window cannot wrap: the average is the floored mean. */
  lemma {:induction false} AverageIsFlooredMean(s: seq<nat>, lo: nat, hi: nat)
    requires 0 < |s| <= 1000 && 1000 * hi < TWO64
    requires forall i :: 0 <= i < |s| ==> lo <= s[i] <= hi
    ensures lo <= Average(s) <= hi
    ensures Average(s) * |s| <= Sum(s) < (Average(s) + 1) * |s|
  {
    SumBounds(s, lo, hi);
    NoWrap(|s|, hi);
    FlooredQuotient(Sum(s), |s|, lo, hi);
  }
}
