/**
 Response-time buckets: the last samples recorded for a label, and nearest-rank percentiles
 of a sorted copy. Samples are integers, in any one unit of time.
 */
module Percentiles {
  const MAX_HISTOGRAM_SAMPLES: nat := 1000

  function Last(samples: seq<int>, n: nat): (s: seq<int>)
    ensures |s| == if |samples| < n then |samples| else n
  {
    if |samples| <= n then samples else samples[|samples| - n..]
  }

  predicate Sorted(s: seq<int>) {
    forall i, j :: 0 <= i <= j < |s| ==> s[i] <= s[j]
  }

  /** How many samples are not above v. */
  function AtMost(samples: seq<int>, v: int): (n: nat)
    ensures n <= |samples|
  {
    if samples == [] then 0
    else AtMost(samples[..|samples| - 1], v) + if samples[|samples| - 1] <= v then 1 else 0
  }

  /** Math.ceil(len * p / 100). */
  function Rank(len: nat, p: nat): nat {
    (len * p + 99) / 100
  }

  // ---------------------------------------------------------------- counting in a sorted sequence

  lemma {:induction false} AtMostParts(a: seq<int>, b: seq<int>, v: int)
    ensures AtMost(a + b, v) == AtMost(a, v) + AtMost(b, v)
  {
    if b == [] {
      assert a + b == a;
    } else {
      var n := |b| - 1;
      AtMostParts(a, b[..n], v);
      assert (a + b)[..|a| + n] == a + b[..n];
    }
  }

  lemma {:induction false} AllAtMost(s: seq<int>, v: int)
    requires forall i :: 0 <= i < |s| ==> s[i] <= v
    ensures AtMost(s, v) == |s|
  {
    if s != [] {
      AllAtMost(s[..|s| - 1], v);
    }
  }

  lemma {:induction false} NoneAtMost(s: seq<int>, v: int)
    requires forall i :: 0 <= i < |s| ==> s[i] > v
    ensures AtMost(s, v) == 0
  {
    if s != [] {
      NoneAtMost(s[..|s| - 1], v);
    }
  }

  /** In a sorted sequence at least k + 1 samples are not above the one at k. */
  lemma EnoughAtMost(s: seq<int>, k: nat)
    requires Sorted(s) && k < |s|
    ensures AtMost(s, s[k]) >= k + 1
  {
    var (a, b) := (s[..k + 1], s[k + 1..]);
    assert s == a + b;
    AllAtMost(a, s[k]);
    AtMostParts(a, b, s[k]);
  }

  /** And at most k are not above anything smaller. */
  lemma FewBelow(s: seq<int>, k: nat, v: int)
    requires Sorted(s) && k < |s| && v < s[k]
    ensures AtMost(s, v) <= k
  {
    var (a, b) := (s[..k], s[k..]);
    assert s == a + b;
    NoneAtMost(b, v);
    AtMostParts(a, b, v);
  }

  // ---------------------------------------------------------------- percentiles

  /** v is one of the samples, at least p% of them are not above it, and that holds of no smaller number. */
  ghost predicate IsPercentile(samples: seq<int>, p: nat, v: int) {
    && v in samples
    && AtMost(samples, v) * 100 >= |samples| * p
    && forall w: int :: w < v ==> AtMost(samples, w) * 100 < |samples| * p
  }

  lemma RankInRange(len: nat, p: nat)
    requires len >= 1 && 1 <= p <= 100
    ensures 1 <= Rank(len, p) <= len
  {
    assert len * p <= len * 100;
    assert len * p >= 1;
  }

  lemma RankIsLeast(len: nat, p: nat, n: nat)
    ensures n * 100 >= len * p <==> n >= Rank(len, p)
  {
  }

  /** Only one number is the p-th percentile. */
  lemma PercentileIsUnique(samples: seq<int>, p: nat, v: int, w: int)
    requires IsPercentile(samples, p, v) && IsPercentile(samples, p, w)
    ensures v == w
  {
  }

  /** Same samples in some order: every count agrees. */
  ghost predicate SameSamples(a: seq<int>, b: seq<int>) {
    |a| == |b| && (forall v :: v in a <==> v in b) && forall v :: AtMost(a, v) == AtMost(b, v)
  }

  /** The element at the nearest rank of the sorted samples is the percentile. */
  lemma NearestRank(samples: seq<int>, sorted: seq<int>, p: nat)
    requires Sorted(sorted) && SameSamples(samples, sorted) && samples != [] && 1 <= p <= 100
    ensures 1 <= Rank(|samples|, p) <= |sorted|
    ensures IsPercentile(samples, p, sorted[Rank(|samples|, p) - 1])
  {
    RankInRange(|samples|, p);
    var k := Rank(|samples|, p) - 1;
    var v := sorted[k];
    EnoughAtMost(sorted, k);
    RankIsLeast(|samples|, p, AtMost(samples, v));
    forall w: int | w < v
      ensures AtMost(samples, w) * 100 < |samples| * p
    {
      FewBelow(sorted, k, w);
      RankIsLeast(|samples|, p, AtMost(samples, w));
    }
  }

  datatype Stats = Stats(count: nat, min: int, max: int, avg: int, p50: int, p95: int, p99: int)

  function Sum(s: seq<int>): int {
    if s == [] then 0 else Sum(s[..|s| - 1]) + s[|s| - 1]
  }

  /** Math.round(sum / count): halves go up. */
  function RoundedAverage(sum: int, count: nat): int
    requires count >= 1
  {
    (2 * sum + count) / (2 * count)
  }

  /** The rounded average is within half a unit of the mean, and a tie goes up. */
  lemma AverageIsNearest(sum: int, count: nat)
    requires count >= 1
    ensures var avg := RoundedAverage(sum, count); 2 * avg * count - count <= 2 * sum < 2 * avg * count + count
  {
    var (a, b) := (2 * sum + count, 2 * count);
    assert a == a / b * b + a % b;
  }

  lemma {:induction false} SumIsBounded(s: seq<int>, low: int, high: int)
    requires forall i :: 0 <= i < |s| ==> low <= s[i] <= high
    ensures low * |s| <= Sum(s) <= high * |s|
  {
    if s != [] {
      SumIsBounded(s[..|s| - 1], low, high);
      assert low * |s| == low * (|s| - 1) + low && high * |s| == high * (|s| - 1) + high;
    }
  }

  lemma AverageIsBetween(sum: int, count: nat, low: int, high: int)
    requires count >= 1 && low * count <= sum <= high * count
    ensures low <= RoundedAverage(sum, count) <= high
  {
    var avg := RoundedAverage(sum, count);
    AverageIsNearest(sum, count);
    Cancel(2 * low, 2 * avg + 1, count);
    Cancel(2 * avg - 1, 2 * high + 1, count);
  }

  lemma Cancel(a: int, b: int, c: nat)
    requires a * c < b * c
    ensures a < b
  {
    assert (b - a) * c > 0;
  }

  /** What the statistics mean. */
  ghost predicate Describes(st: Stats, samples: seq<int>) {
    && st.count == |samples| >= 1
    && st.min in samples && (forall v :: v in samples ==> st.min <= v)
    && st.max in samples && (forall v :: v in samples ==> v <= st.max)
    && st.avg == RoundedAverage(Sum(samples), |samples|)
    && IsPercentile(samples, 50, st.p50)
    && IsPercentile(samples, 95, st.p95)
    && IsPercentile(samples, 99, st.p99)
  }

  lemma PercentilesAreOrdered(samples: seq<int>, p: nat, q: nat, v: int, w: int)
    requires IsPercentile(samples, p, v) && IsPercentile(samples, q, w) && p <= q
    ensures v <= w
  {
    hide AtMost;
    ScalesUp(|samples|, p, q);
    assert w < v ==> AtMost(samples, w) * 100 < |samples| * p;
  }

  lemma ScalesUp(n: nat, p: nat, q: nat)
    requires p <= q
    ensures n * p <= n * q
  {
    assert n * q == n * p + n * (q - p);
  }

  /** min <= p50 <= p95 <= p99 <= max, the average lies between min and max too ... */
  lemma StatsAreOrdered(st: Stats, samples: seq<int>)
    requires Describes(st, samples)
    ensures st.min <= st.p50 <= st.p95 <= st.p99 <= st.max
    ensures st.min <= st.avg <= st.max
  {
    forall i | 0 <= i < |samples|
      ensures st.min <= samples[i] <= st.max
    {
      assert samples[i] in samples;
    }
    SumIsBounded(samples, st.min, st.max);
    AverageIsBetween(Sum(samples), |samples|, st.min, st.max);
    PercentilesAreOrdered(samples, 50, 95, st.p50, st.p95);
    PercentilesAreOrdered(samples, 95, 99, st.p95, st.p99);
  }

  /** ... and no other statistics describe the same samples. */
  lemma StatsAreUnique(st: Stats, st': Stats, samples: seq<int>)
    requires Describes(st, samples) && Describes(st', samples)
    ensures st == st'
  {
    PercentileIsUnique(samples, 50, st.p50, st'.p50);
    PercentileIsUnique(samples, 95, st.p95, st'.p95);
    PercentileIsUnique(samples, 99, st.p99, st'.p99);
  }
}
