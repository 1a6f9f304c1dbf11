/**
 recordResponseTime and getHistogramStats in their own form: a map of buckets changed in
 place, and statistics computed from a sorted copy.
 */
module MetricsCollector {
  import opened Options
  import opened Percentiles

  // ---------------------------------------------------------------- a sorted copy

  function Insert(s: seq<int>, x: int): seq<int> {
    if s == [] || s[|s| - 1] <= x then s + [x]
    else Insert(s[..|s| - 1], x) + [s[|s| - 1]]
  }

  lemma {:induction false} InsertMeans(s: seq<int>, x: int, v: int)
    ensures |Insert(s, x)| == |s| + 1
    ensures AtMost(Insert(s, x), v) == AtMost(s, v) + if x <= v then 1 else 0
    ensures Sum(Insert(s, x)) == Sum(s) + x
    ensures v in Insert(s, x) <==> v in s || v == x
  {
    var n := |s| - 1;
    var t := Insert(s, x);
    if s == [] || s[n] <= x {
      assert t[..|s|] == s;
    } else {
      InsertMeans(s[..n], x, v);
      assert t[..|s|] == Insert(s[..n], x);
      assert s == s[..n] + [s[n]];
    }
  }

  lemma {:induction false} InsertIsSorted(s: seq<int>, x: int)
    requires Sorted(s)
    ensures Sorted(Insert(s, x))
  {
    var n := |s| - 1;
    if s != [] && s[n] > x {
      InsertIsSorted(s[..n], x);
      var t := Insert(s[..n], x);
      forall i | 0 <= i < |t|
        ensures t[i] <= s[n]
      {
        InsertMeans(s[..n], x, t[i]);
      }
    }
  }

  method SortedCopy(samples: seq<int>) returns (sorted: seq<int>)
    ensures Sorted(sorted) && SameSamples(samples, sorted) && Sum(sorted) == Sum(samples)
  {
    sorted := [];
    var i := 0;
    while i < |samples|
      invariant 0 <= i <= |samples| && Sorted(sorted)
      invariant SameSamples(samples[..i], sorted) && Sum(sorted) == Sum(samples[..i])
    {
      InsertIsSorted(sorted, samples[i]);
      InsertKeepsSamples(samples, sorted, i);
      sorted := Insert(sorted, samples[i]);
      i := i + 1;
    }
    assert samples[..i] == samples;
  }

  lemma InsertKeepsSamples(samples: seq<int>, sorted: seq<int>, i: nat)
    requires i < |samples| && SameSamples(samples[..i], sorted) && Sum(sorted) == Sum(samples[..i])
    ensures SameSamples(samples[..i + 1], Insert(sorted, samples[i]))
    ensures Sum(Insert(sorted, samples[i])) == Sum(samples[..i + 1])
  {
    var next := samples[..i + 1];
    assert next[..i] == samples[..i];
    assert next == samples[..i] + [samples[i]];
    InsertMeans(sorted, samples[i], 0);
    forall v: int
      ensures v in next <==> v in Insert(sorted, samples[i])
      ensures AtMost(next, v) == AtMost(Insert(sorted, samples[i]), v)
    {
      InsertMeans(sorted, samples[i], v);
    }
  }

  lemma EndsAreExtreme(samples: seq<int>, sorted: seq<int>)
    requires Sorted(sorted) && SameSamples(samples, sorted) && samples != []
    ensures |sorted| == |samples| && sorted[0] in samples && sorted[|sorted| - 1] in samples
    ensures forall v :: v in samples ==> sorted[0] <= v <= sorted[|sorted| - 1]
  {
    assert sorted[0] in sorted && sorted[|sorted| - 1] in sorted;
    forall v | v in samples
      ensures sorted[0] <= v <= sorted[|sorted| - 1]
    {
      assert v in sorted;
    }
  }

  method StatsOf(samples: seq<int>) returns (stats: Stats)
    requires samples != []
    ensures Describes(stats, samples)
  {
    hide Sorted, SameSamples, IsPercentile, Sum, RoundedAverage, Rank;
    var sorted := SortedCopy(samples);
    EndsAreExtreme(samples, sorted);
    NearestRank(samples, sorted, 50);
    NearestRank(samples, sorted, 95);
    NearestRank(samples, sorted, 99);
    var len := |sorted|;
    stats := Stats(len, sorted[0], sorted[len - 1], RoundedAverage(Sum(sorted), len),
                   sorted[Rank(len, 50) - 1], sorted[Rank(len, 95) - 1], sorted[Rank(len, 99) - 1]);
  }

  // ---------------------------------------------------------------- the collector

  datatype Sample = Sample(route: string, ms: int)

  /** A route's samples in a log, oldest first. */
  function OfRoute(log: seq<Sample>, route: string): seq<int> {
    if log == [] then []
    else
      var last := log[|log| - 1];
      OfRoute(log[..|log| - 1], route) + if last.route == route then [last.ms] else []
  }

  lemma OfRouteNext(log: seq<Sample>, s: Sample, route: string)
    ensures OfRoute(log + [s], route) == OfRoute(log, route) + if s.route == route then [s.ms] else []
  {
    assert (log + [s])[..|log|] == log;
  }

  lemma LastOfLast(s: seq<int>, x: int, n: nat)
    requires n >= 1
    ensures Last(Last(s, n) + [x], n) == Last(s + [x], n)
  {
  }

  function BucketIn(histograms: map<string, seq<int>>, route: string): seq<int> {
    if route in histograms then histograms[route] else []
  }

  /** Every route's bucket is the last 1000 of its samples, oldest first. */
  ghost predicate HoldsLast(histograms: map<string, seq<int>>, log: seq<Sample>) {
    forall route :: BucketIn(histograms, route) == Last(OfRoute(log, route), 1000)
  }

  lemma RecordKeepsLast(histograms: map<string, seq<int>>, log: seq<Sample>, s: Sample)
    requires HoldsLast(histograms, log)
    ensures HoldsLast(histograms[s.route := Last(BucketIn(histograms, s.route) + [s.ms], MAX_HISTOGRAM_SAMPLES)],
                      log + [s])
  {
    var after := histograms[s.route := Last(BucketIn(histograms, s.route) + [s.ms], MAX_HISTOGRAM_SAMPLES)];
    forall route
      ensures BucketIn(after, route) == Last(OfRoute(log + [s], route), MAX_HISTOGRAM_SAMPLES)
    {
      OfRouteNext(log, s, route);
      LastOfLast(OfRoute(log, route), s.ms, MAX_HISTOGRAM_SAMPLES);
      assert BucketIn(histograms, route) == Last(OfRoute(log, route), MAX_HISTOGRAM_SAMPLES);
      assert OfRoute(log, route) + [] == OfRoute(log, route);
    }
  }

  class Collector {
    var histograms: map<string, seq<int>>
    ghost var log: seq<Sample>

    ghost predicate Valid()
      reads this
    {
      HoldsLast(histograms, log)
    }

    constructor ()
      ensures Valid() && histograms == map[] && log == []
    {
      histograms, log := map[], [];
    }

    method RecordResponseTime(route: string, ms: int)
      requires Valid()
      modifies this
      ensures Valid() && log == old(log) + [Sample(route, ms)]
      ensures histograms ==
              old(histograms)[route := Last(BucketIn(old(histograms), route) + [ms], MAX_HISTOGRAM_SAMPLES)]
    {
      RecordKeepsLast(histograms, log, Sample(route, ms));
      if route !in histograms {
        histograms := histograms[route := []];
      }
      var bucket := histograms[route] + [ms];
      if |bucket| > MAX_HISTOGRAM_SAMPLES {
        bucket := bucket[|bucket| - MAX_HISTOGRAM_SAMPLES..];
      }
      histograms := histograms[route := bucket];
      log := log + [Sample(route, ms)];
    }

    /** null when nothing was recorded; otherwise statistics that describe the bucket. */
    method GetHistogramStats(route: string) returns (stats: Option<Stats>)
      requires Valid()
      ensures stats.None? <==> OfRoute(log, route) == []
      ensures stats.Some? ==> Describes(stats.value, Last(OfRoute(log, route), 1000))
    {
      assert BucketIn(histograms, route) == Last(OfRoute(log, route), MAX_HISTOGRAM_SAMPLES);
      if route !in histograms || |histograms[route]| == 0 {
        return None;
      }
      var st := StatsOf(histograms[route]);
      stats := Some(st);
    }
  }
}
