/**
Latency statistics over exact reals: two interpolating percentile functions, mean, median
and the square of the population deviation.
 */
module LatencyStats {
  import opened Options
  import opened Reals
  import opened Sorting

  // ----- Percentiles -----

  function Min(a: int, b: int): int {
    if a <= b then a else b
  }

  /** The fractional position of a percentage in a list of `n` elements. */
  function Rank(pct: real, n: int): (rank: real)
    requires 0.0 <= pct <= 100.0 && n >= 1
    ensures 0.0 <= rank <= (n - 1) as real
    ensures 0 <= rank.Floor <= n - 1
  {
    var p, m := pct / 100.0, (n - 1) as real;
    Product(p, m);
    Product(1.0 - p, m);
    p * m
  }

  lemma RankMonotone(p: real, q: real, n: int)
    requires 0.0 <= p <= q <= 100.0 && n >= 1
    ensures Rank(p, n) <= Rank(q, n)
  {
    Product(q / 100.0 - p / 100.0, (n - 1) as real);
  }

  /** The value of the piecewise linear curve through `s` at position `x`. */
  function Interpolate(s: seq<real>, x: real): real
    requires 0.0 <= x <= (|s| - 1) as real
  {
    var lo := x.Floor;
    var hi := Min(lo + 1, |s| - 1);
    Blend(s[lo], s[hi], x - lo as real)
  }

  /** The point a fraction of the way from `a` to `b`. */
  function Blend(a: real, b: real, fraction: real): real {
    a + (b - a) * fraction
  }

  /** The benchmark platform's percentile; its argument is already sorted. */
  function Percentile(sorted: seq<real>, pct: real): real
    requires 0.0 <= pct <= 100.0
  {
    if sorted == [] then 0.0
    else if |sorted| == 1 then sorted[0]
    else Interpolate(sorted, Rank(pct, |sorted|))
  }

  /** The answer-generation benchmark's percentile, which sorts for itself. */
  function BenchmarkPercentile(values: seq<real>, pct: real): real
    requires 0.0 <= pct <= 100.0
  {
    if values == [] then 0.0
    else if |values| == 1 then values[0]
    else
      var v := Sort(Ascending, values);
      var k := Rank(pct, |v|);
      var f := k.Floor;
      var c := Min(f + 1, |v| - 1);
      if f == c then v[f] else Blend(v[f], v[c], k - f as real)
  }

  lemma PercentileInterpolates(s: seq<real>, pct: real)
    requires s != [] && 0.0 <= pct <= 100.0
    ensures Percentile(s, pct) == Interpolate(s, Rank(pct, |s|))
  {
    if |s| == 1 {
      assert Rank(pct, 1) == 0.0;
    }
  }

  /** Between neighbours the curve is a weighted mean, so it stays between them. */
  lemma WeightedMean(a: real, b: real, f: real)
    requires a <= b && 0.0 <= f <= 1.0
    ensures a <= Blend(a, b, f) <= b
  {
    Product(b - a, f);
    Product(b - a, 1.0 - f);
  }

  lemma WeightedMeanMonotone(a: real, b: real, f: real, g: real)
    requires a <= b && f <= g
    ensures Blend(a, b, f) <= Blend(a, b, g)
  {
    Product(b - a, g - f);
  }

  lemma WeightedMeanPointwise(a: real, b: real, c: real, d: real, f: real)
    requires a <= c && b <= d && 0.0 <= f <= 1.0
    ensures Blend(a, b, f) <= Blend(c, d, f)
  {
    Product(c - a, 1.0 - f);
    Product(d - b, f);
  }

  lemma InterpolateBetween(s: seq<real>, x: real)
    requires SortedBy(Ascending, s) && 0.0 <= x <= (|s| - 1) as real
    ensures var lo := x.Floor;
            s[lo] <= Interpolate(s, x) <= s[Min(lo + 1, |s| - 1)]
  {
    var lo := x.Floor;
    var hi := Min(lo + 1, |s| - 1);
    assert lo < hi ==> Ascending(s[lo], s[hi]);
    WeightedMean(s[lo], s[hi], x - lo as real);
  }

  lemma InterpolateMonotone(s: seq<real>, x: real, y: real)
    requires SortedBy(Ascending, s) && 0.0 <= x <= y <= (|s| - 1) as real
    ensures Interpolate(s, x) <= Interpolate(s, y)
  {
    var lo, lo' := x.Floor, y.Floor;
    var hi := Min(lo + 1, |s| - 1);
    assert lo < hi ==> Ascending(s[lo], s[hi]);
    if lo == lo' {
      WeightedMeanMonotone(s[lo], s[hi], x - lo as real, y - lo as real);
    } else {
      InterpolateBetween(s, x);
      InterpolateBetween(s, y);
      assert hi < lo' ==> Ascending(s[hi], s[lo']);
    }
  }

  /** On every input the two implementations agree. */
  lemma PercentilesAgree(values: seq<real>, pct: real)
    requires 0.0 <= pct <= 100.0
    ensures Percentile(Sort(Ascending, values), pct) == BenchmarkPercentile(values, pct)
  {
    var v := Sort(Ascending, values);
    if |v| == 1 {
      assert v == values;
    } else if |v| > 1 {
      PercentileInterpolates(v, pct);
      BlendOfSame(v[Rank(pct, |v|).Floor], Rank(pct, |v|) - Rank(pct, |v|).Floor as real);
      hide Blend;
    }
  }

  /** Where the neighbours coincide there is nothing to interpolate. */
  lemma BlendOfSame(a: real, f: real)
    ensures Blend(a, a, f) == a
  {
  }

  lemma InterpolateAtEnds(s: seq<real>)
    requires s != []
    ensures Interpolate(s, 0.0) == s[0] && Interpolate(s, (|s| - 1) as real) == s[|s| - 1]
  {
    assert ((|s| - 1) as real).Floor == |s| - 1;
  }

  /** Percentiles grow with the percentage and stay between the extremes. */
  lemma PercentileMonotone(s: seq<real>, p: real, q: real)
    requires s != [] && SortedBy(Ascending, s) && 0.0 <= p <= q <= 100.0
    ensures s[0] <= Percentile(s, p) <= Percentile(s, q) <= s[|s| - 1]
  {
    InterpolateAtEnds(s);
    hide Blend, Interpolate;
    PercentileInterpolates(s, p);
    PercentileInterpolates(s, q);
    RankMonotone(p, q, |s|);
    InterpolateMonotone(s, 0.0, Rank(p, |s|));
    InterpolateMonotone(s, Rank(p, |s|), Rank(q, |s|));
    InterpolateMonotone(s, Rank(q, |s|), (|s| - 1) as real);
  }

  /** Where the rank is a whole number the percentile is the element there; in particular 0 and
      100 give the extremes. */
  lemma PercentileHitsElements(s: seq<real>, pct: real, k: nat)
    requires k < |s| && 0.0 <= pct <= 100.0 && Rank(pct, |s|) == k as real
    ensures Percentile(s, pct) == s[k]
  {
    PercentileInterpolates(s, pct);
    assert (k as real).Floor == k;
  }

  /** Between neighbours the curve is the straight line through them. */
  lemma InterpolateBetweenNeighbours(s: seq<real>, x: real, k: nat)
    requires k + 1 < |s| && k as real <= x <= (k + 1) as real
    ensures Interpolate(s, x) == s[k] + (s[k + 1] - s[k]) * (x - k as real)
  {
    if x == (k + 1) as real {
      assert x.Floor == k + 1;
      assert s[k] + (s[k + 1] - s[k]) * 1.0 == s[k + 1];
    } else {
      assert x.Floor == k;
    }
  }

  lemma RankTimesHundred(pct: real, n: int)
    requires 0.0 <= pct <= 100.0 && n >= 1
    ensures Rank(pct, n) * 100.0 == pct * (n - 1) as real
  {
    var m := (n - 1) as real;
    assert pct / 100.0 * m * 100.0 == pct * m;
  }

  /** The rank of a percentage lies between the neighbours `k` and `k + 1`. */
  predicate RankWithin(pct: real, n: int, k: nat) {
    k as real * 100.0 <= pct * (n - 1) as real <= (k + 1) as real * 100.0
  }

  /** Every percentile, as a number: from the lower neighbour, the step to the upper one in
      proportion to how far the rank has gone. */
  lemma PercentileValue(s: seq<real>, pct: real, k: nat)
    requires k + 1 < |s| && 0.0 <= pct <= 100.0 && RankWithin(pct, |s|, k)
    ensures (Percentile(s, pct) - s[k]) * 100.0 == (pct * (|s| - 1) as real - k as real * 100.0) * (s[k + 1] - s[k])
  {
    var x, d := Rank(pct, |s|), s[k + 1] - s[k];
    RankTimesHundred(pct, |s|);
    PercentileInterpolates(s, pct);
    InterpolateBetweenNeighbours(s, x, k);
    hide Rank, Percentile, Interpolate;
    LineValue(d, x, k as real, pct * (|s| - 1) as real);
  }

  lemma LineValue(d: real, x: real, k: real, r: real)
    requires x * 100.0 == r
    ensures d * (x - k) * 100.0 == (r - k * 100.0) * d
  {
    var y := x - k;
    assert y * 100.0 == r - k * 100.0;
    assert d * y * 100.0 == d * (y * 100.0);
  }

  /** Between neighbours percentiles grow in proportion to the percentage. */
  lemma PercentileSlope(s: seq<real>, p: real, q: real, k: nat)
    requires k + 1 < |s| && 0.0 <= p <= q <= 100.0 && RankWithin(p, |s|, k) && RankWithin(q, |s|, k)
    ensures (Percentile(s, q) - Percentile(s, p)) * 100.0 == (q - p) * (|s| - 1) as real * (s[k + 1] - s[k])
  {
    hide Percentile, RankWithin;
    PercentileValue(s, p, k);
    PercentileValue(s, q, k);
    SlopeOfValues(Percentile(s, p), Percentile(s, q), s[k], p, q, (|s| - 1) as real, k as real * 100.0, s[k + 1] - s[k]);
  }

  lemma SlopeOfValues(u: real, v: real, base: real, p: real, q: real, n: real, c: real, d: real)
    requires (u - base) * 100.0 == (p * n - c) * d && (v - base) * 100.0 == (q * n - c) * d
    ensures (v - u) * 100.0 == (q - p) * n * d
  {
    var x, y := p * n - c, q * n - c;
    assert y - x == (q - p) * n;
    assert y * d - x * d == (y - x) * d;
  }

  lemma ExtremePercentiles(s: seq<real>)
    requires s != []
    ensures Percentile(s, 0.0) == s[0] && Percentile(s, 100.0) == s[|s| - 1]
  {
    PercentileHitsElements(s, 0.0, 0);
    PercentileHitsElements(s, 100.0, |s| - 1);
  }

  /** `statistics.median` of a sorted list. */
  function Median(sorted: seq<real>): real
    requires sorted != []
  {
    var n := |sorted|;
    if n % 2 == 1 then sorted[n / 2] else (sorted[n / 2 - 1] + sorted[n / 2]) / 2.0
  }

  /** The 50th percentile is the median, for odd and even lengths alike. */
  lemma P50IsMedian(s: seq<real>)
    requires s != []
    ensures Percentile(s, 50.0) == Median(s)
  {
    var n := |s|;
    var rank := Rank(50.0, n);
    PercentileInterpolates(s, 50.0);
    assert rank == (n - 1) as real / 2.0;
    if n % 2 == 1 {
      assert rank == (n / 2) as real;
    } else {
      assert rank == (n / 2 - 1) as real + 0.5;
      assert rank.Floor == n / 2 - 1;
    }
  }

  // ----- The aggregate -----

  function Mean(s: seq<real>): real
    requires s != []
  {
    Sum(s) / |s| as real
  }

  function SquaredGap(x: real, y: real): real {
    (x - y) * (x - y)
  }

  /** Sum of squared deviations from `c`. */
  function SquaredDeviation(s: seq<real>, c: real): real {
    if s == [] then 0.0 else SquaredGap(s[0], c) + SquaredDeviation(s[1..], c)
  }

  /** The square of `statistics.pstdev`. */
  function Variance(s: seq<real>): real
    requires s != []
  {
    SquaredDeviation(s, Mean(s)) / |s| as real
  }

  datatype LatencyStats = LatencyStats(
    count: nat, minMs: real, maxMs: real, meanMs: real, medianMs: real,
    p50: real, p90: real, p95: real, p99: real, variance: real)

  function Present(values: seq<Option<real>>): seq<real> {
    if values == [] then []
    else if values[0].Some? then [values[0].value] + Present(values[1..])
    else Present(values[1..])
  }

  /** `compute_latency_stats`, with the square of the deviation in place of its root. */
  function ComputeLatencyStats(values: seq<Option<real>>): LatencyStats {
    StatsOf(Present(values))
  }

  function StatsOf(values: seq<real>): LatencyStats {
    if values == [] then
      LatencyStats(0, 0.0, 0.0, 0.0, 0.0, 0.0, 0.0, 0.0, 0.0, 0.0)
    else
      var v := Sort(Ascending, values);
      LatencyStats(
        |v|, v[0], v[|v| - 1], Mean(v), Median(v),
        Percentile(v, 50.0), Percentile(v, 90.0), Percentile(v, 95.0), Percentile(v, 99.0),
        if |v| > 1 then Variance(v) else 0.0)
  }

  /** The order in which the percentiles of any non-empty list come. */
  lemma PercentilesAreOrdered(values: seq<real>)
    requires values != []
    ensures var st := StatsOf(values);
            st.minMs <= st.medianMs == st.p50 <= st.p90 <= st.p95 <= st.p99 <= st.maxMs
  {
    var v := Sort(Ascending, values);
    AscendingSorts(values);
    P50IsMedian(v);
    PercentileMonotone(v, 50.0, 90.0);
    PercentileMonotone(v, 90.0, 95.0);
    PercentileMonotone(v, 95.0, 99.0);
  }

  /** Minimum and maximum are attained bounds, the mean lies between them, and every present
      value is counted. */
  lemma ExtremesAreAttained(values: seq<real>)
    requires values != []
    ensures var st := StatsOf(values);
            && st.count == |values|
            && st.minMs in values && st.maxMs in values
            && (forall x :: x in values ==> st.minMs <= x <= st.maxMs)
            && st.minMs <= st.meanMs <= st.maxMs
  {
    AscendingSorts(values);
    SortedExtremes(values);
    SortedMeanBetween(Sort(Ascending, values));
  }

  lemma SortedExtremes(values: seq<real>)
    requires values != []
    ensures var v := Sort(Ascending, values);
            v[0] in values && v[|v| - 1] in values && forall x :: x in values ==> v[0] <= x <= v[|v| - 1]
  {
    var v := Sort(Ascending, values);
    AscendingSorts(values);
    SortPermutes(Ascending, values);
    assert v[0] in multiset(v) && v[|v| - 1] in multiset(v);
    forall x | x in values ensures v[0] <= x <= v[|v| - 1] {
      assert x in multiset(v);
      var i :| 0 <= i < |v| && v[i] == x;
      assert i > 0 ==> Ascending(v[0], v[i]);
      assert i < |v| - 1 ==> Ascending(v[i], v[|v| - 1]);
    }
  }

  lemma SortedMeanBetween(v: seq<real>)
    requires v != [] && SortedBy(Ascending, v)
    ensures v[0] <= Mean(v) <= v[|v| - 1]
  {
    forall i | 0 <= i < |v| ensures v[0] <= v[i] <= v[|v| - 1] {
      assert i > 0 ==> Ascending(v[0], v[i]);
      assert i < |v| - 1 ==> Ascending(v[i], v[|v| - 1]);
    }
    SumBetween(v, v[0], v[|v| - 1]);
    MeanBetween(Sum(v), |v| as real, v[0], v[|v| - 1]);
  }

  lemma {:induction false} SumBetween(s: seq<real>, lo: real, hi: real)
    requires forall i :: 0 <= i < |s| ==> lo <= s[i] <= hi
    ensures |s| as real * lo <= Sum(s) <= |s| as real * hi
  {
    if s != [] {
      SumBetween(s[1..], lo, hi);
      var n := |s[1..]| as real;
      assert |s| as real == n + 1.0;
      assert (n + 1.0) * lo == n * lo + lo && (n + 1.0) * hi == n * hi + hi;
    }
  }

  lemma MeanBetween(sum: real, n: real, lo: real, hi: real)
    requires n > 0.0 && n * lo <= sum <= n * hi
    ensures lo <= sum / n <= hi
  {
    assert n * lo / n == lo && n * hi / n == hi;
    QuotientMonotone(n * lo, sum, n);
    QuotientMonotone(sum, n * hi, n);
  }

  lemma {:induction false} InsertSum(x: real, s: seq<real>)
    ensures Sum(Insert(Ascending, x, s)) == x + Sum(s)
  {
    if s == [] || Ascending(x, s[0]) {
      assert ([x] + s)[1..] == s;
    } else {
      InsertSum(x, s[1..]);
      assert Insert(Ascending, x, s)[1..] == Insert(Ascending, x, s[1..]);
    }
  }

  lemma {:induction false} SortSum(s: seq<real>)
    ensures Sum(Sort(Ascending, s)) == Sum(s)
  {
    if s != [] {
      SortSum(s[1..]);
      InsertSum(s[0], Sort(Ascending, s[1..]));
    }
  }

  lemma TimesCount(x: real, n: real, mean: real)
    requires n != 0.0 && mean == x / n
    ensures mean * n == x
  {
  }

  /** Which functions of the sorted list the fields are. */
  lemma FieldsOfStats(values: seq<real>)
    requires values != []
    ensures var v, st := Sort(Ascending, values), StatsOf(values);
            && st.meanMs == Mean(v) == Sum(v) / |values| as real && st.medianMs == Median(v)
            && st.p50 == Percentile(v, 50.0) && st.p90 == Percentile(v, 90.0)
            && st.p95 == Percentile(v, 95.0) && st.p99 == Percentile(v, 99.0)
            && st.variance == if |v| > 1 then Variance(v) else 0.0
  {
    hide Percentile, Median, Variance, Sort, Sum;
  }

  /** The mean of any list, times its length, is the sum of the values as they came. */
  lemma MeanTimesCountIsSum(values: seq<real>)
    requires values != []
    ensures StatsOf(values).meanMs * |values| as real == Sum(values)
  {
    hide *;
    FieldsOfStats(values);
    SortSum(values);
    TimesCount(Sum(values), |values| as real, StatsOf(values).meanMs);
  }

  lemma {:induction false} PresentConcat(a: seq<Option<real>>, b: seq<Option<real>>)
    ensures Present(a + b) == Present(a) + Present(b)
  {
    if a == [] {
      assert a + b == b;
    } else {
      PresentConcat(a[1..], b);
      assert (a + b)[1..] == a[1..] + b;
    }
  }

  lemma PresentWithout(s: seq<Option<real>>, i: nat)
    requires i < |s|
    ensures multiset(s) == multiset{s[i]} + multiset(s[..i] + s[i + 1..])
    ensures multiset(Present(s)) == multiset(Present([s[i]])) + multiset(Present(s[..i] + s[i + 1..]))
  {
    hide Present;
    var l, x, r := s[..i], [s[i]], s[i + 1..];
    assert s == l + x + r;
    PresentConcat(l + x, r);
    PresentConcat(l, x);
    PresentConcat(l, r);
  }

  lemma {:induction false} PresentPermutes(a: seq<Option<real>>, b: seq<Option<real>>)
    requires multiset(a) == multiset(b)
    ensures multiset(Present(a)) == multiset(Present(b))
  {
    hide Present;
    assert |a| == |multiset(a)| == |b|;
    if a == [] {
      assert a == b;
    } else {
      assert a[0] in multiset(b);
      var i :| 0 <= i < |b| && b[i] == a[0];
      var c, d := a[..0] + a[1..], b[..i] + b[i + 1..];
      PresentWithout(a, 0);
      PresentWithout(b, i);
      assert multiset(c) == multiset(a) - multiset{a[0]};
      assert multiset(d) == multiset(b) - multiset{a[0]};
      PresentPermutes(c, d);
    }
  }

  /** No statistic depends on the order in which the latencies, missing ones among them, arrived. */
  lemma StatsIgnoreOrder(a: seq<Option<real>>, b: seq<Option<real>>)
    requires multiset(a) == multiset(b)
    ensures ComputeLatencyStats(a) == ComputeLatencyStats(b)
  {
    PresentPermutes(a, b);
    SortIgnoresOrder(Present(a), Present(b));
    hide Sort;
  }

  lemma SortIgnoresOrder(a: seq<real>, b: seq<real>)
    requires multiset(a) == multiset(b)
    ensures Sort(Ascending, a) == Sort(Ascending, b) && |a| == |b|
  {
    hide Sort, SortedBy, TiesAreEqual;
    AscendingSorts(a);
    AscendingSorts(b);
    SortPermutes(Ascending, a);
    SortPermutes(Ascending, b);
    AscendingTies(Sort(Ascending, a));
    SortedIsUnique(Ascending, Sort(Ascending, a), Sort(Ascending, b));
    assert |a| == |multiset(a)| == |b|;
  }

  // ----- Slower everywhere means slower in every statistic -----

  lemma {:induction false} PointwiseCounts(a: seq<real>, b: seq<real>, t: real)
    requires |a| == |b| && forall i :: 0 <= i < |a| ==> a[i] <= b[i]
    ensures CountAtLeast(a, t) <= CountAtLeast(b, t)
  {
    if a != [] {
      PointwiseCounts(a[1..], b[1..], t);
    }
  }

  lemma {:induction false} PointwiseSums(a: seq<real>, b: seq<real>)
    requires |a| == |b| && forall i :: 0 <= i < |a| ==> a[i] <= b[i]
    ensures Sum(a) <= Sum(b)
  {
    if a != [] {
      PointwiseSums(a[1..], b[1..]);
    }
  }

  lemma PointwisePercentile(a: seq<real>, b: seq<real>, pct: real)
    requires |a| == |b| && a != [] && forall i :: 0 <= i < |a| ==> a[i] <= b[i]
    requires 0.0 <= pct <= 100.0
    ensures Percentile(a, pct) <= Percentile(b, pct)
  {
    PercentileInterpolates(a, pct);
    PercentileInterpolates(b, pct);
    var rank := Rank(pct, |a|);
    var lo := rank.Floor;
    var hi := Min(lo + 1, |a| - 1);
    WeightedMeanPointwise(a[lo], a[hi], b[lo], b[hi], rank - lo as real);
  }

  ghost predicate NoSlower(a: LatencyStats, b: LatencyStats) {
    && a.count == b.count && a.minMs <= b.minMs && a.maxMs <= b.maxMs
    && a.meanMs <= b.meanMs && a.medianMs <= b.medianMs
    && a.p50 <= b.p50 && a.p90 <= b.p90 && a.p95 <= b.p95 && a.p99 <= b.p99
  }

  /** If every latency of one run is at most its counterpart in another, so is every location
      statistic, although sorting rearranges the two runs independently. */
  lemma StatsAreMonotone(a: seq<real>, b: seq<real>)
    requires |a| == |b| && forall i :: 0 <= i < |a| ==> a[i] <= b[i]
    ensures NoSlower(StatsOf(a), StatsOf(b))
  {
    if a != [] {
      var v, w := Sort(Ascending, a), Sort(Ascending, b);
      forall i | 0 <= i < |v| ensures v[i] <= w[i] {
        PointwiseCounts(a, b, v[i]);
        AscendingDominance(a, b, i);
      }
      PointwiseSums(v, w);
      QuotientMonotone(Sum(v), Sum(w), |v| as real);
      PointwisePercentile(v, w, 50.0);
      PointwisePercentile(v, w, 90.0);
      PointwisePercentile(v, w, 95.0);
      PointwisePercentile(v, w, 99.0);
      P50IsMedian(v);
      P50IsMedian(w);
    }
  }
}
