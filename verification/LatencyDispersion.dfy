/** How mean, median, extremes and deviation of a latency list constrain one another. */
module LatencyDispersion {
  import opened Reals
  import opened Sorting
  import opened LatencyStats

  function Abs(x: real): real {
    if x >= 0.0 then x else -x
  }

  /** Sum of absolute deviations from `c`. */
  ghost function AbsoluteDeviation(s: seq<real>, c: real): real {
    if s == [] then 0.0 else Abs(s[0] - c) + AbsoluteDeviation(s[1..], c)
  }

  lemma {:induction false} AbsoluteDeviationSnoc(s: seq<real>, x: real, c: real)
    ensures AbsoluteDeviation(s + [x], c) == AbsoluteDeviation(s, c) + Abs(x - c)
  {
    if s == [] {
      assert s + [x] == [x] && [x][1..] == [];
    } else {
      AbsoluteDeviationSnoc(s[1..], x, c);
      assert (s + [x])[1..] == s[1..] + [x];
    }
  }

  lemma PeelEnds(s: seq<real>, c: real)
    requires |s| >= 2
    ensures AbsoluteDeviation(s, c)
         == Abs(s[0] - c) + AbsoluteDeviation(s[1..|s| - 1], c) + Abs(s[|s| - 1] - c)
  {
    AbsoluteDeviationSnoc(s[1..|s| - 1], s[|s| - 1], c);
    assert s[1..] == s[1..|s| - 1] + [s[|s| - 1]];
  }

  /** `m` separates each pair of elements equally far from the two ends. */
  ghost predicate Centre(s: seq<real>, m: real) {
    forall i, j :: 0 <= i <= j < |s| && i + j == |s| - 1 ==> Between(s[i], m, s[j])
  }

  predicate Between(lo: real, x: real, hi: real) {
    lo <= x <= hi
  }

  lemma MedianIsCentre(s: seq<real>)
    requires s != [] && SortedBy(Ascending, s)
    ensures Centre(s, Median(s))
  {
    var n := |s|;
    forall i, j | 0 <= i <= j < n && i + j == n - 1 ensures Between(s[i], Median(s), s[j]) {
      var a, b := (n - 1) / 2, n / 2;
      assert i < a ==> Ascending(s[i], s[a]);
      assert b < j ==> Ascending(s[b], s[j]);
      assert a < b ==> Ascending(s[a], s[b]);
    }
  }

  /** A centre minimises the total absolute deviation. */
  lemma {:induction false} CentreMinimises(s: seq<real>, m: real, c: real)
    requires Centre(s, m)
    ensures AbsoluteDeviation(s, m) <= AbsoluteDeviation(s, c)
    decreases |s|
  {
    if |s| >= 2 {
      var mid := s[1..|s| - 1];
      assert Between(s[0], m, s[|s| - 1]);
      forall i, j | 0 <= i <= j < |mid| && i + j == |mid| - 1 ensures Between(mid[i], m, mid[j]) {
        assert Between(s[i + 1], m, s[j + 1]);
      }
      CentreMinimises(mid, m, c);
      PeelEnds(s, m);
      PeelEnds(s, c);
    } else if |s| == 1 {
      assert Between(s[0], m, s[0]);
    }
  }

  lemma OneMore(sum: real, m: real, n: real, x: real, c: real)
    requires m == n + 1.0
    ensures (x + sum) - m * c == (x - c) + (sum - n * c)
  {
    assert m * c == n * c + c;
  }

  /** Sum of signed deviations from `c`. */
  ghost function SignedSum(s: seq<real>, c: real): real {
    if s == [] then 0.0 else (s[0] - c) + SignedSum(s[1..], c)
  }

  lemma {:induction false} SignedSumValue(s: seq<real>, c: real)
    ensures SignedSum(s, c) == Sum(s) - |s| as real * c
  {
    if s != [] {
      SignedSumValue(s[1..], c);
      OneMore(Sum(s[1..]), |s| as real, |s[1..]| as real, s[0], c);
    }
  }

  /** The total deviation from `c` is at least its signed value. */
  lemma {:induction false} SignedDeviation(s: seq<real>, c: real)
    ensures Abs(SignedSum(s, c)) <= AbsoluteDeviation(s, c)
  {
    if s != [] {
      SignedDeviation(s[1..], c);
    }
  }

  lemma Square(x: real)
    ensures x * x >= 0.0
  {
  }

  /** Sum of `(|x - c| - u)^2`, expanded. */
  lemma {:induction false} SpreadOfDeviations(s: seq<real>, c: real, u: real)
    ensures SquaredDeviation(s, c) - 2.0 * u * AbsoluteDeviation(s, c) + |s| as real * (u * u) >= 0.0
  {
    if s != [] {
      SpreadOfDeviations(s[1..], c, u);
      var d, rest := Abs(s[0] - c), AbsoluteDeviation(s[1..], c);
      Square(d - u);
      assert (s[0] - c) * (s[0] - c) == d * d;
      assert (d - u) * (d - u) == d * d - 2.0 * u * d + u * u;
      assert 2.0 * u * (d + rest) == 2.0 * u * d + 2.0 * u * rest;
      assert |s| as real * (u * u) == |s[1..]| as real * (u * u) + u * u;
    }
  }

  /** Mean absolute deviation from `c`. */
  ghost function MeanAbsolute(s: seq<real>, c: real): real
    requires s != []
  {
    AbsoluteDeviation(s, c) / |s| as real
  }

  /** The square of the mean absolute deviation is at most the mean squared one. */
  lemma CauchySchwarz(s: seq<real>, c: real)
    requires s != []
    ensures MeanAbsolute(s, c) * MeanAbsolute(s, c) <= SquaredDeviation(s, c) / |s| as real
  {
    hide AbsoluteDeviation, SquaredDeviation;
    SpreadOfDeviations(s, c, MeanAbsolute(s, c));
    SpreadAtMean(|s| as real, AbsoluteDeviation(s, c), SquaredDeviation(s, c));
  }

  lemma SpreadAtMean(n: real, total: real, sq: real)
    requires n > 0.0
    requires var a := total / n; sq - 2.0 * a * total + n * (a * a) >= 0.0
    ensures (total / n) * (total / n) <= sq / n
  {
    var a := total / n;
    assert total == n * a;
    MeanTerm(n, a, total);
    QuotientMonotone(n * (a * a), sq, n);
    assert (n * (a * a)) / n == a * a;
  }

  lemma MeanTerm(n: real, a: real, total: real)
    requires total == n * a
    ensures 2.0 * a * total == 2.0 * (n * (a * a))
  {
    assert 2.0 * a * (n * a) == 2.0 * (n * (a * a));
  }

  /** The mean and the median of any latency list are at most one standard deviation apart. */
  lemma MeanMedianWithinDeviation(values: seq<real>)
    requires values != []
    ensures var st := StatsOf(values);
            SquaredGap(st.meanMs, st.medianMs) <= st.variance
  {
    var v := Sort(Ascending, values);
    AscendingSorts(values);
    SortedGap(v);
    SingleHasNoDeviation(v);
    hide Sort, Percentile, Median, Mean, Variance, SquaredGap;
  }

  /** The one-element list, for which the code skips the deviation, is no exception. */
  lemma SingleHasNoDeviation(v: seq<real>)
    requires v != []
    ensures |v| == 1 ==> Variance(v) == 0.0
  {
    if |v| == 1 {
      assert v[1..] == [] && Sum(v) == v[0] + 0.0;
      assert Mean(v) == v[0];
      assert SquaredDeviation(v[1..], v[0]) == 0.0;
    }
  }

  lemma SortedGap(v: seq<real>)
    requires v != [] && SortedBy(Ascending, v)
    ensures SquaredGap(Mean(v), Median(v)) <= Variance(v)
  {
    MedianIsCentre(v);
    GapBelowMeanDeviation(v, Median(v));
    CauchySchwarz(v, Mean(v));
    SquareMonotone(Mean(v) - Median(v), MeanAbsolute(v, Mean(v)));
  }

  lemma GapBelowMeanDeviation(v: seq<real>, med: real)
    requires v != [] && Centre(v, med)
    ensures Abs(Mean(v) - med) <= MeanAbsolute(v, Mean(v))
  {
    hide AbsoluteDeviation, SignedSum, Sum, Centre;
    CentreMinimises(v, med, Mean(v));
    SignedDeviation(v, med);
    SignedSumValue(v, med);
    GapOfSums(Sum(v), |v| as real, med, SignedSum(v, med), AbsoluteDeviation(v, Mean(v)));
  }

  lemma GapOfSums(sum: real, n: real, med: real, gap: real, total: real)
    requires n > 0.0 && gap == sum - n * med && Abs(gap) <= total
    ensures Abs(sum / n - med) <= total / n
  {
    QuotientOfSum(sum, n * med, n);
    assert n * med / n == med;
    QuotientMonotone(gap, total, n);
    QuotientMonotone(-total, gap, n);
    assert -total / n == -(total / n);
  }

  lemma SquareMonotone(x: real, a: real)
    requires Abs(x) <= a
    ensures x * x <= a * a
  {
    Product(a - x, a + x);
  }

  // ----- The deviation from the moments -----

  function SumOfSquares(s: seq<real>): real {
    if s == [] then 0.0 else s[0] * s[0] + SumOfSquares(s[1..])
  }

  lemma {:induction false} InsertSquares(x: real, s: seq<real>)
    ensures SumOfSquares(Insert(Ascending, x, s)) == x * x + SumOfSquares(s)
  {
    if s == [] || Ascending(x, s[0]) {
      assert ([x] + s)[1..] == s;
    } else {
      InsertSquares(x, s[1..]);
      assert Insert(Ascending, x, s)[1..] == Insert(Ascending, x, s[1..]);
    }
  }

  lemma {:induction false} SortSquares(s: seq<real>)
    ensures SumOfSquares(Sort(Ascending, s)) == SumOfSquares(s)
  {
    if s != [] {
      SortSquares(s[1..]);
      InsertSquares(s[0], Sort(Ascending, s[1..]));
    }
  }

  /** `squares - 2 * c * sum + n * c * c` */
  ghost function Expanded(squares: real, sum: real, n: real, c: real): real {
    squares - 2.0 * (c * sum) + n * (c * c)
  }

  lemma {:induction false} DeviationExpanded(s: seq<real>, c: real)
    ensures SquaredDeviation(s, c) == Expanded(SumOfSquares(s), Sum(s), |s| as real, c)
  {
    if s != [] {
      var rest := s[1..];
      DeviationExpanded(rest, c);
      hide Expanded, SquaredGap;
      ExpandedStep(s[0], c, SumOfSquares(rest), Sum(rest), |rest| as real, s[0] * s[0], |s| as real);
    }
  }

  lemma ExpandedStep(x: real, c: real, squares: real, sum: real, n: real, xx: real, m: real)
    requires xx == x * x && m == n + 1.0
    ensures SquaredGap(x, c) + Expanded(squares, sum, n, c) == Expanded(xx + squares, x + sum, m, c)
  {
    assert (x - c) * (x - c) == x * x - 2.0 * (c * x) + c * c;
    assert c * (x + sum) == c * x + c * sum;
    assert m * (c * c) == n * (c * c) + c * c;
  }

  lemma ExpandedAtMean(squares: real, sum: real, n: real, c: real, e: real, mean: real)
    requires n > 0.0 && c == sum / n && e == Expanded(squares, sum, n, c) && mean == e / n
    ensures mean * n * n == n * squares - sum * sum
  {
    assert c * n == sum;
    assert n * (c * c) == c * sum;
    assert e == squares - c * sum;
    assert mean * n == e;
    assert n * (c * sum) == sum * sum;
    assert e * n == n * squares - n * (c * sum);
  }

  lemma VarianceIsMean(v: seq<real>)
    requires v != []
    ensures Variance(v) == SquaredDeviation(v, Mean(v)) / |v| as real && Mean(v) == Sum(v) / |v| as real
  {
    hide SquaredDeviation, Sum;
  }

  /** The square of the deviation, from the values as they came: `n` times the sum of their
      squares, less the square of their sum, over `n` squared. */
  lemma DeviationFromMoments(values: seq<real>)
    requires values != []
    ensures var n := |values| as real;
            StatsOf(values).variance * n * n == n * SumOfSquares(values) - Sum(values) * Sum(values)
  {
    hide *;
    var v := Sort(Ascending, values);
    FieldsOfStats(values);
    SortSquares(values);
    SortSum(values);
    SingleHasNoDeviation(v);
    VarianceIsMean(v);
    DeviationExpanded(v, Mean(v));
    ExpandedAtMean(SumOfSquares(values), Sum(values), |values| as real, Mean(v), SquaredDeviation(v, Mean(v)),
      StatsOf(values).variance);
  }

  // ----- Deviation against the range -----

  /** `n` times `a * b`, plus `b - a` times the rest. */
  ghost function RangeTerm(n: real, a: real, b: real, rest: real): real {
    n * (a * b) + (b - a) * rest
  }

  /** Sum of `(x - lo)(hi - x)` for `lo = c - a` and `hi = c + b`, expanded around `c`. */
  lemma {:induction false} RangeProduct(s: seq<real>, c: real, a: real, b: real)
    requires forall i :: 0 <= i < |s| ==> -a <= s[i] - c <= b
    ensures SquaredDeviation(s, c) <= RangeTerm(|s| as real, a, b, SignedSum(s, c))
  {
    if s != [] {
      hide RangeTerm, SquaredGap;
      var rest := s[1..];
      RangeProduct(rest, c, a, b);
      RangeStep(s[0], c, a, b, |rest| as real, |s| as real, SignedSum(rest, c), SignedSum(s, c));
    }
  }

  /** One more element `x`, between `c - a` and `c + b`. */
  lemma RangeStep(x: real, c: real, a: real, b: real, n: real, m: real, rest: real, all: real)
    requires -a <= x - c <= b && m == n + 1.0 && all == x - c + rest
    ensures SquaredGap(x, c) + RangeTerm(n, a, b, rest) <= RangeTerm(m, a, b, all)
  {
    var y, p, d := x - c, a * b, b - a;
    Product(y + a, b - y);
    assert (y + a) * (b - y) == p + d * y - y * y;
    assert m * p == n * p + p;
    assert d * all == d * y + d * rest;
  }

  lemma ProductBelowQuarterSquare(a: real, b: real)
    ensures a * b <= (a + b) * (a + b) / 4.0
  {
    Square(a - b);
    assert (a + b) * (a + b) - 4.0 * (a * b) == (a - b) * (a - b);
  }

  /** The deviation of any latency list is at most half its range. */
  lemma DeviationWithinHalfRange(values: seq<real>)
    requires values != []
    ensures var st := StatsOf(values);
            st.variance <= SquaredGap(st.maxMs, st.minMs) / 4.0
  {
    var v := Sort(Ascending, values);
    AscendingSorts(values);
    SortedRange(v);
    SingleHasNoDeviation(v);
    hide Sort, Percentile, Median, Mean, Variance, SquaredGap;
  }

  lemma SortedRange(v: seq<real>)
    requires v != [] && SortedBy(Ascending, v)
    ensures Variance(v) <= SquaredGap(v[|v| - 1], v[0]) / 4.0
  {
    forall i | 0 <= i < |v| ensures v[0] <= v[i] <= v[|v| - 1] {
      assert i > 0 ==> Ascending(v[0], v[i]);
      assert i < |v| - 1 ==> Ascending(v[i], v[|v| - 1]);
    }
    RangeOfBounded(v, v[0], v[|v| - 1]);
  }

  lemma RangeOfBounded(v: seq<real>, lo: real, hi: real)
    requires v != [] && forall i :: 0 <= i < |v| ==> lo <= v[i] <= hi
    ensures Variance(v) <= (hi - lo) * (hi - lo) / 4.0
  {
    hide Sum, SquaredDeviation, SignedSum, RangeTerm;
    var c := Mean(v);
    RangeProduct(v, c, c - lo, hi - c);
    SignedSumValue(v, c);
    MeanBalances(Sum(v), |v| as real);
    RangeBound(|v| as real, c - lo, hi - c, SignedSum(v, c), SquaredDeviation(v, c));
  }

  lemma MeanBalances(sum: real, n: real)
    requires n > 0.0
    ensures sum - n * (sum / n) == 0.0
  {
  }

  lemma RangeBound(n: real, a: real, b: real, rest: real, squares: real)
    requires n > 0.0 && rest == 0.0 && squares <= RangeTerm(n, a, b, rest)
    ensures squares / n <= (a + b) * (a + b) / 4.0
  {
    var p := a * b;
    QuotientMonotone(squares, n * p, n);
    assert (n * p) / n == p;
    ProductBelowQuarterSquare(a, b);
  }
}
