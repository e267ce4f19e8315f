/** How the retrieval metrics relate to one another and to their documented ranges. */
module MetricRelations {
  import opened Reals
  import opened RankingMetrics
  import opened NdcgBounds

  // ----- Sizes of the set of found ids -----

  lemma {:induction false} ElementsAreFewer<T>(s: seq<T>)
    ensures |set x | x in s| <= |s|
  {
    if s == [] {
      assert (set x | x in s) == {};
    } else {
      ElementsAreFewer(s[1..]);
      assert (set x | x in s) == {s[0]} + set x | x in s[1..];
    }
  }

  lemma FoundIsSmall(retrieved: seq<Id>, relevant: seq<Id>, k: int)
    ensures |Found(retrieved, relevant, k)| <= |relevant|
    ensures |Found(retrieved, relevant, k)| <= |Slice(retrieved, k)|
  {
    ElementsAreFewer(relevant);
    ElementsAreFewer(Slice(retrieved, k));
    SubsetIsSmaller(Found(retrieved, relevant, k), set id | id in relevant);
    SubsetIsSmaller(Found(retrieved, relevant, k), set id | id in Slice(retrieved, k));
  }

  /** Recall and precision count the same ids. */
  lemma RecallTimesRelevantIsPrecisionTimesK(retrieved: seq<Id>, relevant: seq<Id>, k: int)
    requires relevant != [] && k != 0
    ensures RecallAtK(retrieved, relevant, k) * |relevant| as real
         == PrecisionAtK(retrieved, relevant, k) * k as real
         == |Found(retrieved, relevant, k)| as real
  {
    FoundIsSmall(retrieved, relevant, k);
    hide Found;
    var f := |Found(retrieved, relevant, k)| as real;
    Ratio(f, |relevant| as real);
    TimesQuotient(f, |relevant| as real);
    TimesQuotient(f, k as real);
  }

  lemma TimesQuotient(x: real, y: real)
    requires y != 0.0
    ensures x / y * y == x
  {
  }

  /** Looking deeper never loses recall. */
  lemma RecallGrowsWithDepth(retrieved: seq<Id>, relevant: seq<Id>, k: nat, l: nat)
    requires k <= l
    ensures RecallAtK(retrieved, relevant, k) <= RecallAtK(retrieved, relevant, l)
  {
    assert Slice(retrieved, k) <= Slice(retrieved, l);
    FoundGrows(retrieved, retrieved, relevant, k, l);
  }

  lemma FoundGrows(a: seq<Id>, b: seq<Id>, relevant: seq<Id>, k: int, l: int)
    requires Found(a, relevant, k) <= Found(b, relevant, l)
    ensures RecallAtK(a, relevant, k) <= RecallAtK(b, relevant, l)
  {
    SubsetIsSmaller(Found(a, relevant, k), Found(b, relevant, l));
    if relevant != [] {
      CountGrows(|Found(a, relevant, k)|, |Found(b, relevant, l)|, relevant);
    }
  }

  lemma CountGrows(x: nat, y: nat, relevant: seq<Id>)
    requires x <= y && relevant != []
    ensures x as real / |relevant| as real <= y as real / |relevant| as real
  {
  }

  // ----- One hit, five symptoms -----

  lemma {:induction false} BinaryGainPositive(scale: Scale, rels: seq<real>, from: nat)
    requires scale.Valid() && Binary(rels)
    ensures Gain(scale, rels, from) >= 0.0
    ensures Gain(scale, rels, from) > 0.0 <==> exists i :: 0 <= i < |rels| && rels[i] == 1.0
  {
    if rels != [] {
      var rest := rels[1..];
      BinaryGainPositive(scale, rest, from + 1);
      BinaryTerms(scale, from);
      if i :| 0 <= i < |rels| && rels[i] == 1.0 {
        assert i > 0 ==> rest[i - 1] == 1.0;
      }
      if j :| 0 <= j < |rest| && rest[j] == 1.0 {
        assert rels[j + 1] == 1.0;
      }
    }
  }

  /** Some result among the first `k` is relevant. */
  predicate HasHit(retrieved: seq<Id>, relevant: seq<Id>, k: int) {
    exists i :: 0 <= i < |Slice(retrieved, k)| && retrieved[i] in relevant
  }

  lemma FoundNonEmpty(retrieved: seq<Id>, relevant: seq<Id>, k: int)
    ensures Found(retrieved, relevant, k) != {} <==> HasHit(retrieved, relevant, k)
    ensures Found(retrieved, relevant, k) != {} <==> |Found(retrieved, relevant, k)| > 0
  {
    var found := Found(retrieved, relevant, k);
    if id :| id in found {
      var i :| 0 <= i < |Slice(retrieved, k)| && Slice(retrieved, k)[i] == id;
      assert retrieved[i] in relevant;
    }
    if i :| 0 <= i < |Slice(retrieved, k)| && retrieved[i] in relevant {
      assert Slice(retrieved, k)[i] in found;
    }
  }

  lemma NdcgSeesHit(scale: Scale, retrieved: seq<Id>, relevant: seq<Id>, k: nat)
    requires scale.Valid() && k >= 1 && relevant != []
    ensures NdcgAtK(scale, retrieved, relevant, k, map[]) > 0.0 <==> HasHit(retrieved, relevant, k)
  {
    var top := Slice(retrieved, k);
    var rels := Relevances(top, relevant, map[]);
    IdealIsPerfect(scale, relevant, k);
    PerfectGainGrows(scale, 0, MinNat(k, |relevant|), 0);
    BinaryGainPositive(scale, rels, 0);
    assert forall i :: 0 <= i < |rels| ==> (rels[i] == 1.0 <==> retrieved[i] in relevant);
    PositiveQuotient(Gain(scale, rels, 0), Idcg(scale, relevant, k, map[]));
  }

  lemma PositiveQuotient(x: real, y: real)
    requires x >= 0.0 && y > 0.0
    ensures x / y > 0.0 <==> x > 0.0
  {
  }

  lemma MrrSeesHit(retrieved: seq<Id>, relevant: seq<Id>, k: nat)
    requires k >= 1
    ensures Mrr(retrieved, relevant) >= 1.0 / k as real <==> HasHit(retrieved, relevant, k)
  {
    var i := FirstHit(retrieved, relevant);
    if i < |retrieved| {
      Reciprocals(i + 1, k);
      if i < k {
        assert retrieved[i] in relevant && i < |Slice(retrieved, k)|;
      }
    } else {
      assert 1.0 / k as real > 0.0;
    }
  }

  lemma Reciprocals(m: nat, k: nat)
    requires m >= 1 && k >= 1
    ensures 1.0 / m as real >= 1.0 / k as real <==> m <= k
  {
    var x, y := m as real, k as real;
    assert 1.0 / x - 1.0 / y == (y - x) / (x * y);
    assert x * y > 0.0;
  }

  /** With ungraded relevance, the metrics agree on whether the first `k` results contain a
      relevant one. */
  lemma MetricsAgreeOnHit(scale: Scale, retrieved: seq<Id>, relevant: seq<Id>, k: nat)
    requires scale.Valid() && k >= 1 && relevant != []
    ensures HitRate(retrieved, relevant, k) == 1.0 <==> HasHit(retrieved, relevant, k)
    ensures RecallAtK(retrieved, relevant, k) > 0.0 <==> HasHit(retrieved, relevant, k)
    ensures PrecisionAtK(retrieved, relevant, k) > 0.0 <==> HasHit(retrieved, relevant, k)
    ensures NdcgAtK(scale, retrieved, relevant, k, map[]) > 0.0 <==> HasHit(retrieved, relevant, k)
    ensures Mrr(retrieved, relevant) >= 1.0 / k as real <==> HasHit(retrieved, relevant, k)
  {
    FoundNonEmpty(retrieved, relevant, k);
    NdcgSeesHit(scale, retrieved, relevant, k);
    MrrSeesHit(retrieved, relevant, k);
    var f := |Found(retrieved, relevant, k)| as real;
    PositiveQuotient(f, |relevant| as real);
    PositiveQuotient(f, k as real);
  }

  /** Hit rate is one or zero, at every depth, by whether the results before it hold a hit. */
  lemma HitRateIsHit(retrieved: seq<Id>, relevant: seq<Id>, k: int)
    ensures HitRate(retrieved, relevant, k) == if HasHit(retrieved, relevant, k) then 1.0 else 0.0
  {
    FoundNonEmpty(retrieved, relevant, k);
  }

  /** The reciprocal rank, as a number. */
  lemma MrrTimesRankIsOne(retrieved: seq<Id>, relevant: seq<Id>, i: nat)
    requires i < |retrieved| && retrieved[i] in relevant && forall j :: 0 <= j < i ==> retrieved[j] !in relevant
    ensures Mrr(retrieved, relevant) * (i + 1) as real == 1.0
  {
    assert FirstHit(retrieved, relevant) == i;
  }

  lemma NoHitNoMrr(retrieved: seq<Id>, relevant: seq<Id>)
    requires forall j :: 0 <= j < |retrieved| ==> retrieved[j] !in relevant
    ensures Mrr(retrieved, relevant) == 0.0
  {
  }

  /** A deeper look at non-negative depths keeps a hit. */
  lemma HitStays(retrieved: seq<Id>, relevant: seq<Id>, k: nat, l: nat)
    requires k <= l && HasHit(retrieved, relevant, k)
    ensures HasHit(retrieved, relevant, l)
  {
    var i :| 0 <= i < |Slice(retrieved, k)| && retrieved[i] in relevant;
    assert i < |Slice(retrieved, l)|;
  }

  /** The hit rate of a report looks as deep as any configured depth, or ten without one. */
  lemma ReportedHitsLookDeepest(scale: Scale, retrieved: seq<Id>, relevant: seq<Id>, ks: seq<int>, metrics: map<Metric, real>)
    requires IsReport(scale, retrieved, relevant, ks, metrics) && forall k :: k in ks ==> k >= 0
    ensures Hits in metrics
    ensures ks != [] ==> (metrics[Hits] == 1.0 <==> exists k :: k in ks && HasHit(retrieved, relevant, k))
    ensures ks == [] ==> (metrics[Hits] == 1.0 <==> HasHit(retrieved, relevant, 10))
  {
    assert Reported(ks, Hits);
    HitRateIsHit(retrieved, relevant, HitDepth(ks));
    if k :| k in ks && HasHit(retrieved, relevant, k) {
      HitStays(retrieved, relevant, k, HitDepth(ks));
    }
  }

  /** What a report holds at one of its depths. */
  lemma ReportEntries(scale: Scale, retrieved: seq<Id>, relevant: seq<Id>, ks: seq<int>, metrics: map<Metric, real>, k: int)
    requires k in ks && IsReport(scale, retrieved, relevant, ks, metrics)
    ensures Recall(k) in metrics && metrics[Recall(k)] == RecallAtK(retrieved, relevant, k)
    ensures Precision(k) in metrics && metrics[Precision(k)] == PrecisionAtK(retrieved, relevant, k)
    ensures Ndcg(k) in metrics && metrics[Ndcg(k)] == NdcgAtK(scale, retrieved, relevant, k, map[])
    ensures MeanRank in metrics && metrics[MeanRank] == Mrr(retrieved, relevant)
  {
    hide RecallAtK, PrecisionAtK, NdcgAtK, Mrr;
    assert Reported(ks, Recall(k)) && Reported(ks, Precision(k)) && Reported(ks, MeanRank) && Reported(ks, Ndcg(k));
  }

  /** The entries of a report fit together under their names. */
  lemma ReportIsConsistent(scale: Scale, retrieved: seq<Id>, relevant: seq<Id>, ks: seq<int>, metrics: map<Metric, real>, k: nat)
    requires scale.Valid() && relevant != [] && k >= 1 && k in ks && IsReport(scale, retrieved, relevant, ks, metrics)
    ensures Recall(k) in metrics && Precision(k) in metrics && MeanRank in metrics && Ndcg(k) in metrics
    ensures metrics[Recall(k)] * |relevant| as real == metrics[Precision(k)] * k as real == |Found(retrieved, relevant, k)| as real
    ensures metrics[Ndcg(k)] > 0.0 <==> metrics[Recall(k)] > 0.0
    ensures metrics[MeanRank] >= 1.0 / k as real <==> metrics[Recall(k)] > 0.0
  {
    hide *;
    ReportEntries(scale, retrieved, relevant, ks, metrics, k);
    RecallTimesRelevantIsPrecisionTimesK(retrieved, relevant, k);
    MetricsAgreeOnHit(scale, retrieved, relevant, k);
  }

  // ----- Ranges -----

  predicate Unit(x: real) {
    0.0 <= x <= 1.0
  }

  lemma RecallAndMrrInUnit(retrieved: seq<Id>, relevant: seq<Id>, k: int)
    ensures Unit(RecallAtK(retrieved, relevant, k)) && Unit(Mrr(retrieved, relevant)) && Unit(HitRate(retrieved, relevant, k))
  {
    if relevant != [] {
      FoundIsSmall(retrieved, relevant, k);
      Ratio(|Found(retrieved, relevant, k)| as real, |relevant| as real);
    }
    Ratio(1.0, (FirstHit(retrieved, relevant) + 1) as real);
  }

  /** Precision is documented to lie between zero and one; a negative depth that still finds
      something is exactly what breaks it. */
  lemma PrecisionRangeExactly(retrieved: seq<Id>, relevant: seq<Id>, k: int)
    ensures Unit(PrecisionAtK(retrieved, relevant, k)) <==> k >= 0 || Found(retrieved, relevant, k) == {}
  {
    FoundIsSmall(retrieved, relevant, k);
    var f := |Found(retrieved, relevant, k)| as real;
    if k > 0 {
      Ratio(f, k as real);
    } else if k < 0 {
      NegativeQuotient(f, k as real);
    }
  }

  lemma NegativeQuotient(x: real, y: real)
    requires x >= 0.0 && y < 0.0
    ensures x / y <= 0.0 && (x / y == 0.0 <==> x == 0.0)
  {
  }

  ghost predicate AllUnit(metrics: map<Metric, real>) {
    forall m :: m in metrics ==> Unit(metrics[m])
  }

  /** A report at non-negative depths on duplicate-free results stays in range throughout. */
  lemma ReportInUnit(scale: Scale, retrieved: seq<Id>, relevant: seq<Id>, ks: seq<int>, metrics: map<Metric, real>)
    requires scale.Valid() && Distinct(retrieved) && Distinct(relevant)
    requires forall k :: k in ks ==> k >= 0
    requires IsReport(scale, retrieved, relevant, ks, metrics)
    ensures AllUnit(metrics)
  {
    forall m | m in metrics ensures Unit(metrics[m]) {
      assert Reported(ks, m);
      match m
      case Recall(k) => RecallAndMrrInUnit(retrieved, relevant, k);
      case Precision(k) => PrecisionRangeExactly(retrieved, relevant, k);
      case Ndcg(k) => NdcgWithinUnit(scale, retrieved, relevant, k, map[]);
      case MeanRank => RecallAndMrrInUnit(retrieved, relevant, 0);
      case Hits => RecallAndMrrInUnit(retrieved, relevant, HitDepth(ks));
    }
  }

  // ----- Composite score -----

  ghost predicate NonNegativeWeights(weights: seq<(Metric, real)>) {
    forall i :: 0 <= i < |weights| ==> weights[i].1 >= 0.0
  }

  lemma UnitShare(v: real, w: real)
    requires Unit(v) && w >= 0.0
    ensures 0.0 <= v * w <= w
  {
    var gap := 1.0 - v;
    assert gap * w >= 0.0;
    assert gap * w == w - v * w;
  }

  lemma ShareBounds(metrics: map<Metric, real>, weight: (Metric, real))
    requires Unit(Lookup(metrics, weight.0)) && weight.1 >= 0.0
    ensures 0.0 <= Share(metrics, weight) <= weight.1
  {
    hide Lookup;
    var v, w := Lookup(metrics, weight.0), weight.1;
    UnitShare(v, w);
    assert Share(metrics, weight) == v * w;
  }

  lemma ShareMonotone(a: map<Metric, real>, b: map<Metric, real>, weight: (Metric, real))
    requires Lookup(a, weight.0) <= Lookup(b, weight.0) && weight.1 >= 0.0
    ensures Share(a, weight) <= Share(b, weight)
  {
    hide Lookup;
    ProductMonotone(Lookup(a, weight.0), Lookup(b, weight.0), weight.1);
  }

  lemma {:induction false} WeightedSumBounds(metrics: map<Metric, real>, weights: seq<(Metric, real)>)
    requires NonNegativeWeights(weights)
    requires forall i :: 0 <= i < |weights| ==> Unit(Lookup(metrics, weights[i].0))
    ensures 0.0 <= WeightedSum(metrics, weights) <= TotalWeight(weights)
  {
    if weights != [] {
      WeightedSumBounds(metrics, weights[..|weights| - 1]);
      ShareBounds(metrics, weights[|weights| - 1]);
    }
  }

  /** The composite score of in-range metrics is in range, also when a zero metric falls
      through to its average. */
  lemma CompositeInUnit(metrics: map<Metric, real>, weights: seq<(Metric, real)>)
    requires NonNegativeWeights(weights) && AllUnit(metrics)
    ensures Unit(CompositeScore(metrics, weights))
  {
    WeightedSumBounds(metrics, weights);
    var total := TotalWeight(weights);
    if total > 0.0 {
      Ratio(WeightedSum(metrics, weights), total);
    }
  }

  lemma {:induction false} WeightedSumMonotone(a: map<Metric, real>, b: map<Metric, real>, weights: seq<(Metric, real)>)
    requires NonNegativeWeights(weights)
    requires forall i :: 0 <= i < |weights| ==> Lookup(a, weights[i].0) <= Lookup(b, weights[i].0)
    ensures WeightedSum(a, weights) <= WeightedSum(b, weights)
  {
    if weights != [] {
      WeightedSumMonotone(a, b, weights[..|weights| - 1]);
      ShareMonotone(a, b, weights[|weights| - 1]);
    }
  }

  lemma ProductMonotone(x: real, y: real, d: real)
    requires x <= y && d >= 0.0
    ensures x * d <= y * d
  {
    var gap := y - x;
    assert gap * d >= 0.0;
    assert y * d == x * d + gap * d;
  }

  lemma CompositeMonotone(a: map<Metric, real>, b: map<Metric, real>, weights: seq<(Metric, real)>)
    requires NonNegativeWeights(weights)
    requires forall i :: 0 <= i < |weights| ==> Lookup(a, weights[i].0) <= Lookup(b, weights[i].0)
    ensures CompositeScore(a, weights) <= CompositeScore(b, weights)
  {
    WeightedSumMonotone(a, b, weights);
    var total := TotalWeight(weights);
    if total > 0.0 {
      QuotientMonotone(WeightedSum(a, weights), WeightedSum(b, weights), total);
    }
  }

  lemma {:induction false} ConstantSum(metrics: map<Metric, real>, weights: seq<(Metric, real)>, v: real)
    requires forall i :: 0 <= i < |weights| ==> Lookup(metrics, weights[i].0) == v
    ensures WeightedSum(metrics, weights) == v * TotalWeight(weights)
  {
    if weights != [] {
      var init := weights[..|weights| - 1];
      ConstantSum(metrics, init, v);
      Distribute(v, TotalWeight(init), weights[|weights| - 1].1);
      hide Lookup;
    }
  }

  lemma Distribute(v: real, x: real, y: real)
    ensures v * (x + y) == v * x + v * y
  {
  }

  lemma Quotient(v: real, total: real)
    requires total > 0.0
    ensures v * total / total == v
  {
  }

  /** Metrics that all have one value score that value, whatever the weights. */
  lemma CompositeOfConstant(metrics: map<Metric, real>, weights: seq<(Metric, real)>, v: real)
    requires forall i :: 0 <= i < |weights| ==> Lookup(metrics, weights[i].0) == v
    requires TotalWeight(weights) > 0.0
    ensures CompositeScore(metrics, weights) == v
  {
    hide WeightedSum, TotalWeight, Lookup;
    ConstantSum(metrics, weights, v);
    Quotient(v, TotalWeight(weights));
  }

  /** Averages stored under their averaged names score as the same numbers under plain names. */
  lemma {:induction false} AveragedNamesSum(averaged: map<Metric, real>, plain: map<Metric, real>, weights: seq<(Metric, real)>)
    requires forall i :: 0 <= i < |weights| ==> SameUnderName(averaged, plain, weights[i].0)
    ensures WeightedSum(averaged, weights) == WeightedSum(plain, weights)
  {
    if weights != [] {
      AveragedNamesSum(averaged, plain, weights[..|weights| - 1]);
      assert SameUnderName(averaged, plain, weights[|weights| - 1].0);
    }
  }

  /** One dictionary has the averaged name where the other has the plain one, with the same value. */
  ghost predicate SameUnderName(averaged: map<Metric, real>, plain: map<Metric, real>, m: Metric) {
    && m !in averaged && Averaged(m) !in plain
    && (Averaged(m) in averaged <==> m in plain)
    && (m in plain ==> averaged[Averaged(m)] == plain[m])
  }

  lemma CompositeReadsAverages(averaged: map<Metric, real>, plain: map<Metric, real>, weights: seq<(Metric, real)>)
    requires forall i :: 0 <= i < |weights| ==> SameUnderName(averaged, plain, weights[i].0)
    ensures CompositeScore(averaged, weights) == CompositeScore(plain, weights)
  {
    AveragedNamesSum(averaged, plain, weights);
  }
}
