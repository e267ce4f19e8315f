/**
The retrieval metrics of the evaluation suite, over exact reals.

A Python set of relevant ids is given by a duplicate-free list of its elements in whatever
order the set is iterated. `1 / log2(rank + 1)` and `2^rel - 1` are kept abstract: a scale
supplies a positive, strictly decreasing discount and a strictly increasing gain.
 */
module RankingMetrics {
  import opened Sorting

  type Id = string

  datatype Scale = Scale(discount: nat -> real, gain: real -> real) {
    /** What is used of the two formulas: `discount(i)` is the weight of rank `i + 1`. */
    ghost predicate Valid() {
      && discount(0) == 1.0
      && (forall i: nat :: discount(i) > 0.0)
      && (forall i: nat, j: nat :: i < j ==> discount(i) > discount(j))
      && gain(0.0) == 0.0 && gain(1.0) == 1.0
      && (forall x, y :: x < y ==> gain(x) < gain(y))
    }

    /** The contribution of relevance `rel` at position `i`. */
    function Term(rel: real, i: nat): real {
      gain(rel) * discount(i)
    }
  }

  ghost predicate Distinct<T(!new)>(s: seq<T>) {
    forall i, j :: 0 <= i < j < |s| ==> s[i] != s[j]
  }

  /** Python's `s[:k]`: a negative bound counts from the end. */
  function Slice<T>(s: seq<T>, k: int): (r: seq<T>)
    ensures |r| <= |s| && r == s[..|r|]
    ensures k >= 0 ==> |r| == if k <= |s| then k else |s|
    ensures k < 0 ==> |r| == if -k <= |s| then |s| + k else 0
  {
    if k >= |s| then s
    else if k >= 0 then s[..k]
    else if -k <= |s| then s[..|s| + k]
    else []
  }

  // ----- Recall, precision, hit rate -----

  function Found(retrieved: seq<Id>, relevant: seq<Id>, k: int): set<Id> {
    set id | id in Slice(retrieved, k) && id in relevant
  }

  function RecallAtK(retrieved: seq<Id>, relevant: seq<Id>, k: int): real {
    if relevant == [] then 0.0
    else
      var recall := |Found(retrieved, relevant, k)| as real / |relevant| as real;
      if recall <= 1.0 then recall else 1.0
  }

  function PrecisionAtK(retrieved: seq<Id>, relevant: seq<Id>, k: int): real {
    if k == 0 then 0.0 else |Found(retrieved, relevant, k)| as real / k as real
  }

  function HitRate(retrieved: seq<Id>, relevant: seq<Id>, k: int): real {
    if relevant != [] && Found(retrieved, relevant, k) != {} then 1.0 else 0.0
  }

  // ----- Reciprocal rank -----

  /** Position of the first relevant result, or the length when there is none. */
  function FirstHit(retrieved: seq<Id>, relevant: seq<Id>): (i: nat)
    ensures i <= |retrieved|
    ensures i < |retrieved| ==> retrieved[i] in relevant
    ensures forall j :: 0 <= j < i ==> retrieved[j] !in relevant
  {
    if retrieved == [] || retrieved[0] in relevant then 0 else 1 + FirstHit(retrieved[1..], relevant)
  }

  function Mrr(retrieved: seq<Id>, relevant: seq<Id>): real {
    var i := FirstHit(retrieved, relevant);
    if i < |retrieved| then 1.0 / (i + 1) as real else 0.0
  }

  method ComputeMrr(retrieved: seq<Id>, relevant: seq<Id>) returns (mrr: real)
    ensures mrr == Mrr(retrieved, relevant)
  {
    if relevant == [] {
      return 0.0;
    }
    for rank := 1 to |retrieved| + 1
      invariant forall j :: 0 <= j < rank - 1 ==> retrieved[j] !in relevant
    {
      if retrieved[rank - 1] in relevant {
        assert FirstHit(retrieved, relevant) == rank - 1;
        return 1.0 / rank as real;
      }
    }
    return 0.0;
  }

  // ----- NDCG -----

  /** The relevance of one id: its graded score if it has one, else one or zero. */
  function Relevance(id: Id, relevant: seq<Id>, scores: map<Id, real>): real {
    if id in scores then scores[id] else if id in relevant then 1.0 else 0.0
  }

  function Relevances(ids: seq<Id>, relevant: seq<Id>, scores: map<Id, real>): (r: seq<real>)
    ensures |r| == |ids|
    ensures forall i :: 0 <= i < |ids| ==> r[i] == Relevance(ids[i], relevant, scores)
  {
    seq(|ids|, i requires 0 <= i < |ids| => Relevance(ids[i], relevant, scores))
  }

  /** Discounted cumulative gain of a list of relevances, the first at position `from`. */
  function Gain(scale: Scale, rels: seq<real>, from: nat): real {
    if rels == [] then 0.0
    else scale.Term(rels[0], from) + Gain(scale, rels[1..], from + 1)
  }

  function Dcg(scale: Scale, retrieved: seq<Id>, relevant: seq<Id>, k: int, scores: map<Id, real>): real {
    Gain(scale, Relevances(Slice(retrieved, k), relevant, scores), 0)
  }

  function Ideal(relevant: seq<Id>, scores: map<Id, real>): seq<real> {
    Sort(Descending, Relevances(relevant, relevant, scores))
  }

  function Idcg(scale: Scale, relevant: seq<Id>, k: int, scores: map<Id, real>): real {
    Gain(scale, Slice(Ideal(relevant, scores), if k >= 0 then k else 0), 0)
  }

  function NdcgAtK(scale: Scale, retrieved: seq<Id>, relevant: seq<Id>, k: int, scores: map<Id, real>): real {
    var ideal := Idcg(scale, relevant, k, scores);
    if ideal == 0.0 then 0.0 else Dcg(scale, retrieved, relevant, k, scores) / ideal
  }

  lemma {:induction false} GainSnoc(scale: Scale, rels: seq<real>, x: real, from: nat)
    ensures Gain(scale, rels + [x], from)
         == Gain(scale, rels, from) + scale.Term(x, from + |rels|)
  {
    if rels == [] {
      assert rels + [x] == [x] && [x][1..] == [];
    } else {
      GainSnoc(scale, rels[1..], x, from + 1);
      assert (rels + [x])[1..] == rels[1..] + [x];
    }
  }

  lemma GainStep(scale: Scale, rels: seq<real>, i: nat)
    requires i < |rels|
    ensures Gain(scale, rels[..i + 1], 0) == Gain(scale, rels[..i], 0) + scale.Term(rels[i], i)
  {
    GainSnoc(scale, rels[..i], rels[i], 0);
    assert rels[..i + 1] == rels[..i] + [rels[i]];
  }

  method ComputeNdcg(scale: Scale, retrieved: seq<Id>, relevant: seq<Id>, k: int, scores: map<Id, real>)
    returns (ndcg: real)
    ensures ndcg == NdcgAtK(scale, retrieved, relevant, k, scores)
  {
    if relevant == [] {
      return 0.0;
    }
    var top := Slice(retrieved, k);
    var rels := Relevances(top, relevant, scores);
    var dcg := 0.0;
    for i := 0 to |top|
      invariant dcg == Gain(scale, rels[..i], 0)
    {
      GainStep(scale, rels, i);
      dcg := dcg + scale.Term(Relevance(top[i], relevant, scores), i);
    }
    assert rels[..|top|] == rels;
    var ideal := Ideal(relevant, scores);
    var idcg := 0.0;
    var depth := if k <= |ideal| then k else |ideal|;
    var i := 0;
    while i < depth
      invariant 0 <= i && (i <= depth || i == 0)
      invariant idcg == Gain(scale, ideal[..i], 0)
    {
      GainStep(scale, ideal, i);
      idcg := idcg + scale.Term(ideal[i], i);
      i := i + 1;
    }
    assert ideal[..i] == Slice(ideal, if k >= 0 then k else 0);
    if idcg == 0.0 {
      return 0.0;
    }
    return dcg / idcg;
  }

  // ----- All metrics of one query -----

  /** The keys of a metrics dictionary. */
  datatype Metric = Recall(k: int) | Precision(k: int) | MeanRank | Hits | Ndcg(k: int) | Averaged(of: Metric)

  function Largest(ks: seq<int>): (m: int)
    requires ks != []
    ensures m in ks && forall k :: k in ks ==> k <= m
  {
    if |ks| == 1 then ks[0]
    else
      assert ks == [ks[0]] + ks[1..];
      var m := Largest(ks[1..]);
      if ks[0] >= m then ks[0] else m
  }

  function HitDepth(ks: seq<int>): int {
    if ks == [] then 10 else Largest(ks)
  }

  /** What a plain metric stands for. */
  function Value(scale: Scale, retrieved: seq<Id>, relevant: seq<Id>, ks: seq<int>, m: Metric): real
    requires !m.Averaged?
  {
    match m
    case Recall(k) => RecallAtK(retrieved, relevant, k)
    case Precision(k) => PrecisionAtK(retrieved, relevant, k)
    case MeanRank => Mrr(retrieved, relevant)
    case Hits => HitRate(retrieved, relevant, HitDepth(ks))
    case Ndcg(k) => NdcgAtK(scale, retrieved, relevant, k, map[])
  }

  predicate Reported(ks: seq<int>, m: Metric) {
    match m
    case Recall(k) => k in ks
    case Precision(k) => k in ks
    case Ndcg(k) => k in ks
    case MeanRank => true
    case Hits => true
    case Averaged(_) => false
  }

  /** The dictionary holds every reported metric with its value, and nothing else. */
  ghost predicate IsReport(scale: Scale, retrieved: seq<Id>, relevant: seq<Id>, ks: seq<int>, metrics: map<Metric, real>) {
    forall m :: (m in metrics <==> Reported(ks, m))
      && (m in metrics ==> metrics[m] == Value(scale, retrieved, relevant, ks, m))
  }

  method ComputeAllMetrics(scale: Scale, retrieved: seq<Id>, relevant: seq<Id>, ks: seq<int>)
    returns (metrics: map<Metric, real>)
    ensures IsReport(scale, retrieved, relevant, ks, metrics)
  {
    hide RecallAtK, PrecisionAtK, HitRate, Mrr, NdcgAtK, HitDepth;
    metrics := map[];
    for i := 0 to |ks|
      invariant forall m :: m in metrics <==> (m.Recall? || m.Precision?) && m.k in ks[..i]
      invariant forall m :: m in metrics ==> metrics[m] == Value(scale, retrieved, relevant, ks, m)
    {
      assert ks[..i + 1] == ks[..i] + [ks[i]];
      metrics := metrics[Recall(ks[i]) := RecallAtK(retrieved, relevant, ks[i])];
      metrics := metrics[Precision(ks[i]) := PrecisionAtK(retrieved, relevant, ks[i])];
    }
    assert ks[..|ks|] == ks;
    var mrr := ComputeMrr(retrieved, relevant);
    metrics := metrics[MeanRank := mrr];
    metrics := metrics[Hits := HitRate(retrieved, relevant, HitDepth(ks))];
    for i := 0 to |ks|
      invariant forall m :: m in metrics <==>
        match m { case Recall(k) => k in ks case Precision(k) => k in ks case Ndcg(k) => k in ks[..i]
                  case MeanRank => true case Hits => true case Averaged(_) => false }
      invariant forall m :: m in metrics ==> metrics[m] == Value(scale, retrieved, relevant, ks, m)
    {
      assert ks[..i + 1] == ks[..i] + [ks[i]];
      var ndcg := ComputeNdcg(scale, retrieved, relevant, ks[i], map[]);
      metrics := metrics[Ndcg(ks[i]) := ndcg];
    }
    assert ks[..|ks|] == ks;
  }

  // ----- Composite score -----

  const DEFAULT_WEIGHTS: seq<(Metric, real)> :=
    [ (Recall(5), 0.20), (Recall(10), 0.15), (MeanRank, 0.20), (Precision(5), 0.10),
      (Hits, 0.10), (Ndcg(5), 0.15), (Ndcg(10), 0.10) ]

  /** `metrics.get(name) or metrics.get("avg_" + name, 0.0)`: a zero falls through too. */
  function Lookup(metrics: map<Metric, real>, m: Metric): real {
    if m in metrics && metrics[m] != 0.0 then metrics[m]
    else if Averaged(m) in metrics then metrics[Averaged(m)]
    else 0.0
  }

  function Share(metrics: map<Metric, real>, weight: (Metric, real)): real {
    Lookup(metrics, weight.0) * weight.1
  }

  function WeightedSum(metrics: map<Metric, real>, weights: seq<(Metric, real)>): real {
    if weights == [] then 0.0
    else
      WeightedSum(metrics, weights[..|weights| - 1]) + Share(metrics, weights[|weights| - 1])
  }

  function TotalWeight(weights: seq<(Metric, real)>): real {
    if weights == [] then 0.0 else TotalWeight(weights[..|weights| - 1]) + weights[|weights| - 1].1
  }

  function CompositeScore(metrics: map<Metric, real>, weights: seq<(Metric, real)>): real {
    var total := TotalWeight(weights);
    if total > 0.0 then WeightedSum(metrics, weights) / total else WeightedSum(metrics, weights)
  }

  method ComputeCompositeScore(metrics: map<Metric, real>, weights: seq<(Metric, real)>) returns (score: real)
    ensures score == CompositeScore(metrics, weights)
  {
    score := 0.0;
    var total := 0.0;
    for i := 0 to |weights|
      invariant score == WeightedSum(metrics, weights[..i]) && total == TotalWeight(weights[..i])
    {
      assert weights[..i + 1][..i] == weights[..i];
      score := score + Share(metrics, weights[i]);
      total := total + weights[i].1;
    }
    assert weights[..|weights|] == weights;
    if total > 0.0 {
      score := score / total;
    }
  }
}
