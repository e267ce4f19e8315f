/** Averaging metrics over queries, and what the composite score makes of the averages. */
module MetricAverages {
  import opened Reals
  import opened RankingMetrics
  import opened NdcgBounds
  import opened MetricRelations
  import opened Leaderboards
  import opened SimulatedEvaluation

  // ----- Dictionaries of metrics -----

  /** The values the queries report under one key. */
  function Collected(queries: seq<map<Metric, real>>, m: Metric): seq<real> {
    if queries == [] then []
    else
      var rest := Collected(queries[..|queries| - 1], m);
      if m in queries[|queries| - 1] then rest + [queries[|queries| - 1][m]] else rest
  }

  function Mean(s: seq<real>): real {
    if s == [] then 0.0 else Sum(s) / |s| as real
  }

  lemma MeanTimesCount(s: seq<real>)
    ensures Mean(s) * |s| as real == Sum(s)
  {
    hide Sum;
    EmptySum();
  }

  lemma EmptySum()
    ensures Sum([]) == 0.0
  {
  }

  /** One averaged key for every key of the first query, and nothing else. */
  ghost predicate IsAggregate(queries: seq<map<Metric, real>>, aggregated: map<Metric, real>) {
    forall m :: (m in aggregated <==> m.Averaged? && queries != [] && m.of in queries[0])
      && (m in aggregated ==> aggregated[m] == Mean(Collected(queries, m.of)))
  }

  method AggregateMetrics(queries: seq<map<Metric, real>>) returns (aggregated: map<Metric, real>)
    ensures IsAggregate(queries, aggregated)
  {
    aggregated := map[];
    if queries == [] {
      return;
    }
    var keys := queries[0].Keys;
    while keys != {}
      invariant keys <= queries[0].Keys
      invariant forall m :: m in aggregated <==> m.Averaged? && m.of in queries[0] && m.of !in keys
      invariant forall m :: m in aggregated ==> aggregated[m] == Mean(Collected(queries, m.of))
      decreases |keys|
    {
      var key :| key in keys;
      var values: seq<real> := [];
      for i := 0 to |queries|
        invariant values == Collected(queries[..i], key)
      {
        assert queries[..i + 1][..i] == queries[..i];
        if key in queries[i] {
          values := values + [queries[i][key]];
        }
      }
      assert queries[..|queries|] == queries;
      aggregated := aggregated[Averaged(key) := Mean(values)];
      keys := keys - {key};
    }
  }

  lemma {:induction false} CollectedInUnit(queries: seq<map<Metric, real>>, m: Metric)
    requires forall q :: q in queries ==> AllUnit(q)
    ensures forall x :: x in Collected(queries, m) ==> Unit(x)
  {
    if queries != [] {
      CollectedInUnit(queries[..|queries| - 1], m);
      assert AllUnit(queries[|queries| - 1]);
    }
  }

  lemma {:induction false} MeanInUnit(s: seq<real>)
    requires forall x :: x in s ==> Unit(x)
    ensures 0.0 <= Sum(s) <= |s| as real && Unit(Mean(s))
  {
    if s != [] {
      MeanInUnit(s[1..]);
      assert s[0] in s;
      Ratio(Sum(s), |s| as real);
    }
  }

  /** Averages of in-range reports are in range, and the composite score, which finds them under
      their averaged names, is too. */
  lemma AggregateStaysInUnit(queries: seq<map<Metric, real>>, aggregated: map<Metric, real>, weights: seq<(Metric, real)>)
    requires IsAggregate(queries, aggregated) && NonNegativeWeights(weights)
    requires forall q :: q in queries ==> AllUnit(q)
    ensures AllUnit(aggregated) && Unit(CompositeScore(aggregated, weights))
  {
    forall m | m in aggregated ensures Unit(aggregated[m]) {
      CollectedInUnit(queries, m.of);
      MeanInUnit(Collected(queries, m.of));
    }
    CompositeInUnit(aggregated, weights);
  }

  // ----- The composite score is linear -----

  lemma WeightStep(metrics: map<Metric, real>, weights: seq<(Metric, real)>, n: nat)
    requires n < |weights|
    ensures TotalWeight(weights[..n + 1]) == TotalWeight(weights[..n]) + weights[n].1
    ensures WeightedSum(metrics, weights[..n + 1]) == WeightedSum(metrics, weights[..n]) + Share(metrics, weights[n])
  {
    assert weights[..n + 1][..n] == weights[..n];
  }

  lemma NoWeights(metrics: map<Metric, real>)
    ensures TotalWeight([]) == 0.0 && WeightedSum(metrics, []) == 0.0
  {
  }

  lemma SevenWeights(metrics: map<Metric, real>, w: seq<(Metric, real)>)
    requires |w| == 7
    ensures TotalWeight(w) == w[0].1 + w[1].1 + w[2].1 + w[3].1 + w[4].1 + w[5].1 + w[6].1
    ensures WeightedSum(metrics, w) == Share(metrics, w[0]) + Share(metrics, w[1]) + Share(metrics, w[2])
      + Share(metrics, w[3]) + Share(metrics, w[4]) + Share(metrics, w[5]) + Share(metrics, w[6])
  {
    hide Share, WeightedSum, TotalWeight;
    assert w[..7] == w && w[..0] == [];
    NoWeights(metrics);
    WeightStep(metrics, w, 0);
    WeightStep(metrics, w, 1);
    WeightStep(metrics, w, 2);
    WeightStep(metrics, w, 3);
    WeightStep(metrics, w, 4);
    WeightStep(metrics, w, 5);
    WeightStep(metrics, w, 6);
  }

  /** The default weights add up to one, so the composite score is their plain weighted sum. */
  lemma CompositeClosedForm(a: Averages)
    ensures CompositeOf(a) == 0.20 * a.recall5 + 0.15 * a.recall10 + 0.20 * a.mrr + 0.10 * a.precision5
                            + 0.10 * a.hitRate + 0.15 * a.ndcg5 + 0.10 * a.ndcg10
  {
    var metrics :=
      map[Recall(5) := a.recall5, Recall(10) := a.recall10, MeanRank := a.mrr,
          Precision(5) := a.precision5, Hits := a.hitRate, Ndcg(5) := a.ndcg5, Ndcg(10) := a.ndcg10];
    SevenWeights(metrics, DEFAULT_WEIGHTS);
    hide WeightedSum, TotalWeight;
  }

  lemma {:induction false} TotalOfComposites(queries: seq<Averages>)
    ensures Total(queries, CompositeOf)
         == 0.20 * Total(queries, (q: Averages) => q.recall5) + 0.15 * Total(queries, (q: Averages) => q.recall10)
          + 0.20 * Total(queries, (q: Averages) => q.mrr) + 0.10 * Total(queries, (q: Averages) => q.precision5)
          + 0.10 * Total(queries, (q: Averages) => q.hitRate) + 0.15 * Total(queries, (q: Averages) => q.ndcg5)
          + 0.10 * Total(queries, (q: Averages) => q.ndcg10)
  {
    if queries != [] {
      TotalOfComposites(queries[1..]);
      CompositeClosedForm(queries[0]);
      hide CompositeOf;
    }
  }

  /** Scoring the averages is averaging the scores: the leaderboard's composite score of a
      strategy is the mean of the composite scores of its queries. */
  lemma CompositeOfAveragesIsAverage(queries: seq<Averages>)
    requires queries != []
    ensures CompositeOf(Aggregate(queries)) == Average(queries, CompositeOf)
  {
    CompositeClosedForm(Aggregate(queries));
    TotalOfComposites(queries);
    hide CompositeOf, Total;
  }
}
