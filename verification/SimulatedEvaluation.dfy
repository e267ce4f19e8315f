/**
The standalone evaluation: a retriever that draws its results at random, and the loop that
scores and averages them. Every random draw is an argument constrained only by what the
random generator promises; `corpus` stands for the fixed list of known chunk ids.
 */
module SimulatedEvaluation {
  import opened Options
  import opened Reals
  import opened Sorting
  import opened Rounding
  import opened RankingMetrics
  import opened NdcgBounds
  import opened MetricRelations
  import opened Leaderboards

  datatype Strategy = Dense | Bm25 | Hybrid | HybridRerank

  datatype Profile = Profile(recallBias: real, scoreLow: real, scoreHigh: real)

  function ProfileOf(s: Strategy): Profile {
    match s
    case Dense => Profile(0.82, 0.65, 0.99)
    case Bm25 => Profile(0.72, 8.0, 25.0)
    case Hybrid => Profile(0.88, 0.55, 0.98)
    case HybridRerank => Profile(0.94, 0.70, 0.99)
  }

  datatype Result = Result(id: Id, score: real)

  predicate ByResultScore(a: Result, b: Result) {
    a.score >= b.score
  }

  /** How many relevant ids are picked out of `n`. */
  function NumToPick(n: nat, bias: real): (m: nat)
    ensures m <= n && (n >= 1 ==> m >= 1)
    ensures m <= 1 || m as real <= n as real * bias
    ensures m == n || n as real * bias < (m + 1) as real
  {
    var expected := (n as real * bias).Floor;
    var atLeastOne := if expected >= 1 then expected else 1;
    if atLeastOne <= n then atLeastOne else n
  }

  function Others(corpus: seq<Id>, relevant: seq<Id>): seq<Id> {
    if corpus == [] then []
    else if corpus[0] in relevant then Others(corpus[1..], relevant)
    else [corpus[0]] + Others(corpus[1..], relevant)
  }

  lemma {:induction false} OthersAreOutside(corpus: seq<Id>, relevant: seq<Id>)
    ensures forall x :: x in Others(corpus, relevant) ==> x in corpus && x !in relevant
    ensures Distinct(corpus) ==> Distinct(Others(corpus, relevant))
  {
    if corpus != [] {
      OthersAreOutside(corpus[1..], relevant);
      if Distinct(corpus) {
        assert corpus[0] !in corpus[1..];
      }
    }
  }

  /** The outcome of the generator's calls within one retrieval. */
  datatype Draws = Draws(relevant: seq<Id>, noise: seq<Id>, shuffled: seq<Id>, uniform: seq<real>)

  /** `s` is a sample of `n` different positions of the population. */
  ghost predicate IsSample(population: seq<Id>, n: int, s: seq<Id>) {
    |s| == n && multiset(s) <= multiset(population)
  }

  lemma SampleIsDistinct(population: seq<Id>, n: int, s: seq<Id>)
    requires IsSample(population, n, s)
    ensures forall x :: x in s ==> x in population
    ensures Distinct(population) ==> Distinct(s)
  {
    forall x | x in s ensures x in population {
      assert x in multiset(s);
      assert x in multiset(population);
    }
    DistinctIsOrderless(population);
    DistinctIsOrderless(s);
    assert forall x :: multiset(s)[x] <= multiset(population)[x];
  }

  function NoiseCount(relevant: seq<Id>, strategy: Strategy, topK: int, corpus: seq<Id>): int {
    var wanted := topK - NumToPick(|relevant|, ProfileOf(strategy).recallBias);
    if wanted <= |Others(corpus, relevant)| then wanted else |Others(corpus, relevant)|
  }

  ghost predicate Possible(draws: Draws, relevant: seq<Id>, strategy: Strategy, topK: int, corpus: seq<Id>) {
    && IsSample(relevant, NumToPick(|relevant|, ProfileOf(strategy).recallBias), draws.relevant)
    && (NoiseCount(relevant, strategy, topK, corpus) >= 0 ==>
         && IsSample(Others(corpus, relevant), NoiseCount(relevant, strategy, topK, corpus), draws.noise)
         && multiset(draws.shuffled) == multiset(draws.relevant + draws.noise)
         && |draws.uniform| == |draws.shuffled|)
  }

  function IdOf(r: Result): Id {
    r.id
  }

  function Ids(results: seq<Result>): seq<Id> {
    Mapped(IdOf, results)
  }

  /** The results in the order drawn: later draws are penalised, none falls below the floor. */
  function Scored(ids: seq<Id>, uniform: seq<real>, low: real): (r: seq<Result>)
    requires |ids| <= |uniform|
    ensures |r| == |ids|
  {
    seq(|ids|, i requires 0 <= i < |ids| =>
      var score := uniform[i] - i as real * 0.02;
      Result(ids[i], Round(if score >= low then score else low, FOUR_PLACES)))
  }

  /** The score of a drawn id, to four places: its draw less a fiftieth for every id before it,
      but never below the floor. */
  lemma ScoreIsNear(ids: seq<Id>, uniform: seq<real>, low: real, i: nat)
    requires i < |ids| <= |uniform|
    ensures var score, drawn := Scored(ids, uniform, low)[i].score, uniform[i] - i as real / 50.0;
            && Scored(ids, uniform, low)[i].id == ids[i]
            && (drawn >= low ==> drawn - 0.00005 <= score <= drawn + 0.00005)
            && (drawn < low ==> low - 0.00005 <= score <= low + 0.00005)
  {
    var drawn := uniform[i] - i as real * 0.02;
    RoundIsNear(if drawn >= low then drawn else low, FOUR_PLACES);
    hide Round;
  }

  lemma ScoredIds(ids: seq<Id>, uniform: seq<real>, low: real)
    requires |ids| <= |uniform|
    ensures Ids(Scored(ids, uniform, low)) == ids
  {
  }

  lemma MixIsDistinct(a: seq<Id>, b: seq<Id>, mix: seq<Id>)
    requires Distinct(a) && Distinct(b) && multiset(mix) == multiset(a + b)
    requires forall x :: x in a ==> x !in b
    ensures Distinct(mix)
  {
    forall i, j | 0 <= i < j < |a + b| ensures (a + b)[i] != (a + b)[j] {
      assert i < |a| ==> (a + b)[i] in a;
      assert j >= |a| ==> (a + b)[j] in b;
    }
    DistinctIsOrderless(a + b);
    DistinctIsOrderless(mix);
  }

  lemma {:induction false} DistinctSize(s: seq<Id>)
    requires Distinct(s)
    ensures |set x | x in s| == |s|
  {
    if s == [] {
      assert (set x | x in s) == {};
    } else {
      DistinctSize(s[1..]);
      assert (set x | x in s) == {s[0]} + set x | x in s[1..];
      assert s[0] !in s[1..];
    }
  }

  /** What every retrieval delivers, whatever is drawn. */
  ghost predicate Delivers(results: seq<Result>, relevant: seq<Id>, strategy: Strategy, topK: int, corpus: seq<Id>) {
    && Distinct(Ids(results))
    && SortedBy(ByResultScore, results)
    && |results| == NumToPick(|relevant|, ProfileOf(strategy).recallBias) + NoiseCount(relevant, strategy, topK, corpus) <= topK
    && |set id | id in Ids(results) && id in relevant| == NumToPick(|relevant|, ProfileOf(strategy).recallBias)
  }

  method ScoreAll(ids: seq<Id>, uniform: seq<real>, low: real) returns (results: seq<Result>)
    requires |ids| <= |uniform|
    ensures results == Scored(ids, uniform, low)
  {
    results := [];
    for rank := 0 to |ids|
      invariant results == Scored(ids, uniform, low)[..rank]
    {
      var score := uniform[rank] - rank as real * 0.02;
      results := results + [Result(ids[rank], Round(if score >= low then score else low, FOUR_PLACES))];
    }
  }

  /** One simulated retrieval; none when the generator refuses a negative sample size. */
  method Retrieve(relevant: seq<Id>, strategy: Strategy, topK: int, corpus: seq<Id>, draws: Draws)
    returns (r: Option<seq<Result>>)
    requires Distinct(relevant) && Distinct(corpus) && Possible(draws, relevant, strategy, topK, corpus)
    ensures r.Some? <==> NumToPick(|relevant|, ProfileOf(strategy).recallBias) <= topK
    ensures r.Some? ==> Delivers(r.value, relevant, strategy, topK, corpus)
    ensures r.Some? ==> r.value == Sort(ByResultScore, Scored(draws.shuffled, draws.uniform, ProfileOf(strategy).scoreLow))
  {
    var profile := ProfileOf(strategy);
    var numToPick := NumToPick(|relevant|, profile.recallBias);
    var numNoise := NoiseCount(relevant, strategy, topK, corpus);
    if numNoise < 0 {
      return None;
    }
    DrawnIdsAreDistinct(relevant, corpus, draws);
    var combined := Slice(draws.shuffled, topK);
    var results := ScoreAll(combined, draws.uniform, profile.scoreLow);
    hide Scored, Ids, ProfileOf;
    ScoredIds(combined, draws.uniform, profile.scoreLow);
    SortedResults(results, relevant, draws);
    results := Sort(ByResultScore, results);
    return Some(Slice(results, topK));
  }

  lemma DrawnIdsAreDistinct(relevant: seq<Id>, corpus: seq<Id>, draws: Draws)
    requires Distinct(relevant) && Distinct(corpus)
    requires IsSample(relevant, |draws.relevant|, draws.relevant)
    requires IsSample(Others(corpus, relevant), |draws.noise|, draws.noise)
    requires multiset(draws.shuffled) == multiset(draws.relevant + draws.noise)
    ensures Distinct(draws.relevant) && Distinct(draws.shuffled)
    ensures |draws.shuffled| == |draws.relevant| + |draws.noise|
    ensures forall x :: x in draws.relevant ==> x in relevant
    ensures forall x :: x in draws.noise ==> x !in relevant
  {
    OthersAreOutside(corpus, relevant);
    SampleIsDistinct(relevant, |draws.relevant|, draws.relevant);
    SampleIsDistinct(Others(corpus, relevant), |draws.noise|, draws.noise);
    MixIsDistinct(draws.relevant, draws.noise, draws.shuffled);
    assert |draws.shuffled| == |multiset(draws.shuffled)|;
  }

  lemma SortedResults(unsorted: seq<Result>, relevant: seq<Id>, draws: Draws)
    requires Ids(unsorted) == draws.shuffled && Distinct(draws.shuffled) && Distinct(draws.relevant)
    requires multiset(draws.shuffled) == multiset(draws.relevant + draws.noise)
    requires forall x :: x in draws.relevant ==> x in relevant
    requires forall x :: x in draws.noise ==> x !in relevant
    ensures var results := Sort(ByResultScore, unsorted);
            && Distinct(Ids(results)) && SortedBy(ByResultScore, results)
            && |set id | id in Ids(results) && id in relevant| == |draws.relevant|
  {
    var results := Sort(ByResultScore, unsorted);
    SortPermutes(ByResultScore, unsorted);
    assert TotalPreorder(ByResultScore);
    SortSorts(ByResultScore, unsorted);
    MappedPermutes(IdOf, results, unsorted);
    DistinctIsOrderless(draws.shuffled);
    DistinctIsOrderless(Ids(results));
    DistinctSize(draws.relevant);
    forall id ensures id in Ids(results) <==> id in draws.relevant || id in draws.noise {
      assert id in Ids(results) <==> id in multiset(Ids(results));
      assert id in draws.relevant + draws.noise <==> id in multiset(draws.relevant + draws.noise);
    }
    assert (set id | id in Ids(results) && id in relevant) == set id | id in draws.relevant;
  }

  // ----- Scoring and averaging -----

  function Get(metrics: map<Metric, real>, m: Metric): real {
    if m in metrics then metrics[m] else 0.0
  }

  /** The figures kept for one query: only depths five and ten. */
  function QueryScores(metrics: map<Metric, real>, latencyMs: real): Averages {
    Averages(Get(metrics, Recall(5)), Get(metrics, Recall(10)), Get(metrics, MeanRank), Get(metrics, Precision(5)),
             Get(metrics, Precision(10)), Get(metrics, Hits), Get(metrics, Ndcg(5)), Get(metrics, Ndcg(10)), latencyMs)
  }

  predicate InUnit(a: Averages) {
    && Unit(a.recall5) && Unit(a.recall10) && Unit(a.mrr) && Unit(a.precision5) && Unit(a.precision10)
    && Unit(a.hitRate) && Unit(a.ndcg5) && Unit(a.ndcg10)
  }

  /** Whatever depths are configured, the kept figures are in range. */
  lemma QueryScoresInUnit(scale: Scale, retrieved: seq<Id>, relevant: seq<Id>, ks: seq<int>, metrics: map<Metric, real>, latencyMs: real)
    requires scale.Valid() && Distinct(retrieved) && Distinct(relevant)
    requires IsReport(scale, retrieved, relevant, ks, metrics)
    ensures InUnit(QueryScores(metrics, latencyMs))
  {
    forall m | m in {Recall(5), Recall(10), MeanRank, Precision(5), Precision(10), Hits, Ndcg(5), Ndcg(10)}
      ensures Unit(Get(metrics, m))
    {
      FigureInUnit(scale, retrieved, relevant, ks, metrics, m);
    }
    hide Get;
  }

  lemma FigureInUnit(scale: Scale, retrieved: seq<Id>, relevant: seq<Id>, ks: seq<int>, metrics: map<Metric, real>, m: Metric)
    requires scale.Valid() && Distinct(retrieved) && Distinct(relevant)
    requires IsReport(scale, retrieved, relevant, ks, metrics)
    requires !m.Averaged? && (m.Precision? ==> m.k >= 0)
    ensures Unit(Get(metrics, m))
  {
    match m
    case Recall(k) => RecallAndMrrInUnit(retrieved, relevant, k);
    case Precision(k) => PrecisionRangeExactly(retrieved, relevant, k);
    case Ndcg(k) => NdcgWithinUnit(scale, retrieved, relevant, k, map[]);
    case MeanRank => RecallAndMrrInUnit(retrieved, relevant, 0);
    case Hits => RecallAndMrrInUnit(retrieved, relevant, HitDepth(ks));
  }

  function Average(queries: seq<Averages>, f: Averages -> real): real
    requires queries != []
  {
    Total(queries, f) / |queries| as real
  }

  function Aggregate(queries: seq<Averages>): Averages {
    if queries == [] then Averages(0.0, 0.0, 0.0, 0.0, 0.0, 0.0, 0.0, 0.0, 0.0)
    else
      Averages(
        Average(queries, (q: Averages) => q.recall5), Average(queries, (q: Averages) => q.recall10),
        Average(queries, (q: Averages) => q.mrr), Average(queries, (q: Averages) => q.precision5),
        Average(queries, (q: Averages) => q.precision10), Average(queries, (q: Averages) => q.hitRate),
        Average(queries, (q: Averages) => q.ndcg5), Average(queries, (q: Averages) => q.ndcg10),
        Average(queries, (q: Averages) => q.latencyMs))
  }

  /** A data set in which all queries score the same averages to that score, figure by figure. */
  lemma AggregateOfEqual(queries: seq<Averages>, q: Averages)
    requires queries != [] && forall i :: 0 <= i < |queries| ==> queries[i] == q
    ensures Aggregate(queries) == q
  {
    AverageOfEqual(queries, q, (a: Averages) => a.recall5);
    AverageOfEqual(queries, q, (a: Averages) => a.recall10);
    AverageOfEqual(queries, q, (a: Averages) => a.mrr);
    AverageOfEqual(queries, q, (a: Averages) => a.precision5);
    AverageOfEqual(queries, q, (a: Averages) => a.precision10);
    AverageOfEqual(queries, q, (a: Averages) => a.hitRate);
    AverageOfEqual(queries, q, (a: Averages) => a.ndcg5);
    AverageOfEqual(queries, q, (a: Averages) => a.ndcg10);
    AverageOfEqual(queries, q, (a: Averages) => a.latencyMs);
    hide Average;
  }

  lemma {:induction false} TotalOfEqual(queries: seq<Averages>, q: Averages, f: Averages -> real)
    requires forall i :: 0 <= i < |queries| ==> queries[i] == q
    ensures Total(queries, f) == |queries| as real * f(q)
  {
    if queries != [] {
      TotalOfEqual(queries[1..], q, f);
      assert |queries| as real == |queries[1..]| as real + 1.0;
    }
  }

  lemma AverageOfEqual(queries: seq<Averages>, q: Averages, f: Averages -> real)
    requires queries != [] && forall i :: 0 <= i < |queries| ==> queries[i] == q
    ensures Average(queries, f) == f(q)
  {
    TotalOfEqual(queries, q, f);
    Cancel(f(q), |queries| as real);
    hide Total;
  }

  lemma Cancel(x: real, n: real)
    requires n != 0.0
    ensures n * x / n == x
  {
  }

  /** The figures of two data sets together are theirs, weighted by their numbers of queries. */
  ghost predicate Weighted(x: real, m: nat, y: real, n: nat, both: real) {
    both * (m + n) as real == x * m as real + y * n as real
  }

  lemma AverageOfBoth(a: seq<Averages>, b: seq<Averages>, f: Averages -> real)
    requires a != [] && b != []
    ensures Weighted(Average(a, f), |a|, Average(b, f), |b|, Average(a + b, f))
  {
    TotalOfConcat(a, b, f);
    hide Total;
    TimesCount(Total(a, f), |a| as real, Average(a, f));
    TimesCount(Total(b, f), |b| as real, Average(b, f));
    TimesCount(Total(a + b, f), (|a| + |b|) as real, Average(a + b, f));
  }

  lemma TimesCount(total: real, n: real, average: real)
    requires n != 0.0 && average == total / n
    ensures average * n == total
  {
  }

  lemma AggregateOfBoth(a: seq<Averages>, b: seq<Averages>)
    requires a != [] && b != []
    ensures var x, y, both, m, n := Aggregate(a), Aggregate(b), Aggregate(a + b), |a|, |b|;
            && Weighted(x.recall5, m, y.recall5, n, both.recall5) && Weighted(x.recall10, m, y.recall10, n, both.recall10)
            && Weighted(x.mrr, m, y.mrr, n, both.mrr)
            && Weighted(x.precision5, m, y.precision5, n, both.precision5)
            && Weighted(x.precision10, m, y.precision10, n, both.precision10)
            && Weighted(x.hitRate, m, y.hitRate, n, both.hitRate)
            && Weighted(x.ndcg5, m, y.ndcg5, n, both.ndcg5) && Weighted(x.ndcg10, m, y.ndcg10, n, both.ndcg10)
            && Weighted(x.latencyMs, m, y.latencyMs, n, both.latencyMs)
  {
    AverageOfBoth(a, b, (q: Averages) => q.recall5);
    AverageOfBoth(a, b, (q: Averages) => q.recall10);
    AverageOfBoth(a, b, (q: Averages) => q.mrr);
    AverageOfBoth(a, b, (q: Averages) => q.precision5);
    AverageOfBoth(a, b, (q: Averages) => q.precision10);
    AverageOfBoth(a, b, (q: Averages) => q.hitRate);
    AverageOfBoth(a, b, (q: Averages) => q.ndcg5);
    AverageOfBoth(a, b, (q: Averages) => q.ndcg10);
    AverageOfBoth(a, b, (q: Averages) => q.latencyMs);
    hide Weighted, Average;
  }

  lemma {:induction false} TotalInRange(queries: seq<Averages>, f: Averages -> real)
    requires forall q :: q in queries ==> Unit(f(q))
    ensures 0.0 <= Total(queries, f) <= |queries| as real
  {
    if queries != [] {
      assert queries[0] in queries;
      TotalInRange(queries[1..], f);
    }
  }

  lemma AverageInUnit(queries: seq<Averages>, f: Averages -> real)
    requires queries != [] && forall q :: q in queries ==> Unit(f(q))
    ensures Unit(Average(queries, f))
  {
    TotalInRange(queries, f);
    Ratio(Total(queries, f), |queries| as real);
  }

  /** Averages of in-range figures are in range, and so is their composite score. */
  lemma AggregateInUnit(queries: seq<Averages>)
    requires forall q :: q in queries ==> InUnit(q)
    ensures InUnit(Aggregate(queries)) && Unit(CompositeOf(Aggregate(queries)))
  {
    if queries != [] {
      AverageInUnit(queries, (q: Averages) => q.recall5);
      AverageInUnit(queries, (q: Averages) => q.recall10);
      AverageInUnit(queries, (q: Averages) => q.mrr);
      AverageInUnit(queries, (q: Averages) => q.precision5);
      AverageInUnit(queries, (q: Averages) => q.precision10);
      AverageInUnit(queries, (q: Averages) => q.hitRate);
      AverageInUnit(queries, (q: Averages) => q.ndcg5);
      AverageInUnit(queries, (q: Averages) => q.ndcg10);
    }
    CompositeOfInUnit(Aggregate(queries));
  }

  lemma CompositeOfInUnit(avg: Averages)
    requires InUnit(avg)
    ensures Unit(CompositeOf(avg))
  {
    var metrics :=
      map[Recall(5) := avg.recall5, Recall(10) := avg.recall10, MeanRank := avg.mrr,
          Precision(5) := avg.precision5, Hits := avg.hitRate, Ndcg(5) := avg.ndcg5, Ndcg(10) := avg.ndcg10];
    assert NonNegativeWeights(DEFAULT_WEIGHTS);
    CompositeInUnit(metrics, DEFAULT_WEIGHTS);
  }

  datatype Query = Query(relevant: seq<Id>, latencyMs: real, draws: Draws)

  /** What a kept figure stands for: the metric itself, or zero at a depth not configured. */
  function Figure(scale: Scale, ids: seq<Id>, relevant: seq<Id>, ks: seq<int>, m: Metric): real
    requires !m.Averaged?
  {
    if Reported(ks, m) then Value(scale, ids, relevant, ks, m) else 0.0
  }

  /** The figures belong to the results drawn for the query. */
  ghost predicate Scores(scale: Scale, strategy: Strategy, q: Query, ks: seq<int>, a: Averages) {
    && |q.draws.shuffled| <= |q.draws.uniform|
    && var ids := Ids(Sort(ByResultScore, Scored(q.draws.shuffled, q.draws.uniform, ProfileOf(strategy).scoreLow)));
    && a.recall5 == Figure(scale, ids, q.relevant, ks, Recall(5))
    && a.recall10 == Figure(scale, ids, q.relevant, ks, Recall(10))
    && a.mrr == Mrr(ids, q.relevant)
    && a.precision5 == Figure(scale, ids, q.relevant, ks, Precision(5))
    && a.precision10 == Figure(scale, ids, q.relevant, ks, Precision(10))
    && a.hitRate == HitRate(ids, q.relevant, HitDepth(ks))
    && a.ndcg5 == Figure(scale, ids, q.relevant, ks, Ndcg(5))
    && a.ndcg10 == Figure(scale, ids, q.relevant, ks, Ndcg(10))
    && a.latencyMs == q.latencyMs
  }

  lemma FigureIsKept(scale: Scale, ids: seq<Id>, relevant: seq<Id>, ks: seq<int>, metrics: map<Metric, real>, m: Metric)
    requires IsReport(scale, ids, relevant, ks, metrics) && !m.Averaged?
    ensures Get(metrics, m) == Figure(scale, ids, relevant, ks, m)
  {
  }

  lemma FiguresAreKept(scale: Scale, ids: seq<Id>, relevant: seq<Id>, ks: seq<int>, metrics: map<Metric, real>)
    requires IsReport(scale, ids, relevant, ks, metrics)
    ensures forall m: Metric :: !m.Averaged? ==> Get(metrics, m) == Figure(scale, ids, relevant, ks, m)
    ensures Get(metrics, MeanRank) == Mrr(ids, relevant)
    ensures Get(metrics, Hits) == HitRate(ids, relevant, HitDepth(ks))
  {
    forall m: Metric | !m.Averaged? ensures Get(metrics, m) == Figure(scale, ids, relevant, ks, m) {
      FigureIsKept(scale, ids, relevant, ks, metrics, m);
    }
  }

  method EvaluateQuery(scale: Scale, strategy: Strategy, q: Query, ks: seq<int>, corpus: seq<Id>)
    returns (r: Option<Averages>)
    requires scale.Valid() && Distinct(q.relevant) && Distinct(corpus) && Possible(q.draws, q.relevant, strategy, 20, corpus)
    ensures r.Some? <==> Drawable(q, strategy)
    ensures r.Some? ==> Scores(scale, strategy, q, ks, r.value) && InUnit(r.value)
  {
    var results := Retrieve(q.relevant, strategy, 20, corpus, q.draws);
    if results.None? {
      return None;
    }
    var ids := Ids(results.value);
    var metrics := ComputeAllMetrics(scale, ids, q.relevant, ks);
    QueryScoresInUnit(scale, ids, q.relevant, ks, metrics, q.latencyMs);
    FiguresAreKept(scale, ids, q.relevant, ks, metrics);
    hide Get, Figure, Mrr, HitRate, IsReport, Delivers;
    return Some(QueryScores(metrics, q.latencyMs));
  }

  /** The picked relevant ids fit into the twenty results. */
  predicate Drawable(q: Query, strategy: Strategy) {
    NumToPick(|q.relevant|, ProfileOf(strategy).recallBias) <= 20
  }

  /** Evaluating one strategy on a data set: twenty results per query. Every query that can be
      drawn leads to figures, averages and a composite score between zero and one. */
  method EvaluateStrategy(scale: Scale, strategy: Strategy, queries: seq<Query>, ks: seq<int>, corpus: seq<Id>)
    returns (r: Option<(seq<Averages>, Averages)>)
    requires scale.Valid() && Distinct(corpus)
    requires forall q :: q in queries ==> Distinct(q.relevant) && Possible(q.draws, q.relevant, strategy, 20, corpus)
    ensures r.Some? <==> forall q :: q in queries ==> Drawable(q, strategy)
    ensures r.Some? ==>
      && |r.value.0| == |queries| && r.value.1 == Aggregate(r.value.0)
      && (forall i :: 0 <= i < |queries| ==> Scores(scale, strategy, queries[i], ks, r.value.0[i]))
      && (forall a :: a in r.value.0 ==> InUnit(a))
      && InUnit(r.value.1) && Unit(CompositeOf(r.value.1))
  {
    hide Scores, InUnit, Drawable, Possible, Distinct, Aggregate, CompositeOf, Unit;
    var scores: seq<Averages> := [];
    for i := 0 to |queries|
      invariant |scores| == i
      invariant forall j :: 0 <= j < i ==> Scores(scale, strategy, queries[j], ks, scores[j])
      invariant forall a :: a in scores ==> InUnit(a)
      invariant forall j :: 0 <= j < i ==> Drawable(queries[j], strategy)
    {
      var score := EvaluateQuery(scale, strategy, queries[i], ks, corpus);
      if score.None? {
        return None;
      }
      scores := scores + [score.value];
    }
    AggregateInUnit(scores);
    return Some((scores, Aggregate(scores)));
  }
}
