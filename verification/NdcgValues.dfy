/** What NDCG is, number by number: sums over positions, without the recursion of the gain. */
module NdcgValues {
  import opened Sorting
  import opened RankingMetrics
  import opened NdcgBounds

  // ----- Sums over positions -----

  /** The discounts of the first `n` positions. */
  function DiscountSum(scale: Scale, n: nat): real {
    if n == 0 then 0.0 else DiscountSum(scale, n - 1) + scale.discount(n - 1)
  }

  /** The discounts of those of the first `n` positions that hold a relevant result. */
  function HitDiscounts(scale: Scale, retrieved: seq<Id>, relevant: seq<Id>, n: nat): real
    requires n <= |retrieved|
  {
    if n == 0 then 0.0
    else HitDiscounts(scale, retrieved, relevant, n - 1)
         + if retrieved[n - 1] in relevant then scale.discount(n - 1) else 0.0
  }

  /** Gain times discount of the first `n` relevances. */
  function WeightedGains(scale: Scale, rels: seq<real>, n: nat): real
    requires n <= |rels|
  {
    if n == 0 then 0.0 else WeightedGains(scale, rels, n - 1) + scale.gain(rels[n - 1]) * scale.discount(n - 1)
  }

  lemma {:induction false} GainOverPositions(scale: Scale, rels: seq<real>, n: nat)
    requires n <= |rels|
    ensures Gain(scale, rels[..n], 0) == WeightedGains(scale, rels, n)
  {
    if n > 0 {
      GainOverPositions(scale, rels, n - 1);
      GainStep(scale, rels, n - 1);
      hide Gain;
    }
  }

  lemma DcgOverPositions(scale: Scale, retrieved: seq<Id>, relevant: seq<Id>, k: nat, scores: map<Id, real>)
    ensures Dcg(scale, retrieved, relevant, k, scores)
         == WeightedGains(scale, Relevances(retrieved, relevant, scores), MinNat(k, |retrieved|))
  {
    var rels, n := Relevances(retrieved, relevant, scores), MinNat(k, |retrieved|);
    assert Relevances(Slice(retrieved, k), relevant, scores) == rels[..n];
    GainOverPositions(scale, rels, n);
  }

  /** The relevances of the relevant ids, best first. */
  ghost predicate BestFirst(best: seq<real>, relevant: seq<Id>, scores: map<Id, real>) {
    SortedBy(Descending, best) && multiset(best) == multiset(Relevances(relevant, relevant, scores))
  }

  lemma BestFirstIsIdeal(best: seq<real>, relevant: seq<Id>, scores: map<Id, real>)
    requires BestFirst(best, relevant, scores)
    ensures best == Ideal(relevant, scores) && |best| == |relevant|
  {
    var rels := Relevances(relevant, relevant, scores);
    hide SortedBy, TiesAreEqual;
    SortPermutes(Descending, rels);
    DescendingSorts(rels);
    DescendingTies(best);
    SortedIsUnique(Descending, best, Ideal(relevant, scores));
  }

  lemma IdcgOverPositions(scale: Scale, relevant: seq<Id>, k: nat, scores: map<Id, real>, best: seq<real>)
    requires BestFirst(best, relevant, scores)
    ensures |best| == |relevant|
    ensures Idcg(scale, relevant, k, scores) == WeightedGains(scale, best, MinNat(k, |best|))
  {
    BestFirstIsIdeal(best, relevant, scores);
    hide BestFirst, Ideal;
    GainOverPositions(scale, best, MinNat(k, |best|));
    assert Slice(best, k) == best[..MinNat(k, |best|)];
  }

  lemma QuotientTimes(x: real, y: real, q: real)
    requires q == if y == 0.0 then 0.0 else x / y
    ensures y == 0.0 ==> q == 0.0
    ensures y != 0.0 ==> q * y == x
  {
  }

  lemma NdcgTimesIdeal(scale: Scale, retrieved: seq<Id>, relevant: seq<Id>, k: int, scores: map<Id, real>)
    ensures var ndcg, ideal := NdcgAtK(scale, retrieved, relevant, k, scores), Idcg(scale, relevant, k, scores);
            && (ideal == 0.0 ==> ndcg == 0.0)
            && (ideal != 0.0 ==> ndcg * ideal == Dcg(scale, retrieved, relevant, k, scores))
  {
    hide Dcg, Idcg;
    QuotientTimes(Dcg(scale, retrieved, relevant, k, scores), Idcg(scale, relevant, k, scores),
      NdcgAtK(scale, retrieved, relevant, k, scores));
  }

  /** For any scores: NDCG@k times the discounted gains of the best `k` relevances is the
      discounted gains of the first `k` results; it is zero when the former are. */
  lemma NdcgClosedForm(
    scale: Scale, retrieved: seq<Id>, relevant: seq<Id>, k: nat, scores: map<Id, real>, best: seq<real>)
    requires BestFirst(best, relevant, scores)
    ensures |best| == |relevant|
    ensures var ndcg := NdcgAtK(scale, retrieved, relevant, k, scores);
            var ideal := WeightedGains(scale, best, MinNat(k, |best|));
            && (ideal == 0.0 ==> ndcg == 0.0)
            && (ideal != 0.0 ==>
                 ndcg * ideal == WeightedGains(scale, Relevances(retrieved, relevant, scores), MinNat(k, |retrieved|)))
  {
    hide *;
    IdcgOverPositions(scale, relevant, k, scores, best);
    DcgOverPositions(scale, retrieved, relevant, k, scores);
    NdcgTimesIdeal(scale, retrieved, relevant, k, scores);
  }

  // ----- Without graded scores -----

  lemma {:induction false} OnesOverPositions(scale: Scale, rels: seq<real>, n: nat)
    requires scale.Valid() && n <= |rels| && forall i :: 0 <= i < n ==> rels[i] == 1.0
    ensures WeightedGains(scale, rels, n) == DiscountSum(scale, n)
  {
    if n > 0 {
      OnesOverPositions(scale, rels, n - 1);
    }
  }

  lemma {:induction false} HitsOverPositions(scale: Scale, retrieved: seq<Id>, relevant: seq<Id>, n: nat)
    requires scale.Valid() && n <= |retrieved|
    ensures WeightedGains(scale, Relevances(retrieved, relevant, map[]), n) == HitDiscounts(scale, retrieved, relevant, n)
  {
    if n > 0 {
      HitsOverPositions(scale, retrieved, relevant, n - 1);
    }
  }

  lemma {:induction false} DiscountSumPositive(scale: Scale, n: nat)
    requires scale.Valid()
    ensures DiscountSum(scale, n) >= 0.0 && (n > 0 ==> DiscountSum(scale, n) > 0.0)
  {
    if n > 0 {
      DiscountSumPositive(scale, n - 1);
    }
  }

  lemma {:induction false} NoHitDiscounts(scale: Scale, retrieved: seq<Id>, relevant: seq<Id>, n: nat)
    requires n <= |retrieved| && forall i :: 0 <= i < n ==> retrieved[i] !in relevant
    ensures HitDiscounts(scale, retrieved, relevant, n) == 0.0
  {
    if n > 0 {
      NoHitDiscounts(scale, retrieved, relevant, n - 1);
    }
  }

  lemma OnesAreBestFirst(relevant: seq<Id>)
    ensures BestFirst(Relevances(relevant, relevant, map[]), relevant, map[])
    ensures forall i :: 0 <= i < |relevant| ==> Relevances(relevant, relevant, map[])[i] == 1.0
  {
  }

  /** With nothing relevant, or no depth, there are no hits to discount. */
  lemma NoHitsWithoutDepth(scale: Scale, retrieved: seq<Id>, relevant: seq<Id>, k: nat)
    requires MinNat(k, |relevant|) == 0
    ensures HitDiscounts(scale, retrieved, relevant, MinNat(k, |retrieved|)) == 0.0
  {
    NoHitDiscounts(scale, retrieved, relevant, MinNat(k, |retrieved|));
  }

  /** Without graded scores: NDCG@k times the first `min(k, |relevant|)` discounts is the sum of
      the discounts at those of the first `k` positions that hold a relevant result. */
  lemma UngradedClosedForm(scale: Scale, retrieved: seq<Id>, relevant: seq<Id>, k: nat)
    requires scale.Valid()
    ensures NdcgAtK(scale, retrieved, relevant, k, map[]) * DiscountSum(scale, MinNat(k, |relevant|))
         == HitDiscounts(scale, retrieved, relevant, MinNat(k, |retrieved|))
  {
    hide NdcgAtK, WeightedGains, HitDiscounts, Relevances, BestFirst, DiscountSum, Scale.Valid;
    var best := Relevances(relevant, relevant, map[]);
    var m := MinNat(k, |relevant|);
    OnesAreBestFirst(relevant);
    NdcgClosedForm(scale, retrieved, relevant, k, map[], best);
    OnesOverPositions(scale, best, m);
    HitsOverPositions(scale, retrieved, relevant, MinNat(k, |retrieved|));
    DiscountSumPositive(scale, m);
    if m == 0 {
      NoHitsWithoutDepth(scale, retrieved, relevant, k);
    }
  }

  lemma {:induction false} OneHitDiscount(scale: Scale, retrieved: seq<Id>, relevant: seq<Id>, i: nat, n: nat)
    requires i < n <= |retrieved|
    requires forall j :: 0 <= j < n ==> (retrieved[j] in relevant <==> j == i)
    ensures HitDiscounts(scale, retrieved, relevant, n) == scale.discount(i)
  {
    if n == i + 1 {
      NoHitDiscounts(scale, retrieved, relevant, i);
    } else {
      OneHitDiscount(scale, retrieved, relevant, i, n - 1);
    }
  }

  /** A single relevant id that occurs once, within the depth, scores the discount of its place. */
  lemma SingleRelevantScore(scale: Scale, retrieved: seq<Id>, id: Id, i: nat, k: nat)
    requires scale.Valid() && i < |retrieved| && i < k
    requires forall j :: 0 <= j < |retrieved| ==> (retrieved[j] == id <==> j == i)
    ensures NdcgAtK(scale, retrieved, [id], k, map[]) == scale.discount(i)
  {
    hide NdcgAtK, HitDiscounts;
    UngradedClosedForm(scale, retrieved, [id], k);
    OneHitDiscount(scale, retrieved, [id], i, MinNat(k, |retrieved|));
    assert DiscountSum(scale, 0) == 0.0;
    assert DiscountSum(scale, 1) == 1.0;
  }
}
