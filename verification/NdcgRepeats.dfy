/** Exactly when NDCG without graded scores stays at one or below, for result lists that may
    repeat ids. */
module NdcgRepeats {
  import opened Reals
  import opened Sorting
  import opened RankingMetrics
  import opened NdcgBounds
  import opened MetricRelations

  /** How many results are relevant, each repetition counted. */
  function HitCount(results: seq<Id>, relevant: seq<Id>): nat {
    if results == [] then 0
    else (if results[0] in relevant then 1 else 0) + HitCount(results[1..], relevant)
  }

  lemma {:induction false} HitCountIsCount(results: seq<Id>, relevant: seq<Id>)
    ensures HitCount(results, relevant) == CountAtLeast(Relevances(results, relevant, map[]), 1.0)
    ensures HitCount(results, relevant) <= |results|
    ensures relevant == [] ==> HitCount(results, relevant) == 0
  {
    if results != [] {
      HitCountIsCount(results[1..], relevant);
      assert Relevances(results, relevant, map[])[1..] == Relevances(results[1..], relevant, map[]);
    }
  }

  lemma AtMostOne(x: real, y: real)
    requires x <= y && y > 0.0
    ensures x / y <= 1.0
  {
  }

  /** Discounted and ideal gain of ungraded results: at most, and exactly, that of so many hits
      in front. */
  lemma UngradedGains(scale: Scale, retrieved: seq<Id>, relevant: seq<Id>, k: nat)
    requires scale.Valid()
    ensures var c := HitCount(Slice(retrieved, k), relevant);
            && c <= k
            && Dcg(scale, retrieved, relevant, k, map[]) <= PerfectGain(scale, c, 0)
            && Idcg(scale, relevant, k, map[]) == PerfectGain(scale, MinNat(k, |relevant|), 0)
  {
    HitCountIsCount(Slice(retrieved, k), relevant);
    BinaryGain(scale, Relevances(Slice(retrieved, k), relevant, map[]), 0);
    IdealIsPerfect(scale, relevant, k);
  }

  lemma PerfectGainOrdered(scale: Scale, c: nat, m: nat)
    requires scale.Valid() && c <= m
    ensures PerfectGain(scale, c, 0) <= PerfectGain(scale, m, 0)
    ensures m > 0 ==> PerfectGain(scale, m, 0) > 0.0
    ensures m == 0 ==> PerfectGain(scale, m, 0) == 0.0
  {
    if c < m {
      PerfectGainGrows(scale, c, m, 0);
    }
    if m > 0 {
      PerfectGainGrows(scale, 0, m, 0);
    }
  }

  /** With no more hits than relevant ids, NDCG does not exceed one. */
  lemma FewHitsStayBelow(scale: Scale, retrieved: seq<Id>, relevant: seq<Id>, k: nat)
    requires scale.Valid() && HitCount(Slice(retrieved, k), relevant) <= |relevant|
    ensures NdcgAtK(scale, retrieved, relevant, k, map[]) <= 1.0
  {
    hide Dcg, Idcg, HitCount, PerfectGain, Scale.Valid;
    UngradedGains(scale, retrieved, relevant, k);
    PerfectGainOrdered(scale, HitCount(Slice(retrieved, k), relevant), MinNat(k, |relevant|));
    if MinNat(k, |relevant|) > 0 {
      AtMostOne(Dcg(scale, retrieved, relevant, k, map[]), Idcg(scale, relevant, k, map[]));
    }
  }

  // ----- A scale that hardly discounts -----

  /** Decreases from one towards `1 - e`. */
  function Gentle(e: real, i: nat): real {
    1.0 - e * (1.0 - 1.0 / (i + 1) as real)
  }

  function GentleScale(e: real): Scale {
    Scale((i: nat) => Gentle(e, i), (x: real) => x)
  }

  lemma GentleBounds(e: real, i: nat)
    requires 0.0 < e < 1.0
    ensures 1.0 - e < Gentle(e, i) <= 1.0
  {
    var r := 1.0 / (i + 1) as real;
    Ratio(1.0, (i + 1) as real);
    assert r > 0.0;
    assert e * (1.0 - r) == e - e * r && e * r > 0.0 && e * (1.0 - r) >= 0.0;
  }

  lemma GentleDecreases(e: real, i: nat, j: nat)
    requires 0.0 < e < 1.0 && i < j
    ensures Gentle(e, i) > Gentle(e, j)
  {
    var r, t := 1.0 / (i + 1) as real, 1.0 / (j + 1) as real;
    Reciprocals(j + 1, i + 1);
    assert r > t;
    assert e * (r - t) > 0.0;
    assert e * (1.0 - t) - e * (1.0 - r) == e * (r - t);
  }

  lemma GentleIsValid(e: real)
    requires 0.0 < e < 1.0
    ensures GentleScale(e).Valid()
  {
    forall i: nat ensures Gentle(e, i) > 0.0 {
      GentleBounds(e, i);
    }
    forall i: nat, j: nat | i < j ensures Gentle(e, i) > Gentle(e, j) {
      GentleDecreases(e, i, j);
    }
  }

  lemma {:induction false} PerfectAtMost(e: real, c: nat, from: nat)
    requires 0.0 < e < 1.0
    ensures PerfectGain(GentleScale(e), c, from) <= c as real
  {
    if c > 0 {
      GentleBounds(e, from);
      PerfectAtMost(e, c - 1, from + 1);
    }
  }

  lemma {:induction false} HitsGainAtLeast(e: real, rels: seq<real>, from: nat)
    requires 0.0 < e < 1.0 && Binary(rels)
    ensures Gain(GentleScale(e), rels, from) >= CountAtLeast(rels, 1.0) as real * (1.0 - e)
  {
    if rels != [] {
      HitsGainAtLeast(e, rels[1..], from + 1);
      GentleBounds(e, from);
      var c := CountAtLeast(rels[1..], 1.0) as real;
      assert (c + 1.0) * (1.0 - e) == c * (1.0 - e) + (1.0 - e);
    }
  }

  /** What so many hits are worth at least. */
  function HitWorth(c: nat, e: real): real {
    c as real * (1.0 - e)
  }

  /** `n + 1` hits, hardly discounted, are worth more than `n`. */
  lemma OneHitMore(n: nat, c: nat, e: real)
    requires c > n && e == 1.0 / (n + 2) as real
    ensures 0.0 < e < 1.0 && HitWorth(c, e) > n as real
  {
    var m, d, x := (n + 2) as real, 1.0 - e, c as real;
    Ratio(1.0, m);
    assert e * m == 1.0;
    assert e < 1.0 by {
      assert e * (m - 1.0) > 0.0;
      assert e * (m - 1.0) == e * m - e;
    }
    Product(x - (m - 1.0), d);
    assert (x - (m - 1.0)) * d == x * d - (m - 1.0) * d;
    assert (m - 1.0) * d == m - 1.0 - (e * m - e);
  }

  lemma ManyHitsGain(e: real, retrieved: seq<Id>, relevant: seq<Id>, k: nat)
    requires 0.0 < e < 1.0
    ensures Dcg(GentleScale(e), retrieved, relevant, k, map[]) >= HitWorth(HitCount(Slice(retrieved, k), relevant), e)
  {
    HitCountIsCount(Slice(retrieved, k), relevant);
    HitsGainAtLeast(e, Relevances(Slice(retrieved, k), relevant, map[]), 0);
    hide Gain, HitCount;
  }

  /** With more hits than relevant ids, some scale puts NDCG above one. */
  lemma ManyHitsExceed(retrieved: seq<Id>, relevant: seq<Id>, k: nat) returns (scale: Scale)
    requires HitCount(Slice(retrieved, k), relevant) > |relevant|
    ensures scale.Valid() && NdcgAtK(scale, retrieved, relevant, k, map[]) > 1.0
  {
    hide Dcg, Idcg, HitCount, PerfectGain, Scale.Valid, GentleScale, Slice, HitWorth;
    var n, c := |relevant|, HitCount(Slice(retrieved, k), relevant);
    var e := 1.0 / (n + 2) as real;
    OneHitMore(n, c, e);
    scale := GentleScale(e);
    GentleIsValid(e);
    UngradedGains(scale, retrieved, relevant, k);
    ManyHitsGain(e, retrieved, relevant, k);
    PerfectAtMost(e, n, 0);
    PerfectGainOrdered(scale, 0, n);
    HitCountIsCount(Slice(retrieved, k), relevant);
    assert n > 0 && MinNat(k, n) == n;
    AboveOne(Dcg(scale, retrieved, relevant, k, map[]), PerfectGain(scale, n, 0));
  }

  /** The exact condition on a result list, whatever the discount: NDCG@k stays at one or below
      for every scale if and only if the first `k` results hold no more hits, repetitions
      counted, than there are relevant ids; a negative depth gains nothing. */
  lemma RepeatsRangeExactly(retrieved: seq<Id>, relevant: seq<Id>, k: int)
    ensures (forall scale: Scale :: scale.Valid() ==> NdcgAtK(scale, retrieved, relevant, k, map[]) <= 1.0)
       <==> k < 0 || HitCount(Slice(retrieved, k), relevant) <= |relevant|
  {
    if k >= 0 {
      if HitCount(Slice(retrieved, k), relevant) <= |relevant| {
        forall scale: Scale | scale.Valid() ensures NdcgAtK(scale, retrieved, relevant, k, map[]) <= 1.0 {
          FewHitsStayBelow(scale, retrieved, relevant, k);
        }
      } else {
        var scale := ManyHitsExceed(retrieved, relevant, k);
      }
    }
  }
}
