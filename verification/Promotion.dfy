/** Moving relevant results earlier never lowers a metric. */
module Promotion {
  import opened Reals
  import opened RankingMetrics
  import opened NdcgBounds
  import opened MetricRelations

  /** How many of the first `n` results are relevant. */
  function HitsUpTo(results: seq<Id>, relevant: seq<Id>, n: nat): nat
    requires n <= |results|
  {
    if n == 0 then 0 else HitsUpTo(results, relevant, n - 1) + if results[n - 1] in relevant then 1 else 0
  }

  /** At every depth, `b` has found at least as many relevant results as `a`. */
  ghost predicate NoLater(a: seq<Id>, b: seq<Id>, relevant: seq<Id>) {
    |a| == |b| && forall n :: 0 <= n <= |a| ==> HitsUpTo(a, relevant, n) <= HitsUpTo(b, relevant, n)
  }

  // ----- Moving one result -----

  lemma {:induction false} HitsOfPrefix(p: seq<Id>, q: seq<Id>, relevant: seq<Id>, n: nat)
    requires n <= |p|
    ensures HitsUpTo(p + q, relevant, n) == HitsUpTo(p, relevant, n)
  {
    if n > 0 {
      HitsOfPrefix(p, q, relevant, n - 1);
    }
  }

  lemma {:induction false} HitsBeyond(p: seq<Id>, q: seq<Id>, relevant: seq<Id>, n: nat)
    requires n <= |q|
    ensures HitsUpTo(p + q, relevant, |p| + n) == HitsUpTo(p, relevant, |p|) + HitsUpTo(q, relevant, n)
  {
    if n == 0 {
      HitsOfPrefix(p, q, relevant, |p|);
    } else {
      HitsBeyond(p, q, relevant, n - 1);
      assert (p + q)[|p| + n - 1] == q[n - 1];
    }
  }

  lemma {:induction false} NoHits(mid: seq<Id>, relevant: seq<Id>, n: nat)
    requires n <= |mid| && forall i :: 0 <= i < |mid| ==> mid[i] !in relevant
    ensures HitsUpTo(mid, relevant, n) == 0
  {
    if n > 0 {
      NoHits(mid, relevant, n - 1);
    }
  }

  /** Moving a relevant result forward past irrelevant ones. */
  lemma PromotionIsNoLater(front: seq<Id>, mid: seq<Id>, hit: Id, back: seq<Id>, relevant: seq<Id>)
    requires hit in relevant && forall i :: 0 <= i < |mid| ==> mid[i] !in relevant
    ensures NoLater(front + (mid + [hit] + back), front + ([hit] + mid + back), relevant)
  {
    var a, b := mid + [hit] + back, [hit] + mid + back;
    forall n | 0 <= n <= |front + a|
      ensures HitsUpTo(front + a, relevant, n) <= HitsUpTo(front + b, relevant, n)
    {
      if n <= |front| {
        HitsOfPrefix(front, a, relevant, n);
        HitsOfPrefix(front, b, relevant, n);
      } else {
        HitsBeyond(front, a, relevant, n - |front|);
        HitsBeyond(front, b, relevant, n - |front|);
        TailHits(mid, hit, back, relevant, n - |front|);
      }
    }
  }

  lemma TailHits(mid: seq<Id>, hit: Id, back: seq<Id>, relevant: seq<Id>, n: nat)
    requires hit in relevant && forall i :: 0 <= i < |mid| ==> mid[i] !in relevant
    requires n <= |mid| + 1 + |back|
    ensures HitsUpTo(mid + [hit] + back, relevant, n) <= HitsUpTo([hit] + mid + back, relevant, n)
  {
    var x, y := mid + [hit], [hit] + mid;
    NoHits(mid, relevant, |mid|);
    HitsBeyond(mid, [hit], relevant, 1);
    HitsBeyond([hit], mid, relevant, |mid|);
    assert HitsUpTo([hit], relevant, 0) == 0 && HitsUpTo([hit], relevant, 1) == 1;
    if n <= |mid| {
      HitsOfPrefix(x, back, relevant, n);
      HitsOfPrefix(mid, [hit], relevant, n);
      NoHits(mid, relevant, n);
    } else {
      HitsBeyond(x, back, relevant, n - |x|);
      HitsBeyond(y, back, relevant, n - |y|);
    }
  }

  // ----- Set-based metrics -----

  /** For duplicate-free results, the found ids are counted by depth. */
  lemma {:induction false} FoundCountsHits(results: seq<Id>, relevant: seq<Id>, n: nat)
    requires n <= |results| && Distinct(results)
    ensures |set id | id in results[..n] && id in relevant| == HitsUpTo(results, relevant, n)
  {
    if n == 0 {
      assert (set id | id in results[..n] && id in relevant) == {};
    } else {
      FoundCountsHits(results, relevant, n - 1);
      FoundStep(results, relevant, n);
    }
  }

  lemma FoundStep(results: seq<Id>, relevant: seq<Id>, n: nat)
    requires 1 <= n <= |results| && Distinct(results)
    ensures var before := set id | id in results[..n - 1] && id in relevant;
            var found := set id | id in results[..n] && id in relevant;
            |found| == |before| + if results[n - 1] in relevant then 1 else 0
  {
    var last := results[n - 1];
    var before := set id | id in results[..n - 1] && id in relevant;
    assert results[..n] == results[..n - 1] + [last];
    assert last !in results[..n - 1];
    assert (set id | id in results[..n] && id in relevant) == if last in relevant then before + {last} else before;
  }

  lemma FoundNoFewer(a: seq<Id>, b: seq<Id>, relevant: seq<Id>, k: int)
    requires Distinct(a) && Distinct(b) && NoLater(a, b, relevant)
    ensures |Found(a, relevant, k)| <= |Found(b, relevant, k)|
  {
    var n := |Slice(a, k)|;
    FoundCountsHits(a, relevant, n);
    FoundCountsHits(b, relevant, n);
    assert Found(a, relevant, k) == set id | id in a[..n] && id in relevant;
    assert Found(b, relevant, k) == set id | id in b[..n] && id in relevant;
  }

  /** Where no fewer ids are found, recall and hit rate are no lower; nor is precision, except at
      a negative depth, where finding more lowers it. */
  lemma CountMetricsNoLower(a: seq<Id>, b: seq<Id>, relevant: seq<Id>, k: int)
    requires |Found(a, relevant, k)| <= |Found(b, relevant, k)|
    ensures RecallAtK(a, relevant, k) <= RecallAtK(b, relevant, k)
    ensures HitRate(a, relevant, k) <= HitRate(b, relevant, k)
    ensures PrecisionAtK(a, relevant, k) <= PrecisionAtK(b, relevant, k)
       <==> k >= 0 || |Found(a, relevant, k)| == |Found(b, relevant, k)|
  {
    var x, y := |Found(a, relevant, k)|, |Found(b, relevant, k)|;
    if relevant != [] {
      CountGrows(x, y, relevant);
    }
    FoundNonEmpty(a, relevant, k);
    FoundNonEmpty(b, relevant, k);
    if k > 0 {
      QuotientMonotone(x as real, y as real, k as real);
    } else if k < 0 {
      NegativeQuotient((y - x) as real, k as real);
      QuotientOfSum(y as real, x as real, k as real);
    }
  }

  /** The set metrics of two duplicate-free result lists, one of which finds relevant ids no later. */
  lemma SetMetricsNoLower(a: seq<Id>, b: seq<Id>, relevant: seq<Id>, k: int)
    requires Distinct(a) && Distinct(b) && NoLater(a, b, relevant)
    ensures RecallAtK(a, relevant, k) <= RecallAtK(b, relevant, k)
    ensures HitRate(a, relevant, k) <= HitRate(b, relevant, k)
    ensures PrecisionAtK(a, relevant, k) <= PrecisionAtK(b, relevant, k)
       <==> k >= 0 || |Found(a, relevant, k)| == |Found(b, relevant, k)|
  {
    FoundNoFewer(a, b, relevant, k);
    CountMetricsNoLower(a, b, relevant, k);
  }

  /** With duplicates or without, moving a relevant id forward past irrelevant ones loses none
      of the ids found at any depth. */
  lemma PromotionFindsNoFewer(front: seq<Id>, mid: seq<Id>, hit: Id, back: seq<Id>, relevant: seq<Id>, k: int)
    requires hit in relevant && forall i :: 0 <= i < |mid| ==> mid[i] !in relevant
    ensures Found(front + (mid + [hit] + back), relevant, k) <= Found(front + ([hit] + mid + back), relevant, k)
  {
    var a, b := front + (mid + [hit] + back), front + ([hit] + mid + back);
    var n := |Slice(a, k)|;
    forall id | id in a[..n] && id in relevant ensures id in b[..n] {
      var i :| 0 <= i < n && a[i] == id;
      assert i < |front| ==> b[i] == id;
      assert i == |front| + |mid| ==> b[|front|] == id;
      assert i > |front| + |mid| ==> b[i] == id;
    }
  }

  // ----- Reciprocal rank -----

  lemma {:induction false} HitsFromFirst(results: seq<Id>, relevant: seq<Id>, n: nat)
    requires n <= |results|
    ensures HitsUpTo(results, relevant, n) > 0 <==> FirstHit(results, relevant) < n
  {
    if n > 0 {
      HitsFromFirst(results, relevant, n - 1);
    }
  }

  lemma MrrNoLower(a: seq<Id>, b: seq<Id>, relevant: seq<Id>)
    requires NoLater(a, b, relevant)
    ensures Mrr(a, relevant) <= Mrr(b, relevant)
  {
    var i, j := FirstHit(a, relevant), FirstHit(b, relevant);
    if i < |a| {
      HitsFromFirst(a, relevant, i + 1);
      HitsFromFirst(b, relevant, i + 1);
      Reciprocals(j + 1, i + 1);
    } else if j < |b| {
      assert 1.0 / (j + 1) as real > 0.0;
    }
  }

  // ----- NDCG -----

  /** Summation by parts with a head start of `ahead` hits: if `b` together with its head start
      leads `a` at every depth, it also gains at least as much, the head start being worth the
      discount of the current position. */
  lemma {:induction false} LeadGains(scale: Scale, a: seq<Id>, b: seq<Id>, relevant: seq<Id>, from: nat, ahead: nat)
    requires scale.Valid() && |a| == |b|
    requires forall n :: 0 <= n <= |a| ==> HitsUpTo(a, relevant, n) <= HitsUpTo(b, relevant, n) + ahead
    ensures Gain(scale, Relevances(a, relevant, map[]), from)
         <= Gain(scale, Relevances(b, relevant, map[]), from) + Worth(ahead, scale.discount(from))
  {
    if a != [] {
      hide HitsUpTo, Gain, Relevances, Scale.Valid, Worth;
      var x, y := a[0] in relevant, b[0] in relevant;
      var next := NextLead(ahead, x, y);
      LeadOfTail(a, b, relevant, ahead);
      LeadGains(scale, a[1..], b[1..], relevant, from + 1, next);
      HeadGain(scale, a, relevant, from);
      HeadGain(scale, b, relevant, from);
      DiscountsFall(scale, from);
      LeadStep(scale.discount(from), scale.discount(from + 1), ahead, x, y,
        Gain(scale, Relevances(a[1..], relevant, map[]), from + 1), Gain(scale, Relevances(b[1..], relevant, map[]), from + 1));
    } else {
      Product(ahead as real, scale.discount(from));
    }
  }

  /** What a lead of so many hits is worth at a discount. */
  function Worth(ahead: int, discount: real): real {
    ahead as real * discount
  }

  /** The lead behind a first result that is, or is not, a hit in either list. */
  function NextLead(ahead: int, x: bool, y: bool): int {
    ahead + (if y then 1 else 0) - (if x then 1 else 0)
  }

  lemma DiscountsFall(scale: Scale, from: nat)
    requires scale.Valid()
    ensures scale.discount(from) > scale.discount(from + 1) > 0.0
  {
  }

  lemma LeadOfTail(a: seq<Id>, b: seq<Id>, relevant: seq<Id>, ahead: nat)
    requires |a| == |b| && a != []
    requires forall n :: 0 <= n <= |a| ==> HitsUpTo(a, relevant, n) <= HitsUpTo(b, relevant, n) + ahead
    ensures var next := NextLead(ahead, a[0] in relevant, b[0] in relevant);
            && next >= 0
            && forall n :: 0 <= n <= |a| - 1 ==> HitsUpTo(a[1..], relevant, n) <= HitsUpTo(b[1..], relevant, n) + next
  {
    HitsUpToOne(a, relevant);
    HitsUpToOne(b, relevant);
    assert HitsUpTo(a, relevant, 1) <= HitsUpTo(b, relevant, 1) + ahead;
    var next := ahead + (if b[0] in relevant then 1 else 0) - (if a[0] in relevant then 1 else 0);
    forall n | 0 <= n <= |a| - 1
      ensures HitsUpTo(a[1..], relevant, n) <= HitsUpTo(b[1..], relevant, n) + next
    {
      HitsOfTail(a, relevant, n);
      HitsOfTail(b, relevant, n);
      assert HitsUpTo(a, relevant, n + 1) <= HitsUpTo(b, relevant, n + 1) + ahead;
    }
  }

  lemma HitsUpToOne(s: seq<Id>, relevant: seq<Id>)
    requires s != []
    ensures HitsUpTo(s, relevant, 1) == if s[0] in relevant then 1 else 0
  {
    assert HitsUpTo(s, relevant, 0) == 0;
  }

  lemma HitsOfTail(s: seq<Id>, relevant: seq<Id>, n: nat)
    requires n <= |s| - 1
    ensures HitsUpTo(s, relevant, n + 1) == (if s[0] in relevant then 1 else 0) + HitsUpTo(s[1..], relevant, n)
  {
    HitsBeyond([s[0]], s[1..], relevant, n);
    assert [s[0]] + s[1..] == s;
    HitsUpToOne([s[0]], relevant);
  }

  lemma HeadGain(scale: Scale, s: seq<Id>, relevant: seq<Id>, from: nat)
    requires scale.Valid() && s != []
    ensures Gain(scale, Relevances(s, relevant, map[]), from)
         == (if s[0] in relevant then scale.discount(from) else 0.0)
            + Gain(scale, Relevances(s[1..], relevant, map[]), from + 1)
  {
    BinaryTerms(scale, from);
    assert Relevances(s, relevant, map[])[1..] == Relevances(s[1..], relevant, map[]);
  }

  /** A lead carried one position further is worth no more than it was. */
  lemma LeadStep(d: real, e: real, ahead: nat, x: bool, y: bool, ga: real, gb: real)
    requires d >= e > 0.0
    requires var next := NextLead(ahead, x, y); next >= 0 && ga <= gb + Worth(next, e)
    ensures (if x then d else 0.0) + ga <= (if y then d else 0.0) + gb + Worth(ahead, d)
  {
    var next := NextLead(ahead, x, y);
    var n, h := next as real, ahead as real;
    assert n * (d - e) >= 0.0;
    assert n == h + (if y then 1.0 else 0.0) - (if x then 1.0 else 0.0);
    assert n * d == h * d + (if y then d else 0.0) - (if x then d else 0.0);
  }

  lemma NdcgNoLower(scale: Scale, a: seq<Id>, b: seq<Id>, relevant: seq<Id>, k: int)
    requires scale.Valid() && NoLater(a, b, relevant)
    ensures NdcgAtK(scale, a, relevant, k, map[]) <= NdcgAtK(scale, b, relevant, k, map[])
  {
    if k >= 0 {
      var s, t := Slice(a, k), Slice(b, k);
      forall n | 0 <= n <= |s| ensures HitsUpTo(s, relevant, n) <= HitsUpTo(t, relevant, n) + 0 {
        HitsOfPrefix(s, a[|s|..], relevant, n);
        HitsOfPrefix(t, b[|t|..], relevant, n);
        assert s + a[|s|..] == a && t + b[|t|..] == b;
      }
      LeadGains(scale, s, t, relevant, 0, 0);
      IdealIsPerfect(scale, relevant, k);
      PerfectGainNonNegative(scale, MinNat(k, |relevant|), 0);
      var ideal := Idcg(scale, relevant, k, map[]);
      if ideal != 0.0 {
        QuotientMonotone(Dcg(scale, a, relevant, k, map[]), Dcg(scale, b, relevant, k, map[]), ideal);
      }
    }
  }

  // ----- NDCG with graded relevance -----

  lemma {:induction false} GainOfConcat(scale: Scale, a: seq<real>, b: seq<real>, from: nat)
    ensures Gain(scale, a + b, from) == Gain(scale, a, from) + Gain(scale, b, from + |a|)
  {
    if a == [] {
      assert a + b == b;
    } else {
      GainOfConcat(scale, a[1..], b, from + 1);
      assert (a + b)[1..] == a[1..] + b;
    }
  }

  lemma GainOfCons(scale: Scale, x: real, s: seq<real>, from: nat)
    ensures Gain(scale, [x] + s, from) == scale.Term(x, from) + Gain(scale, s, from + 1)
  {
    assert ([x] + s)[1..] == s;
  }

  /** Of the first `n` relevances, moving a largest one to the front gains no less. */
  lemma {:induction false} MoveToFrontGains(scale: Scale, mid: seq<real>, x: real, back: seq<real>, n: nat, from: nat)
    requires scale.Valid() && n <= |mid| + 1 + |back|
    requires forall i :: 0 <= i < |mid| ==> mid[i] <= x
    ensures Gain(scale, (mid + [x] + back)[..n], from) <= Gain(scale, ([x] + mid + back)[..n], from)
  {
    if mid == [] {
      assert mid + [x] == [x] + mid;
    } else if n == 1 {
      assert (mid + [x] + back)[..1] == [mid[0]] && ([x] + mid + back)[..1] == [x];
      SingleGain(scale, mid[0], from);
      SingleGain(scale, x, from);
      TermMonotone(scale, mid[0], x, from);
    } else if n > 1 {
      hide Gain, Scale.Term, Scale.Valid;
      var m, rest := mid[0], mid[1..];
      MoveToFrontGains(scale, rest, x, back, n - 1, from + 1);
      assert (mid + [x] + back)[..n] == [m] + (rest + [x] + back)[..n - 1];
      GainOfCons(scale, m, (rest + [x] + back)[..n - 1], from);
      var tail := (rest + back)[..n - 2];
      assert ([x] + rest + back)[..n - 1] == [x] + tail;
      GainOfCons(scale, x, tail, from + 1);
      assert ([x] + mid + back)[..n] == [x] + ([m] + tail);
      GainOfCons(scale, x, [m] + tail, from);
      GainOfCons(scale, m, tail, from + 1);
      SwapGains(scale, m, x, from);
    }
  }

  lemma SwapGains(scale: Scale, m: real, x: real, from: nat)
    requires scale.Valid() && m <= x
    ensures scale.Term(m, from) + scale.Term(x, from + 1) <= scale.Term(x, from) + scale.Term(m, from + 1)
  {
    Exchange(scale.gain(m), scale.gain(x), scale.discount(from), scale.discount(from + 1));
  }

  lemma MoveForwardGains(scale: Scale, front: seq<real>, mid: seq<real>, x: real, back: seq<real>, n: nat)
    requires scale.Valid() && n <= |front| + |mid| + 1 + |back|
    requires forall i :: 0 <= i < |mid| ==> mid[i] <= x
    ensures Gain(scale, (front + (mid + [x] + back))[..n], 0) <= Gain(scale, (front + ([x] + mid + back))[..n], 0)
  {
    var a, b := mid + [x] + back, [x] + mid + back;
    if n <= |front| {
      assert (front + a)[..n] == (front + b)[..n];
    } else {
      var r := n - |front|;
      assert (front + a)[..n] == front + a[..r] && (front + b)[..n] == front + b[..r];
      GainOfConcat(scale, front, a[..r], 0);
      GainOfConcat(scale, front, b[..r], 0);
      MoveToFrontGains(scale, mid, x, back, r, |front|);
    }
  }

  lemma RelevancesOfMove(front: seq<Id>, one: seq<Id>, two: seq<Id>, back: seq<Id>, relevant: seq<Id>, scores: map<Id, real>, k: nat)
    ensures var all := front + (one + two + back);
            var r := (s: seq<Id>) => Relevances(s, relevant, scores);
            Relevances(Slice(all, k), relevant, scores)
              == (r(front) + (r(one) + r(two) + r(back)))[..|Slice(all, k)|]
  {
  }

  /** Graded scores of any sign: as long as the ideal gain is positive, moving a result forward
      past results of no greater relevance never lowers NDCG, at any depth. */
  lemma GradedPromotionNoLower(
    scale: Scale, front: seq<Id>, mid: seq<Id>, hit: Id, back: seq<Id>, relevant: seq<Id>, k: int, scores: map<Id, real>)
    requires scale.Valid() && Idcg(scale, relevant, k, scores) > 0.0
    requires forall i :: 0 <= i < |mid| ==> Relevance(mid[i], relevant, scores) <= Relevance(hit, relevant, scores)
    ensures NdcgAtK(scale, front + (mid + [hit] + back), relevant, k, scores)
         <= NdcgAtK(scale, front + ([hit] + mid + back), relevant, k, scores)
  {
    if k >= 0 {
      var a, b := front + (mid + [hit] + back), front + ([hit] + mid + back);
      var x := Relevance(hit, relevant, scores);
      RelevancesOfMove(front, mid, [hit], back, relevant, scores, k);
      RelevancesOfMove(front, [hit], mid, back, relevant, scores, k);
      assert Relevances([hit], relevant, scores) == [x];
      MoveForwardGains(scale, Relevances(front, relevant, scores), Relevances(mid, relevant, scores), x,
        Relevances(back, relevant, scores), |Slice(a, k)|);
      QuotientMonotone(Dcg(scale, a, relevant, k, scores), Dcg(scale, b, relevant, k, scores), Idcg(scale, relevant, k, scores));
    }
  }

  // ----- All metrics, and the composite score -----

  /** The metrics that read a negative depth as any other: all but precision. */
  predicate Safe(m: Metric) {
    m.Precision? ==> m.k >= 0
  }

  /** Finding no fewer ids at any depth, and relevant results no later, raises or keeps every
      reported metric. */
  lemma ValueNoLower(scale: Scale, a: seq<Id>, b: seq<Id>, relevant: seq<Id>, ks: seq<int>, m: Metric)
    requires scale.Valid() && NoLater(a, b, relevant)
    requires forall k :: |Found(a, relevant, k)| <= |Found(b, relevant, k)|
    requires Reported(ks, m) && Safe(m)
    ensures Value(scale, a, relevant, ks, m) <= Value(scale, b, relevant, ks, m)
  {
    match m
    case Recall(k) => CountMetricsNoLower(a, b, relevant, k);
    case Precision(k) => CountMetricsNoLower(a, b, relevant, k);
    case Ndcg(k) => NdcgNoLower(scale, a, b, relevant, k);
    case MeanRank => MrrNoLower(a, b, relevant);
    case Hits => CountMetricsNoLower(a, b, relevant, HitDepth(ks));
  }

  /** Promoting a relevant result past irrelevant ones never lowers the composite score of the
      query, with duplicates or without, whatever the depths and the non-negative weights, as
      long as no weight is put on precision at a negative depth. */
  lemma PromotionNeverLowersScore(
    scale: Scale, front: seq<Id>, mid: seq<Id>, hit: Id, back: seq<Id>, relevant: seq<Id>, ks: seq<int>,
    before: map<Metric, real>, after: map<Metric, real>, weights: seq<(Metric, real)>)
    requires scale.Valid() && NonNegativeWeights(weights) && forall i :: 0 <= i < |weights| ==> Safe(weights[i].0)
    requires hit in relevant && forall i :: 0 <= i < |mid| ==> mid[i] !in relevant
    requires IsReport(scale, front + (mid + [hit] + back), relevant, ks, before)
    requires IsReport(scale, front + ([hit] + mid + back), relevant, ks, after)
    ensures forall m :: m in before && Safe(m) ==> m in after && before[m] <= after[m]
    ensures CompositeScore(before, weights) <= CompositeScore(after, weights)
  {
    var a, b := front + (mid + [hit] + back), front + ([hit] + mid + back);
    PromotionIsNoLater(front, mid, hit, back, relevant);
    forall k ensures |Found(a, relevant, k)| <= |Found(b, relevant, k)| {
      PromotionFindsNoFewer(front, mid, hit, back, relevant, k);
      SubsetIsSmaller(Found(a, relevant, k), Found(b, relevant, k));
    }
    forall m | m in before && Safe(m) ensures m in after && before[m] <= after[m] {
      assert Reported(ks, m);
      ValueNoLower(scale, a, b, relevant, ks, m);
    }
    forall i | 0 <= i < |weights|
      ensures Lookup(before, weights[i].0) <= Lookup(after, weights[i].0)
    {
      LookupNoLower(scale, b, relevant, ks, before, after, weights[i].0);
    }
    CompositeMonotone(before, after, weights);
  }

  lemma LookupNoLower(scale: Scale, b: seq<Id>, relevant: seq<Id>, ks: seq<int>,
                      before: map<Metric, real>, after: map<Metric, real>, m: Metric)
    requires Safe(m) && forall x :: x in before <==> Reported(ks, x)
    requires forall x :: x in before && Safe(x) ==> x in after && before[x] <= after[x]
    requires IsReport(scale, b, relevant, ks, after)
    ensures Lookup(before, m) <= Lookup(after, m)
  {
    assert !Reported(ks, Averaged(m));
    assert Averaged(m) !in before && Averaged(m) !in after;
    if m in after {
      assert Reported(ks, m);
    }
  }
}
