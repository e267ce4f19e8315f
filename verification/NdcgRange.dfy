/** Exactly when NDCG keeps to its documented range, for all relevant ids and scores. */
module NdcgRange {
  import opened Sorting
  import opened RankingMetrics
  import opened NdcgBounds

  /** All duplicate-free result lists score between zero and one at every depth. */
  ghost predicate AlwaysWithinUnit(scale: Scale, relevant: seq<Id>, scores: map<Id, real>) {
    forall retrieved, k :: Distinct(retrieved) ==> 0.0 <= NdcgAtK(scale, retrieved, relevant, k, scores) <= 1.0
  }

  /** A best-first ordering of the ids, built the way sorting their relevances builds it. */
  function InsertId(id: Id, ids: seq<Id>, relevant: seq<Id>, scores: map<Id, real>): (r: seq<Id>)
    ensures |r| == |ids| + 1
  {
    if ids == [] || Descending(Relevance(id, relevant, scores), Relevance(ids[0], relevant, scores)) then [id] + ids
    else [ids[0]] + InsertId(id, ids[1..], relevant, scores)
  }

  function BestFirst(ids: seq<Id>, relevant: seq<Id>, scores: map<Id, real>): (r: seq<Id>)
    ensures |r| == |ids|
  {
    if ids == [] then [] else InsertId(ids[0], BestFirst(ids[1..], relevant, scores), relevant, scores)
  }

  lemma {:induction false} InsertIdPermutes(id: Id, ids: seq<Id>, relevant: seq<Id>, scores: map<Id, real>)
    ensures multiset(InsertId(id, ids, relevant, scores)) == multiset{id} + multiset(ids)
  {
    hide Relevance;
    if InsertId(id, ids, relevant, scores) != [id] + ids {
      InsertIdPermutes(id, ids[1..], relevant, scores);
      assert ids == [ids[0]] + ids[1..];
    }
  }

  lemma RelevancesCons(id: Id, ids: seq<Id>, relevant: seq<Id>, scores: map<Id, real>)
    ensures Relevances([id] + ids, relevant, scores) == [Relevance(id, relevant, scores)] + Relevances(ids, relevant, scores)
  {
  }

  lemma {:induction false} InsertIdInserts(id: Id, ids: seq<Id>, relevant: seq<Id>, scores: map<Id, real>)
    ensures Relevances(InsertId(id, ids, relevant, scores), relevant, scores)
         == Insert(Descending, Relevance(id, relevant, scores), Relevances(ids, relevant, scores))
  {
    hide Relevance, Relevances;
    if InsertId(id, ids, relevant, scores) == [id] + ids {
      RelevancesCons(id, ids, relevant, scores);
    }
    if ids != [] {
      var rest := Relevances(ids[1..], relevant, scores);
      RelevancesCons(ids[0], ids[1..], relevant, scores);
      assert [ids[0]] + ids[1..] == ids;
      assert ([Relevance(ids[0], relevant, scores)] + rest)[1..] == rest;
      if !Descending(Relevance(id, relevant, scores), Relevance(ids[0], relevant, scores)) {
        InsertIdInserts(id, ids[1..], relevant, scores);
        RelevancesCons(ids[0], InsertId(id, ids[1..], relevant, scores), relevant, scores);
      }
    }
  }

  lemma {:induction false} BestFirstSorts(ids: seq<Id>, relevant: seq<Id>, scores: map<Id, real>)
    ensures multiset(BestFirst(ids, relevant, scores)) == multiset(ids)
    ensures Relevances(BestFirst(ids, relevant, scores), relevant, scores)
         == Sort(Descending, Relevances(ids, relevant, scores))
  {
    if ids != [] {
      BestFirstSorts(ids[1..], relevant, scores);
      InsertIdPermutes(ids[0], BestFirst(ids[1..], relevant, scores), relevant, scores);
      InsertIdInserts(ids[0], BestFirst(ids[1..], relevant, scores), relevant, scores);
      assert ids == [ids[0]] + ids[1..];
      assert Relevances(ids, relevant, scores)[1..] == Relevances(ids[1..], relevant, scores);
    }
  }

  /** The ideal gain is positive as soon as some relevant id has positive relevance. */
  lemma TopIsPositive(scale: Scale, relevant: seq<Id>, scores: map<Id, real>, good: Id)
    requires scale.Valid() && good in relevant && Relevance(good, relevant, scores) > 0.0
    ensures Ideal(relevant, scores) != [] && Ideal(relevant, scores)[0] > 0.0
    ensures Idcg(scale, relevant, 1, scores) > 0.0
  {
    var rels := Relevances(relevant, relevant, scores);
    var ideal := Ideal(relevant, scores);
    SortPermutes(Descending, rels);
    DescendingSorts(rels);
    var g :| 0 <= g < |relevant| && relevant[g] == good;
    assert rels[g] in multiset(ideal);
    var j :| 0 <= j < |ideal| && ideal[j] == rels[g];
    assert j > 0 ==> Descending(ideal[0], ideal[j]);
    assert Slice(ideal, 1) == [ideal[0]];
    SingleGain(scale, ideal[0], 0);
    TermMonotone(scale, 0.0, ideal[0], 0);
    BinaryTerms(scale, 0);
  }

  /** A negative score alone at the top makes NDCG negative. */
  lemma NegativeScoreBreaks(scale: Scale, relevant: seq<Id>, scores: map<Id, real>, good: Id, bad: Id)
    requires scale.Valid() && good in relevant && Relevance(good, relevant, scores) > 0.0
    requires bad in scores && scores[bad] < 0.0
    ensures Distinct([bad]) && NdcgAtK(scale, [bad], relevant, 1, scores) < 0.0
  {
    TopIsPositive(scale, relevant, scores, good);
    assert Slice([bad], 1) == [bad] && Relevances([bad], relevant, scores) == [scores[bad]];
    SingleGain(scale, scores[bad], 0);
    TermMonotone(scale, scores[bad], 0.0, 0);
    BinaryTerms(scale, 0);
    BelowZero(scale.Term(scores[bad], 0), Idcg(scale, relevant, 1, scores));
  }

  lemma BelowZero(x: real, y: real)
    requires x < 0.0 < y
    ensures x / y < 0.0
  {
  }

  /** A positive score outside the relevant set, after the ideal ordering, pushes NDCG above one. */
  lemma StrayScoreBreaks(scale: Scale, relevant: seq<Id>, scores: map<Id, real>, good: Id, stray: Id)
    requires scale.Valid() && Distinct(relevant)
    requires good in relevant && Relevance(good, relevant, scores) > 0.0
    requires forall id :: id in scores ==> scores[id] >= 0.0
    requires stray in scores && stray !in relevant && scores[stray] > 0.0
    ensures var retrieved := BestFirst(relevant, relevant, scores) + [stray];
            Distinct(retrieved) && NdcgAtK(scale, retrieved, relevant, |retrieved|, scores) > 1.0
  {
    var best := BestFirst(relevant, relevant, scores);
    var retrieved := best + [stray];
    var ideal := Ideal(relevant, scores);
    var n := |retrieved|;
    BestFirstSorts(relevant, relevant, scores);
    DistinctIsOrderless(relevant);
    DistinctIsOrderless(best);
    assert stray !in best by {
      assert stray !in multiset(relevant);
    }
    assert Slice(retrieved, n) == retrieved && Slice(ideal, n) == ideal;
    assert Relevances(retrieved, relevant, scores) == ideal + [scores[stray]];
    GainSnoc(scale, ideal, scores[stray], 0);
    TermMonotone(scale, 0.0, scores[stray], |ideal|);
    BinaryTerms(scale, |ideal|);
    IdealGainPositive(scale, relevant, scores, good);
    AboveOne(Gain(scale, ideal + [scores[stray]], 0), Gain(scale, ideal, 0));
  }

  lemma IdealGainPositive(scale: Scale, relevant: seq<Id>, scores: map<Id, real>, good: Id)
    requires scale.Valid() && good in relevant && Relevance(good, relevant, scores) > 0.0
    requires forall id :: id in scores ==> scores[id] >= 0.0
    ensures Gain(scale, Ideal(relevant, scores), 0) > 0.0
  {
    var ideal := Ideal(relevant, scores);
    TopIsPositive(scale, relevant, scores, good);
    SortPermutes(Descending, Relevances(relevant, relevant, scores));
    forall i | 0 <= i < |ideal| ensures ideal[i] >= 0.0 {
      assert ideal[i] in multiset(ideal);
      assert ideal[i] in Relevances(relevant, relevant, scores);
    }
    GainNonNegative(scale, ideal[1..], 1);
    TermMonotone(scale, 0.0, ideal[0], 0);
    BinaryTerms(scale, 0);
  }

  /** Whenever some relevant id has positive relevance, NDCG stays within its documented range
      for every duplicate-free result list and every depth exactly when no score is negative
      and none outside the relevant set is positive. */
  lemma GoodNeedsGraded(scale: Scale, relevant: seq<Id>, scores: map<Id, real>, good: Id)
    requires scale.Valid() && Distinct(relevant)
    requires good in relevant && Relevance(good, relevant, scores) > 0.0
    ensures AlwaysWithinUnit(scale, relevant, scores) <==> Graded(relevant, scores)
  {
    if Graded(relevant, scores) {
      forall retrieved, k | Distinct(retrieved)
        ensures 0.0 <= NdcgAtK(scale, retrieved, relevant, k, scores) <= 1.0
      {
        NdcgWithinUnit(scale, retrieved, relevant, k, scores);
      }
    } else if bad :| bad in scores && scores[bad] < 0.0 {
      NegativeScoreBreaks(scale, relevant, scores, good, bad);
    } else {
      var stray :| stray in scores && stray !in relevant && scores[stray] > 0.0;
      StrayScoreBreaks(scale, relevant, scores, good, stray);
    }
  }

  // ----- No relevant id has positive relevance -----

  /** All relevant ids share one relevance, which is not positive; unless it is zero, no
      other id scores anything. */
  ghost predicate Flat(relevant: seq<Id>, scores: map<Id, real>, c: real) {
    && c <= 0.0
    && (forall id :: id in relevant ==> Relevance(id, relevant, scores) == c)
    && (c < 0.0 ==> forall id :: id in scores && id !in relevant ==> scores[id] == 0.0)
  }

  /** The relevance of the first relevant id. */
  function FirstLevel(relevant: seq<Id>, scores: map<Id, real>): real {
    if relevant == [] then 0.0 else Relevance(relevant[0], relevant, scores)
  }

  /** `b` has a one wherever `a` has `c`, and both are zero elsewhere. */
  ghost predicate Indicates(b: seq<real>, a: seq<real>, c: real) {
    |a| == |b| && forall i :: 0 <= i < |a| ==> (a[i] == c && b[i] == 1.0) || (a[i] == 0.0 && b[i] == 0.0)
  }

  predicate Multiple(g: real, x: real, u: real) {
    x == g * u
  }

  lemma {:induction false} ScaledGain(scale: Scale, a: seq<real>, b: seq<real>, c: real, from: nat)
    requires scale.Valid() && Indicates(b, a, c)
    ensures Multiple(scale.gain(c), Gain(scale, a, from), Gain(scale, b, from))
  {
    if a != [] {
      ScaledGain(scale, a[1..], b[1..], c, from + 1);
      ScaledTerm(scale, a[0], b[0], c, from);
      hide Scale.Term, Scale.Valid, Multiple;
      ScaledSum(scale.gain(c), scale.Term(a[0], from), Gain(scale, a[1..], from + 1),
        scale.Term(b[0], from), Gain(scale, b[1..], from + 1));
    }
  }

  lemma {:induction false} NothingGained(scale: Scale, rels: seq<real>, from: nat)
    requires scale.Valid() && forall i :: 0 <= i < |rels| ==> rels[i] == 0.0
    ensures Gain(scale, rels, from) == 0.0
  {
    if rels != [] {
      NothingGained(scale, rels[1..], from + 1);
      BinaryTerms(scale, from);
    }
  }

  lemma ScaledTerm(scale: Scale, x: real, y: real, c: real, from: nat)
    requires scale.Valid() && ((x == c && y == 1.0) || (x == 0.0 && y == 0.0))
    ensures Multiple(scale.gain(c), scale.Term(x, from), scale.Term(y, from))
  {
    BinaryTerms(scale, from);
  }

  lemma ScaledSum(g: real, x: real, y: real, u: real, v: real)
    requires Multiple(g, x, u) && Multiple(g, y, v)
    ensures Multiple(g, x + y, u + v)
  {
  }

  lemma ScaledQuotient(g: real, x: real, y: real, u: real, v: real)
    requires g != 0.0 && Multiple(g, x, u) && Multiple(g, y, v)
    ensures y == 0.0 <==> v == 0.0
    ensures y != 0.0 ==> x / y == u / v
  {
    if v != 0.0 {
      var q := u / v;
      assert u == q * v;
      assert g * u == q * (g * v);
    }
  }

  /** Relevant ids of one common relevance are in ideal order already. */
  lemma FlatIdeal(relevant: seq<Id>, scores: map<Id, real>, c: real)
    requires forall id :: id in relevant ==> Relevance(id, relevant, scores) == c
    ensures |Ideal(relevant, scores)| == |relevant|
    ensures Ideal(relevant, scores) == Relevances(relevant, relevant, scores)
    ensures forall i :: 0 <= i < |relevant| ==> Ideal(relevant, scores)[i] == c
  {
    var rels, ideal := Relevances(relevant, relevant, scores), Ideal(relevant, scores);
    SortPermutes(Descending, rels);
    forall i | 0 <= i < |ideal| ensures ideal[i] == c {
      assert ideal[i] in multiset(ideal);
      assert ideal[i] in rels;
    }
  }

  lemma FlatIndicates(ids: seq<Id>, relevant: seq<Id>, scores: map<Id, real>, c: real)
    requires c < 0.0 && Flat(relevant, scores, c)
    ensures Indicates(Relevances(ids, relevant, map[]), Relevances(ids, relevant, scores), c)
  {
  }

  lemma FlatDcg(scale: Scale, retrieved: seq<Id>, relevant: seq<Id>, k: int, scores: map<Id, real>, c: real)
    requires scale.Valid() && c < 0.0 && Flat(relevant, scores, c)
    ensures Multiple(scale.gain(c), Dcg(scale, retrieved, relevant, k, scores), Dcg(scale, retrieved, relevant, k, map[]))
  {
    hide Relevances, Flat, Indicates, Scale.Valid, Gain, Multiple;
    var top := Slice(retrieved, k);
    FlatIndicates(top, relevant, scores, c);
    ScaledGain(scale, Relevances(top, relevant, scores), Relevances(top, relevant, map[]), c, 0);
  }

  lemma FlatIdcg(scale: Scale, relevant: seq<Id>, k: int, scores: map<Id, real>, c: real)
    requires scale.Valid() && c < 0.0 && Flat(relevant, scores, c)
    ensures Multiple(scale.gain(c), Idcg(scale, relevant, k, scores), Idcg(scale, relevant, k, map[]))
  {
    var depth := if k >= 0 then k else 0;
    FlatIdeal(relevant, scores, c);
    FlatIdeal(relevant, map[], 1.0);
    hide Ideal, Relevances, Scale.Valid, Gain, Multiple;
    ScaledGain(scale, Slice(Ideal(relevant, scores), depth), Slice(Ideal(relevant, map[]), depth), c, 0);
  }

  lemma LossIsNegative(scale: Scale, c: real)
    requires scale.Valid() && c < 0.0
    ensures scale.gain(c) < 0.0
  {
  }

  /** A common negative relevance cancels out: it scores as if there were no scores at all. */
  lemma FlatIsBinary(scale: Scale, retrieved: seq<Id>, relevant: seq<Id>, k: int, scores: map<Id, real>, c: real)
    requires scale.Valid() && c < 0.0 && Flat(relevant, scores, c)
    ensures NdcgAtK(scale, retrieved, relevant, k, scores) == NdcgAtK(scale, retrieved, relevant, k, map[])
  {
    FlatDcg(scale, retrieved, relevant, k, scores, c);
    FlatIdcg(scale, relevant, k, scores, c);
    hide Dcg, Idcg, Flat, Scale.Valid, Multiple;
    LossIsNegative(scale, c);
    ScaledQuotient(scale.gain(c),
      Dcg(scale, retrieved, relevant, k, scores), Idcg(scale, relevant, k, scores),
      Dcg(scale, retrieved, relevant, k, map[]), Idcg(scale, relevant, k, map[]));
  }

  /** With nothing to gain at all, NDCG is zero throughout. */
  lemma FlatZeroIsZero(scale: Scale, retrieved: seq<Id>, relevant: seq<Id>, k: int, scores: map<Id, real>)
    requires scale.Valid() && Flat(relevant, scores, 0.0)
    ensures NdcgAtK(scale, retrieved, relevant, k, scores) == 0.0
  {
    var best := Slice(Ideal(relevant, scores), if k >= 0 then k else 0);
    FlatIdeal(relevant, scores, 0.0);
    NothingGained(scale, best, 0);
  }

  lemma FlatStaysWithinUnit(scale: Scale, relevant: seq<Id>, scores: map<Id, real>, c: real)
    requires scale.Valid() && Distinct(relevant) && Flat(relevant, scores, c)
    ensures AlwaysWithinUnit(scale, relevant, scores)
  {
    forall retrieved, k | Distinct(retrieved)
      ensures 0.0 <= NdcgAtK(scale, retrieved, relevant, k, scores) <= 1.0
    {
      if c < 0.0 {
        FlatIsBinary(scale, retrieved, relevant, k, scores, c);
        NdcgWithinUnit(scale, retrieved, relevant, k, map[]);
      } else {
        FlatZeroIsZero(scale, retrieved, relevant, k, scores);
      }
    }
  }

  lemma LargerLoss(g: real, h: real, d: real, e: real)
    requires h <= g < 0.0 && d >= e > 0.0 && (h < g || d > e)
    ensures h * d < g * e < 0.0 && (h * d) / (g * e) > 1.0
  {
    assert g * e < 0.0;
    assert (g - h) * d >= 0.0 && (h < g ==> (g - h) * d > 0.0);
    assert (-g) * (d - e) >= 0.0 && (d > e ==> (-g) * (d - e) > 0.0);
    assert g * e - h * d == (g - h) * d + (-g) * (d - e);
    BelowOne(h * d, g * e);
  }

  lemma BelowOne(x: real, y: real)
    requires x < y < 0.0
    ensures x / y > 1.0
  {
  }

  /** Where the ideal relevances turn negative. */
  function NonNegativePrefix(s: seq<real>): (p: nat)
    ensures p <= |s| && (p < |s| ==> s[p] < 0.0)
    ensures forall i :: 0 <= i < p ==> s[i] >= 0.0
  {
    if s == [] || s[0] < 0.0 then 0 else 1 + NonNegativePrefix(s[1..])
  }

  /** Different relevances, none of them positive: the worse of the two alone exceeds one at
      the depth at which the ideal relevances turn negative. */
  lemma UnevenBreaks(scale: Scale, relevant: seq<Id>, scores: map<Id, real>, one: Id, other: Id)
    requires scale.Valid() && one in relevant && other in relevant
    requires forall id :: id in relevant ==> Relevance(id, relevant, scores) <= 0.0
    requires Relevance(one, relevant, scores) < Relevance(other, relevant, scores)
    ensures !AlwaysWithinUnit(scale, relevant, scores)
  {
    var ideal := Ideal(relevant, scores);
    var p := NonNegativePrefix(ideal);
    TurningPoint(relevant, scores, one, other);
    LoneResult(scale, one, relevant, p + 1, scores);
    IdealLoss(scale, relevant, scores);
    LossIsLarger(scale, ideal[p], Relevance(one, relevant, scores), p);
    hide Dcg, Idcg;
    assert NdcgAtK(scale, [one], relevant, p + 1, scores) > 1.0;
  }

  lemma TurningPoint(relevant: seq<Id>, scores: map<Id, real>, one: Id, other: Id)
    requires one in relevant && other in relevant
    requires Relevance(one, relevant, scores) < Relevance(other, relevant, scores) <= 0.0
    ensures var ideal := Ideal(relevant, scores);
            var p := NonNegativePrefix(ideal);
            p < |ideal| && Relevance(one, relevant, scores) <= ideal[p] < 0.0
            && (p > 0 || Relevance(one, relevant, scores) < ideal[p])
  {
    var ideal := Ideal(relevant, scores);
    var p := NonNegativePrefix(ideal);
    DescendingSorts(Relevances(relevant, relevant, scores));
    var i := PlaceOf(relevant, scores, one);
    var j := PlaceOf(relevant, scores, other);
    assert p <= i;
    assert p < i ==> Descending(ideal[p], ideal[i]);
    assert 0 < j ==> Descending(ideal[0], ideal[j]);
  }

  /** Where the relevance of an id stands in the ideal order. */
  lemma PlaceOf(relevant: seq<Id>, scores: map<Id, real>, id: Id) returns (i: nat)
    requires id in relevant
    ensures i < |Ideal(relevant, scores)| && Ideal(relevant, scores)[i] == Relevance(id, relevant, scores)
  {
    var rels, ideal := Relevances(relevant, relevant, scores), Ideal(relevant, scores);
    SortPermutes(Descending, rels);
    var j :| 0 <= j < |relevant| && relevant[j] == id;
    assert rels[j] in multiset(ideal);
    i :| 0 <= i < |ideal| && ideal[i] == rels[j];
  }

  /** When no ideal relevance is positive, the ideal gain down to the turning point is the
      first loss. */
  lemma IdealLoss(scale: Scale, relevant: seq<Id>, scores: map<Id, real>)
    requires scale.Valid() && NonNegativePrefix(Ideal(relevant, scores)) < |Ideal(relevant, scores)|
    requires forall id :: id in relevant ==> Relevance(id, relevant, scores) <= 0.0
    ensures var ideal := Ideal(relevant, scores);
            var p := NonNegativePrefix(ideal);
            Idcg(scale, relevant, p + 1, scores) == scale.Term(ideal[p], p)
  {
    hide Relevance, Sort;
    var rels, ideal := Relevances(relevant, relevant, scores), Ideal(relevant, scores);
    var p := NonNegativePrefix(ideal);
    SortPermutes(Descending, rels);
    forall i | 0 <= i < p ensures ideal[..p][i] == 0.0 {
      assert ideal[i] in multiset(ideal);
      assert ideal[i] in rels;
    }
    NothingGained(scale, ideal[..p], 0);
    GainStep(scale, ideal, p);
    assert Slice(ideal, p + 1) == ideal[..p + 1];
  }

  lemma LoneResult(scale: Scale, id: Id, relevant: seq<Id>, k: nat, scores: map<Id, real>)
    requires k >= 1
    ensures Distinct([id]) && Dcg(scale, [id], relevant, k, scores) == scale.Term(Relevance(id, relevant, scores), 0)
  {
    assert Slice([id], k) == [id] && Relevances([id], relevant, scores) == [Relevance(id, relevant, scores)];
    SingleGain(scale, Relevance(id, relevant, scores), 0);
  }

  lemma LossIsLarger(scale: Scale, x: real, y: real, p: nat)
    requires scale.Valid() && y <= x < 0.0 && (p > 0 || y < x)
    ensures scale.Term(x, p) != 0.0 && scale.Term(y, 0) / scale.Term(x, p) > 1.0
  {
    assert p > 0 ==> scale.discount(0) > scale.discount(p);
    LargerLoss(scale.gain(x), scale.gain(y), scale.discount(0), scale.discount(p));
  }

  lemma {:induction false} GainNegative(scale: Scale, rels: seq<real>, from: nat)
    requires scale.Valid() && rels != [] && forall i :: 0 <= i < |rels| ==> rels[i] < 0.0
    ensures Gain(scale, rels, from) < 0.0
  {
    TermMonotone(scale, rels[0], 0.0, from);
    BinaryTerms(scale, from);
    if |rels| > 1 {
      GainNegative(scale, rels[1..], from + 1);
    }
  }

  /** A common negative relevance, and some other id that scores above zero ... */
  lemma FlatGainBreaks(scale: Scale, relevant: seq<Id>, scores: map<Id, real>, c: real, stray: Id)
    requires scale.Valid() && relevant != [] && c < 0.0
    requires forall id :: id in relevant ==> Relevance(id, relevant, scores) == c
    requires stray in scores && stray !in relevant && scores[stray] > 0.0
    ensures !AlwaysWithinUnit(scale, relevant, scores)
  {
    LoneResult(scale, stray, relevant, 1, scores);
    FlatIdeal(relevant, scores, c);
    assert Slice(Ideal(relevant, scores), 1) == [c];
    SingleGain(scale, c, 0);
    TermMonotone(scale, 0.0, scores[stray], 0);
    TermMonotone(scale, c, 0.0, 0);
    BinaryTerms(scale, 0);
    AboveZeroBelow(scale.Term(scores[stray], 0), scale.Term(c, 0));
    hide Dcg;
    assert NdcgAtK(scale, [stray], relevant, 1, scores) < 0.0;
  }

  /** ... or below it. */
  lemma FlatLossBreaks(scale: Scale, relevant: seq<Id>, scores: map<Id, real>, c: real, stray: Id)
    requires scale.Valid() && Distinct(relevant) && relevant != [] && c < 0.0
    requires forall id :: id in relevant ==> Relevance(id, relevant, scores) == c
    requires stray in scores && stray !in relevant && scores[stray] < 0.0
    ensures !AlwaysWithinUnit(scale, relevant, scores)
  {
    var retrieved, s := relevant + [stray], scores[stray];
    var n := |retrieved|;
    var rels := Relevances(relevant, relevant, scores);
    FlatIdeal(relevant, scores, c);
    assert Slice(retrieved, n) == retrieved && Slice(rels, n) == rels;
    assert Relevances(retrieved, relevant, scores) == rels + [s];
    GainSnoc(scale, rels, s, 0);
    GainNegative(scale, rels, 0);
    TermMonotone(scale, s, 0.0, |rels|);
    BinaryTerms(scale, |rels|);
    BelowOne(Gain(scale, rels + [s], 0), Gain(scale, rels, 0));
    hide Gain, Relevances;
    assert NdcgAtK(scale, retrieved, relevant, n, scores) > 1.0;
  }

  lemma AboveZeroBelow(x: real, y: real)
    requires x > 0.0 > y
    ensures x / y < 0.0
  {
  }

  /** NDCG lies between zero and one for every duplicate-free result list and every depth
      exactly when no score is negative and none outside the relevant set is positive, or when
      the relevant ids all share one relevance of at most zero and, if that is negative, no
      other id scores. */
  lemma NdcgRangeExactly(scale: Scale, relevant: seq<Id>, scores: map<Id, real>)
    requires scale.Valid() && Distinct(relevant)
    ensures AlwaysWithinUnit(scale, relevant, scores)
       <==> Graded(relevant, scores) || Flat(relevant, scores, FirstLevel(relevant, scores))
  {
    var c := FirstLevel(relevant, scores);
    if good :| good in relevant && Relevance(good, relevant, scores) > 0.0 {
      GoodNeedsGraded(scale, relevant, scores, good);
      assert !Flat(relevant, scores, c);
    } else if Flat(relevant, scores, c) {
      FlatStaysWithinUnit(scale, relevant, scores, c);
    } else if id :| id in relevant && Relevance(id, relevant, scores) != c {
      if Relevance(id, relevant, scores) < c {
        UnevenBreaks(scale, relevant, scores, id, relevant[0]);
      } else {
        UnevenBreaks(scale, relevant, scores, relevant[0], id);
      }
      UngradedLoss(relevant, scores);
    } else {
      var stray :| stray in scores && stray !in relevant && scores[stray] != 0.0;
      if scores[stray] > 0.0 {
        FlatGainBreaks(scale, relevant, scores, c, stray);
      } else {
        FlatLossBreaks(scale, relevant, scores, c, stray);
      }
      UngradedLoss(relevant, scores);
    }
  }

  /** A relevant id below zero has a negative score. */
  lemma UngradedLoss(relevant: seq<Id>, scores: map<Id, real>)
    requires exists id :: id in relevant && Relevance(id, relevant, scores) < 0.0
    ensures !Graded(relevant, scores)
  {
  }
}
