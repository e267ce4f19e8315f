/** NDCG against the ideal ordering: when it lies between zero and one, and when it is one. */
module NdcgBounds {
  import opened Sorting
  import opened RankingMetrics

  // ----- Counting relevances -----

  lemma {:induction false} SubsetIsSmaller<T>(a: set<T>, b: set<T>)
    requires a <= b
    ensures |a| <= |b|
  {
    if a != {} {
      var x :| x in a;
      SubsetIsSmaller(a - {x}, b - {x});
    }
  }

  /** For duplicate-free ids, counting relevances above a threshold is counting ids. */
  lemma {:induction false} CountIsCard(ids: seq<Id>, relevant: seq<Id>, scores: map<Id, real>, t: real)
    requires Distinct(ids)
    ensures CountAtLeast(Relevances(ids, relevant, scores), t) == |AtLeast(ids, relevant, scores, t)|
  {
    if ids != [] {
      CountIsCard(ids[1..], relevant, scores, t);
      assert Relevances(ids, relevant, scores)[1..] == Relevances(ids[1..], relevant, scores);
      AtLeastStep(ids, relevant, scores, t);
      assert ids[0] !in ids[1..];
      hide Relevance, Relevances, AtLeast;
    }
  }

  /** The ids whose relevance reaches the threshold. */
  ghost function AtLeast(ids: seq<Id>, relevant: seq<Id>, scores: map<Id, real>, t: real): set<Id> {
    set id | id in ids && Relevance(id, relevant, scores) >= t
  }

  lemma AtLeastStep(ids: seq<Id>, relevant: seq<Id>, scores: map<Id, real>, t: real)
    requires ids != [] && Distinct(ids)
    ensures var rest := AtLeast(ids[1..], relevant, scores, t);
            && ids[0] !in rest
            && AtLeast(ids, relevant, scores, t) == if Relevance(ids[0], relevant, scores) >= t then rest + {ids[0]} else rest
  {
    assert ids[0] !in ids[1..];
    assert ids == [ids[0]] + ids[1..];
  }

  /** No score is negative, and only relevant ids score above zero. */
  ghost predicate Graded(relevant: seq<Id>, scores: map<Id, real>) {
    forall id :: id in scores ==> scores[id] >= 0.0 && (id !in relevant ==> scores[id] == 0.0)
  }

  /** No positive threshold is reached more often among retrieved ids than among relevant ones. */
  lemma RetrievedCountsFewer(ids: seq<Id>, relevant: seq<Id>, scores: map<Id, real>, t: real)
    requires Distinct(ids) && Distinct(relevant) && Graded(relevant, scores) && t > 0.0
    ensures CountAtLeast(Relevances(ids, relevant, scores), t)
         <= CountAtLeast(Relevances(relevant, relevant, scores), t)
  {
    CountIsCard(ids, relevant, scores, t);
    CountIsCard(relevant, relevant, scores, t);
    SubsetIsSmaller(AtLeast(ids, relevant, scores, t), AtLeast(relevant, relevant, scores, t));
  }

  // ----- Rearrangement -----

  lemma Exchange(x: real, y: real, c: real, d: real)
    requires x <= y && c >= d
    ensures x * c + y * d <= y * c + x * d
  {
    var gap, drop := y - x, c - d;
    assert gap * drop >= 0.0;
    assert gap * c == y * c - x * c && gap * d == y * d - x * d;
    assert gap * drop == gap * c - gap * d;
  }

  lemma {:induction false} InsertGains(scale: Scale, x: real, s: seq<real>, from: nat)
    requires scale.Valid()
    ensures Gain(scale, [x] + s, from) <= Gain(scale, Insert(Descending, x, s), from)
  {
    if s != [] && !Descending(x, s[0]) {
      InsertGains(scale, x, s[1..], from + 1);
      assert ([x] + s)[1..] == s && ([x] + s[1..])[1..] == s[1..];
      assert Insert(Descending, x, s)[1..] == Insert(Descending, x, s[1..]);
      Exchange(scale.gain(x), scale.gain(s[0]), scale.discount(from), scale.discount(from + 1));
    }
  }

  /** Sorting downwards never lowers the discounted gain. */
  lemma {:induction false} SortGains(scale: Scale, s: seq<real>, from: nat)
    requires scale.Valid()
    ensures Gain(scale, s, from) <= Gain(scale, Sort(Descending, s), from)
  {
    if s != [] {
      SortGains(scale, s[1..], from + 1);
      var r := Sort(Descending, s[1..]);
      assert ([s[0]] + r)[1..] == r;
      InsertGains(scale, s[0], r, from);
    }
  }

  lemma TermMonotone(scale: Scale, x: real, y: real, from: nat)
    requires scale.Valid() && x <= y
    ensures scale.Term(x, from) <= scale.Term(y, from)
    ensures x < y ==> scale.Term(x, from) < scale.Term(y, from)
  {
    var d, gap := scale.discount(from), scale.gain(y) - scale.gain(x);
    assert gap >= 0.0 && d > 0.0 && (x < y ==> gap > 0.0);
    assert gap * d >= 0.0 && (x < y ==> gap * d > 0.0);
  }

  lemma BinaryTerms(scale: Scale, from: nat)
    requires scale.Valid()
    ensures scale.Term(0.0, from) == 0.0 && scale.Term(1.0, from) == scale.discount(from) > 0.0
  {
  }

  lemma SingleGain(scale: Scale, x: real, from: nat)
    ensures Gain(scale, [x], from) == scale.Term(x, from)
  {
    assert [x][1..] == [];
  }

  /** Pointwise larger relevances, with nothing positive beyond the end, gain at least as much. */
  lemma {:induction false} DominatedGains(scale: Scale, a: seq<real>, b: seq<real>, from: nat)
    requires scale.Valid()
    requires forall i :: 0 <= i < |b| ==> b[i] >= 0.0
    requires forall i :: 0 <= i < |a| ==> a[i] <= if i < |b| then b[i] else 0.0
    ensures Gain(scale, a, from) <= Gain(scale, b, from)
    decreases |a| + |b|
  {
    if a != [] && b != [] {
      TermMonotone(scale, a[0], b[0], from);
      DominatedGains(scale, a[1..], b[1..], from + 1);
    } else if a != [] {
      TermMonotone(scale, a[0], 0.0, from);
      BinaryTerms(scale, from);
      DominatedGains(scale, a[1..], [], from + 1);
    } else if b != [] {
      TermMonotone(scale, 0.0, b[0], from);
      BinaryTerms(scale, from);
      DominatedGains(scale, [], b[1..], from + 1);
    }
  }

  /** DCG never exceeds the ideal DCG. */
  lemma DcgBelowIdeal(scale: Scale, retrieved: seq<Id>, relevant: seq<Id>, k: int, scores: map<Id, real>)
    requires scale.Valid() && k >= 0
    requires Distinct(retrieved) && Distinct(relevant) && Graded(relevant, scores)
    ensures Dcg(scale, retrieved, relevant, k, scores) <= Idcg(scale, relevant, k, scores)
  {
    var a := Relevances(Slice(retrieved, k), relevant, scores);
    var best := Slice(Ideal(relevant, scores), k);
    SortGains(scale, a, 0);
    IdealDominates(retrieved, relevant, k, scores);
    DominatedGains(scale, Sort(Descending, a), best, 0);
  }

  /** Sorted, the retrieved relevances lie below the ideal ones place by place. */
  lemma IdealDominates(retrieved: seq<Id>, relevant: seq<Id>, k: int, scores: map<Id, real>)
    requires k >= 0
    requires Distinct(retrieved) && Distinct(relevant) && Graded(relevant, scores)
    ensures var s := Sort(Descending, Relevances(Slice(retrieved, k), relevant, scores));
            var best := Slice(Ideal(relevant, scores), k);
            && (forall i :: 0 <= i < |best| ==> best[i] >= 0.0)
            && (forall i :: 0 <= i < |s| ==> s[i] <= if i < |best| then best[i] else 0.0)
  {
    var a, b := Relevances(Slice(retrieved, k), relevant, scores), Relevances(relevant, relevant, scores);
    var s, ideal := Sort(Descending, a), Ideal(relevant, scores);
    var best := Slice(ideal, k);
    SortPermutes(Descending, b);
    forall i | 0 <= i < |best| ensures best[i] >= 0.0 {
      assert ideal[i] in multiset(ideal);
      assert ideal[i] in b;
    }
    forall i | 0 <= i < |s| ensures s[i] <= if i < |best| then best[i] else 0.0 {
      if s[i] > 0.0 {
        RetrievedCountsFewer(Slice(retrieved, k), relevant, scores, s[i]);
        AtMostAll(b, s[i]);
        DescendingSorts(a);
        SortCounts(Descending, a, s[i]);
        DescendingCount(s, i, s[i]);
        DescendingDominance(a, b, i);
      }
    }
  }

  lemma {:induction false} GainNonNegative(scale: Scale, rels: seq<real>, from: nat)
    requires scale.Valid() && forall i :: 0 <= i < |rels| ==> rels[i] >= 0.0
    ensures Gain(scale, rels, from) >= 0.0
  {
    DominatedGains(scale, [], rels, from);
  }

  lemma Ratio(x: real, y: real)
    requires 0.0 <= x <= y && y > 0.0
    ensures 0.0 <= x / y <= 1.0
  {
  }

  /** The documented range of NDCG, for duplicate-free results and graded scores. */
  lemma NdcgWithinUnit(scale: Scale, retrieved: seq<Id>, relevant: seq<Id>, k: int, scores: map<Id, real>)
    requires scale.Valid()
    requires Distinct(retrieved) && Distinct(relevant) && Graded(relevant, scores)
    ensures 0.0 <= NdcgAtK(scale, retrieved, relevant, k, scores) <= 1.0
  {
    if k >= 0 {
      var dcg, ideal := Dcg(scale, retrieved, relevant, k, scores), Idcg(scale, relevant, k, scores);
      DcgBelowIdeal(scale, retrieved, relevant, k, scores);
      GainNonNegative(scale, Relevances(Slice(retrieved, k), relevant, scores), 0);
      if ideal != 0.0 {
        Ratio(dcg, ideal);
      }
    }
  }

  // ----- Duplicates and set order -----

  /** Being free of duplicates does not depend on the order. */
  lemma {:induction false} DistinctIsOrderless(a: seq<Id>)
    ensures Distinct(a) <==> forall x :: multiset(a)[x] <= 1
  {
    if a != [] {
      DistinctIsOrderless(a[1..]);
      assert a == [a[0]] + a[1..];
      if forall x :: multiset(a)[x] <= 1 {
        assert multiset(a)[a[0]] == 1 + multiset(a[1..])[a[0]];
        assert forall x :: multiset(a[1..])[x] <= multiset(a)[x];
        assert a[0] !in a[1..];
        forall i, j | 0 <= i < j < |a| ensures a[i] != a[j] {
          assert a[j] == a[1..][j - 1] && (i > 0 ==> a[i] == a[1..][i - 1]);
        }
      }
      if Distinct(a) {
        assert a[0] !in a[1..];
        assert Distinct(a[1..]);
      }
    }
  }

  lemma AboveOne(x: real, y: real)
    requires x > y > 0.0
    ensures x / y > 1.0
  {
  }

  /** Duplicate results break the range too: one relevant id listed twice. */
  lemma DuplicatesBreakRange(scale: Scale, id: Id)
    requires scale.Valid()
    ensures NdcgAtK(scale, [id, id], [id], 2, map[]) > 1.0
  {
    assert Slice([id, id], 2) == [id, id] && Relevances([id, id], [id], map[]) == [1.0] + [1.0];
    assert Relevances([id], [id], map[]) == [1.0] && [1.0][1..] == [];
    assert Ideal([id], map[]) == [1.0] && Slice([1.0], 2) == [1.0];
    GainSnoc(scale, [1.0], 1.0, 0);
    SingleGain(scale, 1.0, 0);
    BinaryTerms(scale, 0);
    BinaryTerms(scale, 1);
    AboveOne(Gain(scale, [1.0] + [1.0], 0), Gain(scale, [1.0], 0));
  }

  /** The order in which the set of relevant ids is iterated does not matter. */
  lemma NdcgIgnoresSetOrder(scale: Scale, retrieved: seq<Id>, one: seq<Id>, other: seq<Id>, k: int, scores: map<Id, real>)
    requires multiset(one) == multiset(other)
    ensures NdcgAtK(scale, retrieved, one, k, scores) == NdcgAtK(scale, retrieved, other, k, scores)
  {
    var f := (id: Id) => Relevance(id, one, scores);
    forall id ensures Relevance(id, one, scores) == Relevance(id, other, scores) {
      assert id in one <==> id in multiset(one);
      assert id in other <==> id in multiset(other);
    }
    var a, b := Relevances(one, one, scores), Relevances(other, other, scores);
    MappedPermutes(f, one, other);
    assert Mapped(f, one) == a && Mapped(f, other) == b;
    SortPermutes(Descending, a);
    SortPermutes(Descending, b);
    DescendingSorts(a);
    DescendingSorts(b);
    DescendingTies(Ideal(one, scores));
    SortedIsUnique(Descending, Ideal(one, scores), Ideal(other, scores));
    var top := Slice(retrieved, k);
    assert Relevances(top, one, scores) == Relevances(top, other, scores);
  }

  // ----- Binary relevance: exactly when NDCG is one -----

  /** Gain of `c` perfect results from position `from` on. */
  ghost function PerfectGain(scale: Scale, c: nat, from: nat): real {
    if c == 0 then 0.0 else scale.discount(from) + PerfectGain(scale, c - 1, from + 1)
  }

  ghost predicate Binary(rels: seq<real>) {
    forall i :: 0 <= i < |rels| ==> rels[i] == 0.0 || rels[i] == 1.0
  }

  lemma {:induction false} PerfectGainShift(scale: Scale, c: nat, from: nat)
    requires scale.Valid()
    ensures PerfectGain(scale, c, from + 1) <= PerfectGain(scale, c, from)
    ensures c > 0 ==> PerfectGain(scale, c, from + 1) < PerfectGain(scale, c, from)
  {
    if c > 0 {
      PerfectGainShift(scale, c - 1, from + 1);
    }
  }

  lemma {:induction false} PerfectGainGrows(scale: Scale, c: nat, d: nat, from: nat)
    requires scale.Valid() && c < d
    ensures PerfectGain(scale, c, from) < PerfectGain(scale, d, from)
  {
    if c > 0 {
      PerfectGainGrows(scale, c - 1, d - 1, from + 1);
    } else {
      PerfectGainNonNegative(scale, d - 1, from + 1);
    }
  }

  lemma {:induction false} PerfectGainNonNegative(scale: Scale, c: nat, from: nat)
    requires scale.Valid()
    ensures PerfectGain(scale, c, from) >= 0.0
  {
    if c > 0 {
      PerfectGainNonNegative(scale, c - 1, from + 1);
    }
  }

  /** A binary list with `c` ones gains at most what `c` leading ones gain, with equality
      exactly when the ones do lead. */
  lemma {:induction false} BinaryGain(scale: Scale, rels: seq<real>, from: nat)
    requires scale.Valid() && Binary(rels)
    ensures var c := CountAtLeast(rels, 1.0);
            && c <= |rels|
            && Gain(scale, rels, from) <= PerfectGain(scale, c, from)
            && (Gain(scale, rels, from) == PerfectGain(scale, c, from)
                <==> forall i :: 0 <= i < c ==> rels[i] == 1.0)
  {
    if rels != [] {
      var rest := rels[1..];
      var c := CountAtLeast(rels, 1.0);
      AtMostAll(rels, 1.0);
      BinaryGain(scale, rest, from + 1);
      BinaryTerms(scale, from);
      if rels[0] == 1.0 {
        assert (forall i :: 0 <= i < c ==> rels[i] == 1.0) <==> (forall i :: 0 <= i < c - 1 ==> rest[i] == 1.0) by {
          if forall i :: 0 <= i < c - 1 ==> rest[i] == 1.0 {
            forall i | 0 <= i < c ensures rels[i] == 1.0 {
              assert i > 0 ==> rels[i] == rest[i - 1];
            }
          }
        }
      } else {
        PerfectGainShift(scale, c, from);
      }
    }
  }

  lemma {:induction false} OnesGain(scale: Scale, rels: seq<real>, from: nat)
    requires scale.Valid() && forall i :: 0 <= i < |rels| ==> rels[i] == 1.0
    ensures Gain(scale, rels, from) == PerfectGain(scale, |rels|, from)
  {
    if rels != [] {
      OnesGain(scale, rels[1..], from + 1);
      BinaryTerms(scale, from);
    }
  }

  function MinNat(a: nat, b: nat): nat {
    if a <= b then a else b
  }

  /** The first `m` results are there and are all relevant. */
  predicate LeadsWith(retrieved: seq<Id>, relevant: seq<Id>, m: nat) {
    m <= |retrieved| && forall i :: 0 <= i < m ==> retrieved[i] in relevant
  }

  lemma IdealIsPerfect(scale: Scale, relevant: seq<Id>, k: nat)
    requires scale.Valid()
    ensures Idcg(scale, relevant, k, map[]) == PerfectGain(scale, MinNat(k, |relevant|), 0)
  {
    var ideal := Ideal(relevant, map[]);
    SortPermutes(Descending, Relevances(relevant, relevant, map[]));
    forall i | 0 <= i < |ideal| ensures ideal[i] == 1.0 {
      assert ideal[i] in multiset(ideal);
      assert ideal[i] in Relevances(relevant, relevant, map[]);
    }
    OnesGain(scale, Slice(ideal, k), 0);
  }

  lemma HitsInTop(retrieved: seq<Id>, relevant: seq<Id>, k: nat)
    requires Distinct(retrieved) && Distinct(relevant)
    ensures CountAtLeast(Relevances(Slice(retrieved, k), relevant, map[]), 1.0) <= MinNat(k, |relevant|)
  {
    RetrievedCountsFewer(Slice(retrieved, k), relevant, map[], 1.0);
    AtMostAll(Relevances(relevant, relevant, map[]), 1.0);
    AtMostAll(Relevances(Slice(retrieved, k), relevant, map[]), 1.0);
  }

  /** Without graded scores, NDCG@k is one exactly when the first `min(k, |relevant|)` results
      are there and are all relevant. */
  lemma NdcgIsOneExactly(scale: Scale, retrieved: seq<Id>, relevant: seq<Id>, k: nat)
    requires scale.Valid() && Distinct(retrieved) && Distinct(relevant)
    requires k >= 1 && relevant != []
    ensures NdcgAtK(scale, retrieved, relevant, k, map[]) == 1.0 <==> LeadsWith(retrieved, relevant, MinNat(k, |relevant|))
  {
    var m := MinNat(k, |relevant|);
    var rels := Relevances(Slice(retrieved, k), relevant, map[]);
    var c := CountAtLeast(rels, 1.0);
    IdealIsPerfect(scale, relevant, k);
    PerfectGainGrows(scale, 0, m, 0);
    HitsInTop(retrieved, relevant, k);
    BinaryGain(scale, rels, 0);
    if c < m {
      PerfectGainGrows(scale, c, m, 0);
    }
    QuotientIsOne(Gain(scale, rels, 0), PerfectGain(scale, m, 0));
    assert forall i :: 0 <= i < |rels| ==> (rels[i] == 1.0 <==> retrieved[i] in relevant);
    if LeadsWith(retrieved, relevant, m) {
      LeadingOnesCount(rels, m);
    }
  }

  lemma QuotientIsOne(x: real, y: real)
    requires y > 0.0
    ensures x / y == 1.0 <==> x == y
  {
  }

  lemma {:induction false} LeadingOnesCount(rels: seq<real>, m: nat)
    requires m <= |rels| && forall i :: 0 <= i < m ==> rels[i] == 1.0
    ensures CountAtLeast(rels, 1.0) >= m
  {
    if m > 0 {
      LeadingOnesCount(rels[1..], m - 1);
    }
  }
}
