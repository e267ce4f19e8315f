/**
A stable sort by an arbitrary total preorder: the behaviour of the language's own `sorted`
and `list.sort`, which the evaluation and benchmark code call.
 */
module Sorting {

  ghost predicate TotalPreorder<T(!new)>(le: (T, T) -> bool) {
    && (forall x, y :: le(x, y) || le(y, x))
    && (forall x, y, z :: le(x, y) && le(y, z) ==> le(x, z))
  }

  ghost predicate SortedBy<T>(le: (T, T) -> bool, s: seq<T>) {
    forall i, j :: 0 <= i < j < |s| ==> le(s[i], s[j])
  }

  function Insert<T>(le: (T, T) -> bool, x: T, s: seq<T>): (r: seq<T>)
    ensures |r| == |s| + 1
  {
    if s == [] || le(x, s[0]) then [x] + s else [s[0]] + Insert(le, x, s[1..])
  }

  function Sort<T>(le: (T, T) -> bool, s: seq<T>): (r: seq<T>)
    ensures |r| == |s|
  {
    if s == [] then [] else Insert(le, s[0], Sort(le, s[1..]))
  }

  lemma {:induction false} InsertPermutes<T>(le: (T, T) -> bool, x: T, s: seq<T>)
    ensures multiset(Insert(le, x, s)) == multiset{x} + multiset(s)
  {
    if s != [] && !le(x, s[0]) {
      InsertPermutes(le, x, s[1..]);
      assert s == [s[0]] + s[1..];
    }
  }

  lemma {:induction false} SortPermutes<T>(le: (T, T) -> bool, s: seq<T>)
    ensures multiset(Sort(le, s)) == multiset(s)
  {
    if s != [] {
      SortPermutes(le, s[1..]);
      InsertPermutes(le, s[0], Sort(le, s[1..]));
      assert s == [s[0]] + s[1..];
    }
  }

  lemma {:induction false} InsertSorts<T(!new)>(le: (T, T) -> bool, x: T, s: seq<T>)
    requires TotalPreorder(le) && SortedBy(le, s)
    ensures SortedBy(le, Insert(le, x, s))
  {
    if s != [] && !le(x, s[0]) {
      InsertSorts(le, x, s[1..]);
      InsertPermutes(le, x, s[1..]);
      var r := Insert(le, x, s[1..]);
      forall j | 0 <= j < |r| ensures le(s[0], r[j]) {
        assert r[j] in multiset(r);
        assert r[j] == x || r[j] in s[1..];
      }
    }
  }

  lemma {:induction false} SortSorts<T(!new)>(le: (T, T) -> bool, s: seq<T>)
    requires TotalPreorder(le)
    ensures SortedBy(le, Sort(le, s))
  {
    if s != [] {
      SortSorts(le, s[1..]);
      InsertSorts(le, s[0], Sort(le, s[1..]));
    }
  }

  // ----- Stability -----

  /** The elements that tie with `x`, in order. */
  function Ties<T>(le: (T, T) -> bool, x: T, s: seq<T>): seq<T> {
    if s == [] then []
    else if le(x, s[0]) && le(s[0], x) then [s[0]] + Ties(le, x, s[1..])
    else Ties(le, x, s[1..])
  }

  lemma {:induction false} InsertIsStable<T(!new)>(le: (T, T) -> bool, x: T, y: T, s: seq<T>)
    requires TotalPreorder(le)
    ensures Ties(le, x, Insert(le, y, s)) == Ties(le, x, [y] + s)
  {
    if s != [] && !le(y, s[0]) {
      InsertIsStable(le, x, y, s[1..]);
      assert ([y] + s[1..])[1..] == s[1..] && ([y] + s)[1..] == s;
      assert Insert(le, y, s)[1..] == Insert(le, y, s[1..]);
    }
  }

  /** Sorting keeps elements that tie in their original order. */
  lemma {:induction false} SortIsStable<T(!new)>(le: (T, T) -> bool, x: T, s: seq<T>)
    requires TotalPreorder(le)
    ensures Ties(le, x, Sort(le, s)) == Ties(le, x, s)
  {
    if s != [] {
      SortIsStable(le, x, s[1..]);
      InsertIsStable(le, x, s[0], Sort(le, s[1..]));
      var r := Sort(le, s[1..]);
      assert ([s[0]] + r)[1..] == r;
    }
  }

  // ----- Real numbers -----

  predicate Ascending(x: real, y: real) { x <= y }

  predicate Descending(x: real, y: real) { x >= y }

  lemma OrdersAreTotal()
    ensures TotalPreorder(Ascending) && TotalPreorder(Descending)
  {
  }

  lemma AscendingSorts(s: seq<real>)
    ensures SortedBy(Ascending, Sort(Ascending, s))
  {
    OrdersAreTotal();
    SortSorts(Ascending, s);
  }

  lemma DescendingSorts(s: seq<real>)
    ensures SortedBy(Descending, Sort(Descending, s))
  {
    OrdersAreTotal();
    SortSorts(Descending, s);
  }

  /** How many elements reach the threshold. */
  function CountAtLeast(s: seq<real>, t: real): nat {
    if s == [] then 0 else (if s[0] >= t then 1 else 0) + CountAtLeast(s[1..], t)
  }

  lemma {:induction false} InsertCounts(le: (real, real) -> bool, x: real, s: seq<real>, t: real)
    ensures CountAtLeast(Insert(le, x, s), t) == (if x >= t then 1 else 0) + CountAtLeast(s, t)
  {
    if s == [] || le(x, s[0]) {
      assert ([x] + s)[1..] == s;
    } else {
      InsertCounts(le, x, s[1..], t);
      assert Insert(le, x, s)[1..] == Insert(le, x, s[1..]);
    }
  }

  lemma {:induction false} SortCounts(le: (real, real) -> bool, s: seq<real>, t: real)
    ensures CountAtLeast(Sort(le, s), t) == CountAtLeast(s, t)
  {
    if s != [] {
      SortCounts(le, s[1..], t);
      InsertCounts(le, s[0], Sort(le, s[1..]), t);
    }
  }

  /** In a descending list, element `i` reaches the threshold exactly when more than `i` do. */
  lemma {:induction false} DescendingCount(s: seq<real>, i: nat, t: real)
    requires SortedBy(Descending, s) && i < |s|
    ensures s[i] >= t <==> CountAtLeast(s, t) > i
  {
    if i > 0 {
      DescendingCount(s[1..], i - 1, t);
      assert Descending(s[0], s[i]);
    } else if s[0] < t {
      assert forall j :: 0 < j < |s| ==> Descending(s[0], s[j]);
      NoneReach(s, t);
    }
  }

  lemma {:induction false} NoneReach(s: seq<real>, t: real)
    requires forall j :: 0 <= j < |s| ==> s[j] < t
    ensures CountAtLeast(s, t) == 0
  {
    if s != [] {
      NoneReach(s[1..], t);
    }
  }

  /** In an ascending list, element `i` reaches the threshold exactly when fewer than the
      `i` before it are needed to fall short. */
  lemma {:induction false} AscendingCount(s: seq<real>, i: nat, t: real)
    requires SortedBy(Ascending, s) && i < |s|
    ensures s[i] >= t <==> CountAtLeast(s, t) >= |s| - i
  {
    AtMostAll(s, t);
    if i > 0 {
      AtMostAll(s[1..], t);
      AscendingCount(s[1..], i - 1, t);
      assert Ascending(s[0], s[i]);
      if s[0] >= t {
        assert forall j :: 0 < j < |s| ==> Ascending(s[0], s[j]);
        AllReach(s, t);
      }
    } else if s[0] >= t {
      assert forall j :: 0 < j < |s| ==> Ascending(s[0], s[j]);
      AllReach(s, t);
    } else {
      AtMostAll(s[1..], t);
    }
  }

  lemma {:induction false} AtMostAll(s: seq<real>, t: real)
    ensures CountAtLeast(s, t) <= |s|
  {
    if s != [] {
      AtMostAll(s[1..], t);
    }
  }

  lemma {:induction false} AllReach(s: seq<real>, t: real)
    requires forall j :: 0 <= j < |s| ==> s[j] >= t
    ensures CountAtLeast(s, t) == |s|
  {
    if s != [] {
      AllReach(s[1..], t);
    }
  }

  /** If the value at place `i` of sorted `a` is reached no more often in `a` than in `b`, then
      it is at most the value at place `i` of sorted `b`, sorting downwards. */
  lemma DescendingDominance(a: seq<real>, b: seq<real>, i: nat)
    requires i < |a| && i < |b|
    requires var t := Sort(Descending, a)[i]; CountAtLeast(a, t) <= CountAtLeast(b, t)
    ensures Sort(Descending, a)[i] <= Sort(Descending, b)[i]
  {
    DescendingSorts(a);
    DescendingSorts(b);
    var t := Sort(Descending, a)[i];
    SortCounts(Descending, a, t);
    SortCounts(Descending, b, t);
    DescendingCount(Sort(Descending, a), i, t);
    DescendingCount(Sort(Descending, b), i, t);
  }

  /** The same for sorting upwards two lists of equal length. */
  lemma AscendingDominance(a: seq<real>, b: seq<real>, i: nat)
    requires |a| == |b| && i < |a|
    requires var t := Sort(Ascending, a)[i]; CountAtLeast(a, t) <= CountAtLeast(b, t)
    ensures Sort(Ascending, a)[i] <= Sort(Ascending, b)[i]
  {
    AscendingSorts(a);
    AscendingSorts(b);
    var t := Sort(Ascending, a)[i];
    SortCounts(Ascending, a, t);
    SortCounts(Ascending, b, t);
    AscendingCount(Sort(Ascending, a), i, t);
    AscendingCount(Sort(Ascending, b), i, t);
  }

  // ----- A sorted list is determined by its elements when ties are identical -----

  /** Elements of the list that tie are the same element. */
  ghost predicate TiesAreEqual<T(!new)>(le: (T, T) -> bool, s: seq<T>) {
    (forall x :: le(x, x)) && forall x, y :: x in s && y in s && le(x, y) && le(y, x) ==> x == y
  }

  lemma {:induction false} SortedIsUnique<T(!new)>(le: (T, T) -> bool, a: seq<T>, b: seq<T>)
    requires SortedBy(le, a) && SortedBy(le, b) && multiset(a) == multiset(b) && TiesAreEqual(le, a)
    ensures a == b
  {
    assert |a| == |multiset(a)| == |b|;
    if a == [] {
      assert b == [];
    } else {
      FirstsAreEqual(le, a, b);
      TailsMatch(le, a, b);
      hide SortedBy, TiesAreEqual;
      SortedIsUnique(le, a[1..], b[1..]);
      assert a == [a[0]] + a[1..] && b == [b[0]] + b[1..];
    }
  }

  lemma FirstsAreEqual<T(!new)>(le: (T, T) -> bool, a: seq<T>, b: seq<T>)
    requires SortedBy(le, a) && SortedBy(le, b) && multiset(a) == multiset(b) && TiesAreEqual(le, a) && a != [] && b != []
    ensures a[0] == b[0]
  {
    FirstIsLeast(le, a, b);
    FirstIsLeast(le, b, a);
  }

  lemma TailsMatch<T(!new)>(le: (T, T) -> bool, a: seq<T>, b: seq<T>)
    requires SortedBy(le, a) && SortedBy(le, b) && multiset(a) == multiset(b) && TiesAreEqual(le, a)
    requires a != [] && b != [] && a[0] == b[0]
    ensures SortedBy(le, a[1..]) && SortedBy(le, b[1..]) && multiset(a[1..]) == multiset(b[1..]) && TiesAreEqual(le, a[1..])
  {
    TailIsSorted(le, a);
    TailIsSorted(le, b);
    TailTies(le, a);
    hide SortedBy, TiesAreEqual;
    TailElements(a);
    TailElements(b);
  }

  lemma TailElements<T>(s: seq<T>)
    requires s != []
    ensures multiset(s[1..]) == multiset(s) - multiset{s[0]}
  {
    assert s == [s[0]] + s[1..];
  }

  lemma TailIsSorted<T>(le: (T, T) -> bool, s: seq<T>)
    requires SortedBy(le, s) && s != []
    ensures SortedBy(le, s[1..])
  {
  }

  lemma TailTies<T(!new)>(le: (T, T) -> bool, s: seq<T>)
    requires TiesAreEqual(le, s) && s != []
    ensures TiesAreEqual(le, s[1..])
  {
  }

  lemma AscendingTies(s: seq<real>)
    ensures TiesAreEqual(Ascending, s)
  {
  }

  lemma DescendingTies(s: seq<real>)
    ensures TiesAreEqual(Descending, s)
  {
  }

  lemma FirstIsLeast<T(!new)>(le: (T, T) -> bool, a: seq<T>, b: seq<T>)
    requires SortedBy(le, a) && multiset(a) == multiset(b) && a != [] && b != []
    requires forall x :: le(x, x)
    ensures b[0] in a && le(a[0], b[0])
  {
    assert b[0] in multiset(a);
    var j :| 0 <= j < |a| && a[j] == b[0];
  }

  // ----- Mapping a rearranged list -----

  function Mapped<T, U>(f: T -> U, s: seq<T>): (r: seq<U>)
    ensures |r| == |s|
    ensures forall i :: 0 <= i < |s| ==> r[i] == f(s[i])
  {
    seq(|s|, i requires 0 <= i < |s| => f(s[i]))
  }

  lemma MappedWithout<T, U>(f: T -> U, s: seq<T>, i: nat)
    requires i < |s|
    ensures multiset(s) == multiset{s[i]} + multiset(s[..i] + s[i + 1..])
    ensures multiset(Mapped(f, s)) == multiset{f(s[i])} + multiset(Mapped(f, s[..i] + s[i + 1..]))
  {
    var r := Mapped(f, s);
    assert s == s[..i] + [s[i]] + s[i + 1..];
    assert r == r[..i] + [r[i]] + r[i + 1..];
    assert Mapped(f, s[..i] + s[i + 1..]) == r[..i] + r[i + 1..];
  }

  /** Lists with the same elements map to lists with the same elements. */
  lemma {:induction false} MappedPermutes<T, U>(f: T -> U, a: seq<T>, b: seq<T>)
    requires multiset(a) == multiset(b)
    ensures multiset(Mapped(f, a)) == multiset(Mapped(f, b))
  {
    hide Mapped;
    assert |a| == |multiset(a)| == |b|;
    if a == [] {
      assert a == b;
    } else {
      assert a[0] in multiset(b);
      var i :| 0 <= i < |b| && b[i] == a[0];
      var c, d := a[..0] + a[1..], b[..i] + b[i + 1..];
      MappedWithout(f, a, 0);
      MappedWithout(f, b, i);
      assert multiset(c) == multiset(a) - multiset{a[0]};
      assert multiset(d) == multiset(b) - multiset{a[0]};
      MappedPermutes(f, c, d);
    }
  }
}
