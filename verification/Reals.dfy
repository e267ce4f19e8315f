/** Sums and quotients of reals. */
module Reals {

  lemma QuotientMonotone(x: real, y: real, n: real)
    requires x <= y && n > 0.0
    ensures x / n <= y / n
  {
  }

  lemma QuotientOfSum(x: real, y: real, n: real)
    requires n != 0.0
    ensures (x + y) / n == x / n + y / n
    ensures (x - y) / n == x / n - y / n
  {
  }

  lemma Product(x: real, y: real)
    requires x >= 0.0 && y >= 0.0
    ensures x * y >= 0.0
  {
  }

  function Sum(s: seq<real>): real {
    if s == [] then 0.0 else s[0] + Sum(s[1..])
  }

  /** Sum of the weights of all items. */
  function Total<V>(items: seq<V>, weight: V -> real): real {
    if items == [] then 0.0 else weight(items[0]) + Total(items[1..], weight)
  }

  lemma {:induction false} TotalOfConcat<V>(a: seq<V>, b: seq<V>, weight: V -> real)
    ensures Total(a + b, weight) == Total(a, weight) + Total(b, weight)
  {
    if a == [] {
      assert a + b == b;
    } else {
      TotalOfConcat(a[1..], b, weight);
      assert (a + b)[1..] == a[1..] + b;
    }
  }
}
