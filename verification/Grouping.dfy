/** Grouping records by a key into a dictionary of lists, as the benchmark reports do. */
module Grouping {
  import opened Reals

  ghost predicate DistinctKeys(keys: seq<string>) {
    forall i, j :: 0 <= i < j < |keys| ==> keys[i] != keys[j]
  }

  function OfKey<V>(items: seq<V>, key: V -> string, k: string): seq<V> {
    if items == [] then []
    else
      var rest := OfKey(items[..|items| - 1], key, k);
      if key(items[|items| - 1]) == k then rest + [items[|items| - 1]] else rest
  }

  /** Where a key is first met, or the length of the list. */
  function FirstMet<V>(items: seq<V>, key: V -> string, k: string): (i: nat)
    ensures i <= |items|
    ensures i < |items| ==> key(items[i]) == k
    ensures forall j :: 0 <= j < i ==> key(items[j]) != k
  {
    if items == [] || key(items[0]) == k then 0 else 1 + FirstMet(items[1..], key, k)
  }

  /** The keys come in the order in which the items first have them. */
  ghost predicate InOrderMet<V>(items: seq<V>, key: V -> string, keys: seq<string>) {
    forall i, j :: 0 <= i < j < |keys| ==> FirstMet(items, key, keys[i]) < FirstMet(items, key, keys[j])
  }

  /** A key met in a part of the list is met there first. */
  lemma FirstMetInPrefix<V>(items: seq<V>, n: nat, key: V -> string, k: string)
    requires n <= |items|
    ensures FirstMet(items[..n], key, k) < n ==> FirstMet(items, key, k) == FirstMet(items[..n], key, k)
    ensures FirstMet(items[..n], key, k) == n ==> FirstMet(items, key, k) >= n
  {
    var i, j := FirstMet(items[..n], key, k), FirstMet(items, key, k);
    assert i < n ==> key(items[i]) == k;
    assert j < n ==> key(items[..n][j]) == k;
  }

  /** A new key comes last. */
  lemma NewKeyIsLast<V>(items: seq<V>, i: nat, key: V -> string, keys: seq<string>)
    requires i < |items| && InOrderMet(items[..i], key, keys)
    requires forall k :: k in keys ==> FirstMet(items[..i], key, k) < i
    ensures InOrderMet(items[..i + 1], key, keys)
    ensures key(items[i]) !in keys && FirstMet(items[..i], key, key(items[i])) == i ==>
      InOrderMet(items[..i + 1], key, keys + [key(items[i])])
    ensures forall k :: k in keys || k == key(items[i]) ==> FirstMet(items[..i + 1], key, k) < i + 1
  {
    var longer, x := items[..i + 1], key(items[i]);
    assert longer[..i] == items[..i];
    forall k | k in keys ensures FirstMet(longer, key, k) == FirstMet(items[..i], key, k) < i {
      FirstMetInPrefix(longer, i, key, k);
    }
    FirstMetInPrefix(longer, i, key, x);
    assert key(longer[i]) == x;
    hide FirstMet;
    assert forall j :: 0 <= j < |keys| ==> keys[j] in keys;
  }

  /** The dictionary, with its keys in insertion order. */
  ghost predicate IsGrouping<V>(items: seq<V>, key: V -> string, keys: seq<string>, buckets: map<string, seq<V>>) {
    && DistinctKeys(keys) && InOrderMet(items, key, keys)
    && (forall k :: k in keys <==> k in buckets)
    && (forall i :: 0 <= i < |items| ==> key(items[i]) in keys)
    && (forall k :: k in buckets ==> buckets[k] == OfKey(items, key, k) && buckets[k] != [])
  }

  lemma {:induction false} NothingOfMissingKey<V>(items: seq<V>, key: V -> string, k: string)
    requires forall i :: 0 <= i < |items| ==> key(items[i]) != k
    ensures OfKey(items, key, k) == []
  {
    if items != [] {
      NothingOfMissingKey(items[..|items| - 1], key, k);
    }
  }

  lemma OfKeyStep<V>(items: seq<V>, i: nat, key: V -> string, k: string)
    requires i < |items|
    ensures key(items[i]) == k ==> OfKey(items[..i + 1], key, k) == OfKey(items[..i], key, k) + [items[i]]
    ensures key(items[i]) != k ==> OfKey(items[..i + 1], key, k) == OfKey(items[..i], key, k)
  {
    assert items[..i + 1][..i] == items[..i];
  }

  /** The dictionary files every record seen so far under its key. */
  ghost predicate FilesAll<V>(items: seq<V>, key: V -> string, buckets: map<string, seq<V>>) {
    && (forall i :: 0 <= i < |items| ==> key(items[i]) in buckets)
    && (forall k :: k in buckets ==> buckets[k] == OfKey(items, key, k) && buckets[k] != [])
  }

  /** Filing one more record, under a new key if need be. */
  lemma FilingStep<V>(items: seq<V>, i: nat, key: V -> string, buckets: map<string, seq<V>>)
    requires i < |items| && FilesAll(items[..i], key, buckets)
    ensures var k := key(items[i]);
            FilesAll(items[..i + 1], key, buckets[k := (if k in buckets then buckets[k] else []) + [items[i]]])
  {
    var k := key(items[i]);
    var filed := buckets[k := (if k in buckets then buckets[k] else []) + [items[i]]];
    if k !in buckets {
      NothingOfMissingKey(items[..i], key, k);
    }
    hide OfKey;
    forall other | other in filed ensures filed[other] == OfKey(items[..i + 1], key, other) && filed[other] != [] {
      OfKeyStep(items, i, key, other);
    }
    var longer := items[..i + 1];
    forall j | 0 <= j < |longer| ensures key(longer[j]) in filed {
      assert j < i ==> longer[j] == items[..i][j];
    }
  }

  lemma NotMetBefore<V>(items: seq<V>, key: V -> string, buckets: map<string, seq<V>>, k: string)
    requires FilesAll(items, key, buckets) && k !in buckets
    ensures FirstMet(items, key, k) == |items|
  {
  }

  /** What the loop has done with the first `i` records. */
  ghost predicate Grouped<V>(items: seq<V>, i: nat, key: V -> string, keys: seq<string>, buckets: map<string, seq<V>>)
    requires i <= |items|
  {
    && DistinctKeys(keys) && (forall k :: k in keys <==> k in buckets)
    && FilesAll(items[..i], key, buckets)
    && InOrderMet(items[..i], key, keys) && forall k :: k in keys ==> FirstMet(items[..i], key, k) < i
  }

  lemma GroupStep<V>(items: seq<V>, i: nat, key: V -> string, keys: seq<string>, buckets: map<string, seq<V>>)
    requires i < |items| && Grouped(items, i, key, keys, buckets)
    ensures var k := key(items[i]);
            Grouped(items, i + 1, key, if k in buckets then keys else keys + [k],
              buckets[k := (if k in buckets then buckets[k] else []) + [items[i]]])
  {
    hide FilesAll, InOrderMet, FirstMet, DistinctKeys;
    var k := key(items[i]);
    FilingStep(items, i, key, buckets);
    NewKeyIsLast(items, i, key, keys);
    KeysStep(keys, buckets, k, (if k in buckets then buckets[k] else []) + [items[i]]);
    if k !in buckets {
      NotMetBefore(items[..i], key, buckets, k);
    }
  }

  lemma KeysStep<V>(keys: seq<string>, buckets: map<string, seq<V>>, k: string, bucket: seq<V>)
    requires DistinctKeys(keys) && forall x :: x in keys <==> x in buckets
    ensures var more := if k in buckets then keys else keys + [k];
            DistinctKeys(more) && forall x :: x in more <==> x in buckets[k := bucket]
  {
  }

  lemma NothingGrouped<V>(items: seq<V>, key: V -> string)
    ensures Grouped(items, 0, key, [], map[])
  {
  }

  lemma GroupedIsGrouping<V>(items: seq<V>, key: V -> string, keys: seq<string>, buckets: map<string, seq<V>>)
    requires Grouped(items, |items|, key, keys, buckets)
    ensures IsGrouping(items, key, keys, buckets)
  {
    assert items[..|items|] == items;
    hide OfKey, FirstMet;
  }

  method GroupBy<V>(items: seq<V>, key: V -> string) returns (keys: seq<string>, buckets: map<string, seq<V>>)
    ensures IsGrouping(items, key, keys, buckets)
  {
    hide *;
    keys, buckets := [], map[];
    NothingGrouped(items, key);
    for i := 0 to |items|
      invariant Grouped(items, i, key, keys, buckets)
    {
      var k := key(items[i]);
      GroupStep(items, i, key, keys, buckets);
      ghost var filed := buckets[k := (if k in buckets then buckets[k] else []) + [items[i]]];
      if k !in buckets {
        keys, buckets := keys + [k], buckets[k := []];
      }
      buckets := buckets[k := buckets[k] + [items[i]]];
      assert buckets == filed;
    }
    GroupedIsGrouping(items, key, keys, buckets);
  }

  /** All buckets one after the other, in key order. */
  ghost function Flatten<V>(items: seq<V>, key: V -> string, keys: seq<string>): seq<V> {
    if keys == [] then [] else OfKey(items, key, keys[0]) + Flatten(items, key, keys[1..])
  }

  lemma {:induction false} FlattenNothing<V>(key: V -> string, keys: seq<string>)
    ensures Flatten([], key, keys) == []
  {
    if keys != [] {
      FlattenNothing(key, keys[1..]);
    }
  }

  lemma {:induction false} FlattenSnoc<V>(items: seq<V>, x: V, key: V -> string, keys: seq<string>)
    requires DistinctKeys(keys)
    ensures multiset(Flatten(items + [x], key, keys))
         == multiset(Flatten(items, key, keys)) + if key(x) in keys then multiset{x} else multiset{}
  {
    if keys != [] {
      FlattenSnoc(items, x, key, keys[1..]);
      assert (items + [x])[..|items|] == items;
      assert keys == [keys[0]] + keys[1..];
      assert keys[0] !in keys[1..];
    }
  }

  /** Grouping neither loses nor duplicates a record. */
  lemma {:induction false} GroupingIsPartition<V>(items: seq<V>, key: V -> string, keys: seq<string>)
    requires DistinctKeys(keys) && forall i :: 0 <= i < |items| ==> key(items[i]) in keys
    ensures multiset(Flatten(items, key, keys)) == multiset(items)
  {
    if items == [] {
      FlattenNothing(key, keys);
    } else {
      var init, x := items[..|items| - 1], items[|items| - 1];
      assert items == init + [x];
      GroupingIsPartition(init, key, keys);
      FlattenSnoc(init, x, key, keys);
    }
  }

  // ----- Totals -----

  lemma {:induction false} TotalWithout<V>(s: seq<V>, i: nat, weight: V -> real)
    requires i < |s|
    ensures Total(s, weight) == weight(s[i]) + Total(s[..i] + s[i + 1..], weight)
    ensures multiset(s) == multiset{s[i]} + multiset(s[..i] + s[i + 1..])
  {
    assert s == s[..i] + [s[i]] + s[i + 1..];
    if i == 0 {
      assert s[..0] + s[1..] == s[1..];
    } else {
      TotalWithout(s[1..], i - 1, weight);
      var rest := s[..i] + s[i + 1..];
      assert rest[1..] == s[1..][..i - 1] + s[1..][i..];
    }
  }

  lemma {:induction false} TotalIgnoresOrder<V>(a: seq<V>, b: seq<V>, weight: V -> real)
    requires multiset(a) == multiset(b)
    ensures Total(a, weight) == Total(b, weight)
  {
    hide Total;
    assert |a| == |multiset(a)| == |b|;
    if a == [] {
      assert a == b;
    } else {
      assert a[0] in multiset(b);
      var i :| 0 <= i < |b| && b[i] == a[0];
      var c, d := a[..0] + a[1..], b[..i] + b[i + 1..];
      TotalWithout(a, 0, weight);
      TotalWithout(b, i, weight);
      assert multiset(c) == multiset(a) - multiset{a[0]};
      assert multiset(d) == multiset(b) - multiset{a[0]};
      TotalIgnoresOrder(c, d, weight);
    }
  }

  /** The total of each bucket, in key order. */
  function BucketTotals<V>(items: seq<V>, key: V -> string, keys: seq<string>, weight: V -> real): (r: seq<real>)
    ensures |r| == |keys|
    ensures forall i :: 0 <= i < |keys| ==> r[i] == Total(OfKey(items, key, keys[i]), weight)
  {
    seq(|keys|, i requires 0 <= i < |keys| => Total(OfKey(items, key, keys[i]), weight))
  }

  lemma {:induction false} TotalOfFlatten<V>(items: seq<V>, key: V -> string, keys: seq<string>, weight: V -> real)
    ensures Total(Flatten(items, key, keys), weight) == Sum(BucketTotals(items, key, keys, weight))
  {
    if keys != [] {
      TotalOfFlatten(items, key, keys[1..], weight);
      TotalOfConcat(OfKey(items, key, keys[0]), Flatten(items, key, keys[1..]), weight);
      assert BucketTotals(items, key, keys, weight)[1..] == BucketTotals(items, key, keys[1..], weight);
    }
  }

  /** Whatever is added up record by record, the buckets add up to the whole. */
  lemma GroupingConserves<V>(items: seq<V>, key: V -> string, keys: seq<string>, buckets: map<string, seq<V>>, weight: V -> real)
    requires IsGrouping(items, key, keys, buckets)
    ensures Sum(BucketTotals(items, key, keys, weight)) == Total(items, weight)
  {
    GroupingIsPartition(items, key, keys);
    TotalIgnoresOrder(Flatten(items, key, keys), items, weight);
    TotalOfFlatten(items, key, keys, weight);
  }

  /** In particular the bucket sizes add up to the number of records. */
  lemma {:induction false} FlattenLength<V>(items: seq<V>, key: V -> string, keys: seq<string>)
    ensures |Flatten(items, key, keys)| == SizeSum(items, key, keys)
  {
    if keys != [] {
      FlattenLength(items, key, keys[1..]);
    }
  }

  function SizeSum<V>(items: seq<V>, key: V -> string, keys: seq<string>): nat {
    if keys == [] then 0 else |OfKey(items, key, keys[0])| + SizeSum(items, key, keys[1..])
  }

  lemma BucketSizesAddUp<V>(items: seq<V>, key: V -> string, keys: seq<string>, buckets: map<string, seq<V>>)
    requires IsGrouping(items, key, keys, buckets)
    ensures SizeSum(items, key, keys) == |items|
  {
    GroupingIsPartition(items, key, keys);
    FlattenLength(items, key, keys);
    assert |multiset(items)| == |items|;
  }
}
