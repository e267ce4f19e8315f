/** Costs of operations, rounded per operation, per kind and once for the whole benchmark. */
module Costs {
  import opened Reals
  import opened Rounding
  import opened Grouping

  datatype TokenUsage = TokenUsage(input: int, output: int, retrieval: int)

  datatype Rates = Rates(per1kInput: real, per1kOutput: real, perRetrieval: real)

  /** The rates every summary uses, whatever the operations were charged with. */
  const SUMMARY_RATES := Rates(0.00015, 0.00060, 0.00001)

  datatype Operation = Operation(kind: string, success: bool, tokens: TokenUsage)

  datatype CostSummary = CostSummary(
    totalCost: real, inputTokens: int, outputTokens: int, retrievalUnits: int, perOperation: real, perSuccess: real)

  function ExactCost(u: TokenUsage, r: Rates): real {
    (u.input as real / 1000.0) * r.per1kInput + (u.output as real / 1000.0) * r.per1kOutput
      + u.retrieval as real * r.perRetrieval
  }

  /** What one operation is charged. */
  function ComputeCost(u: TokenUsage, r: Rates): real {
    Round(ExactCost(u, r), EIGHT_PLACES)
  }

  function SumUsage(usages: seq<TokenUsage>): TokenUsage {
    if usages == [] then TokenUsage(0, 0, 0)
    else
      var rest := SumUsage(usages[1..]);
      TokenUsage(usages[0].input + rest.input, usages[0].output + rest.output, usages[0].retrieval + rest.retrieval)
  }

  function ComputeCostSummary(usages: seq<TokenUsage>, r: Rates, successful: int, total: int): CostSummary {
    var sum := SumUsage(usages);
    var cost := ExactCost(sum, r);
    CostSummary(
      Round(cost, EIGHT_PLACES), sum.input, sum.output, sum.retrieval,
      if total != 0 then Round(cost / total as real, EIGHT_PLACES) else 0.0,
      if successful != 0 then Round(cost / successful as real, EIGHT_PLACES) else 0.0)
  }

  // ----- Adding up token counts adds up costs -----

  lemma LinearTerm(a: int, b: int, rate: real)
    ensures ((a + b) as real / 1000.0) * rate == (a as real / 1000.0) * rate + (b as real / 1000.0) * rate
    ensures (a + b) as real * rate == a as real * rate + b as real * rate
  {
    var x, y := a as real, b as real;
    assert (a + b) as real == x + y;
    assert (x + y) / 1000.0 == x / 1000.0 + y / 1000.0;
    assert (x / 1000.0 + y / 1000.0) * rate == (x / 1000.0) * rate + (y / 1000.0) * rate;
    assert (x + y) * rate == x * rate + y * rate;
  }

  lemma {:induction false} CostIsAdditive(usages: seq<TokenUsage>, r: Rates)
    ensures ExactCost(SumUsage(usages), r) == Total(usages, (u: TokenUsage) => ExactCost(u, r))
  {
    if usages == [] {
      assert ExactCost(TokenUsage(0, 0, 0), r) == 0.0;
    } else {
      CostIsAdditive(usages[1..], r);
      var u, rest := usages[0], SumUsage(usages[1..]);
      LinearTerm(u.input, rest.input, r.per1kInput);
      LinearTerm(u.output, rest.output, r.per1kOutput);
      LinearTerm(u.retrieval, rest.retrieval, r.perRetrieval);
    }
  }

  /** What each rate is the price of; with additivity this fixes every cost. */
  lemma UnitCosts(r: Rates)
    ensures ExactCost(TokenUsage(1000, 0, 0), r) == r.per1kInput
    ensures ExactCost(TokenUsage(0, 1000, 0), r) == r.per1kOutput
    ensures ExactCost(TokenUsage(0, 0, 1), r) == r.perRetrieval
  {
  }

  /** Prices are proportional: so many input tokens, output tokens and retrievals. */
  lemma CostByParts(u: TokenUsage, r: Rates)
    ensures ExactCost(u, r) * 1000.0
         == u.input as real * r.per1kInput + u.output as real * r.per1kOutput + u.retrieval as real * r.perRetrieval * 1000.0
  {
    Thousandth(u.input as real, r.per1kInput);
    Thousandth(u.output as real, r.per1kOutput);
  }

  lemma Thousandth(x: real, rate: real)
    ensures x / 1000.0 * rate * 1000.0 == x * rate
  {
  }

  // ----- Shares of the total -----

  /** `n` shares are the whole within `n + 1` half units of the eighth place. */
  predicate SharesAddUp(share: real, n: real, whole: real) {
    -(n + 1.0) * HALF_UNIT <= share * n - whole <= (n + 1.0) * HALF_UNIT
  }

  lemma ShareGap(share: real, whole: real, cost: real, exact: real, n: real)
    requires n > 0.0 && exact == cost / n
    requires share - HALF_UNIT <= exact <= share + HALF_UNIT && whole - HALF_UNIT <= cost <= whole + HALF_UNIT
    ensures SharesAddUp(share, n, whole)
  {
    var gap := share - exact;
    Product(HALF_UNIT - gap, n);
    Product(HALF_UNIT + gap, n);
    assert exact * n == cost;
    assert gap * n == share * n - exact * n;
  }

  lemma RoundedShare(cost: real, n: real)
    requires n > 0.0
    ensures SharesAddUp(Round(cost / n, EIGHT_PLACES), n, Round(cost, EIGHT_PLACES))
  {
    hide Round, SharesAddUp;
    RoundIsNear(cost / n, EIGHT_PLACES);
    RoundIsNear(cost, EIGHT_PLACES);
    ShareGap(Round(cost / n, EIGHT_PLACES), Round(cost, EIGHT_PLACES), cost, cost / n, n);
  }

  /** The cost per operation and per success, times their numbers, give the total again within
      one half unit for each and one for the total; without any they are zero. */
  lemma SharesMatchTotal(usages: seq<TokenUsage>, r: Rates, successful: int, total: int)
    requires successful >= 0 && total >= 0
    ensures var s := ComputeCostSummary(usages, r, successful, total);
            && (total == 0 ==> s.perOperation == 0.0) && (successful == 0 ==> s.perSuccess == 0.0)
            && (total > 0 ==> SharesAddUp(s.perOperation, total as real, s.totalCost))
            && (successful > 0 ==> SharesAddUp(s.perSuccess, successful as real, s.totalCost))
  {
    hide Round, ExactCost, SumUsage, SharesAddUp;
    var cost := ExactCost(SumUsage(usages), r);
    if total > 0 {
      RoundedShare(cost, total as real);
    }
    if successful > 0 {
      RoundedShare(cost, successful as real);
    }
  }

  // ----- Rounding drift -----

  function RoundEach(s: seq<real>): (r: seq<real>)
    ensures |r| == |s|
    ensures forall i :: 0 <= i < |s| ==> r[i] == Round(s[i], EIGHT_PLACES)
  {
    seq(|s|, i requires 0 <= i < |s| => Round(s[i], EIGHT_PLACES))
  }

  const HALF_UNIT := 0.000000005

  lemma {:induction false} SumOfRounded(s: seq<real>)
    ensures Sum(s) - |s| as real * HALF_UNIT <= Sum(RoundEach(s)) <= Sum(s) + |s| as real * HALF_UNIT
  {
    if s != [] {
      SumOfRounded(s[1..]);
      RoundIsNear(s[0], EIGHT_PLACES);
      assert RoundEach(s)[1..] == RoundEach(s[1..]);
    }
  }

  /** Rounding `n` figures and adding them differs from rounding their sum by at most `n + 1`
      half units of the eighth place. */
  lemma RoundingDrift(s: seq<real>)
    ensures var drift := Sum(RoundEach(s)) - Round(Sum(s), EIGHT_PLACES);
            -((|s| + 1) as real) * HALF_UNIT <= drift <= (|s| + 1) as real * HALF_UNIT
  {
    SumOfRounded(s);
    RoundIsNear(Sum(s), EIGHT_PLACES);
  }

  function ExactCosts(usages: seq<TokenUsage>, r: Rates): (costs: seq<real>)
    ensures |costs| == |usages|
  {
    seq(|usages|, i requires 0 <= i < |usages| => ExactCost(usages[i], r))
  }

  /** What the operations were charged, one by one. */
  function Charged(usages: seq<TokenUsage>, r: Rates): seq<real> {
    seq(|usages|, i requires 0 <= i < |usages| => ComputeCost(usages[i], r))
  }

  lemma {:induction false} SumOfExactCosts(usages: seq<TokenUsage>, r: Rates)
    ensures Sum(ExactCosts(usages, r)) == Total(usages, (u: TokenUsage) => ExactCost(u, r))
  {
    if usages != [] {
      SumOfExactCosts(usages[1..], r);
      assert ExactCosts(usages, r)[1..] == ExactCosts(usages[1..], r);
    }
  }

  /** With the same rates, the charges of `n` operations add up to the summary total within
      `(n + 1)` half units. */
  lemma ChargesMatchSummary(usages: seq<TokenUsage>, r: Rates, successful: int, total: int)
    ensures var drift := Sum(Charged(usages, r)) - ComputeCostSummary(usages, r, successful, total).totalCost;
            -((|usages| + 1) as real) * HALF_UNIT <= drift <= (|usages| + 1) as real * HALF_UNIT
  {
    assert Charged(usages, r) == RoundEach(ExactCosts(usages, r));
    RoundingDrift(ExactCosts(usages, r));
    SumOfExactCosts(usages, r);
    CostIsAdditive(usages, r);
  }

  // ----- Costs by kind -----

  function Tokens(ops: seq<Operation>): (t: seq<TokenUsage>)
    ensures |t| == |ops|
  {
    seq(|ops|, i requires 0 <= i < |ops| => ops[i].tokens)
  }

  function Successes(ops: seq<Operation>): nat {
    if ops == [] then 0 else (if ops[0].success then 1 else 0) + Successes(ops[1..])
  }

  function OneIfZero(n: int): int {
    if n == 0 then 1 else n
  }

  function SummaryOf(ops: seq<Operation>): CostSummary {
    ComputeCostSummary(Tokens(ops), SUMMARY_RATES, OneIfZero(Successes(ops)), OneIfZero(|ops|))
  }

  datatype KindRow = KindRow(kind: string, count: nat, successful: nat, cost: CostSummary)

  function KindOf(op: Operation): string {
    op.kind
  }

  /** One row per kind, in the order in which the kinds first appear. */
  method CostByKind(ops: seq<Operation>) returns (keys: seq<string>, rows: seq<KindRow>, ghost buckets: map<string, seq<Operation>>)
    ensures IsGrouping(ops, KindOf, keys, buckets) && |rows| == |keys|
    ensures forall i :: 0 <= i < |rows| ==>
      var bucket := OfKey(ops, KindOf, keys[i]);
      rows[i] == KindRow(keys[i], |bucket|, Successes(bucket), SummaryOf(bucket))
  {
    hide SummaryOf, Successes, OfKey;
    var groups: map<string, seq<Operation>>;
    keys, groups := GroupBy(ops, KindOf);
    buckets := groups;
    rows := [];
    for i := 0 to |keys|
      invariant |rows| == i
      invariant forall j :: 0 <= j < i ==>
        var bucket := OfKey(ops, KindOf, keys[j]);
        rows[j] == KindRow(keys[j], |bucket|, Successes(bucket), SummaryOf(bucket))
    {
      assert keys[i] in keys;
      var bucket := groups[keys[i]];
      rows := rows + [KindRow(keys[i], |bucket|, Successes(bucket), SummaryOf(bucket))];
    }
  }

  function OpCost(op: Operation): real {
    ExactCost(op.tokens, SUMMARY_RATES)
  }

  lemma {:induction false} TokensTotal(ops: seq<Operation>)
    ensures ExactCost(SumUsage(Tokens(ops)), SUMMARY_RATES) == Total(ops, OpCost)
  {
    CostIsAdditive(Tokens(ops), SUMMARY_RATES);
    TotalsAgree(ops);
  }

  lemma {:induction false} TotalsAgree(ops: seq<Operation>)
    ensures Total(Tokens(ops), (u: TokenUsage) => ExactCost(u, SUMMARY_RATES)) == Total(ops, OpCost)
  {
    if ops != [] {
      TotalsAgree(ops[1..]);
      assert Tokens(ops)[1..] == Tokens(ops[1..]);
    }
  }

  function KindCosts(ops: seq<Operation>, keys: seq<string>): (r: seq<real>)
    ensures |r| == |keys|
  {
    seq(|keys|, i requires 0 <= i < |keys| => SummaryOf(OfKey(ops, KindOf, keys[i])).totalCost)
  }

  /** The costs of the kinds add up to the total of the whole within `kinds + 1` half units,
      and the counts exactly. */
  lemma KindsMatchSummary(ops: seq<Operation>, keys: seq<string>, buckets: map<string, seq<Operation>>)
    requires IsGrouping(ops, KindOf, keys, buckets)
    ensures var drift := Sum(KindCosts(ops, keys)) - SummaryOf(ops).totalCost;
            -((|keys| + 1) as real) * HALF_UNIT <= drift <= (|keys| + 1) as real * HALF_UNIT
    ensures SizeSum(ops, KindOf, keys) == |ops|
  {
    var exact := BucketTotals(ops, KindOf, keys, OpCost);
    forall i | 0 <= i < |keys| ensures KindCosts(ops, keys)[i] == RoundEach(exact)[i] {
      TokensTotal(OfKey(ops, KindOf, keys[i]));
    }
    assert KindCosts(ops, keys) == RoundEach(exact);
    RoundingDrift(exact);
    GroupingConserves(ops, KindOf, keys, buckets, OpCost);
    TokensTotal(ops);
    BucketSizesAddUp(ops, KindOf, keys, buckets);
  }

  // ----- Token counts by kind -----

  function InputTokens(op: Operation): real { op.tokens.input as real }

  function OutputTokens(op: Operation): real { op.tokens.output as real }

  function RetrievalUnits(op: Operation): real { op.tokens.retrieval as real }

  function OneIfSuccessful(op: Operation): real { if op.success then 1.0 else 0.0 }

  lemma {:induction false} CountsAreTotals(ops: seq<Operation>)
    ensures SummaryOf(ops).inputTokens as real == Total(ops, InputTokens)
    ensures SummaryOf(ops).outputTokens as real == Total(ops, OutputTokens)
    ensures SummaryOf(ops).retrievalUnits as real == Total(ops, RetrievalUnits)
    ensures Successes(ops) as real == Total(ops, OneIfSuccessful)
  {
    hide Round, ExactCost;
    if ops != [] {
      CountsAreTotals(ops[1..]);
      assert Tokens(ops)[1..] == Tokens(ops[1..]);
    }
  }

  /** Whatever is counted, the kinds' counts add up to the count of the whole. */
  function KindCounts(ops: seq<Operation>, keys: seq<string>, count: seq<Operation> -> real): (r: seq<real>)
    ensures |r| == |keys|
    ensures forall i :: 0 <= i < |keys| ==> r[i] == count(OfKey(ops, KindOf, keys[i]))
  {
    seq(|keys|, i requires 0 <= i < |keys| => count(OfKey(ops, KindOf, keys[i])))
  }

  lemma KindCountsAddUp(ops: seq<Operation>, keys: seq<string>, buckets: map<string, seq<Operation>>)
    requires IsGrouping(ops, KindOf, keys, buckets)
    ensures Sum(KindCounts(ops, keys, (o: seq<Operation>) => SummaryOf(o).inputTokens as real)) == SummaryOf(ops).inputTokens as real
    ensures Sum(KindCounts(ops, keys, (o: seq<Operation>) => SummaryOf(o).outputTokens as real)) == SummaryOf(ops).outputTokens as real
    ensures Sum(KindCounts(ops, keys, (o: seq<Operation>) => SummaryOf(o).retrievalUnits as real)) == SummaryOf(ops).retrievalUnits as real
    ensures Sum(KindCounts(ops, keys, (o: seq<Operation>) => Successes(o) as real)) == Successes(ops) as real
  {
    hide SummaryOf, Successes, Sum, OfKey, IsGrouping, Total;
    forall o: seq<Operation>
      ensures SummaryOf(o).inputTokens as real == Total(o, InputTokens)
      ensures SummaryOf(o).outputTokens as real == Total(o, OutputTokens)
      ensures SummaryOf(o).retrievalUnits as real == Total(o, RetrievalUnits)
      ensures Successes(o) as real == Total(o, OneIfSuccessful)
    {
      CountsAreTotals(o);
    }
    KindCountsConserve(ops, keys, buckets, (o: seq<Operation>) => SummaryOf(o).inputTokens as real, InputTokens);
    KindCountsConserve(ops, keys, buckets, (o: seq<Operation>) => SummaryOf(o).outputTokens as real, OutputTokens);
    KindCountsConserve(ops, keys, buckets, (o: seq<Operation>) => SummaryOf(o).retrievalUnits as real, RetrievalUnits);
    KindCountsConserve(ops, keys, buckets, (o: seq<Operation>) => Successes(o) as real, OneIfSuccessful);
  }

  lemma KindCountsConserve(
    ops: seq<Operation>, keys: seq<string>, buckets: map<string, seq<Operation>>,
    count: seq<Operation> -> real, weight: Operation -> real)
    requires IsGrouping(ops, KindOf, keys, buckets)
    requires forall o :: count(o) == Total(o, weight)
    ensures Sum(KindCounts(ops, keys, count)) == count(ops)
  {
    assert KindCounts(ops, keys, count) == BucketTotals(ops, KindOf, keys, weight);
    GroupingConserves(ops, KindOf, keys, buckets, weight);
  }
}
