/**
Strategy leaderboards. The evaluator ranks by the exact composite score; the standalone
runner rounds every figure to four places first and ranks by the rounded score.
 */
module Leaderboards {
  import opened Sorting
  import opened Rounding
  import opened RankingMetrics

  datatype Averages = Averages(
    recall5: real, recall10: real, mrr: real, precision5: real, precision10: real,
    hitRate: real, ndcg5: real, ndcg10: real, latencyMs: real)

  datatype StrategyResult = StrategyResult(strategy: string, avg: Averages)

  datatype Entry = Entry(strategy: string, avg: Averages, score: real, rank: nat)

  /** The metrics handed to the composite score; precision at ten is not among them. */
  function CompositeOf(avg: Averages): real {
    CompositeScore(
      map[Recall(5) := avg.recall5, Recall(10) := avg.recall10, MeanRank := avg.mrr,
          Precision(5) := avg.precision5, Hits := avg.hitRate, Ndcg(5) := avg.ndcg5, Ndcg(10) := avg.ndcg10],
      DEFAULT_WEIGHTS)
  }

  function ExactEntry(r: StrategyResult): Entry {
    Entry(r.strategy, r.avg, CompositeOf(r.avg), 0)
  }

  function RoundAverages(a: Averages): Averages {
    Averages(
      Round(a.recall5, FOUR_PLACES), Round(a.recall10, FOUR_PLACES), Round(a.mrr, FOUR_PLACES),
      Round(a.precision5, FOUR_PLACES), Round(a.precision10, FOUR_PLACES), Round(a.hitRate, FOUR_PLACES),
      Round(a.ndcg5, FOUR_PLACES), Round(a.ndcg10, FOUR_PLACES), Round(a.latencyMs, TWO_PLACES))
  }

  function RoundEntry(e: Entry): Entry {
    Entry(e.strategy, RoundAverages(e.avg), Round(e.score, FOUR_PLACES), e.rank)
  }

  predicate ByScore(a: Entry, b: Entry) {
    a.score >= b.score
  }

  function Entries(results: seq<StrategyResult>, rounded: bool): seq<Entry> {
    seq(|results|, i requires 0 <= i < |results| =>
      if rounded then RoundEntry(ExactEntry(results[i])) else ExactEntry(results[i]))
  }

  /** The board before ranks are written into it. */
  function Order(results: seq<StrategyResult>, rounded: bool): seq<Entry> {
    Sort(ByScore, Entries(results, rounded))
  }

  method GenerateLeaderboard(results: seq<StrategyResult>, rounded: bool) returns (board: seq<Entry>)
    ensures |board| == |results|
    ensures forall i :: 0 <= i < |board| ==> board[i] == Order(results, rounded)[i].(rank := i + 1)
  {
    board := [];
    for i := 0 to |results|
      invariant board == Entries(results, rounded)[..i]
    {
      var entry := ExactEntry(results[i]);
      board := board + [if rounded then RoundEntry(entry) else entry];
    }
    assert board == Entries(results, rounded);
    board := Sort(ByScore, board);
    for i := 0 to |board|
      invariant |board| == |results|
      invariant forall j :: 0 <= j < i ==> board[j] == Order(results, rounded)[j].(rank := j + 1)
      invariant forall j :: i <= j < |board| ==> board[j] == Order(results, rounded)[j]
    {
      board := board[i := board[i].(rank := i + 1)];
    }
  }

  lemma ByScoreIsTotal()
    ensures TotalPreorder(ByScore)
  {
  }

  lemma OrderIsSorted(results: seq<StrategyResult>, rounded: bool)
    ensures SortedBy(ByScore, Order(results, rounded))
  {
    ByScoreIsTotal();
    SortSorts(ByScore, Entries(results, rounded));
  }

  /** Either board lists every strategy once, best score first, and strategies with the same
      score in the order they were evaluated. */
  lemma BoardIsStableRanking(results: seq<StrategyResult>, rounded: bool, e: Entry)
    ensures multiset(Order(results, rounded)) == multiset(Entries(results, rounded))
    ensures SortedBy(ByScore, Order(results, rounded))
    ensures Ties(ByScore, e, Order(results, rounded)) == Ties(ByScore, e, Entries(results, rounded))
  {
    ByScoreIsTotal();
    SortPermutes(ByScore, Entries(results, rounded));
    OrderIsSorted(results, rounded);
    SortIsStable(ByScore, e, Entries(results, rounded));
  }

  lemma ScoreIsNear(e: Entry)
    ensures e.score - 0.00005 <= RoundEntry(e).score <= e.score + 0.00005
  {
    RoundIsNear(e.score, FOUR_PLACES);
  }

  /** Rounding can put a strategy behind a worse one only when their exact scores differ by at
      most one unit of the fourth place, and then only because the rounded scores tie. */
  lemma InversionsAreTies(results: seq<StrategyResult>, a: Entry, b: Entry, i: nat, j: nat)
    requires i < j < |results|
    requires Order(results, true)[i] == RoundEntry(a) && Order(results, true)[j] == RoundEntry(b)
    requires a.score < b.score
    ensures b.score - a.score <= 0.0001
    ensures RoundEntry(a).score == RoundEntry(b).score
  {
    OrderIsSorted(results, true);
    assert ByScore(Order(results, true)[i], Order(results, true)[j]);
    RoundMonotone(a.score, b.score, FOUR_PLACES);
    ScoreIsNear(a);
    ScoreIsNear(b);
  }

  predicate Near(x: real, y: real, distance: real) {
    y - distance <= x <= y + distance
  }

  /** Every figure on the rounded board is within half a unit of the strategy's own. */
  lemma FiguresAreNear(e: Entry)
    ensures var r, a := RoundEntry(e).avg, e.avg;
            && Near(r.recall5, a.recall5, 0.00005) && Near(r.recall10, a.recall10, 0.00005)
            && Near(r.mrr, a.mrr, 0.00005)
            && Near(r.precision5, a.precision5, 0.00005) && Near(r.precision10, a.precision10, 0.00005)
            && Near(r.hitRate, a.hitRate, 0.00005)
            && Near(r.ndcg5, a.ndcg5, 0.00005) && Near(r.ndcg10, a.ndcg10, 0.00005)
            && Near(r.latencyMs, a.latencyMs, 0.005)
            && RoundEntry(e).strategy == e.strategy && RoundEntry(e).rank == e.rank
  {
    var a := e.avg;
    FourPlaces(a.recall5);
    FourPlaces(a.recall10);
    FourPlaces(a.mrr);
    FourPlaces(a.precision5);
    FourPlaces(a.precision10);
    FourPlaces(a.hitRate);
    FourPlaces(a.ndcg5);
    FourPlaces(a.ndcg10);
    RoundIsNear(a.latencyMs, TWO_PLACES);
    hide Round;
  }

  lemma FourPlaces(x: real)
    ensures Near(Round(x, FOUR_PLACES), x, 0.00005)
  {
    RoundIsNear(x, FOUR_PLACES);
  }

  function RoundAll(entries: seq<Entry>): seq<Entry> {
    Mapped(RoundEntry, entries)
  }

  /** Exact scores are pairwise more than one unit of the fourth place apart. */
  ghost predicate WellSeparated(results: seq<StrategyResult>) {
    forall i, j :: 0 <= i < |results| && 0 <= j < |results| && i != j ==>
      Apart(CompositeOf(results[i].avg), CompositeOf(results[j].avg))
  }

  predicate Apart(x: real, y: real) {
    x - y > 0.0001 || y - x > 0.0001
  }

  /** On well-separated scores the runner's leaderboard is the evaluator's, rounded. */
  lemma RoundedBoardIsExactBoard(results: seq<StrategyResult>)
    requires WellSeparated(results)
    ensures Order(results, true) == RoundAll(Order(results, false))
  {
    var exact, rounded := Order(results, false), Order(results, true);
    SortPermutes(ByScore, Entries(results, false));
    SortPermutes(ByScore, Entries(results, true));
    MappedPermutes(RoundEntry, exact, Entries(results, false));
    assert RoundAll(Entries(results, false)) == Entries(results, true);
    OrderIsSorted(results, true);
    RoundedExactIsSorted(results);
    forall x, y | x in rounded && y in rounded && ByScore(x, y) && ByScore(y, x) ensures x == y {
      assert x in multiset(rounded) && y in multiset(rounded);
      NoTies(results, x, y);
    }
    ByScoreIsTotal();
    SortedIsUnique(ByScore, rounded, RoundAll(exact));
  }

  lemma RoundedExactIsSorted(results: seq<StrategyResult>)
    ensures SortedBy(ByScore, RoundAll(Order(results, false)))
  {
    var exact := Order(results, false);
    OrderIsSorted(results, false);
    forall i, j | 0 <= i < j < |exact| ensures ByScore(RoundAll(exact)[i], RoundAll(exact)[j]) {
      assert ByScore(exact[i], exact[j]);
      RoundMonotone(exact[j].score, exact[i].score, FOUR_PLACES);
    }
  }

  lemma NoTies(results: seq<StrategyResult>, x: Entry, y: Entry)
    requires WellSeparated(results)
    requires x in Entries(results, true) && y in Entries(results, true) && x.score == y.score
    ensures x == y
  {
    var i :| 0 <= i < |results| && Entries(results, true)[i] == x;
    var j :| 0 <= j < |results| && Entries(results, true)[j] == y;
    TiedMeansClose(ExactEntry(results[i]), ExactEntry(results[j]));
  }

  lemma TiedMeansClose(a: Entry, b: Entry)
    requires RoundEntry(a).score == RoundEntry(b).score
    ensures !Apart(a.score, b.score)
  {
    ScoreIsNear(a);
    ScoreIsNear(b);
  }
}
