/**
Guarantees of the rate limiter over whole runs of one identity with a fixed limit and
window. `times` holds the clock readings in lock order; `After(times, n, ..)` is the state
once the first `n` calls have been answered, and its `log` keeps every acceptance ever made.
 */
module RateLimiterRuns {
  import opened RateLimiter

  datatype State = State(queue: seq<real>, log: seq<real>)

  function After(times: seq<real>, n: nat, limit: int, window: real): State
    requires n <= |times| && limit >= 1
  {
    if n == 0 then State([], []) else Advance(After(times, n - 1, limit, window), limit, window, times[n - 1])
  }

  function Advance(s: State, limit: int, window: real, now: real): State {
    var a := Admit(s.queue, limit, window, now);
    State(a.queue, if a.outcome.Allowed? then s.log + [now] else s.log)
  }

  lemma AfterStep(times: seq<real>, n: nat, limit: int, window: real)
    requires 1 <= n <= |times| && limit >= 1
    ensures After(times, n, limit, window) == Advance(After(times, n - 1, limit, window), limit, window, times[n - 1])
  {
  }

  /** The answer to call number `k`. */
  function Answer(times: seq<real>, k: nat, limit: int, window: real): Outcome
    requires k < |times| && limit >= 1
  {
    Admit(After(times, k, limit, window).queue, limit, window, times[k]).outcome
  }

  /** Readings taken in lock order run backwards by at most `drift`. */
  ghost predicate DriftsAtMost(times: seq<real>, drift: real) {
    forall i, j :: 0 <= i < j < |times| ==> times[i] - drift <= times[j]
  }

  ghost predicate NonDecreasing(times: seq<real>) {
    DriftsAtMost(times, 0.0)
  }

  /** How many readings lie in the closed interval of the given length. */
  function InWindow(s: seq<real>, start: real, length: real): nat {
    if s == [] then 0
    else
      var t := s[|s| - 1];
      InWindow(s[..|s| - 1], start, length) + if start <= t <= start + length then 1 else 0
  }

  // ----- The queue is the tail of the log -----

  ghost predicate Expired(times: seq<real>, n: nat, window: real, t: real)
    requires n <= |times|
  {
    exists j :: 0 <= j < n && t < times[j] - window
  }

  /** The queue is the last part of the log. */
  ghost predicate TailOfLog(s: State) {
    |s.queue| <= |s.log| && s.queue == s.log[|s.log| - |s.queue|..]
  }

  /** A call prunes the queue, and appends the reading to queue and log or to neither. */
  lemma AdvanceForm(s: State, limit: int, window: real, now: real)
    requires limit >= 1
    ensures var p := Prune(s.queue, now - window);
            Advance(s, limit, window, now) == if |p| < limit then State(p + [now], s.log + [now]) else State(p, s.log)
  {
  }

  /** A call keeps the queue a tail of the log ... */
  lemma AdvanceKeepsTail(s: State, limit: int, window: real, now: real)
    requires TailOfLog(s) && limit >= 1
    ensures var t := Advance(s, limit, window, now);
            && TailOfLog(t) && (|s.queue| <= limit ==> |t.queue| <= limit)
            && |t.log| - |t.queue| == |s.log| - |Prune(s.queue, now - window)|
            && (t.log == s.log || t.log == s.log + [now])
  {
    hide Prune, Advance;
    AdvanceForm(s, limit, window, now);
    PruneOfTail(s.log, s.queue, now - window);
    SnocTail(s.log, Prune(s.queue, now - window), now);
  }

  /** ... and what it drops is below its cutoff. */
  lemma AdvanceDropsExpired(s: State, limit: int, window: real, now: real)
    requires TailOfLog(s) && limit >= 1
    ensures var t := Advance(s, limit, window, now);
            |s.log| - |s.queue| <= |t.log| - |t.queue| <= |s.log|
            && forall i :: |s.log| - |s.queue| <= i < |t.log| - |t.queue| ==> t.log[i] < now - window
  {
    PruneOfTail(s.log, s.queue, now - window);
    AdvanceKeepsTail(s, limit, window, now);
    hide Advance;
  }

  lemma PruneOfTail(log: seq<real>, q: seq<real>, cutoff: real)
    requires |q| <= |log| && q == log[|log| - |q|..]
    ensures Prune(q, cutoff) == log[|log| - |Prune(q, cutoff)|..]
    ensures forall i :: |log| - |q| <= i < |log| - |Prune(q, cutoff)| ==> log[i] < cutoff
  {
    PruneKeepsTail(q, cutoff);
    var d := |log| - |q|;
    forall i | d <= i < |log| - |Prune(q, cutoff)| ensures log[i] < cutoff {
      assert log[i] == q[i - d];
    }
  }

  lemma SnocTail(log: seq<real>, p: seq<real>, now: real)
    requires |p| <= |log| && p == log[|log| - |p|..]
    ensures p + [now] == (log + [now])[|log| - |p|..]
  {
  }

  /** The queue is always the last part of the acceptance log, at most `limit` long, and
      everything the log has beyond it was expired by some reading already taken. */
  lemma {:induction false} QueueIsTailOfLog(times: seq<real>, n: nat, limit: int, window: real)
    requires n <= |times| && limit >= 1
    ensures var s := After(times, n, limit, window);
            && |s.queue| <= limit && TailOfLog(s)
            && forall i :: 0 <= i < |s.log| - |s.queue| ==> Expired(times, n, window, s.log[i])
  {
    if n > 0 {
      QueueIsTailOfLog(times, n - 1, limit, window);
      var b, s := After(times, n - 1, limit, window), After(times, n, limit, window);
      AdvanceKeepsTail(b, limit, window, times[n - 1]);
      AdvanceDropsExpired(b, limit, window, times[n - 1]);
      hide Advance, Prune;
      forall i | 0 <= i < |s.log| - |s.queue|
        ensures Expired(times, n, window, s.log[i])
      {
        if i < |b.log| - |b.queue| {
          ExpiredStays(times, n, window, b.log[i]);
        } else {
          assert s.log[i] < times[n - 1] - window;
        }
      }
    }
  }

  lemma ExpiredStays(times: seq<real>, n: nat, window: real, t: real)
    requires 1 <= n <= |times| && Expired(times, n - 1, window, t)
    ensures Expired(times, n, window, t)
  {
    var j :| 0 <= j < n - 1 && t < times[j] - window;
    assert t < times[j] - window;
  }

  // ----- Window bound under clock drift -----

  /** Any acceptance is more than `window - drift` later than the one `limit` places before it. */
  lemma {:induction false} AcceptancesAreSpread(times: seq<real>, n: nat, limit: int, window: real, drift: real, i: nat, k: nat)
    requires n <= |times| && limit >= 1 && DriftsAtMost(times, drift) && drift >= 0.0
    requires i + limit <= k < |After(times, n, limit, window).log|
    ensures var log := After(times, n, limit, window).log; log[k] - log[i] > window - drift
  {
    if n > 0 {
      var b := After(times, n - 1, limit, window);
      var s := After(times, n, limit, window);
      if k < |b.log| {
        AcceptancesAreSpread(times, n - 1, limit, window, drift, i, k);
      } else {
        QueueIsTailOfLog(times, n, limit, window);
        assert Expired(times, n, window, s.log[i]);
        var j :| 0 <= j < n && s.log[i] < times[j] - window;
        assert times[j] - drift <= times[n - 1];
      }
    }
  }

  lemma {:induction false} SpreadBoundsWindow(log: seq<real>, limit: int, start: real, length: real)
    requires limit >= 1
    requires forall i, k :: 0 <= i && i + limit <= k < |log| ==> log[k] - log[i] > length
    ensures InWindow(log, start, length) <= limit
  {
    if log != [] {
      var last := |log| - 1;
      SpreadBoundsWindow(log[..last], limit, start, length);
      if start <= log[last] <= start + length {
        var far := if |log| >= limit then |log| - limit else 0;
        forall i | 0 <= i < far ensures !(start <= log[i] <= start + length) {
          assert log[last] - log[i] > length;
        }
        InWindowTail(log, far, start, length);
      }
    }
  }

  lemma {:induction false} InWindowTail(s: seq<real>, from: nat, start: real, length: real)
    requires from <= |s|
    requires forall i :: 0 <= i < from ==> !(start <= s[i] <= start + length)
    ensures InWindow(s, start, length) <= |s| - from
  {
    if s != [] {
      var init := s[..|s| - 1];
      InWindowTail(init, if from < |s| then from else |s| - 1, start, length);
    }
  }

  /** Whole-run bound: if lock-order readings run backwards by at most `drift`, every closed
      interval of length `window - drift` holds at most `limit` acceptances. */
  lemma WindowBound(times: seq<real>, n: nat, limit: int, window: real, drift: real, start: real)
    requires n <= |times| && limit >= 1 && DriftsAtMost(times, drift) && drift >= 0.0
    ensures InWindow(After(times, n, limit, window).log, start, window - drift) <= limit
  {
    hide After, InWindow, DriftsAtMost;
    var log := After(times, n, limit, window).log;
    forall i, k | 0 <= i && i + limit <= k < |log| ensures log[k] - log[i] > window - drift {
      AcceptancesAreSpread(times, n, limit, window, drift, i, k);
    }
    SpreadBoundsWindow(log, limit, start, window - drift);
  }

  // ----- The bound is tight -----

  function Repeat(x: real, n: nat): (s: seq<real>)
    ensures |s| == n && forall i :: 0 <= i < n ==> s[i] == x
  {
    seq(n, i => x)
  }

  /** `limit` readings at zero, one just past the window, and the rest set back by the drift. */
  function TightRun(limit: nat, window: real, drift: real, excess: real): seq<real>
    requires limit >= 1
  {
    Repeat(0.0, limit) + [window + excess] + Repeat(window + excess - drift, limit - 1)
  }

  lemma {:induction false} PruneExpired(n: nat, cutoff: real)
    requires cutoff > 0.0
    ensures Prune(Repeat(0.0, n), cutoff) == []
  {
    if n > 0 {
      PruneExpired(n - 1, cutoff);
      assert Repeat(0.0, n)[1..] == Repeat(0.0, n - 1);
    }
  }

  /** Appending a reading that finds room behind a front that has not expired. */
  lemma AcceptBehindFront(s: State, limit: int, window: real, now: real)
    requires |s.queue| < limit && (s.queue != [] ==> s.queue[0] >= now - window)
    ensures Advance(s, limit, window, now) == State(s.queue + [now], s.log + [now])
  {
  }

  lemma {:induction false} EarlyReadings(times: seq<real>, n: nat, limit: int, window: real)
    requires n <= limit && n <= |times| && limit >= 1 && window >= 0.0
    requires forall i :: 0 <= i < n ==> times[i] == 0.0
    ensures After(times, n, limit, window) == State(Repeat(0.0, n), Repeat(0.0, n))
  {
    if n > 0 {
      EarlyReadings(times, n - 1, limit, window);
      AcceptBehindFront(After(times, n - 1, limit, window), limit, window, 0.0);
      assert Repeat(0.0, n) == Repeat(0.0, n - 1) + [0.0];
      hide Advance;
    } else {
      assert Repeat(0.0, 0) == [];
    }
  }

  /** One more late reading, not expired behind the first of the new window. */
  lemma LateReading(zeros: seq<real>, first: real, late: real, j: nat, limit: int, window: real)
    requires j + 1 < limit && first >= late - window
    ensures Advance(State([first] + Repeat(late, j), zeros + [first] + Repeat(late, j)), limit, window, late)
         == State([first] + Repeat(late, j + 1), zeros + [first] + Repeat(late, j + 1))
  {
    var r := Repeat(late, j);
    AcceptBehindFront(State([first] + r, zeros + [first] + r), limit, window, late);
    assert Repeat(late, j + 1) == r + [late];
    hide Repeat, Advance;
    assert [first] + r + [late] == [first] + (r + [late]);
    assert zeros + [first] + r + [late] == zeros + [first] + (r + [late]);
  }

  lemma FirstOfNewWindow(limit: nat, window: real, first: real)
    requires limit >= 1 && first > window
    ensures Advance(State(Repeat(0.0, limit), Repeat(0.0, limit)), limit, window, first)
         == State([first], Repeat(0.0, limit) + [first])
  {
    PruneExpired(limit, first - window);
    hide Repeat;
  }

  lemma FirstReadings(times: seq<real>, limit: nat, window: real, first: real)
    requires limit >= 1 && window >= 0.0 && first > window
    requires limit < |times| && times[limit] == first && forall i :: 0 <= i < limit ==> times[i] == 0.0
    ensures After(times, limit + 1, limit, window) == State([first], Repeat(0.0, limit) + [first])
  {
    AfterStep(times, limit + 1, limit, window);
    EarlyReadings(times, limit, limit, window);
    FirstOfNewWindow(limit, window, first);
    hide Advance, After, Repeat;
  }

  lemma {:induction false} LateReadings(times: seq<real>, j: nat, limit: nat, window: real, first: real, late: real)
    requires limit >= 1 && window >= 0.0 && first > window && first >= late - window
    requires limit + j < |times| && j <= limit - 1
    requires times[limit] == first && forall i :: 0 <= i < limit ==> times[i] == 0.0
    requires forall i :: limit < i <= limit + j ==> times[i] == late
    ensures After(times, limit + 1 + j, limit, window)
         == State([first] + Repeat(late, j), Repeat(0.0, limit) + [first] + Repeat(late, j))
  {
    hide Advance, After;
    if j == 0 {
      FirstReadings(times, limit, window, first);
      assert Repeat(late, 0) == [];
    } else {
      LateReadings(times, j - 1, limit, window, first, late);
      AfterStep(times, limit + 1 + j, limit, window);
      LateReading(Repeat(0.0, limit), first, late, j - 1, limit, window);
    }
  }

  lemma {:induction false} InWindowRepeat(s: seq<real>, x: real, n: nat, start: real, length: real)
    ensures InWindow(s + Repeat(x, n), start, length)
         == InWindow(s, start, length) + if start <= x <= start + length then n else 0
  {
    var t := s + Repeat(x, n);
    if n == 0 {
      assert t == s;
    } else {
      InWindowRepeat(s, x, n - 1, start, length);
      assert t[..|t| - 1] == s + Repeat(x, n - 1);
    }
  }

  lemma TightRunDrifts(limit: nat, window: real, drift: real, excess: real)
    requires limit >= 1 && 0.0 < drift <= window + excess
    ensures DriftsAtMost(TightRun(limit, window, drift, excess), drift)
  {
  }

  lemma TightRunCount(limit: nat, window: real, drift: real, excess: real)
    requires limit >= 1 && 0.0 < drift <= window + excess
    ensures InWindow(TightRun(limit, window, drift, excess), 0.0, window - drift + excess) == 2 * limit - 1
  {
    hide Repeat;
    var length := window - drift + excess;
    var zeros := Repeat(0.0, limit);
    var early := zeros + [window + excess];
    InWindowRepeat([], 0.0, limit, 0.0, length);
    assert [] + zeros == zeros;
    assert early[..|early| - 1] == zeros;
    assert InWindow(early, 0.0, length) == limit;
    hide InWindow;
    InWindowRepeat(early, window + excess - drift, limit - 1, 0.0, length);
  }

  /** The length cannot be improved by any excess, for any limit of two or more: this run drifts
      by `drift` and has `2 * limit - 1` acceptances within `window - drift + excess`. */
  lemma WindowBoundIsTight(limit: nat, window: real, drift: real, excess: real)
    requires limit >= 2 && window >= 0.0 && excess > 0.0 && 0.0 < drift <= window + excess
    ensures var times := TightRun(limit, window, drift, excess);
            && DriftsAtMost(times, drift)
            && InWindow(After(times, |times|, limit, window).log, 0.0, window - drift + excess) == 2 * limit - 1
  {
    LateReadings(TightRun(limit, window, drift, excess), limit - 1, limit, window, window + excess, window + excess - drift);
    TightRunDrifts(limit, window, drift, excess);
    TightRunCount(limit, window, drift, excess);
    hide After, InWindow, DriftsAtMost, Repeat;
  }

  /** Later elements exceed earlier ones by more than the gap. */
  ghost predicate Spread(log: seq<real>, gap: real) {
    forall i, k :: 0 <= i < k < |log| ==> log[k] - log[i] > gap
  }

  lemma SpreadSnoc(log: seq<real>, t: real, gap: real)
    requires Spread(log, gap) && gap >= 0.0 && (log != [] ==> t - log[|log| - 1] > gap)
    ensures Spread(log + [t], gap)
  {
  }

  /** The queue is the last acceptance alone. */
  predicate HoldsLast(s: State) {
    if s.log == [] then s.queue == [] else s.queue == [s.log[|s.log| - 1]]
  }

  lemma LimitOneStep(s: State, window: real, now: real)
    requires HoldsLast(s)
    ensures var t := Advance(s, 1, window, now);
            && HoldsLast(t)
            && (t.log == s.log || (t.log == s.log + [now] && (s.log != [] ==> now - s.log[|s.log| - 1] > window)))
  {
    AdvanceForm(s, 1, window, now);
    PruneKeepsTail(s.queue, now - window);
    hide Advance, Prune;
  }

  /** With a limit of one the drift does not matter: the queue holds the last acceptance, and
      nothing is accepted before it has expired. */
  lemma {:induction false} LimitOneSpreads(times: seq<real>, n: nat, window: real)
    requires n <= |times| && window >= 0.0
    ensures var s := After(times, n, 1, window); HoldsLast(s) && Spread(s.log, window)
  {
    if n > 0 {
      hide Spread, HoldsLast, Advance;
      LimitOneSpreads(times, n - 1, window);
      var b := After(times, n - 1, 1, window);
      LimitOneStep(b, window, times[n - 1]);
      if Advance(b, 1, window, times[n - 1]).log != b.log {
        SpreadSnoc(b.log, times[n - 1], window);
      }
    }
  }

  /** So every closed window of full length holds at most one acceptance, whatever the clock. */
  lemma LimitOneNeedsNoClock(times: seq<real>, n: nat, window: real, start: real)
    requires n <= |times|
    ensures InWindow(After(times, n, 1, window).log, start, window) <= 1
  {
    var log := After(times, n, 1, window).log;
    if window >= 0.0 {
      LimitOneSpreads(times, n, window);
      SpreadBoundsWindow(log, 1, start, window);
    } else {
      InWindowTail(log, |log|, start, window);
    }
  }

  // ----- Refinement of a limiter that forgets nothing -----

  /** The readings at or after a point in time, in order. */
  function Since(s: seq<real>, cutoff: real): seq<real> {
    if s == [] then []
    else
      var rest := Since(s[..|s| - 1], cutoff);
      if s[|s| - 1] >= cutoff then rest + [s[|s| - 1]] else rest
  }

  /** The reference: count all past acceptances that fall in the window, never drop any. */
  function CountingAnswer(log: seq<real>, limit: int, window: real, now: real): Outcome
    requires limit >= 1
  {
    var recent := Since(log, now - window);
    if |recent| < limit then Allowed(limit - |recent| - 1) else Rejected(recent[0] + window - now)
  }

  lemma {:induction false} SinceOfSortedTail(s: seq<real>, from: nat, cutoff: real)
    requires from <= |s|
    requires forall i :: 0 <= i < from ==> s[i] < cutoff
    requires forall i :: from <= i < |s| ==> s[i] >= cutoff
    ensures Since(s, cutoff) == s[from..]
  {
    if s != [] {
      var init, last := s[..|s| - 1], s[|s| - 1];
      SinceStep(s, cutoff);
      hide Since;
      if from < |s| {
        SinceOfSortedTail(init, from, cutoff);
        assert s[from..] == init[from..] + [last];
      } else {
        SinceOfSortedTail(init, |s| - 1, cutoff);
        assert s[from..] == [] && init[|s| - 1..] == [];
      }
    }
  }

  lemma SinceStep(s: seq<real>, cutoff: real)
    requires s != []
    ensures Since(s, cutoff) == Since(s[..|s| - 1], cutoff) + if s[|s| - 1] >= cutoff then [s[|s| - 1]] else []
  {
  }

  lemma {:induction false} LogIsSorted(times: seq<real>, n: nat, limit: int, window: real)
    requires n <= |times| && limit >= 1 && NonDecreasing(times)
    ensures NonDecreasing(After(times, n, limit, window).log)
    ensures forall t :: t in After(times, n, limit, window).log ==> exists j :: 0 <= j < n && times[j] == t
  {
    if n > 0 {
      LogIsSorted(times, n - 1, limit, window);
      var b := After(times, n - 1, limit, window);
      var s := After(times, n, limit, window);
      forall t | t in s.log ensures exists j :: 0 <= j < n && times[j] == t {
        if t in b.log {
          var j :| 0 <= j < n - 1 && times[j] == t;
          assert times[j] == t;
        } else {
          assert times[n - 1] == t;
        }
      }
      forall i, j | 0 <= i < j < |s.log| ensures s.log[i] <= s.log[j] {
        assert s.log[i] in b.log;
      }
    }
  }

  /** With a clock that never runs backwards, the pruned queue is exactly the part of the
      full log that lies in the window. */
  lemma PrunedQueueIsWindow(times: seq<real>, n: nat, limit: int, window: real, now: real)
    requires n <= |times| && limit >= 1 && NonDecreasing(times)
    requires forall j :: 0 <= j < n ==> times[j] <= now
    ensures var s := After(times, n, limit, window);
            Prune(s.queue, now - window) == Since(s.log, now - window)
  {
    hide Prune, After, Expired, NonDecreasing;
    var s := After(times, n, limit, window);
    QueueIsTailOfLog(times, n, limit, window);
    LogIsSorted(times, n, limit, window);
    BeforePrunedIsOld(times, n, limit, window, now);
    PruneOfTail(s.log, s.queue, now - window);
    PruneKeepsTail(s.queue, now - window);
    SortedTailIsSince(s.log, Prune(s.queue, now - window), now - window);
  }

  lemma SortedTailIsSince(log: seq<real>, p: seq<real>, cutoff: real)
    requires NonDecreasing(log) && |p| <= |log| && p == log[|log| - |p|..] && (p != [] ==> p[0] >= cutoff)
    requires forall i :: 0 <= i < |log| - |p| ==> log[i] < cutoff
    ensures p == Since(log, cutoff)
  {
    var from := |log| - |p|;
    assert from < |log| ==> log[from] == p[0];
    FromFrontIsRecent(log, from, cutoff);
    SinceOfSortedTail(log, from, cutoff);
  }

  lemma BeforePrunedIsOld(times: seq<real>, n: nat, limit: int, window: real, now: real)
    requires n <= |times| && limit >= 1
    requires forall j :: 0 <= j < n ==> times[j] <= now
    ensures var s := After(times, n, limit, window);
            |Prune(s.queue, now - window)| <= |s.log|
            && forall i :: 0 <= i < |s.log| - |Prune(s.queue, now - window)| ==> s.log[i] < now - window
  {
    var s := After(times, n, limit, window);
    var q := s.queue;
    PruneKeepsTail(q, now - window);
    QueueIsTailOfLog(times, n, limit, window);
    var dropped := |s.log| - |q|;
    forall i | 0 <= i < |s.log| - |Prune(q, now - window)| ensures s.log[i] < now - window {
      if i < dropped {
        assert Expired(times, n, window, s.log[i]);
      } else {
        assert s.log[i] == q[i - dropped];
      }
    }
  }

  lemma FromFrontIsRecent(log: seq<real>, from: nat, cutoff: real)
    requires NonDecreasing(log) && from <= |log| && (from < |log| ==> log[from] >= cutoff)
    ensures forall i :: from <= i < |log| ==> log[i] >= cutoff
  {
  }

  /** Every answer, with its remaining count or wait, equals that of the limiter that keeps
      every past acceptance. */
  lemma RefinesCounting(times: seq<real>, k: nat, limit: int, window: real)
    requires k < |times| && limit >= 1 && NonDecreasing(times)
    ensures Answer(times, k, limit, window)
         == CountingAnswer(After(times, k, limit, window).log, limit, window, times[k])
  {
    PrunedQueueIsWindow(times, k, limit, window, times[k]);
    PruneKeepsTail(After(times, k, limit, window).queue, times[k] - window);
  }

  // ----- Retry-After -----

  /** The queue after a rejection stands still until its front expires. */
  lemma {:induction false} RejectionFreezesQueue(times: seq<real>, k: nat, m: nat, limit: int, window: real)
    requires k < m <= |times| && limit >= 1
    requires Answer(times, k, limit, window).Rejected?
    requires forall i :: k < i < m ==> times[i] <= times[k] + Answer(times, k, limit, window).retryAfter
    ensures forall i :: k < i < m ==> Answer(times, i, limit, window).Rejected?
    ensures After(times, m, limit, window).queue == After(times, k + 1, limit, window).queue
  {
    if m > k + 1 {
      RejectionFreezesQueue(times, k, m - 1, limit, window);
      var q := After(times, k + 1, limit, window).queue;
      assert After(times, m - 1, limit, window).queue == q;
      PruneKeepsTail(After(times, k, limit, window).queue, times[k] - window);
      assert q[0] >= times[m - 1] - window;
    }
  }

  /** A full queue lets a reading in exactly when its front has expired. */
  lemma FrontDecides(q: seq<real>, limit: int, window: real, now: real)
    requires |q| == limit >= 1
    ensures Admit(q, limit, window, now).outcome.Allowed? <==> now > q[0] + window
    ensures !Admit(q, limit, window, now).outcome.IndexError?
  {
    if now > q[0] + window {
      assert |Prune(q, now - window)| < |q|;
    }
  }

  /** What a rejection announces: the moment at which the front of the queue expires. */
  lemma RejectionAnnouncesFront(q: seq<real>, limit: int, window: real, now: real)
    requires limit >= 1 && Admit(q, limit, window, now).outcome.Rejected?
    ensures var a := Admit(q, limit, window, now);
            |a.queue| >= limit && now + a.outcome.retryAfter == a.queue[0] + window
  {
    PruneKeepsTail(q, now - window);
  }

  /** After a rejection at call `k`, every later call up to and including `now + retry_after`
      is rejected, and the first one beyond it is accepted. No clock assumption is needed. */
  lemma RetryAfterIsExact(times: seq<real>, k: nat, m: nat, limit: int, window: real)
    requires k < m < |times| && limit >= 1
    requires Answer(times, k, limit, window).Rejected?
    requires forall i :: k < i < m ==> times[i] <= times[k] + Answer(times, k, limit, window).retryAfter
    ensures forall i :: k < i < m ==> Answer(times, i, limit, window).Rejected?
    ensures Answer(times, m, limit, window).Allowed?
       <==> times[m] > times[k] + Answer(times, k, limit, window).retryAfter
  {
    hide Admit;
    RejectionFreezesQueue(times, k, m, limit, window);
    QueueIsTailOfLog(times, m, limit, window);
    var q := After(times, m, limit, window).queue;
    RejectionAnnouncesFront(After(times, k, limit, window).queue, limit, window, times[k]);
    assert q == Admit(After(times, k, limit, window).queue, limit, window, times[k]).queue;
    FrontDecides(q, limit, window, times[m]);
  }

  /** Waiting the header value is enough as long as no other call was accepted meanwhile, and
      the header overshoots the exact wait by at most one second. */
  lemma HeaderSuffices(times: seq<real>, k: nat, m: nat, limit: int, window: real)
    requires k < m < |times| && limit >= 1
    requires Answer(times, k, limit, window).Rejected?
    requires forall i :: k < i < m ==> !Answer(times, i, limit, window).Allowed?
    ensures var r := Answer(times, k, limit, window).retryAfter;
            && r < RetryHeader(r) as real <= r + 1.0 && RetryHeader(r) >= 1
            && (times[m] >= times[k] + RetryHeader(r) as real ==> Answer(times, m, limit, window).Allowed?)
  {
    var r := Answer(times, k, limit, window).retryAfter;
    BlockedCallsAreEarly(times, k, m, limit, window);
    RetryAfterIsExact(times, k, m, limit, window);
  }

  lemma {:induction false} BlockedCallsAreEarly(times: seq<real>, k: nat, m: nat, limit: int, window: real)
    requires k < m < |times| && limit >= 1
    requires Answer(times, k, limit, window).Rejected?
    requires forall i :: k < i < m ==> !Answer(times, i, limit, window).Allowed?
    ensures forall i :: k < i < m ==> times[i] <= times[k] + Answer(times, k, limit, window).retryAfter
  {
    if m > k + 1 {
      BlockedCallsAreEarly(times, k, m - 1, limit, window);
      RetryAfterIsExact(times, k, m - 1, limit, window);
    }
  }

  // ----- Greedy optimality -----

  /** The readings picked by a mask among the first `n`. */
  function Picked(times: seq<real>, mask: seq<bool>, n: nat): seq<real>
    requires n <= |times| == |mask|
  {
    if n == 0 then []
    else if mask[n - 1] then Picked(times, mask, n - 1) + [times[n - 1]]
    else Picked(times, mask, n - 1)
  }

  /** A choice of calls with at most `limit` in every closed window. */
  ghost predicate Feasible(times: seq<real>, mask: seq<bool>, limit: int, window: real)
    requires |times| == |mask|
  {
    forall start :: InWindow(Picked(times, mask, |times|), start, window) <= limit
  }

  lemma {:induction false} PrefixPicksFewer(times: seq<real>, mask: seq<bool>, n: nat, m: nat, start: real, length: real)
    requires n <= m <= |times| == |mask|
    ensures InWindow(Picked(times, mask, n), start, length) <= InWindow(Picked(times, mask, m), start, length)
  {
    if n < m {
      PrefixPicksFewer(times, mask, n, m - 1, start, length);
      var s := Picked(times, mask, m);
      assert mask[m - 1] ==> s[..|s| - 1] == Picked(times, mask, m - 1);
    }
  }

  /** The calls the limiter accepts, as a mask. */
  function Verdicts(times: seq<real>, limit: int, window: real): (mask: seq<bool>)
    requires limit >= 1
    ensures |mask| == |times|
  {
    seq(|times|, k requires 0 <= k < |times| => Answer(times, k, limit, window).Allowed?)
  }

  lemma VerdictAt(times: seq<real>, k: nat, limit: int, window: real)
    requires k < |times| && limit >= 1
    ensures Verdicts(times, limit, window)[k] == Answer(times, k, limit, window).Allowed?
  {
  }

  lemma {:induction false} LogIsPickedByVerdicts(times: seq<real>, n: nat, limit: int, window: real)
    requires n <= |times| && limit >= 1
    ensures Picked(times, Verdicts(times, limit, window), n) == After(times, n, limit, window).log
  {
    hide Answer, Verdicts;
    if n > 0 {
      hide After;
      LogIsPickedByVerdicts(times, n - 1, limit, window);
      LogStep(times, n, limit, window);
      VerdictAt(times, n - 1, limit, window);
    }
  }

  /** How many of the first `n` readings come before the cutoff, when they are sorted. */
  function Split(times: seq<real>, n: nat, cutoff: real): (m: nat)
    requires n <= |times|
    ensures m <= n && (m > 0 ==> times[m - 1] < cutoff)
    ensures forall i :: m <= i < n ==> times[i] >= cutoff
  {
    if n == 0 || times[n - 1] < cutoff then n else Split(times, n - 1, cutoff)
  }

  lemma {:induction false} LogGrowth(times: seq<real>, m: nat, n: nat, limit: int, window: real, cutoff: real)
    requires m <= n <= |times| && limit >= 1
    requires forall i :: 0 <= i < m ==> times[i] < cutoff
    ensures |Since(After(times, n, limit, window).log, cutoff)|
         <= |After(times, n, limit, window).log| - |After(times, m, limit, window).log|
    decreases n
  {
    if n == m {
      if n > 0 {
        LogGrowth(times, n - 1, n - 1, limit, window, cutoff);
      }
    } else {
      LogGrowth(times, m, n - 1, limit, window, cutoff);
    }
    if n > 0 {
      var b := After(times, n - 1, limit, window);
      var s := After(times, n, limit, window);
      assert s.log != b.log ==> s.log[..|s.log| - 1] == b.log;
    }
  }

  lemma {:induction false} PickedGrowth(times: seq<real>, mask: seq<bool>, m: nat, n: nat, start: real, length: real)
    requires m <= n <= |times| == |mask|
    requires forall i :: m <= i < n ==> start <= times[i] <= start + length
    ensures |Picked(times, mask, n)| <= |Picked(times, mask, m)| + InWindow(Picked(times, mask, n), start, length)
  {
    if m < n {
      PickedGrowth(times, mask, m, n - 1, start, length);
      var b := Picked(times, mask, n - 1);
      var s := Picked(times, mask, n);
      assert mask[n - 1] ==> s[..|s| - 1] == b;
    }
  }

  /** A refusal means that the window already holds `limit` acceptances, all of them made
      after the first `m` calls when the window reaches back no further. */
  lemma RefusalMeansFullWindow(times: seq<real>, n: nat, m: nat, limit: int, window: real)
    requires m <= n < |times| && limit >= 1 && NonDecreasing(times)
    requires !Answer(times, n, limit, window).Allowed?
    requires forall i :: 0 <= i < m ==> times[i] < times[n] - window
    ensures |After(times, n + 1, limit, window).log| >= |After(times, m, limit, window).log| + limit
  {
    PrunedQueueIsWindow(times, n, limit, window, times[n]);
    LogGrowth(times, m, n, limit, window, times[n] - window);
  }

  /** A negative window never holds anything, so nothing is refused. */
  lemma RefusalNeedsWindow(times: seq<real>, n: nat, limit: int, window: real)
    requires n < |times| && limit >= 1 && NonDecreasing(times)
    requires !Answer(times, n, limit, window).Allowed?
    ensures window >= 0.0
  {
    var s := After(times, n, limit, window);
    var p := Prune(s.queue, times[n] - window);
    PruneKeepsTail(s.queue, times[n] - window);
    QueueIsTailOfLog(times, n, limit, window);
    LogIsSorted(times, n, limit, window);
    assert p[0] in s.log;
  }

  /** A feasible choice makes at most `limit` picks inside the window. */
  lemma FeasibleGrowth(times: seq<real>, mask: seq<bool>, n: nat, m: nat, limit: int, window: real)
    requires m <= n < |times| == |mask| && NonDecreasing(times)
    requires Feasible(times, mask, limit, window)
    requires forall i :: m <= i <= n ==> times[n] - window <= times[i]
    ensures |Picked(times, mask, n + 1)| <= |Picked(times, mask, m)| + limit
  {
    PickedGrowth(times, mask, m, n + 1, times[n] - window, window);
    PrefixPicksFewer(times, mask, n + 1, |times|, times[n] - window, window);
  }

  lemma LogStep(times: seq<real>, n: nat, limit: int, window: real)
    requires 1 <= n <= |times| && limit >= 1
    ensures After(times, n, limit, window).log
         == After(times, n - 1, limit, window).log + if Answer(times, n - 1, limit, window).Allowed? then [times[n - 1]] else []
  {
  }

  /** A refusal makes up for everything that another choice can have picked in the window. */
  lemma GreedyCatchesUp(times: seq<real>, mask: seq<bool>, n: nat, m: nat, limit: int, window: real)
    requires m <= n < |times| == |mask| && limit >= 1 && NonDecreasing(times)
    requires Feasible(times, mask, limit, window) && !Answer(times, n, limit, window).Allowed?
    requires m == Split(times, n + 1, times[n] - window)
    requires |Picked(times, mask, m)| <= |After(times, m, limit, window).log|
    ensures |Picked(times, mask, n + 1)| <= |After(times, n + 1, limit, window).log|
  {
    hide After, Answer, Feasible, Picked, Split;
    forall i | 0 <= i < m ensures times[i] < times[n] - window {
      assert times[m - 1] < times[n] - window;
      assert i < m - 1 ==> times[i] <= times[m - 1];
    }
    RefusalMeansFullWindow(times, n, m, limit, window);
    FeasibleGrowth(times, mask, n, m, limit, window);
  }

  /** Greedy is optimal: no choice of calls that respects the window bound has accepted more
      than the limiter at any point of the run. */
  lemma {:induction false} GreedyIsOptimal(times: seq<real>, mask: seq<bool>, n: nat, limit: int, window: real)
    requires n <= |times| == |mask| && limit >= 1 && NonDecreasing(times)
    requires Feasible(times, mask, limit, window)
    ensures |Picked(times, mask, n)| <= |After(times, n, limit, window).log|
    decreases n
  {
    hide After, Answer, Feasible, DriftsAtMost, NonDecreasing;
    if n == 0 {
      NothingYet(times, limit, window);
    } else if Answer(times, n - 1, limit, window).Allowed? {
      GreedyIsOptimal(times, mask, n - 1, limit, window);
      LogStep(times, n, limit, window);
    } else {
      var m := Split(times, n, times[n - 1] - window);
      RefusalNeedsWindow(times, n - 1, limit, window);
      assert m <= n - 1;
      GreedyIsOptimal(times, mask, m, limit, window);
      GreedyCatchesUp(times, mask, n - 1, m, limit, window);
    }
  }

  lemma NothingYet(times: seq<real>, limit: int, window: real)
    requires limit >= 1
    ensures After(times, 0, limit, window) == State([], [])
  {
  }

  /** ... and the limiter's own choice respects the window bound, so it is a maximum. */
  lemma GreedyIsFeasible(times: seq<real>, limit: int, window: real)
    requires limit >= 1 && NonDecreasing(times)
    ensures Feasible(times, Verdicts(times, limit, window), limit, window)
  {
    LogIsPickedByVerdicts(times, |times|, limit, window);
    forall start
      ensures InWindow(Picked(times, Verdicts(times, limit, window), |times|), start, window) <= limit
    {
      WindowBound(times, |times|, limit, window, 0.0, start);
    }
  }

  // ----- Runs and their prefixes -----

  lemma {:induction false} PrefixRun(times: seq<real>, more: seq<real>, n: nat, limit: int, window: real)
    requires n <= |times| && limit >= 1
    ensures After(times + more, n, limit, window) == After(times, n, limit, window)
  {
    if n > 0 {
      PrefixRun(times, more, n - 1, limit, window);
    }
  }
}
