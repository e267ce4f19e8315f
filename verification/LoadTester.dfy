/**
The concurrent load tester as a transition system. Every iteration is a coroutine that waits
for a permit, awaits the target, takes the lock, appends its outcome, and leaves; any enabled
coroutine may move next. Errors outside the guarded target call are not modelled.
 */
module LoadTester {
  import opened Options

  datatype Phase =
    | Waiting            // before the semaphore
    | InTarget           // holds a permit, awaits the target
    | Finished(ok: bool) // the target returned, raised or timed out
    | Locked(ok: bool)   // holds the lock, about to append
    | Recorded           // appended and released the lock
    | Done               // released the permit

  datatype Sample = Sample(index: nat, ok: bool)

  datatype State = State(
    phases: seq<Phase>, permits: int, lock: Option<nat>, results: seq<Sample>, opening: nat, closing: nat)

  datatype Error = BadConcurrency | BadIterations | NotAsync

  datatype Started = Ready(state: State) | Refused(error: Error)

  /** The checks `run` makes before it starts any coroutine. */
  function Start(concurrency: int, iterations: int, isAsync: bool): Started {
    if concurrency < 1 then Refused(BadConcurrency)
    else if iterations < 1 then Refused(BadIterations)
    else if !isAsync then Refused(NotAsync)
    else Ready(State(seq(iterations, i => Waiting), concurrency, None, [], 0, 0))
  }

  // ----- Steps -----

  predicate Enabled(s: State, i: nat) {
    i < |s.phases| &&
    match s.phases[i]
    case Waiting => s.permits > 0
    case Finished(_) => s.lock.None?
    case Done => false
    case _ => true
  }

  /** Coroutine `i` moves; `ok` says how the target call ends when that is what happens. */
  function Step(s: State, i: nat, ok: bool): State
    requires Enabled(s, i)
  {
    match s.phases[i]
    case Waiting =>
      s.(phases := s.phases[i := InTarget], permits := s.permits - 1,
         opening := if s.results == [] then s.opening + 1 else s.opening)
    case InTarget =>
      s.(phases := s.phases[i := Finished(ok)])
    case Finished(outcome) =>
      s.(phases := s.phases[i := Locked(outcome)], lock := Some(i))
    case Locked(outcome) =>
      s.(phases := s.phases[i := Recorded], lock := None, results := s.results + [Sample(i, outcome)])
    case Recorded =>
      s.(phases := s.phases[i := Done], permits := s.permits + 1,
         closing := if i == |s.phases| - 1 then s.closing + 1 else s.closing)
  }

  datatype Move = Move(coroutine: nat, ok: bool)

  /** The state a schedule leads to, if every move in it is enabled. */
  function Follow(s: State, schedule: seq<Move>): Option<State> {
    if schedule == [] then Some(s)
    else
      match Follow(s, schedule[..|schedule| - 1])
      case None => None
      case Some(t) =>
        var m := schedule[|schedule| - 1];
        if Enabled(t, m.coroutine) then Some(Step(t, m.coroutine, m.ok)) else None
  }

  // ----- The invariant -----

  predicate Holds(p: Phase) {
    p.InTarget? || p.Finished? || p.Locked? || p.Recorded?
  }

  function Holders(phases: seq<Phase>): nat {
    if phases == [] then 0 else (if Holds(phases[0]) then 1 else 0) + Holders(phases[1..])
  }

  lemma {:induction false} HoldersUpdate(phases: seq<Phase>, i: nat, p: Phase)
    requires i < |phases|
    ensures Holders(phases[i := p])
         == Holders(phases) + (if Holds(p) then 1 else 0) - (if Holds(phases[i]) then 1 else 0)
  {
    if i == 0 {
      assert phases[0 := p][1..] == phases[1..];
    } else {
      HoldersUpdate(phases[1..], i - 1, p);
      assert phases[i := p][1..] == phases[1..][i - 1 := p];
    }
  }

  lemma {:induction false} HoldersBound(phases: seq<Phase>)
    ensures Holders(phases) <= |phases|
    ensures Holders(phases) == 0 <==> forall i :: 0 <= i < |phases| ==> !Holds(phases[i])
  {
    if phases != [] {
      HoldersBound(phases[1..]);
      assert forall i :: 0 < i < |phases| ==> phases[i] == phases[1..][i - 1];
    }
  }

  ghost predicate IsRecorded(results: seq<Sample>, i: nat) {
    exists j :: 0 <= j < |results| && results[j].index == i
  }

  /** Permits are neither lost nor invented. */
  ghost predicate PermitsAddUp(s: State, concurrency: int) {
    s.permits >= 0 && s.permits + Holders(s.phases) == concurrency
  }

  /** The lock is held by exactly the coroutine that is about to append. */
  ghost predicate LockMatches(s: State) {
    && (forall i :: 0 <= i < |s.phases| ==> (s.phases[i].Locked? <==> s.lock == Some(i)))
    && (s.lock.Some? ==> s.lock.value < |s.phases|)
  }

  /** Every index appears at most once, and exactly when its coroutine has appended. */
  ghost predicate RecordsMatch(s: State) {
    && (forall j, k :: 0 <= j < k < |s.results| ==> s.results[j].index != s.results[k].index)
    && (forall j :: 0 <= j < |s.results| ==> s.results[j].index < |s.phases|)
    && (forall i :: 0 <= i < |s.phases| ==>
          (IsRecorded(s.results, i) <==> s.phases[i].Recorded? || s.phases[i].Done?))
  }

  /** Opening snapshots are taken by coroutines that hold a permit while nothing is recorded;
      the closing one by the last coroutine as it leaves. */
  ghost predicate SnapshotsMatch(s: State, concurrency: int) {
    && (s.results == [] ==> s.opening == Holders(s.phases))
    && (s.results != [] ==> s.opening >= 1)
    && s.opening <= concurrency && s.opening <= |s.phases| && s.phases != []
    && s.closing == if s.phases[|s.phases| - 1].Done? then 1 else 0
  }

  ghost predicate Invariant(s: State, concurrency: int) {
    PermitsAddUp(s, concurrency) && LockMatches(s) && RecordsMatch(s) && SnapshotsMatch(s, concurrency)
  }

  lemma {:induction false} NoHolders(phases: seq<Phase>)
    requires forall i :: 0 <= i < |phases| ==> phases[i].Waiting?
    ensures Holders(phases) == 0
  {
    HoldersBound(phases);
  }

  lemma StartEstablishes(concurrency: int, iterations: int)
    requires Start(concurrency, iterations, true).Ready?
    ensures Invariant(Start(concurrency, iterations, true).state, concurrency)
  {
    NoHolders(Start(concurrency, iterations, true).state.phases);
  }

  lemma RecordedGrows(results: seq<Sample>, x: Sample, i: nat)
    ensures IsRecorded(results + [x], i) <==> IsRecorded(results, i) || x.index == i
  {
    var r := results + [x];
    if j :| 0 <= j < |results| && results[j].index == i {
      assert r[j].index == i;
    }
    assert r[|results|] == x;
    if j :| 0 <= j < |r| && r[j].index == i {
      assert j < |results| ==> results[j].index == i;
    }
  }

  lemma StepKeepsRecords(s: State, i: nat, ok: bool)
    requires RecordsMatch(s) && Enabled(s, i)
    ensures RecordsMatch(Step(s, i, ok))
  {
    var t := Step(s, i, ok);
    if s.phases[i].Locked? {
      assert !IsRecorded(s.results, i);
      assert forall j :: 0 <= j < |s.results| ==> s.results[j].index != i;
      forall k | 0 <= k < |t.phases|
        ensures IsRecorded(t.results, k) <==> t.phases[k].Recorded? || t.phases[k].Done?
      {
        RecordedGrows(s.results, Sample(i, s.phases[i].ok), k);
      }
    }
  }

  lemma StepKeepsSnapshots(s: State, i: nat, ok: bool, concurrency: int)
    requires PermitsAddUp(s, concurrency) && RecordsMatch(s) && SnapshotsMatch(s, concurrency) && Enabled(s, i)
    ensures SnapshotsMatch(Step(s, i, ok), concurrency)
  {
    var t := Step(s, i, ok);
    HoldersUpdate(s.phases, i, t.phases[i]);
    HoldersBound(s.phases);
    HoldersBound(t.phases);
    assert s.phases[i].Recorded? ==> IsRecorded(s.results, i);
  }

  lemma StepKeepsPermits(s: State, i: nat, ok: bool, concurrency: int)
    requires PermitsAddUp(s, concurrency) && Enabled(s, i)
    ensures PermitsAddUp(Step(s, i, ok), concurrency)
  {
    HoldersUpdate(s.phases, i, Step(s, i, ok).phases[i]);
    hide Holders;
  }

  lemma StepKeepsLock(s: State, i: nat, ok: bool)
    requires LockMatches(s) && Enabled(s, i)
    ensures LockMatches(Step(s, i, ok))
  {
  }

  lemma StepPreserves(s: State, i: nat, ok: bool, concurrency: int)
    requires Invariant(s, concurrency) && Enabled(s, i)
    ensures Invariant(Step(s, i, ok), concurrency)
  {
    hide PermitsAddUp, LockMatches, RecordsMatch, SnapshotsMatch, Step, Enabled;
    StepKeepsPermits(s, i, ok, concurrency);
    StepKeepsLock(s, i, ok);
    StepKeepsRecords(s, i, ok);
    StepKeepsSnapshots(s, i, ok, concurrency);
  }

  // ----- Progress -----

  /** Steps a coroutine still has to take. */
  function Left(p: Phase): nat {
    match p
    case Waiting => 5
    case InTarget => 4
    case Finished(_) => 3
    case Locked(_) => 2
    case Recorded => 1
    case Done => 0
  }

  function StepsLeft(phases: seq<Phase>): nat {
    if phases == [] then 0 else Left(phases[0]) + StepsLeft(phases[1..])
  }

  lemma {:induction false} StepsLeftUpdate(phases: seq<Phase>, i: nat, p: Phase)
    requires i < |phases|
    ensures StepsLeft(phases[i := p]) == StepsLeft(phases) + Left(p) - Left(phases[i])
  {
    if i == 0 {
      assert phases[0 := p][1..] == phases[1..];
    } else {
      StepsLeftUpdate(phases[1..], i - 1, p);
      assert phases[i := p][1..] == phases[1..][i - 1 := p];
    }
  }

  lemma {:induction false} StepsLeftZero(phases: seq<Phase>)
    ensures StepsLeft(phases) == 0 <==> forall i :: 0 <= i < |phases| ==> phases[i].Done?
  {
    if phases != [] {
      StepsLeftZero(phases[1..]);
      assert forall i :: 0 < i < |phases| ==> phases[i] == phases[1..][i - 1];
    }
  }

  lemma {:induction false} StepsLeftWaiting(phases: seq<Phase>)
    requires forall i :: 0 <= i < |phases| ==> phases[i].Waiting?
    ensures StepsLeft(phases) == 5 * |phases|
  {
    if phases != [] {
      StepsLeftWaiting(phases[1..]);
    }
  }

  ghost predicate AllDone(s: State) {
    forall i :: 0 <= i < |s.phases| ==> s.phases[i].Done?
  }

  /** No deadlock: until all coroutines are done, one of them can move. */
  lemma SomethingIsEnabled(s: State, concurrency: int) returns (i: nat)
    requires Invariant(s, concurrency) && concurrency >= 1 && !AllDone(s)
    ensures Enabled(s, i)
  {
    if s.lock.Some? {
      i := s.lock.value;
      assert s.phases[i].Locked?;
    } else if j: nat :| j < |s.phases| && Holds(s.phases[j]) {
      i := j;
    } else {
      HoldersBound(s.phases);
      i :| 0 <= i < |s.phases| && !s.phases[i].Done?;
    }
  }

  // ----- Whole runs -----

  lemma MoveKeepsInvariant(s: State, m: Move, concurrency: int)
    requires Invariant(s, concurrency) && Enabled(s, m.coroutine)
    ensures var t := Step(s, m.coroutine, m.ok);
            && Invariant(t, concurrency) && |t.phases| == |s.phases|
            && StepsLeft(t.phases) == StepsLeft(s.phases) - 1
  {
    StepPreserves(s, m.coroutine, m.ok, concurrency);
    MoveUsesOneStep(s, m);
    hide Invariant, Step, Enabled, StepsLeft;
  }

  lemma MoveUsesOneStep(s: State, m: Move)
    requires Enabled(s, m.coroutine)
    ensures |Step(s, m.coroutine, m.ok).phases| == |s.phases|
    ensures StepsLeft(Step(s, m.coroutine, m.ok).phases) == StepsLeft(s.phases) - 1
  {
    StepsLeftUpdate(s.phases, m.coroutine, Step(s, m.coroutine, m.ok).phases[m.coroutine]);
  }

  /** Along any schedule the invariant holds, and each move uses up one of the `5n` steps. */
  lemma {:induction false} RunKeepsInvariant(concurrency: int, iterations: int, schedule: seq<Move>)
    requires Start(concurrency, iterations, true).Ready?
    requires Follow(Start(concurrency, iterations, true).state, schedule).Some?
    ensures var t := Follow(Start(concurrency, iterations, true).state, schedule).value;
            && Invariant(t, concurrency) && |t.phases| == iterations
            && StepsLeft(t.phases) + |schedule| == 5 * iterations
  {
    var s := Start(concurrency, iterations, true).state;
    if schedule == [] {
      StartEstablishes(concurrency, iterations);
      StepsLeftWaiting(s.phases);
    } else {
      var init, m := schedule[..|schedule| - 1], schedule[|schedule| - 1];
      RunKeepsInvariant(concurrency, iterations, init);
      MoveKeepsInvariant(Follow(s, init).value, m, concurrency);
      hide Invariant, StepsLeft, Step, Enabled, Start;
    }
  }

  /** At every moment of every interleaving: at most `concurrency` iterations hold a permit, no
      index is recorded twice, and at most one coroutine is inside the lock. */
  lemma RunsAreSafe(concurrency: int, iterations: int, schedule: seq<Move>)
    requires Start(concurrency, iterations, true).Ready?
    requires Follow(Start(concurrency, iterations, true).state, schedule).Some?
    ensures var t := Follow(Start(concurrency, iterations, true).state, schedule).value;
            && Holders(t.phases) <= concurrency
            && (forall j, k :: 0 <= j < k < |t.results| ==> t.results[j].index != t.results[k].index)
            && (forall i, j :: 0 <= i < j < |t.phases| ==> !(t.phases[i].Locked? && t.phases[j].Locked?))
  {
    RunKeepsInvariant(concurrency, iterations, schedule);
  }

  /** No run is longer than five steps an iteration, and a run can be extended exactly while it
      is shorter: every maximal run ends with all iterations done, after exactly `5n` steps. */
  lemma RunsEndExactly(concurrency: int, iterations: int, schedule: seq<Move>)
    requires Start(concurrency, iterations, true).Ready?
    requires Follow(Start(concurrency, iterations, true).state, schedule).Some?
    ensures var t := Follow(Start(concurrency, iterations, true).state, schedule).value;
            && |schedule| <= 5 * iterations
            && (|schedule| == 5 * iterations <==> AllDone(t))
            && (AllDone(t) <==> forall i: nat :: !Enabled(t, i))
  {
    var t := Follow(Start(concurrency, iterations, true).state, schedule).value;
    RunKeepsInvariant(concurrency, iterations, schedule);
    StepsLeftZero(t.phases);
    if !AllDone(t) {
      var i := SomethingIsEnabled(t, concurrency);
      assert Enabled(t, i);
    }
  }

  // ----- The result of a finished run -----

  function Errors(results: seq<Sample>): nat {
    if results == [] then 0 else (if results[0].ok then 0 else 1) + Errors(results[1..])
  }

  datatype LoadTestResult = LoadTestResult(results: seq<Sample>, errors: int, success: int, snapshots: int)

  function Finish(s: State): LoadTestResult {
    LoadTestResult(s.results, Errors(s.results), |s.results| - Errors(s.results), s.opening + s.closing)
  }

  function ErrorRate(r: LoadTestResult): real {
    if r.results == [] then 0.0 else r.errors as real / |r.results| as real
  }

  lemma {:induction false} ErrorsBound(results: seq<Sample>)
    ensures Errors(results) <= |results|
  {
    if results != [] {
      ErrorsBound(results[1..]);
    }
  }

  /** Different numbers below `n`, covering all of them. */
  ghost predicate Covers(results: seq<Sample>, n: nat) {
    && (forall j, k :: 0 <= j < k < |results| ==> results[j].index != results[k].index)
    && (forall j :: 0 <= j < |results| ==> results[j].index < n)
    && (forall i :: 0 <= i < n ==> IsRecorded(results, i))
  }

  function Without(results: seq<Sample>, j: nat): (rest: seq<Sample>)
    requires j < |results|
    ensures |rest| == |results| - 1
    ensures forall k :: 0 <= k < |rest| ==> rest[k] == results[if k < j then k else k + 1]
  {
    results[..j] + results[j + 1..]
  }

  /** Taking out the largest number. */
  lemma CoverWithoutLast(results: seq<Sample>, n: nat, j: nat)
    requires n > 0 && Covers(results, n) && j < |results| && results[j].index == n - 1
    ensures Covers(Without(results, j), n - 1)
  {
    var rest := Without(results, j);
    forall i | 0 <= i < n - 1 ensures IsRecorded(rest, i) {
      assert IsRecorded(results, i);
      var k :| 0 <= k < |results| && results[k].index == i;
      assert rest[if k < j then k else k - 1] == results[k];
    }
    forall k | 0 <= k < |rest| ensures rest[k].index < n - 1 {
      var l := if k < j then k else k + 1;
      assert results[l].index != results[j].index;
    }
  }

  /** There are `n` of them. */
  lemma {:induction false} CoverCount(results: seq<Sample>, n: nat)
    requires Covers(results, n)
    ensures |results| == n
  {
    if results == [] {
      assert n > 0 ==> IsRecorded(results, 0);
    } else {
      assert results[0].index < n;
      assert IsRecorded(results, n - 1);
      var j :| 0 <= j < |results| && results[j].index == n - 1;
      CoverWithoutLast(results, n, j);
      hide Covers;
      CoverCount(Without(results, j), n - 1);
    }
  }

  // ----- Errors are the failed target calls -----

  /** Failed outcomes not yet recorded. */
  function Pending(phases: seq<Phase>): nat {
    if phases == [] then 0 else (if Failing(phases[0]) then 1 else 0) + Pending(phases[1..])
  }

  predicate Failing(p: Phase) {
    (p.Finished? || p.Locked?) && !p.ok
  }

  lemma {:induction false} PendingUpdate(phases: seq<Phase>, i: nat, p: Phase)
    requires i < |phases|
    ensures Pending(phases[i := p])
         == Pending(phases) + (if Failing(p) then 1 else 0) - (if Failing(phases[i]) then 1 else 0)
  {
    if i == 0 {
      assert phases[0 := p][1..] == phases[1..];
    } else {
      PendingUpdate(phases[1..], i - 1, p);
      assert phases[i := p][1..] == phases[1..][i - 1 := p];
    }
  }

  lemma {:induction false} NothingPending(phases: seq<Phase>)
    requires forall i :: 0 <= i < |phases| ==> phases[i].Waiting? || phases[i].Done?
    ensures Pending(phases) == 0
  {
    if phases != [] {
      NothingPending(phases[1..]);
    }
  }

  lemma {:induction false} ErrorsSnoc(results: seq<Sample>, x: Sample)
    ensures Errors(results + [x]) == Errors(results) + if x.ok then 0 else 1
  {
    if results == [] {
      assert results + [x] == [x] && [x][1..] == [];
    } else {
      ErrorsSnoc(results[1..], x);
      assert (results + [x])[1..] == results[1..] + [x];
    }
  }

  /** How many target calls failed along a schedule. */
  function FailedCalls(s: State, schedule: seq<Move>): nat
    requires Follow(s, schedule).Some?
  {
    if schedule == [] then 0
    else
      var init, m := schedule[..|schedule| - 1], schedule[|schedule| - 1];
      FailedCalls(s, init) + if Follow(s, init).value.phases[m.coroutine].InTarget? && !m.ok then 1 else 0
  }

  lemma MoveKeepsFailures(s: State, m: Move)
    requires Enabled(s, m.coroutine)
    ensures Errors(Step(s, m.coroutine, m.ok).results) + Pending(Step(s, m.coroutine, m.ok).phases)
         == Errors(s.results) + Pending(s.phases) + if s.phases[m.coroutine].InTarget? && !m.ok then 1 else 0
  {
    var t := Step(s, m.coroutine, m.ok);
    PendingUpdate(s.phases, m.coroutine, t.phases[m.coroutine]);
    if s.phases[m.coroutine].Locked? {
      ErrorsSnoc(s.results, Sample(m.coroutine, s.phases[m.coroutine].ok));
    }
  }

  /** No failure is lost or invented on the way to the result list. */
  lemma {:induction false} FailuresAreConserved(concurrency: int, iterations: int, schedule: seq<Move>)
    requires Start(concurrency, iterations, true).Ready?
    requires Follow(Start(concurrency, iterations, true).state, schedule).Some?
    ensures var s := Start(concurrency, iterations, true).state;
            var t := Follow(s, schedule).value;
            Errors(t.results) + Pending(t.phases) == FailedCalls(s, schedule)
  {
    var s := Start(concurrency, iterations, true).state;
    if schedule == [] {
      NothingPending(s.phases);
    } else {
      var init, m := schedule[..|schedule| - 1], schedule[|schedule| - 1];
      FailuresAreConserved(concurrency, iterations, init);
      MoveKeepsFailures(Follow(s, init).value, m);
      hide Step, Enabled, Start, Errors, Pending;
    }
  }

  // ----- What each sample and each snapshot stands for -----

  /** How the target call of coroutine `i` ended, if it has. */
  function CallOutcome(s: State, schedule: seq<Move>, i: nat): Option<bool>
    requires Follow(s, schedule).Some?
  {
    if schedule == [] then None
    else
      var init, m := schedule[..|schedule| - 1], schedule[|schedule| - 1];
      if m.coroutine == i && Follow(s, init).value.phases[i].InTarget? then Some(m.ok) else CallOutcome(s, init, i)
  }

  /** An outcome that is carried or recorded is that of the coroutine's own call. */
  ghost predicate OutcomesMatch(s: State, schedule: seq<Move>)
    requires Follow(s, schedule).Some?
  {
    var t := Follow(s, schedule).value;
    && (forall i :: 0 <= i < |t.phases| && (t.phases[i].Finished? || t.phases[i].Locked?)
         ==> CallOutcome(s, schedule, i) == Some(t.phases[i].ok))
    && (forall j :: 0 <= j < |t.results| ==> CallOutcome(s, schedule, t.results[j].index) == Some(t.results[j].ok))
  }

  lemma FollowStep(s: State, schedule: seq<Move>)
    requires schedule != [] && Follow(s, schedule).Some?
    ensures var init, m := schedule[..|schedule| - 1], schedule[|schedule| - 1];
            && Follow(s, init).Some? && Enabled(Follow(s, init).value, m.coroutine)
            && Follow(s, schedule).value == Step(Follow(s, init).value, m.coroutine, m.ok)
            && forall i: nat :: CallOutcome(s, schedule, i) ==
                 if m.coroutine == i && Follow(s, init).value.phases[i].InTarget? then Some(m.ok) else CallOutcome(s, init, i)
  {
  }

  /** Only a coroutine that has appended has a sample. */
  lemma SampleHasAppended(s: State, j: nat)
    requires RecordsMatch(s) && j < |s.results|
    ensures s.results[j].index < |s.phases|
    ensures s.phases[s.results[j].index].Recorded? || s.phases[s.results[j].index].Done?
  {
    assert IsRecorded(s.results, s.results[j].index);
  }

  lemma MoveKeepsOutcomes(s: State, schedule: seq<Move>, concurrency: int)
    requires schedule != [] && Follow(s, schedule).Some?
    requires var init := schedule[..|schedule| - 1];
             Follow(s, init).Some? && OutcomesMatch(s, init) && Invariant(Follow(s, init).value, concurrency)
    ensures OutcomesMatch(s, schedule)
  {
    var init, m := schedule[..|schedule| - 1], schedule[|schedule| - 1];
    FollowStep(s, schedule);
    var b, t := Follow(s, init).value, Follow(s, schedule).value;
    hide Follow, CallOutcome, Invariant, RecordsMatch;
    forall j | 0 <= j < |t.results|
      ensures CallOutcome(s, schedule, t.results[j].index) == Some(t.results[j].ok)
    {
      if j < |b.results| {
        InvariantRecords(b, concurrency);
        SampleHasAppended(b, j);
      }
    }
  }

  lemma InvariantRecords(s: State, concurrency: int)
    requires Invariant(s, concurrency)
    ensures RecordsMatch(s)
  {
  }

  /** Every sample carries the outcome of its own iteration's target call. */
  lemma {:induction false} OutcomesAreKept(concurrency: int, iterations: int, schedule: seq<Move>)
    requires Start(concurrency, iterations, true).Ready?
    requires Follow(Start(concurrency, iterations, true).state, schedule).Some?
    ensures OutcomesMatch(Start(concurrency, iterations, true).state, schedule)
  {
    var s := Start(concurrency, iterations, true).state;
    if schedule != [] {
      var init := schedule[..|schedule| - 1];
      FollowStep(s, schedule);
      hide Invariant, Start, OutcomesMatch, Step, Enabled;
      OutcomesAreKept(concurrency, iterations, init);
      RunKeepsInvariant(concurrency, iterations, init);
      MoveKeepsOutcomes(s, schedule, concurrency);
    }
  }

  /** How many coroutines took a permit while nothing was recorded yet. */
  function EarlyStarts(s: State, schedule: seq<Move>): nat
    requires Follow(s, schedule).Some?
  {
    if schedule == [] then 0
    else
      var init, m := schedule[..|schedule| - 1], schedule[|schedule| - 1];
      var before := Follow(s, init).value;
      EarlyStarts(s, init) + if before.phases[m.coroutine].Waiting? && before.results == [] then 1 else 0
  }

  /** Each of them, and nothing else, took an opening snapshot. */
  lemma {:induction false} OpeningCountsEarlyStarts(concurrency: int, iterations: int, schedule: seq<Move>)
    requires Start(concurrency, iterations, true).Ready?
    requires Follow(Start(concurrency, iterations, true).state, schedule).Some?
    ensures var s := Start(concurrency, iterations, true).state;
            Follow(s, schedule).value.opening == EarlyStarts(s, schedule)
  {
    var s := Start(concurrency, iterations, true).state;
    if schedule != [] {
      OpeningCountsEarlyStarts(concurrency, iterations, schedule[..|schedule| - 1]);
    }
  }

  lemma DoneStateIsComplete(t: State, concurrency: int)
    requires Invariant(t, concurrency) && AllDone(t)
    ensures Covers(t.results, |t.phases|) && |t.results| == |t.phases| > 0 && Pending(t.phases) == 0
    ensures t.closing == 1 && 1 <= t.opening <= concurrency && t.opening <= |t.phases|
  {
    CoverCount(t.results, |t.phases|);
    NothingPending(t.phases);
  }

  lemma DoneResult(t: State, concurrency: int)
    requires Invariant(t, concurrency) && AllDone(t)
    ensures var r, n := Finish(t), |t.phases|;
            && r.errors == Errors(t.results) && r.success + r.errors == n && r.success >= 0
            && ErrorRate(r) * n as real == r.errors as real && 0.0 <= ErrorRate(r) <= 1.0
            && r.snapshots == t.opening + 1
            && 2 <= r.snapshots <= (if concurrency <= n then concurrency else n) + 1
  {
    hide Invariant, AllDone, Covers, Errors;
    DoneStateIsComplete(t, concurrency);
    ErrorsBound(t.results);
    RateInUnit(Errors(t.results), |t.phases|);
  }

  /** Any finished run has recorded every iteration exactly once, with the outcome of its own
      call; its errors and successes add up to the number of iterations; it took one snapshot for
      every early start and one more, between two and `min(concurrency, iterations) + 1`. */
  lemma FinishedRunIsComplete(concurrency: int, iterations: int, schedule: seq<Move>)
    requires Start(concurrency, iterations, true).Ready?
    requires Follow(Start(concurrency, iterations, true).state, schedule).Some?
    requires AllDone(Follow(Start(concurrency, iterations, true).state, schedule).value)
    ensures var r := Finish(Follow(Start(concurrency, iterations, true).state, schedule).value);
            && |r.results| == iterations
            && (forall i :: 0 <= i < iterations ==> IsRecorded(r.results, i))
            && (forall j, k :: 0 <= j < k < |r.results| ==> r.results[j].index != r.results[k].index)
            && OutcomesMatch(Start(concurrency, iterations, true).state, schedule)
            && r.success + r.errors == iterations && r.success >= 0
            && r.errors == FailedCalls(Start(concurrency, iterations, true).state, schedule)
            && ErrorRate(r) * iterations as real == r.errors as real && 0.0 <= ErrorRate(r) <= 1.0
            && r.snapshots == EarlyStarts(Start(concurrency, iterations, true).state, schedule) + 1
            && 2 <= r.snapshots <= (if concurrency <= iterations then concurrency else iterations) + 1
  {
    hide Invariant, AllDone, OutcomesMatch, FailedCalls, EarlyStarts, Errors, Pending, StepsLeft, Follow, ErrorRate, Start;
    var t := Follow(Start(concurrency, iterations, true).state, schedule).value;
    RunKeepsInvariant(concurrency, iterations, schedule);
    DoneStateIsComplete(t, concurrency);
    DoneResult(t, concurrency);
    FailuresAreConserved(concurrency, iterations, schedule);
    OutcomesAreKept(concurrency, iterations, schedule);
    OpeningCountsEarlyStarts(concurrency, iterations, schedule);
  }

  lemma RateInUnit(errors: nat, total: nat)
    requires errors <= total && total > 0
    ensures 0.0 <= errors as real / total as real <= 1.0
    ensures errors as real / total as real * total as real == errors as real
  {
  }
}
