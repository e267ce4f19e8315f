/**
Histories that mix the calls of many identities with resets. Each identity sees only its
own calls, and only those since its last reset.
 */
module RateLimiterIdentities {
  import opened Options
  import opened RateLimiter
  import opened RateLimiterRuns

  datatype Event =
    | Hit(identity: Identity, limit: int, window: real, now: real)
    | Reset(target: Option<Identity>)

  /** The effect of one call on the limiter; see the contracts of `Allow` and `Reset`. */
  function Apply(hits: Hits, e: Event): Hits {
    match e
    case Hit(id, limit, window, now) => hits[id := Admit(Queue(hits, id), limit, window, now).queue]
    case Reset(None) => map[]
    case Reset(Some(id)) => hits - {id}
  }

  function Replay(events: seq<Event>): Hits {
    if events == [] then map[] else Apply(Replay(events[..|events| - 1]), events[|events| - 1])
  }

  /** The answer to a hit that comes after the given events. */
  function AnswerAfter(events: seq<Event>, e: Event): Outcome
    requires e.Hit?
  {
    Admit(Queue(Replay(events), e.identity), e.limit, e.window, e.now).outcome
  }

  predicate Concerns(e: Event, id: Identity) {
    match e
    case Hit(i, _, _, _) => i == id
    case Reset(target) => target.None? || target.value == id
  }

  /** The calls made by or about one identity, in order. */
  function Own(events: seq<Event>, id: Identity): seq<Event> {
    if events == [] then []
    else
      var rest := Own(events[..|events| - 1], id);
      if Concerns(events[|events| - 1], id) then rest + [events[|events| - 1]] else rest
  }

  lemma {:induction false} QueueIgnoresOthers(events: seq<Event>, id: Identity)
    ensures Queue(Replay(events), id) == Queue(Replay(Own(events, id)), id)
  {
    if events != [] {
      var last := events[|events| - 1];
      QueueIgnoresOthers(events[..|events| - 1], id);
      var own := Own(events, id);
      if Concerns(last, id) {
        assert own[..|own| - 1] == Own(events[..|events| - 1], id);
      }
    }
  }

  /** Isolation: an interleaved run answers every identity as its own calls alone would be
      answered, whatever limits and windows the calls carry. */
  lemma AnswersAreIsolated(events: seq<Event>, e: Event)
    requires e.Hit?
    ensures AnswerAfter(events, e) == AnswerAfter(Own(events, e.identity), e)
  {
    QueueIgnoresOthers(events, e.identity);
  }

  /** The readings of one identity's hits since its last reset. */
  function SinceReset(events: seq<Event>, id: Identity): seq<real> {
    if events == [] then []
    else
      var rest := SinceReset(events[..|events| - 1], id);
      match events[|events| - 1]
      case Hit(i, _, _, now) => if i == id then rest + [now] else rest
      case Reset(target) => if target.None? || target.value == id then [] else rest
  }

  /** All hits of the identity carry the same limit and window. */
  ghost predicate Steady(events: seq<Event>, id: Identity, limit: int, window: real) {
    forall e :: e in events && e.Hit? && e.identity == id ==> e.limit == limit && e.window == window
  }

  lemma {:induction false} QueueIsRunSinceReset(events: seq<Event>, id: Identity, limit: int, window: real)
    requires limit >= 1 && Steady(events, id, limit, window)
    ensures var times := SinceReset(events, id);
            Queue(Replay(events), id) == After(times, |times|, limit, window).queue
  {
    if events != [] {
      var init, last := events[..|events| - 1], events[|events| - 1];
      QueueIsRunSinceReset(init, id, limit, window);
      if last.Hit? && last.identity == id {
        assert last in events;
        var rest := SinceReset(init, id);
        PrefixRun(rest, [last.now], |rest|, limit, window);
      }
    }
  }

  /** What an identity is told after any history: with a clock that never ran backwards since
      its last reset, the answer counts its own acceptances since then, at or after
      `now - window`. */
  lemma AnswersCountOwnHistory(events: seq<Event>, e: Event)
    requires e.Hit? && e.limit >= 1
    requires Steady(events, e.identity, e.limit, e.window)
    requires NonDecreasing(SinceReset(events, e.identity) + [e.now])
    ensures var times := SinceReset(events, e.identity);
            AnswerAfter(events, e) == CountingAnswer(After(times, |times|, e.limit, e.window).log, e.limit, e.window, e.now)
  {
    var times := SinceReset(events, e.identity);
    QueueIsRunSinceReset(events, e.identity, e.limit, e.window);
    PrefixRun(times, [e.now], |times|, e.limit, e.window);
    RefinesCounting(times + [e.now], |times|, e.limit, e.window);
  }

  predicate AllExpired(q: seq<real>, cutoff: real) {
    forall i :: 0 <= i < |q| ==> q[i] < cutoff
  }

  lemma EmptyFrontExactly(q: seq<real>, limit: int, window: real, now: real)
    ensures Admit(q, limit, window, now).outcome == IndexError
       <==> limit <= 0 && AllExpired(q, now - window)
  {
    var cutoff := now - window;
    var p := Prune(q, cutoff);
    PruneKeepsTail(q, cutoff);
    assert p != [] ==> q[|q| - |p|] == p[0];
  }

  /** An index error is raised exactly when the limit is not positive and no reading of the
      identity is left in the window. */
  lemma IndexErrorExactly(events: seq<Event>, e: Event)
    requires e.Hit?
    ensures AnswerAfter(events, e) == IndexError
       <==> e.limit <= 0 && AllExpired(Queue(Replay(events), e.identity), e.now - e.window)
  {
    EmptyFrontExactly(Queue(Replay(events), e.identity), e.limit, e.window, e.now);
    hide Admit, Queue, Replay, AllExpired;
  }
}
