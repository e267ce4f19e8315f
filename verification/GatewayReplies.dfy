/** What counted requests are answered, told by the handler runs that came before them. */
module GatewayReplies {
  import opened Options
  import opened RateLimiter
  import opened RateLimiterRuns
  import opened Gateway
  import opened GatewayPolicy
  import opened GatewayRuns

  /** The handler runs of the caller that lie in the window of the request. */
  function RunsInWindow(cfg: Config, w: World, req: Request): seq<real>
    requires Admitted(cfg, req)
  {
    Since(Readings(cfg, w.handled, CallerOf(cfg, req)), req.now - cfg.window)
  }

  lemma ServedReply(cfg: Config, w: World, req: Request)
    requires Counted(cfg, req)
    ensures var quota := QuotaOf(cfg, req);
            Serve(cfg, w, req).reply == match Verdict(cfg, w.hits, req)
              case Rejected(retry) => Response(429, false, false, Some(RetryHeader(retry)), Some((quota, 0)))
              case IndexError => Raised
              case Allowed(remaining) =>
                match req.handler
                case Raises => Raised
                case Responds(status) => Response(status, true, true, None, Some((quota, remaining)))
  {
    RefusalsExactly(cfg, req);
    PolicyDecides(cfg, req);
    VerdictIsAdmission(cfg, w.hits, req);
    hide Gates, Admit, IdentityOf, LimitOf, CallerOf, QuotaOf, Admitted, Counted, Metered, EntryFor, RetryHeader;
  }

  lemma VerdictByHistory(times: seq<real>, now: real, quota: int, window: real)
    requires quota >= 1 && NonDecreasing(times + [now])
    ensures var s := After(times, |times|, quota, window);
            Admit(s.queue, quota, window, now).outcome == CountingAnswer(s.log, quota, window, now)
  {
    PrefixRun(times, [now], |times|, quota, window);
    RefinesCounting(times + [now], |times|, quota, window);
  }

  lemma HeaderWithinSecond(retry: real)
    requires retry >= 0.0
    ensures retry < RetryHeader(retry) as real <= retry + 1.0
  {
  }

  lemma RejectedWaits(q: seq<real>, quota: int, window: real, now: real)
    requires Admit(q, quota, window, now).outcome.Rejected?
    ensures Admit(q, quota, window, now).outcome.retryAfter >= 0.0
  {
  }

  /** With a clock that does not run backwards, the whole reply to a counted request follows from
      the handler runs of its caller in the window: below quota the handler's own reply, with the
      quota and what is left of it, or its exception; at quota a 429 with the number of seconds
      until the oldest of those runs has left the window. */
  lemma ReplyCountsHistory(cfg: Config, reqs: seq<Request>, req: Request)
    requires Counted(cfg, req) && QuotaOf(cfg, req) >= 1
    requires FixedQuota(cfg, reqs, CallerOf(cfg, req), QuotaOf(cfg, req))
    requires NonDecreasing(Readings(cfg, reqs, CallerOf(cfg, req)) + [req.now])
    ensures var w, quota := Play(cfg, reqs).world, QuotaOf(cfg, req);
            var runs, reply := RunsInWindow(cfg, w, req), Serve(cfg, w, req).reply;
            && (|runs| < quota && req.handler.Raises? ==> reply == Raised)
            && (|runs| < quota && req.handler.Responds? ==>
                 reply == Response(req.handler.status, true, true, None, Some((quota, quota - |runs| - 1))))
            && (|runs| >= quota ==>
                 && reply.Response? && reply.retryAfter.Some?
                 && reply == Response(429, false, false, reply.retryAfter, Some((quota, 0)))
                 && var wait := runs[0] + cfg.window - req.now;
                    wait < reply.retryAfter.value as real <= wait + 1.0)
  {
    hide Play, FixedQuota, NonDecreasing, After, Serve, Admit, Readings, QuotaOf, CallerOf, Admitted, RetryHeader, Since;
    var id, quota, w := CallerOf(cfg, req), QuotaOf(cfg, req), Play(cfg, reqs).world;
    HandlerRunsAreLog(cfg, reqs, id, quota);
    VerdictByHistory(Readings(cfg, reqs, id), req.now, quota, cfg.window);
    ServedReply(cfg, w, req);
    if Verdict(cfg, w.hits, req).Rejected? {
      RejectedWaits(Queue(w.hits, id), quota, cfg.window, req.now);
      HeaderWithinSecond(Verdict(cfg, w.hits, req).retryAfter);
    }
  }

  /** In particular, a counted request is answered with the security headers exactly when fewer
      than its quota of handler runs lie in the window, and its handler does not raise. */
  lemma HeadersCountHistory(cfg: Config, reqs: seq<Request>, req: Request)
    requires Counted(cfg, req) && QuotaOf(cfg, req) >= 1
    requires FixedQuota(cfg, reqs, CallerOf(cfg, req), QuotaOf(cfg, req))
    requires NonDecreasing(Readings(cfg, reqs, CallerOf(cfg, req)) + [req.now])
    ensures var w := Play(cfg, reqs).world;
            Sent(Serve(cfg, w, req).reply).securityHeaders <==> |RunsInWindow(cfg, w, req)| < QuotaOf(cfg, req) && req.handler.Responds?
  {
    ReplyCountsHistory(cfg, reqs, req);
    hide Play, FixedQuota, NonDecreasing, Serve, Readings, QuotaOf, CallerOf, Admitted, RunsInWindow;
  }

  // ----- Waiting for the Retry-After time -----

  lemma {:induction false} ReadingsOfPrefix(cfg: Config, reqs: seq<Request>, i: nat, id: Identity)
    requires i <= |reqs|
    ensures Readings(cfg, reqs[..i], id) <= Readings(cfg, reqs, id)
  {
    if i < |reqs| {
      var init := reqs[..|reqs| - 1];
      ReadingsOfPrefix(cfg, init, i, id);
      assert init[..i] == reqs[..i];
      hide CountedFor;
    } else {
      assert reqs[..i] == reqs;
    }
  }

  /** A request of the caller is one call of the run of the caller's readings. */
  lemma RequestIsCall(cfg: Config, reqs: seq<Request>, i: nat, id: Identity, quota: int)
    requires i < |reqs| && CountedFor(cfg, reqs[i], id) && quota >= 1 && FixedQuota(cfg, reqs, id, quota)
    ensures var times, k := Readings(cfg, reqs, id), |Readings(cfg, reqs[..i], id)|;
            var w := Play(cfg, reqs[..i]).world;
            && k < |times| && times[k] == reqs[i].now
            && Verdict(cfg, w.hits, reqs[i]) == Answer(times, k, quota, cfg.window)
            && Readings(cfg, w.handled, id) == After(times, k, quota, cfg.window).log
  {
    var times, before := Readings(cfg, reqs, id), Readings(cfg, reqs[..i], id);
    assert reqs[..i + 1][..i] == reqs[..i];
    assert Readings(cfg, reqs[..i + 1], id) == before + [reqs[i].now];
    ReadingsOfPrefix(cfg, reqs, i + 1, id);
    assert times == before + times[|before|..];
    assert reqs[i] in reqs;
    QuotaOfPrefix(cfg, reqs, i, id, quota);
    HandlerRunsAreLog(cfg, reqs[..i], id, quota);
    PrefixRun(before, times[|before|..], |before|, quota, cfg.window);
    hide Play, Readings, After, Admit, Queue;
  }

  lemma QuotaOfPrefix(cfg: Config, reqs: seq<Request>, i: nat, id: Identity, quota: int)
    requires i <= |reqs| && FixedQuota(cfg, reqs, id, quota)
    ensures FixedQuota(cfg, reqs[..i], id, quota)
  {
  }

  lemma {:induction false} LogNeverShrinks(times: seq<real>, k: nat, m: nat, limit: int, window: real)
    requires k <= m <= |times| && limit >= 1
    ensures |After(times, k, limit, window).log| <= |After(times, m, limit, window).log|
  {
    if k < m {
      LogNeverShrinks(times, k, m - 1, limit, window);
      LogStep(times, m, limit, window);
      hide After, Answer;
    }
  }

  /** While the log stands still, nothing is accepted. */
  lemma NothingAccepted(times: seq<real>, k: nat, m: nat, limit: int, window: real)
    requires k <= m <= |times| && limit >= 1
    requires After(times, k, limit, window).log == After(times, m, limit, window).log
    ensures forall l :: k <= l < m ==> !Answer(times, l, limit, window).Allowed?
  {
    hide After, Answer;
    forall l | k <= l < m ensures !Answer(times, l, limit, window).Allowed? {
      LogNeverShrinks(times, k, l, limit, window);
      LogStep(times, l + 1, limit, window);
      LogNeverShrinks(times, l + 1, m, limit, window);
    }
  }

  /** Earlier requests of a caller are earlier calls. */
  lemma CallsInOrder(cfg: Config, reqs: seq<Request>, i: nat, j: nat, id: Identity)
    requires i < j <= |reqs| && CountedFor(cfg, reqs[i], id)
    ensures |Readings(cfg, reqs[..i], id)| < |Readings(cfg, reqs[..j], id)|
  {
    assert reqs[..i + 1][..i] == reqs[..i] && reqs[..j][..i + 1] == reqs[..i + 1];
    ReadingsOfPrefix(cfg, reqs[..j], i + 1, id);
  }

  /** A reply that names a time to wait is a rejection. */
  lemma WaitingMeansRejected(cfg: Config, w: World, req: Request)
    requires Counted(cfg, req)
    ensures var reply, verdict := Serve(cfg, w, req).reply, Verdict(cfg, w.hits, req);
            && (reply.Response? && reply.retryAfter.Some? <==> verdict.Rejected?)
            && (verdict.Rejected? ==> reply.retryAfter == Some(RetryHeader(verdict.retryAfter)))
            && (verdict.Allowed? <==> Serve(cfg, w, req).world.handled == w.handled + [req])
  {
    ServedReply(cfg, w, req);
    ServeMoves(cfg, w, req);
    hide Serve, RetryHeader, Counted, Admitted, Admit;
  }

  /** In every run, with no assumption on the clock: after a 429, a later request of the same caller
      reaches its handler if it waited for the number of seconds in the reply, unless another
      request of that caller was handled in between; and one second less was too short. */
  lemma RetryAfterSuffices(cfg: Config, reqs: seq<Request>, i: nat, j: nat, id: Identity, quota: int)
    requires i < j < |reqs| && CountedFor(cfg, reqs[i], id) && CountedFor(cfg, reqs[j], id)
    requires quota >= 1 && FixedQuota(cfg, reqs, id, quota)
    requires Play(cfg, reqs).replies[i].Response? && Play(cfg, reqs).replies[i].retryAfter.Some?
    requires Readings(cfg, Play(cfg, reqs[..i]).world.handled, id) == Readings(cfg, Play(cfg, reqs[..j]).world.handled, id)
    ensures var wait := Play(cfg, reqs).replies[i].retryAfter.value;
            var before, after := Play(cfg, reqs[..j]).world, Play(cfg, reqs[..j + 1]).world;
            && (reqs[j].now >= reqs[i].now + wait as real ==> after.handled == before.handled + [reqs[j]])
            && (reqs[j].now <= reqs[i].now + (wait - 1) as real ==>
                 Play(cfg, reqs).replies[j].Response? && Play(cfg, reqs).replies[j].retryAfter.Some?)
  {
    var times, k, m := Readings(cfg, reqs, id), |Readings(cfg, reqs[..i], id)|, |Readings(cfg, reqs[..j], id)|;
    ReplyOf(cfg, reqs, i);
    ReplyOf(cfg, reqs, j);
    NextWorld(cfg, reqs, j);
    hide *;
    CountedForMeans(cfg, reqs[i], id);
    CountedForMeans(cfg, reqs[j], id);
    RequestIsCall(cfg, reqs, i, id, quota);
    RequestIsCall(cfg, reqs, j, id, quota);
    CallsInOrder(cfg, reqs, i, j, id);
    WaitingMeansRejected(cfg, Play(cfg, reqs[..i]).world, reqs[i]);
    WaitingMeansRejected(cfg, Play(cfg, reqs[..j]).world, reqs[j]);
    NothingAccepted(times, k, m, quota, cfg.window);
    WaitDecides(times, k, m, quota, cfg.window);
  }

  lemma NextWorld(cfg: Config, reqs: seq<Request>, j: nat)
    requires j < |reqs|
    ensures Play(cfg, reqs[..j + 1]).world == Serve(cfg, Play(cfg, reqs[..j]).world, reqs[j]).world
  {
    assert reqs[..j + 1][..j] == reqs[..j];
    hide Serve;
  }

  lemma CountedForMeans(cfg: Config, req: Request, id: Identity)
    requires CountedFor(cfg, req, id)
    ensures Counted(cfg, req)
  {
  }

  lemma WaitDecides(times: seq<real>, k: nat, m: nat, limit: int, window: real)
    requires k < m < |times| && limit >= 1
    requires Answer(times, k, limit, window).Rejected?
    requires forall l :: k <= l < m ==> !Answer(times, l, limit, window).Allowed?
    ensures var wait := RetryHeader(Answer(times, k, limit, window).retryAfter);
            && (times[m] >= times[k] + wait as real ==> Answer(times, m, limit, window).Allowed?)
            && (times[m] <= times[k] + (wait - 1) as real ==> Answer(times, m, limit, window).Rejected?)
  {
    hide After, Admit, Answer;
    HeaderSuffices(times, k, m, limit, window);
    BlockedCallsAreEarly(times, k, m, limit, window);
    RetryAfterIsExact(times, k, m, limit, window);
    NeverFails(times, m, limit, window);
  }

  lemma NeverFails(times: seq<real>, m: nat, limit: int, window: real)
    requires m < |times| && limit >= 1
    ensures !Answer(times, m, limit, window).IndexError?
  {
  }
}
