/** Guarantees of the middleware stack over whole sequences of requests. */
module GatewayRuns {
  import opened Options
  import opened RateLimiter
  import opened RateLimiterRuns
  import opened AuditTrail
  import opened Gateway
  import opened GatewayPolicy

  datatype Trace = Trace(world: World, replies: seq<Reply>)

  /** Serving requests one after the other, from an empty limiter and an empty log. */
  function Play(cfg: Config, reqs: seq<Request>): (t: Trace)
    ensures |t.replies| == |reqs|
  {
    if reqs == [] then Trace(World(map[], [], []), [])
    else
      var before := Play(cfg, reqs[..|reqs| - 1]);
      var served := Serve(cfg, before.world, reqs[|reqs| - 1]);
      Trace(served.world, before.replies + [served.reply])
  }

  // ----- The audit log -----

  /** The limiter's answer to a counted request: for its caller, at its quota. */
  function Verdict(cfg: Config, hits: Hits, req: Request): Outcome
    requires Admitted(cfg, req)
  {
    Admit(Queue(hits, CallerOf(cfg, req)), QuotaOf(cfg, req), cfg.window, req.now).outcome
  }

  lemma VerdictIsAdmission(cfg: Config, hits: Hits, req: Request)
    requires Counted(cfg, req)
    ensures Metered(cfg, req)
    ensures AdmissionOf(cfg, hits, req) == Admit(Queue(hits, CallerOf(cfg, req)), QuotaOf(cfg, req), cfg.window, req.now)
  {
    PolicyDecides(cfg, req);
    RefusalsExactly(cfg, req);
  }

  /** The status a request is recorded with, given the limiter it finds. */
  function ExpectedStatus(cfg: Config, hits: Hits, req: Request): int
    requires Admitted(cfg, req)
  {
    if Counted(cfg, req) && Verdict(cfg, hits, req).Rejected? then 429
    else if Counted(cfg, req) && Verdict(cfg, hits, req).IndexError? then 500
    else match req.handler case Responds(status) => status case Raises => 500
  }

  /** An exception reached the audit log. */
  predicate Fails(cfg: Config, hits: Hits, req: Request)
    requires Admitted(cfg, req)
  {
    if Counted(cfg, req) && !Verdict(cfg, hits, req).Allowed? then Verdict(cfg, hits, req).IndexError?
    else req.handler.Raises?
  }

  /** One entry for every request that got past both gates, in order, read off the request and
      the limiter's answer to it. */
  function ExpectedEntries(cfg: Config, reqs: seq<Request>): seq<Entry> {
    if reqs == [] then []
    else
      var n := |reqs| - 1;
      var req, hits := reqs[n], Play(cfg, reqs[..n]).world.hits;
      var rest := ExpectedEntries(cfg, reqs[..n]);
      if !Admitted(cfg, req) then rest
      else
        rest + [Entry(req.verb, req.path, ExpectedStatus(cfg, hits, req), KeyIdOf(cfg, req), req.clientHost, Fails(cfg, hits, req))]
  }

  lemma ServeRecords(cfg: Config, w: World, req: Request)
    requires cfg.auditEnabled
    ensures Serve(cfg, w, req).world.history == w.history +
      if !Admitted(cfg, req) then []
      else [Entry(req.verb, req.path, ExpectedStatus(cfg, w.hits, req), KeyIdOf(cfg, req), req.clientHost, Fails(cfg, w.hits, req))]
  {
    RefusalsExactly(cfg, req);
    PolicyDecides(cfg, req);
    if Counted(cfg, req) {
      VerdictIsAdmission(cfg, w.hits, req);
    }
    hide Gates, Admit, IdentityOf, LimitOf, CallerOf, QuotaOf, Admitted, Counted, Metered;
  }

  /** The log records exactly the requests past the gates, once each and in order: with the
      handler's status, 429 for a rejection, and 500 for an exception of handler or limiter. */
  lemma {:induction false} AuditIsComplete(cfg: Config, reqs: seq<Request>)
    requires cfg.auditEnabled
    ensures Play(cfg, reqs).world.history == ExpectedEntries(cfg, reqs)
  {
    if reqs != [] {
      var init, req := reqs[..|reqs| - 1], reqs[|reqs| - 1];
      AuditIsComplete(cfg, init);
      ServeRecords(cfg, Play(cfg, init).world, req);
      hide Serve, Admitted;
    }
  }

  // ----- The gates -----

  /** The requests that got past both gates. */
  function Passing(cfg: Config, reqs: seq<Request>): seq<Request> {
    if reqs == [] then []
    else
      var rest := Passing(cfg, reqs[..|reqs| - 1]);
      if Admitted(cfg, reqs[|reqs| - 1]) then rest + [reqs[|reqs| - 1]] else rest
  }

  /** Refused requests leave no mark: limiter, log and handler runs are those of a run in
      which they were never sent. */
  lemma {:induction false} RefusedRequestsLeaveNoMark(cfg: Config, reqs: seq<Request>)
    ensures Play(cfg, reqs).world == Play(cfg, Passing(cfg, reqs)).world
  {
    if reqs != [] {
      var n := |reqs| - 1;
      RefusedRequestsLeaveNoMark(cfg, reqs[..n]);
      var passing := Passing(cfg, reqs);
      if Admitted(cfg, reqs[n]) {
        assert passing[..|passing| - 1] == Passing(cfg, reqs[..n]);
      } else {
        RefusalChangesNothing(cfg, Play(cfg, reqs[..n]).world, reqs[n]);
      }
      hide Serve, Admitted;
    }
  }

  // ----- Handler runs per caller -----

  predicate CountedFor(cfg: Config, req: Request, id: Identity) {
    Counted(cfg, req) && CallerOf(cfg, req) == id
  }

  /** The clock readings of the counted requests of one caller. */
  function Readings(cfg: Config, reqs: seq<Request>, id: Identity): seq<real> {
    if reqs == [] then []
    else
      var req := reqs[|reqs| - 1];
      var rest := Readings(cfg, reqs[..|reqs| - 1], id);
      if CountedFor(cfg, req, id) then rest + [req.now] else rest
  }

  /** All counted requests of the caller have the same quota. */
  ghost predicate FixedQuota(cfg: Config, reqs: seq<Request>, id: Identity, quota: int) {
    forall req :: req in reqs && CountedFor(cfg, req, id) ==> QuotaOf(cfg, req) == quota
  }

  /** What one request does to the limiter and to the list of handler runs. */
  lemma ServeMoves(cfg: Config, w: World, req: Request)
    ensures var v := Serve(cfg, w, req).world;
            && (Counted(cfg, req) ==>
                 var a := Admit(Queue(w.hits, CallerOf(cfg, req)), QuotaOf(cfg, req), cfg.window, req.now);
                 v.hits == w.hits[CallerOf(cfg, req) := a.queue]
                 && v.handled == if a.outcome.Allowed? then w.handled + [req] else w.handled)
            && (!Counted(cfg, req) ==> v.hits == w.hits && v.handled == if Admitted(cfg, req) then w.handled + [req] else w.handled)
  {
    RefusalsExactly(cfg, req);
    PolicyDecides(cfg, req);
    if Counted(cfg, req) {
      VerdictIsAdmission(cfg, w.hits, req);
    }
    hide Gates, Admit, IdentityOf, LimitOf, CallerOf, QuotaOf, Admitted, Counted, Metered, EntryFor, HandlerReply;
  }

  lemma ReadingsSnoc(cfg: Config, reqs: seq<Request>, req: Request, id: Identity)
    ensures Readings(cfg, reqs + [req], id) == Readings(cfg, reqs, id) + if CountedFor(cfg, req, id) then [req.now] else []
  {
    assert (reqs + [req])[..|reqs|] == reqs;
  }

  lemma RunSnoc(times: seq<real>, now: real, limit: int, window: real)
    requires limit >= 1
    ensures var s, t := After(times, |times|, limit, window), After(times + [now], |times| + 1, limit, window);
            var a := Admit(s.queue, limit, window, now);
            t.queue == a.queue && t.log == if a.outcome.Allowed? then s.log + [now] else s.log
  {
    PrefixRun(times, [now], |times|, limit, window);
    AfterStep(times + [now], |times| + 1, limit, window);
    hide After, Admit;
  }

  /** One more request keeps the handler runs of a caller the log of its readings. */
  lemma ServeExtendsLog(cfg: Config, w: World, req: Request, id: Identity, quota: int, times: seq<real>)
    requires quota >= 1 && FixedQuota(cfg, [req], id, quota)
    requires Queue(w.hits, id) == After(times, |times|, quota, cfg.window).queue
    requires Readings(cfg, w.handled, id) == After(times, |times|, quota, cfg.window).log
    ensures var longer := if CountedFor(cfg, req, id) then times + [req.now] else times;
            var v := Serve(cfg, w, req).world;
            && Queue(v.hits, id) == After(longer, |longer|, quota, cfg.window).queue
            && Readings(cfg, v.handled, id) == After(longer, |longer|, quota, cfg.window).log
  {
    hide Serve, Admitted, CallerOf, QuotaOf, Admit, After, Readings;
    assert req in [req];
    ServeMoves(cfg, w, req);
    ReadingsSnoc(cfg, w.handled, req, id);
    RunSnoc(times, req.now, quota, cfg.window);
  }

  lemma {:induction false} HandlerRunsAreLog(cfg: Config, reqs: seq<Request>, id: Identity, quota: int)
    requires quota >= 1 && FixedQuota(cfg, reqs, id, quota)
    ensures var times := Readings(cfg, reqs, id);
            var w := Play(cfg, reqs).world;
            && Queue(w.hits, id) == After(times, |times|, quota, cfg.window).queue
            && Readings(cfg, w.handled, id) == After(times, |times|, quota, cfg.window).log
  {
    if reqs != [] {
      var init, req := reqs[..|reqs| - 1], reqs[|reqs| - 1];
      HandlerRunsAreLog(cfg, init, id, quota);
      assert req in reqs;
      ServeExtendsLog(cfg, Play(cfg, init).world, req, id, quota, Readings(cfg, init, id));
      hide Serve, FixedQuota, After, CountedFor;
    }
  }

  /** Per caller, route handlers run at most `quota` times in any closed interval of length
      `window - drift`, over the whole life of the stack: the quota of the caller's own key, or
      the default without one. */
  lemma HandlerRunsRespectWindow(cfg: Config, reqs: seq<Request>, id: Identity, quota: int, drift: real, start: real)
    requires quota >= 1 && FixedQuota(cfg, reqs, id, quota)
    requires drift >= 0.0 && DriftsAtMost(Readings(cfg, reqs, id), drift)
    ensures InWindow(Readings(cfg, Play(cfg, reqs).world.handled, id), start, cfg.window - drift) <= quota
  {
    hide Readings, Play, InWindow, After, DriftsAtMost, FixedQuota;
    var times := Readings(cfg, reqs, id);
    HandlerRunsAreLog(cfg, reqs, id, quota);
    WindowBound(times, |times|, quota, cfg.window, drift, start);
  }

  /** Keys that share an id share a quota. */
  ghost predicate QuotasAgree(cfg: Config) {
    forall s, t :: s in cfg.keys && t in cfg.keys && cfg.keys[s].keyId == cfg.keys[t].keyId
      ==> cfg.keys[s].quotaPerMinute == cfg.keys[t].quotaPerMinute
  }

  /** Then every caller has one quota for all its requests. */
  lemma IdentityFixesLimit(cfg: Config, reqs: seq<Request>, one: Request)
    requires QuotasAgree(cfg) && Counted(cfg, one)
    ensures FixedQuota(cfg, reqs, CallerOf(cfg, one), QuotaOf(cfg, one))
  {
    forall req | req in reqs && CountedFor(cfg, req, CallerOf(cfg, one)) ensures QuotaOf(cfg, req) == QuotaOf(cfg, one) {
      CallersAgreeExactly(cfg, one, req);
    }
  }

  // ----- Security headers -----

  /** What is sent to the client: an exception that leaves the stack is answered by the server's
      own error layer, outside all of these middlewares, with a bare 500. */
  function Sent(reply: Reply): (r: Reply)
    ensures r.Response?
  {
    if reply.Raised? then Response(500, false, false, None, None) else reply
  }

  lemma {:induction false} ReplyOf(cfg: Config, reqs: seq<Request>, i: nat)
    requires i < |reqs|
    ensures Play(cfg, reqs).replies[i] == Serve(cfg, Play(cfg, reqs[..i]).world, reqs[i]).reply
  {
    hide Serve;
    var n := |reqs| - 1;
    if i < n {
      ReplyOf(cfg, reqs[..n], i);
      assert reqs[..n][..i] == reqs[..i];
    }
  }

  lemma ServedHeaders(cfg: Config, w: World, req: Request)
    ensures !Sent(Serve(cfg, w, req).reply).securityHeaders
       <==> || !Admitted(cfg, req)
            || (Counted(cfg, req) && !Verdict(cfg, w.hits, req).Allowed?)
            || req.handler.Raises?
  {
    RefusalsExactly(cfg, req);
    PolicyDecides(cfg, req);
    if Counted(cfg, req) {
      VerdictIsAdmission(cfg, w.hits, req);
    }
    hide Gates, Admit, IdentityOf, LimitOf, CallerOf, QuotaOf, Counted, Metered, EntryFor;
  }

  /** In every run, a reply goes out without the standard security headers exactly when a gate
      refuses the request, the limiter rejects it or fails on it, or the handler raises: the others
      never reach the middleware that adds the headers, and an exception passes through it. */
  lemma HeadersMissingExactly(cfg: Config, reqs: seq<Request>, i: nat)
    requires i < |reqs|
    ensures !Sent(Play(cfg, reqs).replies[i]).securityHeaders
       <==> || !Admitted(cfg, reqs[i])
            || (Counted(cfg, reqs[i]) && !Verdict(cfg, Play(cfg, reqs[..i]).world.hits, reqs[i]).Allowed?)
            || reqs[i].handler.Raises?
  {
    ReplyOf(cfg, reqs, i);
    ServedHeaders(cfg, Play(cfg, reqs[..i]).world, reqs[i]);
    hide Serve, Play, Admitted;
  }
}
