/**
The middleware stack in the order the program builds it. The middleware added last is
outermost, so a request meets the bearer gate, the API-key gate, the audit log, the rate
limiter, the security headers and the tracer, and then the route handler.

Token verification is a boolean of the request; a handler either answers with a status or
raises; the clock reading that the limiter takes travels with the request.
 */
module Gateway {
  import opened Options
  import opened RateLimiter
  import opened AuditTrail

  datatype APIKey = APIKey(keyId: string, quotaPerMinute: int, allowedPaths: Option<set<string>>, enabled: bool)

  datatype Handler = Responds(status: int) | Raises

  datatype Request = Request(
    verb: string, path: string, bearerValid: bool, secret: Option<string>,
    clientHost: Option<string>, now: real, handler: Handler)

  datatype Reply =
    | Response(status: int, securityHeaders: bool, requestId: bool, retryAfter: Option<int>, rateLimit: Option<(int, int)>)
    | Raised

  datatype Config = Config(
    bearerEnabled: bool, keyEnabled: bool, limitEnabled: bool, auditEnabled: bool,
    keys: map<string, APIKey>, defaultLimit: int, window: real)

  const EXEMPT_PATHS: set<string> := {"/", "/health", "/docs", "/openapi.json", "/redoc"}

  const BEARER_EXEMPT_EXACT: set<string> :=
    { "/", "/health", "/health/live", "/docs", "/redoc", "/hero-3d.css", "/landing-init.js",
      "/style.css", "/hero-poster-idle.webp", "/hero-poster-verified.webp" }

  const BEARER_EXEMPT_PREFIXES: set<string> :=
    { "/openapi.json", "/app", "/dist/", "/api/v1/security/auth/login",
      "/api/v1/security/auth/signup", "/api/v1/security/auth/refresh" }

  predicate BearerExempt(path: string) {
    path in BEARER_EXEMPT_EXACT
    || exists prefix :: prefix in BEARER_EXEMPT_PREFIXES && (path == prefix || prefix + "/" <= path)
  }

  // ----- What the gates decide -----

  datatype Gate = Pass(key: Option<APIKey>) | Refuse(status: int)

  predicate BearerPasses(cfg: Config, req: Request) {
    !cfg.bearerEnabled || req.verb == "OPTIONS" || BearerExempt(req.path) || req.bearerValid
  }

  function KeyGate(cfg: Config, req: Request): Gate {
    if !cfg.keyEnabled || req.path in EXEMPT_PATHS then Pass(None)
    else if req.secret.None? || req.secret.value == "" || req.secret.value !in cfg.keys then Refuse(401)
    else
      var key := cfg.keys[req.secret.value];
      if !key.enabled then Refuse(401)
      else if key.allowedPaths.Some? && key.allowedPaths.value != {}
        && !exists p :: p in key.allowedPaths.value && p <= req.path then Refuse(403)
      else Pass(Some(key))
  }

  /** Both gates together, bearer first. */
  function Gates(cfg: Config, req: Request): Gate {
    if BearerPasses(cfg, req) then KeyGate(cfg, req) else Refuse(401)
  }

  function IdentityOf(req: Request, key: Option<APIKey>): Identity {
    match key
    case Some(k) => "key:" + k.keyId
    case None => "ip:" + match req.clientHost case Some(h) => h case None => "unknown"
  }

  function LimitOf(cfg: Config, key: Option<APIKey>): int {
    match key case Some(k) => k.quotaPerMinute case None => cfg.defaultLimit
  }

  /** The limiter is consulted for the request. */
  predicate Metered(cfg: Config, req: Request) {
    Gates(cfg, req).Pass? && cfg.limitEnabled && req.path !in EXEMPT_PATHS
  }

  // ----- What serving one request does -----

  datatype World = World(hits: Hits, history: seq<Entry>, handled: seq<Request>)

  datatype Served = Served(world: World, reply: Reply)

  function AdmissionOf(cfg: Config, hits: Hits, req: Request): Admission
    requires Metered(cfg, req)
  {
    var key := Gates(cfg, req).key;
    Admit(Queue(hits, IdentityOf(req, key)), LimitOf(cfg, key), cfg.window, req.now)
  }

  function EntryFor(req: Request, key: Option<APIKey>, reply: Reply): Entry {
    Entry(req.verb, req.path, if reply.Raised? then 500 else reply.status,
          match key case Some(k) => Some(k.keyId) case None => None,
          req.clientHost, reply.Raised?)
  }

  function HandlerReply(req: Request, rateLimit: Option<(int, int)>): Reply {
    match req.handler
    case Responds(status) => Response(status, true, true, None, rateLimit)
    case Raises => Raised
  }

  function Serve(cfg: Config, w: World, req: Request): Served {
    match Gates(cfg, req)
    case Refuse(status) => Served(w, Response(status, false, false, None, None))
    case Pass(key) =>
      var admitted := Metered(cfg, req) ==> AdmissionOf(cfg, w.hits, req).outcome.Allowed?;
      var hits := if Metered(cfg, req) then w.hits[IdentityOf(req, key) := AdmissionOf(cfg, w.hits, req).queue] else w.hits;
      var reply :=
        if !Metered(cfg, req) then HandlerReply(req, None)
        else match AdmissionOf(cfg, w.hits, req).outcome
          case Allowed(remaining) => HandlerReply(req, Some((LimitOf(cfg, key), remaining)))
          case Rejected(retry) => Response(429, false, false, Some(RetryHeader(retry)), Some((LimitOf(cfg, key), 0)))
          case IndexError => Raised;
      Served(
        World(
          hits,
          if cfg.auditEnabled then w.history + [EntryFor(req, key, reply)] else w.history,
          if admitted then w.handled + [req] else w.handled),
        reply)
  }

  /** The stack itself: each middleware calls the next one in. */
  class Stack {
    const cfg: Config
    const limiter: SlidingWindowRateLimiter
    const audit: AuditLog
    var handled: seq<Request>

    ghost function Snapshot(): World
      reads this, limiter, audit
    {
      World(limiter.hits, audit.history, handled)
    }

    constructor (cfg: Config, limiter: SlidingWindowRateLimiter, audit: AuditLog)
      ensures this.cfg == cfg && this.limiter == limiter && this.audit == audit && handled == []
    {
      this.cfg, this.limiter, this.audit, this.handled := cfg, limiter, audit, [];
    }

    method Dispatch(req: Request) returns (reply: Reply)
      requires audit.Valid()
      modifies this, limiter, audit
      ensures audit.Valid()
      ensures Serve(cfg, old(Snapshot()), req) == Served(Snapshot(), reply)
    {
      if !cfg.bearerEnabled || req.verb == "OPTIONS" || BearerExempt(req.path) {
        reply := KeyMiddleware(req);
      } else if !req.bearerValid {
        reply := Response(401, false, false, None, None);
      } else {
        reply := KeyMiddleware(req);
      }
    }

    method KeyMiddleware(req: Request) returns (reply: Reply)
      requires audit.Valid() && BearerPasses(cfg, req)
      modifies this, limiter, audit
      ensures audit.Valid()
      ensures Serve(cfg, old(Snapshot()), req) == Served(Snapshot(), reply)
    {
      if !cfg.keyEnabled || req.path in EXEMPT_PATHS {
        reply := AuditMiddleware(req, None);
        return;
      }
      if req.secret.None? || req.secret.value == "" {
        return Response(401, false, false, None, None);
      }
      if req.secret.value !in cfg.keys || !cfg.keys[req.secret.value].enabled {
        return Response(401, false, false, None, None);
      }
      var key := cfg.keys[req.secret.value];
      if key.allowedPaths.Some? && key.allowedPaths.value != {}
         && !exists p :: p in key.allowedPaths.value && p <= req.path {
        return Response(403, false, false, None, None);
      }
      reply := AuditMiddleware(req, Some(key));
    }

    method AuditMiddleware(req: Request, key: Option<APIKey>) returns (reply: Reply)
      requires audit.Valid() && Gates(cfg, req) == Pass(key)
      modifies this, limiter, audit
      ensures audit.Valid()
      ensures Serve(cfg, old(Snapshot()), req) == Served(Snapshot(), reply)
    {
      reply := LimitMiddleware(req, key);
      if cfg.auditEnabled {
        var status := 500;
        if reply.Response? {
          status := reply.status;
        }
        var keyId := match key case Some(k) => Some(k.keyId) case None => None;
        audit.Record(Entry(req.verb, req.path, status, keyId, req.clientHost, reply.Raised?));
      }
    }

    method LimitMiddleware(req: Request, key: Option<APIKey>) returns (reply: Reply)
      requires audit.Valid() && Gates(cfg, req) == Pass(key)
      modifies this, limiter
      ensures Serve(cfg.(auditEnabled := false), old(Snapshot()), req) == Served(Snapshot(), reply)
    {
      if !cfg.limitEnabled || req.path in EXEMPT_PATHS {
        reply := Handle(req);
        return;
      }
      var limit := LimitOf(cfg, key);
      var outcome := limiter.Allow(IdentityOf(req, key), limit, cfg.window, req.now);
      match outcome
      case IndexError =>
        reply := Raised;
      case Rejected(retry) =>
        reply := Response(429, false, false, Some(RetryHeader(retry)), Some((limit, 0)));
      case Allowed(remaining) =>
        reply := Handle(req);
        if reply.Response? {
          reply := reply.(rateLimit := Some((limit, remaining)));
        }
    }

    /** The security-header and tracing middlewares around the route handler. */
    method Handle(req: Request) returns (reply: Reply)
      modifies this
      ensures handled == old(handled) + [req]
      ensures reply == HandlerReply(req, None)
    {
      handled := handled + [req];
      match req.handler
      case Raises => reply := Raised;
      case Responds(status) =>
        reply := Response(status, false, false, None, None);
        reply := reply.(requestId := true);
        reply := reply.(securityHeaders := true);
    }
  }
}
