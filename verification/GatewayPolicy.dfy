/**
What the configuration and a request alone decide: who is let in, under which identity, and with
which quota. The middlewares are shown to decide the same.
 */
module GatewayPolicy {
  import opened Options
  import opened RateLimiter
  import opened Gateway

  predicate TokenRequired(cfg: Config, req: Request) {
    cfg.bearerEnabled && req.verb != "OPTIONS" && !BearerExempt(req.path)
  }

  predicate KeyRequired(cfg: Config, req: Request) {
    cfg.keyEnabled && req.path !in EXEMPT_PATHS
  }

  /** The request carries the secret of a key that is enabled. */
  predicate KeyKnown(cfg: Config, req: Request) {
    req.secret.Some? && req.secret.value != "" && req.secret.value in cfg.keys && cfg.keys[req.secret.value].enabled
  }

  /** No prefixes, or an empty set of them, allow every path. */
  predicate PathAllowed(key: APIKey, path: string) {
    key.allowedPaths.Some? && key.allowedPaths.value != {} ==> exists p :: p in key.allowedPaths.value && p <= path
  }

  predicate Admitted(cfg: Config, req: Request) {
    && (TokenRequired(cfg, req) ==> req.bearerValid)
    && (KeyRequired(cfg, req) ==> KeyKnown(cfg, req) && PathAllowed(cfg.keys[req.secret.value], req.path))
  }

  /** Requests that use up quota. */
  predicate Counted(cfg: Config, req: Request) {
    Admitted(cfg, req) && cfg.limitEnabled && req.path !in EXEMPT_PATHS
  }

  function Host(req: Request): string {
    match req.clientHost case Some(host) => host case None => "unknown"
  }

  function CallerOf(cfg: Config, req: Request): Identity
    requires Admitted(cfg, req)
  {
    if KeyRequired(cfg, req) then "key:" + cfg.keys[req.secret.value].keyId else "ip:" + Host(req)
  }

  function QuotaOf(cfg: Config, req: Request): int
    requires Admitted(cfg, req)
  {
    if KeyRequired(cfg, req) then cfg.keys[req.secret.value].quotaPerMinute else cfg.defaultLimit
  }

  function KeyIdOf(cfg: Config, req: Request): Option<string>
    requires Admitted(cfg, req)
  {
    if KeyRequired(cfg, req) then Some(cfg.keys[req.secret.value].keyId) else None
  }

  /** A missing, unknown or disabled key is refused with 401, a path under no allowed prefix with
      403, a missing token with 401 before either, and nothing else is refused. */
  lemma RefusalsExactly(cfg: Config, req: Request)
    ensures Gates(cfg, req) == Refuse(401)
       <==> (TokenRequired(cfg, req) && !req.bearerValid) || (KeyRequired(cfg, req) && !KeyKnown(cfg, req))
    ensures Gates(cfg, req) == Refuse(403)
       <==> && (TokenRequired(cfg, req) ==> req.bearerValid)
            && KeyRequired(cfg, req) && KeyKnown(cfg, req) && !PathAllowed(cfg.keys[req.secret.value], req.path)
    ensures Gates(cfg, req).Pass? <==> Admitted(cfg, req)
  {
  }

  /** The key the middlewares hand on is the one the secret belongs to; quota and identity are its
      own, or the default and the address. */
  lemma PolicyDecides(cfg: Config, req: Request)
    ensures Metered(cfg, req) <==> Counted(cfg, req)
    ensures Admitted(cfg, req) ==>
      var key := Gates(cfg, req).key;
      && key == (if KeyRequired(cfg, req) then Some(cfg.keys[req.secret.value]) else None)
      && IdentityOf(req, key) == CallerOf(cfg, req) && LimitOf(cfg, key) == QuotaOf(cfg, req)
  {
    RefusalsExactly(cfg, req);
  }

  /** Two requests share a caller exactly when both are keyed with the same key id, or neither is
      and they come from the same host: keys and hosts never collide. */
  lemma CallersAgreeExactly(cfg: Config, a: Request, b: Request)
    requires Admitted(cfg, a) && Admitted(cfg, b)
    ensures CallerOf(cfg, a) == CallerOf(cfg, b)
       <==> KeyIdOf(cfg, a) == KeyIdOf(cfg, b) && (KeyIdOf(cfg, a).None? ==> Host(a) == Host(b))
  {
    var x, y := CallerOf(cfg, a), CallerOf(cfg, b);
    assert KeyIdOf(cfg, a).Some? ==> x[0] == 'k' && x[4..] == KeyIdOf(cfg, a).value;
    assert KeyIdOf(cfg, b).Some? ==> y[0] == 'k' && y[4..] == KeyIdOf(cfg, b).value;
    assert KeyIdOf(cfg, a).None? ==> x[0] == 'i' && x[3..] == Host(a);
    assert KeyIdOf(cfg, b).None? ==> y[0] == 'i' && y[3..] == Host(b);
  }

  /** A refusal is a bare reply and changes nothing. */
  lemma RefusalChangesNothing(cfg: Config, w: World, req: Request)
    requires !Admitted(cfg, req)
    ensures Serve(cfg, w, req).world == w
    ensures exists status :: status in {401, 403} && Serve(cfg, w, req).reply == Response(status, false, false, None, None)
  {
    RefusalsExactly(cfg, req);
    hide BearerPasses, KeyKnown, PathAllowed, TokenRequired;
    assert Gates(cfg, req) == Refuse(401) || Gates(cfg, req) == Refuse(403);
  }

  /** An admitted request that is not counted reaches its handler, whatever the limiter's state,
      and gets the handler's reply with security headers and request id, or its exception. */
  lemma UncountedIsServed(cfg: Config, w: World, req: Request)
    requires Admitted(cfg, req) && !Counted(cfg, req)
    ensures var served := Serve(cfg, w, req);
            && served.world.hits == w.hits && served.world.handled == w.handled + [req]
            && served.reply == match req.handler
                 case Responds(status) => Response(status, true, true, None, None)
                 case Raises => Raised
  {
    PolicyDecides(cfg, req);
    RefusalsExactly(cfg, req);
  }

  /** Health and documentation pages use up no quota. */
  lemma PublicPagesAreFree(cfg: Config, req: Request)
    requires req.path == "/" || req.path == "/health" || req.path == "/docs" || req.path == "/openapi.json" || req.path == "/redoc"
    ensures !Counted(cfg, req) && !KeyRequired(cfg, req) && !TokenRequired(cfg, req)
  {
    assert "/openapi.json" in BEARER_EXEMPT_PREFIXES;
  }

  /** Prefixes are exempt from the token as whole segments: everything below `/app` is, a longer
      first segment is not. */
  lemma ExemptPrefixesAreSegments(rest: string)
    ensures BearerExempt("/app") && BearerExempt("/app" + "/" + rest)
    ensures BearerExempt("/api/v1/security/auth/login" + "/" + rest)
    ensures !BearerExempt("/apple")
  {
    assert "/app" in BEARER_EXEMPT_PREFIXES && "/api/v1/security/auth/login" in BEARER_EXEMPT_PREFIXES;
    assert "/app" + "/" <= "/app" + "/" + rest;
    assert "/api/v1/security/auth/login" + "/" <= "/api/v1/security/auth/login" + "/" + rest;
    OneSegment("/apple");
  }

  lemma SlashAfterPrefix(prefix: string, path: string)
    requires prefix + "/" <= path
    ensures |prefix| < |path| && path[|prefix|] == '/'
  {
    assert (prefix + "/")[|prefix|] == '/';
  }

  /** A path of one segment lies below no prefix. */
  lemma OneSegment(path: string)
    requires forall i :: 1 <= i < |path| ==> path[i] != '/'
    ensures forall prefix :: prefix in BEARER_EXEMPT_PREFIXES ==> !(prefix + "/" <= path)
  {
    forall prefix | prefix in BEARER_EXEMPT_PREFIXES ensures !(prefix + "/" <= path) {
      assert |prefix| >= 1;
      if prefix + "/" <= path {
        SlashAfterPrefix(prefix, path);
      }
    }
  }
}
