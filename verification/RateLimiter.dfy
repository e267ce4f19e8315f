/**
The sliding-window rate limiter: one queue of accepted clock readings per identity,
pruned lazily from the front on every call.

Readings and windows are exact reals. The lock makes each call one atomic step, but the
clock is read before the lock is taken, so the readings are an arbitrary argument here:
nothing in this module assumes that they increase.
 */
module RateLimiter {
  import opened Options

  type Identity = string
  type Hits = map<Identity, seq<real>>

  /** What a call answers. `IndexError` is the exception raised when the front of an
      empty queue is read, which a limit of zero or less can provoke. */
  datatype Outcome =
    | Allowed(remaining: int)
    | Rejected(retryAfter: real)
    | IndexError

  datatype Admission = Admission(queue: seq<real>, outcome: Outcome)

  function Queue(hits: Hits, identity: Identity): seq<real> {
    if identity in hits then hits[identity] else []
  }

  /** Drops readings from the front while they are strictly below the cutoff. */
  function Prune(q: seq<real>, cutoff: real): (p: seq<real>)
    ensures |p| <= |q|
  {
    if q != [] && q[0] < cutoff then Prune(q[1..], cutoff) else q
  }

  /** Pruning keeps a tail whose front is not expired; all it drops is. */
  lemma {:induction false} PruneKeepsTail(q: seq<real>, cutoff: real)
    ensures var p := Prune(q, cutoff);
            && p == q[|q| - |p|..]
            && (p != [] ==> p[0] >= cutoff)
            && forall i :: 0 <= i < |q| - |p| ==> q[i] < cutoff
  {
    if q != [] && q[0] < cutoff {
      var p := Prune(q, cutoff);
      PruneKeepsTail(q[1..], cutoff);
      assert p == q[1..][|q| - 1 - |p|..] == q[|q| - |p|..];
      forall i | 0 <= i < |q| - |p| ensures q[i] < cutoff {
        assert i > 0 ==> q[i] == q[1..][i - 1];
      }
    }
  }

  /** One call on the queue of the identity that is asking. */
  function Admit(q: seq<real>, limit: int, window: real, now: real): Admission {
    var p := Prune(q, now - window);
    if |p| >= limit then
      Admission(p, if p == [] then IndexError else Rejected(Max(0.0, window - (now - p[0]))))
    else
      Admission(p + [now], Allowed(limit - |p| - 1))
  }

  function Max(x: real, y: real): real {
    if x >= y then x else y
  }

  /** The number sent in the Retry-After header: `int(retry_after) + 1`. */
  function RetryHeader(retryAfter: real): int {
    (if retryAfter >= 0.0 then retryAfter.Floor else -((-retryAfter).Floor)) + 1
  }

  class SlidingWindowRateLimiter {
    var hits: Hits

    constructor ()
      ensures hits == map[]
    {
      hits := map[];
    }

    method Allow(identity: Identity, limit: int, window: real, now: real) returns (outcome: Outcome)
      modifies this
      ensures var a := Admit(Queue(old(hits), identity), limit, window, now);
              hits == old(hits)[identity := a.queue] && outcome == a.outcome
    {
      if identity !in hits {
        hits := hits[identity := []];
      }
      var cutoff := now - window;
      while hits[identity] != [] && hits[identity][0] < cutoff
        invariant identity in hits
        invariant hits == old(hits)[identity := hits[identity]]
        invariant Prune(hits[identity], cutoff) == Prune(Queue(old(hits), identity), cutoff)
        decreases |hits[identity]|
      {
        hits := hits[identity := hits[identity][1..]];
      }
      var dq := hits[identity];
      if |dq| >= limit {
        if dq == [] {
          return IndexError;
        }
        return Rejected(Max(0.0, window - (now - dq[0])));
      }
      hits := hits[identity := dq + [now]];
      return Allowed(limit - |hits[identity]|);
    }

    method Reset(identity: Option<Identity>)
      modifies this
      ensures identity.None? ==> hits == map[]
      ensures identity.Some? ==> hits == old(hits) - {identity.value}
    {
      match identity
      case None => hits := map[];
      case Some(id) => hits := hits - {id};
    }
  }
}
