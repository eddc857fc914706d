/** Selection policies for proxies borrowed from a peer, and their combination. Times are
    seconds. */
module PeerPolicy {
  import opened SortedSets

  datatype Policy = Policy(domain: string, minScore: int, maxLatency: real, maxAge: int, minSuccesses: int)

  /** What the policy's own constructor demands. */
  predicate WellFormed(p: Policy) {
    && p.domain != "" && 0 <= p.minScore <= 100
    && p.maxLatency >= 0.0 && p.maxAge > 0 && p.minSuccesses > 0
  }

  /** What is known of a proxy; a check time without a zone counts as unknown. */
  datatype Evidence = Evidence(
    domain: string,
    score: int,
    latency: Option<real>,
    checkedAt: Option<real>,
    successes: int,
    expiresAt: Option<real>)

  /** The bounds that no configuration can loosen. */
  function HardBounds(domain: string): Policy {
    Policy(domain, 90, 2000.0, 600, 2)
  }

  /** The strictest of the three policies and the hard bounds; none for different domains. */
  function Effective(request: Policy, service: Policy, cache: Policy): Option<Policy> {
    if request.domain != service.domain || request.domain != cache.domain then None
    else Some(Policy(
                request.domain,
                Max(Max(request.minScore, service.minScore), Max(cache.minScore, 90)),
                MinReal(MinReal(request.maxLatency, service.maxLatency), MinReal(cache.maxLatency, 2000.0)),
                Min(Min(request.maxAge, service.maxAge), Min(cache.maxAge, 600)),
                Max(Max(request.minSuccesses, service.minSuccesses), Max(cache.minSuccesses, 2))))
  }

  predicate Accepts(r: Evidence, p: Policy, now: real) {
    && r.domain == p.domain && r.score >= p.minScore
    && r.latency.Some? && 0.0 <= r.latency.value <= p.maxLatency
    && r.checkedAt.Some? && -5.0 <= now - r.checkedAt.value < p.maxAge as real
    && r.successes >= p.minSuccesses
    && (r.expiresAt.Some? ==> now < r.expiresAt.value)
  }

  /** What is accepted stays accepted exactly until it expires or its check reaches the greatest
      age. */
  lemma AcceptedUntil(r: Evidence, p: Policy, now: real, later: real)
    requires Accepts(r, p, now) && now <= later
    ensures Accepts(r, p, later) <==>
              later < r.checkedAt.value + p.maxAge as real && (r.expiresAt.Some? ==> later < r.expiresAt.value)
  {
  }

  /** The combined policy is the meet of its parts: it accepts a proxy exactly when each of
      the three and the hard bounds do, and it is well formed if they are. */
  lemma EffectiveIsTheMeet(request: Policy, service: Policy, cache: Policy, r: Evidence, now: real)
    requires Effective(request, service, cache).Some?
    ensures var meet := Effective(request, service, cache).value;
            && (Accepts(r, meet, now) <==>
                  && Accepts(r, request, now) && Accepts(r, service, now) && Accepts(r, cache, now)
                  && Accepts(r, HardBounds(request.domain), now))
            && (WellFormed(request) && WellFormed(service) && WellFormed(cache) ==> WellFormed(meet))
  {
    var meet := Effective(request, service, cache).value;
    assert r.checkedAt.Some? ==>
        (now - r.checkedAt.value < meet.maxAge as real <==>
           && now - r.checkedAt.value < request.maxAge as real && now - r.checkedAt.value < service.maxAge as real
           && now - r.checkedAt.value < cache.maxAge as real && now - r.checkedAt.value < 600.0);
  }

  /** Combining a combined policy with itself changes nothing, so the store may do it twice. */
  lemma EffectiveIsIdempotent(request: Policy, cache: Policy)
    requires Effective(request, cache, cache).Some?
    ensures var meet := Effective(request, cache, cache).value;
            Effective(meet, cache, cache) == Some(meet) && Effective(meet, meet, meet) == Some(meet)
  {
  }
}
