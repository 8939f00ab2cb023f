/** The service that increments the counters. */
module RateLimitService {
  import opened Wrappers
  import opened RateLimit
  import opened HourlyLimit
  import opened ScopedLimit

  datatype Tier = FREE | PRO | ENTERPRISE

  datatype CheckResult = CheckResult(limit: nat, remaining: nat, reset: nat, exceeded: bool, tier: Tier)

  /** The limit of a tier; ENTERPRISE has none. */
  function MaxRequests(t: Tier): Option<nat> {
    match t
    case FREE => Some(100)
    case PRO => Some(10_000)
    case ENTERPRISE => None
  }

  /** Unknown or missing tiers count as FREE; `name` is the tier in upper case. */
  function ResolveTier(name: Option<string>): Tier {
    if name == Some("PRO") then PRO else if name == Some("ENTERPRISE") then ENTERPRISE else FREE
  }

  lemma TierLimits(name: Option<string>)
    ensures MaxRequests(ResolveTier(name)) ==
            if name == Some("ENTERPRISE") then None else if name == Some("PRO") then Some(10_000) else Some(100)
  {
  }

  /** An hour admits exactly 10,000 requests of a PRO key, and 100 of any other but an ENTERPRISE one, without limit. */
  lemma TierDecidesHour(trace: seq<Request>, id: string, name: Option<string>, max: nat, hour: nat)
    requires PlainIds(trace) && PlainId(id) && Chronological(trace) && FixedTier(trace, id, max)
    requires forall i :: 0 <= i < |trace| && OfHour(trace[i], id, hour) ==>
               hour * WINDOW_MS <= trace[i].at <= (hour + 1) * WINDOW_MS
    ensures MaxRequests(ResolveTier(name)).None? <==> name == Some("ENTERPRISE")
    ensures MaxRequests(ResolveTier(name)) == Some(max) ==>
              var n := Total(trace, InHour(id, hour));
              Admitted(trace, InHour(id, hour)) ==
              if name == Some("PRO") then Min(n, 10_000) else Min(n, 100)
  {
    TierLimits(name);
    hide *;
    PromptHourAdmitsExactly(trace, id, max, hour);
  }

  class Limiter {
    var redis: Store

    constructor ()
      ensures redis == map[]
    {
      redis := map[];
    }

    /** The increment script, which runs atomically. */
    method RunScript(key: string, ttlSeconds: nat, now: nat) returns (current: nat)
      modifies this
      ensures redis == Increment(old(redis), key, ttlSeconds, now) && current == redis[key].count
    {
      if key in redis && now <= redis[key].expiresAt {
        redis := redis[key := redis[key].(count := redis[key].count + 1)];
      } else {
        redis := redis[key := Counter(1, 0)];
      }
      current := redis[key].count;
      if current == 1 {
        redis := redis[key := redis[key].(expiresAt := now + ttlSeconds * 1000)];
      }
    }

    /**
     * The hourly check: unlimited tiers touch no counter; the others are told what their hour's count leaves.
     * When the store does not answer, the request is let through uncounted. The service reads its clock for the
     * reset and again for the key, and the store reads its own.
     */
    method CheckRateLimit(apiKeyId: string, tierName: Option<string>, asked: nat, keyAt: nat, now: nat, answers: bool)
      returns (r: CheckResult)
      modifies this
      ensures r.tier == ResolveTier(tierName) && r.reset == HourlyReset(asked)
      ensures asked <= keyAt ==> (r.reset * 1000 <= keyAt <==> asked / WINDOW_MS < keyAt / WINDOW_MS)
      ensures MaxRequests(r.tier).None? ==> redis == old(redis) && r.limit == 0 && r.remaining == 0 && !r.exceeded
      ensures MaxRequests(r.tier).Some? && !answers ==>
                redis == old(redis) && !r.exceeded && r.limit == r.remaining == MaxRequests(r.tier).value
      ensures MaxRequests(r.tier).Some? && answers ==>
                var max, key := MaxRequests(r.tier).value, KeyOf(Hourly(apiKeyId, 0, keyAt, now));
                && redis == Increment(old(redis), key, WINDOW_SECONDS, now)
                && r.limit == max && (r.exceeded <==> redis[key].count > max)
                && r.remaining + redis[key].count == (if r.exceeded then redis[key].count else max)
    {
      var tier := ResolveTier(tierName);
      var reset := HourlyReset(asked);
      HourlyResetOpensFreshKey(asked, keyAt);
      var maxRequests := MaxRequests(tier);
      if maxRequests.None? {
        return CheckResult(0, 0, reset, false, tier);
      }
      if !answers {
        return CheckResult(maxRequests.value, maxRequests.value, reset, false, tier);
      }
      var currentCount := RunScript(RateLimitKey(apiKeyId, keyAt / WINDOW_MS), WINDOW_SECONDS, now);
      var max := maxRequests.value;
      r := CheckResult(max, if max > currentCount then max - currentCount else 0, reset, currentCount > max, tier);
    }

    /** The same for a scope; the service reads its clock for the reset before the store reads its own. */
    method CheckScopedRateLimit(scope: string, max: nat, windowSeconds: nat, asked: nat, now: nat, answers: bool)
      returns (r: CheckResult)
      modifies this
      ensures !answers ==> redis == old(redis) && !r.exceeded && r.limit == r.remaining == max
      ensures answers ==>
              var key := ScopeKey(scope);
              && redis == Increment(old(redis), key, windowSeconds, now)
              && r.limit == max && (r.exceeded <==> redis[key].count > max)
              && r.remaining + redis[key].count == (if r.exceeded then redis[key].count else max)
      ensures answers && redis[ScopeKey(scope)].count == 1 ==>
                (r.reset < redis[ScopeKey(scope)].expiresAt / 1000 <==> asked / 1000 < now / 1000)
      ensures r.reset == ScopedReset(asked, windowSeconds) && r.tier == FREE
    {
      var reset := asked / 1000 + windowSeconds;
      if !answers {
        return CheckResult(max, max, reset, false, FREE);
      }
      var currentCount := RunScript(ScopeKey(scope), windowSeconds, now);
      r := CheckResult(max, if max > currentCount then max - currentCount else 0, reset, currentCount > max, FREE);
    }
  }
}
