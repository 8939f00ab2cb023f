/**
 * The two request limiters over one shared store of expiring counters: hourly limits by clock-aligned
 * keys, and scoped limits whose window opens at the first request. Times are milliseconds; the store
 * treats a counter as gone once the clock has passed its expiry.
 */
module RateLimit {
  import opened Text

  const WINDOW_MS: nat := 3_600_000
  const WINDOW_SECONDS: nat := 3600
  const KEY_PREFIX := "kigali:ratelimit"

  datatype Counter = Counter(count: nat, expiresAt: nat)

  type Store = map<string, Counter>

  predicate Live(store: Store, key: string, now: nat) {
    key in store && now <= store[key].expiresAt
  }

  /** INCR, and EXPIRE when the new count is one. */
  function Increment(store: Store, key: string, ttlSeconds: nat, now: nat): Store {
    var current := if Live(store, key, now) then store[key].count + 1 else 1;
    store[key := Counter(current, if current == 1 then now + ttlSeconds * 1000 else store[key].expiresAt)]
  }

  function RateLimitKey(apiKeyId: string, windowId: nat): string {
    KEY_PREFIX + ":" + apiKeyId + ":" + Digits(windowId)
  }

  function ScopeKey(scope: string): string {
    KEY_PREFIX + ":scope:" + scope
  }

  // ---- requests and runs ----

  /**
   * A limited request. Hourly requests carry the limit of their tier and the time at which the service built
   * their key, scoped ones their scope's policy; `at` is the store's time when it counts the request.
   */
  datatype Request =
    | Hourly(apiKeyId: string, max: nat, keyAt: nat, at: nat)
    | Scoped(scope: string, max: nat, windowSeconds: nat, at: nat)

  function KeyOf(r: Request): string {
    match r
    case Hourly(id, _, keyAt, _) => RateLimitKey(id, keyAt / WINDOW_MS)
    case Scoped(scope, _, _, _) => ScopeKey(scope)
  }

  function Ttl(r: Request): nat {
    match r
    case Hourly(_, _, _, _) => WINDOW_SECONDS
    case Scoped(_, _, w, _) => w
  }

  function StoreAfter(trace: seq<Request>): Store
    decreases |trace|
  {
    if trace == [] then map[] else
    var r := trace[|trace| - 1];
    Increment(StoreAfter(trace[..|trace| - 1]), KeyOf(r), Ttl(r), r.at)
  }

  /** The count that the last request of the trace was told. */
  function CountTold(trace: seq<Request>): nat
    requires trace != []
  {
    StoreAfter(trace)[KeyOf(trace[|trace| - 1])].count
  }

  predicate LastAdmitted(trace: seq<Request>)
    requires trace != []
  {
    CountTold(trace) <= trace[|trace| - 1].max
  }

  /** A class of requests, told from the trace up to and including the request. */
  type Class = seq<Request> -> bool

  ghost function Total(trace: seq<Request>, c: Class): nat
    decreases |trace|
  {
    if trace == [] then 0 else Total(trace[..|trace| - 1], c) + if c(trace) then 1 else 0
  }

  ghost function Admitted(trace: seq<Request>, c: Class): nat
    decreases |trace|
  {
    if trace == [] then 0 else Admitted(trace[..|trace| - 1], c) + if c(trace) && LastAdmitted(trace) then 1 else 0
  }

  function Min(a: nat, b: nat): nat {
    if a < b then a else b
  }

  // ---- keys ----

  lemma {:induction false} DigitsInjective(m: nat, n: nat)
    requires Digits(m) == Digits(n)
    ensures m == n
  {
    DigitsRoundTrip(m);
    DigitsRoundTrip(n);
  }

  lemma NoColonInDigits(n: nat)
    ensures ':' !in Digits(n)
  {
  }

  /** An hourly key names one API key and one hour. */
  lemma HourlyKeysDiffer(a: string, m: nat, b: string, n: nat)
    requires RateLimitKey(a, m) == RateLimitKey(b, n)
    ensures a == b && m == n
  {
    hide Digits;
    var x, y := a + ":" + Digits(m), b + ":" + Digits(n);
    assert RateLimitKey(a, m) == KEY_PREFIX + ":" + x;
    assert RateLimitKey(b, n) == KEY_PREFIX + ":" + y;
    assert x == (KEY_PREFIX + ":" + x)[|KEY_PREFIX| + 1..];
    assert y == (KEY_PREFIX + ":" + y)[|KEY_PREFIX| + 1..];
    NoColonInDigits(m);
    NoColonInDigits(n);
    LastColon(a, Digits(m), b, Digits(n));
    DigitsInjective(m, n);
  }

  lemma LastColon(a: string, p: string, b: string, q: string)
    requires ':' !in p && ':' !in q && a + ":" + p == b + ":" + q
    ensures a == b && p == q
  {
    var x := a + ":" + p;
    assert x[|a|] == ':' && x[|b|] == ':';
    forall k | |a| < k < |x|
      ensures x[k] != ':'
    {
      assert x[k] == p[k - |a| - 1];
    }
    forall k | |b| < k < |x|
      ensures x[k] != ':'
    {
      assert x[k] == q[k - |b| - 1];
    }
    assert |a| == |b|;
    assert a == x[..|a|] && b == x[..|b|] && p == x[|a| + 1..] && q == x[|b| + 1..];
  }

  /** Identifiers as the key table generates them: no colon, and not the word the scoped keys use. */
  predicate PlainId(id: string) {
    ':' !in id && id != "scope"
  }

  lemma KindsDiffer(id: string, windowId: nat, scope: string)
    requires PlainId(id)
    ensures RateLimitKey(id, windowId) != ScopeKey(scope)
  {
    hide Digits;
    var d := Digits(windowId);
    var x, y := id + ":" + d, "scope:" + scope;
    assert RateLimitKey(id, windowId) == KEY_PREFIX + ":" + x;
    assert ScopeKey(scope) == KEY_PREFIX + ":" + y;
    IndexOfFirst(id, ':', d);
    IndexOfFirst("scope", ':', scope);
    assert x == id + [':'] + d && y == "scope" + [':'] + scope;
    assert id == x[..|id|] && "scope" == y[..5];
    assert x == (KEY_PREFIX + ":" + x)[|KEY_PREFIX| + 1..];
    assert y == (KEY_PREFIX + ":" + y)[|KEY_PREFIX| + 1..];
  }

  lemma ScopeKeysDiffer(a: string, b: string)
    requires ScopeKey(a) == ScopeKey(b)
    ensures a == b
  {
    var n := |KEY_PREFIX + ":scope:"|;
    assert a == ScopeKey(a)[n..] && b == ScopeKey(b)[n..];
  }

  ghost predicate PlainIds(trace: seq<Request>) {
    forall i :: 0 <= i < |trace| && trace[i].Hourly? ==> PlainId(trace[i].apiKeyId)
  }

  // ---- traces ----

  function Last(trace: seq<Request>): Request
    requires trace != []
  {
    trace[|trace| - 1]
  }

  ghost predicate Chronological(trace: seq<Request>) {
    forall i, j :: 0 <= i < j < |trace| ==> trace[i].at <= trace[j].at
  }

  lemma {:induction false} CountersPositive(trace: seq<Request>, key: string)
    ensures key in StoreAfter(trace) ==> StoreAfter(trace)[key].count > 0
    decreases |trace|
  {
    if trace != [] {
      CountersPositive(trace[..|trace| - 1], key);
    }
  }

  lemma {:induction false} AdmittedUnion(trace: seq<Request>, c: Class, d: Class, e: Class)
    requires forall k :: 0 <= k <= |trace| && c(trace[..k]) ==> d(trace[..k]) || e(trace[..k])
    ensures Admitted(trace, c) <= Admitted(trace, d) + Admitted(trace, e)
    decreases |trace|
  {
    hide LastAdmitted;
    if trace != [] {
      var init := trace[..|trace| - 1];
      forall k | 0 <= k <= |init| && c(init[..k])
        ensures d(init[..k]) || e(init[..k])
      {
        assert init[..k] == trace[..k];
      }
      AdmittedUnion(init, c, d, e);
      assert trace[..|trace|] == trace;
    }
  }

  ghost function Both(c: Class, d: Class): Class {
    (t: seq<Request>) => c(t) && d(t)
  }

  lemma {:induction false} SomeAdmitted(trace: seq<Request>, c: Class) returns (k: nat)
    requires Admitted(trace, c) > 0
    ensures 0 < k <= |trace| && c(trace[..k])
    decreases |trace|
  {
    hide LastAdmitted;
    var init := trace[..|trace| - 1];
    if Admitted(init, c) > 0 {
      k := SomeAdmitted(init, c);
      assert init[..k] == trace[..k];
    } else {
      k := |trace|;
      assert trace[..k] == trace;
    }
  }

  lemma {:induction false} OneAdmitted(trace: seq<Request>, c: Class, k: nat)
    requires 0 < k <= |trace| && c(trace[..k]) && LastAdmitted(trace[..k])
    ensures Admitted(trace, c) > 0
    decreases |trace|
  {
    hide LastAdmitted;
    if k == |trace| {
      assert trace[..k] == trace;
    } else {
      assert trace[..|trace| - 1][..k] == trace[..k];
      OneAdmitted(trace[..|trace| - 1], c, k);
    }
  }

  /** The parts of a class in two other classes that no request shares. */
  lemma {:induction false} AdmittedApart(trace: seq<Request>, c: Class, d: Class, e: Class)
    requires forall t :: !(d(t) && e(t))
    ensures Admitted(trace, Both(c, d)) + Admitted(trace, Both(c, e)) <= Admitted(trace, c)
    decreases |trace|
  {
    hide LastAdmitted;
    if trace != [] {
      AdmittedApart(trace[..|trace| - 1], c, d, e);
    }
  }
}
