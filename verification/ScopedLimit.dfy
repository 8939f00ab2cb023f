/** The limiter of scopes: what a trace of requests is admitted when a window opens at its first request. */
module ScopedLimit {
  import opened RateLimit

  /** Every request of the scope uses the same policy. */
  ghost predicate FixedPolicy(trace: seq<Request>, scope: string, max: nat, window: nat) {
    forall i :: 0 <= i < |trace| && trace[i].Scoped? && trace[i].scope == scope ==>
      trace[i].max == max && trace[i].windowSeconds == window
  }

  /** The expiry of the counter that the last request of the trace was counted on. */
  function LifeEnd(trace: seq<Request>): nat
    requires trace != []
  {
    StoreAfter(trace)[KeyOf(Last(trace))].expiresAt
  }

  /** Requests of a scope whose counter expires between low and high. */
  ghost function LifeEndsIn(scope: string, low: nat, high: nat): Class {
    (t: seq<Request>) => t != [] && Last(t).Scoped? && Last(t).scope == scope && low <= LifeEnd(t) < high
  }

  lemma StepOnScope(trace: seq<Request>, scope: string)
    requires trace != [] && PlainIds(trace)
    ensures var init, r, key := trace[..|trace| - 1], Last(trace), ScopeKey(scope);
            if r.Scoped? && r.scope == scope then
              StoreAfter(trace) == Increment(StoreAfter(init), key, r.windowSeconds, r.at)
            else (key in StoreAfter(trace) <==> key in StoreAfter(init))
                 && (key in StoreAfter(init) ==> StoreAfter(trace)[key] == StoreAfter(init)[key])
  {
    var r := Last(trace);
    hide RateLimitKey, ScopeKey;
    if r.Hourly? {
      KindsDiffer(r.apiKeyId, r.keyAt / WINDOW_MS, scope);
    } else if KeyOf(r) == ScopeKey(scope) {
      ScopeKeysDiffer(r.scope, scope);
    }
  }

  /**
   * Within any stretch of expiries no longer than the window there is at most one counter, so its first
   * `max` requests are admitted and no others; and the counter of the scope is the latest of its counters.
   */
  lemma {:induction false} LivesAdmitExactly(trace: seq<Request>, scope: string, max: nat, window: nat, low: nat)
    requires PlainIds(trace) && Chronological(trace) && FixedPolicy(trace, scope, max, window)
    ensures var c := LifeEndsIn(scope, low, low + window * 1000 + 1); var key := ScopeKey(scope);
            && Admitted(trace, c) == Min(Total(trace, c), max)
            && if key !in StoreAfter(trace) then Total(trace, c) == 0
               else
                 var e := StoreAfter(trace)[key].expiresAt;
                 && (e < low ==> Total(trace, c) == 0)
                 && (low <= e <= low + window * 1000 ==> Total(trace, c) == StoreAfter(trace)[key].count)
    decreases |trace|
  {
    if trace != [] {
      var init, r := trace[..|trace| - 1], Last(trace);
      LivesAdmitExactly(init, scope, max, window, low);
      CountersPositive(init, ScopeKey(scope));
      StepOnScope(trace, scope);
      hide StoreAfter, ScopeKey;
    }
  }

  /** The requests of a scope that were counted on the counter that expires then. */
  ghost function OnCounter(scope: string, end: nat): Class {
    LifeEndsIn(scope, end, end + 1)
  }

  lemma {:induction false} CounterCountsItsOwn(trace: seq<Request>, scope: string, max: nat, window: nat, end: nat)
    requires PlainIds(trace) && Chronological(trace) && FixedPolicy(trace, scope, max, window)
    ensures var n := Total(trace, OnCounter(scope, end)); var key := ScopeKey(scope);
            if key !in StoreAfter(trace) then n == 0
            else
              && (StoreAfter(trace)[key].expiresAt < end ==> n == 0)
              && (StoreAfter(trace)[key].expiresAt == end ==> n == StoreAfter(trace)[key].count)
    decreases |trace|
  {
    if trace != [] {
      CounterCountsItsOwn(trace[..|trace| - 1], scope, max, window, end);
      CountersPositive(trace[..|trace| - 1], ScopeKey(scope));
      StepOnScope(trace, scope);
      hide StoreAfter, ScopeKey;
    }
  }

  /** A scoped request is admitted exactly when it is among the first `max` that were counted on its counter. */
  lemma FirstOfLife(trace: seq<Request>, scope: string, max: nat, window: nat)
    requires PlainIds(trace) && Chronological(trace) && FixedPolicy(trace, scope, max, window)
    requires trace != [] && Last(trace).Scoped? && Last(trace).scope == scope
    ensures LastAdmitted(trace) <==> Total(trace, OnCounter(scope, LifeEnd(trace))) <= max
  {
    CounterCountsItsOwn(trace, scope, max, window, LifeEnd(trace));
    StepOnScope(trace, scope);
    hide StoreAfter, ScopeKey, Total, OnCounter;
  }

  /** A scope's later counter expires more than a window after an earlier one: lifetimes never overlap. */
  lemma {:induction false} LivesApart(trace: seq<Request>, scope: string, max: nat, window: nat, j: nat)
    requires PlainIds(trace) && Chronological(trace) && FixedPolicy(trace, scope, max, window)
    requires j <= |trace| && ScopeKey(scope) in StoreAfter(trace[..j])
    ensures ScopeKey(scope) in StoreAfter(trace)
    ensures var early, late := StoreAfter(trace[..j])[ScopeKey(scope)], StoreAfter(trace)[ScopeKey(scope)];
            late.expiresAt == early.expiresAt || late.expiresAt > early.expiresAt + window * 1000
    decreases |trace|
  {
    if j == |trace| {
      assert trace[..j] == trace;
    } else {
      var init := trace[..|trace| - 1];
      assert init[..j] == trace[..j];
      LivesApart(init, scope, max, window, j);
      CountersPositive(init, ScopeKey(scope));
      StepOnScope(trace, scope);
      hide StoreAfter, ScopeKey;
    }
  }

  /** A counter's life covers the requests counted on it and lasts no longer than the window. */
  lemma {:induction false} CounterNotBeyondWindow(trace: seq<Request>, scope: string, max: nat, window: nat)
    requires PlainIds(trace) && Chronological(trace) && FixedPolicy(trace, scope, max, window)
    ensures ScopeKey(scope) in StoreAfter(trace) ==>
              trace != [] && StoreAfter(trace)[ScopeKey(scope)].expiresAt <= Last(trace).at + window * 1000
    decreases |trace|
  {
    if trace != [] {
      var init := trace[..|trace| - 1];
      CounterNotBeyondWindow(init, scope, max, window);
      StepOnScope(trace, scope);
      hide StoreAfter, ScopeKey;
    }
  }

  lemma LifeBounds(trace: seq<Request>, scope: string, max: nat, window: nat)
    requires PlainIds(trace) && Chronological(trace) && FixedPolicy(trace, scope, max, window)
    requires trace != [] && Last(trace).Scoped? && Last(trace).scope == scope
    ensures Last(trace).at <= LifeEnd(trace) <= Last(trace).at + window * 1000
  {
    CounterNotBeyondWindow(trace, scope, max, window);
    StepOnScope(trace, scope);
    hide StoreAfter, ScopeKey;
  }

  ghost function InScopeSpan(scope: string, start: nat, window: nat): Class {
    (t: seq<Request>) => t != [] && Last(t).Scoped? && Last(t).scope == scope
        && start <= Last(t).at <= start + window * 1000
  }

  /** A counter in use during the span expires within the span or within one window after it. */
  lemma SpanCovered(trace: seq<Request>, scope: string, max: nat, window: nat, start: nat, k: nat)
    requires PlainIds(trace) && Chronological(trace) && FixedPolicy(trace, scope, max, window)
    requires k <= |trace| && InScopeSpan(scope, start, window)(trace[..k])
    ensures var length := window * 1000;
            || LifeEndsIn(scope, start, start + length + 1)(trace[..k])
            || LifeEndsIn(scope, start + length + 1, start + length + 1 + length + 1)(trace[..k])
  {
    hide StoreAfter, ScopeKey, LifeEnd;
    LifeBounds(trace[..k], scope, max, window);
  }

  lemma LivesAdmitAtMost(trace: seq<Request>, scope: string, max: nat, window: nat, low: nat)
    requires PlainIds(trace) && Chronological(trace) && FixedPolicy(trace, scope, max, window)
    ensures Admitted(trace, LifeEndsIn(scope, low, low + window * 1000 + 1)) <= max
  {
    LivesAdmitExactly(trace, scope, max, window, low);
    hide Admitted, Total, StoreAfter, ScopeKey, LifeEndsIn;
  }

  /** The scope's counter was opened by one of its requests, a window before it expires. */
  lemma {:induction false} CounterOpened(trace: seq<Request>, scope: string, max: nat, window: nat) returns (i: nat)
    requires PlainIds(trace) && FixedPolicy(trace, scope, max, window) && ScopeKey(scope) in StoreAfter(trace)
    ensures i < |trace| && trace[i].Scoped? && trace[i].scope == scope
    ensures !Live(StoreAfter(trace[..i]), ScopeKey(scope), trace[i].at)
    ensures trace[i].at + window * 1000 == StoreAfter(trace)[ScopeKey(scope)].expiresAt
    decreases |trace|
  {
    assert trace != [];
    var init, r := trace[..|trace| - 1], Last(trace);
    StepOnScope(trace, scope);
    CountersPositive(init, ScopeKey(scope));
    PoliciesBefore(trace, scope, max, window);
    OpenOrKeep(StoreAfter(init), ScopeKey(scope), window, r.at);
    hide StoreAfter, ScopeKey, Live, Increment, PlainIds, FixedPolicy;
    if r.Scoped? && r.scope == scope && !Live(StoreAfter(init), ScopeKey(scope), r.at) {
      i := |trace| - 1;
    } else {
      i := CounterOpened(init, scope, max, window);
      assert init[..i] == trace[..i];
    }
  }

  lemma OpenOrKeep(store: Store, key: string, window: nat, at: nat)
    requires key in store ==> store[key].count > 0
    ensures key in Increment(store, key, window, at)
    ensures Increment(store, key, window, at)[key].expiresAt ==
            if Live(store, key, at) then store[key].expiresAt else at + window * 1000
    ensures Live(store, key, at) ==> key in store
  {
  }

  lemma PoliciesBefore(trace: seq<Request>, scope: string, max: nat, window: nat)
    requires trace != [] && PlainIds(trace) && FixedPolicy(trace, scope, max, window)
    ensures PlainIds(trace[..|trace| - 1]) && FixedPolicy(trace[..|trace| - 1], scope, max, window)
    ensures Last(trace).Scoped? && Last(trace).scope == scope ==> Last(trace).windowSeconds == window
  {
  }

  /** A request that finds no live counter of its scope opens one, and is the first it counts. */
  lemma OpenerIsFirst(trace: seq<Request>, scope: string)
    requires PlainIds(trace) && trace != [] && Last(trace).Scoped? && Last(trace).scope == scope
    requires !Live(StoreAfter(trace[..|trace| - 1]), ScopeKey(scope), Last(trace).at)
    ensures CountTold(trace) == 1 && LifeEnd(trace) == Last(trace).at + Last(trace).windowSeconds * 1000
  {
    StepOnScope(trace, scope);
    hide StoreAfter, ScopeKey;
  }

  /** Requests of a scope that are counted before the time. */
  ghost function Before(scope: string, time: nat): Class {
    (t: seq<Request>) => t != [] && Last(t).Scoped? && Last(t).scope == scope && Last(t).at < time
  }

  /**
   * When a span has requests of two counters, the request that opened the earlier counter came before the span:
   * the later counter expires more than a window after the earlier one.
   */
  lemma OpenedBeforeSpan(trace: seq<Request>, scope: string, max: nat, window: nat, start: nat, k: nat, m: nat)
    returns (i: nat)
    requires PlainIds(trace) && Chronological(trace) && FixedPolicy(trace, scope, max, window)
    requires 0 < k <= |trace| && Both(EarlyLives(scope, start, window), InScopeSpan(scope, start, window))(trace[..k])
    requires 0 < m <= |trace| && Both(LateLives(scope, start, window), InScopeSpan(scope, start, window))(trace[..m])
    ensures 0 < i <= |trace| && Both(EarlyLives(scope, start, window), Before(scope, start))(trace[..i])
    ensures CountTold(trace[..i]) == 1 && Last(trace[..i]).max == max
  {
    EarlierLifeEndsFirst(trace, scope, max, window, start, k, m);
    hide StoreAfter, ScopeKey, LifeEnd, CountTold, LateLives, Chronological;
    i := OpenerOf(trace, scope, max, window, k);
    hide PlainIds, FixedPolicy;
    EarlyBefore(trace[..k], trace[..i], scope, start, window);
    hide *;
  }

  /** The counter that a request was counted on was opened by a request up to it, the first one told its count. */
  lemma OpenerOf(trace: seq<Request>, scope: string, max: nat, window: nat, k: nat) returns (i: nat)
    requires PlainIds(trace) && FixedPolicy(trace, scope, max, window)
    requires 0 < k <= |trace| && Last(trace[..k]).Scoped? && Last(trace[..k]).scope == scope
    ensures 0 < i <= k && Last(trace[..i]).Scoped? && Last(trace[..i]).scope == scope && Last(trace[..i]).max == max
    ensures CountTold(trace[..i]) == 1
    ensures LifeEnd(trace[..i]) == LifeEnd(trace[..k]) == Last(trace[..i]).at + window * 1000
  {
    var t := trace[..k];
    KeyPresent(t, scope);
    hide StoreAfter, ScopeKey, LifeEnd, CountTold;
    i := CounterOpened(t, scope, max, window);
    i := i + 1;
    assert t[..i] == trace[..i] && trace[..i][..i - 1] == t[..i - 1];
    hide Live;
    OpenerIsFirst(trace[..i], scope);
  }

  lemma EarlyBefore(t: seq<Request>, u: seq<Request>, scope: string, start: nat, window: nat)
    requires EarlyLives(scope, start, window)(t) && u != [] && Last(u).Scoped? && Last(u).scope == scope
    requires LifeEnd(t) == LifeEnd(u) && Last(u).at < start
    ensures Both(EarlyLives(scope, start, window), Before(scope, start))(u)
  {
    hide LifeEnd;
  }

  lemma KeyPresent(trace: seq<Request>, scope: string)
    requires trace != [] && Last(trace).Scoped? && Last(trace).scope == scope
    ensures ScopeKey(scope) in StoreAfter(trace) && LifeEnd(trace) == StoreAfter(trace)[ScopeKey(scope)].expiresAt
  {
  }

  lemma EarlierLifeEndsFirst(trace: seq<Request>, scope: string, max: nat, window: nat, start: nat, k: nat, m: nat)
    requires PlainIds(trace) && Chronological(trace) && FixedPolicy(trace, scope, max, window)
    requires 0 < k <= |trace| && EarlyLives(scope, start, window)(trace[..k])
    requires 0 < m <= |trace| && Both(LateLives(scope, start, window), InScopeSpan(scope, start, window))(trace[..m])
    ensures LifeEnd(trace[..k]) < start + window * 1000
  {
    var early, late := trace[..k], trace[..m];
    KeyPresent(early, scope);
    KeyPresent(late, scope);
    LifeBounds(late, scope, max, window);
    hide StoreAfter, ScopeKey, LifeEnd;
    if m <= k {
      assert early[..m] == late;
      LivesApart(early, scope, max, window, m);
    } else {
      assert late[..k] == early;
      LivesApart(late, scope, max, window, k);
    }
  }

  ghost function EarlyLives(scope: string, start: nat, window: nat): Class {
    LifeEndsIn(scope, start, start + window * 1000 + 1)
  }

  ghost function LateLives(scope: string, start: nat, window: nat): Class {
    LifeEndsIn(scope, start + window * 1000 + 1, start + window * 1000 + 1 + window * 1000 + 1)
  }

  /**
   * In any span as long as the window, both ends included, fewer than twice the limit are admitted: if the span meets
   * two counters, then the first request on the earlier one came before it.
   */
  lemma ScopeSpanBelowTwice(trace: seq<Request>, scope: string, max: nat, window: nat, start: nat)
    requires PlainIds(trace) && Chronological(trace) && FixedPolicy(trace, scope, max, window)
    ensures Admitted(trace, InScopeSpan(scope, start, window)) <= if max == 0 then 0 else 2 * max - 1
  {
    var early, late := EarlyLives(scope, start, window), LateLives(scope, start, window);
    var span, before := InScopeSpan(scope, start, window), Before(scope, start);
    LivesAdmitAtMost(trace, scope, max, window, start);
    LivesAdmitAtMost(trace, scope, max, window, start + window * 1000 + 1);
    AdmittedApart(trace, early, span, before);
    AdmittedApart(trace, late, span, before);
    forall k | 0 <= k <= |trace| && span(trace[..k])
      ensures Both(early, span)(trace[..k]) || Both(late, span)(trace[..k])
    {
      SpanCovered(trace, scope, max, window, start, k);
    }
    AdmittedUnion(trace, span, Both(early, span), Both(late, span));
    hide Admitted, StoreAfter, LifeEndsIn, EarlyLives, LateLives, InScopeSpan, Before, PlainIds, Chronological,
         FixedPolicy;
    if max > 0 && Admitted(trace, Both(early, span)) > 0 && Admitted(trace, Both(late, span)) > 0 {
      var k := SomeAdmitted(trace, Both(early, span));
      var m := SomeAdmitted(trace, Both(late, span));
      var i := OpenedBeforeSpan(trace, scope, max, window, start, k, m);
      OneAdmitted(trace, Both(early, before), i);
    }
  }

  // ---- the bound for scopes is reached ----

  /** n requests of a scope counted at one instant. */
  function ScopeBurst(scope: string, max: nat, window: nat, at: nat, n: nat): (t: seq<Request>)
    ensures |t| == n && forall i :: 0 <= i < n ==> t[i] == Scoped(scope, max, window, at)
  {
    if n == 0 then [] else ScopeBurst(scope, max, window, at, n - 1) + [Scoped(scope, max, window, at)]
  }

  /** The counter after a burst: that of before if it is live, or a new one. */
  function AfterBurst(store: Store, scope: string, window: nat, at: nat, n: nat): Counter {
    if Live(store, ScopeKey(scope), at) then
      Counter(store[ScopeKey(scope)].count + n, store[ScopeKey(scope)].expiresAt)
    else Counter(n, at + window * 1000)
  }

  lemma {:induction false} BurstState(before: seq<Request>, scope: string, max: nat, window: nat, at: nat, n: nat)
    requires PlainIds(before)
    ensures var t := StoreAfter(before + ScopeBurst(scope, max, window, at, n));
            if n == 0 then t == StoreAfter(before)
            else ScopeKey(scope) in t && t[ScopeKey(scope)] == AfterBurst(StoreAfter(before), scope, window, at, n)
  {
    if n == 0 {
      assert before + [] == before;
    } else {
      hide *;
      BurstState(before, scope, max, window, at, n - 1);
      CountersPositive(before, ScopeKey(scope));
      BurstGrows(before, scope, max, window, at, n);
      NextInBurst(StoreAfter(before), StoreAfter(before + ScopeBurst(scope, max, window, at, n - 1)), scope, window, at,
                  n - 1);
    }
  }

  lemma BurstGrows(before: seq<Request>, scope: string, max: nat, window: nat, at: nat, n: nat)
    requires PlainIds(before) && n > 0
    ensures StoreAfter(before + ScopeBurst(scope, max, window, at, n))
            == Increment(StoreAfter(before + ScopeBurst(scope, max, window, at, n - 1)), ScopeKey(scope), window, at)
  {
    var trace := before + ScopeBurst(scope, max, window, at, n);
    assert trace[..|trace| - 1] == before + ScopeBurst(scope, max, window, at, n - 1);
    assert Last(trace) == Scoped(scope, max, window, at);
    hide ScopeBurst, StoreAfter, ScopeKey, Increment;
    StepOnScope(trace, scope);
  }

  lemma NextInBurst(store: Store, mid: Store, scope: string, window: nat, at: nat, n: nat)
    requires ScopeKey(scope) in store ==> store[ScopeKey(scope)].count > 0
    requires if n == 0 then mid == store
             else ScopeKey(scope) in mid && mid[ScopeKey(scope)] == AfterBurst(store, scope, window, at, n)
    ensures ScopeKey(scope) in Increment(mid, ScopeKey(scope), window, at)
    ensures Increment(mid, ScopeKey(scope), window, at)[ScopeKey(scope)] == AfterBurst(store, scope, window, at, n + 1)
  {
    hide ScopeKey;
  }

  /** As long as the limit is not passed, a burst inside the span is admitted in full. */
  lemma {:induction false} BurstAdmitted(before: seq<Request>, scope: string, max: nat, window: nat, at: nat, n: nat)
    requires PlainIds(before) && 1 <= at <= 1 + window * 1000
    requires AfterBurst(StoreAfter(before), scope, window, at, n).count <= max
    ensures Admitted(before + ScopeBurst(scope, max, window, at, n), InScopeSpan(scope, 1, window))
            == Admitted(before, InScopeSpan(scope, 1, window)) + n
  {
    if n == 0 {
      assert before + [] == before;
    } else {
      var trace := before + ScopeBurst(scope, max, window, at, n);
      BurstAdmitted(before, scope, max, window, at, n - 1);
      assert trace[..|trace| - 1] == before + ScopeBurst(scope, max, window, at, n - 1);
      BurstState(before, scope, max, window, at, n);
      hide ScopeKey, StoreAfter, ScopeBurst, PlainIds;
      assert Last(trace) == Scoped(scope, max, window, at);
      assert CountTold(trace) <= max;
      NextAdmitted(trace, scope, window);
      hide *;
    }
  }

  lemma NextAdmitted(trace: seq<Request>, scope: string, window: nat)
    requires trace != [] && CountTold(trace) <= Last(trace).max
    requires Last(trace).Scoped? && Last(trace).scope == scope && 1 <= Last(trace).at <= 1 + window * 1000
    ensures Admitted(trace, InScopeSpan(scope, 1, window))
            == Admitted(trace[..|trace| - 1], InScopeSpan(scope, 1, window)) + 1
  {
    hide CountTold;
  }

  /** One request before the span, the rest of its counter's limit at its start, and a new counter's at its end. */
  lemma ScopeBoundIsReached(scope: string, max: nat, window: nat)
    requires max > 0 && window > 0
    ensures var trace := [Scoped(scope, max, window, 0)] + ScopeBurst(scope, max, window, 1, max - 1)
                         + ScopeBurst(scope, max, window, 1 + window * 1000, max);
            Admitted(trace, InScopeSpan(scope, 1, window)) == 2 * max - 1
  {
    hide *;
    BeforeLastBurst(scope, max, window);
    BurstAdmitted([Scoped(scope, max, window, 0)] + ScopeBurst(scope, max, window, 1, max - 1), scope, max, window,
                  1 + window * 1000, max);
  }

  lemma BeforeLastBurst(scope: string, max: nat, window: nat)
    requires max > 0 && window > 0
    ensures var second := [Scoped(scope, max, window, 0)] + ScopeBurst(scope, max, window, 1, max - 1);
            && PlainIds(second) && Admitted(second, InScopeSpan(scope, 1, window)) == max - 1
            && AfterBurst(StoreAfter(second), scope, window, 1 + window * 1000, max).count == max
  {
    var first := [Scoped(scope, max, window, 0)];
    hide *;
    FirstOfScope(scope, max, window, 0);
    FirstBeforeSpan(scope, max, window);
    BurstsArePlain(scope, max, window, max - 1);
    BurstOnLive(StoreAfter(first), scope, window, max - 1);
    BurstState(first, scope, max, window, 1, max - 1);
    BurstAdmitted(first, scope, max, window, 1, max - 1);
    BurstOnExpired(StoreAfter(first + ScopeBurst(scope, max, window, 1, max - 1)), scope, window, max);
  }

  lemma BurstsArePlain(scope: string, max: nat, window: nat, n: nat)
    ensures PlainIds([Scoped(scope, max, window, 0)])
    ensures PlainIds([Scoped(scope, max, window, 0)] + ScopeBurst(scope, max, window, 1, n))
  {
    hide ScopeBurst;
  }

  lemma BurstOnLive(store: Store, scope: string, window: nat, n: nat)
    requires window > 0 && store == map[ScopeKey(scope) := Counter(1, window * 1000)]
    ensures AfterBurst(store, scope, window, 1, n) == Counter(n + 1, window * 1000)
  {
    hide ScopeKey;
  }

  lemma BurstOnExpired(store: Store, scope: string, window: nat, n: nat)
    requires ScopeKey(scope) in store && store[ScopeKey(scope)].expiresAt == window * 1000
    ensures AfterBurst(store, scope, window, 1 + window * 1000, n) == Counter(n, 1 + window * 1000 + window * 1000)
  {
    hide ScopeKey;
  }

  lemma FirstBeforeSpan(scope: string, max: nat, window: nat)
    ensures Admitted([Scoped(scope, max, window, 0)], InScopeSpan(scope, 1, window)) == 0
  {
    hide LastAdmitted;
    var first := [Scoped(scope, max, window, 0)];
    assert first[..0] == [];
  }

  // ---- the reported reset, in whole seconds ----

  function ScopedReset(now: nat, windowSeconds: nat): nat {
    now / 1000 + windowSeconds
  }

  /** A request of the scope that found no live counter, and so opened the one that the last request was counted on. */
  predicate OpenedBy(trace: seq<Request>, scope: string, window: nat, i: nat)
    requires trace != []
  {
    && i < |trace| && trace[i].Scoped? && trace[i].scope == scope
    && !Live(StoreAfter(trace[..i]), ScopeKey(scope), trace[i].at)
    && trace[i].at + window * 1000 == LifeEnd(trace)
  }

  /**
   * The service computes the scoped reset before it asks the store. To the second, the reset is before the
   * counter's expiry exactly when the counter was opened in a later second than that; it is at most a window late.
   */
  lemma ScopedResetEarlyIff(trace: seq<Request>, scope: string, max: nat, window: nat, asked: nat)
    requires PlainIds(trace) && Chronological(trace) && FixedPolicy(trace, scope, max, window)
    requires trace != [] && Last(trace).Scoped? && Last(trace).scope == scope && asked <= Last(trace).at
    ensures exists i: nat ::
                        && OpenedBy(trace, scope, window, i)
                        && (ScopedReset(asked, window) < LifeEnd(trace) / 1000 <==> asked / 1000 < trace[i].at / 1000)
    ensures ScopedReset(asked, window) <= LifeEnd(trace) / 1000 + window
  {
    LifeBounds(trace, scope, max, window);
    KeyPresent(trace, scope);
    var i := CounterOpened(trace, scope, max, window);
    hide StoreAfter, LifeEnd, ScopeKey;
    assert OpenedBy(trace, scope, window, i);
  }

  /** A second that turns between the two readings makes the reset of a new counter early. */
  lemma ScopedResetMayBeEarly(scope: string, max: nat, window: nat)
    ensures ScopedReset(999, window) < LifeEnd([Scoped(scope, max, window, 1000)]) / 1000
  {
    FirstOfScope(scope, max, window, 1000);
    hide LifeEnd;
  }

  /** A single request of a scope. */
  lemma FirstOfScope(scope: string, max: nat, window: nat, at: nat)
    ensures var trace := [Scoped(scope, max, window, at)];
            && StoreAfter(trace) == map[ScopeKey(scope) := Counter(1, at + window * 1000)]
            && LifeEnd(trace) == at + window * 1000
  {
    var trace := [Scoped(scope, max, window, at)];
    assert trace[..0] == [] && StoreAfter(trace[..0]) == map[];
    hide ScopeKey;
    assert Last(trace) == trace[0] && KeyOf(trace[0]) == ScopeKey(scope);
    assert StoreAfter(trace) == Increment(map[], ScopeKey(scope), window, at);
  }
}
