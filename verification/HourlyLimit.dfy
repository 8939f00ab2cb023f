/** The hourly limiter: what a trace of requests is admitted under clock-aligned keys. */
module HourlyLimit {
  import opened RateLimit

  predicate OfHour(r: Request, id: string, hour: nat) {
    r.Hourly? && r.apiKeyId == id && r.keyAt / WINDOW_MS == hour
  }

  ghost function InHour(id: string, hour: nat): Class {
    (t: seq<Request>) => t != [] && OfHour(Last(t), id, hour)
  }

  /** The requests of an hour are counted within one hour of the first of them. */
  ghost predicate Together(trace: seq<Request>, id: string, hour: nat) {
    forall i, j :: 0 <= i < j < |trace| && OfHour(trace[i], id, hour) && OfHour(trace[j], id, hour) ==>
      trace[j].at <= trace[i].at + WINDOW_MS
  }

  /** What is known of an hour's counter after some requests, all of which it has counted or not. */
  ghost predicate CounterOfHour(trace: seq<Request>, id: string, hour: nat, counter: Counter, n: nat) {
    && 0 < counter.count <= n
    && (counter.count == n <==> Together(trace, id, hour))
    && (counter.count == n ==>
          && (exists i :: 0 <= i < |trace| && OfHour(trace[i], id, hour)
                  && counter.expiresAt == trace[i].at + WINDOW_MS)
          && forall i :: 0 <= i < |trace| && OfHour(trace[i], id, hour) ==>
                counter.expiresAt <= trace[i].at + WINDOW_MS)
  }

  lemma NextOfHour(trace: seq<Request>, id: string, hour: nat, counter: Counter, n: nat)
    requires trace != [] && OfHour(Last(trace), id, hour) && Chronological(trace)
    requires CounterOfHour(trace[..|trace| - 1], id, hour, counter, n)
    ensures CounterOfHour(trace, id, hour,
              if Last(trace).at <= counter.expiresAt then counter.(count := counter.count + 1)
              else Counter(1, Last(trace).at + WINDOW_MS), n + 1)
  {
    var init, r := trace[..|trace| - 1], Last(trace);
    hide OfHour;
    assert forall i :: 0 <= i < |init| ==> init[i] == trace[i];
    if counter.count < n {
      var i, j :| 0 <= i < j < |init| && OfHour(init[i], id, hour) && OfHour(init[j], id, hour)
                  && init[j].at > init[i].at + WINDOW_MS;
      assert trace[j].at > trace[i].at + WINDOW_MS;
    } else {
      var i :| 0 <= i < |init| && OfHour(init[i], id, hour) && counter.expiresAt == init[i].at + WINDOW_MS;
      assert trace[i] == init[i] && trace[|trace| - 1] == r;
    }
  }

  lemma FirstInHour(trace: seq<Request>, id: string, hour: nat)
    requires trace != [] && OfHour(Last(trace), id, hour)
    requires forall i :: 0 <= i < |trace| - 1 ==> !OfHour(trace[i], id, hour)
    ensures CounterOfHour(trace, id, hour, Counter(1, Last(trace).at + WINDOW_MS), 1)
  {
    hide OfHour;
    assert trace[|trace| - 1] == Last(trace);
  }

  lemma OtherRequest(trace: seq<Request>, id: string, hour: nat, counter: Counter, n: nat)
    requires trace != [] && !OfHour(Last(trace), id, hour)
    requires CounterOfHour(trace[..|trace| - 1], id, hour, counter, n)
    ensures CounterOfHour(trace, id, hour, counter, n)
  {
    var init := trace[..|trace| - 1];
    hide OfHour;
    assert forall i :: 0 <= i < |init| ==> init[i] == trace[i];
    if !Together(init, id, hour) {
      var i, j :| 0 <= i < j < |init| && OfHour(init[i], id, hour) && OfHour(init[j], id, hour)
                  && init[j].at > init[i].at + WINDOW_MS;
      assert trace[j].at > trace[i].at + WINDOW_MS;
    }
    if counter.count == n {
      var i :| 0 <= i < |init| && OfHour(init[i], id, hour) && counter.expiresAt == init[i].at + WINDOW_MS;
      assert trace[i] == init[i];
    }
  }

  lemma StepOnHour(trace: seq<Request>, id: string, hour: nat)
    requires trace != [] && PlainIds(trace) && PlainId(id)
    ensures var init, r, key := trace[..|trace| - 1], Last(trace), RateLimitKey(id, hour);
            if OfHour(r, id, hour) then StoreAfter(trace) == Increment(StoreAfter(init), key, WINDOW_SECONDS, r.at)
            else && (key in StoreAfter(trace) <==> key in StoreAfter(init))
                 && (key in StoreAfter(init) ==> StoreAfter(trace)[key] == StoreAfter(init)[key])
  {
    var r := Last(trace);
    hide RateLimitKey, ScopeKey;
    if r.Hourly? && KeyOf(r) == RateLimitKey(id, hour) {
      HourlyKeysDiffer(r.apiKeyId, r.keyAt / WINDOW_MS, id, hour);
    }
    if r.Scoped? {
      KindsDiffer(id, hour, r.scope);
    }
  }

  /**
   * The expiring counter of an hour counts that hour's requests exactly when all of them reach the store within an
   * hour of the first; one that comes later finds it gone and is counted from one again.
   */
  lemma {:induction false} HourlyCounter(trace: seq<Request>, id: string, hour: nat)
    requires PlainIds(trace) && PlainId(id) && Chronological(trace)
    ensures var n := Total(trace, InHour(id, hour)); var key := RateLimitKey(id, hour);
            if n == 0 then
              key !in StoreAfter(trace) && forall i :: 0 <= i < |trace| ==> !OfHour(trace[i], id, hour)
            else key in StoreAfter(trace) && CounterOfHour(trace, id, hour, StoreAfter(trace)[key], n)
    decreases |trace|
  {
    if trace != [] {
      HourlyCounter(trace[..|trace| - 1], id, hour);
      StepOnHour(trace, id, hour);
      hide StoreAfter, RateLimitKey, CounterOfHour, OfHour, PlainIds;
      NextOnHour(trace, id, hour, RateLimitKey(id, hour), StoreAfter(trace[..|trace| - 1]), StoreAfter(trace),
                 Total(trace[..|trace| - 1], InHour(id, hour)));
    }
  }

  lemma NextOnHour(trace: seq<Request>, id: string, hour: nat, key: string, s: Store, t: Store, n: nat)
    requires trace != [] && Chronological(trace)
    requires var init := trace[..|trace| - 1];
             if n == 0 then key !in s && forall i :: 0 <= i < |init| ==> !OfHour(init[i], id, hour)
             else key in s && CounterOfHour(init, id, hour, s[key], n)
    requires if OfHour(Last(trace), id, hour) then t == Increment(s, key, WINDOW_SECONDS, Last(trace).at)
             else (key in t <==> key in s) && (key in s ==> t[key] == s[key])
    ensures var m := n + if OfHour(Last(trace), id, hour) then 1 else 0;
            if m == 0 then key !in t && forall i :: 0 <= i < |trace| ==> !OfHour(trace[i], id, hour)
            else key in t && CounterOfHour(trace, id, hour, t[key], m)
  {
    hide CounterOfHour, OfHour, Chronological;
    var init := trace[..|trace| - 1];
    assert forall i :: 0 <= i < |init| ==> init[i] == trace[i];
    if n == 0 && OfHour(Last(trace), id, hour) {
      FirstInHour(trace, id, hour);
    } else if n > 0 && OfHour(Last(trace), id, hour) {
      CounterFacts(init, id, hour, s[key], n);
      NextOfHour(trace, id, hour, s[key], n);
    } else if n > 0 {
      OtherRequest(trace, id, hour, s[key], n);
    }
  }

  lemma CounterFacts(trace: seq<Request>, id: string, hour: nat, counter: Counter, n: nat)
    requires CounterOfHour(trace, id, hour, counter, n)
    ensures 0 < counter.count <= n && (counter.count == n <==> Together(trace, id, hour))
  {
  }

  /** Every request of one API key is made under the same limit: its tier does not change during the run. */
  ghost predicate FixedTier(trace: seq<Request>, id: string, max: nat) {
    forall i :: 0 <= i < |trace| && trace[i].Hourly? && trace[i].apiKeyId == id ==> trace[i].max == max
  }

  /**
   * In each clock-aligned hour at least the first `max` requests are admitted, and no others exactly when all are
   * counted within an hour of the first, or are no more than the limit.
   */
  lemma {:induction false} HourAdmitsExactly(trace: seq<Request>, id: string, max: nat, hour: nat)
    requires PlainIds(trace) && PlainId(id) && Chronological(trace) && FixedTier(trace, id, max)
    ensures var n := Total(trace, InHour(id, hour)); var admitted := Admitted(trace, InHour(id, hour));
            && admitted >= Min(n, max)
            && (admitted == Min(n, max) <==> max == 0 || n <= max || Together(trace, id, hour))
    decreases |trace|
  {
    if trace != [] {
      var init := trace[..|trace| - 1];
      HourAdmitsExactly(init, id, max, hour);
      TogetherBefore(trace, id, hour);
      hide LastAdmitted, Together, Chronological, PlainIds;
      if OfHour(Last(trace), id, hour) {
        LastOfHour(trace, id, hour);
        hide CountTold;
        if Together(init, id, hour) && !Together(trace, id, hour) {
          FirstLateOne(trace, id, hour);
        }
      }
    }
  }

  /** What the last request of an hour is told. */
  lemma LastOfHour(trace: seq<Request>, id: string, hour: nat)
    requires PlainIds(trace) && PlainId(id) && Chronological(trace) && trace != [] && OfHour(Last(trace), id, hour)
    ensures 0 < CountTold(trace) <= Total(trace, InHour(id, hour))
    ensures CountTold(trace) == Total(trace, InHour(id, hour)) <==> Together(trace, id, hour)
    ensures LastAdmitted(trace) <==> CountTold(trace) <= Last(trace).max
  {
    HourlyCounter(trace, id, hour);
    hide StoreAfter, RateLimitKey, Together, Chronological, PlainIds;
  }

  /** The first request that comes late is counted from one again. */
  lemma FirstLateOne(trace: seq<Request>, id: string, hour: nat)
    requires PlainIds(trace) && PlainId(id) && Chronological(trace) && trace != [] && OfHour(Last(trace), id, hour)
    requires Together(trace[..|trace| - 1], id, hour) && !Together(trace, id, hour)
    ensures CountTold(trace) == 1
  {
    var init, key := trace[..|trace| - 1], RateLimitKey(id, hour);
    LastOfHour(trace, id, hour);
    HourlyCounter(init, id, hour);
    StepOnHour(trace, id, hour);
    if Total(init, InHour(id, hour)) > 0 {
      CounterFacts(init, id, hour, StoreAfter(init)[key], Total(init, InHour(id, hour)));
    }
    hide StoreAfter, RateLimitKey, Together, CounterOfHour, Chronological, PlainIds, PlainId;
  }

  lemma TogetherBefore(trace: seq<Request>, id: string, hour: nat)
    requires trace != []
    ensures Together(trace, id, hour) ==> Together(trace[..|trace| - 1], id, hour)
    ensures !OfHour(Last(trace), id, hour) && Together(trace[..|trace| - 1], id, hour) ==> Together(trace, id, hour)
  {
    hide OfHour;
    var init := trace[..|trace| - 1];
    assert forall i :: 0 <= i < |init| ==> init[i] == trace[i];
  }

  /** Where every request is counted before its hour is over, exactly the first `max` of the hour are admitted. */
  lemma PromptHourAdmitsExactly(trace: seq<Request>, id: string, max: nat, hour: nat)
    requires PlainIds(trace) && PlainId(id) && Chronological(trace) && FixedTier(trace, id, max)
    requires forall i :: 0 <= i < |trace| && OfHour(trace[i], id, hour) ==>
               hour * WINDOW_MS <= trace[i].at <= (hour + 1) * WINDOW_MS
    ensures Admitted(trace, InHour(id, hour)) == Min(Total(trace, InHour(id, hour)), max)
  {
    assert Together(trace, id, hour);
    HourAdmitsExactly(trace, id, max, hour);
  }

  /** The first `max` requests of an hour are admitted, and no others if all are counted within an hour. */
  lemma FirstOfHour(trace: seq<Request>, id: string)
    requires PlainIds(trace) && PlainId(id) && Chronological(trace)
    requires trace != [] && Last(trace).Hourly? && Last(trace).apiKeyId == id
    ensures var hour := Last(trace).keyAt / WINDOW_MS;
            && (Total(trace, InHour(id, hour)) <= Last(trace).max ==> LastAdmitted(trace))
            && (Together(trace, id, hour) ==>
                (LastAdmitted(trace) <==> Total(trace, InHour(id, hour)) <= Last(trace).max))
  {
    hide CountTold, LastAdmitted, Together;
    LastOfHour(trace, id, Last(trace).keyAt / WINDOW_MS);
  }

  ghost function InSpan(id: string, start: nat): Class {
    (t: seq<Request>) => t != [] && Last(t).Hourly? && Last(t).apiKeyId == id
        && start <= Last(t).keyAt < start + WINDOW_MS
  }

  /** Over any 3600 seconds, wherever they start, at most twice the limit is admitted. */
  lemma SpanAdmitsAtMostTwice(trace: seq<Request>, id: string, max: nat, start: nat)
    requires PlainIds(trace) && PlainId(id) && Chronological(trace) && FixedTier(trace, id, max)
    requires Together(trace, id, start / WINDOW_MS) && Together(trace, id, start / WINDOW_MS + 1)
    ensures Admitted(trace, InSpan(id, start)) <= 2 * max
  {
    var hour := start / WINDOW_MS;
    HourAdmitsExactly(trace, id, max, hour);
    HourAdmitsExactly(trace, id, max, hour + 1);
    hide Admitted;
    AdmittedUnion(trace, InSpan(id, start), InHour(id, hour), InHour(id, hour + 1));
  }

  // ---- the bound on a span is reached ----

  /** n requests of one key at one instant. */
  function Burst(id: string, max: nat, at: nat, n: nat): (t: seq<Request>)
    ensures |t| == n && forall i :: 0 <= i < n ==> t[i] == Hourly(id, max, at, at)
  {
    if n == 0 then [] else Burst(id, max, at, n - 1) + [Hourly(id, max, at, at)]
  }

  lemma {:induction false} BurstTotals(before: seq<Request>, id: string, max: nat, at: nat, n: nat, hour: nat)
    ensures Total(before + Burst(id, max, at, n), InHour(id, hour)) ==
            Total(before, InHour(id, hour)) + if at / WINDOW_MS == hour then n else 0
  {
    if n == 0 {
      assert before + [] == before;
    } else {
      var t := before + Burst(id, max, at, n);
      assert t[..|t| - 1] == before + Burst(id, max, at, n - 1);
      BurstTotals(before, id, max, at, n - 1, hour);
    }
  }

  /** Two bursts around the turn of an hour, one millisecond apart, are admitted in full: twice the limit. */
  lemma TwiceTheLimitIsReached(id: string, max: nat)
    requires PlainId(id)
    ensures var trace := Burst(id, max, WINDOW_MS - 1, max) + Burst(id, max, WINDOW_MS, max);
            Admitted(trace, InSpan(id, WINDOW_MS - 1)) == 2 * max
  {
    hide Admitted, Total, InHour, InSpan, Burst;
    var trace := Burst(id, max, WINDOW_MS - 1, max) + Burst(id, max, WINDOW_MS, max);
    TwoBurstTotals(id, max);
    HourAdmitsExactly(trace, id, max, 0);
    HourAdmitsExactly(trace, id, max, 1);
    SpanCoversHours(trace, id, max);
  }

  lemma TwoBurstTotals(id: string, max: nat)
    ensures var trace := Burst(id, max, WINDOW_MS - 1, max) + Burst(id, max, WINDOW_MS, max);
            Total(trace, InHour(id, 0)) == max && Total(trace, InHour(id, 1)) == max
  {
    var first := Burst(id, max, WINDOW_MS - 1, max);
    assert [] + first == first;
    assert Total([], InHour(id, 0)) == 0 && Total([], InHour(id, 1)) == 0;
    BurstTotals([], id, max, WINDOW_MS - 1, max, 0);
    BurstTotals([], id, max, WINDOW_MS - 1, max, 1);
    BurstTotals(first, id, max, WINDOW_MS, max, 0);
    BurstTotals(first, id, max, WINDOW_MS, max, 1);
  }

  lemma {:induction false} SpanCoversHours(trace: seq<Request>, id: string, max: nat)
    requires forall i :: 0 <= i < |trace| ==>
             || trace[i] == Hourly(id, max, WINDOW_MS - 1, WINDOW_MS - 1)
             || trace[i] == Hourly(id, max, WINDOW_MS, WINDOW_MS)
    ensures Admitted(trace, InSpan(id, WINDOW_MS - 1))
            == Admitted(trace, InHour(id, 0)) + Admitted(trace, InHour(id, 1))
    decreases |trace|
  {
    hide LastAdmitted;
    if trace != [] {
      SpanCoversHours(trace[..|trace| - 1], id, max);
    }
  }

  /**
   * A request whose key was built in the last millisecond of an hour and that is counted two milliseconds later is
   * admitted after the hour's limit has been used up, if that hour's counter was opened in its first millisecond.
   */
  lemma LateRequestIsRecounted(id: string, max: nat)
    requires PlainId(id) && max > 0
    ensures Admitted(Burst(id, max, 0, max) + [Hourly(id, max, WINDOW_MS - 1, WINDOW_MS + 1)], InHour(id, 0)) == max + 1
  {
    var first := Burst(id, max, 0, max);
    var trace := first + [Hourly(id, max, WINDOW_MS - 1, WINDOW_MS + 1)];
    LateInTrace(id, max);
    LateTraceIsProper(id, max);
    hide Burst, Admitted, Total, Together, PlainIds, Chronological, FixedTier, InHour;
    OneMoreAdmitted(trace, InHour(id, 0));
    assert trace[..|trace| - 1] == first;
    HourAdmitsExactly(first, id, max, 0);
    HourAdmitsExactly(trace, id, max, 0);
  }

  lemma LateInTrace(id: string, max: nat)
    requires max > 0
    ensures var first := Burst(id, max, 0, max);
            var trace := first + [Hourly(id, max, WINDOW_MS - 1, WINDOW_MS + 1)];
            Total(first, InHour(id, 0)) == max && Total(trace, InHour(id, 0)) == max + 1 && !Together(trace, id, 0)
  {
    var first := Burst(id, max, 0, max);
    var trace := first + [Hourly(id, max, WINDOW_MS - 1, WINDOW_MS + 1)];
    hide Burst, Together;
    assert [] + first == first && Total([], InHour(id, 0)) == 0;
    BurstTotals([], id, max, 0, max, 0);
    assert trace[..|trace| - 1] == first;
    LateIsApart(trace, id, max);
  }

  lemma LateIsApart(trace: seq<Request>, id: string, max: nat)
    requires 0 < max == |trace| - 1
    requires trace[0] == Hourly(id, max, 0, 0) && trace[max] == Hourly(id, max, WINDOW_MS - 1, WINDOW_MS + 1)
    ensures !Together(trace, id, 0)
  {
    assert OfHour(trace[0], id, 0) && OfHour(trace[max], id, 0);
  }

  lemma LateTraceIsProper(id: string, max: nat)
    requires PlainId(id)
    ensures var first := Burst(id, max, 0, max);
            var trace := first + [Hourly(id, max, WINDOW_MS - 1, WINDOW_MS + 1)];
            && PlainIds(first) && Chronological(first) && FixedTier(first, id, max)
            && PlainIds(trace) && Chronological(trace) && FixedTier(trace, id, max)
  {
    hide Burst, PlainId;
  }

  lemma OneMoreAdmitted(trace: seq<Request>, c: Class)
    requires trace != []
    ensures Admitted(trace, c) <= Admitted(trace[..|trace| - 1], c) + 1
  {
    hide LastAdmitted;
  }

  /** With a late request, the bound on a span fails too: three requests of a key with limit one are admitted. */
  lemma LateRequestBreaksSpan(id: string)
    requires PlainId(id)
    ensures Admitted([Hourly(id, 1, 1, 1), Hourly(id, 1, WINDOW_MS - 1, WINDOW_MS + 2),
                      Hourly(id, 1, WINDOW_MS, WINDOW_MS + 2)], InSpan(id, 1)) > 2
  {
    var a, b := Hourly(id, 1, 1, 1), Hourly(id, 1, WINDOW_MS - 1, WINDOW_MS + 2);
    var c := Hourly(id, 1, WINDOW_MS, WINDOW_MS + 2);
    var trace := [a, b, c];
    ThreeTotals(id, a, b, c);
    assert !Together(trace, id, 0) by {
      assert OfHour(trace[0], id, 0) && OfHour(trace[1], id, 0) && trace[1].at > trace[0].at + WINDOW_MS;
    }
    hide Admitted, Total, Together, PlainId;
    HourAdmitsExactly(trace, id, 1, 0);
    HourAdmitsExactly(trace, id, 1, 1);
    AllInSpan(trace, id, 0);
    AllInSpan(trace, id, 1);
    AdmittedApart(trace, InSpan(id, 1), InHour(id, 0), InHour(id, 1));
  }

  lemma ThreeTotals(id: string, a: Request, b: Request, c: Request)
    requires OfHour(a, id, 0) && OfHour(b, id, 0) && OfHour(c, id, 1)
    ensures Total([a, b, c], InHour(id, 0)) == 2 && Total([a, b, c], InHour(id, 1)) == 1
  {
    assert [a, b, c][..2] == [a, b] && [a, b][..1] == [a] && [a][..0] == [];
    forall hour
      ensures Total([], InHour(id, hour)) == 0
    {
    }
    assert Total([a], InHour(id, 0)) == 1 && Total([a, b], InHour(id, 0)) == 2;
    assert Total([a], InHour(id, 1)) == 0 && Total([a, b], InHour(id, 1)) == 0;
  }

  lemma {:induction false} AllInSpan(trace: seq<Request>, id: string, hour: nat)
    requires forall i :: 0 <= i < |trace| ==>
               trace[i].Hourly? && trace[i].apiKeyId == id && 1 <= trace[i].keyAt < 1 + WINDOW_MS
    ensures Admitted(trace, Both(InSpan(id, 1), InHour(id, hour))) == Admitted(trace, InHour(id, hour))
    decreases |trace|
  {
    hide LastAdmitted;
    if trace != [] {
      AllInSpan(trace[..|trace| - 1], id, hour);
    }
  }

  // ---- the reported reset, in whole seconds ----

  function HourlyReset(now: nat): nat {
    (now / WINDOW_MS * WINDOW_MS + WINDOW_MS) / 1000
  }

  /**
   * The hourly reset is the first second of the next aligned hour: from then on a fresh key is counted. The check
   * reads the clock again for its own key, which is that fresh one exactly when the reset has passed already.
   */
  lemma HourlyResetOpensFreshKey(now: nat, later: nat)
    ensures HourlyReset(now) * 1000 == (now / WINDOW_MS + 1) * WINDOW_MS
    ensures now <= later < HourlyReset(now) * 1000 ==> later / WINDOW_MS == now / WINDOW_MS
    ensures later >= HourlyReset(now) * 1000 ==> later / WINDOW_MS > now / WINDOW_MS
  {
    var hour := now / WINDOW_MS;
    assert hour * WINDOW_MS + WINDOW_MS == (hour + 1) * 3600 * 1000;
    assert HourlyReset(now) == (hour + 1) * 3600;
    hide HourlyReset;
  }
}
