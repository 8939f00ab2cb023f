/** Expiry: the nightly loop against the hourly bulk update, and what the subscription guard lets through. */
module BillingExpiry {
  import opened Wrappers
  import opened Billing
  import opened BillingRules
  import Calendar

  // ---- the scheduled jobs ----

  lemma {:induction false} LoopExpiresListed(s: State, due: seq<Id>)
    requires !s.userRequired && forall k :: 0 <= k < |due| ==> due[k] < |s.subscriptions|
    ensures var t := ExpireEach(s, due);
            && |t.subscriptions| == |s.subscriptions|
            && forall i :: 0 <= i < |s.subscriptions| ==>
                 t.subscriptions[i] == if i in due then Expired(s.subscriptions[i]) else s.subscriptions[i]
    decreases |due|
  {
    if due != [] {
      LoopExpiresListed(ExpireOne(s, due[0]), due[1..]);
      assert forall i :: i in due <==> i == due[0] || i in due[1..];
    }
  }

  /**
   * The nightly loop leaves the same subscriptions as the hourly bulk update exactly when its notifications
   * can be stored or at most one row is due: a notification that the table refuses stops it after one row.
   */
  lemma NightlyMatchesHourly(s: State, due: seq<Id>, now: int)
    requires ListsDue(s.subscriptions, due, now)
    ensures ExpireEach(s, due).subscriptions == ExpireAll(s.subscriptions, now) <==> !s.userRequired || |due| <= 1
  {
    var all := ExpireAll(s.subscriptions, now);
    if !s.userRequired {
      LoopExpiresListed(s, due);
      assert ExpireEach(s, due).subscriptions == all;
    } else if |due| > 1 {
      assert ExpireEach(s, due).subscriptions[due[1]] == s.subscriptions[due[1]] != all[due[1]];
    } else {
      assert forall i :: i in due <==> |due| == 1 && i == due[0];
      assert ExpireEach(s, due).subscriptions == all;
    }
  }

  /** Where the notification is refused, a nightly run gets exactly one row further and leaves no trail. */
  lemma RefusedNightlyExpiresOne(s: State, due: seq<Id>, now: int)
    requires s.userRequired && due != [] && ListsDue(s.subscriptions, due, now)
    ensures ListsDue(ExpireEach(s, due).subscriptions, due[1..], now)
    ensures ExpireEach(s, due).audit == s.audit && ExpireEach(s, due).notifications == s.notifications
  {
    var t := ExpireEach(s, due);
    forall i | 0 <= i < |t.subscriptions| && Due(t.subscriptions[i], now)
      ensures i in due[1..]
    {
      assert i != due[0] && i in due;
    }
  }

  function Trail(due: seq<Id>): seq<Entry> {
    seq(|due|, k requires 0 <= k < |due| => Entry(SUBSCRIPTION_EXPIRED, None, due[k]))
  }

  /** Otherwise every expired row gets one audit row and one notification, in the order of the query. */
  lemma {:induction false} NightlyTrail(s: State, due: seq<Id>)
    requires !s.userRequired && forall k :: 0 <= k < |due| ==> due[k] < |s.subscriptions|
    ensures ExpireEach(s, due).audit == s.audit + Trail(due)
    ensures ExpireEach(s, due).notifications == s.notifications + Trail(due)
    decreases |due|
  {
    if due != [] {
      NightlyTrail(ExpireOne(s, due[0]), due[1..]);
      assert Trail(due) == [Entry(SUBSCRIPTION_EXPIRED, None, due[0])] + Trail(due[1..]);
    }
  }

  /** After the hourly update nothing is due, and a second one at the same time changes nothing. */
  lemma HourlyLeavesNoneDue(subs: seq<Subscription>, now: int)
    ensures ListsDue(ExpireAll(subs, now), [], now)
    ensures ExpireAll(ExpireAll(subs, now), now) == ExpireAll(subs, now)
  {
    assert forall i :: 0 <= i < |subs| ==> !Due(ExpireAll(subs, now)[i], now);
  }

  // ---- the guard ----

  /** An active subscription whose period has not ended. */
  predicate RunsAt(subs: seq<Subscription>, developer: string, now: int, i: Id) {
    ActiveOf(subs, developer, i) && now <= subs[i].periodEnd
  }

  predicate StillRuns(subs: seq<Subscription>, developer: string, now: int) {
    exists i :: 0 <= i < |subs| && RunsAt(subs, developer, now, i)
  }

  /**
   * The guard admits only developers with a subscription that still runs. It wrongly refuses one exactly when their
   * latest has ended while another still runs; then asking again helps, because a refusal ends no running one.
   */
  lemma GuardAdmitsCurrent(s: State, developer: string, found: Option<Id>, now: int)
    requires LatestActive(s.subscriptions, developer, found)
    ensures var g, subs := Guard(s, developer, found, now), s.subscriptions;
            && (g.1 ==> g.0 == s && StillRuns(subs, developer, now))
            && (!g.1 && StillRuns(subs, developer, now) <==>
                found.Some? && Due(subs[found.value], now)
                && exists i :: 0 <= i < |subs| && i != found.value && RunsAt(subs, developer, now, i))
            && (StillRuns(g.0.subscriptions, developer, now) <==> StillRuns(subs, developer, now))
            && (!g.1 ==> (HasActive(g.0.subscriptions, developer) <==> !NoneBesides(subs, developer, found)))
  {
    var subs := s.subscriptions;
    if found.Some? {
      RowEnded(subs, developer, found.value, Expired(subs[found.value]));
      hide HasActive, NoneBesides;
      if Due(subs[found.value], now) {
        RefusalEndsNoneRunning(subs, developer, found.value, now);
      } else {
        assert RunsAt(subs, developer, now, found.value);
      }
    }
  }

  lemma RefusalEndsNoneRunning(subs: seq<Subscription>, developer: string, k: Id, now: int)
    requires k < |subs| && Due(subs[k], now)
    ensures StillRuns(subs[k := Expired(subs[k])], developer, now) <==> StillRuns(subs, developer, now)
  {
    var t := subs[k := Expired(subs[k])];
    assert forall i: Id :: RunsAt(t, developer, now, i) <==> RunsAt(subs, developer, now, i);
  }

  // ---- short runs ----

  lemma TwoSteps(s: State, e0: Event, e1: Event)
    ensures Run(s, [e0, e1]) == Step(Step(s, e0), e1)
  {
    hide Step;
    assert [e0, e1][..1] == [e0];
    assert Run(s, [e0]) == Step(s, e0);
  }

  lemma ThreeSteps(s: State, e0: Event, e1: Event, e2: Event)
    ensures Run(s, [e0, e1, e2]) == Step(Step(Step(s, e0), e1), e2)
  {
    hide Step;
    TwoSteps(s, e0, e1);
    assert [e0, e1, e2][..2] == [e0, e1];
  }

  lemma FourSteps(s: State, e0: Event, e1: Event, e2: Event, e3: Event)
    ensures Run(s, [e0, e1, e2, e3]) == Step(Step(Step(Step(s, e0), e1), e2), e3)
  {
    hide Step;
    ThreeSteps(s, e0, e1, e2);
    assert [e0, e1, e2, e3][..3] == [e0, e1, e2];
  }

  // ---- two active subscriptions ----

  lemma SubscribedMeanwhile(s: State, pending: Subscription, code: string, t1: int, admin: Id, t2: int)
    requires s.subscriptions == [pending] && pending.status == SubscriptionStatus.PENDING
    requires Offered(s, code) && Upper(code) == code
    ensures var t := Step(Step(s, Subscribed(pending.developer, code, None, t1)), Approved(0, admin, t2));
            && t.subscriptions == [Activate(pending, t2), NewSubscription(pending.developer, code, ACTIVE, t1)]
            && t.plans == s.plans
  {
    hide Upper, Calendar.NextMonth, Calendar.Day;
    var t := Step(s, Subscribed(pending.developer, code, None, t1));
    assert OneActive(s.subscriptions, pending.developer, None);
    assert t.subscriptions == [pending, NewSubscription(pending.developer, code, ACTIVE, t1)];
  }

  /** A pending subscription is submitted, the developer subscribes meanwhile, and the pending one is approved. */
  function Doubling(developer: string, code: string, plan: Plan, admin: Id, t0: int, t1: int, t2: int): seq<Event> {
    [Catalogue(map[code := plan], map[], []), SubmitSubscription(developer, code, t0),
     Subscribed(developer, code, None, t1), Approved(0, admin, t2)]
  }

  lemma DoubledRows(userRequired: bool, developer: string, code: string, plan: Plan, admin: Id, t0: int, t1: int,
                    t2: int)
    requires plan.isActive && Upper(code) == code
    ensures var s := Run(Initial(userRequired), Doubling(developer, code, plan, admin, t0, t1, t2));
            var pending := NewSubscription(developer, code, SubscriptionStatus.PENDING, t0);
            && s.subscriptions == [Activate(pending, t2), NewSubscription(developer, code, ACTIVE, t1)]
            && Offered(s, code)
  {
    var e0, e1 := Catalogue(map[code := plan], map[], []), SubmitSubscription(developer, code, t0);
    var e2, e3 := Subscribed(developer, code, None, t1), Approved(0, admin, t2);
    FourSteps(Initial(userRequired), e0, e1, e2, e3);
    hide Run, Upper, Calendar.NextMonth, Calendar.Day;
    var pending := NewSubscription(developer, code, SubscriptionStatus.PENDING, t0);
    SubscribedMeanwhile(Step(Step(Initial(userRequired), e0), e1), pending, code, t1, admin, t2);
  }

  /** A run that ends with two active subscriptions of one developer. */
  lemma ApprovalMayDouble(userRequired: bool, developer: string, code: string, plan: Plan, admin: Id, t0: int,
                          t1: int, t2: int)
    requires plan.isActive && Upper(code) == code
    ensures !OneActiveEach(Run(Initial(userRequired),
                               Doubling(developer, code, plan, admin, t0, t1, t2)).subscriptions)
  {
    DoubledRows(userRequired, developer, code, plan, admin, t0, t1, t2);
    hide Run, Doubling, Upper, Calendar.NextMonth;
    var subs := Run(Initial(userRequired), Doubling(developer, code, plan, admin, t0, t1, t2)).subscriptions;
    assert subs[0].status == subs[1].status == ACTIVE && subs[0].developer == subs[1].developer;
  }

  /** After that run the developer may cancel, or subscribe again, and the approved subscription goes on. */
  lemma OldOneMayStay(userRequired: bool, developer: string, code: string, plan: Plan, admin: Id, t0: int, t1: int,
                      t2: int, now: int)
    requires plan.isActive && Upper(code) == code
    ensures var s := Run(Initial(userRequired), Doubling(developer, code, plan, admin, t0, t1, t2));
            && OneActive(s.subscriptions, developer, Some(1))
            && Cancel(s, developer, Some(1), now).Ok? && Subscribe(s, developer, code, Some(1), now).Ok?
            && ActiveOf(Cancel(s, developer, Some(1), now).value.subscriptions, developer, 0)
            && ActiveOf(Subscribe(s, developer, code, Some(1), now).value.subscriptions, developer, 0)
  {
    DoubledRows(userRequired, developer, code, plan, admin, t0, t1, t2);
    hide Run, Doubling, Upper, Calendar.NextMonth, Calendar.Day;
  }

  /** After that run the guard refuses the developer while the approved subscription still runs. */
  lemma GuardMayRefuseRunning(userRequired: bool, developer: string, code: string, plan: Plan, admin: Id, t0: int,
                              t1: int, t2: int, now: int)
    requires plan.isActive && Upper(code) == code
    requires t0 <= t1 && Calendar.NextMonth(t1) < now <= Calendar.NextMonth(t2)
    ensures var s := Run(Initial(userRequired), Doubling(developer, code, plan, admin, t0, t1, t2));
            && LatestActive(s.subscriptions, developer, Some(1))
            && !Guard(s, developer, Some(1), now).1 && RunsAt(s.subscriptions, developer, now, 0)
  {
    DoubledRows(userRequired, developer, code, plan, admin, t0, t1, t2);
    hide Run, Doubling, Upper, Calendar.NextMonth;
  }

  // ---- extensions that come too late ----

  /** An extended expired subscription is active, and due at once exactly when its new end has passed already. */
  lemma ExtendedMayStillBeDue(sub: Subscription, days: int, now: int)
    requires sub.status == EXPIRED
    ensures Extended(sub, days).status == ACTIVE
    ensures Due(Extended(sub, days), now) <==> sub.periodEnd + days * Calendar.MS_PER_DAY < now
  {
    Calendar.AddDaysLength(sub.periodEnd, days);
    hide Calendar.AddDays;
  }

  lemma FirstSubscription(s: State, developer: string, code: string, at: int)
    requires s.subscriptions == [] && Offered(s, code) && Upper(code) == code
    ensures Step(s, Subscribed(developer, code, None, at)).subscriptions
            == [NewSubscription(developer, code, ACTIVE, at)]
  {
    hide Upper, Calendar.NextMonth, Calendar.Day;
    assert OneActive(s.subscriptions, developer, None);
  }

  /** A run in which an extension brings back a subscription that the next expiry job takes away again. */
  lemma ExtensionMayComeTooLate(userRequired: bool, developer: string, code: string, plan: Plan, admin: Id,
                                start: int, days: int, now: int)
    requires plan.isActive && Upper(code) == code
    requires days >= 0 && Calendar.NextMonth(start) + days * Calendar.MS_PER_DAY < now
    ensures var subs := Run(Initial(userRequired), [
              Catalogue(map[code := plan], map[], []), Subscribed(developer, code, None, start),
              HourlyExpiry(now), ExtendedByAdmin(0, days, admin)]).subscriptions;
            |subs| == 1 && subs[0].status == ACTIVE && Due(subs[0], now)
  {
    var e0, e1 := Catalogue(map[code := plan], map[], []), Subscribed(developer, code, None, start);
    var e2, e3 := HourlyExpiry(now), ExtendedByAdmin(0, days, admin);
    FourSteps(Initial(userRequired), e0, e1, e2, e3);
    var s1 := Step(Initial(userRequired), e0);
    FirstSubscription(s1, developer, code, start);
    var sub := NewSubscription(developer, code, ACTIVE, start);
    LateExtension(Step(s1, e1), sub, days, admin, now);
  }

  lemma LateExtension(s: State, sub: Subscription, days: int, admin: Id, now: int)
    requires s.subscriptions == [sub] && sub.status == ACTIVE
    requires days >= 0 && sub.periodEnd + days * Calendar.MS_PER_DAY < now
    ensures var subs := Step(Step(s, HourlyExpiry(now)), ExtendedByAdmin(0, days, admin)).subscriptions;
            |subs| == 1 && subs[0].status == ACTIVE && Due(subs[0], now)
  {
    hide Calendar.AddDays;
    assert Step(s, HourlyExpiry(now)).subscriptions == [Expired(sub)];
    ExtendedMayStillBeDue(Expired(sub), days, now);
  }

  /** A run in which an administrator takes back a whole period: extending by fewer days than none is not refused. */
  lemma ExtensionMayEmptyPeriod(userRequired: bool, developer: string, code: string, plan: Plan, admin: Id, start: int)
    requires plan.isActive && Upper(code) == code
    ensures var s := Run(Initial(userRequired),
                         [Catalogue(map[code := plan], map[], []), Subscribed(developer, code, None, start)]);
            Ordered(s) && !Ordered(Step(s, ExtendedByAdmin(0, -31, admin)))
  {
    var e0, e1 := Catalogue(map[code := plan], map[], []), Subscribed(developer, code, None, start);
    TwoSteps(Initial(userRequired), e0, e1);
    FirstSubscription(Step(Initial(userRequired), e0), developer, code, start);
    var s := Step(Step(Initial(userRequired), e0), e1);
    Calendar.NextMonthLength(start);
    hide Run, Step, Calendar.NextMonth, Calendar.Day, Calendar.DaysInMonth, Calendar.Year, Calendar.Month;
    PeriodsStayOrdered(s, ExtendedByAdmin(0, -31, admin));
  }

  /** A run after which the developer has no active subscription and every active key still its tier. */
  lemma TierMayOutliveSubscription(userRequired: bool, developer: string, code: string, plan: Plan,
                                   keys: seq<ApiKey>, start: int, now: int, i: nat)
    requires plan.isActive && Upper(code) == code && Calendar.NextMonth(start) < now
    requires i < |keys| && keys[i].developer == developer && keys[i].isActive
    ensures var s := Run(Initial(userRequired), [
              Catalogue(map[code := plan], map[], keys), Subscribed(developer, code, None, start), HourlyExpiry(now)]);
            !HasActive(s.subscriptions, developer) && |s.keys| == |keys| && s.keys[i] == keys[i].(tier := code)
  {
    var e0, e1 := Catalogue(map[code := plan], map[], keys), Subscribed(developer, code, None, start);
    ThreeSteps(Initial(userRequired), e0, e1, HourlyExpiry(now));
    var s1 := Step(Initial(userRequired), e0);
    FirstSubscription(s1, developer, code, start);
    hide Run, Upper, Calendar.NextMonth, Calendar.Day;
    assert OneActive(s1.subscriptions, developer, None);
  }

  // ---- a night that expires too little ----

  /** A run to two due subscriptions, where the shipped schema makes the nightly job leave one of them active. */
  lemma NightlyMayStopEarly(first: string, second: string, code: string, plan: Plan, start: int, now: int)
    requires plan.isActive && Upper(code) == code && first != second && Calendar.NextMonth(start) < now
    ensures var s := Run(Initial(true), [
              Catalogue(map[code := plan], map[], []), Subscribed(first, code, None, start),
              Subscribed(second, code, None, start)]);
            && ListsDue(s.subscriptions, [0, 1], now)
            && ExpireEach(s, [0, 1]).subscriptions != ExpireAll(s.subscriptions, now)
            && ExpireEach(s, [0, 1]).subscriptions[1].status == ACTIVE
  {
    var e0, e1 := Catalogue(map[code := plan], map[], []), Subscribed(first, code, None, start);
    var e2 := Subscribed(second, code, None, start);
    ThreeSteps(Initial(true), e0, e1, e2);
    var s1 := Step(Initial(true), e0);
    FirstSubscription(s1, first, code, start);
    SecondSubscription(Step(s1, e1), first, second, code, start);
    var s := Step(Step(s1, e1), e2);
    hide Run, Step, Calendar.NextMonth, Calendar.Day;
    TwoDue(s, NewSubscription(first, code, ACTIVE, start), NewSubscription(second, code, ACTIVE, start), now);
  }

  lemma SecondSubscription(s: State, first: string, second: string, code: string, at: int)
    requires s.subscriptions == [NewSubscription(first, code, ACTIVE, at)] && first != second
    requires Offered(s, code) && Upper(code) == code
    ensures Step(s, Subscribed(second, code, None, at)).subscriptions
            == [NewSubscription(first, code, ACTIVE, at), NewSubscription(second, code, ACTIVE, at)]
    ensures Step(s, Subscribed(second, code, None, at)).userRequired == s.userRequired
  {
    hide Upper, Calendar.NextMonth, Calendar.Day;
    assert OneActive(s.subscriptions, second, None);
  }

  lemma TwoDue(s: State, x: Subscription, y: Subscription, now: int)
    requires s.userRequired && s.subscriptions == [x, y] && Due(x, now) && Due(y, now)
    ensures ListsDue(s.subscriptions, [0, 1], now)
    ensures ExpireEach(s, [0, 1]).subscriptions != ExpireAll(s.subscriptions, now)
    ensures ExpireEach(s, [0, 1]).subscriptions[1].status == ACTIVE
  {
    var due: seq<Id> := [0, 1];
    assert forall i :: 0 <= i < 2 ==> i == due[i];
    assert ListsDue(s.subscriptions, due, now);
    NightlyMatchesHourly(s, due, now);
  }
}
