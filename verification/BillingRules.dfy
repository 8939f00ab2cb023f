/**
 * What every billing step keeps: stamps that go with statuses, decisions that stay, ordered periods, and when
 * a developer can come to have two active subscriptions.
 */
module BillingRules {
  import opened Wrappers
  import opened Billing
  import Calendar
  import Text

  // ---- statuses and their stamps ----

  predicate SoundSubscription(sub: Subscription) {
    sub.status == CANCELLED ==> sub.cancelledAt.Some?
  }

  predicate SoundInvoice(invoice: Invoice) {
    invoice.status == PAID ==> invoice.paidAt.Some?
  }

  /** A request is reviewed exactly when it is decided, and rejected only for a reason that says something. */
  predicate SoundRequest(r: Request) {
    && (r.status == RequestStatus.PENDING <==> r.reviewedAt.None?)
    && (r.status == RequestStatus.PENDING <==> r.reviewedBy.None?)
    && (r.status == RequestStatus.REJECTED <==> r.rejectionReason.Some?)
    && (r.rejectionReason.Some? ==> Text.Trim(r.rejectionReason.value) != "")
  }

  ghost predicate SoundSubscriptions(s: State) {
    forall i :: 0 <= i < |s.subscriptions| ==> SoundSubscription(s.subscriptions[i])
  }

  ghost predicate SoundInvoices(s: State) {
    forall i :: 0 <= i < |s.invoices| ==> SoundInvoice(s.invoices[i])
  }

  ghost predicate SoundRequests(s: State) {
    forall i :: 0 <= i < |s.requests| ==> SoundRequest(s.requests[i])
  }

  ghost predicate Stamped(s: State) {
    SoundSubscriptions(s) && SoundInvoices(s) && SoundRequests(s)
  }

  lemma {:induction false} NightlyKeepsRows(s: State, due: seq<Id>)
    requires forall k :: 0 <= k < |due| ==> due[k] < |s.subscriptions|
    ensures var t := ExpireEach(s, due);
            && t.requests == s.requests && t.invoices == s.invoices && t.plans == s.plans && t.members == s.members
            && t.keys == s.keys
            && |t.subscriptions| == |s.subscriptions|
            && forall i :: 0 <= i < |s.subscriptions| ==>
                 || t.subscriptions[i] == s.subscriptions[i]
                 || (i in due && t.subscriptions[i] == Expired(s.subscriptions[i]))
    decreases |due|
  {
    if due != [] && !s.userRequired {
      NightlyKeepsRows(ExpireOne(s, due[0]), due[1..]);
    }
  }

  lemma PaymentKeepsSoundSubscriptions(s: State, e: Event)
    requires SoundSubscriptions(s) && (e.PaymentApproved? || e.PaymentRejected?)
    ensures SoundSubscriptions(Step(s, e))
  {
    hide Calendar.NextMonth, Calendar.Day, Text.Trim;
  }

  lemma StepKeepsSoundSubscriptions(s: State, e: Event)
    requires SoundSubscriptions(s)
    ensures SoundSubscriptions(Step(s, e))
  {
    hide Calendar.NextMonth, Calendar.AddDays, Calendar.Day, ApprovePayment, RejectPayment, ExpireEach, Upper;
    match e
    case PaymentApproved(_, _, _, _) => PaymentKeepsSoundSubscriptions(s, e);
    case PaymentRejected(_, _, _, _) => PaymentKeepsSoundSubscriptions(s, e);
    case NightlyExpiry(due, at) =>
      if ListsDue(s.subscriptions, due, at) {
        NightlyKeepsRows(s, due);
      }
    case _ =>
  }

  lemma StepKeepsSoundInvoices(s: State, e: Event)
    requires SoundInvoices(s)
    ensures SoundInvoices(Step(s, e))
  {
    hide Calendar.NextMonth, Calendar.Day, Upper;
    if !e.InvoiceUpdated? && !e.PaymentApproved? && !e.Subscribed? {
      InvoicesUntouched(s, e);
      hide Step;
    }
  }

  lemma RequestsUntouched(s: State, e: Event)
    requires !e.SubmitPayment? && !e.PaymentApproved? && !e.PaymentRejected?
    ensures Step(s, e).requests == s.requests
  {
    hide Calendar.NextMonth, Calendar.AddDays, Calendar.Day, Text.Trim, ExpireEach, Upper;
    match e
    case NightlyExpiry(due, at) =>
      if ListsDue(s.subscriptions, due, at) {
        NightlyKeepsRows(s, due);
      }
    case _ =>
  }

  lemma InvoicesUntouched(s: State, e: Event)
    requires !e.InvoiceUpdated? && !e.PaymentApproved? && !e.Subscribed?
    ensures Step(s, e).invoices == s.invoices
  {
    hide Calendar.NextMonth, Calendar.AddDays, Calendar.Day, Text.Trim, ExpireEach, Upper;
    match e
    case NightlyExpiry(due, at) =>
      if ListsDue(s.subscriptions, due, at) {
        NightlyKeepsRows(s, due);
      }
    case _ =>
  }

  lemma StepKeepsSoundRequests(s: State, e: Event)
    requires SoundRequests(s)
    ensures SoundRequests(Step(s, e))
  {
    hide Calendar.NextMonth, Calendar.Day, Text.Trim;
    if !e.SubmitPayment? && !e.PaymentApproved? && !e.PaymentRejected? {
      RequestsUntouched(s, e);
      hide Step;
    }
  }

  lemma StepKeepsStamps(s: State, e: Event)
    requires Stamped(s)
    ensures Stamped(Step(s, e))
  {
    hide Step, SoundSubscriptions, SoundInvoices, SoundRequests;
    StepKeepsSoundSubscriptions(s, e);
    StepKeepsSoundInvoices(s, e);
    StepKeepsSoundRequests(s, e);
  }

  /** In every run: cancelled subscriptions and paid invoices carry their time, decided requests their review. */
  lemma {:induction false} StampsInEveryRun(es: seq<Event>, userRequired: bool)
    ensures Stamped(Run(Initial(userRequired), es))
    decreases |es|
  {
    if es != [] {
      StampsInEveryRun(es[..|es| - 1], userRequired);
      hide Step, Stamped;
      StepKeepsStamps(Run(Initial(userRequired), es[..|es| - 1]), es[|es| - 1]);
    }
  }

  // ---- decisions stay ----

  predicate Decides(e: Event, id: Id) {
    (e.PaymentApproved? || e.PaymentRejected?) && e.request == id
  }

  /** A request keeps its payer and its terms; only its own decision changes it, and names who decided when. */
  lemma OnlyADecisionChangesARequest(s: State, e: Event, id: Id)
    requires id < |s.requests|
    ensures id < |Step(s, e).requests|
    ensures var r, r1 := s.requests[id], Step(s, e).requests[id];
            && r1.userId == r.userId && r1.plan == r.plan && r1.amount == r.amount && r1.subscription == r.subscription
            && (r1 != r ==> && Decides(e, id) && r.status == RequestStatus.PENDING
                            && r1.reviewedBy == Some(e.admin) && r1.reviewedAt == Some(e.at)
                            && r1.status == if e.PaymentApproved? then APPROVED else RequestStatus.REJECTED)
  {
    hide Calendar.NextMonth, Calendar.Day, Text.Trim;
    if e.PaymentApproved? {
      ApprovalOfRequest(s, e.request, e.admin, e.notes, e.at, id);
      hide ApprovePayment;
    } else if !e.SubmitPayment? && !e.PaymentRejected? {
      RequestsUntouched(s, e);
      hide Step;
    }
  }

  lemma ApprovalOfRequest(s: State, id: Id, admin: Id, notes: Option<string>, now: int, k: Id)
    requires k < |s.requests|
    ensures var t := Commit(s, ApprovePayment(s, id, admin, notes, now));
            && |t.requests| == |s.requests|
            && t.requests[k] == if ApprovePayment(s, id, admin, notes, now).Ok? && k == id
                                then Review(s.requests[k], APPROVED, admin, now).(adminNotes := notes)
                                else s.requests[k]
    ensures ApprovePayment(s, id, admin, notes, now).Ok? ==>
            id < |s.requests| && s.requests[id].status == RequestStatus.PENDING
  {
    hide Calendar.NextMonth, Calendar.Day;
  }

  /** A decided request is never touched again. */
  lemma DecidedStays(s: State, e: Event, id: Id)
    requires id < |s.requests| && s.requests[id].status != RequestStatus.PENDING
    ensures id < |Step(s, e).requests| && Step(s, e).requests[id] == s.requests[id]
  {
    hide Step;
    OnlyADecisionChangesARequest(s, e, id);
  }

  lemma {:induction false} DecidedForever(s: State, es: seq<Event>, id: Id)
    requires id < |s.requests| && s.requests[id].status != RequestStatus.PENDING
    ensures id < |Run(s, es).requests| && Run(s, es).requests[id] == s.requests[id]
    decreases |es|
  {
    if es != [] {
      DecidedForever(s, es[..|es| - 1], id);
      hide Step;
      DecidedStays(Run(s, es[..|es| - 1]), es[|es| - 1], id);
    }
  }

  /** An approval leaves the paid subscription ACTIVE from now for exactly one month, invoiced to its last day. */
  lemma ApprovalActivates(s: State, id: Id, admin: Id, notes: Option<string>, now: int)
    requires ApprovePayment(s, id, admin, notes, now).Ok?
    ensures var t := ApprovePayment(s, id, admin, notes, now).value;
            && |t.invoices| == |s.invoices| + 1
            && var invoice := t.invoices[|s.invoices|];
            && invoice.subscription < |t.subscriptions|
            && var sub := t.subscriptions[invoice.subscription];
            && (forall i :: 0 <= i < |s.subscriptions| && i != invoice.subscription ==>
                  t.subscriptions[i] == s.subscriptions[i])
            && sub.status == ACTIVE && sub.periodStart == now
            && sub.periodEnd == now + Calendar.DaysInMonth(Calendar.Year(now), Calendar.Month(now))
                * Calendar.MS_PER_DAY
            && invoice.dueDay == Calendar.Day(sub.periodEnd) && invoice.amount == s.requests[id].amount
            && (Named(s, s.requests[id]) == Some(invoice.subscription) ||
                (Named(s, s.requests[id]).None? && sub.developer == s.members[s.requests[id].userId]))
  {
    Calendar.NextMonthLength(now);
    hide Calendar.NextMonth, Calendar.Day, Calendar.DaysInMonth, Calendar.Year, Calendar.Month;
  }

  // ---- periods ----

  ghost predicate Ordered(s: State) {
    forall i :: 0 <= i < |s.subscriptions| ==> s.subscriptions[i].periodStart < s.subscriptions[i].periodEnd
  }

  /** The extension moves the end to or before the start. */
  predicate Shortens(s: State, e: Event) {
    && e.ExtendedByAdmin? && e.id < |s.subscriptions|
    && s.subscriptions[e.id].periodEnd + e.days * Calendar.MS_PER_DAY <= s.subscriptions[e.id].periodStart
  }

  lemma ExtensionShortens(s: State, id: Id, days: int, admin: Id)
    requires Ordered(s)
    ensures Ordered(Commit(s, ExtendSubscription(s, id, days, admin))) <==>
            !Shortens(s, ExtendedByAdmin(id, days, admin))
  {
    hide Calendar.AddDays;
    if id < |s.subscriptions| {
      Calendar.AddDaysLength(s.subscriptions[id].periodEnd, days);
      var t := Commit(s, ExtendSubscription(s, id, days, admin));
      assert t.subscriptions[id] == Extended(s.subscriptions[id], days);
    }
  }

  lemma EventPeriods(e: Event)
    ensures e.SubmitSubscription? || e.PlatformSeeded? || e.PaymentApproved? || e.Approved? || e.Subscribed? ==>
              e.at < Calendar.NextMonth(e.at)
  {
    if e.SubmitSubscription? || e.PlatformSeeded? || e.PaymentApproved? || e.Approved? || e.Subscribed? {
      Calendar.NextMonthLength(e.at);
    }
  }

  lemma PaymentKeepsOrder(s: State, e: Event)
    requires Ordered(s) && (e.PaymentApproved? || e.PaymentRejected?)
    ensures Ordered(Step(s, e))
  {
    EventPeriods(e);
    hide Calendar.NextMonth, Calendar.Day, Text.Trim;
  }

  predicate KeepsPeriod(e: Event) {
    || e.Approved? || e.Refused? || e.CancelledByAdmin? || e.ExpiredByAdmin? || e.PlanChanged? || e.TierOverridden?
  }

  lemma AdminKeepsOrder(s: State, e: Event)
    requires Ordered(s)
    requires KeepsPeriod(e)
    ensures Ordered(Step(s, e))
  {
    EventPeriods(e);
    hide Calendar.NextMonth, Upper;
  }

  /** Periods stay in order under every step except exactly the extensions by too negative a number of days. */
  lemma PeriodsStayOrdered(s: State, e: Event)
    requires Ordered(s)
    ensures Ordered(Step(s, e)) <==> !Shortens(s, e)
  {
    EventPeriods(e);
    if e.PaymentApproved? || e.PaymentRejected? {
      PaymentKeepsOrder(s, e);
    } else if KeepsPeriod(e) {
      AdminKeepsOrder(s, e);
    } else {
      hide Calendar.NextMonth, Calendar.AddDays, Calendar.Day, ExpireEach, Upper;
      match e
      case ExtendedByAdmin(id, days, admin) => ExtensionShortens(s, id, days, admin);
      case NightlyExpiry(due, at) =>
        if ListsDue(s.subscriptions, due, at) {
          NightlyKeepsRows(s, due);
        }
      case _ =>
    }
  }

  lemma {:induction false} PeriodsInEveryRun(es: seq<Event>, userRequired: bool)
    requires forall k :: 0 <= k < |es| && es[k].ExtendedByAdmin? ==> es[k].days >= 0
    ensures Ordered(Run(Initial(userRequired), es))
    decreases |es|
  {
    if es != [] {
      var s, e := Run(Initial(userRequired), es[..|es| - 1]), es[|es| - 1];
      PeriodsInEveryRun(es[..|es| - 1], userRequired);
      hide Step;
      PeriodsStayOrdered(s, e);
    }
  }

  // ---- one active subscription per developer ----

  ghost predicate OneActiveEach(subs: seq<Subscription>) {
    forall i, j :: 0 <= i < j < |subs| && subs[i].status == ACTIVE && subs[j].status == ACTIVE ==>
      subs[i].developer != subs[j].developer
  }

  predicate HasActive(subs: seq<Subscription>, developer: string) {
    exists i :: 0 <= i < |subs| && ActiveOf(subs, developer, i)
  }

  /** Making this subscription active would give its developer a second active one. */
  predicate Doubles(subs: seq<Subscription>, id: Id) {
    id < |subs| && subs[id].status != ACTIVE && HasActive(subs, subs[id].developer)
  }

  /**
   * The steps that activate a subscription without looking for another active one: an administrator approves
   * a payment or a subscription, extends an expired one, or overrides a status, while the developer has one.
   */
  predicate Clashes(s: State, e: Event) {
    match e
    case PaymentApproved(id, admin, notes, at) =>
      && ApprovePayment(s, id, admin, notes, at).Ok?
      && var r := s.requests[id];
         if Named(s, r).Some? then Doubles(s.subscriptions, r.subscription.value)
         else HasActive(s.subscriptions, s.members[r.userId])
    case Approved(id, _, _) =>
      id < |s.subscriptions| && s.subscriptions[id].status == SubscriptionStatus.PENDING && Doubles(s.subscriptions, id)
    case ExtendedByAdmin(id, _, _) =>
      id < |s.subscriptions| && s.subscriptions[id].status == EXPIRED && Doubles(s.subscriptions, id)
    case TierOverridden(id, code, rate, status, at) =>
      OverrideTier(s, id, code, rate, status, at).Ok? && status == Some(ACTIVE) && Doubles(s.subscriptions, id)
    case _ => false
  }

  lemma NoOther(subs: seq<Subscription>, developer: string)
    requires !HasActive(subs, developer)
    ensures forall i :: 0 <= i < |subs| ==> subs[i].developer != developer || subs[i].status != ACTIVE
  {
    forall i | 0 <= i < |subs|
      ensures subs[i].developer != developer || subs[i].status != ACTIVE
    {
      assert !ActiveOf(subs, developer, i);
    }
  }

  /** Replacing a row by one of the same developer goes wrong exactly when it newly activates a second one. */
  lemma RowReplaced(subs: seq<Subscription>, id: Id, sub: Subscription)
    requires OneActiveEach(subs) && id < |subs| && sub.developer == subs[id].developer
    ensures OneActiveEach(subs[id := sub]) <==> !(sub.status == ACTIVE && Doubles(subs, id))
  {
    var t := subs[id := sub];
    if sub.status == ACTIVE && Doubles(subs, id) {
      var i :| 0 <= i < |subs| && ActiveOf(subs, sub.developer, i);
      assert t[i] == subs[i] && t[id] == sub && i != id;
    } else if sub.status == ACTIVE && subs[id].status != ACTIVE {
      NoOther(subs, sub.developer);
    }
  }

  lemma RowAppended(subs: seq<Subscription>, sub: Subscription)
    requires OneActiveEach(subs)
    ensures OneActiveEach(subs + [sub]) <==> !(sub.status == ACTIVE && HasActive(subs, sub.developer))
  {
    var t := subs + [sub];
    if sub.status == ACTIVE && HasActive(subs, sub.developer) {
      var i :| 0 <= i < |subs| && ActiveOf(subs, sub.developer, i);
      assert t[i] == subs[i] && t[|subs|] == sub;
    } else if sub.status == ACTIVE {
      NoOther(subs, sub.developer);
    }
  }

  /** A user who subscribes again gives up the old subscription first, so this step never doubles. */
  lemma SubscribeReplaces(s: State, developer: string, code: string, found: Option<Id>, now: int)
    requires OneActiveEach(s.subscriptions) && OneActive(s.subscriptions, developer, found)
    requires Subscribe(s, developer, code, found, now).Ok?
    ensures OneActiveEach(Subscribe(s, developer, code, found, now).value.subscriptions)
  {
    var subs := s.subscriptions;
    var kept := if found.Some? then subs[found.value := Cancelled(subs[found.value], now)] else subs;
    if found.Some? {
      RowReplaced(subs, found.value, Cancelled(subs[found.value], now));
    }
    forall i | 0 <= i < |kept|
      ensures !ActiveOf(kept, developer, i)
    {
    }
    RowAppended(kept, NewSubscription(developer, Upper(code), ACTIVE, now));
  }

  /**
   * Subscribing gives the developer a new active subscription for exactly one month in place of the one the query
   * found, leaves everyone else as they were, and writes one invoice of the plan's price, settled only if it is free.
   */
  lemma SubscribeSwitches(s: State, developer: string, code: string, found: Option<Id>, now: int, other: string, i: Id)
    requires OneActive(s.subscriptions, developer, found)
    requires Subscribe(s, developer, code, found, now).Ok?
    ensures var t, n := Subscribe(s, developer, code, found, now).value, |s.subscriptions|;
            && (ActiveOf(t.subscriptions, developer, i) <==>
                i == n || (ActiveOf(s.subscriptions, developer, i) && found != Some(i)))
            && (other != developer ==> (ActiveOf(t.subscriptions, other, i) <==> ActiveOf(s.subscriptions, other, i)))
            && t.subscriptions[n].plan == Upper(code) && t.subscriptions[n].periodStart == now
            && t.subscriptions[n].periodEnd == now + Calendar.DaysInMonth(Calendar.Year(now), Calendar.Month(now))
                * Calendar.MS_PER_DAY
            && |t.invoices| == |s.invoices| + 1 && t.invoices[..|s.invoices|] == s.invoices
            && var invoice := t.invoices[|s.invoices|];
            && invoice.subscription == n && invoice.amount == s.plans[Upper(code)].price && invoice.approves.None?
            && (invoice.status == PAID <==> invoice.amount == 0) && (invoice.paidAt.Some? <==> invoice.amount == 0)
  {
    Calendar.NextMonthLength(now);
    assert found.Some? ==> ActiveOf(s.subscriptions, developer, found.value);
    hide OneActive, Upper, Calendar.NextMonth, Calendar.Day, Calendar.DaysInMonth, Calendar.Year, Calendar.Month;
  }

  /** The new subscription is the only active one exactly when the query had found the only old one. */
  lemma SubscribeLeavesOneIff(s: State, developer: string, code: string, found: Option<Id>, now: int)
    requires OneActive(s.subscriptions, developer, found) && Subscribe(s, developer, code, found, now).Ok?
    ensures NoneBesides(Subscribe(s, developer, code, found, now).value.subscriptions, developer,
                        Some(|s.subscriptions|))
            <==> NoneBesides(s.subscriptions, developer, found)
  {
    var subs, t := s.subscriptions, Subscribe(s, developer, code, found, now).value.subscriptions;
    hide Subscribe, OneActive, Upper, Calendar.NextMonth, Calendar.Day;
    forall i: Id
      ensures ActiveOf(t, developer, i) <==> i == |subs| || (ActiveOf(subs, developer, i) && found != Some(i))
    {
      SubscribeSwitches(s, developer, code, found, now, developer, i);
    }
  }

  /** The developer has no active subscription but the one that a query found, if it found one. */
  ghost predicate NoneBesides(subs: seq<Subscription>, developer: string, found: Option<Id>) {
    forall i: Id :: ActiveOf(subs, developer, i) ==> found == Some(i)
  }

  /** No query for one active subscription overlooks a second exactly when no developer has two. */
  lemma OneActiveIffNoneBesides(subs: seq<Subscription>)
    ensures OneActiveEach(subs) <==>
            forall developer, found :: OneActive(subs, developer, found) ==> NoneBesides(subs, developer, found)
  {
    if forall developer, found :: OneActive(subs, developer, found) ==> NoneBesides(subs, developer, found) {
      forall i, j | 0 <= i < j < |subs| && subs[i].status == ACTIVE && subs[j].status == ACTIVE
        ensures subs[i].developer != subs[j].developer
      {
        assert OneActive(subs, subs[i].developer, Some(i));
        assert ActiveOf(subs, subs[j].developer, j);
      }
    }
  }

  /** After subscribing, all active keys of the developer carry the new plan's tier, and no other key has changed. */
  lemma KeysFollowThePlan(s: State, developer: string, code: string, found: Option<Id>, now: int, i: nat)
    requires OneActive(s.subscriptions, developer, found) && Subscribe(s, developer, code, found, now).Ok?
    requires i < |s.keys|
    ensures var t := Subscribe(s, developer, code, found, now).value;
            && |t.keys| == |s.keys|
            && t.keys[i].developer == s.keys[i].developer && t.keys[i].isActive == s.keys[i].isActive
            && (t.keys[i].developer == developer && t.keys[i].isActive ==>
                  t.keys[i].tier == t.subscriptions[|s.subscriptions|].plan)
            && (t.keys[i].developer != developer || !t.keys[i].isActive ==> t.keys[i] == s.keys[i])
  {
    hide Upper, Calendar.NextMonth, Calendar.Day;
  }

  /** Expiry, by a schedule or the guard, takes the subscription but leaves the keys at the tier it paid for. */
  lemma ExpiryKeepsTiers(s: State, e: Event)
    requires e.NightlyExpiry? || e.HourlyExpiry? || e.Guarded? || e.ExpiredByAdmin?
    ensures Step(s, e).keys == s.keys
  {
    hide ExpireAll, OneActive, LatestActive;
    match e
    case NightlyExpiry(due, at) =>
      if ListsDue(s.subscriptions, due, at) {
        NightlyKeepsRows(s, due);
      }
    case _ =>
  }

  /**
   * Cancelling succeeds exactly when there is an active subscription. It cancels the one the query found and changes
   * no other, so it leaves the developer without an active one exactly when that was the only one.
   */
  lemma CancelLeavesNone(s: State, developer: string, found: Option<Id>, now: int)
    requires OneActive(s.subscriptions, developer, found)
    ensures Cancel(s, developer, found, now).Ok? <==> HasActive(s.subscriptions, developer)
    ensures Cancel(s, developer, found, now).Ok? ==>
              var t := Cancel(s, developer, found, now).value.subscriptions;
              && |t| == |s.subscriptions|
              && (!HasActive(t, developer) <==> NoneBesides(s.subscriptions, developer, found))
              && forall i :: 0 <= i < |t| && t[i] != s.subscriptions[i] ==>
                  found == Some(i) && t[i].status == CANCELLED && t[i].cancelledAt == Some(now)
  {
    if found.Some? {
      var subs, t := s.subscriptions, Cancel(s, developer, found, now).value.subscriptions;
      RowEnded(subs, developer, found.value, Cancelled(subs[found.value], now));
      assert t == subs[found.value := Cancelled(subs[found.value], now)];
    }
  }

  /** Ending one active subscription leaves none exactly when there was no other. */
  lemma RowEnded(subs: seq<Subscription>, developer: string, k: Id, ended: Subscription)
    requires ActiveOf(subs, developer, k) && ended.status != ACTIVE
    ensures !HasActive(subs[k := ended], developer) <==> NoneBesides(subs, developer, Some(k))
  {
    var t := subs[k := ended];
    assert forall i: Id :: ActiveOf(t, developer, i) <==> ActiveOf(subs, developer, i) && i != k;
    if HasActive(t, developer) {
      var i :| 0 <= i < |t| && ActiveOf(t, developer, i);
      assert ActiveOf(subs, developer, i);
    }
  }

  lemma AdminUnlessClash(s: State, e: Event)
    requires OneActiveEach(s.subscriptions)
    requires e.Approved? || e.Refused? || e.CancelledByAdmin? || e.ExpiredByAdmin? || e.ExtendedByAdmin?
             || e.PlanChanged?
    ensures OneActiveEach(Step(s, e).subscriptions) <==> !Clashes(s, e)
  {
    hide Calendar.NextMonth, Calendar.AddDays, Upper, Doubles, HasActive, OneActiveEach;
    var subs := s.subscriptions;
    match e
    case Approved(id, _, at) =>
      if id < |subs| {
        RowReplaced(subs, id, Activate(subs[id], at));
      }
    case Refused(id, _) =>
      if id < |subs| {
        RowReplaced(subs, id, subs[id].(status := SubscriptionStatus.REJECTED));
      }
    case CancelledByAdmin(id, _, at) =>
      if id < |subs| {
        RowReplaced(subs, id, Cancelled(subs[id], at));
      }
    case ExpiredByAdmin(id, _) =>
      if id < |subs| {
        RowReplaced(subs, id, Expired(subs[id]));
      }
    case ExtendedByAdmin(id, days, _) =>
      if id < |subs| {
        AlreadyActive(subs, id);
        RowReplaced(subs, id, Extended(subs[id], days));
      }
    case PlanChanged(id, code, _) =>
      if id < |subs| {
        AlreadyActive(subs, id);
        RowReplaced(subs, id, subs[id].(plan := Upper(code)));
      }
  }

  lemma PaymentUnlessClash(s: State, e: Event)
    requires OneActiveEach(s.subscriptions) && (e.PaymentApproved? || e.PaymentRejected?)
    ensures OneActiveEach(Step(s, e).subscriptions) <==> !Clashes(s, e)
  {
    hide Calendar.NextMonth, Calendar.Day, Text.Trim, Doubles, HasActive, OneActiveEach;
    var subs := s.subscriptions;
    match e
    case PaymentApproved(id, admin, notes, at) =>
      if ApprovePayment(s, id, admin, notes, at).Ok? {
        var r := s.requests[id];
        if Named(s, r).Some? {
          RowReplaced(subs, r.subscription.value, Activate(subs[r.subscription.value], at));
        } else {
          RowAppended(subs, NewSubscription(s.members[r.userId], r.plan, ACTIVE, at));
        }
      }
    case PaymentRejected(id, admin, reason, at) =>
      if RejectPayment(s, id, admin, reason, at).Ok? && Named(s, s.requests[id]).Some? {
        var sub := s.requests[id].subscription.value;
        RowReplaced(subs, sub, subs[sub].(status := SubscriptionStatus.REJECTED));
      }
  }

  /** From a state with one active subscription per developer, a step breaks that exactly when it clashes. */
  lemma OneActiveUnlessClash(s: State, e: Event)
    requires OneActiveEach(s.subscriptions)
    ensures OneActiveEach(Step(s, e).subscriptions) <==> !Clashes(s, e)
  {
    hide Calendar.NextMonth, Calendar.AddDays, Calendar.Day, ApprovePayment, RejectPayment, ExpireEach, Upper, Doubles,
         HasActive, OneActiveEach;
    var subs := s.subscriptions;
    match e
    case SubmitSubscription(developer, plan, at) =>
      RowAppended(subs, NewSubscription(developer, plan, SubscriptionStatus.PENDING, at));
    case PaymentApproved(_, _, _, _) => PaymentUnlessClash(s, e);
    case PaymentRejected(_, _, _, _) => PaymentUnlessClash(s, e);
    case Subscribed(developer, code, found, at) =>
      if OneActive(subs, developer, found) && Subscribe(s, developer, code, found, at).Ok? {
        SubscribeReplaces(s, developer, code, found, at);
      }
    case CancelledByUser(developer, found, at) =>
      if OneActive(subs, developer, found) && found.Some? {
        RowReplaced(subs, found.value, Cancelled(subs[found.value], at));
      }
    case Guarded(developer, found, at) =>
      if LatestActive(subs, developer, found) && found.Some? {
        RowReplaced(subs, found.value, Expired(subs[found.value]));
      }
    case NightlyExpiry(due, at) =>
      if ListsDue(subs, due, at) {
        NightlyKeepsRows(s, due);
        FewerActive(subs, ExpireEach(s, due).subscriptions);
      }
    case HourlyExpiry(at) => FewerActive(subs, ExpireAll(subs, at));
    case TierOverridden(id, code, rate, status, at) => OverrideRow(s, id, code, rate, status, at);
    case Catalogue(_, _, _) =>
    case PlatformSeeded(at) =>
      if SeedPlatform(s, at) != s {
        NoneOf(subs, PLATFORM);
        RowAppended(subs, NewSubscription(PLATFORM, ENTERPRISE_PLAN, ACTIVE, at));
      }
    case SubmitPayment(_, _, _, _) =>
    case InvoiceUpdated(_, _, _) =>
    case _ => AdminUnlessClash(s, e);
  }

  lemma NoneOf(subs: seq<Subscription>, developer: string)
    requires forall i :: 0 <= i < |subs| ==> subs[i].developer != developer
    ensures !HasActive(subs, developer)
  {
  }

  lemma AlreadyActive(subs: seq<Subscription>, id: Id)
    requires id < |subs|
    ensures subs[id].status == ACTIVE ==> !Doubles(subs, id)
  {
  }

  lemma FewerActive(subs: seq<Subscription>, fewer: seq<Subscription>)
    requires OneActiveEach(subs) && |fewer| == |subs|
    requires forall i :: 0 <= i < |subs| ==>
               fewer[i].developer == subs[i].developer && (fewer[i].status == ACTIVE ==> subs[i].status == ACTIVE)
    ensures OneActiveEach(fewer)
  {
  }

  lemma OverrideRow(s: State, id: Id, code: Option<string>, rate: Option<int>, status: Option<SubscriptionStatus>,
      at: int)
    requires OneActiveEach(s.subscriptions)
    ensures OneActiveEach(Commit(s, OverrideTier(s, id, code, rate, status, at)).subscriptions) <==>
            !(OverrideTier(s, id, code, rate, status, at).Ok? && status == Some(ACTIVE) && Doubles(s.subscriptions, id))
  {
    var r := OverrideTier(s, id, code, rate, status, at);
    hide Upper, HasActive, OneActiveEach;
    if r.Ok? {
      RowReplaced(s.subscriptions, id, r.value.subscriptions[id]);
    }
  }

  ghost predicate AlwaysOneActive(s: State, es: seq<Event>)
    decreases |es|
  {
    OneActiveEach(Run(s, es).subscriptions) && (es == [] || AlwaysOneActive(s, es[..|es| - 1]))
  }

  predicate NeverClashes(s: State, es: seq<Event>)
    decreases |es|
  {
    es == [] || (NeverClashes(s, es[..|es| - 1]) && !Clashes(Run(s, es[..|es| - 1]), es[|es| - 1]))
  }

  /** Throughout a run developers have at most one active subscription exactly when no event of it clashes. */
  lemma {:induction false} OneActiveThroughout(s: State, es: seq<Event>)
    requires OneActiveEach(s.subscriptions)
    ensures AlwaysOneActive(s, es) <==> NeverClashes(s, es)
    decreases |es|
  {
    hide Step, Clashes, OneActiveEach;
    if es != [] {
      var init := es[..|es| - 1];
      OneActiveThroughout(s, init);
      if AlwaysOneActive(s, init) {
        OneActiveUnlessClash(Run(s, init), es[|es| - 1]);
      }
    }
  }

  /** Activation by an administrator, the only kind of step that can clash. */
  predicate Activates(e: Event) {
    e.PaymentApproved? || e.Approved? || e.ExtendedByAdmin? || e.TierOverridden?
  }

  lemma {:induction false} NothingClashes(s: State, es: seq<Event>)
    requires forall k :: 0 <= k < |es| ==> !Activates(es[k])
    ensures NeverClashes(s, es)
    decreases |es|
  {
    if es != [] {
      NothingClashes(s, es[..|es| - 1]);
      assert !Activates(es[|es| - 1]);
      hide Run, ApprovePayment, OverrideTier;
    }
  }

  /** Users, schedules, the guard, and administrators who cancel, expire or reject never cause a second active one. */
  lemma OneActiveWithoutActivation(es: seq<Event>, userRequired: bool)
    requires forall k :: 0 <= k < |es| ==> !Activates(es[k])
    ensures OneActiveEach(Run(Initial(userRequired), es).subscriptions)
  {
    NothingClashes(Initial(userRequired), es);
    OneActiveThroughout(Initial(userRequired), es);
    hide Run, NeverClashes, OneActiveEach;
  }

  /** In such runs the query always finds the only active one, so cancelling leaves none and subscribing one. */
  lemma NoneBesidesWithoutActivation(es: seq<Event>, userRequired: bool, developer: string, found: Option<Id>)
    requires forall k :: 0 <= k < |es| ==> !Activates(es[k])
    requires OneActive(Run(Initial(userRequired), es).subscriptions, developer, found)
    ensures NoneBesides(Run(Initial(userRequired), es).subscriptions, developer, found)
  {
    hide Run, OneActive, NoneBesides, OneActiveEach;
    OneActiveWithoutActivation(es, userRequired);
    OneActiveIffNoneBesides(Run(Initial(userRequired), es).subscriptions);
  }
}
