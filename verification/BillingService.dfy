/** The billing services as they load, change and save rows; a transaction that throws is rolled back. */
module BillingService {
  import opened Wrappers
  import opened Billing
  import Calendar
  import Text

  /** A method did what the specification says: its new state, or its failure and no change at all. */
  predicate Did(before: State, spec: Result<State, Failure>, after: State, failure: Option<Failure>) {
    match spec
    case Ok(t) => after == t && failure.None?
    case Err(f) => after == before && failure == Some(f)
  }

  class Tables {
    var plans: map<string, Plan>
    var members: map<Id, string>
    var subscriptions: seq<Subscription>
    var invoices: seq<Invoice>
    var requests: seq<Request>
    var audit: seq<Entry>
    var notifications: seq<Entry>
    var keys: seq<ApiKey>
    const userRequired: bool

    constructor (userRequired: bool)
      ensures View() == Initial(userRequired)
    {
      this.userRequired := userRequired;
      plans, members := map[], map[];
      subscriptions, invoices, requests, audit, notifications, keys := [], [], [], [], [], [];
    }

    function View(): State
      reads this
    {
      State(plans, members, subscriptions, invoices, requests, audit, notifications, keys, userRequired)
    }

    method Rollback(s: State)
      requires s.userRequired == userRequired
      modifies this
      ensures View() == s
    {
      plans, members := s.plans, s.members;
      subscriptions, invoices, requests := s.subscriptions, s.invoices, s.requests;
      audit, notifications, keys := s.audit, s.notifications, s.keys;
    }

    /** `keyRepo.update({ developerName, isActive: true }, { tier })` */
    method UpdateKeys(developer: string, tier: string)
      modifies `keys
      ensures keys == Retier(old(keys), developer, tier)
    {
      keys := Retier(keys, developer, tier);
    }

    method Log(action: Action, actor: Option<Id>, about: Id)
      modifies `audit
      ensures audit == old(audit) + [Entry(action, actor, about)]
    {
      audit := audit + [Entry(action, actor, about)];
    }

    /** The insert fails when the table requires a user and none is given. */
    method Notify(action: Action, user: Option<Id>, about: Id) returns (stored: bool)
      modifies `notifications
      ensures stored <==> user.Some? || !userRequired
      ensures notifications == if stored then old(notifications) + [Entry(action, user, about)] else old(notifications)
    {
      stored := user.Some? || !userRequired;
      if stored {
        notifications := notifications + [Entry(action, user, about)];
      }
    }

    // ---- payments ----

    method ApprovePayment(id: Id, admin: Id, notes: Option<string>, now: int) returns (failure: Option<Failure>)
      modifies this
      ensures Did(old(View()), Billing.ApprovePayment(old(View()), id, admin, notes, now), View(), failure)
    {
      hide Calendar.NextMonth, Calendar.Day, Retier, Settle;
      var before := View();
      if id >= |requests| {
        return Some(NotFound("Payment request"));
      }
      var request := requests[id];
      if request.status != RequestStatus.PENDING {
        return Some(BadRequest("Payment request is already decided"));
      }
      requests := requests[id := request.(status := APPROVED, reviewedBy := Some(admin), reviewedAt := Some(now),
                                          adminNotes := notes)];
      var sub: Id;
      if request.subscription.Some? && request.subscription.value < |subscriptions| {
        sub := request.subscription.value;
        subscriptions := subscriptions[sub := subscriptions[sub].(
          status := ACTIVE, periodStart := now, periodEnd := Calendar.NextMonth(now))];
      } else {
        if request.plan !in plans {
          Rollback(before);
          return Some(NotFound("Plan"));
        }
        if request.userId !in members {
          Rollback(before);
          return Some(NotFound("User"));
        }
        sub := |subscriptions|;
        subscriptions := subscriptions + [Subscription(members[request.userId], request.plan, ACTIVE, now,
                                                       Calendar.NextMonth(now), None, now)];
      }
      SettlePayment(id, sub, admin, now);
      return None;
    }

    /** The second half of an approval: invoice, keys, audit row and notification. */
    method SettlePayment(id: Id, sub: Id, admin: Id, now: int)
      requires id < |requests| && sub < |subscriptions|
      modifies this
      ensures View() == Settle(old(View()).(keys := PaidKeys(old(View()), old(requests)[id])), id, sub, admin, now)
    {
      hide Calendar.Day, Retier;
      var request := requests[id];
      var dueDay := Calendar.Day(subscriptions[sub].periodEnd);
      invoices := invoices + [Invoice(sub, request.amount, PAID, dueDay, Some(now), Some(id))];
      if request.userId in members && request.plan in plans {
        UpdateKeys(members[request.userId], request.plan);
      }
      Log(PAYMENT_APPROVED, Some(admin), id);
      var _ := Notify(PAYMENT_APPROVED, Some(request.userId), id);
    }

    method RejectPayment(id: Id, admin: Id, reason: string, now: int) returns (failure: Option<Failure>)
      modifies this
      ensures Did(old(View()), Billing.RejectPayment(old(View()), id, admin, reason, now), View(), failure)
    {
      hide Text.Trim;
      if Text.Trim(reason) == "" {
        return Some(BadRequest("Rejection reason is required"));
      }
      if id >= |requests| {
        return Some(NotFound("Payment request"));
      }
      var request := requests[id];
      if request.status != RequestStatus.PENDING {
        return Some(BadRequest("Payment request is already decided"));
      }
      requests := requests[id := request.(status := RequestStatus.REJECTED, reviewedBy := Some(admin),
                                          reviewedAt := Some(now), rejectionReason := Some(reason))];
      if request.subscription.Some? && request.subscription.value < |subscriptions| {
        var sub := request.subscription.value;
        subscriptions := subscriptions[sub := subscriptions[sub].(status := SubscriptionStatus.REJECTED)];
      }
      Log(PAYMENT_REJECTED, Some(admin), id);
      var _ := Notify(PAYMENT_REJECTED, Some(request.userId), id);
      return None;
    }

    // ---- subscriptions, by administrators ----

    method ApproveSubscription(id: Id, admin: Id, now: int) returns (failure: Option<Failure>)
      modifies this
      ensures Did(old(View()), Billing.ApproveSubscription(old(View()), id, admin, now), View(), failure)
    {
      hide Calendar.NextMonth;
      if id >= |subscriptions| {
        return Some(NotFound("Subscription"));
      }
      var sub := subscriptions[id];
      if sub.status != SubscriptionStatus.PENDING {
        return Some(BadRequest("Subscription is already decided"));
      }
      sub := sub.(status := ACTIVE, periodStart := now, periodEnd := Calendar.NextMonth(now));
      subscriptions := subscriptions[id := sub];
      Log(SUBSCRIPTION_ACTIVATED, Some(admin), id);
      return None;
    }

    method RejectSubscription(id: Id, admin: Id) returns (failure: Option<Failure>)
      modifies this
      ensures Did(old(View()), Billing.RejectSubscription(old(View()), id, admin), View(), failure)
    {
      if id >= |subscriptions| {
        return Some(NotFound("Subscription"));
      }
      var sub := subscriptions[id];
      if sub.status != SubscriptionStatus.PENDING {
        return Some(BadRequest("Subscription is already decided"));
      }
      subscriptions := subscriptions[id := sub.(status := SubscriptionStatus.REJECTED)];
      Log(SUBSCRIPTION_CANCELLED, Some(admin), id);
      return None;
    }

    method CancelSubscription(id: Id, admin: Id, now: int) returns (failure: Option<Failure>)
      modifies this
      ensures Did(old(View()), Billing.CancelSubscription(old(View()), id, admin, now), View(), failure)
    {
      if id >= |subscriptions| {
        return Some(NotFound("Subscription"));
      }
      subscriptions := subscriptions[id := subscriptions[id].(status := CANCELLED, cancelledAt := Some(now))];
      Log(SUBSCRIPTION_CANCELLED, Some(admin), id);
      return None;
    }

    method ExpireSubscription(id: Id, admin: Id) returns (failure: Option<Failure>)
      modifies this
      ensures Did(old(View()), Billing.ExpireSubscription(old(View()), id, admin), View(), failure)
    {
      if id >= |subscriptions| {
        return Some(NotFound("Subscription"));
      }
      subscriptions := subscriptions[id := subscriptions[id].(status := EXPIRED)];
      Log(SUBSCRIPTION_EXPIRED, Some(admin), id);
      return None;
    }

    method ExtendSubscription(id: Id, days: int, admin: Id) returns (failure: Option<Failure>)
      modifies this
      ensures Did(old(View()), Billing.ExtendSubscription(old(View()), id, days, admin), View(), failure)
    {
      hide Calendar.AddDays;
      if id >= |subscriptions| {
        return Some(NotFound("Subscription"));
      }
      var sub := subscriptions[id];
      sub := sub.(periodEnd := Calendar.AddDays(sub.periodEnd, days));
      if sub.status == EXPIRED {
        sub := sub.(status := ACTIVE);
      }
      subscriptions := subscriptions[id := sub];
      Log(SUBSCRIPTION_ACTIVATED, Some(admin), id);
      return None;
    }

    method ChangeSubscriptionPlan(id: Id, code: string, admin: Id) returns (failure: Option<Failure>)
      modifies this
      ensures Did(old(View()), ChangePlan(old(View()), id, code, admin), View(), failure)
    {
      if id >= |subscriptions| {
        return Some(NotFound("Subscription"));
      }
      var plan := Upper(code);
      if plan !in plans || !plans[plan].isActive {
        return Some(NotFound("Plan"));
      }
      subscriptions := subscriptions[id := subscriptions[id].(plan := plan)];
      UpdateKeys(subscriptions[id].developer, plan);
      Log(PLAN_UPDATED, Some(admin), id);
      return None;
    }

    method OverrideSubscriptionTier(id: Id, code: Option<string>, rate: Option<int>,
        status: Option<SubscriptionStatus>, now: int)
      returns (failure: Option<Failure>)
      modifies this
      ensures Did(old(View()), OverrideTier(old(View()), id, code, rate, status, now), View(), failure)
    {
      if id >= |subscriptions| {
        return Some(NotFound("Subscription"));
      }
      var sub := subscriptions[id];
      if code.Some? && code.value != "" {
        var plan := Upper(code.value);
        if plan !in plans || !plans[plan].isActive {
          return Some(BadRequest("Plan not found"));
        }
        sub := sub.(plan := plan);
        UpdateKeys(sub.developer, plan);
      }
      if rate.Some? && sub.plan in plans {
        plans := plans[sub.plan := plans[sub.plan].(rateLimitPerHour := rate)];
      }
      if status.Some? {
        sub := sub.(status := status.value);
        if status.value == CANCELLED {
          sub := sub.(cancelledAt := Some(now));
        }
      }
      subscriptions := subscriptions[id := sub];
      return None;
    }

    method UpdateInvoiceStatus(id: Id, status: InvoiceStatus, now: int) returns (failure: Option<Failure>)
      modifies this
      ensures Did(old(View()), UpdateInvoice(old(View()), id, status, now), View(), failure)
    {
      if id >= |invoices| {
        return Some(NotFound("Invoice"));
      }
      var invoice := invoices[id].(status := status);
      if status == PAID {
        invoice := invoice.(paidAt := Some(now));
      }
      invoices := invoices[id := invoice];
      return None;
    }

    // ---- subscriptions, by their developers ----

    method Subscribe(developer: string, code: string, existing: Option<Id>, now: int) returns (failure: Option<Failure>)
      requires OneActive(subscriptions, developer, existing)
      modifies this
      ensures Did(old(View()), Billing.Subscribe(old(View()), developer, code, existing, now), View(), failure)
    {
      hide Calendar.NextMonth, Calendar.Day, OneActive;
      var planCode := Upper(code);
      if planCode !in plans || !plans[planCode].isActive {
        return Some(NotFound("Plan"));
      }
      var price := plans[planCode].price;
      var sub := |subscriptions|;
      if existing.Some? {
        assert existing.value < |subscriptions| by { Exists(subscriptions, developer, existing); }
        var previous := subscriptions[existing.value];
        subscriptions := subscriptions[existing.value := previous.(status := CANCELLED, cancelledAt := Some(now))];
      }
      var periodEnd := Calendar.NextMonth(now);
      subscriptions := subscriptions + [Subscription(developer, planCode, ACTIVE, now, periodEnd, None, now)];
      var status, paidAt := OPEN, None;
      if price == 0 {
        status, paidAt := PAID, Some(now);
      }
      invoices := invoices + [Invoice(sub, price, status, Calendar.Day(periodEnd), paidAt, None)];
      UpdateKeys(developer, planCode);
      return None;
    }

    method Cancel(developer: string, found: Option<Id>, now: int) returns (failure: Option<Failure>)
      requires OneActive(subscriptions, developer, found)
      modifies this
      ensures Did(old(View()), Billing.Cancel(old(View()), developer, found, now), View(), failure)
    {
      if found.None? {
        return Some(NotFound("Active subscription"));
      }
      subscriptions := subscriptions[found.value :=
          subscriptions[found.value].(status := CANCELLED, cancelledAt := Some(now))];
      if FREE_PLAN in plans {
        UpdateKeys(developer, FREE_PLAN);
      }
      return None;
    }

    method SeedPlatformSubscription(now: int)
      modifies this
      ensures View() == SeedPlatform(old(View()), now)
    {
      hide Calendar.NextMonth;
      if ENTERPRISE_PLAN in plans {
        if forall i :: 0 <= i < |subscriptions| ==> subscriptions[i].developer != PLATFORM {
          subscriptions := subscriptions +
            [Subscription(PLATFORM, ENTERPRISE_PLAN, ACTIVE, now, Calendar.NextMonth(now), None, now)];
        }
      }
    }

    // ---- expiry ----

    /** A request that no developer's key came with is let through unchecked. */
    method CanActivate(caller: Option<string>, found: Option<Id>, now: int) returns (failure: Option<Failure>)
      requires caller.Some? && caller.value != "" ==> LatestActive(subscriptions, caller.value, found)
      modifies this
      ensures caller.None? || caller.value == "" ==> View() == old(View()) && failure.None?
      ensures caller.Some? && caller.value != "" ==>
                && View() == Guard(old(View()), caller.value, found, now).0
                && failure == if Guard(old(View()), caller.value, found, now).1 then None else Some(Forbidden)
    {
      if caller.None? || caller.value == "" {
        return None;
      }
      if found.None? {
        return Some(Forbidden);
      }
      if now > subscriptions[found.value].periodEnd {
        subscriptions := subscriptions[found.value := subscriptions[found.value].(status := EXPIRED)];
        return Some(Forbidden);
      }
      return None;
    }

    /** The nightly job over the rows its query returned; a failed insert ends it where it stands. */
    method ExpireSubscriptions(due: seq<Id>, now: int) returns (failure: Option<Failure>)
      requires ListsDue(subscriptions, due, now)
      modifies this
      ensures View() == ExpireEach(old(View()), due)
      ensures failure == if userRequired && due != [] then Some(NullUser) else None
    {
      for i := 0 to |due|
        invariant |subscriptions| == old(|subscriptions|)
        invariant ExpireEach(View(), due[i..]) == ExpireEach(old(View()), due)
        invariant userRequired ==> i == 0
      {
        assert due[i..][0] == due[i] && due[i..][1..] == due[i + 1..];
        subscriptions := subscriptions[due[i] := subscriptions[due[i]].(status := EXPIRED)];
        var stored := Notify(SUBSCRIPTION_EXPIRED, None, due[i]);
        if !stored {
          return Some(NullUser);
        }
        Log(SUBSCRIPTION_EXPIRED, None, due[i]);
      }
      return None;
    }

    method CheckExpiredSubscriptions(now: int) returns (affected: nat)
      modifies this
      ensures View() == Step(old(View()), HourlyExpiry(now))
      ensures affected == |set i | 0 <= i < |old(subscriptions)| && Due(old(subscriptions)[i], now)|
    {
      affected := |set i | 0 <= i < |subscriptions| && Due(subscriptions[i], now)|;
      subscriptions := ExpireAll(subscriptions, now);
    }
  }

  lemma Exists(subs: seq<Subscription>, developer: string, found: Option<Id>)
    requires OneActive(subs, developer, found) && found.Some?
    ensures found.value < |subs|
  {
  }
}
