/**
 * Subscriptions, invoices and payment requests, and every step that users, administrators, scheduled
 * jobs and the subscription guard take on them, as functions on the stored rows. Rows are never deleted, so
 * a row's identifier is its position. Plans are identified by their unique code; times are milliseconds.
 */
module Billing {
  import opened Wrappers
  import Calendar
  import Text

  type Id = nat

  datatype SubscriptionStatus = PENDING | ACTIVE | REJECTED | EXPIRED | CANCELLED | PAST_DUE
  datatype InvoiceStatus = DRAFT | OPEN | PAID | VOID
  datatype RequestStatus = PENDING | APPROVED | REJECTED

  datatype Plan = Plan(price: int, rateLimitPerHour: Option<int>, isActive: bool)

  datatype Subscription = Subscription(
    developer: string, plan: string, status: SubscriptionStatus,
    periodStart: int, periodEnd: int, cancelledAt: Option<int>, createdAt: int)

  /** `approves` does not exist in the table: it records which payment request an invoice was written for. */
  datatype Invoice = Invoice(
    subscription: Id, amount: int, status: InvoiceStatus, dueDay: int, paidAt: Option<int>, approves: Option<Id>)

  datatype Request = Request(
    userId: Id, subscription: Option<Id>, plan: string, amount: int, status: RequestStatus,
    reviewedBy: Option<Id>, reviewedAt: Option<int>, adminNotes: Option<string>, rejectionReason: Option<string>)

  datatype Action =
    | PAYMENT_APPROVED | PAYMENT_REJECTED
    | SUBSCRIPTION_ACTIVATED | SUBSCRIPTION_CANCELLED | SUBSCRIPTION_EXPIRED
    | PLAN_UPDATED

  /** A developer's key; its tier decides the key's hourly limit. */
  datatype ApiKey = ApiKey(developer: string, isActive: bool, tier: string)

  /** An audit row, or a notification to a user: what happened to which request or subscription. */
  datatype Entry = Entry(action: Action, who: Option<Id>, about: Id)

  datatype State = State(
    plans: map<string, Plan>, members: map<Id, string>,
    subscriptions: seq<Subscription>, invoices: seq<Invoice>, requests: seq<Request>,
    audit: seq<Entry>, notifications: seq<Entry>, keys: seq<ApiKey>,
    userRequired: bool)

  datatype Failure = NotFound(what: string) | BadRequest(message: string) | Forbidden | NullUser

  const FREE_PLAN := "FREE"
  const ENTERPRISE_PLAN := "ENTERPRISE"
  const PLATFORM := "kigalipack-platform"

  function Initial(userRequired: bool): State {
    State(map[], map[], [], [], [], [], [], [], userRequired)
  }

  /** `toUpperCase` on the letters that plan codes are made of. */
  function Upper(s: string): string {
    seq(|s|, i requires 0 <= i < |s| => if 'a' <= s[i] <= 'z' then s[i] - 32 as char else s[i])
  }

  /** All active keys of the developer get the tier. */
  function Retier(keys: seq<ApiKey>, developer: string, tier: string): seq<ApiKey> {
    seq(|keys|, i requires 0 <= i < |keys| =>
      if keys[i].developer == developer && keys[i].isActive then keys[i].(tier := tier) else keys[i])
  }

  predicate Offered(s: State, code: string) {
    code in s.plans && s.plans[code].isActive
  }

  // ---- payments ----

  function Review(r: Request, status: RequestStatus, admin: Id, now: int): Request {
    r.(status := status, reviewedBy := Some(admin), reviewedAt := Some(now))
  }

  function Activate(sub: Subscription, now: int): Subscription {
    sub.(status := ACTIVE, periodStart := now, periodEnd := Calendar.NextMonth(now))
  }

  function NewSubscription(developer: string, plan: string, status: SubscriptionStatus, now: int): Subscription {
    Subscription(developer, plan, status, now, Calendar.NextMonth(now), None, now)
  }

  /** The paid invoice, audit row and notification that complete an approval. */
  function Settle(s: State, id: Id, sub: Id, admin: Id, now: int): State
    requires id < |s.requests| && sub < |s.subscriptions|
  {
    var r := s.requests[id];
    var dueDay := Calendar.Day(s.subscriptions[sub].periodEnd);
    s.(invoices := s.invoices + [Invoice(sub, r.amount, PAID, dueDay, Some(now), Some(id))],
       audit := s.audit + [Entry(PAYMENT_APPROVED, Some(admin), id)],
       notifications := s.notifications + [Entry(PAYMENT_APPROVED, Some(r.userId), id)])
  }

  /** The subscription row that an approval activates, if the request names one. */
  function Named(s: State, r: Request): Option<Id> {
    if r.subscription.Some? && r.subscription.value < |s.subscriptions| then r.subscription else None
  }

  /** The keys after a request is paid: those of the payer's organization get the plan's tier, if both are known. */
  function PaidKeys(s: State, r: Request): seq<ApiKey> {
    if r.userId in s.members && r.plan in s.plans then Retier(s.keys, s.members[r.userId], r.plan) else s.keys
  }

  function ApprovePayment(s: State, id: Id, admin: Id, notes: Option<string>, now: int): Result<State, Failure> {
    if id >= |s.requests| then Err(NotFound("Payment request")) else
    var r := s.requests[id];
    if r.status != RequestStatus.PENDING then Err(BadRequest("Payment request is already decided")) else
    var s1 := s.(requests := s.requests[id := Review(r, APPROVED, admin, now).(adminNotes := notes)],
                 keys := PaidKeys(s, r));
    if Named(s, r).Some? then
      var sub := r.subscription.value;
      Ok(Settle(s1.(subscriptions := s.subscriptions[sub := Activate(s.subscriptions[sub], now)]), id, sub, admin, now))
    else if r.plan !in s.plans then Err(NotFound("Plan"))
    else if r.userId !in s.members then Err(NotFound("User"))
    else
      var created := NewSubscription(s.members[r.userId], r.plan, ACTIVE, now);
      Ok(Settle(s1.(subscriptions := s.subscriptions + [created]), id, |s.subscriptions|, admin, now))
  }

  function RejectPayment(s: State, id: Id, admin: Id, reason: string, now: int): Result<State, Failure> {
    if Text.Trim(reason) == "" then Err(BadRequest("Rejection reason is required"))
    else if id >= |s.requests| then Err(NotFound("Payment request")) else
    var r := s.requests[id];
    if r.status != RequestStatus.PENDING then Err(BadRequest("Payment request is already decided")) else
    var subscriptions :=
      if Named(s, r).Some? then
        var sub := r.subscription.value;
        s.subscriptions[sub := s.subscriptions[sub].(status := SubscriptionStatus.REJECTED)]
      else s.subscriptions;
    Ok(s.(requests := s.requests[id := Review(r, RequestStatus.REJECTED, admin, now).(rejectionReason := Some(reason))],
          subscriptions := subscriptions,
          audit := s.audit + [Entry(PAYMENT_REJECTED, Some(admin), id)],
          notifications := s.notifications + [Entry(PAYMENT_REJECTED, Some(r.userId), id)]))
  }

  // ---- subscriptions, by administrators ----

  /** A subscription row is replaced and the administrator's action recorded. */
  function Amend(s: State, id: Id, sub: Subscription, action: Action, admin: Id): State
    requires id < |s.subscriptions|
  {
    s.(subscriptions := s.subscriptions[id := sub], audit := s.audit + [Entry(action, Some(admin), id)])
  }

  function ApproveSubscription(s: State, id: Id, admin: Id, now: int): Result<State, Failure> {
    if id >= |s.subscriptions| then Err(NotFound("Subscription"))
    else if s.subscriptions[id].status != SubscriptionStatus.PENDING then
      Err(BadRequest("Subscription is already decided"))
    else Ok(Amend(s, id, Activate(s.subscriptions[id], now), SUBSCRIPTION_ACTIVATED, admin))
  }

  function RejectSubscription(s: State, id: Id, admin: Id): Result<State, Failure> {
    if id >= |s.subscriptions| then Err(NotFound("Subscription"))
    else if s.subscriptions[id].status != SubscriptionStatus.PENDING then
      Err(BadRequest("Subscription is already decided"))
    else Ok(Amend(s, id, s.subscriptions[id].(status := SubscriptionStatus.REJECTED), SUBSCRIPTION_CANCELLED, admin))
  }

  function CancelSubscription(s: State, id: Id, admin: Id, now: int): Result<State, Failure> {
    if id >= |s.subscriptions| then Err(NotFound("Subscription"))
    else Ok(Amend(s, id, Cancelled(s.subscriptions[id], now), SUBSCRIPTION_CANCELLED, admin))
  }

  function ExpireSubscription(s: State, id: Id, admin: Id): Result<State, Failure> {
    if id >= |s.subscriptions| then Err(NotFound("Subscription"))
    else Ok(Amend(s, id, s.subscriptions[id].(status := EXPIRED), SUBSCRIPTION_EXPIRED, admin))
  }

  function Extended(sub: Subscription, days: int): Subscription {
    sub.(periodEnd := Calendar.AddDays(sub.periodEnd, days),
         status := if sub.status == EXPIRED then ACTIVE else sub.status)
  }

  function ExtendSubscription(s: State, id: Id, days: int, admin: Id): Result<State, Failure> {
    if id >= |s.subscriptions| then Err(NotFound("Subscription"))
    else Ok(Amend(s, id, Extended(s.subscriptions[id], days), SUBSCRIPTION_ACTIVATED, admin))
  }

  function ChangePlan(s: State, id: Id, code: string, admin: Id): Result<State, Failure> {
    if id >= |s.subscriptions| then Err(NotFound("Subscription"))
    else if !Offered(s, Upper(code)) then Err(NotFound("Plan"))
    else Ok(Amend(s.(keys := Retier(s.keys, s.subscriptions[id].developer, Upper(code))),
                  id, s.subscriptions[id].(plan := Upper(code)), PLAN_UPDATED, admin))
  }

  function Overridden(sub: Subscription, status: SubscriptionStatus, now: int): Subscription {
    sub.(status := status, cancelledAt := if status == CANCELLED then Some(now) else sub.cancelledAt)
  }

  /** A new rate limit is written to the plan, and so applies to every subscription of that plan. */
  function OverrideTier(s: State, id: Id, code: Option<string>, rate: Option<int>, status: Option<SubscriptionStatus>,
                        now: int): Result<State, Failure> {
    if id >= |s.subscriptions| then Err(NotFound("Subscription")) else
    var replan := code.Some? && code.value != "";
    if replan && !Offered(s, Upper(code.value)) then Err(BadRequest("Plan not found")) else
    var sub0 := s.subscriptions[id];
    var sub1 := if replan then sub0.(plan := Upper(code.value)) else sub0;
    var plans :=
      if rate.Some? && sub1.plan in s.plans then s.plans[sub1.plan := s.plans[sub1.plan].(rateLimitPerHour := rate)]
      else s.plans;
    var sub2 := if status.Some? then Overridden(sub1, status.value, now) else sub1;
    var keys := if replan then Retier(s.keys, sub0.developer, Upper(code.value)) else s.keys;
    Ok(s.(plans := plans, keys := keys, subscriptions := s.subscriptions[id := sub2]))
  }

  function UpdateInvoice(s: State, id: Id, status: InvoiceStatus, now: int): Result<State, Failure> {
    if id >= |s.invoices| then Err(NotFound("Invoice"))
    else Ok(s.(invoices := s.invoices[id := s.invoices[id].(
           status := status, paidAt := if status == PAID then Some(now) else s.invoices[id].paidAt)]))
  }

  // ---- subscriptions, by their developers ----

  predicate ActiveOf(subs: seq<Subscription>, developer: string, i: Id) {
    i < |subs| && subs[i].developer == developer && subs[i].status == ACTIVE
  }

  /** What a query for one ACTIVE row of the developer may return: any such row, nothing only if there is none. */
  predicate OneActive(subs: seq<Subscription>, developer: string, found: Option<Id>) {
    if found.Some? then ActiveOf(subs, developer, found.value)
    else forall i :: 0 <= i < |subs| ==> !ActiveOf(subs, developer, i)
  }

  /** The same query ordered by creation time, latest first. */
  predicate LatestActive(subs: seq<Subscription>, developer: string, found: Option<Id>) {
    && OneActive(subs, developer, found)
    && (found.Some? ==> forall i :: 0 <= i < |subs| && ActiveOf(subs, developer, i) ==>
          subs[i].createdAt <= subs[found.value].createdAt)
  }

  function Cancelled(sub: Subscription, now: int): Subscription {
    sub.(status := CANCELLED, cancelledAt := Some(now))
  }

  function Subscribe(s: State, developer: string, code: string, found: Option<Id>, now: int): Result<State, Failure>
    requires OneActive(s.subscriptions, developer, found)
  {
    if !Offered(s, Upper(code)) then Err(NotFound("Plan")) else
    var price := s.plans[Upper(code)].price;
    var kept :=
      if found.Some? then s.subscriptions[found.value := Cancelled(s.subscriptions[found.value], now)]
      else s.subscriptions;
    var created := NewSubscription(developer, Upper(code), ACTIVE, now);
    Ok(s.(subscriptions := kept + [created], keys := Retier(s.keys, developer, Upper(code)),
          invoices := s.invoices + [
            Invoice(|s.subscriptions|, price, if price == 0 then PAID else OPEN, Calendar.Day(created.periodEnd),
                    if price == 0 then Some(now) else None, None)]))
  }

  function Cancel(s: State, developer: string, found: Option<Id>, now: int): Result<State, Failure>
    requires OneActive(s.subscriptions, developer, found)
  {
    if found.None? then Err(NotFound("Active subscription"))
    else Ok(s.(subscriptions := s.subscriptions[found.value := Cancelled(s.subscriptions[found.value], now)],
               keys := if FREE_PLAN in s.plans then Retier(s.keys, developer, FREE_PLAN) else s.keys))
  }

  /** The administrator seed gives the platform a subscription of its own, unless it has one of any status. */
  function SeedPlatform(s: State, now: int): State {
    if ENTERPRISE_PLAN in s.plans && forall i :: 0 <= i < |s.subscriptions| ==> s.subscriptions[i].developer != PLATFORM
    then s.(subscriptions := s.subscriptions + [NewSubscription(PLATFORM, ENTERPRISE_PLAN, ACTIVE, now)])
    else s
  }

  // ---- expiry ----

  predicate Due(sub: Subscription, now: int) {
    sub.status == ACTIVE && sub.periodEnd < now
  }

  function Expired(sub: Subscription): Subscription {
    sub.(status := EXPIRED)
  }

  /** The guard's side effect and its verdict for a request of the developer. */
  function Guard(s: State, developer: string, found: Option<Id>, now: int): (State, bool)
    requires LatestActive(s.subscriptions, developer, found)
  {
    if found.None? then (s, false)
    else if now > s.subscriptions[found.value].periodEnd then
      (s.(subscriptions := s.subscriptions[found.value := Expired(s.subscriptions[found.value])]), false)
    else (s, true)
  }

  /** The hourly job: one bulk update. */
  function ExpireAll(subs: seq<Subscription>, now: int): (r: seq<Subscription>)
  {
    seq(|subs|, i requires 0 <= i < |subs| => if Due(subs[i], now) then Expired(subs[i]) else subs[i])
  }

  /** What the nightly job's query may return: the due rows, each once, in any order. */
  predicate ListsDue(subs: seq<Subscription>, due: seq<Id>, now: int) {
    && (forall k :: 0 <= k < |due| ==> due[k] < |subs| && Due(subs[due[k]], now))
    && (forall j, k :: 0 <= j < k < |due| ==> due[j] != due[k])
    && (forall i :: 0 <= i < |subs| && Due(subs[i], now) ==> i in due)
  }

  /** One row of the nightly job: update, then a notification without a user, then an audit row. */
  function ExpireOne(s: State, id: Id): State
    requires id < |s.subscriptions|
  {
    s.(subscriptions := s.subscriptions[id := Expired(s.subscriptions[id])],
       notifications := s.notifications + [Entry(SUBSCRIPTION_EXPIRED, None, id)],
       audit := s.audit + [Entry(SUBSCRIPTION_EXPIRED, None, id)])
  }

  /**
   * The nightly job, which runs outside a transaction. Where the notifications table requires a user, the
   * first insert fails and ends the run after the first row's update.
   */
  function ExpireEach(s: State, due: seq<Id>): State
    requires forall k :: 0 <= k < |due| ==> due[k] < |s.subscriptions|
    decreases |due|
  {
    if due == [] then s
    else if s.userRequired then s.(subscriptions := s.subscriptions[due[0] := Expired(s.subscriptions[due[0]])])
    else ExpireEach(ExpireOne(s, due[0]), due[1..])
  }

  // ---- runs ----

  datatype Event =
    | Catalogue(plans: map<string, Plan>, members: map<Id, string>, keys: seq<ApiKey>)
    | PlatformSeeded(at: int)
    | SubmitPayment(userId: Id, subscription: Option<Id>, plan: string, amount: int)
    | SubmitSubscription(developer: string, plan: string, at: int)
    | PaymentApproved(request: Id, admin: Id, notes: Option<string>, at: int)
    | PaymentRejected(request: Id, admin: Id, reason: string, at: int)
    | Approved(id: Id, admin: Id, at: int)
    | Refused(id: Id, admin: Id)
    | CancelledByAdmin(id: Id, admin: Id, at: int)
    | ExpiredByAdmin(id: Id, admin: Id)
    | ExtendedByAdmin(id: Id, days: int, admin: Id)
    | PlanChanged(id: Id, code: string, admin: Id)
    | TierOverridden(id: Id, newCode: Option<string>, rate: Option<int>, status: Option<SubscriptionStatus>, at: int)
    | InvoiceUpdated(invoice: Id, invoiceStatus: InvoiceStatus, at: int)
    | Subscribed(developer: string, code: string, found: Option<Id>, at: int)
    | CancelledByUser(developer: string, found: Option<Id>, at: int)
    | Guarded(developer: string, found: Option<Id>, at: int)
    | NightlyExpiry(due: seq<Id>, at: int)
    | HourlyExpiry(at: int)

  /** A request that a user submits waits for review; a foreign key ties it to its subscription. */
  function Submit(s: State, userId: Id, subscription: Option<Id>, plan: string, amount: int): State {
    if subscription.Some? && subscription.value >= |s.subscriptions| then s
    else s.(requests := s.requests + [
           Request(userId, subscription, plan, amount, RequestStatus.PENDING, None, None, None, None)])
  }

  /** An operation that throws leaves the state as it was. */
  function Commit(s: State, r: Result<State, Failure>): State {
    if r.Ok? then r.value else s
  }

  /** One event. An event that claims an impossible query result does not happen. */
  function Step(s: State, e: Event): State {
    match e
    case Catalogue(plans, members, keys) => s.(plans := plans, members := members, keys := keys)
    case PlatformSeeded(at) => SeedPlatform(s, at)
    case SubmitPayment(userId, subscription, plan, amount) => Submit(s, userId, subscription, plan, amount)
    case SubmitSubscription(developer, plan, at) =>
      s.(subscriptions := s.subscriptions + [NewSubscription(developer, plan, SubscriptionStatus.PENDING, at)])
    case PaymentApproved(id, admin, notes, at) => Commit(s, ApprovePayment(s, id, admin, notes, at))
    case PaymentRejected(id, admin, reason, at) => Commit(s, RejectPayment(s, id, admin, reason, at))
    case Approved(id, admin, at) => Commit(s, ApproveSubscription(s, id, admin, at))
    case Refused(id, admin) => Commit(s, RejectSubscription(s, id, admin))
    case CancelledByAdmin(id, admin, at) => Commit(s, CancelSubscription(s, id, admin, at))
    case ExpiredByAdmin(id, admin) => Commit(s, ExpireSubscription(s, id, admin))
    case ExtendedByAdmin(id, days, admin) => Commit(s, ExtendSubscription(s, id, days, admin))
    case PlanChanged(id, code, admin) => Commit(s, ChangePlan(s, id, code, admin))
    case TierOverridden(id, code, rate, status, at) => Commit(s, OverrideTier(s, id, code, rate, status, at))
    case InvoiceUpdated(id, status, at) => Commit(s, UpdateInvoice(s, id, status, at))
    case Subscribed(developer, code, found, at) =>
      if OneActive(s.subscriptions, developer, found) then Commit(s, Subscribe(s, developer, code, found, at)) else s
    case CancelledByUser(developer, found, at) =>
      if OneActive(s.subscriptions, developer, found) then Commit(s, Cancel(s, developer, found, at)) else s
    case Guarded(developer, found, at) =>
      if LatestActive(s.subscriptions, developer, found) then Guard(s, developer, found, at).0 else s
    case NightlyExpiry(due, at) =>
      if ListsDue(s.subscriptions, due, at) then ExpireEach(s, due) else s
    case HourlyExpiry(at) => s.(subscriptions := ExpireAll(s.subscriptions, at))
  }

  function Run(s: State, es: seq<Event>): State
    decreases |es|
  {
    if es == [] then s else Step(Run(s, es[..|es| - 1]), es[|es| - 1])
  }
}
