/** What an administrator's decision on a payment or a subscription does to every subscription row. */
module BillingDecisions {
  import opened Wrappers
  import opened Billing
  import Calendar
  import Text

  predicate IsDecision(e: Event) {
    e.Approved? || e.Refused? || e.CancelledByAdmin? || e.ExpiredByAdmin?
  }

  /** Approving and refusing need a pending subscription; cancelling and expiring take any. */
  predicate Allowed(s: State, e: Event)
    requires IsDecision(e)
  {
    && e.id < |s.subscriptions|
    && (e.Approved? || e.Refused? ==> s.subscriptions[e.id].status == SubscriptionStatus.PENDING)
  }

  function Verdict(e: Event): SubscriptionStatus
    requires IsDecision(e)
  {
    if e.Approved? then ACTIVE else if e.Refused? then SubscriptionStatus.REJECTED
    else if e.CancelledByAdmin? then CANCELLED else EXPIRED
  }

  function MonthFrom(at: int): int {
    at + Calendar.DaysInMonth(Calendar.Year(at), Calendar.Month(at)) * Calendar.MS_PER_DAY
  }

  /**
   * A decision gives its subscription the status, an approval also the period of one month from now and a cancellation
   * its time, and is entered in the trail once. Every other row stays, and so does everything if it is not allowed.
   */
  lemma DecisionDecides(s: State, e: Event, i: nat)
    requires IsDecision(e) && i < |s.subscriptions|
    ensures !Allowed(s, e) ==> Step(s, e) == s
    ensures Allowed(s, e) ==>
              var t, was := Step(s, e), s.subscriptions[i];
              && |t.subscriptions| == |s.subscriptions| && t.keys == s.keys && t.invoices == s.invoices
              && t.requests == s.requests && t.notifications == s.notifications
              && |t.audit| == |s.audit| + 1 && t.audit[..|s.audit|] == s.audit
              && t.audit[|s.audit|].who == Some(e.admin) && t.audit[|s.audit|].about == e.id
              && t.subscriptions[i] ==
                 if i != e.id then was
                 else if e.Approved? then was.(status := ACTIVE, periodStart := e.at, periodEnd := MonthFrom(e.at))
                 else if e.CancelledByAdmin? then was.(status := CANCELLED, cancelledAt := Some(e.at))
                 else was.(status := Verdict(e))
  {
    if e.Approved? {
      Calendar.NextMonthLength(e.at);
    }
    hide Calendar.NextMonth, Calendar.DaysInMonth, Calendar.Year, Calendar.Month;
  }

  /**
   * An override changes status and plan of its subscription as asked, a cancellation with its time, and the rate limit
   * of the plan that the subscription then has. An unknown subscription or a plan that is not offered is refused.
   */
  lemma OverrideSets(s: State, id: Id, code: Option<string>, rate: Option<int>, status: Option<SubscriptionStatus>,
                     now: int, i: nat, p: string)
    requires i < |s.subscriptions| && p in s.plans
    ensures OverrideTier(s, id, code, rate, status, now).Ok? <==>
            id < |s.subscriptions| && (code.Some? && code.value != "" ==> Offered(s, Upper(code.value)))
    ensures OverrideTier(s, id, code, rate, status, now).Ok? ==>
              var t, was := OverrideTier(s, id, code, rate, status, now).value, s.subscriptions[i];
              && |t.subscriptions| == |s.subscriptions| && t.plans.Keys == s.plans.Keys
              && t.plans[p] == (if rate.Some? && p == t.subscriptions[id].plan
                                then s.plans[p].(rateLimitPerHour := rate) else s.plans[p])
              && t.subscriptions[i] ==
                 if i != id then was
                 else was.(plan := if code.Some? && code.value != "" then Upper(code.value) else was.plan,
                           status := if status.Some? then status.value else was.status,
                           cancelledAt := if status == Some(CANCELLED) then Some(now) else was.cancelledAt)
  {
    hide Upper;
  }

  /** A new status is set on one invoice, PAID with the time; all other invoices stay. */
  lemma InvoiceSet(s: State, id: Id, status: InvoiceStatus, now: int, i: nat)
    requires i < |s.invoices|
    ensures var t := Commit(s, UpdateInvoice(s, id, status, now));
            && |t.invoices| == |s.invoices| && t.subscriptions == s.subscriptions && t.requests == s.requests
            && t.invoices[i] ==
               if i != id then s.invoices[i]
               else if status == PAID then s.invoices[i].(status := PAID, paidAt := Some(now))
               else s.invoices[i].(status := status)
  {
  }

  /** A rejected payment rejects the subscription it was for, if it names one, and touches no other and no key. */
  lemma RejectionRejects(s: State, id: Id, admin: Id, reason: string, now: int, i: nat)
    requires i < |s.subscriptions|
    ensures RejectPayment(s, id, admin, reason, now).Ok? <==>
            && Text.Trim(reason) != "" && id < |s.requests| && s.requests[id].status == RequestStatus.PENDING
    ensures RejectPayment(s, id, admin, reason, now).Ok? ==>
              var t := RejectPayment(s, id, admin, reason, now).value;
              && |t.subscriptions| == |s.subscriptions| && t.keys == s.keys && t.invoices == s.invoices
              && t.subscriptions[i] ==
                 if s.requests[id].subscription == Some(i)
                 then s.subscriptions[i].(status := SubscriptionStatus.REJECTED) else s.subscriptions[i]
  {
    hide Text.Trim;
  }
}
