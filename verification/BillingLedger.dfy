/** Conservation of payments: approvals, the invoices they write, and the trail they leave agree in every run. */
module BillingLedger {
  import opened Wrappers
  import opened Sequences
  import opened Billing
  import Calendar
  import Text

  // ---- what the tables record ----

  /** The payment requests that invoices were written for, in the order they were written. */
  function Tags(invoices: seq<Invoice>): seq<Id>
    decreases |invoices|
  {
    if invoices == [] then [] else
    var last := invoices[|invoices| - 1];
    Tags(invoices[..|invoices| - 1]) + if last.approves.Some? then [last.approves.value] else []
  }

  /** The money on those invoices. */
  function Invoiced(invoices: seq<Invoice>): int
    decreases |invoices|
  {
    if invoices == [] then 0 else
    var last := invoices[|invoices| - 1];
    Invoiced(invoices[..|invoices| - 1]) + if last.approves.Some? then last.amount else 0
  }

  /** What the entries of one kind are about, in order. */
  function About(entries: seq<Entry>, action: Action): seq<Id>
    decreases |entries|
  {
    if entries == [] then [] else
    var last := entries[|entries| - 1];
    About(entries[..|entries| - 1], action) + if last.action == action then [last.about] else []
  }

  function Worth(r: Request): int {
    if r.status == APPROVED then r.amount else 0
  }

  /** The money on approved requests. */
  function ApprovedTotal(requests: seq<Request>): int
    decreases |requests|
  {
    if requests == [] then 0 else ApprovedTotal(requests[..|requests| - 1]) + Worth(requests[|requests| - 1])
  }

  /** The requests with one status, in order. */
  function Having(requests: seq<Request>, status: RequestStatus): seq<Id>
    decreases |requests|
  {
    if requests == [] then [] else
    var n := |requests| - 1;
    Having(requests[..n], status) + if requests[n].status == status then [n] else []
  }

  // ---- the invariant ----

  /** The list names exactly the requests with this status, each once. */
  ghost predicate Lists(ids: seq<Id>, requests: seq<Request>, status: RequestStatus) {
    && NoDup(ids)
    && (forall id :: id in ids ==> id < |requests| && requests[id].status == status)
    && (forall id :: 0 <= id < |requests| && requests[id].status == status ==> id in ids)
  }

  /** An approval's invoice charges what the request offered, to a subscription that exists. */
  ghost predicate Charged(s: State) {
    forall i :: 0 <= i < |s.invoices| && s.invoices[i].approves.Some? ==>
      && s.invoices[i].approves.value < |s.requests|
      && s.invoices[i].amount == s.requests[s.invoices[i].approves.value].amount
      && s.invoices[i].subscription < |s.subscriptions|
  }

  ghost predicate Ledger(s: State) {
    && Tags(s.invoices) == About(s.audit, PAYMENT_APPROVED) == About(s.notifications, PAYMENT_APPROVED)
    && About(s.audit, PAYMENT_REJECTED) == About(s.notifications, PAYMENT_REJECTED)
    && Lists(Tags(s.invoices), s.requests, APPROVED)
    && Lists(About(s.audit, PAYMENT_REJECTED), s.requests, RequestStatus.REJECTED)
    && Charged(s)
    && Invoiced(s.invoices) == ApprovedTotal(s.requests)
  }

  // ---- how the records grow ----

  lemma InvoiceAppended(invoices: seq<Invoice>, last: Invoice)
    ensures Tags(invoices + [last]) == Tags(invoices) + if last.approves.Some? then [last.approves.value] else []
    ensures Invoiced(invoices + [last]) == Invoiced(invoices) + if last.approves.Some? then last.amount else 0
  {
    assert (invoices + [last])[..|invoices|] == invoices;
  }

  lemma EntryAppended(entries: seq<Entry>, last: Entry, action: Action)
    ensures About(entries + [last], action) ==
            About(entries, action) + if last.action == action then [last.about] else []
  {
    assert (entries + [last])[..|entries|] == entries;
  }

  lemma {:induction false} InvoiceReplaced(invoices: seq<Invoice>, i: nat, row: Invoice)
    requires i < |invoices| && row.approves == invoices[i].approves && row.amount == invoices[i].amount
    ensures Tags(invoices[i := row]) == Tags(invoices) && Invoiced(invoices[i := row]) == Invoiced(invoices)
    decreases |invoices|
  {
    var n := |invoices| - 1;
    if i < n {
      InvoiceReplaced(invoices[..n], i, row);
      assert invoices[i := row][..n] == invoices[..n][i := row];
    } else {
      assert invoices[i := row][..n] == invoices[..n];
    }
  }

  lemma {:induction false} RequestReplaced(requests: seq<Request>, i: nat, row: Request)
    requires i < |requests|
    ensures ApprovedTotal(requests[i := row]) == ApprovedTotal(requests) - Worth(requests[i]) + Worth(row)
    decreases |requests|
  {
    var n := |requests| - 1;
    if i < n {
      RequestReplaced(requests[..n], i, row);
      assert requests[i := row][..n] == requests[..n][i := row];
    } else {
      assert requests[i := row][..n] == requests[..n];
    }
  }

  lemma RequestAppended(requests: seq<Request>, last: Request)
    ensures ApprovedTotal(requests + [last]) == ApprovedTotal(requests) + Worth(last)
  {
    assert (requests + [last])[..|requests|] == requests;
  }

  /** Deciding a pending request adds it to the list of its new status and to no other. */
  lemma Decide(ids: seq<Id>, requests: seq<Request>, status: RequestStatus, id: Id, r: Request)
    requires Lists(ids, requests, status) && id < |requests| && requests[id].status != status
    ensures r.status == status ==> Lists(ids + [id], requests[id := r], status)
    ensures r.status != status ==> Lists(ids, requests[id := r], status)
  {
    assert id !in ids;
  }

  lemma Receive(ids: seq<Id>, requests: seq<Request>, status: RequestStatus, r: Request)
    requires Lists(ids, requests, status) && r.status != status
    ensures Lists(ids, requests + [r], status)
  {
  }

  // ---- steps ----

  /** What an approval adds to the records. */
  lemma SettleRecords(t: State, id: Id, sub: Id, admin: Id, now: int)
    requires id < |t.requests| && sub < |t.subscriptions|
    ensures var u := Settle(t, id, sub, admin, now);
            && Tags(u.invoices) == Tags(t.invoices) + [id]
            && Invoiced(u.invoices) == Invoiced(t.invoices) + t.requests[id].amount
            && About(u.audit, PAYMENT_APPROVED) == About(t.audit, PAYMENT_APPROVED) + [id]
            && About(u.notifications, PAYMENT_APPROVED) == About(t.notifications, PAYMENT_APPROVED) + [id]
            && About(u.audit, PAYMENT_REJECTED) == About(t.audit, PAYMENT_REJECTED)
            && About(u.notifications, PAYMENT_REJECTED) == About(t.notifications, PAYMENT_REJECTED)
  {
    hide Calendar.Day, Tags, About, Invoiced;
    var u := Settle(t, id, sub, admin, now);
    var invoice, entry, note := u.invoices[|t.invoices|], u.audit[|t.audit|], u.notifications[|t.notifications|];
    InvoiceAppended(t.invoices, invoice);
    EntryAppended(t.audit, entry, PAYMENT_APPROVED);
    EntryAppended(t.audit, entry, PAYMENT_REJECTED);
    EntryAppended(t.notifications, note, PAYMENT_APPROVED);
    EntryAppended(t.notifications, note, PAYMENT_REJECTED);
  }

  lemma SettleCharges(s: State, t: State, id: Id, sub: Id, admin: Id, now: int)
    requires Charged(s) && id < |s.requests| && |t.requests| == |s.requests|
    requires forall k :: 0 <= k < |s.requests| ==> t.requests[k].amount == s.requests[k].amount
    requires sub < |t.subscriptions| && |s.subscriptions| <= |t.subscriptions| && t.invoices == s.invoices
    ensures Charged(Settle(t, id, sub, admin, now))
  {
    hide Calendar.Day;
  }

  lemma Settled(s: State, t: State, id: Id, sub: Id, r: Request, admin: Id, now: int)
    requires Ledger(s) && id < |s.requests| && s.requests[id].status == RequestStatus.PENDING
    requires r.status == APPROVED && r.amount == s.requests[id].amount
    requires sub < |t.subscriptions| && |s.subscriptions| <= |t.subscriptions|
    requires t.requests == s.requests[id := r] && t.invoices == s.invoices && t.audit == s.audit
             && t.notifications == s.notifications
    ensures Ledger(Settle(t, id, sub, admin, now))
  {
    hide Tags, About, Invoiced, ApprovedTotal, Lists, Charged, Calendar.Day;
    SettleRecords(t, id, sub, admin, now);
    SettleCharges(s, t, id, sub, admin, now);
    Decide(Tags(s.invoices), s.requests, APPROVED, id, r);
    Decide(About(s.audit, PAYMENT_REJECTED), s.requests, RequestStatus.REJECTED, id, r);
    RequestReplaced(s.requests, id, r);
    SettleKeepsRequests(t, id, sub, admin, now);
    hide Settle;
  }

  lemma SettleKeepsRequests(t: State, id: Id, sub: Id, admin: Id, now: int)
    requires id < |t.requests| && sub < |t.subscriptions|
    ensures Settle(t, id, sub, admin, now).requests == t.requests
  {
  }

  lemma ApproveKeepsLedger(s: State, id: Id, admin: Id, notes: Option<string>, now: int)
    requires Ledger(s) && ApprovePayment(s, id, admin, notes, now).Ok?
    ensures Ledger(ApprovePayment(s, id, admin, notes, now).value)
  {
    hide Ledger, Settle, Calendar.NextMonth;
    var r := s.requests[id];
    var r1 := Review(r, APPROVED, admin, now).(adminNotes := notes);
    var s1 := s.(requests := s.requests[id := r1], keys := PaidKeys(s, r));
    if Named(s, r).Some? {
      var sub := r.subscription.value;
      var subs := s.subscriptions[sub := Activate(s.subscriptions[sub], now)];
      Settled(s, s1.(subscriptions := subs), id, sub, r1, admin, now);
    } else {
      var created := NewSubscription(s.members[r.userId], r.plan, ACTIVE, now);
      Settled(s, s1.(subscriptions := s.subscriptions + [created]), id, |s.subscriptions|, r1, admin, now);
    }
  }

  /** What a rejection adds to the records. */
  lemma RejectRecords(s: State, id: Id, admin: Id, reason: string, now: int)
    requires RejectPayment(s, id, admin, reason, now).Ok?
    ensures var t := RejectPayment(s, id, admin, reason, now).value;
            && t.invoices == s.invoices && |t.subscriptions| == |s.subscriptions| && id < |s.requests|
            && s.requests[id].status == RequestStatus.PENDING
            && |t.requests| == |s.requests| && t.requests == s.requests[id := t.requests[id]]
            && t.requests[id].status == RequestStatus.REJECTED && t.requests[id].amount == s.requests[id].amount
            && About(t.audit, PAYMENT_APPROVED) == About(s.audit, PAYMENT_APPROVED)
            && About(t.notifications, PAYMENT_APPROVED) == About(s.notifications, PAYMENT_APPROVED)
            && About(t.audit, PAYMENT_REJECTED) == About(s.audit, PAYMENT_REJECTED) + [id]
            && About(t.notifications, PAYMENT_REJECTED) == About(s.notifications, PAYMENT_REJECTED) + [id]
  {
    hide About, Text.Trim;
    var t := RejectPayment(s, id, admin, reason, now).value;
    var entry, note := t.audit[|s.audit|], t.notifications[|s.notifications|];
    EntryAppended(s.audit, entry, PAYMENT_APPROVED);
    EntryAppended(s.audit, entry, PAYMENT_REJECTED);
    EntryAppended(s.notifications, note, PAYMENT_APPROVED);
    EntryAppended(s.notifications, note, PAYMENT_REJECTED);
  }

  lemma RejectKeepsLedger(s: State, id: Id, admin: Id, reason: string, now: int)
    requires Ledger(s) && RejectPayment(s, id, admin, reason, now).Ok?
    ensures Ledger(RejectPayment(s, id, admin, reason, now).value)
  {
    var t := RejectPayment(s, id, admin, reason, now).value;
    RejectRecords(s, id, admin, reason, now);
    ChargedFrame(s, t);
    hide RejectPayment, Tags, About, Invoiced, ApprovedTotal, Lists, Charged;
    var r := t.requests[id];
    Decide(Tags(s.invoices), s.requests, APPROVED, id, r);
    Decide(About(s.audit, PAYMENT_REJECTED), s.requests, RequestStatus.REJECTED, id, r);
    RequestReplaced(s.requests, id, r);
  }

  lemma ChargedFrame(s: State, t: State)
    requires Charged(s) && t.invoices == s.invoices
    requires |s.requests| <= |t.requests| && |s.subscriptions| <= |t.subscriptions|
    requires forall k :: 0 <= k < |s.requests| ==> t.requests[k].amount == s.requests[k].amount
    ensures Charged(t)
  {
  }

  lemma SubmitKeepsLedger(s: State, userId: Id, subscription: Option<Id>, plan: string, amount: int)
    requires Ledger(s)
    ensures Ledger(Submit(s, userId, subscription, plan, amount))
  {
    var t := Submit(s, userId, subscription, plan, amount);
    if t != s {
      ChargedFrame(s, t);
      hide Tags, About, Invoiced, ApprovedTotal, Lists, Charged;
      RequestAppended(s.requests, t.requests[|s.requests|]);
      Receive(Tags(s.invoices), s.requests, APPROVED, t.requests[|s.requests|]);
      Receive(About(s.audit, PAYMENT_REJECTED), s.requests, RequestStatus.REJECTED, t.requests[|s.requests|]);
    }
  }

  predicate Payment(a: Action) {
    a == PAYMENT_APPROVED || a == PAYMENT_REJECTED
  }

  /** A step that writes at most an unrelated audit row and an unrelated invoice row. */
  lemma QuietKeepsLedger(s: State, t: State)
    requires Ledger(s) && t.requests == s.requests && |s.subscriptions| <= |t.subscriptions|
    requires Tags(t.invoices) == Tags(s.invoices) && Invoiced(t.invoices) == Invoiced(s.invoices)
    requires Charged(t)
    requires forall a :: Payment(a) ==>
               About(t.audit, a) == About(s.audit, a) && About(t.notifications, a) == About(s.notifications, a)
    ensures Ledger(t)
  {
    assert Payment(PAYMENT_APPROVED) && Payment(PAYMENT_REJECTED);
  }

  lemma AmendKeepsLedger(s: State, id: Id, sub: Subscription, action: Action, admin: Id)
    requires Ledger(s) && id < |s.subscriptions| && !Payment(action)
    ensures Ledger(Amend(s, id, sub, action, admin))
  {
    EntryAppended(s.audit, Entry(action, Some(admin), id), PAYMENT_APPROVED);
    EntryAppended(s.audit, Entry(action, Some(admin), id), PAYMENT_REJECTED);
    hide Tags, About, Invoiced, ApprovedTotal, Lists;
    QuietKeepsLedger(s, Amend(s, id, sub, action, admin));
  }

  lemma InvoiceStepKeepsLedger(s: State, id: Id, status: InvoiceStatus, now: int)
    requires Ledger(s) && id < |s.invoices|
    ensures Ledger(UpdateInvoice(s, id, status, now).value)
  {
    var t := UpdateInvoice(s, id, status, now).value;
    InvoiceReplaced(s.invoices, id, t.invoices[id]);
    hide Tags, About, Invoiced, ApprovedTotal, Lists;
    QuietKeepsLedger(s, t);
  }

  lemma SubscribeKeepsLedger(s: State, developer: string, code: string, found: Option<Id>, now: int)
    requires Ledger(s) && OneActive(s.subscriptions, developer, found)
    requires Subscribe(s, developer, code, found, now).Ok?
    ensures Ledger(Subscribe(s, developer, code, found, now).value)
  {
    hide Tags, About, Invoiced, ApprovedTotal, Lists, Upper, Calendar.NextMonth, Calendar.Day;
    var t := Subscribe(s, developer, code, found, now).value;
    InvoiceAppended(s.invoices, t.invoices[|s.invoices|]);
    assert Charged(t);
    hide Subscribe;
    QuietKeepsLedger(s, t);
  }

  lemma {:induction false} NightlyKeepsLedger(s: State, due: seq<Id>)
    requires Ledger(s) && forall k :: 0 <= k < |due| ==> due[k] < |s.subscriptions|
    ensures Ledger(ExpireEach(s, due))
    decreases |due|
  {
    if due != [] && !s.userRequired {
      var t := ExpireOne(s, due[0]);
      var entry := Entry(SUBSCRIPTION_EXPIRED, None, due[0]);
      forall a | Payment(a)
        ensures About(t.audit, a) == About(s.audit, a) && About(t.notifications, a) == About(s.notifications, a)
      {
        EntryAppended(s.audit, entry, a);
        EntryAppended(s.notifications, entry, a);
      }
      assert Ledger(t) by {
        QuietKeepsLedger(s, t);
      }
      NightlyKeepsLedger(t, due[1..]);
    }
  }

  lemma StepKeepsLedger(s: State, e: Event)
    requires Ledger(s)
    ensures Ledger(Step(s, e))
  {
    hide Tags, About, Invoiced, ApprovedTotal, Lists, Calendar.NextMonth, Calendar.Day, Calendar.AddDays,
         ApprovePayment, RejectPayment, Submit, Subscribe, ExpireEach, UpdateInvoice, Amend;
    match e
    case SubmitPayment(userId, subscription, plan, amount) => SubmitKeepsLedger(s, userId, subscription, plan, amount);
    case PaymentApproved(id, admin, notes, at) =>
      if ApprovePayment(s, id, admin, notes, at).Ok? {
        ApproveKeepsLedger(s, id, admin, notes, at);
      }
    case PaymentRejected(id, admin, reason, at) =>
      if RejectPayment(s, id, admin, reason, at).Ok? {
        RejectKeepsLedger(s, id, admin, reason, at);
      }
    case InvoiceUpdated(id, status, at) => InvoiceStep(s, id, status, at);
    case Subscribed(developer, code, found, at) =>
      if OneActive(s.subscriptions, developer, found) && Subscribe(s, developer, code, found, at).Ok? {
        SubscribeKeepsLedger(s, developer, code, found, at);
      }
    case NightlyExpiry(due, at) =>
      if ListsDue(s.subscriptions, due, at) {
        NightlyKeepsLedger(s, due);
      }
    case _ =>
      if Quiet(e) {
        QuietStep(s, e);
      } else {
        AdminStep(s, e);
      }
  }

  /** Steps that touch neither requests nor invoices nor records. */
  predicate Quiet(e: Event) {
    || e.Catalogue? || e.PlatformSeeded? || e.SubmitSubscription? || e.TierOverridden? || e.CancelledByUser?
    || e.Guarded? || e.HourlyExpiry?
  }

  lemma QuietStep(s: State, e: Event)
    requires Ledger(s) && Quiet(e)
    ensures Ledger(Step(s, e))
  {
    hide Tags, About, Invoiced, ApprovedTotal, Lists, Calendar.NextMonth, Upper, Retier;
    assert Charged(Step(s, e));
    QuietKeepsLedger(s, Step(s, e));
  }

  lemma InvoiceStep(s: State, id: Id, status: InvoiceStatus, now: int)
    requires Ledger(s)
    ensures Ledger(Commit(s, UpdateInvoice(s, id, status, now)))
  {
    hide Ledger;
    if id < |s.invoices| {
      InvoiceStepKeepsLedger(s, id, status, now);
    }
  }

  lemma AdminStep(s: State, e: Event)
    requires Ledger(s)
    requires e.Approved? || e.Refused? || e.CancelledByAdmin? || e.ExpiredByAdmin? || e.ExtendedByAdmin?
             || e.PlanChanged?
    ensures Ledger(Step(s, e))
  {
    hide Ledger, Amend, Calendar.NextMonth, Calendar.AddDays;
    if Step(s, e) != s {
      var id := e.id;
      var sub := s.subscriptions[id];
      match e
      case Approved(_, admin, at) => AmendKeepsLedger(s, id, Activate(sub, at), SUBSCRIPTION_ACTIVATED, admin);
      case Refused(_, admin) =>
        AmendKeepsLedger(s, id, sub.(status := SubscriptionStatus.REJECTED), SUBSCRIPTION_CANCELLED, admin);
      case CancelledByAdmin(_, admin, at) =>
        AmendKeepsLedger(s, id, sub.(status := CANCELLED, cancelledAt := Some(at)), SUBSCRIPTION_CANCELLED, admin);
      case ExpiredByAdmin(_, admin) => AmendKeepsLedger(s, id, sub.(status := EXPIRED), SUBSCRIPTION_EXPIRED, admin);
      case ExtendedByAdmin(_, days, admin) =>
        AmendKeepsLedger(s, id, Extended(sub, days), SUBSCRIPTION_ACTIVATED, admin);
      case PlanChanged(_, code, admin) =>
        var s1 := s.(keys := Retier(s.keys, sub.developer, Upper(code)));
        KeysDoNotMatter(s, s1);
        AmendKeepsLedger(s1, id, sub.(plan := Upper(code)), PLAN_UPDATED, admin);
    }
  }

  lemma KeysDoNotMatter(s: State, t: State)
    requires Ledger(s) && t == s.(keys := t.keys)
    ensures Ledger(t)
  {
  }

  /**
   * In every run: each approved request has exactly one invoice, of the same amount, and every such invoice
   * has an approved request; audit rows and notifications list the same decisions in the same order; rejected
   * requests have no invoice; and the invoiced money equals the approved money.
   */
  lemma {:induction false} PaymentsAreConserved(es: seq<Event>, userRequired: bool)
    ensures Ledger(Run(Initial(userRequired), es))
    decreases |es|
  {
    if es != [] {
      PaymentsAreConserved(es[..|es| - 1], userRequired);
      hide Step, Ledger;
      StepKeepsLedger(Run(Initial(userRequired), es[..|es| - 1]), es[|es| - 1]);
    }
  }

  // ---- what the invariant says ----

  lemma {:induction false} TagsAre(invoices: seq<Invoice>, id: Id)
    ensures id in Tags(invoices) <==> exists i :: 0 <= i < |invoices| && invoices[i].approves == Some(id)
    decreases |invoices|
  {
    if invoices != [] {
      var n := |invoices| - 1;
      TagsAre(invoices[..n], id);
      if i :| 0 <= i < n && invoices[i].approves == Some(id) {
        assert invoices[..n][i].approves == Some(id);
      }
    }
  }

  lemma {:induction false} TagsAreDistinct(invoices: seq<Invoice>, i: nat, j: nat)
    requires NoDup(Tags(invoices)) && i < j < |invoices|
    ensures invoices[i].approves == invoices[j].approves ==> invoices[i].approves.None?
    decreases |invoices|
  {
    var n := |invoices| - 1;
    var init := Tags(invoices[..n]);
    assert init == Tags(invoices)[..|init|];
    if j < n {
      TagsAreDistinct(invoices[..n], i, j);
    } else if invoices[i].approves.Some? {
      assert invoices[..n][i].approves == invoices[i].approves;
      TagsAre(invoices[..n], invoices[i].approves.value);
      assert invoices[j].approves.Some? ==> Tags(invoices)[|init|] == invoices[j].approves.value;
    }
  }

  /** A request is approved exactly when it has an invoice, and then it has exactly one, of its amount. */
  lemma ApprovedIffInvoicedOnce(s: State, id: Id)
    requires Ledger(s) && id < |s.requests|
    ensures s.requests[id].status == APPROVED <==>
            exists i :: 0 <= i < |s.invoices| && s.invoices[i].approves == Some(id)
    ensures forall i, j :: 0 <= i < j < |s.invoices| ==>
              !(s.invoices[i].approves == s.invoices[j].approves == Some(id))
    ensures forall i :: 0 <= i < |s.invoices| && s.invoices[i].approves == Some(id) ==>
              s.invoices[i].amount == s.requests[id].amount
  {
    TagsAre(s.invoices, id);
    forall i, j | 0 <= i < j < |s.invoices|
      ensures !(s.invoices[i].approves == s.invoices[j].approves == Some(id))
    {
      TagsAreDistinct(s.invoices, i, j);
    }
  }

  lemma {:induction false} HavingFacts(requests: seq<Request>, status: RequestStatus)
    ensures NoDup(Having(requests, status))
    ensures forall id :: id in Having(requests, status) <==> 0 <= id < |requests| && requests[id].status == status
    decreases |requests|
  {
    if requests != [] {
      var n := |requests| - 1;
      var init := Having(requests[..n], status);
      HavingFacts(requests[..n], status);
      assert n !in init;
      assert forall id :: 0 <= id < n ==> requests[..n][id] == requests[id];
    }
  }

  /** Approvals and rejections leave as many audit rows and notifications as there are decided requests. */
  lemma TrailCountsDecisions(s: State)
    requires Ledger(s)
    ensures |About(s.audit, PAYMENT_APPROVED)| == |About(s.notifications, PAYMENT_APPROVED)|
            == |Having(s.requests, APPROVED)|
    ensures |About(s.audit, PAYMENT_REJECTED)| == |About(s.notifications, PAYMENT_REJECTED)|
            == |Having(s.requests, RequestStatus.REJECTED)|
  {
    HavingFacts(s.requests, APPROVED);
    HavingFacts(s.requests, RequestStatus.REJECTED);
    SameElementsSameLength(About(s.audit, PAYMENT_APPROVED), Having(s.requests, APPROVED));
    SameElementsSameLength(About(s.audit, PAYMENT_REJECTED), Having(s.requests, RequestStatus.REJECTED));
  }
}
