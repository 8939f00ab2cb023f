/** The service and the worker as they update rows and queues step by step. */
module WebhookService {
  import opened Wrappers
  import opened Sequences
  import opened Text
  import opened WebhookProtocol

  class Webhooks {
    var webhooks: map<Id, Webhook>
    var deliveries: map<Id, Delivery>
    var deliveryQueue: seq<Job>
    var dlq: seq<Id>
    var nextId: Id

    constructor ()
      ensures View() == INITIAL
    {
      webhooks, deliveries, deliveryQueue, dlq, nextId := map[], map[], [], [], 0;
    }

    function View(): State
      reads this
    {
      State(webhooks, deliveries, deliveryQueue, dlq, nextId)
    }

    method Create(owner: string, url: string, events: set<string>, description: Option<string>) returns (id: Id)
      modifies this
      ensures View() == Step(old(View()), CreateWebhook(owner, url, events, description)) && id == old(nextId)
    {
      id := nextId;
      webhooks := webhooks[id := Webhook(owner, url, events, description, true)];
      nextId := nextId + 1;
    }

    /** Fields that the request leaves out keep their values. */
    method Update(owner: string, id: Id, url: Option<string>, events: Option<set<string>>,
                  description: Option<string>, isActive: Option<bool>)
      returns (found: bool)
      modifies this
      ensures found == Owned(old(View()), owner, id)
      ensures !found ==> View() == old(View())
      ensures found ==>
        var w := old(webhooks)[id];
        View() == Step(old(View()), UpdateWebhook(
          owner, id, if url.Some? then url.value else w.url, if events.Some? then events.value else w.events,
          if description.Some? then description else w.description,
          if isActive.Some? then isActive.value else w.isActive))
    {
      found := id in webhooks && webhooks[id].owner == owner;
      if found {
        var webhook := webhooks[id];
        if url.Some? {
          webhook := webhook.(url := url.value);
        }
        if events.Some? {
          webhook := webhook.(events := events.value);
        }
        if description.Some? {
          webhook := webhook.(description := description);
        }
        if isActive.Some? {
          webhook := webhook.(isActive := isActive.value);
        }
        webhooks := webhooks[id := webhook];
      }
    }

    method RemoveWebhook(owner: string, id: Id) returns (found: bool)
      modifies this
      ensures View() == Step(old(View()), Event.RemoveWebhook(owner, id)) && found == Owned(old(View()), owner, id)
    {
      found := id in webhooks && webhooks[id].owner == owner;
      if found {
        webhooks := webhooks - {id};
        deliveries := map d | d in deliveries && deliveries[d].webhookId != id :: deliveries[d];
      }
    }

    method EnqueueDelivery(webhookId: Id, eventType: string, payload: Payload, now: nat)
      returns (id: Id)
      requires webhookId in webhooks
      modifies this
      ensures View() == Enqueue(old(View()), webhookId, eventType, payload, now) && id == old(nextId)
    {
      id := nextId;
      nextId := nextId + 1;
      deliveries := deliveries[id := NewDelivery(webhookId, eventType, payload, now)];
      deliveryQueue := deliveryQueue + [Job(id, now)];
    }

    predicate Subscribed(id: Id, eventType: string)
      requires id in webhooks
      reads this
    {
      eventType in webhooks[id].events || ALL_EVENTS in webhooks[id].events
    }

    /**
     * Fan-out of one event: `found` is what the query for the owner's active webhooks returned. Every
     * subscribed one of them gets one new delivery with one job; nothing else changes.
     */
    method DispatchEventForDeveloper(owner: string, eventType: string, payload: Payload, now: nat, found: seq<Id>)
      returns (matching: seq<Id>)
      requires forall id :: id in found <==> id in webhooks && webhooks[id].owner == owner && webhooks[id].isActive
      requires NoDup(found)
      modifies this
      ensures webhooks == old(webhooks) && NoDup(matching)
      ensures forall id :: id in matching <==>
                && id in webhooks && webhooks[id].owner == owner && webhooks[id].isActive
                && (eventType in webhooks[id].events || "*" in webhooks[id].events)
      ensures View() == EnqueueEach(old(View()), matching, eventType, payload, now)
    {
      matching := [];
      for i := 0 to |found|
        invariant forall id :: id in matching <==> id in found[..i] && Subscribed(id, eventType)
        invariant NoDup(matching) && |matching| <= i
      {
        assert found[i] in found && found[i] !in found[..i];
        if eventType in webhooks[found[i]].events || ALL_EVENTS in webhooks[found[i]].events {
          matching := matching + [found[i]];
        }
      }
      assert found[..|found|] == found;
      for i := 0 to |matching|
        invariant webhooks == old(webhooks)
        invariant View() == EnqueueEach(old(View()), matching[..i], eventType, payload, now)
      {
        assert matching[i] in matching;
        var _ := EnqueueDelivery(matching[i], eventType, payload, now);
        assert matching[..i + 1][..i] == matching[..i];
      }
      assert matching[..|matching|] == matching;
    }

    /** Manual replay: a new delivery of the same event; the original is not touched. */
    method RetryDelivery(owner: string, deliveryId: Id, now: nat) returns (r: Result<Id, string>)
      modifies this
      ensures View() == Step(old(View()), Event.RetryDelivery(owner, deliveryId, now))
      ensures r.Ok? <==>
              && deliveryId in old(deliveries)
              && Owned(old(View()), owner, old(deliveries)[deliveryId].webhookId)
      ensures r.Ok? ==> r.value == old(nextId) && r.value in deliveries
                        && deliveries[r.value].payload == Retried(old(deliveries)[deliveryId].payload, deliveryId, now)
    {
      if deliveryId !in deliveries {
        return Err("Delivery not found");
      }
      var original := deliveries[deliveryId];
      if original.webhookId !in webhooks || webhooks[original.webhookId].owner != owner {
        return Err("Delivery not found");
      }
      var payload := original.payload["retriedFrom" := Decimal(deliveryId)]["retriedAt" := Decimal(now)];
      var id := EnqueueDelivery(original.webhookId, original.eventType, payload, now);
      return Ok(id);
    }

    /** The worker takes job k and runs the processor on it. */
    method ProcessJob(k: nat, outcome: Outcome, at: Clock)
      requires k < |deliveryQueue|
      modifies this
      ensures View() == Process(old(View()), k, outcome, at)
    {
      hide ErrorText;
      var job := deliveryQueue[k];
      deliveryQueue := deliveryQueue[..k] + deliveryQueue[k + 1..];
      var id := job.deliveryId;
      if id !in deliveries || deliveries[id].webhookId !in webhooks || !webhooks[deliveries[id].webhookId].isActive {
        return;
      }
      var delivery := deliveries[id];
      delivery := delivery.(attemptCount := delivery.attemptCount + 1);
      delivery := delivery.(lastAttemptAt := Some(at.started));
      if outcome.Response? {
        delivery := delivery.(responseStatus := Some(outcome.status));
        if outcome.status >= 200 && outcome.status < 300 {
          delivery := delivery.(status := DELIVERED, nextRetryAt := None, errorMessage := None);
          deliveries := deliveries[id := delivery];
          return;
        }
      }
      delivery := delivery.(errorMessage := Some(ErrorText(outcome)));
      if delivery.attemptCount >= delivery.maxAttempts {
        delivery := delivery.(status := DLQ, nextRetryAt := None);
        deliveries := deliveries[id := delivery];
        dlq := dlq + [id];
        return;
      }
      delivery := delivery.(status := FAILED);
      var last := |RETRY_DELAYS_MS| - 1;
      var delayIndex := if delivery.attemptCount - 1 < last then delivery.attemptCount - 1 else last;
      var delayMs := RETRY_DELAYS_MS[delayIndex];
      assert delayMs == RetryDelay(delivery.attemptCount);
      hide RetryDelay;
      delivery := delivery.(nextRetryAt := Some(at.failed + delayMs));
      deliveries := deliveries[id := delivery];
      deliveryQueue := deliveryQueue + [Job(id, at.queued + delayMs)];
    }
  }

  function EnqueueEach(s: State, ids: seq<Id>, eventType: string, payload: Payload, now: nat): (t: State)
    requires forall id :: id in ids ==> id in s.webhooks
    ensures t.webhooks == s.webhooks
    decreases |ids|
  {
    if ids == [] then s else
    assert forall id :: id in ids[..|ids| - 1] ==> id in ids;
    assert ids[|ids| - 1] in ids;
    Enqueue(EnqueueEach(s, ids[..|ids| - 1], eventType, payload, now), ids[|ids| - 1], eventType, payload, now)
  }

  /** The i-th webhook of a fan-out has its new delivery and its job. */
  ghost predicate HasNew(s: State, t: State, i: nat, id: Id, eventType: string, payload: Payload, now: nat) {
    && |s.queue| + i < |t.queue| && t.queue[|s.queue| + i] == Job(s.nextId + i, now)
    && s.nextId + i in t.deliveries
    && t.deliveries[s.nextId + i]
       == Delivery(id, eventType, payload, PENDING, 0, 5, None, Some(now), None, None)
  }

  lemma OlderStaysNew(s: State, m: State, i: nat, id: Id, next: Id, eventType: string, payload: Payload, now: nat)
    requires next in m.webhooks && s.nextId + i < m.nextId && HasNew(s, m, i, id, eventType, payload, now)
    ensures HasNew(s, Enqueue(m, next, eventType, payload, now), i, id, eventType, payload, now)
  {
  }

  lemma NewestIsNew(s: State, m: State, n: nat, next: Id, eventType: string, payload: Payload, now: nat)
    requires next in m.webhooks && m.nextId == s.nextId + n && |m.queue| == |s.queue| + n
    ensures HasNew(s, Enqueue(m, next, eventType, payload, now), n, next, eventType, payload, now)
  {
  }

  lemma EnqueueEachStep(s: State, ids: seq<Id>, eventType: string, payload: Payload, now: nat)
    requires ids != [] && forall id :: id in ids ==> id in s.webhooks
    ensures var n := |ids| - 1;
            && (forall id :: id in ids[..n] ==> id in s.webhooks) && ids[n] in s.webhooks
            && EnqueueEach(s, ids, eventType, payload, now) ==
               Enqueue(EnqueueEach(s, ids[..n], eventType, payload, now), ids[n], eventType, payload, now)
  {
    assert ids[|ids| - 1] in ids;
    assert forall id :: id in ids[..|ids| - 1] ==> id in ids;
  }

  /** What a fan-out leaves behind: one pending delivery and one job per webhook, under consecutive new ids. */
  lemma {:induction false} EnqueueEachFacts(s: State, ids: seq<Id>, eventType: string, payload: Payload, now: nat)
    requires Invariant(s) && forall id :: id in ids ==> id in s.webhooks
    ensures var t := EnqueueEach(s, ids, eventType, payload, now);
            && Invariant(t)
            && t.nextId == s.nextId + |ids| && |t.queue| == |s.queue| + |ids| && s.queue <= t.queue
            && (forall id :: id in s.deliveries ==> id in t.deliveries && t.deliveries[id] == s.deliveries[id])
            && (forall i :: 0 <= i < |ids| ==> HasNew(s, t, i, ids[i], eventType, payload, now))
    decreases |ids|
  {
    hide Invariant, NewDelivery, HasNew;
    IdsBelowNext(s);
    if ids != [] {
      var n := |ids| - 1;
      EnqueueEachStep(s, ids, eventType, payload, now);
      EnqueueEachFacts(s, ids[..n], eventType, payload, now);
      hide EnqueueEach;
      var m := EnqueueEach(s, ids[..n], eventType, payload, now);
      EnqueueKeepsInvariant(m, ids[n], eventType, payload, now);
      NewestIsNew(s, m, n, ids[n], eventType, payload, now);
      forall i | 0 <= i < n
        ensures HasNew(s, Enqueue(m, ids[n], eventType, payload, now), i, ids[i], eventType, payload, now)
      {
        OlderStaysNew(s, m, i, ids[i], ids[n], eventType, payload, now);
      }
    } else {
      assert EnqueueEach(s, ids, eventType, payload, now) == s;
    }
  }

  lemma IdsBelowNext(s: State)
    requires Invariant(s)
    ensures forall id :: id in s.deliveries ==> id < s.nextId
  {
  }
}
