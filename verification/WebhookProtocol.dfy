/**
 * Webhook deliveries: enqueueing, attempts, the retry schedule, the dead-letter queue and manual replay,
 * as functions on the stored state. Every step is atomic; clocks and HTTP outcomes are arguments.
 */
module WebhookProtocol {
  import opened Wrappers
  import opened Sequences
  import Text

  /** Rows get generated ids that are never used again. */
  type Id = nat

  datatype Status = PENDING | DELIVERED | FAILED | DLQ

  datatype Webhook = Webhook(owner: string, url: string, events: set<string>, description: Option<string>,
      isActive: bool)

  /** The data of an event, as text by field. */
  type Payload = map<string, string>

  datatype Delivery = Delivery(
    webhookId: Id, eventType: string, payload: Payload,
    status: Status, attemptCount: nat, maxAttempts: nat,
    lastAttemptAt: Option<nat>, nextRetryAt: Option<nat>,
    responseStatus: Option<int>, errorMessage: Option<string>)

  /** A job waiting in the delivery queue; it may run once its delay has passed. */
  datatype Job = Job(deliveryId: Id, readyAt: nat)

  datatype State = State(webhooks: map<Id, Webhook>, deliveries: map<Id, Delivery>,
                         queue: seq<Job>, dlq: seq<Id>, nextId: Id)

  /** When an attempt starts, when it is found to have failed, and when its follow-up job is queued. */
  datatype Clock = Clock(started: nat, failed: nat, queued: nat)

  predicate Forward(at: Clock) {
    at.started <= at.failed <= at.queued
  }

  /** What the HTTP request of an attempt comes to. */
  datatype Outcome = Response(status: int) | NetworkError(message: string)

  const RETRY_DELAYS_MS: seq<nat> := [60_000, 300_000, 900_000, 3_600_000, 14_400_000]
  const DEFAULT_MAX_ATTEMPTS: nat := 5
  const ALL_EVENTS := "*"

  const INITIAL := State(map[], map[], [], [], 0)

  predicate Succeeds(o: Outcome) {
    o.Response? && 200 <= o.status < 300
  }

  predicate Terminal(d: Delivery) {
    d.status == DELIVERED || d.status == DLQ
  }

  function ErrorText(o: Outcome): string {
    var message := if o.Response? then "HTTP " + Text.Decimal(o.status) + " from webhook endpoint" else o.message;
    if |message| > 500 then message[..500] else message
  }

  /** The delay before the attempt that follows a failed attempt with this number. */
  function RetryDelay(attemptCount: nat): nat
    requires attemptCount > 0
  {
    var index := if attemptCount - 1 < |RETRY_DELAYS_MS| - 1 then attemptCount - 1 else |RETRY_DELAYS_MS| - 1;
    RETRY_DELAYS_MS[index]
  }

  /** The delivery after one more attempt. */
  function Attempted(d: Delivery, o: Outcome, at: Clock): Delivery {
    var d1 := d.(attemptCount := d.attemptCount + 1, lastAttemptAt := Some(at.started),
                 responseStatus := if o.Response? then Some(o.status) else d.responseStatus);
    if Succeeds(o) then d1.(status := DELIVERED, nextRetryAt := None, errorMessage := None)
    else if d1.attemptCount >= d1.maxAttempts then
      d1.(status := DLQ, nextRetryAt := None, errorMessage := Some(ErrorText(o)))
    else d1.(status := FAILED, nextRetryAt := Some(at.failed + RetryDelay(d1.attemptCount)),
             errorMessage := Some(ErrorText(o)))
  }

  /** A job has something to attempt when its delivery still exists and the webhook is active. */
  predicate Attemptable(s: State, id: Id) {
    id in s.deliveries && s.deliveries[id].webhookId in s.webhooks && s.webhooks[s.deliveries[id].webhookId].isActive
  }

  function Without(q: seq<Job>, k: nat): seq<Job>
    requires k < |q|
  {
    q[..k] + q[k + 1..]
  }

  /** The worker takes job k out of the queue and processes it. */
  function Process(s: State, k: nat, o: Outcome, at: Clock): State
    requires k < |s.queue|
  {
    var id := s.queue[k].deliveryId;
    var s1 := s.(queue := Without(s.queue, k));
    if !Attemptable(s, id) then s1 else
    var d := Attempted(s.deliveries[id], o, at);
    var s2 := s1.(deliveries := s.deliveries[id := d]);
    if d.status == DLQ then s2.(dlq := s.dlq + [id])
    else if d.status == FAILED then s2.(queue := s1.queue + [Job(id, at.queued + RetryDelay(d.attemptCount))])
    else s2
  }

  function NewDelivery(webhookId: Id, eventType: string, payload: Payload, now: nat): Delivery {
    Delivery(webhookId, eventType, payload, PENDING, 0, DEFAULT_MAX_ATTEMPTS, None, Some(now), None, None)
  }

  function Enqueue(s: State, webhookId: Id, eventType: string, payload: Payload, now: nat): State
    requires webhookId in s.webhooks
  {
    s.(deliveries := s.deliveries[s.nextId := NewDelivery(webhookId, eventType, payload, now)],
       queue := s.queue + [Job(s.nextId, now)],
       nextId := s.nextId + 1)
  }

  /** Removing a webhook removes its deliveries; queued jobs and dead letters stay behind. */
  function Remove(s: State, webhookId: Id): State {
    s.(webhooks := s.webhooks - {webhookId},
       deliveries := map id | id in s.deliveries && s.deliveries[id].webhookId != webhookId :: s.deliveries[id])
  }

  /** The requests and worker runs that change the state. */
  datatype Event =
    | CreateWebhook(owner: string, url: string, events: set<string>, description: Option<string>)
    | UpdateWebhook(owner: string, webhookId: Id, url: string, events: set<string>, description: Option<string>,
        isActive: bool)
    | RemoveWebhook(owner: string, webhookId: Id)
    | EnqueueDelivery(webhookId: Id, eventType: string, payload: Payload, now: nat)
    | RetryDelivery(owner: string, deliveryId: Id, now: nat)
    | ProcessJob(index: nat, outcome: Outcome, at: Clock)

  /** The payload of a replay says what it repeats and since when. */
  function Retried(payload: Payload, original: Id, now: nat): Payload {
    payload["retriedFrom" := Text.Decimal(original)]["retriedAt" := Text.Decimal(now)]
  }

  /** Job k is there, its delay has passed, and the clock does not run backwards during the attempt. */
  predicate CanTake(s: State, k: nat, at: Clock) {
    k < |s.queue| && at.started >= s.queue[k].readyAt && Forward(at)
  }

  predicate Owned(s: State, owner: string, webhookId: Id) {
    webhookId in s.webhooks && s.webhooks[webhookId].owner == owner
  }

  /** One event; requests that the service answers with "not found" change nothing. */
  function Step(s: State, e: Event): State {
    match e
    case CreateWebhook(owner, url, events, description) =>
      s.(webhooks := s.webhooks[s.nextId := Webhook(owner, url, events, description, true)], nextId := s.nextId + 1)
    case UpdateWebhook(owner, id, url, events, description, isActive) =>
      if !Owned(s, owner, id) then s
      else s.(webhooks := s.webhooks[id := Webhook(owner, url, events, description, isActive)])
    case RemoveWebhook(owner, id) =>
      if !Owned(s, owner, id) then s else Remove(s, id)
    case EnqueueDelivery(id, eventType, payload, now) =>
      if id !in s.webhooks then s else Enqueue(s, id, eventType, payload, now)
    case RetryDelivery(owner, id, now) =>
      if id !in s.deliveries || !Owned(s, owner, s.deliveries[id].webhookId) then s
      else
        var original := s.deliveries[id];
        Enqueue(s, original.webhookId, original.eventType, Retried(original.payload, id, now), now)
    case ProcessJob(k, o, at) =>
      if !CanTake(s, k, at) then s else Process(s, k, o, at)
  }

  function Run(s: State, es: seq<Event>): State
    decreases |es|
  {
    if es == [] then s else Step(Run(s, es[..|es| - 1]), es[|es| - 1])
  }

  // ---- the invariant on outstanding jobs ----

  predicate HasJob(q: seq<Job>, id: Id) {
    exists i :: 0 <= i < |q| && q[i].deliveryId == id
  }

  predicate OneJobEach(q: seq<Job>) {
    forall i, j :: 0 <= i < j < |q| ==> q[i].deliveryId != q[j].deliveryId
  }

  /** A delivery's fields fit together: its status says how many attempts it has had. */
  predicate Sound(d: Delivery) {
    && d.maxAttempts == DEFAULT_MAX_ATTEMPTS
    && match d.status
       case PENDING => d.attemptCount == 0 && d.lastAttemptAt.None?
       case FAILED => 0 < d.attemptCount < d.maxAttempts && d.lastAttemptAt.Some?
                      && d.nextRetryAt.Some?
                      && d.nextRetryAt.value >= d.lastAttemptAt.value + RetryDelay(d.attemptCount)
       case DELIVERED => 0 < d.attemptCount <= d.maxAttempts && d.nextRetryAt.None?
       case DLQ => d.attemptCount == d.maxAttempts && d.nextRetryAt.None?
  }

  /** A queued job belongs to a delivery that may still be attempted, no earlier than it announces. */
  predicate JobFits(s: State, job: Job) {
    && job.deliveryId < s.nextId
    && (job.deliveryId in s.deliveries ==>
          var d := s.deliveries[job.deliveryId];
          !Terminal(d) && d.attemptCount < d.maxAttempts && d.nextRetryAt.Some? && d.nextRetryAt.value <= job.readyAt)
  }

  ghost predicate Invariant(s: State) {
    && OneJobEach(s.queue)
    && (forall i :: 0 <= i < |s.queue| ==> JobFits(s, s.queue[i]))
    && (forall id :: id in s.webhooks ==> id < s.nextId)
    && (forall id :: id in s.deliveries ==>
          id < s.nextId && Sound(s.deliveries[id]) && s.deliveries[id].webhookId in s.webhooks)
    && (forall i :: 0 <= i < |s.dlq| ==> s.dlq[i] < s.nextId)
    && (forall i, j :: 0 <= i < j < |s.dlq| ==> s.dlq[i] != s.dlq[j])
    && (forall id :: id in s.deliveries ==> (s.deliveries[id].status == DLQ <==> id in s.dlq))
  }

  lemma WithoutFacts(q: seq<Job>, k: nat)
    requires k < |q| && OneJobEach(q)
    ensures OneJobEach(Without(q, k))
    ensures forall job :: job in Without(q, k) ==> job in q
    ensures forall id :: HasJob(Without(q, k), id) <==> HasJob(q, id) && id != q[k].deliveryId
  {
    var r := Without(q, k);
    forall id | HasJob(q, id) && id != q[k].deliveryId
      ensures HasJob(r, id)
    {
      var i :| 0 <= i < |q| && q[i].deliveryId == id;
      assert r[if i < k then i else i - 1].deliveryId == id;
    }
    forall id | HasJob(r, id)
      ensures HasJob(q, id) && id != q[k].deliveryId
    {
      var i :| 0 <= i < |r| && r[i].deliveryId == id;
      assert q[if i < k then i else i + 1].deliveryId == id;
    }
  }

  lemma AppendJobFacts(q: seq<Job>, job: Job)
    requires OneJobEach(q) && !HasJob(q, job.deliveryId)
    ensures OneJobEach(q + [job])
    ensures forall id :: HasJob(q + [job], id) <==> HasJob(q, id) || id == job.deliveryId
  {
    forall id | HasJob(q, id)
      ensures HasJob(q + [job], id)
    {
      var i :| 0 <= i < |q| && q[i].deliveryId == id;
      assert (q + [job])[i].deliveryId == id;
    }
    assert (q + [job])[|q|] == job;
  }

  lemma AttemptedSound(d: Delivery, o: Outcome, at: Clock)
    requires Forward(at) && Sound(d) && !Terminal(d) && d.attemptCount < d.maxAttempts
    ensures Sound(Attempted(d, o, at)) && Attempted(d, o, at).attemptCount == d.attemptCount + 1
    ensures Attempted(d, o, at).status ==
            if Succeeds(o) then DELIVERED else if d.attemptCount + 1 == d.maxAttempts then DLQ else FAILED
    ensures Attempted(d, o, at).webhookId == d.webhookId && Attempted(d, o, at).maxAttempts == d.maxAttempts
    ensures Attempted(d, o, at).status == FAILED ==>
              Attempted(d, o, at).nextRetryAt == Some(at.failed + RetryDelay(d.attemptCount + 1))
  {
    hide RetryDelay, ErrorText;
  }

  lemma ProcessKeepsInvariant(s: State, k: nat, o: Outcome, at: Clock)
    requires Invariant(s) && k < |s.queue| && Forward(at)
    ensures Invariant(Process(s, k, o, at))
  {
    hide RetryDelay, Attempted, Sound;
    var id := s.queue[k].deliveryId;
    assert JobFits(s, s.queue[k]);
    WithoutFacts(s.queue, k);
    var q := Without(s.queue, k);
    var t := Process(s, k, o, at);
    if Attemptable(s, id) {
      AttemptedSound(s.deliveries[id], o, at);
      AppendJobFacts(q, Job(id, at.queued + RetryDelay(s.deliveries[id].attemptCount + 1)));
    }
    forall i | 0 <= i < |t.queue|
      ensures JobFits(t, t.queue[i])
    {
      if i < |q| {
        assert t.queue[i] == q[i] && q[i] in s.queue;
        assert HasJob(q, q[i].deliveryId);
        var j :| 0 <= j < |s.queue| && s.queue[j] == q[i];
        assert JobFits(s, s.queue[j]);
      }
    }
  }

  lemma EnqueueKeepsInvariant(s: State, webhookId: Id, eventType: string, payload: Payload, now: nat)
    requires Invariant(s) && webhookId in s.webhooks
    ensures Invariant(Enqueue(s, webhookId, eventType, payload, now))
    ensures !HasJob(s.queue, s.nextId) && s.nextId !in s.deliveries
  {
    hide RetryDelay;
    forall i | 0 <= i < |s.queue|
      ensures s.queue[i].deliveryId < s.nextId
    {
      assert JobFits(s, s.queue[i]);
    }
    AppendJobFacts(s.queue, Job(s.nextId, now));
    var t := Enqueue(s, webhookId, eventType, payload, now);
    forall i | 0 <= i < |t.queue|
      ensures JobFits(t, t.queue[i])
    {
      if i < |s.queue| {
        assert JobFits(s, s.queue[i]);
      }
    }
  }

  lemma QuietStepKeepsInvariant(s: State, e: Event)
    requires Invariant(s) && (e.CreateWebhook? || e.UpdateWebhook? || e.RemoveWebhook?)
    ensures Invariant(Step(s, e))
  {
    hide RetryDelay, Sound;
    var t := Step(s, e);
    forall i | 0 <= i < |t.queue|
      ensures JobFits(t, t.queue[i])
    {
      assert JobFits(s, s.queue[i]);
    }
  }

  lemma StepKeepsInvariant(s: State, e: Event)
    requires Invariant(s)
    ensures Invariant(Step(s, e))
  {
    if e.ProcessJob? {
      if CanTake(s, e.index, e.at) {
        ProcessKeepsInvariant(s, e.index, e.outcome, e.at);
      }
    } else if e.EnqueueDelivery? {
      if e.webhookId in s.webhooks {
        EnqueueKeepsInvariant(s, e.webhookId, e.eventType, e.payload, e.now);
      }
    } else if e.RetryDelivery? {
      if e.deliveryId in s.deliveries && Owned(s, e.owner, s.deliveries[e.deliveryId].webhookId) {
        var d := s.deliveries[e.deliveryId];
        EnqueueKeepsInvariant(s, d.webhookId, d.eventType, Retried(d.payload, e.deliveryId, e.now), e.now);
      }
    } else {
      QuietStepKeepsInvariant(s, e);
    }
  }

  /** In every reachable state no delivery has two jobs, and finished deliveries have none. */
  lemma {:induction false} ReachableInvariant(es: seq<Event>)
    ensures Invariant(Run(INITIAL, es))
    decreases |es|
  {
    if es != [] {
      ReachableInvariant(es[..|es| - 1]);
      StepKeepsInvariant(Run(INITIAL, es[..|es| - 1]), es[|es| - 1]);
    }
  }

  lemma FinishedHasNoJob(s: State, id: Id)
    requires Invariant(s) && id in s.deliveries && Terminal(s.deliveries[id])
    ensures !HasJob(s.queue, id)
  {
    forall i | 0 <= i < |s.queue|
      ensures s.queue[i].deliveryId != id
    {
      assert JobFits(s, s.queue[i]);
    }
  }

  /** DELIVERED and DLQ are final: no step changes such a delivery in any field. */
  lemma FinishedStaysFinished(s: State, e: Event, id: Id)
    requires Invariant(s) && id in s.deliveries && Terminal(s.deliveries[id])
    ensures id in Step(s, e).deliveries ==> Step(s, e).deliveries[id] == s.deliveries[id]
  {
    FinishedHasNoJob(s, id);
    hide RetryDelay, ErrorText, Sound;
  }

  // ---- what an attempt history says about a delivery ----

  /** The job of this delivery is taken out of the queue by the event. */
  predicate Takes(s: State, e: Event, id: Id) {
    e.ProcessJob? && CanTake(s, e.index, e.at) && s.queue[e.index].deliveryId == id
  }

  /** The results of the attempts that the events made for a delivery, in order. */
  function Attempts(s: State, es: seq<Event>, id: Id): seq<bool>
    decreases |es|
  {
    if es == [] then [] else
    var init, e := es[..|es| - 1], es[|es| - 1];
    Attempts(s, init, id) +
    if Takes(Run(s, init), e, id) && Attemptable(Run(s, init), id) then [Succeeds(e.outcome)] else []
  }

  /** Some event took the delivery's job while its webhook was inactive. */
  predicate Dropped(s: State, es: seq<Event>, id: Id)
    decreases |es|
  {
    es != [] &&
    var init, e := es[..|es| - 1], es[|es| - 1];
    Dropped(s, init, id) || (Takes(Run(s, init), e, id) && id in Run(s, init).deliveries
        && !Attemptable(Run(s, init), id))
  }

  function StatusAfter(history: seq<bool>): Status {
    if history == [] then PENDING
    else if history[|history| - 1] then DELIVERED
    else if |history| >= DEFAULT_MAX_ATTEMPTS then DLQ
    else FAILED
  }

  ghost predicate Explains(d: Delivery, history: seq<bool>) {
    && d.attemptCount == |history|
    && d.status == StatusAfter(history)
    && forall i :: 0 <= i < |history| - 1 ==> !history[i]
  }

  lemma {:induction false} UnknownHasNoHistory(es: seq<Event>, id: Id)
    requires id >= Run(INITIAL, es).nextId
    ensures Attempts(INITIAL, es, id) == [] && !Dropped(INITIAL, es, id)
    decreases |es|
  {
    if es != [] {
      var init := es[..|es| - 1];
      var s, e := Run(INITIAL, init), es[|es| - 1];
      ReachableInvariant(init);
      assert s.nextId <= Step(s, e).nextId by {
        hide Process, Invariant;
        NextIdGrows(s, e);
      }
      UnknownHasNoHistory(init, id);
    }
  }

  lemma NextIdGrows(s: State, e: Event)
    ensures s.nextId <= Step(s, e).nextId
  {
  }

  /** How one event changes a delivery that existed before: exactly by the attempt it made, if any. */
  lemma StepOnDelivery(s: State, e: Event, id: Id)
    requires Invariant(s) && id in s.deliveries && id in Step(s, e).deliveries
    ensures Step(s, e).deliveries[id] ==
            if Takes(s, e, id) && Attemptable(s, id) then Attempted(s.deliveries[id], e.outcome, e.at)
            else s.deliveries[id]
  {
    hide Attempted, Sound, RetryDelay;
  }

  /** What an attempt leaves in its delivery: delivered for a status from 200 to 299, and else what went wrong. */
  lemma AttemptRecorded(s: State, e: Event, id: Id)
    requires Invariant(s) && id in s.deliveries && Takes(s, e, id) && Attemptable(s, id)
    ensures id in Step(s, e).deliveries
    ensures var d, t := s.deliveries[id], Step(s, e).deliveries[id];
            && (t.status == DELIVERED <==> e.outcome.Response? && 200 <= e.outcome.status <= 299)
            && t.lastAttemptAt == Some(e.at.started)
            && t.responseStatus == (if e.outcome.Response? then Some(e.outcome.status) else d.responseStatus)
            && (t.errorMessage.None? <==> t.status == DELIVERED)
            && (t.errorMessage.Some? ==>
                var text := if e.outcome.NetworkError? then e.outcome.message
                            else "HTTP " + Text.Decimal(e.outcome.status) + " from webhook endpoint";
                t.errorMessage.value <= text && |t.errorMessage.value| == if |text| <= 500 then |text| else 500)
            && t.webhookId == d.webhookId && t.eventType == d.eventType && t.payload == d.payload
  {
    assert JobFits(s, s.queue[e.index]);
    StepOnDelivery(s, e, id);
    hide Step, RetryDelay, Text.Decimal;
  }

  /** Webhooks are changed, removed and replayed for their owners only; a removal takes a webhook's deliveries along. */
  lemma OwnersOnly(s: State, e: Event, id: Id)
    requires Invariant(s) && (e.UpdateWebhook? || e.RemoveWebhook? || e.RetryDelivery?)
    ensures Step(s, e) != s ==>
              var w := if e.RetryDelivery? then
                         (if e.deliveryId in s.deliveries then s.deliveries[e.deliveryId].webhookId else s.nextId)
                       else e.webhookId;
              w in s.webhooks && s.webhooks[w].owner == e.owner
    ensures var t := Step(s, e);
            && (id in s.webhooks && id !in t.webhooks ==>
                e.RemoveWebhook? && id == e.webhookId && s.webhooks[id].owner == e.owner)
            && (id in s.deliveries ==>
                (id !in t.deliveries <==> s.deliveries[id].webhookId !in t.webhooks))
  {
    hide RetryDelay, Sound, Retried, JobFits;
  }

  /** A replay's payload names the delivery it repeats and the time, and keeps the other fields. */
  lemma ReplaySays(payload: Payload, original: Id, now: nat)
    ensures var p := Retried(payload, original, now);
            && p.Keys == payload.Keys + {"retriedFrom", "retriedAt"}
            && Text.IsDecimal(p["retriedFrom"]) && Text.DecimalValue(p["retriedFrom"]) == original
            && Text.IsDecimal(p["retriedAt"]) && Text.DecimalValue(p["retriedAt"]) == now
            && forall k :: k in payload && k != "retriedFrom" && k != "retriedAt" ==> p[k] == payload[k]
  {
    Text.DecimalRoundTrip(original);
    Text.DecimalRoundTrip(now);
    hide Text.Decimal, Text.IsDecimal, Text.DecimalValue;
    assert "retriedFrom"[7] != "retriedAt"[7];
  }

  lemma NewDeliveryIsPending(s: State, e: Event, id: Id)
    requires Invariant(s) && id !in s.deliveries && id in Step(s, e).deliveries
    ensures id == s.nextId && Explains(Step(s, e).deliveries[id], [])
    ensures HasJob(Step(s, e).queue, id)
  {
    hide Attempted, Sound, RetryDelay;
    var t := Step(s, e);
    if !e.ProcessJob? {
      assert t.queue[|t.queue| - 1].deliveryId == id;
    }
  }

  /**
   * In every run, the attempts made for a delivery decide its status: PENDING before the first, DELIVERED
   * after the first success, DLQ exactly after five failures, FAILED in between; and only the last can succeed.
   */
  lemma {:induction false} HistoryDecidesStatus(es: seq<Event>, id: Id)
    requires id in Run(INITIAL, es).deliveries
    ensures Explains(Run(INITIAL, es).deliveries[id], Attempts(INITIAL, es, id))
    decreases |es|
  {
    if es != [] {
      var init := es[..|es| - 1];
      var s, e := Run(INITIAL, init), es[|es| - 1];
      ReachableInvariant(init);
      if id in s.deliveries {
        HistoryDecidesStatus(init, id);
        HistoryStep(s, e, id, Attempts(INITIAL, init, id));
      } else {
        NewDeliveryIsPending(s, e, id);
        UnknownHasNoHistory(init, id);
      }
      hide Step, Invariant, Explains, Attempted, Attemptable, Takes;
    }
  }

  lemma HistoryStep(s: State, e: Event, id: Id, history: seq<bool>)
    requires Invariant(s) && id in s.deliveries && id in Step(s, e).deliveries && Explains(s.deliveries[id], history)
    ensures Explains(Step(s, e).deliveries[id],
                     history + if Takes(s, e, id) && Attemptable(s, id) then [Succeeds(e.outcome)] else [])
  {
    StepOnDelivery(s, e, id);
    if Takes(s, e, id) && Attemptable(s, id) {
      assert JobFits(s, s.queue[e.index]);
      ExplainsMore(s.deliveries[id], history, e.outcome, e.at);
    } else {
      assert history + [] == history;
    }
    hide Step, Explains, Attempted, Attemptable, Takes;
  }

  lemma ExplainsMore(d: Delivery, history: seq<bool>, o: Outcome, at: Clock)
    requires Forward(at) && Explains(d, history) && Sound(d) && !Terminal(d) && d.attemptCount < d.maxAttempts
    ensures Explains(Attempted(d, o, at), history + [Succeeds(o)])
  {
    AttemptedSound(d, o, at);
    hide Attempted, Sound, Succeeds;
  }

  lemma StepOnJobs(s: State, e: Event, id: Id)
    requires Invariant(s) && id in s.deliveries
    ensures HasJob(Step(s, e).queue, id) <==>
            HasJob(s.queue, id) &&
            (Takes(s, e, id) ==> Attemptable(s, id) && Attempted(s.deliveries[id], e.outcome, e.at).status == FAILED)
  {
    hide RetryDelay, Sound, Attempted, JobFits;
    if e.ProcessJob? && CanTake(s, e.index, e.at) {
      var job := s.queue[e.index];
      var q := Without(s.queue, e.index);
      WithoutFacts(s.queue, e.index);
      if Attemptable(s, job.deliveryId) {
        forall again: Job | again.deliveryId == job.deliveryId
          ensures HasJob(q + [again], id) <==> HasJob(q, id) || id == again.deliveryId
        {
          AppendJobFacts(q, again);
        }
      }
    } else if e.EnqueueDelivery? || e.RetryDelivery? {
      NoJobYet(s);
      forall job: Job | job.deliveryId == s.nextId
        ensures HasJob(s.queue + [job], id) <==> HasJob(s.queue, id)
      {
        AppendJobFacts(s.queue, job);
      }
    }
  }

  lemma NoJobYet(s: State)
    requires Invariant(s)
    ensures !HasJob(s.queue, s.nextId)
  {
    forall i | 0 <= i < |s.queue|
      ensures s.queue[i].deliveryId != s.nextId
    {
      assert JobFits(s, s.queue[i]);
    }
  }

  lemma DroppedStep(s: State, es: seq<Event>, e: Event, id: Id)
    ensures Dropped(s, es + [e], id) <==>
            Dropped(s, es, id) || (Takes(Run(s, es), e, id) && id in Run(s, es).deliveries
                && !Attemptable(Run(s, es), id))
  {
    assert (es + [e])[..|es|] == es;
  }

  /**
   * A delivery waits for an attempt exactly as long as it is unfinished and its job has not been dropped:
   * the only way to stay PENDING or FAILED without a job is a job taken while the webhook was inactive.
   */
  lemma {:induction false} UnfinishedHasJobUnlessDropped(es: seq<Event>, id: Id)
    requires id in Run(INITIAL, es).deliveries
    ensures var s := Run(INITIAL, es);
            HasJob(s.queue, id) <==> !Terminal(s.deliveries[id]) && !Dropped(INITIAL, es, id)
    ensures Dropped(INITIAL, es, id) ==> !Terminal(Run(INITIAL, es).deliveries[id])
    decreases |es|
  {
    if es != [] {
      var init := es[..|es| - 1];
      var s, e := Run(INITIAL, init), es[|es| - 1];
      ReachableInvariant(init);
      assert es == init + [e];
      DroppedStep(INITIAL, init, e, id);
      if id in s.deliveries {
        UnfinishedHasJobUnlessDropped(init, id);
        StepOnDelivery(s, e, id);
        StepOnJobs(s, e, id);
        if Takes(s, e, id) {
          assert s.queue[e.index].deliveryId == id;
          assert HasJob(s.queue, id) && JobFits(s, s.queue[e.index]);
          AttemptedSound(s.deliveries[id], e.outcome, e.at);
        }
      } else {
        NewDeliveryIsPending(s, e, id);
        UnknownHasNoHistory(init, id);
      }
    }
  }

  /**
   * A run that drops a job: a webhook is switched off before the worker gets to the job, which it then takes and
   * forgets, leaving its delivery PENDING.
   */
  lemma JobMayBeDropped(owner: string, webhook: Webhook, eventType: string, payload: Payload, now: nat, o: Outcome,
      at: Clock)
    requires Forward(at) && at.started >= now
    ensures var es := [CreateWebhook(owner, webhook.url, webhook.events, webhook.description),
                       EnqueueDelivery(0, eventType, payload, now),
                       UpdateWebhook(owner, 0, webhook.url, webhook.events, webhook.description, false),
                       ProcessJob(0, o, at)];
            var s := Run(INITIAL, es);
            Dropped(INITIAL, es, 1) && 1 in s.deliveries && s.deliveries[1].status == PENDING && s.queue == []
  {
    var e0 := CreateWebhook(owner, webhook.url, webhook.events, webhook.description);
    var e1 := EnqueueDelivery(0, eventType, payload, now);
    var e2 := UpdateWebhook(owner, 0, webhook.url, webhook.events, webhook.description, false);
    var e3 := ProcessJob(0, o, at);
    ThreeSteps(INITIAL, e0, e1, e2);
    var s := Run(INITIAL, [e0, e1, e2]);
    assert s == Step(Step(Step(INITIAL, e0), e1), e2);
    hide Attempted, RetryDelay;
    assert s.queue == [Job(1, now)] && Takes(s, e3, 1) && !Attemptable(s, 1) && 1 in s.deliveries;
    assert [e0, e1, e2] + [e3] == [e0, e1, e2, e3] && [e0, e1, e2, e3][..3] == [e0, e1, e2];
    DroppedStep(INITIAL, [e0, e1, e2], e3, 1);
  }

  lemma ThreeSteps(s: State, e0: Event, e1: Event, e2: Event)
    ensures Run(s, [e0, e1, e2]) == Step(Step(Step(s, e0), e1), e2)
  {
    hide Step;
    assert [e0, e1, e2][..2] == [e0, e1] && [e0, e1][..1] == [e0];
    assert Run(s, [e0]) == Step(s, e0);
    assert Run(s, [e0, e1]) == Step(Step(s, e0), e1);
  }

  /** When the queue is empty, everything is DELIVERED or in the dead-letter queue, except what was dropped. */
  lemma DrainedMeansFinished(es: seq<Event>, id: Id)
    requires Run(INITIAL, es).queue == [] && id in Run(INITIAL, es).deliveries
    ensures Terminal(Run(INITIAL, es).deliveries[id]) <==> !Dropped(INITIAL, es, id)
  {
    UnfinishedHasJobUnlessDropped(es, id);
  }

  /** A dead letter per delivery in status DLQ, and none for the others. */
  lemma OneDeadLetterEach(es: seq<Event>, id: Id)
    requires id in Run(INITIAL, es).deliveries
    ensures multiset(Run(INITIAL, es).dlq)[id] ==
            var h := Attempts(INITIAL, es, id);
            if |h| == DEFAULT_MAX_ATTEMPTS && !h[|h| - 1] then 1 else 0
  {
    HistoryDecidesStatus(es, id);
    ReachableInvariant(es);
    var s := Run(INITIAL, es);
    assert Sound(s.deliveries[id]);
    NoDupMultiplicity(s.dlq, id);
    hide Run, Attempts, RetryDelay, JobFits;
  }

  // ---- progress and waiting ----

  /** How many more times a job can come back: the attempts its delivery has left. */
  function Weight(s: State, job: Job): nat {
    if job.deliveryId !in s.deliveries then 1 else
    var d := s.deliveries[job.deliveryId];
    if d.attemptCount < d.maxAttempts then d.maxAttempts - d.attemptCount else 1
  }

  function Weights(s: State, q: seq<Job>): nat {
    if q == [] then 0 else Weight(s, q[0]) + Weights(s, q[1..])
  }

  function Potential(s: State): nat {
    Weights(s, s.queue)
  }

  lemma {:induction false} WeightsAppend(s: State, q: seq<Job>, r: seq<Job>)
    ensures Weights(s, q + r) == Weights(s, q) + Weights(s, r)
  {
    if q == [] {
      assert q + r == r;
    } else {
      assert (q + r)[1..] == q[1..] + r;
      WeightsAppend(s, q[1..], r);
    }
  }

  lemma {:induction false} WeightsFrame(s: State, t: State, q: seq<Job>)
    requires forall job :: job in q ==> Weight(s, job) == Weight(t, job)
    ensures Weights(s, q) == Weights(t, q)
  {
    if q != [] {
      assert q[0] in q;
      WeightsFrame(s, t, q[1..]);
    }
  }

  lemma WeightsWithout(s: State, q: seq<Job>, k: nat)
    requires k < |q|
    ensures Weights(s, q) == Weights(s, Without(q, k)) + Weight(s, q[k])
  {
    assert q == q[..k] + ([q[k]] + q[k + 1..]);
    WeightsAppend(s, q[..k], [q[k]] + q[k + 1..]);
    WeightsAppend(s, [q[k]], q[k + 1..]);
    WeightsAppend(s, q[..k], q[k + 1..]);
  }

  lemma OthersKeepWeight(s: State, k: nat, o: Outcome, at: Clock)
    requires Invariant(s) && k < |s.queue|
    ensures Weights(Process(s, k, o, at), Without(s.queue, k)) == Weights(s, Without(s.queue, k))
  {
    hide Attempted, Sound, RetryDelay, JobFits, Process, Weight;
    var t := Process(s, k, o, at);
    var q := Without(s.queue, k);
    WithoutFacts(s.queue, k);
    forall job | job in q
      ensures Weight(s, job) == Weight(t, job)
    {
      var i :| 0 <= i < |q| && q[i] == job;
      assert HasJob(q, job.deliveryId);
      OtherKeepsWeight(s, k, o, at, job);
    }
    hide Process, Weight;
    WeightsFrame(s, t, q);
  }

  lemma OtherKeepsWeight(s: State, k: nat, o: Outcome, at: Clock, job: Job)
    requires k < |s.queue| && job.deliveryId != s.queue[k].deliveryId
    ensures Weight(Process(s, k, o, at), job) == Weight(s, job)
  {
    hide Attempted, RetryDelay, Without;
  }

  /** A retry leaves its delivery one attempt less. */
  lemma FollowUpWeighsLess(s: State, k: nat, o: Outcome, at: Clock)
    requires Invariant(s) && k < |s.queue|
    ensures var t, q := Process(s, k, o, at), Without(s.queue, k);
            t.queue == q || (|t.queue| == |q| + 1 && t.queue == q + [t.queue[|q|]]
                && Weight(t, t.queue[|q|]) < Weight(s, s.queue[k]))
  {
    hide RetryDelay, ErrorText;
    assert JobFits(s, s.queue[k]);
  }

  /** Taking a job, whatever comes of it, uses up some of the potential. */
  lemma ProcessLowersPotential(s: State, k: nat, o: Outcome, at: Clock)
    requires Invariant(s) && k < |s.queue|
    ensures Potential(Process(s, k, o, at)) < Potential(s)
  {
    hide Process, Weight, Without, Invariant;
    var t, q := Process(s, k, o, at), Without(s.queue, k);
    WeightsWithout(s, s.queue, k);
    OthersKeepWeight(s, k, o, at);
    FollowUpWeighsLess(s, k, o, at);
    WeighsSomething(s, s.queue[k]);
    if t.queue != q {
      WeightsAppend(t, q, [t.queue[|q|]]);
    }
  }

  lemma WeighsSomething(s: State, job: Job)
    ensures Weight(s, job) > 0
  {
  }

  /** The events are all worker runs that find a job to take. */
  predicate AllTake(s: State, es: seq<Event>)
    decreases |es|
  {
    es == [] ||
    var init, e := es[..|es| - 1], es[|es| - 1];
    var r := Run(s, init);
    AllTake(s, init) && e.ProcessJob? && CanTake(r, e.index, e.at)
  }

  /** Without new requests the workers finish: they take at most as many jobs as there is potential. */
  lemma {:induction false} WorkersFinish(s: State, es: seq<Event>)
    requires Invariant(s) && AllTake(s, es)
    ensures Invariant(Run(s, es)) && |es| + Potential(Run(s, es)) <= Potential(s)
    decreases |es|
  {
    if es != [] {
      var init, e := es[..|es| - 1], es[|es| - 1];
      WorkersFinish(s, init);
      ProcessLowersPotential(Run(s, init), e.index, e.outcome, e.at);
      StepKeepsInvariant(Run(s, init), e);
    }
  }

  lemma {:induction false} RunAppend(s: State, e: Event, es: seq<Event>)
    ensures Run(s, [e] + es) == Run(Step(s, e), es)
    decreases |es|
  {
    var all := [e] + es;
    if es == [] {
      assert all[..0] == [];
      assert Run(s, []) == s;
    } else {
      assert all[..|all| - 1] == [e] + es[..|es| - 1];
      RunAppend(s, e, es[..|es| - 1]);
    }
  }

  /** From every reachable state the queue can be emptied, whatever each of the requests comes to. */
  lemma {:induction false} QueueCanDrain(s: State, outcomes: nat -> Outcome, done: nat) returns (es: seq<Event>)
    requires Invariant(s)
    ensures AllTake(s, es) && Run(s, es).queue == []
    ensures forall i :: 0 <= i < |es| ==> es[i].ProcessJob? && es[i].outcome == outcomes(done + i)
    decreases Potential(s)
  {
    hide Process, Invariant, Weights;
    if s.queue == [] {
      es := [];
    } else {
      var now := s.queue[0].readyAt;
      var e := ProcessJob(0, outcomes(done), Clock(now, now, now));
      ProcessLowersPotential(s, 0, outcomes(done), e.at);
      StepKeepsInvariant(s, e);
      var rest := QueueCanDrain(Step(s, e), outcomes, done + 1);
      es := [e] + rest;
      RunAppend(s, e, rest);
      TakesAppend(s, e, rest);
    }
  }

  lemma {:induction false} TakesAppend(s: State, e: Event, es: seq<Event>)
    requires e.ProcessJob? && CanTake(s, e.index, e.at) && AllTake(Step(s, e), es)
    ensures AllTake(s, [e] + es)
    decreases |es|
  {
    hide Process;
    var all := [e] + es;
    if es == [] {
      assert all[..0] == [] && Run(s, []) == s;
    } else {
      assert all[..|all| - 1] == [e] + es[..|es| - 1];
      TakesAppend(s, e, es[..|es| - 1]);
      RunAppend(s, e, es[..|es| - 1]);
    }
  }

  /** Workers that take jobs as long as there are any leave an empty queue behind, whatever happens on the way. */
  lemma MaximalRunDrains(s: State, es: seq<Event>)
    requires AllTake(s, es) && forall e :: !AllTake(s, es + [e])
    ensures Run(s, es).queue == []
  {
    if Run(s, es).queue != [] {
      var e := CanTakeOneMore(s, es);
    }
  }

  lemma CanTakeOneMore(s: State, es: seq<Event>) returns (e: Event)
    requires AllTake(s, es) && Run(s, es).queue != []
    ensures AllTake(s, es + [e])
  {
    hide Step;
    var now := Run(s, es).queue[0].readyAt;
    e := ProcessJob(0, NetworkError(""), Clock(now, now, now));
    assert (es + [e])[..|es|] == es;
  }

  /** An attempt after a failure never starts before the announced delay has passed. */
  lemma RetryWaitsItsDelay(s: State, e: Event, id: Id)
    requires Invariant(s) && id in s.deliveries && Takes(s, e, id) && s.deliveries[id].status == FAILED
    ensures var d := s.deliveries[id];
            0 < d.attemptCount < DEFAULT_MAX_ATTEMPTS
            && e.at.started >= d.lastAttemptAt.value + RetryDelay(d.attemptCount)
            && RetryDelay(d.attemptCount) <= 3_600_000
  {
    assert JobFits(s, s.queue[e.index]);
  }

  /** The delays announced after the first n failed attempts. */
  function TotalDelay(n: nat): nat {
    if n == 0 then 0 else TotalDelay(n - 1) + RetryDelay(n)
  }

  /** Retries announced so far for a delivery. */
  function Retries(d: Delivery): nat {
    if d.status == FAILED then d.attemptCount else if d.attemptCount == 0 then 0 else d.attemptCount - 1
  }

  /** With the default number of attempts the announced waiting never exceeds 81 minutes; running out reaches it. */
  lemma WaitingIsBounded(es: seq<Event>, id: Id)
    requires id in Run(INITIAL, es).deliveries
    ensures var d := Run(INITIAL, es).deliveries[id];
            TotalDelay(Retries(d)) <= 4_860_000 && (d.status == DLQ ==> TotalDelay(Retries(d)) == 4_860_000)
  {
    ReachableInvariant(es);
    var d := Run(INITIAL, es).deliveries[id];
    assert Sound(d);
    var n := Retries(d);
    assert n <= 4;
    assert TotalDelay(1) == 60_000 && TotalDelay(2) == 360_000;
    assert TotalDelay(3) == 1_260_000 && TotalDelay(4) == 4_860_000;
    assert n == 0 || n == 1 || n == 2 || n == 3 || n == 4;
  }
}
