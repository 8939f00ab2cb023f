/** When a delivery's attempts start: exactly so long after the one before, for workers that take jobs at once. */
module WebhookTiming {
  import opened Wrappers
  import opened WebhookProtocol

  /** The waits before the second to the fifth attempt, in milliseconds. */
  const WAITS: seq<nat> := [60_000, 300_000, 900_000, 3_600_000]

  /** When the run created this delivery. */
  function CreatedAt(es: seq<Event>, id: Id): nat
    decreases |es|
  {
    if es == [] then 0 else
    var init, e := es[..|es| - 1], es[|es| - 1];
    if id !in Run(INITIAL, init).deliveries && id in Run(INITIAL, es).deliveries then
      (match e
       case EnqueueDelivery(_, _, _, now) => now
       case RetryDelivery(_, _, now) => now
       case _ => 0)
    else CreatedAt(init, id)
  }

  /** The clock readings of the attempts that the run made for this delivery, in order. */
  function Clocks(es: seq<Event>, id: Id): seq<Clock>
    decreases |es|
  {
    if es == [] then [] else
    var init, e := es[..|es| - 1], es[|es| - 1];
    Clocks(init, id) + if Takes(Run(INITIAL, init), e, id) && Attemptable(Run(INITIAL, init), id) then [e.at] else []
  }

  /** When the attempt after these may start: the last one's end and its wait, or the creation before the first. */
  function NextStart(created: nat, cs: seq<Clock>): nat
    requires |cs| <= 4
  {
    if cs == [] then created else cs[|cs| - 1].queued + WAITS[|cs| - 1]
  }

  /** Attempts are at most five, and none starts before its time. */
  ghost predicate Spaced(created: nat, cs: seq<Clock>) {
    && |cs| <= 5
    && forall k :: 0 <= k < |cs| ==> Forward(cs[k]) && cs[k].started >= NextStart(created, cs[..k])
  }

  /** The delivery's retry time and its job's are its last attempt's failure and end, each with the wait added. */
  ghost predicate Timed(s: State, id: Id, created: nat, cs: seq<Clock>)
    requires id in s.deliveries
  {
    && s.deliveries[id].attemptCount == |cs|
    && (s.deliveries[id].status == FAILED ==>
          0 < |cs| <= 4 && s.deliveries[id].nextRetryAt == Some(cs[|cs| - 1].failed + WAITS[|cs| - 1]))
    && forall i :: 0 <= i < |s.queue| && s.queue[i].deliveryId == id ==>
         |cs| <= 4 && s.queue[i].readyAt == NextStart(created, cs)
  }

  lemma DelayIsWait(n: nat)
    requires 0 < n <= 4
    ensures RetryDelay(n) == WAITS[n - 1]
  {
  }

  lemma AttemptTimed(s: State, e: Event, id: Id, created: nat, cs: seq<Clock>)
    requires Invariant(s) && id in s.deliveries && Takes(s, e, id) && Attemptable(s, id)
    requires Timed(s, id, created, cs) && Spaced(created, cs)
    ensures id in Step(s, e).deliveries
    ensures Timed(Step(s, e), id, created, cs + [e.at]) && Spaced(created, cs + [e.at])
  {
    var d := s.deliveries[id];
    assert JobFits(s, s.queue[e.index]) && Sound(d);
    assert s.queue[e.index].readyAt == NextStart(created, cs);
    AttemptedSound(d, e.outcome, e.at);
    OneMoreSpaced(created, cs, e.at);
    hide RetryDelay, Attempted, Sound, JobFits, NextStart, Spaced;
    var t := Step(s, e);
    WithoutFacts(s.queue, e.index);
    var q := Without(s.queue, e.index);
    assert !HasJob(q, id);
    assert forall i :: 0 <= i < |q| ==> q[i].deliveryId != id;
    NextTimed(t, id, created, cs, e.at);
  }

  lemma OneMoreSpaced(created: nat, cs: seq<Clock>, at: Clock)
    requires Spaced(created, cs) && |cs| <= 4 && Forward(at) && at.started >= NextStart(created, cs)
    ensures Spaced(created, cs + [at])
  {
    hide NextStart;
    var all := cs + [at];
    forall k | 0 <= k < |all|
      ensures Forward(all[k]) && all[k].started >= NextStart(created, all[..k])
    {
      assert all[..k] == cs[..k];
      assert cs[..|cs|] == cs;
    }
  }

  lemma NextTimed(t: State, id: Id, created: nat, cs: seq<Clock>, at: Clock)
    requires id in t.deliveries && t.deliveries[id].attemptCount == |cs| + 1 <= 5
    requires t.deliveries[id].status == FAILED ==>
               |cs| + 1 < 5 && t.deliveries[id].nextRetryAt == Some(at.failed + RetryDelay(|cs| + 1))
    requires forall i :: 0 <= i < |t.queue| && t.queue[i].deliveryId == id ==>
               t.deliveries[id].status == FAILED && t.queue[i].readyAt == at.queued + RetryDelay(|cs| + 1)
    ensures Timed(t, id, created, cs + [at])
  {
    hide RetryDelay;
    if |cs| + 1 <= 4 {
      DelayIsWait(|cs| + 1);
    }
  }

  /** Other events leave a delivery and its job alone. */
  lemma OtherTimed(s: State, e: Event, id: Id, created: nat, cs: seq<Clock>)
    requires Invariant(s) && id in s.deliveries && id in Step(s, e).deliveries && Timed(s, id, created, cs)
    requires !(Takes(s, e, id) && Attemptable(s, id))
    ensures Timed(Step(s, e), id, created, cs)
  {
    StepOnDelivery(s, e, id);
    hide RetryDelay, Attempted, Sound, JobFits, NextStart;
    var t := Step(s, e);
    forall i | 0 <= i < |t.queue| && t.queue[i].deliveryId == id
      ensures t.queue[i] in s.queue
    {
    }
  }

  lemma NewTimed(s: State, e: Event, id: Id)
    requires Invariant(s) && id !in s.deliveries && id in Step(s, e).deliveries
    ensures e.EnqueueDelivery? || e.RetryDelivery?
    ensures Timed(Step(s, e), id, e.now, [])
  {
    NewDeliveryIsPending(s, e, id);
    NoJobYet(s);
    hide RetryDelay, Attempted, Sound, JobFits;
    var t := Step(s, e);
    assert forall i :: 0 <= i < |s.queue| ==> s.queue[i].deliveryId != id;
  }

  lemma TakesKnown(s: State, e: Event, id: Id)
    requires Invariant(s)
    ensures Takes(s, e, id) ==> id < s.nextId
  {
    hide RetryDelay, Sound;
    if Takes(s, e, id) {
      assert JobFits(s, s.queue[e.index]);
    }
  }

  lemma {:induction false} UnknownHasNoClocks(es: seq<Event>, id: Id)
    requires id >= Run(INITIAL, es).nextId
    ensures Clocks(es, id) == []
    decreases |es|
  {
    if es != [] {
      var init := es[..|es| - 1];
      var s, e := Run(INITIAL, init), es[|es| - 1];
      ReachableInvariant(init);
      NextIdGrows(s, e);
      UnknownHasNoClocks(init, id);
      TakesKnown(s, e, id);
      hide Step, Takes;
    }
  }

  /**
   * In every run: a delivery has had at most five attempts, each no earlier than its wait after the end of the one
   * before; its retry time is the last failure's plus the wait, and its job is ready exactly at the next start.
   */
  lemma {:induction false} AttemptsAreSpaced(es: seq<Event>, id: Id)
    requires id in Run(INITIAL, es).deliveries
    ensures Timed(Run(INITIAL, es), id, CreatedAt(es, id), Clocks(es, id))
    ensures Spaced(CreatedAt(es, id), Clocks(es, id))
    decreases |es|
  {
    if es != [] {
      var init := es[..|es| - 1];
      var s, e := Run(INITIAL, init), es[|es| - 1];
      ReachableInvariant(init);
      if id in s.deliveries {
        AttemptsAreSpaced(init, id);
        var created, cs := CreatedAt(init, id), Clocks(init, id);
        if Takes(s, e, id) && Attemptable(s, id) {
          AttemptTimed(s, e, id, created, cs);
        } else {
          OtherTimed(s, e, id, created, cs);
          assert cs + [] == cs;
        }
      } else {
        NewTimed(s, e, id);
        NewDeliveryIsPending(s, e, id);
        UnknownHasNoClocks(init, id);
      }
      hide Step, Invariant, Timed, Spaced, Takes, Attemptable;
    }
  }

  /** A job is ready its delivery's two clock readings apart from the announced time, so exactly then if they agree. */
  lemma JobReadyWhenAnnounced(es: seq<Event>, i: nat)
    requires i < |Run(INITIAL, es).queue|
    ensures var s, id := Run(INITIAL, es), Run(INITIAL, es).queue[i].deliveryId;
            id in s.deliveries && s.deliveries[id].status == FAILED ==>
              var cs := Clocks(es, id);
              && cs != [] && s.deliveries[id].nextRetryAt.Some?
              && s.queue[i].readyAt
                 == s.deliveries[id].nextRetryAt.value + (cs[|cs| - 1].queued - cs[|cs| - 1].failed)
  {
    var id := Run(INITIAL, es).queue[i].deliveryId;
    if id in Run(INITIAL, es).deliveries {
      AttemptsAreSpaced(es, id);
    }
    hide Run, Clocks, CreatedAt;
  }

  // ---- workers that take jobs at once ----

  /** Every job of the delivery is taken as it becomes ready. */
  predicate Prompt(es: seq<Event>, id: Id)
    decreases |es|
  {
    es == [] ||
    var init, e := es[..|es| - 1], es[|es| - 1];
    var s := Run(INITIAL, init);
    Prompt(init, id) && (Takes(s, e, id) ==> e.at.started == s.queue[e.index].readyAt)
  }

  ghost predicate BackToBack(created: nat, cs: seq<Clock>) {
    |cs| <= 5 && forall k :: 0 <= k < |cs| ==> cs[k].started == NextStart(created, cs[..k])
  }

  /** With such workers each attempt starts exactly its wait after the one before. */
  lemma {:induction false} PromptStarts(es: seq<Event>, id: Id)
    requires id in Run(INITIAL, es).deliveries && Prompt(es, id)
    ensures BackToBack(CreatedAt(es, id), Clocks(es, id))
    decreases |es|
  {
    hide *;
    LastEvent(es, id);
    var init := es[..|es| - 1];
    var s, e := Run(INITIAL, init), es[|es| - 1];
    ReachableInvariant(init);
    if id in s.deliveries {
      PromptStarts(init, id);
      AttemptsAreSpaced(init, id);
      PromptStep(s, e, id, CreatedAt(init, id), Clocks(init, id));
    } else {
      NewDeliveryIsPending(s, e, id);
      UnknownHasNoClocks(init, id);
      TakesKnown(s, e, id);
      NothingYet(CreatedAt(es, id));
    }
  }

  lemma LastEvent(es: seq<Event>, id: Id)
    requires id in Run(INITIAL, es).deliveries && Prompt(es, id)
    ensures es != []
    ensures var init, e := es[..|es| - 1], es[|es| - 1];
            var s := Run(INITIAL, init);
            && Run(INITIAL, es) == Step(s, e) && Prompt(init, id)
            && (Takes(s, e, id) ==> e.index < |s.queue| && e.at.started == s.queue[e.index].readyAt)
            && (id in s.deliveries ==> CreatedAt(es, id) == CreatedAt(init, id))
            && Clocks(es, id) == Clocks(init, id) + if Takes(s, e, id) && Attemptable(s, id) then [e.at] else []
  {
    hide Step, Attemptable;
  }

  lemma NothingYet(created: nat)
    ensures BackToBack(created, [])
  {
  }

  lemma PromptStep(s: State, e: Event, id: Id, created: nat, cs: seq<Clock>)
    requires id in s.deliveries && Timed(s, id, created, cs) && BackToBack(created, cs)
    requires Takes(s, e, id) ==> e.at.started == s.queue[e.index].readyAt
    ensures BackToBack(created, cs + if Takes(s, e, id) && Attemptable(s, id) then [e.at] else [])
  {
    hide BackToBack, NextStart, Attemptable;
    if Takes(s, e, id) && Attemptable(s, id) {
      TakenAtNextStart(s, e, id, created, cs);
      OneMoreBackToBack(created, cs, e.at);
    } else {
      assert cs + [] == cs;
    }
  }

  lemma TakenAtNextStart(s: State, e: Event, id: Id, created: nat, cs: seq<Clock>)
    requires id in s.deliveries && Timed(s, id, created, cs) && Takes(s, e, id)
    ensures |cs| <= 4 && s.queue[e.index].readyAt == NextStart(created, cs)
  {
  }

  lemma OneMoreBackToBack(created: nat, cs: seq<Clock>, at: Clock)
    requires BackToBack(created, cs) && |cs| <= 4 && at.started == NextStart(created, cs)
    ensures BackToBack(created, cs + [at])
  {
    hide NextStart;
    var all := cs + [at];
    forall k | 0 <= k < |all|
      ensures all[k].started == NextStart(created, all[..k])
    {
      assert all[..k] == cs[..k];
      assert cs[..|cs|] == cs;
    }
  }

  /** The time that attempts took, from start to queueing their follow-up. */
  function Spent(cs: seq<Clock>): int {
    if cs == [] then 0 else Spent(cs[..|cs| - 1]) + cs[|cs| - 1].queued - cs[|cs| - 1].started
  }

  /** The waits before the first n retries. */
  function Waited(n: nat): nat
    requires n <= 4
  {
    if n == 0 then 0 else Waited(n - 1) + WAITS[n - 1]
  }

  lemma WaitedAtMost(n: nat)
    requires n <= 4
    ensures Waited(n) <= 4_860_000 && (n == 4 ==> Waited(n) == 4_860_000)
  {
    assert Waited(1) == 60_000 && Waited(2) == 360_000;
    assert Waited(3) == 1_260_000 && Waited(4) == 4_860_000;
  }

  lemma {:induction false} EndOfAttempts(created: nat, cs: seq<Clock>)
    requires BackToBack(created, cs) && cs != []
    ensures cs[|cs| - 1].queued == created + Spent(cs) + Waited(|cs| - 1)
    decreases |cs|
  {
    var init := cs[..|cs| - 1];
    assert cs[|cs| - 1].started == NextStart(created, init);
    if init != [] {
      forall k | 0 <= k < |init|
        ensures init[k].started == NextStart(created, init[..k])
      {
        assert init[..k] == cs[..k];
      }
      EndOfAttempts(created, init);
    }
  }

  /** When the last attempt of the delivery ended, or the delivery was created. */
  function LastEnd(created: nat, cs: seq<Clock>): nat {
    if cs == [] then created else cs[|cs| - 1].queued
  }

  /**
   * With workers that take its jobs at once, a delivery that is never dropped is finished, or has a job that becomes
   * ready, within 4,860,000 ms of its creation and the time its attempts take.
   */
  lemma PromptWorkersFinishInTime(es: seq<Event>, id: Id)
    requires id in Run(INITIAL, es).deliveries && Prompt(es, id) && !Dropped(INITIAL, es, id)
    ensures var s, created, cs := Run(INITIAL, es), CreatedAt(es, id), Clocks(es, id);
            var limit := created + Spent(cs) + 4_860_000;
            if Terminal(s.deliveries[id]) then LastEnd(created, cs) <= limit
            else exists i :: 0 <= i < |s.queue| && s.queue[i].deliveryId == id && |cs| <= 4
                             && s.queue[i].readyAt == created + Spent(cs) + Waited(|cs|) <= limit
  {
    AttemptsAreSpaced(es, id);
    PromptStarts(es, id);
    UnfinishedHasJobUnlessDropped(es, id);
    var s, created, cs := Run(INITIAL, es), CreatedAt(es, id), Clocks(es, id);
    hide Run, Clocks, CreatedAt, Prompt, Dropped;
    if cs != [] {
      EndOfAttempts(created, cs);
      WaitedAtMost(|cs| - 1);
    }
    if !Terminal(s.deliveries[id]) {
      var i :| 0 <= i < |s.queue| && s.queue[i].deliveryId == id;
      WaitedAtMost(|cs|);
    }
  }
}
