/** Which tier every key has after each step that moves a developer to another plan, and which plan a code names. */
module BillingKeys {
  import opened Wrappers
  import opened Billing
  import opened BillingExpiry
  import Calendar

  /** Exactly the active keys of the developer have the tier; all else about the keys is as it was. */
  ghost predicate Moved(before: seq<ApiKey>, after: seq<ApiKey>, developer: string, tier: string) {
    && |after| == |before|
    && forall i :: 0 <= i < |before| ==>
         after[i] == if before[i].isActive && before[i].developer == developer
                     then ApiKey(developer, true, tier) else before[i]
  }

  /** A paid request gives its plan's tier to the active keys of the payer's organization, if both are known. */
  lemma ApprovalMovesKeys(s: State, id: Id, admin: Id, notes: Option<string>, now: int)
    requires ApprovePayment(s, id, admin, notes, now).Ok?
    ensures var t, r := ApprovePayment(s, id, admin, notes, now).value, s.requests[id];
            if r.userId in s.members && r.plan in s.plans then Moved(s.keys, t.keys, s.members[r.userId], r.plan)
            else t.keys == s.keys
  {
    hide Calendar.NextMonth, Calendar.Day;
  }

  /** A run in which an approval raises a key: the developer pays for a plan and has an active key of another tier. */
  lemma ApprovalRaisesTier(userRequired: bool, user: Id, developer: string, code: string, plan: Plan, tier: string,
                           amount: int, admin: Id, at: int)
    ensures var s := Run(Initial(userRequired), [
              Catalogue(map[code := plan], map[user := developer], [ApiKey(developer, true, tier)]),
              SubmitPayment(user, None, code, amount), PaymentApproved(0, admin, None, at)]);
            && s.keys == [ApiKey(developer, true, code)]
            && |s.subscriptions| == 1 && ActiveOf(s.subscriptions, developer, 0)
  {
    var e0 := Catalogue(map[code := plan], map[user := developer], [ApiKey(developer, true, tier)]);
    var e1, e2 := SubmitPayment(user, None, code, amount), PaymentApproved(0, admin, None, at);
    ThreeSteps(Initial(userRequired), e0, e1, e2);
    hide Run, Calendar.NextMonth, Calendar.Day;
    var s := Step(Step(Initial(userRequired), e0), e1);
    assert s.requests == [Request(user, None, code, amount, RequestStatus.PENDING, None, None, None, None)];
    ApprovalMovesKeys(s, 0, admin, None, at);
  }

  /** Cancelling moves the developer's keys to the free plan, where there is one. */
  lemma CancelMovesKeys(s: State, developer: string, found: Option<Id>, now: int)
    requires OneActive(s.subscriptions, developer, found) && Cancel(s, developer, found, now).Ok?
    ensures var t := Cancel(s, developer, found, now).value;
            if "FREE" in s.plans then Moved(s.keys, t.keys, developer, "FREE") else t.keys == s.keys
  {
  }

  /** A change of plan moves the keys of the subscription's developer to the plan it leaves on the subscription. */
  lemma PlanChangeMovesKeys(s: State, id: Id, code: string, admin: Id)
    requires ChangePlan(s, id, code, admin).Ok?
    ensures var t := ChangePlan(s, id, code, admin).value;
            && id < |s.subscriptions| == |t.subscriptions|
            && t.subscriptions[id].plan in s.plans && s.plans[t.subscriptions[id].plan].isActive
            && Moved(s.keys, t.keys, s.subscriptions[id].developer, t.subscriptions[id].plan)
  {
    hide Upper;
  }

  /** An override does so if it names a plan, and leaves the keys alone otherwise. */
  lemma OverrideMovesKeys(s: State, id: Id, code: Option<string>, rate: Option<int>,
                          status: Option<SubscriptionStatus>, now: int)
    requires OverrideTier(s, id, code, rate, status, now).Ok?
    ensures var t := OverrideTier(s, id, code, rate, status, now).value;
            && id < |s.subscriptions| == |t.subscriptions|
            && if code.None? || code.value == "" then
                 t.keys == s.keys && t.subscriptions[id].plan == s.subscriptions[id].plan
               else
                 Moved(s.keys, t.keys, s.subscriptions[id].developer, t.subscriptions[id].plan)
  {
    hide Upper;
  }

  // ---- which plan a code names ----

  const SMALL := "abcdefghijklmnopqrstuvwxyz"
  const LARGE := "ABCDEFGHIJKLMNOPQRSTUVWXYZ"

  /** In a plan code each small letter stands for its capital and every other character for itself. */
  lemma LettersByAlphabet(code: string, i: nat)
    requires i < |code|
    ensures |Upper(code)| == |code|
    ensures forall k :: 0 <= k < 26 && code[i] == SMALL[k] ==> Upper(code)[i] == LARGE[k]
    ensures code[i] !in SMALL ==> Upper(code)[i] == code[i]
  {
    forall k | 0 <= k < 26
      ensures SMALL[k] as int == 'a' as int + k && LARGE[k] as int == 'A' as int + k
    {
      AlphabetAt(k);
    }
    if 'a' <= code[i] <= 'z' {
      assert code[i] == SMALL[code[i] as int - 'a' as int];
    }
  }

  lemma AlphabetAt(k: nat)
    requires k < 26
    ensures SMALL[k] as int == 'a' as int + k && LARGE[k] as int == 'A' as int + k
  {
  }

  /** So developers may spell a plan's code as they like: what they are subscribed to does not depend on it. */
  lemma SpellingIgnored(s: State, developer: string, code: string, spelled: string, found: Option<Id>, now: int)
    requires OneActive(s.subscriptions, developer, found)
    requires |spelled| == |code|
    requires forall i :: 0 <= i < |code| ==>
               spelled[i] == code[i] || exists k :: 0 <= k < 26 && code[i] == LARGE[k] && spelled[i] == SMALL[k]
    ensures Subscribe(s, developer, spelled, found, now) == Subscribe(s, developer, code, found, now)
  {
    hide Upper, Calendar.NextMonth, Calendar.Day;
    UpperOfSpelled(code, spelled);
  }

  lemma UpperOfSpelled(code: string, spelled: string)
    requires |spelled| == |code|
    requires forall i :: 0 <= i < |code| ==>
               spelled[i] == code[i] || exists k :: 0 <= k < 26 && code[i] == LARGE[k] && spelled[i] == SMALL[k]
    ensures Upper(spelled) == Upper(code)
  {
    forall i | 0 <= i < |code|
      ensures Upper(spelled)[i] == Upper(code)[i]
    {
      if k :| 0 <= k < 26 && code[i] == LARGE[k] && spelled[i] == SMALL[k] {
        AlphabetAt(k);
      }
    }
  }
}
