/** Which e-mail and password a member has after a run of events, and so which logins, rotations and resets succeed. */
module Credentials {
  import opened Wrappers
  import opened Tokens
  import opened TokenHistory

  /** The password that an event gives to a member, if it gives one. */
  function Gives(s: State, e: Event, id: Id): Option<string> {
    match e
    case Registered(email, password, found, _) =>
      if ByEmail(s, email, found) && found.None? && id == s.nextId then Some(password) else None
    case Invited(email, password, found) =>
      if ByEmail(s, email, found) && found.None? && id == s.nextId then Some(password) else None
    case Seeded(email, password, found) =>
      if ByEmail(s, email, found) && id == (if found.Some? then found.value else s.nextId) then Some(password) else None
    case ProfileUpdated(member, email, found, password) =>
      if && id == member && member in s.members && password.Some? && password.value != ""
         && (email.Some? && email.value != "" ==>
               ByEmail(s, email.value, found) && (found.None? || found.value == member))
      then password else None
    case Reset(t, password, at) =>
      if && t in s.actionTokens && s.actionTokens[t].member == id && s.actionTokens[t].purpose == PASSWORD_RESET
         && s.actionTokens[t].usedAt.None? && at <= s.actionTokens[t].expiresAt
      then Some(password) else None
    case _ => None
  }

  /** The password that the run gave this member last. */
  function LastPassword(es: seq<Event>, id: Id): Option<string>
    decreases |es|
  {
    if es == [] then None else
    var init := es[..|es| - 1];
    var given := Gives(Run(INITIAL, init), es[|es| - 1], id);
    if given.Some? then given else LastPassword(init, id)
  }

  lemma StepOnPassword(s: State, e: Event, id: Id)
    requires Invariant(s) && id in Step(s, e).members
    ensures var given := Gives(s, e, id);
            if given.Some? then Step(s, e).members[id].password == given.value
            else id in s.members && Step(s, e).members[id].password == s.members[id].password
  {
    hide Families;
  }

  /** In every run the password of a member is the one that an event gave it last. */
  lemma {:induction false} PasswordIsLastGiven(es: seq<Event>, id: Id)
    requires id in Run(INITIAL, es).members
    ensures LastPassword(es, id) == Some(Run(INITIAL, es).members[id].password)
    decreases |es|
  {
    var init, e := es[..|es| - 1], es[|es| - 1];
    ReachableInvariant(init);
    StepOnPassword(Run(INITIAL, init), e, id);
    if id in Run(INITIAL, init).members {
      PasswordIsLastGiven(init, id);
    }
    hide Step, Invariant, Gives;
  }

  /** The e-mail that an event gives to a member, if it gives one. */
  function GivesEmail(s: State, e: Event, id: Id): Option<string> {
    match e
    case Registered(email, _, found, _) =>
      if ByEmail(s, email, found) && found.None? && id == s.nextId then Some(email) else None
    case Invited(email, _, found) =>
      if ByEmail(s, email, found) && found.None? && id == s.nextId then Some(email) else None
    case Seeded(email, _, found) =>
      if ByEmail(s, email, found) && found.None? && id == s.nextId then Some(email) else None
    case ProfileUpdated(member, email, found, _) =>
      if && id == member && member in s.members && email.Some? && email.value != ""
         && ByEmail(s, email.value, found) && (found.None? || found.value == member)
      then email else None
    case _ => None
  }

  /** The e-mail that the run gave this member last. */
  function LastEmail(es: seq<Event>, id: Id): Option<string>
    decreases |es|
  {
    if es == [] then None else
    var init := es[..|es| - 1];
    var given := GivesEmail(Run(INITIAL, init), es[|es| - 1], id);
    if given.Some? then given else LastEmail(init, id)
  }

  lemma StepOnEmail(s: State, e: Event, id: Id)
    requires Invariant(s) && id in Step(s, e).members
    ensures var given := GivesEmail(s, e, id);
            if given.Some? then Step(s, e).members[id].email == given.value
            else id in s.members && Step(s, e).members[id].email == s.members[id].email
  {
    hide Families;
  }

  lemma {:induction false} EmailIsLastGiven(es: seq<Event>, id: Id)
    requires id in Run(INITIAL, es).members
    ensures LastEmail(es, id) == Some(Run(INITIAL, es).members[id].email)
    decreases |es|
  {
    var init, e := es[..|es| - 1], es[|es| - 1];
    ReachableInvariant(init);
    StepOnEmail(Run(INITIAL, init), e, id);
    if id in Run(INITIAL, init).members {
      EmailIsLastGiven(init, id);
    }
    hide Step, Invariant, GivesEmail;
  }

  /** The run gave the member this e-mail and this password last. */
  predicate HasCredentials(es: seq<Event>, id: Id, email: string, password: string) {
    id in Run(INITIAL, es).members && LastEmail(es, id) == Some(email) && LastPassword(es, id) == Some(password)
  }

  /** The state with one more refresh token, live for ten hours. */
  ghost predicate OpensSession(s: State, t: State, member: Id, now: int) {
    && t.members == s.members && t.actionTokens == s.actionTokens
    && t.refreshTokens.Keys == s.refreshTokens.Keys + {s.nextId}
    && (forall k :: k in s.refreshTokens && k != s.nextId ==> t.refreshTokens[k] == s.refreshTokens[k])
    && Live(t, s.nextId) && t.refreshTokens[s.nextId].member == member
    && t.refreshTokens[s.nextId].expiresAt == now + 36_000_000
  }

  /**
   * In every run a login succeeds exactly if some member was last given this e-mail and this password. It then opens
   * a session of that member for ten hours and changes nothing else.
   */
  lemma LoginIffLastGiven(es: seq<Event>, email: string, password: string, found: Option<Id>, now: int)
    requires ByEmail(Run(INITIAL, es), email, found)
    ensures var s := Run(INITIAL, es);
            && (Login(s, email, password, found, now).Ok? <==>
                exists id :: id in s.members && HasCredentials(es, id, email, password))
            && (Login(s, email, password, found, now).Ok? ==>
                found.Some? && HasCredentials(es, found.value, email, password)
                && OpensSession(s, Login(s, email, password, found, now).value, found.value, now))
  {
    var s := Run(INITIAL, es);
    forall id | id in s.members
      ensures HasCredentials(es, id, email, password) <==>
              s.members[id].email == email && s.members[id].password == password
    {
      PasswordIsLastGiven(es, id);
      EmailIsLastGiven(es, id);
    }
    EmailsStayDistinct(es);
    hide Run, HasCredentials;
  }

  /** In every run a refresh token is exchanged exactly if it was not before and its login is at most ten hours ago. */
  lemma RefreshIffUnspent(es: seq<Event>, t: Token, now: int)
    ensures Refresh(Run(INITIAL, es), t, now).Ok? <==>
            && t in Run(INITIAL, es).refreshTokens && TimesSpent(es, t) == 0
            && now <= Run(INITIAL, es).refreshTokens[t].loginAt + 36_000_000
  {
    ReachableInvariant(es);
    SpentAtMostOnce(es, t);
    hide Run, TimesSpent, OneVerification;
  }

  /** A reset token that was asked for with a member's e-mail sets this member's password, once within an hour. */
  lemma ResetWithinAnHour(s: State, email: string, id: Id, at: int, password: string, now: int)
    requires Invariant(s) && ByEmail(s, email, Some(id))
    ensures var s1 := ForgotPassword(s, email, Some(id), at);
            && Owned(s1)
            && var r := ResetPassword(s1, s.nextId, password, now);
            && (r.Ok? <==> now <= at + 3_600_000)
            && (r.Ok? ==> && r.value.members == s.members[id := s.members[id].(password := password)]
                          && ResetPassword(r.value, s.nextId, password, now) == Err(Unauthorized))
  {
    hide Families;
  }

  lemma StepKeepsOut(s: State, e: Event, m: Id)
    requires Invariant(s) && m < s.nextId && m !in s.members
    ensures m < Step(s, e).nextId && m !in Step(s, e).members
  {
    hide Families;
  }

  /** A removed member never comes back: in no later state is it a member or the owner of a token. */
  lemma {:induction false} RemovedForGood(s: State, m: Id, es: seq<Event>)
    requires Invariant(s) && m in s.members
    ensures var t := Run(Step(s, Removed(m)), es);
            && Invariant(t) && m < t.nextId && m !in t.members
            && (forall k :: k in t.refreshTokens ==> t.refreshTokens[k].member != m)
            && forall k :: k in t.actionTokens ==> t.actionTokens[k].member != m
    decreases |es|
  {
    if es == [] {
      StepKeepsInvariant(s, Removed(m));
      hide OneVerification;
      assert m < s.nextId;
    } else {
      var init, e := es[..|es| - 1], es[|es| - 1];
      var t := Run(Step(s, Removed(m)), init);
      RemovedForGood(s, m, init);
      StepKeepsOut(t, e, m);
      StepKeepsInvariant(t, e);
      hide Step, OneVerification;
    }
  }
}
