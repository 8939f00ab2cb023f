/** What whole runs do to tokens: single use, how sessions end, and how verification settles. */
module TokenHistory {
  import opened Wrappers
  import opened Tokens

  // ---- refresh tokens are spent once ----

  /** The event exchanges or revokes this refresh token. */
  predicate Spends(s: State, e: Event, t: Token) {
    || (e.Refreshed? && e.token == t && Refresh(s, t, e.at).Ok?)
    || (e.LoggedOut? && e.token == t && Live(s, t))
  }

  function TimesSpent(es: seq<Event>, t: Token): nat
    decreases |es|
  {
    if es == [] then 0 else
    var init := es[..|es| - 1];
    TimesSpent(init, t) + if Spends(Run(INITIAL, init), es[|es| - 1], t) then 1 else 0
  }

  /** A step keeps a token's row, except that spending it sets the time it was revoked. */
  lemma StepOnRefreshToken(s: State, e: Event, t: Token)
    requires Invariant(s) && t in s.refreshTokens && t in Step(s, e).refreshTokens
    ensures Step(s, e).refreshTokens[t] ==
            if Spends(s, e, t) then s.refreshTokens[t].(revokedAt := Some(e.at)) else s.refreshTokens[t]
  {
    hide OneVerification;
    assert t < s.nextId;
  }

  lemma NewTokenIsLive(s: State, e: Event, t: Token)
    requires Invariant(s) && t !in s.refreshTokens
    ensures t < s.nextId ==> t !in Step(s, e).refreshTokens
    ensures t in Step(s, e).refreshTokens ==> Live(Step(s, e), t) && t < Step(s, e).nextId
    ensures !Spends(s, e, t)
  {
    hide OneVerification;
  }

  /**
   * In every run a refresh token is exchanged or logged out at most once altogether, and while its row exists
   * it is live exactly as long as that has not happened.
   */
  lemma {:induction false} SpentAtMostOnce(es: seq<Event>, t: Token)
    ensures TimesSpent(es, t) <= 1
    ensures t in Run(INITIAL, es).refreshTokens ==> (Live(Run(INITIAL, es), t) <==> TimesSpent(es, t) == 0)
    ensures t >= Run(INITIAL, es).nextId ==> TimesSpent(es, t) == 0
    decreases |es|
  {
    if es != [] {
      var init, e := es[..|es| - 1], es[|es| - 1];
      var s := Run(INITIAL, init);
      SpentAtMostOnce(init, t);
      ReachableInvariant(init);
      assert Spends(s, e, t) ==> Live(s, t);
      StepKeepsOwned(s, e);
      if t in s.refreshTokens {
        assert t < s.nextId;
        if t in Step(s, e).refreshTokens {
          StepOnRefreshToken(s, e, t);
        }
      } else {
        NewTokenIsLive(s, e, t);
      }
      hide Step, Invariant, Families, OneVerification, Owned;
    }
  }

  /** Rotation never outlives the login: it succeeds within ten hours of it, and hands on the same limit. */
  lemma RotationKeepsTheLimit(s: State, t: Token, now: int)
    requires Invariant(s) && Refresh(s, t, now).Ok?
    ensures var r := s.refreshTokens[t];
            && now <= r.loginAt + REFRESH_TTL
            && var next := Refresh(s, t, now).value.refreshTokens[s.nextId];
            && next.loginAt == r.loginAt && next.expiresAt == r.loginAt + REFRESH_TTL
            && next.family == r.family && next.member == r.member
            && !Live(Refresh(s, t, now).value, t) && Live(Refresh(s, t, now).value, s.nextId)
  {
    assert t < s.nextId;
    hide OneVerification;
  }

  // ---- how a session ends ----

  ghost predicate Alive(s: State, f: Token) {
    exists t :: Live(s, t) && s.refreshTokens[t].family == f
  }

  predicate Ends(s: State, e: Event, f: Token) {
    e.LoggedOut? && Live(s, e.token) && s.refreshTokens[e.token].family == f
  }

  predicate Ended(es: seq<Event>, f: Token)
    decreases |es|
  {
    es != [] && (Ended(es[..|es| - 1], f) || Ends(Run(INITIAL, es[..|es| - 1]), es[|es| - 1], f))
  }

  lemma {:induction false} UnstartedNotEnded(es: seq<Event>, f: Token)
    requires f >= Run(INITIAL, es).nextId
    ensures !Ended(es, f)
    decreases |es|
  {
    if es != [] {
      var s := Run(INITIAL, es[..|es| - 1]);
      ReachableInvariant(es[..|es| - 1]);
      StepKeepsOwned(s, es[|es| - 1]);
      UnstartedNotEnded(es[..|es| - 1], f);
      hide Step;
    }
  }

  lemma StepKeepsAlive(s: State, e: Event, f: Token)
    requires Invariant(s) && Alive(s, f) && f in Step(s, e).refreshTokens
    ensures Alive(Step(s, e), f) <==> !Ends(s, e, f)
  {
    var t: Token :| Live(s, t) && s.refreshTokens[t].family == f;
    var u := Step(s, e);
    assert t < s.nextId && f < s.nextId && s.refreshTokens[t].member == s.refreshTokens[f].member;
    if Ends(s, e, f) {
      assert e.token == t;
      forall k: Token | Live(u, k)
        ensures u.refreshTokens[k].family != f
      {
        assert k != t && Live(s, k);
      }
    } else if e.Refreshed? && e.token == t && Refresh(s, t, e.at).Ok? {
      assert Live(u, s.nextId) && u.refreshTokens[s.nextId].family == f;
    } else {
      SurvivesStep(s, e, t);
    }
  }

  lemma SurvivesStep(s: State, e: Event, t: Token)
    requires Invariant(s) && Live(s, t) && !Spends(s, e, t) && s.refreshTokens[t].family in Step(s, e).refreshTokens
    ensures Live(Step(s, e), t) && Step(s, e).refreshTokens[t] == s.refreshTokens[t]
  {
    hide OneVerification;
    assert t < s.nextId && s.refreshTokens[t].family < s.nextId;
  }

  lemma StepKeepsDead(s: State, e: Event, f: Token)
    requires Invariant(s) && !Alive(s, f) && f < s.nextId
    ensures !Alive(Step(s, e), f)
  {
    var u := Step(s, e);
    forall k: Token | Live(u, k)
      ensures u.refreshTokens[k].family != f
    {
      if k in s.refreshTokens {
        StepOnRefreshToken(s, e, k);
        assert Live(s, k);
      } else {
        hide OneVerification;
        assert u.refreshTokens[k].family == k >= s.nextId ||
               (e.Refreshed? && Live(s, e.token) && u.refreshTokens[k].family == s.refreshTokens[e.token].family);
      }
    }
  }

  lemma NewFamilyIsAlive(s: State, e: Event, f: Token)
    requires Invariant(s) && f !in s.refreshTokens && f in Step(s, e).refreshTokens
             && Step(s, e).refreshTokens[f].family == f
    ensures Alive(Step(s, e), f) && f >= s.nextId
  {
    NewTokenIsLive(s, e, f);
    hide Step, Invariant;
  }

  /** While its member exists, a login goes on exactly until one of its tokens is logged out; rotation never ends it. */
  lemma {:induction false} SessionLivesUntilLogout(es: seq<Event>, f: Token)
    requires f in Run(INITIAL, es).refreshTokens && Run(INITIAL, es).refreshTokens[f].family == f
    ensures Alive(Run(INITIAL, es), f) <==> !Ended(es, f)
    decreases |es|
  {
    if es != [] {
      var init, e := es[..|es| - 1], es[|es| - 1];
      var s := Run(INITIAL, init);
      ReachableInvariant(init);
      if f in s.refreshTokens {
        StepOnRefreshToken(s, e, f);
        assert s.refreshTokens[f].family == f && f < s.nextId;
        SessionLivesUntilLogout(init, f);
        FamilyStep(s, e, f);
        hide Step, Invariant, Alive, Ends;
      } else {
        NewFamilyIsAlive(s, e, f);
        UnstartedNotEnded(init, f);
        hide Step, Invariant, Alive;
        assert !Ends(s, e, f);
      }
    }
  }

  lemma FamilyStep(s: State, e: Event, f: Token)
    requires Invariant(s) && f < s.nextId && f in Step(s, e).refreshTokens
    ensures Alive(Step(s, e), f) <==> Alive(s, f) && !Ends(s, e, f)
  {
    if Alive(s, f) {
      StepKeepsAlive(s, e, f);
    } else {
      StepKeepsDead(s, e, f);
    }
  }

  // ---- one-time tokens are accepted once ----

  predicate Accepts(s: State, e: Event, t: Token)
    requires Owned(s)
  {
    || (e.Reset? && e.token == t && ResetPassword(s, t, e.password, e.at).Ok?)
    || (e.Verified? && e.token == t && VerifyEmail(s, t, e.at).Ok?)
  }

  function TimesAccepted(es: seq<Event>, t: Token): nat
    decreases |es|
  {
    if es == [] then 0 else
    var init := es[..|es| - 1];
    TimesAccepted(init, t) + if Accepts(Run(INITIAL, init), es[|es| - 1], t) then 1 else 0
  }

  lemma StepOnActionToken(s: State, e: Event, t: Token)
    requires Invariant(s)
    ensures t in s.actionTokens && t in Step(s, e).actionTokens && s.actionTokens[t].usedAt.Some? ==>
              Step(s, e).actionTokens[t] == s.actionTokens[t]
    ensures t < s.nextId && t !in s.actionTokens ==> t !in Step(s, e).actionTokens
    ensures Accepts(s, e, t) ==> t in s.actionTokens && s.actionTokens[t].usedAt.None?
    ensures Accepts(s, e, t) ==> t in Step(s, e).actionTokens && Step(s, e).actionTokens[t].usedAt.Some?
  {
    hide Families;
  }

  /** A used token is never accepted, so no reset or verification token is accepted twice in any run. */
  lemma {:induction false} AcceptedAtMostOnce(es: seq<Event>, t: Token)
    ensures TimesAccepted(es, t) <= 1
    ensures t in Run(INITIAL, es).actionTokens && TimesAccepted(es, t) == 1 ==>
            Run(INITIAL, es).actionTokens[t].usedAt.Some?
    ensures t >= Run(INITIAL, es).nextId ==> TimesAccepted(es, t) == 0
    decreases |es|
  {
    if es != [] {
      var init, e := es[..|es| - 1], es[|es| - 1];
      var s := Run(INITIAL, init);
      AcceptedAtMostOnce(init, t);
      ReachableInvariant(init);
      StepKeepsOwned(s, e);
      StepOnActionToken(s, e, t);
      assert t in s.actionTokens ==> t < s.nextId;
      hide Step, Invariant, Families, OneVerification, Owned, Accepts;
    }
  }

  // ---- verification ----

  /** No verified member has an unused verification token left. */
  ghost predicate Settled(s: State) {
    forall t, id :: Unused(s, t, id) && id in s.members ==> !s.members[id].verified
  }

  /** The seed marks a member verified who still has a token waiting. */
  ghost predicate Unsettles(s: State, e: Event) {
    e.Seeded? && ByEmail(s, e.email, e.found) && e.found.Some? && exists t :: Unused(s, t, e.found.value)
  }

  /** Only that seed can leave a verified member with an unused verification token. */
  lemma SettledUnlessSeeded(s: State, e: Event)
    requires Invariant(s) && Settled(s)
    ensures Settled(Step(s, e)) <==> !Unsettles(s, e)
  {
    hide Families;
    var u := Step(s, e);
    if e.Verified? && VerifyEmail(s, e.token, e.at).Ok? {
      var id := s.actionTokens[e.token].member;
      assert Unused(s, e.token, id);
      assert forall t, k :: Unused(u, t, k) ==> Unused(s, t, k) && t != e.token;
    } else if Unsettles(s, e) {
      var t: Token :| Unused(s, t, e.found.value);
      assert Unused(u, t, e.found.value);
    } else if e.Resent? && ResendVerification(s, e.member, e.at).Ok? {
      assert forall t, k :: Unused(u, t, k) ==> Unused(s, t, k) || k == e.member;
    } else if !e.Verified? && !e.Resent? {
      OldOrFresh(s, e);
    }
  }

  lemma OldOrFresh(s: State, e: Event)
    requires Invariant(s) && !e.Verified? && !e.Resent?
    ensures forall t, k :: Unused(Step(s, e), t, k) ==> Unused(s, t, k) || k == s.nextId
  {
    hide Families;
  }

  lemma {:induction false} SettledWithoutSeeds(es: seq<Event>)
    requires forall k :: 0 <= k < |es| ==> !es[k].Seeded?
    ensures Settled(Run(INITIAL, es))
    decreases |es|
  {
    if es != [] {
      SettledWithoutSeeds(es[..|es| - 1]);
      ReachableInvariant(es[..|es| - 1]);
      hide Step, Invariant, Settled;
      SettledUnlessSeeded(Run(INITIAL, es[..|es| - 1]), es[|es| - 1]);
    }
  }

  lemma TwoSteps(s: State, e0: Event, e1: Event)
    requires Owned(s) && Owned(Step(s, e0))
    ensures Run(s, [e0, e1]) == Step(Step(s, e0), e1)
  {
    hide Step;
    assert [e0, e1][..1] == [e0];
    assert Run(s, [e0]) == Step(s, e0);
  }

  /** A run to that state: a member registers, is seeded as administrator, and then follows the link in the e-mail. */
  lemma AlreadyVerifiedIsReachable(email: string, first: string, second: string, at: int, now: int)
    requires at <= now <= at + EMAIL_VERIFICATION_TTL
    ensures var s := Run(INITIAL, [Registered(email, first, None, at), Seeded(email, second, Some(0))]);
            VerifyEmail(s, 2, now).Ok? && VerifyEmail(s, 2, now).value.1
  {
    var e0, e1 := Registered(email, first, None, at), Seeded(email, second, Some(0));
    assert Owned(INITIAL) && ByEmail(INITIAL, email, None);
    var s1 := Step(INITIAL, e0);
    assert s1.members == map[0 := Member(email, first, false)];
    assert s1.actionTokens == map[2 := ActionToken(0, EMAIL_VERIFICATION, at + EMAIL_VERIFICATION_TTL, None)];
    StepKeepsOwned(INITIAL, e0);
    TwoSteps(INITIAL, e0, e1);
    hide Run;
    assert ByEmail(s1, email, Some(0));
  }

  /** Where no existing member is seeded as verified, "already verified" is never the answer to a valid token. */
  lemma VerifiesOnlyOnce(s: State, t: Token, now: int)
    requires Invariant(s) && Settled(s) && VerifyEmail(s, t, now).Ok?
    ensures !VerifyEmail(s, t, now).value.1
    ensures VerifyEmail(s, t, now).value.0.members[s.actionTokens[t].member].verified
    ensures ResendVerification(VerifyEmail(s, t, now).value.0, s.actionTokens[t].member, now) == Err(BadRequest)
  {
    assert Unused(s, t, s.actionTokens[t].member);
  }

  /** After a resend the new token is the only one of the member that verifies, for exactly twenty minutes. */
  lemma ResendReplaces(s: State, member: Id, at: int, t: Token, now: int)
    requires Invariant(s) && ResendVerification(s, member, at).Ok?
    ensures var u := ResendVerification(s, member, at).value;
            t in u.actionTokens && u.actionTokens[t].member == member ==>
              (Valid(u, t, EMAIL_VERIFICATION, now) <==> t == s.nextId && now <= at + 20 * 60 * 1000)
  {
    hide Families;
  }

  /** Verification is permanent. */
  lemma VerifiedStays(s: State, e: Event, id: Id)
    requires Invariant(s) && id in s.members && s.members[id].verified && id in Step(s, e).members
    ensures Step(s, e).members[id].verified
  {
    hide Families;
  }

  // ---- e-mail addresses ----

  ghost predicate DistinctEmails(s: State) {
    forall a, b :: a in s.members && b in s.members && s.members[a].email == s.members[b].email ==> a == b
  }

  /** Registering, inviting, seeding and changing a profile never give two members one e-mail. */
  lemma {:induction false} EmailsStayDistinct(es: seq<Event>)
    ensures DistinctEmails(Run(INITIAL, es))
    decreases |es|
  {
    if es != [] {
      EmailsStayDistinct(es[..|es| - 1]);
      ReachableInvariant(es[..|es| - 1]);
      hide Step, Invariant, DistinctEmails;
      StepKeepsEmailsDistinct(Run(INITIAL, es[..|es| - 1]), es[|es| - 1]);
    }
  }

  lemma StepKeepsEmailsDistinct(s: State, e: Event)
    requires Invariant(s) && DistinctEmails(s)
    ensures DistinctEmails(Step(s, e))
  {
    hide Families;
  }

  // ---- password resets ----

  /**
   * Unlike verification tokens, reset tokens accumulate: asking twice leaves two valid tokens, and using one
   * leaves the other valid and every session as it was.
   */
  lemma ResetTokensAccumulate(s: State, id: Id, password: string, now: int)
    requires Invariant(s) && id in s.members
    ensures var email := s.members[id].email;
            var s1 := ForgotPassword(s, email, Some(id), now);
            var s2 := ForgotPassword(s1, email, Some(id), now);
            && Owned(s2)
            && Valid(s2, s.nextId, PASSWORD_RESET, now) && Valid(s2, s.nextId + 1, PASSWORD_RESET, now)
            && var r := ResetPassword(s2, s.nextId, password, now);
            && r.Ok? && Valid(r.value, s.nextId + 1, PASSWORD_RESET, now)
            && r.value.refreshTokens == s.refreshTokens
  {
  }
}
