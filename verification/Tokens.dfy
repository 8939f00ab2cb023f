/**
 * Refresh tokens and one-time action tokens: login, rotation, logout, e-mail verification and password
 * reset, as functions on the stored rows. Random tokens are drawn from a counter, so none repeats; times are
 * milliseconds.
 */
module Tokens {
  import opened Wrappers

  type Id = nat
  type Token = nat

  const HOUR: int := 3_600_000
  const REFRESH_TTL: int := 10 * HOUR
  const PASSWORD_RESET_TTL: int := HOUR
  const EMAIL_VERIFICATION_TTL: int := 20 * 60_000
  const ACCESS_TOKEN_TTL: int := 900_000

  datatype Member = Member(email: string, password: string, verified: bool)

  /** `family` (the token of the login it descends from) and `loginAt` are history; the table has no such columns. */
  datatype RefreshToken = RefreshToken(member: Id, expiresAt: int, revokedAt: Option<int>, family: Token, loginAt: int)

  datatype Purpose = PASSWORD_RESET | EMAIL_VERIFICATION

  datatype ActionToken = ActionToken(member: Id, purpose: Purpose, expiresAt: int, usedAt: Option<int>)

  datatype State = State(members: map<Id, Member>, refreshTokens: map<Token, RefreshToken>,
                         actionTokens: map<Token, ActionToken>, nextId: nat)

  datatype Failure = Conflict | Unauthorized | NotFound | BadRequest

  const INITIAL := State(map[], map[], map[], 0)

  /** What the query for the member with this e-mail may return. */
  predicate ByEmail(s: State, email: string, found: Option<Id>) {
    if found.Some? then found.value in s.members && s.members[found.value].email == email
    else forall id :: id in s.members ==> s.members[id].email != email
  }

  function AddMember(s: State, m: Member): State {
    s.(members := s.members[s.nextId := m], nextId := s.nextId + 1)
  }

  function IssueRefresh(s: State, r: RefreshToken): State {
    s.(refreshTokens := s.refreshTokens[s.nextId := r], nextId := s.nextId + 1)
  }

  /** A first token starts a family of its own with a full lifetime. */
  function StartFamily(s: State, member: Id, now: int): State {
    IssueRefresh(s, RefreshToken(member, now + REFRESH_TTL, None, s.nextId, now))
  }

  function IssueAction(s: State, member: Id, purpose: Purpose, now: int): State {
    var ttl := if purpose == PASSWORD_RESET then PASSWORD_RESET_TTL else EMAIL_VERIFICATION_TTL;
    s.(actionTokens := s.actionTokens[s.nextId := ActionToken(member, purpose, now + ttl, None)],
       nextId := s.nextId + 1)
  }

  function Register(s: State, email: string, password: string, found: Option<Id>, now: int): Result<State, Failure>
    requires ByEmail(s, email, found)
  {
    if found.Some? then Err(Conflict) else
    var s1 := AddMember(s, Member(email, password, false));
    Ok(IssueAction(StartFamily(s1, s.nextId, now), s.nextId, EMAIL_VERIFICATION, now))
  }

  function Login(s: State, email: string, password: string, found: Option<Id>, now: int): Result<State, Failure>
    requires ByEmail(s, email, found)
  {
    if found.None? || s.members[found.value].password != password then Err(Unauthorized)
    else Ok(StartFamily(s, found.value, now))
  }

  predicate Live(s: State, t: Token) {
    t in s.refreshTokens && s.refreshTokens[t].revokedAt.None?
  }

  function Revoke(s: State, t: Token, now: int): State
    requires t in s.refreshTokens
  {
    s.(refreshTokens := s.refreshTokens[t := s.refreshTokens[t].(revokedAt := Some(now))])
  }

  /** The old token is revoked and a new one takes over its expiry. */
  function Refresh(s: State, t: Token, now: int): Result<State, Failure> {
    if !Live(s, t) || s.refreshTokens[t].expiresAt < now then Err(Unauthorized)
    else Ok(IssueRefresh(Revoke(s, t, now), s.refreshTokens[t]))
  }

  function Logout(s: State, t: Token, now: int): Result<State, Failure> {
    if !Live(s, t) then Err(NotFound) else Ok(Revoke(s, t, now))
  }

  /** The row a one-time token stands for: unused, of the right kind, and not expired. */
  predicate Valid(s: State, t: Token, purpose: Purpose, now: int) {
    && t in s.actionTokens && s.actionTokens[t].purpose == purpose
    && s.actionTokens[t].usedAt.None? && now <= s.actionTokens[t].expiresAt
  }

  function Use(s: State, t: Token, now: int): State
    requires t in s.actionTokens
  {
    s.(actionTokens := s.actionTokens[t := s.actionTokens[t].(usedAt := Some(now))])
  }

  function SetMember(s: State, id: Id, m: Member): State {
    s.(members := s.members[id := m])
  }

  function ForgotPassword(s: State, email: string, found: Option<Id>, now: int): State
    requires ByEmail(s, email, found)
  {
    if found.None? then s else IssueAction(s, found.value, PASSWORD_RESET, now)
  }

  function ResetPassword(s: State, t: Token, password: string, now: int): Result<State, Failure>
    requires t in s.actionTokens ==> s.actionTokens[t].member in s.members
  {
    if !Valid(s, t, PASSWORD_RESET, now) then Err(Unauthorized) else
    var id := s.actionTokens[t].member;
    Ok(Use(SetMember(s, id, s.members[id].(password := password)), t, now))
  }

  /** Also tells whether the member was verified already. */
  function VerifyEmail(s: State, t: Token, now: int): Result<(State, bool), Failure>
    requires t in s.actionTokens ==> s.actionTokens[t].member in s.members
  {
    if !Valid(s, t, EMAIL_VERIFICATION, now) then Err(Unauthorized) else
    var id := s.actionTokens[t].member;
    if s.members[id].verified then Ok((Use(s, t, now), true))
    else Ok((Use(SetMember(s, id, s.members[id].(verified := true)), t, now), false))
  }

  function InvalidateVerifications(s: State, member: Id, now: int): State {
    s.(actionTokens := map t | t in s.actionTokens ::
         if s.actionTokens[t].member == member && s.actionTokens[t].purpose == EMAIL_VERIFICATION
             && s.actionTokens[t].usedAt.None?
         then s.actionTokens[t].(usedAt := Some(now)) else s.actionTokens[t])
  }

  function ResendVerification(s: State, member: Id, now: int): Result<State, Failure> {
    if member !in s.members then Err(NotFound)
    else if s.members[member].verified then Err(BadRequest)
    else Ok(IssueAction(InvalidateVerifications(s, member, now), member, EMAIL_VERIFICATION, now))
  }

  /** Removing a member removes its tokens. */
  function Remove(s: State, member: Id): State {
    s.(members := s.members - {member},
       refreshTokens := map t | t in s.refreshTokens && s.refreshTokens[t].member != member :: s.refreshTokens[t],
       actionTokens := map t | t in s.actionTokens && s.actionTokens[t].member != member :: s.actionTokens[t])
  }

  /** The seed for the platform's administrator marks its e-mail verified without a token. */
  function SeedAdmin(s: State, email: string, password: string, found: Option<Id>): State
    requires ByEmail(s, email, found)
  {
    if found.Some? then SetMember(s, found.value, Member(email, password, true))
    else AddMember(s, Member(email, password, true))
  }

  /** A value that a request gives and that is not the empty string, which counts as not given. */
  predicate Given(v: Option<string>) {
    v.Some? && v.value != ""
  }

  /** Members may change their e-mail, to one that nobody else has, and their password. Verification stays. */
  function UpdateProfile(s: State, member: Id, email: Option<string>, found: Option<Id>, password: Option<string>):
      Result<State, Failure>
    requires Given(email) ==> ByEmail(s, email.value, found)
  {
    if member !in s.members then Err(NotFound)
    else if Given(email) && found.Some? && found.value != member then Err(Conflict)
    else
      var m := s.members[member];
      Ok(SetMember(s, member, m.(email := if Given(email) then email.value else m.email,
                                 password := if Given(password) then password.value else m.password)))
  }

  datatype Event =
    | Registered(email: string, password: string, found: Option<Id>, at: int)
    | Invited(email: string, password: string, found: Option<Id>)
    | Seeded(email: string, password: string, found: Option<Id>)
    | ProfileUpdated(member: Id, newEmail: Option<string>, found: Option<Id>, newPassword: Option<string>)
    | Removed(member: Id)
    | LoggedIn(email: string, password: string, found: Option<Id>, at: int)
    | Refreshed(token: Token, at: int)
    | LoggedOut(token: Token, at: int)
    | Forgot(email: string, found: Option<Id>, at: int)
    | Reset(token: Token, password: string, at: int)
    | Verified(token: Token, at: int)
    | Resent(member: Id, at: int)

  function Commit(s: State, r: Result<State, Failure>): State {
    if r.Ok? then r.value else s
  }

  /** One-time tokens belong to members. */
  predicate Owned(s: State) {
    forall t :: t in s.actionTokens ==> s.actionTokens[t].member in s.members
  }

  /** One event; a request that is refused, or that claims an impossible query result, changes nothing. */
  function Step(s: State, e: Event): State
    requires Owned(s)
  {
    match e
    case Registered(email, password, found, at) =>
      if ByEmail(s, email, found) then Commit(s, Register(s, email, password, found, at)) else s
    case Invited(email, password, found) =>
      if ByEmail(s, email, found) && found.None? then AddMember(s, Member(email, password, false)) else s
    case Seeded(email, password, found) => if ByEmail(s, email, found) then SeedAdmin(s, email, password, found) else s
    case ProfileUpdated(member, email, found, password) =>
      if Given(email) ==> ByEmail(s, email.value, found) then
        Commit(s, UpdateProfile(s, member, email, found, password))
      else s
    case Removed(member) => Remove(s, member)
    case LoggedIn(email, password, found, at) =>
      if ByEmail(s, email, found) then Commit(s, Login(s, email, password, found, at)) else s
    case Refreshed(t, at) => Commit(s, Refresh(s, t, at))
    case LoggedOut(t, at) => Commit(s, Logout(s, t, at))
    case Forgot(email, found, at) => if ByEmail(s, email, found) then ForgotPassword(s, email, found, at) else s
    case Reset(t, password, at) => Commit(s, ResetPassword(s, t, password, at))
    case Verified(t, at) => var r := VerifyEmail(s, t, at); if r.Ok? then r.value.0 else s
    case Resent(member, at) => Commit(s, ResendVerification(s, member, at))
  }

  // ---- the invariant ----

  /** Sessions that descend from one login share its member and its expiry, and at most one of them is live. */
  ghost predicate Families(s: State) {
    && (forall t :: t in s.refreshTokens ==>
          var r := s.refreshTokens[t];
          && r.family <= t < s.nextId
          && r.member in s.members
          && r.expiresAt == r.loginAt + REFRESH_TTL
          && r.family in s.refreshTokens
          && s.refreshTokens[r.family].member == r.member && s.refreshTokens[r.family].loginAt == r.loginAt
          && s.refreshTokens[r.family].family == r.family)
    && (forall t, u :: Live(s, t) && Live(s, u) && s.refreshTokens[t].family == s.refreshTokens[u].family ==> t == u)
  }

  predicate Unused(s: State, t: Token, member: Id) {
    && t in s.actionTokens && s.actionTokens[t].member == member
    && s.actionTokens[t].purpose == EMAIL_VERIFICATION && s.actionTokens[t].usedAt.None?
  }

  ghost predicate OneVerification(s: State) {
    && (forall t :: t in s.actionTokens ==> t < s.nextId)
    && (forall id :: id in s.members ==> id < s.nextId)
    && (forall t, u, id :: Unused(s, t, id) && Unused(s, u, id) ==> t == u)
  }

  ghost predicate Invariant(s: State) {
    Owned(s) && Families(s) && OneVerification(s)
  }

  lemma StepKeepsOwned(s: State, e: Event)
    requires Owned(s)
    ensures Owned(Step(s, e)) && s.nextId <= Step(s, e).nextId
  {
  }

  function Run(s: State, es: seq<Event>): (t: State)
    requires Owned(s)
    ensures Owned(t)
    decreases |es|
  {
    if es == [] then s else
    StepKeepsOwned(Run(s, es[..|es| - 1]), es[|es| - 1]);
    Step(Run(s, es[..|es| - 1]), es[|es| - 1])
  }

  // ---- refresh families ----

  /** A new token may join a family that has no live token, or found its own. */
  lemma IssueKeepsFamilies(s: State, r: RefreshToken)
    requires Families(s) && r.member in s.members && r.expiresAt == r.loginAt + REFRESH_TTL
    requires r.family == s.nextId || (r.family in s.refreshTokens && s.refreshTokens[r.family].family == r.family
               && s.refreshTokens[r.family].member == r.member && s.refreshTokens[r.family].loginAt == r.loginAt)
    requires forall u :: Live(s, u) ==> s.refreshTokens[u].family != r.family
    ensures Families(IssueRefresh(s, r))
  {
    var t := IssueRefresh(s, r);
    assert forall u :: u != s.nextId ==> (Live(t, u) <==> Live(s, u));
    forall u, v | Live(t, u) && Live(t, v) && t.refreshTokens[u].family == t.refreshTokens[v].family
      ensures u == v
    {
      assert u != s.nextId ==> Live(s, u);
      assert v != s.nextId ==> Live(s, v);
    }
  }

  lemma StartKeepsFamilies(s: State, member: Id, now: int)
    requires Families(s) && member in s.members
    ensures Families(StartFamily(s, member, now))
  {
    assert forall u :: Live(s, u) ==> s.refreshTokens[u].family < s.nextId;
    IssueKeepsFamilies(s, RefreshToken(member, now + REFRESH_TTL, None, s.nextId, now));
  }

  lemma RevokeKeepsFamilies(s: State, k: Token, now: int)
    requires Families(s) && k in s.refreshTokens
    ensures Families(Revoke(s, k, now))
    ensures forall u :: Live(Revoke(s, k, now), u) <==> Live(s, u) && u != k
  {
    var t := Revoke(s, k, now);
    assert forall u :: Live(t, u) <==> Live(s, u) && u != k;
  }

  lemma RefreshKeepsFamilies(s: State, k: Token, now: int)
    requires Families(s) && Refresh(s, k, now).Ok?
    ensures Families(Refresh(s, k, now).value)
  {
    var s1 := Revoke(s, k, now);
    RevokeKeepsFamilies(s, k, now);
    assert forall u :: Live(s1, u) ==> s1.refreshTokens[u].family != s.refreshTokens[k].family;
    IssueKeepsFamilies(s1, s.refreshTokens[k]);
  }

  lemma RemoveKeepsFamilies(s: State, member: Id)
    requires Families(s)
    ensures Families(Remove(s, member))
  {
    assert forall u :: Live(Remove(s, member), u) ==> Live(s, u);
  }

  lemma SameSessions(s: State, t: State)
    requires Families(s) && t.refreshTokens == s.refreshTokens && s.members.Keys <= t.members.Keys
             && s.nextId <= t.nextId
    ensures Families(t)
  {
    assert forall u :: Live(t, u) <==> Live(s, u);
  }

  lemma RegisterKeepsFamilies(s: State, email: string, password: string, found: Option<Id>, now: int)
    requires Families(s) && ByEmail(s, email, found) && Register(s, email, password, found, now).Ok?
    ensures Families(Register(s, email, password, found, now).value)
  {
    hide Families, Live;
    var s1 := AddMember(s, Member(email, password, false));
    SameSessions(s, s1);
    StartKeepsFamilies(s1, s.nextId, now);
    var s2 := StartFamily(s1, s.nextId, now);
    SameSessions(s2, IssueAction(s2, s.nextId, EMAIL_VERIFICATION, now));
  }

  lemma StepKeepsFamilies(s: State, e: Event)
    requires Invariant(s)
    ensures Families(Step(s, e))
  {
    var t := Step(s, e);
    hide Families, StartFamily, Refresh, Revoke, OneVerification, Live, ByEmail, Register;
    match e
    case Registered(email, password, found, at) =>
      if ByEmail(s, email, found) && Register(s, email, password, found, at).Ok? {
        RegisterKeepsFamilies(s, email, password, found, at);
      }
    case LoggedIn(email, password, found, at) =>
      if ByEmail(s, email, found) && Login(s, email, password, found, at).Ok? {
        StartKeepsFamilies(s, found.value, at);
      }
    case Refreshed(k, at) =>
      if Refresh(s, k, at).Ok? {
        RefreshKeepsFamilies(s, k, at);
      }
    case LoggedOut(k, at) =>
      if Live(s, k) {
        Exists(s, k);
        RevokeKeepsFamilies(s, k, at);
      }
    case Removed(member) => RemoveKeepsFamilies(s, member);
    case _ =>
      OtherSteps(s, e);
      hide Step;
      SameSessions(s, t);
  }

  lemma OtherSteps(s: State, e: Event)
    requires Owned(s)
    requires e.Invited? || e.Seeded? || e.ProfileUpdated? || e.Forgot? || e.Reset? || e.Verified? || e.Resent?
    ensures var t := Step(s, e);
            t.refreshTokens == s.refreshTokens && s.members.Keys <= t.members.Keys && s.nextId <= t.nextId
  {
    hide ByEmail;
  }

  lemma Exists(s: State, t: Token)
    requires Live(s, t)
    ensures t in s.refreshTokens
  {
  }

  // ---- verification tokens ----

  lemma IssueKeepsOneVerification(s: State, member: Id, purpose: Purpose, now: int)
    requires OneVerification(s) && member in s.members
    requires purpose == EMAIL_VERIFICATION ==> forall t :: !Unused(s, t, member)
    ensures OneVerification(IssueAction(s, member, purpose, now))
  {
    var t := IssueAction(s, member, purpose, now);
    assert forall u, id :: u != s.nextId ==> (Unused(t, u, id) <==> Unused(s, u, id));
    assert forall id :: Unused(t, s.nextId, id) ==> id == member && purpose == EMAIL_VERIFICATION;
  }

  lemma FewerUnused(s: State, t: State)
    requires OneVerification(s) && t.actionTokens.Keys <= s.actionTokens.Keys && s.nextId <= t.nextId
    requires forall id :: id in t.members ==> id < t.nextId
    requires forall u, id :: Unused(t, u, id) ==> Unused(s, u, id)
    ensures OneVerification(t)
  {
  }

  lemma InvalidateLeavesNone(s: State, member: Id, now: int)
    requires OneVerification(s)
    ensures OneVerification(InvalidateVerifications(s, member, now))
    ensures forall t :: !Unused(InvalidateVerifications(s, member, now), t, member)
  {
    FewerUnused(s, InvalidateVerifications(s, member, now));
  }

  lemma StepKeepsOneVerification(s: State, e: Event)
    requires Invariant(s)
    ensures OneVerification(Step(s, e))
  {
    hide Families;
    match e
    case Registered(email, password, found, at) =>
      if ByEmail(s, email, found) && found.None? {
        var s1 := StartFamily(AddMember(s, Member(email, password, false)), s.nextId, at);
        FewerUnused(s, s1);
        assert forall t :: !Unused(s1, t, s.nextId);
        IssueKeepsOneVerification(s1, s.nextId, EMAIL_VERIFICATION, at);
      }
    case Forgot(email, found, at) =>
      if ByEmail(s, email, found) && found.Some? {
        IssueKeepsOneVerification(s, found.value, PASSWORD_RESET, at);
      }
    case Resent(member, at) =>
      if ResendVerification(s, member, at).Ok? {
        InvalidateLeavesNone(s, member, at);
        IssueKeepsOneVerification(InvalidateVerifications(s, member, at), member, EMAIL_VERIFICATION, at);
      }
    case _ => FewerUnused(s, Step(s, e));
  }

  lemma StepKeepsInvariant(s: State, e: Event)
    requires Invariant(s)
    ensures Invariant(Step(s, e))
  {
    StepKeepsOwned(s, e);
    StepKeepsFamilies(s, e);
    StepKeepsOneVerification(s, e);
    hide Step, Families, OneVerification, Owned;
  }

  /**
   * In every run: each login has at most one live refresh token and all its tokens expire ten hours after the
   * login; each member has at most one unused verification token.
   */
  lemma {:induction false} ReachableInvariant(es: seq<Event>)
    ensures Invariant(Run(INITIAL, es))
    decreases |es|
  {
    if es != [] {
      ReachableInvariant(es[..|es| - 1]);
      hide Step, Invariant;
      StepKeepsInvariant(Run(INITIAL, es[..|es| - 1]), es[|es| - 1]);
    }
  }
}
