/** The authentication service as it looks up, changes and saves member and token rows. */
module TokenService {
  import opened Wrappers
  import opened Tokens

  class AuthTables {
    var members: map<Id, Member>
    var refreshTokens: map<Token, RefreshToken>
    var actionTokens: map<Token, ActionToken>
    var nextId: nat

    constructor ()
      ensures View() == INITIAL
    {
      members, refreshTokens, actionTokens, nextId := map[], map[], map[], 0;
    }

    function View(): State
      reads this
    {
      State(members, refreshTokens, actionTokens, nextId)
    }

    /** A refresh token for the member; one that replaces an earlier token inherits its expiry. */
    method IssueTokenPair(member: Id, replaced: Option<RefreshToken>, now: int) returns (token: Token)
      requires replaced.Some? ==> replaced.value.member == member && replaced.value.revokedAt.None?
      modifies this
      ensures View() == if replaced.Some? then IssueRefresh(old(View()), replaced.value)
                        else StartFamily(old(View()), member, now)
      ensures token == old(nextId)
    {
      token := nextId;
      var expiresAt, family, loginAt := now + REFRESH_TTL, token, now;
      if replaced.Some? {
        expiresAt, family, loginAt := replaced.value.expiresAt, replaced.value.family, replaced.value.loginAt;
      }
      refreshTokens := refreshTokens[token := RefreshToken(member, expiresAt, None, family, loginAt)];
      nextId := nextId + 1;
    }

    method IssueActionToken(member: Id, purpose: Purpose, now: int) returns (token: Token)
      modifies this
      ensures View() == IssueAction(old(View()), member, purpose, now) && token == old(nextId)
    {
      token := nextId;
      var expiresAt := now;
      if purpose == PASSWORD_RESET {
        expiresAt := expiresAt + PASSWORD_RESET_TTL;
      } else {
        expiresAt := expiresAt + EMAIL_VERIFICATION_TTL;
      }
      actionTokens := actionTokens[token := ActionToken(member, purpose, expiresAt, None)];
      nextId := nextId + 1;
    }

    method FindValidActionToken(token: Token, purpose: Purpose, now: int) returns (stored: Option<ActionToken>)
      ensures stored == if Valid(View(), token, purpose, now) then Some(actionTokens[token]) else None
    {
      if token !in actionTokens || actionTokens[token].purpose != purpose || actionTokens[token].usedAt.Some? {
        return None;
      }
      if actionTokens[token].expiresAt < now {
        return None;
      }
      return Some(actionTokens[token]);
    }

    method InvalidateActiveActionTokens(member: Id, now: int)
      modifies `actionTokens
      ensures View() == InvalidateVerifications(old(View()), member, now)
    {
      actionTokens := map t | t in actionTokens ::
        if actionTokens[t].member == member && actionTokens[t].purpose == EMAIL_VERIFICATION
            && actionTokens[t].usedAt.None?
        then actionTokens[t].(usedAt := Some(now)) else actionTokens[t];
    }

    method Register(email: string, password: string, existing: Option<Id>, now: int) returns (r: Result<Id, Failure>)
      requires ByEmail(View(), email, existing)
      modifies this
      ensures View() == Commit(old(View()), Tokens.Register(old(View()), email, password, existing, now))
      ensures r == if existing.Some? then Err(Conflict) else Ok(old(nextId))
    {
      if existing.Some? {
        return Err(Conflict);
      }
      var member := nextId;
      members := members[member := Member(email, password, false)];
      nextId := nextId + 1;
      var _ := IssueTokenPair(member, None, now);
      var _ := IssueActionToken(member, EMAIL_VERIFICATION, now);
      return Ok(member);
    }

    method Login(email: string, password: string, found: Option<Id>, now: int) returns (r: Result<Token, Failure>)
      requires ByEmail(View(), email, found)
      modifies this
      ensures View() == Commit(old(View()), Tokens.Login(old(View()), email, password, found, now))
      ensures r.Ok? <==> Tokens.Login(old(View()), email, password, found, now).Ok?
      ensures r.Ok? ==> r.value == old(nextId)
    {
      if found.None? || members[found.value].password != password {
        return Err(Unauthorized);
      }
      var token := IssueTokenPair(found.value, None, now);
      return Ok(token);
    }

    method Refresh(token: Token, now: int) returns (r: Result<Token, Failure>)
      modifies this
      ensures View() == Commit(old(View()), Tokens.Refresh(old(View()), token, now))
      ensures r == if Tokens.Refresh(old(View()), token, now).Ok? then Ok(old(nextId)) else Err(Unauthorized)
    {
      if token !in refreshTokens || refreshTokens[token].revokedAt.Some? {
        return Err(Unauthorized);
      }
      var stored := refreshTokens[token];
      if stored.expiresAt < now {
        return Err(Unauthorized);
      }
      refreshTokens := refreshTokens[token := stored.(revokedAt := Some(now))];
      var next := IssueTokenPair(stored.member, Some(stored), now);
      return Ok(next);
    }

    method UpdateProfile(member: Id, email: Option<string>, found: Option<Id>, password: Option<string>)
      returns (failure: Option<Failure>)
      requires Given(email) ==> ByEmail(View(), email.value, found)
      modifies this
      ensures match Tokens.UpdateProfile(old(View()), member, email, found, password)
              case Ok(t) => View() == t && failure.None?
              case Err(f) => View() == old(View()) && failure == Some(f)
    {
      if member !in members {
        return Some(NotFound);
      }
      var m := members[member];
      if email.Some? && email.value != "" {
        if found.Some? && found.value != member {
          return Some(Conflict);
        }
        m := m.(email := email.value);
      }
      if password.Some? && password.value != "" {
        m := m.(password := password.value);
      }
      members := members[member := m];
      return None;
    }

    method Logout(token: Token, now: int) returns (failure: Option<Failure>)
      modifies this
      ensures View() == Commit(old(View()), Tokens.Logout(old(View()), token, now))
      ensures failure == if Live(old(View()), token) then None else Some(NotFound)
    {
      if token !in refreshTokens || refreshTokens[token].revokedAt.Some? {
        return Some(NotFound);
      }
      refreshTokens := refreshTokens[token := refreshTokens[token].(revokedAt := Some(now))];
      return None;
    }

    method ForgotPassword(email: string, found: Option<Id>, now: int) returns (token: Option<Token>)
      requires ByEmail(View(), email, found)
      modifies this
      ensures View() == Tokens.ForgotPassword(old(View()), email, found, now)
      ensures token == if found.Some? then Some(old(nextId)) else None
    {
      if found.Some? {
        var t := IssueActionToken(found.value, PASSWORD_RESET, now);
        return Some(t);
      }
      return None;
    }

    method ResetPassword(token: Token, password: string, now: int) returns (failure: Option<Failure>)
      requires Owned(View())
      modifies this
      ensures View() == Commit(old(View()), Tokens.ResetPassword(old(View()), token, password, now))
      ensures failure == if Valid(old(View()), token, PASSWORD_RESET, now) then None else Some(Unauthorized)
    {
      var stored := FindValidActionToken(token, PASSWORD_RESET, now);
      if stored.None? {
        return Some(Unauthorized);
      }
      var id := stored.value.member;
      members := members[id := members[id].(password := password)];
      actionTokens := actionTokens[token := stored.value.(usedAt := Some(now))];
      return None;
    }

    method VerifyEmail(token: Token, now: int) returns (r: Result<bool, Failure>)
      requires Owned(View())
      modifies this
      ensures match Tokens.VerifyEmail(old(View()), token, now)
              case Ok(t) => View() == t.0 && r == Ok(t.1)
              case Err(f) => View() == old(View()) && r == Err(f)
    {
      var stored := FindValidActionToken(token, EMAIL_VERIFICATION, now);
      if stored.None? {
        return Err(Unauthorized);
      }
      var id := stored.value.member;
      if members[id].verified {
        actionTokens := actionTokens[token := stored.value.(usedAt := Some(now))];
        return Ok(true);
      }
      members := members[id := members[id].(verified := true)];
      actionTokens := actionTokens[token := stored.value.(usedAt := Some(now))];
      return Ok(false);
    }

    method ResendVerificationEmail(member: Id, now: int) returns (r: Result<Token, Failure>)
      modifies this
      ensures View() == Commit(old(View()), ResendVerification(old(View()), member, now))
      ensures match ResendVerification(old(View()), member, now)
              case Ok(_) => r == Ok(old(nextId))
              case Err(f) => r == Err(f)
    {
      if member !in members {
        return Err(NotFound);
      }
      if members[member].verified {
        return Err(BadRequest);
      }
      InvalidateActiveActionTokens(member, now);
      var token := IssueActionToken(member, EMAIL_VERIFICATION, now);
      return Ok(token);
    }
  }
}
