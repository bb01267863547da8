/** What each request does for a person: exactly when it works, what it changes, and what that opens or closes. */
module AuthJourneys {
  import opened Options
  import opened AuthModel
  import opened AuthInvariant
  import opened AuthLogin

  /* ---- tokens ---- */

  /** A one-time token that still works for an account. */
  predicate Usable(s: State, i: nat, token: Token, kind: TokenType, now: Instant) {
    && i < |s.tokens| && s.tokens[i].token == token && s.tokens[i].tokenType == kind && !s.tokens[i].used
    && now < s.tokens[i].expiresAt && s.tokens[i].userId < |s.users| && !s.users[s.tokens[i].userId].deleted
  }

  predicate UnknownToken(s: State, token: Token) {
    forall i :: 0 <= i < |s.tokens| ==> s.tokens[i].token != token
  }

  lemma ResolvesExactly(s: State, env: Env, token: Token, kind: TokenType, i: nat)
    requires Consistent(s)
    ensures Resolve(s, env, token, kind) == Some(i) <==> Usable(s, i, token, kind, env.now)
  {
    if Usable(s, i, token, kind, env.now) {
      FoundIs(s.tokens, TokenOf(token, kind), i);
    }
  }

  lemma ResolvesNone(s: State, env: Env, token: Token, kind: TokenType)
    requires Consistent(s) && forall i: nat :: !Usable(s, i, token, kind, env.now)
    ensures Resolve(s, env, token, kind) == None
  {
    var r := Resolve(s, env, token, kind);
    assert r.Some? ==> Usable(s, r.value, token, kind, env.now);
  }

  /** The user's tokens of a type all used up; everyone else's, and his others, as they were. */
  predicate UsedUp(before: seq<AuthToken>, after: seq<AuthToken>, user: UserId, kind: TokenType) {
    && |before| <= |after|
    && forall i :: 0 <= i < |before| ==>
         after[i] == if before[i].userId == user && before[i].tokenType == kind
                     then before[i].(used := true) else before[i]
  }

  /** One new token, good until `expiresAt`, and none of its kind before it any longer. */
  predicate Issued(
    before: seq<AuthToken>, after: seq<AuthToken>, user: UserId, kind: TokenType, token: Token, expiresAt: Instant) {
    && |after| == |before| + 1 && UsedUp(before, after, user, kind)
    && after[|before|] == AuthToken(user, kind, token, expiresAt, false)
  }

  lemma TokenUnknown(s: State, token: Token)
    ensures UnknownToken(s, token) <==> FindFirst(s.tokens, TokenWith(token)).None?
  {
    var r := FindFirst(s.tokens, TokenWith(token));
    assert r.Some? ==> TokenWith(token)(s.tokens[r.value]);
    assert forall i :: 0 <= i < |s.tokens| ==> (TokenWith(token)(s.tokens[i]) <==> s.tokens[i].token == token);
  }

  lemma IssueMeans(before: State, s: State, user: UserId, kind: TokenType, token: Token, expiresAt: Instant)
    requires UnknownToken(s, token)
    ensures var r := Issue(before, s, user, kind, token, expiresAt);
      && r.outcome == Done && r.state.users == s.users && r.state.sessions == s.sessions
      && Issued(s.tokens, r.state.tokens, user, kind, token, expiresAt)
  {
    TokenUnknown(s, token);
  }

  /* ---- registering and verifying ---- */

  predicate UnknownEmail(s: State, email: Email) {
    forall i :: 0 <= i < |s.users| ==> s.users[i].email != email
  }

  lemma EmailUnfound(s: State, email: Email)
    requires UnknownEmail(s, email)
    ensures FindFirst(s.users, WithEmail(email)) == None && FindFirst(s.users, LiveWithEmail(email)) == None
  {
    NoneFound(s.users, WithEmail(email));
    NoneFound(s.users, LiveWithEmail(email));
  }

  /** The doors of a registration. */
  lemma RegisterRefusals(s: State, env: Env, email: Email, password: string, token: Token)
    requires !env.registrationEnabled || email in env.blocked || env.limited
    ensures var r := Handle(s, env, Register(email, password, token));
      && r.state == s
      && r.outcome == if !env.registrationEnabled then RegistrationDisabled
                      else if email in env.blocked then Blocked else RateLimited
  {
  }

  /** A new address gets an unverified account with that password, and a token to verify it. */
  lemma RegisterCreates(s: State, env: Env, email: Email, password: string, token: Token)
    requires env.registrationEnabled && email !in env.blocked && !env.limited
    requires UnknownEmail(s, email) && UnknownToken(s, token)
    ensures var r := Handle(s, env, Register(email, password, token));
      && r.outcome == Done && r.state.sessions == s.sessions
      && r.state.users == s.users + [User(email, Some(HashOf(password)), None, false, false, false, false)]
      && Issued(s.tokens, r.state.tokens, |s.users|, EmailVerification, token, env.now + env.verificationTtl)
  {
    EmailUnfound(s, email);
    IssueMeans(
      s, s.(users := s.users + [User(email, Some(HashOf(password)), None, false, false, false, false)]), |s.users|,
      EmailVerification, token, env.now + env.verificationTtl);
  }

  /** A known address gets the same answer: a new token while it is unverified, and nothing once it is. */
  lemma RegisterAgain(s: State, env: Env, email: Email, password: string, token: Token, u: UserId)
    requires Consistent(s) && env.registrationEnabled && email !in env.blocked && !env.limited
    requires u < |s.users| && s.users[u].email == email && UnknownToken(s, token)
    ensures var r := Handle(s, env, Register(email, password, token));
      && r.outcome == Done && r.state.users == s.users && r.state.sessions == s.sessions
      && (s.users[u].emailVerified ==> r.state == s)
      && (!s.users[u].emailVerified ==>
            Issued(s.tokens, r.state.tokens, u, EmailVerification, token, env.now + env.verificationTtl))
  {
    FoundIs(s.users, WithEmail(email), u);
    IssueMeans(s, s, u, EmailVerification, token, env.now + env.verificationTtl);
  }

  /** Asking again for the verification does as much for an unverified address, and nothing for any other. */
  lemma ResendMeans(s: State, env: Env, email: Email, token: Token)
    requires Consistent(s) && UnknownToken(s, token)
    ensures var r := Handle(s, env, ResendVerification(email, token));
      && r.outcome == (if env.limited then RateLimited else Done)
      && r.state.users == s.users && r.state.sessions == s.sessions
      && (env.limited || UnknownEmail(s, email) ==> r.state == s)
      && forall u :: 0 <= u < |s.users| && s.users[u].email == email && !env.limited ==>
           if s.users[u].emailVerified then r.state == s
           else Issued(s.tokens, r.state.tokens, u, EmailVerification, token, env.now + env.verificationTtl)
  {
    if u: nat :| u < |s.users| && s.users[u].email == email {
      FoundIs(s.users, WithEmail(email), u);
      IssueMeans(s, s, u, EmailVerification, token, env.now + env.verificationTtl);
      assert forall v :: 0 <= v < |s.users| && s.users[v].email == email ==> v == u;
    } else {
      EmailUnfound(s, email);
    }
  }

  /** Verifying works exactly with a usable token, makes its account verified, and uses the token up. */
  lemma VerifyMeans(s: State, env: Env, token: Token, i: nat)
    requires Consistent(s) && Usable(s, i, token, EmailVerification, env.now)
    ensures var r := Handle(s, env, VerifyEmail(token));
      var user := s.tokens[i].userId;
      && r.outcome == Done && r.state.sessions == s.sessions
      && r.state.users == s.users[user := s.users[user].(emailVerified := true)]
      && |r.state.tokens| == |s.tokens| && r.state.tokens[i].used
      && (!s.users[user].emailVerified ==> UsedUp(s.tokens, r.state.tokens, user, EmailVerification))
      && forall k :: 0 <= k < |s.tokens| && (s.tokens[k].userId != user || s.tokens[k].tokenType != EmailVerification) ==>
           r.state.tokens[k] == s.tokens[k]
  {
    ResolvesExactly(s, env, token, EmailVerification, i);
  }

  lemma VerifyRefuses(s: State, env: Env, token: Token)
    requires Consistent(s) && forall i: nat :: !Usable(s, i, token, EmailVerification, env.now)
    ensures Handle(s, env, VerifyEmail(token)) == Result(s, InvalidToken)
  {
    ResolvesNone(s, env, token, EmailVerification);
  }

  /** Where a newly registered person stands: one unverified account with that password and one token for it. */
  ghost predicate Registered(s: State, u: UserId, email: Email, password: string, token: Token, expiresAt: Instant) {
    && Consistent(s) && u < |s.users|
    && s.users[u] == User(email, Some(HashOf(password)), None, false, false, false, false)
    && exists i :: 0 <= i < |s.tokens| && s.tokens[i] == AuthToken(u, EmailVerification, token, expiresAt, false)
  }

  lemma RegisteringRegisters(s: State, env: Env, email: Email, password: string, token: Token)
    requires Consistent(s) && env.registrationEnabled && email !in env.blocked && !env.limited
    requires UnknownEmail(s, email) && UnknownToken(s, token)
    ensures Registered(
      Handle(s, env, Register(email, password, token)).state, |s.users|, email, password, token,
      env.now + env.verificationTtl)
  {
    RegisterCreates(s, env, email, password, token);
    RequestKeeps(s, env, Register(email, password, token));
    var t := Handle(s, env, Register(email, password, token)).state;
    assert t.tokens[|s.tokens|] == AuthToken(|s.users|, EmailVerification, token, env.now + env.verificationTtl, false);
  }

  /** Until he verifies, the right password is told to verify and a wrong one nothing; the token works until it expires. */
  lemma UnverifiedCannotLogIn(
    s: State, u: UserId, email: Email, password: string, token: Token, expiresAt: Instant, env: Env, given: string,
    newToken: Token)
    requires Registered(s, u, email, password, token, expiresAt) && email !in env.blocked && !env.limited
    ensures Handle(s, env, Login(email, given, newToken)).outcome
         == if given == password then EmailNotVerified else InvalidCredentials
  {
    LoginRefusals(s, env, email, given, newToken);
    if given == password {
      assert OwnAccount(s, email, given, u);
    } else {
      forall v: UserId ensures !OwnAccount(s, email, given, v) {
        assert v < |s.users| && s.users[v].email == email ==> v == u;
      }
    }
  }

  /** Verifying in time opens the account to the password he registered with, and to no other. */
  lemma VerifiedLogsIn(
    s: State, u: UserId, email: Email, password: string, token: Token, expiresAt: Instant, env: Env, later: Env,
    given: string, newToken: Token)
    requires Registered(s, u, email, password, token, expiresAt) && env.now < expiresAt
    requires email !in later.blocked && !later.limited && (!later.testMode || email in later.testers)
    requires UnusedSessionToken(s, newToken)
    ensures Handle(s, env, VerifyEmail(token)).outcome == Done
    ensures Handle(Handle(s, env, VerifyEmail(token)).state, later, Login(email, given, newToken)).outcome
         == if given == password then SessionIssued(u) else InvalidCredentials
  {
    var i :| 0 <= i < |s.tokens| && s.tokens[i] == AuthToken(u, EmailVerification, token, expiresAt, false);
    VerifyMeans(s, env, token, i);
    RequestKeeps(s, env, VerifyEmail(token));
    var t := Handle(s, env, VerifyEmail(token)).state;
    if given == password {
      LoginSucceedsExactly(t, later, email, given, newToken, u);
    } else {
      LoginRefusals(t, later, email, given, newToken);
      forall v: UserId ensures !OwnAccount(t, email, given, v) {
        assert v < |t.users| && t.users[v].email == email ==> v == u;
      }
    }
  }

  /** Too late, it does nothing. */
  lemma LateVerificationFails(
    s: State, u: UserId, email: Email, password: string, token: Token, expiresAt: Instant, env: Env)
    requires Registered(s, u, email, password, token, expiresAt) && env.now >= expiresAt
    ensures Handle(s, env, VerifyEmail(token)) == Result(s, InvalidToken)
  {
    var i :| 0 <= i < |s.tokens| && s.tokens[i] == AuthToken(u, EmailVerification, token, expiresAt, false);
    assert forall k: nat :: k < |s.tokens| && s.tokens[k].token == token ==> k == i;
    VerifyRefuses(s, env, token);
  }

  /* ---- sessions ---- */

  /** A session that can still be refreshed by its owner. */
  predicate Refreshable(s: State, env: Env, i: nat, token: Token, u: UserId) {
    && i < |s.sessions| && s.sessions[i].token == token && s.sessions[i].userId == u
    && !s.sessions[i].revoked && env.now < s.sessions[i].expiresAt
    && u < |s.users| && !s.users[u].deleted && !s.users[u].ai && s.users[u].email !in env.blocked
    && (!env.testMode || s.users[u].operator || s.users[u].email in env.testers)
  }

  /** A refresh works exactly for a live session of a welcome owner, and puts a new session in its place. */
  lemma RefreshExactly(s: State, env: Env, token: Token, newToken: Token, u: UserId)
    requires Consistent(s) && UnusedSessionToken(s, newToken)
    ensures Handle(s, env, Refresh(token, newToken)).outcome == SessionIssued(u)
       <==> exists i: nat :: Refreshable(s, env, i, token, u)
  {
    var found := FindFirst(s.sessions, SessionWith(token));
    assert found.Some? ==> SessionWith(token)(s.sessions[found.value]);
    if i: nat :| Refreshable(s, env, i, token, u) {
      FoundIs(s.sessions, SessionWith(token), i);
      NewTokenFree(s, i, newToken);
    }
    if Handle(s, env, Refresh(token, newToken)).outcome == SessionIssued(u) {
      assert Refreshable(s, env, found.value, token, u);
    }
  }

  lemma NewTokenFree(s: State, i: nat, newToken: Token)
    requires i < |s.sessions| && UnusedSessionToken(s, newToken)
    ensures FindFirst(RevokeAt(s.sessions, i), SessionWith(newToken)).None?
  {
    NoneFound(RevokeAt(s.sessions, i), SessionWith(newToken));
  }

  lemma RefreshChanges(s: State, env: Env, token: Token, newToken: Token, u: UserId, i: nat)
    requires Consistent(s) && UnusedSessionToken(s, newToken) && Refreshable(s, env, i, token, u)
    ensures var r := Handle(s, env, Refresh(token, newToken));
      && r.outcome == SessionIssued(u)
      && r.state == s.(sessions := s.sessions[i := s.sessions[i].(revoked := true)]
                                   + [Session(u, newToken, env.now + env.refreshTtl, false)])
  {
    FoundIs(s.sessions, SessionWith(token), i);
    NewTokenFree(s, i, newToken);
  }

  /** What a refused refresh is told, and that it changes nothing. */
  lemma RefreshRefusals(s: State, env: Env, token: Token, newToken: Token)
    requires Consistent(s) && UnusedSessionToken(s, newToken)
    ensures var r := Handle(s, env, Refresh(token, newToken));
      && (r.outcome == InvalidCredentials <==> forall i: nat :: !AliveSession(s, env, i, token))
      && (forall i: nat :: AliveSession(s, env, i, token) ==>
            (r.outcome == Blocked <==> s.users[s.sessions[i].userId].email in env.blocked))
      && (!r.outcome.SessionIssued? ==> r.state == s)
  {
    var found := FindFirst(s.sessions, SessionWith(token));
    assert found.Some? ==> SessionWith(token)(s.sessions[found.value]);
    forall i: nat | AliveSession(s, env, i, token) ensures found == Some(i) {
      FoundIs(s.sessions, SessionWith(token), i);
    }
    if found.Some? {
      NewTokenFree(s, found.value, newToken);
      if Handle(s, env, Refresh(token, newToken)).outcome != InvalidCredentials {
        assert AliveSession(s, env, found.value, token);
      }
    }
  }

  /** An unrevoked, unexpired session of a live person. */
  predicate AliveSession(s: State, env: Env, i: nat, token: Token) {
    && i < |s.sessions| && s.sessions[i].token == token && !s.sessions[i].revoked && env.now < s.sessions[i].expiresAt
    && s.sessions[i].userId < |s.users|
    && !s.users[s.sessions[i].userId].deleted && !s.users[s.sessions[i].userId].ai
  }

  /** A session lasts for the time configured when it was issued: it can be refreshed before, and not from then on. */
  lemma SessionLifetime(
    s: State, env: Env, email: Email, password: string, token: Token, u: UserId, later: Env, newToken: Token)
    requires Consistent(s) && Handle(s, env, Login(email, password, token)).outcome == SessionIssued(u)
    requires u < |s.users| && s.users[u].email !in later.blocked
    requires !later.testMode || s.users[u].operator || s.users[u].email in later.testers
    requires newToken != token && UnusedSessionToken(s, newToken)
    ensures var t := Handle(s, env, Login(email, password, token)).state;
      Handle(t, later, Refresh(token, newToken)).outcome
        == if later.now < env.now + env.refreshTtl then SessionIssued(u) else InvalidCredentials
  {
    var t := Handle(s, env, Login(email, password, token)).state;
    LoginChanges(s, env, email, password, token);
    LoginSucceedsExactly(s, env, email, password, token, u);
    RequestKeeps(s, env, Login(email, password, token));
    var i := |s.sessions|;
    assert t.sessions[i] == Session(u, token, env.now + env.refreshTtl, false);
    FoundIs(t.sessions, SessionWith(token), i);
    if later.now < env.now + env.refreshTtl {
      RefreshChanges(t, later, token, newToken, u, i);
    }
  }

  /** Logging out revokes the session of the token, and no other; the token refreshes no more. */
  lemma LogoutMeans(s: State, env: Env, token: Token, later: Env, newToken: Token)
    requires Consistent(s)
    ensures var r := Handle(s, env, Logout(token));
      && r.outcome == Done && r.state.users == s.users && r.state.tokens == s.tokens
      && |r.state.sessions| == |s.sessions|
      && (forall i :: 0 <= i < |s.sessions| ==>
            r.state.sessions[i] == if s.sessions[i].token == token then s.sessions[i].(revoked := true) else s.sessions[i])
      && Handle(r.state, later, Refresh(token, newToken)).outcome == InvalidCredentials
  {
    var found := FindFirst(s.sessions, SessionWith(token));
    if found.Some? {
      assert SessionWith(token)(s.sessions[found.value]);
      FoundIs(RevokeAt(s.sessions, found.value), SessionWith(token), found.value);
    } else {
      assert forall i :: 0 <= i < |s.sessions| ==> !SessionWith(token)(s.sessions[i]);
    }
  }

  /* ---- forgetting and resetting ---- */

  /** A live account gets a reset token; any other address gets the same answer and nothing. */
  lemma ForgotMeans(s: State, env: Env, email: Email, token: Token)
    requires Consistent(s) && UnknownToken(s, token)
    ensures var r := Handle(s, env, ForgotPassword(email, token));
      && r.outcome == (if env.limited then RateLimited else Done)
      && r.state.users == s.users && r.state.sessions == s.sessions
      && (env.limited || UnknownEmail(s, email) ==> r.state == s)
      && forall u :: 0 <= u < |s.users| && s.users[u].email == email && !env.limited ==>
           if s.users[u].deleted then r.state == s
           else Issued(s.tokens, r.state.tokens, u, PasswordReset, token, env.now + env.resetTtl)
  {
    if u: nat :| u < |s.users| && s.users[u].email == email {
      if s.users[u].deleted {
        NoneFound(s.users, LiveWithEmail(email));
      } else {
        FoundIs(s.users, LiveWithEmail(email), u);
        IssueMeans(s, s, u, PasswordReset, token, env.now + env.resetTtl);
      }
      assert forall v :: 0 <= v < |s.users| && s.users[v].email == email ==> v == u;
    } else {
      EmailUnfound(s, email);
    }
  }

  /** Everyone's sessions as they were, but for one user's, all revoked. */
  predicate LoggedOut(before: seq<Session>, after: seq<Session>, user: UserId) {
    && |after| == |before|
    && forall i :: 0 <= i < |before| ==>
         after[i] == if before[i].userId == user then before[i].(revoked := true) else before[i]
  }

  /** A reset works exactly with a usable token: the password replaced, the sessions revoked, the reset tokens used up. */
  lemma ResetMeans(s: State, env: Env, token: Token, password: string, i: nat)
    requires Consistent(s) && Usable(s, i, token, PasswordReset, env.now)
    ensures var r := Handle(s, env, ResetPassword(token, password));
      var user := s.tokens[i].userId;
      && r.outcome == Done
      && r.state.users == s.users[user := s.users[user].(passwordHash := Some(HashOf(password)))]
      && LoggedOut(s.sessions, r.state.sessions, user)
      && |r.state.tokens| == |s.tokens| && UsedUp(s.tokens, r.state.tokens, user, PasswordReset)
  {
    ResolvesExactly(s, env, token, PasswordReset, i);
  }

  lemma ResetRefuses(s: State, env: Env, token: Token, password: string)
    requires Consistent(s) && forall i: nat :: !Usable(s, i, token, PasswordReset, env.now)
    ensures Handle(s, env, ResetPassword(token, password)) == Result(s, InvalidToken)
  {
    ResolvesNone(s, env, token, PasswordReset);
  }

  /** Forgetting and resetting in time: the new password opens the account; too late, nothing happens. */
  lemma ForgottenPasswordIsReplaced(
    s: State, env: Env, email: Email, token: Token, u: UserId, at: Env, password: string, later: Env, newToken: Token)
    requires Consistent(s) && UnknownToken(s, token) && !env.limited
    requires u < |s.users| && s.users[u].email == email && !s.users[u].deleted && !s.users[u].ai && s.users[u].emailVerified
    requires Admitted(s, later, u) && UnusedSessionToken(s, newToken)
    ensures var asked := Handle(s, env, ForgotPassword(email, token)).state;
      var r := Handle(asked, at, ResetPassword(token, password));
      if at.now < env.now + env.resetTtl then
        r.outcome == Done && Handle(r.state, later, Login(email, password, newToken)).outcome == SessionIssued(u)
      else r == Result(asked, InvalidToken)
  {
    ForgotMeans(s, env, email, token);
    RequestKeeps(s, env, ForgotPassword(email, token));
    var asked, i := Handle(s, env, ForgotPassword(email, token)).state, |s.tokens|;
    assert asked.tokens[i] == AuthToken(u, PasswordReset, token, env.now + env.resetTtl, false);
    if at.now < env.now + env.resetTtl {
      ResetMeans(asked, at, token, password, i);
      RequestKeeps(asked, at, ResetPassword(token, password));
      var t := Handle(asked, at, ResetPassword(token, password)).state;
      assert UnusedSessionToken(t, newToken);
      LoginSucceedsExactly(t, later, email, password, newToken, u);
    } else {
      assert forall k: nat :: k < |asked.tokens| && asked.tokens[k].token == token ==> k == i;
      ResetRefuses(asked, at, token, password);
    }
  }

  /* ---- leaving ---- */

  /** Deleting anonymises the account, closes it, logs it out everywhere and uses up all its tokens. */
  lemma DeleteMeans(s: State, env: Env, u: UserId)
    requires Consistent(s) && PlaceholdersOk(s) && u < |s.users| && !s.users[u].deleted
    ensures var r := Handle(s, env, DeleteAccount(u));
      && r.outcome == Done
      && r.state.users
         == s.users[u := s.users[u].(email := Anonymised(u), passwordHash := Some(Unusable), googleSub := None,
                                     emailVerified := false, deleted := true)]
      && LoggedOut(s.sessions, r.state.sessions, u)
      && |r.state.tokens| == |s.tokens|
      && forall i :: 0 <= i < |s.tokens| ==>
           r.state.tokens[i] == if s.tokens[i].userId == u then s.tokens[i].(used := true) else s.tokens[i]
  {
    NoneFound(s.users, WithEmail(Anonymised(u)));
  }

  /** An account is deleted once, and only if there is one. */
  lemma DeleteRefuses(s: State, env: Env, u: UserId)
    requires u >= |s.users| || s.users[u].deleted
    ensures Handle(s, env, DeleteAccount(u)) == Result(s, if u < |s.users| then AlreadyDeleted else UserNotFound)
  {
  }

  /** After it the address is free again, and no password opens it. */
  lemma DeletedIsGone(s: State, env: Env, u: UserId, later: Env, given: string, newToken: Token)
    requires Consistent(s) && PlaceholdersOk(s) && u < |s.users| && !s.users[u].deleted
    requires s.users[u].email !in later.blocked && !later.limited
    ensures var t := Handle(s, env, DeleteAccount(u)).state;
      && UnknownEmail(t, s.users[u].email)
      && Handle(t, later, Login(s.users[u].email, given, newToken)).outcome == InvalidCredentials
  {
    DeleteMeans(s, env, u);
    RequestKeeps(s, env, DeleteAccount(u));
    var t := Handle(s, env, DeleteAccount(u)).state;
    LoginRefusals(t, later, s.users[u].email, given, newToken);
  }

  /* ---- Google ---- */

  predicate UnheldSub(s: State, sub: string) {
    forall i :: 0 <= i < |s.users| ==> s.users[i].googleSub != Some(sub)
  }

  predicate OnGuestList(env: Env, email: Email, operator: bool) {
    !env.testMode || operator || email in env.testers
  }

  /** The doors of a Google login. */
  lemma GoogleRefusals(s: State, env: Env, identity: Option<Identity>, token: Token)
    requires env.limited || identity.None? || !identity.value.emailVerified || identity.value.email in env.blocked
    ensures Handle(s, env, GoogleLogin(identity, token))
         == Result(s, if env.limited then RateLimited
                      else if identity.None? || !identity.value.emailVerified then GoogleRefused else Blocked)
  {
  }

  /** Who holds the identifier is let in, unless he is no person or not on the guest list. */
  lemma GoogleKnown(s: State, env: Env, identity: Identity, token: Token, u: UserId)
    requires Consistent(s) && !env.limited && identity.emailVerified && identity.email !in env.blocked
    requires u < |s.users| && s.users[u].googleSub == Some(identity.sub) && !s.users[u].deleted
    requires UnusedSessionToken(s, token)
    ensures Handle(s, env, GoogleLogin(Some(identity), token))
         == if s.users[u].ai then Result(s, GoogleRefused)
            else if !OnGuestList(env, s.users[u].email, s.users[u].operator) then Result(s, TesterOnly)
            else Result(
                   s.(sessions := s.sessions + [Session(u, token, env.now + env.refreshTtl, false)]), SessionIssued(u))
  {
    FoundIs(s.users, WithSub(identity.sub), u);
    TokenUnfound(s, token);
  }

  /** An unheld identifier is linked to the live account of its address, which becomes verified. */
  lemma GoogleLinks(s: State, env: Env, identity: Identity, token: Token, u: UserId)
    requires Consistent(s) && !env.limited && identity.emailVerified && identity.email !in env.blocked
    requires UnheldSub(s, identity.sub) && UnusedSessionToken(s, token)
    requires u < |s.users| && s.users[u].email == identity.email && !s.users[u].deleted
    ensures var linked := s.(users := s.users[u := s.users[u].(googleSub := Some(identity.sub), emailVerified := true)]);
      Handle(s, env, GoogleLogin(Some(identity), token))
         == if !OnGuestList(env, identity.email, s.users[u].operator) then Result(s, TesterOnly)
            else if s.users[u].ai then Result(linked, GoogleRefused)
            else Result(
                   linked.(sessions := s.sessions + [Session(u, token, env.now + env.refreshTtl, false)]),
                   SessionIssued(u))
  {
    NoneFound(s.users, WithSub(identity.sub));
    LiveAccountFound(s, identity.email, u);
    TokenUnfound(s, token);
  }

  /** Nobody's identifier with nobody's address makes a verified account without a password. */
  lemma GoogleCreates(s: State, env: Env, identity: Identity, token: Token)
    requires Consistent(s) && !env.limited && identity.emailVerified && identity.email !in env.blocked
    requires UnheldSub(s, identity.sub) && UnusedSessionToken(s, token) && UnknownEmail(s, identity.email)
    ensures var u := |s.users|;
      Handle(s, env, GoogleLogin(Some(identity), token))
         == if !OnGuestList(env, identity.email, false) then Result(s, TesterOnly)
            else Result(
                   State(
                     s.users + [User(identity.email, None, Some(identity.sub), true, false, false, false)],
                     s.sessions + [Session(u, token, env.now + env.refreshTtl, false)], s.tokens),
                   SessionIssued(u))
  {
    NoneFound(s.users, WithSub(identity.sub));
    EmailUnfound(s, identity.email);
    TokenUnfound(s, token);
  }

  /** Who came with Google comes back with Google to the same account, under whatever address Google gives. */
  lemma GoogleComesBack(
    s: State, env: Env, identity: Identity, token: Token, u: UserId, later: Env, again: Identity, newToken: Token)
    requires Consistent(s) && Handle(s, env, GoogleLogin(Some(identity), token)).outcome == SessionIssued(u)
    requires again.sub == identity.sub && again.emailVerified && again.email !in later.blocked
    requires !later.limited && !later.testMode
    requires newToken != token && UnusedSessionToken(s, newToken)
    ensures Handle(Handle(s, env, GoogleLogin(Some(identity), token)).state, later, GoogleLogin(Some(again), newToken)).outcome
         == SessionIssued(u)
  {
    GoogleHolds(s, env, identity, token, u);
    RequestKeeps(s, env, GoogleLogin(Some(identity), token));
    GoogleKnown(Handle(s, env, GoogleLogin(Some(identity), token)).state, later, again, newToken, u);
  }

  /** Whoever a Google login lets in holds the identifier from then on, with one more session to his name. */
  lemma GoogleHolds(s: State, env: Env, identity: Identity, token: Token, u: UserId)
    requires Consistent(s) && Handle(s, env, GoogleLogin(Some(identity), token)).outcome == SessionIssued(u)
    ensures var t := Handle(s, env, GoogleLogin(Some(identity), token)).state;
      && u < |t.users| && t.users[u].googleSub == Some(identity.sub) && !t.users[u].deleted && !t.users[u].ai
      && t.users[u].emailVerified
      && t.sessions == s.sessions + [Session(u, token, env.now + env.refreshTtl, false)]
  {
    RequestKeeps(s, env, GoogleLogin(Some(identity), token));
    var holder := FindFirst(s.users, WithSub(identity.sub));
    if holder.Some? && !s.users[holder.value].deleted {
      assert WithSub(identity.sub)(s.users[holder.value]) && UserOk(s.users[holder.value]);
    } else {
      LinkHolds(s, Freed(s, identity.sub), env, identity, token, u);
    }
  }

  lemma LinkHolds(before: State, s: State, env: Env, identity: Identity, token: Token, u: UserId)
    requires LinkOrCreate(before, s, env, identity, token).outcome == SessionIssued(u)
    ensures var t := LinkOrCreate(before, s, env, identity, token).state;
      && u < |t.users| && t.users[u].googleSub == Some(identity.sub) && !t.users[u].deleted && !t.users[u].ai
      && t.users[u].emailVerified
      && t.sessions == s.sessions + [Session(u, token, env.now + env.refreshTtl, false)]
  {
  }
}
