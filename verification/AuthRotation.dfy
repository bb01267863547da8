/** Refresh rotation over whole runs: one successor each, counts kept, revocation final. */
module AuthRotation {
  import opened Options
  import opened AuthModel
  import opened AuthInvariant

  /** The unrevoked sessions of a user. */
  function ActiveCount(sessions: seq<Session>, user: UserId): nat {
    if sessions == [] then 0
    else
      var x := sessions[|sessions| - 1];
      ActiveCount(sessions[..|sessions| - 1], user) + if x.userId == user && !x.revoked then 1 else 0
  }

  /* ---- counting ---- */

  lemma CountAdded(sessions: seq<Session>, x: Session, user: UserId)
    ensures ActiveCount(sessions + [x], user)
         == ActiveCount(sessions, user) + if x.userId == user && !x.revoked then 1 else 0
  {
  }

  lemma {:induction false} CountRevoked(sessions: seq<Session>, i: nat, user: UserId)
    requires i < |sessions|
    ensures ActiveCount(RevokeAt(sessions, i), user)
         == ActiveCount(sessions, user) - if sessions[i].userId == user && !sessions[i].revoked then 1 else 0
  {
    var n := |sessions| - 1;
    if i < n {
      CountRevoked(sessions[..n], i, user);
      assert RevokeAt(sessions, i)[..n] == RevokeAt(sessions[..n], i);
    } else {
      assert RevokeAt(sessions, i)[..n] == sessions[..n];
    }
  }

  lemma {:induction false} CountAllRevoked(sessions: seq<Session>, gone: UserId, user: UserId)
    ensures ActiveCount(RevokeAll(sessions, gone), user) == if user == gone then 0 else ActiveCount(sessions, user)
  {
    if sessions != [] {
      var n := |sessions| - 1;
      CountAllRevoked(sessions[..n], gone, user);
      assert RevokeAll(sessions, gone)[..n] == RevokeAll(sessions[..n], gone);
    }
  }

  /** A refresh, whether or not it succeeds, leaves every user's count of unrevoked sessions as it was. */
  lemma RefreshPreservesCounts(s: State, env: Env, token: Token, newToken: Token, user: UserId)
    ensures ActiveCount(DoRefresh(s, env, token, newToken).state.sessions, user) == ActiveCount(s.sessions, user)
  {
    var found := FindFirst(s.sessions, SessionWith(token));
    if DoRefresh(s, env, token, newToken).outcome.SessionIssued? {
      var after := RevokeAt(s.sessions, found.value);
      CountRevoked(s.sessions, found.value, user);
      CountAdded(after, Session(s.sessions[found.value].userId, newToken, env.now + env.refreshTtl, false), user);
    }
  }

  /* ---- logins since the last mass revocation ---- */

  /** Whether a call revoked all the sessions of a user. */
  predicate MassRevokes(s: State, c: Call, user: UserId) {
    Handle(s, c.env, c.request).outcome == Done
    && match c.request
       case ResetPassword(token, _) =>
         var row := Resolve(s, c.env, token, PasswordReset);
         row.Some? && s.tokens[row.value].userId == user
       case DeleteAccount(id) => id == user
       case _ => false
  }

  predicate LogsIn(s: State, c: Call, user: UserId) {
    (c.request.Login? || c.request.GoogleLogin?) && Handle(s, c.env, c.request).outcome == SessionIssued(user)
  }

  /** Successful logins of a user since the last password reset or deletion. */
  function LoginsSince(start: State, calls: seq<Call>, user: UserId): nat {
    if calls == [] then 0
    else
      var before, last := calls[..|calls| - 1], calls[|calls| - 1];
      var s := Run(start, before);
      if MassRevokes(s, last, user) then 0
      else LoginsSince(start, before, user) + if LogsIn(s, last, user) then 1 else 0
  }

  lemma LogoutCounts(s: State, token: Token, user: UserId)
    ensures ActiveCount(DoLogout(s, token).state.sessions, user) <= ActiveCount(s.sessions, user)
  {
    var found := FindFirst(s.sessions, SessionWith(token));
    if found.Some? {
      CountRevoked(s.sessions, found.value, user);
    }
  }

  lemma LoginCounts(s: State, env: Env, email: Email, password: string, token: Token, user: UserId)
    ensures var r := DoLogin(s, env, email, password, token);
      ActiveCount(r.state.sessions, user)
        == ActiveCount(s.sessions, user) + if r.outcome == SessionIssued(user) then 1 else 0
  {
    var found := FindFirst(s.users, LiveWithEmail(email));
    if DoLogin(s, env, email, password, token).outcome.SessionIssued? {
      CountAdded(s.sessions, Session(found.value, token, env.now + env.refreshTtl, false), user);
    } else {
      assert DoLogin(s, env, email, password, token).state == s;
    }
  }

  lemma AdmitCounts(before: State, s: State, env: Env, id: UserId, token: Token, user: UserId)
    requires id < |s.users| && before.sessions == s.sessions
    ensures var r := AdmitGoogle(before, s, env, id, token);
      ActiveCount(r.state.sessions, user)
        == ActiveCount(s.sessions, user) + if r.outcome == SessionIssued(user) then 1 else 0
  {
  }

  lemma LinkOrCreateCounts(before: State, s: State, env: Env, identity: Identity, token: Token, user: UserId)
    requires before.sessions == s.sessions
    ensures var r := LinkOrCreate(before, s, env, identity, token);
      ActiveCount(r.state.sessions, user)
        == ActiveCount(s.sessions, user) + if r.outcome == SessionIssued(user) then 1 else 0
  {
  }

  lemma GoogleCounts(s: State, env: Env, identity: Option<Identity>, token: Token, user: UserId)
    ensures var r := DoGoogleLogin(s, env, identity, token);
      ActiveCount(r.state.sessions, user)
        == ActiveCount(s.sessions, user) + if r.outcome == SessionIssued(user) then 1 else 0
  {
    if identity.Some? {
      var holder := FindFirst(s.users, WithSub(identity.value.sub));
      if holder.Some? {
        AdmitCounts(s, s, env, holder.value, token, user);
      }
      LinkOrCreateCounts(s, Freed(s, identity.value.sub), env, identity.value, token, user);
    }
  }

  lemma RequestCounts(s: State, c: Call, user: UserId)
    ensures var after := ActiveCount(Handle(s, c.env, c.request).state.sessions, user);
      if MassRevokes(s, c, user) then after == 0
      else after <= ActiveCount(s.sessions, user) + if LogsIn(s, c, user) then 1 else 0
  {
    match c.request
    case Login(email, password, newToken) => LoginCounts(s, c.env, email, password, newToken, user);
    case GoogleLogin(identity, newToken) => GoogleCounts(s, c.env, identity, newToken, user);
    case Refresh(token, newToken) => RefreshPreservesCounts(s, c.env, token, newToken, user);
    case Logout(token) => LogoutCounts(s, token, user);
    case ResetPassword(token, _) =>
      var row := Resolve(s, c.env, token, PasswordReset);
      if row.Some? {
        CountAllRevoked(s.sessions, s.tokens[row.value].userId, user);
      }
    case DeleteAccount(id) => CountAllRevoked(s.sessions, id, user);
    case Register(_, _, _) =>
    case VerifyEmail(_) =>
    case ResendVerification(_, _) =>
    case ForgotPassword(_, _) =>
  }

  /** A user never has more unrevoked sessions than logins since the last reset or deletion. */
  lemma {:induction false} SessionsNeverOutnumberLogins(start: State, calls: seq<Call>, user: UserId)
    requires ActiveCount(start.sessions, user) == 0
    ensures ActiveCount(Run(start, calls).sessions, user) <= LoginsSince(start, calls, user)
  {
    if calls != [] {
      SessionsNeverOutnumberLogins(start, calls[..|calls| - 1], user);
      RequestCounts(Run(start, calls[..|calls| - 1]), calls[|calls| - 1], user);
    }
  }

  /* ---- revocation is final ---- */

  /** A session row of `s` keeps its place, owner and token in `t`, and stays revoked once revoked. */
  ghost predicate Follows(s: State, t: State) {
    && |s.sessions| <= |t.sessions|
    && forall i :: 0 <= i < |s.sessions| ==>
         && t.sessions[i].token == s.sessions[i].token && t.sessions[i].userId == s.sessions[i].userId
         && (s.sessions[i].revoked ==> t.sessions[i].revoked)
  }

  /** The sessions are as they were, or one longer; the one-time tokens are untouched. */
  ghost predicate SessionsGrow(s: State, t: State) {
    && t.tokens == s.tokens
    && |s.sessions| <= |t.sessions| && t.sessions[..|s.sessions|] == s.sessions
  }

  lemma AdmitGrows(before: State, s: State, env: Env, user: UserId, token: Token)
    requires user < |s.users| && before.sessions == s.sessions && before.tokens == s.tokens
    ensures SessionsGrow(before, AdmitGoogle(before, s, env, user, token).state)
  {
  }

  lemma LinkOrCreateGrows(before: State, s: State, env: Env, identity: Identity, token: Token)
    requires before.sessions == s.sessions && before.tokens == s.tokens
    ensures SessionsGrow(before, LinkOrCreate(before, s, env, identity, token).state)
  {
  }

  lemma GoogleFollows(s: State, env: Env, identity: Option<Identity>, token: Token)
    ensures SessionsGrow(s, DoGoogleLogin(s, env, identity, token).state)
    ensures Follows(s, DoGoogleLogin(s, env, identity, token).state)
  {
    if identity.Some? {
      var holder := FindFirst(s.users, WithSub(identity.value.sub));
      if holder.Some? {
        AdmitGrows(s, s, env, holder.value, token);
      }
      LinkOrCreateGrows(s, Freed(s, identity.value.sub), env, identity.value, token);
    }
    GrowthFollows(s, DoGoogleLogin(s, env, identity, token).state);
  }

  lemma GrowthFollows(s: State, t: State)
    requires SessionsGrow(s, t)
    ensures Follows(s, t)
  {
  }

  lemma SweepFollows(s: State, env: Env, token: Token, password: string, user: UserId)
    ensures Follows(s, DoReset(s, env, token, password).state)
    ensures Follows(s, DoDelete(s, user).state)
  {
  }

  lemma RequestFollows(s: State, env: Env, r: Request)
    ensures Follows(s, Handle(s, env, r).state)
  {
    match r
    case Register(_, _, _) =>
    case Login(_, _, _) =>
    case GoogleLogin(identity, newToken) => GoogleFollows(s, env, identity, newToken);
    case Refresh(token, _) =>
    case Logout(_) =>
    case VerifyEmail(_) =>
    case ResendVerification(_, _) =>
    case ForgotPassword(_, _) =>
    case ResetPassword(token, password) => SweepFollows(s, env, token, password, 0);
    case DeleteAccount(user) => SweepFollows(s, env, "", "", user);
  }

  lemma {:induction false} RunFollows(start: State, calls: seq<Call>, i: nat)
    requires i <= |calls|
    ensures Follows(Run(start, calls[..i]), Run(start, calls))
  {
    if i == |calls| {
      assert calls[..i] == calls;
    } else {
      var before, last := calls[..|calls| - 1], calls[|calls| - 1];
      assert before[..i] == calls[..i];
      RunFollows(start, before, i);
      RequestFollows(Run(start, before), last.env, last.request);
    }
  }

  /** A token whose row is revoked no longer refreshes. */
  lemma RevokedNeverRefreshes(s: State, env: Env, i: nat, newToken: Token)
    requires Consistent(s) && i < |s.sessions| && s.sessions[i].revoked
    ensures DoRefresh(s, env, s.sessions[i].token, newToken).outcome == InvalidCredentials
  {
  }

  /** A successful refresh revokes the row it used. */
  lemma RefreshRevokes(s: State, env: Env, token: Token, newToken: Token)
    requires DoRefresh(s, env, token, newToken).outcome.SessionIssued?
    ensures var found := FindFirst(s.sessions, SessionWith(token));
      var t := DoRefresh(s, env, token, newToken).state;
      && found.Some? && found.value < |t.sessions|
      && t.sessions[found.value].token == token && t.sessions[found.value].revoked
  {
  }

  lemma LaterRefreshFails(start: State, calls: seq<Call>, i: nat, j: nat, row: nat)
    requires Consistent(start) && i < j < |calls|
    requires calls[j].request.Refresh?
    requires var s := Run(start, calls[..i + 1]);
      row < |s.sessions| && s.sessions[row].revoked && s.sessions[row].token == calls[j].request.token
    ensures Answer(start, calls, j).outcome == InvalidCredentials
  {
    assert calls[..j][..i + 1] == calls[..i + 1];
    RunFollows(start, calls[..j], i + 1);
    EveryStateConsistent(start, calls[..j]);
    RevokedNeverRefreshes(Run(start, calls[..j]), calls[j].env, row, calls[j].request.newToken);
  }

  lemma RunOfPrefix(start: State, calls: seq<Call>, i: nat)
    requires i < |calls|
    ensures Run(start, calls[..i + 1]) == Answer(start, calls, i).state
  {
    assert calls[..i + 1][..i] == calls[..i];
  }

  /** A refresh token works once: a session has at most one successor. */
  lemma OneSuccessor(start: State, calls: seq<Call>, i: nat, j: nat)
    requires Consistent(start) && i < j < |calls|
    requires calls[i].request.Refresh? && calls[j].request.Refresh?
    requires calls[i].request.token == calls[j].request.token
    requires Answer(start, calls, i).outcome.SessionIssued?
    ensures Answer(start, calls, j).outcome == InvalidCredentials
  {
    var s := Run(start, calls[..i]);
    var token := calls[i].request.token;
    RefreshRevokes(s, calls[i].env, token, calls[i].request.newToken);
    RunOfPrefix(start, calls, i);
    LaterRefreshFails(start, calls, i, j, FindFirst(s.sessions, SessionWith(token)).value);
  }

  /** After a password reset or a deletion, no refresh token the user had before ever works again. */
  lemma MassRevocationIsFinal(start: State, calls: seq<Call>, i: nat, j: nat, user: UserId, row: nat)
    requires Consistent(start) && i < j < |calls|
    requires MassRevokes(Run(start, calls[..i]), calls[i], user)
    requires row < |Run(start, calls[..i]).sessions| && Run(start, calls[..i]).sessions[row].userId == user
    requires calls[j].request.Refresh? && calls[j].request.token == Run(start, calls[..i]).sessions[row].token
    ensures Answer(start, calls, j).outcome == InvalidCredentials
  {
    RunOfPrefix(start, calls, i);
    LaterRefreshFails(start, calls, i, j, row);
  }

  /** Right after it, the user has no unrevoked session left. */
  lemma MassRevocationClears(s: State, c: Call, user: UserId)
    requires MassRevokes(s, c, user)
    ensures ActiveCount(Handle(s, c.env, c.request).state.sessions, user) == 0
  {
    RequestCounts(s, c, user);
  }

  /* ---- one-time tokens ---- */

  /** A one-time token row of `s` keeps its place, name and type in `t`, and stays used once used. */
  ghost predicate TokensFollow(s: State, t: State) {
    && |s.tokens| <= |t.tokens|
    && forall i :: 0 <= i < |s.tokens| ==>
         && t.tokens[i].token == s.tokens[i].token && t.tokens[i].tokenType == s.tokens[i].tokenType
         && (s.tokens[i].used ==> t.tokens[i].used)
  }

  lemma RequestTokensFollow(s: State, env: Env, r: Request)
    ensures TokensFollow(s, Handle(s, env, r).state)
  {
    match r
    case Register(_, _, _) =>
    case Login(_, _, _) =>
    case GoogleLogin(identity, newToken) => GoogleFollows(s, env, identity, newToken);
    case Refresh(_, _) =>
    case Logout(_) =>
    case VerifyEmail(_) =>
    case ResendVerification(_, _) =>
    case ForgotPassword(_, _) =>
    case ResetPassword(_, _) =>
    case DeleteAccount(_) =>
  }

  lemma {:induction false} RunTokensFollow(start: State, calls: seq<Call>, i: nat)
    requires i <= |calls|
    ensures TokensFollow(Run(start, calls[..i]), Run(start, calls))
  {
    if i == |calls| {
      assert calls[..i] == calls;
    } else {
      var before, last := calls[..|calls| - 1], calls[|calls| - 1];
      assert before[..i] == calls[..i];
      RunTokensFollow(start, before, i);
      RequestTokensFollow(Run(start, before), last.env, last.request);
    }
  }

  lemma UsedNeverResolves(s: State, env: Env, row: nat, kind: TokenType)
    requires Consistent(s) && row < |s.tokens| && s.tokens[row].used
    ensures Resolve(s, env, s.tokens[row].token, kind) == None
  {
  }

  /** Resetting a password uses up every reset token of the account: none works again. */
  lemma ResetTokensWorkOnce(start: State, calls: seq<Call>, i: nat, j: nat, row: nat)
    requires Consistent(start) && i < j < |calls|
    requires calls[i].request.ResetPassword? && Answer(start, calls, i).outcome == Done
    requires var s := Run(start, calls[..i]);
      var used := Resolve(s, calls[i].env, calls[i].request.token, PasswordReset);
      && used.Some? && row < |s.tokens|
      && s.tokens[row].userId == s.tokens[used.value].userId && s.tokens[row].tokenType == PasswordReset
    requires calls[j].request.ResetPassword? && calls[j].request.token == Run(start, calls[..i]).tokens[row].token
    ensures Answer(start, calls, j).outcome == InvalidToken
  {
    RunOfPrefix(start, calls, i);
    assert calls[..j][..i + 1] == calls[..i + 1];
    RunTokensFollow(start, calls[..j], i + 1);
    EveryStateConsistent(start, calls[..j]);
    UsedNeverResolves(Run(start, calls[..j]), calls[j].env, row, PasswordReset);
  }
}
