/** Who a login lets in: the account's own last password, and every condition at the door. */
module AuthLogin {
  import opened Options
  import opened AuthModel
  import opened AuthInvariant
  import opened AuthRotation

  /* ---- one login ---- */

  /** The one row that satisfies `p` is found. */
  lemma FoundIs<T>(s: seq<T>, p: T -> bool, i: nat)
    requires i < |s| && p(s[i]) && forall j :: 0 <= j < |s| && j != i ==> !p(s[j])
    ensures FindFirst(s, p) == Some(i)
  {
    var r := FindFirst(s, p);
    assert r.Some? ==> p(s[r.value]);
  }

  lemma NoneFound<T>(s: seq<T>, p: T -> bool)
    requires forall j :: 0 <= j < |s| ==> !p(s[j])
    ensures FindFirst(s, p) == None
  {
  }

  /** The account an address and a password belong to: live, human, and with that password. */
  predicate OwnAccount(s: State, email: Email, password: string, u: UserId) {
    && u < |s.users| && s.users[u].email == email && !s.users[u].deleted && !s.users[u].ai
    && s.users[u].passwordHash == Some(HashOf(password))
  }

  /** The door a person of an account stands before: no ban, no throttling, and in test mode a guest list. */
  predicate Admitted(s: State, env: Env, u: UserId)
    requires u < |s.users|
  {
    && s.users[u].email !in env.blocked && !env.limited
    && (!env.testMode || s.users[u].operator || s.users[u].email in env.testers)
  }

  predicate UnusedSessionToken(s: State, token: Token) {
    forall i :: 0 <= i < |s.sessions| ==> s.sessions[i].token != token
  }

  predicate MayLogIn(s: State, env: Env, email: Email, password: string, token: Token, u: UserId) {
    && OwnAccount(s, email, password, u) && s.users[u].emailVerified && Admitted(s, env, u)
    && UnusedSessionToken(s, token)
  }

  lemma LiveAccountFound(s: State, email: Email, u: UserId)
    requires Consistent(s) && u < |s.users| && s.users[u].email == email && !s.users[u].deleted
    ensures FindFirst(s.users, LiveWithEmail(email)) == Some(u) && FindFirst(s.users, WithEmail(email)) == Some(u)
  {
    FoundIs(s.users, LiveWithEmail(email), u);
    FoundIs(s.users, WithEmail(email), u);
  }

  lemma TokenUnfound(s: State, token: Token)
    ensures UnusedSessionToken(s, token) <==> FindFirst(s.sessions, SessionWith(token)).None?
  {
    var r := FindFirst(s.sessions, SessionWith(token));
    assert r.Some? ==> SessionWith(token)(s.sessions[r.value]);
    assert forall i :: 0 <= i < |s.sessions| ==> (SessionWith(token)(s.sessions[i]) <==> s.sessions[i].token == token);
  }

  /** A login issues a session to a user exactly when the address and password are his and every condition is met. */
  lemma LoginSucceedsExactly(s: State, env: Env, email: Email, password: string, token: Token, u: UserId)
    requires Consistent(s)
    ensures Handle(s, env, Login(email, password, token)).outcome == SessionIssued(u)
       <==> MayLogIn(s, env, email, password, token, u)
  {
    TokenUnfound(s, token);
    if u < |s.users| && s.users[u].email == email && !s.users[u].deleted {
      LiveAccountFound(s, email, u);
    }
    var found := FindFirst(s.users, LiveWithEmail(email));
    assert found.Some? ==> LiveWithEmail(email)(s.users[found.value]);
  }

  /** What a login changes: one more session for that user, for the configured time; and nothing when it fails. */
  lemma LoginChanges(s: State, env: Env, email: Email, password: string, token: Token)
    requires Consistent(s)
    ensures var r := Handle(s, env, Login(email, password, token));
      && (r.outcome.SessionIssued? ==>
            r.state == s.(sessions := s.sessions + [Session(r.outcome.userId, token, env.now + env.refreshTtl, false)]))
      && (!r.outcome.SessionIssued? ==> r.state == s)
  {
  }

  /** Bans and throttling are met before the password is looked at. */
  lemma LoginDoors(s: State, env: Env, email: Email, password: string, token: Token)
    requires email in env.blocked || env.limited
    ensures Handle(s, env, Login(email, password, token))
         == Result(s, if email in env.blocked then Blocked else RateLimited)
  {
  }

  /** What a refused login is told: nothing about an account whose password was not given. */
  lemma LoginRefusals(s: State, env: Env, email: Email, password: string, token: Token)
    requires Consistent(s) && email !in env.blocked && !env.limited
    ensures Handle(s, env, Login(email, password, token)).outcome == InvalidCredentials
       <==> forall u: UserId :: !OwnAccount(s, email, password, u)
    ensures Handle(s, env, Login(email, password, token)).outcome == EmailNotVerified
       <==> exists u: UserId :: OwnAccount(s, email, password, u) && !s.users[u].emailVerified
    ensures Handle(s, env, Login(email, password, token)).outcome == TesterOnly
       <==> exists u: UserId :: OwnAccount(s, email, password, u) && s.users[u].emailVerified && !Admitted(s, env, u)
  {
    var found := FindFirst(s.users, LiveWithEmail(email));
    assert found.Some? ==> LiveWithEmail(email)(s.users[found.value]);
    forall u: UserId | OwnAccount(s, email, password, u) ensures found == Some(u) {
      LiveAccountFound(s, email, u);
    }
    if found.Some? && !s.users[found.value].ai && s.users[found.value].passwordHash == Some(HashOf(password)) {
      assert OwnAccount(s, email, password, found.value);
    }
  }

  /* ---- the password last set ---- */

  /** Whether a reset token is one of the user's. */
  predicate HoldsReset(s: State, token: Token, user: UserId) {
    exists i :: 0 <= i < |s.tokens| && s.tokens[i].token == token && s.tokens[i].tokenType == PasswordReset
      && s.tokens[i].userId == user
  }

  /** The user's password after a call, given the one before: what a registration or reset set, none once deleted. */
  function PasswordAfter(s: State, c: Call, user: UserId, before: Option<string>): Option<string> {
    var r := Handle(s, c.env, c.request);
    match c.request
    case Register(_, password, _) =>
      if user == |s.users| && r.outcome == Done && |r.state.users| > |s.users| then Some(password) else before
    case ResetPassword(token, password) =>
      if r.outcome == Done && HoldsReset(s, token, user) then Some(password) else before
    case DeleteAccount(id) => if id == user && r.outcome == Done then None else before
    case _ => before
  }

  /** The password last set for a user: at first the one the account came with, if any. */
  function LastPassword(start: State, calls: seq<Call>, user: UserId): Option<string> {
    if calls == [] then
      if user < |start.users| && start.users[user].passwordHash.Some? && start.users[user].passwordHash.value.HashOf?
      then Some(start.users[user].passwordHash.value.password) else None
    else
      var before, last := calls[..|calls| - 1], calls[|calls| - 1];
      PasswordAfter(Run(start, before), last, user, LastPassword(start, before, user))
  }

  /** The stored hash is that of the password last set; without one there is none, or one nobody can meet. */
  predicate Stores(s: State, user: UserId, password: Option<string>) {
    if user >= |s.users| then password.None?
    else if password.Some? then s.users[user].passwordHash == Some(HashOf(password.value))
    else s.users[user].passwordHash.None? || s.users[user].passwordHash == Some(Unusable)
  }

  lemma ResetStores(s: State, env: Env, token: Token, password: string, user: UserId, before: Option<string>)
    requires Consistent(s) && Stores(s, user, before)
    ensures var c := Call(env, ResetPassword(token, password));
      Stores(Handle(s, env, c.request).state, user, PasswordAfter(s, c, user, before))
  {
    var row := Resolve(s, env, token, PasswordReset);
    if row.Some? {
      assert HoldsReset(s, token, user) <==> s.tokens[row.value].userId == user by {
        if i :| 0 <= i < |s.tokens| && s.tokens[i].token == token && s.tokens[i].userId == user {
          assert i == row.value;
        }
      }
    }
  }

  lemma RegisterStores(s: State, env: Env, email: Email, password: string, token: Token, user: UserId, before: Option<string>)
    requires Consistent(s) && Stores(s, user, before)
    ensures var c := Call(env, Register(email, password, token));
      Stores(Handle(s, env, c.request).state, user, PasswordAfter(s, c, user, before))
  {
  }

  lemma GoogleKeepsPasswords(s: State, env: Env, identity: Option<Identity>, token: Token, user: UserId)
    ensures var t := Handle(s, env, GoogleLogin(identity, token)).state;
      && |t.users| >= |s.users|
      && (user < |s.users| ==> t.users[user].passwordHash == s.users[user].passwordHash)
      && (|s.users| <= user < |t.users| ==> t.users[user].passwordHash.None?)
  {
    if identity.Some? {
      var holder := FindFirst(s.users, WithSub(identity.value.sub));
      var freed := Freed(s, identity.value.sub);
      LinkKeepsPasswords(s, freed, env, identity.value, token, user);
    }
  }

  lemma LinkKeepsPasswords(before: State, s: State, env: Env, identity: Identity, token: Token, user: UserId)
    requires |before.users| == |s.users|
    requires user < |s.users| ==> before.users[user].passwordHash == s.users[user].passwordHash
    ensures var t := LinkOrCreate(before, s, env, identity, token).state;
      && |t.users| >= |s.users|
      && (user < |s.users| ==> t.users[user].passwordHash == s.users[user].passwordHash)
      && (|s.users| <= user < |t.users| ==> t.users[user].passwordHash.None?)
  {
  }

  lemma OthersKeepPasswords(s: State, env: Env, r: Request, user: UserId)
    requires r.Login? || r.Refresh? || r.Logout? || r.VerifyEmail? || r.ResendVerification? || r.ForgotPassword?
    ensures var t := Handle(s, env, r).state;
      && |t.users| == |s.users|
      && (user < |s.users| ==> t.users[user].passwordHash == s.users[user].passwordHash)
  {
    match r
    case Login(email, password, token) => assert DoLogin(s, env, email, password, token).state.users == s.users;
    case Refresh(token, newToken) => assert DoRefresh(s, env, token, newToken).state.users == s.users;
    case _ =>
  }

  lemma DeleteStores(s: State, env: Env, id: UserId, user: UserId, before: Option<string>)
    requires Stores(s, user, before)
    ensures var c := Call(env, DeleteAccount(id));
      Stores(Handle(s, env, c.request).state, user, PasswordAfter(s, c, user, before))
  {
  }

  lemma CallStores(s: State, c: Call, user: UserId, before: Option<string>)
    requires Consistent(s) && Stores(s, user, before)
    ensures Stores(Handle(s, c.env, c.request).state, user, PasswordAfter(s, c, user, before))
  {
    match c.request
    case Register(email, password, token) => RegisterStores(s, c.env, email, password, token, user, before);
    case ResetPassword(token, password) => ResetStores(s, c.env, token, password, user, before);
    case DeleteAccount(id) => DeleteStores(s, c.env, id, user, before);
    case GoogleLogin(identity, token) => GoogleKeepsPasswords(s, c.env, identity, token, user);
    case _ => OthersKeepPasswords(s, c.env, c.request, user);
  }

  lemma {:induction false} RunStores(start: State, calls: seq<Call>, user: UserId)
    requires Consistent(start)
    ensures Stores(Run(start, calls), user, LastPassword(start, calls, user))
  {
    if calls != [] {
      var before := calls[..|calls| - 1];
      RunStores(start, before, user);
      EveryStateConsistent(start, before);
      CallStores(Run(start, before), calls[|calls| - 1], user, LastPassword(start, before, user));
    }
  }

  /** The conditions on a login besides the password. */
  predicate Welcome(s: State, env: Env, email: Email, token: Token, u: UserId) {
    && u < |s.users| && s.users[u].email == email && !s.users[u].deleted && !s.users[u].ai
    && s.users[u].emailVerified && Admitted(s, env, u) && UnusedSessionToken(s, token)
  }

  /** Over whole runs: a login works exactly for the welcome owner of the address who gives the password last set for him. */
  lemma LoginTakesLastPassword(start: State, calls: seq<Call>, i: nat, u: UserId)
    requires Consistent(start) && i < |calls| && calls[i].request.Login?
    ensures var request := calls[i].request;
      Answer(start, calls, i).outcome == SessionIssued(u)
      <==> Welcome(Run(start, calls[..i]), calls[i].env, request.email, request.newToken, u)
           && LastPassword(start, calls[..i], u) == Some(request.password)
  {
    var s, request := Run(start, calls[..i]), calls[i].request;
    EveryStateConsistent(start, calls[..i]);
    RunStores(start, calls[..i], u);
    LoginSucceedsExactly(s, calls[i].env, request.email, request.password, request.newToken, u);
  }

  /* ---- after a reset ---- */

  /** The call resets the user's password or deletes the account. */
  predicate Resets(s: State, c: Call, user: UserId) {
    Handle(s, c.env, c.request).outcome == Done
    && ((c.request.ResetPassword? && HoldsReset(s, c.request.token, user)) || c.request == DeleteAccount(user))
  }

  lemma UsersOnlyGrow(start: State, calls: seq<Call>)
    ensures |Run(start, calls).users| >= |start.users|
  {
    if calls != [] {
      UsersOnlyGrow(start, calls[..|calls| - 1]);
      CallGrowsUsers(Run(start, calls[..|calls| - 1]), calls[|calls| - 1]);
    }
  }

  lemma CallGrowsUsers(s: State, c: Call)
    ensures |Handle(s, c.env, c.request).state.users| >= |s.users|
  {
    match c.request
    case GoogleLogin(identity, token) => GoogleKeepsPasswords(s, c.env, identity, token, 0);
    case Login(_, _, _) => OthersKeepPasswords(s, c.env, c.request, 0);
    case Refresh(_, _) => OthersKeepPasswords(s, c.env, c.request, 0);
    case _ =>
  }

  /** The call at `i` of a run does so. */
  predicate ResetsAt(start: State, calls: seq<Call>, i: nat, user: UserId)
    requires i < |calls|
  {
    Resets(Run(start, calls[..i]), calls[i], user)
  }

  lemma CallKeepsPassword(start: State, calls: seq<Call>, user: UserId)
    requires calls != [] && user < |Run(start, calls[..|calls| - 1]).users| && !ResetsAt(start, calls, |calls| - 1, user)
    ensures LastPassword(start, calls, user) == LastPassword(start, calls[..|calls| - 1], user)
    ensures user < |Run(start, calls).users|
  {
    CallGrowsUsers(Run(start, calls[..|calls| - 1]), calls[|calls| - 1]);
  }

  lemma PrefixResets(start: State, calls: seq<Call>, n: nat, i: nat, user: UserId)
    requires i < n <= |calls|
    ensures ResetsAt(start, calls[..n], i, user) == ResetsAt(start, calls, i, user)
  {
    assert calls[..n][..i] == calls[..i];
  }

  /** Between resets the password last set stays. */
  lemma {:induction false} PasswordStays(start: State, calls: seq<Call>, i: nat, user: UserId)
    requires i <= |calls| && user < |Run(start, calls[..i]).users|
    requires forall k :: i <= k < |calls| ==> !ResetsAt(start, calls, k, user)
    ensures LastPassword(start, calls, user) == LastPassword(start, calls[..i], user)
    ensures user < |Run(start, calls).users|
  {
    if i == |calls| {
      assert calls[..i] == calls;
    } else {
      var n := |calls| - 1;
      assert calls[..n][..i] == calls[..i];
      forall k | i <= k < n ensures !ResetsAt(start, calls[..n], k, user) {
        PrefixResets(start, calls, n, k, user);
      }
      PasswordStays(start, calls[..n], i, user);
      CallKeepsPassword(start, calls, user);
    }
  }

  /**
   * After a reset that worked, until the next reset or deletion, no other password logs the user in,
   * and the new one does whenever he is welcome.
   */
  lemma ResetReplacesPassword(start: State, calls: seq<Call>, i: nat, j: nat, user: UserId)
    requires Consistent(start) && i < j < |calls| && calls[i].request.ResetPassword? && calls[j].request.Login?
    requires Answer(start, calls, i).outcome == Done
    requires HoldsReset(Run(start, calls[..i]), calls[i].request.token, user)
    requires forall k :: i < k < j ==> !ResetsAt(start, calls, k, user)
    ensures var request := calls[j].request;
      Answer(start, calls, j).outcome == SessionIssued(user)
      <==> Welcome(Run(start, calls[..j]), calls[j].env, request.email, request.newToken, user)
           && request.password == calls[i].request.password
  {
    var upto := calls[..j];
    assert upto[..i + 1] == calls[..i + 1] && calls[..i + 1][..i] == calls[..i];
    EveryStateConsistent(start, calls[..i]);
    var s := Run(start, calls[..i]);
    var row := Resolve(s, calls[i].env, calls[i].request.token, PasswordReset);
    var held :| 0 <= held < |s.tokens| && s.tokens[held].token == calls[i].request.token
                && s.tokens[held].tokenType == PasswordReset && s.tokens[held].userId == user;
    assert held == row.value && user < |s.users|;
    RunOfPrefix(start, calls, i);
    CallGrowsUsers(s, calls[i]);
    forall k | i + 1 <= k < |upto| ensures !ResetsAt(start, upto, k, user) {
      PrefixResets(start, calls, j, k, user);
    }
    PasswordStays(start, upto, i + 1, user);
    assert LastPassword(start, calls[..i + 1], user) == Some(calls[i].request.password);
    LoginTakesLastPassword(start, calls, j, user);
  }
}
