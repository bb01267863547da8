/** What every request keeps true of accounts, sessions and tokens, failed requests included. */
module AuthInvariant {
  import opened Options
  import opened AuthModel

  /* ---- the invariant ---- */

  /** Someone a refresh session may belong to. */
  predicate Trusted(u: User) {
    u.emailVerified && !u.deleted && !u.ai
  }

  /**
   * Every account keeps a credential, a deleted one a password hash; and a held Google identifier
   * means a verified account, or one deleted in the days when deletion did not free it.
   */
  predicate UserOk(u: User) {
    && (u.passwordHash.Some? || u.googleSub.Some?)
    && (u.deleted ==> u.passwordHash.Some?)
    && (u.googleSub.Some? ==> u.emailVerified || u.deleted)
  }

  ghost predicate UsersOk(users: seq<User>) {
    && (forall i :: 0 <= i < |users| ==> UserOk(users[i]))
    && (forall i, j :: 0 <= i < j < |users| ==> users[i].email != users[j].email)
    && (forall i, j :: 0 <= i < j < |users| && users[i].googleSub.Some? ==> users[i].googleSub != users[j].googleSub)
  }

  predicate SessionOk(users: seq<User>, x: Session) {
    x.userId < |users| && (!x.revoked ==> Trusted(users[x.userId]))
  }

  ghost predicate SessionsOk(users: seq<User>, sessions: seq<Session>) {
    && (forall i :: 0 <= i < |sessions| ==> SessionOk(users, sessions[i]))
    && (forall i, j :: 0 <= i < j < |sessions| ==> sessions[i].token != sessions[j].token)
  }

  predicate Rivals(x: AuthToken, y: AuthToken) {
    x.userId == y.userId && x.tokenType == y.tokenType && !x.used && !y.used
  }

  ghost predicate TokensOk(users: seq<User>, tokens: seq<AuthToken>) {
    && (forall i :: 0 <= i < |tokens| ==> tokens[i].userId < |users|)
    && (forall i, j :: 0 <= i < j < |tokens| ==> tokens[i].token != tokens[j].token && !Rivals(tokens[i], tokens[j]))
  }

  /**
   * Unrevoked sessions belong to verified, live, human accounts; no two accounts share an
   * address or a Google identifier; every account keeps a credential; and a user has at
   * most one unused token of each type.
   */
  ghost predicate Consistent(s: State) {
    UsersOk(s.users) && SessionsOk(s.users, s.sessions) && TokensOk(s.users, s.tokens)
  }

  /** A deleted account that still holds its Google identifier. */
  predicate StaleHolder(u: User) {
    u.deleted && u.googleSub.Some?
  }

  /** A fresh platform: live accounts made by the operator with passwords, and nothing yet issued. */
  ghost predicate Initial(s: State) {
    && s.sessions == [] && s.tokens == []
    && (forall i :: 0 <= i < |s.users| ==>
          s.users[i].passwordHash.Some? && s.users[i].googleSub.None? && !s.users[i].deleted
          && s.users[i].email.Address?)
    && (forall i, j :: 0 <= i < j < |s.users| ==> s.users[i].email != s.users[j].email)
  }

  /** Only a deleted account carries a placeholder address, and it carries its own. */
  ghost predicate PlaceholdersOk(s: State) {
    forall i :: 0 <= i < |s.users| ==>
      if s.users[i].deleted then s.users[i].email == Anonymised(i) else s.users[i].email.Address?
  }

  /* ---- one write at a time ---- */

  lemma UserChanged(users: seq<User>, i: nat, u: User)
    requires UsersOk(users) && i < |users| && UserOk(u)
    requires u.email == users[i].email || forall j :: 0 <= j < |users| && j != i ==> users[j].email != u.email
    requires u.googleSub.None? || u.googleSub == users[i].googleSub
          || forall j :: 0 <= j < |users| && j != i ==> users[j].googleSub != u.googleSub
    ensures UsersOk(users[i := u])
  {
  }

  lemma UserAdded(users: seq<User>, u: User)
    requires UsersOk(users) && UserOk(u)
    requires forall j :: 0 <= j < |users| ==> users[j].email != u.email
    requires u.googleSub.None? || forall j :: 0 <= j < |users| ==> users[j].googleSub != u.googleSub
    ensures UsersOk(users + [u])
  {
  }

  lemma OthersUnaffected(s: State, i: nat, u: User)
    requires Consistent(s) && i < |s.users| && (Trusted(s.users[i]) ==> Trusted(u))
    ensures SessionsOk(s.users[i := u], s.sessions) && TokensOk(s.users[i := u], s.tokens)
  {
  }

  lemma MoreUsersUnaffected(s: State, u: User)
    requires Consistent(s)
    ensures SessionsOk(s.users + [u], s.sessions) && TokensOk(s.users + [u], s.tokens)
  {
  }

  lemma TokenIssued(before: State, s: State, user: UserId, kind: TokenType, token: Token, expiresAt: Instant)
    requires Consistent(before) && Consistent(s) && user < |s.users|
    ensures Consistent(Issue(before, s, user, kind, token, expiresAt).state)
  {
  }

  /** Using tokens up, in whatever way, keeps the tokens in order. */
  lemma TokensUsed(users: seq<User>, tokens: seq<AuthToken>, after: seq<AuthToken>)
    requires TokensOk(users, tokens) && |after| == |tokens|
    requires forall i :: 0 <= i < |tokens| ==>
      after[i] == tokens[i] || after[i] == tokens[i].(used := true)
    ensures TokensOk(users, after)
  {
  }

  /* ---- every request ---- */

  lemma RegisterKeeps(s: State, env: Env, email: Email, password: string, token: Token)
    requires Consistent(s)
    ensures Consistent(DoRegister(s, env, email, password, token).state)
  {
    var existing := FindFirst(s.users, WithEmail(email));
    if existing.Some? {
      TokenIssued(s, s, existing.value, EmailVerification, token, env.now + env.verificationTtl);
    } else {
      var user := User(email, Some(HashOf(password)), None, false, false, false, false);
      UserAdded(s.users, user);
      MoreUsersUnaffected(s, user);
      TokenIssued(
        s, s.(users := s.users + [user]), |s.users|, EmailVerification, token, env.now + env.verificationTtl);
    }
  }

  lemma LoginKeeps(s: State, env: Env, email: Email, password: string, token: Token)
    requires Consistent(s)
    ensures Consistent(DoLogin(s, env, email, password, token).state)
  {
  }

  lemma AdmitKeeps(before: State, s: State, env: Env, user: UserId, token: Token)
    requires Consistent(before) && Consistent(s) && user < |s.users| && s.users[user].emailVerified
    ensures Consistent(AdmitGoogle(before, s, env, user, token).state)
  {
  }

  lemma LinkOrCreateKeeps(before: State, s: State, env: Env, identity: Identity, token: Token)
    requires Consistent(before) && Consistent(s)
    requires forall j :: 0 <= j < |s.users| ==> s.users[j].googleSub != Some(identity.sub)
    ensures Consistent(LinkOrCreate(before, s, env, identity, token).state)
  {
    var found := FindFirst(s.users, LiveWithEmail(identity.email));
    if found.Some? {
      var linked := s.users[found.value].(googleSub := Some(identity.sub), emailVerified := true);
      UserChanged(s.users, found.value, linked);
      OthersUnaffected(s, found.value, linked);
      AdmitKeeps(before, SetUser(s, found.value, linked), env, found.value, token);
    } else if FindFirst(s.users, WithEmail(identity.email)).None? {
      var user := User(identity.email, None, Some(identity.sub), true, false, false, false);
      UserAdded(s.users, user);
      MoreUsersUnaffected(s, user);
      AdmitKeeps(before, s.(users := s.users + [user]), env, |s.users|, token);
    }
  }

  /** Freeing a stale holder's identifier keeps the invariant, and leaves nobody holding it. */
  lemma FreeingKeeps(s: State, sub: string)
    requires Consistent(s)
    requires FindFirst(s.users, WithSub(sub)).Some? ==> s.users[FindFirst(s.users, WithSub(sub)).value].deleted
    ensures Consistent(Freed(s, sub))
    ensures forall j :: 0 <= j < |s.users| ==> Freed(s, sub).users[j].googleSub != Some(sub)
  {
    var holder := FindFirst(s.users, WithSub(sub));
    if holder.Some? {
      var freed := s.users[holder.value].(googleSub := None);
      assert UserOk(s.users[holder.value]);
      UserChanged(s.users, holder.value, freed);
      OthersUnaffected(s, holder.value, freed);
    }
  }

  lemma GoogleKeeps(s: State, env: Env, identity: Option<Identity>, token: Token)
    requires Consistent(s)
    ensures Consistent(DoGoogleLogin(s, env, identity, token).state)
  {
    if identity.Some? {
      var holder := FindFirst(s.users, WithSub(identity.value.sub));
      if holder.Some? && !s.users[holder.value].deleted {
        assert UserOk(s.users[holder.value]);
        AdmitKeeps(s, s, env, holder.value, token);
      } else {
        FreeingKeeps(s, identity.value.sub);
        LinkOrCreateKeeps(s, Freed(s, identity.value.sub), env, identity.value, token);
      }
    }
  }

  lemma RefreshKeeps(s: State, env: Env, token: Token, newToken: Token)
    requires Consistent(s)
    ensures Consistent(DoRefresh(s, env, token, newToken).state)
  {
  }

  lemma LogoutKeeps(s: State, token: Token)
    requires Consistent(s)
    ensures Consistent(DoLogout(s, token).state)
  {
  }

  lemma VerifyKeeps(s: State, env: Env, token: Token)
    requires Consistent(s)
    ensures Consistent(DoVerifyEmail(s, env, token).state)
  {
    var row := Resolve(s, env, token, EmailVerification);
    if row.Some? {
      var user := s.tokens[row.value].userId;
      var verified := s.users[user].(emailVerified := true);
      assert UserOk(s.users[user]);
      UserChanged(s.users, user, verified);
      OthersUnaffected(s, user, verified);
      TokensUsed(s.users, s.tokens, s.tokens[row.value := s.tokens[row.value].(used := true)]);
      TokensUsed(s.users[user := verified], s.tokens, Invalidate(s.tokens, user, EmailVerification));
    }
  }

  lemma ResendKeeps(s: State, env: Env, email: Email, token: Token)
    requires Consistent(s)
    ensures Consistent(DoResend(s, env, email, token).state)
  {
  }

  lemma ForgotKeeps(s: State, env: Env, email: Email, token: Token)
    requires Consistent(s)
    ensures Consistent(DoForgot(s, env, email, token).state)
  {
  }

  lemma ResetKeeps(s: State, env: Env, token: Token, password: string)
    requires Consistent(s)
    ensures Consistent(DoReset(s, env, token, password).state)
  {
  }

  lemma DeleteKeeps(s: State, user: UserId)
    requires Consistent(s)
    ensures Consistent(DoDelete(s, user).state)
  {
  }

  lemma RequestKeeps(s: State, env: Env, r: Request)
    requires Consistent(s)
    ensures Consistent(Handle(s, env, r).state)
  {
    match r
    case Register(email, password, newToken) => RegisterKeeps(s, env, email, password, newToken);
    case Login(email, password, newToken) => LoginKeeps(s, env, email, password, newToken);
    case GoogleLogin(identity, newToken) => GoogleKeeps(s, env, identity, newToken);
    case Refresh(token, newToken) => RefreshKeeps(s, env, token, newToken);
    case Logout(token) => LogoutKeeps(s, token);
    case VerifyEmail(token) => VerifyKeeps(s, env, token);
    case ResendVerification(email, newToken) => ResendKeeps(s, env, email, newToken);
    case ForgotPassword(email, newToken) => ForgotKeeps(s, env, email, newToken);
    case ResetPassword(token, password) => ResetKeeps(s, env, token, password);
    case DeleteAccount(userId) => DeleteKeeps(s, userId);
  }

  /** The runs below may begin on a fresh platform, among other consistent states. */
  lemma InitialIsConsistent(start: State)
    requires Initial(start)
    ensures Consistent(start) && PlaceholdersOk(start)
    ensures forall i :: 0 <= i < |start.users| ==> !StaleHolder(start.users[i])
  {
  }

  /** Every state a run can reach from a consistent one is consistent, whatever requests failed along the way. */
  lemma {:induction false} EveryStateConsistent(start: State, calls: seq<Call>)
    requires Consistent(start)
    ensures Consistent(Run(start, calls))
  {
    if calls != [] {
      var last := calls[|calls| - 1];
      EveryStateConsistent(start, calls[..|calls| - 1]);
      RequestKeeps(Run(start, calls[..|calls| - 1]), last.env, last.request);
    }
  }

  /* ---- identifiers held by deleted accounts ---- */

  /** A Google login frees the identifier a deleted account holds, even when the login is refused for not being a tester. */
  lemma GoogleFreesStaleHolder(s: State, env: Env, identity: Identity, token: Token)
    requires Consistent(s) && !env.limited && identity.emailVerified && identity.email !in env.blocked
    requires var holder := FindFirst(s.users, WithSub(identity.sub)); holder.Some? && s.users[holder.value].deleted
    ensures var r := DoGoogleLogin(s, env, Some(identity), token);
      var holder := FindFirst(s.users, WithSub(identity.sub)).value;
      r.outcome != IntegrityFailure ==> holder < |r.state.users| && r.state.users[holder].googleSub.None?
  {
    var holder := FindFirst(s.users, WithSub(identity.sub));
    assert UserOk(s.users[holder.value]);
  }

  ghost predicate StaleIn(s: State, i: nat) {
    i < |s.users| && StaleHolder(s.users[i])
  }

  lemma LinkOrCreateNotStale(before: State, s: State, env: Env, identity: Identity, token: Token, i: nat)
    requires StaleIn(LinkOrCreate(before, s, env, identity, token).state, i)
    ensures StaleIn(before, i) || StaleIn(s, i)
  {
  }

  lemma GoogleNotStale(s: State, env: Env, identity: Option<Identity>, token: Token, i: nat)
    requires StaleIn(DoGoogleLogin(s, env, identity, token).state, i)
    ensures StaleIn(s, i)
  {
    if identity.Some? {
      var holder := FindFirst(s.users, WithSub(identity.value.sub));
      if holder.None? || s.users[holder.value].deleted {
        if DoGoogleLogin(s, env, identity, token)
           == LinkOrCreate(s, Freed(s, identity.value.sub), env, identity.value, token)
        {
          LinkOrCreateNotStale(s, Freed(s, identity.value.sub), env, identity.value, token, i);
        }
      }
    }
  }

  /** No request makes a stale holder. */
  lemma NoNewStaleHolder(s: State, env: Env, r: Request, i: nat)
    requires StaleIn(Handle(s, env, r).state, i)
    ensures StaleIn(s, i)
  {
    match r
    case GoogleLogin(identity, newToken) => GoogleNotStale(s, env, identity, newToken, i);
    case Register(_, _, _) =>
    case Login(_, _, _) =>
    case Refresh(token, newToken) =>
      assert DoRefresh(s, env, token, newToken).state.users == s.users;
    case Logout(_) =>
    case VerifyEmail(_) =>
    case ResendVerification(_, _) =>
    case ForgotPassword(_, _) =>
    case ResetPassword(_, _) =>
    case DeleteAccount(_) =>
  }

  /** From a start without stale holders, a held Google identifier always means a verified live account. */
  lemma {:induction false} HeldMeansVerified(start: State, calls: seq<Call>)
    requires Consistent(start) && forall i :: 0 <= i < |start.users| ==> !StaleHolder(start.users[i])
    ensures forall i :: 0 <= i < |Run(start, calls).users| && Run(start, calls).users[i].googleSub.Some? ==>
      Run(start, calls).users[i].emailVerified && !Run(start, calls).users[i].deleted
  {
    EveryStateConsistent(start, calls);
    NeverStale(start, calls);
    forall i | 0 <= i < |Run(start, calls).users| ensures UserOk(Run(start, calls).users[i]) {
    }
  }

  lemma {:induction false} NeverStale(start: State, calls: seq<Call>)
    requires forall i :: 0 <= i < |start.users| ==> !StaleHolder(start.users[i])
    ensures forall i :: 0 <= i < |Run(start, calls).users| ==> !StaleHolder(Run(start, calls).users[i])
  {
    if calls != [] {
      var before, last := Run(start, calls[..|calls| - 1]), calls[|calls| - 1];
      NeverStale(start, calls[..|calls| - 1]);
      forall i | 0 <= i < |Run(start, calls).users| ensures !StaleHolder(Run(start, calls).users[i]) {
        if StaleHolder(Run(start, calls).users[i]) {
          NoNewStaleHolder(before, last.env, last.request, i);
        }
      }
    }
  }

  /* ---- the unique indexes never fire ---- */

  /** Nobody types a placeholder address. */
  predicate PlainEmail(r: Request) {
    match r
    case Register(email, _, _) => email.Address?
    case GoogleLogin(identity, _) => identity.Some? ==> identity.value.email.Address?
    case _ => true
  }

  predicate TokenIsNew(s: State, token: Token) {
    FindFirst(s.sessions, SessionWith(token)).None? && FindFirst(s.tokens, TokenWith(token)).None?
  }

  predicate FreshToken(s: State, r: Request) {
    match r
    case Register(_, _, t) => TokenIsNew(s, t)
    case Login(_, _, t) => TokenIsNew(s, t)
    case GoogleLogin(_, t) => TokenIsNew(s, t)
    case Refresh(_, t) => TokenIsNew(s, t)
    case ResendVerification(_, t) => TokenIsNew(s, t)
    case ForgotPassword(_, t) => TokenIsNew(s, t)
    case _ => true
  }

  lemma AdmitNeverClashes(before: State, s: State, env: Env, user: UserId, token: Token)
    requires user < |s.users| && TokenIsNew(s, token)
    ensures AdmitGoogle(before, s, env, user, token).outcome != IntegrityFailure
    ensures AdmitGoogle(before, s, env, user, token).state.users == s.users
  {
  }

  lemma LinkOrCreateNeverClashes(before: State, s: State, env: Env, identity: Identity, token: Token)
    requires PlaceholdersOk(s) && identity.email.Address? && TokenIsNew(s, token)
    ensures LinkOrCreate(before, s, env, identity, token).outcome != IntegrityFailure
    ensures PlaceholdersOk(LinkOrCreate(before, s, env, identity, token).state)
  {
    var found := FindFirst(s.users, LiveWithEmail(identity.email));
    if found.Some? {
      var linked := s.users[found.value].(googleSub := Some(identity.sub), emailVerified := true);
      AdmitNeverClashes(before, SetUser(s, found.value, linked), env, found.value, token);
    } else {
      forall i | 0 <= i < |s.users| ensures s.users[i].email != identity.email {
        assert !LiveWithEmail(identity.email)(s.users[i]);
      }
      var user := User(identity.email, None, Some(identity.sub), true, false, false, false);
      AdmitNeverClashes(before, s.(users := s.users + [user]), env, |s.users|, token);
    }
  }

  lemma GoogleNeverClashes(s: State, env: Env, identity: Option<Identity>, token: Token)
    requires Consistent(s) && PlaceholdersOk(s) && PlainEmail(GoogleLogin(identity, token)) && TokenIsNew(s, token)
    ensures DoGoogleLogin(s, env, identity, token).outcome != IntegrityFailure
    ensures PlaceholdersOk(DoGoogleLogin(s, env, identity, token).state)
  {
    if identity.Some? {
      var holder := FindFirst(s.users, WithSub(identity.value.sub));
      if holder.Some? && !s.users[holder.value].deleted {
        AdmitNeverClashes(s, s, env, holder.value, token);
      } else {
        assert holder.Some? ==> UserOk(s.users[holder.value]);
        LinkOrCreateNeverClashes(s, Freed(s, identity.value.sub), env, identity.value, token);
      }
    }
  }

  lemma RefreshNeverClashes(s: State, env: Env, token: Token, newToken: Token)
    requires TokenIsNew(s, newToken)
    ensures DoRefresh(s, env, token, newToken).outcome != IntegrityFailure
    ensures DoRefresh(s, env, token, newToken).state.users == s.users
  {
  }

  /** With plain addresses and fresh tokens, no request trips a unique index or is rolled back. */
  lemma NoIntegrityFailure(s: State, env: Env, r: Request)
    requires Consistent(s) && PlaceholdersOk(s) && PlainEmail(r) && FreshToken(s, r)
    ensures Handle(s, env, r).outcome != IntegrityFailure
    ensures PlaceholdersOk(Handle(s, env, r).state)
  {
    match r
    case GoogleLogin(identity, newToken) => GoogleNeverClashes(s, env, identity, newToken);
    case Refresh(token, newToken) => RefreshNeverClashes(s, env, token, newToken);
    case DeleteAccount(user) =>
      if user < |s.users| {
        forall j | 0 <= j < |s.users| && j != user ensures s.users[j].email != Anonymised(user) {
        }
      }
    case Register(_, _, _) =>
    case Login(_, _, _) =>
    case Logout(_) =>
    case VerifyEmail(_) =>
    case ResendVerification(_, _) =>
    case ForgotPassword(_, _) =>
    case ResetPassword(_, _) =>
  }

  ghost predicate WellBehaved(start: State, calls: seq<Call>) {
    forall i :: 0 <= i < |calls| ==> PlainEmail(calls[i].request) && FreshToken(Run(start, calls[..i]), calls[i].request)
  }

  /** No call of the run is rolled back. */
  ghost predicate Undisturbed(start: State, calls: seq<Call>) {
    && PlaceholdersOk(Run(start, calls))
    && forall i :: 0 <= i < |calls| ==> Answer(start, calls, i).outcome != IntegrityFailure
  }

  lemma PrefixIsWellBehaved(start: State, calls: seq<Call>, n: nat)
    requires n <= |calls| && WellBehaved(start, calls)
    ensures WellBehaved(start, calls[..n])
  {
    assert forall i :: 0 <= i < n ==> calls[..n][..i] == calls[..i];
  }

  lemma SameAnswer(start: State, calls: seq<Call>, n: nat, i: nat)
    requires i < n <= |calls|
    ensures Answer(start, calls[..n], i) == Answer(start, calls, i)
  {
    assert calls[..n][..i] == calls[..i];
  }

  lemma LastNeverClashes(start: State, calls: seq<Call>)
    requires calls != [] && Consistent(start) && WellBehaved(start, calls)
    requires PlaceholdersOk(Run(start, calls[..|calls| - 1]))
    ensures PlaceholdersOk(Run(start, calls))
    ensures Answer(start, calls, |calls| - 1).outcome != IntegrityFailure
  {
    var before, last := calls[..|calls| - 1], calls[|calls| - 1];
    EveryStateConsistent(start, before);
    NoIntegrityFailure(Run(start, before), last.env, last.request);
  }

  lemma OneMoreUndisturbed(start: State, calls: seq<Call>)
    requires calls != [] && Consistent(start) && WellBehaved(start, calls)
    requires Undisturbed(start, calls[..|calls| - 1])
    ensures Undisturbed(start, calls)
  {
    LastNeverClashes(start, calls);
    forall i | 0 <= i < |calls| ensures Answer(start, calls, i).outcome != IntegrityFailure {
      if i < |calls| - 1 {
        SameAnswer(start, calls, |calls| - 1, i);
      }
    }
  }

  /** Over whole runs too: the uniqueness of addresses and identifiers is the code's own doing. */
  lemma {:induction false} RunsNeverClash(start: State, calls: seq<Call>)
    requires Consistent(start) && PlaceholdersOk(start) && WellBehaved(start, calls)
    ensures Undisturbed(start, calls)
  {
    if calls != [] {
      PrefixIsWellBehaved(start, calls, |calls| - 1);
      RunsNeverClash(start, calls[..|calls| - 1]);
      OneMoreUndisturbed(start, calls);
    }
  }
}
