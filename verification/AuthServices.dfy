/** The account services as they run: rows found by scanning, columns set in place, rows looped over to revoke. */
module AuthServices {
  import opened Options
  import opened AuthModel

  class AccountStore {
    var users: seq<User>
    var sessions: seq<Session>
    var tokens: seq<AuthToken>

    constructor (users: seq<User>)
      ensures Contents() == State(users, [], [])
    {
      this.users, sessions, tokens := users, [], [];
    }

    ghost function Contents(): State
      reads this
    {
      State(users, sessions, tokens)
    }

    method RevokeAllSessions(user: UserId)
      modifies this`sessions
      ensures sessions == RevokeAll(old(sessions), user)
    {
      ghost var was := sessions;
      for i := 0 to |sessions|
        invariant |sessions| == |was|
        invariant forall k :: 0 <= k < |was| ==>
          sessions[k] == if k < i && was[k].userId == user then Revoked(was[k]) else was[k]
      {
        if sessions[i].userId == user && !sessions[i].revoked {
          sessions := sessions[i := sessions[i].(revoked := true)];
        }
      }
    }

    /** Uses up the unused tokens of a type, sparing one row when told to. */
    method InvalidateActiveTokens(user: UserId, kind: TokenType, exclude: Option<nat>)
      requires exclude.Some? ==> exclude.value < |tokens| && tokens[exclude.value].used
      modifies this`tokens
      ensures tokens == Invalidate(old(tokens), user, kind)
    {
      ghost var was := tokens;
      for i := 0 to |tokens|
        invariant |tokens| == |was|
        invariant forall k :: 0 <= k < |was| ==>
          tokens[k] == if k < i && was[k].userId == user && was[k].tokenType == kind then was[k].(used := true) else was[k]
      {
        if tokens[i].userId == user && tokens[i].tokenType == kind && !tokens[i].used && exclude != Some(i) {
          tokens := tokens[i := tokens[i].(used := true)];
        }
      }
    }

    method InvalidateAllTokens(user: UserId)
      modifies this`tokens
      ensures tokens == InvalidateAll(old(tokens), user)
    {
      ghost var was := tokens;
      for i := 0 to |tokens|
        invariant |tokens| == |was|
        invariant forall k :: 0 <= k < |was| ==>
          tokens[k] == if k < i && was[k].userId == user then was[k].(used := true) else was[k]
      {
        if tokens[i].userId == user && !tokens[i].used {
          tokens := tokens[i := tokens[i].(used := true)];
        }
      }
    }

    /** Adds a session row; `us` and `ss` are the tables to go back to if its token is taken. */
    method AddSession(env: Env, user: UserId, token: Token, us: seq<User>, ss: seq<Session>) returns (outcome: Outcome)
      modifies this
      ensures Result(Contents(), outcome)
           == CreateSession(State(us, ss, old(tokens)), old(Contents()), env, user, token)
    {
      var clash := FindFirst(sessions, SessionWith(token));
      if clash.Some? {
        users, sessions := us, ss;
        return IntegrityFailure;
      }
      sessions := sessions + [Session(user, token, env.now + env.refreshTtl, false)];
      return SessionIssued(user);
    }

    method IssueToken(user: UserId, kind: TokenType, token: Token, expiresAt: Instant, us: seq<User>)
      returns (outcome: Outcome)
      modifies this
      ensures Result(Contents(), outcome)
           == Issue(State(us, old(sessions), old(tokens)), old(Contents()), user, kind, token, expiresAt)
    {
      var ts := tokens;
      InvalidateActiveTokens(user, kind, None);
      var clash := FindFirst(ts, TokenWith(token));
      if clash.Some? {
        users, tokens := us, ts;
        return IntegrityFailure;
      }
      tokens := tokens + [AuthToken(user, kind, token, expiresAt, false)];
      return Done;
    }

    method RegisterAccount(env: Env, email: Email, password: string, token: Token) returns (outcome: Outcome)
      modifies this
      ensures Result(Contents(), outcome) == DoRegister(old(Contents()), env, email, password, token)
    {
      if !env.registrationEnabled {
        return RegistrationDisabled;
      }
      if email in env.blocked {
        return Blocked;
      }
      if env.limited {
        return RateLimited;
      }
      var us, expiresAt := users, env.now + env.verificationTtl;
      var existing := FindFirst(users, WithEmail(email));
      if existing.Some? {
        outcome := Done;
        if !users[existing.value].emailVerified {
          outcome := IssueToken(existing.value, EmailVerification, token, expiresAt, us);
        }
        return;
      }
      users := users + [User(email, Some(HashOf(password)), None, false, false, false, false)];
      outcome := IssueToken(|us|, EmailVerification, token, expiresAt, us);
    }

    method LogIn(env: Env, email: Email, password: string, token: Token) returns (outcome: Outcome)
      modifies this
      ensures Result(Contents(), outcome) == DoLogin(old(Contents()), env, email, password, token)
    {
      if email in env.blocked {
        return Blocked;
      }
      if env.limited {
        return RateLimited;
      }
      var found := FindFirst(users, LiveWithEmail(email));
      if found.None? || users[found.value].ai || !PasswordMatches(users[found.value], password) {
        return InvalidCredentials;
      }
      if !users[found.value].emailVerified {
        return EmailNotVerified;
      }
      if !TesterAllowed(env, users[found.value].email, users[found.value].operator) {
        return TesterOnly;
      }
      outcome := AddSession(env, found.value, token, users, sessions);
    }

    /** The end of a Google login, once the account is settled. */
    method Admit(env: Env, user: UserId, token: Token, us: seq<User>) returns (outcome: Outcome)
      requires user < |users|
      modifies this
      ensures Result(Contents(), outcome)
           == AdmitGoogle(State(us, old(sessions), old(tokens)), old(Contents()), env, user, token)
    {
      if users[user].ai || users[user].deleted {
        return GoogleRefused;
      }
      if !TesterAllowed(env, users[user].email, users[user].operator) {
        return TesterOnly;
      }
      outcome := AddSession(env, user, token, us, sessions);
    }

    method LogInWithGoogle(env: Env, identity: Option<Identity>, token: Token) returns (outcome: Outcome)
      modifies this
      ensures Result(Contents(), outcome) == DoGoogleLogin(old(Contents()), env, identity, token)
    {
      if env.limited {
        return RateLimited;
      }
      if identity.None? || !identity.value.emailVerified {
        return GoogleRefused;
      }
      if identity.value.email in env.blocked {
        return Blocked;
      }
      var us, sub, email := users, identity.value.sub, identity.value.email;
      var holder := FindFirst(users, WithSub(sub));
      if holder.Some? && users[holder.value].deleted {
        if users[holder.value].passwordHash.None? {
          return IntegrityFailure;
        }
        users := users[holder.value := users[holder.value].(googleSub := None)];
        holder := None;
      }
      if holder.Some? {
        outcome := Admit(env, holder.value, token, us);
        return;
      }
      outcome := LinkOrCreateAccount(env, identity.value, token, us);
    }

    method LinkOrCreateAccount(env: Env, identity: Identity, token: Token, us: seq<User>) returns (outcome: Outcome)
      modifies this
      ensures Result(Contents(), outcome)
           == LinkOrCreate(State(us, old(sessions), old(tokens)), old(Contents()), env, identity, token)
    {
      var found := FindFirst(users, LiveWithEmail(identity.email));
      if !TesterAllowed(env, identity.email, found.Some? && users[found.value].operator) {
        return TesterOnly;
      }
      var user;
      if found.Some? {
        user := found.value;
        users := users[user := users[user].(googleSub := Some(identity.sub), emailVerified := true)];
      } else {
        var taken := FindFirst(users, WithEmail(identity.email));
        if taken.Some? {
          users := us;
          return IntegrityFailure;
        }
        user := |users|;
        users := users + [User(identity.email, None, Some(identity.sub), true, false, false, false)];
      }
      outcome := Admit(env, user, token, us);
    }

    method RefreshSession(env: Env, token: Token, newToken: Token) returns (outcome: Outcome)
      modifies this
      ensures Result(Contents(), outcome) == DoRefresh(old(Contents()), env, token, newToken)
    {
      var found := FindFirst(sessions, SessionWith(token));
      if found.None? || sessions[found.value].revoked {
        return InvalidCredentials;
      }
      if sessions[found.value].expiresAt <= env.now {
        return InvalidCredentials;
      }
      var user := sessions[found.value].userId;
      if user >= |users| || users[user].deleted || users[user].ai {
        return InvalidCredentials;
      }
      if users[user].email in env.blocked {
        return Blocked;
      }
      if !TesterAllowed(env, users[user].email, users[user].operator) {
        return TesterOnly;
      }
      var ss := sessions;
      sessions := sessions[found.value := sessions[found.value].(revoked := true)];
      outcome := AddSession(env, user, newToken, users, ss);
    }

    method LogOut(token: Token) returns (outcome: Outcome)
      modifies this`sessions
      ensures Result(Contents(), outcome) == DoLogout(old(Contents()), token)
    {
      var found := FindFirst(sessions, SessionWith(token));
      if found.Some? && !sessions[found.value].revoked {
        sessions := sessions[found.value := sessions[found.value].(revoked := true)];
      }
      assert found.Some? ==> sessions == RevokeAt(old(sessions), found.value);
      outcome := Done;
    }

    method ConfirmEmail(env: Env, token: Token) returns (outcome: Outcome)
      modifies this
      ensures Result(Contents(), outcome) == DoVerifyEmail(old(Contents()), env, token)
    {
      var row := Resolve(State(users, sessions, tokens), env, token, EmailVerification);
      if row.None? {
        return InvalidToken;
      }
      var user := tokens[row.value].userId;
      if users[user].emailVerified {
        tokens := tokens[row.value := tokens[row.value].(used := true)];
        return Done;
      }
      ghost var was := tokens;
      users := users[user := users[user].(emailVerified := true)];
      tokens := tokens[row.value := tokens[row.value].(used := true)];
      InvalidateActiveTokens(user, EmailVerification, row);
      assert tokens == Invalidate(was, user, EmailVerification);
      outcome := Done;
    }

    method Resend(env: Env, email: Email, token: Token) returns (outcome: Outcome)
      modifies this
      ensures Result(Contents(), outcome) == DoResend(old(Contents()), env, email, token)
    {
      if env.limited {
        return RateLimited;
      }
      var found := FindFirst(users, WithEmail(email));
      outcome := Done;
      if found.Some? && !users[found.value].emailVerified {
        outcome := IssueToken(found.value, EmailVerification, token, env.now + env.verificationTtl, users);
      }
    }

    method Forgot(env: Env, email: Email, token: Token) returns (outcome: Outcome)
      modifies this
      ensures Result(Contents(), outcome) == DoForgot(old(Contents()), env, email, token)
    {
      if env.limited {
        return RateLimited;
      }
      var found := FindFirst(users, LiveWithEmail(email));
      outcome := Done;
      if found.Some? {
        outcome := IssueToken(found.value, PasswordReset, token, env.now + env.resetTtl, users);
      }
    }

    method SetNewPassword(env: Env, token: Token, password: string) returns (outcome: Outcome)
      modifies this
      ensures Result(Contents(), outcome) == DoReset(old(Contents()), env, token, password)
    {
      var row := Resolve(State(users, sessions, tokens), env, token, PasswordReset);
      if row.None? {
        return InvalidToken;
      }
      ghost var was := tokens;
      var user := tokens[row.value].userId;
      users := users[user := users[user].(passwordHash := Some(HashOf(password)))];
      tokens := tokens[row.value := tokens[row.value].(used := true)];
      RevokeAllSessions(user);
      InvalidateActiveTokens(user, PasswordReset, row);
      assert tokens == Invalidate(was, user, PasswordReset);
      outcome := Done;
    }

    method AnonymizeAndDelete(user: UserId) returns (outcome: Outcome)
      modifies this
      ensures Result(Contents(), outcome) == DoDelete(old(Contents()), user)
    {
      if user >= |users| {
        return UserNotFound;
      }
      if users[user].deleted {
        return AlreadyDeleted;
      }
      var clash := FindFirst(users, WithEmail(Anonymised(user)));
      if clash.Some? && clash.value != user {
        return IntegrityFailure;
      }
      users := users[user := users[user].(
        email := Anonymised(user), googleSub := None, passwordHash := Some(Unusable), emailVerified := false,
        deleted := true)];
      RevokeAllSessions(user);
      InvalidateAllTokens(user);
      outcome := Done;
    }

    /** One request to the account endpoints, dispatched to its service. */
    method Serve(c: Call) returns (outcome: Outcome)
      modifies this
      ensures Result(Contents(), outcome) == Handle(old(Contents()), c.env, c.request)
    {
      match c.request
      case Register(email, password, newToken) => outcome := RegisterAccount(c.env, email, password, newToken);
      case Login(email, password, newToken) => outcome := LogIn(c.env, email, password, newToken);
      case GoogleLogin(identity, newToken) => outcome := LogInWithGoogle(c.env, identity, newToken);
      case Refresh(token, newToken) => outcome := RefreshSession(c.env, token, newToken);
      case Logout(token) => outcome := LogOut(token);
      case VerifyEmail(token) => outcome := ConfirmEmail(c.env, token);
      case ResendVerification(email, newToken) => outcome := Resend(c.env, email, newToken);
      case ForgotPassword(email, newToken) => outcome := Forgot(c.env, email, newToken);
      case ResetPassword(token, password) => outcome := SetNewPassword(c.env, token, password);
      case DeleteAccount(userId) => outcome := AnonymizeAndDelete(userId);
    }
  }
}
