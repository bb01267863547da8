/**
 * Accounts, refresh sessions and one-time tokens: every request as a step on the three
 * tables. Requests run one at a time; a domain error keeps what was written before it,
 * and a broken unique index rolls the whole request back.
 */
module AuthModel {
  import opened Options
  import opened Sequences

  /** Rows are never removed, so a row's place is its identity. */
  type UserId = nat
  type Instant = int
  /** A refresh or one-time token, named by its hash. */
  type Token = string

  /** An address someone typed, or the placeholder a deleted account gets. */
  datatype Email = Address(text: string) | Anonymised(userId: UserId)

  /** A password hash stands for the password it was made from; nobody can supply an unusable one. */
  datatype Secret = HashOf(password: string) | Unusable

  datatype User = User(
    email: Email, passwordHash: Option<Secret>, googleSub: Option<string>, emailVerified: bool,
    operator: bool, ai: bool, deleted: bool)

  datatype Session = Session(userId: UserId, token: Token, expiresAt: Instant, revoked: bool)

  datatype TokenType = EmailVerification | PasswordReset

  datatype AuthToken = AuthToken(userId: UserId, tokenType: TokenType, token: Token, expiresAt: Instant, used: bool)

  datatype State = State(users: seq<User>, sessions: seq<Session>, tokens: seq<AuthToken>)

  /** Clock, settings and admission lists as they stand when a request arrives. */
  datatype Env = Env(
    now: Instant, limited: bool, blocked: set<Email>, testMode: bool, testers: set<Email>,
    registrationEnabled: bool, refreshTtl: nat, verificationTtl: nat, resetTtl: nat)

  datatype Identity = Identity(sub: string, email: Email, emailVerified: bool)

  datatype Request =
    | Register(email: Email, password: string, newToken: Token)
    | Login(email: Email, password: string, newToken: Token)
    | GoogleLogin(identity: Option<Identity>, newToken: Token)
    | Refresh(token: Token, newToken: Token)
    | Logout(token: Token)
    | VerifyEmail(token: Token)
    | ResendVerification(email: Email, newToken: Token)
    | ForgotPassword(email: Email, newToken: Token)
    | ResetPassword(token: Token, password: string)
    | DeleteAccount(userId: UserId)

  datatype Outcome =
    | Done
    | SessionIssued(userId: UserId)
    | RegistrationDisabled | Blocked | RateLimited | InvalidCredentials | EmailNotVerified | TesterOnly
    | GoogleRefused | InvalidToken | AlreadyDeleted | UserNotFound | IntegrityFailure

  datatype Result = Result(state: State, outcome: Outcome)

  /* ---- reading the tables ---- */

  /** The first row that satisfies `p`. */
  function FindFirst<T>(s: seq<T>, p: T -> bool): (r: Option<nat>)
    ensures r.Some? ==> r.value < |s| && p(s[r.value]) && forall i :: 0 <= i < r.value ==> !p(s[i])
    ensures r.None? ==> forall i :: 0 <= i < |s| ==> !p(s[i])
  {
    if s == [] then None
    else
      var earlier := FindFirst(s[..|s| - 1], p);
      if earlier.Some? then earlier else if p(s[|s| - 1]) then Some(|s| - 1) else None
  }

  function WithEmail(email: Email): User -> bool {
    (u: User) => u.email == email
  }

  function LiveWithEmail(email: Email): User -> bool {
    (u: User) => u.email == email && !u.deleted
  }

  function WithSub(sub: string): User -> bool {
    (u: User) => u.googleSub == Some(sub)
  }

  function SessionWith(token: Token): Session -> bool {
    (x: Session) => x.token == token
  }

  function TokenWith(token: Token): AuthToken -> bool {
    (x: AuthToken) => x.token == token
  }

  function TokenOf(token: Token, kind: TokenType): AuthToken -> bool {
    (x: AuthToken) => x.token == token && x.tokenType == kind
  }

  predicate PasswordMatches(u: User, password: string) {
    u.passwordHash == Some(HashOf(password))
  }

  predicate TesterAllowed(env: Env, email: Email, operator: bool) {
    !env.testMode || operator || email in env.testers
  }

  /* ---- writing the tables ---- */

  function Revoked(x: Session): Session {
    x.(revoked := true)
  }

  function RevokeAt(sessions: seq<Session>, i: nat): seq<Session>
    requires i < |sessions|
  {
    sessions[i := Revoked(sessions[i])]
  }

  function RevokeAll(sessions: seq<Session>, user: UserId): seq<Session> {
    MapSeq((x: Session) => if x.userId == user then Revoked(x) else x, sessions)
  }

  /** Every unused token of the user and type is used up. */
  function Invalidate(tokens: seq<AuthToken>, user: UserId, kind: TokenType): seq<AuthToken> {
    MapSeq((x: AuthToken) => if x.userId == user && x.tokenType == kind then x.(used := true) else x, tokens)
  }

  function InvalidateAll(tokens: seq<AuthToken>, user: UserId): seq<AuthToken> {
    MapSeq((x: AuthToken) => if x.userId == user then x.(used := true) else x, tokens)
  }

  function SetUser(s: State, i: nat, u: User): State
    requires i < |s.users|
  {
    s.(users := s.users[i := u])
  }

  /** A fresh unrevoked session, or a failure when the token is taken; `before` is what a rollback restores. */
  function CreateSession(before: State, s: State, env: Env, user: UserId, token: Token): Result {
    if FindFirst(s.sessions, SessionWith(token)).Some? then Result(before, IntegrityFailure)
    else
      Result(
        s.(sessions := s.sessions + [Session(user, token, env.now + env.refreshTtl, false)]), SessionIssued(user))
  }

  function Issue(before: State, s: State, user: UserId, kind: TokenType, token: Token, expiresAt: Instant): Result {
    if FindFirst(s.tokens, TokenWith(token)).Some? then Result(before, IntegrityFailure)
    else
      Result(
        s.(tokens := Invalidate(s.tokens, user, kind) + [AuthToken(user, kind, token, expiresAt, false)]), Done)
  }

  /* ---- the requests ---- */

  function DoRegister(s: State, env: Env, email: Email, password: string, token: Token): Result {
    if !env.registrationEnabled then Result(s, RegistrationDisabled)
    else if email in env.blocked then Result(s, Blocked)
    else if env.limited then Result(s, RateLimited)
    else
      var existing := FindFirst(s.users, WithEmail(email));
      var expiresAt := env.now + env.verificationTtl;
      if existing.Some? then
        if s.users[existing.value].emailVerified then Result(s, Done)
        else Issue(s, s, existing.value, EmailVerification, token, expiresAt)
      else
        var user := User(email, Some(HashOf(password)), None, false, false, false, false);
        Issue(s, s.(users := s.users + [user]), |s.users|, EmailVerification, token, expiresAt)
  }

  function DoLogin(s: State, env: Env, email: Email, password: string, token: Token): Result {
    if email in env.blocked then Result(s, Blocked)
    else if env.limited then Result(s, RateLimited)
    else
      var found := FindFirst(s.users, LiveWithEmail(email));
      if found.None? || s.users[found.value].ai || !PasswordMatches(s.users[found.value], password)
      then Result(s, InvalidCredentials)
      else if !s.users[found.value].emailVerified then Result(s, EmailNotVerified)
      else if !TesterAllowed(env, s.users[found.value].email, s.users[found.value].operator)
      then Result(s, TesterOnly)
      else CreateSession(s, s, env, found.value, token)
  }

  /** Frees a Google identifier still held by a deleted account. */
  function Freed(s: State, sub: string): State {
    var holder := FindFirst(s.users, WithSub(sub));
    if holder.Some? && s.users[holder.value].deleted
    then SetUser(s, holder.value, s.users[holder.value].(googleSub := None))
    else s
  }

  /** The last checks of a Google login, once its account is settled. */
  function AdmitGoogle(before: State, s: State, env: Env, user: UserId, token: Token): Result
    requires user < |s.users|
  {
    var u := s.users[user];
    if u.ai || u.deleted then Result(s, GoogleRefused)
    else if !TesterAllowed(env, u.email, u.operator) then Result(s, TesterOnly)
    else CreateSession(before, s, env, user, token)
  }

  function LinkOrCreate(before: State, s: State, env: Env, identity: Identity, token: Token): Result {
    var found := FindFirst(s.users, LiveWithEmail(identity.email));
    if !TesterAllowed(env, identity.email, found.Some? && s.users[found.value].operator) then Result(s, TesterOnly)
    else if found.Some? then
      var linked := s.users[found.value].(googleSub := Some(identity.sub), emailVerified := true);
      AdmitGoogle(before, SetUser(s, found.value, linked), env, found.value, token)
    else if FindFirst(s.users, WithEmail(identity.email)).Some? then Result(before, IntegrityFailure)
    else
      var user := User(identity.email, None, Some(identity.sub), true, false, false, false);
      AdmitGoogle(before, s.(users := s.users + [user]), env, |s.users|, token)
  }

  function DoGoogleLogin(s: State, env: Env, identity: Option<Identity>, token: Token): Result {
    if env.limited then Result(s, RateLimited)
    else if identity.None? || !identity.value.emailVerified then Result(s, GoogleRefused)
    else if identity.value.email in env.blocked then Result(s, Blocked)
    else
      var holder := FindFirst(s.users, WithSub(identity.value.sub));
      if holder.Some? && !s.users[holder.value].deleted then AdmitGoogle(s, s, env, holder.value, token)
      else if holder.Some? && s.users[holder.value].passwordHash.None? then Result(s, IntegrityFailure)
      else LinkOrCreate(s, Freed(s, identity.value.sub), env, identity.value, token)
  }

  function DoRefresh(s: State, env: Env, token: Token, newToken: Token): Result {
    var found := FindFirst(s.sessions, SessionWith(token));
    if found.None? || s.sessions[found.value].revoked || s.sessions[found.value].expiresAt <= env.now
    then Result(s, InvalidCredentials)
    else
      var user := s.sessions[found.value].userId;
      if user >= |s.users| || s.users[user].deleted || s.users[user].ai then Result(s, InvalidCredentials)
      else if s.users[user].email in env.blocked then Result(s, Blocked)
      else if !TesterAllowed(env, s.users[user].email, s.users[user].operator) then Result(s, TesterOnly)
      else CreateSession(s, s.(sessions := RevokeAt(s.sessions, found.value)), env, user, newToken)
  }

  function DoLogout(s: State, token: Token): Result {
    var found := FindFirst(s.sessions, SessionWith(token));
    if found.Some? then Result(s.(sessions := RevokeAt(s.sessions, found.value)), Done) else Result(s, Done)
  }

  /** The row of a one-time token that can still be used. */
  function Resolve(s: State, env: Env, token: Token, kind: TokenType): (r: Option<nat>)
    ensures r.Some? ==>
      && r.value < |s.tokens|
      && s.tokens[r.value].token == token && s.tokens[r.value].tokenType == kind
      && !s.tokens[r.value].used && s.tokens[r.value].expiresAt > env.now
      && s.tokens[r.value].userId < |s.users| && !s.users[s.tokens[r.value].userId].deleted
    ensures r.None? && (forall i, j :: 0 <= i < j < |s.tokens| ==> s.tokens[i].token != s.tokens[j].token) ==>
      forall i :: 0 <= i < |s.tokens| && s.tokens[i].token == token && s.tokens[i].tokenType == kind ==>
        s.tokens[i].used || s.tokens[i].expiresAt <= env.now
        || s.tokens[i].userId >= |s.users| || s.users[s.tokens[i].userId].deleted
  {
    var found := FindFirst(s.tokens, TokenOf(token, kind));
    if found.None? || s.tokens[found.value].used || s.tokens[found.value].expiresAt <= env.now then None
    else if s.tokens[found.value].userId >= |s.users| || s.users[s.tokens[found.value].userId].deleted then None
    else found
  }

  function DoVerifyEmail(s: State, env: Env, token: Token): Result {
    var row := Resolve(s, env, token, EmailVerification);
    if row.None? then Result(s, InvalidToken)
    else
      var user := s.tokens[row.value].userId;
      if s.users[user].emailVerified then
        Result(s.(tokens := s.tokens[row.value := s.tokens[row.value].(used := true)]), Done)
      else
        Result(
          SetUser(s, user, s.users[user].(emailVerified := true)).(
            tokens := Invalidate(s.tokens, user, EmailVerification)), Done)
  }

  function DoResend(s: State, env: Env, email: Email, token: Token): Result {
    if env.limited then Result(s, RateLimited)
    else
      var found := FindFirst(s.users, WithEmail(email));
      if found.None? || s.users[found.value].emailVerified then Result(s, Done)
      else Issue(s, s, found.value, EmailVerification, token, env.now + env.verificationTtl)
  }

  function DoForgot(s: State, env: Env, email: Email, token: Token): Result {
    if env.limited then Result(s, RateLimited)
    else
      var found := FindFirst(s.users, LiveWithEmail(email));
      if found.None? then Result(s, Done)
      else Issue(s, s, found.value, PasswordReset, token, env.now + env.resetTtl)
  }

  function DoReset(s: State, env: Env, token: Token, password: string): Result {
    var row := Resolve(s, env, token, PasswordReset);
    if row.None? then Result(s, InvalidToken)
    else
      var user := s.tokens[row.value].userId;
      Result(
        State(
          s.users[user := s.users[user].(passwordHash := Some(HashOf(password)))],
          RevokeAll(s.sessions, user),
          Invalidate(s.tokens, user, PasswordReset)), Done)
  }

  function Scrubbed(u: User, id: UserId): User {
    User(Anonymised(id), Some(Unusable), None, false, u.operator, u.ai, true)
  }

  function DoDelete(s: State, user: UserId): Result {
    if user >= |s.users| then Result(s, UserNotFound)
    else if s.users[user].deleted then Result(s, AlreadyDeleted)
    else
      var clash := FindFirst(s.users, WithEmail(Anonymised(user)));
      if clash.Some? && clash.value != user then Result(s, IntegrityFailure)
      else
        Result(
          State(
            s.users[user := Scrubbed(s.users[user], user)],
            RevokeAll(s.sessions, user),
            InvalidateAll(s.tokens, user)), Done)
  }

  function Handle(s: State, env: Env, r: Request): Result {
    match r
    case Register(email, password, newToken) => DoRegister(s, env, email, password, newToken)
    case Login(email, password, newToken) => DoLogin(s, env, email, password, newToken)
    case GoogleLogin(identity, newToken) => DoGoogleLogin(s, env, identity, newToken)
    case Refresh(token, newToken) => DoRefresh(s, env, token, newToken)
    case Logout(token) => DoLogout(s, token)
    case VerifyEmail(token) => DoVerifyEmail(s, env, token)
    case ResendVerification(email, newToken) => DoResend(s, env, email, newToken)
    case ForgotPassword(email, newToken) => DoForgot(s, env, email, newToken)
    case ResetPassword(token, password) => DoReset(s, env, token, password)
    case DeleteAccount(userId) => DoDelete(s, userId)
  }

  /** One request with the surroundings it met. */
  datatype Call = Call(env: Env, request: Request)

  function Run(start: State, calls: seq<Call>): State {
    if calls == [] then start
    else
      var last := calls[|calls| - 1];
      Handle(Run(start, calls[..|calls| - 1]), last.env, last.request).state
  }

  /** What the call at `i` of a run did. */
  function Answer(start: State, calls: seq<Call>, i: nat): Result
    requires i < |calls|
  {
    Handle(Run(start, calls[..i]), calls[i].env, calls[i].request)
  }
}
