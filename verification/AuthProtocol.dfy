/** The auth service's session protocol: registration, login with lockout, the MFA challenge, access
    tokens rebound by refresh, and logout. A handler is one atomic step. A token is its claims, SHA-256
    of a token is taken to be injective, the verdicts of Argon2id and TOTP come with the request, and
    so does whether each of the handler's writes reaches the database. Times are in microseconds, the
    resolution of the stored timestamps. */
module AuthProtocol {
  import opened Text

  const SECOND := 1_000_000
  const MINUTE := 60 * SECOND
  const LOCK_PERIOD := 15 * MINUTE
  const ACCESS_EXPIRY := 15 * MINUTE
  const REFRESH_EXPIRY := 7 * 24 * 60 * MINUTE
  const CHALLENGE_TTL := 5 * MINUTE

  /** Identifiers are drawn fresh, as uuid.New draws them. */
  type Id = nat

  datatype TokenKind = Access | Refresh

  datatype Token = Token(kind: TokenKind, jti: Id, user: Id, session: Id, notBefore: int, expires: int)

  datatype TokenHash = HashOf(token: Token)

  datatype User = User(email: string, mfaEnabled: bool, mfaSecret: string, failedLogins: nat, lockedUntil: Option<int>)

  datatype Session = Session(
    user: Id, accessHash: TokenHash, refreshHash: TokenHash, expiresAt: int, createdAt: int, revokedAt: Option<int>)

  datatype Challenge = Challenge(user: Id, expiresAt: int)

  datatype Origin = ByRegistration | ByLogin | ByChallenge(challenge: Id)

  /** History: what the handlers decided, in order. */
  datatype Fact =
    | PasswordWrong(user: Id, at: int, counted: bool)
    | PasswordRight(user: Id, at: int, cleared: bool)
    | ChallengeMade(challenge: Id, user: Id, at: int)
    | SessionMade(session: Id, user: Id, at: int, origin: Origin)

  datatype State = State(
    users: map<Id, User>,
    sessions: map<Id, Session>,
    challenges: map<Id, Challenge>,
    issued: set<Token>,
    nextId: Id,
    now: int,
    log: seq<Fact>)

  const Empty := State(map[], map[], map[], {}, 0, 0, [])

  datatype Scope = AllSessions | OneSession(session: Id) | NoSession

  datatype Request =
    | Wait(duration: nat)
    | Register(email: string, userOk: bool, sessionOk: bool)
    | Login(email: string, right: bool, countOk: bool, sessionOk: bool)
    | VerifyMfa(challenge: Id, codeRight: bool, sessionOk: bool)
    | SetupMfa(bearer: Token, secret: string, ok: bool)
    | RefreshAccess(token: Token, ok: bool)
    | Logout(bearer: Token, scope: Scope, ok: bool)

  datatype Response =
    | Accepted
    | TokenPair(access: Token, refresh: Token)
    | NewAccess(access: Token)
    | MfaRequired(challenge: Id)
    | BadRequest
    | Unauthorized
    | Locked
    | Conflict
    | ServerError

  // ----- tokens -----

  /** Numeric dates of a token have whole seconds. */
  function WholeSeconds(t: int): (r: int)
    ensures t - SECOND < r <= t
  {
    t - t % SECOND
  }

  function AccessToken(user: Id, session: Id, jti: Id, now: int): Token
  {
    Token(Access, jti, user, session, WholeSeconds(now), WholeSeconds(now + ACCESS_EXPIRY))
  }

  /** A refresh token has no not-before claim, and its jti is the session. */
  function RefreshToken(user: Id, session: Id, now: int): Token
  {
    Token(Refresh, session, user, session, 0, WholeSeconds(now + REFRESH_EXPIRY))
  }

  /** Signature and time claims: only issued tokens carry a valid signature. */
  predicate ValidToken(s: State, t: Token)
  {
    t in s.issued && (t.kind.Access? ==> t.notBefore <= s.now) && s.now < t.expires
  }

  predicate IsBound(sessions: map<Id, Session>, h: TokenHash, id: Id)
  {
    id in sessions && sessions[id].accessHash == h && sessions[id].revokedAt.None?
  }

  /** What the middleware accepts: a valid token whose hash some unrevoked session holds. */
  ghost predicate Accepts(s: State, t: Token)
  {
    ValidToken(s, t) && exists id :: IsBound(s.sessions, HashOf(t), id)
  }

  // ----- table transitions -----

  ghost function UserByEmail(users: map<Id, User>, email: string): (r: Option<Id>)
    ensures r.Some? ==> r.value in users && users[r.value].email == email
    ensures r.None? ==> forall id :: id in users ==> users[id].email != email
  {
    if id :| id in users && users[id].email == email then Some(id) else None
  }

  function IncrementFailedLogins(users: map<Id, User>, id: Id, now: int): map<Id, User>
    requires id in users
  {
    var u := users[id];
    users[id := u.(
      failedLogins := u.failedLogins + 1,
      lockedUntil := if u.failedLogins >= 4 then Some(now + LOCK_PERIOD) else u.lockedUntil)]
  }

  function ResetFailedLogins(users: map<Id, User>, id: Id): map<Id, User>
    requires id in users
  {
    users[id := users[id].(failedLogins := 0, lockedUntil := None)]
  }

  function RevokeSession(sessions: map<Id, Session>, id: Id, now: int): map<Id, Session>
  {
    if id in sessions then sessions[id := sessions[id].(revokedAt := Some(now))] else sessions
  }

  function RevokeAllUserSessions(sessions: map<Id, Session>, user: Id, now: int): map<Id, Session>
  {
    map id | id in sessions ::
      if sessions[id].user == user && sessions[id].revokedAt.None? then sessions[id].(revokedAt := Some(now))
      else sessions[id]
  }

  // ----- handlers -----

  /** Two tokens are minted, and a session holding their hashes is inserted. */
  function OpenSession(s: State, user: Id, origin: Origin, ok: bool): (State, Response)
  {
    var id := s.nextId;
    var access, refresh := AccessToken(user, id, id + 1, s.now), RefreshToken(user, id, s.now);
    var minted := s.(nextId := id + 2, issued := s.issued + {access, refresh});
    if ok then
      var row := Session(user, HashOf(access), HashOf(refresh), s.now + REFRESH_EXPIRY, s.now, None);
      (minted.(sessions := s.sessions[id := row], log := s.log + [SessionMade(id, user, s.now, origin)]),
       TokenPair(access, refresh))
    else (minted, ServerError)
  }

  ghost function DoRegister(s: State, email: string, userOk: bool, sessionOk: bool): (State, Response)
  {
    if UserByEmail(s.users, email).Some? then (s, Conflict)
    else if !userOk then (s, ServerError)
    else
      var created := s.(users := s.users[s.nextId := User(email, false, "", 0, None)], nextId := s.nextId + 1);
      OpenSession(created, s.nextId, ByRegistration, sessionOk)
  }

  ghost function DoLogin(s: State, email: string, right: bool, countOk: bool, sessionOk: bool): (State, Response)
  {
    match UserByEmail(s.users, email)
    case None => (s, Unauthorized)
    case Some(id) =>
      var u := s.users[id];
      if u.lockedUntil.Some? && s.now < u.lockedUntil.value then (s, Locked)
      else if !right then
        var users := if countOk then IncrementFailedLogins(s.users, id, s.now) else s.users;
        (s.(users := users, log := s.log + [PasswordWrong(id, s.now, countOk)]), Unauthorized)
      else
        var users := if countOk then ResetFailedLogins(s.users, id) else s.users;
        var cleared := s.(users := users, log := s.log + [PasswordRight(id, s.now, countOk)]);
        if u.mfaEnabled then
          var c := s.nextId;
          (cleared.(challenges := s.challenges[c := Challenge(id, s.now + CHALLENGE_TTL)], nextId := c + 1,
                    log := cleared.log + [ChallengeMade(c, id, s.now)]),
           MfaRequired(c))
        else OpenSession(cleared, id, ByLogin, sessionOk)
  }

  function DoVerifyMfa(s: State, c: Id, codeRight: bool, sessionOk: bool): (State, Response)
  {
    if c !in s.challenges then (s, Unauthorized)
    else if s.now > s.challenges[c].expiresAt then (s.(challenges := s.challenges - {c}), Unauthorized)
    else
      var user := s.challenges[c].user;
      if user !in s.users then (s, Unauthorized)
      else if !s.users[user].mfaEnabled || s.users[user].mfaSecret == "" then (s, BadRequest)
      else if !codeRight then (s, Unauthorized)
      else OpenSession(s.(challenges := s.challenges - {c}), user, ByChallenge(c), sessionOk)
  }

  ghost function DoSetupMfa(s: State, bearer: Token, secret: string, ok: bool): (State, Response)
  {
    if !Accepts(s, bearer) || bearer.user !in s.users then (s, Unauthorized)
    else if !ok then (s, ServerError)
    else
      var u := s.users[bearer.user];
      (s.(users := s.users[bearer.user := u.(mfaEnabled := true, mfaSecret := secret)]), Accepted)
  }

  /** The rebinding update reports zero affected rows for a revoked or missing session. */
  function DoRefresh(s: State, t: Token, ok: bool): (State, Response)
  {
    if !ValidToken(s, t) || t.kind != Refresh || t.user !in s.users then (s, Unauthorized)
    else
      var access := AccessToken(t.user, t.session, s.nextId, s.now);
      var minted := s.(nextId := s.nextId + 1, issued := s.issued + {access});
      if !ok || t.session !in s.sessions || s.sessions[t.session].revokedAt.Some? then (minted, Unauthorized)
      else
        var row := s.sessions[t.session].(accessHash := HashOf(access));
        (minted.(sessions := s.sessions[t.session := row]), NewAccess(access))
  }

  ghost function DoLogout(s: State, bearer: Token, scope: Scope, ok: bool): (State, Response)
  {
    if !Accepts(s, bearer) then (s, Unauthorized)
    else
      match scope
      case NoSession => (s, Accepted)
      case AllSessions =>
        if ok then (s.(sessions := RevokeAllUserSessions(s.sessions, bearer.user, s.now)), Accepted)
        else (s, ServerError)
      case OneSession(id) =>
        if ok then (s.(sessions := RevokeSession(s.sessions, id, s.now)), Accepted) else (s, ServerError)
  }

  ghost function Handle(s: State, r: Request): (State, Response)
  {
    match r
    case Wait(d) => (s.(now := s.now + d), Accepted)
    case Register(email, userOk, sessionOk) => DoRegister(s, email, userOk, sessionOk)
    case Login(email, right, countOk, sessionOk) => DoLogin(s, email, right, countOk, sessionOk)
    case VerifyMfa(c, codeRight, sessionOk) => DoVerifyMfa(s, c, codeRight, sessionOk)
    case SetupMfa(bearer, secret, ok) => DoSetupMfa(s, bearer, secret, ok)
    case RefreshAccess(t, ok) => DoRefresh(s, t, ok)
    case Logout(bearer, scope, ok) => DoLogout(s, bearer, scope, ok)
  }

  /** The service after any further requests at all. */
  ghost function Continue(s: State, run: seq<Request>): State
  {
    if run == [] then s else Handle(Continue(s, run[..|run| - 1]), run[|run| - 1]).0
  }

  /** A reachable state: any requests, from an empty database. */
  ghost function After(run: seq<Request>): State { Continue(Empty, run) }

  lemma {:induction false} ContinueAfter(run: seq<Request>, more: seq<Request>)
    ensures Continue(After(run), more) == After(run + more)
  {
    if more == [] {
      assert run + more == run;
    } else {
      ContinueAfter(run, more[..|more| - 1]);
      assert (run + more)[..|run + more| - 1] == run + more[..|more| - 1];
    }
  }
}
