/** The auth service object: its tables, and its handlers as sequences of statements over them. */
module AuthService {
  import opened Text
  import opened AuthProtocol

  class Service {
    var users: map<Id, User>
    var sessions: map<Id, Session>
    var challenges: map<Id, Challenge>
    /** The tokens this service's key has signed. */
    var issued: set<Token>
    var nextId: Id
    var now: int
    ghost var log: seq<Fact>

    ghost function View(): State
      reads this
    {
      State(users, sessions, challenges, issued, nextId, now, log)
    }

    /** Fresh identifiers and the unique email column. */
    ghost predicate Valid()
      reads this
    {
      && (forall id :: id in users ==> id < nextId)
      && (forall a, b :: a in users && b in users && users[a].email == users[b].email ==> a == b)
    }

    constructor ()
      ensures Valid() && View() == Empty
    {
      users, sessions, challenges, issued, nextId, now, log := map[], map[], map[], {}, 0, 0, [];
    }

    method Wait(duration: nat)
      requires Valid()
      modifies this`now
      ensures Valid() && View() == Handle(old(View()), Request.Wait(duration)).0
    {
      now := now + duration;
    }

    // ----- repository -----

    method GetUserByEmail(email: string) returns (r: Option<Id>)
      requires Valid()
      ensures r == UserByEmail(users, email)
    {
      if exists id :: id in users && users[id].email == email {
        var id :| id in users && users[id].email == email;
        r := Some(id);
      } else {
        r := None;
      }
    }

    /** UPDATE users: the comparison sees the count before the increment. */
    method CountFailedLogin(id: Id)
      requires id in users
      modifies this`users
      ensures users == IncrementFailedLogins(old(users), id, now)
    {
      var u := users[id];
      if u.failedLogins >= 4 {
        u := u.(lockedUntil := Some(now + LOCK_PERIOD));
      }
      users := users[id := u.(failedLogins := u.failedLogins + 1)];
    }

    method ClearFailedLogins(id: Id)
      requires id in users
      modifies this`users
      ensures users == ResetFailedLogins(old(users), id)
    {
      users := users[id := users[id].(failedLogins := 0, lockedUntil := None)];
    }

    method GetSessionByTokenHash(h: TokenHash) returns (found: bool)
      ensures found <==> exists id :: IsBound(sessions, h, id)
    {
      found := exists id :: id in sessions && IsBound(sessions, h, id);
    }

    /** The number of affected rows. */
    method UpdateSessionAccessTokenHash(id: Id, h: TokenHash) returns (affected: nat)
      modifies this`sessions
      ensures affected == (if id in old(sessions) && old(sessions)[id].revokedAt.None? then 1 else 0)
      ensures sessions == if affected == 0 then old(sessions) else old(sessions)[id := old(sessions)[id].(accessHash := h)]
    {
      if id in sessions && sessions[id].revokedAt.None? {
        sessions := sessions[id := sessions[id].(accessHash := h)];
        affected := 1;
      } else {
        affected := 0;
      }
    }

    method RevokeOne(id: Id)
      modifies this`sessions
      ensures sessions == RevokeSession(old(sessions), id, now)
    {
      if id in sessions {
        sessions := sessions[id := sessions[id].(revokedAt := Some(now))];
      }
    }

    method RevokeAll(user: Id)
      modifies this`sessions
      ensures sessions == RevokeAllUserSessions(old(sessions), user, now)
    {
      sessions := map id | id in sessions ::
        if sessions[id].user == user && sessions[id].revokedAt.None?
        then sessions[id].(revokedAt := Some(now)) else sessions[id];
    }

    // ----- tokens, the middleware and the challenge store -----

    method Sign(t: Token)
      modifies this`issued
      ensures issued == old(issued) + {t}
    {
      issued := issued + {t};
    }

    method ValidateToken(t: Token) returns (valid: bool)
      ensures valid <==> ValidToken(View(), t)
    {
      valid := t in issued && (t.kind == Access ==> t.notBefore <= now) && now < t.expires;
    }

    /** The guards of the bearer middleware. */
    method Authenticate(t: Token) returns (accepted: bool)
      ensures accepted <==> Accepts(View(), t)
    {
      accepted := ValidateToken(t);
      if accepted {
        accepted := GetSessionByTokenHash(HashOf(t));
      }
    }

    method CreateChallenge(user: Id) returns (c: Id)
      modifies this`challenges, this`nextId
      ensures c == old(nextId) && nextId == c + 1
      ensures challenges == old(challenges)[c := Challenge(user, now + CHALLENGE_TTL)]
    {
      c := nextId;
      nextId := nextId + 1;
      challenges := challenges[c := Challenge(user, now + CHALLENGE_TTL)];
    }

    /** An expired challenge is reaped and reported as missing. */
    method LookupChallenge(c: Id) returns (r: Option<Id>)
      modifies this`challenges
      ensures var live := c in old(challenges) && now <= old(challenges)[c].expiresAt;
              && r == (if live then Some(old(challenges)[c].user) else None)
              && challenges == if live then old(challenges) else old(challenges) - {c}
    {
      if c !in challenges {
        assert challenges - {c} == challenges;
        return None;
      }
      if now > challenges[c].expiresAt {
        challenges := challenges - {c};
        return None;
      }
      return Some(challenges[c].user);
    }

    // ----- handlers -----

    method NewSession(user: Id, ghost origin: Origin, ok: bool) returns (r: Response)
      requires Valid()
      modifies this
      ensures Valid() && (View(), r) == OpenSession(old(View()), user, origin, ok)
    {
      var id := nextId;
      nextId := nextId + 1;
      var access := AccessToken(user, id, nextId, now);
      nextId := nextId + 1;
      Sign(access);
      var refresh := RefreshToken(user, id, now);
      Sign(refresh);
      assert issued == old(issued) + {access, refresh};
      if !ok {
        return ServerError;
      }
      sessions := sessions[id := Session(user, HashOf(access), HashOf(refresh), now + REFRESH_EXPIRY, now, None)];
      log := log + [SessionMade(id, user, now, origin)];
      return TokenPair(access, refresh);
    }

    method Register(email: string, userOk: bool, sessionOk: bool) returns (r: Response)
      requires Valid()
      modifies this
      ensures Valid() && (View(), r) == DoRegister(old(View()), email, userOk, sessionOk)
    {
      var existing := GetUserByEmail(email);
      if existing.Some? {
        return Conflict;
      }
      if !userOk {
        return ServerError;
      }
      var id := nextId;
      nextId := nextId + 1;
      users := users[id := User(email, false, "", 0, None)];
      r := NewSession(id, ByRegistration, sessionOk);
    }

    method Login(email: string, right: bool, countOk: bool, sessionOk: bool) returns (r: Response)
      requires Valid()
      modifies this
      ensures Valid() && (View(), r) == DoLogin(old(View()), email, right, countOk, sessionOk)
    {
      var found := GetUserByEmail(email);
      if found.None? {
        return Unauthorized;
      }
      var id := found.value;
      var user := users[id];
      if user.lockedUntil.Some? && now < user.lockedUntil.value {
        return Locked;
      }
      if !right {
        if countOk {
          CountFailedLogin(id);
        }
        log := log + [PasswordWrong(id, now, countOk)];
        return Unauthorized;
      }
      if countOk {
        ClearFailedLogins(id);
      }
      log := log + [PasswordRight(id, now, countOk)];
      if user.mfaEnabled {
        var c := CreateChallenge(id);
        log := log + [ChallengeMade(c, id, now)];
        return MfaRequired(c);
      }
      r := NewSession(id, ByLogin, sessionOk);
    }

    method VerifyMfa(c: Id, codeRight: bool, sessionOk: bool) returns (r: Response)
      requires Valid()
      modifies this
      ensures Valid() && (View(), r) == DoVerifyMfa(old(View()), c, codeRight, sessionOk)
    {
      var found := LookupChallenge(c);
      if found.None? {
        assert c !in old(challenges) ==> challenges == old(challenges);
        return Unauthorized;
      }
      var user := found.value;
      if user !in users {
        return Unauthorized;
      }
      if !users[user].mfaEnabled || users[user].mfaSecret == "" {
        return BadRequest;
      }
      if !codeRight {
        return Unauthorized;
      }
      challenges := challenges - {c};
      r := NewSession(user, ByChallenge(c), sessionOk);
    }

    method SetupMfa(bearer: Token, secret: string, ok: bool) returns (r: Response)
      requires Valid()
      modifies this`users
      ensures Valid() && (View(), r) == DoSetupMfa(old(View()), bearer, secret, ok)
    {
      var accepted := Authenticate(bearer);
      if !accepted || bearer.user !in users {
        return Unauthorized;
      }
      var user := users[bearer.user];
      user := user.(mfaSecret := secret);
      user := user.(mfaEnabled := true);
      if !ok {
        return ServerError;
      }
      users := users[bearer.user := user];
      return Accepted;
    }

    method RefreshAccess(t: Token, ok: bool) returns (r: Response)
      requires Valid()
      modifies this
      ensures Valid() && (View(), r) == DoRefresh(old(View()), t, ok)
    {
      var valid := ValidateToken(t);
      if !valid {
        return Unauthorized;
      }
      if t.kind != Refresh || t.user !in users {
        return Unauthorized;
      }
      var access := AccessToken(t.user, t.session, nextId, now);
      nextId := nextId + 1;
      Sign(access);
      if !ok {
        return Unauthorized;
      }
      var affected := UpdateSessionAccessTokenHash(t.session, HashOf(access));
      if affected == 0 {
        return Unauthorized;
      }
      return NewAccess(access);
    }

    method Logout(bearer: Token, scope: Scope, ok: bool) returns (r: Response)
      requires Valid()
      modifies this`sessions
      ensures Valid() && (View(), r) == DoLogout(old(View()), bearer, scope, ok)
    {
      var accepted := Authenticate(bearer);
      if !accepted {
        return Unauthorized;
      }
      match scope
      case NoSession =>
        return Accepted;
      case AllSessions =>
        if !ok {
          return ServerError;
        }
        RevokeAll(bearer.user);
        return Accepted;
      case OneSession(id) =>
        if !ok {
          return ServerError;
        }
        RevokeOne(id);
        return Accepted;
    }
  }
}
