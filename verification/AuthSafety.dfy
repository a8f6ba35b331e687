/** What every run of the session protocol guarantees. */
module AuthSafety {
  import opened Text
  import opened AuthProtocol

  // ----- tokens and sessions -----

  ghost predicate IssuedInv(s: State, t: Token)
  {
    && t.jti < s.nextId && t.session < s.nextId && t.notBefore <= s.now
    && (t.kind.Refresh? ==> t.jti == t.session)
    && (t.session in s.sessions ==>
          && t.user == s.sessions[t.session].user
          && t.expires <= s.sessions[t.session].createdAt + REFRESH_EXPIRY + (if t.kind.Access? then ACCESS_EXPIRY else 0))
  }

  ghost predicate SessionInv(s: State, id: Id)
    requires id in s.sessions
  {
    var bound := s.sessions[id].accessHash.token;
    id < s.nextId && s.sessions[id].createdAt <= s.now && bound in s.issued && bound.kind.Access? && bound.session == id
  }

  ghost predicate TokenInv(s: State)
  {
    && s.now >= 0
    && (forall t :: t in s.issued ==> IssuedInv(s, t))
    && (forall id :: id in s.sessions ==> SessionInv(s, id))
  }

  lemma OpenSessionKeepsTokens(s: State, user: Id, origin: Origin, ok: bool)
    requires TokenInv(s)
    ensures TokenInv(OpenSession(s, user, origin, ok).0)
  {
    var s' := OpenSession(s, user, origin, ok).0;
    var id := s.nextId;
    forall t | t in s'.issued
      ensures IssuedInv(s', t)
    {
      if t in s.issued {
        assert IssuedInv(s, t);
      }
    }
    forall i | i in s'.sessions
      ensures SessionInv(s', i)
    {
      if i in s.sessions && i != id {
        assert SessionInv(s, i);
      }
    }
  }

  lemma RefreshKeepsTokens(s: State, t: Token, ok: bool)
    requires TokenInv(s)
    ensures TokenInv(DoRefresh(s, t, ok).0)
  {
    var s' := DoRefresh(s, t, ok).0;
    forall u | u in s'.issued
      ensures IssuedInv(s', u)
    {
      if u in s.issued {
        assert IssuedInv(s, u);
      } else {
        assert IssuedInv(s, t);
      }
    }
    forall i | i in s'.sessions
      ensures SessionInv(s', i)
    {
      assert SessionInv(s, i);
    }
  }

  /** Steps that mint nothing keep the invariant when they keep sessions but for revocation. */
  lemma FrameKeepsTokens(s: State, s': State)
    requires TokenInv(s)
    requires s'.issued == s.issued && s'.nextId >= s.nextId && s'.now >= s.now && s'.sessions.Keys == s.sessions.Keys
    requires forall i :: i in s.sessions ==> s'.sessions[i].(revokedAt := None) == s.sessions[i].(revokedAt := None)
    ensures TokenInv(s')
  {
    forall t | t in s'.issued
      ensures IssuedInv(s', t)
    {
      assert IssuedInv(s, t);
      if t.session in s.sessions {
        assert s'.sessions[t.session].(revokedAt := None) == s.sessions[t.session].(revokedAt := None);
      }
    }
    forall i | i in s'.sessions
      ensures SessionInv(s', i)
    {
      assert SessionInv(s, i);
      assert s'.sessions[i].(revokedAt := None) == s.sessions[i].(revokedAt := None);
    }
  }

  lemma RegisterKeepsTokens(s: State, email: string, userOk: bool, sessionOk: bool)
    requires TokenInv(s)
    ensures TokenInv(DoRegister(s, email, userOk, sessionOk).0)
  {
    var created := s.(users := s.users[s.nextId := User(email, false, "", 0, None)], nextId := s.nextId + 1);
    FrameKeepsTokens(s, created);
    OpenSessionKeepsTokens(created, s.nextId, ByRegistration, sessionOk);
  }

  lemma LoginKeepsTokens(s: State, email: string, right: bool, countOk: bool, sessionOk: bool)
    requires TokenInv(s)
    ensures TokenInv(DoLogin(s, email, right, countOk, sessionOk).0)
  {
    var found := UserByEmail(s.users, email);
    if found.Some? && right && !s.users[found.value].mfaEnabled {
      var users := if countOk then ResetFailedLogins(s.users, found.value) else s.users;
      var cleared := s.(users := users, log := s.log + [PasswordRight(found.value, s.now, countOk)]);
      FrameKeepsTokens(s, cleared);
      OpenSessionKeepsTokens(cleared, found.value, ByLogin, sessionOk);
    } else {
      FrameKeepsTokens(s, DoLogin(s, email, right, countOk, sessionOk).0);
    }
  }

  lemma VerifyMfaKeepsTokens(s: State, c: Id, codeRight: bool, sessionOk: bool)
    requires TokenInv(s)
    ensures TokenInv(DoVerifyMfa(s, c, codeRight, sessionOk).0)
  {
    var consumed := s.(challenges := s.challenges - {c});
    FrameKeepsTokens(s, consumed);
    if c in s.challenges {
      OpenSessionKeepsTokens(consumed, s.challenges[c].user, ByChallenge(c), sessionOk);
    }
  }

  lemma SetupMfaKeepsTokens(s: State, bearer: Token, secret: string, ok: bool)
    requires TokenInv(s)
    ensures TokenInv(DoSetupMfa(s, bearer, secret, ok).0)
  {
    FrameKeepsTokens(s, DoSetupMfa(s, bearer, secret, ok).0);
  }

  lemma LogoutKeepsTokens(s: State, bearer: Token, scope: Scope, ok: bool)
    requires TokenInv(s)
    ensures TokenInv(DoLogout(s, bearer, scope, ok).0)
  {
    FrameKeepsTokens(s, DoLogout(s, bearer, scope, ok).0);
  }

  lemma StepKeepsTokens(s: State, r: Request)
    requires TokenInv(s)
    ensures TokenInv(Handle(s, r).0)
  {
    match r
    case Register(email, userOk, sessionOk) => RegisterKeepsTokens(s, email, userOk, sessionOk);
    case Login(email, right, countOk, sessionOk) => LoginKeepsTokens(s, email, right, countOk, sessionOk);
    case VerifyMfa(c, codeRight, sessionOk) => VerifyMfaKeepsTokens(s, c, codeRight, sessionOk);
    case RefreshAccess(t, ok) => RefreshKeepsTokens(s, t, ok);
    case Wait(d) => FrameKeepsTokens(s, s.(now := s.now + d));
    case SetupMfa(bearer, secret, ok) => SetupMfaKeepsTokens(s, bearer, secret, ok);
    case Logout(bearer, scope, ok) => LogoutKeepsTokens(s, bearer, scope, ok);
  }

  lemma {:induction false} RunKeepsTokens(s: State, run: seq<Request>)
    requires TokenInv(s)
    ensures TokenInv(Continue(s, run))
  {
    if run != [] {
      RunKeepsTokens(s, run[..|run| - 1]);
      StepKeepsTokens(Continue(s, run[..|run| - 1]), run[|run| - 1]);
    }
  }

  lemma AcceptedInInv(s: State, t: Token)
    requires TokenInv(s)
    ensures Accepts(s, t) <==> IsBound(s.sessions, HashOf(t), t.session) && s.now < t.expires
    ensures Accepts(s, t) ==> t.kind.Access? && t.user == s.sessions[t.session].user
    ensures Accepts(s, t) ==> s.now < s.sessions[t.session].createdAt + REFRESH_EXPIRY + ACCESS_EXPIRY
  {
    if Accepts(s, t) {
      var id :| IsBound(s.sessions, HashOf(t), id);
      assert SessionInv(s, id);
      assert IssuedInv(s, t);
    }
    if IsBound(s.sessions, HashOf(t), t.session) {
      assert SessionInv(s, t.session);
      assert IssuedInv(s, t);
    }
  }

  /** In every reachable state the accepted tokens are exactly the unexpired access tokens currently
      bound to an unrevoked session, and a refresh token is never one of them. */
  lemma AcceptedExactly(run: seq<Request>, t: Token)
    ensures var s := After(run);
            && (Accepts(s, t) <==> IsBound(s.sessions, HashOf(t), t.session) && s.now < t.expires)
            && (Accepts(s, t) ==> t.kind.Access? && t.user == s.sessions[t.session].user)
  {
    RunKeepsTokens(Empty, run);
    AcceptedInInv(After(run), t);
  }

  /** A session has at most one accepted token at any time. */
  lemma OneTokenPerSession(run: seq<Request>, t: Token, u: Token)
    requires Accepts(After(run), t) && Accepts(After(run), u) && t.session == u.session
    ensures t == u
  {
    AcceptedExactly(run, t);
    AcceptedExactly(run, u);
  }

  /** However often it is refreshed, a token accepted at some time is younger than its session's
      login plus seven days plus fifteen minutes. */
  lemma AcceptedLifetime(run: seq<Request>, t: Token)
    requires Accepts(After(run), t)
    ensures t.session in After(run).sessions
    ensures After(run).now < After(run).sessions[t.session].createdAt + REFRESH_EXPIRY + ACCESS_EXPIRY
  {
    RunKeepsTokens(Empty, run);
    AcceptedInInv(After(run), t);
  }

  // ----- refresh -----

  /** An issued token that its session no longer holds. */
  ghost predicate IsSuperseded(s: State, t: Token)
  {
    t in s.issued && (t.session in s.sessions ==> s.sessions[t.session].accessHash != HashOf(t))
  }

  lemma StepKeepsSuperseded(s: State, r: Request, t: Token)
    requires TokenInv(s) && IsSuperseded(s, t)
    ensures IsSuperseded(Handle(s, r).0, t)
  {
    assert IssuedInv(s, t);
  }

  lemma {:induction false} SupersededStays(s: State, more: seq<Request>, t: Token)
    requires TokenInv(s) && IsSuperseded(s, t)
    ensures IsSuperseded(Continue(s, more), t)
  {
    if more != [] {
      SupersededStays(s, more[..|more| - 1], t);
      RunKeepsTokens(s, more[..|more| - 1]);
      StepKeepsSuperseded(Continue(s, more[..|more| - 1]), more[|more| - 1], t);
    }
  }

  /** A successful refresh makes the new access token the session's accepted one, and no token of the
      session minted before is ever accepted again, whatever happens next. */
  lemma RefreshEndsPrevious(run: seq<Request>, t: Token, ok: bool, earlier: Token, more: seq<Request>)
    requires DoRefresh(After(run), t, ok).1.NewAccess?
    requires earlier.session == t.session && earlier in After(run).issued
    ensures var (s', response) := DoRefresh(After(run), t, ok);
            Accepts(s', response.access) && !Accepts(Continue(s', more), earlier)
  {
    RunKeepsTokens(Empty, run);
    RefreshKeepsTokens(After(run), t, ok);
    var (s', response) := DoRefresh(After(run), t, ok);
    assert IssuedInv(After(run), earlier);
    assert IsBound(s'.sessions, HashOf(response.access), t.session);
    SupersededStays(s', more, earlier);
    RunKeepsTokens(s', more);
    AcceptedInInv(Continue(s', more), earlier);
  }

  // ----- revocation -----

  ghost predicate IsRevoked(s: State, id: Id) { id in s.sessions && s.sessions[id].revokedAt.Some? }

  lemma StepKeepsRevoked(s: State, r: Request, id: Id)
    requires TokenInv(s) && IsRevoked(s, id)
    ensures IsRevoked(Handle(s, r).0, id)
  {
    assert SessionInv(s, id);
  }

  lemma {:induction false} RevocationStays(s: State, more: seq<Request>, id: Id)
    requires TokenInv(s) && IsRevoked(s, id)
    ensures IsRevoked(Continue(s, more), id)
  {
    if more != [] {
      RevocationStays(s, more[..|more| - 1], id);
      RunKeepsTokens(s, more[..|more| - 1]);
      StepKeepsRevoked(Continue(s, more[..|more| - 1]), more[|more| - 1], id);
    }
  }

  /** Once a session is revoked no later step makes any token of it accepted. */
  lemma RevocationIsAbsorbing(run: seq<Request>, more: seq<Request>, t: Token)
    requires IsRevoked(After(run), t.session)
    ensures !Accepts(Continue(After(run), more), t)
  {
    RunKeepsTokens(Empty, run);
    RevocationStays(After(run), more, t.session);
    RunKeepsTokens(After(run), more);
    AcceptedInInv(Continue(After(run), more), t);
  }

  /** What an accepted logout revokes: the named session, or every session of the bearer, its own
      included, and nothing else. */
  lemma LogoutRevokes(run: seq<Request>, bearer: Token, scope: Scope, id: Id)
    requires DoLogout(After(run), bearer, scope, true).1 == Accepted
    requires id in After(run).sessions
    ensures var s, s' := After(run), DoLogout(After(run), bearer, scope, true).0;
            && (IsRevoked(s', id) <==>
                  || IsRevoked(s, id)
                  || scope == OneSession(id)
                  || (scope.AllSessions? && s.sessions[id].user == bearer.user))
            && (scope.AllSessions? ==> IsRevoked(s', bearer.session))
  {
    AcceptedExactly(run, bearer);
  }
}
