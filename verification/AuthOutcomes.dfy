/** What the handlers answer, in every reachable state: exactly when each succeeds, and what its success is
    worth to the client afterwards. */
module AuthOutcomes {
  import opened Text
  import opened AuthProtocol

  // ----- accounts -----

  /** Emails are unique, identifiers old, and challenges belong to accounts. */
  ghost predicate AccountsHold(s: State)
  {
    && (forall id :: id in s.users ==> id < s.nextId)
    && (forall a, b :: a in s.users && b in s.users && s.users[a].email == s.users[b].email ==> a == b)
    && (forall c :: c in s.challenges ==> c < s.nextId && s.challenges[c].user in s.users)
    && (forall id :: id in s.sessions ==> id < s.nextId)
    && (forall t :: t in s.issued ==> t.session < s.nextId && t.jti < s.nextId && t.user in s.users)
  }

  lemma OpenKeepsAccounts(s: State, user: Id, origin: Origin, ok: bool)
    requires AccountsHold(s) && user in s.users
    ensures AccountsHold(OpenSession(s, user, origin, ok).0)
  {
  }

  lemma StepKeepsAccounts(s: State, r: Request)
    requires AccountsHold(s)
    ensures AccountsHold(Handle(s, r).0)
  {
    match r
    case Register(email, userOk, sessionOk) => RegisterKeepsAccounts(s, email, userOk, sessionOk);
    case Login(email, right, countOk, sessionOk) => LoginKeepsAccounts(s, email, right, countOk, sessionOk);
    case VerifyMfa(c, codeRight, sessionOk) => VerifyKeepsAccounts(s, c, codeRight, sessionOk);
    case _ =>
  }

  lemma RegisterKeepsAccounts(s: State, email: string, userOk: bool, sessionOk: bool)
    requires AccountsHold(s)
    ensures AccountsHold(DoRegister(s, email, userOk, sessionOk).0)
  {
    if UserByEmail(s.users, email).None? && userOk {
      var created := s.(users := s.users[s.nextId := User(email, false, "", 0, None)], nextId := s.nextId + 1);
      OpenKeepsAccounts(created, s.nextId, ByRegistration, sessionOk);
    }
  }

  lemma CountedKeepsAccounts(s: State, id: Id, countOk: bool, log: seq<Fact>)
    requires AccountsHold(s) && id in s.users
    ensures AccountsHold(s.(users := if countOk then IncrementFailedLogins(s.users, id, s.now) else s.users, log := log))
  {
  }

  /** The state a right password leaves before the second factor or the session. */
  function Cleared(s: State, id: Id, countOk: bool): State
    requires id in s.users
  {
    s.(users := if countOk then ResetFailedLogins(s.users, id) else s.users, log := s.log + [PasswordRight(id, s.now, countOk)])
  }

  lemma ClearedKeepsAccounts(s: State, id: Id, countOk: bool)
    requires AccountsHold(s) && id in s.users
    ensures AccountsHold(Cleared(s, id, countOk)) && id in Cleared(s, id, countOk).users
  {
  }

  lemma LoginKeepsAccounts(s: State, email: string, right: bool, countOk: bool, sessionOk: bool)
    requires AccountsHold(s)
    ensures AccountsHold(DoLogin(s, email, right, countOk, sessionOk).0)
  {
    var found := UserByEmail(s.users, email);
    if found.Some? {
      var id := found.value;
      if right {
        RightKeepsAccounts(s, email, countOk, sessionOk);
      } else {
        CountedKeepsAccounts(s, id, countOk, s.log + [PasswordWrong(id, s.now, countOk)]);
      }
    }
  }

  lemma RightKeepsAccounts(s: State, email: string, countOk: bool, sessionOk: bool)
    requires AccountsHold(s) && UserByEmail(s.users, email).Some?
    ensures AccountsHold(DoLogin(s, email, true, countOk, sessionOk).0)
  {
    var id := UserByEmail(s.users, email).value;
    var cleared := Cleared(s, id, countOk);
    ClearedKeepsAccounts(s, id, countOk);
    if s.users[id].mfaEnabled {
      ChallengeKeepsAccounts(cleared, id, cleared.log + [ChallengeMade(s.nextId, id, s.now)]);
    } else {
      OpenKeepsAccounts(cleared, id, ByLogin, sessionOk);
    }
  }

  lemma ChallengeKeepsAccounts(s: State, id: Id, log: seq<Fact>)
    requires AccountsHold(s) && id in s.users
    ensures AccountsHold(s.(challenges := s.challenges[s.nextId := Challenge(id, s.now + CHALLENGE_TTL)], nextId := s.nextId + 1,
                            log := log))
  {
  }

  lemma VerifyKeepsAccounts(s: State, c: Id, codeRight: bool, sessionOk: bool)
    requires AccountsHold(s)
    ensures AccountsHold(DoVerifyMfa(s, c, codeRight, sessionOk).0)
  {
    if c in s.challenges {
      OpenKeepsAccounts(s.(challenges := s.challenges - {c}), s.challenges[c].user, ByChallenge(c), sessionOk);
    }
  }

  lemma {:induction false} RunKeepsAccounts(s: State, run: seq<Request>)
    requires AccountsHold(s)
    ensures AccountsHold(Continue(s, run))
  {
    if run != [] {
      RunKeepsAccounts(s, run[..|run| - 1]);
      StepKeepsAccounts(Continue(s, run[..|run| - 1]), run[|run| - 1]);
    }
  }

  lemma FoundByEmail(s: State, id: Id)
    requires AccountsHold(s) && id in s.users
    ensures UserByEmail(s.users, s.users[id].email) == Some(id)
  {
  }

  // ----- a pair of tokens -----

  /** The answer gives the account a session: its access token is accepted, its refresh token is valid, and
      both are for this account. */
  ghost predicate OpensSession(s: State, response: Response, user: Id)
  {
    && response.TokenPair?
    && Accepts(s, response.access) && response.access.kind.Access? && response.access.user == user
    && ValidToken(s, response.refresh) && response.refresh.kind.Refresh? && response.refresh.user == user
    && response.access.session == response.refresh.session
    && response.access.session in s.sessions
    && (var session := s.sessions[response.access.session];
        && session.user == user && session.createdAt == s.now && session.revokedAt.None?
        && session.expiresAt == s.now + 7 * 24 * 60 * 60 * 1_000_000)
  }

  lemma OpenedSession(s: State, user: Id, origin: Origin)
    ensures var (s', response) := OpenSession(s, user, origin, true); OpensSession(s', response, user)
    ensures var (s', response) := OpenSession(s, user, origin, false); response == ServerError && s'.sessions == s.sessions
  {
    var (s', response) := OpenSession(s, user, origin, true);
    assert IsBound(s'.sessions, HashOf(response.access), s.nextId);
  }

  // ----- registration -----

  lemma EmailTaken(s: State, email: string)
    ensures UserByEmail(s.users, email).Some? <==> exists id :: id in s.users && s.users[id].email == email
  {
  }

  /** A registration is a conflict exactly when the email is taken; otherwise it makes an account with that
      email, without MFA or lock, and opens a session for it, as far as the database lets it. */
  lemma RegisterExactly(run: seq<Request>, email: string, userOk: bool, sessionOk: bool)
    ensures var s := After(run);
            var (s', response) := DoRegister(s, email, userOk, sessionOk);
            var taken := exists id :: id in s.users && s.users[id].email == email;
            && (response == Conflict <==> taken)
            && (taken || !userOk ==> s' == s)
            && (!taken && userOk ==>
                  && s.nextId !in s.users && s'.users == s.users[s.nextId := User(email, false, "", 0, None)]
                  && if sessionOk then OpensSession(s', response, s.nextId) else response == ServerError)
            && (!taken && !userOk ==> response == ServerError)
  {
    var s := After(run);
    RunKeepsAccounts(Empty, run);
    EmailTaken(s, email);
    var created := s.(users := s.users[s.nextId := User(email, false, "", 0, None)], nextId := s.nextId + 1);
    OpenedSession(created, s.nextId, ByRegistration);
  }

  // ----- login -----

  predicate IsLocked(u: User, now: int) { u.lockedUntil.Some? && now < u.lockedUntil.value }

  /** A login with an email nobody has is unauthorized and changes nothing. */
  lemma UnknownEmail(s: State, email: string, right: bool, countOk: bool, sessionOk: bool)
    requires forall id :: id in s.users ==> s.users[id].email != email
    ensures DoLogin(s, email, right, countOk, sessionOk) == (s, Unauthorized)
  {
  }

  /** What a login of an account is answered. While the account is locked it is refused whatever the
      password and nothing changes. Otherwise a wrong password is unauthorized; a right one opens a session,
      or, with MFA, makes a challenge that lives exactly five minutes and opens none. */
  lemma LoginExactly(run: seq<Request>, id: Id, right: bool, countOk: bool, sessionOk: bool)
    requires id in After(run).users
    ensures var s := After(run);
            var u := s.users[id];
            var (s', response) := DoLogin(s, u.email, right, countOk, sessionOk);
            && (IsLocked(u, s.now) ==> response == Locked && s' == s)
            && (!IsLocked(u, s.now) && !right ==>
                  && response == Unauthorized && s'.sessions == s.sessions && s'.issued == s.issued
                  && s'.challenges == s.challenges)
            && (!IsLocked(u, s.now) && right && u.mfaEnabled ==>
                  && response.MfaRequired? && response.challenge !in s.challenges
                  && s'.challenges == s.challenges[response.challenge := Challenge(id, s.now + 5 * 60 * 1_000_000)]
                  && s'.sessions == s.sessions && s'.issued == s.issued)
            && (!IsLocked(u, s.now) && right && !u.mfaEnabled ==>
                  if sessionOk then OpensSession(s', response, id) else response == ServerError && s'.sessions == s.sessions)
            && (!IsLocked(u, s.now) && right && countOk ==>
                  s'.users[id].failedLogins == 0 && s'.users[id].lockedUntil.None?)
  {
    var s := After(run);
    RunKeepsAccounts(Empty, run);
    FoundByEmail(s, id);
    OpenedSession(Cleared(s, id, countOk), id, ByLogin);
  }

  /** A login changes nothing about anybody else. */
  lemma LoginTouchesOne(s: State, email: string, right: bool, countOk: bool, sessionOk: bool, other: Id)
    requires other in s.users && s.users[other].email != email
    ensures var s' := DoLogin(s, email, right, countOk, sessionOk).0;
            other in s'.users && s'.users[other] == s.users[other]
  {
  }

  lemma Waited(s: State, d: nat)
    ensures Continue(s, [Wait(d)]) == s.(now := s.now + d)
  {
    assert [Wait(d)][..0] == [];
  }

  /** The fifth wrong password in a row, and every further one, locks the account: from then on a right
      password is refused for exactly fifteen minutes. */
  lemma LockLastsExactly(run: seq<Request>, id: Id, sessionOk: bool, d: nat)
    requires id in After(run).users && !IsLocked(After(run).users[id], After(run).now) && After(run).users[id].failedLogins >= 4
    ensures var s := After(run);
            var email := s.users[id].email;
            var later := Continue(DoLogin(s, email, false, true, sessionOk).0, [Wait(d)]);
            DoLogin(later, email, true, true, sessionOk).1 == Locked <==> d < 15 * 60 * 1_000_000
  {
    var s := After(run);
    var email := s.users[id].email;
    RunKeepsAccounts(Empty, run);
    FoundByEmail(s, id);
    var counted := DoLogin(s, email, false, true, sessionOk).0;
    LoginKeepsAccounts(s, email, false, true, sessionOk);
    Waited(counted, d);
    FoundByEmail(counted.(now := counted.now + d), id);
  }

  /** Four wrong passwords lock nothing. */
  lemma NoLockBeforeTheFifth(run: seq<Request>, id: Id, sessionOk: bool)
    requires id in After(run).users && !IsLocked(After(run).users[id], After(run).now) && After(run).users[id].failedLogins < 4
    ensures var s := After(run);
            var s' := DoLogin(s, s.users[id].email, false, true, sessionOk).0;
            id in s'.users && !IsLocked(s'.users[id], s'.now) && s'.users[id].failedLogins == s.users[id].failedLogins + 1
  {
    RunKeepsAccounts(Empty, run);
    FoundByEmail(After(run), id);
  }

  // ----- the second factor -----

  /** A challenge opens a session exactly when it is alive, its account has MFA on and a secret, the code is
      right and the database takes the session. A wrong code is unauthorized and changes nothing; a right
      one uses the challenge up. */
  lemma VerifyMfaExactly(run: seq<Request>, c: Id, codeRight: bool, sessionOk: bool)
    ensures var s := After(run);
            var (s', response) := DoVerifyMfa(s, c, codeRight, sessionOk);
            var alive := c in s.challenges && s.now <= s.challenges[c].expiresAt;
            && (!alive ==> response == Unauthorized && s'.sessions == s.sessions)
            && (alive ==>
                  var user := s.challenges[c].user;
                  && user in s.users
                  && var set_up := s.users[user].mfaEnabled && s.users[user].mfaSecret != "";
                     && (!set_up ==> response == BadRequest && s' == s)
                     && (set_up && !codeRight ==> response == Unauthorized && s' == s)
                     && (set_up && codeRight ==>
                           && c !in s'.challenges
                           && if sessionOk then OpensSession(s', response, user)
                              else response == ServerError && s'.sessions == s.sessions))
  {
    var s := After(run);
    RunKeepsAccounts(Empty, run);
    if c in s.challenges {
      OpenedSession(s.(challenges := s.challenges - {c}), s.challenges[c].user, ByChallenge(c));
    }
  }

  /** An accepted setup turns MFA on with the new secret for the bearer's account, and changes nothing else. */
  lemma SetupMfaExactly(s: State, bearer: Token, secret: string, ok: bool)
    ensures var (s', response) := DoSetupMfa(s, bearer, secret, ok);
            && (response == Accepted <==> Accepts(s, bearer) && bearer.user in s.users && ok)
            && (response != Accepted ==> s' == s)
            && (response == Accepted ==>
                  && s'.users[bearer.user].mfaEnabled && s'.users[bearer.user].mfaSecret == secret
                  && s'.users[bearer.user].email == s.users[bearer.user].email
                  && s' == s.(users := s'.users) && s'.users.Keys == s.users.Keys
                  && forall other :: other in s.users && other != bearer.user ==> s'.users[other] == s.users[other])
  {
  }

  // ----- refresh -----

  /** A refresh succeeds exactly with a valid refresh token of a session that is not revoked, as far as the
      database lets it; the new access token is then accepted. */
  lemma RefreshExactly(run: seq<Request>, t: Token, ok: bool)
    ensures var s := After(run);
            var (s', response) := DoRefresh(s, t, ok);
            && (response.NewAccess? <==>
                  && t in s.issued && t.kind.Refresh? && s.now < t.expires
                  && t.session in s.sessions && s.sessions[t.session].revokedAt.None? && ok)
            && (!response.NewAccess? ==> response == Unauthorized && s'.sessions == s.sessions)
            && (response.NewAccess? ==>
                  && Accepts(s', response.access) && response.access !in s.issued
                  && response.access.user == t.user && response.access.session == t.session)
  {
    var s := After(run);
    RunKeepsAccounts(Empty, run);
    var (s', response) := DoRefresh(s, t, ok);
    if response.NewAccess? {
      assert IsBound(s'.sessions, HashOf(response.access), t.session);
    }
  }

  // ----- logout -----

  /** A logout is unauthorized exactly without an accepted bearer, and fails only with the database. It
      touches nothing but the revocation times of sessions: those of the named session, of all sessions of
      the bearer's account, or of none. */
  lemma LogoutExactly(s: State, bearer: Token, scope: Scope, ok: bool, id: Id)
    requires id in s.sessions
    ensures var (s', response) := DoLogout(s, bearer, scope, ok);
            && (response == Unauthorized <==> !Accepts(s, bearer))
            && (response == Accepted <==> Accepts(s, bearer) && (scope.NoSession? || ok))
            && (response != Accepted ==> s' == s)
            && s' == s.(sessions := s'.sessions) && s'.sessions.Keys == s.sessions.Keys
            && (response == Accepted ==>
                  var was := s.sessions[id];
                  var named := scope == OneSession(id);
                  var swept := scope.AllSessions? && was.user == bearer.user && was.revokedAt.None?;
                  s'.sessions[id] == if named || swept then was.(revokedAt := Some(s.now)) else was)
  {
  }

  // ----- how long tokens live -----

  /** An access token made at this time is accepted for fifteen minutes, to the whole second, and a refresh
      token is good for a refresh for seven days, if nothing else happens. */
  ghost predicate LivesExactly(s: State, response: Response, made: int, d: nat)
    requires response.TokenPair?
  {
    var later := Continue(s, [Wait(d)]);
    && (Accepts(later, response.access) <==> made + d < WholeSeconds(made + 15 * 60 * 1_000_000))
    && (DoRefresh(later, response.refresh, true).1.NewAccess? <==>
          made + d < WholeSeconds(made + 7 * 24 * 60 * 60 * 1_000_000))
  }

  lemma PairLivesExactly(s: State, user: Id, origin: Origin, d: nat)
    requires AccountsHold(s) && user in s.users
    ensures var (s', response) := OpenSession(s, user, origin, true);
            response.TokenPair? && LivesExactly(s', response, s.now, d)
  {
    var (s', response) := OpenSession(s, user, origin, true);
    Waited(s', d);
    assert IsBound(s'.sessions, HashOf(response.access), s.nextId);
  }

  lemma LoginOpens(s: State, id: Id, countOk: bool)
    requires AccountsHold(s) && id in s.users && !IsLocked(s.users[id], s.now) && !s.users[id].mfaEnabled
    ensures DoLogin(s, s.users[id].email, true, countOk, true) == OpenSession(Cleared(s, id, countOk), id, ByLogin, true)
  {
    FoundByEmail(s, id);
  }

  /** The tokens of a session opened by a login. */
  lemma TokensLiveExactly(run: seq<Request>, id: Id, countOk: bool, d: nat)
    requires id in After(run).users && !IsLocked(After(run).users[id], After(run).now) && !After(run).users[id].mfaEnabled
    ensures var s := After(run);
            var (s', response) := DoLogin(s, s.users[id].email, true, countOk, true);
            response.TokenPair? && LivesExactly(s', response, s.now, d)
  {
    var s := After(run);
    RunKeepsAccounts(Empty, run);
    ClearedKeepsAccounts(s, id, countOk);
    PairLivesExactly(Cleared(s, id, countOk), id, ByLogin, d);
    LoginOpens(s, id, countOk);
  }
}
