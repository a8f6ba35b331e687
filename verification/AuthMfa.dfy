/** The MFA challenges, over every run of the session protocol. */
module AuthMfa {
  import opened Text
  import opened AuthProtocol

  /** At j a login with a correct password of user made challenge c at time at. */
  ghost predicate MadeByLogin(log: seq<Fact>, j: int, c: Id, user: Id, at: int)
  {
    && 1 <= j < |log| && log[j] == ChallengeMade(c, user, at)
    && log[j - 1].PasswordRight? && log[j - 1].user == user && log[j - 1].at == at
  }

  ghost predicate WasMade(log: seq<Fact>, c: Id, user: Id, at: int)
  {
    exists j :: MadeByLogin(log, j, c, user, at)
  }

  ghost predicate Redeemed(log: seq<Fact>, i: int, c: Id)
  {
    0 <= i < |log| && log[i].SessionMade? && log[i].origin == ByChallenge(c)
  }

  /** A redeemed challenge was made by a login of the same user at most the time to live earlier. */
  ghost predicate WellFounded(log: seq<Fact>, i: int)
    requires 0 <= i < |log|
  {
    log[i].SessionMade? && log[i].origin.ByChallenge? ==>
      exists j, at :: j < i && MadeByLogin(log, j, log[i].origin.challenge, log[i].user, at)
                      && at <= log[i].at <= at + CHALLENGE_TTL
  }

  ghost predicate LiveChallenge(s: State, c: Id)
    requires c in s.challenges
  {
    && c < s.nextId
    && WasMade(s.log, c, s.challenges[c].user, s.challenges[c].expiresAt - CHALLENGE_TTL)
    && s.challenges[c].expiresAt - CHALLENGE_TTL <= s.now
    && (forall i :: !Redeemed(s.log, i, c))
  }

  ghost predicate MfaInv(s: State)
  {
    && (forall c :: c in s.challenges ==> LiveChallenge(s, c))
    && (forall i :: 0 <= i < |s.log| ==> WellFounded(s.log, i))
    && (forall i, c: Id :: Redeemed(s.log, i, c) ==> c < s.nextId && c !in s.challenges)
    && (forall i, k, c: Id :: Redeemed(s.log, i, c) && Redeemed(s.log, k, c) ==> i == k)
  }

  /** Facts about a log survive its growth by facts that redeem nothing. */
  lemma GrowLog(s: State, s': State, added: seq<Fact>)
    requires MfaInv(s) && s'.log == s.log + added && s'.nextId >= s.nextId && s'.now >= s.now
    requires forall k :: 0 <= k < |added| ==> !(added[k].SessionMade? && added[k].origin.ByChallenge?)
    requires forall c :: c in s'.challenges ==> c in s.challenges && s'.challenges[c] == s.challenges[c]
    ensures MfaInv(s')
  {
    forall i, c: Id
      ensures Redeemed(s'.log, i, c) ==> Redeemed(s.log, i, c)
    {
    }
    forall c | c in s'.challenges
      ensures LiveChallenge(s', c)
    {
      assert LiveChallenge(s, c);
      StillMade(s.log, added, c, s.challenges[c].user, s.challenges[c].expiresAt - CHALLENGE_TTL);
    }
    forall i | 0 <= i < |s'.log|
      ensures WellFounded(s'.log, i)
    {
      if i < |s.log| {
        StillFounded(s.log, added, i);
      } else {
        assert s'.log[i] == added[i - |s.log|];
      }
    }
  }

  lemma StillFounded(log: seq<Fact>, added: seq<Fact>, i: int)
    requires 0 <= i < |log| && WellFounded(log, i)
    ensures WellFounded(log + added, i)
  {
    if log[i].SessionMade? && log[i].origin.ByChallenge? {
      var j, at :| j < i && MadeByLogin(log, j, log[i].origin.challenge, log[i].user, at)
                   && at <= log[i].at <= at + CHALLENGE_TTL;
      assert MadeByLogin(log + added, j, log[i].origin.challenge, log[i].user, at);
    }
  }

  lemma StillMade(log: seq<Fact>, added: seq<Fact>, c: Id, user: Id, at: int)
    requires WasMade(log, c, user, at)
    ensures WasMade(log + added, c, user, at)
  {
    var j :| MadeByLogin(log, j, c, user, at);
    assert MadeByLogin(log + added, j, c, user, at);
  }

  lemma MakeChallenge(s: State, id: Id, cleared: bool)
    requires MfaInv(s)
    ensures MfaInv(s.(challenges := s.challenges[s.nextId := Challenge(id, s.now + CHALLENGE_TTL)],
                      nextId := s.nextId + 1,
                      log := s.log + [PasswordRight(id, s.now, cleared), ChallengeMade(s.nextId, id, s.now)]))
  {
    var added := [PasswordRight(id, s.now, cleared), ChallengeMade(s.nextId, id, s.now)];
    var s1 := s.(nextId := s.nextId + 1, log := s.log + added);
    GrowLog(s, s1, added);
    assert MadeByLogin(s1.log, |s.log| + 1, s.nextId, id, s.now);
    var s2 := s1.(challenges := s.challenges[s.nextId := Challenge(id, s.now + CHALLENGE_TTL)]);
    forall i, c: Id
      ensures Redeemed(s1.log, i, c) ==> c < s.nextId && c !in s2.challenges
    {
      if Redeemed(s1.log, i, c) {
        assert Redeemed(s.log, i, c);
      }
    }
    forall c | c in s2.challenges
      ensures LiveChallenge(s2, c)
    {
      if c != s.nextId {
        assert LiveChallenge(s1, c);
      }
    }
  }

  lemma Redeem(s: State, c: Id)
    requires MfaInv(s) && c in s.challenges && s.now <= s.challenges[c].expiresAt
    ensures MfaInv(OpenSession(s.(challenges := s.challenges - {c}), s.challenges[c].user, ByChallenge(c), true).0)
  {
    var user := s.challenges[c].user;
    var at := s.challenges[c].expiresAt - CHALLENGE_TTL;
    var f := SessionMade(s.nextId, user, s.now, ByChallenge(c));
    var s' := OpenSession(s.(challenges := s.challenges - {c}), user, ByChallenge(c), true).0;
    assert s'.log == s.log + [f] && s'.challenges == s.challenges - {c};
    assert LiveChallenge(s, c);
    var j :| MadeByLogin(s.log, j, c, user, at);
    assert MadeByLogin(s'.log, j, c, user, at);
    forall i, d: Id
      ensures Redeemed(s'.log, i, d) <==> Redeemed(s.log, i, d) || (i == |s.log| && d == c)
    {
    }
    forall d | d in s'.challenges
      ensures LiveChallenge(s', d)
    {
      assert LiveChallenge(s, d);
      StillMade(s.log, [f], d, s.challenges[d].user, s.challenges[d].expiresAt - CHALLENGE_TTL);
    }
    forall i | 0 <= i < |s'.log|
      ensures WellFounded(s'.log, i)
    {
      if i < |s.log| {
        StillFounded(s.log, [f], i);
      }
    }
  }

  lemma OpenOther(s: State, s0: State, added: seq<Fact>, user: Id, origin: Origin, ok: bool)
    requires MfaInv(s0) && !origin.ByChallenge?
    requires s.log == s0.log + added && s.nextId >= s0.nextId && s.now == s0.now && s.challenges == s0.challenges
    requires forall k :: 0 <= k < |added| ==> !added[k].SessionMade?
    ensures MfaInv(OpenSession(s, user, origin, ok).0)
  {
    GrowLog(s0, s, added);
    var s' := OpenSession(s, user, origin, ok).0;
    GrowLog(s, s', if ok then [SessionMade(s.nextId, user, s.now, origin)] else []);
  }

  lemma LoginKeepsMfa(s: State, email: string, right: bool, countOk: bool, sessionOk: bool)
    requires MfaInv(s)
    ensures MfaInv(DoLogin(s, email, right, countOk, sessionOk).0)
  {
    var found := UserByEmail(s.users, email);
    if found.Some? && !(s.users[found.value].lockedUntil.Some? && s.now < s.users[found.value].lockedUntil.value) {
      var id := found.value;
      if !right {
        GrowLog(s, DoLogin(s, email, right, countOk, sessionOk).0, [PasswordWrong(id, s.now, countOk)]);
      } else {
        var users := if countOk then ResetFailedLogins(s.users, id) else s.users;
        if s.users[id].mfaEnabled {
          MakeChallenge(s.(users := users), id, countOk);
          var s' := DoLogin(s, email, right, countOk, sessionOk).0;
          assert s'.log == s.log + [PasswordRight(id, s.now, countOk), ChallengeMade(s.nextId, id, s.now)];
        } else {
          var added := [PasswordRight(id, s.now, countOk)];
          OpenOther(s.(users := users, log := s.log + added), s, added, id, ByLogin, sessionOk);
        }
      }
    }
  }

  lemma VerifyKeepsMfa(s: State, c: Id, codeRight: bool, sessionOk: bool)
    requires MfaInv(s)
    ensures MfaInv(DoVerifyMfa(s, c, codeRight, sessionOk).0)
  {
    var s' := DoVerifyMfa(s, c, codeRight, sessionOk).0;
    if s'.log == s.log {
      GrowLog(s, s', []);
    } else {
      Redeem(s, c);
    }
  }

  lemma RegisterKeepsMfa(s: State, email: string, userOk: bool, sessionOk: bool)
    requires MfaInv(s)
    ensures MfaInv(DoRegister(s, email, userOk, sessionOk).0)
  {
    var created := s.(users := s.users[s.nextId := User(email, false, "", 0, None)], nextId := s.nextId + 1);
    OpenOther(created, s, [], s.nextId, ByRegistration, sessionOk);
  }

  lemma StepKeepsMfa(s: State, r: Request)
    requires MfaInv(s)
    ensures MfaInv(Handle(s, r).0)
  {
    match r
    case Login(email, right, countOk, sessionOk) => LoginKeepsMfa(s, email, right, countOk, sessionOk);
    case VerifyMfa(c, codeRight, sessionOk) => VerifyKeepsMfa(s, c, codeRight, sessionOk);
    case Register(email, userOk, sessionOk) => RegisterKeepsMfa(s, email, userOk, sessionOk);
    case _ => GrowLog(s, Handle(s, r).0, []);
  }

  lemma {:induction false} RunKeepsMfa(run: seq<Request>)
    ensures MfaInv(After(run))
  {
    if run != [] {
      RunKeepsMfa(run[..|run| - 1]);
      StepKeepsMfa(After(run[..|run| - 1]), run[|run| - 1]);
    }
  }

  /** Every session made by VerifyMFA belongs to the user whose login with a correct password made
      its challenge, at most five minutes before. */
  lemma MfaSessionIsFounded(run: seq<Request>, i: nat)
    requires i < |After(run).log| && After(run).log[i].SessionMade? && After(run).log[i].origin.ByChallenge?
    ensures var log := After(run).log;
            exists j, at :: j < i && MadeByLogin(log, j, log[i].origin.challenge, log[i].user, at)
                            && at <= log[i].at <= at + CHALLENGE_TTL
  {
    RunKeepsMfa(run);
    assert WellFounded(After(run).log, i);
  }

  /** A challenge yields at most one session, and is gone once it has. */
  lemma ChallengeYieldsOneSession(run: seq<Request>, i: int, k: int, c: Id)
    requires Redeemed(After(run).log, i, c) && Redeemed(After(run).log, k, c)
    ensures i == k && c !in After(run).challenges
  {
    RunKeepsMfa(run);
  }

  // ----- logins of accounts with MFA -----

  ghost predicate HasMfa(s: State, user: Id) { user in s.users && s.users[user].mfaEnabled }

  ghost predicate UsersAreOld(s: State) { forall id :: id in s.users ==> id < s.nextId }

  ghost predicate NewSession(s: State, s': State, i: int, user: Id)
  {
    |s.log| <= i < |s'.log| && s'.log[i].SessionMade? && s'.log[i].user == user
  }

  /** One step: the log grows, MFA stays on, and a session of an account that has it comes from a
      challenge. */
  lemma StepUnderMfa(s: State, r: Request, user: Id)
    requires UsersAreOld(s)
    ensures var s' := Handle(s, r).0;
            && UsersAreOld(s') && s.log <= s'.log
            && (HasMfa(s, user) ==>
                  && HasMfa(s', user)
                  && forall i :: NewSession(s, s', i, user) ==> s'.log[i].origin.ByChallenge?)
  {
    match r
    case Login(email, right, countOk, sessionOk) => LoginUnderMfa(s, email, right, countOk, sessionOk, user);
    case Register(email, userOk, sessionOk) =>
    case VerifyMfa(c, codeRight, sessionOk) =>
    case _ =>
  }

  lemma LoginUnderMfa(s: State, email: string, right: bool, countOk: bool, sessionOk: bool, user: Id)
    requires UsersAreOld(s)
    ensures var s' := DoLogin(s, email, right, countOk, sessionOk).0;
            && UsersAreOld(s') && s.log <= s'.log
            && (HasMfa(s, user) ==>
                  && HasMfa(s', user)
                  && forall i :: NewSession(s, s', i, user) ==> s'.log[i].origin.ByChallenge?)
  {
  }

  /** The only session a login makes is one of an account without MFA. */
  lemma LoginSession(s: State, r: Request, i: int, user: Id)
    requires UsersAreOld(s) && NewSession(s, Handle(s, r).0, i, user) && Handle(s, r).0.log[i].origin.ByLogin?
    ensures r.Login? && user in s.users && !HasMfa(s, user)
  {
  }

  lemma {:induction false} RunUnderMfa(s: State, run: seq<Request>, user: Id)
    requires UsersAreOld(s)
    ensures var s' := Continue(s, run);
            && UsersAreOld(s') && s.log <= s'.log
            && (HasMfa(s, user) ==>
                  && HasMfa(s', user)
                  && forall i :: NewSession(s, s', i, user) ==> s'.log[i].origin.ByChallenge?)
  {
    if run != [] {
      RunUnderMfa(s, run[..|run| - 1], user);
      StepUnderMfa(Continue(s, run[..|run| - 1]), run[|run| - 1], user);
      var before, s' := Continue(s, run[..|run| - 1]), Continue(s, run);
      forall i | HasMfa(s, user) && NewSession(s, s', i, user)
        ensures s'.log[i].origin.ByChallenge?
      {
        if i < |before.log| {
          assert NewSession(s, before, i, user);
        } else {
          assert NewSession(before, s', i, user);
        }
      }
    }
  }

  /** The k-th request recorded the i-th fact. */
  ghost predicate RecordedBy(run: seq<Request>, k: int, i: int)
  {
    0 <= k < |run| && |After(run[..k]).log| <= i < |After(run[..k + 1]).log|
  }

  /** Every session a login ever made was made by a login request, for an account that had MFA off in the
      state in which that request started. */
  lemma {:induction false} LoginNeverBypassesMfa(run: seq<Request>, i: nat)
    requires i < |After(run).log| && After(run).log[i].SessionMade? && After(run).log[i].origin.ByLogin?
    ensures exists k :: && RecordedBy(run, k, i) && run[k].Login?
                        && After(run).log[i].user in After(run[..k]).users
                        && !After(run[..k]).users[After(run).log[i].user].mfaEnabled
  {
    if run != [] {
      var head, n, user := run[..|run| - 1], |run| - 1, After(run).log[i].user;
      RunUnderMfa(Empty, head, user);
      StepUnderMfa(After(head), run[n], user);
      assert run[..n + 1] == run;
      if i < |After(head).log| {
        LoginNeverBypassesMfa(head, i);
        var k :| RecordedBy(head, k, i) && head[k].Login? && user in After(head[..k]).users
                 && !After(head[..k]).users[user].mfaEnabled;
        assert head[..k] == run[..k] && head[..k + 1] == run[..k + 1];
        assert RecordedBy(run, k, i);
      } else {
        LoginSession(After(head), run[n], i, user);
        assert RecordedBy(run, n, i);
      }
    }
  }

  /** The only session a challenge makes is made by redeeming it with a right code. */
  lemma ChallengeSession(s: State, r: Request, i: int, user: Id)
    requires NewSession(s, Handle(s, r).0, i, user) && Handle(s, r).0.log[i].origin.ByChallenge?
    ensures && r.VerifyMfa? && r.challenge == Handle(s, r).0.log[i].origin.challenge && r.codeRight
            && user in s.users && s.users[user].mfaEnabled && s.users[user].mfaSecret != ""
  {
  }

  /** Every session made from a challenge was made by a request that redeemed that challenge with a right
      code, for an account with MFA on and a secret in the state in which that request started. */
  lemma {:induction false} MfaSessionNeedsRightCode(run: seq<Request>, i: nat)
    requires i < |After(run).log| && After(run).log[i].SessionMade? && After(run).log[i].origin.ByChallenge?
    ensures var made := After(run).log[i];
            exists k :: && RecordedBy(run, k, i)
                        && run[k].VerifyMfa? && run[k].challenge == made.origin.challenge && run[k].codeRight
                        && HasMfa(After(run[..k]), made.user) && After(run[..k]).users[made.user].mfaSecret != ""
  {
    if run != [] {
      var head, n, made := run[..|run| - 1], |run| - 1, After(run).log[i];
      RunUnderMfa(Empty, head, made.user);
      StepUnderMfa(After(head), run[n], made.user);
      assert run[..n + 1] == run;
      if i < |After(head).log| {
        MfaSessionNeedsRightCode(head, i);
        var k :| && RecordedBy(head, k, i)
                 && head[k].VerifyMfa? && head[k].challenge == made.origin.challenge && head[k].codeRight
                 && HasMfa(After(head[..k]), made.user) && After(head[..k]).users[made.user].mfaSecret != "";
        assert head[..k] == run[..k] && head[..k + 1] == run[..k + 1];
        assert RecordedBy(run, k, i);
      } else {
        ChallengeSession(After(head), run[n], i, made.user);
        assert RecordedBy(run, n, i);
      }
    }
  }

  /** Once an account's MFA setup has been accepted, every later session of it comes from a challenge. */
  lemma SetupForcesChallenges(run: seq<Request>, bearer: Token, secret: string, ok: bool, more: seq<Request>, i: nat)
    requires DoSetupMfa(After(run), bearer, secret, ok).1 == Accepted
    requires var s := DoSetupMfa(After(run), bearer, secret, ok).0; NewSession(s, Continue(s, more), i, bearer.user)
    ensures var s := DoSetupMfa(After(run), bearer, secret, ok).0; Continue(s, more).log[i].origin.ByChallenge?
  {
    RunUnderMfa(Empty, run, bearer.user);
    RunUnderMfa(DoSetupMfa(After(run), bearer, secret, ok).0, more, bearer.user);
  }
}
