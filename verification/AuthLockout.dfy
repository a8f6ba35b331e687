/** The failed login count and the lockout bound, over every run of the session protocol. */
module AuthLockout {
  import opened Text
  import opened AuthProtocol

  // ----- failed login counting -----

  function WrongPasswords(log: seq<Fact>, id: Id): nat
  {
    if log == [] then 0
    else
      var last := log[|log| - 1];
      WrongPasswords(log[..|log| - 1], id) + (if last.PasswordWrong? && last.user == id then 1 else 0)
  }

  /** Wrong passwords whose increment did not reach the database. */
  function Uncounted(log: seq<Fact>, id: Id): nat
  {
    if log == [] then 0
    else
      var last := log[|log| - 1];
      Uncounted(log[..|log| - 1], id) + (if last.PasswordWrong? && last.user == id && !last.counted then 1 else 0)
  }

  /** Counted wrong passwords since the last correct one that cleared the count. */
  function CountedSinceCleared(log: seq<Fact>, id: Id): nat
  {
    if log == [] then 0
    else
      match log[|log| - 1]
      case PasswordWrong(u, _, counted) =>
        CountedSinceCleared(log[..|log| - 1], id) + (if u == id && counted then 1 else 0)
      case PasswordRight(u, _, cleared) =>
        if u == id && cleared then 0 else CountedSinceCleared(log[..|log| - 1], id)
      case _ => CountedSinceCleared(log[..|log| - 1], id)
  }

  ghost predicate CountInv(s: State)
  {
    && (forall id :: id in s.users ==> id < s.nextId && s.users[id].failedLogins == CountedSinceCleared(s.log, id))
    && (forall id :: id !in s.users ==> CountedSinceCleared(s.log, id) == 0)
    && (forall c :: c in s.challenges ==> s.challenges[c].user in s.users)
  }

  /** A handler records at most two facts, and only the password facts matter to the count. */
  lemma CountAppend(log: seq<Fact>, f: Fact, id: Id)
    ensures CountedSinceCleared(log + [f], id) ==
            match f
            case PasswordWrong(u, _, counted) => CountedSinceCleared(log, id) + (if u == id && counted then 1 else 0)
            case PasswordRight(u, _, cleared) => if u == id && cleared then 0 else CountedSinceCleared(log, id)
            case _ => CountedSinceCleared(log, id)
  {
    assert (log + [f])[..|log|] == log;
  }

  lemma OpenSessionKeepsCount(s: State, user: Id, origin: Origin, ok: bool)
    requires CountInv(s)
    ensures CountInv(OpenSession(s, user, origin, ok).0)
  {
    forall id
      ensures CountedSinceCleared(OpenSession(s, user, origin, ok).0.log, id) == CountedSinceCleared(s.log, id)
    {
      CountAppend(s.log, SessionMade(s.nextId, user, s.now, origin), id);
    }
  }

  lemma RegisterKeepsCount(s: State, email: string, userOk: bool, sessionOk: bool)
    requires CountInv(s)
    ensures CountInv(DoRegister(s, email, userOk, sessionOk).0)
  {
    var created := s.(users := s.users[s.nextId := User(email, false, "", 0, None)], nextId := s.nextId + 1);
    OpenSessionKeepsCount(created, s.nextId, ByRegistration, sessionOk);
  }

  lemma RightKeepsCount(s: State, id: Id, countOk: bool)
    requires CountInv(s) && id in s.users
    ensures CountInv(s.(users := if countOk then ResetFailedLogins(s.users, id) else s.users,
                        log := s.log + [PasswordRight(id, s.now, countOk)]))
  {
    var log := s.log + [PasswordRight(id, s.now, countOk)];
    forall i
      ensures CountedSinceCleared(log, i) == if i == id && countOk then 0 else CountedSinceCleared(s.log, i)
    {
      CountAppend(s.log, PasswordRight(id, s.now, countOk), i);
    }
  }

  lemma WrongKeepsCount(s: State, id: Id, countOk: bool)
    requires CountInv(s) && id in s.users
    ensures CountInv(s.(users := if countOk then IncrementFailedLogins(s.users, id, s.now) else s.users,
                        log := s.log + [PasswordWrong(id, s.now, countOk)]))
  {
    var log := s.log + [PasswordWrong(id, s.now, countOk)];
    forall i
      ensures CountedSinceCleared(log, i) == CountedSinceCleared(s.log, i) + if i == id && countOk then 1 else 0
    {
      CountAppend(s.log, PasswordWrong(id, s.now, countOk), i);
    }
  }

  lemma ChallengeKeepsCount(s: State, id: Id)
    requires CountInv(s) && id in s.users
    ensures CountInv(s.(challenges := s.challenges[s.nextId := Challenge(id, s.now + CHALLENGE_TTL)],
                        nextId := s.nextId + 1, log := s.log + [ChallengeMade(s.nextId, id, s.now)]))
  {
    forall i
      ensures CountedSinceCleared(s.log + [ChallengeMade(s.nextId, id, s.now)], i) == CountedSinceCleared(s.log, i)
    {
      CountAppend(s.log, ChallengeMade(s.nextId, id, s.now), i);
    }
  }

  lemma LoginKeepsCount(s: State, email: string, right: bool, countOk: bool, sessionOk: bool)
    requires CountInv(s)
    ensures CountInv(DoLogin(s, email, right, countOk, sessionOk).0)
  {
    var found := UserByEmail(s.users, email);
    if found.Some? {
      var id := found.value;
      WrongKeepsCount(s, id, countOk);
      if right {
        RightKeepsCount(s, id, countOk);
        var users := if countOk then ResetFailedLogins(s.users, id) else s.users;
        var cleared := s.(users := users, log := s.log + [PasswordRight(id, s.now, countOk)]);
        ChallengeKeepsCount(cleared, id);
        OpenSessionKeepsCount(cleared, id, ByLogin, sessionOk);
      }
    }
  }

  lemma StepKeepsCount(s: State, r: Request)
    requires CountInv(s)
    ensures CountInv(Handle(s, r).0)
  {
    match r
    case Register(email, userOk, sessionOk) => RegisterKeepsCount(s, email, userOk, sessionOk);
    case Login(email, right, countOk, sessionOk) => LoginKeepsCount(s, email, right, countOk, sessionOk);
    case VerifyMfa(c, codeRight, sessionOk) =>
      if c in s.challenges {
        OpenSessionKeepsCount(s.(challenges := s.challenges - {c}), s.challenges[c].user, ByChallenge(c), sessionOk);
      }
    case _ =>
  }

  lemma {:induction false} RunKeepsCount(s: State, run: seq<Request>)
    requires CountInv(s)
    ensures CountInv(Continue(s, run))
  {
    if run != [] {
      RunKeepsCount(s, run[..|run| - 1]);
      StepKeepsCount(Continue(s, run[..|run| - 1]), run[|run| - 1]);
    }
  }

  /** A user's failed login count is the number of wrong passwords evaluated, and counted, since the
      last correct one that cleared it. */
  lemma FailedLoginsAreExact(run: seq<Request>, id: Id)
    requires id in After(run).users
    ensures After(run).users[id].failedLogins == CountedSinceCleared(After(run).log, id)
  {
    RunKeepsCount(Empty, run);
  }

  // ----- the lockout bound -----

  ghost predicate NoneRight(log: seq<Fact>, id: Id)
  {
    forall i :: 0 <= i < |log| ==> !(log[i].PasswordRight? && log[i].user == id)
  }

  /** Facts recorded by the steps of run, from state s. */
  ghost function Span(s: State, run: seq<Request>): seq<Fact>
    requires s.log <= Continue(s, run).log
  {
    Continue(s, run).log[|s.log|..]
  }

  /** What a step adds to the log. */
  ghost function Added(s: State, r: Request): seq<Fact>
    requires s.log <= Handle(s, r).0.log
  {
    Handle(s, r).0.log[|s.log|..]
  }

  lemma StepGrowsLog(s: State, r: Request)
    ensures s.log <= Handle(s, r).0.log && s.now <= Handle(s, r).0.now
  {
  }

  lemma {:induction false} LogGrows(s: State, run: seq<Request>)
    ensures s.log <= Continue(s, run).log && s.now <= Continue(s, run).now
  {
    if run != [] {
      LogGrows(s, run[..|run| - 1]);
      StepGrowsLog(Continue(s, run[..|run| - 1]), run[|run| - 1]);
    }
  }

  /** No password of this account was evaluated. */
  ghost predicate Quiet(log: seq<Fact>, id: Id)
  {
    forall i :: 0 <= i < |log| ==> !((log[i].PasswordRight? || log[i].PasswordWrong?) && log[i].user == id)
  }

  ghost predicate SameAccount(s: State, s': State, id: Id)
  {
    id in s.users ==> id in s'.users
                      && s'.users[id].failedLogins == s.users[id].failedLogins
                      && s'.users[id].lockedUntil == s.users[id].lockedUntil
  }

  /** A wrong password is evaluated only while the account is not locked. */
  ghost predicate WrongStep(s: State, s': State, added: seq<Fact>, id: Id)
  {
    && id in s.users
    && !(s.users[id].lockedUntil.Some? && s.now < s.users[id].lockedUntil.value)
    && (|| (added == [PasswordWrong(id, s.now, true)] && s'.users == IncrementFailedLogins(s.users, id, s.now))
        || (added == [PasswordWrong(id, s.now, false)] && s'.users == s.users))
  }

  lemma LoginOnAccount(s: State, email: string, right: bool, countOk: bool, sessionOk: bool, id: Id)
    ensures var s' := DoLogin(s, email, right, countOk, sessionOk).0;
            var added := s'.log[|s.log|..];
            NoneRight(added, id) ==> WrongStep(s, s', added, id) || (Quiet(added, id) && SameAccount(s, s', id))
  {
    var s' := DoLogin(s, email, right, countOk, sessionOk).0;
    var found := UserByEmail(s.users, email);
    if found == Some(id) && |s'.log| > |s.log| && right {
      assert s'.log[|s.log|..][0] == PasswordRight(id, s.now, countOk);
    }
  }

  /** What one step does to one account as long as no correct password is evaluated for it. */
  lemma StepOnAccount(s: State, r: Request, id: Id)
    requires CountInv(s) && s.log <= Handle(s, r).0.log && NoneRight(Added(s, r), id)
    ensures var s' := Handle(s, r).0;
            WrongStep(s, s', Added(s, r), id) || (Quiet(Added(s, r), id) && SameAccount(s, s', id))
  {
    match r
    case Login(email, right, countOk, sessionOk) => LoginOnAccount(s, email, right, countOk, sessionOk, id);
    case _ =>
  }

  lemma {:induction false} QuietTally(log: seq<Fact>, id: Id)
    requires Quiet(log, id)
    ensures WrongPasswords(log, id) == 0 && Uncounted(log, id) == 0
  {
    if log != [] {
      QuietTally(log[..|log| - 1], id);
    }
  }

  lemma {:induction false} TallyAppend(a: seq<Fact>, b: seq<Fact>, id: Id)
    ensures WrongPasswords(a + b, id) == WrongPasswords(a, id) + WrongPasswords(b, id)
    ensures Uncounted(a + b, id) == Uncounted(a, id) + Uncounted(b, id)
  {
    if b == [] {
      assert a + b == a;
    } else {
      TallyAppend(a, b[..|b| - 1], id);
      assert (a + b)[..|a + b| - 1] == a + b[..|b| - 1];
    }
  }

  lemma TallyOne(f: Fact, id: Id)
    ensures WrongPasswords([f], id) == if f.PasswordWrong? && f.user == id then 1 else 0
    ensures Uncounted([f], id) == if f.PasswordWrong? && f.user == id && !f.counted then 1 else 0
  {
    assert [f][..0] == [];
  }

  /** counted increments since time start have pushed the account's count and lock this far. */
  ghost predicate Pushed(s: State, start: int, counted: int, id: Id)
  {
    && start <= s.now && counted >= 0
    && (counted > 0 ==> id in s.users && s.users[id].failedLogins >= counted)
    && (counted >= 5 ==>
          && s.users[id].lockedUntil.Some?
          && start + (counted - 4) * LOCK_PERIOD <= s.users[id].lockedUntil.value <= s.now + LOCK_PERIOD)
  }

  lemma PushedOn(s: State, s': State, added: seq<Fact>, start: int, counted: int, id: Id)
    requires WrongStep(s, s', added, id) || (Quiet(added, id) && SameAccount(s, s', id))
    requires Pushed(s, start, counted, id) && s.now <= s'.now
    ensures Pushed(s', start, counted + Counted(added, id), id)
  {
    if Quiet(added, id) {
      QuietTally(added, id);
    } else {
      TallyOne(added[0], id);
    }
  }

  lemma PushedStep(s: State, r: Request, start: int, counted: int, id: Id)
    requires CountInv(s) && s.log <= Handle(s, r).0.log && NoneRight(Added(s, r), id)
    requires Pushed(s, start, counted, id)
    ensures Pushed(Handle(s, r).0, start, counted + Counted(Added(s, r), id), id)
  {
    StepGrowsLog(s, r);
    StepOnAccount(s, r, id);
    PushedOn(s, Handle(s, r).0, Added(s, r), start, counted, id);
  }

  /** The span of a run is the span of all but its last step, and then what that step added. */
  lemma SpanSnoc(s: State, run: seq<Request>)
    requires run != []
    requires s.log <= Continue(s, run).log && s.log <= Continue(s, run[..|run| - 1]).log
    ensures var t, r := Continue(s, run[..|run| - 1]), run[|run| - 1];
            && t.log <= Handle(t, r).0.log
            && Span(s, run) == Span(s, run[..|run| - 1]) + Added(t, r)
  {
    StepGrowsLog(Continue(s, run[..|run| - 1]), run[|run| - 1]);
  }

  ghost function Counted(log: seq<Fact>, id: Id): int { WrongPasswords(log, id) - Uncounted(log, id) }

  lemma CountedSnoc(a: seq<Fact>, b: seq<Fact>, id: Id)
    requires NoneRight(a + b, id)
    ensures Counted(a + b, id) == Counted(a, id) + Counted(b, id)
    ensures NoneRight(a, id) && NoneRight(b, id)
  {
    TallyAppend(a, b, id);
    NoneRightSplit(a, b, id);
  }

  lemma PotentialSnoc(t: State, r: Request, start: int, facts: seq<Fact>, id: Id)
    requires CountInv(t) && t.log <= Handle(t, r).0.log && NoneRight(facts + Added(t, r), id)
    requires Pushed(t, start, Counted(facts, id), id)
    ensures Pushed(Handle(t, r).0, start, Counted(facts + Added(t, r), id), id)
  {
    CountedSnoc(facts, Added(t, r), id);
    PushedStep(t, r, start, Counted(facts, id), id);
  }

  lemma NoneRightInit(s: State, run: seq<Request>, id: Id)
    requires run != [] && s.log <= Continue(s, run).log && NoneRight(Span(s, run), id)
    ensures s.log <= Continue(s, run[..|run| - 1]).log && NoneRight(Span(s, run[..|run| - 1]), id)
  {
    LogGrows(s, run[..|run| - 1]);
    SpanSnoc(s, run);
    NoneRightSplit(Span(s, run[..|run| - 1]), Added(Continue(s, run[..|run| - 1]), run[|run| - 1]), id);
  }

  /** Every counted wrong password after the fourth pushes the lock at least one period further. */
  lemma {:induction false} LockPotential(s: State, run: seq<Request>, id: Id)
    requires CountInv(s) && s.log <= Continue(s, run).log && NoneRight(Span(s, run), id)
    ensures Pushed(Continue(s, run), s.now, Counted(Span(s, run), id), id)
  {
    if run != [] {
      var head := run[..|run| - 1];
      NoneRightInit(s, run, id);
      LockPotential(s, head, id);
      RunKeepsCount(s, head);
      SpanSnoc(s, run);
      PotentialSnoc(Continue(s, head), run[|run| - 1], s.now, Span(s, head), id);
    }
  }

  lemma NoneRightSplit(a: seq<Fact>, b: seq<Fact>, id: Id)
    requires NoneRight(a + b, id)
    ensures NoneRight(a, id) && NoneRight(b, id)
  {
    forall i | 0 <= i < |b|
      ensures !(b[i].PasswordRight? && b[i].user == id)
    {
      assert (a + b)[|a| + i] == b[i];
    }
    forall i | 0 <= i < |a|
      ensures !(a[i].PasswordRight? && a[i].user == id)
    {
      assert (a + b)[i] == a[i];
    }
  }

  /** Over any span of a run without a correct password for an account, the wrong passwords evaluated
      for it number at most five, plus one per full lock period in the span, plus those whose
      increment the database lost. */
  lemma LockoutBound(run: seq<Request>, more: seq<Request>, id: Id)
    ensures var s, s' := After(run), Continue(After(run), more);
            && s.log <= s'.log && s.now <= s'.now
            && (NoneRight(Span(s, more), id) ==>
                  WrongPasswords(Span(s, more), id)
                  <= 5 + (s'.now - s.now) / LOCK_PERIOD + Uncounted(Span(s, more), id))
  {
    var s, s' := After(run), Continue(After(run), more);
    LogGrows(s, more);
    if NoneRight(Span(s, more), id) {
      RunKeepsCount(Empty, run);
      LockPotential(s, more, id);
      BoundFromPush(s', s.now, Counted(Span(s, more), id), id);
    }
  }

  lemma BoundFromPush(s: State, start: int, counted: int, id: Id)
    requires Pushed(s, start, counted, id)
    ensures counted <= 5 + (s.now - start) / LOCK_PERIOD
  {
    if counted >= 5 {
      DivideBound(counted - 5, s.now - start);
    }
  }

  lemma DivideBound(k: nat, time: int)
    requires k * LOCK_PERIOD <= time
    ensures k <= time / LOCK_PERIOD
  {
  }

  function LostGuesses(email: string, n: nat): seq<Request>
  {
    if n == 0 then [] else LostGuesses(email, n - 1) + [Login(email, false, false, true)]
  }

  ghost predicate IsUnlocked(s: State, id: Id)
  {
    id in s.users && (s.users[id].lockedUntil.Some? ==> s.users[id].lockedUntil.value <= s.now)
  }

  lemma LostGuess(s: State, email: string)
    requires var u := UserByEmail(s.users, email); u.Some? && IsUnlocked(s, u.value)
    ensures var id := UserByEmail(s.users, email).value;
            Handle(s, Login(email, false, false, true)).0 == s.(log := s.log + [PasswordWrong(id, s.now, false)])
  {
  }

  /** The term for lost increments cannot be dropped: while the database loses them, any number of
      wrong passwords is evaluated for an unlocked account in no time. */
  lemma {:induction false} LostIncrementsAreUnbounded(s: State, email: string, n: nat)
    requires var u := UserByEmail(s.users, email); u.Some? && IsUnlocked(s, u.value)
    ensures var id, s' := UserByEmail(s.users, email).value, Continue(s, LostGuesses(email, n));
            && s'.users == s.users && s'.now == s.now && s.log <= s'.log
            && NoneRight(Span(s, LostGuesses(email, n)), id)
            && WrongPasswords(Span(s, LostGuesses(email, n)), id) == n
  {
    if n > 0 {
      var before := LostGuesses(email, n - 1);
      LostIncrementsAreUnbounded(s, email, n - 1);
      ContinueSnoc(s, before, Login(email, false, false, true));
      LostGuess(Continue(s, before), email);
      AddedLoss(s.log, Continue(s, before).log, PasswordWrong(UserByEmail(s.users, email).value, s.now, false),
                UserByEmail(s.users, email).value);
    }
  }

  lemma AddedLoss(start: seq<Fact>, log: seq<Fact>, f: Fact, id: Id)
    requires start <= log && f.PasswordWrong? && f.user == id && NoneRight(log[|start|..], id)
    ensures start <= log + [f] && NoneRight((log + [f])[|start|..], id)
    ensures WrongPasswords((log + [f])[|start|..], id) == WrongPasswords(log[|start|..], id) + 1
  {
    OneMoreLost(log[|start|..], f, id);
    assert (log + [f])[|start|..] == log[|start|..] + [f];
  }

  lemma OneMoreLost(earlier: seq<Fact>, f: Fact, id: Id)
    requires f.PasswordWrong? && f.user == id && NoneRight(earlier, id)
    ensures WrongPasswords(earlier + [f], id) == WrongPasswords(earlier, id) + 1 && NoneRight(earlier + [f], id)
  {
    TallyAppend(earlier, [f], id);
    TallyOne(f, id);
  }

  // ----- the bound is attained -----

  function CountedGuess(email: string): Request { Login(email, false, true, true) }

  /** Five guesses at once, and then one at the end of every lock period. */
  function Attack(email: string, n: nat): seq<Request>
  {
    if n == 0 then []
    else (Attack(email, n - 1) + Pause(n)) + [CountedGuess(email)]
  }

  ghost predicate IsOnly(s: State, email: string, id: Id)
  {
    && id in s.users && s.users[id].email == email
    && forall other :: other in s.users && s.users[other].email == email ==> other == id
  }

  lemma GuessStep(s: State, email: string, id: Id)
    requires IsOnly(s, email, id) && IsUnlocked(s, id)
    ensures Handle(s, CountedGuess(email)).0
         == s.(users := IncrementFailedLogins(s.users, id, s.now), log := s.log + [PasswordWrong(id, s.now, true)])
    ensures IsOnly(Handle(s, CountedGuess(email)).0, email, id)
  {
  }

  lemma ContinueSnoc(s: State, run: seq<Request>, r: Request)
    ensures Continue(s, run + [r]) == Handle(Continue(s, run), r).0
  {
    assert (run + [r])[..|run|] == run;
  }

  lemma OneMoreCounted(earlier: seq<Fact>, f: Fact, id: Id)
    requires f.PasswordWrong? && f.user == id && f.counted && NoneRight(earlier, id)
    ensures WrongPasswords(earlier + [f], id) == WrongPasswords(earlier, id) + 1
    ensures Uncounted(earlier + [f], id) == Uncounted(earlier, id) && NoneRight(earlier + [f], id)
  {
    TallyAppend(earlier, [f], id);
    TallyOne(f, id);
  }

  /** Where n guesses of the attack leave the account. */
  ghost predicate Attacked(s: State, s': State, email: string, id: Id, n: nat)
  {
    && IsOnly(s', email, id) && s.log <= s'.log
    && s'.now == s.now + (if n <= 5 then 0 else n - 5) * LOCK_PERIOD
    && s'.users[id].failedLogins == n
    && s'.users[id].lockedUntil == (if n < 5 then None else Some(s'.now + LOCK_PERIOD))
    && var facts := s'.log[|s.log|..];
       WrongPasswords(facts, id) == n && Uncounted(facts, id) == 0 && NoneRight(facts, id)
  }

  lemma AddedFact(start: seq<Fact>, log: seq<Fact>, f: Fact, id: Id)
    requires start <= log && f.PasswordWrong? && f.user == id && f.counted && NoneRight(log[|start|..], id)
    ensures start <= log + [f]
    ensures WrongPasswords((log + [f])[|start|..], id) == WrongPasswords(log[|start|..], id) + 1
    ensures Uncounted((log + [f])[|start|..], id) == Uncounted(log[|start|..], id) && NoneRight((log + [f])[|start|..], id)
  {
    OneMoreCounted(log[|start|..], f, id);
    assert (log + [f])[|start|..] == log[|start|..] + [f];
  }

  lemma AttackOn(s: State, s': State, email: string, id: Id, n: nat, ready: State)
    requires Attacked(s, s', email, id, n)
    requires ready == if n < 5 then s' else s'.(now := s'.now + LOCK_PERIOD)
    ensures Attacked(s, Handle(ready, CountedGuess(email)).0, email, id, n + 1)
  {
    GuessStep(ready, email, id);
    AddedFact(s.log, s'.log, PasswordWrong(id, ready.now, true), id);
  }

  function Pause(n: nat): seq<Request> { if n <= 5 then [] else [Wait(LOCK_PERIOD)] }

  lemma Paused(s: State, before: seq<Request>, n: nat)
    ensures var s' := Continue(s, before);
            Continue(s, before + Pause(n)) == if n <= 5 then s' else s'.(now := s'.now + LOCK_PERIOD)
  {
    if n <= 5 {
      assert before + Pause(n) == before;
    } else {
      ContinueSnoc(s, before, Wait(LOCK_PERIOD));
    }
  }

  lemma {:induction false} AttackState(s: State, email: string, id: Id, n: nat)
    requires IsOnly(s, email, id) && s.users[id].failedLogins == 0 && s.users[id].lockedUntil.None?
    ensures Attacked(s, Continue(s, Attack(email, n)), email, id, n)
  {
    if n == 0 {
      NothingYet(s, email, id);
    } else {
      var before := Attack(email, n - 1);
      AttackState(s, email, id, n - 1);
      Paused(s, before, n);
      ContinueSnoc(s, before + Pause(n), CountedGuess(email));
      AttackOn(s, Continue(s, before), email, id, n - 1, Continue(s, before + Pause(n)));
    }
  }

  lemma NothingYet(s: State, email: string, id: Id)
    requires IsOnly(s, email, id) && s.users[id].failedLogins == 0 && s.users[id].lockedUntil.None?
    ensures Attacked(s, s, email, id, 0)
  {
    assert s.log[|s.log|..] == [];
  }

  lemma FirstUser(email: string) returns (run: seq<Request>)
    ensures var s := After(run); IsOnly(s, email, 0) && s.users[0].failedLogins == 0 && s.users[0].lockedUntil.None?
  {
    run := [Register(email, true, true)];
    ContinueSnoc(Empty, [], run[0]);
    assert [] + [run[0]] == run;
    assert UserByEmail(Empty.users, email).None?;
  }

  /** When nothing is lost the bound is attained, for every length of the span. */
  lemma BoundIsAttained(length: nat) returns (run: seq<Request>, more: seq<Request>, id: Id)
    ensures var s, s' := After(run), Continue(After(run), more);
            && s.log <= s'.log && s'.now - s.now == length
            && NoneRight(Span(s, more), id) && Uncounted(Span(s, more), id) == 0
            && WrongPasswords(Span(s, more), id) == 5 + length / LOCK_PERIOD
  {
    var email, n := "a", 5 + length / LOCK_PERIOD;
    run := FirstUser(email);
    id := 0;
    var s := After(run);
    var guesses := Attack(email, n);
    AttackState(s, email, id, n);
    more := guesses + [Wait(length % LOCK_PERIOD)];
    ContinueSnoc(s, guesses, Wait(length % LOCK_PERIOD));
    WholePeriods(length);
    AttackedSpan(s, Continue(s, guesses), email, id, n);
  }

  lemma WholePeriods(length: nat)
    ensures (length / LOCK_PERIOD) * LOCK_PERIOD + length % LOCK_PERIOD == length
  {
  }

  lemma AttackedSpan(s: State, s': State, email: string, id: Id, n: nat)
    requires Attacked(s, s', email, id, n) && n >= 5
    ensures s.log <= s'.log && s'.now == s.now + (n - 5) * LOCK_PERIOD
    ensures var facts := s'.log[|s.log|..];
            WrongPasswords(facts, id) == n && Uncounted(facts, id) == 0 && NoneRight(facts, id)
  {
  }
}
