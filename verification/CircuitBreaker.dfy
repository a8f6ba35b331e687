/** The gateway's circuit breaker. A call takes the lock twice, around its two updates, and runs
    its body in between without the lock, so calls overlap and complete in any order. A run is a
    log of locked sections and body starts; the breaker's fields are what replaying it gives. */
module CircuitBreaker {

  /** How long the breaker rejects after its latest failure, in nanoseconds. */
  const OPEN_PERIOD := 30_000_000_000

  datatype Status = Closed | Open | HalfOpen

  datatype Breaker = Breaker(failures: nat, threshold: int, status: Status, lastFailure: int)

  function Initial(threshold: int): Breaker { Breaker(0, threshold, Closed, 0) }

  /** The first locked section: an open breaker lets a call through only after OPEN_PERIOD. */
  function Enter(b: Breaker, now: int): (r: (Breaker, bool))
    ensures r.1 <==> !(b.status.Open? && now <= b.lastFailure + OPEN_PERIOD)
    ensures !r.1 ==> r.0 == b
    ensures r.0.failures == b.failures && r.0.lastFailure == b.lastFailure
  {
    if b.status.Open? then
      if now - b.lastFailure > OPEN_PERIOD then (b.(status := HalfOpen), true) else (b, false)
    else (b, true)
  }

  /** The second locked section: the outcome of the body is counted. */
  function Finish(b: Breaker, ok: bool, now: int): Breaker
  {
    if ok then b.(failures := 0, status := Closed)
    else
      var counted := b.(failures := b.failures + 1, lastFailure := now);
      if counted.failures >= counted.threshold then counted.(status := Open) else counted
  }

  /** The breaker object; each locked section of a call is one method. */
  class Guard {
    var failures: nat
    const threshold: int
    var status: Status
    var lastFailure: int

    ghost function View(): Breaker
      reads this
    {
      Breaker(failures, threshold, status, lastFailure)
    }

    constructor (threshold: int)
      ensures View() == Initial(threshold)
    {
      this.threshold := threshold;
      failures, status, lastFailure := 0, Closed, 0;
    }

    method Admit(now: int) returns (admitted: bool)
      modifies this
      ensures (View(), admitted) == Enter(old(View()), now)
    {
      if status == Open {
        if now - lastFailure > OPEN_PERIOD {
          status := HalfOpen;
        } else {
          return false;
        }
      }
      return true;
    }

    method Settle(ok: bool, now: int)
      modifies this
      ensures View() == Finish(old(View()), ok, now)
    {
      if !ok {
        failures := failures + 1;
        lastFailure := now;
        if failures >= threshold {
          status := Open;
        }
      } else {
        failures := 0;
        status := Closed;
      }
    }
  }

  // ----- runs -----

  datatype Event =
    | Admitted(call: nat, at: int)
    | Rejected(call: nat, at: int)
    | BodyStarted(call: nat, at: int)
    | Completed(call: nat, ok: bool, at: int)

  function Apply(b: Breaker, e: Event): Breaker
  {
    match e
    case Admitted(_, at) => Enter(b, at).0
    case Rejected(_, at) => Enter(b, at).0
    case BodyStarted(_, _) => b
    case Completed(_, ok, at) => Finish(b, ok, at)
  }

  /** The breaker after the events of a log. */
  function After(threshold: int, log: seq<Event>): Breaker
  {
    if log == [] then Initial(threshold)
    else Apply(After(threshold, log[..|log| - 1]), log[|log| - 1])
  }

  ghost predicate Seen(log: seq<Event>, e: Event -> bool) { exists i :: 0 <= i < |log| && e(log[i]) }

  /** Which event can come next: the clock never goes back, a call passes the first section once,
      runs its body only when admitted, and passes the second section once after its body began. */
  ghost predicate Enabled(threshold: int, log: seq<Event>, e: Event)
  {
    && (log != [] ==> log[|log| - 1].at <= e.at)
    && match e
       case Admitted(c, at) =>
         Enter(After(threshold, log), at).1 && !Seen(log, (x: Event) => x.call == c)
       case Rejected(c, at) =>
         !Enter(After(threshold, log), at).1 && !Seen(log, (x: Event) => x.call == c)
       case BodyStarted(c, _) =>
         && Seen(log, (x: Event) => x.Admitted? && x.call == c)
         && !Seen(log, (x: Event) => x.BodyStarted? && x.call == c)
       case Completed(c, _, _) =>
         && Seen(log, (x: Event) => x.BodyStarted? && x.call == c)
         && !Seen(log, (x: Event) => x.Completed? && x.call == c)
  }

  /** A run under any interleaving of any number of calls. */
  ghost predicate Run(threshold: int, log: seq<Event>)
  {
    forall k {:trigger Enabled(threshold, log[..k], log[k])} :: 0 <= k < |log| ==> Enabled(threshold, log[..k], log[k])
  }

  /** How many completions have failed since the last successful one, in completion order. */
  function TrailingFailures(log: seq<Event>): nat
  {
    if log == [] then 0
    else
      match log[|log| - 1]
      case Completed(_, ok, _) => if ok then 0 else TrailingFailures(log[..|log| - 1]) + 1
      case _ => TrailingFailures(log[..|log| - 1])
  }

  ghost predicate CountsTrailingFailures(threshold: int, log: seq<Event>)
  {
    && After(threshold, log).failures == TrailingFailures(log)
    && (After(threshold, log).status.Closed? <==> TrailingFailures(log) < threshold)
  }

  lemma {:induction false} ReplayCounts(threshold: int, log: seq<Event>)
    requires threshold >= 1
    ensures After(threshold, log).threshold == threshold
    ensures CountsTrailingFailures(threshold, log)
  {
    if log != [] {
      ReplayCounts(threshold, log[..|log| - 1]);
    }
  }

  /** The breaker counts the trailing failures, and is closed exactly below its threshold, on every
      run, precisely for thresholds of at least one. */
  lemma CountingIsExact(threshold: int)
    ensures (forall log :: Run(threshold, log) ==> CountsTrailingFailures(threshold, log)) <==> threshold >= 1
  {
    if threshold >= 1 {
      forall log | Run(threshold, log)
        ensures CountsTrailingFailures(threshold, log)
      {
        ReplayCounts(threshold, log);
      }
    } else {
      assert Run(threshold, []) && !CountsTrailingFailures(threshold, []);
    }
  }

  /** One step of a run, without the bookkeeping of who is in which phase. */
  lemma RunStep(threshold: int, log: seq<Event>, k: nat)
    requires Run(threshold, log) && k < |log|
    ensures After(threshold, log[..k + 1]) == Apply(After(threshold, log[..k]), log[k])
    ensures k > 0 ==> log[k - 1].at <= log[k].at
    ensures log[k].Admitted? ==> Enter(After(threshold, log[..k]), log[k].at).1
    ensures log[k].Rejected? ==> !Enter(After(threshold, log[..k]), log[k].at).1
  {
    assert Enabled(threshold, log[..k], log[k]);
    assert log[..k + 1][..k] == log[..k];
  }

  /** A rejected call leaves no trace in the breaker. */
  lemma RejectionChangesNothing(threshold: int, log: seq<Event>, k: nat)
    requires Run(threshold, log) && k < |log| && log[k].Rejected?
    ensures After(threshold, log[..k + 1]) == After(threshold, log[..k])
  {
    RunStep(threshold, log, k);
  }

  /** The i-th event is a failing completion, and with it the trailing failures have reached the
      threshold. */
  ghost predicate Opens(threshold: int, log: seq<Event>, i: nat)
  {
    i < |log| && log[i].Completed? && !log[i].ok && TrailingFailures(log[..i + 1]) >= threshold
  }

  /** Every failing completion at or above the threshold leaves the breaker open, whether it was closed,
      open or half-open before, and remembers its time; so a failed probe opens it again. */
  lemma FailureAtThresholdOpens(threshold: int, log: seq<Event>, i: nat)
    requires threshold >= 1 && Run(threshold, log) && Opens(threshold, log, i)
    ensures After(threshold, log[..i + 1]).status.Open?
    ensures After(threshold, log[..i + 1]).lastFailure == log[i].at
  {
    RunStep(threshold, log, i);
    ReplayCounts(threshold, log[..i]);
    ReplayCounts(threshold, log[..i + 1]);
  }

  /** A call that arrives while the breaker is open and more than 30 s after its latest failure is let
      through, so the breaker does not stay open for good. */
  lemma AdmittedAfterThePeriod(threshold: int, log: seq<Event>, i: nat, c: nat, at: int)
    requires threshold >= 1 && Run(threshold, log) && Opens(threshold, log, i) && i == |log| - 1
    requires !Seen(log, (x: Event) => x.call == c) && at >= log[i].at
    ensures Run(threshold, log + [Admitted(c, at)]) <==> at > log[i].at + 30_000_000_000
  {
    FailureAtThresholdOpens(threshold, log, i);
    var all := log + [Admitted(c, at)];
    assert log[..i + 1] == log && all[..|log|] == log;
    if at > log[i].at + 30_000_000_000 {
      forall k | 0 <= k < |all|
        ensures Enabled(threshold, all[..k], all[k])
      {
        if k < |log| {
          assert all[..k] == log[..k] && Enabled(threshold, log[..k], log[k]);
        }
      }
    } else {
      assert !Enabled(threshold, all[..|log|], all[|log|]);
    }
  }

  ghost predicate SuccessBetween(log: seq<Event>, i: nat, j: nat)
    requires j <= |log|
  {
    exists m :: i < m < j && log[m].Completed? && log[m].ok
  }

  /** Between a failure at or above the threshold and the next success, the breaker stays open at least
      until the period has passed. */
  lemma {:induction false} StaysOpen(threshold: int, log: seq<Event>, i: nat, k: nat)
    requires threshold >= 1 && Run(threshold, log) && i < k <= |log|
    requires Opens(threshold, log, i)
    requires !SuccessBetween(log, i, k)
    ensures log[k - 1].at >= log[i].at
    ensures var b := After(threshold, log[..k]);
            || log[k - 1].at > log[i].at + OPEN_PERIOD
            || (b.status.Open? && b.lastFailure >= log[i].at)
  {
    RunStep(threshold, log, k - 1);
    if k == i + 1 {
      FailureAtThresholdOpens(threshold, log, i);
    } else {
      StaysOpen(threshold, log, i, k - 1);
      if log[k - 1].Completed? {
        assert !log[k - 1].ok;
        ReplayCounts(threshold, log[..k]);
        ReplayCounts(threshold, log[..k - 1]);
      }
    }
  }

  /** After a failing completion at time t with which the trailing failures reach the threshold, no call is
      admitted up to t + 30 s, in nanoseconds, unless a call succeeds in between. */
  lemma NoAdmissionWhileOpen(threshold: int, log: seq<Event>, i: nat, j: nat)
    requires threshold >= 1 && Run(threshold, log) && i < j < |log|
    requires Opens(threshold, log, i)
    requires log[j].Admitted? && !SuccessBetween(log, i, j)
    ensures log[j].at > log[i].at + 30_000_000_000
  {
    StaysOpen(threshold, log, i, j);
    RunStep(threshold, log, j);
  }

  /** A body that starts within the period belongs to a call admitted before the failure. */
  lemma LateBodyWasAdmittedEarlier(threshold: int, log: seq<Event>, i: nat, j: nat)
    requires threshold >= 1 && Run(threshold, log) && i < j < |log|
    requires Opens(threshold, log, i)
    requires log[j].BodyStarted? && log[j].at <= log[i].at + OPEN_PERIOD && !SuccessBetween(log, i, j)
    ensures exists m :: 0 <= m < i && log[m].Admitted? && log[m].call == log[j].call
  {
    assert Enabled(threshold, log[..j], log[j]);
    var m :| 0 <= m < j && log[..j][m].Admitted? && log[..j][m].call == log[j].call;
    if m > i {
      NoAdmissionWhileOpen(threshold, log, i, m);
      ClockMonotone(threshold, log, m, j);
    }
    assert m != i;
  }

  lemma {:induction false} ClockMonotone(threshold: int, log: seq<Event>, i: nat, j: nat)
    requires Run(threshold, log) && i <= j < |log|
    ensures log[i].at <= log[j].at
    decreases j - i
  {
    if i < j {
      ClockMonotone(threshold, log, i, j - 1);
      RunStep(threshold, log, j);
    }
  }

  /** A log ends with a failure at or above the threshold. */
  ghost predicate JustOpened(threshold: int, log: seq<Event>) { log != [] && Opens(threshold, log, |log| - 1) }

  /** Call c has been let through and has not begun its body. */
  ghost predicate IsPoised(log: seq<Event>, c: nat)
  {
    Seen(log, (x: Event) => x.Admitted? && x.call == c) && !Seen(log, (x: Event) => x.BodyStarted? && x.call == c)
  }

  /** After the first n events a body starts, with no success since, within the period of the n-th. */
  ghost predicate LateBody(log: seq<Event>, n: nat, j: nat)
  {
    && 0 < n <= j < |log| && log[j].BodyStarted? && log[j].at <= log[n - 1].at + OPEN_PERIOD
    && !SuccessBetween(log, n - 1, j)
  }

  lemma LateBodyWasPoised(threshold: int, log: seq<Event>, more: seq<Event>, j: nat)
    requires threshold >= 1 && Run(threshold, log + more) && JustOpened(threshold, log) && LateBody(log + more, |log|, j)
    ensures IsPoised(log, (log + more)[j].call)
  {
    var all, i, c := log + more, |log| - 1, (log + more)[j].call;
    assert all[..i + 1] == log == log[..i + 1];
    LateBodyWasAdmittedEarlier(threshold, all, i, j);
    var m :| 0 <= m < i && all[m].Admitted? && all[m].call == c;
    assert log[m] == all[m];
    assert Enabled(threshold, all[..j], all[j]);
    assert forall k :: 0 <= k < |log| ==> all[..j][k] == log[k];
  }

  lemma PoisedBodyCanStart(threshold: int, log: seq<Event>, c: nat)
    requires Run(threshold, log) && JustOpened(threshold, log) && IsPoised(log, c)
    ensures var more := [BodyStarted(c, log[|log| - 1].at)];
            Run(threshold, log + more) && LateBody(log + more, |log|, |log|)
  {
    var start := BodyStarted(c, log[|log| - 1].at);
    var all := log + [start];
    assert all[..|log|] == log;
    forall k | 0 <= k < |all|
      ensures Enabled(threshold, all[..k], all[k])
    {
      if k < |log| {
        assert all[..k] == log[..k];
        assert Enabled(threshold, log[..k], log[k]);
      }
    }
  }

  /** After a failure at or above the threshold, no body starts within the period without a success
      in between, on any continuation, if and only if no call that was let through has yet to begin its
      body. */
  lemma BodiesKeepOutExactly(threshold: int, log: seq<Event>)
    requires threshold >= 1 && Run(threshold, log) && JustOpened(threshold, log)
    ensures (forall more, j {:trigger LateBody(log + more, |log|, j)} :: Run(threshold, log + more) ==> !LateBody(log + more, |log|, j))
       <==> forall c :: !IsPoised(log, c)
  {
    if c :| IsPoised(log, c) {
      PoisedBodyCanStart(threshold, log, c);
      assert LateBody(log + [BodyStarted(c, log[|log| - 1].at)], |log|, |log|);
    } else {
      forall more, j | Run(threshold, log + more)
        ensures !LateBody(log + more, |log|, j)
      {
        if LateBody(log + more, |log|, j) {
          LateBodyWasPoised(threshold, log, more, j);
        }
      }
    }
  }

  /** The bound is about admissions and not about body starts: a call admitted beforehand may begin
      its body while the breaker is open. */
  lemma BodyMayStartWhileOpen()
    ensures exists log ::
              && Run(1, log) && |log| == 5
              && log[3] == Completed(0, false, 0) && Opens(1, log, 3)
              && log[4] == BodyStarted(1, 0) && !SuccessBetween(log, 3, 4)
  {
    var log := [Admitted(0, 0), Admitted(1, 0), BodyStarted(0, 0), Completed(0, false, 0), BodyStarted(1, 0)];
    assert log[..0] == [];
    assert log[..1] == [log[0]];
    assert log[..2] == [log[0], log[1]];
    assert log[..3] == [log[0], log[1], log[2]];
    assert log[..4] == [log[0], log[1], log[2], log[3]];
    assert log[..1][..0] == log[..0];
    assert log[..2][..1] == log[..1];
    assert log[..3][..2] == log[..2];
    assert log[..4][..3] == log[..3];
    assert After(1, log[..0]) == Initial(1);
    assert After(1, log[..1]) == Initial(1);
    assert After(1, log[..2]) == Initial(1);
    assert After(1, log[..3]) == Initial(1);
    assert TrailingFailures(log[..4]) == 1 + TrailingFailures(log[..3]);
    assert log[..2][0] == Admitted(0, 0);
    assert log[..3][2] == BodyStarted(0, 0);
    assert log[..4][1] == Admitted(1, 0);
    assert Run(1, log);
  }
}
