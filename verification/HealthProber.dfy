/** The gateway's background health prober and its shutdown. One prober goroutine sweeps all
    upstreams, one probe goroutine per upstream, and joins them; any number of Stop callers go
    through one sync.Once whose body closes the stop channel and waits for the prober. Every
    action below is one atomic step, and a run is any sequence of enabled actions. */
module HealthProber {

  datatype ProbePhase = Probing | Probed(healthy: bool) | Written | Finished

  datatype ProberPhase =
    | AboutToSweep
    | Sweeping(probes: map<string, ProbePhase>)
    | Selecting
    | Exited

  datatype Once = Unused | Held(holder: nat) | Spent

  datatype StopPhase = AtOnce | Closing | Waiting | Returned

  /** What can be observed from outside, in order. */
  datatype Observation = Wrote(sweep: nat, upstream: string, healthy: bool) | StopReturned(caller: nat)

  datatype State = State(
    upstreams: set<string>,
    healthy: map<string, bool>,
    prober: ProberPhase,
    waitGroup: int,
    once: Once,
    closes: nat,
    callers: map<nat, StopPhase>,
    sweeps: nat,
    results: map<(nat, string), bool>,
    log: seq<Observation>)

  /** The server as New leaves it: every upstream healthy, the prober launched and counted. */
  function Initial(upstreams: set<string>): State
  {
    State(upstreams, map u | u in upstreams :: true, AboutToSweep, 1, Unused, 0, map[], 0, map[], [])
  }

  datatype Action =
    | Snapshot
    | ProbeReturns(upstream: string, healthy: bool)
    | SetHealthy(upstream: string)
    | ProbeDone(upstream: string)
    | Join
    | Tick
    | SeeStop
    | CallStop(caller: nat)
    | TakeOnce(caller: nat)
    | CloseChannel(caller: nat)
    | WaitReturns(caller: nat)
    | SkipOnce(caller: nat)

  ghost predicate ProbeIs(s: State, u: string, phase: ProbePhase)
  {
    s.prober.Sweeping? && u in s.prober.probes && s.prober.probes[u] == phase
  }

  ghost predicate CallerIs(s: State, c: nat, phase: StopPhase) { c in s.callers && s.callers[c] == phase }

  ghost predicate Enabled(s: State, a: Action)
  {
    match a
    case Snapshot => s.prober.AboutToSweep?
    case ProbeReturns(u, _) => ProbeIs(s, u, Probing)
    case SetHealthy(u) => ProbeIs(s, u, Probed(true)) || ProbeIs(s, u, Probed(false))
    case ProbeDone(u) => ProbeIs(s, u, Written)
    case Join => s.prober.Sweeping? && forall u :: u in s.prober.probes ==> s.prober.probes[u] == Finished
    case Tick => s.prober.Selecting?
    case SeeStop => s.prober.Selecting? && s.closes > 0
    case CallStop(c) => c !in s.callers
    case TakeOnce(c) => CallerIs(s, c, AtOnce) && s.once.Unused?
    case CloseChannel(c) => CallerIs(s, c, Closing)
    case WaitReturns(c) => CallerIs(s, c, Waiting) && s.waitGroup == 0
    case SkipOnce(c) => CallerIs(s, c, AtOnce) && s.once.Spent?
  }

  ghost function SetProbe(s: State, u: string, phase: ProbePhase): State
    requires s.prober.Sweeping?
  {
    s.(prober := Sweeping(s.prober.probes[u := phase]))
  }

  ghost function Apply(s: State, a: Action): State
    requires Enabled(s, a)
  {
    match a
    case Snapshot => s.(prober := Sweeping(map u | u in s.upstreams :: Probing), sweeps := s.sweeps + 1)
    case ProbeReturns(u, r) => SetProbe(s, u, Probed(r)).(results := s.results[(s.sweeps, u) := r])
    case SetHealthy(u) =>
      var r := s.prober.probes[u].healthy;
      SetProbe(s, u, Written).(healthy := s.healthy[u := r], log := s.log + [Wrote(s.sweeps, u, r)])
    case ProbeDone(u) => SetProbe(s, u, Finished)
    case Join => s.(prober := Selecting)
    case Tick => s.(prober := AboutToSweep)
    case SeeStop => s.(prober := Exited, waitGroup := s.waitGroup - 1)
    case CallStop(c) => s.(callers := s.callers[c := AtOnce])
    case TakeOnce(c) => s.(once := Held(c), callers := s.callers[c := Closing])
    case CloseChannel(c) => s.(closes := s.closes + 1, callers := s.callers[c := Waiting])
    case WaitReturns(c) =>
      s.(once := Spent, callers := s.callers[c := Returned], log := s.log + [StopReturned(c)])
    case SkipOnce(c) => s.(callers := s.callers[c := Returned], log := s.log + [StopReturned(c)])
  }

  ghost predicate Leads(before: State, a: Action, s: State) { Enabled(before, a) && s == Apply(before, a) }

  function Last(trace: seq<Action>): Action
    requires trace != []
  {
    trace[|trace| - 1]
  }

  /** s is reached from a fresh server by some interleaving. */
  ghost predicate Reaches(upstreams: set<string>, trace: seq<Action>, s: State)
  {
    if trace == [] then s == Initial(upstreams)
    else
      exists before ::
        Leads(before, Last(trace), s) && Reaches(upstreams, trace[..|trace| - 1], before)
  }

  function WriteCount(log: seq<Observation>, sweep: nat, u: string): nat
  {
    if log == [] then 0
    else
      var last := log[|log| - 1];
      WriteCount(log[..|log| - 1], sweep, u)
      + (if last.Wrote? && last.sweep == sweep && last.upstream == u then 1 else 0)
  }

  // ----- the invariant -----

  /** The once, its holder, the channel and the wait group move together. */
  ghost predicate ShutdownInv(s: State)
  {
    && s.waitGroup == (if s.prober.Exited? then 0 else 1)
    && (forall c :: c in s.callers && (s.callers[c].Closing? || s.callers[c].Waiting?) ==> s.once == Held(c))
    && (s.once.Held? ==> CallerIs(s, s.once.holder, Closing) || CallerIs(s, s.once.holder, Waiting))
    && (forall c :: c in s.callers && s.callers[c].Returned? ==> s.once.Spent?)
    && s.closes == (if s.once.Unused? || (s.once.Held? && CallerIs(s, s.once.holder, Closing)) then 0 else 1)
    && (s.once.Spent? ==> s.prober.Exited?)
    && (s.prober.Exited? ==> s.closes == 1)
  }

  predicate WrittenPhase(p: ProbePhase) { p.Written? || p.Finished? }

  /** In sweep n, upstream u has been written, once. */
  ghost predicate IsWritten(s: State, n: nat, u: string)
  {
    && u in s.upstreams
    && 1 <= n <= s.sweeps
    && (n == s.sweeps && s.prober.Sweeping? ==> u in s.prober.probes && WrittenPhase(s.prober.probes[u]))
  }

  ghost predicate SweepInv(s: State)
  {
    && (s.prober.Sweeping? ==>
          && s.sweeps >= 1 && s.prober.probes.Keys == s.upstreams
          && forall u :: u in s.upstreams && !s.prober.probes[u].Probing? ==>
               (s.sweeps, u) in s.results
               && (s.prober.probes[u].Probed? ==> s.prober.probes[u].healthy == s.results[(s.sweeps, u)]))
    && (s.prober.Selecting? || s.prober.Exited? ==> s.sweeps >= 1)
    && (forall n: nat, u :: WriteCount(s.log, n, u) == if IsWritten(s, n, u) then 1 else 0)
  }

  ghost predicate ValueInv(s: State)
  {
    && (forall n: nat, u :: IsWritten(s, n, u) ==> (n, u) in s.results)
    && (forall i :: 0 <= i < |s.log| && s.log[i].Wrote? ==>
          && IsWritten(s, s.log[i].sweep, s.log[i].upstream)
          && s.results[(s.log[i].sweep, s.log[i].upstream)] == s.log[i].healthy)
    && (forall u :: IsWritten(s, s.sweeps, u) ==> u in s.healthy && s.healthy[u] == s.results[(s.sweeps, u)])
  }

  /** Nothing is written once a Stop has returned. */
  ghost predicate QuietInv(s: State)
  {
    && (forall i :: 0 <= i < |s.log| && s.log[i].StopReturned? ==> s.once.Spent?)
    && (forall i, j :: 0 <= i < j < |s.log| && s.log[i].StopReturned? ==> s.log[j].StopReturned?)
  }

  lemma ShutdownStep(s: State, a: Action)
    requires Enabled(s, a) && ShutdownInv(s)
    ensures ShutdownInv(Apply(s, a))
  {
  }

  lemma QuietStep(s: State, a: Action)
    requires Enabled(s, a) && ShutdownInv(s) && QuietInv(s)
    ensures QuietInv(Apply(s, a))
  {
  }

  lemma SweepStep(s: State, a: Action)
    requires Enabled(s, a) && SweepInv(s)
    ensures SweepInv(Apply(s, a))
  {
    var t := Apply(s, a);
    forall n: nat, u
      ensures WriteCount(t.log, n, u) == if IsWritten(t, n, u) then 1 else 0
    {
      assert WriteCount(s.log, n, u) == if IsWritten(s, n, u) then 1 else 0;
      if |t.log| > |s.log| {
        assert t.log[..|s.log|] == s.log;
      }
    }
  }

  lemma ValueStep(s: State, a: Action)
    requires Enabled(s, a) && SweepInv(s) && ValueInv(s)
    ensures ValueInv(Apply(s, a))
  {
    match a
    case SetHealthy(u) =>
    case ProbeReturns(u, healthy) =>
    case Snapshot =>
    case _ =>
  }

  ghost predicate Inv(s: State) { ShutdownInv(s) && SweepInv(s) && ValueInv(s) && QuietInv(s) }

  lemma {:induction false} InvHolds(upstreams: set<string>, trace: seq<Action>, s: State)
    requires Reaches(upstreams, trace, s)
    ensures Inv(s) && s.upstreams == upstreams
    decreases |trace|
  {
    if trace != [] {
      var a := Last(trace);
      var before :| Reaches(upstreams, trace[..|trace| - 1], before) && Leads(before, a, s);
      InvHolds(upstreams, trace[..|trace| - 1], before);
      ShutdownStep(before, a);
      SweepStep(before, a);
      ValueStep(before, a);
      QuietStep(before, a);
    }
  }

  // ----- what every run guarantees -----

  /** The stop channel is never closed twice, and it has been closed once any Stop has returned. */
  lemma ClosedExactlyOnce(upstreams: set<string>, trace: seq<Action>, s: State)
    requires Reaches(upstreams, trace, s)
    ensures s.closes <= 1
    ensures (exists c :: CallerIs(s, c, Returned)) ==> s.closes == 1
  {
    InvHolds(upstreams, trace, s);
  }

  /** A Stop returns only after the prober has exited, which it does only after joining its probes;
      and nothing is written after any Stop has returned. */
  lemma StopIsFinal(upstreams: set<string>, trace: seq<Action>, s: State, c: nat)
    requires Reaches(upstreams, trace, s) && CallerIs(s, c, Returned)
    ensures s.prober.Exited? && s.waitGroup == 0
    ensures forall u :: !Enabled(s, SetHealthy(u))
    ensures forall i, j :: 0 <= i < j < |s.log| && s.log[i].StopReturned? ==> !s.log[j].Wrote?
  {
    InvHolds(upstreams, trace, s);
  }

  /** Every finished sweep wrote every upstream exactly once, with that upstream's own result of
      that sweep, and the flags then show the latest sweep. */
  lemma SweepsAreExact(upstreams: set<string>, trace: seq<Action>, s: State, n: nat, u: string)
    requires Reaches(upstreams, trace, s) && 1 <= n <= s.sweeps && u in upstreams
    requires n == s.sweeps ==> !s.prober.Sweeping?
    ensures WriteCount(s.log, n, u) == 1
    ensures (n, u) in s.results
    ensures forall i :: 0 <= i < |s.log| && s.log[i].Wrote? && s.log[i].sweep == n && s.log[i].upstream == u ==>
              s.log[i].healthy == s.results[(n, u)]
    ensures n == s.sweeps ==> u in s.healthy && s.healthy[u] == s.results[(n, u)]
  {
    InvHolds(upstreams, trace, s);
    assert IsWritten(s, n, u);
  }

  // ----- where the results and the flags come from -----

  /** How many sweeps a trace has begun. */
  function Sweeps(trace: seq<Action>): nat
  {
    if trace == [] then 0 else Sweeps(trace[..|trace| - 1]) + (if Last(trace).Snapshot? then 1 else 0)
  }

  /** At step i of the trace the probe of u, in sweep n, came back with this result. */
  predicate CameBack(trace: seq<Action>, i: int, n: nat, u: string, healthy: bool)
  {
    0 <= i < |trace| && trace[i] == ProbeReturns(u, healthy) && Sweeps(trace[..i]) == n
  }

  ghost predicate ResultsCameBack(trace: seq<Action>, s: State)
  {
    && s.sweeps == Sweeps(trace)
    && forall n: nat, u :: (n, u) in s.results ==> exists i :: CameBack(trace, i, n, u, s.results[(n, u)])
  }

  lemma ResultsStep(earlier: seq<Action>, before: State, trace: seq<Action>, s: State)
    requires trace != [] && earlier == trace[..|trace| - 1] && ResultsCameBack(earlier, before) && Leads(before, Last(trace), s)
    ensures ResultsCameBack(trace, s)
  {
    forall n: nat, u | (n, u) in s.results
      ensures exists i :: CameBack(trace, i, n, u, s.results[(n, u)])
    {
      if Last(trace).ProbeReturns? && (n, u) == (before.sweeps, Last(trace).upstream) {
        assert CameBack(trace, |trace| - 1, n, u, s.results[(n, u)]);
      } else {
        var i :| CameBack(earlier, i, n, u, before.results[(n, u)]);
        assert earlier[..i] == trace[..i];
        assert CameBack(trace, i, n, u, s.results[(n, u)]);
      }
    }
  }

  lemma {:induction false} ResultsHold(upstreams: set<string>, trace: seq<Action>, s: State)
    requires Reaches(upstreams, trace, s)
    ensures ResultsCameBack(trace, s)
    decreases |trace|
  {
    if trace != [] {
      var last := |trace| - 1;
      var earlier := trace[..last];
      var before :| Reaches(upstreams, earlier, before) && Leads(before, Last(trace), s);
      ResultsHold(upstreams, earlier, before);
      ResultsStep(earlier, before, trace, s);
    }
  }

  /** Every write is what the probe of that upstream came back with in that very sweep. */
  lemma WritesAreProbed(upstreams: set<string>, trace: seq<Action>, s: State, k: nat)
    requires Reaches(upstreams, trace, s) && k < |s.log| && s.log[k].Wrote?
    ensures exists i :: CameBack(trace, i, s.log[k].sweep, s.log[k].upstream, s.log[k].healthy)
  {
    InvHolds(upstreams, trace, s);
    ResultsHold(upstreams, trace, s);
    assert (s.log[k].sweep, s.log[k].upstream) in s.results;
  }

  function LastWrite(log: seq<Observation>, u: string, initially: bool): bool
  {
    if log == [] then initially
    else
      var last := log[|log| - 1];
      if last.Wrote? && last.upstream == u then last.healthy else LastWrite(log[..|log| - 1], u, initially)
  }

  lemma LastWriteSnoc(log: seq<Observation>, o: Observation, u: string)
    ensures LastWrite(log + [o], u, true) == if o.Wrote? && o.upstream == u then o.healthy else LastWrite(log, u, true)
  {
    assert (log + [o])[..|log|] == log;
  }

  lemma FlagStep(s: State, a: Action, u: string)
    requires Enabled(s, a) && u in s.healthy && s.healthy[u] == LastWrite(s.log, u, true)
    ensures var t := Apply(s, a); u in t.healthy && t.healthy[u] == LastWrite(t.log, u, true)
  {
    match a
    case SetHealthy(v) => LastWriteSnoc(s.log, Wrote(s.sweeps, v, s.prober.probes[v].healthy), u);
    case WaitReturns(c) => LastWriteSnoc(s.log, StopReturned(c), u);
    case SkipOnce(c) => LastWriteSnoc(s.log, StopReturned(c), u);
    case _ =>
  }

  /** At every moment, in the middle of a sweep too, an upstream's flag is its last write; it is up until
      there is one. */
  lemma {:induction false} FlagIsLastWrite(upstreams: set<string>, trace: seq<Action>, s: State, u: string)
    requires Reaches(upstreams, trace, s) && u in upstreams
    ensures u in s.healthy && s.healthy[u] == LastWrite(s.log, u, true)
    decreases |trace|
  {
    if trace != [] {
      var before :| Reaches(upstreams, trace[..|trace| - 1], before) && Leads(before, Last(trace), s);
      FlagIsLastWrite(upstreams, trace[..|trace| - 1], before, u);
      FlagStep(before, Last(trace), u);
    }
  }

  /** A pending Stop is never stuck: some step other than a tick or a new Stop call is possible. */
  lemma StopIsNeverStuck(upstreams: set<string>, trace: seq<Action>, s: State, c: nat)
    requires Reaches(upstreams, trace, s) && c in s.callers && !s.callers[c].Returned?
    ensures exists a :: Enabled(s, a) && IsShutdown(a)
  {
    InvHolds(upstreams, trace, s);
    if s.once.Unused? {
      assert s.callers[c].AtOnce?;
      assert Enabled(s, TakeOnce(c));
    } else if s.once.Spent? {
      assert s.callers[c].AtOnce?;
      assert Enabled(s, SkipOnce(c));
    } else if CallerIs(s, s.once.holder, Closing) {
      assert Enabled(s, CloseChannel(s.once.holder));
    } else {
      match s.prober
      case AboutToSweep => assert Enabled(s, Snapshot);
      case Selecting => assert Enabled(s, SeeStop);
      case Exited => assert Enabled(s, WaitReturns(s.once.holder));
      case Sweeping(probes) =>
        if u :| u in probes && probes[u] != Finished {
          match probes[u]
          case Probing => assert Enabled(s, ProbeReturns(u, true));
          case Probed(r) => assert Enabled(s, SetHealthy(u));
          case Written => assert Enabled(s, ProbeDone(u));
        } else {
          assert Enabled(s, Join);
        }
    }
  }

  // ----- how long a Stop can take -----

  /** A step that is neither a tick nor a new Stop call. */
  predicate IsShutdown(a: Action) { !a.Tick? && !a.CallStop? }

  function Before(probes: map<string, ProbePhase>, late: ProbePhase -> bool): set<string>
  {
    set u | u in probes && !late(probes[u])
  }

  function CallersBefore(callers: map<nat, StopPhase>, late: StopPhase -> bool): set<nat>
  {
    set c | c in callers && !late(callers[c])
  }

  /** The phases the current sweep still has to go through, and the prober after it. */
  function ProberMeasure(s: State): nat
  {
    match s.prober
    case AboutToSweep => 3 * |s.upstreams| + 3
    case Sweeping(probes) =>
      2 + |Before(probes, (p: ProbePhase) => !p.Probing?)| + |Before(probes, (p: ProbePhase) => WrittenPhase(p))|
      + |Before(probes, (p: ProbePhase) => p.Finished?)|
    case Selecting => 1
    case Exited => 0
  }

  /** The phases the Stop callers still have to go through. */
  function CallerMeasure(s: State): nat
  {
    |CallersBefore(s.callers, (p: StopPhase) => !p.AtOnce?)| + |CallersBefore(s.callers, (p: StopPhase) => p.Waiting? || p.Returned?)|
    + |CallersBefore(s.callers, (p: StopPhase) => p.Returned?)|
  }

  function Measure(s: State): nat { ProberMeasure(s) + CallerMeasure(s) }

  lemma ProbeMoves(probes: map<string, ProbePhase>, u: string, phase: ProbePhase, late: ProbePhase -> bool)
    requires u in probes && (late(probes[u]) ==> late(phase))
    ensures var now, next := |Before(probes, late)|, |Before(probes[u := phase], late)|;
            next == if late(phase) && !late(probes[u]) then now - 1 else now
  {
    var now, next := Before(probes, late), Before(probes[u := phase], late);
    if late(phase) && !late(probes[u]) {
      assert next == now - {u};
    } else {
      assert next == now;
    }
  }

  lemma CallerMoves(callers: map<nat, StopPhase>, c: nat, phase: StopPhase, late: StopPhase -> bool)
    requires c in callers && (late(callers[c]) ==> late(phase))
    ensures var now, next := |CallersBefore(callers, late)|, |CallersBefore(callers[c := phase], late)|;
            next == if late(phase) && !late(callers[c]) then now - 1 else now
  {
    var now, next := CallersBefore(callers, late), CallersBefore(callers[c := phase], late);
    if late(phase) && !late(callers[c]) {
      assert next == now - {c};
    } else {
      assert next == now;
    }
  }

  lemma ProbeDecreases(s: State, u: string, phase: ProbePhase)
    requires s.prober.Sweeping? && u in s.prober.probes
    requires match s.prober.probes[u]
             case Probing => phase.Probed?
             case Probed(_) => phase.Written?
             case Written => phase.Finished?
             case Finished => false
    ensures ProberMeasure(SetProbe(s, u, phase)) == ProberMeasure(s) - 1
  {
    var probes := s.prober.probes;
    ProbeMoves(probes, u, phase, (p: ProbePhase) => !p.Probing?);
    ProbeMoves(probes, u, phase, (p: ProbePhase) => WrittenPhase(p));
    ProbeMoves(probes, u, phase, (p: ProbePhase) => p.Finished?);
  }

  lemma CallerDecreases(s: State, c: nat, phase: StopPhase)
    requires c in s.callers
    requires match s.callers[c]
             case AtOnce => phase.Closing? || phase.Returned?
             case Closing => phase.Waiting?
             case Waiting => phase.Returned?
             case Returned => false
    ensures CallerMeasure(s.(callers := s.callers[c := phase])) < CallerMeasure(s)
  {
    CallerMoves(s.callers, c, phase, (p: StopPhase) => !p.AtOnce?);
    CallerMoves(s.callers, c, phase, (p: StopPhase) => p.Waiting? || p.Returned?);
    CallerMoves(s.callers, c, phase, (p: StopPhase) => p.Returned?);
  }

  lemma ProberDecreases(s: State, a: Action)
    requires Enabled(s, a) && (a.Snapshot? || a.Join? || a.SeeStop?)
    ensures Measure(Apply(s, a)) < Measure(s)
  {
    var t := Apply(s, a);
    assert CallerMeasure(t) == CallerMeasure(s);
    if a.Snapshot? {
      assert Before(t.prober.probes, (p: ProbePhase) => !p.Probing?) == s.upstreams;
      assert Before(t.prober.probes, (p: ProbePhase) => WrittenPhase(p)) == s.upstreams;
      assert Before(t.prober.probes, (p: ProbePhase) => p.Finished?) == s.upstreams;
    }
  }

  /** Every shutdown step uses up one of finitely many phases. */
  lemma ShutdownDecreases(s: State, a: Action)
    requires Enabled(s, a) && IsShutdown(a)
    ensures Measure(Apply(s, a)) < Measure(s)
  {
    match a
    case ProbeReturns(u, r) => ProbeDecreases(s, u, Probed(r));
    case SetHealthy(u) => ProbeDecreases(s, u, Written);
    case ProbeDone(u) => ProbeDecreases(s, u, Finished);
    case TakeOnce(c) => CallerDecreases(s, c, Closing);
    case CloseChannel(c) => CallerDecreases(s, c, Waiting);
    case WaitReturns(c) => CallerDecreases(s, c, Returned);
    case SkipOnce(c) => CallerDecreases(s, c, Returned);
    case _ => ProberDecreases(s, a);
  }

  /** t is reached from s by these steps, none of them a tick or a new Stop call. */
  ghost predicate ShutdownRun(s: State, run: seq<Action>, t: State)
    decreases |run|
  {
    if run == [] then s == t
    else Enabled(s, run[0]) && IsShutdown(run[0]) && ShutdownRun(Apply(s, run[0]), run[1..], t)
  }

  lemma ReachesOneMore(upstreams: set<string>, trace: seq<Action>, s: State, a: Action)
    requires Reaches(upstreams, trace, s) && Enabled(s, a)
    ensures Reaches(upstreams, trace + [a], Apply(s, a))
  {
    var more := trace + [a];
    assert more[..|more| - 1] == trace && Last(more) == a;
    assert Leads(s, a, Apply(s, a));
  }

  lemma Regroup(trace: seq<Action>, run: seq<Action>)
    requires run != []
    ensures (trace + [run[0]]) + run[1..] == trace + run
  {
  }

  lemma {:induction false} ShutdownRunReaches(upstreams: set<string>, trace: seq<Action>, s: State, run: seq<Action>, t: State)
    requires Reaches(upstreams, trace, s) && ShutdownRun(s, run, t)
    ensures Reaches(upstreams, trace + run, t)
    decreases |run|
  {
    if run == [] {
      assert trace + run == trace;
    } else {
      var a := run[0];
      Regroup(trace, run);
      ReachesOneMore(upstreams, trace, s, a);
      ShutdownRunReaches(upstreams, trace + [a], Apply(s, a), run[1..], t);
    }
  }

  lemma {:induction false} ShutdownRunShrinks(s: State, run: seq<Action>, t: State)
    requires ShutdownRun(s, run, t)
    ensures |run| + Measure(t) <= Measure(s)
    decreases |run|
  {
    if run != [] {
      ShutdownDecreases(s, run[0]);
      ShutdownRunShrinks(Apply(s, run[0]), run[1..], t);
    }
  }

  /** From any reachable state at most Measure shutdown steps can be taken, however they interleave, and
      when no more can be taken every Stop has returned. */
  lemma EveryStopReturns(upstreams: set<string>, trace: seq<Action>, s: State, run: seq<Action>, t: State)
    requires Reaches(upstreams, trace, s) && ShutdownRun(s, run, t)
    ensures |run| <= Measure(s)
    ensures (forall a :: IsShutdown(a) ==> !Enabled(t, a)) ==> forall c :: c in t.callers ==> t.callers[c].Returned?
  {
    ShutdownRunReaches(upstreams, trace, s, run, t);
    ShutdownRunShrinks(s, run, t);
    if c :| c in t.callers && !t.callers[c].Returned? {
      StopIsNeverStuck(upstreams, trace + run, t, c);
    }
  }
}
