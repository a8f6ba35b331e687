/** What holds of the bridge table in every state that requests and the runtime can reach together. */
module BridgeSafety {
  import opened Text
  import opened BridgeProtocol

  /** A status this container has truly had; "inactive" also stands for a container nobody can see. */
  predicate Real(was: set<(string, RunState)>, container: string, status: string)
  {
    || status == INACTIVE
    || (status == ACTIVE && (container, Running) in was)
    || (status == ERROR && (container, Dead) in was)
  }

  /** What any step leaves true: the past stays, ids are not reused, and a bridge keeps its container. */
  predicate Later(s: State, t: State)
  {
    && s.was <= t.was && s.used <= t.used
    && forall id :: id in t.rows && id in s.used ==> id in s.rows && t.rows[id].container == s.rows[id].container
  }

  predicate IsOf(s: State, id: Id, row: Row)
  {
    id in s.used && (id in s.rows ==> s.rows[id].container == row.container)
  }

  predicate JobHolds(s: State, job: Job)
  {
    match job
    case Inserting(_, container, state) => (container, state) in s.was
    case Reconciling(id, row) => IsOf(s, id, row)
    case Correcting(id, row, status) => IsOf(s, id, row) && Real(s.was, row.container, status)
    case Checking(id, row, _) => IsOf(s, id, row)
    case Editing(id, _, status) => id in s.used && (id in s.rows ==> Real(s.was, s.rows[id].container, status))
    case _ => true
  }

  predicate Inv(s: State)
  {
    && (forall container :: container in s.actual ==> (container, s.actual[container]) in s.was)
    && (forall id :: id in s.rows ==> id in s.used && Real(s.was, s.rows[id].container, s.rows[id].status))
    && (forall r :: r in s.pending ==> JobHolds(s, s.pending[r]))
  }

  lemma ObservedIsReal(s: State, container: string, reachable: bool)
    requires Inv(s)
    ensures Real(s.was, container, Corrected(Observe(s, container, reachable)))
  {
  }

  lemma JobStays(s: State, t: State, job: Job)
    requires JobHolds(s, job) && Later(s, t)
    ensures JobHolds(t, job)
  {
  }

  lemma WriteIsLater(s: State, r: Id, newId: Id, ok: bool)
    requires Inv(s)
    ensures Later(s, DoWrite(s, r, newId, ok))
  {
  }

  lemma StepIsLater(s: State, a: Action)
    requires Inv(s)
    ensures Later(s, Next(s, a))
  {
    match a
    case Write(r, newId, ok) => WriteIsLater(s, r, newId, ok);
    case _ =>
  }

  lemma WriteKeepsRows(s: State, r: Id, newId: Id, ok: bool)
    requires Inv(s)
    ensures var t := DoWrite(s, r, newId, ok);
            forall id :: id in t.rows ==> id in t.used && Real(t.was, t.rows[id].container, t.rows[id].status)
  {
  }

  lemma LookHolds(s: State, r: Id, reachable: bool)
    requires Inv(s)
    ensures var t := DoLook(s, r, reachable); r in t.pending ==> JobHolds(t, t.pending[r])
  {
    if r in s.pending && Looks(s.pending[r]) {
      ObservedIsReal(s, Subject(s.pending[r]), reachable);
    }
  }

  lemma NewJobHolds(s: State, a: Action, r: Id)
    requires Inv(s) && r in Next(s, a).pending && (r !in s.pending || Next(s, a).pending[r] != s.pending[r])
    ensures JobHolds(Next(s, a), Next(s, a).pending[r])
  {
    match a
    case Look(_, reachable) => LookHolds(s, r, reachable);
    case Update(_, id, edit, available) =>
    case Tell(_, ok) =>
    case _ =>
  }

  lemma StepKeepsInv(s: State, a: Action)
    requires Inv(s)
    ensures Inv(Next(s, a))
  {
    var t := Next(s, a);
    StepIsLater(s, a);
    forall r | r in t.pending
      ensures JobHolds(t, t.pending[r])
    {
      if r in s.pending && t.pending[r] == s.pending[r] {
        JobStays(s, t, s.pending[r]);
      } else {
        NewJobHolds(s, a, r);
      }
    }
    if a.Write? {
      WriteKeepsRows(s, a.r, a.newId, a.ok);
    }
  }

  /** Every finite sequence of steps, of any requests and of the runtime, keeps the invariant and lets no
      bridge change its container and no id come back. */
  lemma {:induction false} RunsKeepInv(s: State, run: seq<Action>)
    requires Inv(s)
    ensures Inv(Continue(s, run)) && Later(s, Continue(s, run))
    decreases |run|
  {
    if run != [] {
      StepKeepsInv(s, run[0]);
      StepIsLater(s, run[0]);
      RunsKeepInv(Next(s, run[0]), run[1..]);
    }
  }

  /** The runtime had this container in this state at some time of the run. */
  predicate HadState(run: seq<Action>, container: string, state: RunState)
  {
    exists i :: 0 <= i < |run| && run[i].Runtime? && container in run[i].actual && run[i].actual[container] == state
  }

  lemma {:induction false} WasIsHistory(s: State, run: seq<Action>, container: string, state: RunState)
    ensures (container, state) in Continue(s, run).was <==> (container, state) in s.was || HadState(run, container, state)
    decreases |run|
  {
    if run != [] {
      WasIsHistory(Next(s, run[0]), run[1..], container, state);
      assert forall i :: 1 <= i < |run| ==> run[i] == run[1..][i - 1];
      assert forall i :: 0 <= i < |run[1..]| ==> run[1..][i] == run[i + 1];
      assert (container, state) in Next(s, run[0]).was <==>
             (container, state) in s.was || HadState([run[0]], container, state) by {
        assert [run[0]][0] == run[0];
      }
    }
  }

  /** No status is made up: in every reachable state a row says "active" only if the runtime had its
      container running at some time, and "error" only if it had it dead. */
  lemma StatusesAreReal(run: seq<Action>, id: Id)
    requires id in Continue(Empty, run).rows
    ensures var row := Continue(Empty, run).rows[id];
            && (row.status == ACTIVE ==> HadState(run, row.container, Running))
            && (row.status == ERROR ==> HadState(run, row.container, Dead))
            && (row.status == ACTIVE || row.status == ERROR || row.status == INACTIVE)
  {
    RunsKeepInv(Empty, run);
    var row := Continue(Empty, run).rows[id];
    WasIsHistory(Empty, run, row.container, Running);
    WasIsHistory(Empty, run, row.container, Dead);
  }

  /** Over any further run a bridge that is still there has the container it had, and one that is gone
      never comes back. */
  lemma BridgesKeepTheirContainer(run: seq<Action>, more: seq<Action>, id: Id)
    requires id in Continue(Empty, run + more).rows && id in Continue(Empty, run).used
    ensures id in Continue(Empty, run).rows
    ensures Continue(Empty, run + more).rows[id].container == Continue(Empty, run).rows[id].container
  {
    ContinueConcat(Empty, run, more);
    RunsKeepInv(Empty, run);
    RunsKeepInv(Continue(Empty, run), more);
  }

  // ----- a correction against a concurrent edit -----

  /** The state just before the correction of a read: what `before` and `between` do lies around its
      observation. */
  function BeforeCorrection(s: State, r: Id, id: Id, available: bool, before: seq<Action>, reachable: bool,
                            between: seq<Action>): State
  {
    Continue(Next(Continue(Next(s, Get(r, id, available)), before), Look(r, reachable)), between)
  }

  /** The correction writes back the name, image and ports that the read saw, and so undoes an edit,
      exactly when the read observed a status other than the stored one and the row's editable columns
      have changed since it was read. */
  lemma CorrectionRevertsExactly(s: State, r: Id, id: Id, available: bool, before: seq<Action>, reachable: bool,
                                 between: seq<Action>)
    requires r !in s.pending && id in s.rows && LeavesAlone(before, r) && LeavesAlone(between, r)
    requires id in BeforeCorrection(s, r, id, available, before, reachable, between).rows
    ensures var read := s.rows[id];
            var looked := Continue(Next(s, Get(r, id, available)), before);
            var t := BeforeCorrection(s, r, id, available, before, reachable, between);
            var u := Next(t, Write(r, 0, true));
            && id in u.rows
            && (EditOf(u.rows[id]) != EditOf(t.rows[id]) <==>
                  && available && read.container != ""
                  && Corrected(Observe(looked, read.container, reachable)) != read.status
                  && EditOf(t.rows[id]) != EditOf(read))
            && (EditOf(u.rows[id]) != EditOf(t.rows[id]) ==> EditOf(u.rows[id]) == EditOf(read))
  {
    var s1 := Next(s, Get(r, id, available));
    OthersLeaveJob(s1, before, r);
    var s2 := Continue(s1, before);
    var s3 := Next(s2, Look(r, reachable));
    OthersLeaveJob(s3, between, r);
  }

  /** It does happen: a run in which a client renames a bridge and a concurrent read takes the old name
      back. */
  lemma EditCanBeReverted() returns (run: seq<Action>, more: seq<Action>)
    ensures var s, t := Continue(Empty, run), Continue(Empty, run + more);
            0 in s.rows && s.rows[0].name == "new" && 0 in t.rows && t.rows[0].name == "old"
    ensures |more| == 1 && more[0].Write?
  {
    var up, s := CreatedBridge(NewBridge(1, "c", "old", "i", [], []));
    var edit, t := EditedBridge(s);
    run, more := up + edit, [Write(1, 0, true)];
    ContinueConcat(Empty, up, edit);
    ContinueConcat(Empty, run, more);
    assert Continue(t, more) == Next(t, more[0]);
  }

  lemma CreatedBridge(b: NewBridge) returns (up: seq<Action>, s: State)
    requires b == NewBridge(1, "c", "old", "i", [], [])
    ensures s == Continue(Empty, up)
    ensures 0 in s.rows && s.rows[0] == Row(1, "c", "old", "i", ACTIVE, []) && s.pending == map[]
  {
    up := [Runtime(map["c" := Running]), Create(0, b, true, true, ""), Look(0, true), Write(0, 0, true)];
    assert up[1..] == [Create(0, b, true, true, ""), Look(0, true), Write(0, 0, true)];
    assert up[1..][1..] == [Look(0, true), Write(0, 0, true)];
    assert up[1..][1..][1..] == [Write(0, 0, true)];
    var s1 := Next(Empty, up[0]);
    var s2 := Next(s1, up[1]);
    assert s2.pending == map[0 := Attaching(b)] && s2.actual == map["c" := Running];
    var s3 := Next(s2, up[2]);
    assert s3.pending == map[0 := Inserting(b, "c", Running)] && s3.used == {};
    s := Next(s3, up[3]);
    assert s.pending == map[];
    assert Continue(s3, [Write(0, 0, true)]) == s;
    assert Continue(s2, up[1..][1..]) == s;
  }

  lemma EditedBridge(s: State) returns (run: seq<Action>, t: State)
    requires 0 in s.rows && s.rows[0] == Row(1, "c", "old", "i", ACTIVE, []) && s.pending == map[]
    ensures t == Continue(s, run)
    ensures 0 in t.rows && t.rows[0].name == "new"
    ensures 1 in t.pending && t.pending[1] == Correcting(0, s.rows[0], INACTIVE)
  {
    run := [Runtime(map["c" := Stopped]), Get(1, 0, true), Look(1, true),
            Update(2, 0, Edit("new", "i", []), false), Write(2, 0, true)];
    assert run[1..] == [Get(1, 0, true), Look(1, true), Update(2, 0, Edit("new", "i", []), false), Write(2, 0, true)];
    assert run[1..][1..] == [Look(1, true), Update(2, 0, Edit("new", "i", []), false), Write(2, 0, true)];
    assert run[1..][1..][1..] == [Update(2, 0, Edit("new", "i", []), false), Write(2, 0, true)];
    assert run[1..][1..][1..][1..] == [Write(2, 0, true)];
    var s1 := Next(s, run[0]);
    var s2 := Next(s1, run[1]);
    var s3 := Next(s2, run[2]);
    assert s3.pending == map[1 := Correcting(0, s.rows[0], INACTIVE)];
    var s4 := Next(s3, run[3]);
    t := Next(s4, run[4]);
    assert Continue(s4, [Write(2, 0, true)]) == t;
    assert Continue(s3, run[1..][1..][1..]) == t;
    assert Continue(s2, run[1..][1..]) == t;
  }
}
