/** Container bridges as steps: requests that read and write the table, ask the runtime and tell it what
    to do, one call or statement at a time, interleaved with each other and with a runtime whose
    containers change state by themselves. */
module BridgeProtocol {
  import opened Text

  type Id = nat

  datatype RunState = Created | Running | Stopped | Paused | Restarting | Removing | Dead | OtherState

  const ACTIVE := "active"
  const INACTIVE := "inactive"
  const ERROR := "error"

  function StatusFromState(state: RunState): string
  {
    match state
    case Running => ACTIVE
    case Dead => ERROR
    case _ => INACTIVE
  }

  datatype Row = Row(host: nat, container: string, name: string, image: string, status: string, ports: seq<string>)

  /** The columns a client may edit. */
  datatype Edit = Edit(name: string, image: string, ports: seq<string>)

  datatype NewBridge = NewBridge(host: nat, container: string, name: string, image: string, ports: seq<string>,
                                 cmd: seq<string>)

  /** What the runtime is told to do. */
  datatype Command =
    | Start(container: string)
    | Run(name: string, image: string, ports: seq<string>, cmd: seq<string>)
    | Stop(container: string)
    | Remove(container: string)

  /** Where a request stands between two of its steps. */
  datatype Job =
    | Attaching(bridge: NewBridge)
    | Starting(bridge: NewBridge)
    | Attached(bridge: NewBridge)
    | Launching(bridge: NewBridge, container: string)
    | Launched(bridge: NewBridge, container: string)
    | Inserting(bridge: NewBridge, container: string, state: RunState)
    | Reconciling(id: Id, row: Row)
    | Correcting(id: Id, row: Row, status: string)
    | Checking(id: Id, row: Row, edit: Edit)
    | Editing(id: Id, edit: Edit, status: string)
    | Stopping(id: Id, container: string)
    | Clearing(id: Id, container: string)
    | Deleting(id: Id)

  /** `used` has every id ever inserted, `was` every state any container has truly been in, and `told` what
      the runtime was told, by which request, whatever came of it. */
  datatype State = State(rows: map<Id, Row>, used: set<Id>, actual: map<string, RunState>, was: set<(string, RunState)>,
                         pending: map<Id, Job>, told: seq<(Id, Command)>)

  const Empty := State(map[], {}, map[], {}, map[], [])

  datatype Action =
    | Runtime(actual: map<string, RunState>)
    | Create(r: Id, bridge: NewBridge, available: bool, valid: bool, generated: string)
    | Get(r: Id, id: Id, available: bool)
    | Update(r: Id, id: Id, edit: Edit, available: bool)
    | Delete(r: Id, id: Id, available: bool)
    | Look(r: Id, reachable: bool)
    | Tell(r: Id, ok: bool)
    | Write(r: Id, newId: Id, ok: bool)

  // ----- the steps -----

  function Park(s: State, r: Id, job: Job): State { s.(pending := s.pending[r := job]) }

  function Drop(s: State, r: Id): State { s.(pending := s.pending - {r}) }

  /** What Status answers now. */
  function Observe(s: State, container: string, reachable: bool): Option<RunState>
  {
    if reachable && container in s.actual then Some(s.actual[container]) else None
  }

  /** The status that stands for an observation; a container nobody can see is inactive. */
  function Corrected(observed: Option<RunState>): string
  {
    if observed.Some? then StatusFromState(observed.value) else INACTIVE
  }

  function DoRuntime(s: State, actual: map<string, RunState>): State
  {
    s.(actual := actual, was := s.was + set container | container in actual :: (container, actual[container]))
  }

  function DoCreate(s: State, r: Id, b: NewBridge, available: bool, valid: bool, generated: string): State
  {
    if !available || !valid then s
    else if b.container != "" then Park(s, r, Attaching(b))
    else if b.image == "" then s
    else Park(s, r, Launching(b, generated))
  }

  predicate Asks(row: Row, available: bool) { available && row.container != "" }

  function DoGet(s: State, r: Id, id: Id, available: bool): State
  {
    if id in s.rows && Asks(s.rows[id], available) then Park(s, r, Reconciling(id, s.rows[id])) else s
  }

  function DoUpdate(s: State, r: Id, id: Id, edit: Edit, available: bool): State
  {
    if id !in s.rows then s
    else if Asks(s.rows[id], available) then Park(s, r, Checking(id, s.rows[id], edit))
    else Park(s, r, Editing(id, edit, s.rows[id].status))
  }

  function DoDelete(s: State, r: Id, id: Id, available: bool): State
  {
    Park(s, r, if id in s.rows && Asks(s.rows[id], available) then Stopping(id, s.rows[id].container) else Deleting(id))
  }

  predicate Looks(job: Job)
  {
    job.Attaching? || job.Attached? || job.Launched? || job.Reconciling? || job.Checking?
  }

  predicate Tells(job: Job) { job.Starting? || job.Launching? || job.Stopping? || job.Clearing? }

  predicate Writes(job: Job) { job.Inserting? || job.Correcting? || job.Editing? || job.Deleting? }

  function Subject(job: Job): string
    requires Looks(job)
  {
    match job
    case Attaching(b) => b.container
    case Attached(b) => b.container
    case Launched(_, container) => container
    case Reconciling(_, row) => row.container
    case Checking(_, row, _) => row.container
  }

  /** Where a request stands after an observation; None when it ends there. */
  function AfterLook(job: Job, observed: Option<RunState>): Option<Job>
    requires Looks(job)
  {
    match job
    case Attaching(b) =>
      if observed.None? then if b.image == "" then None else Some(Launching(b, b.container))
      else if observed.value == Running then Some(Inserting(b, b.container, Running))
      else Some(Starting(b))
    case Attached(b) =>
      if observed.None? then None else Some(Inserting(b, b.container, observed.value))
    case Launched(b, container) =>
      if observed == Some(Running) then Some(Inserting(b, container, Running)) else None
    case Reconciling(id, row) =>
      if Corrected(observed) == row.status then None else Some(Correcting(id, row, Corrected(observed)))
    case Checking(id, _, edit) => Some(Editing(id, edit, Corrected(observed)))
  }

  /** After a start or a run only success goes on; a stop or a removal goes on either way. */
  function AfterTell(job: Job, ok: bool): Option<Job>
    requires Tells(job)
  {
    match job
    case Starting(b) => if ok then Some(Attached(b)) else None
    case Launching(b, container) => if ok then Some(Launched(b, container)) else None
    case Stopping(id, container) => Some(Clearing(id, container))
    case Clearing(id, _) => Some(Deleting(id))
  }

  function CommandOf(job: Job): Command
    requires Tells(job)
  {
    match job
    case Starting(b) => Start(b.container)
    case Launching(b, container) => Run(container, b.image, b.ports, b.cmd)
    case Stopping(_, container) => Stop(container)
    case Clearing(_, container) => Remove(container)
  }

  /** What request r told the runtime, in order. */
  function CommandsBy(told: seq<(Id, Command)>, r: Id): seq<Command>
  {
    if told == [] then []
    else CommandsBy(told[..|told| - 1], r) + if told[|told| - 1].0 == r then [told[|told| - 1].1] else []
  }

  lemma CommandsSnoc(told: seq<(Id, Command)>, teller: Id, command: Command, r: Id)
    ensures CommandsBy(told + [(teller, command)], r) == CommandsBy(told, r) + if teller == r then [command] else []
  {
    assert (told + [(teller, command)])[..|told|] == told;
  }

  function Resume(s: State, r: Id, job: Option<Job>): State
  {
    if job.Some? then Park(s, r, job.value) else Drop(s, r)
  }

  function DoLook(s: State, r: Id, reachable: bool): State
  {
    if r !in s.pending || !Looks(s.pending[r]) then s
    else Resume(s, r, AfterLook(s.pending[r], Observe(s, Subject(s.pending[r]), reachable)))
  }

  function DoTell(s: State, r: Id, ok: bool): State
  {
    if r !in s.pending || !Tells(s.pending[r]) then s
    else Resume(s.(told := s.told + [(r, CommandOf(s.pending[r]))]), r, AfterTell(s.pending[r], ok))
  }

  /** All four columns at once. */
  function Edited(row: Row, edit: Edit, status: string): Row
  {
    row.(name := edit.name, image := edit.image, status := status, ports := edit.ports)
  }

  function EditOf(row: Row): Edit { Edit(row.name, row.image, row.ports) }

  function UpdateRow(s: State, id: Id, edit: Edit, status: string): State
  {
    if id in s.rows then s.(rows := s.rows[id := Edited(s.rows[id], edit, status)]) else s
  }

  function NewRow(b: NewBridge, container: string, state: RunState): Row
  {
    Row(b.host, container, b.name, b.image, StatusFromState(state), b.ports)
  }

  /** The statement that ends a request. */
  function Written(s: State, job: Job, newId: Id): State
    requires Writes(job)
  {
    match job
    case Inserting(b, container, state) =>
      if newId in s.used then s else s.(rows := s.rows[newId := NewRow(b, container, state)], used := s.used + {newId})
    case Correcting(id, row, status) => UpdateRow(s, id, EditOf(row), status)
    case Editing(id, edit, status) => UpdateRow(s, id, edit, status)
    case Deleting(id) => s.(rows := s.rows - {id})
  }

  function DoWrite(s: State, r: Id, newId: Id, ok: bool): State
  {
    if r !in s.pending || !Writes(s.pending[r]) then s
    else Drop(if ok then Written(s, s.pending[r], newId) else s, r)
  }

  function Next(s: State, a: Action): State
  {
    match a
    case Runtime(actual) => DoRuntime(s, actual)
    case Create(r, b, available, valid, generated) => if r in s.pending then s else DoCreate(s, r, b, available, valid, generated)
    case Get(r, id, available) => if r in s.pending then s else DoGet(s, r, id, available)
    case Update(r, id, edit, available) => if r in s.pending then s else DoUpdate(s, r, id, edit, available)
    case Delete(r, id, available) => if r in s.pending then s else DoDelete(s, r, id, available)
    case Look(r, reachable) => DoLook(s, r, reachable)
    case Tell(r, ok) => DoTell(s, r, ok)
    case Write(r, newId, ok) => DoWrite(s, r, newId, ok)
  }

  function Continue(s: State, run: seq<Action>): State
    decreases |run|
  {
    if run == [] then s else Continue(Next(s, run[0]), run[1..])
  }

  /** A step of request r. */
  predicate Touches(a: Action, r: Id) { !a.Runtime? && a.r == r }

  predicate LeavesAlone(run: seq<Action>, r: Id) { forall i :: 0 <= i < |run| ==> !Touches(run[i], r) }

  lemma StepLeavesJob(s: State, a: Action, r: Id)
    requires !Touches(a, r)
    ensures r in Next(s, a).pending <==> r in s.pending
    ensures r in s.pending ==> Next(s, a).pending[r] == s.pending[r]
  {
  }

  lemma StepLeavesCommands(s: State, a: Action, r: Id)
    requires !Touches(a, r)
    ensures CommandsBy(Next(s, a).told, r) == CommandsBy(s.told, r)
  {
    if a.Tell? && a.r in s.pending && Tells(s.pending[a.r]) {
      CommandsSnoc(s.told, a.r, CommandOf(s.pending[a.r]), r);
    }
  }

  /** What others do does not move a request. */
  lemma {:induction false} OthersLeaveJob(s: State, run: seq<Action>, r: Id)
    requires LeavesAlone(run, r)
    ensures r in Continue(s, run).pending <==> r in s.pending
    ensures r in s.pending ==> Continue(s, run).pending[r] == s.pending[r]
    ensures CommandsBy(Continue(s, run).told, r) == CommandsBy(s.told, r)
    decreases |run|
  {
    if run != [] {
      StepLeavesJob(s, run[0], r);
      StepLeavesCommands(s, run[0], r);
      OthersLeaveJob(Next(s, run[0]), run[1..], r);
    }
  }

  lemma {:induction false} ContinueConcat(s: State, first: seq<Action>, second: seq<Action>)
    ensures Continue(s, first + second) == Continue(Continue(s, first), second)
    decreases |first|
  {
    if first == [] {
      assert first + second == second;
    } else {
      assert (first + second)[1..] == first[1..] + second;
      ContinueConcat(Next(s, first[0]), first[1..], second);
    }
  }

  // ----- one request, with everything that happens around its steps -----

  /** What others do before a step of the request, and how the call or statement itself ends. */
  datatype Turn = Turn(others: seq<Action>, ok: bool)

  function StepOf(job: Job, r: Id, newId: Id, ok: bool): Action
  {
    if Looks(job) then Look(r, ok) else if Tells(job) then Tell(r, ok) else Write(r, newId, ok)
  }

  /** One turn of request r. */
  function Advance(s: State, r: Id, newId: Id, turn: Turn): State
    requires r in s.pending
  {
    Next(Continue(s, turn.others), StepOf(s.pending[r], r, newId, turn.ok))
  }

  /** All turns of request r until it ends. */
  function Drive(s: State, r: Id, newId: Id, turns: seq<Turn>): State
    decreases |turns|
  {
    if turns == [] || r !in s.pending then s else Drive(Advance(s, r, newId, turns[0]), r, newId, turns[1..])
  }

  predicate Quiet(turns: seq<Turn>, r: Id) { forall i :: 0 <= i < |turns| ==> LeavesAlone(turns[i].others, r) }

  /** A driven request is part of a run of steps like any other. */
  lemma {:induction false} DriveIsARun(s: State, r: Id, newId: Id, turns: seq<Turn>) returns (run: seq<Action>)
    ensures Continue(s, run) == Drive(s, r, newId, turns)
    decreases |turns|
  {
    if turns == [] || r !in s.pending {
      run := [];
    } else {
      var turn, step := turns[0], StepOf(s.pending[r], r, newId, turns[0].ok);
      var rest := DriveIsARun(Advance(s, r, newId, turn), r, newId, turns[1..]);
      run := turn.others + ([step] + rest);
      ContinueConcat(s, turn.others, [step] + rest);
      assert ([step] + rest)[1..] == rest;
    }
  }
}
