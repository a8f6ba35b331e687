/** The bridge handlers as they run, with everything else happening around them: before each call or
    statement other requests take any steps of BridgeProtocol and the runtime changes as it likes. Each
    handler is proved to be its request's steps among those of the others. */
module Bridge {
  import opened Text
  import opened BridgeProtocol
  import opened BridgeSafety
  import ContainerRun

  datatype BringUpResult = Up(container: string, status: string) | Refused | Broken

  datatype Response = Done | BadRequest | NotFound | BadGateway | Unavailable | InternalError

  /** Ids are drawn fresh: no other request inserts this one. */
  predicate NeverInserts(turns: seq<Turn>, id: Id) { forall i :: 0 <= i < |turns| ==> InsertsNothing(turns[i].others, id) }

  class World {
    var rows: map<Id, Row>
    var used: set<Id>
    var actual: map<string, RunState>
    var was: set<(string, RunState)>
    /** Where every request stands, the running one included. */
    var pending: map<Id, Job>
    /** What the runtime was told so far, by all requests. */
    var told: seq<(Id, Command)>

    function View(): State
      reads this
    {
      State(rows, used, actual, was, pending, told)
    }

    constructor ()
      ensures View() == Empty
    {
      rows, used, actual, was, pending, told := map[], {}, map[], {}, map[], [];
    }

    /** Other requests and the runtime take any steps. */
    method Interfere(me: Id, others: seq<Action>)
      requires LeavesAlone(others, me)
      modifies this
      ensures View() == Continue(old(View()), others)
      ensures me in pending <==> me in old(pending)
      ensures me in pending ==> pending[me] == old(pending)[me]
      ensures Inv(old(View())) ==> Inv(View()) && Later(old(View()), View())
    {
      OthersLeaveJob(View(), others, me);
      if Inv(View()) {
        RunsKeepInv(View(), others);
      }
      var s := Continue(View(), others);
      rows, used, actual, was, pending, told := s.rows, s.used, s.actual, s.was, s.pending, s.told;
    }

    // ----- the runtime -----

    method Status(me: Id, container: string, turn: Turn) returns (observed: Option<RunState>)
      requires LeavesAlone(turn.others, me)
      modifies this
      ensures me in pending <==> me in old(pending)
      ensures me in pending ==> pending[me] == old(pending)[me]
      ensures View() == Continue(old(View()), turn.others)
      ensures observed.Some? <==> turn.ok && container in actual
      ensures observed.Some? ==> observed.value == actual[container]
    {
      Interfere(me, turn.others);
      observed := if turn.ok && container in actual then Some(actual[container]) else None;
    }

    /** A start, run, stop or removal; whether it succeeds is the turn's. */
    method Order(me: Id, command: Command, turn: Turn)
      requires LeavesAlone(turn.others, me)
      modifies this
      ensures me in pending <==> me in old(pending)
      ensures me in pending ==> pending[me] == old(pending)[me]
      ensures var here := Continue(old(View()), turn.others); View() == here.(told := here.told + [(me, command)])
    {
      Interfere(me, turn.others);
      told := told + [(me, command)];
    }

    // ----- the table, one statement each -----

    method InsertRow(id: Id, row: Row, ok: bool) returns (done: bool)
      modifies this`rows, this`used
      ensures done <==> ok && id !in old(used)
      ensures rows == if done then old(rows)[id := row] else old(rows)
      ensures used == if done then old(used) + {id} else old(used)
    {
      done := ok && id !in used;
      if done {
        rows := rows[id := row];
        used := used + {id};
      }
    }

    /** All four columns at once; a missing row is not noticed. */
    method UpdateColumns(id: Id, name: string, image: string, status: string, ports: seq<string>, ok: bool)
      modifies this`rows
      ensures rows == if ok && id in old(rows)
                      then old(rows)[id := Row(old(rows)[id].host, old(rows)[id].container, name, image, status, ports)]
                      else old(rows)
    {
      if ok && id in rows {
        rows := rows[id := rows[id].(name := name, image := image, status := status, ports := ports)];
      }
    }

    method DeleteRow(id: Id, ok: bool) returns (done: bool)
      modifies this`rows
      ensures done <==> ok && id in old(rows)
      ensures rows == if done then old(rows) - {id} else old(rows)
    {
      done := ok && id in rows;
      if done {
        rows := rows - {id};
      }
    }

    // ----- the handlers -----

    /** The last step of a correction. */
    method WriteBack(me: Id, id: Id, row: Row, status: string, turns: seq<Turn>)
      requires me in pending && pending[me] == Correcting(id, row, status) && |turns| == 1 && Quiet(turns, me)
      modifies this
      ensures View() == Drive(old(View()), me, 0, turns)
      ensures turns[0].ok && id in rows ==> EditOf(rows[id]) == EditOf(row) && rows[id].status == status
    {
      DriveOn(View(), me, 0, turns);
      Interfere(me, turns[0].others);
      UpdateColumns(id, row.name, row.image, status, row.ports, turns[0].ok);
      pending := pending - {me};
    }

    /** Asks the runtime about the bridge and overwrites its status with what the runtime said then; a
        status that differs is written back with the other three columns as they were read. */
    method Reconcile(me: Id, id: Id, row: Row, turns: seq<Turn>) returns (status: string)
      requires me !in pending && |turns| == 2 && Quiet(turns, me)
      modifies this
      ensures var parked := Park(old(View()), me, Reconciling(id, row));
              && View() == Drive(parked, me, 0, turns)
              && status == Corrected(Observe(Continue(parked, turns[0].others), row.container, turns[0].ok))
      ensures status != row.status && turns[1].ok && id in rows ==> EditOf(rows[id]) == EditOf(row) && rows[id].status == status
    {
      pending := pending[me := Reconciling(id, row)];
      DriveOn(View(), me, 0, turns);
      var observed := Status(me, row.container, turns[0]);
      status := if observed.Some? then StatusFromState(observed.value) else INACTIVE;
      if status == row.status {
        pending := pending - {me};
      } else {
        pending := pending[me := Correcting(id, row, status)];
        WriteBack(me, id, row, status, turns[1..]);
      }
    }

    /** Reads a bridge and answers it with the status the runtime told then: "active" exactly when the
        container is running at that moment, whatever the row says. */
    method GetBridge(me: Id, id: Id, available: bool, turns: seq<Turn>) returns (answer: Option<Row>)
      requires me !in pending && |turns| == 2 && Quiet(turns, me)
      modifies this
      ensures View() == Drive(Next(old(View()), Get(me, id, available)), me, 0, turns)
      ensures answer.Some? <==> id in old(rows)
      ensures answer.Some? ==>
                var read := old(rows)[id];
                var told := Continue(Next(old(View()), Get(me, id, available)), turns[0].others);
                && answer.value == read.(status := answer.value.status)
                && answer.value.status == (if available && read.container != "" then Corrected(Observe(told, read.container, turns[0].ok))
                                           else read.status)
                && (available && read.container != "" ==>
                      (answer.value.status == ACTIVE <==>
                         turns[0].ok && read.container in told.actual && told.actual[read.container] == Running))
                && (answer.value.status != read.status && turns[1].ok && id in rows ==>
                      EditOf(rows[id]) == EditOf(read) && rows[id].status == answer.value.status)
    {
      if id !in rows {
        return None;
      }
      var row := rows[id];
      if available && row.container != "" {
        var status := Reconcile(me, id, row, turns);
        row := row.(status := status);
      }
      return Some(row);
    }

    /** The insert that ends a create. */
    method Insert(me: Id, b: NewBridge, container: string, state: RunState, newId: Id, turns: seq<Turn>) returns (done: bool)
      requires me in pending && pending[me] == Inserting(b, container, state)
      requires turns != [] && Quiet(turns, me) && newId !in used && NeverInserts(turns, newId)
      modifies this
      ensures View() == Drive(old(View()), me, newId, turns)
      ensures done <==> turns[0].ok
      ensures done <==> newId in used
      ensures done ==> newId in rows && rows[newId] == NewRow(b, container, state)
    {
      DriveOn(View(), me, newId, turns);
      OthersLeaveId(View(), turns[0].others, newId);
      Interfere(me, turns[0].others);
      done := InsertRow(newId, Row(b.host, container, b.name, b.image, StatusFromState(state), b.ports), turns[0].ok);
      pending := pending - {me};
      DriveEnds(View(), me, newId, turns[1..]);
    }

    /** Starts an existing container that is not running, and looks at it again. */
    method StartExisting(me: Id, b: NewBridge, ghost newId: Id, turns: seq<Turn>) returns (r: BringUpResult)
      requires me in pending && pending[me] == Starting(b) && |turns| == 2 && Quiet(turns, me)
      modifies this
      ensures newId !in old(used) && NeverInserts(turns, newId) ==> newId !in used
      ensures !r.Refused?
      ensures View() == Drive(old(View()), me, newId, turns)
      ensures if r.Up? then IsUp(r, b, b.container, me) else me !in pending
    {
      DriveOn(View(), me, newId, turns);
      StillFresh(View(), turns[0].others, newId);
      Order(me, Start(b.container), turns[0]);
      if !turns[0].ok {
        pending := pending - {me};
        DriveEnds(View(), me, newId, turns[1..]);
        return Broken;
      }
      pending := pending[me := Attached(b)];
      DriveOn(View(), me, newId, turns[1..]);
      StillFresh(View(), turns[1].others, newId);
      var state := Status(me, b.container, turns[1]);
      if state.None? {
        pending := pending - {me};
        return Broken;
      }
      pending := pending[me := Inserting(b, b.container, state.value)];
      return Up(b.container, StatusFromState(state.value));
    }

    /** Runs a new container, which counts only if it is then running. */
    method RunNew(me: Id, b: NewBridge, name: string, ghost newId: Id, turns: seq<Turn>) returns (r: BringUpResult)
      requires me in pending && pending[me] == Launching(b, name) && |turns| == 2 && Quiet(turns, me)
      modifies this
      ensures newId !in old(used) && NeverInserts(turns, newId) ==> newId !in used
      ensures !r.Refused?
      ensures View() == Drive(old(View()), me, newId, turns)
      ensures if r.Up? then IsUp(r, b, name, me) && r.status == ACTIVE else me !in pending
    {
      DriveOn(View(), me, newId, turns);
      StillFresh(View(), turns[0].others, newId);
      Order(me, Run(name, b.image, b.ports, b.cmd), turns[0]);
      if !turns[0].ok {
        pending := pending - {me};
        DriveEnds(View(), me, newId, turns[1..]);
        return Broken;
      }
      pending := pending[me := Launched(b, name)];
      DriveOn(View(), me, newId, turns[1..]);
      StillFresh(View(), turns[1].others, newId);
      var state := Status(me, name, turns[1]);
      if state.None? || state.value != Running {
        pending := pending - {me};
        return Broken;
      }
      pending := pending[me := Inserting(b, name, state.value)];
      return Up(name, StatusFromState(state.value));
    }

    /** The request is about to insert a bridge to this container, and the status it carries is the one the
        runtime has for the container at this very moment. */
    ghost predicate IsUp(r: BringUpResult, b: NewBridge, container: string, me: Id)
      reads this
    {
      && r.Up? && r.container == container
      && container in actual && r.status == StatusFromState(actual[container])
      && me in pending && pending[me] == Inserting(b, container, actual[container])
    }

    /** Attaches to an existing container; None when the runtime does not know it. */
    method AttachExisting(me: Id, b: NewBridge, ghost newId: Id, turns: seq<Turn>) returns (r: Option<BringUpResult>, k: nat)
      requires me in pending && pending[me] == Attaching(b) && b.image != "" && |turns| >= 3 && Quiet(turns, me)
      modifies this
      ensures newId !in old(used) && NeverInserts(turns, newId) ==> newId !in used
      ensures 1 <= k <= 3 && View() == Drive(old(View()), me, newId, turns[..k])
      ensures r.None? ==> k == 1 && me in pending && pending[me] == Launching(b, b.container)
      ensures r.Some? ==> !r.value.Refused? && if r.value.Up? then IsUp(r.value, b, b.container, me) else me !in pending
    {
      DriveOn(View(), me, newId, turns[..3]);
      DriveOn(View(), me, newId, turns[..1]);
      StillFresh(View(), turns[0].others, newId);
      var state := Status(me, b.container, turns[0]);
      assert turns[..3][1..] == turns[1..3];
      if state.None? {
        pending := pending[me := Launching(b, b.container)];
        return None, 1;
      }
      if state.value == Running {
        pending := pending[me := Inserting(b, b.container, Running)];
        return Some(Up(b.container, StatusFromState(Running))), 1;
      }
      pending := pending[me := Starting(b)];
      var started := StartExisting(me, b, newId, turns[1..3]);
      return Some(started), 3;
    }

    /** Brings up the container of a bridge. The status returned is what the runtime says at that moment,
        so "active" exactly when it is running then. `k` turns are used. */
    method BringUp(me: Id, b: NewBridge, generated: string, ghost newId: Id, turns: seq<Turn>)
      returns (r: BringUpResult, k: nat)
      requires me !in pending && |turns| == 4 && Quiet(turns, me)
      modifies this
      ensures newId !in old(used) && NeverInserts(turns, newId) ==> newId !in used
      ensures r.Refused? <==> !ContainerRun.InputsOk(b.container, b.image, b.ports)
      ensures r.Up? ==> IsUp(r, b, if b.container == "" then generated else b.container, me)
      ensures !r.Up? ==> me !in pending
      ensures k <= 3
      ensures View() == Drive(Next(old(View()), Create(me, b, true, !r.Refused?, generated)), me, newId, turns[..k])
    {
      k := 0;
      var verdict := ContainerRun.ValidateRunFromImageInputs(b.container, b.image, b.ports, b.cmd);
      if verdict != ContainerRun.Valid {
        return Refused, 0;
      }
      AttachNeedsAnImage(b.container, b.ports);
      r, k := AttachOrRun(me, b, generated, newId, turns);
    }

    /** The container of a validated bridge: an existing one, or one run from the image, whose absence the
        validation has excluded. */
    method AttachOrRun(me: Id, b: NewBridge, generated: string, ghost newId: Id, turns: seq<Turn>)
      returns (r: BringUpResult, k: nat)
      requires me !in pending && |turns| == 4 && Quiet(turns, me) && b.image != ""
      modifies this
      ensures newId !in old(used) && NeverInserts(turns, newId) ==> newId !in used
      ensures !r.Refused?
      ensures if r.Up? then IsUp(r, b, if b.container == "" then generated else b.container, me) else me !in pending
      ensures k <= 3
      ensures View() == Drive(DoCreate(old(View()), me, b, true, true, generated), me, newId, turns[..k])
    {
      k := 0;
      ghost var begun := DoCreate(View(), me, b, true, true, generated);
      if b.container != "" {
        pending := pending[me := Attaching(b)];
        var attached;
        attached, k := AttachExisting(me, b, newId, turns);
        if attached.Some? {
          return attached.value, k;
        }
      }
      var name := b.container;
      if name == "" {
        name := generated;
        pending := pending[me := Launching(b, name)];
      }
      assert View() == Drive(begun, me, newId, turns[..k]);
      DriveSplit(begun, me, newId, turns[..k], turns[k..k + 2]);
      assert turns[..k] + turns[k..k + 2] == turns[..k + 2];
      r := RunNew(me, b, name, newId, turns[k..k + 2]);
      k := k + 2;
    }

    /** A row is created exactly when the container comes up and the insert succeeds. It is the
        requested bridge in that container, and its status is the one the runtime told last in this
        request. */
    method CreateBridge(me: Id, b: NewBridge, available: bool, generated: string, newId: Id, turns: seq<Turn>)
      returns (response: Response, ghost valid: bool, ghost k: nat)
      requires me !in pending && |turns| == 4 && Quiet(turns, me)
      requires newId !in used && NeverInserts(turns, newId)
      modifies this
      ensures valid <==> ContainerRun.InputsOk(b.container, b.image, b.ports)
      ensures View() == Drive(Next(old(View()), Create(me, b, available, valid, generated)), me, newId, turns)
      ensures response == Unavailable <==> !available
      ensures response == BadRequest <==> available && !valid
      ensures response == Done <==> newId in used
      ensures k < 4
      ensures response == Done ==>
                var told := Drive(Next(old(View()), Create(me, b, available, valid, generated)), me, newId, turns[..k]);
                var container := if b.container == "" then generated else b.container;
                && me in told.pending && told.pending[me].Inserting? && turns[k].ok && container in told.actual
                && newId in rows && rows[newId] == NewRow(b, container, told.actual[container])
    {
      valid, k := ContainerRun.InputsOk(b.container, b.image, b.ports), 0;
      if !available {
        DriveEnds(View(), me, newId, turns);
        return Unavailable, valid, k;
      }
      ghost var begun := Next(View(), Create(me, b, available, valid, generated));
      var r, n := BringUp(me, b, generated, newId, turns);
      k := n;
      DriveSplit(begun, me, newId, turns[..n], turns[n..]);
      assert turns[..n] + turns[n..] == turns;
      if !r.Up? {
        DriveEnds(View(), me, newId, turns[n..]);
        return if r.Refused? then BadRequest else BadGateway, valid, k;
      }
      var inserted := Insert(me, b, r.container, actual[r.container], newId, turns[n..]);
      return if inserted then Done else InternalError, valid, k;
    }

    /** The client's three columns and the status the runtime told in this request; the requested status
        is never used, so no client can assert "active". A row deleted meanwhile is not noticed: the
        statement touches nothing and the answer is still a success. */
    method UpdateBridge(me: Id, id: Id, edit: Edit, requestedStatus: string, available: bool, turns: seq<Turn>)
      returns (response: Response)
      requires me !in pending && |turns| == 2 && Quiet(turns, me)
      modifies this
      ensures View() == Drive(Next(old(View()), Update(me, id, edit, available)), me, 0, turns)
      ensures response == NotFound <==> id !in old(rows)
      ensures id in old(rows) ==>
                var statement := if available && old(rows)[id].container != "" then 1 else 0;
                response == if turns[statement].ok then Done else InternalError
      ensures response == Done && id in rows ==>
                var read := old(rows)[id];
                var told := Continue(Next(old(View()), Update(me, id, edit, available)), turns[0].others);
                && EditOf(rows[id]) == edit
                && rows[id].status == if available && read.container != "" then Corrected(Observe(told, read.container, turns[0].ok))
                                      else read.status
    {
      if id !in rows {
        DriveEnds(View(), me, 0, turns);
        return NotFound;
      }
      var row := rows[id];
      if available && row.container != "" {
        response := CheckAndEdit(me, id, row, edit, turns);
      } else {
        pending := pending[me := Editing(id, edit, row.status)];
        response := ApplyEdit(me, id, edit, row.status, turns);
      }
    }

    method CheckAndEdit(me: Id, id: Id, row: Row, edit: Edit, turns: seq<Turn>) returns (response: Response)
      requires me !in pending && |turns| == 2 && Quiet(turns, me)
      modifies this
      ensures var parked := Park(old(View()), me, Checking(id, row, edit));
              && View() == Drive(parked, me, 0, turns)
              && (response == Done && id in rows ==>
                    && EditOf(rows[id]) == edit
                    && rows[id].status == Corrected(Observe(Continue(parked, turns[0].others), row.container, turns[0].ok)))
      ensures response == if turns[1].ok then Done else InternalError
    {
      pending := pending[me := Checking(id, row, edit)];
      DriveOn(View(), me, 0, turns);
      var observed := Status(me, row.container, turns[0]);
      var status := if observed.Some? then StatusFromState(observed.value) else INACTIVE;
      pending := pending[me := Editing(id, edit, status)];
      response := ApplyEdit(me, id, edit, status, turns[1..]);
    }

    method ApplyEdit(me: Id, id: Id, edit: Edit, status: string, turns: seq<Turn>) returns (response: Response)
      requires me in pending && pending[me] == Editing(id, edit, status) && turns != [] && Quiet(turns, me)
      modifies this
      ensures View() == Drive(old(View()), me, 0, turns)
      ensures response == if turns[0].ok then Done else InternalError
      ensures response == Done && id in rows ==> EditOf(rows[id]) == edit && rows[id].status == status
    {
      DriveOn(View(), me, 0, turns);
      Interfere(me, turns[0].others);
      UpdateColumns(id, edit.name, edit.image, status, edit.ports, turns[0].ok);
      pending := pending - {me};
      DriveEnds(View(), me, 0, turns[1..]);
      return if turns[0].ok then Done else InternalError;
    }

    /** The container is told to stop and to go; failures are only logged. */
    method TearDown(me: Id, id: Id, container: string, turns: seq<Turn>)
      requires me in pending && pending[me] == Stopping(id, container) && |turns| == 2 && Quiet(turns, me)
      modifies this
      ensures me in pending && pending[me] == Deleting(id)
      ensures View() == Drive(old(View()), me, 0, turns)
    {
      DriveOn(View(), me, 0, turns);
      Order(me, Stop(container), turns[0]);
      pending := pending[me := Clearing(id, container)];
      DriveOn(View(), me, 0, turns[1..]);
      Order(me, Remove(container), turns[1]);
      pending := pending[me := Deleting(id)];
    }

    method DeleteStatement(me: Id, id: Id, turns: seq<Turn>) returns (response: Response)
      requires me in pending && pending[me] == Deleting(id) && turns != [] && Quiet(turns, me)
      modifies this
      ensures View() == Drive(old(View()), me, 0, turns)
      ensures var before := Continue(old(View()), turns[0].others);
              && response == (if turns[0].ok && id in before.rows then Done else InternalError)
              && rows == if response == Done then before.rows - {id} else before.rows
    {
      DriveOn(View(), me, 0, turns);
      Interfere(me, turns[0].others);
      ghost var before := rows;
      var done := DeleteRow(id, turns[0].ok);
      assert rows == if turns[0].ok then before - {id} else before;
      pending := pending - {me};
      DriveEnds(View(), me, 0, turns[1..]);
      return if done then Done else InternalError;
    }

    /** The container is stopped and removed as far as the runtime lets it. Whatever the runtime answers,
        the row is deleted exactly when the statement succeeds on a row that is still there. */
    method DeleteBridge(me: Id, id: Id, available: bool, turns: seq<Turn>) returns (response: Response, ghost before: State)
      requires me !in pending && |turns| == 3 && Quiet(turns, me)
      modifies this
      ensures View() == Drive(Next(old(View()), Delete(me, id, available)), me, 0, turns)
      ensures var statement := if id in old(rows) && available && old(rows)[id].container != "" then 2 else 0;
              && Drive(Next(old(View()), Delete(me, id, available)), me, 0, turns[..statement]) == before
              && var here := Continue(before, turns[statement].others);
                 && response == (if turns[statement].ok && id in here.rows then Done else InternalError)
                 && rows == if response == Done then here.rows - {id} else here.rows
    {
      var n := 0;
      ghost var begun := Next(View(), Delete(me, id, available));
      if id in rows && rows[id].container != "" && available {
        n := 2;
        var container := rows[id].container;
        pending := pending[me := Stopping(id, container)];
        TearDown(me, id, container, turns[..2]);
      } else {
        pending := pending[me := Deleting(id)];
      }
      before := View();
      assert before == Drive(begun, me, 0, turns[..n]);
      DriveSplit(begun, me, 0, turns[..n], turns[n..]);
      assert turns[..n] + turns[n..] == turns && turns[n..][0] == turns[n];
      response := DeleteStatement(me, id, turns[n..]);
    }
  }

  lemma DriveOn(s: State, me: Id, newId: Id, turns: seq<Turn>)
    requires me in s.pending && turns != []
    ensures Drive(s, me, newId, turns) == Drive(Advance(s, me, newId, turns[0]), me, newId, turns[1..])
  {
  }

  /** Driving is driving the first turns and then the others. */
  lemma {:induction false} DriveSplit(s: State, me: Id, newId: Id, first: seq<Turn>, rest: seq<Turn>)
    ensures Drive(s, me, newId, first + rest) == Drive(Drive(s, me, newId, first), me, newId, rest)
    decreases |first|
  {
    if first == [] {
      assert first + rest == rest;
    } else if me in s.pending {
      assert (first + rest)[1..] == first[1..] + rest;
      DriveSplit(Advance(s, me, newId, first[0]), me, newId, first[1..], rest);
    } else {
      DriveEnds(s, me, newId, first + rest);
      DriveEnds(s, me, newId, rest);
    }
  }

  lemma StillFresh(s: State, others: seq<Action>, newId: Id)
    ensures InsertsNothing(others, newId) && newId !in s.used ==> newId !in Continue(s, others).used
  {
    if InsertsNothing(others, newId) && newId !in s.used {
      OthersLeaveId(s, others, newId);
    }
  }

  lemma DriveEnds(s: State, me: Id, newId: Id, turns: seq<Turn>)
    requires me !in s.pending
    ensures Drive(s, me, newId, turns) == s
  {
  }

  predicate InsertsNothing(run: seq<Action>, id: Id) { forall i :: 0 <= i < |run| && run[i].Write? ==> run[i].newId != id }

  lemma {:induction false} OthersLeaveId(s: State, run: seq<Action>, id: Id)
    requires InsertsNothing(run, id) && id !in s.used
    ensures id !in Continue(s, run).used
    decreases |run|
  {
    if run != [] {
      OthersLeaveId(Next(s, run[0]), run[1..], id);
    }
  }

  // ----- two consequences of validating first -----

  /** Attaching to an existing container without an image is always refused: no image text is empty, so
      the branch for a missing image is never reached. */
  lemma AttachNeedsAnImage(containerID: string, ports: seq<string>)
    ensures !ContainerRun.InputsOk(containerID, "", ports)
  {
    if ContainerRun.ImageOk("") {
      ContainerRun.ImageIsPositional("");
    }
  }

  predicate IsUuidText(uuid: string) { forall i :: 0 <= i < |uuid| ==> ContainerRun.IsAlnum(uuid[i]) || uuid[i] == '-' }

  /** A generated name passes the validation that client names must pass. */
  lemma GeneratedNameIsAccepted(uuid: string)
    requires IsUuidText(uuid)
    ensures ContainerRun.NameOk("bridge-" + uuid)
  {
    var name := "bridge-" + uuid;
    forall i | 1 <= i < |name|
      ensures ContainerRun.IsAlnum(name[i]) || name[i] == '_' || name[i] == '.' || name[i] == '-'
    {
      if i >= 7 {
        assert name[i] == uuid[i - 7];
      } else {
        assert name[i] == "bridge-"[i];
      }
    }
    ContainerRun.NameExactly(name);
  }
}
