/** What becomes of a create and of a delete, whatever other requests and the runtime do around their calls:
    what they tell the runtime, and what they leave in the table. */
module BridgeOutcomes {
  import opened Text
  import opened BridgeProtocol

  /** The state in which turn k of request r makes its call. */
  function Here(s: State, r: Id, newId: Id, turns: seq<Turn>, k: nat): State
    requires k < |turns|
  {
    Continue(Drive(s, r, newId, turns[..k]), turns[k].others)
  }

  /** The runtime answers about a container. */
  predicate Answers(turn: Turn, here: State, container: string) { turn.ok && container in here.actual }

  /** The request is over, and has told the runtime exactly these commands. */
  predicate Over(s: State, t: State, r: Id, commands: seq<Command>)
  {
    r !in t.pending && CommandsBy(t.told, r) == CommandsBy(s.told, r) + commands
  }

  /** The statement of a create, in the state in which it is made. */
  predicate Inserted(here: State, t: State, newId: Id, ok: bool, row: Row)
  {
    t.rows == if ok && newId !in here.used then here.rows[newId := row] else here.rows
  }

  lemma StatusFromStateExactly(state: RunState)
    ensures StatusFromState(state) == if state == Running then "active" else if state == Dead then "error" else "inactive"
  {
  }

  // ----- turns -----

  lemma OneTurn(s: State, r: Id, newId: Id, turns: seq<Turn>)
    requires r in s.pending && turns != [] && Quiet(turns, r)
    ensures var here := Continue(s, turns[0].others);
            && r in here.pending && here.pending[r] == s.pending[r]
            && CommandsBy(here.told, r) == CommandsBy(s.told, r)
            && Advance(s, r, newId, turns[0]) == Next(here, StepOf(here.pending[r], r, newId, turns[0].ok))
            && Drive(s, r, newId, turns) == Drive(Advance(s, r, newId, turns[0]), r, newId, turns[1..])
            && Drive(s, r, newId, []) == s
            && Quiet(turns[1..], r)
  {
    OthersLeaveJob(s, turns[0].others, r);
  }

  /** The calls of the later turns are those of the state after the first. */
  lemma HereLater(s: State, r: Id, newId: Id, turns: seq<Turn>, k: nat)
    requires r in s.pending && 0 < k < |turns|
    ensures Here(s, r, newId, turns, k) == Here(Advance(s, r, newId, turns[0]), r, newId, turns[1..], k - 1)
  {
    assert turns[..k][1..] == turns[1..][..k - 1];
  }

  lemma HereNow(s: State, r: Id, newId: Id, turns: seq<Turn>)
    requires turns != []
    ensures Here(s, r, newId, turns, 0) == Continue(s, turns[0].others)
  {
    assert turns[..0] == [];
  }

  lemma Ended(s: State, r: Id, newId: Id, turns: seq<Turn>)
    requires r !in s.pending
    ensures Drive(s, r, newId, turns) == s
  {
  }

  lemma InsertTurn(s: State, r: Id, newId: Id, b: NewBridge, container: string, state: RunState, turns: seq<Turn>)
    requires r in s.pending && s.pending[r] == Inserting(b, container, state) && turns != [] && Quiet(turns, r)
    ensures var t := Drive(s, r, newId, turns);
            && Over(s, t, r, [])
            && Inserted(Here(s, r, newId, turns, 0), t, newId, turns[0].ok,
                        Row(b.host, container, b.name, b.image, StatusFromState(state), b.ports))
  {
    OneTurn(s, r, newId, turns);
    HereNow(s, r, newId, turns);
    Ended(Advance(s, r, newId, turns[0]), r, newId, turns[1..]);
  }

  lemma AfterOrder(here: State, r: Id, ok: bool)
    requires r in here.pending && Tells(here.pending[r])
    ensures var t, job := Next(here, Tell(r, ok)), AfterTell(here.pending[r], ok);
            && CommandsBy(t.told, r) == CommandsBy(here.told, r) + [CommandOf(here.pending[r])]
            && t.rows == here.rows && (r in t.pending <==> job.Some?) && (job.Some? ==> t.pending[r] == job.value)
  {
    CommandsSnoc(here.told, r, CommandOf(here.pending[r]), r);
  }

  /** A command, in its turn. */
  lemma TellTurn(s: State, r: Id, newId: Id, turns: seq<Turn>)
    requires r in s.pending && Tells(s.pending[r]) && turns != [] && Quiet(turns, r)
    ensures var t, job := Advance(s, r, newId, turns[0]), AfterTell(s.pending[r], turns[0].ok);
            && CommandsBy(t.told, r) == CommandsBy(s.told, r) + [CommandOf(s.pending[r])]
            && t.rows == Here(s, r, newId, turns, 0).rows
            && (r in t.pending <==> job.Some?) && (job.Some? ==> t.pending[r] == job.value)
            && Drive(s, r, newId, turns) == Drive(t, r, newId, turns[1..]) && Quiet(turns[1..], r)
  {
    OneTurn(s, r, newId, turns);
    HereNow(s, r, newId, turns);
    AfterOrder(Continue(s, turns[0].others), r, turns[0].ok);
  }

  /** A look, in its turn. */
  lemma LookTurn(s: State, r: Id, newId: Id, turns: seq<Turn>)
    requires r in s.pending && Looks(s.pending[r]) && turns != [] && Quiet(turns, r)
    ensures var t, here := Advance(s, r, newId, turns[0]), Here(s, r, newId, turns, 0);
            var container := Subject(s.pending[r]);
            var job := AfterLook(s.pending[r], if Answers(turns[0], here, container) then Some(here.actual[container]) else None);
            && CommandsBy(t.told, r) == CommandsBy(s.told, r) && t.rows == here.rows
            && (r in t.pending <==> job.Some?) && (job.Some? ==> t.pending[r] == job.value)
            && Drive(s, r, newId, turns) == Drive(t, r, newId, turns[1..]) && Quiet(turns[1..], r)
  {
    OneTurn(s, r, newId, turns);
    HereNow(s, r, newId, turns);
  }

  // ----- create -----

  function Begun(s: State, r: Id, b: NewBridge, generated: string): State { Next(s, Create(r, b, true, true, generated)) }

  predicate CanCreate(s: State, r: Id, b: NewBridge, turns: seq<Turn>)
  {
    r !in s.pending && b.image != "" && |turns| == 4 && Quiet(turns, r)
  }

  /** Attaching to a container that is running tells the runtime nothing, and the bridge is active. */
  lemma AttachToRunning(s: State, r: Id, b: NewBridge, generated: string, newId: Id, turns: seq<Turn>)
    requires CanCreate(s, r, b, turns) && b.container != ""
    requires var seen := Here(Begun(s, r, b, generated), r, newId, turns, 0);
             Answers(turns[0], seen, b.container) && seen.actual[b.container] == Running
    ensures var begun := Begun(s, r, b, generated);
            var t := Drive(begun, r, newId, turns);
            && Over(s, t, r, [])
            && Inserted(Here(begun, r, newId, turns, 1), t, newId, turns[1].ok,
                        Row(b.host, b.container, b.name, b.image, "active", b.ports))
  {
    var begun := Begun(s, r, b, generated);
    LookTurn(begun, r, newId, turns);
    HereLater(begun, r, newId, turns, 1);
    InsertTurn(Advance(begun, r, newId, turns[0]), r, newId, b, b.container, Running, turns[1..]);
  }

  /** Starting an existing container, and nothing else: the bridge gets the status of the container as it is
      looked at afterwards, whatever that is; without an answer, or when the start fails, there is no
      bridge. */
  ghost predicate Starts(s: State, r: Id, b: NewBridge, newId: Id, turns: seq<Turn>)
    requires |turns| == 3
  {
    var t, look := Drive(s, r, newId, turns), Here(s, r, newId, turns, 1);
    && Over(s, t, r, [Start(b.container)])
    && (!turns[0].ok ==> t.rows == Here(s, r, newId, turns, 0).rows)
    && (turns[0].ok && !Answers(turns[1], look, b.container) ==> t.rows == look.rows)
    && (turns[0].ok && Answers(turns[1], look, b.container) ==>
          var state := look.actual[b.container];
          var status := if state == Running then "active" else if state == Dead then "error" else "inactive";
          Inserted(Here(s, r, newId, turns, 2), t, newId, turns[2].ok,
                   Row(b.host, b.container, b.name, b.image, status, b.ports)))
  }

  lemma StartedOutcome(s: State, r: Id, b: NewBridge, newId: Id, turns: seq<Turn>)
    requires r in s.pending && s.pending[r] == Attached(b) && |turns| == 2 && Quiet(turns, r)
    ensures var t, look := Drive(s, r, newId, turns), Here(s, r, newId, turns, 0);
            && Over(s, t, r, [])
            && (!Answers(turns[0], look, b.container) ==> t.rows == look.rows)
            && (Answers(turns[0], look, b.container) ==>
                  Inserted(Here(s, r, newId, turns, 1), t, newId, turns[1].ok,
                           Row(b.host, b.container, b.name, b.image, StatusFromState(look.actual[b.container]), b.ports)))
  {
    LookTurn(s, r, newId, turns);
    HereLater(s, r, newId, turns, 1);
    var s1, look := Advance(s, r, newId, turns[0]), Here(s, r, newId, turns, 0);
    if Answers(turns[0], look, b.container) {
      InsertTurn(s1, r, newId, b, b.container, look.actual[b.container], turns[1..]);
    } else {
      Ended(s1, r, newId, turns[1..]);
    }
  }

  lemma StartOutcome(s: State, r: Id, b: NewBridge, newId: Id, turns: seq<Turn>)
    requires r in s.pending && s.pending[r] == Starting(b) && |turns| == 3 && Quiet(turns, r)
    ensures Starts(s, r, b, newId, turns)
  {
    TellTurn(s, r, newId, turns);
    var s1 := Advance(s, r, newId, turns[0]);
    if turns[0].ok {
      HereLater(s, r, newId, turns, 1);
      HereLater(s, r, newId, turns, 2);
      StartedOutcome(s1, r, b, newId, turns[1..]);
    } else {
      Ended(s1, r, newId, turns[1..]);
    }
  }

  /** A container that the runtime knows but does not run is started. */
  lemma AttachToStopped(s: State, r: Id, b: NewBridge, generated: string, newId: Id, turns: seq<Turn>)
    requires CanCreate(s, r, b, turns) && b.container != ""
    requires var seen := Here(Begun(s, r, b, generated), r, newId, turns, 0);
             Answers(turns[0], seen, b.container) && seen.actual[b.container] != Running
    ensures var begun := Begun(s, r, b, generated);
            var asked := Advance(begun, r, newId, turns[0]);
            && CommandsBy(asked.told, r) == CommandsBy(s.told, r) && asked.rows == Here(begun, r, newId, turns, 0).rows
            && Drive(begun, r, newId, turns) == Drive(asked, r, newId, turns[1..])
            && Starts(asked, r, b, newId, turns[1..])
  {
    var begun := Begun(s, r, b, generated);
    LookTurn(begun, r, newId, turns);
    StartOutcome(Advance(begun, r, newId, turns[0]), r, b, newId, turns[1..]);
  }

  /** Running a new container, and nothing else: there is a bridge exactly when the runtime then says that
      it is running and the statement succeeds, and it is active. */
  ghost predicate RunsNew(s: State, r: Id, b: NewBridge, name: string, newId: Id, turns: seq<Turn>)
    requires |turns| >= 3
  {
    var t, look := Drive(s, r, newId, turns), Here(s, r, newId, turns, 1);
    var up := turns[0].ok && Answers(turns[1], look, name) && look.actual[name] == Running;
    && Over(s, t, r, [Run(name, b.image, b.ports, b.cmd)])
    && (!turns[0].ok ==> t.rows == Here(s, r, newId, turns, 0).rows)
    && (turns[0].ok && !up ==> t.rows == look.rows)
    && (up ==> Inserted(Here(s, r, newId, turns, 2), t, newId, turns[2].ok,
                        Row(b.host, name, b.name, b.image, "active", b.ports)))
  }

  lemma LaunchedOutcome(s: State, r: Id, b: NewBridge, name: string, newId: Id, turns: seq<Turn>)
    requires r in s.pending && s.pending[r] == Launched(b, name) && |turns| >= 2 && Quiet(turns, r)
    ensures var t, look := Drive(s, r, newId, turns), Here(s, r, newId, turns, 0);
            var up := Answers(turns[0], look, name) && look.actual[name] == Running;
            && Over(s, t, r, [])
            && (!up ==> t.rows == look.rows)
            && (up ==> Inserted(Here(s, r, newId, turns, 1), t, newId, turns[1].ok,
                                Row(b.host, name, b.name, b.image, "active", b.ports)))
  {
    LookTurn(s, r, newId, turns);
    HereLater(s, r, newId, turns, 1);
    var s1, look := Advance(s, r, newId, turns[0]), Here(s, r, newId, turns, 0);
    if Answers(turns[0], look, name) && look.actual[name] == Running {
      InsertTurn(s1, r, newId, b, name, Running, turns[1..]);
    } else {
      Ended(s1, r, newId, turns[1..]);
    }
  }

  lemma RunOutcome(s: State, r: Id, b: NewBridge, name: string, newId: Id, turns: seq<Turn>)
    requires r in s.pending && s.pending[r] == Launching(b, name) && |turns| >= 3 && Quiet(turns, r)
    ensures RunsNew(s, r, b, name, newId, turns)
  {
    TellTurn(s, r, newId, turns);
    if turns[0].ok {
      RunGoesOn(s, r, b, name, newId, turns);
    } else {
      Ended(Advance(s, r, newId, turns[0]), r, newId, turns[1..]);
    }
  }

  lemma RunGoesOn(s: State, r: Id, b: NewBridge, name: string, newId: Id, turns: seq<Turn>)
    requires r in s.pending && s.pending[r] == Launching(b, name) && |turns| >= 3 && Quiet(turns, r) && turns[0].ok
    ensures RunsNew(s, r, b, name, newId, turns)
  {
    TellTurn(s, r, newId, turns);
    HereLater(s, r, newId, turns, 1);
    HereLater(s, r, newId, turns, 2);
    LaunchedOutcome(Advance(s, r, newId, turns[0]), r, b, name, newId, turns[1..]);
  }

  /** Without an answer about the named container a new one is run under that name. */
  lemma RunsUnknown(s: State, r: Id, b: NewBridge, generated: string, newId: Id, turns: seq<Turn>)
    requires CanCreate(s, r, b, turns) && b.container != ""
    requires !Answers(turns[0], Here(Begun(s, r, b, generated), r, newId, turns, 0), b.container)
    ensures var begun := Begun(s, r, b, generated);
            var asked := Advance(begun, r, newId, turns[0]);
            && CommandsBy(asked.told, r) == CommandsBy(s.told, r) && asked.rows == Here(begun, r, newId, turns, 0).rows
            && Drive(begun, r, newId, turns) == Drive(asked, r, newId, turns[1..])
            && RunsNew(asked, r, b, b.container, newId, turns[1..])
  {
    var begun := Begun(s, r, b, generated);
    LookTurn(begun, r, newId, turns);
    RunOutcome(Advance(begun, r, newId, turns[0]), r, b, b.container, newId, turns[1..]);
  }

  /** Without a name a new container is run under a generated one. */
  lemma RunsUnnamed(s: State, r: Id, b: NewBridge, generated: string, newId: Id, turns: seq<Turn>)
    requires CanCreate(s, r, b, turns) && b.container == ""
    ensures var begun := Begun(s, r, b, generated);
            begun.rows == s.rows && begun.told == s.told && RunsNew(begun, r, b, generated, newId, turns)
  {
    RunOutcome(Begun(s, r, b, generated), r, b, generated, newId, turns);
  }

  // ----- delete -----

  /** A delete of a bridge with a container tells the runtime to stop it and then to remove it, whatever it
      answers, before the statement is made; otherwise it tells nothing. The statement removes that row and
      no other. */
  lemma DeleteTearsDown(s: State, r: Id, id: Id, available: bool, turns: seq<Turn>)
    requires r !in s.pending && |turns| == 3 && Quiet(turns, r)
    ensures var begun := Next(s, Delete(r, id, available));
            var t := Drive(begun, r, 0, turns);
            var backed := id in s.rows && available && s.rows[id].container != "";
            var statement := if backed then 2 else 0;
            var here := Here(begun, r, 0, turns, statement);
            && CommandsBy(here.told, r)
               == CommandsBy(s.told, r) + (if backed then [Stop(s.rows[id].container), Remove(s.rows[id].container)] else [])
            && Over(here, t, r, [])
            && t.rows == if turns[statement].ok then here.rows - {id} else here.rows
  {
    var begun := Next(s, Delete(r, id, available));
    if id in s.rows && available && s.rows[id].container != "" {
      TellTurn(begun, r, 0, turns);
      HereLater(begun, r, 0, turns, 2);
      var s1, rest := Advance(begun, r, 0, turns[0]), turns[1..];
      TellTurn(s1, r, 0, rest);
      HereLater(s1, r, 0, rest, 1);
      DeleteTurn(Advance(s1, r, 0, rest[0]), r, id, rest[1..]);
    } else {
      DeleteTurn(begun, r, id, turns);
    }
  }

  lemma DeleteTurn(s: State, r: Id, id: Id, turns: seq<Turn>)
    requires r in s.pending && s.pending[r] == Deleting(id) && turns != [] && Quiet(turns, r)
    ensures var t, here := Drive(s, r, 0, turns), Here(s, r, 0, turns, 0);
            && CommandsBy(here.told, r) == CommandsBy(s.told, r)
            && Over(here, t, r, [])
            && t.rows == if turns[0].ok then here.rows - {id} else here.rows
  {
    OneTurn(s, r, 0, turns);
    HereNow(s, r, 0, turns);
    Ended(Advance(s, r, 0, turns[0]), r, 0, turns[1..]);
  }
}
