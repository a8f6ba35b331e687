/** What holds in every state the billing service and its processor can reach from an empty table,
    whatever the interleaving, the losses, the retries and the order of webhook deliveries. */
module BillingSafety {
  import opened Text
  import opened BillingProtocol

  // ----- exactly once -----

  /** A stored result has been reported. */
  predicate ResultsReported(p: Processor)
  {
    forall k :: k in p.keyed ==> Report(p.keyed[k].0, p.keyed[k].1) <= p.reported
  }

  /** A derived key is in the store exactly when its operation was executed for its client key, and
      what it stores is a result of that operation. */
  ghost predicate KeysMatch(p: Processor, made: seq<Made>)
  {
    forall key, op :: && (DerivedKey(key, op) in p.keyed <==> Made(key, op) in made)
                      && (DerivedKey(key, op) in p.keyed ==> OpOf(p.keyed[DerivedKey(key, op)].0) == op)
  }

  ghost predicate MadeOnce(made: seq<Made>) { forall m :: multiset(made)[m] <= 1 }

  ghost predicate KeysHold(s: State)
  {
    ResultsReported(s.processor) && KeysMatch(s.processor, s.made) && MadeOnce(s.made)
  }

  lemma AskMatches(s: State, p: Pending, result: Reply, fate: Fate)
    requires Calls(p) && KeysMatch(s.processor, s.made)
    ensures KeysMatch(AfterAsk(s, p, result, fate).processor, AfterAsk(s, p, result, fate).made)
  {
    var s', m := AfterAsk(s, p, result, fate), Made(p.key, OpOf(RequestOf(p)));
    if AnswerTo(s, p, result, fate).executed {
      forall key, op
        ensures && (DerivedKey(key, op) in s'.processor.keyed <==> Made(key, op) in s'.made)
                && (DerivedKey(key, op) in s'.processor.keyed ==> OpOf(s'.processor.keyed[DerivedKey(key, op)].0) == op)
      {
        DerivedKeysAreInjective(key, op, m.key, m.op);
        assert s'.made[|s.made|] == m;
      }
    }
  }

  lemma AskKeepsKeys(s: State, p: Pending, result: Reply, fate: Fate)
    requires KeysHold(s) && Calls(p)
    ensures KeysHold(AfterAsk(s, p, result, fate))
  {
    AskMatches(s, p, result, fate);
    var key, op := p.key, OpOf(RequestOf(p));
    assert DerivedKey(key, op) in s.processor.keyed <==> Made(key, op) in s.made;
  }

  lemma OnlyCallsAsk(s: State, a: Action)
    ensures s.processor.reported <= Next(s, a).processor.reported
    ensures !a.Call? ==> Next(s, a).processor.keyed == s.processor.keyed && Next(s, a).made == s.made
    ensures a.Call? && a.r in s.pending && Calls(s.pending[a.r]) ==>
              var s' := AfterAsk(s, s.pending[a.r], a.result, a.fate);
              Next(s, a).processor == s'.processor && Next(s, a).made == s'.made
    ensures a.Call? && !(a.r in s.pending && Calls(s.pending[a.r])) ==> Next(s, a) == s
  {
  }

  lemma StepKeepsKeys(s: State, a: Action)
    requires KeysHold(s)
    ensures KeysHold(Next(s, a))
  {
    OnlyCallsAsk(s, a);
    if a.Call? && a.r in s.pending && Calls(s.pending[a.r]) {
      AskKeepsKeys(s, s.pending[a.r], a.result, a.fate);
    }
  }

  lemma {:induction false} ResultsAreForever(s: State, run: seq<Action>, k: string)
    requires k in s.processor.keyed
    ensures k in Continue(s, run).processor.keyed && Continue(s, run).processor.keyed[k] == s.processor.keyed[k]
    decreases |run|
  {
    if run != [] {
      var a := run[0];
      OnlyCallsAsk(s, a);
      if a.Call? && a.r in s.pending && Calls(s.pending[a.r]) {
        KeyedGrows(s, s.pending[a.r], a.result, a.fate);
      }
      ResultsAreForever(Next(s, a), run[1..], k);
    }
  }

  /** A key is settled by the first call that is executed under it: from then on, in every run, a call
      under it executes nothing and leaves the processor as it is, and whatever it is answered is that
      first result. */
  lemma CallsUnderAKeyRepeat(s: State, run: seq<Action>, k: string, r: Id, result: Reply, fate: Fate)
    requires k in s.processor.keyed
    requires var t := Continue(s, run);
             r in t.pending && Calls(t.pending[r]) && DerivedKey(t.pending[r].key, OpOf(RequestOf(t.pending[r]))) == k
    ensures var t := Continue(s, run);
            var u, reply := Next(t, Call(r, result, fate)), AnswerTo(t, t.pending[r], result, fate).reply;
            && u.processor == t.processor && u.made == t.made
            && (reply.Some? ==> reply.value == s.processor.keyed[k].1)
  {
    ResultsAreForever(s, run, k);
    OnlyCallsAsk(Continue(s, run), Call(r, result, fate));
  }

  /** The subscription a client key stands for at the processor. */
  predicate SubscriptionOf(s: State, key: string, ext: string)
  {
    var k := DerivedKey(key, SubscriptionOp);
    k in s.processor.keyed && s.processor.keyed[k].1.id == ext
  }

  predicate InsertsHold(s: State)
  {
    && (forall i :: i in s.inserted ==> SubscriptionOf(s, i.key, i.ext))
    && (forall r :: r in s.pending && s.pending[r].NeedInsert? ==> SubscriptionOf(s, s.pending[r].key, s.pending[r].ext))
  }

  lemma KeyedGrows(s: State, p: Pending, result: Reply, fate: Fate)
    requires Calls(p)
    ensures var s' := AfterAsk(s, p, result, fate);
            && (forall k :: k in s.processor.keyed ==> k in s'.processor.keyed && s'.processor.keyed[k] == s.processor.keyed[k])
            && s.processor.reported <= s'.processor.reported
    ensures var answer := AnswerTo(s, p, result, fate);
            var k := DerivedKey(p.key, OpOf(RequestOf(p)));
            answer.reply.Some? ==> k in answer.processor.keyed && answer.processor.keyed[k].1 == answer.reply.value
  {
  }

  lemma CallKeepsInserts(s: State, r: Id, result: Reply, fate: Fate)
    requires InsertsHold(s)
    ensures InsertsHold(DoCall(s, r, result, fate))
  {
    if r in s.pending && Calls(s.pending[r]) {
      KeyedGrows(s, s.pending[r], result, fate);
    }
  }

  lemma StepKeepsInserts(s: State, a: Action)
    requires InsertsHold(s)
    ensures InsertsHold(Next(s, a))
  {
    match a
    case Call(r, result, fate) => CallKeepsInserts(s, r, result, fate);
    case Write(r, newId, ok) =>
    case _ =>
  }

  // ----- rows: what a step may do to them -----

  /** Rows stay, and keep their org, their provider and their external id. */
  predicate Persist(rows: map<Id, Row>, rows': map<Id, Row>)
  {
    forall id :: id in rows ==>
      id in rows' && rows'[id].org == rows[id].org && rows'[id].provider == rows[id].provider && rows'[id].ext == rows[id].ext
  }

  lemma WrittenPersists(s: State, p: Pending, newId: Id)
    ensures Persist(s.rows, Written(s, p, newId).rows)
    ensures Written(s, p, newId).lenient == s.lenient && Written(s, p, newId).pending == s.pending
    ensures Written(s, p, newId).processor == s.processor
  {
  }

  lemma StepPersists(s: State, a: Action)
    ensures Persist(s.rows, Next(s, a).rows)
    ensures Next(s, a).lenient == s.lenient
  {
    match a
    case Write(r, newId, _) =>
      if r in s.pending {
        WrittenPersists(s, s.pending[r], newId);
      }
    case Call(_, _, _) =>
    case _ =>
  }

  /** Over any run from any state, a row's org, provider and external id never change. */
  lemma {:induction false} RowsPersist(s: State, run: seq<Action>)
    ensures Persist(s.rows, Continue(s, run).rows)
    ensures Continue(s, run).lenient == s.lenient
    decreases |run|
  {
    if run != [] {
      StepPersists(s, run[0]);
      RowsPersist(Next(s, run[0]), run[1..]);
    }
  }

  /** The org on whose behalf a step runs; deliveries and events have none. */
  predicate ActsFor(s: State, a: Action, org: Id)
  {
    match a
    case Create(_, o, _, _, _) => o == org
    case Update(_, o, _, _, _, _, _) => o == org
    case CancelIt(_, o, _, _) => o == org
    case Call(r, _, _) => r in s.pending && s.pending[r].org == org
    case Write(r, _, _) => r in s.pending && s.pending[r].org == org
    case _ => false
  }

  predicate SameRow(s: State, t: State, id: Id)
  {
    (id in s.rows <==> id in t.rows) && (id in s.rows ==> t.rows[id] == s.rows[id])
  }

  /** A step changes or adds only rows of the org it acts for; a delivery changes only the status, and
      only on rows of the subscription it is about. */
  lemma StepStaysInside(s: State, a: Action, id: Id)
    ensures !SameRow(s, Next(s, a), id) ==>
              && id in Next(s, a).rows
              && (ActsFor(s, a, Next(s, a).rows[id].org)
                  || (a.Webhook? && id in s.rows && s.rows[id].provider == PROVIDER && s.rows[id].ext == a.ext
                      && Next(s, a).rows[id] == s.rows[id].(status := a.status)))
  {
  }

  predicate LeavesAlone(s: State, a: Action, org: Id) { !ActsFor(s, a, org) && !a.Webhook? }

  predicate AllLeaveAlone(s: State, run: seq<Action>, org: Id)
    decreases |run|
  {
    run == [] || (LeavesAlone(s, run[0], org) && AllLeaveAlone(Next(s, run[0]), run[1..], org))
  }

  /** Whatever other orgs do, and in whatever interleaving, the rows of an org stay as they are. */
  lemma {:induction false} OtherOrgsCannotInterfere(s: State, run: seq<Action>, org: Id, id: Id)
    requires AllLeaveAlone(s, run, org) && id in s.rows && s.rows[id].org == org
    ensures SameRow(s, Continue(s, run), id)
    decreases |run|
  {
    if run != [] {
      StepPersists(s, run[0]);
      StepStaysInside(s, run[0], id);
      OtherOrgsCannotInterfere(Next(s, run[0]), run[1..], org, id);
    }
  }

  /** A delivery with an id and a status that the processor reported gives exactly the rows of that
      subscription the status, whatever their org; every other delivery changes nothing. */
  lemma WebhookReconciles(s: State, ext: string, status: string, id: Id)
    requires id in s.rows
    ensures var t := Next(s, Webhook(ext, status));
            var counts := s.configured && (ext, status) in s.processor.reported && ext != "" && status != "";
            && t.rows.Keys == s.rows.Keys
            && t.rows[id] == if counts && s.rows[id].ext == ext && s.rows[id].provider == "stripe" then s.rows[id].(status := status)
                             else s.rows[id]
  {
  }

  // ----- rows: plans and statuses -----

  /** What the clients of an org asked for. */
  datatype Wish = NewRow(org: Id, plan: Id) | NewPlan(org: Id, id: Id, plan: Id) | NewStatus(org: Id, id: Id, status: string)

  function WishOf(a: Action): set<Wish>
  {
    match a
    case Create(_, org, plan, _, _) => {NewRow(org, plan)}
    case Update(_, org, id, plan, _, status, _) =>
      (if plan.Some? then {NewPlan(org, id, plan.value)} else {})
      + if status.Some? then {NewStatus(org, id, status.value)} else {}
    case _ => {}
  }

  function Wishes(run: seq<Action>): set<Wish> { if run == [] then {} else WishOf(run[0]) + Wishes(run[1..]) }

  predicate Asks(a: Action, w: Wish)
  {
    match w
    case NewRow(org, plan) => a.Create? && a.org == org && a.plan == plan
    case NewPlan(org, id, plan) => a.Update? && a.org == org && a.id == id && a.newPlan == Some(plan)
    case NewStatus(org, id, status) => a.Update? && a.org == org && a.id == id && a.newStatus == Some(status)
  }

  ghost predicate Requested(run: seq<Action>, w: Wish) { exists i :: 0 <= i < |run| && Asks(run[i], w) }

  /** The wishes of a run are the requests in it. */
  lemma {:induction false} WishesAreRequests(run: seq<Action>, w: Wish)
    ensures w in Wishes(run) <==> Requested(run, w)
  {
    if run != [] {
      WishesAreRequests(run[1..], w);
      assert w in WishOf(run[0]) <==> Asks(run[0], w);
      if Requested(run[1..], w) {
        var i :| 0 <= i < |run[1..]| && Asks(run[1..][i], w);
        assert Asks(run[i + 1], w);
      }
      if Requested(run, w) && !Asks(run[0], w) {
        var i :| 0 <= i < |run| && Asks(run[i], w);
        assert Asks(run[1..][i - 1], w);
      }
    }
  }

  predicate PlanWished(wishes: set<Wish>, org: Id, id: Id, plan: Id)
  {
    NewRow(org, plan) in wishes || NewPlan(org, id, plan) in wishes
  }

  /** A status a row may show: one the processor reported for that subscription, or a local end that the
      row's own org asked for. */
  predicate Told(s: State, wishes: set<Wish>, org: Id, id: Id, ext: string, status: string)
  {
    || (ext, status) in s.processor.reported
    || (NewStatus(org, id, status) in wishes && (status == "canceled" || status == "expired"))
  }

  predicate RowHolds(s: State, wishes: set<Wish>, id: Id, row: Row)
  {
    && row.ext != "" && row.provider == PROVIDER && PlanWished(wishes, row.org, id, row.plan)
    && (s.lenient || Told(s, wishes, row.org, id, row.ext, row.status))
  }

  predicate IsAbout(s: State, org: Id, id: Id, ext: string) { id in s.rows && s.rows[id].org == org && s.rows[id].ext == ext }

  predicate PendingHolds(s: State, wishes: set<Wish>, p: Pending)
  {
    match p
    case NeedCustomer(org, plan, _, _) => NewRow(org, plan) in wishes
    case NeedSubscription(org, plan, _, _, _) => NewRow(org, plan) in wishes
    case NeedInsert(org, plan, _, _, ext, status) =>
      NewRow(org, plan) in wishes && ext != "" && (ext, status) in s.processor.reported
    case NeedChange(org, id, plan, _, _, ext) => IsAbout(s, org, id, ext) && NewPlan(org, id, plan) in wishes
    case NeedUpdate(org, id, changes) =>
      && id in s.rows && s.rows[id].org == org && (changes.plan.Some? ==> NewPlan(org, id, changes.plan.value) in wishes)
      && (!s.lenient && changes.status.Some? ==> Told(s, wishes, org, id, s.rows[id].ext, changes.status.value))
    case NeedCancel(org, id, _, ext) => IsAbout(s, org, id, ext)
    case NeedCancelWrite(org, id, status) =>
      id in s.rows && s.rows[id].org == org && (!s.lenient ==> (s.rows[id].ext, status) in s.processor.reported)
  }

  predicate RowsHold(s: State, wishes: set<Wish>)
  {
    && (forall id :: id in s.rows ==> RowHolds(s, wishes, id, s.rows[id]))
    && (forall r :: r in s.pending ==> PendingHolds(s, wishes, s.pending[r]))
  }

  lemma PendingStays(s: State, t: State, wishes: set<Wish>, more: set<Wish>, p: Pending)
    requires PendingHolds(s, wishes, p) && wishes <= more
    requires Persist(s.rows, t.rows) && s.processor.reported <= t.processor.reported && s.lenient == t.lenient
    ensures PendingHolds(t, more, p)
  {
  }

  lemma OthersStay(s: State, a: Action, wishes: set<Wish>, more: set<Wish>, r: Id)
    requires RowsHold(s, wishes) && r in s.pending && wishes <= more
    ensures PendingHolds(Next(s, a), more, s.pending[r])
  {
    StepPersists(s, a);
    OnlyCallsAsk(s, a);
    PendingStays(s, Next(s, a), wishes, more, s.pending[r]);
  }

  lemma AnswerIsReported(s: State, p: Pending, result: Reply, fate: Fate)
    requires KeysHold(s) && Calls(p) && AnswerTo(s, p, result, fate).reply.Some?
    ensures KeysHold(AfterAsk(s, p, result, fate))
    ensures var reply := AnswerTo(s, p, result, fate).reply.value;
            !s.lenient || p.NeedSubscription? ==> Report(RequestOf(p), reply) <= AfterAsk(s, p, result, fate).processor.reported
  {
    AskKeepsKeys(s, p, result, fate);
    var k := DerivedKey(p.key, OpOf(RequestOf(p)));
    if k in s.processor.keyed {
      assert OpOf(s.processor.keyed[k].0) == OpOf(RequestOf(p));
    }
  }

  lemma AnsweredHolds(s: State, wishes: set<Wish>, p: Pending, result: Reply, fate: Fate)
    requires KeysHold(s) && Calls(p) && PendingHolds(s, wishes, p) && AnswerTo(s, p, result, fate).reply.Some?
    ensures var next := Answered(p, AnswerTo(s, p, result, fate).reply.value);
            next.Some? ==> PendingHolds(AfterAsk(s, p, result, fate), wishes, next.value)
  {
    AnswerIsReported(s, p, result, fate);
  }

  lemma CallKeepsRows(s: State, wishes: set<Wish>, r: Id, result: Reply, fate: Fate)
    requires KeysHold(s) && RowsHold(s, wishes)
    ensures RowsHold(DoCall(s, r, result, fate), wishes)
  {
    var t := DoCall(s, r, result, fate);
    if r in s.pending && Calls(s.pending[r]) {
      var p := s.pending[r];
      KeyedGrows(s, p, result, fate);
      if AnswerTo(s, p, result, fate).reply.Some? {
        AnsweredHolds(s, wishes, p, result, fate);
      }
      forall r' | r' in t.pending
        ensures PendingHolds(t, wishes, t.pending[r'])
      {
        if r' != r {
          OthersStay(s, Call(r, result, fate), wishes, wishes, r');
        } else {
          PendingStays(AfterAsk(s, p, result, fate), t, wishes, wishes, t.pending[r]);
        }
      }
    }
  }

  lemma WrittenHolds(s: State, wishes: set<Wish>, p: Pending, newId: Id)
    requires (forall id :: id in s.rows ==> RowHolds(s, wishes, id, s.rows[id])) && PendingHolds(s, wishes, p)
    ensures var t := Written(s, p, newId); forall id :: id in t.rows ==> RowHolds(t, wishes, id, t.rows[id])
  {
  }

  lemma WriteKeepsRows(s: State, wishes: set<Wish>, r: Id, newId: Id, ok: bool)
    requires RowsHold(s, wishes)
    ensures RowsHold(DoWrite(s, r, newId, ok), wishes)
  {
    if r in s.pending && !Calls(s.pending[r]) {
      var t := Written(s, s.pending[r], newId);
      WrittenHolds(s, wishes, s.pending[r], newId);
      WrittenPersists(s, s.pending[r], newId);
      forall r' | r' in s.pending
        ensures PendingHolds(t, wishes, s.pending[r'])
      {
        PendingStays(s, t, wishes, wishes, s.pending[r']);
      }
    }
  }

  lemma ArrivalKeepsRows(s: State, wishes: set<Wish>, a: Action)
    requires RowsHold(s, wishes) && (a.Create? || a.Update? || a.CancelIt?)
    ensures RowsHold(Next(s, a), wishes + WishOf(a))
  {
    var t, more := Next(s, a), wishes + WishOf(a);
    assert t.rows == s.rows && t.processor == s.processor;
    forall r | r in t.pending
      ensures PendingHolds(t, more, t.pending[r])
    {
      if r in s.pending {
        OthersStay(s, a, wishes, more, r);
      } else {
        ArrivalHolds(s, wishes, a);
      }
    }
  }

  lemma ArrivalHolds(s: State, wishes: set<Wish>, a: Action)
    requires RowsHold(s, wishes) && (a.Create? || a.Update? || a.CancelIt?) && a.r !in s.pending
    ensures a.r in Next(s, a).pending ==> PendingHolds(s, wishes + WishOf(a), Next(s, a).pending[a.r])
  {
  }

  lemma RestKeepsRows(s: State, wishes: set<Wish>, a: Action)
    requires RowsHold(s, wishes) && (a.Emit? || a.Webhook?)
    ensures RowsHold(Next(s, a), wishes)
  {
    forall r | r in s.pending
      ensures PendingHolds(Next(s, a), wishes, s.pending[r])
    {
      OthersStay(s, a, wishes, wishes, r);
    }
  }

  lemma StepKeepsRows(s: State, wishes: set<Wish>, a: Action)
    requires KeysHold(s) && RowsHold(s, wishes)
    ensures RowsHold(Next(s, a), wishes + WishOf(a))
  {
    if a.Create? || a.Update? || a.CancelIt? {
      ArrivalKeepsRows(s, wishes, a);
    } else {
      assert wishes + WishOf(a) == wishes;
      match a
      case Call(r, result, fate) => CallKeepsRows(s, wishes, r, result, fate);
      case Write(r, newId, ok) => WriteKeepsRows(s, wishes, r, newId, ok);
      case _ => RestKeepsRows(s, wishes, a);
    }
  }

  // ----- all runs -----

  ghost predicate Inv(s: State, wishes: set<Wish>) { KeysHold(s) && InsertsHold(s) && RowsHold(s, wishes) }

  lemma {:induction false} InvHolds(s: State, wishes: set<Wish>, run: seq<Action>)
    requires Inv(s, wishes)
    ensures Inv(Continue(s, run), wishes + Wishes(run))
    decreases |run|
  {
    if run == [] {
      assert wishes + Wishes(run) == wishes;
    } else {
      StepKeepsKeys(s, run[0]);
      StepKeepsInserts(s, run[0]);
      StepKeepsRows(s, wishes, run[0]);
      InvHolds(Next(s, run[0]), wishes + WishOf(run[0]), run[1..]);
      assert wishes + WishOf(run[0]) + Wishes(run[1..]) == wishes + Wishes(run);
    }
  }

  lemma Reachable(configured: bool, lenient: bool, run: seq<Action>)
    ensures Inv(Continue(Init(configured, lenient), run), Wishes(run))
    ensures Continue(Init(configured, lenient), run).lenient == lenient
  {
    InvHolds(Init(configured, lenient), {}, run);
    assert {} + Wishes(run) == Wishes(run);
    RowsPersist(Init(configured, lenient), run);
  }

  /** Retries are exactly-once on the processor's side: however many creates carry a client key, in
      whatever interleaving, losing whatever answers and failing whatever inserts, at most one customer
      and at most one subscription is made for it, and every row inserted under it is that
      subscription's. */
  lemma CreatesAreExactlyOnce(configured: bool, lenient: bool, run: seq<Action>, key: string)
    ensures var s := Continue(Init(configured, lenient), run);
            && multiset(s.made)[Made(key, CustomerOp)] <= 1
            && multiset(s.made)[Made(key, SubscriptionOp)] <= 1
            && (forall i, j :: i in s.inserted && j in s.inserted && i.key == key && j.key == key ==> i.ext == j.ext)
            && (forall i :: i in s.inserted && i.key == key ==> Made(key, SubscriptionOp) in s.made)
  {
    Reachable(configured, lenient, run);
    var s := Continue(Init(configured, lenient), run);
    forall i | i in s.inserted && i.key == key
      ensures Made(key, SubscriptionOp) in s.made
    {
      assert SubscriptionOf(s, key, i.ext);
    }
  }

  /** The status of a row is one the processor reported for its subscription, or "canceled" or "expired"
      and a request of the row's own org asked for that. */
  ghost predicate IsHonest(s: State, run: seq<Action>, id: Id)
    requires id in s.rows
  {
    var row := s.rows[id];
    || (row.ext, row.status) in s.processor.reported
    || (row.status in {"canceled", "expired"} && Requested(run, NewStatus(row.org, id, row.status)))
  }

  /** Every row, after a run from an empty table, is honest and about a subscription at the processor. */
  ghost predicate RowsAreHonest(configured: bool, lenient: bool, run: seq<Action>)
  {
    var s := Continue(Init(configured, lenient), run);
    forall id :: id in s.rows ==> s.rows[id].ext != "" && s.rows[id].provider == "stripe" && IsHonest(s, run, id)
  }

  /** Against a processor that refuses a key reused for another request, rows are honest after every run;
      in particular "active" always came from the processor. */
  lemma StatusesAreReported(configured: bool, run: seq<Action>)
    ensures RowsAreHonest(configured, false, run)
    ensures var s := Continue(Init(configured, false), run);
            forall id :: id in s.rows && s.rows[id].status == "active" ==> (s.rows[id].ext, "active") in s.processor.reported
  {
    Reachable(configured, false, run);
    var s := Continue(Init(configured, false), run);
    forall id | id in s.rows
      ensures s.rows[id].ext != "" && s.rows[id].provider == "stripe" && IsHonest(s, run, id)
    {
      WishesAreRequests(run, NewStatus(s.rows[id].org, id, s.rows[id].status));
    }
  }

  /** Whatever the processor, a row's plan is one that its own org created a row with or moved this row to. */
  lemma PlansAreAsked(configured: bool, lenient: bool, run: seq<Action>, id: Id)
    requires id in Continue(Init(configured, lenient), run).rows
    ensures var row := Continue(Init(configured, lenient), run).rows[id];
            Requested(run, NewRow(row.org, row.plan)) || Requested(run, NewPlan(row.org, id, row.plan))
  {
    Reachable(configured, lenient, run);
    var row := Continue(Init(configured, lenient), run).rows[id];
    WishesAreRequests(run, NewRow(row.org, row.plan));
    WishesAreRequests(run, NewPlan(row.org, id, row.plan));
  }
}
