/** Subscriptions kept in step with an external processor. A request is a chain of separate steps -
    a lookup, processor calls, one database write - and the steps of many requests interleave with
    each other and with webhook deliveries. The processor's answers, losses included, are inputs. */
module BillingProtocol {
  import opened Text

  type Id = nat

  const PROVIDER := "stripe"

  datatype Row = Row(org: Id, plan: Id, status: string, provider: string, ext: string, customer: string)

  // ----- the processor -----

  datatype Request =
    | NewCustomer(org: Id)
    | NewSubscription(customer: string, price: string, org: Id)
    | ChangePrice(ext: string, price: string)
    | Cancel(ext: string)

  datatype Op = CustomerOp | SubscriptionOp | UpdateOp | CancelOp

  function OpOf(request: Request): Op
  {
    match request
    case NewCustomer(_) => CustomerOp
    case NewSubscription(_, _, _) => SubscriptionOp
    case ChangePrice(_, _) => UpdateOp
    case Cancel(_) => CancelOp
  }

  function Suffix(op: Op): string
  {
    match op
    case CustomerOp => ":customer"
    case SubscriptionOp => ":subscription"
    case UpdateOp => ":update"
    case CancelOp => ":cancel"
  }

  function DerivedKey(key: string, op: Op): string { key + Suffix(op) }

  datatype Reply = Reply(id: string, customer: string, status: string)

  /** What became of a call: never executed, executed with the answer lost, or answered. */
  datatype Fate = Refused | Lost | Delivered

  /** `keyed` is the idempotency store; `reported` has every status the processor ever told for a
      subscription id, in an answer or an event. */
  datatype Processor = Processor(keyed: map<string, (Request, Reply)>, reported: set<(string, string)>)

  /** What an answer to a request tells about subscriptions. */
  function Report(request: Request, reply: Reply): set<(string, string)>
  {
    match request
    case NewCustomer(_) => {}
    case NewSubscription(_, _, _) => {(reply.id, reply.status)}
    case ChangePrice(ext, _) => {(ext, reply.status)}
    case Cancel(ext) => {(ext, reply.status)}
  }

  datatype Answer = Answer(processor: Processor, reply: Option<Reply>, executed: bool)

  /** A repeated key repeats the first result and executes nothing. A key repeated with another
      request is refused by a strict processor and answered all the same by a lenient one. */
  function Ask(p: Processor, lenient: bool, key: string, request: Request, result: Reply, fate: Fate): Answer
  {
    if fate == Refused then Answer(p, None, false)
    else if key in p.keyed then
      var (first, reply) := p.keyed[key];
      Answer(p, if fate == Delivered && (lenient || first == request) then Some(reply) else None, false)
    else
      Answer(Processor(p.keyed[key := (request, result)], p.reported + Report(request, result)),
             if fate == Delivered then Some(result) else None, true)
  }

  // ----- the state -----

  /** Where a request stands between two of its steps. */
  datatype Pending =
    | NeedCustomer(org: Id, plan: Id, price: string, key: string)
    | NeedSubscription(org: Id, plan: Id, price: string, key: string, customer: string)
    | NeedInsert(org: Id, plan: Id, key: string, customer: string, ext: string, status: string)
    | NeedChange(org: Id, id: Id, plan: Id, price: string, key: string, ext: string)
    | NeedUpdate(org: Id, id: Id, changes: Changes)
    | NeedCancel(org: Id, id: Id, key: string, ext: string)
    | NeedCancelWrite(org: Id, id: Id, status: string)

  /** The columns an update sets. */
  datatype Changes = Changes(plan: Option<Id>, status: Option<string>, customer: Option<string>)

  /** A creation or change the processor executed for a client key. */
  datatype Made = Made(key: string, op: Op)

  datatype Inserted = Inserted(id: Id, key: string, ext: string)

  datatype State = State(configured: bool, lenient: bool, rows: map<Id, Row>, order: seq<Id>, processor: Processor,
                         pending: map<Id, Pending>, made: seq<Made>, inserted: seq<Inserted>)

  function Init(configured: bool, lenient: bool): State
  {
    State(configured, lenient, map[], [], Processor(map[], {}), map[], [], [])
  }

  datatype Action =
    | Create(r: Id, org: Id, plan: Id, price: Option<string>, key: string)
    | Update(r: Id, org: Id, id: Id, newPlan: Option<Id>, price: Option<string>, newStatus: Option<string>, key: string)
    | CancelIt(r: Id, org: Id, id: Id, key: string)
    | Call(r: Id, result: Reply, fate: Fate)
    | Write(r: Id, newId: Id, ok: bool)
    | Emit(ext: string, status: string)
    | Webhook(ext: string, status: string)

  // ----- the steps -----

  predicate IsSpace(c: char)
  {
    var n := c as int;
    9 <= n <= 13 || n == 32 || n == 0x85 || n == 0xA0 || n == 0x1680 || 0x2000 <= n <= 0x200A
    || n == 0x2028 || n == 0x2029 || n == 0x202F || n == 0x205F || n == 0x3000
  }

  predicate Blank(price: Option<string>) { price.Some? ==> forall i :: 0 <= i < |price.value| ==> IsSpace(price.value[i]) }

  predicate IsLocal(status: string) { status == "canceled" || status == "expired" }

  /** The customer of the newest row of the org that has one; empty when none does. */
  function LatestCustomer(rows: map<Id, Row>, order: seq<Id>, org: Id): string
  {
    if order == [] then ""
    else
      var id := order[|order| - 1];
      if id in rows && rows[id].org == org && rows[id].provider == PROVIDER && rows[id].customer != ""
      then rows[id].customer
      else LatestCustomer(rows, order[..|order| - 1], org)
  }

  function Park(s: State, r: Id, p: Pending): State { s.(pending := s.pending[r := p]) }

  function Drop(s: State, r: Id): State { s.(pending := s.pending - {r}) }

  function DoCreate(s: State, r: Id, org: Id, plan: Id, price: Option<string>, key: string): State
  {
    if !s.configured || Blank(price) then s
    else
      var customer := LatestCustomer(s.rows, s.order, org);
      Park(s, r, if customer == "" then NeedCustomer(org, plan, price.value, key)
                 else NeedSubscription(org, plan, price.value, key, customer))
  }

  function DoUpdate(s: State, r: Id, org: Id, id: Id, plan: Option<Id>, price: Option<string>, status: Option<string>,
                    key: string): State
  {
    if plan.Some? && status.Some? then s
    else if status.Some? && !IsLocal(status.value) then s
    else if id !in s.rows || s.rows[id].org != org then s
    else if plan.None? || s.rows[id].ext == "" then Park(s, r, NeedUpdate(org, id, Changes(plan, status, None)))
    else if !s.configured || Blank(price) then s
    else Park(s, r, NeedChange(org, id, plan.value, price.value, key, s.rows[id].ext))
  }

  function DoCancel(s: State, r: Id, org: Id, id: Id, key: string): State
  {
    if id !in s.rows || s.rows[id].org != org then s
    else if s.rows[id].ext == "" then Park(s, r, NeedCancelWrite(org, id, "canceled"))
    else if !s.configured then s
    else Park(s, r, NeedCancel(org, id, key, s.rows[id].ext))
  }

  predicate Calls(p: Pending) { p.NeedCustomer? || p.NeedSubscription? || p.NeedChange? || p.NeedCancel? }

  function RequestOf(p: Pending): Request
    requires Calls(p)
  {
    match p
    case NeedCustomer(org, _, _, _) => NewCustomer(org)
    case NeedSubscription(org, _, price, _, customer) => NewSubscription(customer, price, org)
    case NeedChange(_, _, _, price, _, ext) => ChangePrice(ext, price)
    case NeedCancel(_, _, _, ext) => Cancel(ext)
  }

  /** Where the request stands once the processor has answered; None when it fails on the answer. */
  function Answered(p: Pending, reply: Reply): Option<Pending>
    requires Calls(p)
  {
    match p
    case NeedCustomer(org, plan, price, key) =>
      if reply.id == "" then None else Some(NeedSubscription(org, plan, price, key, reply.id))
    case NeedSubscription(org, plan, _, key, customer) =>
      if reply.id == "" then None else Some(NeedInsert(org, plan, key, customer, reply.id, reply.status))
    case NeedChange(org, id, plan, _, _, _) =>
      Some(NeedUpdate(org, id, Changes(Some(plan), Some(reply.status),
                                       if reply.customer != "" then Some(reply.customer) else None)))
    case NeedCancel(org, id, _, _) => Some(NeedCancelWrite(org, id, reply.status))
  }

  function AnswerTo(s: State, p: Pending, result: Reply, fate: Fate): Answer
    requires Calls(p)
  {
    Ask(s.processor, s.lenient, DerivedKey(p.key, OpOf(RequestOf(p))), RequestOf(p), result, fate)
  }

  function AfterAsk(s: State, p: Pending, result: Reply, fate: Fate): State
    requires Calls(p)
  {
    var answer := AnswerTo(s, p, result, fate);
    s.(processor := answer.processor,
       made := if answer.executed then s.made + [Made(p.key, OpOf(RequestOf(p)))] else s.made)
  }

  function DoCall(s: State, r: Id, result: Reply, fate: Fate): State
  {
    if r !in s.pending || !Calls(s.pending[r]) then s
    else
      var p := s.pending[r];
      var s' := AfterAsk(s, p, result, fate);
      match AnswerTo(s, p, result, fate).reply
      case None => Drop(s', r)
      case Some(reply) =>
        match Answered(p, reply)
        case None => Drop(s', r)
        case Some(p') => Park(s', r, p')
  }

  function Or<T>(change: Option<T>, value: T): T { if change.Some? then change.value else value }

  function ChangedRow(row: Row, c: Changes): Row
  {
    row.(plan := Or(c.plan, row.plan), status := Or(c.status, row.status), customer := Or(c.customer, row.customer))
  }

  /** The database write that ends a request. An insert takes an id not used before; the updates match
      on id and org and may find no row. */
  function Written(s: State, p: Pending, newId: Id): State
  {
    match p
    case NeedInsert(org, plan, key, customer, ext, status) =>
      if newId in s.rows then s
      else s.(rows := s.rows[newId := Row(org, plan, status, PROVIDER, ext, customer)], order := s.order + [newId],
              inserted := s.inserted + [Inserted(newId, key, ext)])
    case NeedUpdate(org, id, changes) =>
      if id in s.rows && s.rows[id].org == org then s.(rows := s.rows[id := ChangedRow(s.rows[id], changes)]) else s
    case NeedCancelWrite(org, id, status) =>
      if id in s.rows && s.rows[id].org == org then s.(rows := s.rows[id := s.rows[id].(status := status)]) else s
    case _ => s
  }

  function DoWrite(s: State, r: Id, newId: Id, ok: bool): State
  {
    if r !in s.pending || Calls(s.pending[r]) then s
    else Drop(if ok then Written(s, s.pending[r], newId) else s, r)
  }

  function Reconciled(rows: map<Id, Row>, ext: string, status: string): map<Id, Row>
  {
    map id | id in rows :: if rows[id].provider == PROVIDER && rows[id].ext == ext then rows[id].(status := status) else rows[id]
  }

  /** A delivery only counts when its signature shows that the processor reported it, at whatever time. */
  function DoWebhook(s: State, ext: string, status: string): State
  {
    if !s.configured || (ext, status) !in s.processor.reported || ext == "" || status == "" then s
    else s.(rows := Reconciled(s.rows, ext, status))
  }

  function Next(s: State, a: Action): State
  {
    match a
    case Create(r, org, plan, price, key) => if r in s.pending then s else DoCreate(s, r, org, plan, price, key)
    case Update(r, org, id, plan, price, status, key) =>
      if r in s.pending then s else DoUpdate(s, r, org, id, plan, price, status, key)
    case CancelIt(r, org, id, key) => if r in s.pending then s else DoCancel(s, r, org, id, key)
    case Call(r, result, fate) => DoCall(s, r, result, fate)
    case Write(r, newId, ok) => DoWrite(s, r, newId, ok)
    case Emit(ext, status) => s.(processor := s.processor.(reported := s.processor.reported + {(ext, status)}))
    case Webhook(ext, status) => DoWebhook(s, ext, status)
  }

  function Continue(s: State, run: seq<Action>): State
    decreases |run|
  {
    if run == [] then s else Continue(Next(s, run[0]), run[1..])
  }

  function Three(s: State, a: Action, b: Action, c: Action): State { Next(Next(Next(s, a), b), c) }

  lemma ContinueThree(s: State, a: Action, b: Action, c: Action)
    ensures Continue(s, [a, b, c]) == Three(s, a, b, c)
  {
    assert [a, b, c][1..] == [b, c] && [b, c][1..] == [c] && [c][1..] == [];
    assert Continue(Next(s, a), [b, c]) == Continue(Next(Next(s, a), b), [c]);
    assert Continue(Next(Next(s, a), b), [c]) == Continue(Three(s, a, b, c), []);
  }

  lemma ContinueFour(s: State, a: Action, b: Action, c: Action, d: Action)
    ensures Continue(s, [a, b, c, d]) == Next(Three(s, a, b, c), d)
  {
    ContinueThree(Next(s, a), b, c, d);
    assert [a, b, c, d][1..] == [b, c, d];
  }

  lemma {:induction false} ContinueConcat(s: State, first: seq<Action>, second: seq<Action>)
    ensures Continue(s, first + second) == Continue(Continue(s, first), second)
    decreases |first|
  {
    if first == [] {
      assert first + second == second;
    } else {
      assert (first + second)[1..] == first[1..] + second;
      ContinueConcat(Next(s, first[0]), first[1..], second);
    }
  }

  // ----- keys and customers -----

  /** A derived key names one client key and one operation. */
  lemma DerivedKeysAreInjective(key1: string, op1: Op, key2: string, op2: Op)
    ensures DerivedKey(key1, op1) == DerivedKey(key2, op2) <==> key1 == key2 && op1 == op2
  {
    var d1, d2 := DerivedKey(key1, op1), DerivedKey(key2, op2);
    if d1 == d2 {
      LastOfSuffix(key1, op1);
      LastOfSuffix(key2, op2);
      assert op1 == op2;
      assert key1 == d1[..|d1| - |Suffix(op1)|] && key2 == d2[..|d2| - |Suffix(op2)|];
    }
  }

  function LastChar(op: Op): char
  {
    match op
    case CustomerOp => 'r'
    case SubscriptionOp => 'n'
    case UpdateOp => 'e'
    case CancelOp => 'l'
  }

  lemma LastOfSuffix(key: string, op: Op)
    ensures var d := DerivedKey(key, op); d != "" && d[|d| - 1] == LastChar(op)
  {
  }

  predicate HasCustomer(rows: map<Id, Row>, org: Id, id: Id)
  {
    id in rows && rows[id].org == org && rows[id].provider == PROVIDER && rows[id].customer != ""
  }

  /** The lookup gives the customer of the org's newest row that has one, and nothing only when no row
      of the org has one. */
  lemma {:induction false} LatestCustomerIsNewest(rows: map<Id, Row>, order: seq<Id>, org: Id)
    ensures LatestCustomer(rows, order, org) == ""
       <==> forall i :: 0 <= i < |order| ==> !HasCustomer(rows, org, order[i])
    ensures LatestCustomer(rows, order, org) != "" ==>
              exists i :: 0 <= i < |order| && HasCustomer(rows, org, order[i])
                          && LatestCustomer(rows, order, org) == rows[order[i]].customer
                          && forall j :: i < j < |order| ==> !HasCustomer(rows, org, order[j])
  {
    if order != [] {
      var last := |order| - 1;
      LatestCustomerIsNewest(rows, order[..last], org);
      if HasCustomer(rows, org, order[last]) {
        assert LatestCustomer(rows, order, org) == rows[order[last]].customer;
      } else if LatestCustomer(rows, order, org) != "" {
        var i :| 0 <= i < last && HasCustomer(rows, org, order[..last][i])
                 && LatestCustomer(rows, order[..last], org) == rows[order[..last][i]].customer
                 && forall j :: i < j < last ==> !HasCustomer(rows, org, order[..last][j]);
        assert forall j :: i < j < last ==> order[..last][j] == order[j];
        assert order[i] == order[..last][i];
      } else {
        assert forall j :: 0 <= j < last ==> order[..last][j] == order[j];
      }
    }
  }
}
