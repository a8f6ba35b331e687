/** The billing handlers, the provider and the repository as they run: fields changed step by step.
    Each handler, run alone, is proved to be one run of the steps of BillingProtocol, so what holds of
    all interleavings of steps holds of these bodies. */
module BillingService {
  import opened Text
  import opened BillingProtocol

  datatype Response = RowCreated(id: Id) | Ok | NoContent | NotImplemented | BadRequest | NotFound | BadGateway | InternalError

  /** What the provider reports back; None for an error. */
  datatype Result = Result(ext: string, customer: string, status: string)

  /** The inputs the processor decides in one call. */
  datatype Fortune = Fortune(result: Reply, fate: Fate)

  function CreateRun(s: State, org: Id, plan: Id, price: Option<string>, key: string, first: Fortune, second: Fortune,
                     newId: Id, ok: bool): seq<Action>
  {
    if !s.configured || Blank(price) || LatestCustomer(s.rows, s.order, org) != ""
    then [Create(0, org, plan, price, key), Call(0, second.result, second.fate), Write(0, newId, ok)]
    else [Create(0, org, plan, price, key), Call(0, first.result, first.fate),
          Call(0, second.result, second.fate), Write(0, newId, ok)]
  }

  function UpdateRun(org: Id, id: Id, plan: Option<Id>, price: Option<string>, status: Option<string>, key: string,
                     fortune: Fortune, ok: bool): seq<Action>
  {
    [Update(0, org, id, plan, price, status, key), Call(0, fortune.result, fortune.fate), Write(0, 0, ok)]
  }

  function CancelRun(org: Id, id: Id, key: string, fortune: Fortune, ok: bool): seq<Action>
  {
    [CancelIt(0, org, id, key), Call(0, fortune.result, fortune.fate), Write(0, 0, ok)]
  }

  class Billing {
    const configured: bool
    const lenient: bool
    var rows: map<Id, Row>
    var order: seq<Id>
    var processor: Processor
    ghost var made: seq<Made>
    ghost var inserted: seq<Inserted>

    ghost function View(): State
      reads this
    {
      State(configured, lenient, rows, order, processor, map[], made, inserted)
    }

    constructor (configured: bool, lenient: bool)
      ensures View() == Init(configured, lenient)
    {
      this.configured, this.lenient := configured, lenient;
      rows, order, processor, made, inserted := map[], [], Processor(map[], {}), [], [];
    }

    // ----- the processor -----

    /** The first call under a derived key that the processor executes is stored with its result; a later
        one executes nothing. An answer is always the stored result, and it comes when it is not lost and
        the request is the stored one or the processor does not care. */
    method AskProcessor(key: string, request: Request, fortune: Fortune) returns (reply: Option<Reply>)
      modifies this`processor, this`made
      ensures var k := DerivedKey(key, OpOf(request));
              && (k in old(processor).keyed || fortune.fate == Refused ==> processor == old(processor) && made == old(made))
              && (k !in old(processor).keyed && fortune.fate != Refused ==>
                    && processor.keyed == old(processor).keyed[k := (request, fortune.result)]
                    && processor.reported == old(processor).reported + Report(request, fortune.result)
                    && made == old(made) + [Made(key, OpOf(request))])
              && (reply.Some? <==> fortune.fate == Delivered && (processor.keyed[k].0 == request || lenient))
              && (reply.Some? ==> reply.value == processor.keyed[k].1)
    {
      var answer := Ask(processor, lenient, DerivedKey(key, OpOf(request)), request, fortune.result, fortune.fate);
      processor := answer.processor;
      reply := answer.reply;
      if answer.executed {
        made := made + [Made(key, OpOf(request))];
      }
    }

    // ----- the repository -----

    /** The customer of the org's newest row that has one; empty exactly when none has. */
    method GetLatestExternalCustomerID(org: Id) returns (customer: string)
      ensures customer == LatestCustomer(rows, order, org)
      ensures customer == "" <==> forall i :: 0 <= i < |order| ==> !HasCustomer(rows, org, order[i])
    {
      LatestCustomerIsNewest(rows, order, org);
      customer := LatestCustomer(rows, order, org);
    }

    method InsertSubscription(id: Id, row: Row, key: string, ok: bool) returns (done: bool)
      modifies this`rows, this`order, this`inserted
      ensures done == (ok && id !in old(rows))
      ensures rows == if done then old(rows)[id := row] else old(rows)
      ensures order == if done then old(order) + [id] else old(order)
      ensures inserted == if done then old(inserted) + [Inserted(id, key, row.ext)] else old(inserted)
    {
      done := ok && id !in rows;
      if done {
        rows := rows[id := row];
        order := order + [id];
        inserted := inserted + [Inserted(id, key, row.ext)];
      }
    }

    method UpdateSubscriptionRow(id: Id, org: Id, changes: Changes, ok: bool) returns (found: bool)
      modifies this`rows
      ensures found == (ok && id in old(rows) && old(rows)[id].org == org)
      ensures rows == if found then old(rows)[id := ChangedRow(old(rows)[id], changes)] else old(rows)
    {
      found := ok && id in rows && rows[id].org == org;
      if found {
        rows := rows[id := ChangedRow(rows[id], changes)];
      }
    }

    method CancelSubscriptionRow(id: Id, org: Id, status: string, ok: bool) returns (found: bool)
      modifies this`rows
      ensures found == (ok && id in old(rows) && old(rows)[id].org == org)
      ensures rows == if found then old(rows)[id := old(rows)[id].(status := status)] else old(rows)
    {
      found := ok && id in rows && rows[id].org == org;
      if found {
        rows := rows[id := rows[id].(status := status)];
      }
    }

    /** Every row of the subscription, whatever its org; nothing for an empty id or status. */
    method UpdateSubscriptionStatusByExternalID(ext: string, status: string)
      modifies this`rows
      ensures rows == if ext == "" || status == "" then old(rows) else Reconciled(old(rows), ext, status)
    {
      if ext == "" || status == "" {
        return;
      }
      rows := map id | id in rows :: if rows[id].provider == PROVIDER && rows[id].ext == ext then rows[id].(status := status)
                                     else rows[id];
    }

    // ----- the provider -----

    method ProviderCustomer(org: Id, ghost plan: Id, ghost price: string, existing: string, key: string, first: Fortune)
      returns (customer: Option<string>)
      modifies this`processor, this`made
      ensures var t := CustomerStep(old(View()), org, plan, price, existing, key, first);
              && View() == t.(pending := map[])
              && t.pending == if customer.None? then map[]
                              else map[0 := NeedSubscription(org, plan, price, key, customer.value)]
      ensures var k := DerivedKey(key, CustomerOp);
              customer.Some? ==> if existing != "" then customer.value == existing
                                 else customer.value != "" && k in processor.keyed && processor.keyed[k].1.id == customer.value
      ensures forall k :: k in old(processor).keyed ==> k in processor.keyed && processor.keyed[k] == old(processor).keyed[k]
    {
      if existing != "" {
        return Some(existing);
      }
      ghost var p := NeedCustomer(org, plan, price, key);
      CallEffect(Parked(View(), p), p, first);
      var reply := AskProcessor(key, NewCustomer(org), first);
      return if reply.None? || reply.value.id == "" then None else Some(reply.value.id);
    }

    /** Makes a customer when the org has none, then the subscription; gives up on the first call that
        fails or answers without an id. */
    method ProviderCreate(org: Id, ghost plan: Id, price: string, existing: string, key: string, first: Fortune,
                          second: Fortune)
      returns (result: Option<Result>)
      modifies this`processor, this`made
      ensures var t := Next(CustomerStep(old(View()), org, plan, price, existing, key, first),
                            Call(0, second.result, second.fate));
              && View() == t.(pending := map[])
              && t.pending == if result.None? then map[]
                              else map[0 := NeedInsert(org, plan, key, result.value.customer, result.value.ext, result.value.status)]
      ensures var c, k := DerivedKey(key, CustomerOp), DerivedKey(key, SubscriptionOp);
              result.Some? ==>
                && (if existing != "" then result.value.customer == existing
                    else result.value.customer != "" && c in processor.keyed && processor.keyed[c].1.id == result.value.customer)
                && k in processor.keyed && result.value.ext != ""
                && processor.keyed[k].1.id == result.value.ext && processor.keyed[k].1.status == result.value.status
    {
      var customer := ProviderCustomer(org, plan, price, existing, key, first);
      if customer.None? {
        return None;
      }
      ghost var p := NeedSubscription(org, plan, price, key, customer.value);
      CallEffect(Parked(View(), p), p, second);
      var sub := AskProcessor(key, NewSubscription(customer.value, price, org), second);
      if sub.None? || sub.value.id == "" {
        return None;
      }
      return Some(Result(sub.value.id, customer.value, sub.value.status));
    }

    // ----- the handlers -----

    /** A create is one run of steps, and the client is told 201 exactly when a row was inserted: with the
        plan asked for, the customer on file or else the one made, and the subscription and status that the
        processor answered. */
    method CreateSubscription(org: Id, plan: Id, price: Option<string>, key: string, first: Fortune, second: Fortune,
                              newId: Id, ok: bool)
      returns (response: Response)
      modifies this
      ensures View() == Continue(old(View()), CreateRun(old(View()), org, plan, price, key, first, second, newId, ok))
      ensures response == NotImplemented <==> !configured
      ensures response == BadRequest <==> configured && Blank(price)
      ensures response == NotImplemented || response == BadRequest ==> View() == old(View())
      ensures response.RowCreated? <==> rows != old(rows)
      ensures response.RowCreated? ==>
                var onFile := LatestCustomer(old(rows), old(order), org);
                var c, k := DerivedKey(key, CustomerOp), DerivedKey(key, SubscriptionOp);
                && k in processor.keyed && (onFile == "" ==> c in processor.keyed)
                && var sub, customer := processor.keyed[k].1, if onFile == "" then processor.keyed[c].1.id else onFile;
                   && response.id == newId && newId !in old(rows) && sub.id != "" && customer != ""
                   && rows == old(rows)[newId := Row(org, plan, sub.status, "stripe", sub.id, customer)]
    {
      ghost var s := View();
      CreateSteps(s, org, plan, price, key, first, second, newId, ok);
      if !configured {
        return NotImplemented;
      }
      if Blank(price) {
        return BadRequest;
      }
      var existing := GetLatestExternalCustomerID(org);
      var result := ProviderCreate(org, plan, price.value, existing, key, first, second);
      if result.None? {
        return BadGateway;
      }
      var row := Row(org, plan, result.value.status, PROVIDER, result.value.ext, result.value.customer);
      var done := InsertSubscription(newId, row, key, ok);
      return if done then RowCreated(newId) else InternalError;
    }

    /** The plan change at the processor, when the row has a subscription there. */
    method ChangePlan(org: Id, id: Id, plan: Id, price: string, key: string, ext: string, fortune: Fortune)
      returns (changes: Option<Changes>)
      modifies this`processor, this`made
      ensures var p := NeedChange(org, id, plan, price, key, ext);
              var t := Next(Parked(old(View()), p), Call(0, fortune.result, fortune.fate));
              && View() == t.(pending := map[])
              && t.pending == if changes.None? then map[] else map[0 := NeedUpdate(org, id, changes.value)]
      ensures var k := DerivedKey(key, UpdateOp);
              && (changes.Some? <==> fortune.fate == Delivered && (processor.keyed[k].0 == ChangePrice(ext, price) || lenient))
              && (changes.Some? ==>
                    var reply := processor.keyed[k].1;
                    changes.value == Changes(Some(plan), Some(reply.status), if reply.customer == "" then None else Some(reply.customer)))
    {
      ghost var p := NeedChange(org, id, plan, price, key, ext);
      CallEffect(Parked(View(), p), p, fortune);
      var reply := AskProcessor(key, ChangePrice(ext, price), fortune);
      if reply.None? {
        return None;
      }
      var customer := if reply.value.customer != "" then Some(reply.value.customer) else None;
      return Some(Changes(Some(plan), Some(reply.value.status), customer));
    }

    /** An update is one run of steps; a row of another org is answered like a missing one. Ok means that
        the row shows what was asked for: a local end, a plan, and for a plan of a subscription at the
        processor also the status and customer answered there. Any other answer means that no row changed. */
    method UpdateSubscription(org: Id, id: Id, plan: Option<Id>, price: Option<string>, status: Option<string>, key: string,
                              fortune: Fortune, ok: bool)
      returns (response: Response)
      modifies this
      ensures View() == Continue(old(View()), UpdateRun(org, id, plan, price, status, key, fortune, ok))
      ensures response != Ok ==> rows == old(rows)
      ensures response == Ok ==>
                && id in old(rows) && old(rows)[id].org == org
                && var row := old(rows)[id];
                   && (plan.None? && status.None? ==> rows == old(rows))
                   && (status.Some? ==> rows == old(rows)[id := row.(status := status.value)])
                   && (plan.Some? && row.ext == "" ==> rows == old(rows)[id := row.(plan := plan.value)])
                   && (plan.Some? && row.ext != "" ==>
                         var k := DerivedKey(key, UpdateOp);
                         && k in processor.keyed
                         && (lenient || (price.Some? && processor.keyed[k].0 == ChangePrice(row.ext, price.value)))
                         && var reply := processor.keyed[k].1;
                            rows == old(rows)[id := Row(org, plan.value, reply.status, row.provider, row.ext,
                                                        if reply.customer == "" then row.customer else reply.customer)])
      ensures var valid := !(plan.Some? && status.Some?) && (status.Some? ==> IsLocal(status.value));
              && (!valid ==> response == BadRequest && View() == old(View()))
              && (valid ==> (response == NotFound <==> id !in old(rows) || old(rows)[id].org != org))
    {
      ghost var s := View();
      UpdateSteps(s, org, id, plan, price, status, key, fortune, ok);
      if status.Some? && !IsLocal(status.value) {
        return BadRequest;
      }
      if plan.Some? && status.Some? {
        return BadRequest;
      }
      if id !in rows || rows[id].org != org {
        return NotFound;
      }
      var changes := Changes(plan, status, None);
      if plan.Some? && rows[id].ext != "" {
        if !configured {
          return NotImplemented;
        }
        if Blank(price) {
          return BadRequest;
        }
        var result := ChangePlan(org, id, plan.value, price.value, key, rows[id].ext, fortune);
        if result.None? {
          return BadGateway;
        }
        changes := result.value;
      }
      var found := UpdateSubscriptionRow(id, org, changes, ok);
      return if found then Ok else InternalError;
    }

    /** The cancellation at the processor, when the row has a subscription there. */
    method CancelAtProcessor(org: Id, id: Id, key: string, ext: string, fortune: Fortune) returns (status: Option<string>)
      modifies this`processor, this`made
      ensures var p := NeedCancel(org, id, key, ext);
              var t := Next(Parked(old(View()), p), Call(0, fortune.result, fortune.fate));
              && View() == t.(pending := map[])
              && t.pending == if status.None? then map[] else map[0 := NeedCancelWrite(org, id, status.value)]
      ensures var k := DerivedKey(key, CancelOp);
              && (status.Some? <==> fortune.fate == Delivered && (processor.keyed[k].0 == Cancel(ext) || lenient))
              && (status.Some? ==> status.value == processor.keyed[k].1.status)
    {
      ghost var p := NeedCancel(org, id, key, ext);
      CallEffect(Parked(View(), p), p, fortune);
      var reply := AskProcessor(key, Cancel(ext), fortune);
      return if reply.None? then None else Some(reply.value.status);
    }

    /** A cancellation is one run of steps. NoContent means that the row shows the status that the processor
        stored for this very cancellation, whatever it is, or "canceled" when the row never had a
        subscription; any other answer means that no row changed. */
    method CancelSubscription(org: Id, id: Id, key: string, fortune: Fortune, ok: bool) returns (response: Response)
      modifies this
      ensures View() == Continue(old(View()), CancelRun(org, id, key, fortune, ok))
      ensures response == NotFound <==> id !in old(rows) || old(rows)[id].org != org
      ensures response == NotImplemented <==>
                id in old(rows) && old(rows)[id].org == org && old(rows)[id].ext != "" && !configured
      ensures response != NoContent ==> rows == old(rows)
      ensures response == NoContent ==>
                var row, k := old(rows)[id], DerivedKey(key, CancelOp);
                && (row.ext == "" ==> rows == old(rows)[id := row.(status := "canceled")])
                && (row.ext != "" ==>
                      && k in processor.keyed && (lenient || processor.keyed[k].0 == Cancel(row.ext))
                      && rows == old(rows)[id := row.(status := processor.keyed[k].1.status)])
      ensures response == NoContent <==>
                && id in old(rows) && old(rows)[id].org == org && ok
                && var ext, k := old(rows)[id].ext, DerivedKey(key, CancelOp);
                   || ext == ""
                   || (configured && fortune.fate == Delivered
                       && (lenient || (k in processor.keyed && processor.keyed[k].0 == Cancel(ext))))
    {
      ghost var s := View();
      CancelSteps(s, org, id, key, fortune, ok);
      if id !in rows || rows[id].org != org {
        return NotFound;
      }
      var realStatus := "canceled";
      if rows[id].ext != "" {
        if !configured {
          return NotImplemented;
        }
        var result := CancelAtProcessor(org, id, key, rows[id].ext, fortune);
        if result.None? {
          return BadGateway;
        }
        realStatus := result.value;
      }
      var found := CancelSubscriptionRow(id, org, realStatus, ok);
      return if found then NoContent else InternalError;
    }

    /** A delivery whose signature verified, so that the processor did report what it says. */
    method StripeWebhook(ext: string, status: string) returns (response: Response)
      requires (ext, status) in processor.reported
      modifies this`rows
      ensures View() == Next(old(View()), Webhook(ext, status))
      ensures response == if configured then Ok else NotImplemented
      ensures rows.Keys == old(rows).Keys
      ensures forall id :: id in rows ==>
                rows[id] == if configured && ext != "" && status != "" && old(rows)[id].ext == ext && old(rows)[id].provider == "stripe"
                            then old(rows)[id].(status := status) else old(rows)[id]
    {
      if !configured {
        return NotImplemented;
      }
      if ext != "" && status != "" {
        UpdateSubscriptionStatusByExternalID(ext, status);
      }
      return Ok;
    }
  }

  function Parked(s: State, p: Pending): State { s.(pending := map[0 := p]) }

  /** A create up to the point where it has a customer. */
  function CustomerStep(s: State, org: Id, plan: Id, price: string, existing: string, key: string, first: Fortune): State
  {
    if existing == "" then Next(Parked(s, NeedCustomer(org, plan, price, key)), Call(0, first.result, first.fate))
    else Parked(s, NeedSubscription(org, plan, price, key, existing))
  }

  lemma CallEffect(s: State, p: Pending, fortune: Fortune)
    requires s.pending == map[0 := p] && Calls(p)
    ensures var t, reply := Next(s, Call(0, fortune.result, fortune.fate)), AnswerTo(s, p, fortune.result, fortune.fate).reply;
            var next := if reply.None? then None else Answered(p, reply.value);
            t == AfterAsk(s, p, fortune.result, fortune.fate).(pending := if next.None? then map[] else map[0 := next.value])
  {
  }

  lemma CreateSteps(s: State, org: Id, plan: Id, price: Option<string>, key: string, first: Fortune, second: Fortune,
                    newId: Id, ok: bool)
    requires s.pending == map[]
    ensures Continue(s, CreateRun(s, org, plan, price, key, first, second, newId, ok))
         == if !s.configured || Blank(price) then s
            else Next(Next(CustomerStep(s, org, plan, price.value, LatestCustomer(s.rows, s.order, org), key, first),
                           Call(0, second.result, second.fate)),
                      Write(0, newId, ok))
  {
    var a := Create(0, org, plan, price, key);
    var c, d := Call(0, second.result, second.fate), Write(0, newId, ok);
    var b := Call(0, first.result, first.fate);
    ContinueThree(s, a, c, d);
    ContinueFour(s, a, b, c, d);
  }

  /** An update whose changes are known, after its write. */
  function UpdateWritten(s: State, ok: bool): State
  {
    if 0 !in s.pending || !s.pending[0].NeedUpdate? then s.(pending := s.pending - {0})
    else
      var p := s.pending[0];
      var found := ok && p.id in s.rows && s.rows[p.id].org == p.org;
      s.(pending := s.pending - {0}, rows := if found then s.rows[p.id := ChangedRow(s.rows[p.id], p.changes)] else s.rows)
  }

  lemma UpdateIsWritten(s: State, ok: bool)
    requires s.pending == map[] || (s.pending.Keys == {0} && s.pending[0].NeedUpdate?)
    ensures Next(s, Write(0, 0, ok)) == UpdateWritten(s, ok)
  {
    assert s.pending == map[] ==> s.pending - {0} == s.pending;
  }

  lemma UpdateSteps(s: State, org: Id, id: Id, plan: Option<Id>, price: Option<string>, status: Option<string>, key: string,
                    fortune: Fortune, ok: bool)
    requires s.pending == map[]
    ensures Continue(s, UpdateRun(org, id, plan, price, status, key, fortune, ok))
         == if (plan.Some? && status.Some?) || (status.Some? && !IsLocal(status.value)) || id !in s.rows || s.rows[id].org != org then s
            else if plan.None? || s.rows[id].ext == "" then
              if ok then s.(rows := s.rows[id := ChangedRow(s.rows[id], Changes(plan, status, None))]) else s
            else if !s.configured || Blank(price) then s
            else UpdateWritten(Next(Parked(s, NeedChange(org, id, plan.value, price.value, key, s.rows[id].ext)),
                                    Call(0, fortune.result, fortune.fate)), ok)
  {
    ContinueThree(s, Update(0, org, id, plan, price, status, key), Call(0, fortune.result, fortune.fate), Write(0, 0, ok));
    var s1 := DoUpdate(s, 0, org, id, plan, price, status, key);
    UpdateIsWritten(Next(s1, Call(0, fortune.result, fortune.fate)), ok);
  }

  /** A cancellation whose status is known, after its write. */
  function CancelWritten(s: State, ok: bool): State
  {
    if 0 !in s.pending || !s.pending[0].NeedCancelWrite? then s.(pending := s.pending - {0})
    else
      var p := s.pending[0];
      var found := ok && p.id in s.rows && s.rows[p.id].org == p.org;
      s.(pending := s.pending - {0}, rows := if found then s.rows[p.id := s.rows[p.id].(status := p.status)] else s.rows)
  }

  lemma CancelIsWritten(s: State, ok: bool)
    requires s.pending == map[] || (s.pending.Keys == {0} && s.pending[0].NeedCancelWrite?)
    ensures Next(s, Write(0, 0, ok)) == CancelWritten(s, ok)
  {
    assert s.pending == map[] ==> s.pending - {0} == s.pending;
  }

  lemma CancelSteps(s: State, org: Id, id: Id, key: string, fortune: Fortune, ok: bool)
    requires s.pending == map[]
    ensures Continue(s, CancelRun(org, id, key, fortune, ok))
         == if id !in s.rows || s.rows[id].org != org then s
            else if s.rows[id].ext == "" then
              if ok then s.(rows := s.rows[id := s.rows[id].(status := "canceled")]) else s
            else if !s.configured then s
            else CancelWritten(Next(Parked(s, NeedCancel(org, id, key, s.rows[id].ext)), Call(0, fortune.result, fortune.fate)), ok)
  {
    ContinueThree(s, CancelIt(0, org, id, key), Call(0, fortune.result, fortune.fate), Write(0, 0, ok));
    CancelIsWritten(Next(DoCancel(s, 0, org, id, key), Call(0, fortune.result, fortune.fate)), ok);
  }
}
