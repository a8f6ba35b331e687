/** Billing requests that nothing disturbs, for every org, plan, price and key. */
module BillingOrders {
  import opened Text
  import opened BillingProtocol

  /** A create request as it arrives. */
  datatype Order = Order(r: Id, org: Id, plan: Id, price: string, key: string)

  predicate CanArrive(s: State, o: Order) { s.configured && o.r !in s.pending && !Blank(Some(o.price)) }

  function Arrival(o: Order): Action { Create(o.r, o.org, o.plan, Some(o.price), o.key) }

  function OnFileRun(o: Order, result: Reply, newId: Id): seq<Action>
  {
    [Arrival(o), Call(o.r, result, Delivered), Write(o.r, newId, true)]
  }

  /** The subscription request of a create for an org with this customer. */
  function RequestFor(o: Order, customer: string): Request { NewSubscription(customer, o.price, o.org) }

  /** The processor answers a request under a key: the key is unused, or was used for this very request,
      or does not matter to it. */
  predicate Settles(s: State, k: string, request: Request)
  {
    k in s.processor.keyed ==> s.lenient || s.processor.keyed[k].0 == request
  }

  function Settled(s: State, k: string, result: Reply): Reply { if k in s.processor.keyed then s.processor.keyed[k].1 else result }

  predicate Answers(s: State, o: Order, customer: string)
  {
    Settles(s, DerivedKey(o.key, SubscriptionOp), RequestFor(o, customer))
  }

  function AnswerFor(s: State, o: Order, result: Reply): Reply { Settled(s, DerivedKey(o.key, SubscriptionOp), result) }

  function RowFor(o: Order, customer: string, reply: Reply): Row
  {
    Row(o.org, o.plan, reply.status, PROVIDER, reply.id, customer)
  }

  /** What the last two steps of an undisturbed create do. */
  ghost predicate Finishes(s: State, o: Order, customer: string, result: Reply, newId: Id, t: State)
  {
    var k, reply := DerivedKey(o.key, SubscriptionOp), AnswerFor(s, o, result);
    && t.configured == s.configured && t.lenient == s.lenient
    && t.pending == s.pending - {o.r}
    && (if Answers(s, o, customer) && reply.id != ""
        then t.rows == s.rows[newId := RowFor(o, customer, reply)] && t.order == s.order + [newId]
             && t.inserted == s.inserted + [Inserted(newId, o.key, reply.id)]
        else t.rows == s.rows && t.order == s.order && t.inserted == s.inserted)
    && (if k in s.processor.keyed then t.processor == s.processor && t.made == s.made
        else t.processor == Processor(s.processor.keyed[k := (RequestFor(o, customer), result)],
                                      s.processor.reported + {(result.id, result.status)})
             && t.made == s.made + [Made(o.key, SubscriptionOp)])
  }

  lemma FinishCreate(s: State, o: Order, customer: string, result: Reply, newId: Id)
    requires o.r in s.pending && s.pending[o.r] == NeedSubscription(o.org, o.plan, o.price, o.key, customer)
    requires newId !in s.rows
    ensures Finishes(s, o, customer, result, newId, Next(Next(s, Call(o.r, result, Delivered)), Write(o.r, newId, true)))
  {
    var p := s.pending[o.r];
    var s', reply := Next(s, Call(o.r, result, Delivered)), AnswerFor(s, o, result);
    if Answers(s, o, customer) && reply.id != "" {
      assert s'.pending == s.pending[o.r := NeedInsert(o.org, o.plan, o.key, customer, reply.id, reply.status)];
    } else {
      assert s'.pending == s.pending - {o.r};
    }
  }

  /** An undisturbed create for an org with a customer on file uses that customer and makes no other; it
      ends in a row exactly when the processor answers with an id. */
  lemma CreateOnFile(s: State, o: Order, result: Reply, newId: Id)
    requires CanArrive(s, o) && newId !in s.rows && LatestCustomer(s.rows, s.order, o.org) != ""
    ensures Finishes(s, o, LatestCustomer(s.rows, s.order, o.org), result, newId, Continue(s, OnFileRun(o, result, newId)))
  {
    var customer := LatestCustomer(s.rows, s.order, o.org);
    ContinueThree(s, Arrival(o), Call(o.r, result, Delivered), Write(o.r, newId, true));
    var s1 := Next(s, Arrival(o));
    assert s1 == s.(pending := s.pending[o.r := NeedSubscription(o.org, o.plan, o.price, o.key, customer)]);
    assert s1.pending - {o.r} == s.pending - {o.r};
    FinishCreate(s1, o, customer, result, newId);
  }

  /** The first create of all, undisturbed. */
  lemma CreateFirst(lenient: bool, o: Order, customer: string, result: Reply, newId: Id) returns (run: seq<Action>)
    requires result.id != "" && customer != "" && !Blank(Some(o.price))
    ensures run == [Arrival(o), Call(o.r, Reply(customer, "", ""), Delivered), Call(o.r, result, Delivered), Write(o.r, newId, true)]
    ensures var t := Continue(Init(true, lenient), run);
            && t.configured && t.lenient == lenient && t.pending == map[]
            && t.rows == map[newId := RowFor(o, customer, result)] && t.order == [newId]
            && t.inserted == [Inserted(newId, o.key, result.id)]
            && t.processor.reported == {(result.id, result.status)}
            && t.made == [Made(o.key, CustomerOp), Made(o.key, SubscriptionOp)]
            && DerivedKey(o.key, SubscriptionOp) in t.processor.keyed
            && t.processor.keyed[DerivedKey(o.key, SubscriptionOp)] == (RequestFor(o, customer), result)
  {
    var s, b := Init(true, lenient), Call(o.r, Reply(customer, "", ""), Delivered);
    var c, d := Call(o.r, result, Delivered), Write(o.r, newId, true);
    run := [Arrival(o), b, c, d];
    ContinueFour(s, Arrival(o), b, c, d);
    DerivedKeysAreInjective(o.key, CustomerOp, o.key, SubscriptionOp);
    var s2 := CustomerMade(lenient, o, customer);
    FinishCreate(s2, o, customer, result, newId);
  }

  lemma CustomerMade(lenient: bool, o: Order, customer: string) returns (t: State)
    requires customer != "" && !Blank(Some(o.price))
    ensures var s := Init(true, lenient);
            t == Next(Next(s, Arrival(o)), Call(o.r, Reply(customer, "", ""), Delivered))
    ensures t == State(true, lenient, map[], [],
                       Processor(map[DerivedKey(o.key, CustomerOp) := (NewCustomer(o.org), Reply(customer, "", ""))], {}),
                       map[o.r := NeedSubscription(o.org, o.plan, o.price, o.key, customer)], [Made(o.key, CustomerOp)], [])
  {
    var s := Init(true, lenient);
    var s1 := Next(s, Arrival(o));
    assert s1 == s.(pending := map[o.r := NeedCustomer(o.org, o.plan, o.price, o.key)]);
    t := Next(s1, Call(o.r, Reply(customer, "", ""), Delivered));
    assert t.pending == map[o.r := NeedSubscription(o.org, o.plan, o.price, o.key, customer)];
  }

  /** What an undisturbed request about one row does: the row becomes `row` when the processor answers and
      nothing else changes; the first use of a key is remembered and reported. */
  ghost predicate Moves(s: State, t: State, r: Id, id: Id, row: Row, k: string, request: Request, result: Reply)
    requires id in s.rows
  {
    && t.configured == s.configured && t.lenient == s.lenient && t.pending == s.pending - {r}
    && t.rows == (if Settles(s, k, request) then s.rows[id := row] else s.rows) && t.order == s.order && t.inserted == s.inserted
    && t.processor == if k in s.processor.keyed then s.processor
                      else Processor(s.processor.keyed[k := (request, result)],
                                     s.processor.reported + {(s.rows[id].ext, result.status)})
  }

  lemma RowCalled(s: State, r: Id, p: Pending, result: Reply)
    requires r in s.pending && s.pending[r] == p && (p.NeedChange? || p.NeedCancel?)
    ensures var k := DerivedKey(p.key, OpOf(RequestOf(p)));
            var t := Next(s, Call(r, result, Delivered));
            && t.configured == s.configured && t.lenient == s.lenient
            && t.rows == s.rows && t.order == s.order && t.inserted == s.inserted
            && t.pending == (if Settles(s, k, RequestOf(p)) then s.pending[r := Answered(p, Settled(s, k, result)).value]
                             else s.pending - {r})
            && t.processor == if k in s.processor.keyed then s.processor
                              else Processor(s.processor.keyed[k := (RequestOf(p), result)], s.processor.reported + {(p.ext, result.status)})
  {
  }

  /** An undisturbed plan change of a row with a subscription asks for the new price there; when it is
      answered the row gets the plan, the answered status, and the answered customer if there is one. */
  lemma ChangePlan(s: State, r: Id, id: Id, plan: Id, price: string, key: string, result: Reply) returns (run: seq<Action>)
    requires s.configured && r !in s.pending && id in s.rows && s.rows[id].ext != "" && !Blank(Some(price))
    ensures run == [Update(r, s.rows[id].org, id, Some(plan), Some(price), None, key), Call(r, result, Delivered), Write(r, 0, true)]
    ensures var row, k := s.rows[id], key + ":update";
            var reply := Settled(s, k, result);
            var customer := if reply.customer == "" then row.customer else reply.customer;
            Moves(s, Continue(s, run), r, id, Row(row.org, plan, reply.status, row.provider, row.ext, customer),
                  k, ChangePrice(row.ext, price), result)
  {
    var org, ext := s.rows[id].org, s.rows[id].ext;
    var a, b := Update(r, org, id, Some(plan), Some(price), None, key), Call(r, result, Delivered);
    var c := Write(r, 0, true);
    run := [a, b, c];
    ContinueThree(s, a, b, c);
    var s1 := Next(s, a);
    assert s1 == s.(pending := s.pending[r := NeedChange(org, id, plan, price, key, ext)]);
    var s2 := Next(s1, b);
    RowCalled(s1, r, s1.pending[r], result);
    assert Next(s2, c).pending == s.pending - {r};
  }

  /** An undisturbed cancellation of a row with a subscription cancels that; when it is answered the row
      gets the answered status, whatever it is. */
  lemma CancelRow(s: State, r: Id, id: Id, key: string, result: Reply)
    requires s.configured && r !in s.pending && id in s.rows && s.rows[id].ext != ""
    ensures var run := [CancelIt(r, s.rows[id].org, id, key), Call(r, result, Delivered), Write(r, 0, true)];
            var row, k := s.rows[id], key + ":cancel";
            Moves(s, Continue(s, run), r, id, row.(status := Settled(s, k, result).status), k, Cancel(row.ext), result)
  {
    var org, ext := s.rows[id].org, s.rows[id].ext;
    var a, b, c := CancelIt(r, org, id, key), Call(r, result, Delivered), Write(r, 0, true);
    ContinueThree(s, a, b, c);
    var s1 := Next(s, a);
    assert s1 == s.(pending := s.pending[r := NeedCancel(org, id, key, ext)]);
    var s2 := Next(s1, b);
    RowCalled(s1, r, s1.pending[r], result);
    assert Next(s2, c).pending == s.pending - {r};
  }

  /** An undisturbed request for a local end gives its row exactly that status, if it is "canceled" or
      "expired"; any other status is refused. */
  lemma EndRow(s: State, r: Id, id: Id, status: string, key: string, result: Reply)
    requires r !in s.pending && id in s.rows
    ensures var run := [Update(r, s.rows[id].org, id, None, None, Some(status), key), Call(r, result, Delivered), Write(r, 0, true)];
            Continue(s, run) == if status == "canceled" || status == "expired"
                                then s.(rows := s.rows[id := s.rows[id].(status := status)]) else s
  {
    var org := s.rows[id].org;
    var a, b, c := Update(r, org, id, None, None, Some(status), key), Call(r, result, Delivered), Write(r, 0, true);
    ContinueThree(s, a, b, c);
    if IsLocal(status) {
      var s1 := Next(s, a);
      assert s1 == s.(pending := s.pending[r := NeedUpdate(org, id, Changes(None, Some(status), None))]);
      assert Next(s1, b) == s1;
      assert Next(s1, c).pending == s.pending;
    }
  }

  lemma PriceIsNotBlank()
    ensures !Blank(Some("p"))
  {
    assert !IsSpace("p"[0]);
  }
}
