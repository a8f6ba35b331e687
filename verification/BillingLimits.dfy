/** When the rows show what the processor reported: what that asks of the processor, and what of the
    clients. */
module BillingLimits {
  import opened Text
  import opened BillingProtocol
  import opened BillingSafety
  import opened BillingOrders

  lemma OneSubscription() returns (run: seq<Action>)
    ensures var s := Continue(Init(true, true), run);
            && s.configured && s.lenient && s.pending == map[]
            && s.rows == map[1 := Row(7, 0, "trialing", PROVIDER, "s1", "c")] && LatestCustomer(s.rows, s.order, 7) == "c"
            && s.processor.reported == {("s1", "trialing")}
            && DerivedKey("k2", SubscriptionOp) !in s.processor.keyed
            && DerivedKey("k3", UpdateOp) !in s.processor.keyed
  {
    PriceIsNotBlank();
    run := CreateFirst(true, Order(0, 7, 0, "p", "k1"), "c", Reply("s1", "", "trialing"), 1);
    var s := Continue(Init(true, true), run);
    Reachable(true, true, run);
    assert DerivedKey("k2", SubscriptionOp) in s.processor.keyed <==> Made("k2", SubscriptionOp) in s.made;
    assert DerivedKey("k3", UpdateOp) in s.processor.keyed <==> Made("k3", UpdateOp) in s.made;
  }

  lemma TwoSubscriptions() returns (run: seq<Action>)
    ensures var s := Continue(Init(true, true), run);
            && s.configured && s.lenient && s.pending == map[]
            && 1 in s.rows && s.rows[1].ext == "s1" && 2 in s.rows && s.rows[2].ext == "s2"
            && s.processor.reported == {("s1", "trialing"), ("s2", "incomplete")}
            && DerivedKey("k3", UpdateOp) !in s.processor.keyed
  {
    PriceIsNotBlank();
    var first := OneSubscription();
    var s := Continue(Init(true, true), first);
    var o, result := Order(0, 7, 0, "p", "k2"), Reply("s2", "", "incomplete");
    CreateOnFile(s, o, result, 2);
    run := first + OnFileRun(o, result, 2);
    ContinueConcat(Init(true, true), first, OnFileRun(o, result, 2));
    DerivedKeysAreInjective("k3", UpdateOp, "k2", SubscriptionOp);
  }

  /** Against a processor that answers a reused key whatever it is reused for, a row can show a status
      that was never reported for its subscription. */
  lemma LenientMisreports() returns (run: seq<Action>)
    ensures !RowsAreHonest(true, true, run)
  {
    PriceIsNotBlank();
    var start := TwoSubscriptions();
    var s := Continue(Init(true, true), start);
    var third := ChangePlan(s, 0, 1, 0, "p", "k3", Reply("s1", "", "active"));
    var t := Continue(s, third);
    var fourth := ChangePlan(t, 0, 2, 0, "p", "k3", Reply("s2", "", "past_due"));
    var u := Continue(t, fourth);
    assert u.rows[2].status == "active" && u.rows[2].ext == "s2";
    assert ("s2", "active") !in u.processor.reported;
    ContinueConcat(Init(true, true), start, third);
    ContinueConcat(Init(true, true), start + third, fourth);
    run := start + third + fourth;
  }

  /** Rows are honest in every run exactly when the processor refuses reused keys. */
  lemma HonestExactlyWhenStrict(lenient: bool)
    ensures (forall run :: RowsAreHonest(true, lenient, run)) <==> !lenient
  {
    if lenient {
      var run := LenientMisreports();
      assert !RowsAreHonest(true, lenient, run);
    } else {
      forall run
        ensures RowsAreHonest(true, lenient, run)
      {
        StatusesAreReported(true, run);
      }
    }
  }

  /** A step that asks under a key asks what the key was first used for. */
  predicate KeepsKeys(s: State, a: Action)
  {
    a.Call? && a.r in s.pending && Calls(s.pending[a.r]) ==>
      var p := s.pending[a.r];
      var k := DerivedKey(p.key, OpOf(RequestOf(p)));
      k in s.processor.keyed ==> s.processor.keyed[k].0 == RequestOf(p)
  }

  /** Along a run no derived key is reused for a different request. */
  predicate NoKeyReused(s: State, run: seq<Action>)
    decreases |run|
  {
    run == [] || (KeepsKeys(s, run[0]) && NoKeyReused(Next(s, run[0]), run[1..]))
  }

  lemma StrictCall(s: State, r: Id, result: Reply, fate: Fate)
    requires KeepsKeys(s, Call(r, result, fate))
    ensures DoCall(s, r, result, fate).(lenient := false) == DoCall(s.(lenient := false), r, result, fate)
  {
    if r in s.pending && Calls(s.pending[r]) {
      var p := s.pending[r];
      assert AnswerTo(s, p, result, fate) == AnswerTo(s.(lenient := false), p, result, fate);
    }
  }

  lemma StrictWrite(s: State, r: Id, newId: Id, ok: bool)
    ensures DoWrite(s, r, newId, ok).(lenient := false) == DoWrite(s.(lenient := false), r, newId, ok)
  {
    if r in s.pending && !Calls(s.pending[r]) {
      StrictWritten(s, s.pending[r], newId);
    }
  }

  lemma StrictWritten(s: State, p: Pending, newId: Id)
    ensures Written(s, p, newId).(lenient := false) == Written(s.(lenient := false), p, newId)
  {
  }

  lemma StrictStep(s: State, a: Action)
    requires KeepsKeys(s, a)
    ensures Next(s, a).(lenient := false) == Next(s.(lenient := false), a)
  {
    match a
    case Call(r, result, fate) => StrictCall(s, r, result, fate);
    case Write(r, newId, ok) => StrictWrite(s, r, newId, ok);
    case _ =>
  }

  lemma {:induction false} StrictRun(s: State, run: seq<Action>)
    requires NoKeyReused(s, run)
    ensures Continue(s, run).(lenient := false) == Continue(s.(lenient := false), run)
    decreases |run|
  {
    if run != [] {
      StrictStep(s, run[0]);
      StrictRun(Next(s, run[0]), run[1..]);
    }
  }

  /** What a client can see to: in every run in which no derived key is reused for a different request
      the rows are honest, whatever the processor would do with one. */
  lemma HonestWithoutReuse(configured: bool, lenient: bool, run: seq<Action>)
    requires NoKeyReused(Init(configured, lenient), run)
    ensures RowsAreHonest(configured, lenient, run)
  {
    StrictRun(Init(configured, lenient), run);
    StatusesAreReported(configured, run);
  }
}
