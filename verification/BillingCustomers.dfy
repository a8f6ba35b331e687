/** When an org has one customer at the processor. A create looks its org up in the table and makes a
    customer when it finds none; another create may do the same before the first has inserted its row,
    or after it has failed to. */
module BillingCustomers {
  import opened Text
  import opened BillingProtocol
  import opened BillingSafety
  import opened BillingOrders

  /** The client key of a derived key. */
  function ClientKey(k: string, op: Op): string { if |k| >= |Suffix(op)| then k[..|k| - |Suffix(op)|] else "" }

  predicate IsDerived(k: string, op: Op) { k == DerivedKey(ClientKey(k, op), op) }

  lemma ClientKeyOf(key: string, op: Op)
    ensures ClientKey(DerivedKey(key, op), op) == key && IsDerived(DerivedKey(key, op), op)
  {
  }

  /** A customer made for the org: the idempotency store holds each with the key it was made under. */
  predicate MadeFor(s: State, org: Id, k: string) { k in s.processor.keyed && s.processor.keyed[k].0 == NewCustomer(org) }

  ghost predicate OneCustomer(s: State, org: Id)
  {
    forall k1, k2 :: MadeFor(s, org, k1) && MadeFor(s, org, k2) ==> k1 == k2
  }

  /** A create that found no customer of its org, and has not yet asked for one. */
  predicate Looked(s: State, org: Id, r: Id) { r in s.pending && s.pending[r].NeedCustomer? && s.pending[r].org == org }

  /** The client keys under which the org has a customer or may yet get one. */
  ghost predicate Contends(s: State, org: Id, key: string)
  {
    || MadeFor(s, org, DerivedKey(key, CustomerOp))
    || (DerivedKey(key, CustomerOp) !in s.processor.keyed && exists r :: Looked(s, org, r) && s.pending[r].key == key)
  }

  predicate AllDerived(s: State) { forall k :: k in s.processor.keyed ==> IsDerived(k, OpOf(s.processor.keyed[k].0)) }

  lemma StepKeepsDerived(s: State, a: Action)
    requires AllDerived(s)
    ensures AllDerived(Next(s, a))
  {
    OnlyCallsAsk(s, a);
    if a.Call? && a.r in s.pending && Calls(s.pending[a.r]) {
      var p := s.pending[a.r];
      ClientKeyOf(p.key, OpOf(RequestOf(p)));
    }
  }

  lemma {:induction false} RunKeepsDerived(s: State, run: seq<Action>)
    requires AllDerived(s)
    ensures AllDerived(Continue(s, run))
    decreases |run|
  {
    if run != [] {
      StepKeepsDerived(s, run[0]);
      RunKeepsDerived(Next(s, run[0]), run[1..]);
    }
  }

  /** A create of the org arrives that finds no customer. */
  predicate FindsNone(s: State, a: Action, org: Id)
  {
    && a.Create? && a.org == org && a.r !in s.pending && s.configured && !Blank(a.price)
    && LatestCustomer(s.rows, s.order, org) == ""
  }

  lemma CallContends(s: State, r: Id, result: Reply, fate: Fate, org: Id, key: string)
    requires Contends(DoCall(s, r, result, fate), org, key)
    ensures Contends(s, org, key)
  {
    var t, k := DoCall(s, r, result, fate), DerivedKey(key, CustomerOp);
    if r in s.pending && Calls(s.pending[r]) {
      var p := s.pending[r];
      KeyedGrows(s, p, result, fate);
      if MadeFor(t, org, k) {
        if k !in s.processor.keyed {
          assert k == DerivedKey(p.key, OpOf(RequestOf(p))) && RequestOf(p) == NewCustomer(org);
          DerivedKeysAreInjective(key, CustomerOp, p.key, CustomerOp);
          assert Looked(s, org, r) && s.pending[r].key == key;
        }
      } else {
        var r' :| Looked(t, org, r') && t.pending[r'].key == key;
        assert Looked(s, org, r') && s.pending[r'].key == key;
      }
    }
  }

  lemma LookupArrives(s: State, a: Action, org: Id, r: Id)
    requires !a.Call? && Looked(Next(s, a), org, r)
    ensures if r in s.pending then Looked(s, org, r) && s.pending[r] == Next(s, a).pending[r]
            else FindsNone(s, a, org) && a.key == Next(s, a).pending[r].key
  {
  }

  /** Only a create that finds no customer adds a key. */
  lemma StepContends(s: State, a: Action, org: Id, key: string)
    requires Contends(Next(s, a), org, key)
    ensures Contends(s, org, key) || (FindsNone(s, a, org) && a.key == key)
  {
    var t := Next(s, a);
    match a
    case Call(r, result, fate) => CallContends(s, r, result, fate, org, key);
    case _ =>
      OnlyCallsAsk(s, a);
      if !MadeFor(t, org, DerivedKey(key, CustomerOp)) {
        var r :| Looked(t, org, r) && t.pending[r].key == key;
        LookupArrives(s, a, org, r);
      }
  }

  // ----- which keys clients may use -----

  /** Along a run, the creates of the org that find no customer all carry one of these keys. */
  predicate FindsNoneWith(s: State, run: seq<Action>, org: Id, keys: set<string>)
    decreases |run|
  {
    run == [] || ((FindsNone(s, run[0], org) ==> run[0].key in keys) && FindsNoneWith(Next(s, run[0]), run[1..], org, keys))
  }

  ghost predicate ContendersIn(s: State, org: Id, keys: set<string>) { forall key :: Contends(s, org, key) ==> key in keys }

  lemma {:induction false} RunContends(s: State, run: seq<Action>, org: Id, keys: set<string>)
    requires ContendersIn(s, org, keys) && FindsNoneWith(s, run, org, keys)
    ensures ContendersIn(Continue(s, run), org, keys)
    decreases |run|
  {
    if run != [] {
      forall key | Contends(Next(s, run[0]), org, key)
        ensures key in keys
      {
        StepContends(s, run[0], org, key);
      }
      RunContends(Next(s, run[0]), run[1..], org, keys);
    }
  }

  ghost predicate Single(keys: set<string>) { forall a, b :: a in keys && b in keys ==> a == b }

  lemma OneContender(s: State, org: Id)
    requires AllDerived(s) && forall a, b :: Contends(s, org, a) && Contends(s, org, b) ==> a == b
    ensures OneCustomer(s, org)
  {
    forall k1, k2 | MadeFor(s, org, k1) && MadeFor(s, org, k2)
      ensures k1 == k2
    {
      assert Contends(s, org, ClientKey(k1, CustomerOp)) && Contends(s, org, ClientKey(k2, CustomerOp));
    }
  }

  lemma TwoLookups(lenient: bool, org: Id, a: string, b: string) returns (run: seq<Action>)
    requires a != b
    ensures FindsNoneWith(Init(true, lenient), run, org, {a, b})
    ensures !OneCustomer(Continue(Init(true, lenient), run), org)
  {
    PriceIsNotBlank();
    var s := Init(true, lenient);
    var first, second := Create(0, org, 0, Some("p"), a), Create(1, org, 0, Some("p"), b);
    var result := Reply("", "", "");
    var call, other := Call(0, result, Lost), Call(1, result, Lost);
    run := [first, second, call, other];
    ContinueFour(s, first, second, call, other);
    DerivedKeysAreInjective(a, CustomerOp, b, CustomerOp);
    var s1 := Next(s, first);
    var s2 := Next(s1, second);
    assert s2.pending == map[0 := NeedCustomer(org, 0, "p", a), 1 := NeedCustomer(org, 0, "p", b)];
    var s3 := Next(s2, call);
    assert s3.pending == map[1 := NeedCustomer(org, 0, "p", b)];
    var t := Next(s3, other);
    assert MadeFor(t, org, DerivedKey(a, CustomerOp)) && MadeFor(t, org, DerivedKey(b, CustomerOp));
    LooksFour(s, s1, s2, s3, run, org, {a, b});
  }

  lemma LooksFour(s: State, s1: State, s2: State, s3: State, run: seq<Action>, org: Id, keys: set<string>)
    requires |run| == 4 && s1 == Next(s, run[0]) && s2 == Next(s1, run[1]) && s3 == Next(s2, run[2])
    requires forall i :: 0 <= i < 4 && run[i].Create? ==> run[i].key in keys
    ensures FindsNoneWith(s, run, org, keys)
  {
    assert run[3..][1..] == [] && run[2..][1..] == run[3..] && run[1..][1..] == run[2..];
    assert FindsNoneWith(s3, run[3..], org, keys);
    assert FindsNoneWith(s2, run[2..], org, keys);
    assert FindsNoneWith(s1, run[1..], org, keys);
  }

  /** An org has at most one customer in every run whose creates for it, when they find no customer, carry
      keys from a given set, if and only if that set has at most one key. Failed inserts, lost answers and
      overlapping requests are all allowed for; an org with a customer on file may use any key. */
  lemma OneCustomerExactly(lenient: bool, org: Id, keys: set<string>)
    ensures (forall run :: FindsNoneWith(Init(true, lenient), run, org, keys) ==> OneCustomer(Continue(Init(true, lenient), run), org))
       <==> Single(keys)
  {
    if Single(keys) {
      forall run | FindsNoneWith(Init(true, lenient), run, org, keys)
        ensures OneCustomer(Continue(Init(true, lenient), run), org)
      {
        RunContends(Init(true, lenient), run, org, keys);
        RunKeepsDerived(Init(true, lenient), run);
        OneContender(Continue(Init(true, lenient), run), org);
      }
    } else {
      var a, b :| a in keys && b in keys && a != b;
      var run := TwoLookups(lenient, org, a, b);
      MoreKeys(Init(true, lenient), run, org, {a, b}, keys);
      assert !OneCustomer(Continue(Init(true, lenient), run), org);
    }
  }

  lemma {:induction false} MoreKeys(s: State, run: seq<Action>, org: Id, keys: set<string>, more: set<string>)
    requires FindsNoneWith(s, run, org, keys) && keys <= more
    ensures FindsNoneWith(s, run, org, more)
    decreases |run|
  {
    if run != [] {
      MoreKeys(Next(s, run[0]), run[1..], org, keys, more);
    }
  }

  // ----- what is already decided -----

  predicate NoArrivals(run: seq<Action>) { forall i :: 0 <= i < |run| ==> !run[i].Create? }

  lemma {:induction false} DecidedContends(s: State, run: seq<Action>, org: Id, key: string)
    requires NoArrivals(run) && Contends(Continue(s, run), org, key)
    ensures Contends(s, org, key)
    decreases |run|
  {
    if run != [] {
      DecidedContends(Next(s, run[0]), run[1..], org, key);
      StepContends(s, run[0], org, key);
    }
  }

  /** A key that contends can be given its customer, and the others go on contending. */
  lemma Execute(s: State, org: Id, key: string, other: string) returns (run: seq<Action>)
    requires Contends(s, org, key) && Contends(s, org, other)
    ensures NoArrivals(run)
    ensures MadeFor(Continue(s, run), org, DerivedKey(key, CustomerOp)) && Contends(Continue(s, run), org, other)
    ensures MadeFor(s, org, DerivedKey(other, CustomerOp)) ==> MadeFor(Continue(s, run), org, DerivedKey(other, CustomerOp))
  {
    if MadeFor(s, org, DerivedKey(key, CustomerOp)) {
      run := [];
    } else {
      var r :| Looked(s, org, r) && s.pending[r].key == key;
      var a := Call(r, Reply("", "", ""), Lost);
      run := [a];
      var t := Next(s, a);
      assert Continue(s, run) == Continue(t, []) == t;
      DerivedKeysAreInjective(key, CustomerOp, other, CustomerOp);
      KeyedGrows(s, s.pending[r], Reply("", "", ""), Lost);
      if key != other && !MadeFor(s, org, DerivedKey(other, CustomerOp)) {
        var r' :| Looked(s, org, r') && s.pending[r'].key == other;
        assert Looked(t, org, r') && t.pending[r'].key == other;
      }
    }
  }

  lemma BothExecute(s: State, org: Id, a: string, b: string) returns (run: seq<Action>)
    requires Contends(s, org, a) && Contends(s, org, b) && a != b
    ensures NoArrivals(run) && !OneCustomer(Continue(s, run), org)
  {
    var first := Execute(s, org, a, b);
    var second := Execute(Continue(s, first), org, b, a);
    ContinueConcat(s, first, second);
    run := first + second;
    DerivedKeysAreInjective(a, CustomerOp, b, CustomerOp);
    var t := Continue(s, run);
    assert MadeFor(t, org, DerivedKey(a, CustomerOp)) && MadeFor(t, org, DerivedKey(b, CustomerOp));
  }

  /** In every reachable state: the requests under way can leave the org with at most one customer,
      whatever becomes of them, if and only if those that found none, and the customer already made if
      there is one, all have the same client key. */
  lemma OneCustomerDecidedExactly(lenient: bool, before: seq<Action>, org: Id)
    ensures var s := Continue(Init(true, lenient), before);
            (forall run :: NoArrivals(run) ==> OneCustomer(Continue(s, run), org)) <==>
            forall a, b :: Contends(s, org, a) && Contends(s, org, b) ==> a == b
  {
    var s := Continue(Init(true, lenient), before);
    RunKeepsDerived(Init(true, lenient), before);
    if a, b :| Contends(s, org, a) && Contends(s, org, b) && a != b {
      var run := BothExecute(s, org, a, b);
      assert NoArrivals(run) && !OneCustomer(Continue(s, run), org);
    } else {
      forall run | NoArrivals(run)
        ensures OneCustomer(Continue(s, run), org)
      {
        RunKeepsDerived(s, run);
        forall a, b | Contends(Continue(s, run), org, a) && Contends(Continue(s, run), org, b)
          ensures a == b
        {
          DecidedContends(s, run, org, a);
          DecidedContends(s, run, org, b);
        }
        OneContender(Continue(s, run), org);
      }
    }
  }
}
