/** How many rows a client key can have: exactly-once at the processor is not exactly-once in the table. */
module BillingRetries {
  import opened Text
  import opened BillingProtocol
  import opened BillingSafety
  import opened BillingOrders

  // ----- rows for one key -----

  /** How many creates with this key arrive in a run. */
  function CreatesWith(run: seq<Action>, key: string): nat
  {
    if run == [] then 0 else (if run[0].Create? && run[0].key == key then 1 else 0) + CreatesWith(run[1..], key)
  }

  /** How many rows have been inserted under this key. */
  function RowsWith(inserted: seq<Inserted>, key: string): nat
  {
    if inserted == [] then 0
    else RowsWith(inserted[..|inserted| - 1], key) + if inserted[|inserted| - 1].key == key then 1 else 0
  }

  predicate IsCreate(p: Pending, key: string) { (p.NeedCustomer? || p.NeedSubscription? || p.NeedInsert?) && p.key == key }

  function CreatesUnderWay(s: State, key: string): set<Id> { set r | r in s.pending && IsCreate(s.pending[r], key) }

  lemma RowsSnoc(inserted: seq<Inserted>, i: Inserted, key: string)
    ensures RowsWith(inserted + [i], key) == RowsWith(inserted, key) + if i.key == key then 1 else 0
  {
    assert (inserted + [i])[..|inserted|] == inserted;
  }

  lemma SmallerSet(small: set<Id>, big: set<Id>)
    requires small <= big
    ensures |small| <= |big|
  {
    assert big == small + (big - small);
  }

  lemma WriteCounts(s: State, r: Id, newId: Id, ok: bool, key: string)
    ensures var t := DoWrite(s, r, newId, ok);
            RowsWith(t.inserted, key) + |CreatesUnderWay(t, key)| <= RowsWith(s.inserted, key) + |CreatesUnderWay(s, key)|
  {
    var t := DoWrite(s, r, newId, ok);
    if r in s.pending && !Calls(s.pending[r]) {
      var p := s.pending[r];
      DropCounts(s, t, r, key);
      WrittenCounts(s, p, newId, key);
    }
  }

  lemma DropCounts(s: State, t: State, r: Id, key: string)
    requires r in s.pending && t.pending == s.pending - {r}
    ensures |CreatesUnderWay(t, key)| == |CreatesUnderWay(s, key)| - if IsCreate(s.pending[r], key) then 1 else 0
  {
    assert CreatesUnderWay(t, key) == CreatesUnderWay(s, key) - {r};
    assert IsCreate(s.pending[r], key) <==> r in CreatesUnderWay(s, key);
  }

  lemma WrittenCounts(s: State, p: Pending, newId: Id, key: string)
    requires !Calls(p)
    ensures RowsWith(Written(s, p, newId).inserted, key)
         <= RowsWith(s.inserted, key) + if IsCreate(p, key) then 1 else 0
  {
    if p.NeedInsert? {
      RowsSnoc(s.inserted, Inserted(newId, p.key, p.ext), key);
    }
  }

  lemma CallCounts(s: State, r: Id, result: Reply, fate: Fate, key: string)
    ensures var t := DoCall(s, r, result, fate);
            t.inserted == s.inserted && |CreatesUnderWay(t, key)| <= |CreatesUnderWay(s, key)|
  {
    SmallerSet(CreatesUnderWay(DoCall(s, r, result, fate), key), CreatesUnderWay(s, key));
  }

  lemma CreateCounts(s: State, r: Id, org: Id, plan: Id, price: Option<string>, k: string, key: string)
    requires r !in s.pending
    ensures var t := DoCreate(s, r, org, plan, price, k);
            && t.inserted == s.inserted
            && |CreatesUnderWay(t, key)| <= |CreatesUnderWay(s, key)| + if k == key then 1 else 0
  {
    SmallerSet(CreatesUnderWay(DoCreate(s, r, org, plan, price, k), key),
               CreatesUnderWay(s, key) + if k == key then {r} else {});
  }

  lemma OtherCounts(s: State, a: Action, key: string)
    requires !a.Create? && !a.Call? && !a.Write?
    ensures Next(s, a).inserted == s.inserted && CreatesUnderWay(Next(s, a), key) == CreatesUnderWay(s, key)
  {
  }

  lemma StepCounts(s: State, a: Action, key: string)
    ensures var t := Next(s, a);
            RowsWith(t.inserted, key) + |CreatesUnderWay(t, key)|
            <= RowsWith(s.inserted, key) + |CreatesUnderWay(s, key)| + if a.Create? && a.key == key then 1 else 0
  {
    match a
    case Write(r, newId, ok) => WriteCounts(s, r, newId, ok, key);
    case Create(r, org, plan, price, k) =>
      if r !in s.pending {
        CreateCounts(s, r, org, plan, price, k, key);
      }
    case Call(r, result, fate) => CallCounts(s, r, result, fate, key);
    case _ => OtherCounts(s, a, key);
  }

  lemma {:induction false} RunCounts(s: State, run: seq<Action>, key: string)
    ensures RowsWith(Continue(s, run).inserted, key) + |CreatesUnderWay(Continue(s, run), key)|
         <= RowsWith(s.inserted, key) + |CreatesUnderWay(s, key)| + CreatesWith(run, key)
    decreases |run|
  {
    if run != [] {
      StepCounts(s, run[0], key);
      RunCounts(Next(s, run[0]), run[1..], key);
    }
  }

  /** Over every run, a key has at most as many rows as creates arrived with it. */
  lemma AtMostOneRowPerCreate(configured: bool, lenient: bool, run: seq<Action>, key: string)
    ensures RowsWith(Continue(Init(configured, lenient), run).inserted, key) <= CreatesWith(run, key)
  {
    RunCounts(Init(configured, lenient), run, key);
    assert CreatesUnderWay(Init(configured, lenient), key) == {};
  }

  // ----- what a retry does -----

  predicate PendingNames(p: Pending)
  {
    match p
    case NeedSubscription(_, _, _, _, customer) => customer != ""
    case NeedInsert(_, _, _, customer, ext, _) => customer != "" && ext != ""
    case NeedUpdate(_, _, changes) => changes.customer.Some? ==> changes.customer.value != ""
    case _ => true
  }

  /** Every row is known by its insertion, and has a customer. */
  predicate RowsAreFiled(s: State)
  {
    && (forall id :: id in s.rows ==> id in s.order && s.rows[id].provider == PROVIDER && s.rows[id].customer != "")
    && (forall i :: i in s.inserted ==> i.id in s.rows && i.ext != "" && s.rows[i.id].ext == i.ext)
    && (forall r :: r in s.pending ==> PendingNames(s.pending[r]))
  }

  lemma WrittenIsFiled(s: State, p: Pending, newId: Id)
    requires RowsAreFiled(s) && PendingNames(p)
    ensures RowsAreFiled(Written(s, p, newId))
  {
  }

  lemma CallKeepsFiled(s: State, r: Id, result: Reply, fate: Fate)
    requires RowsAreFiled(s)
    ensures RowsAreFiled(DoCall(s, r, result, fate))
  {
  }

  lemma OtherKeepsFiled(s: State, a: Action)
    requires RowsAreFiled(s) && !a.Write? && !a.Call?
    ensures RowsAreFiled(Next(s, a))
  {
    match a
    case Create(r, org, _, _, _) => LatestCustomerIsNewest(s.rows, s.order, org);
    case _ =>
  }

  lemma StepKeepsFiled(s: State, a: Action)
    requires RowsAreFiled(s)
    ensures RowsAreFiled(Next(s, a))
  {
    match a
    case Write(r, newId, ok) =>
      if r in s.pending && !Calls(s.pending[r]) {
        WrittenIsFiled(s, s.pending[r], newId);
      }
    case Call(r, result, fate) => CallKeepsFiled(s, r, result, fate);
    case _ => OtherKeepsFiled(s, a);
  }

  lemma {:induction false} RunKeepsFiled(s: State, run: seq<Action>)
    requires RowsAreFiled(s)
    ensures RowsAreFiled(Continue(s, run))
    decreases |run|
  {
    if run != [] {
      StepKeepsFiled(s, run[0]);
      RunKeepsFiled(Next(s, run[0]), run[1..]);
    }
  }

  lemma RetryFacts(lenient: bool, run: seq<Action>, i: Inserted)
    requires i in Continue(Init(true, lenient), run).inserted
    ensures var s := Continue(Init(true, lenient), run);
            && s.configured && s.lenient == lenient && i.id in s.rows && i.ext != ""
            && LatestCustomer(s.rows, s.order, s.rows[i.id].org) != ""
            && DerivedKey(i.key, SubscriptionOp) in s.processor.keyed
            && s.processor.keyed[DerivedKey(i.key, SubscriptionOp)].1.id == i.ext
  {
    var s := Continue(Init(true, lenient), run);
    Reachable(true, lenient, run);
    StaysConfigured(Init(true, lenient), run);
    RunKeepsFiled(Init(true, lenient), run);
    assert SubscriptionOf(s, i.key, i.ext);
    LatestCustomerIsNewest(s.rows, s.order, s.rows[i.id].org);
    assert HasCustomer(s.rows, s.rows[i.id].org, i.id);
  }

  lemma {:induction false} StaysConfigured(s: State, run: seq<Action>)
    ensures Continue(s, run).configured == s.configured
    decreases |run|
  {
    if run != [] {
      StaysConfigured(Next(s, run[0]), run[1..]);
    }
  }

  /** A create that is retried, undisturbed, after its row was inserted: it inserts another row exactly
      when the processor answers, that is when the request is the one the key was first used for, or the
      processor does not care. The new row is the same subscription's. */
  lemma RetryInsertsExactly(lenient: bool, run: seq<Action>, i: Inserted, o: Order, result: Reply, newId: Id)
    requires var s := Continue(Init(true, lenient), run);
             && i in s.inserted && i.id in s.rows && o.key == i.key && o.org == s.rows[i.id].org
             && o.r !in s.pending && newId !in s.rows && !Blank(Some(o.price))
    ensures var s := Continue(Init(true, lenient), run);
            var t := Continue(s, OnFileRun(o, result, newId));
            && (newId in t.rows <==> Answers(s, o, LatestCustomer(s.rows, s.order, o.org)))
            && (newId in t.rows ==> t.rows[newId].ext == i.ext && t.rows[newId].org == o.org)
            && RowsWith(t.inserted, o.key) == RowsWith(s.inserted, o.key) + if newId in t.rows then 1 else 0
  {
    var s := Continue(Init(true, lenient), run);
    RetryFacts(lenient, run, i);
    CreateOnFile(s, o, result, newId);
    RowsSnoc(s.inserted, Inserted(newId, o.key, AnswerFor(s, o, result).id), o.key);
  }

  /** Two creates with one key can leave two rows: the second one, sent after the first has succeeded. */
  lemma TwoCreatesTwoRows(lenient: bool, key: string) returns (run: seq<Action>)
    ensures CreatesWith(run, key) == 2 && RowsWith(Continue(Init(true, lenient), run).inserted, key) == 2
  {
    PriceIsNotBlank();
    var o, result := Order(0, 7, 0, "p", key), Reply("s", "", "active");
    var first := CreateFirst(lenient, o, "c", result, 1);
    var s := Continue(Init(true, lenient), first);
    var again := OnFileRun(o, result, 2);
    assert LatestCustomer(s.rows, s.order, 7) == "c";
    RetryInsertsExactly(lenient, first, Inserted(1, key, "s"), o, result, 2);
    RowsSnoc([], Inserted(1, key, "s"), key);
    assert [] + [Inserted(1, key, "s")] == s.inserted;
    ContinueConcat(Init(true, lenient), first, again);
    run := first + again;
    CountTwo(run, key);
  }

  lemma CountTwo(run: seq<Action>, key: string)
    requires |run| == 7 && forall i :: 0 <= i < 7 ==> ((run[i].Create? && run[i].key == key) <==> i == 0 || i == 4)
    ensures CreatesWith(run, key) == 2
  {
    assert CreatesWith(run[7..], key) == 0;
    assert run[6..][1..] == run[7..] && run[5..][1..] == run[6..] && run[4..][1..] == run[5..];
    assert CreatesWith(run[5..], key) == 0;
    assert CreatesWith(run[4..], key) == 1;
    assert run[3..][1..] == run[4..] && run[2..][1..] == run[3..] && run[1..][1..] == run[2..];
    assert CreatesWith(run[2..], key) == 1;
  }

  /** A key has at most one row in every run with at most n creates carrying it, if and only if n is at
      most one: exactly-once at the processor does not make a retried create exactly-once in the table. */
  lemma OneRowExactlyForOneCreate(lenient: bool, key: string, n: nat)
    ensures (forall run :: CreatesWith(run, key) <= n ==> RowsWith(Continue(Init(true, lenient), run).inserted, key) <= 1)
       <==> n <= 1
  {
    if n <= 1 {
      forall run | CreatesWith(run, key) <= n
        ensures RowsWith(Continue(Init(true, lenient), run).inserted, key) <= 1
      {
        AtMostOneRowPerCreate(true, lenient, run, key);
      }
    } else {
      var run := TwoCreatesTwoRows(lenient, key);
      assert CreatesWith(run, key) <= n && RowsWith(Continue(Init(true, lenient), run).inserted, key) > 1;
    }
  }
}
