/** UPDATE statements whose SET list is built from a Go map: the map is visited in an arbitrary
    order, and the statement must mean the same for every order. */
module SqlUpdate {
  import opened Text
  import opened Sql
  import opened SqlQuery

  datatype Assign = Assign(column: string, param: nat)

  datatype Update = Update(target: string, assigns: seq<Assign>, conds: seq<Cond>)

  // ----- parsing -----

  function ParseAssigns(t: seq<string>): Option<(seq<Assign>, seq<string>)>
    decreases |t|
  {
    match ParseCompare(t)
    case None => None
    case Some((column, op, n)) =>
      if op != Eq then None
      else if |t| == 3 || t[3] != "," then Some(([Assign(column, n)], t[3..]))
      else
        match ParseAssigns(t[4..])
        case None => None
        case Some((rest, t')) => Some(([Assign(column, n)] + rest, t'))
  }

  function ParseUpdate(t: seq<string>): Option<Update>
  {
    if |t| < 3 || t[0] != "UPDATE" || t[2] != "SET" then None
    else
      match ParseAssigns(t[3..])
      case None => None
      case Some((assigns, rest)) =>
        match ParseWhere(rest)
        case None => None
        case Some((conds, rest')) => if rest' == [] then Some(Update(t[1], assigns, conds)) else None
  }

  // ----- texts -----

  function ShowAssign(a: Assign): string { a.column + " = $" + Decimal(a.param) }

  function ShowAssigns(assigns: seq<Assign>): seq<string>
  {
    seq(|assigns|, i requires 0 <= i < |assigns| => ShowAssign(assigns[i]))
  }

  function SetText(assigns: seq<Assign>): string { Join(ShowAssigns(assigns), ", ") }

  function UpdateText(target: string, assigns: seq<Assign>, conds: seq<Cond>): string
  {
    "UPDATE " + target + " SET " + SetText(assigns) + " WHERE " + Join(ShowAll(conds), " AND ")
  }

  function AssignTokens(a: Assign): seq<string> { [a.column, "=", ParamToken(a.param)] }

  function SetTokens(assigns: seq<Assign>): seq<string>
  {
    if |assigns| == 0 then []
    else if |assigns| == 1 then AssignTokens(assigns[0])
    else AssignTokens(assigns[0]) + ([","] + SetTokens(assigns[1..]))
  }

  predicate Columns(assigns: seq<Assign>) { forall i :: 0 <= i < |assigns| ==> IsColumn(assigns[i].column) }

  lemma AssignShape(a: Assign)
    ensures ShowAssign(a) == ShowCompare(a.column, Eq, a.param)
  {
    assert " " + "=" + " $" == " = $";
    Associates(a.column, " " + "=", " $");
  }

  lemma LexAssign(a: Assign, rest: string)
    requires IsColumn(a.column) && (rest == "" || IsSeparator(rest[0]))
    ensures Lex(ShowAssign(a) + rest) == AssignTokens(a) + Lex(rest)
  {
    AssignShape(a);
    LexCompare(a.column, Eq, a.param, rest);
  }

  lemma SetShape(assigns: seq<Assign>, rest: string)
    requires |assigns| > 1
    ensures SetText(assigns) + rest == ShowAssign(assigns[0]) + (", " + (SetText(assigns[1..]) + rest))
  {
    assert ShowAssigns(assigns)[1..] == ShowAssigns(assigns[1..]);
  }

  lemma LexComma(rest: string)
    ensures Lex(", " + rest) == [","] + Lex(rest)
  {
    LexSeparator(' ', rest);
    LexSeparator(',', " " + rest);
    assert ", " + rest == "," + (" " + rest);
  }

  lemma {:induction false} LexSet(assigns: seq<Assign>, rest: string)
    requires |assigns| > 0 && Columns(assigns) && (rest == "" || IsSeparator(rest[0]))
    ensures Lex(SetText(assigns) + rest) == SetTokens(assigns) + Lex(rest)
  {
    if |assigns| == 1 {
      LexAssign(assigns[0], rest);
    } else {
      var others := SetText(assigns[1..]) + rest;
      LexSet(assigns[1..], rest);
      LexComma(others);
      LexAssign(assigns[0], ", " + others);
      SetShape(assigns, rest);
      SetAssociates(AssignTokens(assigns[0]), SetTokens(assigns[1..]), Lex(rest));
    }
  }

  lemma SetAssociates(a: seq<string>, b: seq<string>, c: seq<string>)
    ensures (a + ([","] + b)) + c == a + ([","] + (b + c))
  {
  }

  lemma ParseAssignTokens(a: Assign, rest: seq<string>)
    ensures ParseCompare(AssignTokens(a) + rest) == Some((a.column, Eq, a.param))
  {
    ParseCompareTokens(a.column, Eq, a.param, rest);
  }

  lemma {:induction false} ParseSetTokens(assigns: seq<Assign>, rest: seq<string>)
    requires |assigns| > 0 && (rest == [] || rest[0] != ",")
    ensures ParseAssigns(SetTokens(assigns) + rest) == Some((assigns, rest))
  {
    var t := SetTokens(assigns) + rest;
    if |assigns| == 1 {
      ParseAssignTokens(assigns[0], rest);
      assert t[3..] == rest && assigns == [assigns[0]];
    } else {
      var others := SetTokens(assigns[1..]) + rest;
      ParseSetTokens(assigns[1..], rest);
      SetAssociates(AssignTokens(assigns[0]), SetTokens(assigns[1..]), rest);
      ParseAssignTokens(assigns[0], [","] + others);
      assert t[4..] == others;
      assert assigns == [assigns[0]] + assigns[1..];
    }
  }

  lemma UpdateShape(target: string, sets: string, conds: string)
    ensures "UPDATE " + target + " SET " + sets + " WHERE " + conds
         == "UPDATE" + (" " + (target + (" " + ("SET" + (" " + (sets + (" " + ("WHERE " + conds))))))))
  {
  }

  lemma Keywords()
    ensures IsWord("UPDATE") && IsWord("SET")
  {
  }

  lemma LexHead(w1: string, w2: string, w3: string, tail: string)
    requires IsWord(w1) && IsWord(w2) && IsWord(w3)
    ensures Lex(w1 + (" " + (w2 + (" " + (w3 + (" " + tail)))))) == [w1, w2, w3] + Lex(tail)
  {
    LexIndent(" ", tail);
    LexThreeWords(w1, w2, w3, " " + tail);
  }

  lemma LexSetWhere(assigns: seq<Assign>, joined: string)
    requires |assigns| > 0 && Columns(assigns)
    ensures Lex(SetText(assigns) + (" " + ("WHERE " + joined))) == SetTokens(assigns) + (["WHERE"] + Lex(joined))
  {
    LexWhere(joined);
    LexIndent(" ", "WHERE " + joined);
    LexSet(assigns, " " + ("WHERE " + joined));
  }

  lemma LexUpdate(target: string, sets: string, conds: string)
    requires IsWord(target)
    ensures Lex("UPDATE " + target + " SET " + sets + " WHERE " + conds)
         == ["UPDATE", target, "SET"] + Lex(sets + (" " + ("WHERE " + conds)))
  {
    var update, set_ := "UPDATE", "SET";
    Keywords();
    LexHead(update, target, set_, sets + (" " + ("WHERE " + conds)));
    UpdateShape(target, sets, conds);
  }

  /** The statement text parses back to the assignments and conditions it was built from. */
  lemma UpdateParses(target: string, assigns: seq<Assign>, conds: seq<Cond>)
    requires IsWord(target) && |assigns| > 0 && Columns(assigns)
    requires |conds| > 0 && forall i :: 0 <= i < |conds| ==> WellFormed(conds[i])
    ensures ParseUpdate(Lex(UpdateText(target, assigns, conds))) == Some(Update(target, assigns, conds))
  {
    var joined := Join(ShowAll(conds), " AND ");
    LexUpdate(target, SetText(assigns), joined);
    LexSetWhere(assigns, joined);
    ParseJoined(conds, "");
    assert joined + "" == joined;
    ParseUpdateTokens(target, assigns, conds, Lex(joined));
  }

  lemma ParseUpdateTokens(target: string, assigns: seq<Assign>, conds: seq<Cond>, t: seq<string>)
    requires |assigns| > 0 && ParseConds(t) == Some((conds, []))
    ensures ParseUpdate(["UPDATE", target, "SET"] + (SetTokens(assigns) + (["WHERE"] + t))) == Some(Update(target, assigns, conds))
  {
    var whereTokens := ["WHERE"] + t;
    ParseSetTokens(assigns, whereTokens);
    assert whereTokens[1..] == t;
    assert (["UPDATE", target, "SET"] + (SetTokens(assigns) + whereTokens))[3..] == SetTokens(assigns) + whereTokens;
  }

  // ----- execution -----

  /** The statement fails, or it replaces the table and reports how many rows it touched. */
  datatype Outcome = Failed | Done(table: seq<Row>, affected: nat)

  function Assigned(row: Row, assigns: seq<Assign>, args: seq<Value>): Row
  {
    if assigns == [] then row
    else
      var last := assigns[|assigns| - 1];
      Assigned(row, assigns[..|assigns| - 1], args)
      [last.column := if 1 <= last.param <= |args| then args[last.param - 1] else Null]
  }

  predicate SetsOnce(assigns: seq<Assign>)
  {
    forall i, j :: 0 <= i < j < |assigns| ==> assigns[i].column != assigns[j].column
  }

  function Targets(assigns: seq<Assign>): set<string> { set i | 0 <= i < |assigns| :: assigns[i].column }

  function Touch(table: seq<Row>, touched: Row -> bool, change: Row -> Row): seq<Row>
  {
    seq(|table|, i requires 0 <= i < |table| => if touched(table[i]) then change(table[i]) else table[i])
  }

  /** What the database does with an UPDATE on the table `name` with these columns. A column may be
      set once only, and must exist. */
  function Execute(text: string, args: seq<Value>, name: string, columns: set<string>, table: seq<Row>): Outcome
  {
    match ParseUpdate(Lex(text))
    case None => Failed
    case Some(u) =>
      if u.target != name || !SetsOnce(u.assigns) || !(Targets(u.assigns) <= columns) then Failed
      else
        Done(Touch(table, row => AllTrue(u.conds, args, row), row => Assigned(row, u.assigns, args)),
             |Keep(table, row => AllTrue(u.conds, args, row))|)
  }

  // ----- a map as a SET list -----

  /** One order in which a range over the map may visit it. */
  predicate IsOrder(order: seq<string>, updates: map<string, Value>)
  {
    && (forall i, j :: 0 <= i < j < |order| ==> order[i] != order[j])
    && (forall i :: 0 <= i < |order| ==> order[i] in updates)
    && (forall key :: key in updates ==> key in order)
  }

  /** The columns in order, numbered from one. */
  function Numbered(order: seq<string>): seq<Assign>
  {
    seq(|order|, i requires 0 <= i < |order| => Assign(order[i], i + 1))
  }

  function Values(order: seq<string>, updates: map<string, Value>): seq<Value>
    requires forall i :: 0 <= i < |order| ==> order[i] in updates
  {
    seq(|order|, i requires 0 <= i < |order| => updates[order[i]])
  }

  function Stamped(updates: map<string, Value>, now: int): map<string, Value> { updates["updated_at" := Time(now)] }

  function Among(updates: map<string, Value>, keys: seq<string>): map<string, Value>
  {
    map key | key in keys && key in updates :: updates[key]
  }

  lemma AmongStep(updates: map<string, Value>, keys: seq<string>, key: string)
    requires key in updates
    ensures Among(updates, keys + [key]) == Among(updates, keys)[key := updates[key]]
  {
  }

  lemma {:induction false} AssignedPrefix(row: Row, order: seq<string>, updates: map<string, Value>, args: seq<Value>, n: nat)
    requires forall i :: 0 <= i < |order| ==> order[i] in updates
    requires n <= |order| <= |args|
    requires forall i :: 0 <= i < |order| ==> args[i] == updates[order[i]]
    ensures Assigned(row, Numbered(order[..n]), args) == row + Among(updates, order[..n])
  {
    if n > 0 {
      var key := order[n - 1];
      AssignedPrefix(row, order, updates, args, n - 1);
      assert order[..n] == order[..n - 1] + [key];
      assert Numbered(order[..n])[..n - 1] == Numbered(order[..n - 1]);
      AmongStep(updates, order[..n - 1], key);
      AddLast(row, Among(updates, order[..n - 1]), key, updates[key]);
    }
  }

  lemma AddLast(row: Row, changes: map<string, Value>, key: string, value: Value)
    ensures (row + changes)[key := value] == row + changes[key := value]
  {
  }

  lemma AmongAll(order: seq<string>, updates: map<string, Value>)
    requires IsOrder(order, updates)
    ensures Among(updates, order) == updates
  {
  }

  /** Whatever the order, the assignments have the effect of the map and the stamp. */
  lemma AssignedIsMap(row: Row, order: seq<string>, updates: map<string, Value>, now: int, more: seq<Value>)
    requires IsOrder(order, updates)
    ensures Assigned(row, Numbered(order) + [Assign("updated_at", |order| + 1)], Values(order, updates) + ([Time(now)] + more))
         == row + Stamped(updates, now)
  {
    var args := Values(order, updates) + ([Time(now)] + more);
    assert order[..|order|] == order;
    AssignedPrefix(row, order, updates, args, |order|);
    AmongAll(order, updates);
    AssignedLast(row, Numbered(order), args, Time(now), |order| + 1);
    AddLast(row, updates, "updated_at", Time(now));
  }

  lemma AssignedLast(row: Row, assigns: seq<Assign>, args: seq<Value>, value: Value, n: nat)
    requires 1 <= n <= |args| && args[n - 1] == value
    ensures Assigned(row, assigns + [Assign("updated_at", n)], args) == Assigned(row, assigns, args)["updated_at" := value]
  {
    var all := assigns + [Assign("updated_at", n)];
    assert all[..|all| - 1] == assigns;
  }

  /** The statement sets a column twice exactly when the map holds the column the builder adds. */
  lemma SetsOnceExactly(order: seq<string>, updates: map<string, Value>)
    requires IsOrder(order, updates)
    ensures var assigns := Numbered(order) + [Assign("updated_at", |order| + 1)];
            && (SetsOnce(assigns) <==> "updated_at" !in updates)
            && Targets(assigns) == updates.Keys + {"updated_at"}
  {
    var assigns := Numbered(order) + [Assign("updated_at", |order| + 1)];
    var n := |order|;
    assert assigns[n].column == "updated_at";
    forall i | 0 <= i < n
      ensures assigns[i].column == order[i]
    {
    }
    if "updated_at" in updates {
      var i :| 0 <= i < n && order[i] == "updated_at";
      assert assigns[i].column == assigns[n].column;
    }
    forall key | key in updates.Keys
      ensures key in Targets(assigns)
    {
      var i :| 0 <= i < n && order[i] == key;
      assert assigns[i].column == key;
    }
    assert Targets(assigns) == updates.Keys + {"updated_at"};
  }

  lemma {:induction false} SameKeep(table: seq<Row>, p: Row -> bool, q: Row -> bool)
    requires forall row :: p(row) <==> q(row)
    ensures Keep(table, p) == Keep(table, q)
  {
    if table != [] {
      assert p(table[0]) <==> q(table[0]);
      SameKeep(table[1..], p, q);
    }
  }

  lemma SameTouch(table: seq<Row>, p: Row -> bool, q: Row -> bool, f: Row -> Row, g: Row -> Row)
    requires forall row :: p(row) <==> q(row)
    requires forall row :: f(row) == g(row)
    ensures Touch(table, p, f) == Touch(table, q, g)
  {
    forall i | 0 <= i < |table|
      ensures Touch(table, p, f)[i] == Touch(table, q, g)[i]
    {
      assert (p(table[i]) <==> q(table[i])) && f(table[i]) == g(table[i]);
    }
  }

  function SetsOf(order: seq<string>): seq<Assign> { Numbered(order) + [Assign("updated_at", |order| + 1)] }

  function ArgsOf(order: seq<string>, updates: map<string, Value>, now: int, keys: seq<Value>): seq<Value>
    requires IsOrder(order, updates)
  {
    Values(order, updates) + ([Time(now)] + keys)
  }

  /** What the caller of an update means by it. */
  function Intended(updates: map<string, Value>, now: int, matches: Row -> bool, columns: set<string>, table: seq<Row>): Outcome
  {
    if "updated_at" in updates || !(updates.Keys + {"updated_at"} <= columns) then Failed
    else Done(Touch(table, matches, row => row + Stamped(updates, now)), |Keep(table, matches)|)
  }

  lemma SetsAreColumns(order: seq<string>, updates: map<string, Value>)
    requires IsOrder(order, updates) && forall key :: key in updates ==> IsColumn(key)
    ensures Columns(SetsOf(order))
  {
    assert IsColumn("updated_at");
  }

  /** The built statement means what its caller intends, for every visiting order of the map. */
  lemma ExecuteMeans(order: seq<string>, updates: map<string, Value>, now: int, conds: seq<Cond>, keys: seq<Value>,
                     matches: Row -> bool, name: string, columns: set<string>, table: seq<Row>)
    requires IsWord(name) && IsOrder(order, updates) && forall key :: key in updates ==> IsColumn(key)
    requires |conds| > 0 && forall i :: 0 <= i < |conds| ==> WellFormed(conds[i])
    requires forall row :: AllTrue(conds, ArgsOf(order, updates, now, keys), row) <==> matches(row)
    ensures Execute(UpdateText(name, SetsOf(order), conds), ArgsOf(order, updates, now, keys), name, columns, table)
         == Intended(updates, now, matches, columns, table)
  {
    var args := ArgsOf(order, updates, now, keys);
    SetsAreColumns(order, updates);
    UpdateParses(name, SetsOf(order), conds);
    SetsOnceExactly(order, updates);
    forall row
      ensures Assigned(row, SetsOf(order), args) == row + Stamped(updates, now)
    {
      AssignedIsMap(row, order, updates, now, keys);
    }
    SameTouch(table, row => AllTrue(conds, args, row), matches,
              row => Assigned(row, SetsOf(order), args), row => row + Stamped(updates, now));
    SameKeep(table, row => AllTrue(conds, args, row), matches);
  }

  // ----- the imperative side -----

  class Database {
    const name: string
    const columns: set<string>
    var table: seq<Row>

    constructor (name: string, columns: set<string>)
      ensures this.name == name && this.columns == columns && table == []
    {
      this.name, this.columns, table := name, columns, [];
    }

    method Exec(text: string, args: seq<Value>) returns (affected: Option<nat>)
      modifies this
      ensures Execute(text, args, name, columns, old(table))
           == if affected.Some? then Done(table, affected.value) else Failed
      ensures affected.None? ==> table == old(table)
    {
      match Execute(text, args, name, columns, table)
      case Failed => affected := None;
      case Done(changed, n) =>
        table := changed;
        affected := Some(n);
    }
  }

  lemma ShowAssignsSnoc(assigns: seq<Assign>, a: Assign)
    ensures ShowAssigns(assigns + [a]) == ShowAssigns(assigns) + [ShowAssign(a)]
  {
  }

  lemma NumberedSnoc(order: seq<string>, key: string)
    ensures Numbered(order + [key]) == Numbered(order) + [Assign(key, |order| + 1)]
  {
  }

  lemma StampText(n: nat)
    ensures "updated_at = $" + Decimal(n) == ShowAssign(Assign("updated_at", n))
  {
    assert "updated_at" + " = $" == "updated_at = $";
  }

  /** The loop over the map, and the stamp after it. The visiting order is the map's own business. */
  method BuildSet(updates: map<string, Value>, now: int)
    returns (setClauses: seq<string>, args: seq<Value>, argIdx: nat, ghost order: seq<string>)
    ensures IsOrder(order, updates)
    ensures setClauses == ShowAssigns(SetsOf(order)) && argIdx == |order| + 2
    ensures args == Values(order, updates) + [Time(now)]
    ensures |setClauses| == |args| == |updates| + 1 && args[|updates|] == Time(now)
  {
    setClauses, args, argIdx, order := [], [], 1, [];
    var remaining := updates.Keys;
    while remaining != {}
      invariant remaining <= updates.Keys && argIdx == |order| + 1 && |order| + |remaining| == |updates|
      invariant forall i :: 0 <= i < |order| ==> order[i] in updates && order[i] !in remaining
      invariant forall i, j :: 0 <= i < j < |order| ==> order[i] != order[j]
      invariant forall key :: key in updates ==> key in order || key in remaining
      invariant setClauses == ShowAssigns(Numbered(order)) && args == Values(order, updates)
      decreases |remaining|
    {
      var key :| key in remaining;
      NumberedSnoc(order, key);
      ShowAssignsSnoc(Numbered(order), Assign(key, argIdx));
      setClauses := setClauses + [key + " = $" + Decimal(argIdx)];
      args := args + [updates[key]];
      argIdx := argIdx + 1;
      order := order + [key];
      remaining := remaining - {key};
    }
    StampText(argIdx);
    ShowAssignsSnoc(Numbered(order), Assign("updated_at", argIdx));
    setClauses := setClauses + ["updated_at = $" + Decimal(argIdx)];
    args := args + [Time(now)];
    argIdx := argIdx + 1;
  }
}
