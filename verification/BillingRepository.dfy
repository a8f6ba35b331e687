/** Billing statements assembled at run time: the subscription listing, whose clause is one growing
    text, and the update scoped to id and org. */
module BillingRepository {
  import opened Text
  import opened Sql
  import opened SqlQuery
  import opened SqlUpdate

  // ----- ListSubscriptions -----

  const NIL_ID: nat := 0

  predicate Wanted(org: nat, status: string, row: Row)
  {
    && (org != NIL_ID ==> Column(row, "org_id") == Uuid(org))
    && (status != "" ==> Column(row, "status") == Text(status))
  }

  function FilterOf(org: nat, status: string): Builder
  {
    FilterIf(FilterIf(Builder([Always], []), org != NIL_ID, "org_id", Eq, Uuid(org)), status != "", "status", Eq, Text(status))
  }

  /** The clause, read back from its text, selects exactly the wanted rows. */
  lemma FilterTextMeans(org: nat, status: string, row: Row)
    ensures Sound(FilterOf(org, status))
    ensures TextSelects(Join(ShowAll(FilterOf(org, status).conds), " AND "), FilterOf(org, status).args, row)
       <==> Wanted(org, status, row)
    ensures Selects(FilterOf(org, status), row) <==> Wanted(org, status, row)
  {
    var b := Builder([Always], []);
    FilterMeans(b, org != NIL_ID, "org_id", Eq, Uuid(org), row);
    FilterMeans(FilterIf(b, org != NIL_ID, "org_id", Eq, Uuid(org)), status != "", "status", Eq, Text(status), row);
    TextMeans(FilterOf(org, status), row);
  }

  function WantedRows(org: nat, status: string, table: seq<Row>): seq<Row> { Keep(table, row => Wanted(org, status, row)) }

  lemma SelectIsWanted(org: nat, status: string, table: seq<Row>)
    ensures Sound(FilterOf(org, status))
    ensures Select(table, FilterOf(org, status).conds, FilterOf(org, status).args) == WantedRows(org, status, table)
  {
    forall row
      ensures Sound(FilterOf(org, status)) && (Selects(FilterOf(org, status), row) <==> Wanted(org, status, row))
    {
      FilterTextMeans(org, status, row);
    }
    FilterTextMeans(org, status, map[]);
    SelectKeeps(FilterOf(org, status), table, row => Wanted(org, status, row));
  }

  lemma CreatedAtIsColumn()
    ensures IsColumn("created_at")
  {
  }

  /** The two queries of the listing, end to end: the total counts the wanted subscriptions of the first,
      and the page, newest first, is a page of the wanted subscriptions of the second. It has the size the
      total calls for exactly when no change in between moved their number within its reach. */
  lemma ListSubscriptionsMeans(org: nat, status: string, limit: nat, offset: nat, counted: seq<Row>, listed: seq<Row>,
                               total: nat, page: seq<Row>)
    requires Answered(FilterOf(org, status), "created_at", true, limit, offset, counted, listed, total, page)
    ensures total == |WantedRows(org, status, counted)|
    ensures IsPage(page, WantedRows(org, status, listed), limit, offset, "created_at", true)
    ensures |page| == Smaller(limit, Remaining(total, offset)) <==>
            SameReach(total, |WantedRows(org, status, listed)|, limit, offset)
  {
    SelectIsWanted(org, status, counted);
    SelectIsWanted(org, status, listed);
    CreatedAtIsColumn();
    AnsweredIsPage(FilterOf(org, status), "created_at", true, limit, offset, counted, listed, total, page);
    SizeFitsTotalExactly(page, WantedRows(org, status, listed), total, limit, offset, "created_at", true);
  }

  /** Appending to the clause text itself, rather than to a list of parts. */
  lemma Appending(b: Builder, part: string, column: string, value: Value)
    requires |b.conds| > 0 && part == ShowCompare(column, Eq, Next(b))
    ensures Join(ShowAll(Filter(b, column, Eq, value).conds), " AND ") == Join(ShowAll(b.conds), " AND ") + " AND " + part
  {
    Adding(b, part, column, Eq, value);
    JoinSnoc(ShowAll(b.conds), part, " AND ");
  }

  lemma OrgIdEq(n: nat)
    ensures "org_id = $" + Decimal(n) == ShowCompare("org_id", Eq, n)
    ensures " AND org_id = $" == " AND " + "org_id = $"
  {
  }

  lemma StatusEq(n: nat)
    ensures "status = $" + Decimal(n) == ShowCompare("status", Eq, n)
    ensures " AND status = $" == " AND " + "status = $"
  {
  }

  method ListSubscriptions(org: nat, status: string, limit: int, offset: int)
    returns (countClause: string, countArgs: seq<Value>, clauses: string, args: seq<Value>)
    ensures countClause == WhereText(FilterOf(org, status)) && countArgs == FilterOf(org, status).args
    ensures clauses == WhereText(FilterOf(org, status)) + PageTail("created_at", true, Next(FilterOf(org, status)))
    ensures args == FilterOf(org, status).args + [Number(limit), Number(offset)]
  {
    var whereClause := "1=1";
    args := [];
    var argIdx := 1;
    ghost var b := Builder([Always], []);
    Starting(Always);
    assert whereClause == Join(ShowAll(b.conds), " AND ");
    if org != NIL_ID {
      OrgIdEq(argIdx);
      Appending(b, "org_id = $" + Decimal(argIdx), "org_id", Uuid(org));
      Associates(whereClause, " AND ", "org_id = $" + Decimal(argIdx));
      Associates(" AND ", "org_id = $", Decimal(argIdx));
      whereClause := whereClause + (" AND org_id = $" + Decimal(argIdx));
      args := args + [Uuid(org)];
      argIdx := argIdx + 1;
    }
    b := FilterIf(b, org != NIL_ID, "org_id", Eq, Uuid(org));
    assert whereClause == Join(ShowAll(b.conds), " AND ") && args == b.args && argIdx == Next(b);
    if status != "" {
      StatusEq(argIdx);
      Appending(b, "status = $" + Decimal(argIdx), "status", Text(status));
      Associates(whereClause, " AND ", "status = $" + Decimal(argIdx));
      Associates(" AND ", "status = $", Decimal(argIdx));
      whereClause := whereClause + (" AND status = $" + Decimal(argIdx));
      args := args + [Text(status)];
      argIdx := argIdx + 1;
    }
    b := FilterIf(b, status != "", "status", Eq, Text(status));
    assert whereClause == Join(ShowAll(b.conds), " AND ") && args == b.args && argIdx == Next(b);
    countClause := "WHERE " + whereClause;
    countArgs := args;
    clauses := countClause + PageTail("created_at", true, argIdx);
    args := args + [Number(limit), Number(offset)];
  }

  // ----- UpdateSubscription -----

  datatype SaveResult = Saved | NotFound | DatabaseError

  function OwnedBy(id: nat, org: nat): Row -> bool
  {
    row => Column(row, "id") == Uuid(id) && Column(row, "org_id") == Uuid(org)
  }

  method JoinSetClauses(clauses: seq<string>) returns (result: string)
    ensures result == Join(clauses, ", ")
  {
    result := "";
    for i := 0 to |clauses|
      invariant result == Join(clauses[..i], ", ")
    {
      assert clauses[..i + 1] == clauses[..i] + [clauses[i]];
      if i > 0 {
        JoinSnoc(clauses[..i], clauses[i], ", ");
        result := result + ", ";
      }
      result := result + clauses[i];
    }
    assert clauses[..|clauses|] == clauses;
  }

  function Scope(n: nat): seq<Cond> { [Compare("id", Eq, n), Compare("org_id", Eq, n + 1)] }

  lemma ScopeText(n: nat)
    ensures Join(ShowAll(Scope(n)), " AND ") == "id = $" + Decimal(n) + " AND org_id = $" + Decimal(n + 1)
  {
    OrgIdEq(n + 1);
    IdEq(n);
    assert ShowAll(Scope(n)) == [ShowCompare("id", Eq, n)] + [ShowCompare("org_id", Eq, n + 1)];
    JoinSnoc([ShowCompare("id", Eq, n)], ShowCompare("org_id", Eq, n + 1), " AND ");
    Associates("id = $" + Decimal(n), " AND ", "org_id = $" + Decimal(n + 1));
    Associates(" AND ", "org_id = $", Decimal(n + 1));
    Associates("id = $" + Decimal(n), " AND org_id = $", Decimal(n + 1));
  }

  lemma IdEq(n: nat)
    ensures "id = $" + Decimal(n) == ShowCompare("id", Eq, n)
  {
  }

  lemma ScopeMeans(order: seq<string>, updates: map<string, Value>, now: int, id: nat, org: nat, row: Row)
    requires IsOrder(order, updates)
    ensures AllTrue(Scope(|order| + 2), ArgsOf(order, updates, now, [Uuid(id), Uuid(org)]), row) <==> OwnedBy(id, org)(row)
  {
    var args, n := ArgsOf(order, updates, now, [Uuid(id), Uuid(org)]), |order|;
    assert args[n + 1] == Uuid(id) && args[n + 2] == Uuid(org);
    assert Scope(n + 2)[0] == Compare("id", Eq, n + 2) && Scope(n + 2)[1] == Compare("org_id", Eq, n + 3);
  }

  lemma ScopeWellFormed(n: nat)
    ensures forall i :: 0 <= i < |Scope(n)| ==> WellFormed(Scope(n)[i])
  {
  }

  lemma TargetIsWord()
    ensures IsWord("subscriptions")
  {
  }

  /** The update, end to end and for every visiting order of the map: nothing to do for an empty map;
      otherwise it means the map and the stamp on the rows with both the id and the org, a statement
      error when it cannot, and "not found" when there is no such row. */
  method UpdateSubscription(db: Database, id: nat, org: nat, updates: map<string, Value>, now: int) returns (result: SaveResult)
    requires db.name == "subscriptions" && forall key :: key in updates ==> IsColumn(key)
    modifies db
    ensures updates == map[] ==> result == Saved && db.table == old(db.table)
    ensures updates != map[] ==>
              match Intended(updates, now, OwnedBy(id, org), db.columns, old(db.table))
              case Failed => result == DatabaseError && db.table == old(db.table)
              case Done(table, n) => db.table == table && result == if n == 0 then NotFound else Saved
  {
    if |updates| == 0 {
      return Saved;
    }
    var setClauses, args, argIdx;
    ghost var order;
    setClauses, args, argIdx, order := BuildSet(updates, now);
    ghost var all := args + [Uuid(id), Uuid(org)];
    args := args + [Uuid(id)];
    var idIdx := argIdx;
    argIdx := argIdx + 1;
    args := args + [Uuid(org)];
    var orgIdx := argIdx;
    var sets := JoinSetClauses(setClauses);
    var query := "UPDATE subscriptions SET " + sets + " WHERE id = $" + Decimal(idIdx) + " AND org_id = $" + Decimal(orgIdx);
    assert args == ArgsOf(order, updates, now, [Uuid(id), Uuid(org)]);
    StatementText(sets, idIdx);
    ScopeText(idIdx);
    TargetIsWord();
    ScopeWellFormed(idIdx);
    forall row
      ensures AllTrue(Scope(idIdx), args, row) <==> OwnedBy(id, org)(row)
    {
      ScopeMeans(order, updates, now, id, org, row);
    }
    ExecuteMeans(order, updates, now, Scope(idIdx), [Uuid(id), Uuid(org)], OwnedBy(id, org), db.name, db.columns, db.table);
    var affected := db.Exec(query, args);
    if affected.None? {
      return DatabaseError;
    }
    if affected.value == 0 {
      return NotFound;
    }
    return Saved;
  }

  lemma StatementText(sets: string, n: nat)
    ensures "UPDATE subscriptions SET " + sets + " WHERE id = $" + Decimal(n) + " AND org_id = $" + Decimal(n + 1)
         == "UPDATE " + "subscriptions" + " SET " + sets + " WHERE " + ("id = $" + Decimal(n) + " AND org_id = $" + Decimal(n + 1))
  {
  }

  // ----- what the intended update is worth -----

  predicate UniqueIds(table: seq<Row>)
  {
    forall i, j :: 0 <= i < j < |table| ==> Column(table[i], "id") != Column(table[j], "id")
  }

  lemma {:induction false} KeptCount(table: seq<Row>, id: nat, org: nat)
    ensures |Keep(table, OwnedBy(id, org))| == 0 <==> forall i :: 0 <= i < |table| ==> !OwnedBy(id, org)(table[i])
    ensures UniqueIds(table) ==> |Keep(table, OwnedBy(id, org))| <= 1
  {
    if table != [] {
      KeptCount(table[1..], id, org);
      assert forall i :: 0 <= i < |table[1..]| ==> table[1..][i] == table[i + 1];
      if UniqueIds(table) && OwnedBy(id, org)(table[0]) {
        assert forall i :: 0 <= i < |table[1..]| ==> Column(table[1..][i], "id") != Column(table[0], "id");
      }
    }
  }

  /** An update that succeeds changes the one row with this id in this org, in exactly the mapped
      columns and the stamp; no row of another org or another id changes, and ids stay unique. */
  lemma UpdateStaysInside(updates: map<string, Value>, now: int, id: nat, org: nat, columns: set<string>,
                          table: seq<Row>, table': seq<Row>, n: nat)
    requires UniqueIds(table) && "id" !in updates && "org_id" !in updates
    requires Intended(updates, now, OwnedBy(id, org), columns, table) == Done(table', n)
    ensures |table'| == |table| && n <= 1 && UniqueIds(table')
    ensures n == 0 <==> forall i :: 0 <= i < |table| ==> !OwnedBy(id, org)(table[i])
    ensures forall i :: 0 <= i < |table| ==>
              if OwnedBy(id, org)(table[i])
              then && Column(table'[i], "updated_at") == Time(now)
                   && (forall key :: key in updates ==> Column(table'[i], key) == updates[key])
                   && forall key :: key !in updates && key != "updated_at" ==> Column(table'[i], key) == Column(table[i], key)
              else table'[i] == table[i]
  {
    KeptCount(table, id, org);
    forall i | 0 <= i < |table|
      ensures Column(table'[i], "id") == Column(table[i], "id")
    {
    }
  }
}
