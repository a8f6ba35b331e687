/** The host listing and the host count: two builders over the same table that do not take the same
    filters, and the join loop both use. */
module HostRepository {
  import opened Text
  import opened Sql
  import opened SqlQuery

  /** The nil UUID stands for "no filter". */
  const NIL_ID: nat := 0

  datatype HostFilter = HostFilter(user: nat, org: nat, status: string, tags: seq<string>)

  /** The filter of the listing, with no text involved. Tags match when any of them is shared. */
  predicate Listed(f: HostFilter, row: Row)
  {
    Counted(f.user, f.org, row) && HasState(f, row)
  }

  predicate HasState(f: HostFilter, row: Row)
  {
    && (f.status != "" ==> Column(row, "connection_status") == Text(f.status))
    && (f.tags != [] ==> Column(row, "tags").Tags? && (exists tag :: tag in f.tags && tag in Column(row, "tags").tags))
  }

  /** The filter of the count. */
  predicate Counted(user: nat, org: nat, row: Row)
  {
    && Column(row, "deleted_at") == Null
    && (user != NIL_ID ==> Column(row, "user_id") == Uuid(user))
    && (org != NIL_ID ==> Column(row, "org_id") == Uuid(org))
  }

  function CountFilter(user: nat, org: nat): Builder
  {
    FilterIf(FilterIf(Builder([IsNull("deleted_at")], []), user != NIL_ID, "user_id", Eq, Uuid(user)),
             org != NIL_ID, "org_id", Eq, Uuid(org))
  }

  function SetOf(tags: seq<string>): set<string> { set tag | tag in tags }

  lemma Overlap(a: set<string>, tags: seq<string>)
    ensures a * SetOf(tags) != {} <==> exists tag :: tag in tags && tag in a
  {
    if tag :| tag in tags && tag in a {
      assert tag in a * SetOf(tags);
    }
  }

  function ByState(f: HostFilter, b: Builder): Builder
  {
    FilterIf(FilterIf(b, f.status != "", "connection_status", Eq, Text(f.status)), f.tags != [], "tags", Overlaps, Tags(SetOf(f.tags)))
  }

  function ListFilter(f: HostFilter): Builder { ByState(f, CountFilter(f.user, f.org)) }

  lemma OwnerColumns()
    ensures IsColumn("deleted_at") && IsColumn("user_id") && IsColumn("org_id")
  {
  }

  /** The text of the count selects exactly the rows its filter wants. */
  lemma CountTextMeans(user: nat, org: nat, row: Row)
    ensures Sound(CountFilter(user, org))
    ensures TextSelects(Join(ShowAll(CountFilter(user, org).conds), " AND "), CountFilter(user, org).args, row)
       <==> Counted(user, org, row)
    ensures Selects(CountFilter(user, org), row) <==> Counted(user, org, row)
  {
    var b := Builder([IsNull("deleted_at")], []);
    OwnerColumns();
    StartMeans(IsNull("deleted_at"), row);
    FilterMeans(b, user != NIL_ID, "user_id", Eq, Uuid(user), row);
    FilterMeans(FilterIf(b, user != NIL_ID, "user_id", Eq, Uuid(user)), org != NIL_ID, "org_id", Eq, Uuid(org), row);
    TextMeans(CountFilter(user, org), row);
  }

  lemma StateMeans(f: HostFilter, b: Builder, row: Row)
    requires Sound(b)
    ensures Sound(ByState(f, b))
    ensures Selects(ByState(f, b), row) <==> Selects(b, row) && HasState(f, row)
  {
    FilterMeans(b, f.status != "", "connection_status", Eq, Text(f.status), row);
    var b' := FilterIf(b, f.status != "", "connection_status", Eq, Text(f.status));
    if Column(row, "tags").Tags? {
      Overlap(Column(row, "tags").tags, f.tags);
    }
    FilterMeans(b', f.tags != [], "tags", Overlaps, Tags(SetOf(f.tags)), row);
  }

  /** The text of the listing selects exactly the rows its filter wants. */
  lemma ListTextMeans(f: HostFilter, row: Row)
    ensures Sound(ListFilter(f))
    ensures TextSelects(Join(ShowAll(ListFilter(f).conds), " AND "), ListFilter(f).args, row) <==> Listed(f, row)
    ensures Selects(ListFilter(f), row) <==> Listed(f, row)
  {
    CountTextMeans(f.user, f.org, row);
    StateMeans(f, CountFilter(f.user, f.org), row);
    TextMeans(ListFilter(f), row);
  }

  /** Every listed row is counted; the two agree on all tables exactly when neither status nor tags
      are filtered on. */
  lemma CountIgnoresStatusAndTags(f: HostFilter)
    ensures f.status == "" && f.tags == [] <==> forall row :: Counted(f.user, f.org, row) ==> Listed(f, row)
    ensures forall row :: Listed(f, row) ==> Counted(f.user, f.org, row)
  {
    if f.status != "" || f.tags != [] {
      var row: Row := map["user_id" := Uuid(f.user), "org_id" := Uuid(f.org)];
      assert Counted(f.user, f.org, row) && !Listed(f, row);
    }
  }

  // ----- the methods -----

  method JoinConditions(conditions: seq<string>) returns (result: string)
    ensures result == Join(conditions, " AND ")
  {
    result := "";
    for i := 0 to |conditions|
      invariant result == Join(conditions[..i], " AND ")
    {
      assert conditions[..i + 1] == conditions[..i] + [conditions[i]];
      if i > 0 {
        JoinSnoc(conditions[..i], conditions[i], " AND ");
        result := result + " AND ";
      }
      result := result + conditions[i];
    }
    assert conditions[..|conditions|] == conditions;
  }

  lemma UserIdEq(n: nat)
    ensures "user_id = $" + Decimal(n) == ShowCompare("user_id", Eq, n)
  {
  }

  lemma OrgIdEq(n: nat)
    ensures "org_id = $" + Decimal(n) == ShowCompare("org_id", Eq, n)
  {
  }

  lemma StatusEq(n: nat)
    ensures "connection_status = $" + Decimal(n) == ShowCompare("connection_status", Eq, n)
  {
  }

  lemma TagsOverlap(n: nat)
    ensures "tags && $" + Decimal(n) == ShowCompare("tags", Overlaps, n)
  {
  }

  method AddOwner(user: nat, org: nat) returns (conditions: seq<string>, args: seq<Value>, argIdx: nat)
    ensures Shows(conditions, args, argIdx, CountFilter(user, org))
  {
    conditions, args, argIdx := ["deleted_at IS NULL"], [], 1;
    ghost var b := Builder([IsNull("deleted_at")], []);
    assert Show(IsNull("deleted_at")) == "deleted_at IS NULL";
    Starting(IsNull("deleted_at"));
    if user != NIL_ID {
      UserIdEq(argIdx);
      Adding(b, "user_id = $" + Decimal(argIdx), "user_id", Eq, Uuid(user));
      conditions := conditions + ["user_id = $" + Decimal(argIdx)];
      args := args + [Uuid(user)];
      argIdx := argIdx + 1;
    }
    b := FilterIf(b, user != NIL_ID, "user_id", Eq, Uuid(user));
    assert Shows(conditions, args, argIdx, b);
    if org != NIL_ID {
      OrgIdEq(argIdx);
      Adding(b, "org_id = $" + Decimal(argIdx), "org_id", Eq, Uuid(org));
      conditions := conditions + ["org_id = $" + Decimal(argIdx)];
      args := args + [Uuid(org)];
      argIdx := argIdx + 1;
    }
  }

  method CountHosts(user: nat, org: nat) returns (clause: string, args: seq<Value>)
    ensures clause == WhereText(CountFilter(user, org)) && args == CountFilter(user, org).args
  {
    var conditions, argIdx;
    conditions, args, argIdx := AddOwner(user, org);
    var joined := JoinConditions(conditions);
    clause := "WHERE " + joined;
  }

  method ListHosts(f: HostFilter, limit: int, offset: int) returns (clauses: string, args: seq<Value>)
    ensures clauses == WhereText(ListFilter(f)) + PageTail("created_at", true, Next(ListFilter(f)))
    ensures args == ListFilter(f).args + [Number(limit), Number(offset)]
  {
    var conditions, argIdx;
    conditions, args, argIdx := AddOwner(f.user, f.org);
    ghost var b := CountFilter(f.user, f.org);
    if f.status != "" {
      StatusEq(argIdx);
      Adding(b, "connection_status = $" + Decimal(argIdx), "connection_status", Eq, Text(f.status));
      conditions := conditions + ["connection_status = $" + Decimal(argIdx)];
      args := args + [Text(f.status)];
      argIdx := argIdx + 1;
    }
    b := FilterIf(b, f.status != "", "connection_status", Eq, Text(f.status));
    assert Shows(conditions, args, argIdx, b);
    if f.tags != [] {
      TagsOverlap(argIdx);
      Adding(b, "tags && $" + Decimal(argIdx), "tags", Overlaps, Tags(SetOf(f.tags)));
      conditions := conditions + ["tags && $" + Decimal(argIdx)];
      args := args + [Tags(SetOf(f.tags))];
      argIdx := argIdx + 1;
    }
    b := FilterIf(b, f.tags != [], "tags", Overlaps, Tags(SetOf(f.tags)));
    assert Shows(conditions, args, argIdx, b);
    var joined := JoinConditions(conditions);
    clauses := "WHERE " + joined + PageTail("created_at", true, argIdx);
    args := args + [Number(limit), Number(offset)];
  }

  function ListedRows(f: HostFilter, table: seq<Row>): seq<Row> { Keep(table, row => Listed(f, row)) }

  lemma SelectIsListed(f: HostFilter, table: seq<Row>)
    ensures Sound(ListFilter(f))
    ensures Select(table, ListFilter(f).conds, ListFilter(f).args) == ListedRows(f, table)
  {
    forall row
      ensures Sound(ListFilter(f)) && (Selects(ListFilter(f), row) <==> Listed(f, row))
    {
      ListTextMeans(f, row);
    }
    ListTextMeans(f, map[]);
    SelectKeeps(ListFilter(f), table, row => Listed(f, row));
  }

  lemma CreatedAtIsColumn()
    ensures IsColumn("created_at")
  {
  }

  /** The listing, end to end: it answers exactly the pages of the listed rows, newest first. */
  lemma ListHostsMeans(f: HostFilter, limit: nat, offset: nat, table: seq<Row>, page: seq<Row>)
    ensures PageAnswered(ListFilter(f), "created_at", true, limit, offset, table, page) <==>
            IsPage(page, ListedRows(f, table), limit, offset, "created_at", true)
  {
    SelectIsListed(f, table);
    CreatedAtIsColumn();
    PageIsPage(ListFilter(f), "created_at", true, limit, offset, table, page, ListedRows(f, table));
  }
}
