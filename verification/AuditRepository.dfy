/** The audit log listing and the two grouped counts: clauses grown filter by filter, with their
    arguments, and what the database then answers. */
module AuditRepository {
  import opened Text
  import opened Sql
  import opened SqlQuery

  datatype AuditFilter = AuditFilter(org: Option<nat>, user: Option<nat>, action: string, resourceType: string,
                                     severity: string, start: Option<int>, end: Option<int>)

  predicate Is(row: Row, column: string, value: Value) { Column(row, column) == value }

  predicate NotBefore(row: Row, column: string, at: int) { Column(row, column).Time? && Column(row, column).at >= at }

  predicate NotAfter(row: Row, column: string, at: int) { Column(row, column).Time? && Column(row, column).at <= at }

  /** The filter itself, with no text involved. */
  predicate Wanted(f: AuditFilter, row: Row)
  {
    && (f.org.Some? ==> Is(row, "org_id", Uuid(f.org.value)))
    && (f.user.Some? ==> Is(row, "user_id", Uuid(f.user.value)))
    && (f.action != "" ==> Is(row, "action", Text(f.action)))
    && (f.resourceType != "" ==> Is(row, "resource_type", Text(f.resourceType)))
    && (f.severity != "" ==> Is(row, "severity", Text(f.severity)))
    && (f.start.Some? ==> NotBefore(row, "timestamp", f.start.value))
    && (f.end.Some? ==> NotAfter(row, "timestamp", f.end.value))
  }

  function WantedRows(f: AuditFilter, table: seq<Row>): seq<Row> { Keep(table, row => Wanted(f, row)) }

  // ----- the builder -----

  function IdOf(id: Option<nat>): Value { if id.Some? then Uuid(id.value) else Null }

  function TimeOf(at: Option<int>): Value { if at.Some? then Time(at.value) else Null }

  function ByOwner(f: AuditFilter): Builder
  {
    FilterIf(FilterIf(Builder([Always], []), f.org.Some?, "org_id", Eq, IdOf(f.org)),
             f.user.Some?, "user_id", Eq, IdOf(f.user))
  }

  function ByKind(f: AuditFilter, b: Builder): Builder
  {
    FilterIf(FilterIf(FilterIf(b, f.action != "", "action", Eq, Text(f.action)),
                      f.resourceType != "", "resource_type", Eq, Text(f.resourceType)),
             f.severity != "", "severity", Eq, Text(f.severity))
  }

  function ByTime(f: AuditFilter, b: Builder): Builder
  {
    FilterIf(FilterIf(b, f.start.Some?, "timestamp", Ge, TimeOf(f.start)), f.end.Some?, "timestamp", Le, TimeOf(f.end))
  }

  function FilterOf(f: AuditFilter): Builder { ByTime(f, ByKind(f, ByOwner(f))) }

  lemma KindColumns()
    ensures IsColumn("action") && IsColumn("resource_type") && IsColumn("severity")
  {
  }

  lemma TimestampIsColumn()
    ensures IsColumn("timestamp")
  {
  }

  lemma OwnerMeans(f: AuditFilter, row: Row)
    ensures Sound(ByOwner(f))
    ensures Selects(ByOwner(f), row)
       <==> && (f.org.Some? ==> Is(row, "org_id", Uuid(f.org.value)))
            && (f.user.Some? ==> Is(row, "user_id", Uuid(f.user.value)))
  {
    var b := Builder([Always], []);
    FilterMeans(b, f.org.Some?, "org_id", Eq, IdOf(f.org), row);
    FilterMeans(FilterIf(b, f.org.Some?, "org_id", Eq, IdOf(f.org)), f.user.Some?, "user_id", Eq, IdOf(f.user), row);
  }

  lemma KindMeans(f: AuditFilter, b: Builder, row: Row)
    requires Sound(b)
    ensures Sound(ByKind(f, b))
    ensures Selects(ByKind(f, b), row)
       <==> && Selects(b, row)
            && (f.action != "" ==> Is(row, "action", Text(f.action)))
            && (f.resourceType != "" ==> Is(row, "resource_type", Text(f.resourceType)))
            && (f.severity != "" ==> Is(row, "severity", Text(f.severity)))
  {
    KindColumns();
    FilterMeans(b, f.action != "", "action", Eq, Text(f.action), row);
    var b1 := FilterIf(b, f.action != "", "action", Eq, Text(f.action));
    FilterMeans(b1, f.resourceType != "", "resource_type", Eq, Text(f.resourceType), row);
    var b2 := FilterIf(b1, f.resourceType != "", "resource_type", Eq, Text(f.resourceType));
    FilterMeans(b2, f.severity != "", "severity", Eq, Text(f.severity), row);
  }

  lemma TimeMeans(f: AuditFilter, b: Builder, row: Row)
    requires Sound(b)
    ensures Sound(ByTime(f, b))
    ensures Selects(ByTime(f, b), row)
       <==> && Selects(b, row)
            && (f.start.Some? ==> NotBefore(row, "timestamp", f.start.value))
            && (f.end.Some? ==> NotAfter(row, "timestamp", f.end.value))
  {
    TimestampIsColumn();
    FilterMeans(b, f.start.Some?, "timestamp", Ge, TimeOf(f.start), row);
    var b1 := FilterIf(b, f.start.Some?, "timestamp", Ge, TimeOf(f.start));
    FilterMeans(b1, f.end.Some?, "timestamp", Le, TimeOf(f.end), row);
  }

  /** The joined conditions, read back from their text, select exactly the wanted rows. */
  lemma FilterTextMeans(f: AuditFilter, row: Row)
    ensures Sound(FilterOf(f))
    ensures TextSelects(Join(ShowAll(FilterOf(f).conds), " AND "), FilterOf(f).args, row) <==> Wanted(f, row)
    ensures Selects(FilterOf(f), row) <==> Wanted(f, row)
  {
    OwnerMeans(f, row);
    KindMeans(f, ByOwner(f), row);
    TimeMeans(f, ByKind(f, ByOwner(f)), row);
    TextMeans(FilterOf(f), row);
  }

  lemma SelectIsWanted(f: AuditFilter, table: seq<Row>)
    ensures Sound(FilterOf(f))
    ensures Select(table, FilterOf(f).conds, FilterOf(f).args) == WantedRows(f, table)
  {
    forall row
      ensures Sound(FilterOf(f)) && (Selects(FilterOf(f), row) <==> Wanted(f, row))
    {
      FilterTextMeans(f, row);
    }
    FilterTextMeans(f, map[]);
    SelectKeeps(FilterOf(f), table, row => Wanted(f, row));
  }

  // ----- the methods -----

  /** The loop that writes WHERE before the first part and AND before the others. */
  method JoinWhere(whereParts: seq<string>) returns (whereClause: string)
    requires whereParts != []
    ensures whereClause == "WHERE " + Join(whereParts, " AND ")
  {
    whereClause := "";
    for i := 0 to |whereParts|
      invariant i == 0 ==> whereClause == ""
      invariant i > 0 ==> whereClause == "WHERE " + Join(whereParts[..i], " AND ")
    {
      assert whereParts[..i + 1] == whereParts[..i] + [whereParts[i]];
      if i == 0 {
        whereClause := "WHERE " + whereParts[i];
      } else {
        JoinSnoc(whereParts[..i], whereParts[i], " AND ");
        whereClause := whereClause + " AND " + whereParts[i];
      }
    }
    assert whereParts[..|whereParts|] == whereParts;
  }

  // The text each format string yields.

  lemma OrgIdEq(n: nat)
    ensures "org_id = $" + Decimal(n) == ShowCompare("org_id", Eq, n)
  {
  }

  lemma UserIdEq(n: nat)
    ensures "user_id = $" + Decimal(n) == ShowCompare("user_id", Eq, n)
  {
  }

  lemma ActionEq(n: nat)
    ensures "action = $" + Decimal(n) == ShowCompare("action", Eq, n)
  {
  }

  lemma ResourceTypeEq(n: nat)
    ensures "resource_type = $" + Decimal(n) == ShowCompare("resource_type", Eq, n)
  {
  }

  lemma SeverityEq(n: nat)
    ensures "severity = $" + Decimal(n) == ShowCompare("severity", Eq, n)
  {
  }

  lemma TimestampGe(n: nat)
    ensures "timestamp >= $" + Decimal(n) == ShowCompare("timestamp", Ge, n)
  {
  }

  lemma TimestampLe(n: nat)
    ensures "timestamp <= $" + Decimal(n) == ShowCompare("timestamp", Le, n)
  {
  }

  // The seven filters, in three groups, and the two time filters again for the grouped counts.

  method AddOwner(f: AuditFilter) returns (whereParts: seq<string>, args: seq<Value>, argIdx: nat)
    ensures Shows(whereParts, args, argIdx, ByOwner(f))
  {
    whereParts, args, argIdx := ["1=1"], [], 1;
    ghost var b := Builder([Always], []);
    Starting(Always);
    if f.org.Some? {
      OrgIdEq(argIdx);
      Adding(b, "org_id = $" + Decimal(argIdx), "org_id", Eq, Uuid(f.org.value));
      whereParts := whereParts + ["org_id = $" + Decimal(argIdx)];
      args := args + [Uuid(f.org.value)];
      argIdx := argIdx + 1;
    }
    b := FilterIf(b, f.org.Some?, "org_id", Eq, IdOf(f.org));
    assert Shows(whereParts, args, argIdx, b);
    if f.user.Some? {
      UserIdEq(argIdx);
      Adding(b, "user_id = $" + Decimal(argIdx), "user_id", Eq, Uuid(f.user.value));
      whereParts := whereParts + ["user_id = $" + Decimal(argIdx)];
      args := args + [Uuid(f.user.value)];
      argIdx := argIdx + 1;
    }
  }

  method AddKind(f: AuditFilter, whereParts0: seq<string>, args0: seq<Value>, argIdx0: nat, ghost b0: Builder)
    returns (whereParts: seq<string>, args: seq<Value>, argIdx: nat)
    requires Shows(whereParts0, args0, argIdx0, b0)
    ensures Shows(whereParts, args, argIdx, ByKind(f, b0))
  {
    whereParts, args, argIdx := whereParts0, args0, argIdx0;
    ghost var b := b0;
    if f.action != "" {
      ActionEq(argIdx);
      Adding(b, "action = $" + Decimal(argIdx), "action", Eq, Text(f.action));
      whereParts := whereParts + ["action = $" + Decimal(argIdx)];
      args := args + [Text(f.action)];
      argIdx := argIdx + 1;
    }
    b := FilterIf(b, f.action != "", "action", Eq, Text(f.action));
    assert Shows(whereParts, args, argIdx, b);
    if f.resourceType != "" {
      ResourceTypeEq(argIdx);
      Adding(b, "resource_type = $" + Decimal(argIdx), "resource_type", Eq, Text(f.resourceType));
      whereParts := whereParts + ["resource_type = $" + Decimal(argIdx)];
      args := args + [Text(f.resourceType)];
      argIdx := argIdx + 1;
    }
    b := FilterIf(b, f.resourceType != "", "resource_type", Eq, Text(f.resourceType));
    assert Shows(whereParts, args, argIdx, b);
    if f.severity != "" {
      SeverityEq(argIdx);
      Adding(b, "severity = $" + Decimal(argIdx), "severity", Eq, Text(f.severity));
      whereParts := whereParts + ["severity = $" + Decimal(argIdx)];
      args := args + [Text(f.severity)];
      argIdx := argIdx + 1;
    }
  }

  method AddTime(f: AuditFilter, whereParts0: seq<string>, args0: seq<Value>, argIdx0: nat, ghost b0: Builder)
    returns (whereParts: seq<string>, args: seq<Value>, argIdx: nat)
    requires Shows(whereParts0, args0, argIdx0, b0)
    ensures Shows(whereParts, args, argIdx, ByTime(f, b0))
  {
    whereParts, args, argIdx := whereParts0, args0, argIdx0;
    ghost var b := b0;
    if f.start.Some? {
      TimestampGe(argIdx);
      Adding(b, "timestamp >= $" + Decimal(argIdx), "timestamp", Ge, Time(f.start.value));
      whereParts := whereParts + ["timestamp >= $" + Decimal(argIdx)];
      args := args + [Time(f.start.value)];
      argIdx := argIdx + 1;
    }
    b := FilterIf(b, f.start.Some?, "timestamp", Ge, TimeOf(f.start));
    assert Shows(whereParts, args, argIdx, b);
    if f.end.Some? {
      TimestampLe(argIdx);
      Adding(b, "timestamp <= $" + Decimal(argIdx), "timestamp", Le, Time(f.end.value));
      whereParts := whereParts + ["timestamp <= $" + Decimal(argIdx)];
      args := args + [Time(f.end.value)];
      argIdx := argIdx + 1;
    }
  }

  method ListAuditLogs(f: AuditFilter, limit0: int, offset0: int)
    returns (countClause: string, countArgs: seq<Value>, clauses: string, args: seq<Value>)
    ensures countClause == WhereText(FilterOf(f)) && countArgs == FilterOf(f).args
    ensures clauses == WhereText(FilterOf(f)) + PageTail("timestamp", true, Next(FilterOf(f)))
    ensures args == FilterOf(f).args
                    + [Number(if limit0 <= 0 then 20 else if limit0 <= 100 then limit0 else 100),
                       Number(if offset0 >= 0 then offset0 else 0)]
  {
    var limit, offset := limit0, offset0;
    if limit <= 0 {
      limit := 20;
    }
    if limit > 100 {
      limit := 100;
    }
    if offset < 0 {
      offset := 0;
    }
    var whereParts, argIdx;
    whereParts, args, argIdx := AddOwner(f);
    whereParts, args, argIdx := AddKind(f, whereParts, args, argIdx, ByOwner(f));
    whereParts, args, argIdx := AddTime(f, whereParts, args, argIdx, ByKind(f, ByOwner(f)));
    countClause := JoinWhere(whereParts);
    countArgs := args;
    clauses := countClause + PageTail("timestamp", true, argIdx);
    args := args + [Number(limit), Number(offset)];
  }

  lemma ListingMeans(f: AuditFilter, limit: nat, offset: nat, counted: seq<Row>, listed: seq<Row>, total: nat, page: seq<Row>)
    requires Answered(FilterOf(f), "timestamp", true, limit, offset, counted, listed, total, page)
    ensures total == |WantedRows(f, counted)|
    ensures IsPage(page, WantedRows(f, listed), limit, offset, "timestamp", true)
  {
    SelectIsWanted(f, counted);
    SelectIsWanted(f, listed);
    TimestampIsColumn();
    AnsweredIsPage(FilterOf(f), "timestamp", true, limit, offset, counted, listed, total, page);
  }

  /** The listing, end to end. The limit is the caller's between 1 and 100, otherwise 20 or 100; the offset
      is the caller's unless negative. The total counts the wanted rows when it was asked, and the page,
      newest first and never more than a hundred, is a page of the wanted rows when it was asked. The table
      may have changed in between: the page has min(limit, max(0, total - offset)) rows exactly when that
      did not move the number of wanted rows within its reach. */
  lemma ListAuditLogsMeans(f: AuditFilter, limit: int, offset: int, used: nat, start: nat, counted: seq<Row>, listed: seq<Row>,
                           total: nat, page: seq<Row>)
    requires limit <= 0 ==> used == 20
    requires 1 <= limit <= 100 ==> used == limit
    requires limit > 100 ==> used == 100
    requires start == if offset >= 0 then offset else 0
    requires Answered(FilterOf(f), "timestamp", true, used, start, counted, listed, total, page)
    ensures total == |WantedRows(f, counted)|
    ensures IsPage(page, WantedRows(f, listed), used, start, "timestamp", true)
    ensures |page| <= 100
    ensures |page| == Smaller(used, Remaining(total, start)) <==> SameReach(total, |WantedRows(f, listed)|, used, start)
  {
    ListingMeans(f, used, start, counted, listed, total, page);
    SizeFitsTotalExactly(page, WantedRows(f, listed), total, used, start, "timestamp", true);
  }

  // ----- grouped counts -----

  function CountOf(rows: seq<Row>, column: string, v: Value): nat
  {
    if rows == [] then 0 else (if Column(rows[0], column) == v then 1 else 0) + CountOf(rows[1..], column, v)
  }

  function SumCounts(rows: seq<Row>, column: string, keys: seq<Value>): nat
  {
    if keys == [] then 0 else CountOf(rows, column, keys[0]) + SumCounts(rows, column, keys[1..])
  }

  predicate Distinct<T(==)>(keys: seq<T>) { forall i, j :: 0 <= i < j < |keys| ==> keys[i] != keys[j] }

  function KeysOf<T>(groups: seq<(T, nat)>): seq<T> { seq(|groups|, i requires 0 <= i < |groups| => groups[i].0) }

  function ParseGrouped(t: seq<string>): Option<(seq<Cond>, string)>
  {
    match ParseWhere(t)
    case Some((cs, rest)) =>
      if |rest| == 3 && rest[0] == "GROUP" && rest[1] == "BY" then Some((cs, rest[2])) else None
    case None => None
  }

  /** One group for each value the column takes on the chosen rows, with how many rows have it. */
  predicate Groups(groups: seq<(Value, nat)>, rows: seq<Row>, column: string)
  {
    && Distinct(KeysOf(groups))
    && (forall i :: 0 <= i < |groups| ==> groups[i].1 == CountOf(rows, column, groups[i].0) > 0)
    && (forall i :: 0 <= i < |rows| ==> Column(rows[i], column) in KeysOf(groups))
  }

  predicate GroupAnswer(clauses: string, args: seq<Value>, table: seq<Row>, groups: seq<(Value, nat)>)
  {
    match ParseGrouped(Lex(clauses))
    case Some((cs, column)) => Groups(groups, Select(table, cs, args), column)
    case None => false
  }

  lemma GroupParses(b: Builder, column: string)
    requires Sound(b) && IsColumn(column)
    ensures ParseGrouped(Lex(WhereText(b) + " GROUP BY " + column)) == Some((b.conds, column))
  {
    var joined, tail := Join(ShowAll(b.conds), " AND "), " " + ("GROUP" + (" " + ("BY" + (" " + column))));
    LexGroup(column);
    ParseJoined(b.conds, tail);
    LexWhere(joined + tail);
    GroupShape(joined, column);
  }

  lemma LexGroup(column: string)
    requires IsColumn(column)
    ensures Lex(" " + ("GROUP" + (" " + ("BY" + (" " + column))))) == ["GROUP", "BY", column]
  {
    ColumnIsWord(column);
    LexLastWord(column);
    LexIndent(" ", column);
    LexPair("GROUP", "BY", " " + column);
    LexIndent(" ", "GROUP" + (" " + ("BY" + (" " + column))));
  }

  lemma GroupShape(joined: string, column: string)
    ensures ("WHERE " + joined) + " GROUP BY " + column
         == "WHERE " + (joined + (" " + ("GROUP" + (" " + ("BY" + (" " + column))))))
  {
  }

  lemma {:induction false} OneMoreRow(row: Row, rows: seq<Row>, column: string, keys: seq<Value>)
    requires Distinct(keys)
    ensures SumCounts([row] + rows, column, keys)
         == SumCounts(rows, column, keys) + if Column(row, column) in keys then 1 else 0
  {
    assert ([row] + rows)[1..] == rows;
    if keys != [] {
      OneMoreRow(row, rows, column, keys[1..]);
      assert forall i :: 1 <= i < |keys| ==> keys[0] != keys[i];
      assert keys == [keys[0]] + keys[1..];
    }
  }

  lemma {:induction false} GroupsSum(rows: seq<Row>, column: string, keys: seq<Value>)
    requires Distinct(keys)
    requires forall i :: 0 <= i < |rows| ==> Column(rows[i], column) in keys
    ensures SumCounts(rows, column, keys) == |rows|
  {
    if rows == [] {
      NoRows(column, keys);
    } else {
      GroupsSum(rows[1..], column, keys);
      OneMoreRow(rows[0], rows[1..], column, keys);
      assert rows == [rows[0]] + rows[1..];
    }
  }

  lemma NoRows(column: string, keys: seq<Value>)
    ensures SumCounts([], column, keys) == 0
  {
  }

  /** The filter of the two grouped counts. */
  function GroupFilter(org: Option<nat>, start: Option<int>, end: Option<int>): AuditFilter
  {
    AuditFilter(org, None, "", "", "", start, end)
  }

  /** A grouped count partitions the rows the same filter lists: each group counts the wanted rows
      with its value, and the groups add up to all of them. */
  lemma CountByPartitions(f: AuditFilter, column: string, table: seq<Row>, groups: seq<(Value, nat)>)
    requires IsColumn(column)
    requires GroupAnswer(WhereText(FilterOf(f)) + " GROUP BY " + column, FilterOf(f).args, table, groups)
    ensures Groups(groups, WantedRows(f, table), column)
    ensures SumCounts(WantedRows(f, table), column, KeysOf(groups)) == |WantedRows(f, table)|
  {
    SelectIsWanted(f, table);
    GroupParses(FilterOf(f), column);
    GroupsSum(WantedRows(f, table), column, KeysOf(groups));
  }

  /** CountByAction and CountByResourceType differ in the column alone. */
  method CountBy(column: string, org: Option<nat>, start: Option<int>, end: Option<int>)
    returns (clauses: string, args: seq<Value>)
    ensures clauses == WhereText(FilterOf(GroupFilter(org, start, end))) + " GROUP BY " + column
    ensures args == FilterOf(GroupFilter(org, start, end)).args
  {
    ghost var f := GroupFilter(org, start, end);
    var whereParts, argIdx := ["1=1"], 1;
    args := [];
    ghost var b := Builder([Always], []);
    Starting(Always);
    if org.Some? {
      OrgIdEq(argIdx);
      Adding(b, "org_id = $" + Decimal(argIdx), "org_id", Eq, Uuid(org.value));
      whereParts := whereParts + ["org_id = $" + Decimal(argIdx)];
      args := args + [Uuid(org.value)];
      argIdx := argIdx + 1;
    }
    assert ByKind(f, ByOwner(f)) == FilterIf(b, org.Some?, "org_id", Eq, IdOf(org));
    whereParts, args, argIdx := AddTime(GroupFilter(org, start, end), whereParts, args, argIdx, ByKind(f, ByOwner(f)));
    var whereClause := JoinWhere(whereParts);
    clauses := whereClause + " GROUP BY " + column;
  }

  /** The Go map filled from the scanned groups holds each group's count under its key and no more. */
  method CollectCounts(groups: seq<(string, nat)>) returns (counts: map<string, nat>)
    requires Distinct(KeysOf(groups))
    ensures forall i :: 0 <= i < |groups| ==> groups[i].0 in counts && counts[groups[i].0] == groups[i].1
    ensures forall key :: key in counts ==> key in KeysOf(groups)
  {
    counts := map[];
    for n := 0 to |groups|
      invariant forall i :: 0 <= i < n ==> groups[i].0 in counts && counts[groups[i].0] == groups[i].1
      invariant forall key :: key in counts ==> key in KeysOf(groups)
    {
      forall i | 0 <= i < n
        ensures groups[i].0 != groups[n].0
      {
        assert KeysOf(groups)[i] != KeysOf(groups)[n];
      }
      counts := counts[groups[n].0 := groups[n].1];
      assert KeysOf(groups)[n] == groups[n].0;
    }
  }
}
