/** The config listing: conditions with no argument, one placeholder used twice, and a search text
    that the database reads as a pattern. */
module ConfigRepository {
  import opened Text
  import opened Sql
  import opened SqlQuery
  import opened SqlUpdate

  datatype ConfigFilter = ConfigFilter(scope: string, scopeId: Option<nat>, search: string)

  predicate Found(row: Row, column: string, pattern: string)
  {
    Column(row, column).Text? && Like(Lower(Column(row, column).text), Lower(pattern))
  }

  /** The filter itself, with no text involved. A scope without a scope id means the rows whose scope
      id is NULL; a scope id alone filters by it whatever the scope. */
  predicate Wanted(f: ConfigFilter, row: Row)
  {
    && Column(row, "deleted_at") == Null
    && (f.scope != "" ==> Column(row, "scope") == Text(f.scope))
    && (f.scopeId.Some? ==> Column(row, "scope_id") == Uuid(f.scopeId.value))
    && (f.scopeId.None? && f.scope != "" ==> Column(row, "scope_id") == Null)
    && (f.search != "" ==> Found(row, "key", "%" + f.search + "%") || Found(row, "description", "%" + f.search + "%"))
  }

  // ----- the builder -----

  function ByScope(f: ConfigFilter): Builder
  {
    FilterIf(Builder([IsNull("deleted_at")], []), f.scope != "", "scope", Eq, Text(f.scope))
  }

  function ByScopeId(f: ConfigFilter, b: Builder): Builder
  {
    if f.scopeId.Some? then Filter(b, "scope_id", Eq, Uuid(f.scopeId.value))
    else if f.scope != "" then Builder(b.conds + [IsNull("scope_id")], b.args)
    else b
  }

  function SearchCond(n: nat): Cond { Either("key", ILike, n, "description", ILike, n) }

  function BySearch(f: ConfigFilter, b: Builder): Builder
  {
    if f.search != "" then Builder(b.conds + [SearchCond(Next(b))], b.args + [Text("%" + f.search + "%")]) else b
  }

  function FilterOf(f: ConfigFilter): Builder { BySearch(f, ByScopeId(f, ByScope(f))) }

  lemma ScopeMeans(f: ConfigFilter, row: Row)
    ensures Sound(ByScope(f))
    ensures Selects(ByScope(f), row)
       <==> Column(row, "deleted_at") == Null && (f.scope != "" ==> Column(row, "scope") == Text(f.scope))
  {
    StartMeans(IsNull("deleted_at"), row);
    FilterMeans(Builder([IsNull("deleted_at")], []), f.scope != "", "scope", Eq, Text(f.scope), row);
  }

  lemma ScopeIdMeans(f: ConfigFilter, b: Builder, row: Row)
    requires Sound(b)
    ensures Sound(ByScopeId(f, b))
    ensures Selects(ByScopeId(f, b), row)
       <==> && Selects(b, row)
            && (f.scopeId.Some? ==> Column(row, "scope_id") == Uuid(f.scopeId.value))
            && (f.scopeId.None? && f.scope != "" ==> Column(row, "scope_id") == Null)
  {
    if f.scopeId.Some? {
      FilterMeans(b, true, "scope_id", Eq, Uuid(f.scopeId.value), row);
    } else if f.scope != "" {
      AddMeans(b, IsNull("scope_id"), [], row);
      assert b.args + [] == b.args;
    }
  }

  /** One argument serves both sides of the search: its placeholder appears twice. */
  lemma SearchMeans(f: ConfigFilter, b: Builder, row: Row)
    requires Sound(b)
    ensures Sound(BySearch(f, b))
    ensures Selects(BySearch(f, b), row)
       <==> Selects(b, row)
            && (f.search != "" ==> Found(row, "key", "%" + f.search + "%") || Found(row, "description", "%" + f.search + "%"))
  {
    if f.search != "" {
      AddMeans(b, SearchCond(Next(b)), [Text("%" + f.search + "%")], row);
    }
  }

  /** The joined conditions, read back from their text, select exactly the wanted rows. */
  lemma FilterTextMeans(f: ConfigFilter, row: Row)
    ensures Sound(FilterOf(f))
    ensures TextSelects(Join(ShowAll(FilterOf(f).conds), " AND "), FilterOf(f).args, row) <==> Wanted(f, row)
    ensures Selects(FilterOf(f), row) <==> Wanted(f, row)
  {
    ScopeMeans(f, row);
    ScopeIdMeans(f, ByScope(f), row);
    SearchMeans(f, ByScopeId(f, ByScope(f)), row);
    TextMeans(FilterOf(f), row);
  }

  function WantedRows(f: ConfigFilter, table: seq<Row>): seq<Row> { Keep(table, row => Wanted(f, row)) }

  lemma SelectIsWanted(f: ConfigFilter, table: seq<Row>)
    ensures Sound(FilterOf(f))
    ensures Select(table, FilterOf(f).conds, FilterOf(f).args) == WantedRows(f, table)
  {
    forall row
      ensures Sound(FilterOf(f)) && (Selects(FilterOf(f), row) <==> Wanted(f, row))
    {
      FilterTextMeans(f, row);
    }
    FilterTextMeans(f, map[]);
    SelectKeeps(FilterOf(f), table, row => Wanted(f, row));
  }

  /** The two queries of the listing, end to end: the total counts the wanted rows of the first, and the
      page is a page of the wanted rows of the second, in the order of their keys. The page has the size
      the total calls for exactly when no change in between moved the number of rows within its reach. */
  lemma ListConfigsMeans(f: ConfigFilter, limit: nat, offset: nat, counted: seq<Row>, listed: seq<Row>, total: nat,
                         page: seq<Row>)
    requires Answered(FilterOf(f), "key", false, limit, offset, counted, listed, total, page)
    ensures total == |WantedRows(f, counted)|
    ensures IsPage(page, WantedRows(f, listed), limit, offset, "key", false)
    ensures |page| == Smaller(limit, Remaining(total, offset)) <==> SameReach(total, |WantedRows(f, listed)|, limit, offset)
  {
    SelectIsWanted(f, counted);
    SelectIsWanted(f, listed);
    AnsweredIsPage(FilterOf(f), "key", false, limit, offset, counted, listed, total, page);
    SizeFitsTotalExactly(page, WantedRows(f, listed), total, limit, offset, "key", false);
  }

  /** Keys that are texts and tell the wanted rows apart, as they do within one scope, fix the page. */
  lemma KeysFixThePage(f: ConfigFilter, limit: nat, offset: nat, table: seq<Row>, page: seq<Row>, other: seq<Row>)
    requires PageAnswered(FilterOf(f), "key", false, limit, offset, table, page)
    requires PageAnswered(FilterOf(f), "key", false, limit, offset, table, other)
    requires Tells(WantedRows(f, table), "key")
    ensures page == other
  {
    SelectIsWanted(f, table);
    PageIsPage(FilterOf(f), "key", false, limit, offset, table, page, WantedRows(f, table));
    PageIsPage(FilterOf(f), "key", false, limit, offset, table, other, WantedRows(f, table));
    PageIsDetermined(page, other, WantedRows(f, table), limit, offset, "key", false);
  }

  // ----- what a search finds -----

  predicate Contains(s: string, piece: string)
  {
    piece <= s || (s != "" && Contains(s[1..], piece))
  }

  /** No character that ILIKE reads specially. */
  predicate Plain(s: string) { '%' !in s && '_' !in s && '\\' !in s }

  predicate Finds(search: string, text: string) { Like(Lower(text), Lower("%" + search + "%")) }

  predicate ContainsIgnoringCase(text: string, search: string) { Contains(Lower(text), Lower(search)) }

  lemma {:induction false} AnyText(s: string)
    ensures Like(s, "%")
  {
    if s != "" {
      AnyText(s[1..]);
    }
  }

  lemma {:induction false} PlainPrefix(s: string, p: string)
    requires Plain(p)
    ensures Like(s, p + "%") <==> p <= s
  {
    if p == "" {
      AnyText(s);
      assert p + "%" == "%";
    } else {
      assert (p + "%")[1..] == p[1..] + "%";
      if s != "" {
        PlainPrefix(s[1..], p[1..]);
        assert p <= s <==> p[0] == s[0] && p[1..] <= s[1..];
      }
    }
  }

  lemma {:induction false} PlainSearch(s: string, p: string)
    requires Plain(p)
    ensures Like(s, "%" + (p + "%")) <==> Contains(s, p)
  {
    PlainPrefix(s, p);
    assert ("%" + (p + "%"))[1..] == p + "%";
    if s != "" {
      PlainSearch(s[1..], p);
    }
  }

  /** A text that the pattern matches at its start, spelled without the pattern's special characters. */
  function Sample(p: string): string
  {
    if p == "" then ""
    else if p[0] == '%' then Sample(p[1..])
    else if p[0] == '\\' then if |p| > 1 then [p[1]] + Sample(p[2..]) else "%"
    else [if p[0] == '_' then 'x' else p[0]] + Sample(p[1..])
  }

  lemma {:induction false} SampleMatches(p: string)
    ensures Like(Sample(p), p + "%")
    ensures |Sample(p)| <= |p|
    ensures Sample(p) == p ==> Plain(p)
  {
    if p == "" {
      AnyText("");
      assert p + "%" == "%";
    } else {
      assert (p + "%")[1..] == p[1..] + "%";
      if p[0] == '\\' {
        if |p| > 1 {
          SampleMatches(p[2..]);
          assert (p + "%")[2..] == p[2..] + "%";
        } else {
          assert (p + "%")[2..] == "";
        }
      } else {
        SampleMatches(p[1..]);
        assert p == [p[0]] + p[1..];
      }
    }
  }

  lemma {:induction false} TooShort(s: string, p: string)
    requires |s| < |p|
    ensures !Contains(s, p)
  {
    if s != "" {
      TooShort(s[1..], p);
    }
  }

  lemma SampleLacks(p: string)
    requires !Plain(p)
    ensures Like(Sample(p), "%" + (p + "%")) && !Contains(Sample(p), p)
  {
    SampleMatches(p);
    assert ("%" + (p + "%"))[1..] == p + "%";
    if |Sample(p)| < |p| {
      TooShort(Sample(p), p);
    } else {
      assert !(p <= Sample(p));
      if p != "" {
        TooShort(Sample(p)[1..], p);
      }
    }
  }

  lemma {:induction false} LowerConcat(a: string, b: string)
    ensures Lower(a + b) == Lower(a) + Lower(b)
  {
    if a == "" {
      assert a + b == b;
    } else {
      LowerConcat(a[1..], b);
      assert (a + b)[1..] == a[1..] + b;
    }
  }

  lemma {:induction false} LowerTwice(s: string)
    ensures Lower(Lower(s)) == Lower(s)
    ensures Plain(Lower(s)) <==> Plain(s)
  {
    if s != "" {
      LowerTwice(s[1..]);
      assert s == [s[0]] + s[1..] && Lower(s)[1..] == Lower(s[1..]);
    }
  }

  lemma {:induction false} LowerSample(p: string)
    requires Lower(p) == p
    ensures Lower(Sample(p)) == Sample(p)
  {
    if p != "" {
      LowerTail(p);
      if p[0] == '\\' && |p| > 1 {
        LowerTail(p[1..]);
        LowerSample(p[2..]);
        assert p[1..][1..] == p[2..];
      } else if p[0] != '\\' {
        LowerSample(p[1..]);
      }
    }
  }

  lemma LowerTail(p: string)
    requires p != "" && Lower(p) == p
    ensures Lower(p[1..]) == p[1..] && !('A' <= p[0] <= 'Z')
  {
  }

  lemma PatternLower(search: string)
    ensures Lower("%" + search + "%") == "%" + (Lower(search) + "%")
  {
    assert "%" + search + "%" == "%" + (search + "%");
    LowerConcat("%", search + "%");
    LowerConcat(search, "%");
  }

  /** The search finds exactly the texts that contain it, whatever their case, if and only if it has
      no percent sign, underscore or backslash: the pattern around it does not escape them. */
  lemma SearchIsSubstring(search: string)
    ensures Plain(search) <==> forall text :: Finds(search, text) <==> ContainsIgnoringCase(text, search)
  {
    var p := Lower(search);
    LowerTwice(search);
    PatternLower(search);
    if Plain(search) {
      forall text
        ensures Finds(search, text) <==> ContainsIgnoringCase(text, search)
      {
        PlainSearch(Lower(text), p);
      }
    } else {
      SampleLacks(p);
      LowerSample(p);
      assert Finds(search, Sample(p)) && !ContainsIgnoringCase(Sample(p), search);
    }
  }

  // ----- the method -----

  lemma ScopeEq(n: nat)
    ensures "scope = $" + Decimal(n) == ShowCompare("scope", Eq, n)
  {
  }

  lemma ScopeIdEq(n: nat)
    ensures "scope_id = $" + Decimal(n) == ShowCompare("scope_id", Eq, n)
  {
  }

  lemma KeyILike(n: nat)
    ensures "key ILIKE $" + Decimal(n) == ShowCompare("key", ILike, n)
  {
  }

  lemma DescriptionILike(n: nat)
    ensures "description ILIKE $" + Decimal(n) == ShowCompare("description", ILike, n)
  {
  }

  lemma SearchPrefixes()
    ensures "(key ILIKE $" == "(" + "key ILIKE $" && " OR description ILIKE $" == " OR " + "description ILIKE $"
  {
  }

  lemma EitherText(key: string, description: string, n: string)
    ensures ("(" + key) + n + (" OR " + description) + n + ")" == "(" + (key + n) + " OR " + (description + n) + ")"
  {
  }

  lemma KeyOrDescription(n: nat)
    ensures "(key ILIKE $" + Decimal(n) + " OR description ILIKE $" + Decimal(n) + ")" == Show(SearchCond(n))
  {
    KeyILike(n);
    DescriptionILike(n);
    SearchPrefixes();
    EitherText("key ILIKE $", "description ILIKE $", Decimal(n));
  }

  method ListConfigs(f: ConfigFilter, limit: int, offset: int)
    returns (countClause: string, countArgs: seq<Value>, clauses: string, args: seq<Value>)
    ensures countClause == WhereText(FilterOf(f)) && countArgs == FilterOf(f).args
    ensures clauses == WhereText(FilterOf(f)) + PageTail("key", false, Next(FilterOf(f)))
    ensures args == FilterOf(f).args + [Number(limit), Number(offset)]
  {
    var whereParts := ["deleted_at IS NULL"];
    args := [];
    var argIdx := 1;
    ghost var b := Builder([IsNull("deleted_at")], []);
    assert Show(IsNull("deleted_at")) == "deleted_at IS NULL";
    Starting(IsNull("deleted_at"));
    if f.scope != "" {
      ScopeEq(argIdx);
      Adding(b, "scope = $" + Decimal(argIdx), "scope", Eq, Text(f.scope));
      whereParts := whereParts + ["scope = $" + Decimal(argIdx)];
      args := args + [Text(f.scope)];
      argIdx := argIdx + 1;
    }
    b := ByScope(f);
    assert Shows(whereParts, args, argIdx, b);
    if f.scopeId.Some? {
      ScopeIdEq(argIdx);
      Adding(b, "scope_id = $" + Decimal(argIdx), "scope_id", Eq, Uuid(f.scopeId.value));
      whereParts := whereParts + ["scope_id = $" + Decimal(argIdx)];
      args := args + [Uuid(f.scopeId.value)];
      argIdx := argIdx + 1;
    } else if f.scope != "" {
      AddingPart(b, "scope_id IS NULL", IsNull("scope_id"), []);
      whereParts := whereParts + ["scope_id IS NULL"];
    }
    b := ByScopeId(f, b);
    assert Shows(whereParts, args, argIdx, b);
    if f.search != "" {
      KeyOrDescription(argIdx);
      AddingPart(b, "(key ILIKE $" + Decimal(argIdx) + " OR description ILIKE $" + Decimal(argIdx) + ")",
                 SearchCond(argIdx), [Text("%" + f.search + "%")]);
      whereParts := whereParts + ["(key ILIKE $" + Decimal(argIdx) + " OR description ILIKE $" + Decimal(argIdx) + ")"];
      args := args + [Text("%" + f.search + "%")];
      argIdx := argIdx + 1;
    }
    b := BySearch(f, b);
    assert Shows(whereParts, args, argIdx, b);
    countClause := "WHERE " + Join(whereParts, " AND ");
    countArgs := args;
    clauses := countClause + PageTail("key", false, argIdx);
    args := args + [Number(limit), Number(offset)];
  }

  lemma AddingPart(b: Builder, part: string, c: Cond, more: seq<Value>)
    requires part == Show(c)
    ensures Shows(ShowAll(b.conds) + [part], b.args + more, Next(b) + |more|, Builder(b.conds + [c], b.args + more))
  {
  }

  // ----- UpdateConfig -----

  datatype SaveResult = Saved | NoUpdates | DatabaseError

  function Live(id: nat): Row -> bool { row => Column(row, "id") == Uuid(id) && Column(row, "deleted_at") == Null }

  function Scope(n: nat): seq<Cond> { [Compare("id", Eq, n), IsNull("deleted_at")] }

  lemma ScopeText(n: nat)
    ensures Join(ShowAll(Scope(n)), " AND ") == "id = $" + Decimal(n) + " AND " + "deleted_at IS NULL"
  {
    IdEq(n);
    assert Show(IsNull("deleted_at")) == "deleted_at IS NULL";
    assert ShowAll(Scope(n)) == [ShowCompare("id", Eq, n)] + ["deleted_at IS NULL"];
    JoinSnoc([ShowCompare("id", Eq, n)], "deleted_at IS NULL", " AND ");
  }

  lemma IdEq(n: nat)
    ensures "id = $" + Decimal(n) == ShowCompare("id", Eq, n)
  {
  }

  lemma ScopeWellFormed(n: nat)
    ensures forall i :: 0 <= i < |Scope(n)| ==> WellFormed(Scope(n)[i])
  {
  }

  lemma LiveMeans(order: seq<string>, updates: map<string, Value>, now: int, id: nat, row: Row)
    requires IsOrder(order, updates)
    ensures AllTrue(Scope(|order| + 2), ArgsOf(order, updates, now, [Uuid(id)]), row) <==> Live(id)(row)
  {
    var args, n := ArgsOf(order, updates, now, [Uuid(id)]), |order|;
    assert args[n + 1] == Uuid(id);
    assert Scope(n + 2)[0] == Compare("id", Eq, n + 2) && Scope(n + 2)[1] == IsNull("deleted_at");
  }

  lemma StatementText(sets: string, n: string)
    ensures "UPDATE configs SET " + sets + " WHERE id = $" + n + " AND deleted_at IS NULL"
         == "UPDATE " + "configs" + " SET " + sets + " WHERE " + ("id = $" + n + " AND " + "deleted_at IS NULL")
  {
  }

  lemma TargetIsWord()
    ensures IsWord("configs")
  {
  }

  /** The update, end to end and for every visiting order of the map. An empty map is refused; a
      config that does not exist, or is deleted, is not reported: the statement touches no row and the
      update still succeeds. */
  method UpdateConfig(db: Database, id: nat, updates: map<string, Value>, now: int) returns (result: SaveResult)
    requires db.name == "configs" && forall key :: key in updates ==> IsColumn(key)
    modifies db
    ensures result == NoUpdates <==> updates == map[]
    ensures updates == map[] ==> db.table == old(db.table)
    ensures updates != map[] ==>
              match Intended(updates, now, Live(id), db.columns, old(db.table))
              case Failed => result == DatabaseError && db.table == old(db.table)
              case Done(table, _) => result == Saved && db.table == table
  {
    if |updates| == 0 {
      return NoUpdates;
    }
    var setParts, args, argIdx;
    ghost var order;
    setParts, args, argIdx, order := BuildSet(updates, now);
    args := args + [Uuid(id)];
    var query := "UPDATE configs SET " + Join(setParts, ", ") + " WHERE id = $" + Decimal(argIdx) + " AND deleted_at IS NULL";
    assert args == ArgsOf(order, updates, now, [Uuid(id)]);
    StatementText(Join(setParts, ", "), Decimal(argIdx));
    ScopeText(argIdx);
    TargetIsWord();
    ScopeWellFormed(argIdx);
    forall row
      ensures AllTrue(Scope(argIdx), args, row) <==> Live(id)(row)
    {
      LiveMeans(order, updates, now, id, row);
    }
    ExecuteMeans(order, updates, now, Scope(argIdx), [Uuid(id)], Live(id), db.name, db.columns, db.table);
    var affected := db.Exec(query, args);
    return if affected.None? then DatabaseError else Saved;
  }
}
