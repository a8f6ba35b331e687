/** The clauses of a listing query - WHERE, ORDER BY, LIMIT and OFFSET - and what the database may
    answer to them on a table. */
module SqlQuery {
  import opened Text
  import opened Sql

  // ----- parsing -----

  datatype Page = Page(conds: seq<Cond>, order: string, descending: bool, limit: nat, offset: nat)

  function ParseWhere(t: seq<string>): Option<(seq<Cond>, seq<string>)>
  {
    if t != [] && t[0] == "WHERE" then ParseConds(t[1..]) else None
  }

  function ParsePage(t: seq<string>): Option<Page>
  {
    match ParseWhere(t)
    case None => None
    case Some((cs, rest)) =>
      if && |rest| == 8 && rest[0] == "ORDER" && rest[1] == "BY" && (rest[3] == "DESC" || rest[3] == "ASC")
         && rest[4] == "LIMIT" && ParamOf(rest[5]).Some? && rest[6] == "OFFSET" && ParamOf(rest[7]).Some?
      then Some(Page(cs, rest[2], rest[3] == "DESC", ParamOf(rest[5]).value, ParamOf(rest[7]).value))
      else None
  }

  // ----- texts -----

  function WhereText(b: Builder): string { "WHERE " + Join(ShowAll(b.conds), " AND ") }

  function Direction(descending: bool): string { if descending then "DESC" else "ASC" }

  /** The fixed end of every listing query; `n` numbers the limit, the next placeholder the offset. */
  function PageTail(order: string, descending: bool, n: nat): string
  {
    "\n\t\tORDER BY " + order + " " + Direction(descending) + "\n\t\tLIMIT $" + Decimal(n)
    + " OFFSET $" + Decimal(n + 1) + "\n\t"
  }

  function TailTokens(order: string, descending: bool, n: nat): seq<string>
  {
    ["ORDER", "BY", order, Direction(descending), "LIMIT", ParamToken(n), "OFFSET", ParamToken(n + 1)]
  }

  // The shape lemmas only regroup texts; the lexing lemmas name no literal text longer than a word.

  lemma {:induction false} LexIndent(blanks: string, rest: string)
    requires forall i :: 0 <= i < |blanks| ==> IsBlank(blanks[i])
    ensures Lex(blanks + rest) == Lex(rest)
  {
    if blanks == "" {
      assert blanks + rest == rest;
    } else {
      LexIndent(blanks[1..], rest);
      assert blanks + rest == [blanks[0]] + (blanks[1..] + rest);
      LexSeparator(blanks[0], blanks[1..] + rest);
    }
  }

  lemma LexPair(w1: string, w2: string, rest: string)
    requires IsWord(w1) && IsWord(w2) && (rest == "" || IsSeparator(rest[0]))
    ensures Lex(w1 + (" " + (w2 + rest))) == [w1, w2] + Lex(rest)
  {
    LexWord(w2, rest);
    LexWordBlank(w1, w2 + rest);
  }

  lemma LexQuad(w1: string, w2: string, w3: string, w4: string, rest: string)
    requires IsWord(w1) && IsWord(w2) && IsWord(w3) && IsWord(w4) && (rest == "" || IsSeparator(rest[0]))
    ensures Lex(w1 + (" " + (w2 + (" " + (w3 + (" " + (w4 + rest))))))) == [w1, w2] + ([w3, w4] + Lex(rest))
  {
    var second := w3 + (" " + (w4 + rest));
    LexPair(w3, w4, rest);
    LexIndent(" ", second);
    LexPair(w1, w2, " " + second);
  }

  lemma LexBlanks(blanks: string)
    requires forall i :: 0 <= i < |blanks| ==> IsBlank(blanks[i])
    ensures Lex(blanks) == []
  {
    LexIndent(blanks, "");
    assert blanks + "" == blanks;
  }

  function LimitText(n: nat): string
  {
    "\n\t\tLIMIT $" + Decimal(n) + " OFFSET $" + Decimal(n + 1) + "\n\t"
  }

  lemma LimitShape(n: nat)
    ensures LimitText(n)
         == "\n\t\t" + ("LIMIT" + (" " + (ParamToken(n) + (" " + ("OFFSET" + (" " + (ParamToken(n + 1) + "\n\t")))))))
  {
  }

  lemma LexLimit(n: nat)
    ensures Lex(LimitText(n)) == ["LIMIT", ParamToken(n)] + ["OFFSET", ParamToken(n + 1)]
  {
    ParamRoundTrip(n);
    ParamRoundTrip(n + 1);
    var end := "\n\t";
    LexBlanks(end);
    var offset := "OFFSET" + (" " + (ParamToken(n + 1) + end));
    LexPair("OFFSET", ParamToken(n + 1), end);
    LexIndent(" ", offset);
    LexPair("LIMIT", ParamToken(n), " " + offset);
    LexIndent("\n\t\t", "LIMIT" + (" " + (ParamToken(n) + (" " + offset))));
    LimitShape(n);
  }

  lemma OrderShape(order: string, dir: string, limit: string)
    ensures "\n\t\tORDER BY " + order + " " + dir + limit
         == "\n\t\t" + ("ORDER" + (" " + ("BY" + (" " + (order + (" " + (dir + limit)))))))
  {
  }

  lemma LexOrder(order: string, dir: string, limit: string)
    requires IsColumn(order) && IsWord(dir) && limit != "" && IsSeparator(limit[0])
    ensures Lex("\n\t\tORDER BY " + order + " " + dir + limit) == ["ORDER", "BY"] + ([order, dir] + Lex(limit))
  {
    ColumnIsWord(order);
    LexQuad("ORDER", "BY", order, dir, limit);
    LexIndent("\n\t\t", "ORDER" + (" " + ("BY" + (" " + (order + (" " + (dir + limit)))))));
    OrderShape(order, dir, limit);
  }

  lemma TailShape(order: string, descending: bool, n: nat)
    ensures PageTail(order, descending, n)
         == "\n\t\tORDER BY " + order + " " + Direction(descending)
            + LimitText(n)
  {
  }

  lemma LexTail(order: string, descending: bool, n: nat)
    requires IsColumn(order)
    ensures Lex(PageTail(order, descending, n)) == TailTokens(order, descending, n)
  {
    LexLimit(n);
    LexOrder(order, Direction(descending), LimitText(n));
    TailShape(order, descending, n);
  }

  lemma LexWhere(rest: string)
    ensures Lex("WHERE " + rest) == ["WHERE"] + Lex(rest)
  {
    LexWordBlank("WHERE", rest);
    assert "WHERE " + rest == "WHERE" + (" " + rest);
  }

  lemma WhereParses(b: Builder)
    requires Sound(b)
    ensures ParseWhere(Lex(WhereText(b))) == Some((b.conds, []))
  {
    var joined := Join(ShowAll(b.conds), " AND ");
    LexWhere(joined);
    ParseJoined(b.conds, "");
    assert joined + "" == joined;
  }

  lemma ParsePageTokens(t: seq<string>, cs: seq<Cond>, order: string, descending: bool, n: nat)
    requires ParseWhere(t) == Some((cs, TailTokens(order, descending, n)))
    ensures ParsePage(t) == Some(Page(cs, order, descending, n, n + 1))
  {
    ParamRoundTrip(n);
    ParamRoundTrip(n + 1);
  }

  lemma PageParses(b: Builder, order: string, descending: bool)
    requires Sound(b) && IsColumn(order)
    ensures ParsePage(Lex(WhereText(b) + PageTail(order, descending, Next(b))))
         == Some(Page(b.conds, order, descending, Next(b), Next(b) + 1))
  {
    var joined, tail := Join(ShowAll(b.conds), " AND "), PageTail(order, descending, Next(b));
    LexTail(order, descending, Next(b));
    TailBreaks(order, descending, Next(b));
    ParseJoined(b.conds, tail);
    LexWhere(joined + tail);
    Associates("WHERE ", joined, tail);
    ParsePageTokens(Lex(WhereText(b) + tail), b.conds, order, descending, Next(b));
  }

  lemma TailBreaks(order: string, descending: bool, n: nat)
    ensures PageTail(order, descending, n) != "" && IsSeparator(PageTail(order, descending, n)[0])
  {
  }

  // ----- answers -----

  function Select(table: seq<Row>, cs: seq<Cond>, args: seq<Value>): seq<Row>
  {
    if table == [] then []
    else (if AllTrue(cs, args, table[0]) then [table[0]] else []) + Select(table[1..], cs, args)
  }

  function Keep(table: seq<Row>, wanted: Row -> bool): seq<Row>
  {
    if table == [] then []
    else (if wanted(table[0]) then [table[0]] else []) + Keep(table[1..], wanted)
  }

  lemma {:induction false} SelectKeeps(b: Builder, table: seq<Row>, wanted: Row -> bool)
    requires forall row :: Selects(b, row) <==> wanted(row)
    ensures Select(table, b.conds, b.args) == Keep(table, wanted)
  {
    if table != [] {
      assert Selects(b, table[0]) <==> wanted(table[0]);
      SelectKeeps(b, table[1..], wanted);
    }
  }

  function Smaller(a: int, b: int): int { if a < b then a else b }

  function Remaining(n: nat, offset: nat): nat { if offset < n then n - offset else 0 }

  function Slice(rows: seq<Row>, limit: nat, offset: nat): seq<Row>
  {
    if offset >= |rows| then [] else rows[offset..offset + Smaller(limit, |rows| - offset)]
  }

  /** Texts in order, character by character. */
  predicate TextLe(a: string, b: string)
  {
    a == "" || (b != "" && (a[0] < b[0] || (a[0] == b[0] && TextLe(a[1..], b[1..]))))
  }

  predicate Comparable(a: Value, b: Value) { (a.Time? && b.Time?) || (a.Text? && b.Text?) }

  predicate Le(a: Value, b: Value)
    requires Comparable(a, b)
  {
    if a.Time? then a.at <= b.at else TextLe(a.text, b.text)
  }

  predicate InOrder(first: Value, second: Value, descending: bool)
  {
    Comparable(first, second) ==> if descending then Le(second, first) else Le(first, second)
  }

  lemma {:induction false} TextOrder(a: string, b: string, c: string)
    ensures TextLe(a, b) || TextLe(b, a)
    ensures TextLe(a, b) && TextLe(b, a) ==> a == b
    ensures TextLe(a, b) && TextLe(b, c) ==> TextLe(a, c)
  {
    if a != "" && b != "" {
      TextOrder(a[1..], b[1..], if c == "" then "" else c[1..]);
      assert a == [a[0]] + a[1..] && b == [b[0]] + b[1..];
    }
  }

  /** ORDER BY sorts by a total order, so its two directions meet in equal values alone. */
  lemma OrderIsTotal(a: Value, b: Value, descending: bool)
    requires Comparable(a, b)
    ensures InOrder(a, b, descending) || InOrder(b, a, descending)
    ensures InOrder(a, b, descending) && InOrder(b, a, descending) <==> a == b
  {
    if a.Text? {
      TextOrder(a.text, b.text, "");
      TextOrder(b.text, a.text, "");
    }
  }

  predicate Sorted(rows: seq<Row>, order: string, descending: bool)
  {
    forall i, j :: 0 <= i < j < |rows| ==> InOrder(Column(rows[i], order), Column(rows[j], order), descending)
  }

  /** Some arrangement the ORDER BY allows; rows that tie may come in any order. */
  ghost predicate Arranged(rows: seq<Row>, chosen: seq<Row>, order: string, descending: bool)
  {
    multiset(rows) == multiset(chosen) && Sorted(rows, order, descending)
  }

  function NumberAt(args: seq<Value>, param: nat): Option<int>
  {
    if 1 <= param <= |args| && args[param - 1].Number? then Some(args[param - 1].n) else None
  }

  /** What the database may answer to a count with this clause. */
  predicate CountAnswer(clause: string, args: seq<Value>, table: seq<Row>, total: nat)
  {
    match ParseWhere(Lex(clause))
    case Some((cs, rest)) => rest == [] && total == |Select(table, cs, args)|
    case None => false
  }

  /** What the database may answer to a listing with these clauses. */
  ghost predicate PageAnswer(clauses: string, args: seq<Value>, table: seq<Row>, page: seq<Row>)
  {
    match ParsePage(Lex(clauses))
    case None => false
    case Some(p) =>
      match (NumberAt(args, p.limit), NumberAt(args, p.offset))
      case (Some(limit), Some(offset)) =>
        limit >= 0 && offset >= 0
        && exists rows :: Arranged(rows, Select(table, p.conds, args), p.order, p.descending)
                          && page == Slice(rows, limit, offset)
      case _ => false
  }

  lemma {:induction false} MoreArguments(b: Builder, more: seq<Value>, table: seq<Row>)
    requires Sound(b)
    ensures Select(table, b.conds, b.args + more) == Select(table, b.conds, b.args)
  {
    if table != [] {
      forall i | 0 <= i < |b.conds|
        ensures IsTrue(b.conds[i], b.args + more, table[0]) <==> IsTrue(b.conds[i], b.args, table[0])
      {
        BoundIsStable(b.conds[i], b.args, more, table[0]);
      }
      MoreArguments(b, more, table[1..]);
    }
  }

  lemma SliceSize(rows: seq<Row>, limit: nat, offset: nat)
    ensures |Slice(rows, limit, offset)| == Smaller(limit, Remaining(|rows|, offset))
    ensures multiset(Slice(rows, limit, offset)) <= multiset(rows)
    ensures forall i :: 0 <= i < |Slice(rows, limit, offset)| ==> Slice(rows, limit, offset)[i] == rows[offset + i]
  {
    if offset < |rows| {
      var end := offset + Smaller(limit, |rows| - offset);
      assert rows == rows[..offset] + rows[offset..end] + rows[end..];
    }
  }

  lemma CountMeans(b: Builder, table: seq<Row>, total: nat)
    requires Sound(b)
    ensures CountAnswer(WhereText(b), b.args, table, total) <==> total == |Select(table, b.conds, b.args)|
  {
    WhereParses(b);
  }

  /** The listing text with its arguments means: order the selected rows, skip `offset`, take `limit`. */
  lemma PageMeans(b: Builder, order: string, descending: bool, limit: nat, offset: nat, table: seq<Row>, page: seq<Row>)
    requires Sound(b) && IsColumn(order)
    ensures PageAnswer(WhereText(b) + PageTail(order, descending, Next(b)),
                       b.args + [Number(limit), Number(offset)], table, page)
       <==> exists rows :: Arranged(rows, Select(table, b.conds, b.args), order, descending)
                           && page == Slice(rows, limit, offset)
  {
    PageParses(b, order, descending);
    MoreArguments(b, [Number(limit), Number(offset)], table);
  }

  ghost predicate PageAnswered(b: Builder, order: string, descending: bool, limit: nat, offset: nat,
                               table: seq<Row>, page: seq<Row>)
  {
    PageAnswer(WhereText(b) + PageTail(order, descending, Next(b)), b.args + [Number(limit), Number(offset)], table, page)
  }

  /** The two answers of one listing, the count and the page. They come from two statements, and the
      table may change in between. */
  ghost predicate Answered(b: Builder, order: string, descending: bool, limit: nat, offset: nat,
                           counted: seq<Row>, listed: seq<Row>, total: nat, page: seq<Row>)
  {
    CountAnswer(WhereText(b), b.args, counted, total) && PageAnswered(b, order, descending, limit, offset, listed, page)
  }

  predicate IsCut(page: seq<Row>, rows: seq<Row>, limit: nat, offset: nat)
  {
    if offset >= |rows| then page == []
    else
      && |page| == (if |rows| - offset < limit then |rows| - offset else limit)
      && forall i :: 0 <= i < |page| ==> page[i] == rows[offset + i]
  }

  /** A page of the chosen rows: the rows of an arrangement of them from the offset on, as many as there are
      and the limit allows; so it holds each of them at most as often as it was chosen, and is sorted. */
  ghost predicate IsPage(page: seq<Row>, chosen: seq<Row>, limit: nat, offset: nat, order: string, descending: bool)
  {
    && (exists rows :: Arranged(rows, chosen, order, descending) && IsCut(page, rows, limit, offset))
    && |page| == Smaller(limit, Remaining(|chosen|, offset))
    && multiset(page) <= multiset(chosen)
    && Sorted(page, order, descending)
  }

  lemma SliceIsCut(page: seq<Row>, rows: seq<Row>, limit: nat, offset: nat)
    ensures IsCut(page, rows, limit, offset) <==> page == Slice(rows, limit, offset)
  {
  }

  lemma SliceIsPage(rows: seq<Row>, chosen: seq<Row>, limit: nat, offset: nat, order: string, descending: bool)
    requires Arranged(rows, chosen, order, descending)
    ensures IsPage(Slice(rows, limit, offset), chosen, limit, offset, order, descending)
  {
    SliceSize(rows, limit, offset);
    SliceIsCut(Slice(rows, limit, offset), rows, limit, offset);
    assert |rows| == |multiset(rows)| == |multiset(chosen)| == |chosen|;
  }

  /** The page query answers exactly the pages of the rows it selects. */
  lemma PageIsPage(b: Builder, order: string, descending: bool, limit: nat, offset: nat, table: seq<Row>, page: seq<Row>,
                   chosen: seq<Row>)
    requires Sound(b) && IsColumn(order) && chosen == Select(table, b.conds, b.args)
    ensures PageAnswered(b, order, descending, limit, offset, table, page) <==>
            IsPage(page, chosen, limit, offset, order, descending)
  {
    PageMeans(b, order, descending, limit, offset, table, page);
    if PageAnswered(b, order, descending, limit, offset, table, page) {
      var rows :| Arranged(rows, chosen, order, descending) && page == Slice(rows, limit, offset);
      SliceIsPage(rows, chosen, limit, offset, order, descending);
    }
    if IsPage(page, chosen, limit, offset, order, descending) {
      var rows :| Arranged(rows, chosen, order, descending) && IsCut(page, rows, limit, offset);
      SliceIsCut(page, rows, limit, offset);
    }
  }

  /** The total counts the rows selected when it was asked, and the page is one of those selected when it
      was asked. */
  lemma AnsweredIsPage(b: Builder, order: string, descending: bool, limit: nat, offset: nat,
                       counted: seq<Row>, listed: seq<Row>, total: nat, page: seq<Row>)
    requires Sound(b) && IsColumn(order) && Answered(b, order, descending, limit, offset, counted, listed, total, page)
    ensures total == |Select(counted, b.conds, b.args)|
    ensures IsPage(page, Select(listed, b.conds, b.args), limit, offset, order, descending)
  {
    CountMeans(b, counted, total);
    PageIsPage(b, order, descending, limit, offset, listed, page, Select(listed, b.conds, b.args));
  }

  /** Two numbers of rows that leave the same for a page. */
  predicate SameReach(total: nat, chosen: nat, limit: nat, offset: nat)
  {
    || total == chosen || limit == 0
    || (total <= offset && chosen <= offset)
    || (offset + limit <= total && offset + limit <= chosen)
  }

  /** The page has the size that the reported total calls for exactly when no change between the two
      statements moved the number of rows within the reach of the page. */
  lemma SizeFitsTotalExactly(page: seq<Row>, chosen: seq<Row>, total: nat, limit: nat, offset: nat, order: string,
                             descending: bool)
    requires IsPage(page, chosen, limit, offset, order, descending)
    ensures |page| == Smaller(limit, Remaining(total, offset)) <==> SameReach(total, |chosen|, limit, offset)
  {
  }

  // ----- when the answer is determined -----

  /** The order column tells the rows apart: equal values only on equal rows. */
  predicate Tells(rows: seq<Row>, order: string)
  {
    forall i, j :: 0 <= i < |rows| && 0 <= j < |rows| ==>
      && Comparable(Column(rows[i], order), Column(rows[j], order))
      && (Column(rows[i], order) == Column(rows[j], order) ==> rows[i] == rows[j])
  }

  lemma TellsAny(a: seq<Row>, b: seq<Row>, order: string)
    requires multiset(a) == multiset(b) && Tells(a, order)
    ensures Tells(b, order)
  {
    forall i | 0 <= i < |b|
      ensures exists k :: 0 <= k < |a| && a[k] == b[i]
    {
      assert b[i] in multiset(b);
      assert b[i] in a;
    }
  }

  lemma FirstIsFirst(a: seq<Row>, b: seq<Row>, order: string, descending: bool)
    requires a != [] && multiset(a) == multiset(b) && Tells(a, order)
    requires Sorted(a, order, descending) && Sorted(b, order, descending)
    ensures b != [] && a[0] == b[0]
  {
    assert a[0] in multiset(b) && |multiset(a)| == |multiset(b)|;
    assert b[0] in multiset(a);
    var i :| 0 <= i < |b| && b[i] == a[0];
    var j :| 0 <= j < |a| && a[j] == b[0];
    OrderIsTotal(Column(a[0], order), Column(b[0], order), descending);
    assert i > 0 ==> InOrder(Column(b[0], order), Column(b[i], order), descending);
    assert j > 0 ==> InOrder(Column(a[0], order), Column(a[j], order), descending);
  }

  lemma TailsMatch(a: seq<Row>, b: seq<Row>)
    requires a != [] && b != [] && a[0] == b[0] && multiset(a) == multiset(b)
    ensures multiset(a[1..]) == multiset(b[1..])
    ensures a[1..] == b[1..] ==> a == b
  {
    assert a == [a[0]] + a[1..] && b == [b[0]] + b[1..];
    assert multiset(a[1..]) == multiset(a) - multiset{a[0]};
    assert multiset(b[1..]) == multiset(b) - multiset{b[0]};
  }

  lemma TailIsSorted(a: seq<Row>, order: string, descending: bool)
    requires a != [] && Sorted(a, order, descending)
    ensures Sorted(a[1..], order, descending)
    ensures Tells(a, order) ==> Tells(a[1..], order)
  {
    assert forall i :: 0 <= i < |a| - 1 ==> a[1..][i] == a[i + 1];
  }

  lemma {:induction false} ArrangementIsUnique(a: seq<Row>, b: seq<Row>, order: string, descending: bool)
    requires multiset(a) == multiset(b) && Tells(a, order)
    requires Sorted(a, order, descending) && Sorted(b, order, descending)
    ensures a == b
  {
    if a == [] {
      assert |multiset(b)| == 0;
    } else {
      FirstIsFirst(a, b, order, descending);
      TailsMatch(a, b);
      TailIsSorted(a, order, descending);
      TailIsSorted(b, order, descending);
      ArrangementIsUnique(a[1..], b[1..], order, descending);
    }
  }

  /** When the order column tells the chosen rows apart there is only one possible page. */
  lemma PageIsDetermined(page: seq<Row>, other: seq<Row>, chosen: seq<Row>, limit: nat, offset: nat, order: string,
                         descending: bool)
    requires IsPage(page, chosen, limit, offset, order, descending) && IsPage(other, chosen, limit, offset, order, descending)
    requires Tells(chosen, order)
    ensures page == other
  {
    var a :| Arranged(a, chosen, order, descending) && IsCut(page, a, limit, offset);
    var b :| Arranged(b, chosen, order, descending) && IsCut(other, b, limit, offset);
    SliceIsCut(page, a, limit, offset);
    SliceIsCut(other, b, limit, offset);
    TellsAny(chosen, a, order);
    ArrangementIsUnique(a, b, order, descending);
  }

  // ----- what the accumulating builders rely on -----

  /** The three variables of a builder method show the builder. */
  predicate Shows(parts: seq<string>, args: seq<Value>, argIdx: nat, b: Builder)
  {
    parts == ShowAll(b.conds) && args == b.args && argIdx == Next(b)
  }

  lemma Adding(b: Builder, part: string, column: string, op: Op, value: Value)
    requires part == ShowCompare(column, op, Next(b))
    ensures Shows(ShowAll(b.conds) + [part], b.args + [value], Next(b) + 1, Filter(b, column, op, value))
  {
  }

  lemma Starting(c: Cond)
    ensures Shows([Show(c)], [], 1, Builder([c], []))
  {
  }
}
