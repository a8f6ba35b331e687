/** The part of SQL the repositories generate: text to tokens, tokens to conditions and assignments,
    and what those mean on rows. Only texts enter the semantics, so a wrongly assembled text changes
    its meaning here as it would in the database. */
module Sql {
  import opened Text

  // ----- tokens -----

  predicate IsBlank(c: char) { c == ' ' || c == '\t' || c == '\n' }

  predicate IsPunctuation(c: char) { c == '(' || c == ')' || c == ',' }

  predicate IsSeparator(c: char) { IsBlank(c) || IsPunctuation(c) }

  predicate IsWord(s: string) { s != "" && forall i :: 0 <= i < |s| ==> !IsSeparator(s[i]) }

  function WordLength(s: string): (n: nat)
    ensures n <= |s| && (forall i :: 0 <= i < n ==> !IsSeparator(s[i])) && (n < |s| ==> IsSeparator(s[n]))
  {
    if s == "" || IsSeparator(s[0]) then 0 else 1 + WordLength(s[1..])
  }

  function Lex(s: string): seq<string>
    decreases |s|
  {
    if s == "" then []
    else if IsBlank(s[0]) then Lex(s[1..])
    else if IsPunctuation(s[0]) then [[s[0]]] + Lex(s[1..])
    else
      assert WordLength(s) > 0;
      [s[..WordLength(s)]] + Lex(s[WordLength(s)..])
  }

  lemma {:induction false} WordLengthOf(w: string, rest: string)
    requires forall i :: 0 <= i < |w| ==> !IsSeparator(w[i])
    requires rest == "" || IsSeparator(rest[0])
    ensures WordLength(w + rest) == |w|
  {
    if w == "" {
      assert w + rest == rest;
    } else {
      assert (w + rest)[1..] == w[1..] + rest;
      WordLengthOf(w[1..], rest);
    }
  }

  lemma LexWord(w: string, rest: string)
    requires IsWord(w) && (rest == "" || IsSeparator(rest[0]))
    ensures Lex(w + rest) == [w] + Lex(rest)
  {
    WordLengthOf(w, rest);
    assert (w + rest)[..|w|] == w && (w + rest)[|w|..] == rest;
  }

  lemma LexSeparator(c: char, rest: string)
    requires IsSeparator(c)
    ensures Lex([c] + rest) == (if IsBlank(c) then [] else [[c]]) + Lex(rest)
  {
    assert ([c] + rest)[1..] == rest;
    assert [] + Lex(rest) == Lex(rest);
  }

  /** Texts that meet at a separator are tokenised independently. */
  lemma {:induction false} LexConcat(a: string, b: string)
    requires b == "" || IsSeparator(b[0])
    ensures Lex(a + b) == Lex(a) + Lex(b)
    decreases |a|
  {
    if a == "" {
      assert a + b == b && Lex(a) + Lex(b) == Lex(b);
    } else if IsSeparator(a[0]) {
      LexConcat(a[1..], b);
      LexSeparator(a[0], a[1..] + b);
      LexSeparator(a[0], a[1..]);
      assert a == [a[0]] + a[1..] && a + b == [a[0]] + (a[1..] + b);
    } else {
      var w, rest := a[..WordLength(a)], a[WordLength(a)..];
      assert a == w + rest && w != "";
      LexConcat(rest, b);
      LexWordConcat(w, rest, b);
    }
  }

  lemma LexWordConcat(w: string, rest: string, b: string)
    requires IsWord(w) && (rest == "" || IsSeparator(rest[0])) && (b == "" || IsSeparator(b[0]))
    requires Lex(rest + b) == Lex(rest) + Lex(b)
    ensures Lex((w + rest) + b) == Lex(w + rest) + Lex(b)
  {
    LexWord(w, rest);
    LexWord(w, rest + b);
    Associates(w, rest, b);
    Associates([w], Lex(rest), Lex(b));
  }

  lemma Associates<T>(a: seq<T>, b: seq<T>, c: seq<T>)
    ensures (a + b) + c == a + (b + c)
  {
  }

  // ----- conditions -----

  datatype Op = Eq | Ge | Le | Overlaps | ILike

  datatype Cond =
    | Always
    | Compare(column: string, op: Op, param: nat)
    | IsNull(column: string)
    | Either(column1: string, op1: Op, param1: nat, column2: string, op2: Op, param2: nat)

  /** Plain lower-case column names. */
  predicate IsColumn(s: string)
  {
    s != "" && 'a' <= s[0] <= 'z'
    && forall i :: 0 <= i < |s| ==> 'a' <= s[i] <= 'z' || '0' <= s[i] <= '9' || s[i] == '_'
  }

  function OpToken(op: Op): string
  {
    match op
    case Eq => "="
    case Ge => ">="
    case Le => "<="
    case Overlaps => "&&"
    case ILike => "ILIKE"
  }

  function OpOf(token: string): Option<Op>
  {
    if token == "=" then Some(Eq)
    else if token == ">=" then Some(Ge)
    else if token == "<=" then Some(Le)
    else if token == "&&" then Some(Overlaps)
    else if token == "ILIKE" then Some(ILike)
    else None
  }

  function ParamToken(n: nat): string { "$" + Decimal(n) }

  function ParamOf(token: string): Option<nat>
  {
    if |token| > 1 && token[0] == '$' && IsNumeral(token[1..]) then Some(NumeralValue(token[1..])) else None
  }

  predicate WellFormed(c: Cond)
  {
    match c
    case Always => true
    case Compare(column, _, _) => IsColumn(column)
    case IsNull(column) => IsColumn(column)
    case Either(column1, _, _, column2, _, _) => IsColumn(column1) && IsColumn(column2)
  }

  function Tokens(c: Cond): seq<string>
  {
    match c
    case Always => ["1=1"]
    case Compare(column, op, n) => [column, OpToken(op), ParamToken(n)]
    case IsNull(column) => [column, "IS", "NULL"]
    case Either(c1, o1, n1, c2, o2, n2) =>
      ["(", c1, OpToken(o1), ParamToken(n1), "OR", c2, OpToken(o2), ParamToken(n2), ")"]
  }

  function ParseCompare(t: seq<string>): Option<(string, Op, nat)>
  {
    if |t| < 3 || OpOf(t[1]).None? || ParamOf(t[2]).None? then None
    else Some((t[0], OpOf(t[1]).value, ParamOf(t[2]).value))
  }

  function ParseCond(t: seq<string>): (r: Option<(Cond, seq<string>)>)
    ensures r.Some? ==> |r.value.1| < |t|
  {
    if t == [] then None
    else if t[0] == "1=1" then Some((Always, t[1..]))
    else if t[0] == "(" then
      if |t| < 9 || t[4] != "OR" || t[8] != ")" then None
      else
        match (ParseCompare(t[1..4]), ParseCompare(t[5..8]))
        case (Some((c1, o1, n1)), Some((c2, o2, n2))) => Some((Either(c1, o1, n1, c2, o2, n2), t[9..]))
        case _ => None
    else if |t| >= 3 && t[1] == "IS" && t[2] == "NULL" then Some((IsNull(t[0]), t[3..]))
    else
      match ParseCompare(t)
      case Some((column, op, n)) => Some((Compare(column, op, n), t[3..]))
      case None => None
  }

  /** Conditions joined by AND. */
  function ParseConds(t: seq<string>): Option<(seq<Cond>, seq<string>)>
    decreases |t|
  {
    match ParseCond(t)
    case None => None
    case Some((c, rest)) =>
      if rest == [] || rest[0] != "AND" then Some(([c], rest))
      else
        match ParseConds(rest[1..])
        case None => None
        case Some((cs, rest')) => Some(([c] + cs, rest'))
  }

  lemma ParamRoundTrip(n: nat)
    ensures ParamOf(ParamToken(n)) == Some(n)
    ensures IsWord(ParamToken(n))
  {
    DecimalRoundTrip(n);
    assert ParamToken(n)[1..] == Decimal(n);
  }

  lemma OpRoundTrip(op: Op)
    ensures OpOf(OpToken(op)) == Some(op)
    ensures OpToken(op) != "IS" && IsWord(OpToken(op))
  {
  }

  lemma ParseCompareTokens(column: string, op: Op, n: nat, rest: seq<string>)
    ensures ParseCompare([column, OpToken(op), ParamToken(n)] + rest) == Some((column, op, n))
  {
    ParamRoundTrip(n);
    OpRoundTrip(op);
  }

  lemma ParseCondTokens(c: Cond, rest: seq<string>)
    requires WellFormed(c)
    ensures ParseCond(Tokens(c) + rest) == Some((c, rest))
  {
    var t := Tokens(c) + rest;
    match c
    case Always =>
      assert t[1..] == rest;
    case IsNull(column) =>
      assert column[0] != '1' && column[0] != '(';
      assert t[3..] == rest;
    case Compare(column, op, n) =>
      assert column[0] != '1' && column[0] != '(';
      ParseCompareTokens(column, op, n, rest);
      OpRoundTrip(op);
      assert t[3..] == rest;
    case Either(c1, o1, n1, c2, o2, n2) =>
      assert t[1..4] == [c1, OpToken(o1), ParamToken(n1)] + [];
      assert t[5..8] == [c2, OpToken(o2), ParamToken(n2)] + [];
      ParseCompareTokens(c1, o1, n1, []);
      ParseCompareTokens(c2, o2, n2, []);
      assert t[9..] == rest;
  }

  function AllTokens(cs: seq<Cond>): seq<string>
  {
    if |cs| == 0 then []
    else if |cs| == 1 then Tokens(cs[0])
    else Tokens(cs[0]) + (["AND"] + AllTokens(cs[1..]))
  }

  lemma ParseCondsStep(c: Cond, cs: seq<Cond>, t: seq<string>, rest: seq<string>)
    requires WellFormed(c) && ParseConds(t) == Some((cs, rest))
    ensures ParseConds(Tokens(c) + (["AND"] + t)) == Some(([c] + cs, rest))
  {
    ParseCondTokens(c, ["AND"] + t);
    assert (["AND"] + t)[1..] == t;
  }

  lemma {:induction false} ParseAllTokens(cs: seq<Cond>, rest: seq<string>)
    requires |cs| > 0 && (forall i :: 0 <= i < |cs| ==> WellFormed(cs[i]))
    requires rest == [] || rest[0] != "AND"
    ensures ParseConds(AllTokens(cs) + rest) == Some((cs, rest))
  {
    if |cs| == 1 {
      ParseCondTokens(cs[0], rest);
      assert cs == [cs[0]];
    } else {
      ParseAllTokens(cs[1..], rest);
      ParseCondsStep(cs[0], cs[1..], AllTokens(cs[1..]) + rest, rest);
      assert AllTokens(cs) + rest == Tokens(cs[0]) + (["AND"] + (AllTokens(cs[1..]) + rest));
      assert cs == [cs[0]] + cs[1..];
    }
  }

  // ----- texts of conditions, as the builders format them -----

  function ShowCompare(column: string, op: Op, n: nat): string { column + " " + OpToken(op) + " $" + Decimal(n) }

  function Show(c: Cond): string
  {
    match c
    case Always => "1=1"
    case Compare(column, op, n) => ShowCompare(column, op, n)
    case IsNull(column) => column + " IS NULL"
    case Either(c1, o1, n1, c2, o2, n2) => "(" + ShowCompare(c1, o1, n1) + " OR " + ShowCompare(c2, o2, n2) + ")"
  }

  function ShowAll(cs: seq<Cond>): (texts: seq<string>)
    ensures |texts| == |cs| && forall i :: 0 <= i < |cs| ==> texts[i] == Show(cs[i])
  {
    seq(|cs|, i requires 0 <= i < |cs| => Show(cs[i]))
  }

  /** Lex of a word followed by a blank and more text. */
  lemma LexWordBlank(w: string, rest: string)
    requires IsWord(w)
    ensures Lex(w + (" " + rest)) == [w] + Lex(rest)
  {
    LexWord(w, " " + rest);
    LexSeparator(' ', rest);
    assert Lex(" " + rest) == Lex(rest);
  }

  lemma LexLastWord(w: string)
    requires IsWord(w)
    ensures Lex(w) == [w]
  {
    LexWord(w, "");
    assert w + "" == w;
  }

  lemma ColumnIsWord(s: string)
    requires IsColumn(s)
    ensures IsWord(s)
  {
  }

  lemma LexTwoWords(w1: string, w2: string)
    requires IsWord(w1) && IsWord(w2)
    ensures Lex(w1 + (" " + w2)) == [w1, w2]
  {
    LexLastWord(w2);
    LexWordBlank(w1, w2);
  }

  lemma LexThreeWords(w1: string, w2: string, w3: string, rest: string)
    requires IsWord(w1) && IsWord(w2) && IsWord(w3) && (rest == "" || IsSeparator(rest[0]))
    ensures Lex(w1 + (" " + (w2 + (" " + (w3 + rest))))) == [w1, w2, w3] + Lex(rest)
  {
    LexWord(w3, rest);
    LexWordBlank(w2, w3 + rest);
    LexWordBlank(w1, w2 + (" " + (w3 + rest)));
    ThreeInFront(w1, w2, w3, Lex(rest));
  }

  lemma ThreeInFront(a: string, b: string, c: string, t: seq<string>)
    ensures [a] + ([b] + ([c] + t)) == [a, b, c] + t
  {
  }

  lemma CompareShape(column: string, op: Op, n: nat, rest: string)
    ensures ShowCompare(column, op, n) + rest == column + (" " + (OpToken(op) + (" " + (ParamToken(n) + rest))))
  {
    var o, d := OpToken(op), Decimal(n);
    assert " $" + d == " " + ("$" + d);
  }

  lemma LexCompare(column: string, op: Op, n: nat, rest: string)
    requires IsColumn(column) && (rest == "" || IsSeparator(rest[0]))
    ensures Lex(ShowCompare(column, op, n) + rest) == [column, OpToken(op), ParamToken(n)] + Lex(rest)
  {
    ColumnIsWord(column);
    OpRoundTrip(op);
    ParamRoundTrip(n);
    LexThreeWords(column, OpToken(op), ParamToken(n), rest);
    CompareShape(column, op, n, rest);
  }

  lemma EitherShape(first: string, second: string)
    ensures "(" + first + " OR " + second + ")" == "(" + (first + (" " + ("OR" + (" " + (second + ")")))))
  {
  }

  lemma LexEither(c1: string, o1: Op, n1: nat, c2: string, o2: Op, n2: nat)
    requires IsColumn(c1) && IsColumn(c2)
    ensures Lex("(" + ShowCompare(c1, o1, n1) + " OR " + ShowCompare(c2, o2, n2) + ")")
         == ["("] + ([c1, OpToken(o1), ParamToken(n1)] + (["OR"] + ([c2, OpToken(o2), ParamToken(n2)] + [")"])))
  {
    var first, second := ShowCompare(c1, o1, n1), ShowCompare(c2, o2, n2);
    EitherShape(first, second);
    LexClosing();
    LexCompare(c2, o2, n2, ")");
    LexBlankWord("OR", second + ")");
    LexCompare(c1, o1, n1, " " + ("OR" + (" " + (second + ")"))));
    LexSeparator('(', first + (" " + ("OR" + (" " + (second + ")")))));
  }

  lemma LexClosing()
    ensures Lex(")") == [")"]
  {
    LexSeparator(')', "");
  }

  lemma LexBlankWord(w: string, rest: string)
    requires IsWord(w)
    ensures Lex(" " + (w + (" " + rest))) == [w] + Lex(rest)
  {
    LexWordBlank(w, rest);
    LexSeparator(' ', w + (" " + rest));
  }

  lemma LexIsNull(column: string)
    requires IsColumn(column)
    ensures Lex(column + " IS NULL") == [column, "IS", "NULL"]
  {
    ColumnIsWord(column);
    LexTwoWords("IS", "NULL");
    var nullTest := "IS" + (" " + "NULL");
    LexWordBlank(column, nullTest);
    assert " IS NULL" == " " + nullTest;
  }

  /** The text of a condition has the tokens of that condition. */
  lemma LexShow(c: Cond)
    requires WellFormed(c)
    ensures Lex(Show(c)) == Tokens(c)
  {
    match c
    case Always =>
      LexLastWord("1=1");
    case Compare(column, op, n) =>
      LexCompare(column, op, n, "");
      assert Show(c) + "" == Show(c);
    case IsNull(column) =>
      LexIsNull(column);
    case Either(c1, o1, n1, c2, o2, n2) =>
      LexEither(c1, o1, n1, c2, o2, n2);
  }

  lemma JoinShape(cs: seq<Cond>)
    requires |cs| > 1
    ensures Join(ShowAll(cs), " AND ") == Show(cs[0]) + (" " + ("AND" + (" " + Join(ShowAll(cs[1..]), " AND "))))
  {
    assert ShowAll(cs)[1..] == ShowAll(cs[1..]);
  }

  lemma LexJoinedStep(first: string, rest: string)
    ensures Lex(first + (" " + ("AND" + (" " + rest)))) == Lex(first) + (["AND"] + Lex(rest))
  {
    LexBlankWord("AND", rest);
    LexConcat(first, " " + ("AND" + (" " + rest)));
  }

  lemma {:induction false} LexJoined(cs: seq<Cond>)
    requires forall i :: 0 <= i < |cs| ==> WellFormed(cs[i])
    ensures Lex(Join(ShowAll(cs), " AND ")) == AllTokens(cs)
  {
    if |cs| == 1 {
      LexShow(cs[0]);
    } else if |cs| > 1 {
      LexShow(cs[0]);
      LexJoined(cs[1..]);
      JoinShape(cs);
      LexJoinedStep(Show(cs[0]), Join(ShowAll(cs[1..]), " AND "));
    }
  }

  /** Joined conditions parse back to themselves, whatever follows them. */
  lemma ParseJoined(cs: seq<Cond>, tail: string)
    requires |cs| > 0 && (forall i :: 0 <= i < |cs| ==> WellFormed(cs[i]))
    requires tail == "" || (IsSeparator(tail[0]) && (Lex(tail) == [] || Lex(tail)[0] != "AND"))
    ensures ParseConds(Lex(Join(ShowAll(cs), " AND ") + tail)) == Some((cs, Lex(tail)))
  {
    LexJoined(cs);
    LexConcat(Join(ShowAll(cs), " AND "), tail);
    ParseAllTokens(cs, Lex(tail));
  }

  // ----- rows -----

  datatype Value = Null | Text(text: string) | Uuid(id: nat) | Time(at: int) | Number(n: int) | Tags(tags: set<string>)

  type Row = map<string, Value>

  function Column(row: Row, name: string): Value { if name in row then row[name] else Null }

  function Lower(s: string): string
  {
    if s == "" then "" else [if 'A' <= s[0] <= 'Z' then s[0] + 32 as char else s[0]] + Lower(s[1..])
  }

  /** LIKE: '%' stands for any text, '_' for one character, and a backslash takes the next one as is. */
  predicate Like(s: string, pattern: string)
    decreases |pattern|, |s|
  {
    if pattern == "" then s == ""
    else if pattern[0] == '%' then Like(s, pattern[1..]) || (s != "" && Like(s[1..], pattern))
    else if pattern[0] == '\\' && |pattern| > 1 then s != "" && s[0] == pattern[1] && Like(s[1..], pattern[2..])
    else s != "" && (pattern[0] == '_' || s[0] == pattern[0]) && Like(s[1..], pattern[1..])
  }

  /** When a comparison is true; with NULL it never is. */
  predicate Holds(op: Op, a: Value, b: Value)
  {
    match op
    case Eq => a == b && a != Null
    case Ge => a.Time? && b.Time? && a.at >= b.at
    case Le => a.Time? && b.Time? && a.at <= b.at
    case Overlaps => a.Tags? && b.Tags? && a.tags * b.tags != {}
    case ILike => a.Text? && b.Text? && Like(Lower(a.text), Lower(b.text))
  }

  predicate ComparesTrue(column: string, op: Op, param: nat, args: seq<Value>, row: Row)
  {
    1 <= param <= |args| && Holds(op, Column(row, column), args[param - 1])
  }

  predicate IsTrue(c: Cond, args: seq<Value>, row: Row)
  {
    match c
    case Always => true
    case Compare(column, op, n) => ComparesTrue(column, op, n, args, row)
    case IsNull(column) => Column(row, column) == Null
    case Either(c1, o1, n1, c2, o2, n2) => ComparesTrue(c1, o1, n1, args, row) || ComparesTrue(c2, o2, n2, args, row)
  }

  predicate AllTrue(cs: seq<Cond>, args: seq<Value>, row: Row)
  {
    forall i :: 0 <= i < |cs| ==> IsTrue(cs[i], args, row)
  }

  /** The placeholders of a condition all have an argument. */
  predicate Bound(c: Cond, args: nat)
  {
    match c
    case Always => true
    case Compare(_, _, n) => 1 <= n <= args
    case IsNull(_) => true
    case Either(_, _, n1, _, _, n2) => 1 <= n1 <= args && 1 <= n2 <= args
  }

  // ----- growing a clause and its arguments together -----

  datatype Builder = Builder(conds: seq<Cond>, args: seq<Value>)

  predicate Sound(b: Builder)
  {
    |b.conds| > 0 && forall i :: 0 <= i < |b.conds| ==> WellFormed(b.conds[i]) && Bound(b.conds[i], |b.args|)
  }

  function Next(b: Builder): nat { |b.args| + 1 }

  function Filter(b: Builder, column: string, op: Op, value: Value): Builder
  {
    Builder(b.conds + [Compare(column, op, Next(b))], b.args + [value])
  }

  function FilterIf(b: Builder, on: bool, column: string, op: Op, value: Value): Builder
  {
    if on then Filter(b, column, op, value) else b
  }

  predicate Selects(b: Builder, row: Row) { AllTrue(b.conds, b.args, row) }

  lemma BoundIsStable(c: Cond, args: seq<Value>, more: seq<Value>, row: Row)
    requires Bound(c, |args|)
    ensures IsTrue(c, args + more, row) <==> IsTrue(c, args, row)
    ensures Bound(c, |args + more|)
  {
  }

  /** Adding a condition with its argument narrows the selection by exactly that condition: the new
      placeholder means the new argument, and the old ones keep theirs. */
  lemma AddMeans(b: Builder, c: Cond, more: seq<Value>, row: Row)
    requires Sound(b) && WellFormed(c) && Bound(c, |b.args + more|)
    ensures var b' := Builder(b.conds + [c], b.args + more);
            Sound(b') && (Selects(b', row) <==> Selects(b, row) && IsTrue(c, b.args + more, row))
  {
    var b' := Builder(b.conds + [c], b.args + more);
    forall i | 0 <= i < |b.conds|
      ensures b'.conds[i] == b.conds[i] && Bound(b'.conds[i], |b'.args|)
      ensures IsTrue(b'.conds[i], b'.args, row) <==> IsTrue(b.conds[i], b.args, row)
    {
      BoundIsStable(b.conds[i], b.args, more, row);
    }
    assert b'.conds[|b.conds|] == c;
  }

  lemma StartMeans(c: Cond, row: Row)
    ensures Selects(Builder([c], []), row) <==> IsTrue(c, [], row)
  {
    assert [c][0] == c;
  }

  lemma FilterMeans(b: Builder, on: bool, column: string, op: Op, value: Value, row: Row)
    requires Sound(b) && IsColumn(column)
    ensures var b' := FilterIf(b, on, column, op, value);
            Sound(b') && (Selects(b', row) <==> Selects(b, row) && (on ==> Holds(op, Column(row, column), value)))
  {
    if on {
      AddMeans(b, Compare(column, op, Next(b)), [value], row);
    }
  }

  /** What the database does with a condition text: it must parse completely, and then its conditions
      select rows. */
  predicate TextSelects(text: string, args: seq<Value>, row: Row)
  {
    match ParseConds(Lex(text))
    case Some((cs, rest)) => rest == [] && AllTrue(cs, args, row)
    case None => false
  }

  /** The joined text of a builder means the builder. */
  lemma TextMeans(b: Builder, row: Row)
    requires Sound(b)
    ensures TextSelects(Join(ShowAll(b.conds), " AND "), b.args, row) <==> Selects(b, row)
  {
    ParseJoined(b.conds, "");
    var text := Join(ShowAll(b.conds), " AND ");
    assert text + "" == text;
  }
}
