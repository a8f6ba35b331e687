/** Regular expressions as the container service writes them, anchored at both ends: what a pattern
    means, a matcher that decides it by derivatives, and the characters a match can start with. */
module Regex {

  datatype Re =
    | Nothing
    | Eps
    | One(ranges: seq<(char, char)>)
    | Cat(a: Re, b: Re)
    | Alt(a: Re, b: Re)
    | Star(a: Re)

  predicate InRanges(ranges: seq<(char, char)>, c: char)
  {
    ranges != [] && (ranges[0].0 <= c <= ranges[0].1 || InRanges(ranges[1..], c))
  }

  /** The texts a pattern stands for. */
  ghost predicate Matches(r: Re, s: string)
    decreases r, |s|
  {
    match r
    case Nothing => false
    case Eps => s == ""
    case One(ranges) => |s| == 1 && InRanges(ranges, s[0])
    case Cat(a, b) => exists k :: 0 <= k <= |s| && Matches(a, s[..k]) && Matches(b, s[k..])
    case Alt(a, b) => Matches(a, s) || Matches(b, s)
    case Star(a) => s == "" || exists k :: 0 < k <= |s| && Matches(a, s[..k]) && Matches(r, s[k..])
  }

  /** s splits at k into a text of a and a text of b. */
  ghost predicate MatchesAt(a: Re, b: Re, s: string, k: int)
  {
    0 <= k <= |s| && Matches(a, s[..k]) && Matches(b, s[k..])
  }

  lemma CatIsSplit(a: Re, b: Re, s: string)
    ensures Matches(Cat(a, b), s) <==> exists k :: MatchesAt(a, b, s, k)
  {
    if Matches(Cat(a, b), s) {
      var k :| 0 <= k <= |s| && Matches(a, s[..k]) && Matches(b, s[k..]);
      assert MatchesAt(a, b, s, k);
    }
  }

  // ----- derived forms -----

  function Char(c: char): Re { One([(c, c)]) }

  function Literal(s: string): Re { if s == "" then Eps else Cat(Char(s[0]), Literal(s[1..])) }

  function Opt(r: Re): Re { Alt(r, Eps) }

  function Plus(r: Re): Re { Cat(r, Star(r)) }

  function Rep(r: Re, lo: nat, hi: nat): Re
    decreases hi
  {
    if hi == 0 then Eps
    else if lo > 0 then Cat(r, Rep(r, lo - 1, hi - 1))
    else Opt(Cat(r, Rep(r, 0, hi - 1)))
  }

  function AtLeast(r: Re, n: nat): Re { if n == 0 then Star(r) else Cat(r, AtLeast(r, n - 1)) }

  // ----- matching by derivatives -----

  predicate Nullable(r: Re)
  {
    match r
    case Nothing => false
    case Eps => true
    case One(_) => false
    case Cat(a, b) => Nullable(a) && Nullable(b)
    case Alt(a, b) => Nullable(a) || Nullable(b)
    case Star(_) => true
  }

  function Derivative(r: Re, c: char): Re
  {
    match r
    case Nothing => Nothing
    case Eps => Nothing
    case One(ranges) => if InRanges(ranges, c) then Eps else Nothing
    case Cat(a, b) =>
      var first := Cat(Derivative(a, c), b);
      if Nullable(a) then Alt(first, Derivative(b, c)) else first
    case Alt(a, b) => Alt(Derivative(a, c), Derivative(b, c))
    case Star(a) => Cat(Derivative(a, c), r)
  }

  lemma {:induction false} NullableMatchesEmpty(r: Re)
    ensures Nullable(r) <==> Matches(r, "")
  {
    match r
    case Cat(a, b) =>
      NullableMatchesEmpty(a);
      NullableMatchesEmpty(b);
      CatIsSplit(a, b, "");
      assert MatchesAt(a, b, "", 0) <==> Nullable(r);
    case Alt(a, b) =>
      NullableMatchesEmpty(a);
      NullableMatchesEmpty(b);
    case _ =>
  }

  /** The derivative by c stands for what follows c in the texts of r. */
  lemma {:induction false} DerivativeMatches(r: Re, c: char, s: string)
    ensures Matches(Derivative(r, c), s) <==> Matches(r, [c] + s)
    decreases r, 0
  {
    var t := [c] + s;
    match r
    case Nothing =>
    case Eps =>
    case One(_) =>
    case Alt(a, b) =>
      DerivativeMatches(a, c, s);
      DerivativeMatches(b, c, s);
    case Cat(a, b) =>
      NullableMatchesEmpty(a);
      DerivativeMatches(b, c, s);
      DerivativeOfFirst(a, b, c, s);
      CatIsSplit(a, b, t);
      assert t[..0] == "" && t[0..] == t;
      assert MatchesAt(a, b, t, 0) <==> Nullable(a) && Matches(b, t);
      assert Matches(Cat(a, b), t) <==> MatchesAt(a, b, t, 0) || exists k :: k > 0 && MatchesAt(a, b, t, k);
    case Star(a) =>
      DerivativeOfFirst(a, r, c, s);
      if k :| 0 < k <= |t| && Matches(a, t[..k]) && Matches(r, t[k..]) {
        assert MatchesAt(a, r, t, k);
      }
  }

  /** A split of c followed by s after at least one character is a split of s by the derivative. */
  lemma {:induction false} DerivativeOfFirst(a: Re, b: Re, c: char, s: string)
    ensures Matches(Cat(Derivative(a, c), b), s) <==> exists k :: k > 0 && MatchesAt(a, b, [c] + s, k)
    decreases a, 1
  {
    var t := [c] + s;
    CatIsSplit(Derivative(a, c), b, s);
    if k :| MatchesAt(Derivative(a, c), b, s, k) {
      DerivativeMatches(a, c, s[..k]);
      assert t[..k + 1] == [c] + s[..k] && t[k + 1..] == s[k..];
      assert MatchesAt(a, b, t, k + 1);
    }
    if k :| k > 0 && MatchesAt(a, b, t, k) {
      assert t[..k] == [c] + s[..k - 1] && t[k..] == s[k - 1..];
      DerivativeMatches(a, c, s[..k - 1]);
      assert MatchesAt(Derivative(a, c), b, s, k - 1);
    }
  }

  method MatchString(r: Re, s: string) returns (matched: bool)
    ensures matched <==> Matches(r, s)
  {
    var rest := r;
    for i := 0 to |s|
      invariant Matches(rest, s[i..]) <==> Matches(r, s)
    {
      DerivativeMatches(rest, s[i], s[i + 1..]);
      assert [s[i]] + s[i + 1..] == s[i..];
      rest := Derivative(rest, s[i]);
    }
    NullableMatchesEmpty(rest);
    return Nullable(rest);
  }

  // ----- first characters -----

  predicate CanStart(r: Re, c: char)
  {
    match r
    case Nothing => false
    case Eps => false
    case One(ranges) => InRanges(ranges, c)
    case Cat(a, b) => CanStart(a, c) || (Nullable(a) && CanStart(b, c))
    case Alt(a, b) => CanStart(a, c) || CanStart(b, c)
    case Star(a) => CanStart(a, c)
  }

  lemma {:induction false} FirstCharacter(r: Re, s: string)
    requires Matches(r, s) && s != ""
    ensures CanStart(r, s[0])
    decreases r, |s|
  {
    match r
    case One(_) =>
    case Cat(a, b) =>
      CatIsSplit(a, b, s);
      var k :| MatchesAt(a, b, s, k);
      if k == 0 {
        NullableMatchesEmpty(a);
        assert s[..0] == "" && s[0..] == s;
        FirstCharacter(b, s);
      } else {
        FirstCharacter(a, s[..k]);
      }
    case Alt(a, b) =>
      if Matches(a, s) {
        FirstCharacter(a, s);
      } else {
        FirstCharacter(b, s);
      }
    case Star(a) =>
      var k :| 0 < k <= |s| && Matches(a, s[..k]) && Matches(r, s[k..]);
      FirstCharacter(a, s[..k]);
  }

  // ----- composing and taking apart -----

  lemma CatMatches(a: Re, b: Re, x: string, y: string)
    requires Matches(a, x) && Matches(b, y)
    ensures Matches(Cat(a, b), x + y)
  {
    assert (x + y)[..|x|] == x && (x + y)[|x|..] == y;
    CatIsSplit(a, b, x + y);
    assert MatchesAt(a, b, x + y, |x|);
  }

  lemma CatSplits(a: Re, b: Re, s: string) returns (x: string, y: string)
    requires Matches(Cat(a, b), s)
    ensures s == x + y && Matches(a, x) && Matches(b, y)
  {
    CatIsSplit(a, b, s);
    var k :| MatchesAt(a, b, s, k);
    x, y := s[..k], s[k..];
  }

  ghost predicate AllIn(ranges: seq<(char, char)>, s: string) { forall i :: 0 <= i < |s| ==> InRanges(ranges, s[i]) }

  lemma OneThen(ranges: seq<(char, char)>, rest: Re, s: string)
    ensures Matches(Cat(One(ranges), rest), s) <==> s != "" && InRanges(ranges, s[0]) && Matches(rest, s[1..])
  {
    if Matches(Cat(One(ranges), rest), s) {
      var x, y := CatSplits(One(ranges), rest, s);
      assert y == s[1..] && s[0] == x[0];
    }
    if s != "" && InRanges(ranges, s[0]) && Matches(rest, s[1..]) {
      CatMatches(One(ranges), rest, [s[0]], s[1..]);
      assert [s[0]] + s[1..] == s;
    }
  }

  lemma AllInSplits(ranges: seq<(char, char)>, s: string)
    requires s != ""
    ensures AllIn(ranges, s) <==> InRanges(ranges, s[0]) && AllIn(ranges, s[1..])
  {
    assert forall i :: 0 < i < |s| ==> s[i] == s[1..][i - 1];
  }

  lemma {:induction false} RepOfClass(ranges: seq<(char, char)>, lo: nat, hi: nat, s: string)
    requires lo <= hi
    ensures Matches(Rep(One(ranges), lo, hi), s) <==> lo <= |s| <= hi && AllIn(ranges, s)
    decreases hi
  {
    if hi > 0 {
      var lo' := if lo > 0 then lo - 1 else 0;
      OneThen(ranges, Rep(One(ranges), lo', hi - 1), s);
      if s != "" {
        RepOfClass(ranges, lo', hi - 1, s[1..]);
        AllInSplits(ranges, s);
      }
    }
  }

  lemma {:induction false} StarOfClass(ranges: seq<(char, char)>, s: string)
    ensures Matches(Star(One(ranges)), s) <==> AllIn(ranges, s)
  {
    if s != "" {
      StarOfClass(ranges, s[1..]);
      if AllIn(ranges, s) {
        assert 0 < 1 <= |s| && Matches(One(ranges), s[..1]) && Matches(Star(One(ranges)), s[1..]);
      }
      if Matches(Star(One(ranges)), s) {
        var k :| 0 < k <= |s| && Matches(One(ranges), s[..k]) && Matches(Star(One(ranges)), s[k..]);
        assert k == 1;
        assert forall i :: 0 <= i < |s| ==> s[i] == if i == 0 then s[..1][0] else s[1..][i - 1];
      }
    }
  }

  lemma CharMatches(c: char, s: string)
    ensures Matches(Char(c), s) <==> s == [c]
  {
    if |s| == 1 {
      assert InRanges([(c, c)], s[0]) <==> s[0] == c || InRanges([(c, c)][1..], s[0]);
      assert [(c, c)][1..] == [];
    }
  }

  lemma {:induction false} LiteralMatches(w: string, s: string)
    ensures Matches(Literal(w), s) <==> s == w
  {
    if w != "" {
      if Matches(Literal(w), s) {
        var x, y := CatSplits(Char(w[0]), Literal(w[1..]), s);
        LiteralMatches(w[1..], y);
        CharMatches(w[0], x);
      }
      CharMatches(w[0], [w[0]]);
      LiteralMatches(w[1..], w[1..]);
      CatMatches(Char(w[0]), Literal(w[1..]), [w[0]], w[1..]);
      assert [w[0]] + w[1..] == w;
    }
  }
}
