/** Image references: the grammar that the service documents, written out character by character, and that
    the pattern it compiles accepts exactly the references of that grammar. */
module ImageReference {
  import opened Regex
  import opened ContainerRun
  import PortMapping
  import Text

  // ----- the grammar -----

  predicate IsLowerOrDigit(c: char) { 'a' <= c <= 'z' || '0' <= c <= '9' }

  predicate IsDigit(c: char) { '0' <= c <= '9' }

  predicate IsLetter(c: char) { 'a' <= c <= 'z' || 'A' <= c <= 'Z' }

  predicate IsHex(c: char) { '0' <= c <= '9' || 'a' <= c <= 'f' || 'A' <= c <= 'F' }

  /** Words with a separator between every two neighbours. */
  function Weave(words: seq<string>, seps: seq<string>): string
    requires |words| == |seps| + 1
  {
    if seps == [] then words[0] else words[0] + seps[0] + Weave(words[1..], seps[1..])
  }

  ghost predicate IsWeave(word: string -> bool, sep: string -> bool, s: string, words: seq<string>, seps: seq<string>)
  {
    && |words| == |seps| + 1 && s == Weave(words, seps)
    && (forall i :: 0 <= i < |words| ==> word(words[i]))
    && (forall i :: 0 <= i < |seps| ==> sep(seps[i]))
  }

  ghost predicate IsList(word: string -> bool, sep: string -> bool, s: string)
  {
    exists words, seps :: IsWeave(word, sep, s, words, seps)
  }

  predicate IsLowerWord(s: string) { s != "" && forall i :: 0 <= i < |s| ==> IsLowerOrDigit(s[i]) }

  /** A full stop, one or two underscores, or any number of dashes. */
  predicate IsSeparator(s: string)
  {
    s == "." || s == "_" || s == "__" || (s != "" && forall i :: 0 <= i < |s| ==> s[i] == '-')
  }

  ghost predicate IsComponent(s: string) { IsList(IsLowerWord, IsSeparator, s) }

  ghost predicate IsPath(s: string) { IsList(IsComponent, x => x == "/", s) }

  predicate IsHostPart(s: string)
  {
    s != "" && IsAlnum(s[0]) && IsAlnum(s[|s| - 1]) && forall i :: 0 <= i < |s| ==> IsAlnum(s[i]) || s[i] == '-'
  }

  ghost predicate IsHost(s: string) { IsList(IsHostPart, x => x == ".", s) }

  predicate IsPort(s: string) { |s| >= 2 && s[0] == ':' && forall i :: 1 <= i < |s| ==> IsDigit(s[i]) }

  ghost predicate IsRegistry(s: string) { exists k :: IsHostAndPort(s, k) }

  ghost predicate IsHostAndPort(s: string, k: int)
  {
    0 <= k <= |s| && IsHost(s[..k]) && (s[k..] == "" || IsPort(s[k..]))
  }

  predicate IsTag(s: string)
  {
    && 1 <= |s| <= 128 && (IsAlnum(s[0]) || s[0] == '_')
    && forall i :: 1 <= i < |s| ==> IsAlnum(s[i]) || s[i] == '_' || s[i] == '.' || s[i] == '-'
  }

  predicate IsAlgorithmWord(s: string) { s != "" && IsLetter(s[0]) && forall i :: 1 <= i < |s| ==> IsAlnum(s[i]) }

  predicate IsAlgorithmSeparator(s: string) { s == "-" || s == "_" || s == "+" || s == "." }

  ghost predicate IsAlgorithm(s: string) { IsList(IsAlgorithmWord, IsAlgorithmSeparator, s) }

  /** An algorithm, a colon and at least 32 hexadecimal digits. */
  ghost predicate IsDigest(s: string) { exists k :: IsDigestAt(s, k) }

  ghost predicate IsDigestAt(s: string, k: int) { 0 <= k <= |s| && IsAlgorithm(s[..k]) && IsHash(s[k..]) }

  predicate IsHash(s: string) { |s| >= 33 && s[0] == ':' && forall i :: 1 <= i < |s| ==> IsHex(s[i]) }

  ghost predicate IsTagEnd(s: string) { s == "" || (s[0] == ':' && IsTag(s[1..])) }

  ghost predicate IsDigestEnd(s: string) { s == "" || (s[0] == '@' && IsDigest(s[1..])) }

  ghost predicate IsRegistryStart(s: string) { s == "" || (s[|s| - 1] == '/' && IsRegistry(s[..|s| - 1])) }

  /** A path, after a registry and a slash if there is one, before a tag and a digest if there are. */
  ghost predicate IsReferenceOf(image: string, registry: string, path: string, tag: string, digest: string)
  {
    && image == registry + path + tag + digest && IsPath(path)
    && IsRegistryStart(registry) && IsTagEnd(tag) && IsDigestEnd(digest)
  }

  ghost predicate IsReference(image: string)
  {
    exists registry, path, tag, digest :: IsReferenceOf(image, registry, path, tag, digest)
  }

  // ----- lists -----

  function ListOf(a: Re, b: Re): Re { Cat(a, Star(Cat(b, a))) }

  ghost predicate Means(r: Re, p: string -> bool) { forall s :: Matches(r, s) <==> p(s) }

  lemma StarMore(r: Re, x: string, y: string)
    requires x != "" && Matches(r, x) && Matches(Star(r), y)
    ensures Matches(Star(r), x + y)
  {
    assert (x + y)[..|x|] == x && (x + y)[|x|..] == y;
    assert 0 < |x| <= |x + y|;
  }

  lemma StarSplits(r: Re, s: string) returns (x: string, y: string)
    requires Matches(Star(r), s) && s != ""
    ensures s == x + y && x != "" && Matches(r, x) && Matches(Star(r), y)
  {
    var k :| 0 < k <= |s| && Matches(r, s[..k]) && Matches(Star(r), s[k..]);
    x, y := s[..k], s[k..];
  }

  /** The first word of a repetition, its separator, and what follows. */
  lemma FirstOfStar(a: Re, b: Re, y: string) returns (p: string, q: string, rest: string)
    requires Matches(Star(Cat(b, a)), y) && y != ""
    ensures y == p + q + rest && |rest| < |y| && Matches(b, p) && Matches(a, q) && Matches(Star(Cat(b, a)), rest)
  {
    var z, y' := StarSplits(Cat(b, a), y);
    p, q := CatSplits(b, a, z);
    rest := y';
  }

  lemma Regroup(x: string, p: string, q: string, rest: string)
    ensures x + (p + q + rest) == x + p + (q + rest)
  {
  }

  lemma {:induction false} StarGives(a: Re, b: Re, x: string, y: string) returns (words: seq<string>, seps: seq<string>)
    requires Matches(a, x) && Matches(Star(Cat(b, a)), y)
    ensures |words| == |seps| + 1 && x + y == Weave(words, seps)
    ensures forall i :: 0 <= i < |words| ==> Matches(a, words[i])
    ensures forall i :: 0 <= i < |seps| ==> Matches(b, seps[i])
    decreases |y|
  {
    if y == "" {
      words, seps := [x], [];
    } else {
      var p, q, rest := FirstOfStar(a, b, y);
      var words', seps' := StarGives(a, b, q, rest);
      words, seps := [x] + words', [p] + seps';
      Regroup(x, p, q, rest);
      assert words[1..] == words' && seps[1..] == seps';
    }
  }

  lemma JoinLists(a: Re, b: Re, x: string, p: string, rest: string)
    requires Matches(a, x) && Matches(b, p) && p != "" && Matches(ListOf(a, b), rest)
    ensures Matches(ListOf(a, b), x + p + rest)
  {
    var star := Star(Cat(b, a));
    var q, y := CatSplits(a, star, rest);
    JoinTail(a, b, p, q, y);
    CatMatches(a, star, x, p + q + y);
    Regroup(x, p, q, y);
  }

  lemma JoinTail(a: Re, b: Re, p: string, q: string, y: string)
    requires Matches(a, q) && Matches(b, p) && p != "" && Matches(Star(Cat(b, a)), y)
    ensures Matches(Star(Cat(b, a)), p + q + y)
  {
    CatMatches(b, a, p, q);
    StarMore(Cat(b, a), p + q, y);
  }

  lemma {:induction false} WeaveMatches(a: Re, b: Re, word: string -> bool, sep: string -> bool, s: string,
                                        words: seq<string>, seps: seq<string>)
    requires Means(a, word) && Means(b, sep) && !sep("") && IsWeave(word, sep, s, words, seps)
    ensures Matches(ListOf(a, b), s)
    decreases |seps|
  {
    assert word(words[0]);
    if seps == [] {
      CatMatches(a, Star(Cat(b, a)), s, "");
      assert s + "" == s;
    } else {
      var rest := Weave(words[1..], seps[1..]);
      assert IsWeave(word, sep, rest, words[1..], seps[1..]);
      WeaveMatches(a, b, word, sep, rest, words[1..], seps[1..]);
      assert sep(seps[0]);
      JoinLists(a, b, words[0], seps[0], rest);
    }
  }

  /** The repeated form of a pattern stands for the lists of its words. */
  lemma ListExactly(a: Re, b: Re, word: string -> bool, sep: string -> bool)
    requires Means(a, word) && Means(b, sep) && !sep("")
    ensures Means(ListOf(a, b), s => IsList(word, sep, s))
  {
    forall s
      ensures Matches(ListOf(a, b), s) <==> IsList(word, sep, s)
    {
      if Matches(ListOf(a, b), s) {
        var x, y := CatSplits(a, Star(Cat(b, a)), s);
        var words, seps := StarGives(a, b, x, y);
        assert IsWeave(word, sep, s, words, seps);
      }
      if IsList(word, sep, s) {
        var words, seps :| IsWeave(word, sep, s, words, seps);
        WeaveMatches(a, b, word, sep, s, words, seps);
      }
    }
  }

  // ----- the pieces of the pattern -----

  lemma HexRanges(c: char)
    ensures InRanges(HEX, c) <==> IsHex(c)
  {
    ThreeRanges(('0', '9'), ('a', 'f'), ('A', 'F'), c);
  }

  lemma OneRange(x: (char, char), c: char)
    ensures InRanges([x], c) <==> x.0 <= c <= x.1
  {
    assert [x][1..] == [];
  }

  lemma PlusOfClass(ranges: seq<(char, char)>, s: string)
    ensures Matches(Plus(One(ranges)), s) <==> s != "" && AllIn(ranges, s)
  {
    OneThen(ranges, Star(One(ranges)), s);
    if s != "" {
      StarOfClass(ranges, s[1..]);
      AllInSplits(ranges, s);
    }
  }

  lemma LowerWords()
    ensures Means(Plus(One(LOWER_DIGIT)), IsLowerWord)
  {
    forall s
      ensures Matches(Plus(One(LOWER_DIGIT)), s) <==> IsLowerWord(s)
    {
      PlusOfClass(LOWER_DIGIT, s);
      forall c
        ensures InRanges(LOWER_DIGIT, c) <==> IsLowerOrDigit(c)
      {
        AlnumRanges(c);
      }
    }
  }

  function SeparatorPattern(): Re { Alt(One([('.', '.'), ('_', '_')]), Alt(Literal("__"), Plus(Char('-')))) }

  lemma SeparatorExactly(s: string)
    ensures Matches(SeparatorPattern(), s) <==> IsSeparator(s)
  {
    var marks, dash := [('.', '.'), ('_', '_')], [('-', '-')];
    LiteralMatches("__", s);
    PlusOfClass(dash, s);
    forall c
      ensures InRanges(dash, c) <==> c == '-'
    {
      OneRange(('-', '-'), c);
    }
    if |s| == 1 {
      TwoRanges(('.', '.'), ('_', '_'), s[0]);
    }
    assert Matches(One(marks), s) <==> s == "." || s == "_";
  }

  lemma Separators()
    ensures Means(SeparatorPattern(), IsSeparator)
  {
    forall s
      ensures Matches(SeparatorPattern(), s) <==> IsSeparator(s)
    {
      SeparatorExactly(s);
    }
  }

  lemma Components()
    ensures Means(NameComponent(), IsComponent)
  {
    LowerWords();
    Separators();
    ListExactly(Plus(One(LOWER_DIGIT)), SeparatorPattern(), IsLowerWord, IsSeparator);
    assert NameComponent() == ListOf(Plus(One(LOWER_DIGIT)), SeparatorPattern());
    SameMeaning(NameComponent(), s => IsList(IsLowerWord, IsSeparator, s), IsComponent);
  }

  lemma SameMeaning(r: Re, p: string -> bool, q: string -> bool)
    requires Means(r, p) && forall s :: p(s) <==> q(s)
    ensures Means(r, q)
  {
  }

  lemma Marks(c: char)
    ensures Means(Char(c), s => s == [c])
  {
    forall s
      ensures Matches(Char(c), s) <==> s == [c]
    {
      CharMatches(c, s);
    }
  }

  lemma PathExactly(s: string)
    ensures Matches(ImagePath(), s) <==> IsPath(s)
  {
    Components();
    Marks('/');
    ListExactly(NameComponent(), Char('/'), IsComponent, x => x == "/");
    assert ImagePath() == ListOf(NameComponent(), Char('/'));
  }

  lemma OneMatches(ranges: seq<(char, char)>, s: string)
    ensures Matches(One(ranges), s) <==> |s| == 1 && InRanges(ranges, s[0])
  {
  }

  lemma ThenOne(r: Re, ranges: seq<(char, char)>, s: string)
    ensures Matches(Cat(r, One(ranges)), s) <==> s != "" && InRanges(ranges, s[|s| - 1]) && Matches(r, s[..|s| - 1])
  {
    if Matches(Cat(r, One(ranges)), s) {
      LastIsOne(r, ranges, s);
    }
    if s != "" && InRanges(ranges, s[|s| - 1]) && Matches(r, s[..|s| - 1]) {
      var last := [s[|s| - 1]];
      OneMatches(ranges, last);
      CatMatches(r, One(ranges), s[..|s| - 1], last);
      assert s[..|s| - 1] + last == s;
    }
  }

  lemma LastIsOne(r: Re, ranges: seq<(char, char)>, s: string)
    requires Matches(Cat(r, One(ranges)), s)
    ensures s != "" && InRanges(ranges, s[|s| - 1]) && Matches(r, s[..|s| - 1])
  {
    var x, y := CatSplits(r, One(ranges), s);
    OneMatches(ranges, y);
    assert x == s[..|s| - 1] && s[|s| - 1] == y[0];
  }

  const ALNUM_DASH := ALNUM + [('-', '-')]

  lemma AlnumDashRanges(c: char)
    ensures InRanges(ALNUM_DASH, c) <==> IsAlnum(c) || c == '-'
  {
    var rest := [('A', 'Z'), ('0', '9'), ('-', '-')];
    assert ALNUM_DASH == [('a', 'z')] + rest && ALNUM_DASH[1..] == rest;
    ThreeRanges(('A', 'Z'), ('0', '9'), ('-', '-'), c);
  }

  lemma HostPartExactly(s: string)
    ensures Matches(DomainComponent(), s) <==> IsHostPart(s)
  {
    var middle := Star(One(ALNUM_DASH));
    OneThen(ALNUM, Opt(Cat(middle, One(ALNUM))), s);
    if |s| > 1 {
      var rest := s[1..];
      ThenOne(middle, ALNUM, rest);
      StarOfClass(ALNUM_DASH, rest[..|rest| - 1]);
      forall c
        ensures (InRanges(ALNUM, c) <==> IsAlnum(c)) && (InRanges(ALNUM_DASH, c) <==> IsAlnum(c) || c == '-')
      {
        AlnumRanges(c);
        AlnumDashRanges(c);
      }
      var inner := rest[..|rest| - 1];
      assert inner == s[1..|s| - 1] && rest[|rest| - 1] == s[|s| - 1];
      assert forall i :: 1 <= i < |s| - 1 ==> s[i] == inner[i - 1];
      assert forall i :: 0 <= i < |inner| ==> inner[i] == s[i + 1];
    } else if |s| == 1 {
      AlnumRanges(s[0]);
      assert s[1..] == "";
    }
  }

  lemma Hosts()
    ensures Means(ListOf(DomainComponent(), Char('.')), IsHost)
  {
    forall s
      ensures Matches(DomainComponent(), s) <==> IsHostPart(s)
    {
      HostPartExactly(s);
    }
    Marks('.');
    ListExactly(DomainComponent(), Char('.'), IsHostPart, x => x == ".");
    SameMeaning(ListOf(DomainComponent(), Char('.')), s => IsList(IsHostPart, x => x == ".", s), IsHost);
  }

  // Splitting in three and in four, on sets of texts, so that no pattern is taken apart on the way.

  ghost predicate Both(p: string -> bool, q: string -> bool, s: string) { exists x, y :: ArePair(p, q, s, x, y) }

  ghost predicate ArePair(p: string -> bool, q: string -> bool, s: string, x: string, y: string)
  {
    s == x + y && p(x) && q(y)
  }

  lemma PairOfCat(a: Re, b: Re, p: string -> bool, q: string -> bool)
    requires Means(a, p) && Means(b, q)
    ensures Means(Cat(a, b), s => Both(p, q, s))
  {
    forall s
      ensures Matches(Cat(a, b), s) <==> Both(p, q, s)
    {
      if Matches(Cat(a, b), s) {
        var x, y := CatSplits(a, b, s);
        assert ArePair(p, q, s, x, y);
      }
      if Both(p, q, s) {
        var x, y :| ArePair(p, q, s, x, y);
        CatMatches(a, b, x, y);
      }
    }
  }

  lemma BothAssociates(p: string -> bool, q: string -> bool, r: string -> bool, s: string)
    ensures Both(p, x => Both(q, r, x), s) <==> Both(x => Both(p, q, x), r, s)
  {
    var qr: string -> bool, pq: string -> bool := x => Both(q, r, x), x => Both(p, q, x);
    if Both(p, qr, s) {
      var x, yz :| ArePair(p, qr, s, x, yz);
      var y, z :| ArePair(q, r, yz, y, z);
      assert ArePair(p, q, x + y, x, y);
      assert ArePair(pq, r, s, x + y, z) by { Regroup(x, y, z, ""); }
    }
    if Both(pq, r, s) {
      var xy, z :| ArePair(pq, r, s, xy, z);
      var x, y :| ArePair(p, q, xy, x, y);
      assert ArePair(q, r, y + z, y, z);
      assert ArePair(p, qr, s, x, y + z) by { Regroup(x, y, z, ""); }
    }
  }

  lemma CharThen(c: char, r: Re, s: string)
    ensures Matches(Cat(Char(c), r), s) <==> s != "" && s[0] == c && Matches(r, s[1..])
  {
    OneThen([(c, c)], r, s);
    if s != "" {
      OneRange((c, c), s[0]);
    }
  }

  function PortPattern(): Re { Cat(Char(':'), Plus(One([('0', '9')]))) }

  lemma PortExactly(s: string)
    ensures Matches(PortPattern(), s) <==> IsPort(s)
  {
    var digits := [('0', '9')];
    CharThen(':', Plus(One(digits)), s);
    if s != "" {
      PlusOfClass(digits, s[1..]);
      forall c
        ensures InRanges(digits, c) <==> IsDigit(c)
      {
        OneRange(('0', '9'), c);
      }
      assert forall i :: 1 <= i < |s| ==> s[i] == s[1..][i - 1];
      assert forall i :: 0 <= i < |s| - 1 ==> s[1..][i] == s[i + 1];
    }
  }

  lemma OptionalPorts()
    ensures Means(Opt(PortPattern()), x => x == "" || IsPort(x))
  {
    forall s
      ensures Matches(Opt(PortPattern()), s) <==> s == "" || IsPort(s)
    {
      PortExactly(s);
      assert Matches(Opt(PortPattern()), s) <==> Matches(PortPattern(), s) || s == "";
    }
  }

  /** A list pattern with something after it. */
  lemma EndedList(a: Re, b: Re, c: Re, list: string -> bool, end: string -> bool, s: string)
    requires Means(ListOf(a, b), list) && Means(c, end)
    ensures Matches(Cat(a, Cat(Star(Cat(b, a)), c)), s) <==> Both(list, end, s)
  {
    var p: string -> bool, q: string -> bool := x => Matches(a, x), x => Matches(Star(Cat(b, a)), x);
    PairOfCat(Star(Cat(b, a)), c, q, end);
    PairOfCat(a, Cat(Star(Cat(b, a)), c), p, x => Both(q, end, x));
    PairOfCat(a, Star(Cat(b, a)), p, q);
    BothAssociates(p, q, end, s);
    SameFirst(x => Both(p, q, x), list, end, s);
  }

  lemma SameFirst(p: string -> bool, p': string -> bool, q: string -> bool, s: string)
    requires forall x :: p(x) <==> p'(x)
    ensures Both(p, q, s) <==> Both(p', q, s)
  {
    if Both(p, q, s) {
      var x, y :| ArePair(p, q, s, x, y);
      assert ArePair(p', q, s, x, y);
    }
    if Both(p', q, s) {
      var x, y :| ArePair(p', q, s, x, y);
      assert ArePair(p, q, s, x, y);
    }
  }

  lemma RegistryExactly(s: string)
    ensures Matches(Domain(), s) <==> IsRegistry(s)
  {
    Hosts();
    OptionalPorts();
    EndedList(DomainComponent(), Char('.'), Opt(PortPattern()), IsHost, x => x == "" || IsPort(x), s);
    if IsRegistry(s) {
      var k :| IsHostAndPort(s, k);
      assert ArePair(IsHost, x => x == "" || IsPort(x), s, s[..k], s[k..]);
    }
    if Both(IsHost, x => x == "" || IsPort(x), s) {
      var x, y :| ArePair(IsHost, x => x == "" || IsPort(x), s, x, y);
      assert s[..|x|] == x && s[|x|..] == y;
      assert IsHostAndPort(s, |x|);
    }
  }

  lemma TagExactly(s: string)
    ensures Matches(Tag(), s) <==> IsTag(s)
  {
    var first := LETTER + [('0', '9'), ('_', '_')];
    OneThen(first, Rep(One(NAME_REST), 0, 127), s);
    if s != "" {
      RepOfClass(NAME_REST, 0, 127, s[1..]);
      TagStart(s[0]);
      forall c
        ensures InRanges(NAME_REST, c) <==> IsAlnum(c) || c == '_' || c == '.' || c == '-'
      {
        NameRestRanges(c);
      }
      assert forall i :: 1 <= i < |s| ==> s[i] == s[1..][i - 1];
      assert forall i :: 0 <= i < |s| - 1 ==> s[1..][i] == s[i + 1];
    }
  }

  lemma TagStart(c: char)
    ensures InRanges(LETTER + [('0', '9'), ('_', '_')], c) <==> IsAlnum(c) || c == '_'
  {
    var all := LETTER + [('0', '9'), ('_', '_')];
    var rest := [('a', 'z'), ('0', '9'), ('_', '_')];
    assert all == [('A', 'Z')] + rest && all[1..] == rest;
    ThreeRanges(('a', 'z'), ('0', '9'), ('_', '_'), c);
  }

  // ----- digests -----

  function AlgorithmWord(): Re { Cat(One(LETTER), Star(One(ALNUM))) }

  function AlgorithmMark(): Re { One([('-', '-'), ('_', '_'), ('+', '+'), ('.', '.')]) }

  lemma AlgorithmWordExactly(s: string)
    ensures Matches(AlgorithmWord(), s) <==> IsAlgorithmWord(s)
  {
    OneThen(LETTER, Star(One(ALNUM)), s);
    if s != "" {
      TwoRanges(('A', 'Z'), ('a', 'z'), s[0]);
      StarOfClass(ALNUM, s[1..]);
      forall c
        ensures InRanges(ALNUM, c) <==> IsAlnum(c)
      {
        AlnumRanges(c);
      }
      assert forall i :: 1 <= i < |s| ==> s[i] == s[1..][i - 1];
      assert forall i :: 0 <= i < |s| - 1 ==> s[1..][i] == s[i + 1];
    }
  }

  lemma AlgorithmMarkExactly(s: string)
    ensures Matches(AlgorithmMark(), s) <==> IsAlgorithmSeparator(s)
  {
    if |s| == 1 {
      var ranges := [('-', '-'), ('_', '_'), ('+', '+'), ('.', '.')];
      assert ranges[1..] == [('_', '_'), ('+', '+'), ('.', '.')];
      ThreeRanges(('_', '_'), ('+', '+'), ('.', '.'), s[0]);
    }
  }

  lemma Algorithms()
    ensures Means(ListOf(AlgorithmWord(), AlgorithmMark()), IsAlgorithm)
  {
    forall s
      ensures Matches(AlgorithmWord(), s) <==> IsAlgorithmWord(s)
      ensures Matches(AlgorithmMark(), s) <==> IsAlgorithmSeparator(s)
    {
      AlgorithmWordExactly(s);
      AlgorithmMarkExactly(s);
    }
    ListExactly(AlgorithmWord(), AlgorithmMark(), IsAlgorithmWord, IsAlgorithmSeparator);
    SameMeaning(ListOf(AlgorithmWord(), AlgorithmMark()), s => IsList(IsAlgorithmWord, IsAlgorithmSeparator, s), IsAlgorithm);
  }

  lemma {:induction false} AtLeastOfClass(ranges: seq<(char, char)>, n: nat, s: string)
    ensures Matches(AtLeast(One(ranges), n), s) <==> |s| >= n && AllIn(ranges, s)
    decreases n
  {
    if n == 0 {
      StarOfClass(ranges, s);
    } else {
      OneThen(ranges, AtLeast(One(ranges), n - 1), s);
      if s != "" {
        AtLeastOfClass(ranges, n - 1, s[1..]);
        AllInSplits(ranges, s);
      }
    }
  }

  function HashPattern(): Re { Cat(Char(':'), AtLeast(One(HEX), 32)) }

  lemma HashExactly(s: string)
    ensures Matches(HashPattern(), s) <==> IsHash(s)
  {
    CharThen(':', AtLeast(One(HEX), 32), s);
    if s != "" {
      AtLeastOfClass(HEX, 32, s[1..]);
      forall c
        ensures InRanges(HEX, c) <==> IsHex(c)
      {
        HexRanges(c);
      }
      assert forall i :: 1 <= i < |s| ==> s[i] == s[1..][i - 1];
      assert forall i :: 0 <= i < |s| - 1 ==> s[1..][i] == s[i + 1];
    }
  }

  lemma DigestExactly(s: string)
    ensures Matches(Digest(), s) <==> IsDigest(s)
  {
    Algorithms();
    forall x
      ensures Matches(HashPattern(), x) <==> IsHash(x)
    {
      HashExactly(x);
    }
    EndedList(AlgorithmWord(), AlgorithmMark(), HashPattern(), IsAlgorithm, IsHash, s);
    if IsDigest(s) {
      var k :| IsDigestAt(s, k);
      assert ArePair(IsAlgorithm, IsHash, s, s[..k], s[k..]);
    }
    if Both(IsAlgorithm, IsHash, s) {
      var x, y :| ArePair(IsAlgorithm, IsHash, s, x, y);
      assert s[..|x|] == x && s[|x|..] == y;
      assert IsDigestAt(s, |x|);
    }
  }

  // ----- the whole reference -----

  lemma RegistryPrefix(s: string)
    ensures Matches(Opt(Cat(Domain(), Char('/'))), s) <==>
            IsRegistryStart(s)
  {
    ThenOne(Domain(), [('/', '/')], s);
    if s != "" {
      OneRange(('/', '/'), s[|s| - 1]);
      RegistryExactly(s[..|s| - 1]);
    }
    assert Matches(Opt(Cat(Domain(), Char('/'))), s) <==> Matches(Cat(Domain(), Char('/')), s) || s == "";
  }

  lemma TagSuffix(s: string)
    ensures Matches(Opt(Cat(Char(':'), Tag())), s) <==> IsTagEnd(s)
  {
    CharThen(':', Tag(), s);
    if s != "" {
      TagExactly(s[1..]);
    }
    assert Matches(Opt(Cat(Char(':'), Tag())), s) <==> Matches(Cat(Char(':'), Tag()), s) || s == "";
  }

  lemma DigestSuffix(s: string)
    ensures Matches(Opt(Cat(Char('@'), Digest())), s) <==> IsDigestEnd(s)
  {
    CharThen('@', Digest(), s);
    if s != "" {
      DigestExactly(s[1..]);
    }
    assert Matches(Opt(Cat(Char('@'), Digest())), s) <==> Matches(Cat(Char('@'), Digest()), s) || s == "";
  }

  ghost predicate Tail(q: string -> bool, r: string -> bool, e: string -> bool, s: string)
  {
    Both(q, x => Both(r, e, x), s)
  }

  lemma FourOfCat(a: Re, b: Re, c: Re, d: Re, p: string -> bool, q: string -> bool, r: string -> bool, e: string -> bool)
    requires Means(a, p) && Means(b, q) && Means(c, r) && Means(d, e)
    ensures Means(Cat(a, Cat(b, Cat(c, d))), s => Both(p, x => Tail(q, r, e, x), s))
  {
    PairOfCat(c, d, r, e);
    PairOfCat(b, Cat(c, d), q, x => Both(r, e, x));
    SameMeaning(Cat(b, Cat(c, d)), s => Both(q, x => Both(r, e, x), s), x => Tail(q, r, e, x));
    PairOfCat(a, Cat(b, Cat(c, d)), p, x => Tail(q, r, e, x));
  }

  lemma PartsGive(image: string)
    requires Both(IsRegistryStart, x => Tail(IsPath, IsTagEnd, IsDigestEnd, x), image)
    ensures IsReference(image)
  {
    var ends: string -> bool := x => Both(IsTagEnd, IsDigestEnd, x);
    var x, yzw :| ArePair(IsRegistryStart, x => Tail(IsPath, IsTagEnd, IsDigestEnd, x), image, x, yzw);
    var y, zw :| ArePair(IsPath, ends, yzw, y, zw);
    var z, w :| ArePair(IsTagEnd, IsDigestEnd, zw, z, w);
    Regrouped(x, y, z, w);
    assert IsReferenceOf(image, x, y, z, w);
  }

  lemma PartsOf(image: string)
    requires IsReference(image)
    ensures Both(IsRegistryStart, x => Tail(IsPath, IsTagEnd, IsDigestEnd, x), image)
  {
    var x, y, z, w :| IsReferenceOf(image, x, y, z, w);
    Regrouped(x, y, z, w);
    assert ArePair(IsTagEnd, IsDigestEnd, z + w, z, w);
    assert ArePair(IsPath, x => Both(IsTagEnd, IsDigestEnd, x), y + (z + w), y, z + w);
    assert ArePair(IsRegistryStart, x => Tail(IsPath, IsTagEnd, IsDigestEnd, x), image, x, y + (z + w));
  }

  lemma Regrouped(x: string, y: string, z: string, w: string)
    ensures x + (y + (z + w)) == x + y + z + w
  {
  }

  /** The compiled pattern accepts exactly the references of the grammar. */
  lemma ImageExactly(image: string)
    ensures ImageOk(image) <==> IsReference(image)
  {
    var registry, tag, digest := Opt(Cat(Domain(), Char('/'))), Opt(Cat(Char(':'), Tag())), Opt(Cat(Char('@'), Digest()));
    PiecesMean();
    FourOfCat(registry, ImagePath(), tag, digest, IsRegistryStart, IsPath, IsTagEnd, IsDigestEnd);
    if IsReference(image) {
      PartsOf(image);
    }
    if Both(IsRegistryStart, x => Tail(IsPath, IsTagEnd, IsDigestEnd, x), image) {
      PartsGive(image);
    }
  }

  lemma PiecesMean()
    ensures Means(Opt(Cat(Domain(), Char('/'))), IsRegistryStart) && Means(ImagePath(), IsPath)
    ensures Means(Opt(Cat(Char(':'), Tag())), IsTagEnd) && Means(Opt(Cat(Char('@'), Digest())), IsDigestEnd)
  {
    forall s
      ensures Matches(Opt(Cat(Domain(), Char('/'))), s) <==> IsRegistryStart(s)
      ensures Matches(ImagePath(), s) <==> IsPath(s)
      ensures Matches(Opt(Cat(Char(':'), Tag())), s) <==> IsTagEnd(s)
      ensures Matches(Opt(Cat(Char('@'), Digest())), s) <==> IsDigestEnd(s)
    {
      RegistryPrefix(s);
      PathExactly(s);
      TagSuffix(s);
      DigestSuffix(s);
    }
  }

  /** The everyday references: a word of small letters and digits, alone or with a tag. */
  lemma EverydayReferences(name: string, tag: string)
    requires IsLowerWord(name) && IsTag(tag)
    ensures ImageOk(name) && ImageOk(name + ":" + tag)
  {
    assert IsWeave(IsLowerWord, IsSeparator, name, [name], []);
    assert IsComponent(name);
    assert IsWeave(IsComponent, x => x == "/", name, [name], []);
    assert IsPath(name);
    ImageExactly(name);
    ImageExactly(name + ":" + tag);
    assert IsReferenceOf(name, "", name, "", "");
    assert (":" + tag)[1..] == tag;
    assert IsReferenceOf(name + ":" + tag, "", name, ":" + tag, "");
  }

  // ----- all inputs -----

  predicate IsMapping(p: string, m: PortMapping.Mapping)
  {
    && PortMapping.WellFormed(m) && PortMapping.Render(m) == p
    && 1 <= Text.NumeralValue(m.host) && Text.NumeralValue(m.host) <= 65535
    && 1 <= Text.NumeralValue(m.container) && Text.NumeralValue(m.container) <= 65535
  }

  ghost predicate IsPortMapping(p: string) { exists m :: IsMapping(p, m) }

  predicate IsNameText(name: string)
  {
    && name != "" && IsAlnum(name[0])
    && forall i :: 1 <= i < |name| ==> IsAlnum(name[i]) || name[i] == '_' || name[i] == '.' || name[i] == '-'
  }

  lemma PortExactlyMapped(p: string)
    ensures PortMapping.Acceptable(p) <==> IsPortMapping(p)
  {
    PortMapping.AcceptableExactly(p);
    if PortMapping.Acceptable(p) {
      var m := PortMapping.Parse(p).value;
      PortMapping.ParseExactly(p, m);
      PortMapping.AcceptedExactlyInRange(m);
      assert IsMapping(p, m);
    }
    if m :| IsMapping(p, m) {
      PortMapping.AcceptedExactlyInRange(m);
    }
  }

  /** What a client may send: no name or a letter or digit with letters, digits, '_', '.' and '-' after it, an
      image reference, and port mappings with both ports from 1 to 65535. */
  lemma InputsExactly(name: string, image: string, ports: seq<string>)
    ensures InputsOk(name, image, ports) <==>
            && (name == "" || IsNameText(name)) && IsReference(image)
            && forall i :: 0 <= i < |ports| ==> IsPortMapping(ports[i])
  {
    NameExactly(name);
    assert NameOk(name) <==> name == "" || IsNameText(name);
    ImageExactly(image);
    forall i | 0 <= i < |ports|
      ensures PortMapping.Acceptable(ports[i]) <==> IsPortMapping(ports[i])
    {
      PortExactlyMapped(ports[i]);
    }
  }
}
