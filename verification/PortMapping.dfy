/** Published ports: "[a.b.c.d:]host:container[/tcp|/udp]". The pattern, its grammar, and the
    range check on the two captured port numbers. */
module PortMapping {
  import opened Text
  import opened Regex

  const DIGIT: seq<(char, char)> := [('0', '9')]

  function Octet(): Re { Rep(One(DIGIT), 1, 3) }

  function Port(): Re { Rep(One(DIGIT), 1, 5) }

  function HostAddress(): Re { Opt(Cat(Octet(), Cat(Rep(Cat(Char('.'), Octet()), 3, 3), Char(':')))) }

  function Protocol(): Re { Opt(Cat(Char('/'), Alt(Literal("tcp"), Literal("udp")))) }

  /** The two Port() parts are the capture groups. */
  function Pattern(): Re { Cat(HostAddress(), Cat(Port(), Cat(Char(':'), Cat(Port(), Protocol())))) }

  /** The captures of a match. */
  ghost predicate Groups(p: string, host: string, container: string)
  {
    exists pre, post ::
      && p == pre + (host + (":" + (container + post)))
      && Matches(HostAddress(), pre) && Matches(Port(), host)
      && Matches(Port(), container) && Matches(Protocol(), post)
  }

  // ----- the grammar -----

  datatype Mapping = Mapping(ip: Option<(string, string, string, string)>, host: string, container: string, protocol: Option<string>)

  predicate IsNumber(s: string, most: nat) { IsNumeral(s) && |s| <= most }

  predicate WellFormed(m: Mapping)
  {
    && (m.ip.Some? ==> IsNumber(m.ip.value.0, 3) && IsNumber(m.ip.value.1, 3)
                       && IsNumber(m.ip.value.2, 3) && IsNumber(m.ip.value.3, 3))
    && IsNumber(m.host, 5) && IsNumber(m.container, 5)
    && (m.protocol.Some? ==> m.protocol.value == "tcp" || m.protocol.value == "udp")
  }

  function AddressText(ip: Option<(string, string, string, string)>): string
  {
    match ip
    case None => ""
    case Some((a, b, c, d)) => (a + (("." + b) + (("." + c) + ("." + d)))) + ":"
  }

  function ProtocolText(protocol: Option<string>): string
  {
    match protocol
    case None => ""
    case Some(t) => "/" + t
  }

  function Render(m: Mapping): string
  {
    AddressText(m.ip) + (m.host + (":" + (m.container + ProtocolText(m.protocol))))
  }

  function ReadAddress(s: string): Option<(string, string, string, string)>
  {
    var octets := Split(s, '.');
    if |octets| == 4 then Some((octets[0], octets[1], octets[2], octets[3])) else None
  }

  function ReadTail(s: string): Option<(string, Option<string>)>
  {
    var parts := Split(s, '/');
    if |parts| == 1 then Some((parts[0], None))
    else if |parts| == 2 then Some((parts[0], Some(parts[1])))
    else None
  }

  function Assemble(ip: Option<(string, string, string, string)>, host: string, tail: string): Option<Mapping>
  {
    match ReadTail(tail)
    case None => None
    case Some((container, protocol)) =>
      var m := Mapping(ip, host, container, protocol);
      if WellFormed(m) then Some(m) else None
  }

  /** Reading a mapping by splitting at ':', '.' and '/'. */
  function Parse(p: string): Option<Mapping>
  {
    var parts := Split(p, ':');
    if |parts| == 2 then Assemble(None, parts[0], parts[1])
    else if |parts| == 3 && ReadAddress(parts[0]).Some? then Assemble(ReadAddress(parts[0]), parts[1], parts[2])
    else None
  }

  lemma NumberHasNone(s: string, most: nat, c: char)
    requires IsNumber(s, most) && !IsDigit(c)
    ensures c !in s
  {
  }

  lemma ParseTail(container: string, protocol: Option<string>)
    requires IsNumber(container, 5) && (protocol.Some? ==> protocol.value == "tcp" || protocol.value == "udp")
    ensures ':' !in container + ProtocolText(protocol)
    ensures ReadTail(container + ProtocolText(protocol)) == Some((container, protocol))
  {
    NumberHasNone(container, 5, '/');
    NumberHasNone(container, 5, ':');
    if protocol.Some? {
      var t := protocol.value;
      assert t[0] != '/' && t[1] != '/' && t[2] != '/' && |t| == 3;
      SplitPiece(t, "", '/');
      SplitPiece(container, t, '/');
      assert container + ProtocolText(protocol) == container + "/" + t;
    } else {
      SplitPiece(container, "", '/');
      assert container + "" == container;
    }
  }

  lemma SplitMore(piece: string, rest: string, parts: seq<string>, sep: char)
    requires sep !in piece && Split(rest, sep) == parts
    ensures Split(piece + ([sep] + rest), sep) == [piece] + parts
  {
    assert piece + ([sep] + rest) == piece + [sep] + rest;
    SplitPiece(piece, rest, sep);
  }

  lemma ParseAddress(a: string, b: string, c: string, d: string)
    requires IsNumber(a, 3) && IsNumber(b, 3) && IsNumber(c, 3) && IsNumber(d, 3)
    ensures Split(a + (("." + b) + (("." + c) + ("." + d))), '.') == [a, b, c, d]
  {
    SplitPiece(d, "", '.');
    SplitMore(c, d, [d], '.');
    var cd := c + (['.'] + d);
    SplitMore(b, cd, [c, d], '.');
    var bcd := b + (['.'] + cd);
    SplitMore(a, bcd, [b, c, d], '.');
    DotsAssociate(a, b, c, d);
  }

  lemma DotsAssociate(a: string, b: string, c: string, d: string)
    ensures a + (("." + b) + (("." + c) + ("." + d))) == a + (['.'] + (b + (['.'] + (c + (['.'] + d)))))
  {
  }

  lemma AddressHasNoColon(a: string, b: string, c: string, d: string)
    requires IsNumber(a, 3) && IsNumber(b, 3) && IsNumber(c, 3) && IsNumber(d, 3)
    ensures ':' !in a + (("." + b) + (("." + c) + ("." + d)))
  {
  }

  /** Every well-formed mapping is read back from its text. */
  lemma ParseRendered(m: Mapping)
    requires WellFormed(m)
    ensures Parse(Render(m)) == Some(m)
  {
    var tail := m.container + ProtocolText(m.protocol);
    ParseTail(m.container, m.protocol);
    NumberHasNone(m.host, 5, ':');
    SplitPiece(tail, "", ':');
    SplitMore(m.host, tail, [tail], ':');
    var ports := m.host + ([':'] + tail);
    if m.ip.Some? {
      var (a, b, c, d) := m.ip.value;
      var address := a + (("." + b) + (("." + c) + ("." + d)));
      ParseAddress(a, b, c, d);
      AddressHasNoColon(a, b, c, d);
      SplitMore(address, ports, [m.host, tail], ':');
      assert Render(m) == address + ([':'] + ports);
    } else {
      assert Render(m) == ports;
    }
  }

  lemma JoinFour(a: string, b: string, c: string, d: string)
    ensures Join([a, b, c, d], ".") == a + (("." + b) + (("." + c) + ("." + d)))
  {
    assert [a, b, c, d][1..] == [b, c, d];
    assert [b, c, d][1..] == [c, d];
    assert [c, d][1..] == [d];
    assert Join([c, d], ".") == c + "." + Join([d], ".");
    assert Join([b, c, d], ".") == b + "." + Join([c, d], ".");
  }

  lemma JoinTwo(s: string, sep: char)
    requires |Split(s, sep)| == 2
    ensures s == Split(s, sep)[0] + ([sep] + Split(s, sep)[1])
  {
    JoinSplit(s, sep);
    var parts := Split(s, sep);
    assert parts == [parts[0], parts[1]];
  }

  lemma JoinThree(s: string, sep: char)
    requires |Split(s, sep)| == 3
    ensures s == Split(s, sep)[0] + ([sep] + (Split(s, sep)[1] + ([sep] + Split(s, sep)[2])))
  {
    JoinSplit(s, sep);
    var parts := Split(s, sep);
    assert parts[1..] == [parts[1], parts[2]];
    assert Join(parts[1..], [sep]) == parts[1] + [sep] + parts[2];
  }

  lemma AddressRead(s: string)
    requires ReadAddress(s).Some?
    ensures AddressText(ReadAddress(s)) == s + ":"
  {
    JoinSplit(s, '.');
    var o := Split(s, '.');
    assert o == [o[0], o[1], o[2], o[3]];
    JoinFour(o[0], o[1], o[2], o[3]);
  }

  lemma TailRead(s: string)
    requires ReadTail(s).Some?
    ensures s == ReadTail(s).value.0 + ProtocolText(ReadTail(s).value.1)
  {
    if |Split(s, '/')| == 2 {
      JoinTwo(s, '/');
    } else {
      JoinSplit(s, '/');
      assert s + "" == s;
    }
  }

  /** Whatever is read renders to the text it was read from. */
  lemma RenderParsed(p: string)
    requires Parse(p).Some?
    ensures WellFormed(Parse(p).value) && Render(Parse(p).value) == p
  {
    var parts := Split(p, ':');
    TailRead(parts[|parts| - 1]);
    if |parts| == 3 {
      JoinThree(p, ':');
      AddressRead(parts[0]);
    } else {
      JoinTwo(p, ':');
    }
  }

  /** The decomposition of a text is unique, and reading finds it. */
  lemma ParseExactly(p: string, m: Mapping)
    ensures Parse(p) == Some(m) <==> WellFormed(m) && Render(m) == p
  {
    if Parse(p) == Some(m) {
      RenderParsed(p);
    }
    if WellFormed(m) && Render(m) == p {
      ParseRendered(m);
    }
  }

  // ----- the pattern and the grammar agree -----

  lemma NumberMatches(most: nat, s: string)
    requires most >= 1
    ensures Matches(Rep(One(DIGIT), 1, most), s) <==> IsNumber(s, most)
  {
    RepOfClass(DIGIT, 1, most, s);
    assert DIGIT[1..] == [];
    forall c
      ensures InRanges(DIGIT, c) <==> IsDigit(c)
    {
    }
  }

  lemma ThreeTimes(r: Re)
    ensures Rep(r, 3, 3) == Cat(r, Cat(r, Cat(r, Eps)))
  {
    assert Rep(r, 2, 2) == Cat(r, Rep(r, 1, 1));
    assert Rep(r, 1, 1) == Cat(r, Rep(r, 0, 0));
  }

  lemma DottedMatches(s: string)
    ensures Matches(Cat(Char('.'), Octet()), "." + s) <==> IsNumber(s, 3)
  {
    NumberMatches(3, s);
    CharMatches('.', ".");
    if IsNumber(s, 3) {
      CatMatches(Char('.'), Octet(), ".", s);
    }
    if Matches(Cat(Char('.'), Octet()), "." + s) {
      var x, y := CatSplits(Char('.'), Octet(), "." + s);
      CharMatches('.', x);
      assert y == ("." + s)[1..] == s;
    }
  }

  lemma DottedSplits(s: string) returns (d: string)
    requires Matches(Cat(Char('.'), Octet()), s)
    ensures s == "." + d && IsNumber(d, 3)
  {
    var x, y := CatSplits(Char('.'), Octet(), s);
    CharMatches('.', x);
    NumberMatches(3, y);
    d := y;
  }

  lemma AddressMatches(ip: Option<(string, string, string, string)>)
    requires WellFormed(Mapping(ip, "1", "1", None))
    ensures Matches(HostAddress(), AddressText(ip))
  {
    if ip.Some? {
      var (a, b, c, d) := ip.value;
      var dotted := Cat(Char('.'), Octet());
      NumberMatches(3, a);
      DottedMatches(b);
      DottedMatches(c);
      DottedMatches(d);
      ThreeTimes(dotted);
      CatMatches(dotted, Eps, "." + d, "");
      assert ("." + d) + "" == "." + d;
      CatMatches(dotted, Cat(dotted, Eps), "." + c, "." + d);
      CatMatches(dotted, Cat(dotted, Cat(dotted, Eps)), "." + b, ("." + c) + ("." + d));
      var rest := ("." + b) + (("." + c) + ("." + d));
      CharMatches(':', ":");
      CatMatches(Rep(dotted, 3, 3), Char(':'), rest, ":");
      CatMatches(Octet(), Cat(Rep(dotted, 3, 3), Char(':')), a, rest + ":");
      assert a + (rest + ":") == AddressText(ip);
    }
  }

  lemma AddressSplits(s: string) returns (ip: Option<(string, string, string, string)>)
    requires Matches(HostAddress(), s)
    ensures WellFormed(Mapping(ip, "1", "1", None)) && s == AddressText(ip)
  {
    if s == "" {
      ip := None;
    } else {
      var dotted := Cat(Char('.'), Octet());
      var a, s1 := CatSplits(Octet(), Cat(Rep(dotted, 3, 3), Char(':')), s);
      NumberMatches(3, a);
      var rest, colon := CatSplits(Rep(dotted, 3, 3), Char(':'), s1);
      CharMatches(':', colon);
      ThreeTimes(dotted);
      var t1, s2 := CatSplits(dotted, Cat(dotted, Cat(dotted, Eps)), rest);
      var t2, s3 := CatSplits(dotted, Cat(dotted, Eps), s2);
      var t3, s4 := CatSplits(dotted, Eps, s3);
      assert s3 == t3;
      var b := DottedSplits(t1);
      var c := DottedSplits(t2);
      var d := DottedSplits(t3);
      ip := Some((a, b, c, d));
      AddressShape(s, a, rest, ("." + b) + (("." + c) + ("." + d)));
    }
  }

  lemma AddressShape(s: string, a: string, rest: string, dotted: string)
    requires s == a + (rest + ":") && rest == dotted
    ensures s == (a + dotted) + ":"
  {
  }

  lemma ProtocolMatches(s: string)
    ensures Matches(Protocol(), s) <==> s == "" || s == "/tcp" || s == "/udp"
  {
    LiteralMatches("tcp", "tcp");
    LiteralMatches("udp", "udp");
    CharMatches('/', "/");
    var names := Alt(Literal("tcp"), Literal("udp"));
    CatMatches(Char('/'), names, "/", "tcp");
    CatMatches(Char('/'), names, "/", "udp");
    assert "/" + "tcp" == "/tcp" && "/" + "udp" == "/udp";
    if Matches(Cat(Char('/'), names), s) {
      var x, y := CatSplits(Char('/'), names, s);
      CharMatches('/', x);
      LiteralMatches("tcp", y);
      LiteralMatches("udp", y);
    }
  }

  lemma GroupsParse(p: string, host: string, container: string)
    requires Groups(p, host, container)
    ensures Parse(p).Some? && Parse(p).value.host == host && Parse(p).value.container == container
  {
    var pre, post :|
      && p == pre + (host + (":" + (container + post)))
      && Matches(HostAddress(), pre) && Matches(Port(), host)
      && Matches(Port(), container) && Matches(Protocol(), post);
    var ip := AddressSplits(pre);
    NumberMatches(5, host);
    NumberMatches(5, container);
    ProtocolMatches(post);
    var m := Mapping(ip, host, container, if post == "" then None else Some(post[1..]));
    assert post == ProtocolText(m.protocol);
    ParseExactly(p, m);
  }

  lemma GroupsAreParts(p: string, host: string, container: string)
    ensures Groups(p, host, container) <==>
              Parse(p).Some? && Parse(p).value.host == host && Parse(p).value.container == container
  {
    if Groups(p, host, container) {
      GroupsParse(p, host, container);
    }
    if Parse(p).Some? && Parse(p).value.host == host && Parse(p).value.container == container {
      var m := Parse(p).value;
      RenderParsed(p);
      AddressMatches(m.ip);
      NumberMatches(5, host);
      NumberMatches(5, container);
      ProtocolMatches(ProtocolText(m.protocol));
      assert p == AddressText(m.ip) + (host + (":" + (container + ProtocolText(m.protocol))));
    }
  }

  lemma PatternHasGroups(p: string)
    ensures Matches(Pattern(), p) <==> exists h, c :: Groups(p, h, c)
  {
    var r3 := Cat(Port(), Protocol());
    var r2 := Cat(Char(':'), r3);
    var r1 := Cat(Port(), r2);
    if Matches(Pattern(), p) {
      var pre, s1 := CatSplits(HostAddress(), r1, p);
      var h, s2 := CatSplits(Port(), r2, s1);
      var colon, s3 := CatSplits(Char(':'), r3, s2);
      CharMatches(':', colon);
      var c, post := CatSplits(Port(), Protocol(), s3);
      assert Groups(p, h, c);
    }
    if h, c :| Groups(p, h, c) {
      var pre, post :|
        && p == pre + (h + (":" + (c + post)))
        && Matches(HostAddress(), pre) && Matches(Port(), h)
        && Matches(Port(), c) && Matches(Protocol(), post);
      CharMatches(':', ":");
      CatMatches(Port(), Protocol(), c, post);
      CatMatches(Char(':'), r3, ":", c + post);
      CatMatches(Port(), r2, h, ":" + (c + post));
      CatMatches(HostAddress(), r1, pre, h + (":" + (c + post)));
    }
  }

  /** A text matches the pattern exactly when it has a grammatical reading, and the captures are those
      of that one reading. */
  lemma CapturesAreUnique(p: string, h1: string, c1: string, h2: string, c2: string)
    ensures Matches(Pattern(), p) <==> Parse(p).Some?
    ensures Groups(p, h1, c1) && Groups(p, h2, c2) ==> h1 == h2 && c1 == c2
  {
    PatternHasGroups(p);
    if Parse(p).Some? {
      GroupsAreParts(p, Parse(p).value.host, Parse(p).value.container);
    }
    if h, c :| Groups(p, h, c) {
      GroupsAreParts(p, h, c);
    }
    GroupsAreParts(p, h1, c1);
    GroupsAreParts(p, h2, c2);
  }

  // ----- the validator -----

  predicate InRange(numeral: string) { IsNumeral(numeral) && 1 <= NumeralValue(numeral) <= 65535 }

  /** An accepted port string: one grammatical reading with both port numbers in range. */
  ghost predicate Acceptable(p: string)
  {
    exists m :: WellFormed(m) && Render(m) == p && InRange(m.host) && InRange(m.container)
  }

  lemma AcceptableExactly(p: string)
    ensures Acceptable(p) <==> Parse(p).Some? && InRange(Parse(p).value.host) && InRange(Parse(p).value.container)
  {
    if m :| WellFormed(m) && Render(m) == p && InRange(m.host) && InRange(m.container) {
      ParseExactly(p, m);
    }
    if Parse(p).Some? {
      RenderParsed(p);
    }
  }

  /** A mapping of the grammar is accepted exactly when both its ports are from 1 to 65535. */
  lemma AcceptedExactlyInRange(m: Mapping)
    requires WellFormed(m)
    ensures Acceptable(Render(m)) <==>
              1 <= NumeralValue(m.host) && NumeralValue(m.host) <= 65535
              && 1 <= NumeralValue(m.container) && NumeralValue(m.container) <= 65535
  {
    ParseExactly(Render(m), m);
    AcceptableExactly(Render(m));
  }

  lemma FiveDigits(n: nat)
    requires n <= 65535
    ensures |Decimal(n)| <= 5
  {
    assert n / 10 <= 6553 && n / 10 / 10 <= 655 && n / 10 / 10 / 10 <= 65 && n / 10 / 10 / 10 / 10 <= 6;
    assert |Decimal(n / 10 / 10 / 10 / 10)| == 1;
    assert |Decimal(n / 10 / 10 / 10)| <= 2;
    assert |Decimal(n / 10 / 10)| <= 3;
    assert |Decimal(n / 10)| <= 4;
  }

  /** Every pair of port numbers, written in decimal, is accepted, and so it is with either protocol. */
  lemma PortPairsAreAccepted(host: nat, container: nat)
    requires 1 <= host <= 65535 && 1 <= container <= 65535
    ensures Acceptable(Decimal(host) + ":" + Decimal(container))
    ensures Acceptable(Decimal(host) + ":" + Decimal(container) + "/tcp")
    ensures Acceptable(Decimal(host) + ":" + Decimal(container) + "/udp")
  {
    FiveDigits(host);
    FiveDigits(container);
    DecimalRoundTrip(host);
    DecimalRoundTrip(container);
    var h, c := Decimal(host), Decimal(container);
    PlainText(h, c);
    AcceptedExactlyInRange(Mapping(None, h, c, None));
    AcceptedExactlyInRange(Mapping(None, h, c, Some("tcp")));
    AcceptedExactlyInRange(Mapping(None, h, c, Some("udp")));
  }

  lemma PlainText(h: string, c: string)
    ensures Render(Mapping(None, h, c, None)) == h + ":" + c
    ensures Render(Mapping(None, h, c, Some("tcp"))) == h + ":" + c + "/tcp"
    ensures Render(Mapping(None, h, c, Some("udp"))) == h + ":" + c + "/udp"
  {
  }

  method FindSubmatch(p: string) returns (r: Option<(string, string)>)
    ensures r.Some? <==> Matches(Pattern(), p)
    ensures r.Some? ==> Groups(p, r.value.0, r.value.1)
  {
    CapturesAreUnique(p, "", "", "", "");
    var m := Parse(p);
    if m.None? {
      return None;
    }
    GroupsAreParts(p, m.value.host, m.value.container);
    return Some((m.value.host, m.value.container));
  }

  method ValidatePortMapping(p: string) returns (ok: bool)
    ensures ok <==> Acceptable(p)
  {
    var found := FindSubmatch(p);
    CapturesAreUnique(p, "", "", "", "");
    AcceptableExactly(p);
    if found.None? {
      return false;
    }
    GroupsAreParts(p, found.value.0, found.value.1);
    RenderParsed(p);
    var ports := [found.value.0, found.value.1];
    for i := 0 to 2
      invariant forall k :: 0 <= k < i ==> InRange(ports[k])
    {
      var port := NumeralValue(ports[i]);
      if port < 1 || port > 65535 {
        return false;
      }
    }
    assert InRange(ports[0]) && InRange(ports[1]);
    return true;
  }
}
