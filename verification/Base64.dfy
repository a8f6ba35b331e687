/** Unpadded standard base64, sections 3.2 and 4 of RFC 4648, as base64.RawStdEncoding does it. */
module Base64 {
  import opened Text

  type Octet = b: int | 0 <= b < 256

  type Octets = seq<Octet>

  function SextetChar(v: nat): (c: char)
    requires v < 64
    ensures CharSextet(c) == Some(v)
  {
    if v < 26 then 'A' + v as char
    else if v < 52 then 'a' + (v - 26) as char
    else if v < 62 then '0' + (v - 52) as char
    else if v == 62 then '+'
    else '/'
  }

  function CharSextet(c: char): (r: Option<nat>)
    ensures r.Some? ==> r.value < 64
  {
    if 'A' <= c <= 'Z' then Some(c as int - 'A' as int)
    else if 'a' <= c <= 'z' then Some(c as int - 'a' as int + 26)
    else if '0' <= c <= '9' then Some(c as int - '0' as int + 52)
    else if c == '+' then Some(62)
    else if c == '/' then Some(63)
    else None
  }

  function Encode(b: Octets): string
  {
    if |b| == 0 then ""
    else if |b| == 1 then [SextetChar(b[0] / 4), SextetChar(b[0] % 4 * 16)]
    else if |b| == 2 then
      [SextetChar(b[0] / 4), SextetChar(b[0] % 4 * 16 + b[1] / 16), SextetChar(b[1] % 16 * 4)]
    else Group(b[0], b[1], b[2]) + Encode(b[3..])
  }

  function Group(x: Octet, y: Octet, z: Octet): (s: string)
    ensures |s| == 4
  {
    [SextetChar(x / 4), SextetChar(x % 4 * 16 + y / 16), SextetChar(y % 16 * 4 + z / 64), SextetChar(z % 64)]
  }

  /** Groups of four characters; a last group of two or three stands for one or two octets, and its
      unused low bits are ignored. */
  function DecodeGroups(s: string): Option<Octets>
  {
    if |s| == 0 then Some([])
    else if |s| == 1 then None
    else
      var first, second := CharSextet(s[0]), CharSextet(s[1]);
      if first.None? || second.None? then None
      else
        var o0 := first.value * 4 + second.value / 16;
        if |s| == 2 then Some([o0])
        else
          var third := CharSextet(s[2]);
          if third.None? then None
          else
            var o1 := second.value % 16 * 16 + third.value / 4;
            if |s| == 3 then Some([o0, o1])
            else
              var fourth := CharSextet(s[3]);
              if fourth.None? then None
              else
                match DecodeGroups(s[4..])
                case None => None
                case Some(rest) => Some([o0, o1, third.value % 4 * 64 + fourth.value] + rest)
  }

  function WithoutLineBreaks(s: string): string
  {
    if s == "" then ""
    else (if s[0] == '\r' || s[0] == '\n' then "" else [s[0]]) + WithoutLineBreaks(s[1..])
  }

  /** The decoder skips line breaks and refuses every other character outside the alphabet. */
  function Decode(s: string): Option<Octets> { DecodeGroups(WithoutLineBreaks(s)) }

  predicate InAlphabet(s: string) { forall i :: 0 <= i < |s| ==> CharSextet(s[i]).Some? }

  lemma {:induction false} AlphabetHasNoLineBreaks(s: string)
    requires InAlphabet(s)
    ensures WithoutLineBreaks(s) == s
  {
    if s != "" {
      AlphabetHasNoLineBreaks(s[1..]);
    }
  }

  lemma Regroup(x: Octet, y: Octet, z: Octet)
    ensures x / 4 < 64 && x % 4 * 16 + y / 16 < 64 && y % 16 * 4 + z / 64 < 64
    ensures x / 4 * 4 + (x % 4 * 16 + y / 16) / 16 == x
    ensures (x % 4 * 16 + y / 16) % 16 * 16 + (y % 16 * 4 + z / 64) / 4 == y
    ensures (y % 16 * 4 + z / 64) % 4 * 64 + z % 64 == z
  {
  }

  lemma FullGroup(x: Octet, y: Octet, z: Octet, rest: string)
    requires DecodeGroups(rest).Some?
    ensures DecodeGroups(Group(x, y, z) + rest) == Some([x, y, z] + DecodeGroups(rest).value)
    ensures InAlphabet(Group(x, y, z))
  {
    Regroup(x, y, z);
    var s := Group(x, y, z) + rest;
    var second, third := x % 4 * 16 + y / 16, y % 16 * 4 + z / 64;
    assert s[4..] == rest;
    assert CharSextet(s[0]) == Some(x / 4) && CharSextet(s[1]) == Some(second);
    assert CharSextet(s[2]) == Some(third) && CharSextet(s[3]) == Some(z % 64);
  }

  lemma OneOctet(x: Octet)
    ensures DecodeGroups(Encode([x])) == Some([x]) && InAlphabet(Encode([x]))
  {
    Regroup(x, 0, 0);
    var e := Encode([x]);
    assert |e| == 2 && CharSextet(e[0]) == Some(x / 4) && CharSextet(e[1]) == Some(x % 4 * 16);
    assert DecodeGroups(e) == Some([x / 4 * 4 + x % 4 * 16 / 16]);
  }

  lemma TwoOctets(x: Octet, y: Octet)
    ensures DecodeGroups(Encode([x, y])) == Some([x, y]) && InAlphabet(Encode([x, y]))
  {
    Regroup(x, y, 0);
    var e := Encode([x, y]);
    var second, third := x % 4 * 16 + y / 16, y % 16 * 4;
    assert |e| == 3 && CharSextet(e[0]) == Some(x / 4) && CharSextet(e[1]) == Some(second) && CharSextet(e[2]) == Some(third);
    assert DecodeGroups(e) == Some([x / 4 * 4 + second / 16, second % 16 * 16 + third / 4]);
  }

  lemma {:induction false} GroupsRoundTrip(b: Octets)
    ensures InAlphabet(Encode(b))
    ensures DecodeGroups(Encode(b)) == Some(b)
  {
    if |b| == 1 {
      OneOctet(b[0]);
      assert b == [b[0]];
    } else if |b| == 2 {
      TwoOctets(b[0], b[1]);
      assert b == [b[0], b[1]];
    } else if |b| >= 3 {
      GroupsRoundTrip(b[3..]);
      FullGroup(b[0], b[1], b[2], Encode(b[3..]));
      assert b == [b[0], b[1], b[2]] + b[3..];
    }
  }

  /** Decoding undoes encoding on every byte string. */
  lemma RoundTrip(b: Octets)
    ensures Decode(Encode(b)) == Some(b)
    ensures InAlphabet(Encode(b)) && '$' !in Encode(b)
  {
    GroupsRoundTrip(b);
    AlphabetHasNoLineBreaks(Encode(b));
  }

  // ----- the alphabet and the bits -----

  /** The standard alphabet, not the one for file names. */
  lemma Alphabet()
    ensures SextetChar(0) == 'A' && SextetChar(25) == 'Z' && SextetChar(26) == 'a' && SextetChar(51) == 'z'
    ensures SextetChar(52) == '0' && SextetChar(61) == '9' && SextetChar(62) == '+' && SextetChar(63) == '/'
    ensures forall v: nat :: v < 61 && v != 25 && v != 51 ==> SextetChar(v + 1) as int == SextetChar(v) as int + 1
  {
  }

  /** The value of characters as digits to the base 64, the first the most significant. */
  function Digits(s: string): (n: nat)
    requires InAlphabet(s)
  {
    if s == "" then 0 else Digits(s[..|s| - 1]) * 64 + CharSextet(s[|s| - 1]).value
  }

  lemma DigitsOf(s: string)
    requires InAlphabet(s) && 2 <= |s| <= 4
    ensures var d := seq(|s|, i requires 0 <= i < |s| => CharSextet(s[i]).value);
            Digits(s) == if |s| == 2 then d[0] * 64 + d[1]
                         else if |s| == 3 then (d[0] * 64 + d[1]) * 64 + d[2]
                         else ((d[0] * 64 + d[1]) * 64 + d[2]) * 64 + d[3]
  {
    var two, three := s[..2], if |s| >= 3 then s[..3] else s[..2];
    assert s[..1][..0] == "" && s[..1] == [s[0]];
    assert Digits(s[..1]) == CharSextet(s[0]).value;
    assert two[..1] == s[..1] && three[..2] == two;
    if |s| == 4 {
      assert s[..3] == three;
    } else {
      assert s == three;
    }
  }

  /** Three octets and their four characters are the same number of 24 bits; the last one or two octets
      are that number with four or two zero bits after it. */
  lemma SameBits(x: Octet, y: Octet, z: Octet)
    ensures InAlphabet(Group(x, y, z)) && Digits(Group(x, y, z)) == x * 65536 + y * 256 + z
    ensures InAlphabet(Encode([x, y])) && |Encode([x, y])| == 3 && Digits(Encode([x, y])) == (x * 256 + y) * 4
    ensures InAlphabet(Encode([x])) && |Encode([x])| == 2 && Digits(Encode([x])) == x * 16
  {
    FullGroup(x, y, z, "");
    TwoOctets(x, y);
    OneOctet(x);
    DigitsOf(Group(x, y, z));
    DigitsOf(Encode([x, y]));
    DigitsOf(Encode([x]));
  }

  /** A text is decoded exactly when what is left without line breaks is of the alphabet and does not end
      in a single character. */
  lemma DecodesExactly(s: string)
    ensures Decode(s).Some? <==> InAlphabet(WithoutLineBreaks(s)) && |WithoutLineBreaks(s)| % 4 != 1
  {
    GroupsDecodeExactly(WithoutLineBreaks(s));
  }

  lemma {:induction false} GroupsDecodeExactly(s: string)
    ensures DecodeGroups(s).Some? <==> InAlphabet(s) && |s| % 4 != 1
  {
    if |s| >= 4 {
      GroupsDecodeExactly(s[4..]);
      assert forall i :: 4 <= i < |s| ==> s[i] == s[4..][i - 4];
      assert forall i :: 0 <= i < |s| - 4 ==> s[4..][i] == s[i + 4];
    }
  }
}
