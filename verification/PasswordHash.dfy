/** Octets as machine words. */
module Bits {
  lemma AndBack(x: int)
    requires 0 <= x < 256
    ensures (x as bv8) as int == x
  {
  }
}

/** The auth service's password records: "$argon2id$v=..$m=..,t=..,p=..$salt$hash". Argon2id itself
    is a parameter, and so is the random salt. */
module PasswordHash {
  import opened Text
  import opened Base64
  import Bits

  /** Argon2id on (password, salt, time, memory, threads, key length); None is a panic. */
  type Kdf = (string, Octets, nat, nat, nat, nat) -> Option<Octets>

  const VERSION := 19
  const TIME := 3
  const MEMORY := 64 * 1024
  const THREADS := 4
  const KEY_LENGTH := 32

  datatype Record = Record(version: int, memory: int, time: int, threads: int, salt: Octets, hash: Octets)

  datatype Outcome<+T> = Done(value: T) | Failed | Panicked

  function Parameters(memory: nat, time: nat, threads: nat): string
  {
    "m=" + Decimal(memory) + ",t=" + Decimal(time) + ",p=" + Decimal(threads)
  }

  function Print(version: nat, memory: nat, time: nat, threads: nat, salt: Octets, hash: Octets): string
  {
    "$argon2id$v=" + Decimal(version) + "$" + Parameters(memory, time, threads)
    + "$" + Encode(salt) + "$" + Encode(hash)
  }

  /** salt is None when the random source fails. */
  function HashPassword(password: string, salt: Option<Octets>, kdf: Kdf): Outcome<string>
  {
    if salt.None? then Failed
    else
      match kdf(password, salt.value, TIME, MEMORY, THREADS, KEY_LENGTH)
      case None => Panicked
      case Some(hash) => Done(Print(VERSION, MEMORY, TIME, THREADS, salt.value, hash))
  }

  // ----- reading a record -----

  /** What scanning leaves to read, or a failure. */
  function ScanLiteral(s: string, literal: string): (r: Option<string>)
    ensures r.Some? <==> literal <= s
    ensures r.Some? ==> s == literal + r.value
  {
    if literal <= s then Some(s[|literal|..]) else None
  }

  predicate IsSpace(c: char)
  {
    '\t' <= c <= '\r' || c == ' ' || c == '\U{85}' || c == '\U{A0}' || c == '\U{1680}'
    || '\U{2000}' <= c <= '\U{200A}' || c == '\U{2028}' || c == '\U{2029}' || c == '\U{202F}'
    || c == '\U{205F}' || c == '\U{3000}'
  }

  function DigitRun(s: string): (n: nat)
    ensures n <= |s| && (forall i :: 0 <= i < n ==> IsDigit(s[i])) && (n < |s| ==> !IsDigit(s[n]))
  {
    if s == "" || !IsDigit(s[0]) then 0 else 1 + DigitRun(s[1..])
  }

  /** The "%d" verb: spaces but no newline, an optional sign, and digits that fit in 64 bits. */
  function ScanInt(s: string): Option<(int, string)>
  {
    if s == "" || s[0] == '\n' then None
    else if IsSpace(s[0]) then ScanInt(s[1..])
    else
      var signed := s[0] == '+' || s[0] == '-';
      var rest := if signed then s[1..] else s;
      var n := DigitRun(rest);
      if n == 0 then None
      else
        var value: int := if s[0] == '-' then 0 - NumeralValue(rest[..n]) else NumeralValue(rest[..n]);
        if -0x8000_0000_0000_0000 <= value < 0x8000_0000_0000_0000 then Some((value, rest[n..])) else None
  }

  function ScanField(s: string, prefix: string): Option<(int, string)>
  {
    match ScanLiteral(s, prefix)
    case None => None
    case Some(rest) => ScanInt(rest)
  }

  function ScanParameters(s: string): Option<(int, int, int)>
  {
    match ScanField(s, "m=")
    case None => None
    case Some((memory, s1)) =>
      match ScanField(s1, ",t=")
      case None => None
      case Some((time, s2)) =>
        match ScanField(s2, ",p=")
        case None => None
        case Some((threads, _)) => Some((memory, time, threads))
  }

  function ParseFields(version: string, parameters: string, salt: string, hash: string): Option<Record>
  {
    match (ScanField(version, "v="), ScanParameters(parameters), Decode(salt), Decode(hash))
    case (Some((v, _)), Some((m, t, p)), Some(s), Some(h)) => Some(Record(v, m, t, p, s, h))
    case _ => None
  }

  function Fields(encoded: string): Option<(string, string, string, string)>
  {
    var parts := Split(encoded, '$');
    if |parts| != 6 || parts[1] != "argon2id" then None else Some((parts[2], parts[3], parts[4], parts[5]))
  }

  function Parse(encoded: string): Option<Record>
  {
    match Fields(encoded)
    case None => None
    case Some((version, parameters, salt, hash)) => ParseFields(version, parameters, salt, hash)
  }

  /** The stored parameters in the integer widths Argon2id takes them. */
  function Recompute(password: string, r: Record, kdf: Kdf): Option<Octets>
  {
    kdf(password, r.salt, r.time % 0x1_0000_0000, r.memory % 0x1_0000_0000, r.threads % 256, |r.hash| % 0x1_0000_0000)
  }

  function Verification(password: string, encoded: string, kdf: Kdf): Outcome<bool>
  {
    match Parse(encoded)
    case None => Failed
    case Some(r) =>
      match Recompute(password, r, kdf)
      case None => Panicked
      case Some(computed) => Done(computed == r.hash)
  }

  lemma XorIsZero(x: Octet, y: Octet)
    ensures (x as bv8) ^ (y as bv8) == 0 <==> x == y
  {
    Bits.AndBack(x);
    Bits.AndBack(y);
  }

  /** The constant-time comparison: differences are collected bit by bit. */
  method SameBytes(a: Octets, b: Octets) returns (same: bool)
    ensures same <==> a == b
  {
    if |a| != |b| {
      return false;
    }
    var result: bv8 := 0;
    for i := 0 to |a|
      invariant result == 0 <==> a[..i] == b[..i]
    {
      XorIsZero(a[i], b[i]);
      assert a[..i + 1] == a[..i] + [a[i]] && b[..i + 1] == b[..i] + [b[i]];
      result := result | ((a[i] as bv8) ^ (b[i] as bv8));
    }
    assert a[..|a|] == a && b[..|b|] == b;
    return result == 0;
  }

  method VerifyPassword(password: string, encoded: string, kdf: Kdf) returns (r: Outcome<bool>)
    ensures r == Verification(password, encoded, kdf)
  {
    var parsed := Parse(encoded);
    if parsed.None? {
      return Failed;
    }
    var computed := Recompute(password, parsed.value, kdf);
    if computed.None? {
      return Panicked;
    }
    var same := SameBytes(computed.value, parsed.value.hash);
    return Done(same);
  }

  // ----- the reader undoes the printer -----

  lemma {:induction false} DigitRunOf(numeral: string, rest: string)
    requires forall i :: 0 <= i < |numeral| ==> IsDigit(numeral[i])
    requires rest == "" || !IsDigit(rest[0])
    ensures DigitRun(numeral + rest) == |numeral|
  {
    if numeral != "" {
      assert (numeral + rest)[1..] == numeral[1..] + rest;
      DigitRunOf(numeral[1..], rest);
    } else {
      assert numeral + rest == rest;
    }
  }

  lemma ScanNumeral(numeral: string, rest: string)
    requires IsNumeral(numeral) && NumeralValue(numeral) < 0x8000_0000_0000_0000
    requires rest == "" || !IsDigit(rest[0])
    ensures ScanInt(numeral + rest) == Some((NumeralValue(numeral), rest))
  {
    var s := numeral + rest;
    DigitRunOf(numeral, rest);
    assert s[0] == numeral[0] && IsDigit(s[0]);
    assert s[..|numeral|] == numeral && s[|numeral|..] == rest;
  }

  lemma ScanPrinted(prefix: string, n: nat, rest: string)
    requires n < 0x8000_0000_0000_0000
    requires rest == "" || !IsDigit(rest[0])
    ensures ScanField(prefix + (Decimal(n) + rest), prefix) == Some((n, rest))
  {
    DecimalRoundTrip(n);
    ScanNumeral(Decimal(n), rest);
    assert (prefix + (Decimal(n) + rest))[|prefix|..] == Decimal(n) + rest;
  }

  lemma ParametersScan(memory: nat, time: nat, threads: nat)
    requires memory < 0x8000_0000_0000_0000 && time < 0x8000_0000_0000_0000 && threads < 0x8000_0000_0000_0000
    ensures ScanParameters(Parameters(memory, time, threads)) == Some((memory, time, threads))
  {
    var s3 := ",p=" + (Decimal(threads) + "");
    var s2 := ",t=" + (Decimal(time) + s3);
    assert Parameters(memory, time, threads) == "m=" + (Decimal(memory) + s2);
    assert !IsDigit(s2[0]) && !IsDigit(s3[0]);
    ScanPrinted("m=", memory, s2);
    ScanPrinted(",t=", time, s3);
    ScanPrinted(",p=", threads, "");
  }

  lemma FieldsParse(v: string, p: string, salt: string, hash: string, r: Record)
    requires ScanField(v, "v=") == Some((r.version, ""))
    requires ScanParameters(p) == Some((r.memory, r.time, r.threads))
    requires Decode(salt) == Some(r.salt) && Decode(hash) == Some(r.hash)
    ensures ParseFields(v, p, salt, hash) == Some(r)
  {
  }

  lemma FieldsOf(encoded: string, v: string, p: string, salt: string, hash: string)
    requires Split(encoded, '$') == ["", "argon2id", v, p, salt, hash]
    ensures Fields(encoded) == Some((v, p, salt, hash))
  {
  }

  lemma SplitPrinted(version: nat, memory: nat, time: nat, threads: nat, salt: Octets, hash: Octets)
    ensures Split(Print(version, memory, time, threads, salt, hash), '$')
         == ["", "argon2id", "v=" + Decimal(version), Parameters(memory, time, threads), Encode(salt), Encode(hash)]
  {
    RoundTrip(salt);
    RoundTrip(hash);
    NoDollar(version, memory, time, threads);
    var v, p := "v=" + Decimal(version), Parameters(memory, time, threads);
    JoinSix("", "argon2id", v, p, Encode(salt), Encode(hash));
    SplitJoin(["", "argon2id", v, p, Encode(salt), Encode(hash)], '$');
    assert "" + "$" + "argon2id" + "$" + v == "$argon2id$v=" + Decimal(version);
  }

  /** Every record within the integer widths of the reader is read back as it was printed. */
  lemma ParsePrinted(version: nat, memory: nat, time: nat, threads: nat, salt: Octets, hash: Octets, encoded: string)
    requires version < 0x8000_0000_0000_0000 && memory < 0x8000_0000_0000_0000
    requires time < 0x8000_0000_0000_0000 && threads < 0x8000_0000_0000_0000
    requires encoded == Print(version, memory, time, threads, salt, hash)
    ensures Parse(encoded) == Some(Record(version, memory, time, threads, salt, hash))
  {
    RoundTrip(salt);
    RoundTrip(hash);
    ScanPrinted("v=", version, "");
    assert Decimal(version) + "" == Decimal(version);
    ParametersScan(memory, time, threads);
    SplitPrinted(version, memory, time, threads, salt, hash);
    var v, p := "v=" + Decimal(version), Parameters(memory, time, threads);
    FieldsOf(encoded, v, p, Encode(salt), Encode(hash));
    FieldsParse(v, p, Encode(salt), Encode(hash), Record(version, memory, time, threads, salt, hash));
  }

  lemma JoinSix(a: string, b: string, c: string, d: string, e: string, f: string)
    ensures Join([a, b, c, d, e, f], "$") == a + "$" + b + "$" + c + "$" + d + "$" + e + "$" + f
  {
    assert [a, b, c, d, e, f][1..] == [b, c, d, e, f];
    assert [b, c, d, e, f][1..] == [c, d, e, f];
    assert [c, d, e, f][1..] == [d, e, f];
    assert [d, e, f][1..] == [e, f];
    assert Join([e, f], "$") == e + "$" + f;
    assert Join([d, e, f], "$") == d + "$" + (e + "$" + f);
    assert Join([c, d, e, f], "$") == c + "$" + (d + "$" + (e + "$" + f));
    assert Join([b, c, d, e, f], "$") == b + "$" + (c + "$" + (d + "$" + (e + "$" + f)));
  }

  lemma NoDollar(version: nat, memory: nat, time: nat, threads: nat)
    ensures '$' !in "v=" + Decimal(version)
    ensures '$' !in Parameters(memory, time, threads)
  {
    assert '$' !in Decimal(version) && '$' !in Decimal(memory) && '$' !in Decimal(time) && '$' !in Decimal(threads);
  }

  /** A password is accepted against the record of another exactly when Argon2id gives both the same
      key under that record's salt; in particular a password is always accepted against its own. */
  lemma HashedPasswordVerifies(password: string, attempt: string, salt: Octets, kdf: Kdf, encoded: string)
    requires HashPassword(password, Some(salt), kdf) == Done(encoded)
    requires |kdf(password, salt, TIME, MEMORY, THREADS, KEY_LENGTH).value| == KEY_LENGTH
    ensures Verification(attempt, encoded, kdf)
         == (match kdf(attempt, salt, TIME, MEMORY, THREADS, KEY_LENGTH)
             case None => Panicked
             case Some(key) => Done(Some(key) == kdf(password, salt, TIME, MEMORY, THREADS, KEY_LENGTH)))
    ensures Verification(password, encoded, kdf) == Done(true)
  {
    var hash := kdf(password, salt, TIME, MEMORY, THREADS, KEY_LENGTH).value;
    ParsePrinted(VERSION, MEMORY, TIME, THREADS, salt, hash, encoded);
    RecomputeDefaults(attempt, salt, hash, kdf);
    RecomputeDefaults(password, salt, hash, kdf);
    VerificationOf(attempt, encoded, Record(VERSION, MEMORY, TIME, THREADS, salt, hash), kdf);
    VerificationOf(password, encoded, Record(VERSION, MEMORY, TIME, THREADS, salt, hash), kdf);
  }

  lemma RecomputeDefaults(password: string, salt: Octets, hash: Octets, kdf: Kdf)
    requires |hash| == KEY_LENGTH
    ensures Recompute(password, Record(VERSION, MEMORY, TIME, THREADS, salt, hash), kdf)
         == kdf(password, salt, TIME, MEMORY, THREADS, KEY_LENGTH)
  {
  }

  lemma VerificationOf(password: string, encoded: string, r: Record, kdf: Kdf)
    requires Parse(encoded) == Some(r)
    ensures Verification(password, encoded, kdf)
         == (match Recompute(password, r, kdf)
             case None => Panicked
             case Some(computed) => Done(computed == r.hash))
  {
  }

  /** What a new record looks like, and the costs its key was derived with. */
  lemma RecordShape(password: string, salt: Option<Octets>, kdf: Kdf, encoded: string)
    ensures HashPassword(password, salt, kdf) == Done(encoded) <==>
            && salt.Some? && kdf(password, salt.value, 3, 65536, 4, 32).Some?
            && encoded == "$argon2id$v=19$m=65536,t=3,p=4$" + Encode(salt.value) + "$"
                          + Encode(kdf(password, salt.value, 3, 65536, 4, 32).value)
  {
    if salt.Some? && kdf(password, salt.value, 3, 65536, 4, 32).Some? {
      var hash := kdf(password, salt.value, 3, 65536, 4, 32).value;
      PrintedPrefix();
      assert Print(19, 65536, 3, 4, salt.value, hash)
          == "$argon2id$v=" + Decimal(19) + "$" + Parameters(65536, 3, 4) + "$" + Encode(salt.value) + "$" + Encode(hash);
    }
  }

  lemma PrintedPrefix()
    ensures "$argon2id$v=" + Decimal(19) + "$" + Parameters(65536, 3, 4) + "$" == "$argon2id$v=19$m=65536,t=3,p=4$"
  {
    DecimalOf65536();
    assert Decimal(19) == "19" && Decimal(3) == "3" && Decimal(4) == "4";
  }

  lemma DecimalOf65536()
    ensures Decimal(65536) == "65536"
  {
    assert Decimal(65) == "65";
    assert Decimal(655) == "655";
    assert Decimal(6553) == "6553";
  }

  /** Exactly these texts are refused as no record at all; every other one is verified. */
  lemma RefusedRecords(password: string, encoded: string, kdf: Kdf)
    ensures var parts := Split(encoded, '$');
            Verification(password, encoded, kdf) != Failed <==>
              && |parts| == 6 && parts[1] == "argon2id"
              && ScanField(parts[2], "v=").Some? && ScanParameters(parts[3]).Some?
              && Decode(parts[4]).Some? && Decode(parts[5]).Some?
  {
  }

  /** The version is read and then not looked at, and the costs count in the widths Argon2id takes them:
      records that agree otherwise verify alike. */
  lemma OnlyTheseMatter(attempt: string, first: Record, second: Record, kdf: Kdf, one: string, other: string)
    requires first.salt == second.salt && first.hash == second.hash
    requires first.time % 0x1_0000_0000 == second.time % 0x1_0000_0000
    requires first.memory % 0x1_0000_0000 == second.memory % 0x1_0000_0000 && first.threads % 0x100 == second.threads % 0x100
    requires Parse(one) == Some(first) && Parse(other) == Some(second)
    ensures Verification(attempt, one, kdf) == Verification(attempt, other, kdf)
  {
  }
}
