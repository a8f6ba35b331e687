/** Filling the gateway's upstream path templates with the values of route parameters. A character
    below 256 stands for one byte of a Go string. */
module PathTemplate {
  import opened Text

  type ByteString = s: string | forall i :: 0 <= i < |s| ==> s[i] as int < 256

  predicate IsUnreserved(c: char)
  {
    'a' <= c <= 'z' || 'A' <= c <= 'Z' || '0' <= c <= '9' || c == '-' || c == '_' || c == '.' || c == '~'
  }

  /** The bytes url.PathEscape leaves alone in a path segment. */
  predicate IsPlain(c: char)
  {
    IsUnreserved(c) || c == '$' || c == '&' || c == '+' || c == ':' || c == '=' || c == '@'
  }

  function HexDigit(d: nat): (c: char)
    requires d < 16
    ensures HexValue(c) == Some(d) && IsPlain(c)
  {
    if d < 10 then '0' + d as char else 'A' + (d - 10) as char
  }

  function HexValue(c: char): Option<nat>
  {
    if '0' <= c <= '9' then Some(c as int - '0' as int)
    else if 'A' <= c <= 'F' then Some(c as int - 'A' as int + 10)
    else if 'a' <= c <= 'f' then Some(c as int - 'a' as int + 10)
    else None
  }

  function EscapeByte(c: char): string
    requires c as int < 256
  {
    if IsPlain(c) then [c] else ['%', HexDigit(c as int / 16), HexDigit(c as int % 16)]
  }

  function PathEscape(s: ByteString): string
  {
    if s == "" then "" else EscapeByte(s[0]) + PathEscape(s[1..])
  }

  /** Percent-decoding, section 2.1 of RFC 3986: "%" and two hexadecimal digits stand for one byte. */
  function PercentDecode(s: string): Option<string>
  {
    if s == "" then Some("")
    else if s[0] != '%' then
      match PercentDecode(s[1..])
      case None => None
      case Some(rest) => Some([s[0]] + rest)
    else if |s| < 3 || HexValue(s[1]).None? || HexValue(s[2]).None? then None
    else
      match PercentDecode(s[3..])
      case None => None
      case Some(rest) => Some([(16 * HexValue(s[1]).value + HexValue(s[2]).value) as char] + rest)
  }

  /** A text that decodes to a value and has no character that could end its segment or the path. */
  ghost predicate StandsFor(text: string, value: string)
  {
    PercentDecode(text) == Some(value) && (value != "" ==> text != "") && '/' !in text && '?' !in text && '#' !in text
  }

  lemma ByteStands(c: char, text: string, value: string)
    requires c as int < 256 && StandsFor(text, value)
    ensures StandsFor(EscapeByte(c) + text, [c] + value)
  {
    var e, b := EscapeByte(c) + text, c as int;
    if IsPlain(c) {
      assert e[1..] == text;
    } else {
      assert e[0] == '%' && e[1] == HexDigit(b / 16) && e[2] == HexDigit(b % 16) && e[3..] == text;
      assert 16 * (b / 16) + b % 16 == b;
    }
  }

  lemma {:induction false} EscapedDecodes(v: ByteString)
    ensures StandsFor(PathEscape(v), v)
  {
    if v != "" {
      EscapedDecodes(v[1..]);
      ByteStands(v[0], PathEscape(v[1..]), v[1..]);
      assert [v[0]] + v[1..] == v;
    }
  }

  type Params = map<string, ByteString>

  function Param(params: Params, name: string): ByteString { if name in params then params[name] else "" }

  predicate IsParam(seg: string) { |seg| > 0 && seg[0] == ':' }

  predicate ContainsDotDot(v: string) { exists i :: 0 <= i < |v| - 1 && v[i] == '.' && v[i + 1] == '.' }

  /** Values that could leave their segment. */
  predicate Escapes(v: string) { '/' in v || '?' in v || '#' in v || ContainsDotDot(v) }

  function Segment(seg: string, params: Params): Option<string>
  {
    if !IsParam(seg) || Param(params, seg[1..]) == "" then Some(seg)
    else if Escapes(Param(params, seg[1..])) then None
    else Some(PathEscape(Param(params, seg[1..])))
  }

  function Segments(segs: seq<string>, params: Params): (r: Option<seq<string>>)
    ensures r.Some? <==> forall i :: 0 <= i < |segs| ==> Segment(segs[i], params).Some?
    ensures r.Some? ==> |r.value| == |segs|
    ensures r.Some? ==> forall i :: 0 <= i < |segs| ==> Segment(segs[i], params) == Some(r.value[i])
  {
    if segs == [] then Some([])
    else
      match (Segment(segs[0], params), Segments(segs[1..], params))
      case (Some(first), Some(rest)) => Some([first] + rest)
      case _ => None
  }

  /** The upstream path of a template, or nothing when a value is refused. */
  function Resolve(template: string, params: Params): Option<string>
  {
    match Segments(Split(template, '/'), params)
    case None => None
    case Some(segs) => Some(Join(segs, "/"))
  }

  lemma PlainTemplate(template: string, params: Params)
    requires ':' !in template
    ensures Resolve(template, params) == Some(template)
  {
    var segs := Split(template, '/');
    forall i | 0 <= i < |segs|
      ensures !IsParam(segs[i])
    {
      if IsParam(segs[i]) {
        SplitKeepsCharacters(template, '/', i, 0);
      }
    }
    var r := Segments(segs, params);
    assert r.value == segs;
    JoinSplit(template, '/');
  }

  lemma {:induction false} SplitKeepsCharacters(s: string, sep: char, i: nat, k: nat)
    requires i < |Split(s, sep)| && k < |Split(s, sep)[i]|
    ensures Split(s, sep)[i][k] in s
  {
    if s != "" {
      if s[0] == sep {
        SplitKeepsCharacters(s[1..], sep, i - 1, k);
      } else if i > 0 {
        SplitKeepsCharacters(s[1..], sep, i, k);
      } else if k > 0 {
        SplitKeepsCharacters(s[1..], sep, 0, k - 1);
      }
    }
  }

  method FillSegment(seg: string, params: Params) returns (filled: Option<string>)
    ensures filled == Segment(seg, params)
  {
    filled := Some(seg);
    if |seg| > 0 && seg[0] == ':' {
      var val := Param(params, seg[1..]);
      if val != "" {
        if '/' in val || '?' in val || '#' in val || ContainsDotDot(val) {
          return None;
        }
        filled := Some(PathEscape(val));
      }
    }
  }

  method ResolvePathParams(template: string, params: Params) returns (path: string, ok: bool)
    ensures ok <==> Resolve(template, params).Some?
    ensures path == if ok then Resolve(template, params).value else ""
  {
    if ':' !in template {
      PlainTemplate(template, params);
      return template, true;
    }
    var parts := Split(template, '/');
    var segments := new string[|parts|](i requires 0 <= i < |parts| => parts[i]);
    var i := 0;
    while i < segments.Length
      invariant 0 <= i <= segments.Length == |parts|
      invariant forall k :: 0 <= k < i ==> Segment(parts[k], params) == Some(segments[k])
      invariant forall k :: i <= k < |parts| ==> segments[k] == parts[k]
    {
      var filled := FillSegment(segments[i], params);
      if filled.None? {
        return "", false;
      }
      segments[i] := filled.value;
      i := i + 1;
    }
    assert segments[..] == Segments(parts, params).value;
    return Join(segments[..], "/"), true;
  }

  /** The segment is a parameter whose value holds a separator or two adjacent dots. */
  ghost predicate BreaksOut(seg: string, params: Params)
  {
    && |seg| > 0 && seg[0] == ':' && seg[1..] in params
    && var v := params[seg[1..]];
       || (exists k :: 0 <= k < |v| && (v[k] == '/' || v[k] == '?' || v[k] == '#'))
       || (exists k :: 0 <= k < |v| - 1 && v[k] == '.' && v[k + 1] == '.')
  }

  lemma BreaksOutIsRefused(seg: string, params: Params)
    ensures BreaksOut(seg, params) <==> Segment(seg, params).None?
  {
    if |seg| > 0 && seg[0] == ':' && seg[1..] in params {
      var v := params[seg[1..]];
      assert '/' in v || '?' in v || '#' in v <==> exists k :: 0 <= k < |v| && (v[k] == '/' || v[k] == '?' || v[k] == '#');
    }
  }

  lemma RefusedAt(template: string, params: Params, i: nat)
    requires i < |Split(template, '/')| && BreaksOut(Split(template, '/')[i], params)
    ensures Resolve(template, params).None?
  {
    var segs := Split(template, '/');
    BreaksOutIsRefused(segs[i], params);
    assert Segment(segs[i], params).None?;
    assert Segments(segs, params).None?;
  }

  lemma RefusedSomewhere(template: string, params: Params) returns (i: nat)
    requires Resolve(template, params).None?
    ensures i < |Split(template, '/')| && BreaksOut(Split(template, '/')[i], params)
  {
    var segs := Split(template, '/');
    assert Segments(segs, params).None?;
    i :| 0 <= i < |segs| && Segment(segs[i], params).None?;
    BreaksOutIsRefused(segs[i], params);
  }

  /** A path is refused exactly when the value of some parameter in it holds '/', '?', '#' or two adjacent
      dots. */
  lemma RefusedExactly(template: string, params: Params)
    ensures Resolve(template, params).None? <==>
              exists i :: 0 <= i < |Split(template, '/')| && BreaksOut(Split(template, '/')[i], params)
  {
    if Resolve(template, params).None? {
      var i := RefusedSomewhere(template, params);
      assert BreaksOut(Split(template, '/')[i], params);
    }
    forall i | 0 <= i < |Split(template, '/')| && BreaksOut(Split(template, '/')[i], params)
      ensures Resolve(template, params).None?
    {
      RefusedAt(template, params, i);
    }
  }

  /** What a resolved segment says: a parameter with a value decodes to that value and holds no
      character that could end the segment or the path; anything else is unchanged. */
  ghost predicate Stands(seg: string, params: Params, out: string)
  {
    if |seg| > 0 && seg[0] == ':' && seg[1..] in params && params[seg[1..]] != "" then StandsFor(out, params[seg[1..]])
    else out == seg
  }

  lemma SegmentStands(seg: string, params: Params, out: string)
    requires Segment(seg, params) == Some(out)
    ensures Stands(seg, params, out)
    ensures '/' !in seg ==> '/' !in out
  {
    if IsParam(seg) && Param(params, seg[1..]) != "" {
      EscapedDecodes(Param(params, seg[1..]));
    }
  }

  /** A text with two adjacent dots. */
  predicate HasDots(s: string) { exists k :: 0 <= k < |s| - 1 && s[k] == '.' && s[k + 1] == '.' }

  lemma DotsShift(first: string, rest: string)
    requires HasDots(rest)
    ensures HasDots(first + rest)
  {
    var k :| 0 <= k < |rest| - 1 && rest[k] == '.' && rest[k + 1] == '.';
    var i := |first| + k;
    assert (first + rest)[i] == '.' && (first + rest)[i + 1] == '.';
  }

  /** Escaping makes no dots: two adjacent ones in the escaped text were in the value. */
  lemma {:induction false} EscapedDots(v: ByteString)
    requires HasDots(PathEscape(v))
    ensures HasDots(v)
  {
    var e := PathEscape(v);
    var k :| 0 <= k < |e| - 1 && e[k] == '.' && e[k + 1] == '.';
    var first, rest := EscapeByte(v[0]), PathEscape(v[1..]);
    assert e == first + rest && v == [v[0]] + v[1..];
    if k >= |first| {
      assert rest[k - |first|] == '.' && rest[k - |first| + 1] == '.';
      EscapedDots(v[1..]);
      DotsShift([v[0]], v[1..]);
    } else {
      EscapedByteDots(v[0], k);
      assert rest[0] == e[1] == '.';
      EscapedByteDots(v[1], 0);
      assert v[1..][0] == v[1] && v[0] == '.' && v[1] == '.';
    }
  }

  lemma EscapedByteDots(c: char, k: nat)
    requires c as int < 256 && k < |EscapeByte(c)| && EscapeByte(c)[k] == '.'
    ensures c == '.' && k == 0 && |EscapeByte(c)| == 1
  {
  }

  lemma HexIsUpper(d: nat)
    requires d < 16
    ensures HexDigit(d) == "0123456789ABCDEF"[d]
  {
  }

  /** The characters a path segment keeps as they are: letters, digits and these marks. */
  lemma EscapesExactly(c: char)
    requires c as int < 256
    ensures EscapeByte(c) == [c] <==>
              'A' <= c <= 'Z' || 'a' <= c <= 'z' || '0' <= c <= '9' || c in "-_.~$&+:=@"
    ensures EscapeByte(c) != [c] ==>
              EscapeByte(c) == ['%', "0123456789ABCDEF"[c as int / 16], "0123456789ABCDEF"[c as int % 16]]
  {
    HexIsUpper(c as int / 16);
    HexIsUpper(c as int % 16);
  }

  /** No filled segment of a resolved path holds two adjacent dots, so none can climb out of its prefix. */
  lemma FilledSegmentsHaveNoDots(template: string, params: Params, path: string, i: nat)
    requires Resolve(template, params) == Some(path) && i < |Split(template, '/')|
    ensures i < |Split(path, '/')|
    ensures var seg := Split(template, '/')[i];
            |seg| > 0 && seg[0] == ':' && seg[1..] in params && params[seg[1..]] != "" ==> !HasDots(Split(path, '/')[i])
  {
    var segs := Split(template, '/');
    var outs := Segments(segs, params).value;
    OutsAreSegments(template, params, path);
    BreaksOutIsRefused(segs[i], params);
    var val := Param(params, if |segs[i]| > 0 then segs[i][1..] else "");
    if HasDots(PathEscape(val)) {
      EscapedDots(val);
    }
  }

  /** A resolved path has exactly the segments of its template, each standing for its own one. */
  lemma ResolvedSegments(template: string, params: Params, path: string)
    requires Resolve(template, params) == Some(path)
    ensures |Split(path, '/')| == |Split(template, '/')|
    ensures forall i :: 0 <= i < |Split(template, '/')| ==>
              Stands(Split(template, '/')[i], params, Split(path, '/')[i])
  {
    var segs := Split(template, '/');
    var outs := Segments(segs, params).value;
    OutsAreSegments(template, params, path);
    forall i | 0 <= i < |segs|
      ensures Stands(segs[i], params, outs[i])
    {
      SegmentStands(segs[i], params, outs[i]);
    }
  }

  lemma OutsAreSegments(template: string, params: Params, path: string)
    requires Resolve(template, params) == Some(path)
    ensures Split(path, '/') == Segments(Split(template, '/'), params).value
  {
    var segs := Split(template, '/');
    var outs := Segments(segs, params).value;
    forall i | 0 <= i < |segs|
      ensures '/' !in outs[i]
    {
      SegmentStands(segs[i], params, outs[i]);
    }
    SplitJoin(outs, '/');
  }
}
