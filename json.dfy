/** The JSON layer of the save envelope: a JSON value of integers, strings
    and objects, `JSON.stringify` (compact form, members in insertion order,
    string escapes of section 7 of RFC 8259 as ECMAScript's QuoteJSONString
    writes them) and the part of `JSON.parse` that reads what stringify writes. */
module Json {
  import opened Js

  datatype Json = JNum(n: int) | JStr(s: string) | JObj(members: seq<Member>)
  datatype Member = Member(key: string, value: Json)

  // ------------------------------------------------------------ stringify

  function DigitChar(d: int): char
    requires 0 <= d < 10
  {
    ('0' as int + d) as char
  }

  predicate IsDigit(c: char)
  {
    '0' <= c <= '9'
  }

  function DigitValue(c: char): int
    requires IsDigit(c)
  {
    c as int - '0' as int
  }

  /** Decimal text of a natural number, no leading zeros. */
  function NatText(n: nat): (s: string)
    ensures |s| > 0
    ensures forall i :: 0 <= i < |s| ==> IsDigit(s[i])
    ensures s[0] == '0' ==> n == 0
  {
    if n < 10 then [DigitChar(n)] else NatText(n / 10) + [DigitChar(n % 10)]
  }

  /** Number::toString on an integral value (below 10^21 in magnitude). */
  function IntText(n: int): string
  {
    if n < 0 then "-" + NatText(-n) else NatText(n)
  }

  function HexDigit(d: int): char
    requires 0 <= d < 16
  {
    if d < 10 then DigitChar(d) else ('a' as int + (d - 10)) as char
  }

  /** QuoteJSONString's escape of one code point. */
  function EscapeChar(c: char): string
  {
    if c == '"' then "\\\""
    else if c == '\\' then "\\\\"
    else if c as int == 0x08 then "\\b"
    else if c == '\t' then "\\t"
    else if c == '\n' then "\\n"
    else if c as int == 0x0C then "\\f"
    else if c == '\r' then "\\r"
    else if c as int < 0x20 then "\\u00" + [HexDigit(c as int / 16), HexDigit(c as int % 16)]
    else [c]
  }

  function Escape(s: string): string
  {
    if |s| == 0 then "" else EscapeChar(s[0]) + Escape(s[1..])
  }

  function Quote(s: string): string
  {
    "\"" + Escape(s) + "\""
  }

  function Stringify(v: Json): string
    decreases v, 1
  {
    match v
    case JNum(n) => IntText(n)
    case JStr(s) => Quote(s)
    case JObj(ms) => if |ms| == 0 then "{}" else "{" + MembersText(v, 0) + "}"
  }

  /** The members of `obj` from index `i` on, comma separated. */
  function MembersText(obj: Json, i: nat): string
    requires obj.JObj? && i < |obj.members|
    decreases obj, 0, |obj.members| - i
  {
    var m := obj.members[i];
    Quote(m.key) + ":" + Stringify(m.value)
      + (if i + 1 < |obj.members| then "," + MembersText(obj, i + 1) else "")
  }

  // ---------------------------------------------------------------- parse

  datatype Parsed<+T> = Parsed(value: T, rest: string)

  function DigitSpan(s: string): (k: nat)
    ensures k <= |s|
    ensures forall i :: 0 <= i < k ==> IsDigit(s[i])
    ensures k < |s| ==> !IsDigit(s[k])
  {
    if |s| > 0 && IsDigit(s[0]) then 1 + DigitSpan(s[1..]) else 0
  }

  function DigitsValue(ds: string): nat
    requires forall i :: 0 <= i < |ds| ==> IsDigit(ds[i])
  {
    if |ds| == 0 then 0 else DigitsValue(ds[..|ds| - 1]) * 10 + DigitValue(ds[|ds| - 1])
  }

  /** The magnitude of a JSON number: `0`, or a non-zero digit and more digits. */
  function ParseMagnitude(t: string): (r: Option<Parsed<nat>>)
    ensures r.Some? ==> |r.value.rest| < |t|
  {
    if |t| == 0 || !IsDigit(t[0]) then None
    else
      var k := if t[0] == '0' then 1 else DigitSpan(t);
      Some(Parsed(DigitsValue(t[..k]), t[k..]))
  }

  /** A fraction or exponent part follows (outside the modelled subset), or a
      digit after a leading zero (invalid JSON). */
  predicate NumberContinues(rest: string)
  {
    |rest| > 0 && (rest[0] == '.' || rest[0] == 'e' || rest[0] == 'E' || IsDigit(rest[0]))
  }

  /** A number without sign. */
  function ParseUnsigned(t: string): (r: Result<Parsed<int>>)
    ensures r.Ok? ==> |r.value.rest| < |t|
  {
    match ParseMagnitude(t)
    case None => Err(SyntaxError)
    case Some(p) => if NumberContinues(p.rest) then Err(SyntaxError) else Ok(Parsed(p.value, p.rest))
  }

  /** An integer: `-`? and a magnitude. */
  function ParseNumber(s: string): (r: Result<Parsed<Json>>)
    ensures r.Ok? ==> |r.value.rest| < |s|
  {
    var neg := |s| > 0 && s[0] == '-';
    match ParseUnsigned(if neg then s[1..] else s)
    case Err(e) => Err(e)
    case Ok(p) => Ok(Parsed(JNum(if neg then -p.value else p.value), p.rest))
  }

  function HexValue(c: char): (r: Option<int>)
    ensures r.Some? ==> 0 <= r.value < 16
  {
    if '0' <= c <= '9' then Some(c as int - '0' as int)
    else if 'a' <= c <= 'f' then Some(c as int - 'a' as int + 10)
    else if 'A' <= c <= 'F' then Some(c as int - 'A' as int + 10)
    else None
  }

  /** The code point of a `\uXXXX` escape; surrogate halves are outside the
      modelled subset. */
  function UnicodeEscape(h: string): Option<char>
    requires |h| == 4
  {
    match (HexValue(h[0]), HexValue(h[1]), HexValue(h[2]), HexValue(h[3]))
    case (Some(a), Some(b), Some(c), Some(d)) =>
      var cp := ((a * 16 + b) * 16 + c) * 16 + d;
      if 0xD800 <= cp < 0xE000 then None else Some(cp as char)
    case _ => None
  }

  /** The body of a string literal, after its opening quote, up to and
      including the closing quote. */
  function ParseStringBody(s: string): (r: Result<Parsed<string>>)
    ensures r.Ok? ==> |r.value.rest| < |s|
  {
    if |s| == 0 then Err(SyntaxError)
    else if s[0] == '"' then Ok(Parsed("", s[1..]))
    else if s[0] as int < 0x20 then Err(SyntaxError)
    else if s[0] != '\\' then
      match ParseStringBody(s[1..])
      case Err(e) => Err(e)
      case Ok(p) => Ok(Parsed([s[0]] + p.value, p.rest))
    else if |s| < 2 then Err(SyntaxError)
    else
      var e := s[1];
      var decoded: Option<(char, nat)> :=
        if e == '"' then Some(('"', 2))
        else if e == '\\' then Some(('\\', 2))
        else if e == '/' then Some(('/', 2))
        else if e == 'b' then Some((8 as char, 2))
        else if e == 'f' then Some((12 as char, 2))
        else if e == 'n' then Some(('\n', 2))
        else if e == 'r' then Some(('\r', 2))
        else if e == 't' then Some(('\t', 2))
        else if e == 'u' && |s| >= 6 then
          match UnicodeEscape(s[2..6])
          case Some(c) => Some((c, 6))
          case None => None
        else None;
      match decoded
      case None => Err(SyntaxError)
      case Some((c, n)) =>
        match ParseStringBody(s[n..])
        case Err(e) => Err(e)
        case Ok(p) => Ok(Parsed([c] + p.value, p.rest))
  }

  function ParseValue(s: string): (r: Result<Parsed<Json>>)
    ensures r.Ok? ==> |r.value.rest| < |s|
    decreases |s|, 2
  {
    if |s| == 0 then Err(SyntaxError)
    else if s[0] == '"' then
      match ParseStringBody(s[1..])
      case Err(e) => Err(e)
      case Ok(p) => Ok(Parsed(JStr(p.value), p.rest))
    else if s[0] == '{' then ParseObject(s[1..])
    else ParseNumber(s)
  }

  /** An object, after its opening brace. */
  function ParseObject(s: string): (r: Result<Parsed<Json>>)
    ensures r.Ok? ==> |r.value.rest| < |s|
    decreases |s|, 1
  {
    if |s| > 0 && s[0] == '}' then Ok(Parsed(JObj([]), s[1..]))
    else ParseMembers(s, [])
  }

  /** Members after `{` or `,`: the members read so far are `acc`. */
  function ParseMembers(s: string, acc: seq<Member>): (r: Result<Parsed<Json>>)
    ensures r.Ok? ==> |r.value.rest| < |s|
    decreases |s|, 0
  {
    if |s| == 0 || s[0] != '"' then Err(SyntaxError)
    else match ParseStringBody(s[1..])
      case Err(e) => Err(e)
      case Ok(k) =>
        if |k.rest| == 0 || k.rest[0] != ':' then Err(SyntaxError)
        else match ParseValue(k.rest[1..])
          case Err(e) => Err(e)
          case Ok(v) =>
            var ms := acc + [Member(k.value, v.value)];
            if |v.rest| > 0 && v.rest[0] == ',' then ParseMembers(v.rest[1..], ms)
            else if |v.rest| > 0 && v.rest[0] == '}' then Ok(Parsed(JObj(ms), v.rest[1..]))
            else Err(SyntaxError)
  }

  /** `JSON.parse` on the modelled subset: one value and nothing after it. */
  function Parse(s: string): Result<Json>
  {
    match ParseValue(s)
    case Err(e) => Err(e)
    case Ok(p) => if p.rest == "" then Ok(p.value) else Err(SyntaxError)
  }

  /** Property lookup `v[key]` on a parsed value: for a duplicated key the
      last member wins, as in JSON.parse; a number or string has none of the
      keys the envelope uses, so the lookup is undefined (None). */
  function Property(v: Json, key: string): (r: Option<Json>)
    ensures r.Some? ==> v.JObj? && (exists i :: 0 <= i < |v.members| && v.members[i] == Member(key, r.value) &&
                                               forall j :: i < j < |v.members| ==> v.members[j].key != key)
    ensures r.None? ==> !v.JObj? || forall i :: 0 <= i < |v.members| ==> v.members[i].key != key
  {
    if v.JObj? then LastWithKey(v.members, key) else None
  }

  function LastWithKey(ms: seq<Member>, key: string): (r: Option<Json>)
    ensures r.Some? ==> exists i :: 0 <= i < |ms| && ms[i] == Member(key, r.value) &&
                                    forall j :: i < j < |ms| ==> ms[j].key != key
    ensures r.None? ==> forall i :: 0 <= i < |ms| ==> ms[i].key != key
  {
    if |ms| == 0 then None
    else if ms[|ms| - 1].key == key then Some(ms[|ms| - 1].value)
    else LastWithKey(ms[..|ms| - 1], key)
  }

  /** Members after the last one with `key` do not change the lookup. */
  lemma {:induction false} LastWithKeySkip(a: seq<Member>, b: seq<Member>, key: string)
    requires forall i :: 0 <= i < |b| ==> b[i].key != key
    ensures LastWithKey(a + b, key) == LastWithKey(a, key)
    decreases |b|
  {
    if |b| > 0 {
      assert (a + b)[..|a + b| - 1] == a + b[..|b| - 1];
      LastWithKeySkip(a, b[..|b| - 1], key);
    } else {
      assert a + b == a;
    }
  }

  // ----------------------------------------------------------- round trip

  /** A character that may follow a value inside the text stringify writes. */
  predicate Terminated(rest: string)
  {
    |rest| == 0 || rest[0] == ',' || rest[0] == '}'
  }

  lemma {:induction false} DigitSpanAll(d: string, rest: string)
    requires forall i :: 0 <= i < |d| ==> IsDigit(d[i])
    requires |rest| == 0 || !IsDigit(rest[0])
    ensures DigitSpan(d + rest) == |d|
    decreases |d|
  {
    if |d| > 0 {
      assert (d + rest)[1..] == d[1..] + rest;
      DigitSpanAll(d[1..], rest);
    }
  }

  lemma {:induction false} DigitsValueNatText(n: nat)
    ensures DigitsValue(NatText(n)) == n
  {
    if n >= 10 {
      var s := NatText(n);
      assert s[..|s| - 1] == NatText(n / 10);
      DigitsValueNatText(n / 10);
    }
  }

  lemma ParseNatText(m: nat, rest: string)
    requires |rest| == 0 || !IsDigit(rest[0])
    ensures ParseMagnitude(NatText(m) + rest) == Some(Parsed(m, rest))
  {
    var d := NatText(m);
    var t := d + rest;
    var k := if t[0] == '0' then 1 else DigitSpan(t);
    if t[0] == '0' {
      assert d == "0";
    } else {
      DigitSpanAll(d, rest);
    }
    assert t[..k] == d;
    assert t[k..] == rest;
    DigitsValueNatText(m);
  }

  lemma ParseNatRest(m: nat, rest: string)
    requires Terminated(rest)
    ensures ParseUnsigned(NatText(m) + rest) == Ok(Parsed(m as int, rest))
  {
    ParseNatText(m, rest);
    assert !NumberContinues(rest);
  }

  lemma ParseNonNegative(m: nat, rest: string, t: string)
    requires Terminated(rest) && t == NatText(m) + rest
    ensures ParseNumber(t) == Ok(Parsed(JNum(m), rest))
  {
    ParseNatRest(m, rest);
  }

  lemma ParseNegative(m: nat, rest: string, t: string)
    requires Terminated(rest) && t == NatText(m) + rest
    ensures ParseNumber(['-'] + t) == Ok(Parsed(JNum(-(m as int)), rest))
  {
    ParseNatRest(m, rest);
    assert (['-'] + t)[1..] == t;
  }

  lemma ParseIntText(n: int, rest: string)
    requires Terminated(rest)
    ensures ParseNumber(IntText(n) + rest) == Ok(Parsed(JNum(n), rest))
  {
    if n < 0 {
      var t := NatText(-n) + rest;
      ParseNegative(-n, rest, t);
      assert IntText(n) + rest == ['-'] + t;
    } else {
      ParseNonNegative(n, rest, NatText(n) + rest);
    }
  }

  lemma HexDigitValue(d: int)
    requires 0 <= d < 16
    ensures HexValue(HexDigit(d)) == Some(d)
  {
  }

  lemma UnicodeEscapeControl(hi: int, lo: int)
    requires 0 <= hi < 2 && 0 <= lo < 16
    ensures UnicodeEscape(['0', '0', HexDigit(hi), HexDigit(lo)]) == Some((hi * 16 + lo) as char)
  {
    HexDigitValue(hi);
    HexDigitValue(lo);
  }

  function Prepend(c: char, r: Result<Parsed<string>>): Result<Parsed<string>>
  {
    match r
    case Err(e) => Err(e)
    case Ok(p) => Ok(Parsed([c] + p.value, p.rest))
  }

  /** One escaped code point is read back as itself. */
  lemma ParseEscapeChar(c: char, tail: string)
    ensures ParseStringBody(EscapeChar(c) + tail) == Prepend(c, ParseStringBody(tail))
  {
    var w := EscapeChar(c) + tail;
    if c as int < 0x20 && c != '\t' && c != '\n' && c != '\r' && c as int != 0x08 && c as int != 0x0C {
      var hi, lo := c as int / 16, c as int % 16;
      assert w[0] == '\\' && w[1] == 'u';
      assert w[2..6] == ['0', '0', HexDigit(hi), HexDigit(lo)];
      UnicodeEscapeControl(hi, lo);
      assert c == (hi * 16 + lo) as char;
      assert w[6..] == tail;
    } else if |EscapeChar(c)| == 2 {
      assert w[2..] == tail;
    } else {
      assert w[1..] == tail;
    }
  }

  lemma {:induction false} ParseEscaped(s: string, rest: string)
    ensures ParseStringBody(Escape(s) + "\"" + rest) == Ok(Parsed(s, rest))
    decreases |s|
  {
    if |s| == 0 {
      assert Escape(s) + "\"" + rest == "\"" + rest;
    } else {
      var tail := Escape(s[1..]) + "\"" + rest;
      ParseEscaped(s[1..], rest);
      assert Escape(s) + "\"" + rest == EscapeChar(s[0]) + tail;
      ParseEscapeChar(s[0], tail);
      assert [s[0]] + s[1..] == s;
    }
  }

  lemma ParseQuote(s: string, rest: string)
    ensures ParseValue(Quote(s) + rest) == Ok(Parsed(JStr(s), rest))
  {
    var t := Escape(s) + "\"" + rest;
    ParseEscaped(s, rest);
    assert Quote(s) + rest == ['"'] + t;
    assert (['"'] + t)[1..] == t;
  }

  lemma ParseObjectOpen(t: string)
    requires |t| > 0 && t[0] == '"'
    ensures ParseValue(['{'] + t) == ParseMembers(t, [])
  {
    assert (['{'] + t)[1..] == t;
  }

  lemma {:induction false} ParseStringify(v: Json, rest: string)
    requires Terminated(rest)
    ensures ParseValue(Stringify(v) + rest) == Ok(Parsed(v, rest))
    decreases v, 2
  {
    match v
    case JNum(n) =>
      ParseIntText(n, rest);
      if n >= 0 {
        assert (NatText(n) + rest)[0] == NatText(n)[0];
      }
    case JStr(s) =>
      ParseQuote(s, rest);
    case JObj(ms) =>
      ParseStringifyObject(v, rest);
  }

  lemma {:induction false} ParseStringifyObject(v: Json, rest: string)
    requires v.JObj? && Terminated(rest)
    ensures ParseValue(Stringify(v) + rest) == Ok(Parsed(v, rest))
    decreases v, 1
  {
    var ms := v.members;
    if |ms| == 0 {
      ParseEmptyObject(rest);
    } else {
      var t := MembersText(v, 0) + "}" + rest;
      assert Stringify(v) + rest == ['{'] + t;
      MembersTextStart(v, 0);
      ParseMembersText(v, 0, [], rest);
      ParseObjectOpen(t);
      assert [] + ms[0..] == ms;
    }
  }

  lemma ParseEmptyObject(rest: string)
    ensures ParseValue("{}" + rest) == Ok(Parsed(JObj([]), rest))
  {
    assert ("{}" + rest)[1..] == ['}'] + rest;
    assert (['}'] + rest)[1..] == rest;
  }

  lemma MembersTextStart(obj: Json, i: nat)
    requires obj.JObj? && i < |obj.members|
    ensures |MembersText(obj, i)| > 0 && MembersText(obj, i)[0] == '"'
  {
    var m := obj.members[i];
    assert MembersText(obj, i)[0] == Quote(m.key)[0];
  }

  /** Reading one member `"key":value` and the separator after it. */
  lemma ParseMemberStep(key: string, u: string, value: Json, after: string, acc: seq<Member>)
    requires ParseValue(u) == Ok(Parsed(value, after))
    requires |after| > 0 && (after[0] == ',' || after[0] == '}')
    ensures ParseMembers(Quote(key) + ":" + u, acc)
         == if after[0] == ',' then ParseMembers(after[1..], acc + [Member(key, value)])
            else Ok(Parsed(JObj(acc + [Member(key, value)]), after[1..]))
  {
    var w := ":" + u;
    var t := Escape(key) + "\"" + w;
    ParseEscaped(key, w);
    assert Quote(key) + ":" + u == ['"'] + t;
    assert (['"'] + t)[1..] == t;
    assert w[1..] == u;
    ParseMembersHead(['"'] + t, acc, key, w, value, after);
  }

  /** One unfolding of ParseMembers once the key and the value are read. */
  lemma ParseMembersHead(s: string, acc: seq<Member>, key: string, w: string, value: Json, after: string)
    requires |s| > 0 && s[0] == '"' && ParseStringBody(s[1..]) == Ok(Parsed(key, w))
    requires |w| > 0 && w[0] == ':' && ParseValue(w[1..]) == Ok(Parsed(value, after))
    requires |after| > 0 && (after[0] == ',' || after[0] == '}')
    ensures ParseMembers(s, acc)
         == if after[0] == ',' then ParseMembers(after[1..], acc + [Member(key, value)])
            else Ok(Parsed(JObj(acc + [Member(key, value)]), after[1..]))
  {
  }

  /** The text after member `i`'s value: a comma and the next member, or the closing brace. */
  function AfterMember(obj: Json, i: nat, rest: string): string
    requires obj.JObj? && i < |obj.members|
  {
    if i + 1 < |obj.members| then [','] + (MembersText(obj, i + 1) + "}" + rest) else ['}'] + rest
  }

  lemma MembersTextSplit(obj: Json, i: nat, rest: string)
    requires obj.JObj? && i < |obj.members|
    ensures MembersText(obj, i) + "}" + rest
         == Quote(obj.members[i].key) + ":" + (Stringify(obj.members[i].value) + AfterMember(obj, i, rest))
  {
  }

  lemma AfterMemberShape(obj: Json, i: nat, rest: string)
    requires obj.JObj? && i < |obj.members|
    ensures |AfterMember(obj, i, rest)| > 0
    ensures AfterMember(obj, i, rest)[0] == if i + 1 < |obj.members| then ',' else '}'
    ensures AfterMember(obj, i, rest)[1..]
         == if i + 1 < |obj.members| then MembersText(obj, i + 1) + "}" + rest else rest
  {
  }

  lemma MembersAppend(acc: seq<Member>, ms: seq<Member>, i: nat)
    requires i < |ms|
    ensures acc + [ms[i]] + ms[i + 1..] == acc + ms[i..]
    ensures i + 1 == |ms| ==> acc + [ms[i]] == acc + ms[i..]
  {
  }

  lemma {:induction false} ParseMembersText(obj: Json, i: nat, acc: seq<Member>, rest: string)
    requires obj.JObj? && i < |obj.members|
    requires Terminated(rest)
    ensures ParseMembers(MembersText(obj, i) + "}" + rest, acc) == Ok(Parsed(JObj(acc + obj.members[i..]), rest))
    decreases obj, 0, |obj.members| - i
  {
    var ms := obj.members;
    var m := ms[i];
    var after := AfterMember(obj, i, rest);
    MembersTextSplit(obj, i, rest);
    AfterMemberShape(obj, i, rest);
    ParseStringify(m.value, after);
    ParseMemberStep(m.key, Stringify(m.value) + after, m.value, after, acc);
    MembersAppend(acc, ms, i);
    if i + 1 < |ms| {
      ParseMembersText(obj, i + 1, acc + [m], rest);
    }
  }

  /** `JSON.parse(JSON.stringify(v))` gives `v` back, for every value. */
  lemma ParseOfStringify(v: Json)
    ensures Parse(Stringify(v)) == Ok(v)
  {
    ParseStringify(v, "");
    assert Stringify(v) + "" == Stringify(v);
  }
}
