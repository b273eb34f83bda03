/** Base 64 as used by the save envelope: the encoding of section 4 of RFC 4648
    (standard alphabet, `=` padding) as produced by `btoa`, and the
    "forgiving-base64 decode" of the WHATWG Infra standard that `atob` runs.
    Both browser functions work on strings of Latin-1 code units. */
module Base64 {
  import opened Js

  type Sextet = x: int | 0 <= x < 64

  /** The alphabet of RFC 4648 section 4, Table 1. */
  function Symbol(i: Sextet): char
  {
    if i < 26 then ('A' as int + i) as char
    else if i < 52 then ('a' as int + (i - 26)) as char
    else if i < 62 then ('0' as int + (i - 52)) as char
    else if i == 62 then '+'
    else '/'
  }

  function Index(c: char): Option<Sextet>
  {
    if 'A' <= c <= 'Z' then Some(c as int - 'A' as int)
    else if 'a' <= c <= 'z' then Some(c as int - 'a' as int + 26)
    else if '0' <= c <= '9' then Some(c as int - '0' as int + 52)
    else if c == '+' then Some(62)
    else if c == '/' then Some(63)
    else None
  }

  lemma IndexSymbol(i: Sextet)
    ensures Index(Symbol(i)) == Some(i)
    ensures Symbol(i) != '='
    ensures !IsAsciiWhitespace(Symbol(i))
  {
  }

  /** The sextets of `b`, four per group of three bytes; a final group of one
      or two bytes gives two or three sextets whose spare low bits are zero. */
  function Sextets(b: seq<Byte>): (r: seq<Sextet>)
    ensures |r| % 4 == if |b| % 3 == 0 then 0 else |b| % 3 + 1
    ensures |b| > 0 ==> |r| > 0
  {
    if |b| == 0 then []
    else if |b| == 1 then [b[0] / 4, (b[0] % 4) * 16]
    else if |b| == 2 then [b[0] / 4, (b[0] % 4) * 16 + b[1] / 16, (b[1] % 16) * 4]
    else Quad(b[0], b[1], b[2]) + Sextets(b[3..])
  }

  /** The four sextets of a whole group of three bytes. */
  function Quad(x: Byte, y: Byte, z: Byte): (r: seq<Sextet>)
    ensures |r| == 4
  {
    [x / 4, (x % 4) * 16 + y / 16, (y % 16) * 4 + z / 64, z % 64]
  }

  function Symbols(v: seq<Sextet>): (s: string)
    ensures |s| == |v|
    ensures forall i :: 0 <= i < |v| ==> Index(s[i]) == Some(v[i])
  {
    seq(|v|, i requires 0 <= i < |v| => Symbol(v[i]))
  }

  function Padding(n: nat): (p: string)
    ensures |p| == if n % 3 == 0 then 0 else 3 - n % 3
  {
    if n % 3 == 1 then "==" else if n % 3 == 2 then "=" else ""
  }

  /** RFC 4648 section 4 encoding of a byte string. */
  function Encode(b: seq<Byte>): (s: string)
    ensures |s| % 4 == 0
  {
    var v := Sextets(b);
    PadToFour(|v|, |b|);
    Symbols(v) + Padding(|b|)
  }

  lemma PadToFour(k: nat, n: nat)
    requires k % 4 == if n % 3 == 0 then 0 else n % 3 + 1
    ensures (k + |Padding(n)|) % 4 == 0
  {
    var q := k / 4;
    assert k == 4 * q + k % 4;
    if n % 3 == 0 {
      assert k + |Padding(n)| == 4 * q;
    } else {
      assert k + |Padding(n)| == 4 * (q + 1);
    }
  }

  predicate IsAsciiWhitespace(c: char)
  {
    c == ' ' || c == '\t' || c == '\n' || c as int == 0x0C || c == '\r'
  }

  function RemoveWhitespace(s: string): (t: string)
    ensures |t| <= |s|
    ensures forall i :: 0 <= i < |t| ==> !IsAsciiWhitespace(t[i])
    ensures forall i :: 0 <= i < |t| ==> t[i] in s
  {
    if |s| == 0 then []
    else if IsAsciiWhitespace(s[0]) then RemoveWhitespace(s[1..])
    else [s[0]] + RemoveWhitespace(s[1..])
  }

  /** The whitespace step works character by character: it distributes over
      concatenation, and keeps one character exactly when it is not ASCII
      whitespace. Together these fix its result: the input's other
      characters, in order. */
  lemma {:induction false} RemoveWhitespaceAppend(a: string, b: string)
    ensures RemoveWhitespace(a + b) == RemoveWhitespace(a) + RemoveWhitespace(b)
    decreases |a|
  {
    if |a| == 0 {
      assert a + b == b;
    } else {
      assert (a + b)[0] == a[0];
      assert (a + b)[1..] == a[1..] + b;
      RemoveWhitespaceAppend(a[1..], b);
      assert a == [a[0]] + a[1..];
    }
  }

  lemma RemoveWhitespaceChar(c: char)
    ensures RemoveWhitespace([c]) == if IsAsciiWhitespace(c) then "" else [c]
  {
    assert [c][1..] == [];
  }

  /** Step 2 of forgiving-base64 decode: when the length is a multiple of
      four, one or two trailing `=` are dropped. */
  function StripPadding(t: string): string
  {
    if |t| % 4 != 0 then t
    else if |t| >= 2 && t[|t| - 2] == '=' && t[|t| - 1] == '=' then t[..|t| - 2]
    else if |t| >= 1 && t[|t| - 1] == '=' then t[..|t| - 1]
    else t
  }

  function ToSextets(u: string): (r: Option<seq<Sextet>>)
    ensures r.Some? ==> |r.value| == |u| && forall i :: 0 <= i < |u| ==> Index(u[i]) == Some(r.value[i])
    ensures r.None? ==> exists i :: 0 <= i < |u| && Index(u[i]).None?
  {
    if |u| == 0 then Some([])
    else match Index(u[0])
      case None => None
      case Some(d) =>
        match ToSextets(u[1..])
        case None => None
        case Some(rest) => Some([d] + rest)
  }

  /** Packs sextets back into bytes, four sextets to three bytes; a final two
      or three sextets give one or two bytes and their spare bits are dropped. */
  function FromSextets(v: seq<Sextet>): (r: seq<Byte>)
    requires |v| % 4 != 1
  {
    if |v| == 0 then []
    else
      var b0: Byte := (v[0] as int) * 4 + v[1] / 16;
      if |v| == 2 then [b0]
      else
        var b1: Byte := ((v[1] as int) % 16) * 16 + v[2] / 4;
        if |v| == 3 then [b0, b1]
        else
          var b2: Byte := ((v[2] as int) % 4) * 64 + v[3];
          [b0, b1, b2] + FromSextets(v[4..])
  }

  /** Forgiving-base64 decode (WHATWG Infra), the algorithm behind `atob`. */
  function Decode(s: string): Result<seq<Byte>>
  {
    var u := StripPadding(RemoveWhitespace(s));
    if |u| % 4 == 1 then Err(InvalidCharacterError)
    else match ToSextets(u)
      case None => Err(InvalidCharacterError)
      case Some(v) => Ok(FromSextets(v))
  }

  predicate IsLatin1(s: string)
  {
    forall i :: 0 <= i < |s| ==> s[i] as int < 256
  }

  /** `String.fromCharCode(...bytes)`: one code unit per byte. */
  function FromCharCodes(b: seq<Byte>): (s: string)
    ensures |s| == |b| && IsLatin1(s)
  {
    seq(|b|, i requires 0 <= i < |b| => b[i] as char)
  }

  /** `charCodeAt` over a Latin-1 string. */
  function CharCodes(s: string): (b: seq<Byte>)
    requires IsLatin1(s)
    ensures |b| == |s|
  {
    seq(|s|, i requires 0 <= i < |s| => s[i] as int)
  }

  /** `btoa`: throws InvalidCharacterError on a code unit above 0xFF. */
  function Btoa(s: string): Result<string>
  {
    if IsLatin1(s) then Ok(Encode(CharCodes(s))) else Err(InvalidCharacterError)
  }

  /** `atob`: the decoded bytes as a Latin-1 string. */
  function Atob(s: string): (r: Result<string>)
    ensures r.Ok? ==> IsLatin1(r.value)
  {
    match Decode(s)
    case Err(e) => Err(e)
    case Ok(b) => Ok(FromCharCodes(b))
  }

  // ---------------------------------------------------------------- round trips

  lemma {:induction false} FromSextetsSextets(b: seq<Byte>)
    ensures FromSextets(Sextets(b)) == b
    decreases |b|
  {
    if |b| >= 3 {
      var v := Sextets(b);
      assert v[4..] == Sextets(b[3..]);
      FromSextetsSextets(b[3..]);
      Regroup(b[0], b[1], b[2]);
      assert FromSextets(v) == [b[0], b[1], b[2]] + b[3..];
      assert b == [b[0], b[1], b[2]] + b[3..];
    }
  }

  /** The four sextets of three bytes pack back into those bytes. */
  lemma Regroup(x: Byte, y: Byte, z: Byte)
    ensures (x / 4) * 4 + ((x % 4) * 16 + y / 16) / 16 == x
    ensures (((x % 4) * 16 + y / 16) % 16) * 16 + ((y % 16) * 4 + z / 64) / 4 == y
    ensures (((y % 16) * 4 + z / 64) % 4) * 64 + z % 64 == z
  {
  }

  /** Four sextets per whole group of three bytes, then two or three for a
      final one or two bytes. */
  lemma {:induction false} SextetsLength(b: seq<Byte>)
    ensures |Sextets(b)| == 4 * (|b| / 3) + (if |b| % 3 == 0 then 0 else |b| % 3 + 1)
    decreases |b|
  {
    if |b| >= 3 {
      SextetsLength(b[3..]);
      assert |b[3..]| / 3 == |b| / 3 - 1;
    }
  }

  lemma {:induction false} ToSextetsSymbols(v: seq<Sextet>)
    ensures ToSextets(Symbols(v)) == Some(v)
    decreases |v|
  {
    if |v| > 0 {
      IndexSymbol(v[0]);
      assert Symbols(v)[1..] == Symbols(v[1..]);
      ToSextetsSymbols(v[1..]);
      assert v == [v[0]] + v[1..];
    }
  }

  lemma {:induction false} NoWhitespaceUnchanged(s: string)
    requires forall i :: 0 <= i < |s| ==> !IsAsciiWhitespace(s[i])
    ensures RemoveWhitespace(s) == s
    decreases |s|
  {
    if |s| > 0 {
      NoWhitespaceUnchanged(s[1..]);
      assert s == [s[0]] + s[1..];
    }
  }

  /** Input without whitespace whose length leaves remainder 1 mod 4 is
      rejected by `atob`. */
  lemma AtobRejectsLength(s: string)
    requires forall i :: 0 <= i < |s| ==> !IsAsciiWhitespace(s[i])
    requires |s| % 4 == 1
    ensures Atob(s) == Err(InvalidCharacterError)
  {
    NoWhitespaceUnchanged(s);
  }

  /** Decoding undoes encoding: `atob` inverts `btoa` on every byte string. */
  lemma DecodeEncode(b: seq<Byte>)
    ensures Decode(Encode(b)) == Ok(b)
  {
    EncodeNoWhitespace(b);
    EncodeStripPadding(b);
    ToSextetsSymbols(Sextets(b));
    FromSextetsSextets(b);
  }

  lemma EncodeNoWhitespace(b: seq<Byte>)
    ensures RemoveWhitespace(Encode(b)) == Encode(b)
  {
    var v := Sextets(b);
    var s := Encode(b);
    forall i | 0 <= i < |s| ensures !IsAsciiWhitespace(s[i]) {
      if i < |v| {
        IndexSymbol(v[i]);
      }
    }
    NoWhitespaceUnchanged(s);
  }

  lemma EncodeStripPadding(b: seq<Byte>)
    ensures StripPadding(Encode(b)) == Symbols(Sextets(b))
  {
    var v := Sextets(b);
    if |v| > 0 {
      IndexSymbol(v[|v| - 1]);
    }
    StripPaddingOf(Symbols(v), Padding(|b|));
  }

  /** Removing one or two trailing `=` from a text whose own last symbol is not `=`. */
  lemma StripPaddingOf(t: string, p: string)
    requires |t + p| % 4 == 0
    requires p == "" || p == "=" || p == "=="
    requires |t| > 0 ==> t[|t| - 1] != '='
    ensures StripPadding(t + p) == t
  {
    var s := t + p;
    if p == "==" {
      assert s[..|s| - 2] == t;
    } else if p == "=" {
      assert |t| > 0 ==> s[|s| - 2] == t[|t| - 1];
      assert s[..|s| - 1] == t;
    } else {
      assert s == t;
    }
  }

  lemma CharCodesFromCharCodes(b: seq<Byte>)
    ensures CharCodes(FromCharCodes(b)) == b
  {
  }

  lemma FromCharCodesCharCodes(s: string)
    requires IsLatin1(s)
    ensures FromCharCodes(CharCodes(s)) == s
  {
  }

  /** `atob(btoa(s)) == s` for every Latin-1 string. */
  lemma AtobBtoa(s: string)
    requires IsLatin1(s)
    ensures Btoa(s).Ok? && Atob(Btoa(s).value) == Ok(s)
  {
    DecodeEncode(CharCodes(s));
    FromCharCodesCharCodes(s);
  }

  /** The inner layer of the envelope: bytes through `String.fromCharCode`
      and `btoa`, back through `atob` and `charCodeAt`. */
  lemma BytesThroughLatin1(b: seq<Byte>)
    ensures Btoa(FromCharCodes(b)) == Ok(Encode(b))
    ensures Atob(Encode(b)).Ok? && CharCodes(Atob(Encode(b)).value) == b
  {
    CharCodesFromCharCodes(b);
    DecodeEncode(b);
  }

  /** Every character of an encoding is from the alphabet or is `=`; in
      particular none needs escaping inside a JSON string. */
  lemma EncodeAlphabet(b: seq<Byte>)
    ensures forall i :: 0 <= i < |Encode(b)| ==> Encode(b)[i] == '=' || Index(Encode(b)[i]).Some?
  {
    var v := Sextets(b);
    forall i | 0 <= i < |v| ensures Index(Symbols(v)[i]).Some? {
      IndexSymbol(v[i]);
    }
  }
}
