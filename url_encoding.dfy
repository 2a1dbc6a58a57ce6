/** The application/x-www-form-urlencoded serializer of the WHATWG URL Standard
    (section 5.2, "application/x-www-form-urlencoded serializing"), which is what
    `URLSearchParams.toString()` produces: each name and value is UTF-8 encoded,
    every byte outside ASCII alphanumerics and `*-._` is written as `%XY` with
    upper-case hex digits, a space becomes `+`, and the pairs are written
    `name=value` joined by `&`. A parser is given beside it, and the round trip
    between the two is proved. */
module UrlEncoding {
  import opened Wrappers
  import opened Strings

  newtype byte = x: int | 0 <= x < 256

  // ---------------------------------------------------------------- UTF-8

  /** The UTF-8 encoding of one Unicode scalar value. */
  function Utf8(c: char): (r: seq<byte>)
    ensures 1 <= |r| <= 4
  {
    var n := c as int;
    if n < 0x80 then [n as byte]
    else if n < 0x800 then [(0xC0 + n / 64) as byte, (0x80 + n % 64) as byte]
    else if n < 0x10000 then
      [(0xE0 + n / 4096) as byte, (0x80 + (n / 64) % 64) as byte, (0x80 + n % 64) as byte]
    else
      [(0xF0 + n / 262144) as byte, (0x80 + (n / 4096) % 64) as byte,
       (0x80 + (n / 64) % 64) as byte, (0x80 + n % 64) as byte]
  }

  function Utf8All(s: string): seq<byte> {
    if s == [] then [] else Utf8(s[0]) + Utf8All(s[1..])
  }

  predicate IsContinuation(b: byte) {
    0x80 <= b < 0xC0
  }

  /** The scalar value encoded at the front of `b` and the number of bytes it
      takes, or `None` when the front is not a well-formed UTF-8 sequence. */
  function DecodeFirst(b: seq<byte>): (r: Option<(char, nat)>)
    requires b != []
    ensures r.Some? ==> 1 <= r.value.1 <= |b|
  {
    var b0 := b[0] as int;
    if b0 < 0x80 then Some((b0 as char, 1))
    else if 0xC2 <= b0 < 0xE0 && |b| >= 2 && IsContinuation(b[1]) then
      var n := (b0 - 0xC0) * 64 + (b[1] as int - 0x80);
      Some((n as char, 2))
    else if 0xE0 <= b0 < 0xF0 && |b| >= 3 && IsContinuation(b[1]) && IsContinuation(b[2]) then
      var n := (b0 - 0xE0) * 4096 + (b[1] as int - 0x80) * 64 + (b[2] as int - 0x80);
      if 0x800 <= n < 0xD800 || 0xE000 <= n then Some((n as char, 3)) else None
    else if 0xF0 <= b0 < 0xF5 && |b| >= 4 && IsContinuation(b[1]) && IsContinuation(b[2])
            && IsContinuation(b[3]) then
      var n := (b0 - 0xF0) * 262144 + (b[1] as int - 0x80) * 4096
               + (b[2] as int - 0x80) * 64 + (b[3] as int - 0x80);
      if 0x10000 <= n < 0x110000 then Some((n as char, 4)) else None
    else None
  }

  /** Strict UTF-8 decoding: `None` on any malformed sequence. */
  function Utf8Decode(b: seq<byte>): Option<string>
    decreases |b|
  {
    if b == [] then Some("")
    else
      match DecodeFirst(b)
      case None => None
      case Some((c, k)) =>
        match Utf8Decode(b[k..])
        case None => None
        case Some(rest) => Some([c] + rest)
  }

  lemma DecodeFirstOfUtf8(c: char, rest: seq<byte>)
    ensures DecodeFirst(Utf8(c) + rest) == Some((c, |Utf8(c)|))
  {
    var n := c as int;
    var b := Utf8(c) + rest;
    if n < 0x80 {
    } else if n < 0x800 {
      DecodeTwo(n, b);
    } else if n < 0x10000 {
      DecodeThree(n, b);
    } else {
      DecodeFour(n, b);
    }
  }

  lemma DecodeTwo(n: int, b: seq<byte>)
    requires 0x80 <= n < 0x800 && |b| >= 2
    requires b[0] as int == 0xC0 + n / 64 && b[1] as int == 0x80 + n % 64
    ensures DecodeFirst(b) == Some((n as char, 2))
  {
    var q, r := n / 64, n % 64;
    assert q * 64 + r == n;
  }

  lemma DecodeThree(n: int, b: seq<byte>)
    requires 0x800 <= n < 0x10000 && !(0xD800 <= n < 0xE000) && |b| >= 3
    requires b[0] as int == 0xE0 + n / 4096 && b[1] as int == 0x80 + (n / 64) % 64
    requires b[2] as int == 0x80 + n % 64
    ensures DecodeFirst(b) == Some((n as char, 3))
  {
    var q1, r1 := n / 64, n % 64;
    var q2, r2 := q1 / 64, q1 % 64;
    assert q1 * 64 + r1 == n;
    assert q2 * 64 + r2 == q1;
    assert n / 4096 == q2;
    assert q2 * 4096 + r2 * 64 + r1 == n;
  }

  lemma DecodeFour(n: int, b: seq<byte>)
    requires 0x10000 <= n < 0x110000 && |b| >= 4
    requires b[0] as int == 0xF0 + n / 262144 && b[1] as int == 0x80 + (n / 4096) % 64
    requires b[2] as int == 0x80 + (n / 64) % 64 && b[3] as int == 0x80 + n % 64
    ensures DecodeFirst(b) == Some((n as char, 4))
  {
    var q1, r1 := n / 64, n % 64;
    var q2, r2 := q1 / 64, q1 % 64;
    var q3, r3 := q2 / 64, q2 % 64;
    assert q1 * 64 + r1 == n;
    assert q2 * 64 + r2 == q1;
    assert q3 * 64 + r3 == q2;
    assert n / 4096 == q2;
    assert n / 262144 == q3;
    assert q3 * 262144 + r3 * 4096 + r2 * 64 + r1 == n;
  }

  /** Decoding undoes UTF-8 encoding. */
  lemma {:induction false} Utf8RoundTrip(s: string)
    ensures Utf8Decode(Utf8All(s)) == Some(s)
  {
    if s != [] {
      var b := Utf8All(s);
      DecodeFirstOfUtf8(s[0], Utf8All(s[1..]));
      assert b[|Utf8(s[0])|..] == Utf8All(s[1..]);
      Utf8RoundTrip(s[1..]);
      assert [s[0]] + s[1..] == s;
    }
  }

  // ---------------------------------------------------------------- percent-encoding

  const HexDigits: string := "0123456789ABCDEF"

  /** `%XY` for each byte, upper-case hex digits. */
  function PercentEncodeBytes(bs: seq<byte>): (r: string)
    ensures forall i :: 0 <= i < |r| ==> r[i] == '%' || IsUnreserved(r[i])
  {
    if bs == [] then ""
    else ['%', HexDigits[bs[0] as int / 16], HexDigits[bs[0] as int % 16]] + PercentEncodeBytes(bs[1..])
  }

  /** The code points the application/x-www-form-urlencoded percent-encode set
      leaves alone. */
  predicate IsUnreserved(c: char) {
    IsAsciiLetter(c) || IsDigit(c) || c == '*' || c == '-' || c == '.' || c == '_'
  }

  /** What an encoded component is made of. */
  predicate IsEncodedChar(c: char) {
    IsUnreserved(c) || c == '+' || c == '%'
  }

  function EncodeChar(c: char): (r: string)
    ensures forall i :: 0 <= i < |r| ==> IsEncodedChar(r[i])
  {
    if IsUnreserved(c) then [c]
    else if c == ' ' then "+"
    else PercentEncodeBytes(Utf8(c))
  }

  /** One name or value as the serializer writes it. It never holds `&` or `=`,
      so the two separators can be found again. */
  function Encode(s: string): (r: string)
    ensures forall i :: 0 <= i < |r| ==> IsEncodedChar(r[i])
    ensures '&' !in r && '=' !in r
  {
    if s == [] then "" else EncodeChar(s[0]) + Encode(s[1..])
  }

  /** The bytes a component stands for: `+` is a space, `%XY` with two hex digits
      is that byte, and any other character stands for its UTF-8 bytes. */
  function DecodeBytes(s: string): seq<byte> {
    if s == [] then []
    else if s[0] == '+' then [0x20] + DecodeBytes(s[1..])
    else if s[0] == '%' && |s| >= 3 && IsRadixDigit(s[1], true) && IsRadixDigit(s[2], true) then
      [(DigitValue(s[1], true) * 16 + DigitValue(s[2], true)) as byte] + DecodeBytes(s[3..])
    else Utf8(s[0]) + DecodeBytes(s[1..])
  }

  /** Percent-decoding then strict UTF-8 decoding; `None` where the URL Standard's
      parser would put a replacement character. */
  function Decode(s: string): Option<string> {
    Utf8Decode(DecodeBytes(s))
  }

  lemma HexDigitValue(d: nat)
    requires d < 16
    ensures IsRadixDigit(HexDigits[d], true) && DigitValue(HexDigits[d], true) == d
  {
  }

  lemma {:induction false} DecodePercentBytes(bs: seq<byte>, rest: string)
    ensures DecodeBytes(PercentEncodeBytes(bs) + rest) == bs + DecodeBytes(rest)
  {
    if bs != [] {
      var hi, lo := bs[0] as int / 16, bs[0] as int % 16;
      var s := PercentEncodeBytes(bs) + rest;
      assert s == ['%', HexDigits[hi], HexDigits[lo]] + (PercentEncodeBytes(bs[1..]) + rest);
      HexDigitValue(hi);
      HexDigitValue(lo);
      assert s[3..] == PercentEncodeBytes(bs[1..]) + rest;
      DecodePercentBytes(bs[1..], rest);
      assert [bs[0]] + bs[1..] == bs;
    } else {
      assert PercentEncodeBytes(bs) + rest == rest;
    }
  }

  lemma DecodeEncodedChar(c: char, rest: string)
    ensures DecodeBytes(EncodeChar(c) + rest) == Utf8(c) + DecodeBytes(rest)
  {
    if IsUnreserved(c) {
      assert ([c] + rest)[1..] == rest;
    } else if c == ' ' {
      assert ("+" + rest)[1..] == rest;
    } else {
      DecodePercentBytes(Utf8(c), rest);
    }
  }

  lemma {:induction false} DecodeBytesOfEncode(s: string)
    ensures DecodeBytes(Encode(s)) == Utf8All(s)
  {
    if s != [] {
      DecodeEncodedChar(s[0], Encode(s[1..]));
      DecodeBytesOfEncode(s[1..]);
    }
  }

  /** Decoding undoes encoding, for every string. */
  lemma EncodeRoundTrip(s: string)
    ensures Decode(Encode(s)) == Some(s)
  {
    DecodeBytesOfEncode(s);
    Utf8RoundTrip(s);
  }

  // ---------------------------------------------------------------- pairs

  function EncodePair(p: (string, string)): (r: string)
    ensures '&' !in r && r != []
  {
    Encode(p.0) + "=" + Encode(p.1)
  }

  function EncodedPairs(params: seq<(string, string)>): (r: seq<string>)
    ensures |r| == |params|
    ensures forall i :: 0 <= i < |r| ==> r[i] == EncodePair(params[i])
  {
    seq(|params|, i requires 0 <= i < |params| => EncodePair(params[i]))
  }

  /** `URLSearchParams.toString()`: the encoded pairs joined by `&`. Parsing it
      gives back every pair, in order. */
  function Serialize(params: seq<(string, string)>): (r: string)
    ensures Parse(r) == Some(params)
  {
    var pieces := EncodedPairs(params);
    assert Parse(Join(pieces, '&')) == Some(params) by {
      if params == [] {
        assert Split("", '&') == [""];
      } else {
        SplitJoin(pieces, '&');
        ParseEncodedPairs(params);
      }
    }
    Join(pieces, '&')
  }

  /** The part before the first `sep` and the part after it; all of `s` and
      nothing when `sep` does not occur. */
  function SplitFirst(s: string, sep: char): (r: (string, string))
    ensures sep !in r.0
  {
    if s == [] then ([], [])
    else if s[0] == sep then ([], s[1..])
    else
      var (a, b) := SplitFirst(s[1..], sep);
      ([s[0]] + a, b)
  }

  lemma {:induction false} SplitFirstAt(a: string, b: string, sep: char)
    requires sep !in a
    ensures SplitFirst(a + [sep] + b, sep) == (a, b)
  {
    var s := a + [sep] + b;
    if a == [] {
      assert s[1..] == b;
    } else {
      assert s[1..] == a[1..] + [sep] + b;
      SplitFirstAt(a[1..], b, sep);
      assert [a[0]] + a[1..] == a;
    }
  }

  /** The application/x-www-form-urlencoded parser over `&`-separated pieces:
      empty pieces are skipped, and each other piece is split at its first `=`. */
  function ParsePieces(pieces: seq<string>): Option<seq<(string, string)>> {
    if pieces == [] then Some([])
    else if pieces[0] == [] then ParsePieces(pieces[1..])
    else
      var (n, v) := SplitFirst(pieces[0], '=');
      match (Decode(n), Decode(v), ParsePieces(pieces[1..]))
      case (Some(name), Some(value), Some(rest)) => Some([(name, value)] + rest)
      case _ => None
  }

  function Parse(query: string): Option<seq<(string, string)>> {
    ParsePieces(Split(query, '&'))
  }

  lemma {:induction false} ParseEncodedPairs(params: seq<(string, string)>)
    ensures ParsePieces(EncodedPairs(params)) == Some(params)
  {
    if params != [] {
      var pieces := EncodedPairs(params);
      var (k, v) := params[0];
      SplitFirstAt(Encode(k), Encode(v), '=');
      EncodeRoundTrip(k);
      EncodeRoundTrip(v);
      assert pieces[1..] == EncodedPairs(params[1..]);
      ParseEncodedPairs(params[1..]);
      assert [params[0]] + params[1..] == params;
    }
  }
}
