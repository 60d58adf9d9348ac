/** Percent-encoding of URI path segments, as `urllib.parse.quote(key)` does
    it with its default `safe='/'`: the text is encoded to UTF-8 and every
    byte outside the unreserved set of section 2.3 of RFC 3986 (letters,
    digits, `-._~`) and `/` becomes `%XX` with upper-case hex digits, as
    section 2.1 of RFC 3986 writes a percent-encoded octet. */
module Percent {
  import opened Values

  type byte = b: int | 0 <= b < 256

  /** The code points a Dafny `char` (and a Python `str` that encodes
      without error) can hold: Unicode scalar values. */
  predicate IsScalar(n: int) {
    (0 <= n < 0xD800) || (0xE000 <= n < 0x11_0000)
  }

  predicate IsContinuation(b: byte) {
    0x80 <= b < 0xC0
  }

  // ---------------------------------------------------------------- UTF-8

  /** The UTF-8 encoding of one code point (section 3 of RFC 3629). */
  function Utf8Char(c: char): (bs: seq<byte>)
    ensures 1 <= |bs| <= 4
    ensures |bs| == 1 <==> c as int < 0x80
    ensures |bs| == 1 ==> bs[0] == c as int
    ensures forall i :: 0 <= i < |bs| && |bs| > 1 ==> bs[i] >= 0x80
  {
    var n := c as int;
    if n < 0x80 then [n]
    else if n < 0x800 then [0xC0 + n / 64, 0x80 + n % 64]
    else if n < 0x1_0000 then [0xE0 + n / 4096, 0x80 + (n / 64) % 64, 0x80 + n % 64]
    else [0xF0 + n / 262144, 0x80 + (n / 4096) % 64, 0x80 + (n / 64) % 64, 0x80 + n % 64]
  }

  /** `s.encode('utf-8')`. */
  function Utf8Encode(s: string): (bs: seq<byte>)
    ensures |bs| >= |s|
  {
    if s == [] then [] else Utf8Char(s[0]) + Utf8Encode(s[1..])
  }

  /** Decodes the first character of a UTF-8 byte string and says how many
      bytes it took; rejects overlong forms, surrogates and values past
      U+10FFFF. */
  function DecodeFirst(bs: seq<byte>): (r: Option<(char, nat)>)
    ensures r.Some? ==> 1 <= r.value.1 <= |bs|
  {
    if bs == [] then None
    else
      var b0: int := bs[0];
      var b1: int := if |bs| >= 2 then bs[1] else 0;
      var b2: int := if |bs| >= 3 then bs[2] else 0;
      var b3: int := if |bs| >= 4 then bs[3] else 0;
      if b0 < 0x80 then Some((b0 as char, 1))
      else if 0xC2 <= b0 < 0xE0 && |bs| >= 2 && IsContinuation(bs[1]) then
        var n := (b0 - 0xC0) * 64 + (b1 - 0x80);
        Some((n as char, 2))
      else if 0xE0 <= b0 < 0xF0 && |bs| >= 3 && IsContinuation(bs[1]) && IsContinuation(bs[2]) then
        var n := (b0 - 0xE0) * 4096 + (b1 - 0x80) * 64 + (b2 - 0x80);
        if 0x800 <= n && IsScalar(n) then Some((n as char, 3)) else None
      else if 0xF0 <= b0 < 0xF5 && |bs| >= 4
              && IsContinuation(bs[1]) && IsContinuation(bs[2]) && IsContinuation(bs[3]) then
        var n := (b0 - 0xF0) * 262144 + (b1 - 0x80) * 4096 + (b2 - 0x80) * 64 + (b3 - 0x80);
        if 0x1_0000 <= n < 0x11_0000 then Some((n as char, 4)) else None
      else None
  }

  /** `bs.decode('utf-8')`, or None where that raises. */
  function Utf8Decode(bs: seq<byte>): Option<string>
    decreases |bs|
  {
    if bs == [] then Some([])
    else
      match DecodeFirst(bs)
      case None => None
      case Some((c, len)) =>
        match Utf8Decode(bs[len..])
        case None => None
        case Some(rest) => Some([c] + rest)
  }

  lemma TwoByteDigits(n: int)
    requires 0x80 <= n < 0x800
    ensures 0xC2 <= 0xC0 + n / 64 < 0xE0 && 0 <= n % 64 < 64
    ensures (n / 64) * 64 + n % 64 == n
  {
  }

  lemma ThreeByteDigits(n: int)
    requires 0x800 <= n < 0x1_0000
    ensures 0 <= n / 4096 < 16 && 0 <= (n / 64) % 64 < 64 && 0 <= n % 64 < 64
    ensures (n / 4096) * 4096 + ((n / 64) % 64) * 64 + n % 64 == n
  {
    var q := n / 64;
    assert q * 64 + n % 64 == n;
    assert (q / 64) * 64 + q % 64 == q;
    assert q / 64 == n / 4096;
  }

  lemma FourByteDigits(n: int)
    requires 0x1_0000 <= n < 0x11_0000
    ensures 0 <= n / 262144 < 5 && 0 <= (n / 4096) % 64 < 64 && 0 <= (n / 64) % 64 < 64 && 0 <= n % 64 < 64
    ensures (n / 262144) * 262144 + ((n / 4096) % 64) * 4096 + ((n / 64) % 64) * 64 + n % 64 == n
  {
    var q := n / 64;
    var p := q / 64;
    assert q * 64 + n % 64 == n;
    assert p * 64 + q % 64 == q;
    assert (p / 64) * 64 + p % 64 == p;
    assert p == n / 4096;
    assert p / 64 == n / 262144;
  }

  lemma DecodeFirstOfEncoding(c: char, rest: seq<byte>)
    ensures DecodeFirst(Utf8Char(c) + rest) == Some((c, |Utf8Char(c)|))
  {
    var n := c as int;
    var bs := Utf8Char(c) + rest;
    if n < 0x80 {
    } else if n < 0x800 {
      TwoByteDigits(n);
      assert bs[0] == 0xC0 + n / 64 && bs[1] == 0x80 + n % 64;
    } else if n < 0x1_0000 {
      ThreeByteDigits(n);
      assert bs[0] == 0xE0 + n / 4096 && bs[1] == 0x80 + (n / 64) % 64 && bs[2] == 0x80 + n % 64;
    } else {
      FourByteDigits(n);
      assert bs[0] == 0xF0 + n / 262144 && bs[1] == 0x80 + (n / 4096) % 64;
      assert bs[2] == 0x80 + (n / 64) % 64 && bs[3] == 0x80 + n % 64;
    }
  }

  /** Decoding what was encoded gives the text back. */
  lemma {:induction false} Utf8RoundTrip(s: string)
    ensures Utf8Decode(Utf8Encode(s)) == Some(s)
  {
    if s != [] {
      var head := Utf8Char(s[0]);
      var bs := Utf8Encode(s);
      assert bs == head + Utf8Encode(s[1..]);
      DecodeFirstOfEncoding(s[0], Utf8Encode(s[1..]));
      assert bs[|head|..] == Utf8Encode(s[1..]);
      Utf8RoundTrip(s[1..]);
      assert s == [s[0]] + s[1..];
    }
  }

  // ------------------------------------------------------ percent-encoding

  /** Python's `_ALWAYS_SAFE`: letters, digits and `_.-~`. */
  predicate IsUnreserved(c: char) {
    ('A' <= c <= 'Z') || ('a' <= c <= 'z') || ('0' <= c <= '9')
    || c == '_' || c == '.' || c == '-' || c == '~'
  }

  /** The characters `quote(..., safe='/')` leaves as they are. */
  predicate IsSafe(c: char) {
    IsUnreserved(c) || c == '/'
  }

  /** A byte that `quote` copies through: the encoding of a safe ASCII character. */
  predicate IsSafeByte(b: byte) {
    b < 0x80 && IsSafe(b as char)
  }

  function HexDigit(d: nat): (c: char)
    requires d < 16
    ensures IsUnreserved(c) && c != '%'
  {
    "0123456789ABCDEF"[d]
  }

  predicate IsHexDigit(c: char) {
    ('0' <= c <= '9') || ('A' <= c <= 'F') || ('a' <= c <= 'f')
  }

  function HexValue(c: char): (d: nat)
    requires IsHexDigit(c)
    ensures d < 16
  {
    if '0' <= c <= '9' then c as int - '0' as int
    else if 'A' <= c <= 'F' then c as int - 'A' as int + 10
    else c as int - 'a' as int + 10
  }

  /** One byte as `quote` writes it: itself if safe, `%XX` otherwise. */
  function QuoteByte(b: byte): (q: string)
  {
    if IsSafeByte(b) then [b as char] else ['%', HexDigit(b / 16), HexDigit(b % 16)]
  }

  function QuoteBytes(bs: seq<byte>): (q: string)
    ensures |q| >= |bs|
  {
    if bs == [] then [] else QuoteByte(bs[0]) + QuoteBytes(bs[1..])
  }

  /** `urllib.parse.quote(s)`: percent-encode the UTF-8 bytes of `s`. */
  function Quote(s: string): (q: string)
    ensures UpperEscapes(q)
  {
    QuoteBytesUpperEscapes(Utf8Encode(s));
    QuoteBytes(Utf8Encode(s))
  }

  /** The partner of Quote: undo `%XX` escapes, then decode UTF-8. */
  function PercentDecode(q: string): Option<seq<byte>>
  {
    if q == [] then Some([])
    else if q[0] == '%' then
      if |q| >= 3 && IsHexDigit(q[1]) && IsHexDigit(q[2]) then
        match PercentDecode(q[3..])
        case None => None
        case Some(rest) => Some([HexValue(q[1]) * 16 + HexValue(q[2])] + rest)
      else None
    else if q[0] as int < 0x80 then
      match PercentDecode(q[1..])
      case None => None
      case Some(rest) => Some([q[0] as int] + rest)
    else None
  }

  function Unquote(q: string): Option<string>
  {
    match PercentDecode(q)
    case None => None
    case Some(bs) => Utf8Decode(bs)
  }

  lemma QuoteBytesAppend(x: seq<byte>, y: seq<byte>)
    ensures QuoteBytes(x + y) == QuoteBytes(x) + QuoteBytes(y)
  {
    if x != [] {
      assert (x + y)[0] == x[0];
      assert (x + y)[1..] == x[1..] + y;
      QuoteBytesAppend(x[1..], y);
      calc {
        QuoteBytes(x + y);
        QuoteByte(x[0]) + QuoteBytes(x[1..] + y);
        QuoteByte(x[0]) + (QuoteBytes(x[1..]) + QuoteBytes(y));
        (QuoteByte(x[0]) + QuoteBytes(x[1..])) + QuoteBytes(y);
      }
    } else {
      assert x + y == y;
    }
  }

  lemma HexDigitValue(d: nat)
    requires d < 16
    ensures IsHexDigit(HexDigit(d)) && HexValue(HexDigit(d)) == d
  {
  }

  lemma {:induction false} PercentDecodeQuoteBytes(bs: seq<byte>)
    ensures PercentDecode(QuoteBytes(bs)) == Some(bs)
  {
    if bs != [] {
      var b := bs[0];
      var q := QuoteBytes(bs);
      var head := QuoteByte(b);
      assert q == head + QuoteBytes(bs[1..]);
      PercentDecodeQuoteBytes(bs[1..]);
      if IsSafeByte(b) {
        assert q[1..] == QuoteBytes(bs[1..]);
      } else {
        HexDigitValue(b / 16);
        HexDigitValue(b % 16);
        assert q[3..] == QuoteBytes(bs[1..]);
      }
      assert bs == [b] + bs[1..];
    }
  }

  /** Unquote undoes Quote: percent-encoding loses nothing. */
  lemma UnquoteQuote(s: string)
    ensures Unquote(Quote(s)) == Some(s)
  {
    PercentDecodeQuoteBytes(Utf8Encode(s));
    Utf8RoundTrip(s);
  }

  /** Distinct column names give distinct encoded names. */
  lemma QuoteInjective(s: string, t: string)
    requires Quote(s) == Quote(t)
    ensures s == t
  {
    UnquoteQuote(s);
    UnquoteQuote(t);
  }

  /** Quote works character by character. */
  lemma QuoteCons(s: string)
    requires s != []
    ensures Quote(s) == QuoteBytes(Utf8Char(s[0])) + Quote(s[1..])
  {
    QuoteBytesAppend(Utf8Char(s[0]), Utf8Encode(s[1..]));
  }

  /** A character's encoding is one character long exactly when it is safe,
      and then it is the character itself. */
  lemma QuoteOneChar(c: char)
    ensures |QuoteBytes(Utf8Char(c))| >= 1
    ensures IsSafe(c) ==> QuoteBytes(Utf8Char(c)) == [c]
    ensures !IsSafe(c) ==> |QuoteBytes(Utf8Char(c))| >= 3
  {
    var bs := Utf8Char(c);
    QuoteBytesAppend(bs[..1], bs[1..]);
    assert bs == bs[..1] + bs[1..];
    assert QuoteBytes(bs[..1]) == QuoteByte(bs[0]);
  }

  /** Quote leaves a key unchanged exactly when every character is a letter,
      a digit, one of `_.-~`, or `/`. */
  lemma {:induction false} QuoteIdentityIff(s: string)
    ensures Quote(s) == s <==> forall i :: 0 <= i < |s| ==> IsSafe(s[i])
  {
    QuoteLength(s);
    if s != [] {
      QuoteCons(s);
      QuoteOneChar(s[0]);
      QuoteIdentityIff(s[1..]);
      QuoteLength(s[1..]);
      if forall i :: 0 <= i < |s| ==> IsSafe(s[i]) {
        assert forall i :: 0 <= i < |s[1..]| ==> IsSafe(s[1..][i]) by {
          forall i | 0 <= i < |s[1..]| ensures IsSafe(s[1..][i]) { assert s[1..][i] == s[i + 1]; }
        }
        assert s == [s[0]] + s[1..];
      }
    }
  }

  /** The encoded text is never shorter than the key, and is longer as soon as
      one character needs escaping. */
  lemma {:induction false} QuoteLength(s: string)
    ensures |Quote(s)| >= |s|
    ensures (exists i :: 0 <= i < |s| && !IsSafe(s[i])) ==> |Quote(s)| > |s|
  {
    if s != [] {
      QuoteCons(s);
      QuoteOneChar(s[0]);
      QuoteLength(s[1..]);
      if exists i :: 0 <= i < |s| && !IsSafe(s[i]) {
        var i :| 0 <= i < |s| && !IsSafe(s[i]);
        if i > 0 { assert !IsSafe(s[1..][i - 1]); }
      }
    }
  }

  /** Everything Quote writes is a safe character or a `%`: the result can
      stand in a URI path as it is. */
  lemma {:induction false} QuoteBytesAlphabet(bs: seq<byte>)
    ensures forall i :: 0 <= i < |QuoteBytes(bs)| ==> IsSafe(QuoteBytes(bs)[i]) || QuoteBytes(bs)[i] == '%'
  {
    if bs != [] {
      QuoteBytesAlphabet(bs[1..]);
      var q := QuoteBytes(bs);
      var head := QuoteByte(bs[0]);
      forall i | 0 <= i < |q| ensures IsSafe(q[i]) || q[i] == '%' {
        if i >= |head| { assert q[i] == QuoteBytes(bs[1..])[i - |head|]; }
      }
    }
  }

  lemma QuoteAlphabet(s: string)
    ensures forall i :: 0 <= i < |Quote(s)| ==> IsSafe(Quote(s)[i]) || Quote(s)[i] == '%'
  {
    QuoteBytesAlphabet(Utf8Encode(s));
  }

  predicate IsUpperHexDigit(c: char) {
    ('0' <= c <= '9') || ('A' <= c <= 'F')
  }

  /** Every '%' in q starts an escape `%XX` whose two digits are uppercase hex. */
  predicate UpperEscapes(q: string)
    decreases |q|
  {
    if q == [] then true
    else if q[0] == '%' then |q| >= 3 && IsUpperHexDigit(q[1]) && IsUpperHexDigit(q[2]) && UpperEscapes(q[3..])
    else UpperEscapes(q[1..])
  }

  /** A byte outside the safe set becomes '%' and two uppercase hex digits
      that spell its value. */
  lemma QuoteByteEscape(b: byte)
    requires !IsSafeByte(b)
    ensures var q := QuoteByte(b);
            && |q| == 3 && q[0] == '%' && IsUpperHexDigit(q[1]) && IsUpperHexDigit(q[2])
            && HexValue(q[1]) * 16 + HexValue(q[2]) == b as int
  {
    HexDigitValue(b as int / 16);
    HexDigitValue(b as int % 16);
  }

  lemma {:induction false} QuoteBytesUpperEscapes(bs: seq<byte>)
    ensures UpperEscapes(QuoteBytes(bs))
  {
    if bs != [] {
      QuoteBytesUpperEscapes(bs[1..]);
      var q, rest := QuoteByte(bs[0]), QuoteBytes(bs[1..]);
      if IsSafeByte(bs[0]) {
        assert (q + rest)[1..] == rest;
      } else {
        QuoteByteEscape(bs[0]);
        assert (q + rest)[3..] == rest;
      }
    }
  }
}
