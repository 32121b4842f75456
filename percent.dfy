/** Percent-encoding of message text for a URI query, as Python's
    `urllib.parse.quote(text)` does it: the text is encoded as UTF-8, every
    byte of the unreserved set of section 2.3 of RFC 3986 (letters, digits,
    "-", ".", "_", "~") and the default safe character "/" is kept, every
    other byte becomes a "%" followed by two upper-case hexadecimal digits
    (section 2.1 of RFC 3986). Decoding is given beside it, so that the round
    trip can be stated. */
module Percent {
  import opened Text

  type Byte = x: int | 0 <= x < 256

  /** A Unicode scalar value: what a `char` holds and what UTF-8 encodes. */
  predicate IsScalar(n: int)
  {
    (0 <= n < 0xD800) || (0xE000 <= n < 0x11_0000)
  }

  /** The UTF-8 encoding of one character (section 3 of RFC 3629). */
  function Utf8Char(c: char): (bs: seq<Byte>)
    ensures 1 <= |bs| <= 4
  {
    var n := c as int;
    if n < 0x80 then [n]
    else if n < 0x800 then [0xC0 + n / 64, 0x80 + n % 64]
    else if n < 0x1_0000 then [0xE0 + n / 4096, 0x80 + (n / 64) % 64, 0x80 + n % 64]
    else [0xF0 + n / 262144, 0x80 + (n / 4096) % 64, 0x80 + (n / 64) % 64, 0x80 + n % 64]
  }

  function Utf8Encode(s: string): seq<Byte>
  {
    if s == [] then [] else Utf8Char(s[0]) + Utf8Encode(s[1..])
  }

  predicate IsContinuation(b: Byte) { 0x80 <= b < 0xC0 }

  /** Reads one character from the front of `bs`: the character and the
      number of bytes it took, or None when the bytes are not well-formed
      UTF-8 (a bad lead or continuation byte, an over-long form, a surrogate
      or a value past U+10FFFF). */
  function Utf8DecodeChar(bs: seq<Byte>): (r: Option<(char, nat)>)
    requires bs != []
    ensures r.Some? ==> 1 <= r.value.1 <= |bs|
  {
    var b0: int := bs[0];
    if b0 < 0x80 then Some((b0 as char, 1))
    else if 0xC0 <= b0 < 0xE0 && |bs| >= 2 && IsContinuation(bs[1]) then
      var n := (b0 - 0xC0) * 64 + (bs[1] as int - 0x80);
      if 0x80 <= n then Some((n as char, 2)) else None
    else if 0xE0 <= b0 < 0xF0 && |bs| >= 3 && IsContinuation(bs[1]) && IsContinuation(bs[2]) then
      var n := ((b0 - 0xE0) * 64 + (bs[1] as int - 0x80)) * 64 + (bs[2] as int - 0x80);
      if 0x800 <= n && IsScalar(n) then Some((n as char, 3)) else None
    else if 0xF0 <= b0 < 0xF8 && |bs| >= 4 && IsContinuation(bs[1]) && IsContinuation(bs[2])
            && IsContinuation(bs[3]) then
      var n := (((b0 - 0xF0) * 64 + (bs[1] as int - 0x80)) * 64 + (bs[2] as int - 0x80)) * 64 + (bs[3] as int - 0x80);
      if 0x1_0000 <= n && IsScalar(n) then Some((n as char, 4)) else None
    else None
  }

  function Utf8Decode(bs: seq<Byte>): Option<string>
    decreases |bs|
  {
    if bs == [] then Some([])
    else
      match Utf8DecodeChar(bs)
      case None => None
      case Some((c, k)) =>
        match Utf8Decode(bs[k..])
        case None => None
        case Some(rest) => Some([c] + rest)
  }

  lemma Utf8TwoBytes(c: char, rest: seq<Byte>)
    requires 0x80 <= c as int < 0x800
    ensures Utf8DecodeChar(Utf8Char(c) + rest) == Some((c, 2))
  {
    var n := c as int;
    var bs := Utf8Char(c) + rest;
    assert bs[0] == 0xC0 + n / 64 && bs[1] == 0x80 + n % 64;
  }

  lemma Utf8ThreeBytes(c: char, rest: seq<Byte>)
    requires 0x800 <= c as int < 0x1_0000
    ensures Utf8DecodeChar(Utf8Char(c) + rest) == Some((c, 3))
  {
    var n := c as int;
    var bs := Utf8Char(c) + rest;
    assert bs[0] == 0xE0 + n / 4096 && bs[1] == 0x80 + (n / 64) % 64 && bs[2] == 0x80 + n % 64;
    assert n / 64 == (n / 4096) * 64 + (n / 64) % 64;
    assert n == (n / 64) * 64 + n % 64;
  }

  lemma Utf8FourBytes(c: char, rest: seq<Byte>)
    requires 0x1_0000 <= c as int
    ensures Utf8DecodeChar(Utf8Char(c) + rest) == Some((c, 4))
  {
    var n := c as int;
    var bs := Utf8Char(c) + rest;
    assert bs[0] == 0xF0 + n / 262144 && bs[1] == 0x80 + (n / 4096) % 64
      && bs[2] == 0x80 + (n / 64) % 64 && bs[3] == 0x80 + n % 64;
    assert n / 4096 == (n / 262144) * 64 + (n / 4096) % 64;
    assert n / 64 == (n / 4096) * 64 + (n / 64) % 64;
    assert n == (n / 64) * 64 + n % 64;
  }

  /** The first character of an encoding decodes back, taking as many bytes as it was encoded in. */
  lemma Utf8CharDecodes(c: char, rest: seq<Byte>)
    ensures Utf8DecodeChar(Utf8Char(c) + rest) == Some((c, |Utf8Char(c)|))
  {
    var n := c as int;
    if n < 0x80 {
    } else if n < 0x800 {
      Utf8TwoBytes(c, rest);
    } else if n < 0x1_0000 {
      Utf8ThreeBytes(c, rest);
    } else {
      Utf8FourBytes(c, rest);
    }
  }

  /** UTF-8 decoding undoes UTF-8 encoding. */
  lemma {:induction false} Utf8RoundTrip(s: string)
    ensures Utf8Decode(Utf8Encode(s)) == Some(s)
  {
    if s != [] {
      var e := Utf8Char(s[0]);
      var bs := Utf8Encode(s);
      Utf8CharDecodes(s[0], Utf8Encode(s[1..]));
      assert bs[|e|..] == Utf8Encode(s[1..]);
      Utf8RoundTrip(s[1..]);
      assert s == [s[0]] + s[1..];
    }
  }

  /** Section 2.3 of RFC 3986: ALPHA / DIGIT / "-" / "." / "_" / "~". */
  predicate Unreserved(b: Byte)
  {
    ('A' as int <= b <= 'Z' as int) || ('a' as int <= b <= 'z' as int)
    || ('0' as int <= b <= '9' as int)
    || b == '-' as int || b == '.' as int || b == '_' as int || b == '~' as int
  }

  /** What `quote` leaves as it is: the unreserved bytes and its default safe "/". */
  predicate KeptAsIs(b: Byte)
  {
    Unreserved(b) || b == '/' as int
  }

  predicate IsHexDigit(c: char)
  {
    ('0' <= c <= '9') || ('A' <= c <= 'F')
  }

  function HexDigit(d: nat): (c: char)
    requires d < 16
    ensures IsHexDigit(c)
  {
    if d < 10 then (('0' as int) + d) as char else (('A' as int) + d - 10) as char
  }

  function HexValue(c: char): (d: nat)
    requires IsHexDigit(c)
    ensures d < 16
  {
    if c <= '9' then (c as int) - ('0' as int) else (c as int) - ('A' as int) + 10
  }

  /** One byte as it appears in the encoded text. */
  function QuoteByte(b: Byte): (r: string)
    ensures |r| == 1 || |r| == 3
  {
    if KeptAsIs(b) then [b as char] else ['%', HexDigit(b / 16), HexDigit(b % 16)]
  }

  /** Text that consists of kept characters and `%XX` triplets only. */
  predicate WellEncoded(t: string)
    decreases |t|
  {
    if t == [] then true
    else if t[0] == '%' then |t| >= 3 && IsHexDigit(t[1]) && IsHexDigit(t[2]) && WellEncoded(t[3..])
    else (t[0] as int) < 128 && KeptAsIs(t[0] as int) && WellEncoded(t[1..])
  }

  function QuoteBytes(bs: seq<Byte>): (r: string)
    ensures WellEncoded(r)
  {
    if bs == [] then []
    else
      var q, rest := QuoteByte(bs[0]), QuoteBytes(bs[1..]);
      assert (q + rest)[|q|..] == rest;
      q + rest
  }

  /** `urllib.parse.quote(text)` with its default safe set "/". */
  function Quote(text: string): string
  {
    QuoteBytes(Utf8Encode(text))
  }

  /** Percent-decoding of section 2.1 of RFC 3986 into bytes: a `%XX` triplet
      is the byte it names, an ASCII character is its own byte, and anything
      else (a stray "%", a non-ASCII character) is rejected. */
  function UnquoteBytes(t: string): Option<seq<Byte>>
    decreases |t|
  {
    if t == [] then Some([])
    else if t[0] == '%' then
      if |t| >= 3 && IsHexDigit(t[1]) && IsHexDigit(t[2]) then
        match UnquoteBytes(t[3..])
        case None => None
        case Some(rest) => Some([HexValue(t[1]) * 16 + HexValue(t[2])] + rest)
      else None
    else if (t[0] as int) < 128 then
      match UnquoteBytes(t[1..])
      case None => None
      case Some(rest) => Some([t[0] as int] + rest)
    else None
  }

  /** Percent-decoding undoes percent-encoding, byte for byte. */
  lemma {:induction false} UnquoteQuoteBytes(bs: seq<Byte>)
    ensures UnquoteBytes(QuoteBytes(bs)) == Some(bs)
  {
    if bs != [] {
      var b := bs[0];
      var q, rest := QuoteByte(b), QuoteBytes(bs[1..]);
      var t := q + rest;
      assert QuoteBytes(bs) == t;
      UnquoteQuoteBytes(bs[1..]);
      if KeptAsIs(b) {
        assert t[0] == b as char && t[1..] == rest;
      } else {
        assert t[0] == '%' && t[1] == HexDigit(b / 16) && t[2] == HexDigit(b % 16) && t[3..] == rest;
        assert HexValue(HexDigit(b / 16)) == b / 16;
        assert HexValue(HexDigit(b % 16)) == b % 16;
      }
      assert bs == [b] + bs[1..];
    }
  }

  /** Decoding the encoded text gives back the original text. */
  lemma QuoteRoundTrip(text: string)
    ensures UnquoteBytes(Quote(text)) == Some(Utf8Encode(text))
    ensures Utf8Decode(Utf8Encode(text)) == Some(text)
  {
    UnquoteQuoteBytes(Utf8Encode(text));
    Utf8RoundTrip(text);
  }

  /** Percent-encoded text never holds a space, a "+", a "?" or a "&". */
  lemma {:induction false} WellEncodedHasNoDelimiters(t: string)
    requires WellEncoded(t)
    ensures ' ' !in t && '+' !in t && '?' !in t && '&' !in t
    decreases |t|
  {
    if t != [] {
      if t[0] == '%' {
        WellEncodedHasNoDelimiters(t[3..]);
        assert t == t[..3] + t[3..];
      } else {
        WellEncodedHasNoDelimiters(t[1..]);
        assert t == [t[0]] + t[1..];
      }
    }
  }
}
