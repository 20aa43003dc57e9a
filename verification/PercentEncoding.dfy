/** Text to percent-encoded text and back: UTF-8, the percent-encoding of section 2.1 of RFC 3986, and the
    unreserved characters of its section 2.3. */
module PercentEncoding {
  predicate Unreserved(c: char) {
    'A' <= c <= 'Z' || 'a' <= c <= 'z' || '0' <= c <= '9' || c == '_' || c == '.' || c == '-' || c == '~'
  }

  predicate IsByte(b: int) {
    0 <= b < 256
  }

  predicate AreBytes(bytes: seq<int>) {
    forall k | 0 <= k < |bytes| :: IsByte(bytes[k])
  }

  // UTF-8.

  function Utf8(c: char): (bytes: seq<int>)
    ensures 1 <= |bytes| <= 4
  {
    var n := c as int;
    if n < 0x80 then [n]
    else if n < 0x800 then [0xC0 + n / 64, 0x80 + n % 64]
    else if n < 0x10000 then [0xE0 + n / 4096, 0x80 + n / 64 % 64, 0x80 + n % 64]
    else [0xF0 + n / 262144, 0x80 + n / 4096 % 64, 0x80 + n / 64 % 64, 0x80 + n % 64]
  }

  function Encode(s: string): seq<int> {
    if s == [] then [] else Utf8(s[0]) + Encode(s[1..])
  }

  predicate Continues(bytes: seq<int>, k: nat) {
    k < |bytes| && 0x80 <= bytes[k] <= 0xBF
  }

  const REPLACEMENT: char := '\U{FFFD}'

  /** The first character of non-empty bytes and how many of them it takes; an ill-formed start is
      replaced together with what could have been a longer character. */
  function DecodeOne(bytes: seq<int>): (r: (char, nat))
    requires bytes != [] && AreBytes(bytes)
    ensures 1 <= r.1 <= |bytes|
  {
    var b := bytes[0];
    if b < 0x80 then (b as char, 1)
    else if 0xC2 <= b <= 0xDF then
      if Continues(bytes, 1) then (((b - 0xC0) * 64 + (bytes[1] - 0x80)) as char, 2) else (REPLACEMENT, 1)
    else if 0xE0 <= b <= 0xEF then
      if !Continues(bytes, 1) || (b == 0xE0 && bytes[1] < 0xA0) || (b == 0xED && bytes[1] > 0x9F) then (REPLACEMENT, 1)
      else if !Continues(bytes, 2) then (REPLACEMENT, 2)
      else (((b - 0xE0) * 4096 + (bytes[1] - 0x80) * 64 + (bytes[2] - 0x80)) as char, 3)
    else if 0xF0 <= b <= 0xF4 then
      if !Continues(bytes, 1) || (b == 0xF0 && bytes[1] < 0x90) || (b == 0xF4 && bytes[1] > 0x8F) then (REPLACEMENT, 1)
      else if !Continues(bytes, 2) then (REPLACEMENT, 2)
      else if !Continues(bytes, 3) then (REPLACEMENT, 3)
      else
        (((b - 0xF0) * 262144 + (bytes[1] - 0x80) * 4096 + (bytes[2] - 0x80) * 64 + (bytes[3] - 0x80)) as char, 4)
    else (REPLACEMENT, 1)
  }

  function Decode(bytes: seq<int>): string
    requires AreBytes(bytes)
  {
    if bytes == [] then [] else
      var (c, n) := DecodeOne(bytes);
      [c] + Decode(bytes[n..])
  }

  lemma {:induction false} Utf8AreBytes(c: char)
    ensures AreBytes(Utf8(c))
  {
  }

  lemma {:induction false} EncodeAreBytes(s: string)
    ensures AreBytes(Encode(s))
  {
    if s != [] {
      Utf8AreBytes(s[0]);
      EncodeAreBytes(s[1..]);
    }
  }

  /** A code point and its digits to base 64. */
  lemma {:induction false} Digits(n: nat)
    ensures n == n / 64 * 64 + n % 64
    ensures n / 64 == n / 4096 * 64 + n / 64 % 64
    ensures n / 4096 == n / 262144 * 64 + n / 4096 % 64
  {
    assert n / 64 / 64 == n / 4096;
    assert n / 4096 / 64 == n / 262144;
  }

  lemma {:induction false} DecodeTwo(c: char, bytes: seq<int>)
    requires 0x80 <= c as int < 0x800 && AreBytes(bytes) && |bytes| >= 2
    requires bytes[0] == 0xC0 + c as int / 64 && bytes[1] == 0x80 + c as int % 64
    ensures DecodeOne(bytes) == (c, 2)
  {
    Digits(c as int);
  }

  lemma {:induction false} DecodeThree(c: char, bytes: seq<int>)
    requires 0x800 <= c as int < 0x10000 && AreBytes(bytes) && |bytes| >= 3
    requires bytes[0] == 0xE0 + c as int / 4096 && bytes[1] == 0x80 + c as int / 64 % 64
             && bytes[2] == 0x80 + c as int % 64
    ensures DecodeOne(bytes) == (c, 3)
  {
    var n := c as int;
    Digits(n);
    assert n == (bytes[0] - 0xE0) * 4096 + (bytes[1] - 0x80) * 64 + (bytes[2] - 0x80);
    assert 0 <= n / 4096 < 16;
    assert n < 0xD800 || 0xE000 <= n;
  }

  lemma {:induction false} DecodeFour(c: char, bytes: seq<int>)
    requires 0x10000 <= c as int && AreBytes(bytes) && |bytes| >= 4
    requires bytes[0] == 0xF0 + c as int / 262144 && bytes[1] == 0x80 + c as int / 4096 % 64
    requires bytes[2] == 0x80 + c as int / 64 % 64 && bytes[3] == 0x80 + c as int % 64
    ensures DecodeOne(bytes) == (c, 4)
  {
    var n := c as int;
    Digits(n);
    assert n == (bytes[0] - 0xF0) * 262144 + (bytes[1] - 0x80) * 4096 + (bytes[2] - 0x80) * 64 + (bytes[3] - 0x80);
    assert n <= 0x10FFFF;
    assert 0 <= n / 262144 <= 4;
  }

  lemma {:induction false} DecodeOneUtf8(c: char, rest: seq<int>)
    requires AreBytes(Utf8(c) + rest)
    ensures DecodeOne(Utf8(c) + rest) == (c, |Utf8(c)|)
  {
    var n, bytes := c as int, Utf8(c) + rest;
    assert forall k | 0 <= k < |Utf8(c)| :: bytes[k] == Utf8(c)[k];
    if n < 0x80 {
    } else {
      hide DecodeOne;
      if n < 0x800 {
        DecodeTwo(c, bytes);
      } else if n < 0x10000 {
        DecodeThree(c, bytes);
      } else {
        DecodeFour(c, bytes);
      }
    }
  }

  /** Decoding gives back what was encoded. */
  lemma {:induction false} DecodeEncode(s: string)
    ensures AreBytes(Encode(s)) && Decode(Encode(s)) == s
  {
    EncodeAreBytes(s);
    if s == [] {
    } else {
      DecodeEncode(s[1..]);
      DecodeOneUtf8(s[0], Encode(s[1..]));
      hide DecodeOne, Utf8;
      assert Encode(s)[|Utf8(s[0])|..] == Encode(s[1..]);
    }
  }

  // Percent-encoding.

  function HexDigit(d: int): (c: char)
    requires 0 <= d < 16
  {
    if d < 10 then ('0' as int + d) as char else ('A' as int + d - 10) as char
  }

  /** The value of a hexadecimal digit of either case; -1 for anything else. */
  function HexValue(c: char): (v: int)
    ensures -1 <= v < 16
  {
    if '0' <= c <= '9' then c as int - '0' as int
    else if 'A' <= c <= 'F' then c as int - 'A' as int + 10
    else if 'a' <= c <= 'f' then c as int - 'a' as int + 10
    else -1
  }

  function QuoteByte(b: int): (q: string)
    requires IsByte(b)
    ensures q != [] && |q| <= 3
  {
    if b < 0x80 && Unreserved(b as char) then [b as char] else ['%', HexDigit(b / 16), HexDigit(b % 16)]
  }

  function QuoteBytes(bytes: seq<int>): string
    requires AreBytes(bytes)
  {
    if bytes == [] then [] else QuoteByte(bytes[0]) + QuoteBytes(bytes[1..])
  }

  function Quote(s: string): string {
    EncodeAreBytes(s);
    QuoteBytes(Encode(s))
  }

  predicate Ascii(c: char) {
    c as int < 0x80
  }

  /** The bytes of ASCII text with its well-formed escapes resolved; other percent signs stand for themselves. */
  function Unescape(s: string): (bytes: seq<int>)
    requires forall k | 0 <= k < |s| :: Ascii(s[k])
    ensures AreBytes(bytes)
  {
    if s == [] then []
    else if s[0] == '%' && |s| >= 3 && HexValue(s[1]) >= 0 && HexValue(s[2]) >= 0
    then [16 * HexValue(s[1]) + HexValue(s[2])] + Unescape(s[3..])
    else
      assert Ascii(s[0]);
      [s[0] as int] + Unescape(s[1..])
  }

  /** How far the ASCII text at the start reaches. */
  function AsciiRun(s: string): (n: nat)
    ensures n <= |s| && forall k | 0 <= k < n :: Ascii(s[k])
    ensures n < |s| ==> !Ascii(s[n])
  {
    if s == [] || !Ascii(s[0]) then 0 else 1 + AsciiRun(s[1..])
  }

  /** Each run of ASCII text is unescaped and decoded; other characters stay. */
  function Unquote(s: string): string {
    if s == [] then []
    else
      var n := AsciiRun(s);
      if n == 0 then [s[0]] + Unquote(s[1..]) else Decode(Unescape(s[..n])) + Unquote(s[n..])
  }

  lemma {:induction false} UnescapeQuoteByte(b: int, rest: string)
    requires IsByte(b) && forall k | 0 <= k < |rest| :: Ascii(rest[k])
    ensures forall k | 0 <= k < |QuoteByte(b) + rest| :: Ascii((QuoteByte(b) + rest)[k])
    ensures Unescape(QuoteByte(b) + rest) == [b] + Unescape(rest)
  {
    var q := QuoteByte(b) + rest;
    assert q[|QuoteByte(b)|..] == rest;
    if |QuoteByte(b)| == 3 {
      assert HexValue(HexDigit(b / 16)) == b / 16 && HexValue(HexDigit(b % 16)) == b % 16;
      assert q[1] == HexDigit(b / 16) && q[2] == HexDigit(b % 16);
    }
  }

  lemma {:induction false} UnescapeQuoteBytes(bytes: seq<int>)
    requires AreBytes(bytes)
    ensures forall k | 0 <= k < |QuoteBytes(bytes)| :: Ascii(QuoteBytes(bytes)[k])
    ensures Unescape(QuoteBytes(bytes)) == bytes
  {
    if bytes != [] {
      UnescapeQuoteBytes(bytes[1..]);
      UnescapeQuoteByte(bytes[0], QuoteBytes(bytes[1..]));
    }
  }

  /** Unquoting gives back every text that was quoted. */
  lemma {:induction false} UnquoteQuote(s: string)
    ensures Unquote(Quote(s)) == s
  {
    EncodeAreBytes(s);
    UnescapeQuoteBytes(Encode(s));
    DecodeEncode(s);
    var q := Quote(s);
    hide QuoteBytes, Encode, Decode, Unescape;
    if q != [] {
      assert AsciiRun(q) == |q|;
      assert q[..|q|] == q && q[|q|..] == [];
    }
  }

  // Which characters quoted text has.

  lemma {:induction false} QuoteBytesConcat(a: seq<int>, b: seq<int>)
    requires AreBytes(a) && AreBytes(b)
    ensures AreBytes(a + b) && QuoteBytes(a + b) == QuoteBytes(a) + QuoteBytes(b)
  {
    if a == [] {
      assert a + b == b;
    } else {
      assert (a + b)[1..] == a[1..] + b;
      QuoteBytesConcat(a[1..], b);
      assert QuoteBytes(a + b) == QuoteByte(a[0]) + (QuoteBytes(a[1..]) + QuoteBytes(b));
    }
  }

  lemma {:induction false} EncodeNext(s: string)
    requires s != []
    ensures Encode(s) == Utf8(s[0]) + Encode(s[1..])
  {
  }

  lemma {:induction false} EncodeConcat(s: string, t: string)
    ensures Encode(s + t) == Encode(s) + Encode(t)
  {
    if s == [] {
      assert s + t == t;
    } else {
      assert (s + t)[1..] == s[1..] + t;
      EncodeConcat(s[1..], t);
      EncodeNext(s + t);
      EncodeNext(s);
      hide Utf8, Encode;
      assert Utf8(s[0]) + (Encode(s[1..]) + Encode(t)) == (Utf8(s[0]) + Encode(s[1..])) + Encode(t);
    }
  }

  lemma {:induction false} QuoteConcat(s: string, t: string)
    ensures Quote(s + t) == Quote(s) + Quote(t)
  {
    EncodeConcat(s, t);
    EncodeAreBytes(s);
    EncodeAreBytes(t);
    QuoteBytesConcat(Encode(s), Encode(t));
  }

  lemma {:induction false} QuotedBytes(bytes: seq<int>)
    requires AreBytes(bytes)
    ensures bytes != [] ==> QuoteBytes(bytes) != []
    ensures forall k | 0 <= k < |QuoteBytes(bytes)| :: Unreserved(QuoteBytes(bytes)[k]) || QuoteBytes(bytes)[k] == '%'
    ensures 0x2D !in bytes ==> '-' !in QuoteBytes(bytes)
  {
    if bytes != [] {
      QuotedBytes(bytes[1..]);
      assert forall d | 0 <= d < 16 :: Unreserved(HexDigit(d)) && HexDigit(d) != '-';
      hide HexDigit;
    }
  }

  lemma {:induction false} QuoteOne(c: char)
    ensures Quote([c]) != []
    ensures forall k | 0 <= k < |Quote([c])| :: Unreserved(Quote([c])[k]) || Quote([c])[k] == '%'
    ensures if c == '-' then Quote([c]) == ['-'] else '-' !in Quote([c])
  {
    Utf8AreBytes(c);
    var bytes := Utf8(c);
    assert Encode([c]) == Utf8(c) + Encode([]) == bytes;
    QuotedBytes(bytes);
    if c == '-' {
      assert bytes == [0x2D] && bytes[1..] == [];
      assert QuoteBytes(bytes) == QuoteByte(0x2D) + QuoteBytes([]);
    } else {
      assert 0x2D !in bytes;
    }
  }

  lemma {:induction false} QuoteNothing()
    ensures Quote([]) == []
  {
  }

  /** Quoted text consists of unreserved characters and percent signs, is empty only for empty text, and
      has a hyphen only where the text has one. */
  lemma {:induction false} QuotedCharacters(s: string)
    ensures s != [] ==> Quote(s) != []
    ensures forall k | 0 <= k < |Quote(s)| :: Unreserved(Quote(s)[k]) || Quote(s)[k] == '%'
    ensures '-' in Quote(s) <==> '-' in s
  {
    hide Quote;
    if s == [] {
      QuoteNothing();
    } else {
      QuotedCharacters(s[1..]);
      QuoteOne(s[0]);
      assert s == [s[0]] + s[1..];
      QuoteConcat([s[0]], s[1..]);
    }
  }

  // The standards.

  /** The bytes of a character have the forms of section 3 of RFC 3629, and the character's number in their bits. */
  lemma {:induction false} Utf8Form(c: char)
    ensures var n, bytes := c as int, Utf8(c);
      if n <= 0x7F then bytes == [n]
      else if n <= 0x7FF then
        && |bytes| == 2 && 0xC0 <= bytes[0] < 0xE0 && 0x80 <= bytes[1] < 0xC0
        && n == (bytes[0] - 0xC0) * 64 + bytes[1] - 0x80
      else if n <= 0xFFFF then
        && |bytes| == 3 && 0xE0 <= bytes[0] < 0xF0 && 0x80 <= bytes[1] < 0xC0 && 0x80 <= bytes[2] < 0xC0
        && n == (bytes[0] - 0xE0) * 4096 + (bytes[1] - 0x80) * 64 + bytes[2] - 0x80
      else
        && |bytes| == 4 && 0xF0 <= bytes[0] < 0xF8 && 0x80 <= bytes[1] < 0xC0
        && 0x80 <= bytes[2] < 0xC0 && 0x80 <= bytes[3] < 0xC0
        && n == (bytes[0] - 0xF0) * 262144 + (bytes[1] - 0x80) * 4096 + (bytes[2] - 0x80) * 64 + bytes[3] - 0x80
  {
    Digits(c as int);
  }

  /** A byte is quoted as the unreserved character it stands for, and else as a percent sign and two upper-case
      hexadecimal digits. */
  lemma {:induction false} QuotedByteForm(b: int)
    requires IsByte(b)
    ensures var q := QuoteByte(b);
      if b < 0x80 && Unreserved(b as char) then q == [b as char]
      else
        && |q| == 3 && q[0] == '%'
        && (forall k | 1 <= k <= 2 :: '0' <= q[k] <= '9' || 'A' <= q[k] <= 'F')
        && b == HexValue(q[1]) * 16 + HexValue(q[2])
  {
  }

  /** A text is quoted character by character, each as the quoted bytes of its UTF-8 form. */
  lemma {:induction false} QuotedInTurn(s: string)
    requires s != []
    ensures AreBytes(Utf8(s[0])) && Quote(s) == QuoteBytes(Utf8(s[0])) + Quote(s[1..])
  {
    Utf8AreBytes(s[0]);
    EncodeAreBytes(s[1..]);
    QuoteBytesConcat(Utf8(s[0]), Encode(s[1..]));
  }
}
