/** The percent-encoding that `urllib.parse.quote(name, safe='/')` applies to a
    B2 file name: the name is encoded as UTF-8 (RFC 3629), and every byte that is
    neither an unreserved character (section 2.3 of RFC 3986) nor `/` becomes a
    `%XX` triplet with upper-case hex digits (section 2.1 of RFC 3986).

    Beside the encoder stand reference decoders (percent-decoding and UTF-8
    decoding) and the round trip `Unquote(Quote(name)) == Some(name)`. */
module UrlQuote {
  import opened Wrappers

  type byte = x: int | 0 <= x < 256

  // ---------------------------------------------------------------------------
  // UTF-8
  // ---------------------------------------------------------------------------

  /** A Unicode scalar value: a code point that is not a surrogate. */
  predicate IsScalar(n: int) {
    0 <= n < 0xD800 || 0xE000 <= n < 0x11_0000
  }

  predicate IsContinuation(b: byte) {
    0x80 <= b < 0xC0
  }

  /** The UTF-8 encoding of one character. */
  function EncodeChar(c: char): (bs: seq<byte>)
    ensures 1 <= |bs| <= 4
    ensures (c as int < 0x80) == (|bs| == 1)
    ensures forall i :: 1 <= i < |bs| ==> IsContinuation(bs[i])
  {
    var n := c as int;
    if n < 0x80 then [n]
    else if n < 0x800 then [0xC0 + n / 64, 0x80 + n % 64]
    else if n < 0x1_0000 then [0xE0 + n / 4096, 0x80 + (n / 64) % 64, 0x80 + n % 64]
    else [0xF0 + n / 262144, 0x80 + (n / 4096) % 64, 0x80 + (n / 64) % 64, 0x80 + n % 64]
  }

  function Utf8Encode(s: string): (bs: seq<byte>)
    ensures |bs| >= |s|
  {
    if s == [] then [] else EncodeChar(s[0]) + Utf8Encode(s[1..])
  }

  /** Decodes the character at the head of `bs`, with the number of bytes it
      took; `None` when the head is not a well-formed, shortest-form UTF-8
      sequence of a scalar value. */
  function DecodeChar(bs: seq<byte>): (r: Option<(char, nat)>)
    requires |bs| > 0
    ensures r.Some? ==> 1 <= r.value.1 <= |bs| && r.value.1 <= 4
  {
    var b0, b1, b2, b3: int := bs[0], if |bs| > 1 then bs[1] else 0,
                               if |bs| > 2 then bs[2] else 0, if |bs| > 3 then bs[3] else 0;
    if b0 < 0x80 then
      Some((b0 as char, 1))
    else if 0xC0 <= b0 < 0xE0 && |bs| >= 2 && IsContinuation(bs[1]) then
      var n := (b0 - 0xC0) * 64 + (b1 - 0x80);
      if 0x80 <= n then Some((n as char, 2)) else None
    else if 0xE0 <= b0 < 0xF0 && |bs| >= 3 && IsContinuation(bs[1]) && IsContinuation(bs[2]) then
      var n := (b0 - 0xE0) * 4096 + (b1 - 0x80) * 64 + (b2 - 0x80);
      if 0x800 <= n && IsScalar(n) then Some((n as char, 3)) else None
    else if 0xF0 <= b0 < 0xF8 && |bs| >= 4 && IsContinuation(bs[1]) && IsContinuation(bs[2])
            && IsContinuation(bs[3]) then
      var n := (b0 - 0xF0) * 262144 + (b1 - 0x80) * 4096 + (b2 - 0x80) * 64 + (b3 - 0x80);
      if 0x1_0000 <= n && IsScalar(n) then Some((n as char, 4)) else None
    else
      None
  }

  function Utf8Decode(bs: seq<byte>): Option<string>
    decreases |bs|
  {
    if bs == [] then Some([])
    else
      match DecodeChar(bs)
      case None => None
      case Some((c, k)) =>
        match Utf8Decode(bs[k..])
        case None => None
        case Some(rest) => Some([c] + rest)
  }

  lemma DivSplit(n: nat)
    ensures n / 64 == (n / 4096) * 64 + (n / 64) % 64
    ensures n / 4096 == (n / 262144) * 64 + (n / 4096) % 64
  {
  }

  /** Decoding reads back exactly the character that was encoded, whatever follows it. */
  lemma DecodeEncodeChar(c: char, rest: seq<byte>)
    ensures DecodeChar(EncodeChar(c) + rest) == Some((c, |EncodeChar(c)|))
  {
    var n := c as int;
    DivSplit(n);
  }

  lemma {:induction false} Utf8RoundTrip(s: string)
    ensures Utf8Decode(Utf8Encode(s)) == Some(s)
  {
    if s != [] {
      var head := EncodeChar(s[0]);
      var bs := Utf8Encode(s);
      assert bs == head + Utf8Encode(s[1..]);
      DecodeEncodeChar(s[0], Utf8Encode(s[1..]));
      assert bs[|head|..] == Utf8Encode(s[1..]);
      Utf8RoundTrip(s[1..]);
      assert [s[0]] + s[1..] == s;
    }
  }

  // ---------------------------------------------------------------------------
  // Percent-encoding
  // ---------------------------------------------------------------------------

  /** Section 2.3 of RFC 3986: ALPHA / DIGIT / "-" / "." / "_" / "~". */
  predicate IsUnreserved(b: byte) {
    || 'A' as int <= b <= 'Z' as int
    || 'a' as int <= b <= 'z' as int
    || '0' as int <= b <= '9' as int
    || b == '-' as int || b == '.' as int || b == '_' as int || b == '~' as int
  }

  /** The bytes `quote(..., safe='/')` leaves as they are. */
  predicate IsSafe(b: byte) {
    IsUnreserved(b) || b == '/' as int
  }

  /** Upper-case hex digit of a value below 16. */
  function HexDigit(d: nat): (c: char)
    requires d < 16
    ensures ('0' <= c <= '9') || ('A' <= c <= 'F')
  {
    if d < 10 then ('0' as int + d) as char else ('A' as int + d - 10) as char
  }

  /** The value of a hex digit of either case. */
  function HexValue(c: char): (r: Option<nat>)
    ensures r.Some? ==> r.value < 16
  {
    if '0' <= c <= '9' then Some(c as int - '0' as int)
    else if 'A' <= c <= 'F' then Some(c as int - 'A' as int + 10)
    else if 'a' <= c <= 'f' then Some(c as int - 'a' as int + 10)
    else None
  }

  /** Characters that can appear in a percent-encoded name. */
  predicate IsQuotedChar(c: char) {
    (c as int < 128 && IsSafe(c as int)) || c == '%' || IsHexDigit(c)
  }

  predicate IsHexDigit(c: char) {
    ('0' <= c <= '9') || ('A' <= c <= 'F')
  }

  /** One byte of the UTF-8 name, quoted. */
  function QuoteByte(b: byte): (r: string)
    ensures IsSafe(b) ==> r == [b as char]
    ensures !IsSafe(b) ==> |r| == 3 && r[0] == '%' && IsHexDigit(r[1]) && IsHexDigit(r[2])
                           && HexValue(r[1]).value * 16 + HexValue(r[2]).value == b
    ensures forall i :: 0 <= i < |r| ==> IsQuotedChar(r[i])
  {
    if IsSafe(b) then [b as char] else ['%', HexDigit(b / 16), HexDigit(b % 16)]
  }

  function QuoteBytes(bs: seq<byte>): (r: string)
    ensures forall i :: 0 <= i < |r| ==> IsQuotedChar(r[i])
  {
    if bs == [] then [] else QuoteByte(bs[0]) + QuoteBytes(bs[1..])
  }

  /** `urllib.parse.quote(name, safe='/')`. */
  function Quote(name: string): (r: string)
    ensures forall i :: 0 <= i < |r| ==> IsQuotedChar(r[i])
  {
    QuoteBytes(Utf8Encode(name))
  }

  /** Reference percent-decoder (section 2.1 of RFC 3986): `%XX` gives the byte
      XX, an ASCII character gives its own code, anything else is malformed. */
  function UnquoteBytes(s: string): Option<seq<byte>> {
    if s == [] then Some([])
    else if s[0] == '%' then
      if |s| >= 3 && HexValue(s[1]).Some? && HexValue(s[2]).Some? then
        match UnquoteBytes(s[3..])
        case None => None
        case Some(rest) => Some([HexValue(s[1]).value * 16 + HexValue(s[2]).value] + rest)
      else None
    else if s[0] as int < 128 then
      match UnquoteBytes(s[1..])
      case None => None
      case Some(rest) => Some([s[0] as int] + rest)
    else None
  }

  /** Percent-decoding followed by UTF-8 decoding. */
  function Unquote(s: string): Option<string> {
    match UnquoteBytes(s)
    case None => None
    case Some(bs) => Utf8Decode(bs)
  }

  lemma UnquoteQuoteByte(b: byte, rest: string)
    ensures UnquoteBytes(QuoteByte(b) + rest) ==
            match UnquoteBytes(rest)
            case None => None
            case Some(tail) => Some([b] + tail)
  {
    var q := QuoteByte(b);
    if IsSafe(b) {
      assert (q + rest)[1..] == rest;
    } else {
      assert (q + rest)[3..] == rest;
    }
  }

  lemma {:induction false} QuoteBytesRoundTrip(bs: seq<byte>)
    ensures UnquoteBytes(QuoteBytes(bs)) == Some(bs)
  {
    if bs != [] {
      UnquoteQuoteByte(bs[0], QuoteBytes(bs[1..]));
      QuoteBytesRoundTrip(bs[1..]);
      assert [bs[0]] + bs[1..] == bs;
    }
  }

  /** Percent-decoding the quoted name gives back the original file name. */
  lemma QuoteRoundTrip(name: string)
    ensures Unquote(Quote(name)) == Some(name)
  {
    QuoteBytesRoundTrip(Utf8Encode(name));
    Utf8RoundTrip(name);
  }

  /** The quoted name never contains `?` or `#`, so it cannot start a query or
      a fragment of the URL it is placed in, and it is pure ASCII. */
  lemma QuoteIsUrlSafe(name: string)
    ensures forall i :: 0 <= i < |Quote(name)| ==>
              Quote(name)[i] != '?' && Quote(name)[i] != '#' && Quote(name)[i] as int < 128
  {
  }

  predicate IsSafeChar(c: char) {
    c as int < 128 && IsSafe(c as int)
  }

  /** A name made only of unreserved characters and `/` is left unchanged. */
  lemma {:induction false} QuoteKeepsSafeName(name: string)
    requires forall i :: 0 <= i < |name| ==> IsSafeChar(name[i])
    ensures Quote(name) == name
  {
    if name != [] {
      QuoteKeepsSafeName(name[1..]);
      assert Utf8Encode(name) == [name[0] as int] + Utf8Encode(name[1..]);
      assert [name[0]] + name[1..] == name;
    }
  }
}
