/**
 * ECMAScript's `encodeURIComponent` and `decodeURIComponent` (the Encode and
 * Decode abstract operations of the URI handling functions, section 19.2.6 of
 * ECMA-262), over strings of Unicode scalar values.
 *
 * Encoding keeps the unreserved characters of section 2.3 of RFC 2396 and
 * writes every other character as its UTF-8 bytes, each as `%` and two
 * upper-case hexadecimal digits (section 2.1 of RFC 3986). Decoding accepts
 * either case of hex digit and fails, as `decodeURIComponent` throws, on a
 * malformed escape or an invalid UTF-8 sequence.
 */
module UriComponent {
  import opened Wrappers

  type Byte = x: int | 0 <= x < 0x100

  /** The characters `encodeURIComponent` leaves as they are. */
  predicate IsUnreserved(c: char) {
    || ('A' <= c <= 'Z') || ('a' <= c <= 'z') || ('0' <= c <= '9')
    || c == '-' || c == '_' || c == '.' || c == '!' || c == '~'
    || c == '*' || c == '\'' || c == '(' || c == ')'
  }

  /** Upper-case hexadecimal digit for 0..15. */
  function HexDigit(n: nat): (c: char)
    requires n < 16
    ensures IsUnreserved(c)
  {
    if n < 10 then ('0' as int + n) as char else ('A' as int + n - 10) as char
  }

  predicate IsHexDigit(c: char) {
    ('0' <= c <= '9') || ('A' <= c <= 'F') || ('a' <= c <= 'f')
  }

  /** The value of a hexadecimal digit of either case. */
  function HexValue(c: char): (n: nat)
    requires IsHexDigit(c)
    ensures n < 16
  {
    if '0' <= c <= '9' then c as int - '0' as int
    else if 'A' <= c <= 'F' then c as int - 'A' as int + 10
    else c as int - 'a' as int + 10
  }

  lemma HexRoundTrip(n: nat)
    requires n < 16
    ensures IsHexDigit(HexDigit(n)) && HexValue(HexDigit(n)) == n
  {
  }

  // ---------------------------------------------------------------- UTF-8

  /** The UTF-8 encoding of one code point. */
  function Utf8(c: char): (bs: seq<Byte>)
    ensures 1 <= |bs| <= 4
  {
    var v := c as int;
    if v < 0x80 then
      [v]
    else if v < 0x800 then
      [0xC0 + v / 0x40, 0x80 + v % 0x40]
    else if v < 0x1_0000 then
      [0xE0 + v / 0x1000, 0x80 + (v / 0x40) % 0x40, 0x80 + v % 0x40]
    else
      [0xF0 + v / 0x4_0000, 0x80 + (v / 0x1000) % 0x40, 0x80 + (v / 0x40) % 0x40, 0x80 + v % 0x40]
  }

  /** The number of leading one bits of an octet: the length of the UTF-8 sequence it starts. */
  function LeadingOnes(b: Byte): (n: nat)
    ensures n <= 8
  {
    if b < 0x80 then 0
    else if b < 0xC0 then 1
    else if b < 0xE0 then 2
    else if b < 0xF0 then 3
    else if b < 0xF8 then 4
    else if b < 0xFC then 5
    else if b < 0xFE then 6
    else if b < 0xFF then 7
    else 8
  }

  predicate IsContinuation(b: Byte) {
    0x80 <= b < 0xC0
  }

  /** True when `v` is a Unicode scalar value (a code point that is not a surrogate). */
  predicate IsScalar(v: int) {
    (0 <= v < 0xD800) || (0xE000 <= v < 0x11_0000)
  }

  /**
   * The code point whose UTF-8 encoding `bs` is, or None when `bs` is not the
   * shortest well-formed encoding of one scalar value.
   */
  function Utf8Decode(bs: seq<Byte>): (r: Option<char>)
  {
    if |bs| == 1 then
      if bs[0] < 0x80 then Some(bs[0] as char) else None
    else if |bs| == 2 then
      if 0xC0 <= bs[0] < 0xE0 && IsContinuation(bs[1]) then
        var v := (bs[0] as int - 0xC0) * 0x40 + (bs[1] as int - 0x80);
        if 0x80 <= v then Some(v as char) else None
      else None
    else if |bs| == 3 then
      if 0xE0 <= bs[0] < 0xF0 && IsContinuation(bs[1]) && IsContinuation(bs[2]) then
        var v := (bs[0] as int - 0xE0) * 0x1000 + (bs[1] as int - 0x80) * 0x40 + (bs[2] as int - 0x80);
        if 0x800 <= v && IsScalar(v) then Some(v as char) else None
      else None
    else if |bs| == 4 then
      if 0xF0 <= bs[0] < 0xF8 && IsContinuation(bs[1]) && IsContinuation(bs[2]) && IsContinuation(bs[3]) then
        var v := (bs[0] as int - 0xF0) * 0x4_0000 + (bs[1] as int - 0x80) * 0x1000
                 + (bs[2] as int - 0x80) * 0x40 + (bs[3] as int - 0x80);
        if 0x1_0000 <= v && IsScalar(v) then Some(v as char) else None
      else None
    else None
  }

  /** UTF-8 decoding inverts UTF-8 encoding, and the lead octet announces the length. */
  lemma Utf8RoundTrip(c: char)
    ensures Utf8Decode(Utf8(c)) == Some(c)
    ensures var bs := Utf8(c); LeadingOnes(bs[0]) == if |bs| == 1 then 0 else |bs|
  {
    var v := c as int;
    if v < 0x80 {
    } else if v < 0x800 {
      assert v == (v / 0x40) * 0x40 + v % 0x40;
    } else if v < 0x1_0000 {
      assert v / 0x40 == (v / 0x1000) * 0x40 + (v / 0x40) % 0x40;
      assert v == (v / 0x40) * 0x40 + v % 0x40;
    } else {
      assert v / 0x1000 == (v / 0x4_0000) * 0x40 + (v / 0x1000) % 0x40;
      assert v / 0x40 == (v / 0x1000) * 0x40 + (v / 0x40) % 0x40;
      assert v == (v / 0x40) * 0x40 + v % 0x40;
    }
  }

  // ---------------------------------------------------------------- encoding

  /** One octet as `%` and two upper-case hex digits. */
  function PercentOctet(b: Byte): (r: string)
    ensures |r| == 3 && r[0] == '%' && IsUnreserved(r[1]) && IsUnreserved(r[2])
  {
    ['%', HexDigit(b / 16), HexDigit(b % 16)]
  }

  function PercentOctets(bs: seq<Byte>): (r: string)
    ensures |r| == 3 * |bs|
    ensures forall i :: 0 <= i < |r| ==> IsUnreserved(r[i]) || r[i] == '%'
  {
    if bs == [] then "" else PercentOctet(bs[0]) + PercentOctets(bs[1..])
  }

  /** One character as `encodeURIComponent` writes it. */
  function EncodeChar(c: char): (r: string)
    ensures |r| >= 1
    ensures forall i :: 0 <= i < |r| ==> IsUnreserved(r[i]) || r[i] == '%'
  {
    if IsUnreserved(c) then [c] else PercentOctets(Utf8(c))
  }

  /** `encodeURIComponent(s)`. */
  function Encode(s: string): (r: string)
    ensures |r| >= |s|
    ensures forall i :: 0 <= i < |r| ==> IsUnreserved(r[i]) || r[i] == '%'
  {
    if s == [] then "" else EncodeChar(s[0]) + Encode(s[1..])
  }

  // ---------------------------------------------------------------- decoding

  /** The octet a `%HH` escape at the start of `t` denotes. */
  function ReadOctet(t: string): (r: Option<Byte>) {
    if |t| >= 3 && t[0] == '%' && IsHexDigit(t[1]) && IsHexDigit(t[2]) then
      Some(HexValue(t[1]) * 16 + HexValue(t[2]))
    else
      None
  }

  /** `count` consecutive `%HH` escapes at the start of `t`. */
  function ReadOctets(t: string, count: nat): (r: Option<seq<Byte>>)
    ensures r.Some? ==> |r.value| == count && 3 * count <= |t|
  {
    if count == 0 then Some([])
    else
      match ReadOctet(t)
      case None => None
      case Some(b) =>
        match ReadOctets(t[3..], count - 1)
        case None => None
        case Some(rest) => Some([b] + rest)
  }

  /**
   * The character an escape sequence at the start of `t` stands for and the
   * number of characters it takes: one escape for an octet below 0x80, else as
   * many escapes as the lead octet's leading ones, which must be 2, 3 or 4.
   */
  function DecodeEscape(t: string): (r: Option<(char, nat)>)
    ensures r.Some? ==> 3 <= r.value.1 <= |t|
  {
    match ReadOctet(t)
    case None => None
    case Some(b) =>
      var n := LeadingOnes(b);
      if n == 0 then Some((b as char, 3))
      else if n == 1 || n > 4 then None
      else
        match ReadOctets(t, n)
        case None => None
        case Some(octets) =>
          match Utf8Decode(octets)
          case None => None
          case Some(c) => Some((c, 3 * n))
  }

  /** `decodeURIComponent(t)`, with None where it throws a URIError. */
  function Decode(t: string): (r: Option<string>)
    ensures r.Some? ==> |r.value| <= |t|
    ensures (forall i :: 0 <= i < |t| ==> t[i] != '%') ==> r == Some(t)
    decreases |t|
  {
    if t == [] then Some("")
    else if t[0] != '%' then
      assert (forall i :: 0 <= i < |t| ==> t[i] != '%') ==> forall i :: 0 <= i < |t[1..]| ==> t[1..][i] != '%';
      assert [t[0]] + t[1..] == t;
      match Decode(t[1..])
      case None => None
      case Some(s) => Some([t[0]] + s)
    else
      match DecodeEscape(t)
      case None => None
      case Some((c, k)) =>
        match Decode(t[k..])
        case None => None
        case Some(s) => Some([c] + s)
  }

  // ---------------------------------------------------------------- properties

  lemma {:induction false} ReadPercentOctets(bs: seq<Byte>, rest: string)
    ensures ReadOctets(PercentOctets(bs) + rest, |bs|) == Some(bs)
  {
    if bs != [] {
      var t := PercentOctets(bs) + rest;
      var b := bs[0];
      HexRoundTrip(b / 16);
      HexRoundTrip(b % 16);
      assert t == PercentOctet(b) + (PercentOctets(bs[1..]) + rest);
      assert t[0] == '%' && t[1] == HexDigit(b / 16) && t[2] == HexDigit(b % 16);
      assert ReadOctet(t) == Some(b);
      assert t[3..] == PercentOctets(bs[1..]) + rest;
      ReadPercentOctets(bs[1..], rest);
      assert [b] + bs[1..] == bs;
    }
  }

  /** An escaped character decodes back to itself, taking exactly its encoding. */
  lemma DecodeEscapedChar(c: char, rest: string)
    requires !IsUnreserved(c)
    ensures DecodeEscape(EncodeChar(c) + rest) == Some((c, |EncodeChar(c)|))
  {
    var bs := Utf8(c);
    var t := EncodeChar(c) + rest;
    Utf8RoundTrip(c);
    ReadPercentOctets(bs, rest);
    assert PercentOctets(bs) + rest == PercentOctet(bs[0]) + (PercentOctets(bs[1..]) + rest);
    ReadPercentOctets([bs[0]], PercentOctets(bs[1..]) + rest);
    assert ReadOctet(t) == Some(bs[0]);
  }

  /** `decodeURIComponent(encodeURIComponent(s)) == s`. */
  lemma {:induction false} DecodeEncode(s: string)
    ensures Decode(Encode(s)) == Some(s)
  {
    if s != [] {
      var t := Encode(s);
      DecodeEncode(s[1..]);
      assert [s[0]] + s[1..] == s;
      if IsUnreserved(s[0]) {
        assert t[0] == s[0] && t[1..] == Encode(s[1..]);
        assert Decode(t) == Some([s[0]] + s[1..]);
      } else {
        var e := EncodeChar(s[0]);
        DecodeEscapedChar(s[0], Encode(s[1..]));
        assert t[0] == e[0] == '%';
        assert t[|e|..] == Encode(s[1..]);
        assert Decode(t) == Some([s[0]] + s[1..]);
      }
    }
  }

  /** Encoding is injective: distinct strings have distinct encodings. */
  lemma EncodeInjective(a: string, b: string)
    requires Encode(a) == Encode(b)
    ensures a == b
  {
    DecodeEncode(a);
    DecodeEncode(b);
  }

  /** Encoding a concatenation concatenates the encodings. */
  lemma {:induction false} EncodeAppend(a: string, b: string)
    ensures Encode(a + b) == Encode(a) + Encode(b)
  {
    if a != [] {
      assert (a + b)[0] == a[0];
      assert (a + b)[1..] == a[1..] + b;
      EncodeAppend(a[1..], b);
    } else {
      assert a + b == b;
    }
  }

  predicate AllUnreserved(s: string) {
    forall i :: 0 <= i < |s| ==> IsUnreserved(s[i])
  }

  /** A string of unreserved characters encodes as itself. */
  lemma {:induction false} EncodeUnreserved(s: string)
    requires AllUnreserved(s)
    ensures Encode(s) == s
  {
    if s != [] {
      EncodeUnreserved(s[1..]);
    }
  }

  /** `:` and `/` are escaped with their ASCII codes. */
  lemma EncodeColonSlash()
    ensures Encode(":") == "%3A" && Encode("/") == "%2F"
  {
    assert Utf8(':') == [0x3A] && PercentOctet(0x3A) == "%3A";
    assert Utf8('/') == [0x2F] && PercentOctet(0x2F) == "%2F";
  }

  /** The encoding of a URL `scheme://host/p/q` whose four parts need no escaping. */
  lemma EncodeSimpleUrl(scheme: string, host: string, p: string, q: string)
    requires AllUnreserved(scheme) && AllUnreserved(host) && AllUnreserved(p) && AllUnreserved(q)
    ensures Encode(scheme + ":" + "/" + "/" + host + "/" + p + "/" + q)
         == scheme + "%3A" + "%2F" + "%2F" + host + "%2F" + p + "%2F" + q
  {
    EncodeColonSlash();
    EncodeUnreserved(scheme);
    EncodeUnreserved(host);
    EncodeUnreserved(p);
    EncodeUnreserved(q);
    var s1 := scheme + ":";
    EncodeAppend(scheme, ":");
    var s2 := s1 + "/";
    EncodeAppend(s1, "/");
    var s3 := s2 + "/";
    EncodeAppend(s2, "/");
    var s4 := s3 + host;
    EncodeAppend(s3, host);
    var s5 := s4 + "/";
    EncodeAppend(s4, "/");
    var s6 := s5 + p;
    EncodeAppend(s5, p);
    var s7 := s6 + "/";
    EncodeAppend(s6, "/");
    EncodeAppend(s7, q);
  }

  /**
   * The shape of an encoding: a sequence of unreserved characters and `%HH`
   * escapes with upper-case hex digits.
   */
  predicate IsEncoded(t: string)
    decreases |t|
  {
    if t == [] then true
    else if IsUnreserved(t[0]) then IsEncoded(t[1..])
    else |t| >= 3 && t[0] == '%' && IsHexDigit(t[1]) && IsHexDigit(t[2])
         && !('a' <= t[1] <= 'f') && !('a' <= t[2] <= 'f') && IsEncoded(t[3..])
  }

  /** Every character of an encoded string is unreserved or `%`. */
  lemma {:induction false} EncodedAlphabet(t: string)
    requires IsEncoded(t)
    ensures forall i :: 0 <= i < |t| ==> IsUnreserved(t[i]) || t[i] == '%'
    decreases |t|
  {
    if t != [] {
      if IsUnreserved(t[0]) {
        EncodedAlphabet(t[1..]);
      } else {
        EncodedAlphabet(t[3..]);
        assert forall i :: 3 <= i < |t| ==> t[i] == t[3..][i - 3];
      }
    }
  }

  lemma {:induction false} EncodedAppend(a: string, b: string)
    requires IsEncoded(a) && IsEncoded(b)
    ensures IsEncoded(a + b)
    decreases |a|
  {
    if a == [] {
      assert a + b == b;
    } else if IsUnreserved(a[0]) {
      EncodedAppend(a[1..], b);
      assert (a + b)[0] == a[0];
      assert (a + b)[1..] == a[1..] + b;
    } else {
      EncodedAppend(a[3..], b);
      assert (a + b)[..3] == a[..3];
      assert (a + b)[3..] == a[3..] + b;
    }
  }

  lemma {:induction false} PercentOctetsEncoded(bs: seq<Byte>)
    ensures IsEncoded(PercentOctets(bs))
  {
    if bs != [] {
      var t := PercentOctets(bs);
      PercentOctetsEncoded(bs[1..]);
      assert t[3..] == PercentOctets(bs[1..]);
    }
  }

  /** Every output of `encodeURIComponent` has the shape of an encoding. */
  lemma {:induction false} EncodeIsEncoded(s: string)
    ensures IsEncoded(Encode(s))
    ensures forall i :: 0 <= i < |Encode(s)| ==> IsUnreserved(Encode(s)[i]) || Encode(s)[i] == '%'
  {
    if s != [] {
      EncodeIsEncoded(s[1..]);
      if !IsUnreserved(s[0]) {
        PercentOctetsEncoded(Utf8(s[0]));
      }
      EncodedAppend(EncodeChar(s[0]), Encode(s[1..]));
    }
    EncodedAlphabet(Encode(s));
  }
}
