/**
 * `encodeURIComponent` and `decodeURIComponent`: percent-encoding (section 2.1 of RFC 3986) of the
 * UTF-8 bytes (section 3 of RFC 3629) of a string of Unicode scalar values.
 */
module PercentEncoding {
  import opened Collections

  predicate Unreserved(c: char) {
    'a' <= c <= 'z' || 'A' <= c <= 'Z' || '0' <= c <= '9' ||
    c == '-' || c == '_' || c == '.' || c == '!' || c == '~' || c == '*' || c == '\'' || c == '(' || c == ')'
  }

  predicate IsByte(b: int) {
    0 <= b < 0x100
  }

  predicate IsScalar(p: int) {
    0 <= p < 0xD800 || 0xE000 <= p < 0x110000
  }

  function HexDigit(d: nat): char
    requires d < 16
  {
    if d < 10 then '0' + d as char else 'A' + (d - 10) as char
  }

  function HexValue(c: char): Option<nat> {
    if '0' <= c <= '9' then Some(c as int - '0' as int)
    else if 'A' <= c <= 'F' then Some(c as int - 'A' as int + 10)
    else if 'a' <= c <= 'f' then Some(c as int - 'a' as int + 10)
    else None
  }

  /** The UTF-8 bytes of a scalar value. */
  function Utf8(c: char): (bytes: seq<int>)
    ensures 1 <= |bytes| <= 4
    ensures forall i :: 0 <= i < |bytes| ==> IsByte(bytes[i])
  {
    var p := c as int;
    if p < 0x80 then [p]
    else if p < 0x800 then [0xC0 + p / 0x40, 0x80 + p % 0x40]
    else if p < 0x10000 then [0xE0 + p / 0x1000, 0x80 + p / 0x40 % 0x40, 0x80 + p % 0x40]
    else [0xF0 + p / 0x40000, 0x80 + p / 0x1000 % 0x40, 0x80 + p / 0x40 % 0x40, 0x80 + p % 0x40]
  }

  function EncodeByte(b: int): (s: string)
    requires IsByte(b)
    ensures |s| == 3
  {
    ['%', HexDigit(b / 16), HexDigit(b % 16)]
  }

  function EncodeBytes(bytes: seq<int>): string
    requires forall i :: 0 <= i < |bytes| ==> IsByte(bytes[i])
  {
    if bytes == [] then "" else EncodeByte(bytes[0]) + EncodeBytes(bytes[1..])
  }

  function EncodeChar(c: char): string {
    if Unreserved(c) then [c] else EncodeBytes(Utf8(c))
  }

  function Encode(s: string): string {
    if s == "" then "" else EncodeChar(s[0]) + Encode(s[1..])
  }

  // ---------------------------------------------------------------------------
  // Decoding
  // ---------------------------------------------------------------------------

  /** The byte a `%XX` at the front of `s` stands for. */
  function LeadingByte(s: string): (b: Option<int>)
    ensures b.Some? ==> |s| >= 3 && IsByte(b.value)
  {
    if |s| < 3 || s[0] != '%' || HexValue(s[1]).None? || HexValue(s[2]).None? then None
    else Some(HexValue(s[1]).value * 16 + HexValue(s[2]).value)
  }

  /** The low six bits of a continuation byte at the front of `s`. */
  function Continuation(s: string): (v: Option<int>)
    ensures v.Some? ==> |s| >= 3 && 0 <= v.value < 0x40
  {
    match LeadingByte(s)
    case None => None
    case Some(b) => if 0x80 <= b < 0xC0 then Some(b - 0x80) else None
  }

  datatype Decoded = Decoded(c: char, rest: string)

  function Scalar(p: int, least: int, rest: string): (d: Option<Decoded>)
    ensures d.Some? ==> d.value.rest == rest
  {
    if p >= least && IsScalar(p) then Some(Decoded(p as char, rest)) else None
  }

  /** The scalar value that lead byte `b` begins, its continuation bytes at the front of `s1`. */
  function Led(b: int, s1: string): (d: Option<Decoded>)
    requires IsByte(b)
    ensures d.Some? ==> |d.value.rest| <= |s1|
  {
    if b < 0x80 then Some(Decoded(b as char, s1))
    else
      match Continuation(s1)
      case None => None
      case Some(c1) =>
        var s2 := s1[3..];
        if 0xC0 <= b < 0xE0 then Scalar((b - 0xC0) * 0x40 + c1, 0x80, s2)
        else
          match Continuation(s2)
          case None => None
          case Some(c2) =>
            var s3 := s2[3..];
            if 0xE0 <= b < 0xF0 then Scalar((b - 0xE0) * 0x1000 + c1 * 0x40 + c2, 0x800, s3)
            else
              match Continuation(s3)
              case None => None
              case Some(c3) =>
                if 0xF0 <= b < 0xF8
                then Scalar((b - 0xF0) * 0x40000 + c1 * 0x1000 + c2 * 0x40 + c3, 0x10000, s3[3..])
                else None
  }

  /** One escaped scalar value at the front of `s`: refused when malformed, overlong or no scalar value. */
  function DecodeEscape(s: string): (d: Option<Decoded>)
    ensures d.Some? ==> |d.value.rest| < |s|
  {
    match LeadingByte(s) case None => None case Some(b) => Led(b, s[3..])
  }

  /** The decoded string, or nothing where the source throws a URIError. */
  function Decode(s: string): Option<string>
    decreases |s|
  {
    if s == "" then Some("")
    else if s[0] != '%' then Prepend([s[0]], Decode(s[1..]))
    else match DecodeEscape(s)
      case None => None
      case Some(d) => Prepend([d.c], Decode(d.rest))
  }

  // ---------------------------------------------------------------------------
  // Round trip
  // ---------------------------------------------------------------------------

  lemma {:induction false} ContinuationRoundTrip(c: int, rest: string)
    requires 0 <= c < 0x40
    ensures Continuation(EncodeByte(0x80 + c) + rest) == Some(c)
    ensures (EncodeByte(0x80 + c) + rest)[3..] == rest
  {
  }

  lemma {:induction false} LeadRoundTrip(b: int, rest: string)
    requires IsByte(b)
    ensures DecodeEscape(EncodeByte(b) + rest) == Led(b, rest)
  {
    assert (EncodeByte(b) + rest)[3..] == rest;
    assert LeadingByte(EncodeByte(b) + rest) == Some(b);
  }

  lemma {:induction false} Decode2(b: int, c1: int, p: int, rest: string)
    requires 0xC0 <= b < 0xE0 && 0 <= c1 < 0x40 && p == (b - 0xC0) * 0x40 + c1 && p >= 0x80
    ensures Led(b, EncodeByte(0x80 + c1) + rest) == Some(Decoded(p as char, rest))
  {
    ContinuationRoundTrip(c1, rest);
  }

  lemma {:induction false} Decode3(b: int, c1: int, c2: int, p: int, rest: string)
    requires 0xE0 <= b < 0xF0 && 0 <= c1 < 0x40 && 0 <= c2 < 0x40
    requires p == (b - 0xE0) * 0x1000 + c1 * 0x40 + c2 && p >= 0x800 && IsScalar(p)
    ensures Led(b, EncodeByte(0x80 + c1) + (EncodeByte(0x80 + c2) + rest)) == Some(Decoded(p as char, rest))
  {
    ContinuationRoundTrip(c2, rest);
    ContinuationRoundTrip(c1, EncodeByte(0x80 + c2) + rest);
  }

  lemma {:induction false} Decode4(b: int, c1: int, c2: int, c3: int, p: int, rest: string)
    requires 0xF0 <= b < 0xF8 && 0 <= c1 < 0x40 && 0 <= c2 < 0x40 && 0 <= c3 < 0x40
    requires p == (b - 0xF0) * 0x40000 + c1 * 0x1000 + c2 * 0x40 + c3 && p >= 0x10000 && IsScalar(p)
    ensures Led(b, EncodeByte(0x80 + c1) + (EncodeByte(0x80 + c2) + (EncodeByte(0x80 + c3) + rest))) == Some(Decoded(p as char, rest))
  {
    var s3 := EncodeByte(0x80 + c3) + rest;
    ContinuationRoundTrip(c3, rest);
    ContinuationRoundTrip(c2, s3);
    ContinuationRoundTrip(c1, EncodeByte(0x80 + c2) + s3);
  }

  /** Dividing by a power of 64 is dividing by 64 so often. */
  lemma {:induction false} Halves(p: int)
    requires 0 <= p
    ensures p / 0x40 * 0x40 + p % 0x40 == p
    ensures p / 0x1000 == p / 0x40 / 0x40
    ensures p / 0x40000 == p / 0x1000 / 0x40
  {}

  /** The digits a scalar value is split into recompose it. */
  lemma {:induction false} Split(p: int)
    requires 0 <= p < 0x110000
    ensures p / 0x40 * 0x40 + p % 0x40 == p
    ensures p / 0x1000 * 0x1000 + p / 0x40 % 0x40 * 0x40 + p % 0x40 == p
    ensures p / 0x40000 * 0x40000 + p / 0x1000 % 0x40 * 0x1000 + p / 0x40 % 0x40 * 0x40 + p % 0x40 == p
  {
    Halves(p);
    Recompose(p, p / 0x40, p / 0x1000, p / 0x40000, p % 0x40, p / 0x40 % 0x40, p / 0x1000 % 0x40) by {
      Halves(p / 0x40);
      Halves(p / 0x1000);
    }
  }

  lemma {:induction false} Recompose(p: int, q: int, r: int, s: int, c: int, d: int, e: int)
    requires p == q * 0x40 + c && q == r * 0x40 + d && r == s * 0x40 + e
    ensures p == r * 0x1000 + d * 0x40 + c
    ensures p == s * 0x40000 + e * 0x1000 + d * 0x40 + c
  {}

  lemma {:induction false} EncodeFirst(bytes: seq<int>, rest: string)
    requires bytes != [] && forall i :: 0 <= i < |bytes| ==> IsByte(bytes[i])
    ensures EncodeBytes(bytes) + rest == EncodeByte(bytes[0]) + (EncodeBytes(bytes[1..]) + rest)
  {}

  /** Each byte spelled out in turn. */
  lemma {:induction false} Spelled1(b: int, rest: string)
    requires IsByte(b)
    ensures EncodeBytes([b]) + rest == EncodeByte(b) + rest
  {
    EncodeFirst([b], rest);
    assert [b][1..] == [] && EncodeBytes([]) + rest == rest;
  }

  lemma {:induction false} Spelled2(b: int, c: int, rest: string)
    requires IsByte(b) && IsByte(c)
    ensures EncodeBytes([b, c]) + rest == EncodeByte(b) + (EncodeByte(c) + rest)
  {
    EncodeFirst([b, c], rest);
    Spelled1(c, rest);
    assert [b, c][1..] == [c];
  }

  lemma {:induction false} Spelled3(b: int, c: int, d: int, rest: string)
    requires IsByte(b) && IsByte(c) && IsByte(d)
    ensures EncodeBytes([b, c, d]) + rest == EncodeByte(b) + (EncodeByte(c) + (EncodeByte(d) + rest))
  {
    EncodeFirst([b, c, d], rest);
    Spelled2(c, d, rest);
    assert [b, c, d][1..] == [c, d];
  }

  lemma {:induction false} Spelled4(b: int, c: int, d: int, e: int, rest: string)
    requires IsByte(b) && IsByte(c) && IsByte(d) && IsByte(e)
    ensures EncodeBytes([b, c, d, e]) + rest == EncodeByte(b) + (EncodeByte(c) + (EncodeByte(d) + (EncodeByte(e) + rest)))
  {
    EncodeFirst([b, c, d, e], rest);
    Spelled3(c, d, e, rest);
    assert [b, c, d, e][1..] == [c, d, e];
  }

  lemma {:induction false} Escape2(a: int, c1: int, p: int, rest: string)
    requires 0 <= a < 0x20 && 0 <= c1 < 0x40 && p == a * 0x40 + c1 && p >= 0x80
    ensures DecodeEscape(EncodeBytes([0xC0 + a, 0x80 + c1]) + rest) == Some(Decoded(p as char, rest))
  {
    Spelled2(0xC0 + a, 0x80 + c1, rest);
    LeadRoundTrip(0xC0 + a, EncodeByte(0x80 + c1) + rest);
    Decode2(0xC0 + a, c1, p, rest);
  }

  lemma {:induction false} Escape3(a: int, c1: int, c2: int, p: int, rest: string)
    requires 0 <= a < 0x10 && 0 <= c1 < 0x40 && 0 <= c2 < 0x40
    requires p == a * 0x1000 + c1 * 0x40 + c2 && p >= 0x800 && IsScalar(p)
    ensures DecodeEscape(EncodeBytes([0xE0 + a, 0x80 + c1, 0x80 + c2]) + rest) == Some(Decoded(p as char, rest))
  {
    Spelled3(0xE0 + a, 0x80 + c1, 0x80 + c2, rest);
    LeadRoundTrip(0xE0 + a, EncodeByte(0x80 + c1) + (EncodeByte(0x80 + c2) + rest));
    Decode3(0xE0 + a, c1, c2, p, rest);
  }

  lemma {:induction false} Escape4(a: int, c1: int, c2: int, c3: int, p: int, rest: string)
    requires 0 <= a < 8 && 0 <= c1 < 0x40 && 0 <= c2 < 0x40 && 0 <= c3 < 0x40
    requires p == a * 0x40000 + c1 * 0x1000 + c2 * 0x40 + c3 && p >= 0x10000 && IsScalar(p)
    ensures DecodeEscape(EncodeBytes([0xF0 + a, 0x80 + c1, 0x80 + c2, 0x80 + c3]) + rest) == Some(Decoded(p as char, rest))
  {
    Spelled4(0xF0 + a, 0x80 + c1, 0x80 + c2, 0x80 + c3, rest);
    LeadRoundTrip(0xF0 + a, EncodeByte(0x80 + c1) + (EncodeByte(0x80 + c2) + (EncodeByte(0x80 + c3) + rest)));
    Decode4(0xF0 + a, c1, c2, c3, p, rest);
  }

  /** The bytes of a scalar value, as the leading bits and the six-bit groups they carry. */
  lemma {:induction false} Utf8Groups(c: char) returns (a: int, c1: int, c2: int, c3: int)
    ensures var p := c as int;
            && 0 <= c1 < 0x40 && 0 <= c2 < 0x40 && 0 <= c3 < 0x40
            && (p < 0x80 ==> Utf8(c) == [p])
            && (0x80 <= p < 0x800 ==> 0 <= a < 0x20 && p == a * 0x40 + c1 && Utf8(c) == [0xC0 + a, 0x80 + c1])
            && (0x800 <= p < 0x10000 ==>
                  0 <= a < 0x10 && p == a * 0x1000 + c1 * 0x40 + c2 && Utf8(c) == [0xE0 + a, 0x80 + c1, 0x80 + c2])
            && (0x10000 <= p ==>
                  && 0 <= a < 8 && p == a * 0x40000 + c1 * 0x1000 + c2 * 0x40 + c3
                  && Utf8(c) == [0xF0 + a, 0x80 + c1, 0x80 + c2, 0x80 + c3])
  {
    var p := c as int;
    Split(p);
    a, c1, c2, c3 := 0, 0, 0, 0;
    if p < 0x80 {
    } else if p < 0x800 {
      a, c1 := p / 0x40, p % 0x40;
    } else if p < 0x10000 {
      a, c1, c2 := p / 0x1000, p / 0x40 % 0x40, p % 0x40;
    } else {
      a, c1, c2, c3 := p / 0x40000, p / 0x1000 % 0x40, p / 0x40 % 0x40, p % 0x40;
    }
  }

  lemma {:induction false} EscapeRoundTrip(c: char, rest: string)
    ensures DecodeEscape(EncodeBytes(Utf8(c)) + rest) == Some(Decoded(c, rest))
  {
    var p := c as int;
    var a, c1, c2, c3 := Utf8Groups(c);
    if p < 0x80 {
      Spelled1(p, rest);
      LeadRoundTrip(p, rest);
    } else if p < 0x800 {
      Escape2(a, c1, p, rest);
    } else if p < 0x10000 {
      Escape3(a, c1, c2, p, rest);
    } else {
      Escape4(a, c1, c2, c3, p, rest);
    }
  }

  lemma {:induction false} EscapeStarts(c: char)
    ensures EncodeBytes(Utf8(c)) != "" && EncodeBytes(Utf8(c))[0] == '%'
  {}

  /** Decoding undoes encoding, for every string. */
  lemma {:induction false} RoundTrip(s: string)
    ensures Decode(Encode(s)) == Some(s)
  {
    if s != "" {
      RoundTrip(s[1..]);
      var rest := Encode(s[1..]);
      if Unreserved(s[0]) {
        assert Encode(s) == [s[0]] + rest;
        assert Encode(s)[1..] == rest;
      } else {
        EscapeRoundTrip(s[0], rest);
        EscapeStarts(s[0]);
      }
      assert [s[0]] + s[1..] == s;
    }
  }

  predicate Plain(s: string) {
    forall i :: 0 <= i < |s| ==> Unreserved(s[i])
  }

  /** A string of unreserved characters is its own encoding and its own decoding. */
  lemma {:induction false} PlainFixed(s: string)
    requires Plain(s)
    ensures Encode(s) == s && Decode(s) == Some(s)
  {
    if s != "" {
      PlainFixed(s[1..]);
      assert [s[0]] + s[1..] == s;
    }
  }

  /** Only a plain string encodes to itself plain: encoding never turns one id into another's text. */
  lemma {:induction false} PlainImage(s: string, t: string)
    requires Plain(t) && Encode(s) == t
    ensures s == t
  {
    RoundTrip(s);
    PlainFixed(t);
  }

  lemma {:induction false} BytesHaveNoSlash(bytes: seq<int>)
    requires forall i :: 0 <= i < |bytes| ==> IsByte(bytes[i])
    ensures '/' !in EncodeBytes(bytes)
  {
    if bytes != [] {
      BytesHaveNoSlash(bytes[1..]);
    }
  }

  /** An encoded string is one path segment, and empty only for the empty string. */
  lemma {:induction false} EncodedIsSegment(s: string)
    ensures '/' !in Encode(s)
    ensures Encode(s) == "" <==> s == ""
  {
    if s != "" {
      EncodedIsSegment(s[1..]);
      if !Unreserved(s[0]) {
        BytesHaveNoSlash(Utf8(s[0]));
        EscapeStarts(s[0]);
      }
    }
  }

  lemma {:induction false} UnreservedAre(c: char)
    ensures Unreserved(c) <==> 'a' <= c <= 'z' || 'A' <= c <= 'Z' || '0' <= c <= '9' || c in "-_.!~*'()"
  {
    var marks := "-_.!~*'()";
    assert marks[0] == '-' && marks[1] == '_' && marks[2] == '.' && marks[3] == '!' && marks[4] == '~' && marks[5] == '*'
           && marks[6] == '\'' && marks[7] == '(' && marks[8] == ')';
  }

  lemma {:induction false} EncodesFirst(c: char, s: string)
    ensures Encode([c] + s) == EncodeChar(c) + Encode(s)
  {
    assert ([c] + s)[1..] == s;
  }

  /**
   * What a string encodes to, character by character: a letter, a digit or one of nine marks stands for itself,
   * and any other character is its UTF-8 bytes, each a percent sign and two capital hexadecimal digits.
   */
  lemma {:induction false} EncodesTo(c: char, s: string)
    ensures var itself := 'a' <= c <= 'z' || 'A' <= c <= 'Z' || '0' <= c <= '9' || c in "-_.!~*'()";
            && (itself ==> Encode([c] + s) == [c] + Encode(s))
            && (!itself ==> exists front ::
                  && Encode([c] + s) == front + Encode(s) && |front| == 3 * |Utf8(c)|
                  && forall k :: 0 <= k < |Utf8(c)| ==>
                       front[3 * k..3 * k + 3] == ['%', "0123456789ABCDEF"[Utf8(c)[k] / 16], "0123456789ABCDEF"[Utf8(c)[k] % 16]])
  {
    UnreservedAre(c);
    EncodesFirst(c, s);
    BytesSpelled(Utf8(c));
  }

  lemma {:induction false} BytesSpelled(bytes: seq<int>)
    requires forall i :: 0 <= i < |bytes| ==> IsByte(bytes[i])
    ensures |EncodeBytes(bytes)| == 3 * |bytes|
    ensures forall k :: 0 <= k < |bytes| ==>
              EncodeBytes(bytes)[3 * k..3 * k + 3] == ['%', "0123456789ABCDEF"[bytes[k] / 16], "0123456789ABCDEF"[bytes[k] % 16]]
  {
    if bytes != [] {
      BytesSpelled(bytes[1..]);
      var first, rest := EncodeByte(bytes[0]), EncodeBytes(bytes[1..]);
      Capitals(bytes[0]);
      forall k | 0 <= k < |bytes|
        ensures EncodeBytes(bytes)[3 * k..3 * k + 3] == if k == 0 then first else rest[3 * (k - 1)..3 * (k - 1) + 3]
      {
      }
    }
  }

  lemma {:induction false} Capitals(byte: int)
    requires IsByte(byte)
    ensures EncodeByte(byte) == ['%', "0123456789ABCDEF"[byte / 16], "0123456789ABCDEF"[byte % 16]]
  {
    CapitalDigit(byte / 16);
    CapitalDigit(byte % 16);
  }

  lemma {:induction false} CapitalDigit(d: nat)
    requires d < 16
    ensures HexDigit(d) == "0123456789ABCDEF"[d]
  {}

  // ---------------------------------------------------------------------------
  // What decodes
  // ---------------------------------------------------------------------------

  /** Hexadecimal digits in capitals. */
  function Capital(c: char): char {
    if 'a' <= c <= 'f' then 'A' + (c - 'a') else c
  }

  /** A percent sign and the two hexadecimal digits of a byte, in either case. */
  predicate Spelled(s: string, at: nat, byte: int) {
    && at + 3 <= |s| && IsByte(byte)
    && s[at] == '%' && Capital(s[at + 1]) == HexDigit(byte / 16) && Capital(s[at + 2]) == HexDigit(byte % 16)
  }

  /** The front of `s` escapes the character: its UTF-8 bytes, one after another. */
  predicate Escapes(s: string, c: char) {
    3 * |Utf8(c)| <= |s| && forall k :: 0 <= k < |Utf8(c)| ==> Spelled(s, 3 * k, Utf8(c)[k])
  }

  /** `s` spells `t`: character by character, each as itself, if it is no percent sign, or escaped. */
  predicate Spells(s: string, t: string)
    decreases |t|
  {
    if t == "" then s == ""
    else
      || (s != "" && s[0] != '%' && s[0] == t[0] && Spells(s[1..], t[1..]))
      || (Escapes(s, t[0]) && Spells(s[3 * |Utf8(t[0])|..], t[1..]))
  }

  lemma {:induction false} HexIff(c: char, d: nat)
    requires d < 16
    ensures HexValue(c) == Some(d) <==> Capital(c) == HexDigit(d)
  {}

  lemma {:induction false} ByteIff(s: string, byte: int)
    requires IsByte(byte)
    ensures LeadingByte(s) == Some(byte) <==> Spelled(s, 0, byte)
  {
    if |s| >= 3 {
      HexIff(s[1], byte / 16);
      HexIff(s[2], byte % 16);
      if LeadingByte(s) == Some(byte) {
        Digits16(HexValue(s[1]).value, HexValue(s[2]).value, byte);
      }
    }
  }

  lemma {:induction false} Digits16(high: nat, low: nat, byte: int)
    requires high < 16 && low < 16 && byte == high * 16 + low
    ensures byte / 16 == high && byte % 16 == low
  {}

  lemma {:induction false} SpelledAt(s: string, at: nat, byte: int)
    requires at <= |s|
    ensures Spelled(s, at, byte) <==> Spelled(s[at..], 0, byte)
  {}

  lemma {:induction false} OneSplit(p: int, q: int, c: int, r: int, d: int)
    requires p == q * 0x40 + c == r * 0x40 + d && 0 <= c < 0x40 && 0 <= d < 0x40
    ensures q == r && c == d
  {}

  /** The bytes of a scalar value, from the groups they carry: there is one way to split it. */
  lemma {:induction false} TwoBytes(c: char, a: int, c1: int)
    requires 0 <= c1 < 0x40 && c as int == a * 0x40 + c1 && 0x80 <= c as int < 0x800
    ensures Utf8(c) == [0xC0 + a, 0x80 + c1]
  {
    var b, d1, d2, d3 := Utf8Groups(c);
    OneSplit(c as int, a, c1, b, d1);
  }

  lemma {:induction false} ThreeBytes(c: char, a: int, c1: int, c2: int)
    requires 0 <= c1 < 0x40 && 0 <= c2 < 0x40 && c as int == a * 0x1000 + c1 * 0x40 + c2 && 0x800 <= c as int < 0x10000
    ensures Utf8(c) == [0xE0 + a, 0x80 + c1, 0x80 + c2]
  {
    var b, d1, d2, d3 := Utf8Groups(c);
    OneSplit(c as int, a * 0x40 + c1, c2, b * 0x40 + d1, d2);
    OneSplit(a * 0x40 + c1, a, c1, b, d1);
  }

  lemma {:induction false} FourBytes(c: char, a: int, c1: int, c2: int, c3: int)
    requires 0 <= c1 < 0x40 && 0 <= c2 < 0x40 && 0 <= c3 < 0x40
    requires c as int == a * 0x40000 + c1 * 0x1000 + c2 * 0x40 + c3 && 0x10000 <= c as int
    ensures Utf8(c) == [0xF0 + a, 0x80 + c1, 0x80 + c2, 0x80 + c3]
  {
    var b, d1, d2, d3 := Utf8Groups(c);
    OneSplit(c as int, a * 0x1000 + c1 * 0x40 + c2, c3, b * 0x1000 + d1 * 0x40 + d2, d3);
    OneSplit(a * 0x1000 + c1 * 0x40 + c2, a * 0x40 + c1, c2, b * 0x40 + d1, d2);
    OneSplit(a * 0x40 + c1, a, c1, b, d1);
  }

  /** A continuation at the front spells the byte it comes from. */
  lemma {:induction false} ContinuationIff(s: string, v: int)
    requires 0 <= v < 0x40
    ensures Continuation(s) == Some(v) <==> Spelled(s, 0, 0x80 + v)
  {
    ByteIff(s, 0x80 + v);
  }

  lemma {:induction false} ContinuesAt(s: string, at: nat) returns (v: int)
    requires at <= |s| && Continuation(s[at..]).Some?
    ensures Continuation(s[at..]) == Some(v) && 0 <= v < 0x40 && at + 3 <= |s|
    ensures Spelled(s, at, 0x80 + v) && s[at..][3..] == s[at + 3..]
  {
    v := Continuation(s[at..]).value;
    ContinuationIff(s[at..], v);
    SpelledAt(s, at, 0x80 + v);
  }

  lemma {:induction false} Led2(s: string, b: int)
    requires |s| >= 3 && Spelled(s, 0, b) && 0xC0 <= b < 0xE0 && Led(b, s[3..]).Some?
    ensures var d := Led(b, s[3..]).value;
            Escapes(s, d.c) && d.rest == s[3 * |Utf8(d.c)|..]
  {
    var c1 := ContinuesAt(s, 3);
    TwoBytes(Led(b, s[3..]).value.c, b - 0xC0, c1);
  }

  lemma {:induction false} Led3(s: string, b: int)
    requires |s| >= 3 && Spelled(s, 0, b) && 0xE0 <= b < 0xF0 && Led(b, s[3..]).Some?
    ensures var d := Led(b, s[3..]).value;
            Escapes(s, d.c) && d.rest == s[3 * |Utf8(d.c)|..]
  {
    var c1 := ContinuesAt(s, 3);
    var c2 := ContinuesAt(s, 6);
    ThreeBytes(Led(b, s[3..]).value.c, b - 0xE0, c1, c2);
  }

  /** Four groups after the lead byte: what they decode to. */
  lemma {:induction false} LedValue4(s: string, b: int, c1: int, c2: int, c3: int)
    requires |s| >= 12 && IsByte(b) && 0xF0 <= b && Led(b, s[3..]).Some?
    requires Continuation(s[3..]) == Some(c1) && Continuation(s[6..]) == Some(c2) && Continuation(s[9..]) == Some(c3)
    requires s[3..][3..] == s[6..] && s[6..][3..] == s[9..] && s[9..][3..] == s[12..]
    ensures var d := Led(b, s[3..]).value;
            d.c as int == (b - 0xF0) * 0x40000 + c1 * 0x1000 + c2 * 0x40 + c3 && d.c as int >= 0x10000 && d.rest == s[12..]
  {}

  lemma {:induction false} Led4(s: string, b: int)
    requires |s| >= 3 && Spelled(s, 0, b) && 0xF0 <= b && Led(b, s[3..]).Some?
    ensures var d := Led(b, s[3..]).value;
            Escapes(s, d.c) && d.rest == s[3 * |Utf8(d.c)|..]
  {
    var c1 := ContinuesAt(s, 3);
    var c2 := ContinuesAt(s, 6);
    var c3 := ContinuesAt(s, 9);
    LedValue4(s, b, c1, c2, c3);
    var c := Led(b, s[3..]).value.c;
    FourBytes(c, b - 0xF0, c1, c2, c3);
    EscapesFour(s, c, b, c1, c2, c3);
  }

  lemma {:induction false} EscapesFour(s: string, c: char, b: int, c1: int, c2: int, c3: int)
    requires Utf8(c) == [b, 0x80 + c1, 0x80 + c2, 0x80 + c3] && |s| >= 12
    requires Spelled(s, 0, b) && Spelled(s, 3, 0x80 + c1) && Spelled(s, 6, 0x80 + c2) && Spelled(s, 9, 0x80 + c3)
    ensures Escapes(s, c) && 3 * |Utf8(c)| == 12
  {}

  /** What an escape at the front decodes to is what it spells. */
  lemma {:induction false} DecodedIsSpelled(s: string)
    requires DecodeEscape(s).Some?
    ensures var d := DecodeEscape(s).value;
            Escapes(s, d.c) && d.rest == s[3 * |Utf8(d.c)|..]
  {
    var b := LeadingByte(s).value;
    ByteIff(s, b);
    if b >= 0xF0 {
      Led4(s, b);
    } else if b >= 0xE0 {
      Led3(s, b);
    } else if b >= 0xC0 {
      Led2(s, b);
    } else if b < 0x80 {
      assert Utf8(b as char) == [b];
    }
  }

  lemma {:induction false} NextContinues(s: string, at: nat, v: int)
    requires at + 3 <= |s| && 0 <= v < 0x40 && Spelled(s, at, 0x80 + v)
    ensures Continuation(s[at..]) == Some(v) && s[at..][3..] == s[at + 3..]
  {
    SpelledAt(s, at, 0x80 + v);
    ContinuationIff(s[at..], v);
  }

  lemma {:induction false} Reads2(s: string, c: char, b: int, c1: int)
    requires 0 <= c1 < 0x40 && 0xC0 <= b < 0xE0 && c as int == (b - 0xC0) * 0x40 + c1 && c as int >= 0x80
    requires |s| >= 6 && Spelled(s, 3, 0x80 + c1)
    ensures Led(b, s[3..]) == Some(Decoded(c, s[6..]))
  {
    NextContinues(s, 3, c1);
  }

  lemma {:induction false} Reads3(s: string, c: char, b: int, c1: int, c2: int)
    requires 0 <= c1 < 0x40 && 0 <= c2 < 0x40 && 0xE0 <= b < 0xF0
    requires c as int == (b - 0xE0) * 0x1000 + c1 * 0x40 + c2 && c as int >= 0x800
    requires |s| >= 9 && Spelled(s, 3, 0x80 + c1) && Spelled(s, 6, 0x80 + c2)
    ensures Led(b, s[3..]) == Some(Decoded(c, s[9..]))
  {
    NextContinues(s, 3, c1);
    NextContinues(s, 6, c2);
  }

  lemma {:induction false} Reads4(s: string, c: char, b: int, c1: int, c2: int, c3: int)
    requires 0 <= c1 < 0x40 && 0 <= c2 < 0x40 && 0 <= c3 < 0x40 && 0xF0 <= b < 0xF8
    requires c as int == (b - 0xF0) * 0x40000 + c1 * 0x1000 + c2 * 0x40 + c3 && c as int >= 0x10000
    requires |s| >= 12 && Spelled(s, 3, 0x80 + c1) && Spelled(s, 6, 0x80 + c2) && Spelled(s, 9, 0x80 + c3)
    ensures Led(b, s[3..]) == Some(Decoded(c, s[12..]))
  {
    NextContinues(s, 3, c1);
    NextContinues(s, 6, c2);
    NextContinues(s, 9, c3);
  }

  /** What the front spells it decodes to. */
  lemma {:induction false} SpelledDecodes(s: string, c: char)
    requires Escapes(s, c)
    ensures DecodeEscape(s) == Some(Decoded(c, s[3 * |Utf8(c)|..]))
  {
    var p, bytes := c as int, Utf8(c);
    var a, c1, c2, c3 := Utf8Groups(c);
    forall k | 0 <= k < |bytes|
      ensures Spelled(s, 3 * k, bytes[k])
    {
    }
    assert Spelled(s, 3 * 0, bytes[0]);
    ByteIff(s, bytes[0]);
    if p < 0x80 {
    } else if p < 0x800 {
      assert Spelled(s, 3 * 1, bytes[1]);
      Reads2(s, c, bytes[0], c1);
    } else if p < 0x10000 {
      assert Spelled(s, 3 * 1, bytes[1]) && Spelled(s, 3 * 2, bytes[2]);
      Reads3(s, c, bytes[0], c1, c2);
    } else {
      assert Spelled(s, 3 * 1, bytes[1]) && Spelled(s, 3 * 2, bytes[2]) && Spelled(s, 3 * 3, bytes[3]);
      Reads4(s, c, bytes[0], c1, c2, c3);
    }
  }

  /**
   * Exactly the spellings decode, each to what it spells: a percent sign that is no escape, a malformed or an
   * overlong sequence and the bytes of no scalar value are all refused.
   */
  lemma {:induction false} DecodesIff(s: string, t: string)
    ensures Decode(s) == Some(t) <==> Spells(s, t)
    decreases |s|
  {
    if s != "" {
      if s[0] != '%' {
        if t != "" {
          DecodesIff(s[1..], t[1..]);
          assert t == [t[0]] + t[1..];
          if Escapes(s, t[0]) {
            EscapedByPercent(s, t[0]);
          }
        }
      } else {
        var d := DecodeEscape(s);
        if d.Some? {
          DecodedIsSpelled(s);
        }
        if t != "" {
          if Escapes(s, t[0]) {
            SpelledDecodes(s, t[0]);
          }
          if d.Some? {
            DecodesIff(d.value.rest, t[1..]);
          }
          assert t == [t[0]] + t[1..];
        }
      }
    }
  }

  lemma {:induction false} EscapedByPercent(s: string, c: char)
    requires Escapes(s, c)
    ensures s != "" && s[0] == '%'
  {
    assert Spelled(s, 3 * 0, Utf8(c)[0]);
  }
}
