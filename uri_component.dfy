/**
  `encodeURIComponent` (section 19.2.6.5 of ECMA-262, the Encode operation of
  section 19.2.6.6): every character outside the unreserved set is written
  as the percent-escapes (section 2.1 of RFC 3986) of its UTF-8 bytes
  (section 3 of RFC 3629), with upper-case hexadecimal digits.

  `Decode` is the matching percent-decoding followed by UTF-8 decoding; the
  round trip `Decode(Encode(s)) == Some(s)` says that the encoding loses
  nothing, so a receiver of an encoded query value recovers the text.
 */
module UriComponent {
  import opened Outcomes

  type Byte = x: int | 0 <= x < 256

  /** uriAlpha, DecimalDigit and uriMark: the characters left unescaped. */
  predicate IsUnreserved(c: char) {
    ('A' <= c <= 'Z') || ('a' <= c <= 'z') || ('0' <= c <= '9')
    || c == '-' || c == '_' || c == '.' || c == '!' || c == '~' || c == '*' || c == '\'' || c == '(' || c == ')'
  }

  /** UTF-8 encoding of one Unicode scalar value. */
  function Utf8(c: char): (bs: seq<Byte>)
    ensures 1 <= |bs| <= 4
  {
    var n := c as int;
    if n < 0x80 then [n]
    else if n < 0x800 then [0xC0 + n / 64, 0x80 + n % 64]
    else if n < 0x10000 then [0xE0 + n / 4096, 0x80 + (n / 64) % 64, 0x80 + n % 64]
    else [0xF0 + n / 262144, 0x80 + (n / 4096) % 64, 0x80 + (n / 64) % 64, 0x80 + n % 64]
  }

  function HexDigit(d: int): (c: char)
    requires 0 <= d < 16
  {
    if d < 10 then ('0' as int + d) as char else ('A' as int + d - 10) as char
  }

  /** `%XY` for one byte. */
  function EscapeByte(b: Byte): (e: string)
    ensures |e| == 3 && e[0] == '%'
  {
    ['%', HexDigit(b / 16), HexDigit(b % 16)]
  }

  function EscapeBytes(bs: seq<Byte>): (e: string)
    ensures |e| == 3 * |bs|
  {
    if bs == [] then [] else EscapeByte(bs[0]) + EscapeBytes(bs[1..])
  }

  function EncodeChar(c: char): (e: string)
    ensures 1 <= |e|
  {
    if IsUnreserved(c) then [c] else EscapeBytes(Utf8(c))
  }

  /** `encodeURIComponent(s)`. */
  function Encode(s: string): (r: string)
    ensures forall i :: 0 <= i < |r| ==> IsUnreserved(r[i]) || r[i] == '%'
    ensures |r| >= |s|
  {
    if s == [] then []
    else
      var head := EncodeChar(s[0]);
      assert forall i :: 0 <= i < |head| ==> IsUnreserved(head[i]) || head[i] == '%' by {
        if !IsUnreserved(s[0]) { EscapesAreSafe(Utf8(s[0])); }
      }
      head + Encode(s[1..])
  }

  lemma {:induction false} EscapesAreSafe(bs: seq<Byte>)
    ensures forall i :: 0 <= i < |EscapeBytes(bs)| ==> IsUnreserved(EscapeBytes(bs)[i]) || EscapeBytes(bs)[i] == '%'
  {
    if bs != [] {
      EscapesAreSafe(bs[1..]);
    }
  }

  // ---------------------------------------------------------------------------
  // Decoding

  predicate IsHexDigit(c: char) {
    ('0' <= c <= '9') || ('A' <= c <= 'F') || ('a' <= c <= 'f')
  }

  function HexValue(c: char): (v: int)
    requires IsHexDigit(c)
    ensures 0 <= v < 16
  {
    if '0' <= c <= '9' then c as int - '0' as int
    else if 'A' <= c <= 'F' then c as int - 'A' as int + 10
    else c as int - 'a' as int + 10
  }

  /** The byte written as `%XY` at position `i` of `s`, if there is one. */
  function OctetAt(s: string, i: nat): Option<Byte> {
    if i + 3 <= |s| && s[i] == '%' && IsHexDigit(s[i + 1]) && IsHexDigit(s[i + 2])
    then Some(16 * HexValue(s[i + 1]) + HexValue(s[i + 2]))
    else None
  }

  /** `k` continuation bytes (10xxxxxx), escaped, starting at position `i`. */
  function Continuations(s: string, i: nat, k: nat): (r: Option<seq<Byte>>)
    ensures r.Some? ==> |r.value| == k && forall j :: 0 <= j < k ==> 0x80 <= r.value[j] < 0xC0
    decreases k
  {
    if k == 0 then Some([])
    else match OctetAt(s, i)
      case Some(b) =>
        if 0x80 <= b < 0xC0 then
          match Continuations(s, i + 3, k - 1)
          case Some(rest) => Some([b] + rest)
          case None => None
        else None
      case None => None
  }

  /** Number of bytes of the UTF-8 sequence that starts with `lead`; 0 if `lead` cannot start one. */
  function SequenceLength(lead: Byte): nat {
    if lead < 0x80 then 1
    else if 0xC0 <= lead < 0xE0 then 2
    else if 0xE0 <= lead < 0xF0 then 3
    else if 0xF0 <= lead < 0xF8 then 4
    else 0
  }

  /** The code point of a multi-byte sequence with the given lead and continuation bytes. */
  function CodePoint(lead: Byte, cont: seq<Byte>): int
    requires 1 <= |cont| <= 3
  {
    var l: int := lead;
    if |cont| == 1 then (l - 0xC0) * 64 + (cont[0] as int - 0x80)
    else if |cont| == 2 then (l - 0xE0) * 4096 + (cont[0] as int - 0x80) * 64 + (cont[1] as int - 0x80)
    else (l - 0xF0) * 262144 + (cont[0] as int - 0x80) * 4096 + (cont[1] as int - 0x80) * 64 + (cont[2] as int - 0x80)
  }

  /** A Unicode scalar value that needs exactly `len` bytes (no overlong form, no surrogate). */
  predicate IsScalarOfLength(cp: int, len: nat) {
    && (len == 2 ==> 0x80 <= cp < 0x800)
    && (len == 3 ==> 0x800 <= cp < 0x10000 && !(0xD800 <= cp < 0xE000))
    && (len == 4 ==> 0x10000 <= cp < 0x110000)
  }

  function Prepend(c: char, r: Option<string>): Option<string> {
    match r
    case Some(t) => Some([c] + t)
    case None => None
  }

  /** Percent-decoding followed by UTF-8 decoding; `None` for a malformed escape. */
  function Decode(s: string): Option<string>
    decreases |s|
  {
    if s == [] then Some([])
    else if s[0] != '%' then Prepend(s[0], Decode(s[1..]))
    else match OctetAt(s, 0)
      case None => None
      case Some(lead) =>
        var len := SequenceLength(lead);
        if len == 1 then Prepend(lead as char, Decode(s[3..]))
        else if len == 0 then None
        else match Continuations(s, 3, len - 1)
          case None => None
          case Some(cont) =>
            var cp := CodePoint(lead, cont);
            if IsScalarOfLength(cp, len) then Prepend(cp as char, Decode(s[3 * len..])) else None
  }

  // ---------------------------------------------------------------------------
  // Round trip

  lemma HexDigitValue(d: int)
    requires 0 <= d < 16
    ensures IsHexDigit(HexDigit(d)) && HexValue(HexDigit(d)) == d
  {
  }

  lemma OctetOfEscape(s: string, i: nat, b: Byte)
    requires i + 3 <= |s| && s[i..i + 3] == EscapeByte(b)
    ensures OctetAt(s, i) == Some(b)
  {
    assert s[i] == '%' && s[i + 1] == HexDigit(b / 16) && s[i + 2] == HexDigit(b % 16);
    HexDigitValue(b / 16);
    HexDigitValue(b % 16);
  }

  lemma {:induction false} ContinuationsOfEscapes(s: string, i: nat, bs: seq<Byte>)
    requires i + 3 * |bs| <= |s| && s[i..i + 3 * |bs|] == EscapeBytes(bs)
    requires forall j :: 0 <= j < |bs| ==> 0x80 <= bs[j] < 0xC0
    ensures Continuations(s, i, |bs|) == Some(bs)
    decreases |bs|
  {
    if bs != [] {
      assert s[i..i + 3] == EscapeBytes(bs)[..3] == EscapeByte(bs[0]);
      OctetOfEscape(s, i, bs[0]);
      assert s[i + 3..i + 3 + 3 * |bs[1..]|] == EscapeBytes(bs)[3..] == EscapeBytes(bs[1..]);
      ContinuationsOfEscapes(s, i + 3, bs[1..]);
      assert [bs[0]] + bs[1..] == bs;
    }
  }

  lemma TwoByteCodePoint(n: int)
    requires 0x80 <= n < 0x800
    ensures CodePoint(0xC0 + n / 64, [0x80 + n % 64]) == n
  {
  }

  lemma ThreeByteCodePoint(n: int)
    requires 0x800 <= n < 0x10000
    ensures CodePoint(0xE0 + n / 4096, [0x80 + (n / 64) % 64, 0x80 + n % 64]) == n
  {
    var q := n / 64;
    assert n == 64 * q + n % 64;
    assert q == 64 * (q / 64) + q % 64;
    assert n / 4096 == q / 64;
  }

  lemma FourByteCodePoint(n: int)
    requires 0x10000 <= n < 0x110000
    ensures CodePoint(0xF0 + n / 262144, [0x80 + (n / 4096) % 64, 0x80 + (n / 64) % 64, 0x80 + n % 64]) == n
  {
    var q := n / 64;
    var p := q / 64;
    assert n == 64 * q + n % 64;
    assert q == 64 * p + q % 64;
    assert p == 64 * (p / 64) + p % 64;
    assert n / 4096 == p;
    assert n / 262144 == p / 64;
  }

  /** Decoding the escapes of a well-formed multi-byte sequence yields its code point first. */
  lemma DecodeSequence(bs: seq<Byte>, rest: string, c: char)
    requires 2 <= |bs| <= 4 && SequenceLength(bs[0]) == |bs|
    requires forall j :: 1 <= j < |bs| ==> 0x80 <= bs[j] < 0xC0
    requires CodePoint(bs[0], bs[1..]) == c as int && IsScalarOfLength(c as int, |bs|)
    ensures Decode(EscapeBytes(bs) + rest) == Prepend(c, Decode(rest))
  {
    var s := EscapeBytes(bs) + rest;
    var k := |bs|;
    assert s[..3 * k] == EscapeBytes(bs);
    assert s[3 * k..] == rest;
    assert s[0..3] == EscapeByte(bs[0]);
    OctetOfEscape(s, 0, bs[0]);
    assert s[3..3 + 3 * (k - 1)] == EscapeBytes(bs[1..]);
    ContinuationsOfEscapes(s, 3, bs[1..]);
  }

  /** Decoding the escapes of one character, followed by anything, yields that character first. */
  lemma DecodeEncodedChar(c: char, rest: string)
    ensures Decode(EncodeChar(c) + rest) == Prepend(c, Decode(rest))
  {
    var n := c as int;
    if IsUnreserved(c) {
      var s := EncodeChar(c) + rest;
      assert s[0] == c && s[1..] == rest;
    } else {
      var bs := Utf8(c);
      if |bs| == 1 {
        var s := EncodeChar(c) + rest;
        assert s[0..3] == EscapeByte(bs[0]);
        OctetOfEscape(s, 0, bs[0]);
        assert s[3..] == rest;
        assert (bs[0] as char) == c;
      } else {
        if |bs| == 2 {
          TwoByteCodePoint(n);
        } else if |bs| == 3 {
          ThreeByteCodePoint(n);
        } else {
          FourByteCodePoint(n);
        }
        DecodeSequence(bs, rest, c);
      }
    }
  }

  /** `encodeURIComponent` loses nothing: decoding its output gives back the input. */
  lemma {:induction false} DecodeEncode(s: string)
    ensures Decode(Encode(s)) == Some(s)
  {
    if s != [] {
      DecodeEncode(s[1..]);
      DecodeEncodedChar(s[0], Encode(s[1..]));
      assert [s[0]] + s[1..] == s;
    }
  }

  /** Different texts have different encodings. */
  lemma EncodeInjective(s: string, t: string)
    requires Encode(s) == Encode(t)
    ensures s == t
  {
    DecodeEncode(s);
    DecodeEncode(t);
  }
}
