/**
 * Percent-encoding of text as ECMAScript's `encodeURIComponent` and
 * `decodeURIComponent` perform it: every character outside the unescaped set
 * is written as the "%XX" triplets (section 2.1 of RFC 3986) of its UTF-8
 * octets (RFC 3629); decoding undoes that and fails, as the built-in throws a
 * URIError, on a malformed triplet or an octet sequence that is not the UTF-8
 * encoding of one Unicode scalar value.
 */
module UriCodec {
  import opened Wrappers

  type byte = b: int | 0 <= b < 256

  /** Characters `encodeURIComponent` leaves as they are. */
  predicate IsUnescaped(c: char) {
    ('A' <= c <= 'Z') || ('a' <= c <= 'z') || ('0' <= c <= '9') || c in "-_.!~*'()"
  }

  function HexUpper(d: int): char
    requires 0 <= d < 16
  {
    "0123456789ABCDEF"[d]
  }

  /** The value of a hexadecimal digit of either case. */
  function HexValue(c: char): Option<int> {
    if '0' <= c <= '9' then Some(c as int - '0' as int)
    else if 'A' <= c <= 'F' then Some(c as int - 'A' as int + 10)
    else if 'a' <= c <= 'f' then Some(c as int - 'a' as int + 10)
    else None
  }

  lemma HexUpperValue(d: int)
    requires 0 <= d < 16
    ensures HexValue(HexUpper(d)) == Some(d)
  {
  }

  /** One octet as a "%XX" triplet with upper-case hexadecimal digits. */
  function Escape(b: byte): (r: string)
    ensures |r| == 3 && r[0] == '%'
  {
    ['%', HexUpper(b / 16), HexUpper(b % 16)]
  }

  function EscapeAll(bs: seq<byte>): (r: string)
    ensures |r| == 3 * |bs|
  {
    if bs == [] then "" else Escape(bs[0]) + EscapeAll(bs[1..])
  }

  predicate IsContinuation(b: byte) { 0x80 <= b < 0xC0 }

  /** The UTF-8 octets of one Unicode scalar value (section 3 of RFC 3629). */
  function Utf8Encode(c: char): (bs: seq<byte>)
    ensures 1 <= |bs| <= 4
  {
    var cp := c as int;
    if cp < 0x80 then [cp]
    else if cp < 0x800 then [0xC0 + cp / 64, 0x80 + cp % 64]
    else if cp < 0x10000 then
      var q := cp / 64;
      [0xE0 + q / 64, 0x80 + q % 64, 0x80 + cp % 64]
    else
      var q := cp / 64;
      var q2 := q / 64;
      [0xF0 + q2 / 64, 0x80 + q2 % 64, 0x80 + q % 64, 0x80 + cp % 64]
  }

  /** How many octets a sequence starting with `b` has; 0 when `b` cannot start one. */
  function SequenceLength(b: byte): nat {
    if b < 0x80 then 1
    else if b < 0xC0 then 0
    else if b < 0xE0 then 2
    else if b < 0xF0 then 3
    else if b < 0xF8 then 4
    else 0
  }

  /**
   * The scalar value a complete octet sequence encodes; `None` for a bad
   * continuation octet, an overlong form, a surrogate or a value past U+10FFFF.
   */
  function Utf8Decode(bs: seq<byte>): Option<char> {
    if |bs| == 1 && bs[0] < 0x80 then Some(bs[0] as char)
    else if |bs| == 2 && 0xC0 <= bs[0] < 0xE0 && IsContinuation(bs[1]) then
      var cp: int := (bs[0] as int - 0xC0) * 64 + (bs[1] as int - 0x80);
      if 0x80 <= cp then Some(cp as char) else None
    else if |bs| == 3 && 0xE0 <= bs[0] < 0xF0 && IsContinuation(bs[1]) && IsContinuation(bs[2]) then
      var cp: int := ((bs[0] as int - 0xE0) * 64 + (bs[1] as int - 0x80)) * 64 + (bs[2] as int - 0x80);
      if 0x800 <= cp && !(0xD800 <= cp <= 0xDFFF) then Some(cp as char) else None
    else if |bs| == 4 && 0xF0 <= bs[0] < 0xF8 && IsContinuation(bs[1]) && IsContinuation(bs[2])
            && IsContinuation(bs[3]) then
      var cp: int := (((bs[0] as int - 0xF0) * 64 + (bs[1] as int - 0x80)) * 64 + (bs[2] as int - 0x80)) * 64 + (bs[3] as int - 0x80);
      if 0x10000 <= cp <= 0x10FFFF then Some(cp as char) else None
    else None
  }

  /** Reads `n` "%XX" triplets from the front of `s`. */
  function ReadOctets(s: string, n: nat): (r: Option<seq<byte>>)
    ensures r.Some? ==> |s| >= 3 * n && |r.value| == n
    decreases n
  {
    if n == 0 then Some([])
    else if |s| < 3 || s[0] != '%' then None
    else
      match (HexValue(s[1]), HexValue(s[2]))
      case (Some(h), Some(l)) =>
        (match ReadOctets(s[3..], n - 1)
         case Some(rest) => Some([h * 16 + l] + rest)
         case None => None)
      case _ => None
  }

  function Prepend(c: char, r: Option<string>): Option<string> {
    match r
    case Some(t) => Some([c] + t)
    case None => None
  }

  function EncodeChar(c: char): string {
    if IsUnescaped(c) then [c] else EscapeAll(Utf8Encode(c))
  }

  /** `encodeURIComponent`. */
  function Encode(s: string): string {
    if s == [] then "" else EncodeChar(s[0]) + Encode(s[1..])
  }

  /** `decodeURIComponent`; `None` where the built-in throws a URIError. */
  function Decode(s: string): Option<string>
    decreases |s|
  {
    if s == [] then Some("")
    else if s[0] != '%' then Prepend(s[0], Decode(s[1..]))
    else
      match ReadOctets(s, 1)
      case None => None
      case Some(first) =>
        var n := SequenceLength(first[0]);
        if n == 0 then None
        else
          match ReadOctets(s, n)
          case None => None
          case Some(bs) =>
            match Utf8Decode(bs)
            case None => None
            case Some(c) => Prepend(c, Decode(s[3 * n..]))
  }

  lemma Utf8RoundTrip(c: char)
    ensures SequenceLength(Utf8Encode(c)[0]) == |Utf8Encode(c)|
    ensures Utf8Decode(Utf8Encode(c)) == Some(c)
  {
    var cp := c as int;
    if cp < 0x80 {
    } else if cp < 0x800 {
      assert cp == (cp / 64) * 64 + cp % 64;
    } else if cp < 0x10000 {
      var q := cp / 64;
      assert q == (q / 64) * 64 + q % 64;
      assert cp == q * 64 + cp % 64;
    } else {
      var q := cp / 64;
      var q2 := q / 64;
      assert q2 == (q2 / 64) * 64 + q2 % 64;
      assert q == q2 * 64 + q % 64;
      assert cp == q * 64 + cp % 64;
    }
  }

  lemma {:induction false} ReadEscaped(bs: seq<byte>, t: string, k: nat)
    requires k <= |bs|
    ensures ReadOctets(EscapeAll(bs) + t, k) == Some(bs[..k])
    decreases k
  {
    if k > 0 {
      var rest := EscapeAll(bs[1..]) + t;
      ReadEscaped(bs[1..], t, k - 1);
      EscapeAllThen(bs, t);
      ReadOneOctet(bs[0], rest, k, bs[1..][..k - 1]);
      assert bs[..k] == [bs[0]] + bs[1..][..k - 1];
    }
  }

  lemma EscapeAllThen(bs: seq<byte>, t: string)
    requires bs != []
    ensures EscapeAll(bs) + t == Escape(bs[0]) + (EscapeAll(bs[1..]) + t)
  {
  }

  /** Reading octets after an escaped octet: that octet, then the rest. */
  lemma ReadOneOctet(b: byte, rest: string, k: nat, r: seq<byte>)
    requires k > 0 && ReadOctets(rest, k - 1) == Some(r)
    ensures ReadOctets(Escape(b) + rest, k) == Some([b] + r)
  {
    var u := Escape(b) + rest;
    HexUpperValue(b / 16);
    HexUpperValue(b % 16);
    assert u[1] == HexUpper(b / 16) && u[2] == HexUpper(b % 16);
    assert u[3..] == rest;
  }

  lemma DecodeEncodedChar(c: char, t: string)
    ensures Decode(EncodeChar(c) + t) == Prepend(c, Decode(t))
  {
    var u := EncodeChar(c) + t;
    if IsUnescaped(c) {
      assert u[0] == c && u[1..] == t;
    } else {
      var bs := Utf8Encode(c);
      Utf8RoundTrip(c);
      ReadEscaped(bs, t, 1);
      ReadEscaped(bs, t, |bs|);
      assert bs[..|bs|] == bs;
      assert u[3 * |bs|..] == t;
      assert u[0] == '%';
    }
  }

  /** Decoding an encoded string gives the string back. */
  lemma {:induction false} DecodeEncode(s: string)
    ensures Decode(Encode(s)) == Some(s)
  {
    if s != [] {
      DecodeEncode(s[1..]);
      DecodeEncodedChar(s[0], Encode(s[1..]));
      assert [s[0]] + s[1..] == s;
    }
  }

  /** Encoded text never holds a query or fragment delimiter, so it stays one parameter value. */
  lemma {:induction false} EncodeHasNoDelimiters(s: string)
    ensures forall i :: 0 <= i < |Encode(s)| ==> Encode(s)[i] !in "&?#=/+ "
  {
    if s != [] {
      EncodeHasNoDelimiters(s[1..]);
      EscapedHasNoDelimiters(Utf8Encode(s[0]));
    }
  }

  lemma {:induction false} EscapedHasNoDelimiters(bs: seq<byte>)
    ensures forall i :: 0 <= i < |EscapeAll(bs)| ==> EscapeAll(bs)[i] !in "&?#=/+ "
  {
    if bs != [] {
      EscapedHasNoDelimiters(bs[1..]);
    }
  }

  /** Text without `%` decodes to itself. */
  lemma {:induction false} DecodeWithoutEscapes(s: string)
    requires '%' !in s
    ensures Decode(s) == Some(s)
  {
    if s != [] {
      DecodeWithoutEscapes(s[1..]);
      assert [s[0]] + s[1..] == s;
    }
  }
}
