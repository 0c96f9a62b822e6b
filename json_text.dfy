/**
 * `JSON.stringify` applied to a string: a JSON string literal (section 7 of
 * RFC 8259) with the escapes ECMAScript's QuoteJSONString chooses, and the
 * reading of such a literal back into text.
 */
module JsonText {
  import opened Wrappers

  function HexLower(d: int): char
    requires 0 <= d < 16
  {
    "0123456789abcdef"[d]
  }

  function HexDigitValue(c: char): (r: Option<int>)
    ensures r.Some? ==> 0 <= r.value < 16
  {
    if '0' <= c <= '9' then Some(c as int - '0' as int)
    else if 'a' <= c <= 'f' then Some(c as int - 'a' as int + 10)
    else if 'A' <= c <= 'F' then Some(c as int - 'A' as int + 10)
    else None
  }

  /** The escaped form of one character inside the quotes. */
  function EscapeChar(c: char): (r: string)
    ensures forall i :: 0 <= i < |r| ==> r[i] >= ' '
    ensures |r| >= 1 && (r[0] == '\\' || (r == [c] && c != '"'))
  {
    if c == '"' then "\\\""
    else if c == '\\' then "\\\\"
    else if c == '\U{8}' then "\\b"
    else if c == '\U{C}' then "\\f"
    else if c == '\n' then "\\n"
    else if c == '\r' then "\\r"
    else if c == '\t' then "\\t"
    else if c < ' ' then ['\\', 'u', '0', '0', HexLower(c as int / 16), HexLower(c as int % 16)]
    else [c]
  }

  function EscapeText(s: string): (r: string)
    ensures forall i :: 0 <= i < |r| ==> r[i] >= ' '
  {
    if s == [] then "" else EscapeChar(s[0]) + EscapeText(s[1..])
  }

  /** `JSON.stringify(s)` for a string `s`. */
  function Quote(s: string): (r: string)
    ensures |r| >= 2 && r[0] == '"' && r[|r| - 1] == '"'
    ensures '\n' !in r
  {
    "\"" + EscapeText(s) + "\""
  }

  function Prepend(c: char, r: Option<string>): Option<string> {
    match r
    case Some(t) => Some([c] + t)
    case None => None
  }

  /**
   * Reads the escape sequence at the front of `t` (which starts with a
   * backslash): the character it stands for and its length. A `\u` escape
   * of a surrogate code unit is not accepted.
   */
  function Unescape(t: string): (r: Option<(char, nat)>)
    requires |t| >= 1 && t[0] == '\\'
    ensures r.Some? ==> 2 <= r.value.1 <= |t|
  {
    if |t| < 2 then None
    else if t[1] == '"' then Some(('"', 2))
    else if t[1] == '\\' then Some(('\\', 2))
    else if t[1] == '/' then Some(('/', 2))
    else if t[1] == 'b' then Some(('\U{8}', 2))
    else if t[1] == 'f' then Some(('\U{C}', 2))
    else if t[1] == 'n' then Some(('\n', 2))
    else if t[1] == 'r' then Some(('\r', 2))
    else if t[1] == 't' then Some(('\t', 2))
    else if t[1] == 'u' && |t| >= 6 then
      match (HexDigitValue(t[2]), HexDigitValue(t[3]), HexDigitValue(t[4]), HexDigitValue(t[5]))
      case (Some(a), Some(b), Some(c), Some(d)) =>
        var unit := ((a * 16 + b) * 16 + c) * 16 + d;
        if unit < 0xD800 || 0xDFFF < unit < 0x11_0000 then Some((unit as char, 6)) else None
      case _ => None
    else None
  }

  /**
   * Reads the rest of a string literal after its opening quote: the text up
   * to the closing quote, which must end the input. Control characters must
   * be escaped.
   */
  function ReadBody(t: string): Option<string>
    decreases |t|
  {
    if t == [] then None
    else if t[0] == '"' then (if |t| == 1 then Some("") else None)
    else if t[0] < ' ' then None
    else if t[0] != '\\' then Prepend(t[0], ReadBody(t[1..]))
    else
      match Unescape(t)
      case Some((c, n)) => Prepend(c, ReadBody(t[n..]))
      case None => None
  }

  /** Reads a whole JSON string literal. */
  function Unquote(q: string): Option<string> {
    if |q| >= 1 && q[0] == '"' then ReadBody(q[1..]) else None
  }

  lemma ReadEscapedChar(c: char, t: string)
    ensures ReadBody(EscapeChar(c) + t) == Prepend(c, ReadBody(t))
  {
    var e := EscapeChar(c);
    var u := e + t;
    if e == [c] {
      assert u[0] == c && u[1..] == t;
    } else {
      UnescapeEscaped(c, t);
      assert u[|e|..] == t;
    }
  }

  /** An escape sequence `EscapeChar` writes reads back as its character. */
  lemma UnescapeEscaped(c: char, t: string)
    requires EscapeChar(c) != [c]
    ensures var u := EscapeChar(c) + t;
      u[0] == '\\' && Unescape(u) == Some((c, |EscapeChar(c)|))
  {
    if c < ' ' && c != '\U{8}' && c != '\U{C}' && c != '\n' && c != '\r' && c != '\t' {
      UnescapeUnicode(c, t);
    } else {
      var u := EscapeChar(c) + t;
      assert u[..2] == EscapeChar(c);
    }
  }

  lemma UnescapeUnicode(c: char, t: string)
    requires c < ' ' && c != '\U{8}' && c != '\U{C}' && c != '\n' && c != '\r' && c != '\t'
    ensures var u := EscapeChar(c) + t;
      u[0] == '\\' && Unescape(u) == Some((c, 6))
  {
    var u := EscapeChar(c) + t;
    var v := c as int;
    assert HexDigitValue(HexLower(v / 16)) == Some(v / 16);
    assert HexDigitValue(HexLower(v % 16)) == Some(v % 16);
    assert u[1] == 'u' && u[2] == '0' && u[3] == '0' && u[4] == HexLower(v / 16) && u[5] == HexLower(v % 16);
  }

  lemma {:induction false} ReadEscapedText(s: string)
    ensures ReadBody(EscapeText(s) + "\"") == Some(s)
  {
    if s != [] {
      ReadEscapedText(s[1..]);
      assert EscapeText(s) + "\"" == EscapeChar(s[0]) + (EscapeText(s[1..]) + "\"");
      ReadEscapedChar(s[0], EscapeText(s[1..]) + "\"");
      assert [s[0]] + s[1..] == s;
    }
  }

  /** A quoted string reads back as the same string. */
  lemma QuoteRoundTrip(s: string)
    ensures Unquote(Quote(s)) == Some(s)
  {
    ReadEscapedText(s);
    assert Quote(s)[1..] == EscapeText(s) + "\"";
  }
}
