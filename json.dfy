/** What `encoding/json`'s `Marshal` writes for the values the status bar
    serialises: structs whose fields are all strings, nil pointers, and slices
    of pointers to such structs. Strings are escaped as `Marshal` does by
    default (HTML-safe). The short escapes `\b` and `\f` are the ones Go
    writes since release 1.22. */
module Json {
  import opened Wrappers

  /** A marshalled pointer to a struct of string fields: `null`, or an object
      whose members are listed in struct-field order. */
  datatype Value = Null | Object(members: seq<(string, string)>)

  const HexDigits: string := "0123456789abcdef"

  /** The `\u00XX` escape of a control character. */
  function UnicodeEscape(c: char): (e: string)
    requires c < ' '
    ensures |e| == 6
  {
    var n := c as int;
    "\\u00" + [HexDigits[n / 16], HexDigits[n % 16]]
  }

  /** The text `Marshal` writes for one character inside a string literal. */
  function EscapeChar(c: char): (e: string)
    ensures |e| > 0
    ensures '\n' !in e
  {
    if c == '"' then "\\\""
    else if c == '\\' then "\\\\"
    else if c == '\n' then "\\n"
    else if c == '\r' then "\\r"
    else if c == '\t' then "\\t"
    else if c == '\U{0008}' then "\\b"
    else if c == '\U{000C}' then "\\f"
    else if c < ' ' then UnicodeEscape(c)
    else if c == '<' then "\\u003c"
    else if c == '>' then "\\u003e"
    else if c == '&' then "\\u0026"
    else if c == '\U{2028}' then "\\u2028"
    else if c == '\U{2029}' then "\\u2029"
    else [c]
  }

  function Escape(s: string): (e: string)
    ensures '\n' !in e
  {
    if s == [] then "" else EscapeChar(s[0]) + Escape(s[1..])
  }

  /** A JSON string literal. */
  function Quote(s: string): (q: string)
    ensures '\n' !in q
  {
    "\"" + Escape(s) + "\""
  }

  function Members(ms: seq<(string, string)>): (r: string)
    ensures '\n' !in r
  {
    if ms == [] then ""
    else
      Quote(ms[0].0) + ":" + Quote(ms[0].1)
      + (if |ms| == 1 then "" else "," + Members(ms[1..]))
  }

  /** `Marshal` of one pointer: `null` or a compact object. */
  function Render(v: Value): (r: string)
    ensures '\n' !in r
  {
    match v
    case Null => "null"
    case Object(ms) => "{" + Members(ms) + "}"
  }

  function Items(vs: seq<Value>): (r: string)
    ensures '\n' !in r
  {
    if vs == [] then ""
    else Render(vs[0]) + (if |vs| == 1 then "" else "," + Items(vs[1..]))
  }

  /** `Marshal` of a non-nil slice of pointers. */
  function RenderArray(vs: seq<Value>): (r: string)
    ensures '\n' !in r
    ensures |r| >= 2 && r[0] == '[' && r[|r| - 1] == ']'
  {
    "[" + Items(vs) + "]"
  }

  // ---------------------------------------------------------------------
  // Reading string literals back
  // ---------------------------------------------------------------------

  function HexValue(c: char): (v: Option<nat>)
    ensures v.Some? ==> v.value < 16
  {
    if '0' <= c <= '9' then Some(c as int - '0' as int)
    else if 'a' <= c <= 'f' then Some(c as int - 'a' as int + 10)
    else if 'A' <= c <= 'F' then Some(c as int - 'A' as int + 10)
    else None
  }

  function Hex4(h: string): (v: Option<nat>)
    requires |h| == 4
    ensures v.Some? ==> v.value < 0x10000
  {
    match (HexValue(h[0]), HexValue(h[1]), HexValue(h[2]), HexValue(h[3]))
    case (Some(a), Some(b), Some(c), Some(d)) => Some(((a * 16 + b) * 16 + c) * 16 + d)
    case _ => None
  }

  /** The character a two-character escape `\k` stands for. */
  function ShortEscape(k: char): Option<char> {
    if k == '"' then Some('"') else if k == '\\' then Some('\\')
    else if k == '/' then Some('/') else if k == 'b' then Some('\U{0008}')
    else if k == 'f' then Some('\U{000C}') else if k == 'n' then Some('\n')
    else if k == 'r' then Some('\r') else if k == 't' then Some('\t')
    else None
  }

  /** The decoding of the body of a JSON string literal (RFC 8259, section
      7): `None` for text that is not a valid body. Lone surrogate escapes are
      refused, as `Marshal` never writes them. */
  function Unescape(e: string): Option<string>
    decreases |e|
  {
    if e == [] then Some("")
    else if e[0] == '"' || e[0] < ' ' then None
    else if e[0] != '\\' then
      match Unescape(e[1..])
      case Some(r) => Some([e[0]] + r)
      case None => None
    else if |e| < 2 then None
    else
      var k := e[1];
      var simple := ShortEscape(k);
      if simple.Some? then
        match Unescape(e[2..])
        case Some(r) => Some([simple.value] + r)
        case None => None
      else if k != 'u' || |e| < 6 then None
      else
        match Hex4(e[2..6])
        case None => None
        case Some(n) =>
          if 0xD800 <= n < 0xE000 then None
          else
            match Unescape(e[6..])
            case Some(r) => Some([n as char] + r)
            case None => None
  }

  lemma HexDigitsValue(n: nat)
    requires n < 16
    ensures HexValue(HexDigits[n]) == Some(n)
  {
  }

  /** Decoding one escaped character, then the rest. */
  lemma UnescapeChar(c: char, rest: string)
    ensures Unescape(EscapeChar(c) + rest) ==
      match Unescape(rest)
      case Some(r) => Some([c] + r)
      case None => None
  {
    if c == '"' || c == '\\' || c == '\n' || c == '\r' || c == '\t'
       || c == '\U{0008}' || c == '\U{000C}' {
      UnescapeShort(c, rest);
    } else if c < ' ' {
      UnescapeControl(c, rest);
    } else if c == '<' || c == '>' || c == '&' || c == '\U{2028}' || c == '\U{2029}' {
      UnescapeSafe(c, rest);
    } else {
      assert (EscapeChar(c) + rest)[1..] == rest;
    }
  }

  lemma UnescapeShort(c: char, rest: string)
    requires c == '"' || c == '\\' || c == '\n' || c == '\r' || c == '\t'
       || c == '\U{0008}' || c == '\U{000C}'
    ensures Unescape(EscapeChar(c) + rest) ==
      match Unescape(rest)
      case Some(r) => Some([c] + r)
      case None => None
  {
    var e := EscapeChar(c) + rest;
    assert |EscapeChar(c)| == 2 && ShortEscape(EscapeChar(c)[1]) == Some(c);
    assert e[2..] == rest;
  }

  lemma UnescapeControl(c: char, rest: string)
    requires c < ' ' && c != '\n' && c != '\r' && c != '\t' && c != '\U{0008}' && c != '\U{000C}'
    ensures Unescape(EscapeChar(c) + rest) ==
      match Unescape(rest)
      case Some(r) => Some([c] + r)
      case None => None
  {
    var e := EscapeChar(c) + rest;
    var n := c as int;
    assert EscapeChar(c) == UnicodeEscape(c);
    HexDigitsValue(n / 16);
    HexDigitsValue(n % 16);
    assert e[2..6] == ['0', '0', HexDigits[n / 16], HexDigits[n % 16]];
    assert e[6..] == rest;
    assert (n as char) == c;
  }

  lemma UnescapeSafe(c: char, rest: string)
    requires c == '<' || c == '>' || c == '&' || c == '\U{2028}' || c == '\U{2029}'
    ensures Unescape(EscapeChar(c) + rest) ==
      match Unescape(rest)
      case Some(r) => Some([c] + r)
      case None => None
  {
    var e := EscapeChar(c) + rest;
    assert e[6..] == rest;
  }

  /** Decoding undoes `Marshal`'s escaping: every string survives the trip. */
  lemma {:induction false} UnescapeEscape(s: string)
    ensures Unescape(Escape(s)) == Some(s)
    decreases |s|
  {
    if s != [] {
      UnescapeChar(s[0], Escape(s[1..]));
      UnescapeEscape(s[1..]);
      assert [s[0]] + s[1..] == s;
    }
  }
}
