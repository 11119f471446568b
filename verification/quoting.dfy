/** Go's `%q` verb applied to a string (`strconv.Quote`), as the formatter uses
    it for every value (logger_formatter.go:139). The ASCII range follows
    strconv exactly: `\"` and `\\`, the named escapes `\a \b \f \n \r \t \v`,
    `\xNN` with lower-case hex for the other control characters and DEL, and
    printable ASCII as itself. Characters beyond ASCII are kept as they are.
    `Unquote` is the inverse reading it is checked against. */
module Quoting {
  import opened Wrappers

  function HexDigit(d: nat): (c: char)
    requires d < 16
  {
    if d < 10 then ('0' as int + d) as char else ('a' as int + d - 10) as char
  }

  predicate IsHex(c: char) {
    '0' <= c <= '9' || 'a' <= c <= 'f'
  }

  function HexValue(c: char): (d: nat)
    requires IsHex(c)
    ensures d < 16
  {
    if c <= '9' then c as int - '0' as int else c as int - 'a' as int + 10
  }

  /** The escape letter strconv uses for a control character, if it has one. */
  function NamedEscape(c: char): Option<char> {
    if c == 7 as char then Some('a')
    else if c == 8 as char then Some('b')
    else if c == 12 as char then Some('f')
    else if c == 10 as char then Some('n')
    else if c == 13 as char then Some('r')
    else if c == 9 as char then Some('t')
    else if c == 11 as char then Some('v')
    else None
  }

  /** The control character an escape letter stands for (inverse of `NamedEscape`). */
  function NamedControl(e: char): Option<char> {
    if e == 'a' then Some(7 as char)
    else if e == 'b' then Some(8 as char)
    else if e == 'f' then Some(12 as char)
    else if e == 'n' then Some(10 as char)
    else if e == 'r' then Some(13 as char)
    else if e == 't' then Some(9 as char)
    else if e == 'v' then Some(11 as char)
    else None
  }

  /** How one character appears between the quotes. */
  function EscapeChar(c: char): (s: string)
    ensures 0 < |s|
    ensures s[0] != '"'
  {
    if c == '"' || c == '\\' then ['\\', c]
    else if ' ' <= c < 127 as char || 128 as char <= c then [c]
    else if NamedEscape(c).Some? then ['\\', NamedEscape(c).value]
    else ['\\', 'x', HexDigit(c as int / 16), HexDigit(c as int % 16)]
  }

  function Escape(s: string): string {
    if |s| == 0 then "" else EscapeChar(s[0]) + Escape(s[1..])
  }

  /** `fmt.Sprintf("%q", s)` for a string `s`. */
  function Quote(s: string): (q: string)
    ensures 2 <= |q| && q[0] == '"' && q[|q| - 1] == '"'
  {
    "\"" + Escape(s) + "\""
  }

  function Prepend(c: char, r: Option<string>): Option<string> {
    match r
    case Some(s) => Some([c] + s)
    case None => None
  }

  /** Reads the body of a quoted string back; a bare quote or an unknown
      escape makes it fail. */
  function Unescape(t: string): Option<string>
    decreases |t|
  {
    if |t| == 0 then Some("")
    else if t[0] == '"' then None
    else if t[0] != '\\' then Prepend(t[0], Unescape(t[1..]))
    else if |t| < 2 then None
    else if t[1] == '"' || t[1] == '\\' then Prepend(t[1], Unescape(t[2..]))
    else if NamedControl(t[1]).Some? then Prepend(NamedControl(t[1]).value, Unescape(t[2..]))
    else if t[1] == 'x' && 4 <= |t| && IsHex(t[2]) && IsHex(t[3]) then
      Prepend((HexValue(t[2]) * 16 + HexValue(t[3])) as char, Unescape(t[4..]))
    else None
  }

  function Unquote(q: string): Option<string> {
    if 2 <= |q| && q[0] == '"' && q[|q| - 1] == '"' then Unescape(q[1..|q| - 1]) else None
  }

  lemma HexRoundTrip(d: nat)
    requires d < 16
    ensures IsHex(HexDigit(d)) && HexValue(HexDigit(d)) == d
  {
  }

  /** Reading past one escaped character gives back that character. */
  lemma UnescapeChar(c: char, t: string)
    ensures Unescape(EscapeChar(c) + t) == Prepend(c, Unescape(t))
  {
    var u := EscapeChar(c) + t;
    if c == '"' || c == '\\' {
      assert u[2..] == t;
    } else if ' ' <= c < 127 as char || 128 as char <= c {
      assert u[1..] == t;
    } else if NamedEscape(c).Some? {
      assert u[2..] == t;
    } else {
      HexRoundTrip(c as int / 16);
      HexRoundTrip(c as int % 16);
      assert u[4..] == t;
    }
  }

  lemma {:induction false} UnescapeEscape(s: string)
    ensures Unescape(Escape(s)) == Some(s)
  {
    if |s| > 0 {
      UnescapeChar(s[0], Escape(s[1..]));
      UnescapeEscape(s[1..]);
      assert [s[0]] + s[1..] == s;
    }
  }

  /** `%q` loses nothing: the quoted text reads back as the original string. */
  lemma QuoteRoundTrip(s: string)
    ensures Unquote(Quote(s)) == Some(s)
  {
    var q := Quote(s);
    assert q[1..|q| - 1] == Escape(s);
    UnescapeEscape(s);
  }
}
