/**
 * The string encoding `json.dumps` applies to a Python `str` with its
 * default `ensure_ascii=True` (section 7 of RFC 8259): a double-quoted
 * string in which `"` and `\` and the five short control escapes are
 * written with a backslash, every other character outside printable ASCII
 * is written `\uXXXX` in lower-case hexadecimal, and a character beyond the
 * Basic Multilingual Plane as a surrogate pair. `Unquote` reads such a
 * string back.
 */
module Json {
  import opened Wrappers

  function HexDigit(d: nat): (c: char)
    requires d < 16
    ensures ('0' <= c <= '9') || ('a' <= c <= 'f')
  {
    if d < 10 then ('0' as int + d) as char else ('a' as int + d - 10) as char
  }

  function HexValue(c: char): Option<nat> {
    if '0' <= c <= '9' then Some(c as int - '0' as int)
    else if 'a' <= c <= 'f' then Some(c as int - 'a' as int + 10)
    else if 'A' <= c <= 'F' then Some(c as int - 'A' as int + 10)
    else None
  }

  lemma HexDigitValue(d: nat)
    requires d < 16
    ensures HexValue(HexDigit(d)) == Some(d)
  {
  }

  /** Two lower-case hexadecimal digits, most significant first. */
  function Hex2(b: nat): (s: string)
    requires b < 0x100
    ensures |s| == 2
  {
    [HexDigit(b / 16), HexDigit(b % 16)]
  }

  /** Four lower-case hexadecimal digits, most significant first (`{0:04x}`). */
  function Hex4(n: nat): (s: string)
    requires n < 0x1_0000
    ensures |s| == 4
  {
    Hex2(n / 0x100) + Hex2(n % 0x100)
  }

  function ParseHex2(s: string): Option<nat>
    requires |s| == 2
  {
    match (HexValue(s[0]), HexValue(s[1]))
    case (Some(a), Some(b)) => Some(a * 16 + b)
    case _ => None
  }

  function ParseHex4(s: string): Option<nat>
    requires |s| == 4
  {
    match (ParseHex2(s[..2]), ParseHex2(s[2..]))
    case (Some(hi), Some(lo)) => Some(hi * 0x100 + lo)
    case _ => None
  }

  lemma ParseHex2Inverse(b: nat)
    requires b < 0x100
    ensures ParseHex2(Hex2(b)) == Some(b)
  {
    HexDigitValue(b / 16);
    HexDigitValue(b % 16);
  }

  lemma ParseHex4Inverse(n: nat)
    requires n < 0x1_0000
    ensures ParseHex4(Hex4(n)) == Some(n)
  {
    var s := Hex4(n);
    assert s[..2] == Hex2(n / 0x100) && s[2..] == Hex2(n % 0x100);
    ParseHex2Inverse(n / 0x100);
    ParseHex2Inverse(n % 0x100);
  }

  /** `\uXXXX` for one UTF-16 code unit. */
  function UnitEscape(u: nat): (s: string)
    requires u < 0x1_0000
    ensures |s| == 6
  {
    "\\u" + Hex4(u)
  }

  /** The text `json.dumps` writes for one character. */
  function EscapeChar(c: char): (s: string)
    ensures |s| >= 1
  {
    if c == '"' then "\\\""
    else if c == '\\' then "\\\\"
    else if c == '\n' then "\\n"
    else if c == '\r' then "\\r"
    else if c == '\t' then "\\t"
    else if c == 8 as char then "\\b"
    else if c == 12 as char then "\\f"
    else if ' ' <= c <= '~' then [c]
    else if (c as int) < 0x1_0000 then UnitEscape(c as int)
    else
      var v := c as int - 0x1_0000;
      UnitEscape(0xD800 + v / 0x400) + UnitEscape(0xDC00 + v % 0x400)
  }

  function Escape(s: string): string {
    if s == [] then [] else EscapeChar(s[0]) + Escape(s[1..])
  }

  /** `json.dumps(s)` for a string `s`. */
  function Quote(s: string): (q: string)
    ensures |q| >= 2 && q[0] == '"' && q[|q| - 1] == '"'
  {
    "\"" + Escape(s) + "\""
  }

  lemma HexDigitsAreAscii(n: nat)
    requires n < 0x1_0000
    ensures forall i :: 0 <= i < |UnitEscape(n)| ==> ' ' <= UnitEscape(n)[i] <= '~'
  {
    var u := UnitEscape(n);
    assert u == ['\\', 'u'] + Hex2(n / 0x100) + Hex2(n % 0x100);
  }

  lemma EscapeCharIsAscii(c: char)
    ensures forall i :: 0 <= i < |EscapeChar(c)| ==> ' ' <= EscapeChar(c)[i] <= '~'
  {
    if !(c == '"' || c == '\\' || c == '\n' || c == '\r' || c == '\t' || c == 8 as char || c == 12 as char || ' ' <= c <= '~') {
      if (c as int) < 0x1_0000 {
        HexDigitsAreAscii(c as int);
      } else {
        var v := c as int - 0x1_0000;
        HexDigitsAreAscii(0xD800 + v / 0x400);
        HexDigitsAreAscii(0xDC00 + v % 0x400);
      }
    }
  }

  /** Every character of the encoding is printable ASCII. */
  lemma {:induction false} EscapeIsAscii(s: string)
    ensures forall i :: 0 <= i < |Escape(s)| ==> ' ' <= Escape(s)[i] <= '~'
  {
    if s != [] {
      EscapeIsAscii(s[1..]);
      EscapeCharIsAscii(s[0]);
      assert Escape(s) == EscapeChar(s[0]) + Escape(s[1..]);
    }
  }

  /** The character a short escape `\x` stands for. */
  function ShortEscape(x: char): Option<char> {
    if x == '"' then Some('"')
    else if x == '\\' then Some('\\')
    else if x == '/' then Some('/')
    else if x == 'n' then Some('\n')
    else if x == 'r' then Some('\r')
    else if x == 't' then Some('\t')
    else if x == 'b' then Some(8 as char)
    else if x == 'f' then Some(12 as char)
    else None
  }

  function IsScalar(v: int): bool {
    0 <= v < 0xD800 || 0xE000 <= v < 0x11_0000
  }

  /** Decodes the inside of a JSON string (without its quotes). */
  function Unescape(t: string): Option<string>
    decreases |t|
  {
    if t == [] then Some([])
    else if t[0] == '"' || (t[0] as int) < 0x20 then None
    else if t[0] != '\\' then
      match Unescape(t[1..])
      case Some(rest) => Some([t[0]] + rest)
      case None => None
    else if |t| < 2 then None
    else if t[1] != 'u' then
      match (ShortEscape(t[1]), Unescape(t[2..]))
      case (Some(c), Some(rest)) => Some([c] + rest)
      case _ => None
    else if |t| < 6 then None
    else match ParseHex4(t[2..6])
      case None => None
      case Some(u) =>
        if 0xD800 <= u < 0xDC00 then
          if |t| < 12 || t[6] != '\\' || t[7] != 'u' then None
          else match ParseHex4(t[8..12])
            case Some(l) =>
              if 0xDC00 <= l < 0xE000 then
                var v := 0x1_0000 + (u - 0xD800) * 0x400 + (l - 0xDC00);
                if IsScalar(v) then
                  match Unescape(t[12..])
                  case Some(rest) => Some([v as char] + rest)
                  case None => None
                else None
              else None
            case None => None
        else if IsScalar(u) then
          match Unescape(t[6..])
          case Some(rest) => Some([u as char] + rest)
          case None => None
        else None
  }

  /** Reads back a double-quoted JSON string. */
  function Unquote(q: string): Option<string> {
    if |q| < 2 || q[0] != '"' || q[|q| - 1] != '"' then None else Unescape(q[1..|q| - 1])
  }

  lemma UnescapeUnit(c: char, rest: string)
    requires ' ' <= c <= '~' || (c as int) < 0x1_0000
    ensures Unescape(UnitEscape(c as int) + rest) ==
              match Unescape(rest) case Some(r) => Some([c] + r) case None => None
  {
    var t := UnitEscape(c as int) + rest;
    ParseHex4Inverse(c as int);
    assert t[2..6] == Hex4(c as int);
    assert t[6..] == rest;
  }

  /** A high and a low surrogate escape decode to the character they encode together. */
  lemma UnescapeSurrogates(hi: nat, lo: nat, rest: string)
    requires 0xD800 <= hi < 0xDC00 && 0xDC00 <= lo < 0xE000
    requires IsScalar(0x1_0000 + (hi - 0xD800) * 0x400 + (lo - 0xDC00))
    ensures var v := 0x1_0000 + (hi - 0xD800) * 0x400 + (lo - 0xDC00);
            Unescape(UnitEscape(hi) + UnitEscape(lo) + rest) ==
              match Unescape(rest) case Some(r) => Some([v as char] + r) case None => None
  {
    var t := UnitEscape(hi) + UnitEscape(lo) + rest;
    ParseHex4Inverse(hi);
    ParseHex4Inverse(lo);
    assert t[2..6] == Hex4(hi);
    assert t[6] == '\\' && t[7] == 'u';
    assert t[8..12] == Hex4(lo);
    assert t[12..] == rest;
  }

  /** The surrogate pair of a supplementary character joins back to it. */
  lemma SurrogateSplit(c: char, hi: nat, lo: nat)
    requires (c as int) >= 0x1_0000
    requires hi == 0xD800 + (c as int - 0x1_0000) / 0x400 && lo == 0xDC00 + (c as int - 0x1_0000) % 0x400
    ensures 0xD800 <= hi < 0xDC00 && 0xDC00 <= lo < 0xE000
    ensures 0x1_0000 + (hi - 0xD800) * 0x400 + (lo - 0xDC00) == c as int
  {
    var v := c as int - 0x1_0000;
    assert v / 0x400 * 0x400 + v % 0x400 == v;
  }

  lemma UnescapePair(c: char, rest: string)
    requires (c as int) >= 0x1_0000
    ensures var v := c as int - 0x1_0000;
            Unescape(UnitEscape(0xD800 + v / 0x400) + UnitEscape(0xDC00 + v % 0x400) + rest) ==
              match Unescape(rest) case Some(r) => Some([c] + r) case None => None
  {
    var v := c as int - 0x1_0000;
    var hi, lo := 0xD800 + v / 0x400, 0xDC00 + v % 0x400;
    var w := 0x1_0000 + (hi - 0xD800) * 0x400 + (lo - 0xDC00);
    assert 0xD800 <= hi < 0xDC00 && 0xDC00 <= lo < 0xE000 && w == c as int by {
      SurrogateSplit(c, hi, lo);
    }
    UnescapeSurrogates(hi, lo, rest);
  }

  /** Decoding one escaped character and then the rest. */
  lemma UnescapeChar(c: char, rest: string)
    ensures Unescape(EscapeChar(c) + rest) ==
              match Unescape(rest) case Some(r) => Some([c] + r) case None => None
  {
    var t := EscapeChar(c) + rest;
    if c == '"' || c == '\\' || c == '\n' || c == '\r' || c == '\t' || c == 8 as char || c == 12 as char {
      assert t[2..] == rest;
    } else if ' ' <= c <= '~' {
      assert t[1..] == rest;
    } else if (c as int) < 0x1_0000 {
      UnescapeUnit(c, rest);
    } else {
      UnescapePair(c, rest);
    }
  }

  lemma {:induction false} UnescapeEscape(s: string)
    ensures Unescape(Escape(s)) == Some(s)
  {
    if s != [] {
      UnescapeEscape(s[1..]);
      UnescapeChar(s[0], Escape(s[1..]));
      assert [s[0]] + s[1..] == s;
    }
  }

  /** Reading back what `json.dumps` wrote gives the original string. */
  lemma UnquoteQuote(s: string)
    ensures Unquote(Quote(s)) == Some(s)
  {
    var q := Quote(s);
    assert q[1..|q| - 1] == Escape(s);
    UnescapeEscape(s);
  }

  /** Two strings quote alike only when they are equal. */
  lemma QuoteInjective(s: string, t: string)
    requires Quote(s) == Quote(t)
    ensures s == t
  {
    UnquoteQuote(s);
    UnquoteQuote(t);
  }
}
