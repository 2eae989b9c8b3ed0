/** Quoting of strings as the encoder writes them, and the meaning of a quoted string (RFC 8259, section 7). */
module JsonStrings {
  import opened Characters
  import opened Json

  const REPLACEMENT := '\U{FFFD}'

  function HexDigit(n: nat): (c: char)
    requires n < 16
    ensures IsHex(c) && HexValue(c) == n
  {
    if n < 10 then ('0' as int + n) as char else ('a' as int + n - 10) as char
  }

  function HexValue(c: char): (n: nat)
    requires IsHex(c)
    ensures n < 16
  {
    if IsDigit(c) then c as int - '0' as int
    else if c >= 'a' then c as int - 'a' as int + 10
    else c as int - 'A' as int + 10
  }

  function HexEscape(code: nat): string
    requires code < 0x1_0000
  {
    ['\\', 'u', HexDigit(code / 0x1000), HexDigit(code / 0x100 % 0x10), HexDigit(code / 0x10 % 0x10),
     HexDigit(code % 0x10)]
  }

  /** Control characters, the HTML characters and the two line separators are escaped. */
  function EscapeChar(c: char): string {
    if c == '"' || c == '\\' then ['\\', c]
    else if c == '\U{8}' then "\\b"
    else if c == '\U{C}' then "\\f"
    else if c == '\n' then "\\n"
    else if c == '\r' then "\\r"
    else if c == '\t' then "\\t"
    else if c < ' ' || c == '<' || c == '>' || c == '&' || c == '\U{2028}' || c == '\U{2029}' then HexEscape(c as int)
    else [c]
  }

  function Escape(s: string): string {
    if s == "" then "" else EscapeChar(s[0]) + Escape(s[1..])
  }

  function Quote(s: string): string {
    "\"" + Escape(s) + "\""
  }

  predicate IsHexUnit(s: string) {
    UnitLength(s) == 6
  }

  /** The code a \u escape at the start of s names. */
  function CodeAt(s: string): (code: nat)
    requires IsHexUnit(s)
    ensures code < 0x1_0000
  {
    HexValue(s[2]) * 0x1000 + HexValue(s[3]) * 0x100 + HexValue(s[4]) * 0x10 + HexValue(s[5])
  }

  function ShortEscape(c: char): char {
    if c == 'b' then '\U{8}'
    else if c == 'f' then '\U{C}'
    else if c == 'n' then '\n'
    else if c == 'r' then '\r'
    else if c == 't' then '\t'
    else c
  }

  /** The string a raw string stands for; an escape that is half of a surrogate pair stands for U+FFFD. */
  function Decode(raw: string): string
    requires IsRaw(raw)
    decreases |raw|
  {
    if raw == "" then ""
    else
      var n := UnitLength(raw);
      var rest := raw[n..];
      if n == 1 then [raw[0]] + Decode(rest)
      else if n == 2 then [ShortEscape(raw[1])] + Decode(rest)
      else
        var code := CodeAt(raw);
        if 0xD800 <= code < 0xDC00 && IsHexUnit(rest) && 0xDC00 <= CodeAt(rest) < 0xE000 then
          [(0x1_0000 + (code - 0xD800) * 0x400 + (CodeAt(rest) - 0xDC00)) as char] + Decode(rest[6..])
        else if 0xD800 <= code < 0xE000 then [REPLACEMENT] + Decode(rest)
        else [code as char] + Decode(rest)
  }

  /** An escaped character is one string unit. */
  lemma EscapeUnit(c: char, rest: string)
    ensures UnitLength(EscapeChar(c) + rest) == |EscapeChar(c)| > 0
    ensures (EscapeChar(c) + rest)[|EscapeChar(c)|..] == rest
  {
  }

  /** Four hexadecimal digits make up a code. */
  lemma HexPlaces(n: nat)
    requires n < 0x1_0000
    ensures n / 0x1000 < 0x10
    ensures n / 0x1000 * 0x1000 + n / 0x100 % 0x10 * 0x100 + n / 0x10 % 0x10 * 0x10 + n % 0x10 == n
  {
    var a, b := n / 0x10, n / 0x100;
    assert n == a * 0x10 + n % 0x10;
    assert b == a / 0x10 && a == b * 0x10 + a % 0x10;
    assert n / 0x1000 == b / 0x10 && b == b / 0x10 * 0x10 + b % 0x10;
  }

  lemma EscapeCode(c: char, rest: string)
    requires |EscapeChar(c)| == 6
    ensures IsHexUnit(EscapeChar(c) + rest) && CodeAt(EscapeChar(c) + rest) == c as int
  {
    EscapeUnit(c, rest);
    var n := c as int;
    var s := EscapeChar(c) + rest;
    assert EscapeChar(c) == HexEscape(n);
    HexPlaces(n);
    hide EscapeChar, UnitLength;
    assert s[2] == HexDigit(n / 0x1000) && s[3] == HexDigit(n / 0x100 % 0x10);
    assert s[4] == HexDigit(n / 0x10 % 0x10) && s[5] == HexDigit(n % 0x10);
  }

  /** An escaped character stands for that character. */
  lemma DecodeStep(c: char, rest: string)
    requires IsRaw(rest)
    ensures IsRaw(EscapeChar(c) + rest) && Decode(EscapeChar(c) + rest) == [c] + Decode(rest)
  {
    hide HexDigit, CodeAt;
    EscapeUnit(c, rest);
    if |EscapeChar(c)| == 6 {
      EscapeCode(c, rest);
    }
  }

  /** Quoting is lossless: what the encoder writes is a string that stands for the input. */
  lemma {:induction false} DecodeEscape(s: string)
    ensures IsRaw(Escape(s)) && Decode(Escape(s)) == s
  {
    hide EscapeChar, UnitLength;
    if s != "" {
      DecodeEscape(s[1..]);
      DecodeStep(s[0], Escape(s[1..]));
      assert s == [s[0]] + s[1..];
    }
  }

  /** The meaning of a JSON text that is a string. */
  datatype Meaning = NoString | Means(text: string)

  function StringMeaning(text: string): Meaning {
    if IsJson(text) && Tree(text).value.String? then
      TextAndTree(text, Tree(text));
      Means(Decode(Tree(text).value.raw))
    else NoString
  }

  lemma QuoteMeaning(s: string)
    ensures IsJson(Quote(s)) && Tree(Quote(s)) == Element("", String(Escape(s)), "")
    ensures StringMeaning(Quote(s)) == Means(s)
  {
    hide IsRaw, Escape, ParseElement;
    DecodeEscape(s);
    TextAndTree(Quote(s), Element("", String(Escape(s)), ""));
  }
}
