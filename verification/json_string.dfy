/** String literals as `json.dumps(..., ensure_ascii=False)` writes them:
    only the characters section 7 of RFC 8259 requires to be escaped are
    escaped, and every other character, non-ASCII included, is written as
    itself. */
module JsonString {

  /** Quotation mark, reverse solidus and the control characters
      U+0000 to U+001F. */
  predicate MustEscape(c: char) {
    c == '"' || c == '\\' || c < ' '
  }

  function HexDigit(n: nat): (c: char)
    requires n < 16
  {
    "0123456789abcdef"[n]
  }

  /** The escape Python's encoder writes for one character: the short forms
      for `"`, `\`, backspace, form feed, newline, carriage return and tab,
      `\u00xx` with lower-case hex for the other control characters. */
  function EscapeChar(c: char): (r: string)
    ensures !MustEscape(c) <==> r == [c]
    ensures MustEscape(c) ==> |r| >= 2 && r[0] == '\\'
    ensures forall k :: 0 <= k < |r| ==> r[k] >= ' '
  {
    if c == '"' then "\\\""
    else if c == '\\' then "\\\\"
    else if c as int == 0x08 then "\\b"
    else if c as int == 0x0C then "\\f"
    else if c == '\n' then "\\n"
    else if c == '\r' then "\\r"
    else if c == '\t' then "\\t"
    else if c < ' ' then "\\u00" + [HexDigit(c as int / 16), HexDigit(c as int % 16)]
    else [c]
  }

  function Escape(s: string): (r: string)
    ensures |r| >= |s|
    ensures forall k :: 0 <= k < |r| ==> r[k] >= ' '
    ensures (forall k :: 0 <= k < |s| ==> !MustEscape(s[k])) ==> r == s
  {
    if s == [] then [] else EscapeChar(s[0]) + Escape(s[1..])
  }

  /** A JSON string literal for `s`. */
  function Quote(s: string): (r: string)
    ensures |r| >= 2 && r[0] == '"' && r[|r| - 1] == '"'
    ensures forall k :: 0 <= k < |r| ==> r[k] >= ' '
  {
    "\"" + Escape(s) + "\""
  }
}
