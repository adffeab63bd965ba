/** JSON encoding of body values. The envelope builder hands the value it
    selects to the platform's `JSON.stringify` (ECMA-262, "JSON.stringify";
    JSON text as in RFC 8259). That library is not part of this model, so the
    envelope takes the encoder as a parameter, and `IsJsonEncoder` names the
    few facts about it that the envelope's properties rely on. `Stringify` is
    a compact reference encoder showing those facts can all hold at once. */
module JsonText {
  import opened JsValues

  type Encoder = JsValue -> string

  /** A JSON string literal: text between two double quotes. */
  predicate IsQuoted(t: string) {
    |t| >= 2 && t[0] == '"' && t[|t| - 1] == '"'
  }

  /** What the envelope relies on about `JSON.stringify` for the modelled
      values: JSON text is never empty (RFC 8259, section 2, requires one
      value), the empty object encodes as `{}`, and a string encodes as a
      string literal. */
  ghost predicate IsJsonEncoder(enc: Encoder) {
    && (forall v :: enc(v) != [])
    && enc(Obj([])) == "{}"
    && (forall s :: IsQuoted(enc(Str(s))))
  }

  /** Reference encoder: compact JSON text (no white space), members in
      property order. */
  function Stringify(v: JsValue): (r: string)
    ensures r != []
    ensures v.Str? ==> IsQuoted(r)
  {
    match v
    case Null => "null"
    case Bool(b) => if b then "true" else "false"
    case Num(n) => Decimal(n)
    case Str(s) => Quote(s)
    case Arr(items) => "[" + StringifyItems(items) + "]"
    case Obj(ms) => "{" + StringifyMembers(ms) + "}"
  }

  /** Array elements separated by commas. */
  function StringifyItems(items: seq<JsValue>): (r: string) {
    if |items| == 0 then ""
    else if |items| == 1 then Stringify(items[0])
    else Stringify(items[0]) + "," + StringifyItems(items[1..])
  }

  /** Object members as `"key":value`, separated by commas. */
  function StringifyMembers(ms: seq<Member>): (r: string) {
    if |ms| == 0 then ""
    else
      var first := Quote(ms[0].key) + ":" + Stringify(ms[0].value);
      if |ms| == 1 then first else first + "," + StringifyMembers(ms[1..])
  }

  /** An integer in decimal notation, with a leading minus sign when negative. */
  function Decimal(n: int): (r: string)
    ensures r != []
  {
    if n < 0 then "-" + Digits(-n) else Digits(n)
  }

  function Digits(n: nat): (r: string)
    ensures r != []
  {
    if n < 10 then [DigitChar(n)] else Digits(n / 10) + [DigitChar(n % 10)]
  }

  function DigitChar(d: nat): (r: char)
    requires d < 10
  {
    "0123456789"[d]
  }

  function HexDigit(d: nat): (r: char)
    requires d < 16
  {
    "0123456789abcdef"[d]
  }

  /** A string literal, escaped as ECMA-262's QuoteJSONString does. */
  function Quote(s: string): (r: string)
    ensures IsQuoted(r)
  {
    "\"" + Escape(s) + "\""
  }

  function Escape(s: string): (r: string) {
    if |s| == 0 then "" else EscapeChar(s[0]) + Escape(s[1..])
  }

  /** A character that needs no escape is written as itself; the others get
      the short escapes for backspace, tab, line feed, form feed, carriage
      return, quote and backslash, and `\u00xx` (lower-case hex) for the
      remaining control characters. */
  function EscapeChar(c: char): (r: string)
    ensures Plain(c) ==> r == [c]
    ensures !Plain(c) ==> |r| >= 2 && r[0] == '\\'
  {
    var u := c as int;
    if Plain(c) then [c]
    else if u == 0x08 then "\\b"
    else if u == 0x09 then "\\t"
    else if u == 0x0A then "\\n"
    else if u == 0x0C then "\\f"
    else if u == 0x0D then "\\r"
    else if c == '"' then "\\\""
    else if c == '\\' then "\\\\"
    else "\\u00" + [HexDigit(u / 16), HexDigit(u % 16)]
  }

  /** A character that `EscapeChar` writes as itself. */
  predicate Plain(c: char) {
    c != '"' && c != '\\' && (c as int) >= 0x20
  }

  /** Text made of plain characters is copied into the literal unchanged. */
  lemma {:induction false} EscapePlain(s: string)
    requires forall i :: 0 <= i < |s| ==> Plain(s[i])
    ensures Escape(s) == s
  {
    if |s| > 0 {
      assert Plain(s[0]);
      EscapePlain(s[1..]);
      assert s == [s[0]] + s[1..];
    }
  }

  /** A string of plain characters encodes as itself between quotes. */
  lemma QuotePlain(t: string)
    requires forall i :: 0 <= i < |t| ==> Plain(t[i])
    ensures Stringify(Str(t)) == "\"" + t + "\""
  {
    EscapePlain(t);
  }

  /** The reference encoder meets every fact the envelope relies on. */
  lemma StringifyIsJsonEncoder()
    ensures IsJsonEncoder(Stringify)
  {
  }
}
