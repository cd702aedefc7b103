/**
 * The `tags` and `skills` columns hold a list of strings as JSON text. This module gives the
 * text `JSON.stringify` writes for such a list and a reader for it, with the round trip proved.
 */
module Json {
  import opened Common

  /** A lower-case hexadecimal digit, as `JSON.stringify` writes them in `\u00XX`. */
  function HexDigit(n: nat): char
    requires n < 16
  {
    if n < 10 then ('0' as int + n) as char else ('a' as int + n - 10) as char
  }

  /** The value of a hexadecimal digit of either case. */
  function HexValue(c: char): (r: Option<nat>)
    ensures r.Some? ==> r.value < 16
  {
    if '0' <= c <= '9' then Some(c as int - '0' as int)
    else if 'a' <= c <= 'f' then Some(c as int - 'a' as int + 10)
    else if 'A' <= c <= 'F' then Some(c as int - 'A' as int + 10)
    else None
  }

  lemma HexRoundTrip(n: nat)
    requires n < 16
    ensures HexValue(HexDigit(n)) == Some(n)
  {
  }

  /** The value of four hexadecimal digits. */
  function Hex4(s: string): (r: Option<nat>)
    requires |s| == 4
    ensures r.Some? ==> r.value < 0x1_0000
  {
    match (HexValue(s[0]), HexValue(s[1]), HexValue(s[2]), HexValue(s[3]))
    case (Some(a), Some(b), Some(c), Some(d)) => Some(a * 0x1000 + b * 0x100 + c * 0x10 + d)
    case _ => None
  }

  /** How `JSON.stringify` writes one character inside a string literal. */
  function EscapeChar(c: char): string {
    if c == '"' then "\\\""
    else if c == '\\' then "\\\\"
    else if c == '\U{8}' then "\\b"
    else if c == '\t' then "\\t"
    else if c == '\n' then "\\n"
    else if c == '\U{C}' then "\\f"
    else if c == '\r' then "\\r"
    else if c < ' ' then "\\u00" + [HexDigit(c as int / 16), HexDigit(c as int % 16)]
    else [c]
  }

  function EscapeString(s: string): string {
    if s == [] then [] else EscapeChar(s[0]) + EscapeString(s[1..])
  }

  /** `JSON.stringify` of a string. */
  function EncodeString(s: string): string {
    "\"" + EscapeString(s) + "\""
  }

  function EncodeItems(xs: seq<string>): string {
    if xs == [] then []
    else if |xs| == 1 then EncodeString(xs[0])
    else EncodeString(xs[0]) + "," + EncodeItems(xs[1..])
  }

  /** `JSON.stringify` of an array of strings: no white space between the items. */
  function EncodeList(xs: seq<string>): string {
    "[" + EncodeItems(xs) + "]"
  }

  /** The character a one-letter escape `\e` stands for. */
  function SimpleEscape(e: char): Option<char> {
    if e == '"' then Some('"')
    else if e == '\\' then Some('\\')
    else if e == '/' then Some('/')
    else if e == 'b' then Some('\U{8}')
    else if e == 'f' then Some('\U{C}')
    else if e == 'n' then Some('\n')
    else if e == 'r' then Some('\r')
    else if e == 't' then Some('\t')
    else None
  }

  function Prepend(c: char, r: Option<(string, string)>): (p: Option<(string, string)>)
  {
    match r
    case None => None
    case Some((t, rest)) => Some(([c] + t, rest))
  }

  /**
   * Reads the inside of a string literal up to its closing quote; gives the decoded string
   * and the text after the quote, which is always shorter than the input.
   */
  function DecodeChars(s: string): (r: Option<(string, string)>)
    ensures r.Some? ==> |r.value.1| < |s|
    decreases |s|
  {
    if s == [] then None
    else if s[0] == '"' then Some(([], s[1..]))
    else if s[0] == '\\' then
      if |s| < 2 then None
      else if s[1] == 'u' then
        if |s| < 6 then None
        else
          match Hex4(s[2..6])
          case None => None
          case Some(v) =>
            if v < 0xD800 || 0xDFFF < v then Prepend(v as char, DecodeChars(s[6..])) else None
      else
        match SimpleEscape(s[1])
        case None => None
        case Some(c) => Prepend(c, DecodeChars(s[2..]))
    else if s[0] < ' ' then None
    else Prepend(s[0], DecodeChars(s[1..]))
  }

  /** Reads one string literal; gives the string and the (shorter) text after it. */
  function DecodeString(s: string): (r: Option<(string, string)>)
    ensures r.Some? ==> |r.value.1| < |s|
  {
    if s != [] && s[0] == '"' then DecodeChars(s[1..]) else None
  }

  /** Reads `item, item, ..., item]` up to the end of the text. */
  function DecodeItems(s: string): (r: Option<seq<string>>)
    ensures r.Some? ==> |r.value| >= 1
    decreases |s|
  {
    match DecodeString(s)
    case None => None
    case Some((x, rest)) =>
      if rest == "]" then Some([x])
      else if rest != [] && rest[0] == ',' then
        match DecodeItems(rest[1..])
        case None => None
        case Some(ys) => Some([x] + ys)
      else None
  }

  /**
   * `JSON.parse` of a list of strings. Only the text `JSON.stringify` produces is read; any
   * other text (white space, a value that is not an array of strings) is malformed.
   */
  function DecodeList(s: string): (r: Option<seq<string>>)
    ensures s == "[]" ==> r == Some([])
  {
    if s == "[]" then Some([])
    else if s != [] && s[0] == '[' then DecodeItems(s[1..])
    else None
  }

  /** `JSON.parse(column || "[]")`: a missing or empty column reads as the empty list. */
  function ParseColumn(column: Option<string>): (r: Option<seq<string>>)
    ensures !Truthy(column) ==> r == Some([])
  {
    DecodeList(if Truthy(column) then column.value else "[]")
  }

  lemma DecodeEscapedChar(c: char, t: string)
    ensures DecodeChars(EscapeChar(c) + t) == Prepend(c, DecodeChars(t))
  {
    if c == '"' || c == '\\' || c == '\U{8}' || c == '\t' || c == '\n' || c == '\U{C}' || c == '\r' {
      assert (EscapeChar(c) + t)[2..] == t;
    } else if c < ' ' {
      DecodeControlChar(c, t);
    } else {
      assert (EscapeChar(c) + t)[1..] == t;
    }
  }

  /** A control character without a short escape reads back from its `\u00XX` form. */
  lemma DecodeControlChar(c: char, t: string)
    requires c < ' '
    requires c != '\U{8}' && c != '\t' && c != '\n' && c != '\U{C}' && c != '\r'
    ensures DecodeChars(EscapeChar(c) + t) == Prepend(c, DecodeChars(t))
  {
    var e := EscapeChar(c) + t;
    var hi, lo := c as int / 16, c as int % 16;
    HexRoundTrip(hi);
    HexRoundTrip(lo);
    assert e[2..6] == ['0', '0', HexDigit(hi), HexDigit(lo)];
    assert Hex4(e[2..6]) == Some(c as int);
    assert e[6..] == t;
  }

  /** The inside of an encoded string literal reads back as the string. */
  lemma {:induction false} DecodeEscaped(s: string, rest: string)
    ensures DecodeChars(EscapeString(s) + "\"" + rest) == Some((s, rest))
    decreases |s|
  {
    if s == [] {
      assert EscapeString(s) + "\"" + rest == "\"" + rest;
      assert ("\"" + rest)[1..] == rest;
    } else {
      var t := EscapeString(s[1..]) + "\"" + rest;
      assert EscapeString(s) + "\"" + rest == EscapeChar(s[0]) + t;
      DecodeEscapedChar(s[0], t);
      DecodeEscaped(s[1..], rest);
      assert [s[0]] + s[1..] == s;
    }
  }

  lemma EncodedStringRoundTrip(s: string, rest: string)
    ensures DecodeString(EncodeString(s) + rest) == Some((s, rest))
  {
    var e := EncodeString(s) + rest;
    assert e[1..] == EscapeString(s) + "\"" + rest;
    DecodeEscaped(s, rest);
  }

  lemma {:induction false} EncodedItemsRoundTrip(xs: seq<string>)
    requires xs != []
    ensures DecodeItems(EncodeItems(xs) + "]") == Some(xs)
    decreases |xs|
  {
    if |xs| == 1 {
      assert EncodeItems(xs) == EncodeString(xs[0]);
      LastItemRoundTrip(xs[0]);
      assert [xs[0]] == xs;
    } else {
      var tail := EncodeItems(xs[1..]) + "]";
      assert EncodeItems(xs) + "]" == EncodeString(xs[0]) + ("," + tail);
      EncodedStringRoundTrip(xs[0], "," + tail);
      assert ("," + tail)[1..] == tail;
      EncodedItemsRoundTrip(xs[1..]);
      assert [xs[0]] + xs[1..] == xs;
    }
  }

  lemma LastItemRoundTrip(x: string)
    ensures DecodeItems(EncodeString(x) + "]") == Some([x])
  {
    EncodedStringRoundTrip(x, "]");
  }

  /** What `JSON.stringify` writes for a list of strings, `JSON.parse` reads back unchanged. */
  lemma ListRoundTrip(xs: seq<string>)
    ensures DecodeList(EncodeList(xs)) == Some(xs)
  {
    if xs != [] {
      var e := EncodeList(xs);
      assert e[1] == '"';
      assert e[1..] == EncodeItems(xs) + "]";
      EncodedItemsRoundTrip(xs);
    }
  }

  /** A column written as the encoding of a list reads back as that list. */
  lemma ColumnRoundTrip(xs: seq<string>)
    ensures ParseColumn(Some(EncodeList(xs))) == Some(xs)
  {
    ListRoundTrip(xs);
  }
}
