/** JSON values as `JSON.parse` produces them, their text as `JSON.stringify`
    writes it, and a reader for the one shape the forms read back: an array of
    strings. */
module Json {
  import opened Text

  datatype JsonValue =
    | JNull
    | JBool(b: bool)
    | JNum(n: int)
    | JStr(s: string)
    | JArr(items: seq<JsonValue>)
    | JObj(entries: seq<(string, JsonValue)>)

  // ---------------------------------------------------------------- writing

  function HexDigit(d: nat): char
    requires d < 16
  {
    "0123456789abcdef"[d]
  }

  /** How `JSON.stringify` writes one character inside a string literal. */
  function EscapeChar(c: char): string
  {
    if c == '"' then "\\\""
    else if c == '\\' then "\\\\"
    else if c == '\U{0008}' then "\\b"
    else if c == '\U{000C}' then "\\f"
    else if c == '\n' then "\\n"
    else if c == '\r' then "\\r"
    else if c == '\t' then "\\t"
    else if c < ' ' then "\\u00" + [HexDigit(c as int / 16), HexDigit(c as int % 16)]
    else [c]
  }

  function EscapeString(s: string): string
  {
    if s == [] then "" else EscapeChar(s[0]) + EscapeString(s[1..])
  }

  function Quote(s: string): string
  {
    "\"" + EscapeString(s) + "\""
  }

  /** `JSON.stringify(v)` (integers only; see the README). */
  function Stringify(v: JsonValue): string
  {
    match v
    case JNull => "null"
    case JBool(b) => if b then "true" else "false"
    case JNum(n) => IntToString(n)
    case JStr(s) => Quote(s)
    case JArr(items) =>
      "[" + Join(seq(|items|, i requires 0 <= i < |items| => Stringify(items[i])), ",") + "]"
    case JObj(entries) =>
      "{" + Join(seq(|entries|, i requires 0 <= i < |entries| =>
                       Quote(entries[i].0) + ":" + Stringify(entries[i].1)), ",") + "}"
  }

  function StringValues(xs: seq<string>): (vs: seq<JsonValue>)
    ensures |vs| == |xs| && forall i :: 0 <= i < |xs| ==> vs[i] == JStr(xs[i])
  {
    seq(|xs|, i requires 0 <= i < |xs| => JStr(xs[i]))
  }

  /** `JSON.stringify` of an array of strings. */
  function StringifyStrings(xs: seq<string>): string
  {
    Stringify(JArr(StringValues(xs)))
  }

  // ---------------------------------------------------------------- reading

  function HexValue(c: char): Option<nat>
  {
    if '0' <= c <= '9' then Some(c as int - '0' as int)
    else if 'a' <= c <= 'f' then Some(c as int - 'a' as int + 10)
    else if 'A' <= c <= 'F' then Some(c as int - 'A' as int + 10)
    else None
  }

  /** The character a `\uXXXX` escape stands for, if it is not half of a surrogate pair. */
  function UnicodeEscape(h: string): Option<char>
    requires |h| == 4
  {
    match (HexValue(h[0]), HexValue(h[1]), HexValue(h[2]), HexValue(h[3]))
    case (Some(a), Some(b), Some(c), Some(d)) =>
      var n := ((a * 16 + b) * 16 + c) * 16 + d;
      if 0xD800 <= n < 0xE000 then None else Some(n as char)
    case _ => None
  }

  function SimpleEscape(e: char): Option<char>
  {
    if e == '"' then Some('"')
    else if e == '\\' then Some('\\')
    else if e == '/' then Some('/')
    else if e == 'b' then Some('\U{0008}')
    else if e == 'f' then Some('\U{000C}')
    else if e == 'n' then Some('\n')
    else if e == 'r' then Some('\r')
    else if e == 't' then Some('\t')
    else None
  }

  /** Reads the rest of a string literal whose opening quote is already read:
      the decoded text and what follows the closing quote. */
  function ReadString(t: string): (r: Option<(string, string)>)
    ensures r.Some? ==> |r.value.1| < |t|
  {
    if t == [] then None
    else if t[0] == '"' then Some(("", t[1..]))
    else if t[0] == '\\' then
      if |t| < 2 then None
      else
        match SimpleEscape(t[1])
        case Some(c) =>
          (match ReadString(t[2..])
           case Some((s, rest)) => Some(([c] + s, rest))
           case None => None)
        case None =>
          if t[1] == 'u' && |t| >= 6 then
            match UnicodeEscape(t[2..6])
            case Some(c) =>
              (match ReadString(t[6..])
               case Some((s, rest)) => Some(([c] + s, rest))
               case None => None)
            case None => None
          else None
    else if t[0] < ' ' then None
    else
      match ReadString(t[1..])
      case Some((s, rest)) => Some(([t[0]] + s, rest))
      case None => None
  }

  /** Reads `"…","…",…]` up to the end of the text. */
  function ReadElements(t: string): Option<seq<string>>
    decreases |t|
  {
    if |t| >= 1 && t[0] == '"' then
      match ReadString(t[1..])
      case None => None
      case Some((s, rest)) =>
        if rest == "]" then Some([s])
        else if |rest| >= 1 && rest[0] == ',' then
          match ReadElements(rest[1..])
          case Some(xs) => Some([s] + xs)
          case None => None
        else None
    else None
  }

  /** Reads the compact text of an array of strings, as `JSON.stringify` writes
      it; anything else is refused. */
  function ParseStringArray(t: string): Option<seq<string>>
  {
    if t == "[]" then Some([])
    else if |t| >= 1 && t[0] == '[' then ReadElements(t[1..])
    else None
  }

  // ---------------------------------------------------------------- round trip

  lemma HexRoundTrip(d: nat)
    requires d < 16
    ensures HexValue(HexDigit(d)) == Some(d)
  {
    var digits := "0123456789abcdef";
    assert digits[0] == '0' && digits[1] == '1' && digits[2] == '2' && digits[3] == '3';
    assert digits[4] == '4' && digits[5] == '5' && digits[6] == '6' && digits[7] == '7';
    assert digits[8] == '8' && digits[9] == '9' && digits[10] == 'a' && digits[11] == 'b';
    assert digits[12] == 'c' && digits[13] == 'd' && digits[14] == 'e' && digits[15] == 'f';
  }

  /** Reading an escaped character back gives the character. */
  lemma ReadEscapedChar(c: char, tail: string)
    requires ReadString(tail).Some?
    ensures ReadString(EscapeChar(c) + tail)
         == Some(([c] + ReadString(tail).value.0, ReadString(tail).value.1))
  {
    if c == '"' || c == '\\' || c == '\U{0008}' || c == '\U{000C}' || c == '\n' || c == '\r' || c == '\t' {
      ReadShortEscape(c, tail);
    } else if c < ' ' {
      ReadUnicodeEscape(c, tail);
    } else {
      var t := EscapeChar(c) + tail;
      assert t[0] == c && t[1..] == tail;
    }
  }

  lemma ReadShortEscape(c: char, tail: string)
    requires c == '"' || c == '\\' || c == '\U{0008}' || c == '\U{000C}' || c == '\n' || c == '\r' || c == '\t'
    requires ReadString(tail).Some?
    ensures ReadString(EscapeChar(c) + tail)
         == Some(([c] + ReadString(tail).value.0, ReadString(tail).value.1))
  {
    var t := EscapeChar(c) + tail;
    assert t[0] == '\\' && t[2..] == tail;
  }

  lemma ReadUnicodeEscape(c: char, tail: string)
    requires c < ' ' && !(c == '\U{0008}' || c == '\U{000C}' || c == '\n' || c == '\r' || c == '\t')
    requires ReadString(tail).Some?
    ensures ReadString(EscapeChar(c) + tail)
         == Some(([c] + ReadString(tail).value.0, ReadString(tail).value.1))
  {
    var t := EscapeChar(c) + tail;
    var h1, h2 := HexDigit(c as int / 16), HexDigit(c as int % 16);
    assert t[0] == '\\' && t[1] == 'u' && t[6..] == tail;
    assert t[2..6] == ['0', '0', h1, h2];
    HexRoundTrip(c as int / 16);
    HexRoundTrip(c as int % 16);
    assert SimpleEscape('u') == None;
  }

  /** Reading the escaped text of a string followed by a closing quote gives the
      string and leaves what follows the quote. */
  lemma {:induction false} ReadQuoted(s: string, rest: string)
    ensures ReadString(EscapeString(s) + "\"" + rest) == Some((s, rest))
  {
    if s == [] {
      assert EscapeString(s) + "\"" + rest == "\"" + rest;
    } else {
      ReadQuoted(s[1..], rest);
      var tail := EscapeString(s[1..]) + "\"" + rest;
      assert EscapeString(s) + "\"" + rest == EscapeChar(s[0]) + tail;
      ReadEscapedChar(s[0], tail);
      assert [s[0]] + s[1..] == s;
    }
  }

  function Quotes(xs: seq<string>): (qs: seq<string>)
    ensures |qs| == |xs| && forall i :: 0 <= i < |xs| ==> qs[i] == Quote(xs[i])
  {
    seq(|xs|, i requires 0 <= i < |xs| => Quote(xs[i]))
  }

  lemma StringifyStringsShape(xs: seq<string>)
    ensures StringifyStrings(xs) == "[" + Join(Quotes(xs), ",") + "]"
  {
    var vs := StringValues(xs);
    var texts := seq(|vs|, i requires 0 <= i < |vs| => Stringify(vs[i]));
    assert texts == Quotes(xs);
  }

  /** A quoted string followed by anything reads back as the string, leaving
      what follows. */
  lemma ReadQuote(x: string, after: string)
    ensures var t := Quote(x) + after; |t| >= 1 && t[0] == '"' && ReadString(t[1..]) == Some((x, after))
  {
    var t := Quote(x) + after;
    var u := EscapeString(x) + "\"" + after;
    assert t == "\"" + u;
    assert t[1..] == u;
    ReadQuoted(x, after);
  }

  /** `ReadElements` once its first string is read. */
  lemma ReadElementsAfterString(t: string, x: string, after: string)
    requires |t| >= 1 && t[0] == '"' && ReadString(t[1..]) == Some((x, after))
    ensures ReadElements(t)
         == if after == "]" then Some([x])
            else if |after| >= 1 && after[0] == ',' then
              (match ReadElements(after[1..])
               case Some(ys) => Some([x] + ys)
               case None => None)
            else None
  {
  }

  lemma {:induction false} ReadQuotedElements(xs: seq<string>)
    requires xs != []
    ensures ReadElements(Join(Quotes(xs), ",") + "]") == Some(xs)
    decreases |xs|
  {
    if |xs| == 1 {
      assert Join(Quotes(xs), ",") == Quote(xs[0]);
      ReadQuote(xs[0], "]");
      ReadElementsAfterString(Quote(xs[0]) + "]", xs[0], "]");
      assert xs == [xs[0]];
    } else {
      var rest := Join(Quotes(xs[1..]), ",");
      assert Quotes(xs)[1..] == Quotes(xs[1..]);
      assert Join(Quotes(xs), ",") + "]" == Quote(xs[0]) + ("," + rest + "]");
      ReadQuote(xs[0], "," + rest + "]");
      ReadElementsAfterString(Quote(xs[0]) + ("," + rest + "]"), xs[0], "," + rest + "]");
      assert ("," + rest + "]")[1..] == rest + "]";
      ReadQuotedElements(xs[1..]);
      assert [xs[0]] + xs[1..] == xs;
    }
  }

  /** The string-array reader inverts `JSON.stringify` on arrays of strings. */
  lemma ParseStringifyStrings(xs: seq<string>)
    ensures ParseStringArray(StringifyStrings(xs)) == Some(xs)
  {
    StringifyStringsShape(xs);
    if xs == [] {
      assert StringifyStrings(xs) == "[]";
    } else {
      var t := StringifyStrings(xs);
      ReadQuotedElements(xs);
      assert t[1..] == Join(Quotes(xs), ",") + "]";
      assert t != "[]" by {
        assert |Join(Quotes(xs), ",")| >= |Quote(xs[0])| >= 2;
      }
    }
  }
}
