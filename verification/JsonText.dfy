/**
 * JSON text: the string escaping of RFC 8259 section 7 as `ordered_json(s).dump()` prints it, and an
 * independent reader used as the reference for what the printed text means.
 */
module JsonText {
  import opened Common

  function HexDigit(n: int): (c: char)
    requires 0 <= n < 16
    ensures DigitValue(c) == n
  {
    if n < 10 then ('0' as int + n) as char else ('a' as int + (n - 10)) as char
  }

  function EscapeChar(c: char): string {
    if c == '"' then "\\\""
    else if c == '\\' then "\\\\"
    else if c as int == 8 then "\\b"
    else if c as int == 12 then "\\f"
    else if c == '\n' then "\\n"
    else if c == '\r' then "\\r"
    else if c == '\t' then "\\t"
    else if c as int < 0x20 then ['\\', 'u', '0', '0', HexDigit(c as int / 16), HexDigit(c as int % 16)]
    else [c]
  }

  /** The escaped text between the quotes. */
  function Escape(s: string): string {
    FlatMap(EscapeChar, s)
  }

  /** A JSON string literal. */
  function Quote(s: string): string {
    "\"" + Escape(s) + "\""
  }

  lemma EscapeConcat(a: string, b: string)
    ensures Escape(a + b) == Escape(a) + Escape(b)
  {
    FlatMapConcat(EscapeChar, a, b);
  }

  lemma EscapeMonotone(a: string, b: string)
    requires a <= b
    ensures Escape(a) <= Escape(b)
  {
    assert b == a + b[|a|..];
    EscapeConcat(a, b[|a|..]);
  }

  // ---------- the reference reader ----------

  /** One escape sequence: the character it stands for and its length. */
  function ReadEscape(s: string): Option<(char, nat)>
    ensures ReadEscape(s).Some? ==> 2 <= ReadEscape(s).value.1 <= |s|
  {
    if |s| < 2 || s[0] != '\\' then None
    else match s[1]
      case '"' => Some(('"', 2))
      case '\\' => Some(('\\', 2))
      case '/' => Some(('/', 2))
      case 'b' => Some((8 as char, 2))
      case 'f' => Some((12 as char, 2))
      case 'n' => Some(('\n', 2))
      case 'r' => Some(('\r', 2))
      case 't' => Some(('\t', 2))
      case 'u' =>
        if |s| < 6 || s[2] != '0' || s[3] != '0' then None
        else if DigitValue(s[4]) < 0 || DigitValue(s[5]) < 0 then None
        else Some(((16 * DigitValue(s[4]) + DigitValue(s[5])) as char, 6))
      case _ => None
  }

  /** The short escapes of RFC 8259 section 7 that are printed: their letters, and the codes they stand for. */
  const SHORT_LETTERS := "\"\\bfnrt"
  const SHORT_CODES: seq<nat> := [34, 92, 8, 12, 10, 13, 9]

  lemma ShortEscapes(k: nat)
    requires k < 7
    ensures EscapeChar(SHORT_CODES[k] as char) == ['\\', SHORT_LETTERS[k]]
    ensures ReadEscape(['\\', SHORT_LETTERS[k]]) == Some((SHORT_CODES[k] as char, 2))
  {
    if k < 3 {
      assert k == 0 || k == 1 || k == 2;
    } else {
      assert k == 3 || k == 4 || k == 5 || k == 6;
    }
  }

  /** Other control characters are printed by their code in four hexadecimal digits, all others as they are. */
  lemma OtherEscapes(c: char)
    requires c as int !in SHORT_CODES
    ensures c as int >= 32 ==> EscapeChar(c) == [c]
    ensures c as int < 32 ==>
              var e := EscapeChar(c);
              |e| == 6 && e[..4] == "\\u00" && 16 * DigitValue(e[4]) + DigitValue(e[5]) == c as int
  {
    assert SHORT_CODES[0] == 34 && SHORT_CODES[1] == 92 && SHORT_CODES[2] == 8 && SHORT_CODES[3] == 12;
    assert SHORT_CODES[4] == 10 && SHORT_CODES[5] == 13 && SHORT_CODES[6] == 9;
  }

  /** Reads string contents up to and including the closing quote. */
  function ReadBody(s: string): (r: Option<(string, string)>)
    ensures r.Some? ==> |r.value.1| < |s|
    decreases |s|
  {
    if s == "" then None
    else if s[0] == '"' then Some(("", s[1..]))
    else if s[0] == '\\' then
      (match ReadEscape(s)
       case None => None
       case Some((c, n)) =>
         match ReadBody(s[n..])
         case None => None
         case Some((body, rest)) => Some(([c] + body, rest)))
    else if s[0] as int < 0x20 then None
    else match ReadBody(s[1..])
      case None => None
      case Some((body, rest)) => Some(([s[0]] + body, rest))
  }

  function ReadString(s: string): (r: Option<(string, string)>)
    ensures r.Some? ==> |r.value.1| < |s|
  {
    if s == "" || s[0] != '"' then None else ReadBody(s[1..])
  }

  type Member = (string, string)

  /** Reads one `"key":"value"` member. */
  function ReadMember(s: string): (r: Option<(Member, string)>)
    ensures r.Some? ==> |r.value.1| < |s|
  {
    match ReadString(s)
    case None => None
    case Some((key, s1)) =>
      if s1 == "" || s1[0] != ':' then None
      else match ReadString(s1[1..])
        case None => None
        case Some((value, s2)) => Some(((key, value), s2))
  }

  /** Reads members separated by commas up to and including the closing brace. */
  function ReadMembers(s: string): Option<(seq<Member>, string)>
    decreases |s|
  {
    match ReadMember(s)
    case None => None
    case Some((m, s1)) =>
      if s1 == "" then None
      else if s1[0] == '}' then Some(([m], s1[1..]))
      else if s1[0] != ',' then None
      else match ReadMembers(s1[1..])
        case None => None
        case Some((ms, rest)) => Some(([m] + ms, rest))
  }

  /** Reads a whole text as one object whose members are all strings. */
  function ReadObject(s: string): Option<seq<Member>> {
    if s == "{}" then Some([])
    else if s == "" || s[0] != '{' then None
    else match ReadMembers(s[1..])
      case Some((ms, "")) => Some(ms)
      case _ => None
  }

  lemma ReadEscapeChar(c: char, rest: string)
    requires EscapeChar(c) != [c]
    ensures ReadEscape(EscapeChar(c) + rest) == Some((c, |EscapeChar(c)|))
  {
    var e := EscapeChar(c) + rest;
    if |EscapeChar(c)| == 6 {
      assert e[..6] == EscapeChar(c);
      assert e[1] == 'u' && e[2] == '0' && e[3] == '0';
      assert e[4] == HexDigit(c as int / 16) && e[5] == HexDigit(c as int % 16);
    }
  }

  /** Reading undoes printing, whatever follows the closing quote. */
  lemma {:induction false} ReadBodyEscape(s: string, rest: string)
    ensures ReadBody(Escape(s) + "\"" + rest) == Some((s, rest))
  {
    var e := Escape(s) + "\"" + rest;
    if s == "" {
      assert e == "\"" + rest;
    } else {
      var c, h := s[0], EscapeChar(s[0]);
      var t := Escape(s[1..]) + "\"" + rest;
      assert e == h + t;
      ReadBodyEscape(s[1..], rest);
      if h == [c] {
        assert e[0] == c && e[1..] == t;
      } else {
        ReadEscapeChar(c, t);
        assert e[0] == '\\';
        assert e[|h|..] == t;
      }
      assert s == [c] + s[1..];
    }
  }

  lemma ReadStringQuote(s: string, rest: string)
    ensures ReadString(Quote(s) + rest) == Some((s, rest))
  {
    assert (Quote(s) + rest)[1..] == Escape(s) + "\"" + rest;
    ReadBodyEscape(s, rest);
  }
}
