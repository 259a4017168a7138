/** String literals of JSON, RFC 8259 section 7: the escapes the program writes, and an independent reader. */
module StringTexts {
  import opened Outcomes

  function HexChar(n: nat): (c: char)
    requires n < 16
    ensures HexValue(c) == Some(n)
  {
    if n < 10 then (n + '0' as nat) as char else (n - 10 + 'a' as nat) as char
  }

  function HexValue(c: char): (r: Option<nat>)
    ensures r.Some? ==> r.value < 16
  {
    if '0' <= c <= '9' then Some(c as nat - '0' as nat)
    else if 'a' <= c <= 'f' then Some(c as nat - 'a' as nat + 10)
    else if 'A' <= c <= 'F' then Some(c as nat - 'A' as nat + 10)
    else None
  }

  const BACKSPACE: char := 8 as char
  const FORM_FEED: char := 12 as char

  /** One character as the program writes it: only quotes, backslashes and control characters are escaped. */
  function EscapeChar(c: char): (s: string)
    ensures |s| > 0
  {
    if c == '\"' then "\\\""
    else if c == '\\' then "\\\\"
    else if c == BACKSPACE then "\\b"
    else if c == FORM_FEED then "\\f"
    else if c == '\n' then "\\n"
    else if c == '\r' then "\\r"
    else if c == '\t' then "\\t"
    else if c < ' ' then "\\u00" + [HexChar(c as nat / 16), HexChar(c as nat % 16)]
    else [c]
  }

  function Escapes(s: string): string {
    if s == "" then "" else EscapeChar(s[0]) + Escapes(s[1..])
  }

  /** A string literal. */
  function Quote(s: string): (q: string)
    ensures |q| > 0 && q[0] == '\"'
  {
    "\"" + (Escapes(s) + "\"")
  }

  /** Only quotes, backslashes and control characters are escaped, the common ones with a letter. */
  lemma EscapesOnlyWhatMust(c: char)
    ensures c as int >= 32 && c != '\"' && c != '\\' ==> EscapeChar(c) == [c]
    ensures c in {'\"', '\\', '\n', '\r', '\t', 8 as char, 12 as char} ==> |EscapeChar(c)| == 2 && EscapeChar(c)[0] == '\\'
    ensures c as int < 32 && c !in {'\n', '\r', '\t', 8 as char, 12 as char} ==>
              |EscapeChar(c)| == 6 && EscapeChar(c)[..4] == "\\u00" && EscapeChar(c)[5] !in {'A', 'B', 'C', 'D', 'E', 'F'}
  {
  }

  function ReadHex4(s: string): (r: Option<nat>)
    ensures r.Some? ==> r.value < 0x10000 && |s| >= 4
  {
    if |s| < 4 then None
    else
      match (HexValue(s[0]), HexValue(s[1]), HexValue(s[2]), HexValue(s[3]))
      case (Some(a), Some(b), Some(c), Some(d)) => Some(4096 * a + 256 * b + 16 * c + d)
      case _ => None
  }

  /** After "\u": one code point, which may take a surrogate pair. Lone surrogates are not characters. */
  function ReadUnicode(s: string): (r: Option<(char, string)>)
    ensures r.Some? ==> |r.value.1| < |s|
  {
    match ReadHex4(s)
    case None => None
    case Some(n) =>
      if n < 0xD800 || 0xE000 <= n then Some((n as char, s[4..]))
      else if n < 0xDC00 && |s| >= 6 && s[4] == '\\' && s[5] == 'u' then
        match ReadHex4(s[6..])
        case None => None
        case Some(m) =>
          if 0xDC00 <= m < 0xE000 then Some(((0x10000 + (n - 0xD800) * 0x400 + (m - 0xDC00)) as char, s[10..]))
          else None
      else None
  }

  /** After a backslash. */
  function ReadEscape(s: string): (r: Option<(char, string)>)
    ensures r.Some? ==> |r.value.1| < |s|
  {
    if s == "" then None
    else
      match s[0]
      case '\"' => Some(('\"', s[1..]))
      case '\\' => Some(('\\', s[1..]))
      case '/' => Some(('/', s[1..]))
      case 'b' => Some((BACKSPACE, s[1..]))
      case 'f' => Some((FORM_FEED, s[1..]))
      case 'n' => Some(('\n', s[1..]))
      case 'r' => Some(('\r', s[1..]))
      case 't' => Some(('\t', s[1..]))
      case 'u' => ReadUnicode(s[1..])
      case _ => None
  }

  /** One character of a string literal; control characters must be escaped. */
  function ReadChar(s: string): (r: Option<(char, string)>)
    ensures r.Some? ==> |r.value.1| < |s|
  {
    if s == "" || s[0] < ' ' then None
    else if s[0] == '\\' then ReadEscape(s[1..])
    else Some((s[0], s[1..]))
  }

  /** After an opening quote: the string, and what follows the closing quote. */
  function ReadString(s: string): (r: Option<(string, string)>)
    ensures r.Some? ==> |r.value.1| < |s|
    decreases |s|
  {
    if s == "" then None
    else if s[0] == '\"' then Some(("", s[1..]))
    else
      match ReadChar(s)
      case None => None
      case Some((c, t)) =>
        match ReadString(t)
        case None => None
        case Some((text, rest)) => Some(([c] + text, rest))
  }

  lemma ReadsControl(c: char, tail: string)
    requires c < ' '
    ensures ReadUnicode("00" + [HexChar(c as nat / 16), HexChar(c as nat % 16)] + tail) == Some((c, tail))
  {
    var s := "00" + [HexChar(c as nat / 16), HexChar(c as nat % 16)] + tail;
    assert s[0] == '0' && s[1] == '0' && s[2] == HexChar(c as nat / 16) && s[3] == HexChar(c as nat % 16);
    assert HexValue('0') == Some(0);
    assert ReadHex4(s) == Some(c as nat);
    assert s[4..] == tail;
  }

  lemma ReadsControlChar(c: char, tail: string)
    requires c < ' ' && c !in {BACKSPACE, FORM_FEED, '\n', '\r', '\t'}
    ensures ReadChar(EscapeChar(c) + tail) == Some((c, tail))
    ensures (EscapeChar(c) + tail)[0] != '\"'
  {
    ReadsControl(c, tail);
    var t := "00" + [HexChar(c as nat / 16), HexChar(c as nat % 16)] + tail;
    assert EscapeChar(c) + tail == "\\u" + t;
    assert ("\\u" + t)[1..] == "u" + t && ("u" + t)[1..] == t;
  }

  lemma ReadsShort(e: char, tail: string)
    requires e in {'\"', '\\', 'b', 'f', 'n', 'r', 't'}
    ensures ['\\', e] + tail == "\\" + ([e] + tail) && ([e] + tail)[1..] == tail
    ensures ReadChar(['\\', e] + tail) == ReadEscape([e] + tail)
  {
    assert (['\\', e] + tail)[1..] == [e] + tail;
  }

  /** Each written character reads back as itself, and its text never starts with a quote. */
  lemma ReadsChar(c: char, tail: string)
    ensures ReadChar(EscapeChar(c) + tail) == Some((c, tail))
    ensures (EscapeChar(c) + tail)[0] != '\"'
  {
    var s := EscapeChar(c) + tail;
    if c in {'\"', '\\', BACKSPACE, FORM_FEED, '\n', '\r', '\t'} {
      ReadsShort(EscapeChar(c)[1], tail);
    } else if c < ' ' {
      ReadsControlChar(c, tail);
    } else {
      assert s[1..] == tail;
    }
  }

  /** A string literal reads back as the string it was written for. */
  lemma {:induction false} StringReads(s: string, rest: string)
    ensures ReadString(Escapes(s) + ("\"" + rest)) == Some((s, rest))
  {
    if s == "" {
      assert Escapes(s) + ("\"" + rest) == "\"" + rest;
    } else {
      var tail := Escapes(s[1..]) + ("\"" + rest);
      assert Escapes(s) + ("\"" + rest) == EscapeChar(s[0]) + tail;
      ReadsChar(s[0], tail);
      StringReads(s[1..], rest);
      assert s == [s[0]] + s[1..];
    }
  }
}
