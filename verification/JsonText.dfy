/** JSON string literals: what JSON.stringify prints for a string and JSON.parse reads back. */
module JsonText {
  import opened Wrappers
  import opened Text

  const HEX := "0123456789abcdef"

  /** The text of one character inside a literal. */
  function Escaped(c: char): (t: string)
    ensures |t| >= 1 && t[0] != '"'
  {
    if c == '"' then "\\\""
    else if c == '\\' then "\\\\"
    else if c == '\U{0008}' then "\\b"
    else if c == '\U{0009}' then "\\t"
    else if c == '\U{000A}' then "\\n"
    else if c == '\U{000C}' then "\\f"
    else if c == '\U{000D}' then "\\r"
    else if c < ' ' then "\\u00" + [HEX[c as int / 16], HEX[c as int % 16]]
    else [c]
  }

  function Body(s: string): string {
    if s == "" then "" else Escaped(s[0]) + Body(s[1..])
  }

  function Quote(s: string): string {
    "\"" + Body(s) + "\""
  }

  function HexValue(c: char): (v: Option<nat>)
    ensures v.Some? ==> v.value < 16
  {
    if '0' <= c <= '9' then Some(c as int - '0' as int)
    else if 'a' <= c <= 'f' then Some(c as int - 'a' as int + 10)
    else if 'A' <= c <= 'F' then Some(c as int - 'A' as int + 10)
    else None
  }

  datatype Character = Character(c: char, length: nat)

  /** The four-digit escape whose digits start at `i`. Halves of surrogate pairs are refused. */
  function HexEscape(text: string, i: nat): Option<char> {
    if i + 4 > |text| then None
    else
      match (HexValue(text[i]), HexValue(text[i + 1]), HexValue(text[i + 2]), HexValue(text[i + 3]))
      case (Some(a), Some(b), Some(c), Some(d)) =>
        var code := ((a * 16 + b) * 16 + c) * 16 + d;
        if code < 0xD800 || 0xE000 <= code < 0x10000 then Some(code as char) else None
      case _ => None
  }

  /** The character a literal denotes at `i`, and how much text it takes; None for a malformed one. */
  function CharacterAt(text: string, i: nat): (r: Option<Character>)
    requires i < |text|
    ensures r.Some? ==> 1 <= r.value.length && i + r.value.length <= |text|
  {
    if text[i] < ' ' then None
    else if text[i] != '\\' then Some(Character(text[i], 1))
    else if i + 1 == |text| then None
    else match text[i + 1]
      case '"' => Some(Character('"', 2))
      case '\\' => Some(Character('\\', 2))
      case '/' => Some(Character('/', 2))
      case 'b' => Some(Character('\U{0008}', 2))
      case 't' => Some(Character('\U{0009}', 2))
      case 'n' => Some(Character('\U{000A}', 2))
      case 'f' => Some(Character('\U{000C}', 2))
      case 'r' => Some(Character('\U{000D}', 2))
      case 'u' =>
        var c := HexEscape(text, i + 2);
        if c.Some? then Some(Character(c.value, 6)) else None
      case _ => None
  }

  /** JSON.parse of a text that has to be one string literal, from just after its opening quote. */
  function ParseBody(text: string, i: nat): Option<string>
    requires i <= |text|
    decreases |text| - i
  {
    if i == |text| then None
    else if text[i] == '"' then (if i + 1 == |text| then Some("") else None)
    else
      var next := CharacterAt(text, i);
      if next.None? then None
      else
        var rest := ParseBody(text, i + next.value.length);
        if rest.None? then None else Some([next.value.c] + rest.value)
  }

  function ParseLiteral(text: string): Option<string> {
    if text == "" || text[0] != '"' then None else ParseBody(text, 1)
  }

  /** What JSON.stringify writes for each character. */
  lemma EscapesSpelledOut(c: char)
    ensures c >= ' ' && c != '"' && c != '\\' ==> Escaped(c) == [c]
    ensures Escaped('"') == "\\\"" && Escaped('\\') == "\\\\"
    ensures Escaped('\n') == "\\n" && Escaped('\r') == "\\r" && Escaped('\t') == "\\t"
    ensures Escaped('\U{0008}') == "\\b" && Escaped('\U{000C}') == "\\f"
    ensures Escaped('\U{0000}') == "\\u0000" && Escaped('\U{001F}') == "\\u001f"
    ensures c < ' ' ==> |Escaped(c)| == 2 || (|Escaped(c)| == 6 && Escaped(c)[..4] == "\\u00")
  {
  }

  // ----- reading back ----------------------------------------------------------------

  lemma HexDigits(n: nat)
    requires n < 16
    ensures HexValue(HEX[n]) == Some(n)
  {
  }

  /** Whatever surrounds it, an escaped character reads back as itself. */
  lemma EscapedReadsBack(before: string, c: char, after: string)
    ensures var text := before + Escaped(c) + after;
            CharacterAt(text, |before|) == Some(Character(c, |Escaped(c)|))
  {
    var text := before + Escaped(c) + after;
    var i := |before|;
    assert text[i] == Escaped(c)[0];
    if |Escaped(c)| == 2 {
      assert text[i + 1] == Escaped(c)[1];
    } else if |Escaped(c)| == 6 {
      HexDigits(c as int / 16);
      HexDigits(c as int % 16);
      assert text[i + 1] == 'u' && text[i + 2] == '0' && text[i + 3] == '0';
      assert text[i + 4] == HEX[c as int / 16] && text[i + 5] == HEX[c as int % 16];
    }
  }

  lemma {:induction false} BodyReadsBack(before: string, s: string)
    ensures ParseBody(before + (Body(s) + "\""), |before|) == Some(s)
    decreases |s|
  {
    hide CharacterAt, Escaped;
    if s != "" {
      var tail := Body(s[1..]) + "\"";
      var text := before + Escaped(s[0]) + tail;
      assert before + (Body(s) + "\"") == text by {
        Regroup(Escaped(s[0]), Body(s[1..]), "\"");
        Regroup(before, Escaped(s[0]), tail);
      }
      EscapedReadsBack(before, s[0], tail);
      assert text[|before|] == Escaped(s[0])[0];
      BodyReadsBack(before + Escaped(s[0]), s[1..]);
      assert s == [s[0]] + s[1..];
    }
  }

  /** JSON.parse undoes JSON.stringify on strings. */
  lemma QuoteReadsBack(s: string)
    ensures ParseLiteral(Quote(s)) == Some(s)
  {
    Regroup("\"", Body(s), "\"");
    BodyReadsBack("\"", s);
  }

  lemma EscapesDiffer(c: char, x: string, d: char, y: string)
    requires Escaped(c) + x == Escaped(d) + y
    ensures c == d && x == y
  {
    assert "" + Escaped(c) + x == Escaped(c) + x && "" + Escaped(d) + y == Escaped(d) + y;
    EscapedReadsBack("", c, x);
    EscapedReadsBack("", d, y);
    CutPrefix(Escaped(c), x, Escaped(d), y);
  }

  lemma BodyFirst(s: string, r: string)
    ensures Body(s) + ("\"" + r) != ""
    ensures s == "" ==> Body(s) + ("\"" + r) == "\"" + r
    ensures s != "" ==> Body(s) + ("\"" + r) == Escaped(s[0]) + (Body(s[1..]) + ("\"" + r))
    ensures s != "" ==> (Body(s) + ("\"" + r))[0] != '"'
  {
    if s != "" { Regroup(Escaped(s[0]), Body(s[1..]), "\"" + r); }
  }

  /** Two literals followed by anything are the same text only if strings and continuations agree. */
  lemma {:induction false} BodyUnique(s: string, r: string, t: string, q: string)
    requires Body(s) + ("\"" + r) == Body(t) + ("\"" + q)
    ensures s == t && r == q
    decreases |s|
  {
    BodyFirst(s, r);
    BodyFirst(t, q);
    if s == "" {
      CutPrefix("\"", r, "\"", q);
    } else {
      EscapesDiffer(s[0], Body(s[1..]) + ("\"" + r), t[0], Body(t[1..]) + ("\"" + q));
      BodyUnique(s[1..], r, t[1..], q);
      assert s == [s[0]] + s[1..] && t == [t[0]] + t[1..];
    }
  }

  lemma QuoteUnique(s: string, r: string, t: string, q: string)
    requires Quote(s) + r == Quote(t) + q
    ensures s == t && r == q
  {
    QuoteShape(s, r);
    QuoteShape(t, q);
    CutPrefix("\"", Body(s) + ("\"" + r), "\"", Body(t) + ("\"" + q));
    BodyUnique(s, r, t, q);
  }

  lemma QuoteShape(s: string, r: string)
    ensures Quote(s) + r == "\"" + (Body(s) + ("\"" + r))
  {
    Regroup("\"" + Body(s), "\"", r);
    Regroup("\"", Body(s), "\"" + r);
  }
}
