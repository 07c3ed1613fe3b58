/**
 * The comment stripper that runs before JSON.parse sees a client's configuration
 * (apps/migration-cli/src/config-file.ts).
 */
module JsonComments {
  import opened JsonText
  import opened Text

  // ----- the lexer -------------------------------------------------------------------

  datatype Kind =
    | Literal       // a string literal with its quotes; the last one may be unterminated
    | LineComment
    | BlockComment
    | Plain         // any other single character

  datatype Token = Token(kind: Kind, text: string)

  function Flatten(tokens: seq<Token>): string {
    if tokens == [] then "" else tokens[0].text + Flatten(tokens[1..])
  }

  predicate IsComment(t: Token) {
    t.kind.LineComment? || t.kind.BlockComment?
  }

  function NonComments(tokens: seq<Token>): seq<Token> {
    if tokens == [] then []
    else if IsComment(tokens[0]) then NonComments(tokens[1..])
    else [tokens[0]] + NonComments(tokens[1..])
  }

  /** Where the literal ends, just after its closing quote, when `i` is inside it. */
  function LiteralEnd(raw: string, i: nat): (end: nat)
    ensures end <= |raw| && (i <= |raw| ==> i <= end)
    decreases |raw| - i
  {
    if i >= |raw| then |raw|
    else if raw[i] == '\\' then LiteralEnd(raw, i + 2)
    else if raw[i] == '"' then i + 1
    else LiteralEnd(raw, i + 1)
  }

  function LineEnd(raw: string, i: nat): (end: nat)
    requires i <= |raw|
    ensures i <= end <= |raw|
    decreases |raw| - i
  {
    if i == |raw| || raw[i] == '\n' then i else LineEnd(raw, i + 1)
  }

  predicate Has(raw: string, i: nat, a: char, b: char) {
    i + 1 < |raw| && raw[i] == a && raw[i + 1] == b
  }

  /** Just after the star and slash that end a block comment, or the end of the text. */
  function BlockEnd(raw: string, i: nat): (end: nat)
    requires i <= |raw|
    ensures i <= end <= |raw|
    decreases |raw| - i
  {
    if i == |raw| then i else if Has(raw, i, '*', '/') then i + 2 else BlockEnd(raw, i + 1)
  }

  function KindAt(raw: string, i: nat): Kind
    requires i < |raw|
  {
    if raw[i] == '"' then Literal
    else if Has(raw, i, '/', '/') then LineComment
    else if Has(raw, i, '/', '*') then BlockComment
    else Plain
  }

  function EndAt(raw: string, i: nat): (end: nat)
    requires i < |raw|
    ensures i < end <= |raw|
  {
    match KindAt(raw, i)
    case Literal => LiteralEnd(raw, i + 1)
    case LineComment => LineEnd(raw, i + 2)
    case BlockComment => BlockEnd(raw, i + 2)
    case Plain => i + 1
  }

  function LexFrom(raw: string, i: nat): seq<Token>
    requires i <= |raw|
    decreases |raw| - i
  {
    if i == |raw| then [] else [Token(KindAt(raw, i), raw[i..EndAt(raw, i)])] + LexFrom(raw, EndAt(raw, i))
  }

  function Lex(raw: string): seq<Token> {
    LexFrom(raw, 0)
  }

  /** Lexing loses nothing. */
  lemma {:induction false} LexIsLossless(raw: string, i: nat)
    requires i <= |raw|
    ensures Flatten(LexFrom(raw, i)) == raw[i..]
    decreases |raw| - i
  {
    if i < |raw| {
      LexIsLossless(raw, EndAt(raw, i));
      assert raw[i..] == raw[i..EndAt(raw, i)] + raw[EndAt(raw, i)..];
    }
  }

  // ----- the stripper ----------------------------------------------------------------

  /** What is printed from `i` on, starting outside or inside a literal. */
  function StripFrom(raw: string, i: nat, inString: bool): string
    requires i <= |raw|
    decreases |raw| - i
  {
    if i == |raw| then ""
    else if inString then
      if raw[i] == '\\' then
        if i + 1 < |raw| then [raw[i], raw[i + 1]] + StripFrom(raw, i + 2, true) else [raw[i]]
      else [raw[i]] + StripFrom(raw, i + 1, raw[i] != '"')
    else if raw[i] == '"' then [raw[i]] + StripFrom(raw, i + 1, true)
    else if Has(raw, i, '/', '/') then StripFrom(raw, LineEnd(raw, i + 2), false)
    else if Has(raw, i, '/', '*') then StripFrom(raw, BlockEnd(raw, i + 2), false)
    else [raw[i]] + StripFrom(raw, i + 1, false)
  }

  function Strip(raw: string): string {
    StripFrom(raw, 0, false)
  }

  /** One turn of the loop: what it prints, and where and how it goes on. */
  method NextPiece(raw: string, index: nat, inString: bool) returns (piece: string, next: nat, nextInString: bool)
    requires index < |raw|
    ensures index < next <= |raw|
    ensures StripFrom(raw, index, inString) == piece + StripFrom(raw, next, nextInString)
  {
    var character := raw[index];
    piece, next, nextInString := [character], index + 1, inString;
    if inString {
      if character == '\\' {
        if index + 1 < |raw| {
          piece, next := [character, raw[index + 1]], index + 2;
        }
      } else if character == '"' {
        nextInString := false;
      }
    } else if character == '"' {
      nextInString := true;
    } else if character == '/' && index + 1 < |raw| && raw[index + 1] == '/' {
      next := SkipLine(raw, index);
      piece := "";
    } else if character == '/' && index + 1 < |raw| && raw[index + 1] == '*' {
      next := SkipBlock(raw, index + 2);
      piece := "";
    }
  }

  method StripJsonComments(raw: string) returns (output: string)
    ensures output == Strip(raw)
  {
    output := "";
    var index := 0;
    var inString := false;
    while index < |raw|
      invariant index <= |raw|
      invariant output + StripFrom(raw, index, inString) == Strip(raw)
    {
      var piece, next, nextInString := NextPiece(raw, index, inString);
      Regroup(output, piece, StripFrom(raw, next, nextInString));
      output := output + piece;
      index, inString := next, nextInString;
    }
  }

  method SkipLine(raw: string, start: nat) returns (index: nat)
    requires Has(raw, start, '/', '/')
    ensures index == LineEnd(raw, start + 2)
  {
    index := start;
    while index < |raw| && raw[index] != '\n'
      invariant start <= index <= |raw| && LineEnd(raw, start) == LineEnd(raw, index)
    {
      index := index + 1;
    }
    assert LineEnd(raw, start) == LineEnd(raw, start + 1) == LineEnd(raw, start + 2);
  }

  method SkipBlock(raw: string, start: nat) returns (index: nat)
    requires start <= |raw|
    ensures index == BlockEnd(raw, start)
  {
    index := start;
    while index < |raw| && !(raw[index] == '*' && index + 1 < |raw| && raw[index + 1] == '/')
      invariant start <= index <= |raw| && BlockEnd(raw, start) == BlockEnd(raw, index)
    {
      index := index + 1;
    }
    index := if index + 2 <= |raw| then index + 2 else |raw|;
  }

  // ----- stripping is dropping the comment tokens ------------------------------------

  lemma CutTwice(raw: string, i: nat, n: nat, end: nat)
    requires i <= n <= end <= |raw|
    ensures raw[i..end] == raw[i..n] + raw[n..end]
    ensures n == i + 1 ==> raw[i..n] == [raw[i]]
    ensures n == i + 2 ==> raw[i..n] == [raw[i], raw[i + 1]]
  {
  }

  lemma {:induction false} LiteralIsCopied(raw: string, i: nat)
    requires i <= |raw|
    ensures StripFrom(raw, i, true) == raw[i..LiteralEnd(raw, i)] + StripFrom(raw, LiteralEnd(raw, i), false)
    decreases |raw| - i
  {
    if i < |raw| {
      var end := LiteralEnd(raw, i);
      var rest := StripFrom(raw, end, false);
      if raw[i] == '\\' && i + 1 == |raw| {
        assert end == LiteralEnd(raw, i + 2) == |raw|;
        CutTwice(raw, i, i + 1, end);
        assert raw[i + 1..end] == "" && rest == "";
      } else if raw[i] == '"' {
        CutTwice(raw, i, i + 1, end);
      } else {
        var next := if raw[i] == '\\' then i + 2 else i + 1;
        assert LiteralEnd(raw, next) == end;
        LiteralIsCopied(raw, next);
        CutTwice(raw, i, next, end);
        Regroup(raw[i..next], raw[next..end], rest);
        assert StripFrom(raw, i, true) == raw[i..next] + StripFrom(raw, next, true);
      }
    }
  }

  lemma StripOneToken(raw: string, i: nat)
    requires i < |raw|
    ensures var t := Token(KindAt(raw, i), raw[i..EndAt(raw, i)]);
            StripFrom(raw, i, false) == (if IsComment(t) then "" else t.text) + StripFrom(raw, EndAt(raw, i), false)
  {
    if KindAt(raw, i).Literal? {
      LiteralIsCopied(raw, i + 1);
      assert raw[i..EndAt(raw, i)] == [raw[i]] + raw[i + 1..EndAt(raw, i)];
    } else if KindAt(raw, i).Plain? {
      assert raw[i..i + 1] == [raw[i]];
    }
  }

  lemma {:induction false} StripDropsComments(raw: string, i: nat)
    requires i <= |raw|
    ensures StripFrom(raw, i, false) == Flatten(NonComments(LexFrom(raw, i)))
    decreases |raw| - i
  {
    if i < |raw| {
      StripOneToken(raw, i);
      StripDropsComments(raw, EndAt(raw, i));
    }
  }

  // ----- lexing the stripped text ----------------------------------------------------

  lemma {:induction false} LiteralEndShift(a: string, b: string, i: nat)
    ensures LiteralEnd(a + b, |a| + i) == |a| + LiteralEnd(b, i)
    decreases |b| - i
  {
    if i < |b| {
      if b[i] == '\\' { LiteralEndShift(a, b, i + 2); } else if b[i] != '"' { LiteralEndShift(a, b, i + 1); }
    }
  }

  lemma {:induction false} LineEndShift(a: string, b: string, i: nat)
    requires i <= |b|
    ensures LineEnd(a + b, |a| + i) == |a| + LineEnd(b, i)
    decreases |b| - i
  {
    if i < |b| { LineEndShift(a, b, i + 1); }
  }

  lemma {:induction false} BlockEndShift(a: string, b: string, i: nat)
    requires i <= |b|
    ensures BlockEnd(a + b, |a| + i) == |a| + BlockEnd(b, i)
    decreases |b| - i
  {
    if i < |b| { BlockEndShift(a, b, i + 1); }
  }

  lemma EndShift(a: string, b: string, i: nat)
    requires i < |b|
    ensures KindAt(a + b, |a| + i) == KindAt(b, i) && EndAt(a + b, |a| + i) == |a| + EndAt(b, i)
  {
    LiteralEndShift(a, b, i + 1);
    if i + 2 <= |b| {
      LineEndShift(a, b, i + 2);
      BlockEndShift(a, b, i + 2);
    }
  }

  lemma {:induction false} LexShift(a: string, b: string, i: nat)
    requires i <= |b|
    ensures LexFrom(a + b, |a| + i) == LexFrom(b, i)
    decreases |b| - i
  {
    hide EndAt, KindAt;
    if i < |b| {
      EndShift(a, b, i);
      LexShift(a, b, EndAt(b, i));
      assert (a + b)[|a| + i..|a| + EndAt(b, i)] == b[i..EndAt(b, i)];
    }
  }

  /** A literal ends where it ended, whatever now follows its closing quote. */
  lemma {:induction false} LiteralStandsAlone(raw: string, i: nat, j: nat, rest: string)
    requires i <= j <= |raw|
    requires LiteralEnd(raw, j) == |raw| ==> rest == ""
    ensures LiteralEnd(raw[i..LiteralEnd(raw, j)] + rest, j - i) == LiteralEnd(raw, j) - i
    decreases |raw| - j
  {
    if j < |raw| {
      if raw[j] == '\\' {
        if j + 2 <= |raw| {
          LiteralStandsAlone(raw, i, j + 2, rest);
        } else {
          assert LiteralEnd(raw, j) == LiteralEnd(raw, j + 2) == |raw|;
        }
      } else if raw[j] != '"' {
        LiteralStandsAlone(raw, i, j + 1, rest);
      }
    }
  }

  lemma FirstCharacterStays(raw: string, i: nat)
    requires i < |raw| && KindAt(raw, i) != LineComment && KindAt(raw, i) != BlockComment
    ensures StripFrom(raw, i, false) != "" && StripFrom(raw, i, false)[0] == raw[i]
  {
  }

  /** A token that is kept is still the same token in front of what is printed after it. */
  lemma TokenStandsAlone(raw: string, i: nat, rest: string)
    requires i < |raw| && !IsComment(Token(KindAt(raw, i), ""))
    requires rest == StripFrom(raw, EndAt(raw, i), false)
    ensures var text := raw[i..EndAt(raw, i)];
            KindAt(text + rest, 0) == KindAt(raw, i) && EndAt(text + rest, 0) == |text|
  {
    if KindAt(raw, i).Literal? {
      LiteralStandsAlone(raw, i, i + 1, rest);
    } else if raw[i] == '/' && i + 1 < |raw| {
      FirstCharacterStays(raw, i + 1);
    }
  }

  lemma {:induction false} StrippedLexes(raw: string, i: nat)
    requires i <= |raw|
    ensures Lex(StripFrom(raw, i, false)) == NonComments(LexFrom(raw, i))
    decreases |raw| - i
  {
    if i < |raw| {
      var end := EndAt(raw, i);
      var text, rest := raw[i..end], StripFrom(raw, end, false);
      StripOneToken(raw, i);
      StrippedLexes(raw, end);
      if !IsComment(Token(KindAt(raw, i), text)) {
        TokenStandsAlone(raw, i, rest);
        LexShift(text, rest, 0);
        assert (text + rest)[0..|text|] == text;
      } else {
        assert "" + rest == rest;
      }
    }
  }

  lemma {:induction false} NoCommentsLeft(tokens: seq<Token>)
    ensures forall n :: 0 <= n < |NonComments(tokens)| ==> !IsComment(NonComments(tokens)[n])
    ensures NonComments(NonComments(tokens)) == NonComments(tokens)
  {
    if tokens != [] { NoCommentsLeft(tokens[1..]); }
  }

  /**
   * Stripping removes exactly the comments: read by the same rules, the output is
   * the input's own tokens without its comments. So no comment opener is left
   * outside a literal, and every literal comes through character for character.
   */
  lemma StripRemovesExactlyComments(raw: string)
    ensures Lex(Strip(raw)) == NonComments(Lex(raw))
    ensures Strip(raw) == Flatten(NonComments(Lex(raw)))
    ensures forall n :: 0 <= n < |Lex(Strip(raw))| ==> !IsComment(Lex(Strip(raw))[n])
  {
    StrippedLexes(raw, 0);
    StripDropsComments(raw, 0);
    NoCommentsLeft(Lex(raw));
  }

  lemma StripIsIdempotent(raw: string)
    ensures Strip(Strip(raw)) == Strip(raw)
  {
    StripRemovesExactlyComments(raw);
    StripRemovesExactlyComments(Strip(raw));
    NoCommentsLeft(Lex(raw));
  }

  // ----- what goes and what stays ------------------------------------------------------

  lemma StripShift(a: string, b: string)
    ensures StripFrom(a + b, |a|, false) == Strip(b)
  {
    StripDropsComments(a + b, |a|);
    StripDropsComments(b, 0);
    LexShift(a, b, 0);
  }

  /** Outside literals a character that opens neither a literal nor a comment is printed. */
  lemma CharacterStays(c: char, rest: string)
    requires c != '"' && (c == '/' ==> rest == "" || (rest[0] != '/' && rest[0] != '*'))
    ensures Strip([c] + rest) == [c] + Strip(rest)
  {
    StripShift([c], rest);
  }

  /** Two slashes and what follows on the line go; the line feed stays. */
  lemma LineCommentGoes(comment: string, rest: string)
    requires (forall i :: 0 <= i < |comment| ==> comment[i] != '\n') && (rest == "" || rest[0] == '\n')
    ensures Strip("//" + comment + rest) == Strip(rest)
  {
    var all, n := "//" + comment + rest, 2 + |comment|;
    assert all[0] == '/' && all[1] == '/' && forall k :: 2 <= k < n ==> all[k] == comment[k - 2];
    assert rest != "" ==> all[n] == rest[0];
    LineEndIs(all, 2, n);
    StripShift("//" + comment, rest);
  }

  lemma {:induction false} LineEndIs(raw: string, i: nat, end: nat)
    requires i <= end <= |raw| && (forall k :: i <= k < end ==> raw[k] != '\n') && (end < |raw| ==> raw[end] == '\n')
    ensures LineEnd(raw, i) == end
    decreases end - i
  {
    if i < end { LineEndIs(raw, i + 1, end); }
  }

  /** A slash and a star and everything to the first star and slash go. */
  lemma BlockCommentGoes(comment: string, rest: string)
    requires forall i :: 0 <= i < |comment| ==> !Has(comment + "*/", i, '*', '/')
    ensures Strip("/*" + (comment + "*/") + rest) == Strip(rest)
  {
    var inner := comment + "*/";
    var all, n := "/*" + inner + rest, 2 + |comment|;
    assert all[0] == '/' && all[1] == '*' && forall k :: 2 <= k < n + 2 ==> all[k] == inner[k - 2];
    assert forall i :: 2 <= i < n ==> !Has(all, i, '*', '/') by {
      assert forall i :: 2 <= i < n ==> (Has(all, i, '*', '/') ==> Has(inner, i - 2, '*', '/'));
    }
    BlockEndIs(all, 2, n);
    StripShift("/*" + inner, rest);
  }

  lemma {:induction false} BlockEndIs(raw: string, i: nat, end: nat)
    requires i <= end && end + 1 < |raw| && (forall k :: i <= k < end ==> !Has(raw, k, '*', '/')) && Has(raw, end, '*', '/')
    ensures BlockEnd(raw, i) == end + 2
    decreases end - i
  {
    if i < end { BlockEndIs(raw, i + 1, end); }
  }

  /** A string literal stays whole, whatever it says. */
  lemma LiteralStays(s: string, rest: string)
    ensures Strip(Quote(s) + rest) == Quote(s) + Strip(rest)
  {
    hide *;
    QuoteBegins(s);
    QuoteShape(s, rest);
    BodyEnds("\"", s, rest);
    WholeLiteral(Quote(s), rest);
  }

  lemma QuoteBegins(s: string)
    ensures |Quote(s)| == |Body(s)| + 2 && Quote(s)[0] == '"'
  {
    hide Body;
  }

  lemma WholeLiteral(text: string, rest: string)
    requires text != "" && text[0] == '"' && LiteralEnd(text + rest, 1) == |text|
    ensures Strip(text + rest) == text + Strip(rest)
  {
    var all := text + rest;
    LiteralIsCopied(all, 1);
    StripShift(text, rest);
    assert Strip(all) == [all[0]] + StripFrom(all, 1, true);
    hide Strip, StripFrom, LiteralEnd;
    assert [all[0]] + all[1..|text|] == text;
  }

  lemma {:induction false} BodyEnds(before: string, s: string, rest: string)
    ensures LiteralEnd(before + (Body(s) + ("\"" + rest)), |before|) == |before| + |Body(s)| + 1
    decreases |s|
  {
    hide Escaped;
    var text := before + (Body(s) + ("\"" + rest));
    if s == "" {
      assert text[|before|] == '"';
    } else {
      var e, tail := Escaped(s[0]), Body(s[1..]) + ("\"" + rest);
      assert text == (before + e) + tail by {
        Regroup(e, Body(s[1..]), "\"" + rest);
        Regroup(before, e, tail);
      }
      BodyEnds(before + e, s[1..], rest);
      EscapeInside(text, |before|, s[0]);
    }
  }

  lemma EscapeInside(text: string, i: nat, c: char)
    requires i + |Escaped(c)| <= |text| && text[i..i + |Escaped(c)|] == Escaped(c)
    ensures LiteralEnd(text, i) == LiteralEnd(text, i + |Escaped(c)|)
  {
    var e := Escaped(c);
    assert forall k :: 0 <= k < |e| ==> text[i + k] == e[k];
    assert text[i] == e[0];
    if |e| == 6 {
      assert text[i] == '\\' && text[i + 2] == '0' && text[i + 3] == '0';
      assert text[i + 4] == HEX[c as int / 16] && text[i + 5] == HEX[c as int % 16];
      InsideOne(text, i + 2);
      InsideOne(text, i + 3);
      InsideOne(text, i + 4);
      InsideOne(text, i + 5);
    }
  }

  lemma InsideOne(text: string, i: nat)
    requires i < |text| && text[i] != '"' && text[i] != '\\'
    ensures LiteralEnd(text, i) == LiteralEnd(text, i + 1)
  {
  }
}
