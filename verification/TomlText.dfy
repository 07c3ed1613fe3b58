/**
 * What the line editor of apps/migration-cli/src/config-file.ts reads from one
 * line of a Codex file: a table header, or the string assigned to a key. Only the
 * shapes the editor looks for are understood; everything else is left alone.
 */
module TomlText {
  import opened Wrappers
  import opened Text
  import opened JsonText

  // ----- white space -----------------------------------------------------------------

  /** What `trim` and `\s` take for white space. */
  predicate IsSpace(c: char) {
    '\U{0009}' <= c <= '\U{000D}' || c == ' ' || c == '\U{00A0}' || c == '\U{1680}' ||
    '\U{2000}' <= c <= '\U{200A}' || IsTerminator(c) || c == '\U{202F}' || c == '\U{205F}' ||
    c == '\U{3000}' || c == '\U{FEFF}'
  }

  /** What `.` does not match. */
  predicate IsTerminator(c: char) {
    c == '\n' || c == '\r' || c == '\U{2028}' || c == '\U{2029}'
  }

  predicate HasTerminator(s: string) {
    exists i :: 0 <= i < |s| && IsTerminator(s[i])
  }

  predicate AllSpace(s: string) {
    forall i :: 0 <= i < |s| ==> IsSpace(s[i])
  }

  function SkipSpace(s: string, i: nat): (j: nat)
    requires i <= |s|
    ensures i <= j <= |s| && (j < |s| ==> !IsSpace(s[j]))
    ensures forall k :: i <= k < j ==> IsSpace(s[k])
    decreases |s| - i
  {
    if i < |s| && IsSpace(s[i]) then SkipSpace(s, i + 1) else i
  }

  function TrimStart(s: string): string {
    s[SkipSpace(s, 0)..]
  }

  function TrimEnd(s: string): (r: string)
    ensures r <= s && (r != "" ==> !IsSpace(r[|r| - 1]))
    ensures forall k :: |r| <= k < |s| ==> IsSpace(s[k])
  {
    if s != "" && IsSpace(s[|s| - 1]) then TrimEnd(s[..|s| - 1]) else s
  }

  function Trim(s: string): string {
    TrimEnd(TrimStart(s))
  }

  predicate Blank(line: string) {
    Trim(line) == ""
  }

  lemma BlankIsAllSpace(line: string)
    ensures Blank(line) <==> AllSpace(line)
  {
    var i := SkipSpace(line, 0);
    if Blank(line) {
      assert i == |line|;
    }
  }

  /** Text that neither begins nor ends in white space is its own trim. */
  lemma TrimmedAlready(s: string)
    requires s != "" && !IsSpace(s[0]) && !IsSpace(s[|s| - 1])
    ensures TrimStart(s) == s && TrimEnd(s) == s && Trim(s) == s
  {
  }

  /** Text between white space is found, whatever white space it is. */
  lemma TrimFinds(before: string, s: string, after: string)
    requires AllSpace(before) && AllSpace(after) && s != "" && !IsSpace(s[0]) && !IsSpace(s[|s| - 1])
    ensures TrimStart(before + s + after) == s + after && Trim(before + s + after) == s
  {
    var all := before + s + after;
    assert forall k :: 0 <= k < |before| ==> all[k] == before[k];
    assert all[|before|] == s[0];
    assert SkipSpace(all, 0) == |before| && all[|before|..] == s + after;
    var tail := s + after;
    assert tail[|s| - 1] == s[|s| - 1] && forall k :: |s| <= k < |tail| ==> tail[k] == after[k - |s|];
    hide IsSpace, SkipSpace;
    var r := TrimEnd(tail);
    assert r <= tail && |s| <= |r| && !(|s| < |r|);
    assert r == tail[..|s|] == s;
  }

  // ----- table headers ---------------------------------------------------------------

  predicate IsHeader(line: string) {
    StartsWith(TrimStart(line), "[")
  }

  /** A header is a line whose first character that is no white space is an opening bracket. */
  lemma HeaderOpens(line: string)
    ensures IsHeader(line) <==> exists a :: 0 <= a < |line| && line[a] == '[' && forall k :: 0 <= k < a ==> IsSpace(line[k])
  {
    assert !IsSpace('[');
    hide IsSpace;
    var i := SkipSpace(line, 0);
    assert IsHeader(line) <==> i < |line| && line[i..][0] == '[';
    forall a | 0 <= a < |line| && line[a] == '[' && forall k :: 0 <= k < a ==> IsSpace(line[k]) ensures a == i {}
  }

  /** Just past the last line terminator. */
  function LastLineStart(s: string): (i: nat)
    ensures i <= |s| && forall k :: i <= k < |s| ==> !IsTerminator(s[k])
    ensures i == 0 || IsTerminator(s[i - 1])
  {
    if s == "" || IsTerminator(s[|s| - 1]) then |s| else LastLineStart(s[..|s| - 1])
  }

  /** `replace(/\s*#.*$/u, "")`: a comment has to run to the end of the text on one line. */
  function StripComment(s: string): string {
    var i := IndexFrom(s, '#', LastLineStart(s));
    if i == |s| then s else TrimEnd(s[..i])
  }

  predicate IsGap(c: char) {
    c == ' ' || c == '\t'
  }

  function SkipGaps(s: string, i: nat): (j: nat)
    requires i <= |s|
    ensures i <= j <= |s| && (j < |s| ==> !IsGap(s[j]))
    ensures forall k :: i <= k < j ==> IsGap(s[k])
    decreases |s| - i
  {
    if i < |s| && IsGap(s[i]) then SkipGaps(s, i + 1) else i
  }

  /** One segment of a header, and the index behind it and its dot. */
  datatype Piece = Piece(segment: string, next: nat)

  function PieceAt(body: string, i: nat): (r: Option<Piece>)
    requires i < |body|
    ensures r.Some? ==> i < r.value.next <= |body|
  {
    var j := SkipGaps(body, i);
    var quoted := j < |body| && (body[j] == '"' || body[j] == '\'');
    var end := if quoted then IndexFrom(body, body[j], j + 1) else IndexFrom(body, '.', j);
    if quoted then
      if end == |body| then None else Behind(body, body[j + 1..end], end + 1)
    else
      var segment := Trim(body[j..end]);
      if segment == "" then None else Behind(body, segment, end)
  }

  function Behind(body: string, segment: string, end: nat): (r: Option<Piece>)
    requires end <= |body|
    ensures r.Some? ==> end <= r.value.next <= |body| && r.value.segment == segment
  {
    var next := SkipGaps(body, end);
    if next == |body| then Some(Piece(segment, next))
    else if body[next] == '.' then Some(Piece(segment, next + 1))
    else None
  }

  function SegmentsFrom(body: string, i: nat): Option<seq<string>>
    requires i <= |body|
    decreases |body| - i
  {
    if i == |body| then Some([])
    else
      var piece := PieceAt(body, i);
      if piece.None? then None
      else
        var rest := SegmentsFrom(body, piece.value.next);
        Prepend([piece.value.segment], rest)
  }

  /** The text between the brackets of `[...]`; None for any other line. */
  function HeaderBody(line: string): Option<string> {
    var trimmed := StripComment(Trim(line));
    if |trimmed| < 2 || trimmed[0] != '[' || trimmed[|trimmed| - 1] != ']' || trimmed[1] == '[' then None
    else Some(trimmed[1..|trimmed| - 1])
  }

  function HeaderSegments(line: string): Option<seq<string>> {
    var body := HeaderBody(line);
    if body.None? then None
    else
      var segments := SegmentsFrom(body.value, 0);
      if segments == Some([]) then None else segments
  }

  /** parseTableHeader: the index loop over the bracketed text. */
  method ParseTableHeader(line: string) returns (r: Option<seq<string>>)
    ensures r == HeaderSegments(line)
  {
    hide PieceAt;
    hide HeaderBody;
    var bracketed := HeaderBody(line);
    if bracketed.None? { return None; }
    var body := bracketed.value;
    var segments: seq<string> := [];
    var index := 0;
    PrependNone(SegmentsFrom(body, 0));
    while index < |body|
      invariant 0 <= index <= |body|
      invariant SegmentsFrom(body, 0) == Prepend(segments, SegmentsFrom(body, index))
    {
      var piece := ReadPiece(body, index);
      if piece.None? { return None; }
      PrependOne(segments, piece.value.segment, SegmentsFrom(body, piece.value.next));
      segments := segments + [piece.value.segment];
      index := piece.value.next;
    }
    assert segments + [] == segments;
    return if segments == [] then None else Some(segments);
  }

  function Prepend(segments: seq<string>, rest: Option<seq<string>>): Option<seq<string>> {
    if rest.None? then None else Some(segments + rest.value)
  }

  lemma PrependNone(rest: Option<seq<string>>)
    ensures Prepend([], rest) == rest
  {
    if rest.Some? { assert [] + rest.value == rest.value; }
  }

  lemma PrependOne(segments: seq<string>, segment: string, rest: Option<seq<string>>)
    ensures Prepend(segments + [segment], rest) == Prepend(segments, Prepend([segment], rest))
  {
    if rest.Some? { assert segments + [segment] + rest.value == segments + ([segment] + rest.value); }
  }

  /** One turn of that loop. */
  method ReadPiece(body: string, from: nat) returns (r: Option<Piece>)
    requires from < |body|
    ensures r == PieceAt(body, from)
  {
    hide Trim;
    var index := PassGaps(body, from);
    var segment: string;
    if index < |body| && (body[index] == '"' || body[index] == '\'') {
      var end := IndexFrom(body, body[index], index + 1);
      if end == |body| { return None; }
      segment := body[index + 1..end];
      index := end + 1;
    } else {
      var end := index;
      while end < |body| && body[end] != '.'
        invariant index <= end <= |body|
        invariant IndexFrom(body, '.', index) == IndexFrom(body, '.', end)
      {
        end := end + 1;
      }
      segment := Trim(body[index..end]);
      if segment == "" { return None; }
      index := end;
    }
    index := PassGaps(body, index);
    if index < |body| && body[index] == '.' {
      index := index + 1;
    } else if index < |body| {
      return None;
    }
    return Some(Piece(segment, index));
  }

  method PassGaps(body: string, from: nat) returns (index: nat)
    requires from <= |body|
    ensures index == SkipGaps(body, from)
  {
    index := from;
    while index < |body| && IsGap(body[index])
      invariant from <= index <= |body|
      invariant SkipGaps(body, from) == SkipGaps(body, index)
    {
      index := index + 1;
    }
  }

  // ----- assignments -----------------------------------------------------------------

  /** Where the value of `key = value` begins on this line, just past the equals sign. */
  function AssignedAt(line: string, key: string): (r: Option<nat>)
    ensures r.Some? ==> 0 < r.value <= |line|
  {
    var i := SkipSpace(line, 0);
    if !StartsWith(line[i..], key) then None
    else
      var j := SkipSpace(line, i + |key|);
      if j < |line| && line[j] == '=' then Some(j + 1) else None
  }

  /** `^\s*key\s*=`: white space, the key, white space, and the equals sign at `b`. */
  predicate Assigns(line: string, key: string, a: nat, b: nat) {
    && a + |key| <= b < |line| && AllSpace(line[..a]) && line[a..a + |key|] == key
    && AllSpace(line[a + |key|..b]) && line[b] == '='
  }

  /** Where the pattern matches, it matches in one way. */
  lemma AssignedWhereMatched(line: string, key: string)
    requires key != "" && !IsSpace(key[0])
    ensures AssignedAt(line, key).None? <==> forall a: nat, b: nat :: !Assigns(line, key, a, b)
    ensures forall a: nat, b: nat :: Assigns(line, key, a, b) ==> AssignedAt(line, key) == Some(b + 1)
  {
    assert !IsSpace('=');
    hide IsSpace;
    forall a: nat, b: nat | Assigns(line, key, a, b) ensures AssignedAt(line, key) == Some(b + 1) {
      MatchIsFound(line, key, a, b);
    }
    var at := AssignedAt(line, key);
    if at.Some? {
      var i := SkipSpace(line, 0);
      assert line[i..i + |key|] == line[i..][..|key|] == key;
      assert Assigns(line, key, i, at.value - 1);
    }
  }

  lemma MatchIsFound(line: string, key: string, a: nat, b: nat)
    requires key != "" && !IsSpace(key[0]) && !IsSpace('=') && Assigns(line, key, a, b)
    ensures AssignedAt(line, key) == Some(b + 1)
  {
    var j := a + |key|;
    assert forall k :: 0 <= k < a ==> IsSpace(line[..a][k]);
    assert line[a] == line[a..j][0];
    assert forall k :: j <= k < b ==> line[k] == line[j..b][k - j];
    hide IsSpace;
    assert SkipSpace(line, 0) == a && SkipSpace(line, j) == b;
    assert line[a..][..|key|] == line[a..j];
  }

  /** The text `^\s*key\s*=\s*(.*)$` captures: none when a line terminator is left in it. */
  function Assigned(line: string, key: string): Option<string> {
    var at := AssignedAt(line, key);
    if at.None? then None
    else
      var value := line[SkipSpace(line, at.value)..];
      if HasTerminator(value) then None else Some(value)
  }

  /** The closing quote of a basic string, from index `i`; the length or more when there is none. */
  function ClosingQuote(text: string, i: nat): (end: nat)
    ensures i <= end
    decreases if i < |text| then |text| - i else 0
  {
    if i >= |text| then i
    else if text[i] == '\\' then ClosingQuote(text, i + 2)
    else if text[i] == '"' then i
    else ClosingQuote(text, i + 1)
  }

  function TomlValue(raw: string): Option<string> {
    var text := Trim(raw);
    if text == "" then None
    else if text[0] == '\'' then
      var end := IndexFrom(text, '\'', 1);
      if end == |text| then None else Some(text[1..end])
    else if text[0] != '"' then None
    else
      var end := ClosingQuote(text, 1);
      if end >= |text| then None
      else
        var parsed := ParseLiteral(text[..end + 1]);
        if parsed.Some? then parsed else Some(text[1..end])
  }

  /** parseTomlString: a literal string, or a basic string with its escapes where they are JSON's. */
  method ParseTomlString(raw: string) returns (r: Option<string>)
    ensures r == TomlValue(raw)
  {
    var text := Trim(raw);
    if StartsWith(text, "'") {
      var end := IndexFrom(text, '\'', 1);
      return if end == |text| then None else Some(text[1..end]);
    }
    if !StartsWith(text, "\"") { return None; }
    var index := 1;
    while index < |text| && text[index] != '"'
      invariant 1 <= index && ClosingQuote(text, 1) == ClosingQuote(text, index)
    {
      index := if text[index] == '\\' then index + 2 else index + 1;
    }
    if index >= |text| { return None; }
    assert ClosingQuote(text, 1) == index;
    var parsed := ParseLiteral(text[..index + 1]);
    return if parsed.Some? then parsed else Some(text[1..index]);
  }

  // ----- what the editor writes reads back -------------------------------------------

  predicate BareCharacter(c: char) {
    'A' <= c <= 'Z' || 'a' <= c <= 'z' || IsDigit(c) || c == '_' || c == '-'
  }

  predicate IsBare(name: string) {
    name != "" && forall i :: 0 <= i < |name| ==> BareCharacter(name[i])
  }

  function TomlKey(name: string): string {
    if IsBare(name) then name else Quote(name)
  }

  function Header(name: string): string {
    "[mcp_servers." + TomlKey(name) + "]"
  }

  function Assignment(key: string, value: string): string {
    key + " = " + Quote(value)
  }

  /** Characters that stand for themselves inside a basic string. */
  predicate Unescaped(c: char) {
    c >= ' ' && c != '"' && c != '\\'
  }

  /** Behind every `#` comes a line terminator, so that no comment runs to the end. */
  predicate Covered(s: string) {
    forall i :: 0 <= i < |s| && s[i] == '#' ==> exists j :: i < j < |s| && IsTerminator(s[j])
  }

  /**
   * Names whose header the editor can read again: it does not undo escapes inside a
   * quoted segment, and it cuts a header at the first `#` of its last line, even
   * inside one. Every bare name is plain.
   */
  predicate Plain(name: string) {
    Covered(name) && forall i :: 0 <= i < |name| ==> Unescaped(name[i])
  }

  lemma {:induction false} PlainBody(name: string)
    requires forall i :: 0 <= i < |name| ==> Unescaped(name[i])
    ensures Body(name) == name
  {
    if name != "" {
      PlainBody(name[1..]);
      assert name == [name[0]] + name[1..];
    }
  }

  /** Escaping lengthens. */
  lemma {:induction false} BodyLength(name: string)
    ensures |Body(name)| >= |name|
    ensures |Body(name)| == |name| ==> forall i :: 0 <= i < |name| ==> Unescaped(name[i])
  {
    if name != "" {
      BodyLength(name[1..]);
      assert forall i :: 1 <= i < |name| ==> name[i] == name[1..][i - 1];
    }
  }

  lemma {:induction false} BodyQuotes(name: string)
    requires forall i :: 0 <= i < |name| ==> name[i] != '"'
    ensures forall i :: 0 <= i < |Body(name)| ==> Body(name)[i] != '"'
  {
    if name != "" {
      BodyQuotes(name[1..]);
      EscapeHasNoQuote(name[0]);
      hide Escaped;
    }
  }

  lemma EscapeHasNoQuote(c: char)
    requires c != '"'
    ensures forall i :: 0 <= i < |Escaped(c)| ==> Escaped(c)[i] != '"'
  {
  }

  // ----- comments in headers ---------------------------------------------------------

  lemma CommentKept(s: string)
    ensures Covered(s) <==> IndexFrom(s, '#', LastLineStart(s)) == |s|
  {
    assert !IsTerminator('#');
    hide IsTerminator;
    var n := LastLineStart(s);
    if n > 0 { assert IsTerminator(s[n - 1]); }
  }

  /** Ends without `#` and terminators do not matter. */
  lemma CoveredInside(before: string, s: string, after: string)
    requires forall i :: 0 <= i < |before| ==> before[i] != '#'
    requires forall i :: 0 <= i < |after| ==> after[i] != '#' && !IsTerminator(after[i])
    ensures Covered(before + s + after) <==> Covered(s)
  {
    hide IsTerminator;
    var all, n := before + s + after, |before|;
    assert forall i :: 0 <= i < |s| ==> all[n + i] == s[i];
    assert forall i :: 0 <= i < n ==> all[i] == before[i];
    assert forall i :: n + |s| <= i < |all| ==> all[i] == after[i - n - |s|];
    if Covered(all) {
      forall i | 0 <= i < |s| && s[i] == '#' ensures exists j :: i < j < |s| && IsTerminator(s[j]) {
        assert all[n + i] == '#';
        var j :| n + i < j < |all| && IsTerminator(all[j]);
        assert IsTerminator(s[j - n]);
      }
    }
    if Covered(s) {
      forall i | 0 <= i < |all| && all[i] == '#' ensures exists j :: i < j < |all| && IsTerminator(all[j]) {
        var j :| i - n < j < |s| && IsTerminator(s[j]);
        assert IsTerminator(all[n + j]);
      }
    }
  }

  const OPENING := "[mcp_servers."

  lemma OpeningCharacters()
    ensures |OPENING| == 13 && OPENING[0] == '[' && OPENING[1] == 'm'
    ensures forall i :: 0 <= i < 13 ==> OPENING[i] != '#'
  {
  }

  lemma KeyEnds(name: string)
    ensures TomlKey(name) != ""
    ensures Header(name) == OPENING + TomlKey(name) + "]"
    ensures IsBare(name) ==> Plain(name)
    ensures !IsBare(name) ==> TomlKey(name) == "\"" + Body(name) + "\""
  {
  }

  lemma HeaderLine(name: string)
    ensures IsHeader(Header(name)) && !Blank(Header(name)) && Trim(Header(name)) == Header(name)
  {
    KeyEnds(name);
    OpeningCharacters();
    hide Header, TomlKey;
    var line := Header(name);
    assert line[0] == '[' && line[|line| - 1] == ']';
    TrimmedAlready(line);
  }

  // ----- headers that read back ------------------------------------------------------

  lemma PlainKey(name: string)
    requires Plain(name)
    ensures TomlKey(name) == if IsBare(name) then name else "\"" + name + "\""
    ensures Covered(Header(name))
  {
    PlainBody(name);
    KeyEnds(name);
    hide *;
    if IsBare(name) {
      BareLine(Header(name), name);
    } else {
      CoveredQuoted(Header(name), name);
    }
  }

  lemma BareLine(line: string, name: string)
    requires line == OPENING + name + "]"
    ensures Covered(line) <==> Covered(name)
  {
    OpeningCharacters();
    assert !IsTerminator(']');
    hide Covered, IsTerminator;
    CoveredInside(OPENING, name, "]");
  }

  lemma CoveredQuoted(line: string, b: string)
    requires line == OPENING + ("\"" + b + "\"") + "]"
    ensures line == (OPENING + "\"") + b + "\"]"
    ensures Covered(line) <==> Covered(b)
  {
    OpeningCharacters();
    assert !IsTerminator(']') && !IsTerminator('"');
    hide Covered, IsTerminator;
    var before, after := OPENING + "\"", "\"" + "]";
    assert line == before + b + after && after == "\"]";
    CoveredInside(before, b, after);
  }

  lemma HeaderBracketed(name: string)
    requires Plain(name)
    ensures HeaderBody(Header(name)) == Some("mcp_servers." + TomlKey(name))
  {
    HeaderLine(name);
    PlainKey(name);
    KeyEnds(name);
    CommentKept(Header(name));
    hide TomlKey, Covered, Trim, IsHeader, Blank, Plain, Header, IsBare, Body, HeaderBody;
    OpeningSplits(TomlKey(name));
    BracketedBody(Header(name), "mcp_servers." + TomlKey(name));
  }

  lemma OpeningSplits(key: string)
    ensures OPENING + key + "]" == "[" + ("mcp_servers." + key) + "]" && ("mcp_servers." + key)[0] != '['
  {
    assert OPENING == "[" + "mcp_servers.";
  }

  lemma BracketedBody(line: string, body: string)
    requires line == "[" + body + "]" && body != "" && body[0] != '[' && StripComment(Trim(line)) == line
    ensures HeaderBody(line) == Some(body)
  {
    hide Trim, StripComment;
    assert line[1] == body[0] && line[1..|line| - 1] == body;
  }

  lemma PlainHeaderReadsBack(name: string)
    requires Plain(name)
    ensures HeaderSegments(Header(name)) == Some(["mcp_servers", name])
  {
    hide PieceAt, HeaderBody, TomlKey, Plain;
    var body := "mcp_servers." + TomlKey(name);
    HeaderBracketed(name);
    KeyEnds(name);
    FirstPiece(TomlKey(name));
    LastPiece("mcp_servers.", name);
    assert SegmentsFrom(body, |body|) == Some([]);
    assert SegmentsFrom(body, 12) == Some([name] + []);
    assert ["mcp_servers"] + ([name] + []) == ["mcp_servers", name];
  }

  // ----- ... and those that do not ---------------------------------------------------

  lemma IndexShifts(before: string, s: string, c: char, from: nat)
    requires from <= |s|
    ensures IndexFrom(before + s, c, |before| + from) == |before| + IndexFrom(s, c, from)
  {
    var all, n := before + s, |before|;
    assert forall k :: n <= k < |all| ==> all[k] == s[k - n];
    assert forall i :: 0 <= i < |s| ==> all[n + i] == s[i];
    var i, k := IndexFrom(s, c, from), IndexFrom(all, c, n + from);
    assert !(k < n + i) && !(n + i < k);
  }

  /** A second segment that begins with a quote is what stands before the next quote. */
  lemma QuotedSegment(rest: string)
    requires rest != "" && rest[0] == '"'
    ensures var segments, end := SegmentsFrom("mcp_servers." + rest, 0), IndexFrom(rest, '"', 1);
      segments.Some? && |segments.value| == 2 ==> end < |rest| && segments.value[1] == rest[1..end]
  {
    FirstPiece(rest);
    QuotedPieceAt("mcp_servers.", rest);
    var body := "mcp_servers." + rest;
    assert |"mcp_servers."| == 12;
    hide PieceAt;
    if PieceAt(body, 12).Some? && SegmentsFrom(body, PieceAt(body, 12).value.next).Some? {
      var piece := PieceAt(body, 12).value;
      var more := SegmentsFrom(body, piece.next).value;
      assert SegmentsFrom(body, 12) == Some([piece.segment] + more);
      assert SegmentsFrom(body, 0) == Some(["mcp_servers"] + ([piece.segment] + more));
    }
  }

  lemma QuotedPieceAt(before: string, rest: string)
    requires rest != "" && rest[0] == '"'
    ensures var piece, end := PieceAt(before + rest, |before|), IndexFrom(rest, '"', 1);
      piece.Some? ==> end < |rest| && piece.value.segment == rest[1..end]
  {
    hide Trim;
    var body, at, end := before + rest, |before|, IndexFrom(rest, '"', 1);
    assert body[at] == '"' && SkipGaps(body, at) == at;
    IndexShifts(before, rest, '"', 1);
    hide SkipGaps, Behind, IndexFrom;
    assert body[at + 1..at + end] == rest[1..end];
  }

  /** What can stand between the brackets of a quoted header once it is read: all of it, or what a cut leaves. */
  predicate Between(body: string, b: string) {
    && |body| > 12 && body[..12] == "mcp_servers." && body[12] == '"'
    && (if Covered(b) then body[13..] == b + "\"" else body[13..] <= b)
  }

  lemma QuotedHeaderBody(name: string)
    requires !IsBare(name) && HeaderBody(Header(name)).Some?
    ensures Between(HeaderBody(Header(name)).value, Body(name))
  {
    HeaderLine(name);
    KeyEnds(name);
    OpeningCharacters();
    var line, b := Header(name), Body(name);
    hide TomlKey, Trim, IsHeader, Blank, Body, Header, HeaderBody, StripComment, Between, IsBare, Covered;
    HeaderBodyOf(line);
    CoveredQuoted(line, b);
    QuotedLine(line, b);
    if Covered(b) { WholeLine(line, b); } else { CutLine(line, b); }
  }

  lemma QuotedLine(line: string, b: string)
    requires line == (OPENING + "\"") + b + "\"]"
    ensures |line| == |b| + 16 && line[13] == '"' && line[1..13] == "mcp_servers." && line[14..] == b + "\"]"
    ensures forall i :: (0 <= i < 14 || |b| + 14 <= i < |line|) ==> line[i] != '#'
  {
    OpeningCharacters();
  }

  lemma HeaderBodyOf(line: string)
    requires Trim(line) == line && HeaderBody(line).Some?
    ensures var cut := StripComment(line);
      |cut| >= 2 && cut[|cut| - 1] == ']' && HeaderBody(line).value == cut[1..|cut| - 1]
  {
  }

  lemma WholeLine(line: string, b: string)
    requires |line| == |b| + 16 && line[13] == '"' && line[1..13] == "mcp_servers." && line[14..] == b + "\"]"
    requires Covered(line) && Covered(b)
    ensures StripComment(line) == line && Between(line[1..|line| - 1], b)
  {
    CommentKept(line);
    hide Covered;
    var body := line[1..|line| - 1];
    assert body[..12] == line[1..13];
    assert body[13..] == line[14..][..|b| + 1] == b + "\"";
  }

  lemma CutLine(line: string, b: string)
    requires |line| == |b| + 16 && line[13] == '"' && line[1..13] == "mcp_servers." && line[14..] == b + "\"]"
    requires forall i :: (0 <= i < 14 || |b| + 14 <= i < |line|) ==> line[i] != '#'
    requires !Covered(line) && !Covered(b)
    requires var cut := StripComment(line); cut != "" && cut[|cut| - 1] == ']'
    ensures var cut := StripComment(line); |cut| > 14 && Between(cut[1..|cut| - 1], b)
  {
    CommentKept(line);
    var cut := StripComment(line);
    CutBehindQuote(line, IndexFrom(line, '#', LastLineStart(line)));
    hide IsSpace, TrimEnd, Covered, StripComment, LastLineStart, IndexFrom;
    var body := cut[1..|cut| - 1];
    assert body[..12] == line[1..13];
    assert body[13..] == line[14..|cut| - 1] == line[14..][..|cut| - 15] == b[..|cut| - 15];
  }

  lemma CutBehindQuote(line: string, i: nat)
    requires 14 <= i <= |line| && line[13] == '"'
    ensures var cut := TrimEnd(line[..i]);
      |cut| > 13 && |cut| <= i && cut <= line && (cut[|cut| - 1] == ']' ==> |cut| > 14)
  {
    assert !IsSpace('"') && line[..i][13] == '"';
    hide IsSpace, TrimEnd;
  }

  lemma OtherHeaderIsLost(name: string)
    requires HeaderSegments(Header(name)) == Some(["mcp_servers", name])
    ensures Plain(name)
  {
    KeyEnds(name);
    if !IsBare(name) {
      QuotedHeaderBody(name);
      hide HeaderBody, SegmentsFrom, Body, IsBare, TomlKey, Header, Covered;
      var body := HeaderBody(Header(name)).value;
      var rest := body[12..];
      assert body == "mcp_servers." + rest && rest[1..] == body[13..];
      QuotedSegment(rest);
      SegmentIsBody(name, rest);
    }
  }

  lemma SegmentIsBody(name: string, rest: string)
    requires rest != "" && (if Covered(Body(name)) then rest[1..] == Body(name) + "\"" else rest[1..] <= Body(name))
    requires IndexFrom(rest, '"', 1) < |rest| && name == rest[1..IndexFrom(rest, '"', 1)]
    ensures Plain(name)
  {
    hide Body, Covered;
    var end, b := IndexFrom(rest, '"', 1), Body(name);
    assert forall i :: 0 <= i < |name| ==> name[i] == rest[i + 1];
    BodyQuotes(name);
    BodyLength(name);
    assert rest[1..][end - 1] == '"';
    assert Covered(b) && end - 1 == |b|;
    assert name == rest[1..][..end - 1] == b;
  }

  /** A name comes back from the header written for it exactly when it is plain. */
  lemma HeaderReadsBack(name: string)
    ensures IsHeader(Header(name)) && !Blank(Header(name))
    ensures HeaderSegments(Header(name)) == Some(["mcp_servers", name]) <==> Plain(name)
  {
    HeaderLine(name);
    if Plain(name) { PlainHeaderReadsBack(name); }
    hide *;
    if HeaderSegments(Header(name)) == Some(["mcp_servers", name]) { OtherHeaderIsLost(name); }
  }

  lemma FirstPiece(key: string)
    requires key != ""
    ensures PieceAt("mcp_servers." + key, 0) == Some(Piece("mcp_servers", 12))
  {
    var body := "mcp_servers." + key;
    assert body[11] == '.' && forall i :: 0 <= i < 11 ==> body[i] == "mcp_servers"[i];
    assert body[0] == 'm' && body[10] == 's';
    assert IndexFrom(body, '.', 0) == 11;
    assert body[0..11] == "mcp_servers";
    TrimmedAlready("mcp_servers");
  }

  lemma LastPiece(prefix: string, name: string)
    requires Plain(name)
    ensures var body := prefix + TomlKey(name); PieceAt(body, |prefix|) == Some(Piece(name, |body|))
  {
    PlainKey(name);
    hide TomlKey;
    var body, at := prefix + TomlKey(name), |prefix|;
    if IsBare(name) {
      BarePiece(prefix, name);
    } else {
      QuotedPiece(prefix, name);
    }
  }

  lemma BarePiece(prefix: string, name: string)
    requires IsBare(name)
    ensures PieceAt(prefix + name, |prefix|) == Some(Piece(name, |prefix| + |name|))
  {
    var body, at := prefix + name, |prefix|;
    assert forall i :: at <= i < |body| ==> body[i] == name[i - at];
    assert body[at..|body|] == name;
    TrimmedAlready(name);
    assert SkipGaps(body, at) == at && IndexFrom(body, '.', at) == |body|;
    hide Trim, SkipGaps, IndexFrom, IsSpace;
  }

  lemma QuotedPiece(prefix: string, name: string)
    requires Plain(name)
    ensures var body := prefix + ("\"" + name + "\""); PieceAt(body, |prefix|) == Some(Piece(name, |body|))
  {
    var body, at := prefix + ("\"" + name + "\""), |prefix|;
    assert body[at] == '"' && body[|body| - 1] == '"';
    assert forall i :: at < i < |body| - 1 ==> body[i] == name[i - at - 1];
    assert IndexFrom(body, '"', at + 1) == |body| - 1;
    assert body[at + 1..|body| - 1] == name && SkipGaps(body, at) == at && SkipGaps(body, |body|) == |body|;
    hide SkipGaps, IndexFrom, Trim;
  }

  lemma {:induction false} QuoteCloses(before: string, s: string, after: string)
    ensures ClosingQuote(before + (Body(s) + ("\"" + after)), |before|) == |before| + |Body(s)|
    decreases |s|
  {
    hide Escaped;
    var text := before + (Body(s) + ("\"" + after));
    if s == "" {
      assert text[|before|] == '"';
    } else {
      var e, tail := Escaped(s[0]), Body(s[1..]) + ("\"" + after);
      assert text == (before + e) + tail by {
        Regroup(e, Body(s[1..]), "\"" + after);
        Regroup(before, e, tail);
      }
      QuoteCloses(before + e, s[1..], after);
      EscapeIsSkipped(before, s[0], tail);
    }
  }

  lemma EscapeIsSkipped(before: string, c: char, tail: string)
    ensures var text := before + Escaped(c) + tail;
            ClosingQuote(text, |before|) == ClosingQuote(text, |before| + |Escaped(c)|)
  {
    hide *;
    var e := Escaped(c);
    var text := before + e + tail;
    assert text[|before|..|before| + |e|] == e;
    EscapeAt(text, |before|, c);
  }

  lemma EscapeAt(text: string, i: nat, c: char)
    requires i + |Escaped(c)| <= |text| && text[i..i + |Escaped(c)|] == Escaped(c)
    ensures ClosingQuote(text, i) == ClosingQuote(text, i + |Escaped(c)|)
  {
    var e := Escaped(c);
    assert forall k :: 0 <= k < |e| ==> text[i + k] == e[k];
    assert text[i] == e[0];
    if |e| == 6 {
      assert text[i] == '\\' && text[i + 2] == '0' && text[i + 3] == '0';
      assert text[i + 4] == HEX[c as int / 16] && text[i + 5] == HEX[c as int % 16];
      StepOver(text, i + 2);
      StepOver(text, i + 3);
      StepOver(text, i + 4);
      StepOver(text, i + 5);
    }
  }

  lemma StepOver(text: string, i: nat)
    requires i < |text| && text[i] != '"' && text[i] != '\\'
    ensures ClosingQuote(text, i) == ClosingQuote(text, i + 1)
  {
  }

  /** A literal string between single quotes is taken as it stands. */
  lemma LiteralValue(text: string)
    requires |text| >= 2 && text[0] == '\'' && text[|text| - 1] == '\''
    requires forall i :: 0 < i < |text| - 1 ==> text[i] != '\''
    ensures TomlValue(text) == Some(text[1..|text| - 1])
  {
    assert !IsSpace('\'');
    hide Trim, IsSpace, ClosingQuote, ParseLiteral;
    TrimmedAlready(text);
    var end := IndexFrom(text, '\'', 1);
    hide IndexFrom;
    assert end == |text| - 1;
  }

  lemma BasicValue(text: string)
    requires |text| >= 2 && text[0] == '"' && Trim(text) == text && ClosingQuote(text, 1) == |text| - 1
    ensures ParseLiteral(text).Some? ==> TomlValue(text) == ParseLiteral(text)
  {
    hide Trim, ParseLiteral, ClosingQuote, IndexFrom;
    assert text[..|text|] == text;
  }

  lemma QuoteEnds(s: string)
    ensures var text := Quote(s);
      |text| == |Body(s)| + 2 && text[0] == '"' && Trim(text) == text && text == "\"" + (Body(s) + ("\"" + ""))
  {
    hide Body;
    var text := Quote(s);
    assert text[0] == '"' && text[|text| - 1] == '"';
    TrimmedAlready(text);
  }

  lemma TomlValueReadsBack(s: string)
    ensures TomlValue(Quote(s)) == Some(s)
  {
    QuoteEnds(s);
    hide *;
    QuoteCloses("\"", s, "");
    BasicValue(Quote(s));
    QuoteReadsBack(s);
  }

  /** A separator JSON leaves as it is although the editor's patterns stop at it. */
  predicate HasSeparator(s: string) {
    exists i :: 0 <= i < |s| && (s[i] == '\U{2028}' || s[i] == '\U{2029}')
  }

  lemma TerminatorsJoin(a: string, b: string)
    ensures HasTerminator(a + b) <==> HasTerminator(a) || HasTerminator(b)
  {
    if HasTerminator(a) {
      var i :| 0 <= i < |a| && IsTerminator(a[i]);
      assert IsTerminator((a + b)[i]);
    }
    if HasTerminator(b) {
      var i :| 0 <= i < |b| && IsTerminator(b[i]);
      assert IsTerminator((a + b)[|a| + i]);
    }
  }

  lemma EscapedTerminators(c: char)
    ensures HasTerminator(Escaped(c)) <==> c == '\U{2028}' || c == '\U{2029}'
  {
    if c == '\U{2028}' || c == '\U{2029}' { assert IsTerminator(Escaped(c)[0]); }
  }

  lemma {:induction false} BodyTerminators(s: string)
    ensures HasTerminator(Body(s)) <==> HasSeparator(s)
  {
    if s != "" {
      BodyTerminators(s[1..]);
      EscapedTerminators(s[0]);
      TerminatorsJoin(Escaped(s[0]), Body(s[1..]));
      if HasSeparator(s) && s[0] != '\U{2028}' && s[0] != '\U{2029}' {
        var i :| 0 <= i < |s| && (s[i] == '\U{2028}' || s[i] == '\U{2029}');
        assert s[1..][i - 1] == s[i];
      }
    }
  }
}
