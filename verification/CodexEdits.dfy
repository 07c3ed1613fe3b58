/**
 * The promises of the Codex line editor: an upsert lists the gateway once and leaves
 * every other table as it read, a second one changes nothing, and a removal takes
 * out exactly the named tables (apps/migration-cli/src/config-file.ts).
 */
module CodexEdits {
  import opened Wrappers
  import opened Text
  import opened JsonText
  import opened TomlText
  import opened TomlTables

  // ----- the block the editor writes -------------------------------------------------

  lemma AssignmentShape(key: string, value: string)
    requires key != "" && !IsSpace(key[0]) && key[0] != '[' && !IsSpace(key[|key| - 1])
    ensures var line := Assignment(key, value);
            && line != "" && !IsHeader(line) && !Blank(line) && SkipSpace(line, 0) == 0 && line[0] == key[0]
            && AssignedAt(line, key) == Some(|key| + 2)
            && line[SkipSpace(line, |key| + 2)..] == Quote(value)
  {
    hide Quote, IsSpace, IsHeader, Blank, AssignedAt, SkipSpace;
    var text, line := Quote(value), Assignment(key, value);
    QuoteIsText(value);
    assert line[0] == key[0];
    NotBlank(line);
    AssignedLine(line, key, text);
  }

  lemma QuoteIsText(s: string)
    ensures Quote(s) != "" && !IsSpace(Quote(s)[0])
  {
  }

  lemma NotBlank(line: string)
    requires line != "" && !IsSpace(line[0])
    ensures !Blank(line) && SkipSpace(line, 0) == 0 && (line[0] != '[' ==> !IsHeader(line))
  {
    BlankIsAllSpace(line);
  }

  lemma AssignedLine(line: string, key: string, text: string)
    requires key != "" && !IsSpace(key[0]) && text != "" && !IsSpace(text[0])
    requires line == key + " = " + text
    ensures AssignedAt(line, key) == Some(|key| + 2)
    ensures line[SkipSpace(line, |key| + 2)..] == text
  {
    var n := |key|;
    assert IsSpace(' ') && !IsSpace('=');
    hide IsSpace, SkipSpace;
    assert line[0] == key[0] && line[..n] == key && line[0..] == line;
    assert line[n] == ' ' && line[n + 1] == '=' && line[n + 2] == ' ' && line[n + 3] == text[0];
    assert SkipSpace(line, n) == n + 1;
    assert SkipSpace(line, n + 2) == n + 3;
    assert line[n + 3..] == text;
  }

  lemma QuoteTerminators(s: string)
    ensures HasTerminator(Quote(s)) <==> HasSeparator(s)
  {
    TerminatorsJoin("\"" + Body(s), "\"");
    TerminatorsJoin("\"", Body(s));
    BodyTerminators(s);
  }

  /** A written assignment reads back unless the value holds a separator the pattern stops at. */
  lemma AssignmentReadsBack(key: string, value: string)
    requires key != "" && !IsSpace(key[0]) && key[0] != '[' && !IsSpace(key[|key| - 1])
    ensures Assigned(Assignment(key, value), key) == if HasSeparator(value) then None else Some(Quote(value))
  {
    hide HasTerminator, HasSeparator, Quote, IsHeader, Blank;
    AssignmentShape(key, value);
    QuoteTerminators(value);
  }

  lemma OtherKeyUnread(line: string, key: string)
    requires line != "" && SkipSpace(line, 0) == 0 && key != "" && key[0] != line[0]
    ensures Assigned(line, key).None?
  {
  }

  /** The line saying who may call, if any; it begins with 'b' and heads no table. */
  lemma BearerLines(g: Gateway)
    ensures var rest := Block(g)[2..];
            forall k :: 0 <= k < |rest| ==>
              !IsHeader(rest[k]) && !Blank(rest[k]) && SkipSpace(rest[k], 0) == 0 && rest[k] != "" && rest[k][0] == 'b'
  {
    hide IsHeader, Blank;
    if g.bearerTokenEnvVar != "" {
      AssignmentShape("bearer_token_env_var", g.bearerTokenEnvVar);
    } else {
      AssignmentShape("bearer_token", g.bearerToken);
    }
  }

  lemma {:induction false} ReadsNothing(below: Lines, key: string)
    requires key != "" && key[0] != 'b'
    requires forall k :: 0 <= k < |below| ==> SkipSpace(below[k], 0) == 0 && below[k] != "" && below[k][0] == 'b'
    ensures Read(below, key).None?
  {
    if below != [] {
      OtherKeyUnread(below[0], key);
      ReadsNothing(below[1..], key);
    }
  }

  function TableOf(g: Gateway): Table {
    Table(g.name, Some(g.url), None)
  }

  /** What the caller can check beforehand: the header and the URL survive being written. */
  predicate Writable(g: Gateway) {
    Plain(g.name) && !HasSeparator(g.url)
  }

  lemma BelowHeader(g: Gateway)
    requires !HasSeparator(g.url)
    ensures var below := Block(g)[1..];
            && Read(below, "url") == Some(g.url) && Read(below, "command") == None
            && forall k :: 0 <= k < |below| ==> !IsHeader(below[k]) && !Blank(below[k])
  {
    hide IsHeader, TomlValue, Assigned, AssignedAt, SkipSpace, Assignment, Header, Blank, HasSeparator, Quote;
    AssignmentShape("url", g.url);
    AssignmentReadsBack("url", g.url);
    TomlValueReadsBack(g.url);
    BearerLines(g);
    var below, rest := Block(g)[1..], Block(g)[2..];
    assert below == [Assignment("url", g.url)] + rest;
    OtherKeyUnread(below[0], "command");
    ReadsNothing(rest, "command");
    forall k | 0 <= k < |below| ensures !IsHeader(below[k]) && !Blank(below[k]) {
      if k > 0 { assert below[k] == rest[k - 1]; }
    }
  }

  lemma BlockFirst(g: Gateway)
    requires Writable(g)
    ensures |Block(g)| > 0 && TableName(Block(g)[0]) == Some(g.name)
  {
    HeaderReadsBack(g.name);
    hide IsHeader, HeaderSegments, Header, Assignment;
  }

  lemma OneTable(lines: Lines, name: string)
    requires lines != [] && TableName(lines[0]) == Some(name) && Tables(lines[1..]) == []
    ensures Tables(lines) == [Table(name, Read(lines[1..], "url"), Read(lines[1..], "command"))]
    ensures StartsWithHeader(lines)
  {
    hide HeaderSegments, Read;
  }

  lemma BlockReadsBack(g: Gateway)
    requires Writable(g)
    ensures Tables(Block(g)) == [TableOf(g)] && StartsWithHeader(Block(g))
  {
    hide Read, TableName, IsHeader, Blank, Block, Tables, StartsWithHeader;
    BlockFirst(g);
    BelowHeader(g);
    HeaderlessHasNoTables(Block(g)[1..]);
    OneTable(Block(g), g.name);
  }

  lemma ReadTwo(first: string, line: string, key: string)
    requires !IsHeader(first) && Assigned(first, key).None?
    ensures Read([first], key) == None
    ensures Read([first, line], key) ==
      if IsHeader(line) || Assigned(line, key).None? then None else TomlValue(Assigned(line, key).value)
  {
    hide IsHeader, Assigned, TomlValue;
    assert [first][1..] == [] && [first, line][1..] == [line] && [line][1..] == [];
  }

  lemma UrlLine(url: string, key: string)
    requires key != "" && key[0] == 'b'
    ensures !IsHeader(Assignment("url", url)) && Assigned(Assignment("url", url), key).None?
  {
    AssignmentShape("url", url);
    hide IsHeader, Assigned, Assignment;
    OtherKeyUnread(Assignment("url", url), key);
  }

  lemma KeyGoesOn(line: string, key: string)
    requires SkipSpace(line, 0) == 0 && |key| < |line| && line[|key|] == '_'
    ensures Assigned(line, key).None?
  {
    assert SkipSpace(line, |key|) == |key|;
  }

  lemma BeginsWithKey(key: string, value: string, n: nat)
    requires n < |key|
    ensures |key| < |Assignment(key, value)| && Assignment(key, value)[n] == key[n]
  {
    hide Quote;
  }

  /** `bearer_token` is not read off a line that assigns the longer key. */
  lemma LongerKeyUnread(value: string)
    ensures Assigned(Assignment("bearer_token_env_var", value), "bearer_token").None?
  {
    AssignmentShape("bearer_token_env_var", value);
    BeginsWithKey("bearer_token_env_var", value, 12);
    hide *;
    KeyGoesOn(Assignment("bearer_token_env_var", value), "bearer_token");
  }

  /** The variable's name is written when there is one, else the key itself; the other is not. */
  lemma BearerReadsBack(g: Gateway)
    requires !HasSeparator(g.bearerTokenEnvVar) && !HasSeparator(g.bearerToken)
    ensures var below := Block(g)[1..];
            && Read(below, "bearer_token_env_var") == (if g.bearerTokenEnvVar != "" then Some(g.bearerTokenEnvVar) else None)
            && Read(below, "bearer_token") ==
                 if g.bearerTokenEnvVar == "" && g.bearerToken != "" then Some(g.bearerToken) else None
  {
    hide Read, Assigned, TomlValue, Assignment, Header, IsHeader, AssignedAt, HasSeparator, Quote, Blank, SkipSpace;
    var below, long, short := Block(g)[1..], "bearer_token_env_var", "bearer_token";
    AssignmentShape(long, g.bearerTokenEnvVar);
    AssignmentShape(short, g.bearerToken);
    AssignmentReadsBack(long, g.bearerTokenEnvVar);
    AssignmentReadsBack(short, g.bearerToken);
    LongerKeyUnread(g.bearerTokenEnvVar);
    ShorterLineUnread(g.bearerToken);
    TomlValueReadsBack(g.bearerTokenEnvVar);
    TomlValueReadsBack(g.bearerToken);
    var first := Assignment("url", g.url);
    var withVar, withKey := Assignment(long, g.bearerTokenEnvVar), Assignment(short, g.bearerToken);
    UrlLine(g.url, long);
    UrlLine(g.url, short);
    ReadTwo(first, withVar, long);
    ReadTwo(first, withVar, short);
    ReadTwo(first, withKey, long);
    ReadTwo(first, withKey, short);
    if g.bearerTokenEnvVar != "" {
      assert below == [Assignment("url", g.url), Assignment(long, g.bearerTokenEnvVar)];
    } else if g.bearerToken != "" {
      assert below == [Assignment("url", g.url), Assignment(short, g.bearerToken)];
    } else {
      assert below == [Assignment("url", g.url)];
    }
  }

  lemma ShorterLineUnread(value: string)
    ensures Assigned(Assignment("bearer_token", value), "bearer_token_env_var").None?
  {
    var line, key := Assignment("bearer_token", value), "bearer_token_env_var";
    AssignmentShape("bearer_token", value);
    hide Quote;
    assert line[12] == ' ' && key[12] == '_' && line[0..] == line;
  }

  /** The table written for a name is found under that name again exactly when the name is plain. */
  lemma NameReadsBack(name: string)
    ensures TableName(Header(name)) == Some(name) <==> Plain(name)
  {
    HeaderReadsBack(name);
    hide IsHeader, HeaderSegments, Header, Plain;
    if TableName(Header(name)) == Some(name) {
      var segments := HeaderSegments(Header(name)).value;
      assert segments == ["mcp_servers", name];
    }
  }

  /** A `#`, and a quote or a backslash, which are escaped and never unescaped. */
  lemma SomeNamesAreLost()
    ensures TableName(Header("a#b")) != Some("a#b")
    ensures TableName(Header("a\"b")) != Some("a\"b")
    ensures TableName(Header("a\\b")) != Some("a\\b")
    ensures TableName(Header("a#\U{2028}b")) == Some("a#\U{2028}b")
  {
    SomeNamesAreNotPlain();
    hide *;
    NameReadsBack("a#b");
    NameReadsBack("a\"b");
    NameReadsBack("a\\b");
    NameReadsBack("a#\U{2028}b");
  }

  lemma SomeNamesAreNotPlain()
    ensures !Plain("a#b") && !Plain("a\"b") && !Plain("a\\b") && Plain("a#\U{2028}b")
  {
    var cut, shown := "a#b", "a#\U{2028}b";
    assert cut[1] == '#' && !IsTerminator(cut[2]);
    assert shown[1] == '#' && IsTerminator(shown[2]);
    assert !Unescaped("a\"b"[1]) && !Unescaped("a\\b"[1]);
  }

  // ----- the flag --------------------------------------------------------------------

  lemma FlagLineShape()
    ensures !IsHeader(FLAG_LINE) && !Blank(FLAG_LINE) && AssignedAt(FLAG_LINE, RMCP_FLAG).Some?
  {
    assert RMCP_FLAG[0] == 'e' && RMCP_FLAG[|RMCP_FLAG| - 1] == 't';
    assert FLAG_LINE == RMCP_FLAG + " = " + "true";
    AssignedLine(FLAG_LINE, RMCP_FLAG, "true");
    NotBlank(FLAG_LINE);
  }

  /** The flag is set on line `i`, before any header and before any other line setting it. */
  predicate SetAt(lines: Lines, i: nat) {
    && i < |lines| && lines[i] == FLAG_LINE
    && (forall k :: 0 <= k <= i ==> !IsHeader(lines[k]))
    && (forall k :: 0 <= k < i ==> AssignedAt(lines[k], RMCP_FLAG).None?)
  }

  /** Setting the flag leaves it where setting it again finds it. */
  lemma FlaggedIsSet(lines: Lines)
    returns (i: nat)
    ensures SetAt(Flagged(lines), i)
  {
    FlagLineShape();
    hide IsHeader, Blank, AssignedAt;
    var limit := FirstHeader(lines);
    i := FindFlag(lines[..limit]);
    var f := Flagged(lines);
    assert forall k :: 0 <= k < i ==> f[k] == lines[..limit][k] == lines[k];
  }

  /** Setting the flag changes no table. */
  lemma FlaggedKeepsTables(lines: Lines)
    ensures Tables(Flagged(lines)) == Tables(lines)
  {
    var limit := FirstHeader(lines);
    var above, rest := lines[..limit], lines[limit..];
    assert lines == above + rest;
    FlagHeadsNothing(above);
    hide IsHeader, Tables, WithFlag;
    PrefaceDoesNotMatter(above, WithFlag(above), rest);
  }

  lemma FlagHeadsNothing(above: Lines)
    requires forall k :: 0 <= k < |above| ==> !IsHeader(above[k])
    ensures var f := WithFlag(above); forall k :: 0 <= k < |f| ==> !IsHeader(f[k])
  {
    FlagLineShape();
    BlankSaysNothing("", "url");
    hide IsHeader, AssignedAt, Blank;
  }

  lemma PrefaceDoesNotMatter(above: Lines, other: Lines, rest: Lines)
    requires StartsWithHeader(rest)
    requires (forall k :: 0 <= k < |above| ==> !IsHeader(above[k])) && forall k :: 0 <= k < |other| ==> !IsHeader(other[k])
    ensures Tables(above + rest) == Tables(other + rest)
  {
    hide *;
    TablesInParts(above, rest);
    TablesInParts(other, rest);
    HeaderlessHasNoTables(above);
    HeaderlessHasNoTables(other);
  }

  lemma HeaderlessHasNoTables(lines: Lines)
    requires forall k :: 0 <= k < |lines| ==> !IsHeader(lines[k])
    ensures Tables(lines) == []
  {
    NoTablesWithoutNames(lines);
  }

  lemma FlagStays(lines: Lines, i: nat)
    requires SetAt(lines, i)
    ensures Flagged(lines) == lines
  {
    FlagLineShape();
    hide IsHeader, AssignedAt;
    var limit := FirstHeader(lines);
    assert i < limit && lines[..limit][i] == FLAG_LINE;
    assert FindFlag(lines[..limit]) == i;
  }

  // ----- upsert ----------------------------------------------------------------------

  /**
   * An upsert puts the gateway's table in the place of the first table of its name,
   * or behind all others, and every other table reads as it did.
   */
  lemma UpsertPuts(lines: Lines, g: Gateway)
    requires Writable(g)
    ensures Tables(Upserted(lines, g)) == Put(Tables(lines), TableOf(g))
  {
    var f := Flagged(lines);
    FlaggedKeepsTables(lines);
    BlockReadsBack(g);
    UpsertedShape(lines, g);
    hide *;
    if FindTable(f, g.name) < |f| {
      var before, own, after := AroundFirst(f, g.name, Block(g));
      PutInMiddle(before, own, after, TableOf(g));
    } else {
      FirstTableFound(f, g.name);
      GapAddsNothing(f);
      TablesInParts(Gapped(f), Block(g));
      TablesNamed(f, g.name);
      PutAtEnd(Tables(f), TableOf(g));
    }
  }

  lemma UpsertedShape(lines: Lines, g: Gateway)
    ensures var f := Flagged(lines);
            && (FindTable(f, g.name) < |f| ==> Upserted(lines, g) == Spliced(f, g.name, Block(g)))
            && (FindTable(f, g.name) == |f| ==> Upserted(lines, g) == Gapped(f) + Block(g))
            && TableOf(g).name == g.name
  {
  }

  lemma GapAddsNothing(f: Lines)
    ensures Tables(Gapped(f)) == Tables(f)
  {
    hide Tables, Blank;
    EmptyIsBlank();
    TablesIgnoreBlanks(f, [""]);
  }

  lemma EmptyIsBlank()
    ensures AllBlank([""]) && AllBlank([])
  {
  }

  lemma TableEndsAt(lines: Lines, n: nat, end: nat, b: nat, name: string)
    requires n < end <= b <= |lines|
    requires forall k :: n < k < end ==> !IsHeader(lines[k]) && !Blank(lines[k])
    requires forall k :: end <= k < b ==> !IsHeader(lines[k]) && Blank(lines[k])
    requires b == |lines| || Ends(lines[b], name)
    ensures TableEnd(lines, n, name) == end
  {
    hide *;
    BoundaryIsFirst(lines, n + 1, name);
    forall k | n < k < b ensures !Ends(lines[k], name) { HeaderlessGoesOn(lines[k], name); }
    assert Boundary(lines, n + 1, name) == b;
    EndsWhereContentsEnd(lines, n, b, end);
    TableEndIs(lines, n, name);
  }

  lemma TableEndIs(lines: Lines, n: nat, name: string)
    requires n < |lines|
    ensures TableEnd(lines, n, name) == DropBlank(lines, n, Boundary(lines, n + 1, name))
  {
  }

  lemma HeaderlessGoesOn(line: string, name: string)
    requires !IsHeader(line)
    ensures !Ends(line, name)
  {
    hide IsHeader, ChildOf;
  }

  lemma EndsWhereContentsEnd(lines: Lines, n: nat, b: nat, end: nat)
    requires n < end <= b <= |lines| && (end == n + 1 || !Blank(lines[end - 1]))
    requires forall k :: end <= k < b ==> Blank(lines[k])
    ensures DropBlank(lines, n, b) == end
  {
    hide Blank;
    var e := DropBlank(lines, n, b);
    assert e == n + 1 || !Blank(lines[e - 1]);
  }

  lemma BlanksAreNoHeaders(blanks: Lines)
    requires AllBlank(blanks)
    ensures forall k :: 0 <= k < |blanks| ==> !IsHeader(blanks[k]) && Blank(blanks[k])
  {
    forall k | 0 <= k < |blanks| ensures !IsHeader(blanks[k]) { BlankSaysNothing(blanks[k], "url"); }
  }

  lemma BlockIsNotEmpty(g: Gateway)
    ensures |Block(g)| > 0
  {
  }

  /** The written block ends where it was written to end. */
  lemma BlockEnds(a: Lines, g: Gateway, blanks: Lines, rest: Lines)
    requires Writable(g) && AllBlank(blanks)
    requires rest == [] || Ends(rest[0], g.name)
    ensures TableEnd(a + Block(g) + (blanks + rest), |a|, g.name) == |a| + |Block(g)|
  {
    var block := Block(g);
    var all := a + block + (blanks + rest);
    BelowHeader(g);
    BlockIsNotEmpty(g);
    hide *;
    BlanksAreNoHeaders(blanks);
    InParts(a, block, blanks, rest);
    var end := |a| + |block|;
    forall k | |a| < k < end ensures !IsHeader(all[k]) && !Blank(all[k]) {
      assert all[k] == block[k - |a|] == block[1..][k - |a| - 1];
    }
    TableEndsAt(all, |a|, end, end + |blanks|, g.name);
  }

  lemma InParts(a: Lines, b: Lines, c: Lines, d: Lines)
    ensures var all := a + b + (c + d); var m := |a| + |b|;
            && |all| == m + |c| + |d|
            && (forall k :: |a| <= k < m ==> all[k] == b[k - |a|])
            && (forall k :: m <= k < m + |c| ==> all[k] == c[k - m])
            && (d != [] ==> all[m + |c|] == d[0])
  {
  }

  lemma BlockHeads(a: Lines, g: Gateway, rest: Lines)
    requires Writable(g) && forall k :: 0 <= k < |a| ==> TableName(a[k]) != Some(g.name)
    ensures FindTable(a + Block(g) + rest, g.name) == |a|
  {
    var all := a + Block(g) + rest;
    BlockFirst(g);
    hide *;
    FirstTableFound(all, g.name);
    assert all[|a|] == Block(g)[0];
    assert forall k :: 0 <= k < |a| ==> all[k] == a[k];
  }

  /** Writing a block over the same block changes nothing. */
  lemma SpliceAgain(a: Lines, g: Gateway, blanks: Lines, rest: Lines)
    requires Writable(g) && AllBlank(blanks)
    requires rest == [] || Ends(rest[0], g.name)
    requires forall k :: 0 <= k < |a| ==> TableName(a[k]) != Some(g.name)
    ensures var all := a + Block(g) + (blanks + rest);
            FindTable(all, g.name) < |all| && Spliced(all, g.name, Block(g)) == all
  {
    hide TableName, IsHeader, ChildOf, Blank, Block, TableEnd;
    BlockHeads(a, g, blanks + rest);
    BlockEnds(a, g, blanks, rest);
    var all := a + Block(g) + (blanks + rest);
    assert all[..|a|] == a && all[|a| + |Block(g)|..] == blanks + rest;
  }

  /** Where the flag stands, nothing an upsert does to the tables below moves it. */
  lemma SetAtPrefix(lines: Lines, more: Lines, i: nat)
    requires SetAt(lines, i) && i < |more| && more[..i + 1] == lines[..i + 1]
    ensures SetAt(more, i)
  {
    hide IsHeader, AssignedAt;
    assert forall k :: 0 <= k <= i ==> more[k] == more[..i + 1][k] == lines[k];
  }

  /** A second identical upsert leaves the file as it is. */
  lemma UpsertIsIdempotent(lines: Lines, g: Gateway)
    requires Writable(g)
    ensures Upserted(Upserted(lines, g), g) == Upserted(lines, g)
  {
    var f := Flagged(lines);
    var i := FlaggedIsSet(lines);
    hide SetAt, Flagged, Spliced, FindTable;
    if FindTable(f, g.name) < |f| {
      ReplaceAgain(f, i, g);
    } else {
      AppendAgain(f, i, g);
    }
    FlagStays(Upserted(lines, g), i);
  }

  lemma ReplaceAgain(f: Lines, i: nat, g: Gateway)
    requires Writable(g) && SetAt(f, i) && FindTable(f, g.name) < |f|
    ensures var u := Spliced(f, g.name, Block(g));
            SetAt(u, i) && FindTable(u, g.name) < |u| && Spliced(u, g.name, Block(g)) == u
  {
    hide *;
    var start := FindTable(f, g.name);
    var e, b := TableEnd(f, start, g.name), Boundary(f, start + 1, g.name);
    FirstTableFound(f, g.name);
    AfterTable(f, start, g.name);
    HeadedBehindFlag(f, i, start, g.name);
    SplicedShape(f, g.name, Block(g));
    var a, blanks, rest := f[..start], f[e..b], f[b..];
    SpliceAgain(a, g, blanks, rest);
    var u := a + Block(g) + (blanks + rest);
    assert u[..i + 1] == f[..i + 1];
    SetAtPrefix(f, u, i);
  }

  lemma GapNamesNothing(f: Lines, name: string)
    requires FindTable(f, name) == |f|
    ensures forall k :: 0 <= k < |Gapped(f)| ==> TableName(Gapped(f)[k]) != Some(name)
    ensures f <= Gapped(f)
  {
    hide TableName, Blank;
    FirstTableFound(f, name);
    EmptyNamesNothing();
  }

  lemma SetInside(lines: Lines, i: nat)
    requires SetAt(lines, i)
    ensures i < |lines|
  {
  }

  lemma AppendAgain(f: Lines, i: nat, g: Gateway)
    requires Writable(g) && SetAt(f, i) && FindTable(f, g.name) == |f|
    ensures var u := Gapped(f) + Block(g);
            SetAt(u, i) && FindTable(u, g.name) < |u| && Spliced(u, g.name, Block(g)) == u
  {
    hide *;
    SetInside(f, i);
    EmptyIsBlank();
    GapNamesNothing(f, g.name);
    var gap, none: Lines := Gapped(f), [];
    var u := gap + Block(g);
    assert none + none == none && u + none == u;
    SpliceAgain(gap, g, none, none);
    assert u[..i + 1] == f[..i + 1];
    SetAtPrefix(f, u, i);
  }

  lemma EmptyNamesNothing()
    ensures TableName("").None?
  {
    BlankSaysNothing("", "url");
  }

  lemma HeadedBehindFlag(lines: Lines, i: nat, start: nat, name: string)
    requires SetAt(lines, i) && start < |lines| && TableName(lines[start]) == Some(name)
    ensures i < start
  {
  }

  // ----- the lines an edit leaves alone ------------------------------------------------

  /**
   * Setting the flag touches one line: the first that assigns it above the first header,
   * or, when there is none, a new one just above that header, with a blank line behind it.
   */
  lemma FlagTouchesOneLine(lines: Lines) returns (h: nat, i: nat)
    ensures i <= h <= |lines| && (h < |lines| ==> IsHeader(lines[h])) && forall k :: 0 <= k < h ==> !IsHeader(lines[k])
    ensures i < h ==> AssignedAt(lines[i], "experimental_use_rmcp_client").Some?
    ensures forall k :: 0 <= k < i ==> AssignedAt(lines[k], "experimental_use_rmcp_client").None?
    ensures Flagged(lines) ==
      if i < h then lines[i := "experimental_use_rmcp_client = true"]
      else lines[..h] + ["experimental_use_rmcp_client = true", ""] + lines[h..]
  {
    assert RMCP_FLAG + " = true" == "experimental_use_rmcp_client = true";
    hide IsHeader, AssignedAt;
    h := FirstHeader(lines);
    i := FindFlag(lines[..h]);
    assert forall k :: 0 <= k < h ==> lines[..h][k] == lines[k];
    if i < h { assert lines[..h][i := FLAG_LINE] + lines[h..] == lines[i := FLAG_LINE]; }
  }

  /** The header of a table below `name`, such as `[mcp_servers.name.env]`. */
  predicate IsChildHeader(line: string, name: string) {
    var segments := HeaderSegments(line);
    segments.Some? && |segments.value| > 2 && segments.value[0] == "mcp_servers" && segments.value[1] == name
  }

  /**
   * `start` up to `end` is a whole table of `name`, its children included: it runs to the
   * next other header or the end of the file, without the blank lines in front of that.
   */
  ghost predicate IsTableOf(lines: Lines, name: string, start: nat, end: nat, next: nat) {
    && start < end <= next <= |lines| && TableName(lines[start]) == Some(name)
    && (forall k :: start < k < next && IsHeader(lines[k]) ==> IsChildHeader(lines[k], name))
    && (next < |lines| ==> IsHeader(lines[next]) && !IsChildHeader(lines[next], name))
    && (forall k :: end <= k < next ==> AllSpace(lines[k]))
    && (end == start + 1 || !AllSpace(lines[end - 1]))
  }

  lemma TableRange(lines: Lines, start: nat, name: string) returns (end: nat, next: nat)
    requires start < |lines| && TableName(lines[start]) == Some(name)
    ensures IsTableOf(lines, name, start, end, next) && end == TableEnd(lines, start, name)
  {
    hide *;
    end, next := TableEnd(lines, start, name), Boundary(lines, start + 1, name);
    BoundaryIsFirst(lines, start + 1, name);
    TableEndDropsBlanks(lines, start, name);
    forall k | 0 <= k < |lines| ensures Ends(lines[k], name) <==> IsHeader(lines[k]) && !IsChildHeader(lines[k], name) {
      EndsMeans(lines[k], name);
    }
    forall k | 0 <= k < |lines| ensures Blank(lines[k]) <==> AllSpace(lines[k]) { BlankIsAllSpace(lines[k]); }
    WholeTable(lines, name, start, end, next);
  }

  lemma TableEndDropsBlanks(lines: Lines, start: nat, name: string)
    requires start < |lines|
    ensures var end, next := TableEnd(lines, start, name), Boundary(lines, start + 1, name);
      && start < end <= next <= |lines| && (end == start + 1 || !Blank(lines[end - 1]))
      && forall k :: end <= k < next ==> Blank(lines[k])
  {
    hide Blank, Boundary;
  }

  lemma EndsMeans(line: string, name: string)
    ensures Ends(line, name) <==> IsHeader(line) && !IsChildHeader(line, name)
  {
    hide IsHeader, HeaderSegments;
  }

  lemma WholeTable(lines: Lines, name: string, start: nat, end: nat, next: nat)
    requires start < end <= next <= |lines| && TableName(lines[start]) == Some(name)
    requires forall k :: 0 <= k < |lines| ==> (Ends(lines[k], name) <==> IsHeader(lines[k]) && !IsChildHeader(lines[k], name))
    requires forall k :: 0 <= k < |lines| ==> (Blank(lines[k]) <==> AllSpace(lines[k]))
    requires (next < |lines| ==> Ends(lines[next], name)) && forall k :: start + 1 <= k < next ==> !Ends(lines[k], name)
    requires (end == start + 1 || !Blank(lines[end - 1])) && forall k :: end <= k < next ==> Blank(lines[k])
    ensures IsTableOf(lines, name, start, end, next)
  {
    hide Ends, IsHeader, IsChildHeader, Blank, AllSpace, TableName;
  }

  /**
   * An upsert replaces the lines of the first table of the name, or appends the block
   * behind the last line, with a blank one between if that is not blank. All other lines
   * are those of the file with the flag set, which FlagTouchesOneLine gives.
   */
  lemma UpsertTouchesOnlyItsTable(lines: Lines, g: Gateway) returns (start: nat, end: nat, next: nat)
    ensures var f := Flagged(lines);
      var header := "[mcp_servers." + (if IsBare(g.name) then g.name else Quote(g.name)) + "]";
      var block := [header, "url = " + Quote(g.url)]
        + (if g.bearerTokenEnvVar != "" then ["bearer_token_env_var = " + Quote(g.bearerTokenEnvVar)]
           else if g.bearerToken != "" then ["bearer_token = " + Quote(g.bearerToken)] else []);
      && start <= |f| && (forall k :: 0 <= k < start ==> TableName(f[k]) != Some(g.name))
      && (start < |f| ==> IsTableOf(f, g.name, start, end, next) && Upserted(lines, g) == f[..start] + block + f[end..])
      && (start == |f| ==> Upserted(lines, g) == f + (if f != [] && !AllSpace(f[|f| - 1]) then [""] else []) + block)
  {
    var f := Flagged(lines);
    BlockLines(g);
    hide Flagged, TableName, Block, Quote, IsBare;
    start := FindTable(f, g.name);
    FirstTableFound(f, g.name);
    end, next := 0, 0;
    if start < |f| {
      end, next := TableRange(f, start, g.name);
    } else if f != [] {
      BlankIsAllSpace(f[|f| - 1]);
    }
    hide IsTableOf, TableEnd, Blank, AllSpace;
  }

  lemma BlockLines(g: Gateway)
    ensures Block(g) == ["[mcp_servers." + (if IsBare(g.name) then g.name else Quote(g.name)) + "]", "url = " + Quote(g.url)]
      + (if g.bearerTokenEnvVar != "" then ["bearer_token_env_var = " + Quote(g.bearerTokenEnvVar)]
         else if g.bearerToken != "" then ["bearer_token = " + Quote(g.bearerToken)] else [])
  {
    assert "url" + " = " == "url = ";
    assert "bearer_token_env_var" + " = " == "bearer_token_env_var = ";
    assert "bearer_token" + " = " == "bearer_token = ";
    hide Quote, IsBare;
  }

  /** A removal takes out the lines of the first table of the name and the blank lines then left at the end. */
  lemma RemovalTouchesOnlyItsTable(lines: Lines, name: string) returns (start: nat, end: nat, next: nat)
    ensures start <= |lines| && forall k :: 0 <= k < start ==> TableName(lines[k]) != Some(name)
    ensures start == |lines| ==> Removed(lines, name) == lines
    ensures start < |lines| ==>
      && IsTableOf(lines, name, start, end, next)
      && var kept, r := lines[..start] + lines[end..], Removed(lines, name);
         && r <= kept && (forall k :: |r| <= k < |kept| ==> AllSpace(kept[k]))
         && (r != [] ==> !AllSpace(r[|r| - 1]))
  {
    hide TableName;
    start := FindTable(lines, name);
    FirstTableFound(lines, name);
    end, next := 0, 0;
    if start < |lines| {
      end, next := TableRange(lines, start, name);
      assert lines[..start] + [] + lines[end..] == lines[..start] + lines[end..];
      CutToContents(lines[..start] + lines[end..]);
    }
    hide IsTableOf, TableEnd, Blank, AllSpace, WithoutTrailingBlanks;
  }

  lemma {:induction false} CutToContents(lines: Lines)
    ensures var r := WithoutTrailingBlanks(lines);
      && r <= lines && (forall k :: |r| <= k < |lines| ==> AllSpace(lines[k])) && (r != [] ==> !AllSpace(r[|r| - 1]))
    decreases |lines|
  {
    if lines != [] {
      BlankIsAllSpace(lines[|lines| - 1]);
      hide AllSpace, Blank;
      if Blank(lines[|lines| - 1]) { CutToContents(lines[..|lines| - 1]); }
    }
  }

  // ----- removal ---------------------------------------------------------------------

  /** A removal takes out the first table of that name and changes no other reading. */
  lemma RemoveTakesFirst(lines: Lines, name: string)
    ensures Tables(Removed(lines, name)) == Without(Tables(lines), name)
  {
    hide *;
    var none: Lines := [];
    RemovedShape(lines, name);
    if FindTable(lines, name) == |lines| {
      FirstTableFound(lines, name);
      TablesNamed(lines, name);
      PutAtEnd(Tables(lines), Table(name, None, None));
    } else {
      NoTablesWithoutNames(none);
      var before, own, after := AroundFirst(lines, name, none);
      PutInMiddle(before, own, after, own);
      assert before + [] + after == before + after;
      BlanksCutOff(Spliced(lines, name, none));
    }
  }

  lemma RemovedShape(lines: Lines, name: string)
    ensures FindTable(lines, name) == |lines| ==> Removed(lines, name) == lines
    ensures FindTable(lines, name) < |lines| ==>
      Removed(lines, name) == WithoutTrailingBlanks(Spliced(lines, name, []))
    ensures StartsWithHeader([])
  {
  }

  lemma BlanksCutOff(lines: Lines)
    ensures Tables(WithoutTrailingBlanks(lines)) == Tables(lines)
  {
    hide Tables, WithoutTrailingBlanks;
    var kept := WithoutTrailingBlanks(lines);
    assert lines == kept + lines[|kept|..];
    TablesIgnoreBlanks(kept, lines[|kept|..]);
  }

  predicate Distinct(tables: seq<Table>) {
    forall i, j :: 0 <= i < j < |tables| ==> tables[i].name != tables[j].name
  }

  /** The tables whose names are not in `names`, in order. */
  function Except(tables: seq<Table>, names: seq<string>): (r: seq<Table>)
    ensures forall t :: t in r <==> t in tables && t.name !in names
  {
    if tables == [] then []
    else if tables[0].name in names then Except(tables[1..], names)
    else [tables[0]] + Except(tables[1..], names)
  }

  lemma {:induction false} ExceptDistinct(tables: seq<Table>, names: seq<string>)
    requires Distinct(tables)
    ensures Distinct(Except(tables, names))
  {
    if tables != [] {
      ExceptDistinct(tables[1..], names);
      var rest := Except(tables[1..], names);
      forall j | 0 <= j < |rest| ensures rest[j].name != tables[0].name { assert rest[j] in tables[1..]; }
    }
  }

  lemma {:induction false} ExceptNobody(tables: seq<Table>, names: seq<string>)
    requires forall t :: t in tables ==> t.name !in names
    ensures Except(tables, names) == tables
  {
    if tables != [] {
      ExceptNobody(tables[1..], names);
      assert tables == [tables[0]] + tables[1..];
    }
  }

  lemma {:induction false} WithoutOne(tables: seq<Table>, names: seq<string>, name: string)
    requires Distinct(tables)
    ensures Without(Except(tables, names), name) == Except(tables, names + [name])
  {
    if tables != [] {
      var first, rest := tables[0], tables[1..];
      WithoutOne(rest, names, name);
      if first.name !in names {
        var e := Except(rest, names);
        assert ([first] + e)[1..] == e;
        if first.name == name {
          forall t | t in rest ensures t.name != name { var i :| 0 <= i < |rest| && rest[i] == t; }
          SameExcept(rest, names, name);
        }
      }
    }
  }

  lemma {:induction false} SameExcept(tables: seq<Table>, names: seq<string>, name: string)
    requires forall t :: t in tables ==> t.name != name
    ensures Except(tables, names + [name]) == Except(tables, names)
  {
    if tables != [] { SameExcept(tables[1..], names, name); }
  }

  /** Removing several servers takes out exactly the tables of those names. */
  lemma {:induction false} RemoveAllTakesNamed(lines: Lines, names: seq<string>)
    requires Distinct(Tables(lines))
    ensures Tables(RemovedAll(lines, names)) == Except(Tables(lines), names)
    decreases |names|
  {
    hide Tables, Removed;
    if names == [] {
      ExceptNobody(Tables(lines), names);
    } else {
      var earlier, last := names[..|names| - 1], names[|names| - 1];
      assert names == earlier + [last];
      RemoveAllTakesNamed(lines, earlier);
      RemoveTakesFirst(RemovedAll(lines, earlier), last);
      WithoutOne(Tables(lines), earlier, last);
    }
  }

  // ----- the inventory ---------------------------------------------------------------

  datatype Server = Server(name: string, text: string)

  predicate IsRemote(t: Table) {
    t.url.Some? && t.url.value != ""
  }

  predicate IsLocal(t: Table) {
    !IsRemote(t) && t.command.Some? && t.command.value != ""
  }

  /** The servers with a URL, in file order. */
  function Remotes(tables: seq<Table>): seq<Server> {
    if tables == [] then []
    else if IsRemote(tables[0]) then [Server(tables[0].name, tables[0].url.value)] + Remotes(tables[1..])
    else Remotes(tables[1..])
  }

  /** The servers without a URL that name a command. */
  function Locals(tables: seq<Table>): seq<Server> {
    if tables == [] then []
    else if IsLocal(tables[0]) then [Server(tables[0].name, tables[0].command.value)] + Locals(tables[1..])
    else Locals(tables[1..])
  }

  function Others(servers: seq<Server>, name: string): seq<Server> {
    if servers == [] then []
    else if servers[0].name == name then Others(servers[1..], name)
    else [servers[0]] + Others(servers[1..], name)
  }

  predicate Listed(servers: seq<Server>, name: string) {
    exists i :: 0 <= i < |servers| && servers[i].name == name
  }

  lemma OthersCons(first: Server, rest: seq<Server>, name: string)
    ensures Others([first] + rest, name) == if first.name == name then Others(rest, name) else [first] + Others(rest, name)
  {
    assert ([first] + rest)[1..] == rest;
  }

  lemma ListedCons(t: Table, rest: seq<Table>)
    ensures Remotes([t] + rest) == if IsRemote(t) then [Server(t.name, t.url.value)] + Remotes(rest) else Remotes(rest)
    ensures Locals([t] + rest) == if IsLocal(t) then [Server(t.name, t.command.value)] + Locals(rest) else Locals(rest)
  {
    assert ([t] + rest)[1..] == rest;
  }

  lemma {:induction false} OthersOf(tables: seq<Table>, name: string)
    ensures Others(Remotes(tables), name) == Remotes(Except(tables, [name]))
    ensures Others(Locals(tables), name) == Locals(Except(tables, [name]))
  {
    if tables != [] {
      var t, rest := tables[0], tables[1..];
      OthersOf(rest, name);
      if IsRemote(t) { OthersCons(Server(t.name, t.url.value), Remotes(rest), name); }
      if IsLocal(t) { OthersCons(Server(t.name, t.command.value), Locals(rest), name); }
      ListedCons(t, Except(rest, [name]));
    }
  }

  lemma {:induction false} PutOthers(tables: seq<Table>, t: Table)
    requires Distinct(tables)
    ensures Except(Put(tables, t), [t.name]) == Except(tables, [t.name])
    ensures Distinct(Put(tables, t)) && t in Put(tables, t)
    ensures forall x :: x in Put(tables, t) ==> x == t || x in tables
  {
    if tables != [] {
      var first, rest := tables[0], tables[1..];
      if first.name == t.name {
        var put := [t] + rest;
        assert put[1..] == rest;
      } else {
        PutOthers(rest, t);
        var put := Put(rest, t);
        assert ([first] + put)[1..] == put;
        forall j | 0 <= j < |put| ensures put[j].name != first.name {
          assert put[j] in put;
        }
      }
    }
  }

  lemma {:induction false} RemotesOf(tables: seq<Table>)
    ensures forall s :: s in Remotes(tables) <==> exists t :: t in tables && IsRemote(t) && s == Server(t.name, t.url.value)
  {
    if tables != [] { RemotesOf(tables[1..]); }
  }

  lemma {:induction false} LocalsOf(tables: seq<Table>)
    ensures forall s :: s in Locals(tables) <==> exists t :: t in tables && IsLocal(t) && s == Server(t.name, t.command.value)
  {
    if tables != [] { LocalsOf(tables[1..]); }
  }

  /** A table with a URL that is not empty is a remote server, one without that names a command a local one. */
  lemma ServersAreListed(tables: seq<Table>, s: Server)
    ensures s in Remotes(tables) <==> exists t :: t in tables && t.name == s.name && t.url == Some(s.text) && s.text != ""
    ensures s in Locals(tables) <==>
      exists t :: t in tables && t.name == s.name && t.command == Some(s.text) && s.text != "" && (t.url.None? || t.url.value == "")
  {
    RemotesOf(tables);
    LocalsOf(tables);
    hide Remotes, Locals;
  }

  predicate DistinctNames(servers: seq<Server>) {
    forall i, j :: 0 <= i < j < |servers| ==> servers[i].name != servers[j].name
  }

  lemma {:induction false} RemotesDistinct(tables: seq<Table>)
    requires Distinct(tables)
    ensures DistinctNames(Remotes(tables))
  {
    if tables != [] {
      var rest := Remotes(tables[1..]);
      RemotesDistinct(tables[1..]);
      RemotesOf(tables[1..]);
      forall j | 0 <= j < |rest| ensures rest[j].name != tables[0].name { assert rest[j] in rest; }
    }
  }

  /**
   * After an upsert `servers()` lists the gateway exactly once, with the given URL and
   * as a remote server only; every other server is listed as before, in the same order.
   */
  lemma UpsertListsGatewayOnce(lines: Lines, g: Gateway)
    requires Writable(g) && g.url != "" && Distinct(Tables(lines))
    ensures var before, after := Tables(lines), Tables(Upserted(lines, g));
            && Server(g.name, g.url) in Remotes(after) && DistinctNames(Remotes(after))
            && !Listed(Locals(after), g.name)
            && Others(Remotes(after), g.name) == Others(Remotes(before), g.name)
            && Others(Locals(after), g.name) == Others(Locals(before), g.name)
  {
    hide Tables, Upserted;
    var before, after := Tables(lines), Tables(Upserted(lines, g));
    UpsertPuts(lines, g);
    PutOthers(before, TableOf(g));
    OthersOf(before, g.name);
    OthersOf(after, g.name);
    RemotesOf(after);
    LocalsOf(after);
    RemotesDistinct(after);
    assert IsRemote(TableOf(g));
    OnlyOneNamed(after, TableOf(g));
  }

  lemma OnlyOneNamed(tables: seq<Table>, t: Table)
    requires Distinct(tables) && t in tables && IsRemote(t)
    ensures !Listed(Locals(tables), t.name)
  {
    LocalsOf(tables);
    forall s | s in Locals(tables) ensures s.name != t.name {
      var u :| u in tables && IsLocal(u) && s == Server(u.name, u.command.value);
      var i :| 0 <= i < |tables| && tables[i] == u;
      var j :| 0 <= j < |tables| && tables[j] == t;
    }
  }

  // ----- line endings ----------------------------------------------------------------

  predicate EndsWithReturn(line: string) {
    line != "" && line[|line| - 1] == '\r'
  }

  /** On a line that keeps a carriage return, no pattern captures a value other than an empty one. */
  lemma ReturnHidesValue(line: string, key: string)
    requires EndsWithReturn(line)
    ensures Assigned(line, key) == None || Assigned(line, key) == Some("")
  {
    var at := AssignedAt(line, key);
    if at.Some? {
      var from := SkipSpace(line, at.value);
      if from < |line| { assert IsTerminator(line[from..][|line| - 1 - from]); }
    }
  }

  lemma {:induction false} ReturnsHideValues(below: Lines, key: string)
    requires forall k :: 0 <= k < |below| ==> EndsWithReturn(below[k])
    ensures Read(below, key) == None
  {
    if below != [] {
      ReturnHidesValue(below[0], key);
      ReturnsHideValues(below[1..], key);
    }
  }

  /** A file saved with CRLF line endings lists no server at all, whatever its tables say. */
  lemma {:induction false} CrlfFileListsNothing(lines: Lines)
    requires forall k :: 0 <= k < |lines| ==> EndsWithReturn(lines[k])
    ensures Remotes(Tables(lines)) == [] && Locals(Tables(lines)) == []
  {
    if lines != [] {
      CrlfFileListsNothing(lines[1..]);
      ReturnsHideValues(lines[1..], "url");
      ReturnsHideValues(lines[1..], "command");
      hide Read, TableName;
      var rest := Tables(lines[1..]);
      if TableName(lines[0]).Some? {
        assert Tables(lines)[1..] == rest;
      } else {
        assert Tables(lines) == rest;
      }
    }
  }
}
