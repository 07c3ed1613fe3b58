/**
 * What a Codex file says and how the line editor changes it
 * (apps/migration-cli/src/config-file.ts): the file is a list of lines, its server
 * tables are read off in order, and an edit replaces one range of lines.
 */
module TomlTables {
  import opened Wrappers
  import opened Text
  import opened TomlText

  type Lines = seq<string>

  // ----- reading ---------------------------------------------------------------------

  /** The server a line heads a table of: `[mcp_servers.name]`. */
  function TableName(line: string): Option<string> {
    if !IsHeader(line) then None
    else
      match HeaderSegments(line)
      case Some(segments) =>
        if |segments| == 2 && segments[0] == "mcp_servers" then Some(segments[1]) else None
      case None => None
  }

  /** `[mcp_servers.name.child]`, which stays part of the table of `name`. */
  predicate ChildOf(line: string, name: string) {
    var segments := HeaderSegments(line);
    segments.Some? && |segments.value| > 2 && segments.value[0] == "mcp_servers" && segments.value[1] == name
  }

  /** The first value of `key` in the lines below a header, up to the next header. */
  function Read(below: Lines, key: string): Option<string> {
    if below == [] || IsHeader(below[0]) then None
    else
      var value := Assigned(below[0], key);
      if value.Some? then TomlValue(value.value) else Read(below[1..], key)
  }

  /** One server table as `servers()` reads it. */
  datatype Table = Table(name: string, url: Option<string>, command: Option<string>)

  /** Every server table of a file, in file order. */
  function Tables(lines: Lines): seq<Table> {
    if lines == [] then []
    else
      var name := TableName(lines[0]);
      (if name.None? then []
       else [Table(name.value, Read(lines[1..], "url"), Read(lines[1..], "command"))]) + Tables(lines[1..])
  }

  // ----- the range of a table --------------------------------------------------------

  /** The first header at or after `i` that does not belong to `name`, or the end. */
  function Boundary(lines: Lines, i: nat, name: string): (b: nat)
    requires i <= |lines|
    ensures i <= b <= |lines|
    decreases |lines| - i
  {
    if i < |lines| && !Ends(lines[i], name) then Boundary(lines, i + 1, name) else i
  }

  /** A header at which the table of `name` is over. */
  predicate Ends(line: string, name: string) {
    IsHeader(line) && !ChildOf(line, name)
  }

  /** Nothing before the boundary ends the table. */
  lemma {:induction false} BoundaryIsFirst(lines: Lines, i: nat, name: string)
    requires i <= |lines|
    ensures var b := Boundary(lines, i, name);
            && (b < |lines| ==> Ends(lines[b], name))
            && forall k :: i <= k < b ==> !Ends(lines[k], name)
    decreases |lines| - i
  {
    hide Ends;
    if i < |lines| && !Ends(lines[i], name) { BoundaryIsFirst(lines, i + 1, name); }
  }

  /** Leaves blank lines at the end of a range out, but never the line `first`. */
  function DropBlank(lines: Lines, first: nat, end: nat): (e: nat)
    requires first < end <= |lines|
    ensures first < e <= end && (e == first + 1 || !Blank(lines[e - 1]))
    ensures forall k :: e <= k < end ==> Blank(lines[k])
    decreases end
  {
    if end > first + 1 && Blank(lines[end - 1]) then DropBlank(lines, first, end - 1) else end
  }

  /** Just past the last line of the table headed at `i`. */
  function TableEnd(lines: Lines, i: nat, name: string): (e: nat)
    requires i < |lines|
    ensures i < e <= |lines|
  {
    DropBlank(lines, i, Boundary(lines, i + 1, name))
  }

  /** Where the first table of `name` begins, or the number of lines. */
  function FindTable(lines: Lines, name: string): (i: nat)
    ensures i <= |lines|
  {
    FindTableFrom(lines, 0, name)
  }

  lemma {:induction false} TableFound(lines: Lines, from: nat, name: string)
    requires from <= |lines|
    ensures var i := FindTableFrom(lines, from, name);
            && (i < |lines| ==> TableName(lines[i]) == Some(name))
            && forall k :: from <= k < i ==> TableName(lines[k]) != Some(name)
    decreases |lines| - from
  {
    hide TableName;
    if from < |lines| && TableName(lines[from]) != Some(name) { TableFound(lines, from + 1, name); }
  }

  lemma FirstTableFound(lines: Lines, name: string)
    ensures var i := FindTable(lines, name);
            && i == FindTableFrom(lines, 0, name)
            && (i < |lines| ==> TableName(lines[i]) == Some(name))
            && forall k :: 0 <= k < i ==> TableName(lines[k]) != Some(name)
  {
    hide TableName;
    TableFound(lines, 0, name);
  }

  function FindTableFrom(lines: Lines, from: nat, name: string): (i: nat)
    requires from <= |lines|
    ensures from <= i <= |lines|
    decreases |lines| - from
  {
    if from < |lines| && TableName(lines[from]) != Some(name) then FindTableFrom(lines, from + 1, name) else from
  }

  /** A table's own lines: `start` up to, and without, `end`. */
  datatype Range = Range(name: string, start: nat, end: nat)

  function Ranges(lines: Lines, i: nat): seq<Range>
    requires i <= |lines|
    decreases |lines| - i
  {
    if i == |lines| then []
    else
      var name := TableName(lines[i]);
      if name.None? then Ranges(lines, i + 1)
      else [Range(name.value, i, TableEnd(lines, i, name.value))] + Ranges(lines, i + 1)
  }

  // ----- editing ---------------------------------------------------------------------

  const RMCP_FLAG := "experimental_use_rmcp_client"
  const FLAG_LINE := RMCP_FLAG + " = true"

  function FirstHeader(lines: Lines): (i: nat)
    ensures i <= |lines| && (i < |lines| ==> IsHeader(lines[i]))
    ensures forall k :: 0 <= k < i ==> !IsHeader(lines[k])
  {
    if lines == [] || IsHeader(lines[0]) then 0 else 1 + FirstHeader(lines[1..])
  }

  function FindFlag(lines: Lines): (i: nat)
    ensures i <= |lines| && (i < |lines| ==> AssignedAt(lines[i], RMCP_FLAG).Some?)
    ensures forall k :: 0 <= k < i ==> AssignedAt(lines[k], RMCP_FLAG).None?
  {
    if lines == [] || AssignedAt(lines[0], RMCP_FLAG).Some? then 0 else 1 + FindFlag(lines[1..])
  }

  /** The lines above the first header with the flag set. */
  function WithFlag(above: Lines): Lines {
    var i := FindFlag(above);
    if i < |above| then above[i := FLAG_LINE] else above + [FLAG_LINE, ""]
  }

  /** ensureRmcpFlag: the flag stands before the first header. */
  function Flagged(lines: Lines): Lines {
    var limit := FirstHeader(lines);
    WithFlag(lines[..limit]) + lines[limit..]
  }

  /** bearerTokenEnvVar and bearerToken; the first that is not empty is written. */
  datatype Gateway = Gateway(name: string, url: string, bearerTokenEnvVar: string, bearerToken: string)

  function Block(g: Gateway): Lines {
    [Header(g.name), Assignment("url", g.url)] +
    (if g.bearerTokenEnvVar != "" then [Assignment("bearer_token_env_var", g.bearerTokenEnvVar)]
     else if g.bearerToken != "" then [Assignment("bearer_token", g.bearerToken)]
     else [])
  }

  /** A file with `block` where the first table of `name` was. */
  function Spliced(lines: Lines, name: string, block: Lines): Lines
    requires FindTable(lines, name) < |lines|
  {
    var i := FindTable(lines, name);
    lines[..i] + block + lines[TableEnd(lines, i, name)..]
  }

  /** The file an appended block goes behind. */
  function Gapped(f: Lines): Lines {
    if f != [] && !Blank(f[|f| - 1]) then f + [""] else f
  }

  function Upserted(lines: Lines, g: Gateway): Lines {
    var flagged := Flagged(lines);
    if FindTable(flagged, g.name) < |flagged| then Spliced(flagged, g.name, Block(g))
    else Gapped(flagged) + Block(g)
  }

  function WithoutTrailingBlanks(lines: Lines): (r: Lines)
    ensures r <= lines && forall k :: |r| <= k < |lines| ==> Blank(lines[k])
  {
    if lines != [] && Blank(lines[|lines| - 1]) then WithoutTrailingBlanks(lines[..|lines| - 1]) else lines
  }

  function Removed(lines: Lines, name: string): Lines {
    if FindTable(lines, name) == |lines| then lines else WithoutTrailingBlanks(Spliced(lines, name, []))
  }

  function RemovedAll(lines: Lines, names: seq<string>): Lines {
    if names == [] then lines
    else Removed(RemovedAll(lines, names[..|names| - 1]), names[|names| - 1])
  }

  // ----- cutting a file --------------------------------------------------------------

  predicate StartsWithHeader(lines: Lines) {
    lines == [] || IsHeader(lines[0])
  }

  predicate AllBlank(lines: Lines) {
    forall k :: 0 <= k < |lines| ==> Blank(lines[k])
  }

  lemma {:induction false} ReadStopsAtHeader(a: Lines, b: Lines, key: string)
    requires StartsWithHeader(b)
    ensures Read(a + b, key) == Read(a, key)
  {
    if a == [] {
      assert a + b == b;
    } else {
      assert (a + b)[1..] == a[1..] + b;
      ReadStopsAtHeader(a[1..], b, key);
    }
  }

  /** A file cut in front of a header reads as its two parts. */
  lemma {:induction false} TablesInParts(a: Lines, b: Lines)
    requires StartsWithHeader(b)
    ensures Tables(a + b) == Tables(a) + Tables(b)
  {
    hide TableName;
    if a == [] {
      assert a + b == b;
    } else {
      assert (a + b)[1..] == a[1..] + b;
      ReadStopsAtHeader(a[1..], b, "url");
      ReadStopsAtHeader(a[1..], b, "command");
      TablesInParts(a[1..], b);
    }
  }

  /** A key that does not begin with white space is not assigned on a blank line. */
  lemma BlankSaysNothing(line: string, key: string)
    requires Blank(line) && key != "" && !IsSpace(key[0])
    ensures !IsHeader(line) && Assigned(line, key).None?
  {
    BlankIsAllSpace(line);
    assert SkipSpace(line, 0) == |line|;
  }

  lemma {:induction false} BlankLinesReadNothing(blanks: Lines, key: string)
    requires AllBlank(blanks) && key != "" && !IsSpace(key[0])
    ensures Read(blanks, key).None?
  {
    if blanks != [] {
      BlankSaysNothing(blanks[0], key);
      BlankLinesReadNothing(blanks[1..], key);
    }
  }

  lemma {:induction false} ReadIgnoresBlanks(a: Lines, blanks: Lines, key: string)
    requires AllBlank(blanks) && key != "" && !IsSpace(key[0])
    ensures Read(a + blanks, key) == Read(a, key)
  {
    if a == [] {
      assert a + blanks == blanks;
      BlankLinesReadNothing(blanks, key);
    } else {
      assert (a + blanks)[1..] == a[1..] + blanks;
      ReadIgnoresBlanks(a[1..], blanks, key);
    }
  }

  lemma {:induction false} NoTablesWithoutNames(lines: Lines)
    requires forall k :: 0 <= k < |lines| ==> TableName(lines[k]).None?
    ensures Tables(lines) == []
  {
    if lines != [] { NoTablesWithoutNames(lines[1..]); }
  }

  lemma {:induction false} TablesIgnoreBlanks(a: Lines, blanks: Lines)
    requires AllBlank(blanks)
    ensures Tables(a + blanks) == Tables(a)
  {
    hide HeaderSegments, Blank, Assigned;
    if a == [] {
      assert a + blanks == blanks;
      forall k | 0 <= k < |blanks| ensures TableName(blanks[k]).None? { BlankSaysNothing(blanks[k], "url"); }
      NoTablesWithoutNames(blanks);
    } else {
      assert (a + blanks)[1..] == a[1..] + blanks;
      ReadIgnoresBlanks(a[1..], blanks, "url");
      ReadIgnoresBlanks(a[1..], blanks, "command");
      TablesIgnoreBlanks(a[1..], blanks);
    }
  }

  lemma {:induction false} TablesNamed(lines: Lines, name: string)
    requires forall k :: 0 <= k < |lines| ==> TableName(lines[k]) != Some(name)
    ensures forall t :: t in Tables(lines) ==> t.name != name
  {
    hide TableName;
    if lines != [] { TablesNamed(lines[1..], name); }
  }

  // ----- one table and its surroundings ----------------------------------------------

  /** The lines of the table headed at `i` read as that table alone: children head none. */
  lemma TableReadsAlone(lines: Lines, i: nat, name: string)
    requires i < |lines| && TableName(lines[i]) == Some(name)
    ensures var own := Tables(lines[i..TableEnd(lines, i, name)]); |own| == 1 && own[0].name == name
  {
    BoundaryIsFirst(lines, i + 1, name);
    var e := TableEnd(lines, i, name);
    var own := lines[i..e];
    hide TableName, Ends, TableEnd;
    assert own[0] == lines[i];
    forall k | 0 <= k < |own[1..]| ensures TableName(own[1..][k]).None? {
      assert own[1..][k] == lines[i + 1 + k];
      NotEndsNotNamed(own[1..][k], name);
    }
    NoTablesWithoutNames(own[1..]);
  }

  lemma NotEndsNotNamed(line: string, name: string)
    requires !Ends(line, name)
    ensures TableName(line).None?
  {
    hide IsHeader, HeaderSegments;
  }

  /** What follows a table: blank lines, and then the header it ends at. */
  lemma AfterTable(lines: Lines, i: nat, name: string)
    requires i < |lines|
    ensures var e, b := TableEnd(lines, i, name), Boundary(lines, i + 1, name);
            && i < e <= b <= |lines| && AllBlank(lines[e..b]) && StartsWithHeader(lines[b..])
            && lines[e..] == lines[e..b] + lines[b..]
            && (b < |lines| ==> Ends(lines[b], name))
  {
    hide IsHeader, ChildOf, Blank;
    BoundaryIsFirst(lines, i + 1, name);
  }

  /** Lines around a table read the same with any other block in its place. */
  lemma TablesAround(a: Lines, block: Lines, blanks: Lines, b: Lines)
    requires StartsWithHeader(block) && AllBlank(blanks) && StartsWithHeader(b)
    ensures Tables(a + block + (blanks + b)) == Tables(a) + Tables(block) + Tables(b)
  {
    hide Tables, TableName, IsHeader, Blank;
    assert a + block + (blanks + b) == (a + (block + blanks)) + b;
    TablesInParts(a + (block + blanks), b);
    if block == [] {
      assert a + (block + blanks) == a + blanks;
      TablesIgnoreBlanks(a, blanks);
      NoTablesWithoutNames([]);
    } else {
      assert (block + blanks)[0] == block[0];
      TablesInParts(a, block + blanks);
      TablesIgnoreBlanks(block, blanks);
    }
  }

  // ----- what the edits do -----------------------------------------------------------

  /** The gateway's table takes the place of the first table of its name, or comes last. */
  function Put(tables: seq<Table>, t: Table): seq<Table> {
    if tables == [] then [t]
    else if tables[0].name == t.name then [t] + tables[1..]
    else [tables[0]] + Put(tables[1..], t)
  }

  function Without(tables: seq<Table>, name: string): seq<Table> {
    if tables == [] then []
    else if tables[0].name == name then tables[1..]
    else [tables[0]] + Without(tables[1..], name)
  }

  lemma {:induction false} PutInMiddle(before: seq<Table>, own: Table, after: seq<Table>, t: Table)
    requires (forall x :: x in before ==> x.name != t.name) && own.name == t.name
    ensures Put(before + [own] + after, t) == before + [t] + after
    ensures Without(before + [own] + after, t.name) == before + after
  {
    var all := before + [own] + after;
    if before == [] {
      assert all == [own] + after;
    } else {
      assert all[1..] == before[1..] + [own] + after && all[0] == before[0];
      PutInMiddle(before[1..], own, after, t);
      assert before == [before[0]] + before[1..];
      assert [before[0]] + (before[1..] + [t] + after) == before + [t] + after;
      assert [before[0]] + (before[1..] + after) == before + after;
    }
  }

  lemma {:induction false} PutAtEnd(before: seq<Table>, t: Table)
    requires forall x :: x in before ==> x.name != t.name
    ensures Put(before, t) == before + [t] && Without(before, t.name) == before
  {
    if before != [] {
      PutAtEnd(before[1..], t);
      assert before == [before[0]] + before[1..];
    }
  }

  lemma SplicedShape(lines: Lines, name: string, block: Lines)
    requires FindTable(lines, name) < |lines|
    ensures var i := FindTable(lines, name); Spliced(lines, name, block) == lines[..i] + block + lines[TableEnd(lines, i, name)..]
  {
  }

  /** The tables before, at and after the first table of `name`, whatever block takes its place. */
  lemma AroundFirst(lines: Lines, name: string, block: Lines)
    returns (before: seq<Table>, own: Table, after: seq<Table>)
    requires FindTable(lines, name) < |lines| && StartsWithHeader(block)
    ensures own.name == name && forall x :: x in before ==> x.name != name
    ensures Tables(lines) == before + [own] + after
    ensures Tables(Spliced(lines, name, block)) == before + Tables(block) + after
  {
    hide *;
    SplicedShape(lines, name, block);
    var i := FindTable(lines, name);
    var e, b := TableEnd(lines, i, name), Boundary(lines, i + 1, name);
    FirstTableFound(lines, name);
    AfterTable(lines, i, name);
    var head, table, blanks, rest := lines[..i], lines[i..e], lines[e..b], lines[b..];
    before, after := Tables(head), Tables(rest);
    TableReadsAlone(lines, i, name);
    own := Tables(table)[0];
    assert Tables(table) == [own];
    HeadsTable(table, name);
    TablesAround(head, table, blanks, rest);
    TablesAround(head, block, blanks, rest);
    CutInThree(lines, i, e);
    TablesNamed(head, name);
  }

  lemma CutInThree(lines: Lines, i: nat, e: nat)
    requires i <= e <= |lines|
    ensures lines == lines[..i] + lines[i..e] + lines[e..]
  {
  }

  lemma HeadsTable(lines: Lines, name: string)
    requires lines != [] && TableName(lines[0]) == Some(name)
    ensures StartsWithHeader(lines)
  {
  }
}
