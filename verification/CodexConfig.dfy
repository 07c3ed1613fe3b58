/**
 * The document class of the Codex line editor (apps/migration-cli/src/config-file.ts)
 * and the prune step that edits it (apps/migration-cli/src/plan.ts).
 */
module CodexConfig {
  import opened Wrappers
  import opened Text
  import opened JsonText
  import opened TomlText
  import opened TomlTables
  import opened CodexEdits

  // ----- text and lines --------------------------------------------------------------

  /** `split("\n")`. */
  function Split(raw: string): (lines: Lines)
    ensures lines != []
    decreases |raw|
  {
    var newline := IndexOf(raw, '\n');
    if newline == |raw| then [raw] else [raw[..newline]] + Split(raw[newline + 1..])
  }

  /** `join("\n")`. */
  function Join(lines: Lines): string
    requires lines != []
  {
    if |lines| == 1 then lines[0] else lines[0] + ("\n" + Join(lines[1..]))
  }

  predicate EndsInNewline(raw: string) {
    raw != "" && raw[|raw| - 1] == '\n'
  }

  function Parsed(raw: string): Lines {
    if raw == "" then [] else Split(if EndsInNewline(raw) then raw[..|raw| - 1] else raw)
  }

  function Serialized(lines: Lines): string {
    if lines == [] then "" else Join(lines) + "\n"
  }

  lemma {:induction false} SplitJoins(raw: string)
    ensures Join(Split(raw)) == raw
    decreases |raw|
  {
    var newline := IndexOf(raw, '\n');
    if newline < |raw| {
      var first, rest := raw[..newline], raw[newline + 1..];
      SplitJoins(rest);
      assert ([first] + Split(rest))[1..] == Split(rest);
      assert raw == first + ("\n" + rest);
    }
  }

  /** Reading a file and writing it back unedited changes nothing but a missing last newline. */
  lemma UneditedFileIsKept(raw: string)
    ensures Serialized(Parsed(raw)) == if raw == "" || EndsInNewline(raw) then raw else raw + "\n"
  {
    hide Split, Join;
    if raw != "" {
      SplitJoins(if EndsInNewline(raw) then raw[..|raw| - 1] else raw);
    }
  }

  predicate OneLine(line: string) {
    forall i :: 0 <= i < |line| ==> line[i] != '\n'
  }

  lemma SplitFirst(first: string, rest: string)
    requires OneLine(first)
    ensures Split(first) == [first] && Split(first + ("\n" + rest)) == [first] + Split(rest)
  {
    assert IndexOf(first, '\n') == |first|;
    var all := first + ("\n" + rest);
    assert all[|first|] == '\n' && IndexOf(all, '\n') == |first|;
    assert all[..|first|] == first && all[|first| + 1..] == rest;
  }

  lemma {:induction false} JoinSplits(lines: Lines)
    requires lines != [] && forall k :: 0 <= k < |lines| ==> OneLine(lines[k])
    ensures Split(Join(lines)) == lines
  {
    hide Split, OneLine;
    if |lines| == 1 {
      SplitFirst(lines[0], "");
    } else {
      SplitFirst(lines[0], Join(lines[1..]));
      JoinSplits(lines[1..]);
      assert lines == [lines[0]] + lines[1..];
    }
  }

  /** What was edited is what the next run reads. */
  lemma SavedFileIsReadBack(lines: Lines)
    requires forall k :: 0 <= k < |lines| ==> OneLine(lines[k])
    ensures Parsed(Serialized(lines)) == lines
  {
    if lines != [] {
      var text := Join(lines) + "\n";
      assert text[..|text| - 1] == Join(lines);
      JoinSplits(lines);
    }
  }

  // ----- ranges and tables -----------------------------------------------------------

  /** `table` is what the lines of `range` say. */
  predicate Describes(lines: Lines, range: Range, table: Table) {
    && range.start < |lines| && TableName(lines[range.start]) == Some(range.name)
    && range.end == TableEnd(lines, range.start, range.name)
    && table == Table(range.name, Read(lines[range.start + 1..], "url"), Read(lines[range.start + 1..], "command"))
  }

  lemma {:induction false} RangesAreTables(lines: Lines, i: nat)
    requires i <= |lines|
    ensures var rs, ts := Ranges(lines, i), Tables(lines[i..]);
            |rs| == |ts| && forall n :: 0 <= n < |rs| ==> Describes(lines, rs[n], ts[n])
    decreases |lines| - i
  {
    if i < |lines| {
      RangesAreTables(lines, i + 1);
      OneMoreRange(lines, i);
      hide *;
    }
  }

  lemma OneMoreRange(lines: Lines, i: nat)
    requires i < |lines|
    ensures var (rs, ts) := (Ranges(lines, i), Tables(lines[i..]));
            var (rest, others) := (Ranges(lines, i + 1), Tables(lines[i + 1..]));
            || (rs == rest && ts == others)
            || (exists r, t :: rs == [r] + rest && ts == [t] + others && Describes(lines, r, t))
  {
    hide TableName, TableEnd, Read;
    assert lines[i..][1..] == lines[i + 1..];
    var name := TableName(lines[i]);
    if name.Some? {
      var r := Range(name.value, i, TableEnd(lines, i, name.value));
      var t := Table(name.value, Read(lines[i + 1..], "url"), Read(lines[i + 1..], "command"));
      assert Describes(lines, r, t);
    }
  }

  lemma DescribedTable(lines: Lines, r: Range, t: Table)
    requires Describes(lines, r, t)
    ensures r.start < |lines| && r.end == TableEnd(lines, r.start, r.name) && t.name == r.name
    ensures t.url == Read(lines[r.start + 1..], "url") && t.command == Read(lines[r.start + 1..], "command")
  {
  }

  /** The first range of a name is the table an edit is about. */
  lemma {:induction false} FirstRange(lines: Lines, i: nat, name: string, n: nat)
    requires i <= |lines|
    requires var rs := Ranges(lines, i);
             n <= |rs| && (n < |rs| ==> rs[n].name == name) && forall m :: 0 <= m < n ==> rs[m].name != name
    ensures var rs := Ranges(lines, i);
            FindTableFrom(lines, i, name) == if n < |rs| then rs[n].start else |lines|
    decreases |lines| - i
  {
    hide TableName, TableEnd;
    if i < |lines| {
      var first, rest := TableName(lines[i]), Ranges(lines, i + 1);
      if first.None? {
        FirstRange(lines, i + 1, name, n);
      } else if first != Some(name) {
        assert Ranges(lines, i)[1..] == rest && n > 0;
        assert forall m :: 0 <= m < |rest| ==> rest[m] == Ranges(lines, i)[m + 1];
        FirstRange(lines, i + 1, name, n - 1);
      } else {
        assert Ranges(lines, i)[0].name == name;
      }
    }
  }

  /** Below the last line of a table nothing more is read for it. */
  lemma NothingBelowTable(lines: Lines, i: nat, name: string, key: string)
    requires i < |lines| && key != "" && !IsSpace(key[0])
    ensures Read(lines[TableEnd(lines, i, name)..], key) == None
  {
    hide Read;
    var e, b := TableEnd(lines, i, name), Boundary(lines, i + 1, name);
    AfterTable(lines, i, name);
    BlankLinesReadNothing(lines[e..b], key);
    ReadStopsAtHeader(lines[e..b], lines[b..], key);
  }

  lemma {:induction false} BoundaryLater(lines: Lines, i: nat, j: nat, name: string)
    requires i <= j <= |lines| && forall k :: i <= k < j ==> !Ends(lines[k], name)
    ensures Boundary(lines, i, name) == Boundary(lines, j, name)
    decreases j - i
  {
    hide Ends;
    if i < j { BoundaryLater(lines, i + 1, j, name); }
  }

  lemma HeaderlessEndsNothing(lines: Lines, i: nat, j: nat, name: string)
    requires j <= |lines| && forall k :: i <= k < j ==> !IsHeader(lines[k])
    ensures forall k :: i <= k < j ==> !Ends(lines[k], name)
  {
    hide IsHeader, ChildOf;
  }

  lemma HeaderEnds(line: string, name: string)
    requires IsHeader(line)
    ensures Ends(line, name) <==>
      var segments := HeaderSegments(line);
      !(segments.Some? && |segments.value| > 2 && segments.value[0] == "mcp_servers" && segments.value[1] == name)
  {
    hide IsHeader, HeaderSegments;
  }

  // ----- the document ----------------------------------------------------------------

  datatype HeaderLine = HeaderLine(segments: Option<seq<string>>, line: nat)

  /** The headers of the lines before `n`, in order and none left out. */
  predicate AreHeaders(lines: Lines, n: nat, headers: seq<HeaderLine>)
    requires n <= |lines|
  {
    && (forall h :: 0 <= h < |headers| ==>
          && headers[h].line < n && IsHeader(lines[headers[h].line])
          && headers[h].segments == HeaderSegments(lines[headers[h].line]))
    && (forall g, h :: 0 <= g < h < |headers| ==> headers[g].line < headers[h].line)
    && (forall k :: 0 <= k < n && IsHeader(lines[k]) ==> exists h :: 0 <= h < |headers| && headers[h].line == k)
  }

  lemma NoneBefore(lines: Lines, headers: seq<HeaderLine>)
    requires AreHeaders(lines, |lines|, headers) && headers != []
    ensures forall k :: 0 <= k < headers[0].line ==> !IsHeader(lines[k])
  {
    hide IsHeader, HeaderSegments;
    forall k | 0 <= k < |lines| && IsHeader(lines[k]) ensures headers[0].line <= k {
      var h :| 0 <= h < |headers| && headers[h].line == k;
      assert h == 0 || headers[0].line < headers[h].line;
    }
  }

  lemma NoneBetween(lines: Lines, headers: seq<HeaderLine>, next: nat)
    requires AreHeaders(lines, |lines|, headers) && 0 < next < |headers|
    ensures forall k :: headers[next - 1].line < k < headers[next].line ==> !IsHeader(lines[k])
  {
    hide IsHeader, HeaderSegments;
    forall k | 0 <= k < |lines| && IsHeader(lines[k]) ensures k <= headers[next - 1].line || headers[next].line <= k {
      var h :| 0 <= h < |headers| && headers[h].line == k;
      assert h <= next - 1 || next <= h;
    }
  }

  lemma NoneBehind(lines: Lines, headers: seq<HeaderLine>)
    requires AreHeaders(lines, |lines|, headers)
    ensures forall k :: (if headers == [] then -1 else headers[|headers| - 1].line) < k < |lines| ==> !IsHeader(lines[k])
  {
    hide IsHeader, HeaderSegments;
    forall k | 0 <= k < |lines| && IsHeader(lines[k])
      ensures headers != [] && k <= headers[|headers| - 1].line
    {
      var h :| 0 <= h < |headers| && headers[h].line == k;
      assert h == |headers| - 1 || headers[h].line < headers[|headers| - 1].line;
    }
  }

  lemma NothingListed()
    ensures Remotes([]) == [] && Locals([]) == []
    ensures !IsSpace("url"[0]) && !IsSpace("command"[0])
  {
  }

  lemma ListOneMore(tables: seq<Table>, n: nat)
    requires n < |tables|
    ensures var t, rest := tables[n], tables[n + 1..];
            && Remotes(tables[n..]) ==
                 (if t.url.Some? && t.url.value != "" then [Server(t.name, t.url.value)] + Remotes(rest) else Remotes(rest))
            && Locals(tables[n..]) ==
                 if (t.url.Some? ==> t.url.value == "") && t.command.Some? && t.command.value != ""
                 then [Server(t.name, t.command.value)] + Locals(rest) else Locals(rest)
  {
    assert tables[n..] == [tables[n]] + tables[n + 1..];
    ListedCons(tables[n], tables[n + 1..]);
  }

  class CodexConfigDocument {
    var lines: Lines

    constructor (raw: string)
      ensures lines == Parsed(raw)
    {
      lines := Parsed(raw);
    }

    method Serialize() returns (text: string)
      ensures text == Serialized(lines)
    {
      text := Serialized(lines);
    }

    method CollectHeaders() returns (headers: seq<HeaderLine>)
      ensures AreHeaders(lines, |lines|, headers)
    {
      hide IsHeader, HeaderSegments;
      headers := [];
      for index := 0 to |lines|
        invariant AreHeaders(lines, index, headers)
      {
        if IsHeader(lines[index]) {
          var segments := ParseTableHeader(lines[index]);
          ghost var before := headers;
          headers := headers + [HeaderLine(segments, index)];
          assert headers[|before|].line == index;
          forall k | 0 <= k < index + 1 && IsHeader(lines[k])
            ensures exists h :: 0 <= h < |headers| && headers[h].line == k
          {
            if k < index {
              var h :| 0 <= h < |before| && before[h].line == k;
              assert headers[h].line == k;
            }
          }
        }
      }
    }

    /** Where the table headed at `headers[position]` ends: at the next header that is no child of it. */
    method EndOf(headers: seq<HeaderLine>, position: nat, name: string) returns (end: nat)
      requires AreHeaders(lines, |lines|, headers) && position < |headers|
      ensures headers[position].line < |lines| && end == TableEnd(lines, headers[position].line, name)
    {
      hide IsHeader, HeaderSegments, Blank, Ends;
      var start := headers[position].line;
      end := |lines|;
      var next := position + 1;
      ghost var passed := start + 1;
      while next < |headers|
        invariant position < next <= |headers| && passed == headers[next - 1].line + 1 && end == |lines|
        invariant Boundary(lines, start + 1, name) == Boundary(lines, passed, name)
      {
        var candidate := headers[next];
        NoneBetween(lines, headers, next);
        HeaderlessEndsNothing(lines, passed, candidate.line, name);
        BoundaryLater(lines, passed, candidate.line, name);
        var isChild := candidate.segments.Some? && |candidate.segments.value| > 2
          && candidate.segments.value[0] == "mcp_servers" && candidate.segments.value[1] == name;
        HeaderEnds(lines[candidate.line], name);
        if !isChild {
          end := candidate.line;
          break;
        }
        passed := candidate.line + 1;
        next := next + 1;
      }
      if next == |headers| {
        NoneBehind(lines, headers);
        HeaderlessEndsNothing(lines, passed, |lines|, name);
        BoundaryLater(lines, passed, |lines|, name);
      }
      end := PassBlanks(start, end);
    }

    method PassBlanks(start: nat, whole: nat) returns (end: nat)
      requires start < whole <= |lines|
      ensures end == DropBlank(lines, start, whole)
    {
      hide Blank;
      end := whole;
      while end > start + 1 && Blank(lines[end - 1])
        invariant start < end <= whole && DropBlank(lines, start, whole) == DropBlank(lines, start, end)
      {
        end := end - 1;
      }
    }

    /** The server tables of the document, each with its range of lines. */
    method CollectTables() returns (tables: seq<Range>)
      ensures tables == Ranges(lines, 0)
    {
      hide IsHeader, HeaderSegments, TableEnd;
      var headers := CollectHeaders();
      tables := [];
      ghost var from := 0;
      for position := 0 to |headers|
        invariant from == if position == 0 then 0 else headers[position - 1].line + 1
        invariant from <= |lines| && Ranges(lines, 0) == tables + Ranges(lines, from)
      {
        var header := headers[position];
        if position > 0 { NoneBetween(lines, headers, position); } else { NoneBefore(lines, headers); }
        RangesLater(lines, from, header.line);
        var segments := header.segments;
        if segments.Some? && |segments.value| == 2 && segments.value[0] == "mcp_servers" {
          var end := EndOf(headers, position, segments.value[1]);
          ghost var range := Range(segments.value[1], header.line, end);
          assert tables + ([range] + Ranges(lines, header.line + 1)) == tables + [range] + Ranges(lines, header.line + 1);
          tables := tables + [Range(segments.value[1], header.line, end)];
        }
        from := header.line + 1;
      }
      NoneBehind(lines, headers);
      RangesLater(lines, from, |lines|);
      assert tables + [] == tables;
    }

    /** readString: the first line below the header that assigns the key decides. */
    method ReadString(table: Range, key: string) returns (value: Option<string>)
      requires table.start < |lines| && table.end == TableEnd(lines, table.start, table.name)
      requires key != "" && !IsSpace(key[0])
      ensures value == Read(lines[table.start + 1..], key)
    {
      hide IsHeader, Assigned, TomlValue, TableEnd;
      NothingBelowTable(lines, table.start, table.name, key);
      var index := table.start + 1;
      while index < table.end
        invariant table.start < index <= table.end
        invariant Read(lines[table.start + 1..], key) == Read(lines[index..], key)
      {
        assert lines[index..][0] == lines[index] && lines[index..][1..] == lines[index + 1..];
        if IsHeader(lines[index]) { return None; }
        var captured := Assigned(lines[index], key);
        if captured.Some? {
          value := ParseTomlString(captured.value);
          return;
        }
        index := index + 1;
      }
      value := None;
    }

    method Servers() returns (remote: seq<Server>, local: seq<Server>)
      ensures remote == Remotes(Tables(lines)) && local == Locals(Tables(lines))
    {
      hide *;
      NothingListed();
      var ranges := CollectTables();
      RangesAreTables(lines, 0);
      assert lines[0..] == lines;
      ghost var tables := Tables(lines);
      assert tables[0..] == tables;
      remote, local := [], [];
      for n := 0 to |ranges|
        invariant remote + Remotes(tables[n..]) == Remotes(tables)
        invariant local + Locals(tables[n..]) == Locals(tables)
      {
        ListOneMore(tables, n);
        DescribedTable(lines, ranges[n], tables[n]);
        var url := ReadString(ranges[n], "url");
        if url.Some? && url.value != "" {
          remote := remote + [Server(ranges[n].name, url.value)];
        } else {
          var command := ReadString(ranges[n], "command");
          if command.Some? && command.value != "" {
            local := local + [Server(ranges[n].name, command.value)];
          }
        }
      }
      assert tables[|ranges|..] == [] && remote + [] == remote && local + [] == local;
    }

    /** `tables().find(...)`. */
    method Find(name: string) returns (found: Option<Range>)
      ensures found.None? <==> FindTable(lines, name) == |lines|
      ensures found.Some? ==>
        && found.value.start == FindTable(lines, name) < |lines|
        && found.value.end == TableEnd(lines, found.value.start, name)
    {
      hide TableName, Ranges, TableEnd, Tables;
      var ranges := CollectTables();
      RangesAreTables(lines, 0);
      for n := 0 to |ranges|
        invariant forall m :: 0 <= m < n ==> ranges[m].name != name
      {
        if ranges[n].name == name {
          FirstRange(lines, 0, name, n);
          return Some(ranges[n]);
        }
      }
      FirstRange(lines, 0, name, |ranges|);
      found := None;
    }

    method EnsureRmcpFlag()
      modifies this
      ensures lines == Flagged(old(lines))
    {
      hide IsHeader, AssignedAt;
      var limit := 0;
      while limit < |lines| && !IsHeader(lines[limit])
        invariant 0 <= limit <= |lines| && forall k :: 0 <= k < limit ==> !IsHeader(lines[k])
      {
        limit := limit + 1;
      }
      assert limit == FirstHeader(lines);
      ghost var above := lines[..limit];
      for index := 0 to limit
        invariant lines == old(lines)
        invariant forall k :: 0 <= k < index ==> AssignedAt(above[k], RMCP_FLAG).None?
      {
        assert above[index] == lines[index];
        if AssignedAt(lines[index], RMCP_FLAG).Some? {
          assert FindFlag(above) == index;
          lines := lines[index := FLAG_LINE];
          return;
        }
      }
      assert FindFlag(above) == limit;
      lines := lines[..limit] + [FLAG_LINE, ""] + lines[limit..];
    }

    method UpsertGateway(g: Gateway)
      modifies this
      ensures lines == Upserted(old(lines), g)
    {
      hide Flagged, Block, Blank, TableName, TableEnd;
      EnsureRmcpFlag();
      var block := Block(g);
      var existing := Find(g.name);
      if existing.Some? {
        lines := lines[..existing.value.start] + block + lines[existing.value.end..];
        return;
      }
      if |lines| > 0 && !Blank(lines[|lines| - 1]) {
        lines := lines + [""];
      }
      lines := lines + block;
    }

    method RemoveServer(name: string)
      modifies this
      ensures lines == Removed(old(lines), name)
    {
      hide Blank, TableEnd, TableName;
      var table := Find(name);
      if table.None? {
        return;
      }
      ghost var spliced := Spliced(lines, name, []);
      assert lines[..table.value.start] + [] == lines[..table.value.start];
      lines := lines[..table.value.start] + lines[table.value.end..];
      assert lines == spliced;
      while |lines| > 0 && Blank(lines[|lines| - 1])
        invariant WithoutTrailingBlanks(lines) == WithoutTrailingBlanks(spliced)
        decreases |lines|
      {
        lines := lines[..|lines| - 1];
      }
    }
  }

  lemma {:induction false} RangesLater(lines: Lines, i: nat, j: nat)
    requires i <= j <= |lines| && forall k :: i <= k < j ==> !IsHeader(lines[k])
    ensures Ranges(lines, i) == Ranges(lines, j)
    decreases j - i
  {
    hide IsHeader, HeaderSegments, TableEnd;
    if i < j { RangesLater(lines, i + 1, j); }
  }

  // ----- saving an upsert ------------------------------------------------------------

  lemma {:induction false} BodyIsOneLine(s: string)
    ensures OneLine(Body(s))
  {
    if s != "" {
      BodyIsOneLine(s[1..]);
      assert OneLine(Escaped(s[0]));
    }
  }

  lemma QuoteIsOneLine(s: string)
    ensures OneLine(Quote(s))
  {
    BodyIsOneLine(s);
  }

  lemma AssignmentIsOneLine(key: string, value: string)
    requires OneLine(key)
    ensures OneLine(Assignment(key, value))
  {
    QuoteIsOneLine(value);
    hide Quote;
    assert OneLine(" = ");
  }

  lemma HeaderIsOneLine(name: string)
    ensures OneLine(Header(name))
  {
    QuoteIsOneLine(name);
    assert IsBare(name) ==> OneLine(name);
    hide Quote, IsBare;
    assert OneLine("[mcp_servers.") && OneLine("]");
  }

  lemma BlockIsOneLineEach(g: Gateway)
    ensures forall k :: 0 <= k < |Block(g)| ==> OneLine(Block(g)[k])
  {
    HeaderIsOneLine(g.name);
    AssignmentIsOneLine("url", g.url);
    AssignmentIsOneLine("bearer_token_env_var", g.bearerTokenEnvVar);
    AssignmentIsOneLine("bearer_token", g.bearerToken);
    hide Header, Assignment, OneLine;
  }

  /** The file an upsert writes reads back, in the next run, as the document it was written from. */
  lemma UpsertSurvivesSaving(raw: string, g: Gateway)
    ensures Parsed(Serialized(Upserted(Parsed(raw), g))) == Upserted(Parsed(raw), g)
  {
    hide Block, Parsed, Serialized, Upserted, OneLine;
    ParsedOneLineEach(raw);
    BlockIsOneLineEach(g);
    UpsertedOneLineEach(Parsed(raw), g);
    SavedFileIsReadBack(Upserted(Parsed(raw), g));
  }

  lemma FlaggedOneLineEach(lines: Lines)
    requires forall k :: 0 <= k < |lines| ==> OneLine(lines[k])
    ensures forall k :: 0 <= k < |Flagged(lines)| ==> OneLine(Flagged(lines)[k])
  {
    assert OneLine(FLAG_LINE) && OneLine("");
    hide OneLine, IsHeader, AssignedAt;
  }

  lemma UpsertedOneLineEach(lines: Lines, g: Gateway)
    requires forall k :: 0 <= k < |lines| ==> OneLine(lines[k])
    requires forall k :: 0 <= k < |Block(g)| ==> OneLine(Block(g)[k])
    ensures forall k :: 0 <= k < |Upserted(lines, g)| ==> OneLine(Upserted(lines, g)[k])
  {
    hide *;
    FlaggedOneLineEach(lines);
    UpsertedShape(lines, g);
    var f := Flagged(lines);
    if FindTable(f, g.name) < |f| {
      SplicedShape(f, g.name, Block(g));
    } else {
      GappedOneLineEach(f);
    }
  }

  lemma GappedOneLineEach(f: Lines)
    requires forall k :: 0 <= k < |f| ==> OneLine(f[k])
    ensures forall k :: 0 <= k < |Gapped(f)| ==> OneLine(Gapped(f)[k])
  {
    assert OneLine("");
    hide OneLine, Blank;
  }

  lemma {:induction false} SplitOneLineEach(raw: string)
    ensures forall k :: 0 <= k < |Split(raw)| ==> OneLine(Split(raw)[k])
    decreases |raw|
  {
    var newline := IndexOf(raw, '\n');
    if newline < |raw| { SplitOneLineEach(raw[newline + 1..]); }
  }

  lemma ParsedOneLineEach(raw: string)
    ensures forall k :: 0 <= k < |Parsed(raw)| ==> OneLine(Parsed(raw)[k])
  {
    if raw != "" { SplitOneLineEach(if EndsInNewline(raw) then raw[..|raw| - 1] else raw); }
  }

  // ----- prune -----------------------------------------------------------------------

  /** `migrated(url)`: the URL canonicalizes to one the gateway now serves. */
  predicate Removable(s: Server, entryName: string, migrated: string -> bool) {
    s.name != entryName && migrated(s.text)
  }

  function RemovableNames(servers: seq<Server>, entryName: string, migrated: string -> bool): (names: seq<string>)
    ensures forall n :: n in names <==> exists s :: s in servers && Removable(s, entryName, migrated) && s.name == n
  {
    if servers == [] then []
    else
      var rest := RemovableNames(servers[1..], entryName, migrated);
      if Removable(servers[0], entryName, migrated) then [servers[0].name] + rest else rest
  }

  /** The table of a server the gateway has taken over. */
  predicate TakenOver(t: Table, entryName: string, migrated: string -> bool) {
    IsRemote(t) && t.name != entryName && migrated(t.url.value)
  }

  /** The tables that are not taken over, in order. */
  function NotTakenOver(tables: seq<Table>, entryName: string, migrated: string -> bool): (r: seq<Table>)
    ensures forall t :: t in r <==>
      (t in tables && !(t.url.Some? && t.url.value != "" && t.name != entryName && migrated(t.url.value)))
  {
    if tables == [] then []
    else
      var rest := NotTakenOver(tables[1..], entryName, migrated);
      if TakenOver(tables[0], entryName, migrated) then rest else [tables[0]] + rest
  }

  lemma NamesTakenOver(tables: seq<Table>, t: Table, entryName: string, migrated: string -> bool)
    requires Distinct(tables) && t in tables
    ensures t.name in RemovableNames(Remotes(tables), entryName, migrated) <==> TakenOver(t, entryName, migrated)
  {
    var names := RemovableNames(Remotes(tables), entryName, migrated);
    RemotesOf(tables);
    if TakenOver(t, entryName, migrated) {
      var s := Server(t.name, t.url.value);
      assert s in Remotes(tables) && Removable(s, entryName, migrated);
    }
    if t.name in names {
      var s :| s in Remotes(tables) && Removable(s, entryName, migrated) && s.name == t.name;
      var u :| u in tables && IsRemote(u) && s == Server(u.name, u.url.value);
      var i, j :| 0 <= i < |tables| && 0 <= j < |tables| && tables[i] == t && tables[j] == u;
      assert i == j;
    }
  }

  lemma {:induction false} ExceptTakenOver(tables: seq<Table>, names: seq<string>, entryName: string, migrated: string -> bool)
    requires forall t :: t in tables ==> (t.name in names <==> TakenOver(t, entryName, migrated))
    ensures Except(tables, names) == NotTakenOver(tables, entryName, migrated)
  {
    if tables != [] { ExceptTakenOver(tables[1..], names, entryName, migrated); }
  }

  /** A prune removes exactly the servers the gateway has taken over. */
  lemma PruneRemovesTakenOver(lines: Lines, entryName: string, migrated: string -> bool)
    requires Distinct(Tables(lines))
    ensures var names := RemovableNames(Remotes(Tables(lines)), entryName, migrated);
            Tables(RemovedAll(lines, names)) == NotTakenOver(Tables(lines), entryName, migrated)
  {
    hide Tables, RemovedAll, TakenOver, Remotes;
    var tables := Tables(lines);
    var names := RemovableNames(Remotes(tables), entryName, migrated);
    RemoveAllTakesNamed(lines, names);
    forall t | t in tables ensures t.name in names <==> TakenOver(t, entryName, migrated) {
      NamesTakenOver(tables, t, entryName, migrated);
    }
    ExceptTakenOver(tables, names, entryName, migrated);
  }

  /** `config.remote.filter(...)`. */
  method CollectRemovable(remote: seq<Server>, entryName: string, migrated: string -> bool) returns (removable: seq<string>)
    ensures removable == RemovableNames(remote, entryName, migrated)
  {
    removable := [];
    for n := 0 to |remote|
      invariant removable + RemovableNames(remote[n..], entryName, migrated) == RemovableNames(remote, entryName, migrated)
    {
      assert remote[n..][0] == remote[n] && remote[n..][1..] == remote[n + 1..];
      if Removable(remote[n], entryName, migrated) {
        removable := removable + [remote[n].name];
      }
    }
    assert removable + [] == removable;
  }

  /** prunePlanFor, for one loaded document: the new contents, or none when nothing is removable. */
  method Prune(document: CodexConfigDocument, entryName: string, migrated: string -> bool)
    returns (contents: Option<string>)
    modifies document
    ensures var names := RemovableNames(Remotes(Tables(old(document.lines))), entryName, migrated);
      && document.lines == RemovedAll(old(document.lines), names)
      && contents == if names == [] then None else Some(Serialized(document.lines))
    ensures Distinct(Tables(old(document.lines))) ==>
      Tables(document.lines) == NotTakenOver(Tables(old(document.lines)), entryName, migrated)
  {
    hide Tables, Removed, RemovableNames, NotTakenOver, Serialized, Remotes;
    if Distinct(Tables(document.lines)) { PruneRemovesTakenOver(document.lines, entryName, migrated); }
    var remote, _ := document.Servers();
    var removable := CollectRemovable(remote, entryName, migrated);
    if |removable| == 0 {
      return None;
    }
    for n := 0 to |removable|
      invariant document.lines == RemovedAll(old(document.lines), removable[..n])
    {
      assert removable[..n + 1][..n] == removable[..n];
      document.RemoveServer(removable[n]);
    }
    assert removable[..|removable|] == removable;
    var text := document.Serialize();
    contents := Some(text);
  }
}
