/**
 * Reconciling a connection's stored tools with what its upstream lists
 * (packages/storage/src/sql-store.ts), and the clean-up of the listing that has to
 * come first (packages/federation/src/connection-service.ts).
 */
module CatalogueSync {
  import opened Wrappers
  import Naming

  type Id = string

  /** A discovered tool; `definition` stands for the columns that are only copied. */
  datatype Tool = Tool(id: Id, upstreamName: string, gatewayName: string, definition: string, schemaHash: string,
                       riskLevel: string, enabled: bool)

  datatype Row = Row(connection: string, tool: Tool, discoveredAt: int, lastSeenAt: int)

  type Rows = map<Id, Row>

  datatype Report = Report(added: seq<string>, removed: seq<string>, changed: seq<string>, same: seq<string>)

  // ----- the table -------------------------------------------------------------------

  /** UNIQUE (connection_id, upstream_name), and the id as primary key. */
  ghost predicate Unique(rows: Rows) {
    && (forall id :: id in rows ==> rows[id].tool.id == id)
    && forall i, j ::
         (i in rows && j in rows && rows[i].connection == rows[j].connection
           && rows[i].tool.upstreamName == rows[j].tool.upstreamName) ==> i == j
  }

  predicate Names(row: Row, connection: string, upstreamName: string) {
    row.connection == connection && row.tool.upstreamName == upstreamName
  }

  /** The connection's rows in the order the database returns them. */
  ghost predicate Enumerates(order: seq<Id>, rows: Rows, connection: string) {
    && (forall m, n :: 0 <= m < n < |order| ==> order[m] != order[n])
    && forall id :: id in order <==> id in rows && rows[id].connection == connection
  }

  predicate DistinctNames(tools: seq<Tool>) {
    forall m, n :: 0 <= m < n < |tools| ==> tools[m].upstreamName != tools[n].upstreamName
  }

  /** New ids are fresh and differ from one another. */
  predicate FreshIds(tools: seq<Tool>, rows: Rows) {
    && (forall n :: 0 <= n < |tools| ==> tools[n].id !in rows)
    && forall m, n :: 0 <= m < n < |tools| ==> tools[m].id != tools[n].id
  }

  predicate Listed(tools: seq<Tool>, upstreamName: string) {
    exists n :: 0 <= n < |tools| && tools[n].upstreamName == upstreamName
  }

  // ----- what a sync does ------------------------------------------------------------

  datatype Kind = Added | Changed | Unchanged

  predicate SameDefinition(row: Row, tool: Tool) {
    row.tool.schemaHash == tool.schemaHash && row.tool.gatewayName == tool.gatewayName
  }

  /** How a listed tool relates to the rows stored before. */
  ghost function KindOf(rows: Rows, connection: string, tool: Tool): Kind {
    if forall id :: id in rows ==> !Names(rows[id], connection, tool.upstreamName) then Added
    else if forall id :: id in rows && Names(rows[id], connection, tool.upstreamName) ==> SameDefinition(rows[id], tool)
    then Unchanged
    else Changed
  }

  /** A stored row after its tool was seen again: id, switch and first sighting stay. */
  function Refreshed(row: Row, tool: Tool, seenAt: int): Row {
    if SameDefinition(row, tool) then row.(lastSeenAt := seenAt)
    else row.(tool := tool.(id := row.tool.id, upstreamName := row.tool.upstreamName, enabled := row.tool.enabled),
              lastSeenAt := seenAt)
  }

  /** The row `id` of `before` is still there, updated if its tool is among those seen. */
  ghost predicate RowKept(before: Rows, after: Rows, connection: string, tools: seq<Tool>, seenAt: int, id: Id)
    requires id in before
  {
    && id in after
    && (before[id].connection != connection || !Listed(tools, before[id].tool.upstreamName) ==> after[id] == before[id])
    && (before[id].connection == connection ==>
          forall n :: 0 <= n < |tools| && tools[n].upstreamName == before[id].tool.upstreamName ==>
            after[id] == Refreshed(before[id], tools[n], seenAt))
  }

  ghost predicate ToolStored(before: Rows, after: Rows, connection: string, tool: Tool, seenAt: int) {
    KindOf(before, connection, tool).Added? ==> tool.id in after && after[tool.id] == Row(connection, tool, seenAt, seenAt)
  }

  ghost predicate Origin(before: Rows, connection: string, tools: seq<Tool>, id: Id) {
    id in before || exists n :: 0 <= n < |tools| && tools[n].id == id && KindOf(before, connection, tools[n]).Added?
  }

  /** Every tool of the list is stored, and nothing has been removed yet. */
  ghost predicate Merged(before: Rows, after: Rows, connection: string, tools: seq<Tool>, seenAt: int) {
    && (forall id :: id in before ==> RowKept(before, after, connection, tools, seenAt, id))
    && (forall n :: 0 <= n < |tools| ==> ToolStored(before, after, connection, tools[n], seenAt))
    && (forall id :: id in after ==> Origin(before, connection, tools, id))
  }

  ghost predicate Stale(rows: Rows, connection: string, tools: seq<Tool>, id: Id) {
    id in rows && rows[id].connection == connection && !Listed(tools, rows[id].tool.upstreamName)
  }

  /** The table after a whole sync: merged, and without the rows of tools no longer listed. */
  ghost predicate Synced(before: Rows, after: Rows, connection: string, tools: seq<Tool>, seenAt: int) {
    && (forall id :: id in before && !Stale(before, connection, tools, id) ==>
          RowKept(before, after, connection, tools, seenAt, id))
    && (forall n :: 0 <= n < |tools| ==> ToolStored(before, after, connection, tools[n], seenAt))
    && (forall id :: id in after ==> Origin(before, connection, tools, id) && !Stale(before, connection, tools, id))
  }

  /** The gateway names of the listed tools of one kind, in listing order. */
  ghost function OfKind(rows: Rows, connection: string, tools: seq<Tool>, kind: Kind): seq<string> {
    if tools == [] then []
    else
      var last := tools[|tools| - 1];
      OfKind(rows, connection, tools[..|tools| - 1], kind)
        + if KindOf(rows, connection, last) == kind then [last.gatewayName] else []
  }

  /** The gateway names of the rows of `order` that are stale. */
  ghost function StaleNames(rows: Rows, connection: string, tools: seq<Tool>, order: seq<Id>): seq<string>
    requires forall id :: id in order ==> id in rows
  {
    if order == [] then []
    else
      var last := order[|order| - 1];
      StaleNames(rows, connection, tools, order[..|order| - 1])
        + if Stale(rows, connection, tools, last) then [rows[last].tool.gatewayName] else []
  }

  // ----- the store -------------------------------------------------------------------

  /** What is left of the connection's rows while the listing is gone through. */
  ghost predicate StillUnseen(byName: map<string, Id>, rows: Rows, connection: string, tools: seq<Tool>) {
    && (forall name :: name in byName ==>
          byName[name] in rows && Names(rows[byName[name]], connection, name) && !Listed(tools, name))
    && (forall id :: id in rows && rows[id].connection == connection && !Listed(tools, rows[id].tool.upstreamName) ==>
          rows[id].tool.upstreamName in byName)
  }

  class ToolTable {
    var rows: Rows

    constructor ()
      ensures rows == map[] && Unique(rows)
    {
      rows := map[];
    }

    /** An insert the constraints refuse leaves the table as it is. */
    method Insert(row: Row) returns (ok: bool)
      requires row.tool.id !in rows
      modifies this
      ensures ok <==> forall id :: id in old(rows) ==> !Names(old(rows)[id], row.connection, row.tool.upstreamName)
      ensures rows == if ok then old(rows)[row.tool.id := row] else old(rows)
    {
      var clash := set id | id in rows && Names(rows[id], row.connection, row.tool.upstreamName);
      ok := clash == {};
      assert forall id :: id in rows ==> (id in clash <==> Names(rows[id], row.connection, row.tool.upstreamName));
      if ok {
        assert forall id :: id in rows ==> id !in clash;
        rows := rows[row.tool.id := row];
      } else {
        ghost var id :| id in clash;
      }
    }

    /** `new Map(existing.map(...))`. */
    method ByUpstreamName(connection: string, order: seq<Id>) returns (byName: map<string, Id>)
      requires Unique(rows) && Enumerates(order, rows, connection)
      ensures StillUnseen(byName, rows, connection, [])
    {
      byName := map[];
      for n := 0 to |order|
        invariant forall name :: name in byName ==> byName[name] in rows && Names(rows[byName[name]], connection, name)
        invariant forall m :: 0 <= m < n ==> order[m] in rows && rows[order[m]].tool.upstreamName in byName
      {
        assert order[n] in order;
        byName := byName[rows[order[n]].tool.upstreamName := order[n]];
      }
    }

    /** The first loop: inserts and updates; false when the uniqueness constraint stops it. */
    method StoreListed(connection: string, tools: seq<Tool>, seenAt: int, initial: map<string, Id>)
      returns (ok: bool, byName: map<string, Id>, added: seq<string>, changed: seq<string>, same: seq<string>)
      requires Unique(rows) && FreshIds(tools, rows) && StillUnseen(initial, rows, connection, [])
      modifies this
      ensures ok <==> DistinctNames(tools)
      ensures ok ==>
        && Merged(old(rows), rows, connection, tools, seenAt) && StillUnseen(byName, old(rows), connection, tools)
        && added == OfKind(old(rows), connection, tools, Added)
        && changed == OfKind(old(rows), connection, tools, Changed)
        && same == OfKind(old(rows), connection, tools, Unchanged)
    {
      hide *;
      ghost var before := rows;
      byName, added, changed, same := initial, [], [], [];
      MergedNothing(rows, connection, seenAt);
      assert tools[..0] == [];
      for n := 0 to |tools|
        invariant Merged(before, rows, connection, tools[..n], seenAt) && DistinctNames(tools[..n])
        invariant StillUnseen(byName, before, connection, tools[..n])
        invariant added == OfKind(before, connection, tools[..n], Added)
        invariant changed == OfKind(before, connection, tools[..n], Changed)
        invariant same == OfKind(before, connection, tools[..n], Unchanged)
      {
        var tool := tools[n];
        NextOfKind(before, connection, tools, n);
        if tool.upstreamName !in byName {
          IdIsFresh(before, rows, connection, tools, n, seenAt);
          NotLeft(before, rows, connection, tools, n, seenAt, byName);
          ghost var merged := rows;
          var inserted := Insert(Row(connection, tool, seenAt, seenAt));
          if !inserted {
            return false, byName, added, changed, same;
          }
          InsertMerges(before, merged, connection, tools, n, seenAt);
          SeenWithoutRow(byName, before, connection, tools, n);
          added := added + [tool.gatewayName];
        } else {
          var id := byName[tool.upstreamName];
          Unseen(byName, before, connection, tools[..n], tool.upstreamName);
          StoredKind(before, connection, tool, id);
          NamedAnew(before, connection, tools, n, byName);
          SeenWithRow(byName, before, connection, tools, n);
          byName := byName - {tool.upstreamName};
          UpdateMerges(before, rows, connection, tools, n, seenAt, id);
          var previous := rows[id];
          rows := rows[id := Refreshed(previous, tool, seenAt)];
          if previous.tool.schemaHash != tool.schemaHash || previous.tool.gatewayName != tool.gatewayName {
            changed := changed + [tool.gatewayName];
          } else {
            same := same + [tool.gatewayName];
          }
        }
      }
      assert tools[..|tools|] == tools;
      ok := true;
    }

    /** The second loop: deletes what is left in the map, in the order the rows were read. */
    method DeleteStale(connection: string, order: seq<Id>, byName: map<string, Id>,
        ghost before: Rows, ghost tools: seq<Tool>, ghost seenAt: int) returns (removed: seq<string>)
      requires Enumerates(order, before, connection) && FreshIds(tools, before)
      requires Merged(before, rows, connection, tools, seenAt) && StillUnseen(byName, before, connection, tools)
      modifies this
      ensures Synced(before, rows, connection, tools, seenAt)
      ensures (forall id :: id in order ==> id in before) && removed == StaleNames(before, connection, tools, order)
    {
      ghost var merged := rows;
      removed := [];
      assert forall id :: id in order ==> id in before && before[id].connection == connection;
      assert forall m, n :: 0 <= m < n < |order| ==> order[m] != order[n];
      hide *;
      InOrderAndMerged(before, merged, connection, tools, seenAt, order, byName);
      NoStaleNames(before, connection, tools);
      assert order[..0] == [];
      ghost var gone: set<Id> := {};
      for n := 0 to |order|
        invariant rows == merged - gone
        invariant forall id :: id in gone ==> Stale(before, connection, tools, id)
        invariant forall m :: 0 <= m < n && Stale(before, connection, tools, order[m]) ==> order[m] in gone
        invariant forall m :: n <= m < |order| ==> order[m] !in gone
        invariant removed == StaleNames(before, connection, tools, order[..n])
      {
        assert order[n] in order && order[..n + 1][..n] == order[..n];
        NextStale(before, connection, tools, order, n);
        var row := rows[order[n]];
        if row.tool.upstreamName in byName {
          rows := rows - {order[n]};
          gone := gone + {order[n]};
          removed := removed + [row.tool.gatewayName];
        }
      }
      assert order[..|order|] == order;
      NothingStaleLeft(before, merged, rows, connection, tools, seenAt, order);
    }

    /**
     * syncTools. It fails, on the uniqueness constraint and half-way through, exactly
     * when the list names a tool twice.
     */
    method SyncTools(connection: string, tools: seq<Tool>, seenAt: int, order: seq<Id>) returns (report: Option<Report>)
      requires Unique(rows) && Enumerates(order, rows, connection) && FreshIds(tools, rows)
      modifies this
      ensures report.Some? <==> DistinctNames(tools)
      ensures report.Some? ==>
        && Synced(old(rows), rows, connection, tools, seenAt)
        && report.value.added == OfKind(old(rows), connection, tools, Added)
        && report.value.changed == OfKind(old(rows), connection, tools, Changed)
        && report.value.same == OfKind(old(rows), connection, tools, Unchanged)
        && (forall id :: id in order ==> id in old(rows))
        && report.value.removed == StaleNames(old(rows), connection, tools, order)
    {
      hide *;
      ghost var before := rows;
      var existing := ByUpstreamName(connection, order);
      var ok, byName, added, changed, same := StoreListed(connection, tools, seenAt, existing);
      if !ok {
        return None;
      }
      var removed := DeleteStale(connection, order, byName, before, tools, seenAt);
      report := Some(Report(added, removed, changed, same));
    }
  }

  // ----- one step of the loop --------------------------------------------------------

  lemma MergedNothing(rows: Rows, connection: string, seenAt: int)
    ensures Merged(rows, rows, connection, [], seenAt) && DistinctNames([])
    ensures forall kind :: OfKind(rows, connection, [], kind) == []
  {
  }

  lemma ListedOneMore(tools: seq<Tool>, n: nat, name: string)
    requires n < |tools|
    ensures Listed(tools[..n + 1], name) <==> Listed(tools[..n], name) || tools[n].upstreamName == name
  {
    if Listed(tools[..n], name) {
      var m :| 0 <= m < n && tools[..n][m].upstreamName == name;
      assert tools[..n + 1][m].upstreamName == name;
    }
    assert tools[..n + 1][n] == tools[n];
  }

  lemma NextOfKind(rows: Rows, connection: string, tools: seq<Tool>, n: nat)
    requires n < |tools|
    ensures forall kind :: OfKind(rows, connection, tools[..n + 1], kind)
              == OfKind(rows, connection, tools[..n], kind)
                 + if KindOf(rows, connection, tools[n]) == kind then [tools[n].gatewayName] else []
  {
    assert tools[..n + 1][..n] == tools[..n];
  }

  lemma StoredKind(rows: Rows, connection: string, tool: Tool, id: Id)
    requires Unique(rows) && id in rows && Names(rows[id], connection, tool.upstreamName)
    ensures KindOf(rows, connection, tool) ==
      if rows[id].tool.schemaHash == tool.schemaHash && rows[id].tool.gatewayName == tool.gatewayName then Unchanged else Changed
  {
  }

  lemma IdIsFresh(before: Rows, rows: Rows, connection: string, tools: seq<Tool>, n: nat, seenAt: int)
    requires n < |tools| && FreshIds(tools, before) && Merged(before, rows, connection, tools[..n], seenAt)
    ensures tools[n].id !in rows
  {
    assert tools[n].id !in rows || Origin(before, connection, tools[..n], tools[n].id);
    assert forall m :: 0 <= m < n ==> tools[..n][m].id != tools[n].id;
  }

  /** A name that is no longer in the map was either never stored, or has been seen in this list already. */
  lemma NotLeft(before: Rows, rows: Rows, connection: string, tools: seq<Tool>, n: nat, seenAt: int, byName: map<string, Id>)
    requires Unique(before) && n < |tools| && Merged(before, rows, connection, tools[..n], seenAt)
    requires DistinctNames(tools[..n])
    requires StillUnseen(byName, before, connection, tools[..n]) && tools[n].upstreamName !in byName
    ensures (forall id :: id in rows ==> !Names(rows[id], connection, tools[n].upstreamName)) <==> DistinctNames(tools[..n + 1])
    ensures DistinctNames(tools) ==> DistinctNames(tools[..n + 1])
    ensures DistinctNames(tools[..n + 1]) ==> KindOf(before, connection, tools[n]).Added?
  {
    var name, seen := tools[n].upstreamName, tools[..n];
    assert DistinctNames(tools[..n + 1]) <==> !Listed(seen, name) by {
      if Listed(seen, name) {
        var m :| 0 <= m < n && seen[m].upstreamName == name;
        assert tools[..n + 1][m].upstreamName == tools[..n + 1][n].upstreamName;
      }
      assert forall m :: 0 <= m < n ==> tools[..n + 1][m] == seen[m];
    }
    if Listed(seen, name) {
      var m :| 0 <= m < n && seen[m].upstreamName == name;
      SeenIsStored(before, rows, connection, seen, seenAt, m);
    } else {
      forall id | id in rows ensures !Names(rows[id], connection, name) {
        assert Origin(before, connection, seen, id);
        if id in before {
          assert RowKept(before, rows, connection, seen, seenAt, id);
          NamesStay(before, rows, connection, seen, seenAt, id);
        } else {
          var m :| 0 <= m < |seen| && seen[m].id == id && KindOf(before, connection, seen[m]).Added?;
          assert ToolStored(before, rows, connection, seen[m], seenAt);
        }
      }
    }
  }

  lemma NamesStay(before: Rows, rows: Rows, connection: string, tools: seq<Tool>, seenAt: int, id: Id)
    requires id in before && RowKept(before, rows, connection, tools, seenAt, id)
    ensures rows[id].connection == before[id].connection && rows[id].tool.upstreamName == before[id].tool.upstreamName
    ensures rows[id].tool.id == before[id].tool.id && rows[id].tool.enabled == before[id].tool.enabled
    ensures rows[id].discoveredAt == before[id].discoveredAt
  {
    if before[id].connection == connection && Listed(tools, before[id].tool.upstreamName) {
      var n :| 0 <= n < |tools| && tools[n].upstreamName == before[id].tool.upstreamName;
    }
  }

  lemma SeenIsStored(before: Rows, rows: Rows, connection: string, tools: seq<Tool>, seenAt: int, m: nat)
    requires Merged(before, rows, connection, tools, seenAt) && m < |tools|
    ensures exists id :: id in rows && Names(rows[id], connection, tools[m].upstreamName)
  {
    if KindOf(before, connection, tools[m]).Added? {
      assert ToolStored(before, rows, connection, tools[m], seenAt);
      assert Names(rows[tools[m].id], connection, tools[m].upstreamName);
    } else {
      var id :| id in before && Names(before[id], connection, tools[m].upstreamName);
      assert RowKept(before, rows, connection, tools, seenAt, id);
      NamesStay(before, rows, connection, tools, seenAt, id);
      assert Names(rows[id], connection, tools[m].upstreamName);
    }
  }

  /** A name still in the map has not been seen in this list before. */
  lemma NamedAnew(before: Rows, connection: string, tools: seq<Tool>, n: nat, byName: map<string, Id>)
    requires n < |tools| && DistinctNames(tools[..n]) && StillUnseen(byName, before, connection, tools[..n])
    requires tools[n].upstreamName in byName
    ensures DistinctNames(tools[..n + 1])
  {
    var more, seen := tools[..n + 1], tools[..n];
    forall m, k | 0 <= m < k < |more| ensures more[m].upstreamName != more[k].upstreamName {
      assert seen[m].upstreamName != tools[n].upstreamName;
      if k < n { assert more[k] == seen[k]; }
    }
  }

  lemma Unseen(byName: map<string, Id>, rows: Rows, connection: string, tools: seq<Tool>, name: string)
    requires StillUnseen(byName, rows, connection, tools) && name in byName
    ensures byName[name] in rows && Names(rows[byName[name]], connection, name) && !Listed(tools, name)
  {
  }

  lemma SeenWithoutRow(byName: map<string, Id>, before: Rows, connection: string, tools: seq<Tool>, n: nat)
    requires n < |tools| && tools[n].upstreamName !in byName && StillUnseen(byName, before, connection, tools[..n])
    ensures StillUnseen(byName, before, connection, tools[..n + 1])
  {
    forall name ensures Listed(tools[..n + 1], name) <==> Listed(tools[..n], name) || tools[n].upstreamName == name {
      ListedOneMore(tools, n, name);
    }
    hide Listed;
  }

  lemma SeenWithRow(byName: map<string, Id>, before: Rows, connection: string, tools: seq<Tool>, n: nat)
    requires n < |tools| && StillUnseen(byName, before, connection, tools[..n])
    ensures StillUnseen(byName - {tools[n].upstreamName}, before, connection, tools[..n + 1])
  {
    forall name ensures Listed(tools[..n + 1], name) <==> Listed(tools[..n], name) || tools[n].upstreamName == name {
      ListedOneMore(tools, n, name);
    }
    hide Listed;
  }

  lemma InsertMerges(before: Rows, rows: Rows, connection: string, tools: seq<Tool>, n: nat, seenAt: int)
    requires n < |tools| && FreshIds(tools, before) && Merged(before, rows, connection, tools[..n], seenAt)
    requires KindOf(before, connection, tools[n]).Added?
    ensures Merged(before, rows[tools[n].id := Row(connection, tools[n], seenAt, seenAt)], connection, tools[..n + 1], seenAt)
  {
    var tool, seen, more := tools[n], tools[..n], tools[..n + 1];
    var after := rows[tool.id := Row(connection, tool, seenAt, seenAt)];
    assert more == seen + [tool];
    forall id | id in before ensures RowKept(before, after, connection, more, seenAt, id) {
      assert RowKept(before, rows, connection, seen, seenAt, id);
      ListedOneMore(tools, n, before[id].tool.upstreamName);
      assert !Names(before[id], connection, tool.upstreamName);
    }
    forall m | 0 <= m < |more| ensures ToolStored(before, after, connection, more[m], seenAt) {
      if m < n { assert more[m] == seen[m] && ToolStored(before, rows, connection, seen[m], seenAt); }
    }
    forall id | id in after ensures Origin(before, connection, more, id) {
      if id == tool.id { assert more[n].id == id; } else { OriginStays(before, connection, tools, n, id); }
    }
  }

  lemma OriginStays(before: Rows, connection: string, tools: seq<Tool>, n: nat, id: Id)
    requires n < |tools| && Origin(before, connection, tools[..n], id)
    ensures Origin(before, connection, tools[..n + 1], id)
  {
    if id !in before {
      var m :| 0 <= m < n && tools[..n][m].id == id && KindOf(before, connection, tools[..n][m]).Added?;
      assert tools[..n + 1][m] == tools[..n][m];
    }
  }

  lemma UpdateMerges(before: Rows, rows: Rows, connection: string, tools: seq<Tool>, n: nat, seenAt: int, id: Id)
    requires Unique(before) && n < |tools| && FreshIds(tools, before)
    requires Merged(before, rows, connection, tools[..n], seenAt)
    requires id in before && Names(before[id], connection, tools[n].upstreamName) && !Listed(tools[..n], tools[n].upstreamName)
    ensures id in rows && rows[id] == before[id]
    ensures Merged(before, rows[id := Refreshed(rows[id], tools[n], seenAt)], connection, tools[..n + 1], seenAt)
  {
    var tool, seen, more := tools[n], tools[..n], tools[..n + 1];
    assert RowKept(before, rows, connection, seen, seenAt, id);
    var after := rows[id := Refreshed(rows[id], tool, seenAt)];
    assert more == seen + [tool];
    forall i | i in before ensures RowKept(before, after, connection, more, seenAt, i) {
      assert RowKept(before, rows, connection, seen, seenAt, i);
      ListedOneMore(tools, n, before[i].tool.upstreamName);
      if i == id {
        forall m | 0 <= m < n ensures more[m].upstreamName != tool.upstreamName { assert more[m] == seen[m]; }
      }
    }
    forall m | 0 <= m < |more| ensures ToolStored(before, after, connection, more[m], seenAt) {
      if m < n {
        assert more[m] == seen[m] && ToolStored(before, rows, connection, seen[m], seenAt);
        assert more[m].id == tools[m].id;
      } else {
        StoredKind(before, connection, tool, id);
      }
    }
    forall i | i in after ensures Origin(before, connection, more, i) { OriginStays(before, connection, tools, n, i); }
  }

  /** Whatever is left in the map when the list is done belongs to a row that is stale. */
  lemma LeftIsStale(byName: map<string, Id>, before: Rows, connection: string, tools: seq<Tool>, id: Id)
    requires StillUnseen(byName, before, connection, tools) && id in before && before[id].connection == connection
    ensures before[id].tool.upstreamName in byName <==> Stale(before, connection, tools, id)
  {
  }

  lemma NoStaleNames(rows: Rows, connection: string, tools: seq<Tool>)
    ensures StaleNames(rows, connection, tools, []) == []
  {
  }

  lemma NextStale(rows: Rows, connection: string, tools: seq<Tool>, order: seq<Id>, n: nat)
    requires n < |order| && forall id :: id in order ==> id in rows
    ensures StaleNames(rows, connection, tools, order[..n + 1]) == StaleNames(rows, connection, tools, order[..n])
      + if Stale(rows, connection, tools, order[n]) then [rows[order[n]].tool.gatewayName] else []
  {
    assert order[n] in order && order[..n + 1][..n] == order[..n];
    hide Stale;
  }

  /** What the second loop needs of every row the database returned. */
  lemma InOrderAndMerged(before: Rows, merged: Rows, connection: string, tools: seq<Tool>, seenAt: int, order: seq<Id>,
      byName: map<string, Id>)
    requires Enumerates(order, before, connection) && Merged(before, merged, connection, tools, seenAt)
    requires StillUnseen(byName, before, connection, tools)
    ensures forall id :: id in order ==> id in before && id in merged
    ensures forall id :: id in order ==> (merged[id].tool.upstreamName in byName <==> Stale(before, connection, tools, id))
    ensures forall id :: id in order && Stale(before, connection, tools, id) ==> merged[id] == before[id]
  {
    forall id | id in order
      ensures id in before && id in merged
      ensures merged[id].tool.upstreamName in byName <==> Stale(before, connection, tools, id)
      ensures Stale(before, connection, tools, id) ==> merged[id] == before[id]
    {
      assert RowKept(before, merged, connection, tools, seenAt, id);
      NamesStay(before, merged, connection, tools, seenAt, id);
      LeftIsStale(byName, before, connection, tools, id);
    }
  }

  lemma NothingStaleLeft(before: Rows, merged: Rows, rows: Rows, connection: string, tools: seq<Tool>, seenAt: int, order: seq<Id>)
    requires Merged(before, merged, connection, tools, seenAt) && Enumerates(order, before, connection) && FreshIds(tools, before)
    requires rows.Keys <= merged.Keys && forall id :: id in rows ==> rows[id] == merged[id]
    requires forall id :: id in merged && id !in rows ==> Stale(before, connection, tools, id)
    requires forall m :: 0 <= m < |order| && Stale(before, connection, tools, order[m]) ==> order[m] !in rows
    ensures Synced(before, rows, connection, tools, seenAt)
  {
    forall id | id in before && !Stale(before, connection, tools, id) ensures RowKept(before, rows, connection, tools, seenAt, id) {
      assert RowKept(before, merged, connection, tools, seenAt, id);
    }
    forall n | 0 <= n < |tools| ensures ToolStored(before, rows, connection, tools[n], seenAt) {
      assert ToolStored(before, merged, connection, tools[n], seenAt);
    }
    forall id | Stale(before, connection, tools, id) ensures id !in rows {
      assert id in order;
      var m :| 0 <= m < |order| && order[m] == id;
    }
  }

  // ----- what a finished sync means --------------------------------------------------

  /** The connection's rows have exactly the listed names, one row each. */
  lemma RowsAreTheListedTools(before: Rows, after: Rows, connection: string, tools: seq<Tool>, seenAt: int)
    requires Unique(before) && FreshIds(tools, before) && DistinctNames(tools) && Synced(before, after, connection, tools, seenAt)
    ensures Unique(after)
    ensures forall name :: Listed(tools, name) <==> exists id :: id in after && Names(after[id], connection, name)
    ensures forall id :: id in after && after[id].connection == connection ==> after[id].lastSeenAt == seenAt
  {
    hide Unique;
    forall id | id in after
      ensures after[id].tool.id == id && (after[id].connection == connection ==> after[id].lastSeenAt == seenAt)
      ensures after[id].connection == connection ==> Listed(tools, after[id].tool.upstreamName)
    {
      RowAfter(before, after, connection, tools, seenAt, id);
    }
    forall name | Listed(tools, name) ensures exists id :: id in after && Names(after[id], connection, name) {
      var n :| 0 <= n < |tools| && tools[n].upstreamName == name;
      ToolHasRow(before, after, connection, tools, seenAt, n);
    }
    forall i, j | i in after && j in after && after[i].connection == after[j].connection
      && after[i].tool.upstreamName == after[j].tool.upstreamName
      ensures i == j
    {
      SameNameSameRow(before, after, connection, tools, seenAt, i, j);
    }
    UniqueWhen(after);
  }

  lemma UniqueWhen(rows: Rows)
    requires forall id :: id in rows ==> rows[id].tool.id == id
    requires forall i, j ::
      (i in rows && j in rows && rows[i].connection == rows[j].connection
        && rows[i].tool.upstreamName == rows[j].tool.upstreamName) ==> i == j
    ensures Unique(rows)
  {
  }

  /** A row after a sync is an old one that was kept, or that of a listed tool nobody had stored. */
  lemma RowAfter(before: Rows, after: Rows, connection: string, tools: seq<Tool>, seenAt: int, id: Id)
    requires Unique(before) && Synced(before, after, connection, tools, seenAt) && id in after
    ensures after[id].tool.id == id
    ensures after[id].connection == connection ==>
      Listed(tools, after[id].tool.upstreamName) && after[id].lastSeenAt == seenAt
    ensures id in before ==>
      after[id].connection == before[id].connection && after[id].tool.upstreamName == before[id].tool.upstreamName
    ensures id !in before ==> exists n ::
      (0 <= n < |tools| && tools[n].id == id && after[id] == Row(connection, tools[n], seenAt, seenAt)
        && KindOf(before, connection, tools[n]).Added?)
  {
    assert Origin(before, connection, tools, id);
    if id in before {
      assert RowKept(before, after, connection, tools, seenAt, id);
      NamesStay(before, after, connection, tools, seenAt, id);
      if before[id].connection == connection {
        var n :| 0 <= n < |tools| && tools[n].upstreamName == before[id].tool.upstreamName;
      }
    } else {
      var n :| 0 <= n < |tools| && tools[n].id == id && KindOf(before, connection, tools[n]).Added?;
      assert ToolStored(before, after, connection, tools[n], seenAt);
    }
  }

  lemma ToolHasRow(before: Rows, after: Rows, connection: string, tools: seq<Tool>, seenAt: int, n: nat)
    requires Synced(before, after, connection, tools, seenAt) && n < |tools|
    ensures exists id :: id in after && Names(after[id], connection, tools[n].upstreamName)
  {
    if KindOf(before, connection, tools[n]).Added? {
      assert ToolStored(before, after, connection, tools[n], seenAt);
      assert Names(after[tools[n].id], connection, tools[n].upstreamName);
    } else {
      var id :| id in before && Names(before[id], connection, tools[n].upstreamName);
      assert Listed(tools, tools[n].upstreamName);
      assert RowKept(before, after, connection, tools, seenAt, id);
      NamesStay(before, after, connection, tools, seenAt, id);
      assert Names(after[id], connection, tools[n].upstreamName);
    }
  }

  /** A row that was inserted has a name nobody had before. */
  lemma NewAndOldDiffer(before: Rows, after: Rows, connection: string, tools: seq<Tool>, seenAt: int, i: Id, j: Id)
    requires Unique(before) && Synced(before, after, connection, tools, seenAt)
    requires i in after && j in after && i !in before && j in before
    ensures after[i].connection != after[j].connection || after[i].tool.upstreamName != after[j].tool.upstreamName
  {
    RowAfter(before, after, connection, tools, seenAt, i);
    RowAfter(before, after, connection, tools, seenAt, j);
    hide Synced, Unique, Listed;
    var n :| 0 <= n < |tools| && tools[n].id == i && after[i] == Row(connection, tools[n], seenAt, seenAt)
      && KindOf(before, connection, tools[n]).Added?;
    assert !Names(before[j], connection, tools[n].upstreamName);
  }

  lemma SameNameSameRow(before: Rows, after: Rows, connection: string, tools: seq<Tool>, seenAt: int, i: Id, j: Id)
    requires Unique(before) && DistinctNames(tools) && Synced(before, after, connection, tools, seenAt)
    requires i in after && j in after && after[i].connection == after[j].connection
    requires after[i].tool.upstreamName == after[j].tool.upstreamName
    ensures i == j
  {
    hide Synced, Listed, KindOf;
    RowAfter(before, after, connection, tools, seenAt, i);
    RowAfter(before, after, connection, tools, seenAt, j);
    if i !in before && j in before { NewAndOldDiffer(before, after, connection, tools, seenAt, i, j); }
    if i in before && j !in before { NewAndOldDiffer(before, after, connection, tools, seenAt, j, i); }
  }

  /** A surviving row keeps its id and what the operator set; other connections' rows are untouched. */
  lemma SurvivorsKeepTheirSwitch(before: Rows, after: Rows, connection: string, tools: seq<Tool>, seenAt: int, id: Id)
    requires Synced(before, after, connection, tools, seenAt) && FreshIds(tools, before) && id in before
    ensures id in after <==> before[id].connection != connection || Listed(tools, before[id].tool.upstreamName)
    ensures before[id].connection != connection ==> after[id] == before[id]
    ensures id in after ==>
      && after[id].tool.upstreamName == before[id].tool.upstreamName
      && after[id].tool.enabled == before[id].tool.enabled && after[id].discoveredAt == before[id].discoveredAt
  {
    if !Stale(before, connection, tools, id) {
      assert RowKept(before, after, connection, tools, seenAt, id);
      NamesStay(before, after, connection, tools, seenAt, id);
    }
  }

  /**
   * What is stored for a tool that had a row: the row as it was when hash and name agree,
   * else with every column as listed; and how it is reported.
   */
  lemma StoredToolIsUpdated(before: Rows, after: Rows, connection: string, tools: seq<Tool>, seenAt: int, n: nat, id: Id)
    requires Unique(before) && Synced(before, after, connection, tools, seenAt) && n < |tools|
    requires id in before && before[id].connection == connection && before[id].tool.upstreamName == tools[n].upstreamName
    ensures id in after && after[id].connection == connection && after[id].discoveredAt == before[id].discoveredAt
    ensures after[id].lastSeenAt == seenAt
    ensures after[id].tool ==
      if before[id].tool.schemaHash == tools[n].schemaHash && before[id].tool.gatewayName == tools[n].gatewayName
      then before[id].tool
      else Tool(before[id].tool.id, tools[n].upstreamName, tools[n].gatewayName, tools[n].definition, tools[n].schemaHash,
                tools[n].riskLevel, before[id].tool.enabled)
    ensures KindOf(before, connection, tools[n]) ==
      if before[id].tool.schemaHash == tools[n].schemaHash && before[id].tool.gatewayName == tools[n].gatewayName
      then Unchanged else Changed
  {
    assert Listed(tools, before[id].tool.upstreamName);
    assert RowKept(before, after, connection, tools, seenAt, id);
    assert Names(before[id], connection, tools[n].upstreamName);
    StoredKind(before, connection, tools[n], id);
    hide Unique, Synced, Listed;
  }

  /** What is stored for a tool that had no row: exactly what is listed, seen for the first time. */
  lemma NewToolIsInserted(before: Rows, after: Rows, connection: string, tools: seq<Tool>, seenAt: int, n: nat)
    requires Synced(before, after, connection, tools, seenAt) && n < |tools|
    requires forall id :: id in before && before[id].connection == connection ==>
      before[id].tool.upstreamName != tools[n].upstreamName
    ensures tools[n].id in after && after[tools[n].id] == Row(connection, tools[n], seenAt, seenAt)
    ensures KindOf(before, connection, tools[n]).Added?
  {
    assert forall id :: id in before ==> !Names(before[id], connection, tools[n].upstreamName);
    assert ToolStored(before, after, connection, tools[n], seenAt);
  }

  /** A stored tool says what is listed; a new one says all of it. */
  predicate Says(stored: Tool, tool: Tool, known: bool) {
    && stored.upstreamName == tool.upstreamName && stored.schemaHash == tool.schemaHash && stored.gatewayName == tool.gatewayName
    && (!known ==> stored == tool)
  }

  /** Every row of the connection says what the listing says of its tool; a new row says all of it. */
  lemma RowSaysListing(before: Rows, after: Rows, connection: string, tools: seq<Tool>, seenAt: int, id: Id)
    requires Unique(before) && Synced(before, after, connection, tools, seenAt)
    requires id in after && after[id].connection == connection
    ensures exists n :: 0 <= n < |tools| && Says(after[id].tool, tools[n], id in before)
  {
    RowAfter(before, after, connection, tools, seenAt, id);
    if id in before {
      var n :| 0 <= n < |tools| && tools[n].upstreamName == after[id].tool.upstreamName;
      hide Synced, Unique;
      StoredToolIsUpdated(before, after, connection, tools, seenAt, n, id);
      assert Says(after[id].tool, tools[n], true);
    } else {
      var n :| 0 <= n < |tools| && tools[n].id == id && after[id] == Row(connection, tools[n], seenAt, seenAt)
        && KindOf(before, connection, tools[n]).Added?;
      assert Says(after[id].tool, tools[n], false);
    }
  }

  /** Added, changed and unchanged share out the new list: every name lands in exactly one, in order. */
  lemma {:induction false} ReportSharesOutTheList(rows: Rows, connection: string, tools: seq<Tool>)
    ensures multiset(OfKind(rows, connection, tools, Added)) + multiset(OfKind(rows, connection, tools, Changed))
            + multiset(OfKind(rows, connection, tools, Unchanged)) == multiset(GatewayNames(tools))
  {
    hide KindOf;
    if tools != [] {
      ReportSharesOutTheList(rows, connection, tools[..|tools| - 1]);
    }
  }

  function GatewayNames(tools: seq<Tool>): seq<string> {
    if tools == [] then [] else GatewayNames(tools[..|tools| - 1]) + [tools[|tools| - 1].gatewayName]
  }

  /** Two listings say the same about every tool. */
  predicate SameListing(a: seq<Tool>, b: seq<Tool>) {
    && |a| == |b|
    && forall n :: 0 <= n < |a| ==>
         a[n].upstreamName == b[n].upstreamName && a[n].gatewayName == b[n].gatewayName && a[n].schemaHash == b[n].schemaHash
  }

  /** Syncing the same listing again reports every tool unchanged and nothing added, changed or removed. */
  lemma RepeatedSyncChangesNothing(before: Rows, after: Rows, connection: string, tools: seq<Tool>, seenAt: int,
      again: seq<Tool>, order: seq<Id>)
    requires Unique(before) && FreshIds(tools, before) && DistinctNames(tools) && Synced(before, after, connection, tools, seenAt)
    requires SameListing(tools, again) && Enumerates(order, after, connection)
    ensures forall id :: id in order ==> id in after
    ensures OfKind(after, connection, again, Added) == [] && OfKind(after, connection, again, Changed) == []
    ensures OfKind(after, connection, again, Unchanged) == GatewayNames(again)
    ensures StaleNames(after, connection, again, order) == []
  {
    RowsAreTheListedTools(before, after, connection, tools, seenAt);
    forall n | 0 <= n < |again| ensures KindOf(after, connection, again[n]) == Unchanged {
      ToolHasRow(before, after, connection, tools, seenAt, n);
      StoredAsListed(before, after, connection, tools, seenAt, n);
    }
    AllUnchanged(after, connection, again);
    forall id | id in after && after[id].connection == connection ensures Listed(again, after[id].tool.upstreamName) {
      RowAfter(before, after, connection, tools, seenAt, id);
      var n :| 0 <= n < |tools| && tools[n].upstreamName == after[id].tool.upstreamName;
      assert again[n].upstreamName == after[id].tool.upstreamName;
    }
    NothingStale(after, connection, again, order);
  }

  lemma StoredAsListed(before: Rows, after: Rows, connection: string, tools: seq<Tool>, seenAt: int, n: nat)
    requires Unique(before) && DistinctNames(tools) && Synced(before, after, connection, tools, seenAt) && n < |tools|
    ensures forall id :: id in after && Names(after[id], connection, tools[n].upstreamName) ==> SameDefinition(after[id], tools[n])
  {
    forall id | id in after && Names(after[id], connection, tools[n].upstreamName) ensures SameDefinition(after[id], tools[n]) {
      RowAfter(before, after, connection, tools, seenAt, id);
      if id in before {
        assert RowKept(before, after, connection, tools, seenAt, id);
        assert after[id] == Refreshed(before[id], tools[n], seenAt);
      }
    }
  }

  lemma {:induction false} AllUnchanged(rows: Rows, connection: string, tools: seq<Tool>)
    requires forall n :: 0 <= n < |tools| ==> KindOf(rows, connection, tools[n]) == Unchanged
    ensures OfKind(rows, connection, tools, Added) == [] && OfKind(rows, connection, tools, Changed) == []
    ensures OfKind(rows, connection, tools, Unchanged) == GatewayNames(tools)
  {
    hide KindOf;
    if tools != [] { AllUnchanged(rows, connection, tools[..|tools| - 1]); }
  }

  lemma {:induction false} NothingStale(rows: Rows, connection: string, tools: seq<Tool>, order: seq<Id>)
    requires forall id :: id in order ==> id in rows
    requires forall id :: id in rows && rows[id].connection == connection ==> Listed(tools, rows[id].tool.upstreamName)
    ensures StaleNames(rows, connection, tools, order) == []
  {
    if order != [] { NothingStale(rows, connection, tools, order[..|order| - 1]); }
  }

  // ----- the listing before the sync -------------------------------------------------

  /** The first entry of each identity, in listing order. */
  function Firsts<T>(items: seq<T>, identity: T -> string): seq<T> {
    if items == [] then []
    else
      var earlier, last := items[..|items| - 1], items[|items| - 1];
      Firsts(earlier, identity) + if Has(earlier, identity, identity(last)) then [] else [last]
  }

  predicate Has<T>(items: seq<T>, identity: T -> string, key: string) {
    exists n :: 0 <= n < |items| && identity(items[n]) == key
  }

  /** firstOfEach. */
  method FirstOfEach<T>(items: seq<T>, identity: T -> string) returns (kept: seq<T>)
    ensures kept == Firsts(items, identity)
  {
    var seen: set<string> := {};
    kept := [];
    for n := 0 to |items|
      invariant kept == Firsts(items[..n], identity)
      invariant forall key :: key in seen <==> Has(items[..n], identity, key)
    {
      var key := identity(items[n]);
      HasOneMore(items, identity, n);
      assert items[..n + 1][..n] == items[..n];
      if key !in seen {
        seen := seen + {key};
        kept := kept + [items[n]];
      }
    }
    assert items[..|items|] == items;
  }

  lemma HasOneMore<T>(items: seq<T>, identity: T -> string, n: nat)
    requires n < |items|
    ensures forall key :: Has(items[..n + 1], identity, key) <==> Has(items[..n], identity, key) || key == identity(items[n])
  {
    var more, seen := items[..n + 1], items[..n];
    assert more[n] == items[n];
    forall key | Has(seen, identity, key) ensures Has(more, identity, key) {
      var m :| 0 <= m < n && identity(seen[m]) == key;
      assert more[m] == seen[m];
    }
    forall key | Has(more, identity, key) && key != identity(items[n]) ensures Has(seen, identity, key) {
      var m :| 0 <= m <= n && identity(more[m]) == key;
      assert seen[m] == more[m];
    }
  }

  lemma HasAppended<T>(items: seq<T>, identity: T -> string, last: T)
    ensures forall key :: Has(items + [last], identity, key) <==> Has(items, identity, key) || key == identity(last)
  {
    var all := items + [last];
    HasOneMore(all, identity, |items|);
    hide Has;
    assert all[..|items| + 1] == all && all[..|items|] == items && all[|items|] == last;
  }

  /** One entry is kept of every identity. */
  lemma {:induction false} FirstsAreDistinct<T>(items: seq<T>, identity: T -> string)
    ensures var kept := Firsts(items, identity);
            && (forall m, n :: 0 <= m < n < |kept| ==> identity(kept[m]) != identity(kept[n]))
            && (forall key :: Has(kept, identity, key) <==> Has(items, identity, key))
  {
    if items != [] {
      var earlier, last := items[..|items| - 1], items[|items| - 1];
      FirstsAreDistinct(earlier, identity);
      assert items == earlier + [last];
      HasAppended(earlier, identity, last);
      var before, kept := Firsts(earlier, identity), Firsts(items, identity);
      if Has(earlier, identity, identity(last)) {
        hide Has;
        assert kept == before + [] == before;
      } else {
        assert kept == before + [last];
        forall m | 0 <= m < |before| ensures identity(before[m]) != identity(last) {
          assert Has(before, identity, identity(before[m]));
        }
        HasAppended(before, identity, last);
        hide Has;
      }
    }
  }

  /** It is the first that was listed under its identity. */
  lemma {:induction false} FirstsAreFirst<T>(items: seq<T>, identity: T -> string, m: nat)
    requires m < |Firsts(items, identity)|
    ensures exists n :: 0 <= n < |items| && items[n] == Firsts(items, identity)[m]
              && !Has(items[..n], identity, identity(items[n]))
  {
    hide Has;
    var earlier := items[..|items| - 1];
    var before := Firsts(earlier, identity);
    if m < |before| {
      FirstsAreFirst(earlier, identity, m);
      var n :| 0 <= n < |earlier| && earlier[n] == before[m] && !Has(earlier[..n], identity, identity(earlier[n]));
      assert items[n] == earlier[n] && items[..n] == earlier[..n];
    } else {
      assert items[|items| - 1] == Firsts(items, identity)[m];
    }
  }

  /** An entry of the upstream's tool list. */
  datatype Offered = Offered(name: string, definition: string, schemaHash: string, riskLevel: string, exposed: bool)

  function NameOf(o: Offered): string {
    o.name
  }

  /** A row's tool says what is offered under its name, and is named under the alias; a new one says all of it. */
  ghost predicate SaysOffered(tool: Tool, alias: string, offered: seq<Offered>, known: bool) {
    && alias + "." <= tool.gatewayName
    && exists n ::
         && 0 <= n < |offered| && offered[n].name == tool.upstreamName && offered[n].schemaHash == tool.schemaHash
         && (!known ==> offered[n] == Offered(offered[n].name, tool.definition, tool.schemaHash, tool.riskLevel, tool.enabled))
  }

  /** The tools to store are the entries that are kept, in order, under new ids and names below the alias. */
  ghost predicate NamesTools(tools: seq<Tool>, first: seq<Offered>, newIds: seq<Id>, alias: string) {
    && |tools| == |first| <= |newIds|
    && forall n :: 0 <= n < |tools| ==>
         && alias + "." <= tools[n].gatewayName
         && tools[n] == Tool(newIds[n], first[n].name, tools[n].gatewayName, first[n].definition, first[n].schemaHash,
                             first[n].riskLevel, first[n].exposed)
  }

  lemma NamesAreListed(tools: seq<Tool>, first: seq<Offered>, newIds: seq<Id>, alias: string)
    requires NamesTools(tools, first, newIds, alias)
    ensures forall name :: Listed(tools, name) <==> Has(first, NameOf, name)
    ensures (forall m, n :: 0 <= m < n < |first| ==> NameOf(first[m]) != NameOf(first[n])) ==> DistinctNames(tools)
  {
    assert forall n :: 0 <= n < |tools| ==> tools[n].upstreamName == NameOf(first[n]);
    hide NamesTools, NameOf;
    forall name | Has(first, NameOf, name) ensures Listed(tools, name) {
      var n :| 0 <= n < |first| && NameOf(first[n]) == name;
      assert tools[n].upstreamName == name;
    }
    forall name | Listed(tools, name) ensures Has(first, NameOf, name) {
      var n :| 0 <= n < |tools| && tools[n].upstreamName == name;
      assert NameOf(first[n]) == name;
    }
  }

  lemma NewIdsAreFresh(tools: seq<Tool>, first: seq<Offered>, newIds: seq<Id>, alias: string, rows: Rows)
    requires NamesTools(tools, first, newIds, alias)
    requires forall n :: 0 <= n < |newIds| ==> newIds[n] !in rows
    requires forall m, n :: 0 <= m < n < |newIds| ==> newIds[m] != newIds[n]
    ensures FreshIds(tools, rows)
  {
  }

  lemma RowsSayOffered(before: Rows, after: Rows, connection: string, alias: string, first: seq<Offered>, newIds: seq<Id>,
      tools: seq<Tool>, seenAt: int, id: Id)
    requires Unique(before) && Synced(before, after, connection, tools, seenAt) && NamesTools(tools, first, newIds, alias)
    requires id in after && after[id].connection == connection
    ensures SaysOffered(after[id].tool, alias, first, id in before)
  {
    hide Unique, Synced;
    RowSaysListing(before, after, connection, tools, seenAt, id);
    var n :| 0 <= n < |tools| && Says(after[id].tool, tools[n], id in before);
    assert first[n].name == tools[n].upstreamName;
  }

  /** One row for every name that is offered, each saying what is offered first under it; the rest is untouched. */
  ghost predicate Mirrors(before: Rows, after: Rows, connection: string, alias: string, offered: seq<Offered>, seenAt: int) {
    && Unique(after)
    && (forall name :: Has(offered, NameOf, name) <==> exists id :: id in after && Names(after[id], connection, name))
    && (forall id :: id in before && before[id].connection != connection ==> id in after && after[id] == before[id])
    && (forall id :: id in after && after[id].connection == connection ==>
          after[id].lastSeenAt == seenAt && SaysOffered(after[id].tool, alias, Firsts(offered, NameOf), id in before))
  }

  lemma SyncMirrors(before: Rows, after: Rows, connection: string, alias: string, offered: seq<Offered>, newIds: seq<Id>,
      tools: seq<Tool>, seenAt: int)
    requires Unique(before) && FreshIds(tools, before) && DistinctNames(tools) && Synced(before, after, connection, tools, seenAt)
    requires NamesTools(tools, Firsts(offered, NameOf), newIds, alias)
    ensures Mirrors(before, after, connection, alias, offered, seenAt)
  {
    hide Unique, FreshIds, DistinctNames, Synced, NamesTools, Firsts, Has, Listed, Names, SaysOffered;
    FirstsAreDistinct(offered, NameOf);
    NamesAreListed(tools, Firsts(offered, NameOf), newIds, alias);
    RowsAreTheListedTools(before, after, connection, tools, seenAt);
    forall id | id in after && after[id].connection == connection
      ensures SaysOffered(after[id].tool, alias, Firsts(offered, NameOf), id in before)
    {
      RowsSayOffered(before, after, connection, alias, Firsts(offered, NameOf), newIds, tools, seenAt, id);
    }
    forall id | id in before && before[id].connection != connection ensures id in after && after[id] == before[id] {
      SurvivorsKeepTheirSwitch(before, after, connection, tools, seenAt, id);
    }
  }

  /** The tools syncCatalogue hands to the store: repeats are dropped, the rest is named. */
  method NameTools(alias: string, offered: seq<Offered>, newIds: seq<Id>, digest: string -> string) returns (tools: seq<Tool>)
    requires Naming.ValidAlias(alias) && (forall s :: Naming.Hex(digest(s), 8)) && |offered| < Naming.MAX_ATTEMPT - 1
    requires |newIds| == |offered|
    ensures NamesTools(tools, Firsts(offered, NameOf), newIds, alias)
  {
    var nameOf := NameOf;
    var first := FirstOfEach(offered, nameOf);
    FirstsAreFewer(offered, nameOf);
    hide Firsts, Naming.ValidAlias, Naming.Hex;
    var upstreamNames := seq(|first|, n requires 0 <= n < |first| => first[n].name);
    var gatewayNames := Naming.AssignToolNames(alias, upstreamNames, digest);
    tools := seq(|first|, n requires 0 <= n < |first| =>
      Tool(newIds[n], first[n].name, gatewayNames[n], first[n].definition, first[n].schemaHash, first[n].riskLevel,
           first[n].exposed));
  }

  /**
   * The tool half of syncCatalogue: repeats are dropped, the rest named and stored.
   * Whatever the upstream lists, the store accepts it, and the connection mirrors the list.
   */
  method SyncCatalogue(table: ToolTable, connection: string, alias: string, offered: seq<Offered>, newIds: seq<Id>,
      digest: string -> string, seenAt: int, order: seq<Id>) returns (report: Option<Report>)
    requires Unique(table.rows) && Enumerates(order, table.rows, connection)
    requires Naming.ValidAlias(alias) && (forall s :: Naming.Hex(digest(s), 8)) && |offered| < Naming.MAX_ATTEMPT - 1
    requires |newIds| == |offered| && (forall n :: 0 <= n < |newIds| ==> newIds[n] !in table.rows)
    requires forall m, n :: 0 <= m < n < |newIds| ==> newIds[m] != newIds[n]
    modifies table
    ensures report.Some? && Mirrors(old(table.rows), table.rows, connection, alias, offered, seenAt)
  {
    hide *;
    ghost var before := table.rows;
    var tools := NameTools(alias, offered, newIds, digest);
    NewIdsAreFresh(tools, Firsts(offered, NameOf), newIds, alias, before);
    FirstsAreDistinct(offered, NameOf);
    NamesAreListed(tools, Firsts(offered, NameOf), newIds, alias);
    report := table.SyncTools(connection, tools, seenAt, order);
    SyncMirrors(before, table.rows, connection, alias, offered, newIds, tools, seenAt);
  }

  lemma {:induction false} FirstsAreFewer<T>(items: seq<T>, identity: T -> string)
    ensures |Firsts(items, identity)| <= |items|
  {
    if items != [] { FirstsAreFewer(items[..|items| - 1], identity); }
  }
}
