/**
 * What the focused and the enhanced parsers share (final_lineage_parser.py
 * and enhanced_lineage_parser.py build these the same way): the schema's
 * table-to-columns and column-to-table maps, the column flows sqllineage and
 * the C# metadata contribute, and the flow graph a path search reads.
 */
module ColumnFlows {
  import opened Strings
  import opened Common

  /** One table of the schema with its column names, in file order. */
  datatype SchemaTable = SchemaTable(name: string, columns: seq<string>)

  /** One `real_to_real` entry of the C# metadata; `None` is a missing key. */
  datatype MetaLineage = MetaLineage(sourceTable: Option<string>, sourceColumn: Option<string>,
                                     targetTable: Option<string>, targetColumn: Option<string>)

  // ------------------------------------------------------ table-column map

  function LowerAll(xs: seq<string>): (r: seq<string>)
    ensures |r| == |xs| && forall i :: 0 <= i < |xs| ==> r[i] == Lower(xs[i])
  {
    seq(|xs|, i requires 0 <= i < |xs| => Lower(xs[i]))
  }

  /** `table_column_map` after the schema pass: each lower-cased table name
      to its lower-cased columns; a later table of the same lower-cased name
      replaces an earlier one. */
  function TableColumnsOf(m: map<string, seq<string>>, schema: seq<SchemaTable>): map<string, seq<string>> {
    if schema == [] then m
    else
      var t := schema[|schema| - 1];
      TableColumnsOf(m, schema[..|schema| - 1])[Lower(t.name) := LowerAll(t.columns)]
  }

  /** The inner loop: each column key of one table to that table. */
  function KeysOf(m: map<string, string>, table: string, columns: seq<string>): map<string, string> {
    if columns == [] then m
    else KeysOf(m, table, columns[..|columns| - 1])[table + "." + Lower(columns[|columns| - 1]) := table]
  }

  /** `column_table_map` after the schema pass. */
  function ColumnTablesOf(m: map<string, string>, schema: seq<SchemaTable>): map<string, string> {
    if schema == [] then m
    else
      var t := schema[|schema| - 1];
      KeysOf(ColumnTablesOf(m, schema[..|schema| - 1]), Lower(t.name), t.columns)
  }

  /** Column `j` of `columns` has key `c` under `table`. */
  predicate ColumnKey(table: string, columns: seq<string>, j: int, c: string) {
    0 <= j < |columns| && c == table + "." + Lower(columns[j])
  }

  /** Column `j` of table `i` of the schema has key `c`. */
  predicate SchemaHas(schema: seq<SchemaTable>, i: int, j: int, c: string) {
    0 <= i < |schema| && ColumnKey(Lower(schema[i].name), schema[i].columns, j, c)
  }

  /** ... and that table, lower-cased, is `t`. */
  predicate SchemaKey(schema: seq<SchemaTable>, i: int, j: int, c: string, t: string) {
    SchemaHas(schema, i, j, c) && t == Lower(schema[i].name)
  }

  lemma {:induction false} KeysOfFacts(m: map<string, string>, table: string, columns: seq<string>, c: string)
    ensures c in KeysOf(m, table, columns) <==> c in m || exists j :: ColumnKey(table, columns, j, c)
    ensures (exists j :: ColumnKey(table, columns, j, c)) ==> KeysOf(m, table, columns)[c] == table
    ensures (forall j :: !ColumnKey(table, columns, j, c)) && c in m ==> KeysOf(m, table, columns)[c] == m[c]
    decreases |columns|
  {
    if columns != [] {
      var n := |columns| - 1;
      var pre := columns[..n];
      KeysOfFacts(m, table, pre, c);
      if c == table + "." + Lower(columns[n]) {
        assert ColumnKey(table, columns, n, c);
      }
      if exists j :: ColumnKey(table, pre, j, c) {
        var j :| ColumnKey(table, pre, j, c);
        assert pre[j] == columns[j];
        assert ColumnKey(table, columns, j, c);
      }
      if exists j :: ColumnKey(table, columns, j, c) {
        var j :| ColumnKey(table, columns, j, c);
        if j < n {
          assert pre[j] == columns[j];
          assert ColumnKey(table, pre, j, c);
        }
      }
    }
  }

  /** Every column of every schema table gets its key. */
  lemma {:induction false} ColumnTablesComplete(m: map<string, string>, schema: seq<SchemaTable>, c: string)
    ensures (exists i, j :: SchemaHas(schema, i, j, c)) ==> c in ColumnTablesOf(m, schema)
    decreases |schema|
  {
    if schema != [] {
      var n := |schema| - 1;
      var pre := schema[..n];
      var t := schema[n];
      ColumnTablesComplete(m, pre, c);
      KeysOfFacts(ColumnTablesOf(m, pre), Lower(t.name), t.columns, c);
      if exists i, j :: SchemaHas(schema, i, j, c) {
        var i, j :| SchemaHas(schema, i, j, c);
        if i < n {
          assert pre[i] == schema[i];
          assert SchemaHas(pre, i, j, c);
        } else {
          assert ColumnKey(Lower(t.name), t.columns, j, c);
        }
      }
    }
  }

  /** A key the schema pass adds maps to the lower-cased table of some
      schema column with that key. */
  lemma {:induction false} ColumnTablesSound(m: map<string, string>, schema: seq<SchemaTable>, c: string)
    requires c in ColumnTablesOf(m, schema) && c !in m
    ensures exists i, j :: SchemaKey(schema, i, j, c, ColumnTablesOf(m, schema)[c])
    decreases |schema|
  {
    var n := |schema| - 1;
    var pre := schema[..n];
    var t := schema[n];
    var before := ColumnTablesOf(m, pre);
    var after := ColumnTablesOf(m, schema);
    KeysOfFacts(before, Lower(t.name), t.columns, c);
    if exists j :: ColumnKey(Lower(t.name), t.columns, j, c) {
      var j :| ColumnKey(Lower(t.name), t.columns, j, c);
      assert SchemaKey(schema, n, j, c, after[c]);
    } else {
      ColumnTablesSound(m, pre, c);
      var i, j :| SchemaKey(pre, i, j, c, before[c]);
      assert pre[i] == schema[i];
      assert SchemaKey(schema, i, j, c, after[c]);
    }
  }

  /** A table of the schema pass has exactly the lower-cased columns of the
      last schema table of its lower-cased name. */
  lemma {:induction false} TableColumnsFacts(m: map<string, seq<string>>, schema: seq<SchemaTable>, i: nat)
    requires i < |schema| && forall k :: i < k < |schema| ==> Lower(schema[k].name) != Lower(schema[i].name)
    ensures Lower(schema[i].name) in TableColumnsOf(m, schema)
    ensures TableColumnsOf(m, schema)[Lower(schema[i].name)] == LowerAll(schema[i].columns)
    decreases |schema|
  {
    var n := |schema| - 1;
    if i < n {
      TableColumnsFacts(m, schema[..n], i);
      assert schema[..n][i] == schema[i];
    }
  }

  // ---------------------------------------------------------------- flows

  /** `column_flows[s].add(t)` for each edge in turn. */
  function AddEdges(flows: map<string, set<string>>, edges: seq<(string, string)>): map<string, set<string>> {
    if edges == [] then flows
    else
      var f := AddEdges(flows, edges[..|edges| - 1]);
      var (s, t) := edges[|edges| - 1];
      f[s := TargetSet(f, s) + {t}]
  }

  /** An edge is in the flows afterwards exactly when it was before or is
      one of the edges added; a column has flows exactly when it had or
      some edge leaves it. */
  lemma {:induction false} AddEdgesFacts(flows: map<string, set<string>>, edges: seq<(string, string)>, s: string, t: string)
    ensures t in TargetSet(AddEdges(flows, edges), s) <==> t in TargetSet(flows, s) || (s, t) in edges
    ensures s in AddEdges(flows, edges) <==> s in flows || exists i :: 0 <= i < |edges| && edges[i].0 == s
    decreases |edges|
  {
    if edges != [] {
      var n := |edges| - 1;
      AddEdgesFacts(flows, edges[..n], s, t);
      assert edges == edges[..n] + [edges[n]];
      if exists i :: 0 <= i < n && edges[..n][i].0 == s {
        var i :| 0 <= i < n && edges[..n][i].0 == s;
        assert edges[i] == edges[..n][i];
      }
      if exists i :: 0 <= i < |edges| && edges[i].0 == s {
        var i :| 0 <= i < |edges| && edges[i].0 == s;
        if i < n { assert edges[..n][i] == edges[i]; }
      }
    }
  }

  /** Re-adding edges changes nothing: the flows are sets. */
  lemma AddEdgesIdempotent(flows: map<string, set<string>>, edges: seq<(string, string)>)
    ensures AddEdges(AddEdges(flows, edges), edges) == AddEdges(flows, edges)
  {
    var once := AddEdges(flows, edges);
    var twice := AddEdges(once, edges);
    forall s | s in twice ensures s in once {
      AddEdgesFacts(once, edges, s, "");
      AddEdgesFacts(flows, edges, s, "");
    }
    forall s | s in once ensures s in twice && twice[s] == once[s] {
      AddEdgesFacts(once, edges, s, "");
      forall t ensures t in twice[s] <==> t in once[s] {
        AddEdgesFacts(once, edges, s, t);
        AddEdgesFacts(flows, edges, s, t);
      }
    }
  }

  /** The first and last columns of each sqllineage path of at least two
      columns, lower-cased. */
  function PathEdges(paths: seq<seq<string>>): seq<(string, string)> {
    if paths == [] then []
    else
      var p := paths[|paths| - 1];
      PathEdges(paths[..|paths| - 1]) + if |p| >= 2 then [(Lower(p[0]), Lower(p[|p| - 1]))] else []
  }

  /** The column map after recording the dotted ends of each edge with
      their table parts. */
  function RecordEnds(m: map<string, string>, edges: seq<(string, string)>): map<string, string> {
    if edges == [] then m
    else
      var r := RecordEnds(m, edges[..|edges| - 1]);
      var (s, t) := edges[|edges| - 1];
      var r' := if '.' in s then r[s := AllButLast(s)] else r;
      if '.' in t then r'[t := AllButLast(t)] else r'
  }

  /** A metadata entry is merged only when all four fields are present and
      non-empty. */
  predicate Complete(m: MetaLineage) {
    m.sourceTable.Some? && m.sourceTable.value != "" && m.sourceColumn.Some? && m.sourceColumn.value != "" &&
    m.targetTable.Some? && m.targetTable.value != "" && m.targetColumn.Some? && m.targetColumn.value != ""
  }

  /** The complete entries, in order. */
  function Accepted(meta: seq<MetaLineage>): (r: seq<MetaLineage>)
    ensures forall x :: x in r ==> x in meta && Complete(x)
    ensures forall x :: x in meta && Complete(x) ==> x in r
  {
    if meta == [] then []
    else Accepted(meta[..|meta| - 1]) + if Complete(meta[|meta| - 1]) then [meta[|meta| - 1]] else []
  }

  function SourceFull(m: MetaLineage): string
    requires Complete(m)
  {
    Lower(m.sourceTable.value) + "." + Lower(m.sourceColumn.value)
  }

  function TargetFull(m: MetaLineage): string
    requires Complete(m)
  {
    Lower(m.targetTable.value) + "." + Lower(m.targetColumn.value)
  }

  function MetaEdges(ms: seq<MetaLineage>): (r: seq<(string, string)>)
    requires forall x :: x in ms ==> Complete(x)
    ensures |r| == |ms|
  {
    seq(|ms|, i requires 0 <= i < |ms| => (SourceFull(ms[i]), TargetFull(ms[i])))
  }

  /** The column map after the metadata merge: each full name to the
      lower-cased table it was built from (not its part before the last
      dot). */
  function MetaTables(m: map<string, string>, ms: seq<MetaLineage>): map<string, string>
    requires forall x :: x in ms ==> Complete(x)
  {
    if ms == [] then m
    else
      var x := ms[|ms| - 1];
      MetaTables(m, ms[..|ms| - 1])[SourceFull(x) := Lower(x.sourceTable.value)][TargetFull(x) := Lower(x.targetTable.value)]
  }

  /** sqllineage contributes one edge per path of two or more columns,
      from its first column to its last. */
  lemma {:induction false} PathEdgesMembers(paths: seq<seq<string>>, s: string, t: string)
    ensures (s, t) in PathEdges(paths) <==>
      exists p :: p in paths && |p| >= 2 && s == Lower(p[0]) && t == Lower(p[|p| - 1])
    decreases |paths|
  {
    if paths != [] {
      var n := |paths| - 1;
      PathEdgesMembers(paths[..n], s, t);
      assert paths == paths[..n] + [paths[n]];
    }
  }

  /** Some complete entry of `ms` joins column `s` to column `t`. */
  ghost predicate Joins(ms: seq<MetaLineage>, s: string, t: string) {
    exists x :: x in ms && Complete(x) && s == SourceFull(x) && t == TargetFull(x)
  }

  lemma MetaEdgesMembers(ms: seq<MetaLineage>, s: string, t: string)
    requires forall x :: x in ms ==> Complete(x)
    ensures (s, t) in MetaEdges(ms) <==> Joins(ms, s, t)
  {
    if (s, t) in MetaEdges(ms) {
      var i :| 0 <= i < |ms| && MetaEdges(ms)[i] == (s, t);
      assert ms[i] in ms;
    }
    if Joins(ms, s, t) {
      var x :| x in ms && Complete(x) && s == SourceFull(x) && t == TargetFull(x);
      var i :| 0 <= i < |ms| && ms[i] == x;
      assert MetaEdges(ms)[i] == (s, t);
    }
  }

  /** After the metadata merge a column flows to another exactly when it
      did before or a complete entry joins them. */
  lemma MergedEdges(flows: map<string, set<string>>, ms: seq<MetaLineage>, s: string, t: string)
    ensures t in TargetSet(AddEdges(flows, MetaEdges(Accepted(ms))), s) <==> t in TargetSet(flows, s) || Joins(ms, s, t)
  {
    var acc := Accepted(ms);
    AddEdgesFacts(flows, MetaEdges(acc), s, t);
    MetaEdgesMembers(acc, s, t);
    assert Joins(acc, s, t) <==> Joins(ms, s, t);
  }

  // ----------------------------------------------------------- flow graph

  /** What a `find_target_paths` reads: the successor lists in the order a
      `for` loop over each flow set visits them, the column-to-table map and
      the tables the search stops at. */
  datatype Graph = Graph(adj: map<string, seq<string>>, tables: map<string, string>, finals: set<string>)

  /** `column_flows.get(c, [])` */
  function Nexts(g: Graph, c: string): seq<string> {
    if c in g.adj then g.adj[c] else []
  }

  /** The column's table is known and is a final target. */
  predicate AtFinal(g: Graph, c: string) {
    c in g.tables && g.tables[c] in g.finals
  }

  /** A path the search reports: each step follows a flow out of a column
      that is not final, and the last column is final. */
  predicate Walk(g: Graph, p: seq<string>) {
    |p| >= 1 && AtFinal(g, p[|p| - 1]) && forall i :: 0 <= i < |p| - 1 ==> Step(g, p, i)
  }

  /** Column `i` of `p` is not final and flows into column `i + 1`. */
  predicate Step(g: Graph, p: seq<string>, i: int)
    requires 0 <= i < |p| - 1
  {
    !AtFinal(g, p[i]) && p[i + 1] in Nexts(g, p[i])
  }

  function Depth(d: int): nat {
    if d < 0 then 0 else d
  }

  /** `[c] + p` for every path `p`. */
  function Prefixed(c: string, ps: seq<seq<string>>): (r: seq<seq<string>>)
    ensures forall p :: p in r <==> |p| >= 1 && p[0] == c && p[1..] in ps
  {
    var r := seq(|ps|, i requires 0 <= i < |ps| => [c] + ps[i]);
    assert forall i :: 0 <= i < |ps| ==> r[i][1..] == ps[i];
    assert forall p :: |p| >= 1 && p[0] == c && p[1..] in ps ==> p == [c] + p[1..];
    r
  }

  /** A walk extended backwards by a column that is not final and flows
      into its first column. */
  lemma WalkCons(g: Graph, p: seq<string>)
    requires |p| >= 2 && Walk(g, p[1..]) && !AtFinal(g, p[0]) && p[1] in Nexts(g, p[0])
    ensures Walk(g, p)
  {
    var q := p[1..];
    forall i | 0 <= i < |p| - 1
      ensures Step(g, p, i)
    {
      if i > 0 {
        assert Step(g, q, i - 1);
        assert p[i] == q[i - 1] && p[i + 1] == q[i];
      }
    }
  }

  /** The tail of a walk of two or more columns is a walk. */
  lemma WalkTail(g: Graph, p: seq<string>)
    requires Walk(g, p) && |p| >= 2
    ensures Walk(g, p[1..]) && !AtFinal(g, p[0]) && p[1] in Nexts(g, p[0])
  {
    var q := p[1..];
    assert Step(g, p, 0);
    forall i | 0 <= i < |q| - 1
      ensures Step(g, q, i)
    {
      assert Step(g, p, i + 1);
      assert q[i] == p[i + 1] && q[i + 1] == p[i + 2];
    }
  }

  /** `table_column_map.get(t, [])` */
  function Columns(tc: map<string, seq<string>>, t: string): seq<string> {
    if t in tc then tc[t] else []
  }

  /** Each successor set listed once, in the order a `for` loop over it
      happens to visit it. */
  predicate ListsOf(adj: map<string, seq<string>>, flows: map<string, set<string>>) {
    adj.Keys == flows.Keys && forall k :: k in adj ==> Elems(adj[k]) == flows[k] && Simple(adj[k])
  }

  method FlowLists(flows: map<string, set<string>>) returns (adj: map<string, seq<string>>)
    ensures ListsOf(adj, flows)
  {
    var keys := Members(flows.Keys);
    adj := map[];
    var i := 0;
    while i < |keys|
      invariant 0 <= i <= |keys|
      invariant adj.Keys == Elems(keys[..i])
      invariant forall k :: k in adj ==> Elems(adj[k]) == flows[k] && Simple(adj[k])
    {
      var nexts := Members(flows[keys[i]]);
      adj := adj[keys[i] := nexts];
      ElemsSnoc(keys, i);
      i := i + 1;
    }
    assert keys[..i] == keys;
  }

  // ---------------------------------------------------------------- loops

  /** The schema pass: each table's lower-cased columns, then each column's
      key to its table. */
  method BuildMaps(tc: map<string, seq<string>>, ct: map<string, string>, schema: seq<SchemaTable>)
    returns (tc': map<string, seq<string>>, ct': map<string, string>)
    ensures tc' == TableColumnsOf(tc, schema)
    ensures ct' == ColumnTablesOf(ct, schema)
  {
    tc', ct' := tc, ct;
    var i := 0;
    while i < |schema|
      invariant 0 <= i <= |schema|
      invariant tc' == TableColumnsOf(tc, schema[..i])
      invariant ct' == ColumnTablesOf(ct, schema[..i])
    {
      assert schema[..i + 1][..i] == schema[..i];
      var table := schema[i];
      var tableKey := Lower(table.name);
      tc' := tc'[tableKey := LowerAll(table.columns)];
      var before := ct';
      var j := 0;
      while j < |table.columns|
        invariant 0 <= j <= |table.columns|
        invariant ct' == KeysOf(before, tableKey, table.columns[..j])
      {
        assert table.columns[..j + 1][..j] == table.columns[..j];
        ct' := ct'[tableKey + "." + Lower(table.columns[j]) := tableKey];
        j := j + 1;
      }
      assert table.columns[..j] == table.columns;
      i := i + 1;
    }
    assert schema[..i] == schema;
  }

  lemma AddEdgesSnoc(flows: map<string, set<string>>, edges: seq<(string, string)>, e: (string, string))
    ensures AddEdges(flows, edges + [e]) ==
      AddEdges(flows, edges)[e.0 := TargetSet(AddEdges(flows, edges), e.0) + {e.1}]
  {
    assert (edges + [e])[..|edges|] == edges;
  }

  lemma RecordEndsSnoc(m: map<string, string>, edges: seq<(string, string)>, e: (string, string))
    ensures RecordEnds(m, edges + [e]) ==
      var r := RecordEnds(m, edges);
      var r' := if '.' in e.0 then r[e.0 := AllButLast(e.0)] else r;
      if '.' in e.1 then r'[e.1 := AllButLast(e.1)] else r'
  {
    assert (edges + [e])[..|edges|] == edges;
  }

  lemma MetaSnoc(ms: seq<MetaLineage>, x: MetaLineage)
    requires Complete(x) && forall y :: y in ms ==> Complete(y)
    ensures MetaEdges(ms + [x]) == MetaEdges(ms) + [(SourceFull(x), TargetFull(x))]
    ensures forall m :: MetaTables(m, ms + [x]) == MetaTables(m, ms)[SourceFull(x) := Lower(x.sourceTable.value)][TargetFull(x) := Lower(x.targetTable.value)]
  {
    assert (ms + [x])[..|ms|] == ms;
  }

  /** The loop over sqllineage's column lineage paths. */
  method RecordPaths(flows: map<string, set<string>>, tables: map<string, string>, paths: seq<seq<string>>)
    returns (f: map<string, set<string>>, c: map<string, string>)
    ensures f == AddEdges(flows, PathEdges(paths))
    ensures c == RecordEnds(tables, PathEdges(paths))
  {
    f, c := flows, tables;
    var i := 0;
    while i < |paths|
      invariant 0 <= i <= |paths|
      invariant f == AddEdges(flows, PathEdges(paths[..i]))
      invariant c == RecordEnds(tables, PathEdges(paths[..i]))
    {
      assert paths[..i + 1][..i] == paths[..i];
      var path := paths[i];
      if |path| >= 2 {
        var source := Lower(path[0]);
        var target := Lower(path[|path| - 1]);
        assert PathEdges(paths[..i + 1]) == PathEdges(paths[..i]) + [(source, target)];
        AddEdgesSnoc(flows, PathEdges(paths[..i]), (source, target));
        RecordEndsSnoc(tables, PathEdges(paths[..i]), (source, target));
        f := f[source := TargetSet(f, source) + {target}];
        if '.' in source {
          c := c[source := AllButLast(source)];
        }
        if '.' in target {
          c := c[target := AllButLast(target)];
        }
      } else {
        assert PathEdges(paths[..i + 1]) == PathEdges(paths[..i]) + [];
        assert PathEdges(paths[..i]) + [] == PathEdges(paths[..i]);
      }
      i := i + 1;
    }
    assert paths[..i] == paths;
  }

  /** The count, flows and column tables after merging some lineages. */
  function MergedAfter(flows: map<string, set<string>>, tables: map<string, string>, entries: seq<MetaLineage>):
    (nat, map<string, set<string>>, map<string, string>)
  {
    var accepted := Accepted(entries);
    (|accepted|, AddEdges(flows, MetaEdges(accepted)), MetaTables(tables, accepted))
  }

  /** Merging one more complete lineage adds one to the count, its edge to
      the flows and its two ends to the column tables. */
  lemma MergedAfterComplete(flows: map<string, set<string>>, tables: map<string, string>, entries: seq<MetaLineage>, i: nat)
    requires i < |entries| && Complete(entries[i])
    ensures var (n, f, ct) := MergedAfter(flows, tables, entries[..i]);
      var x := entries[i];
      var (s, t) := (SourceFull(x), TargetFull(x));
      MergedAfter(flows, tables, entries[..i + 1]) ==
        (n + 1, f[s := TargetSet(f, s) + {t}], ct[s := Lower(x.sourceTable.value)][t := Lower(x.targetTable.value)])
  {
    assert entries[..i + 1][..i] == entries[..i];
    var x := entries[i];
    var accepted := Accepted(entries[..i]);
    assert Accepted(entries[..i + 1]) == accepted + [x];
    MetaSnoc(accepted, x);
    AddEdgesSnoc(flows, MetaEdges(accepted), (SourceFull(x), TargetFull(x)));
  }

  /** Merging one more incomplete lineage changes nothing. */
  lemma MergedAfterIncomplete(flows: map<string, set<string>>, tables: map<string, string>, entries: seq<MetaLineage>, i: nat)
    requires i < |entries| && !Complete(entries[i])
    ensures MergedAfter(flows, tables, entries[..i + 1]) == MergedAfter(flows, tables, entries[..i])
  {
    assert entries[..i + 1][..i] == entries[..i];
    assert Accepted(entries[..i + 1]) == Accepted(entries[..i]) + [];
    assert Accepted(entries[..i]) + [] == Accepted(entries[..i]);
  }

  /** The loop over the metadata's column lineages. */
  method MergeEntries(flows: map<string, set<string>>, tables: map<string, string>, entries: seq<MetaLineage>)
    returns (added: nat, f: map<string, set<string>>, ct: map<string, string>)
    ensures added == |Accepted(entries)|
    ensures f == AddEdges(flows, MetaEdges(Accepted(entries)))
    ensures ct == MetaTables(tables, Accepted(entries))
  {
    added, f, ct := 0, flows, tables;
    var i := 0;
    while i < |entries|
      invariant 0 <= i <= |entries|
      invariant (added, f, ct) == MergedAfter(flows, tables, entries[..i])
    {
      var x := entries[i];
      if Complete(x) {
        MergedAfterComplete(flows, tables, entries, i);
        var sourceTable := Lower(x.sourceTable.value);
        var targetTable := Lower(x.targetTable.value);
        var sourceFull := sourceTable + "." + Lower(x.sourceColumn.value);
        var targetFull := targetTable + "." + Lower(x.targetColumn.value);
        f := f[sourceFull := TargetSet(f, sourceFull) + {targetFull}];
        ct := ct[sourceFull := sourceTable][targetFull := targetTable];
        added := added + 1;
      } else {
        MergedAfterIncomplete(flows, tables, entries, i);
      }
      i := i + 1;
    }
    assert entries[..i] == entries;
  }
}
