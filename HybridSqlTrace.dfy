/**
 * hybrid_sql_lineage_parser.py, `_trace_end_to_end_lineage` and
 * `_discover_dynamic_bridges`: the comprehensive flow lists built from the
 * column mappings and the C# column lineages, the bridges proposed between
 * intermediate temp tables and final tables, the search for complete paths
 * from the C# source tables to the C# target tables, and the records built
 * from those paths.
 */
module HybridSqlTrace {
  import opened Strings
  import opened Common
  import opened GenericSqlTrace
  import opened HybridSqlParser

  /** One entry of the metadata's `column_lineages`. */
  datatype CSharpLineage = CSharpLineage(sourceTable: string, sourceColumn: string, targetTable: string, targetColumn: string)

  /** One entry of the metadata's `merge_patterns`; a missing field is the
      empty string, as `pattern.get(..., '')` reads it. */
  datatype MergePattern = MergePattern(sourceTable: string, targetTable: string)

  // ---------------------------------------------------- comprehensive flows

  /** `flows[s].append(t)`, creating the list when `s` is new. */
  function Append(d: Dict<string, seq<string>>, s: string, t: string): (r: Dict<string, seq<string>>)
    requires DictValid(d)
    ensures DictValid(r)
  {
    Put(d, s, Targets(d.m, s) + [t])
  }

  /** Appending every edge in turn. */
  function AppendAll(d: Dict<string, seq<string>>, edges: seq<(string, string)>): (r: Dict<string, seq<string>>)
    requires DictValid(d)
    ensures DictValid(r)
  {
    if edges == [] then d
    else Append(AppendAll(d, edges[..|edges| - 1]), edges[|edges| - 1].0, edges[|edges| - 1].1)
  }

  /** Edge `i` of `edges` runs from `s` to `t`. */
  predicate EdgeAt(edges: seq<(string, string)>, i: int, s: string, t: string) {
    0 <= i < |edges| && edges[i] == (s, t)
  }

  /** Edge `i` of `edges` leaves `s`. */
  predicate LeavesAt(edges: seq<(string, string)>, i: int, s: string) {
    0 <= i < |edges| && edges[i].0 == s
  }

  lemma EdgeSnoc(edges: seq<(string, string)>, pre: seq<(string, string)>, s: string, t: string)
    requires |edges| > 0 && pre == edges[..|edges| - 1]
    ensures (exists i :: EdgeAt(edges, i, s, t)) <==> (exists i :: EdgeAt(pre, i, s, t)) || edges[|edges| - 1] == (s, t)
    ensures (exists i :: LeavesAt(edges, i, s)) <==> (exists i :: LeavesAt(pre, i, s)) || edges[|edges| - 1].0 == s
  {
    var n := |edges| - 1;
    if edges[n] == (s, t) { assert EdgeAt(edges, n, s, t); }
    if edges[n].0 == s { assert LeavesAt(edges, n, s); }
    if exists i :: EdgeAt(edges, i, s, t) {
      var i :| EdgeAt(edges, i, s, t);
      if i < n { assert pre[i] == edges[i]; assert EdgeAt(pre, i, s, t); }
    }
    if exists i :: EdgeAt(pre, i, s, t) {
      var i :| EdgeAt(pre, i, s, t);
      assert pre[i] == edges[i];
      assert EdgeAt(edges, i, s, t);
    }
    if exists i :: LeavesAt(edges, i, s) {
      var i :| LeavesAt(edges, i, s);
      if i < n { assert pre[i] == edges[i]; assert LeavesAt(pre, i, s); }
    }
    if exists i :: LeavesAt(pre, i, s) {
      var i :| LeavesAt(pre, i, s);
      assert pre[i] == edges[i];
      assert LeavesAt(edges, i, s);
    }
  }

  /** After the appends, `t` follows `s` exactly when it did before or some
      appended edge joins them; and `s` has a list exactly when it had one
      or some appended edge leaves it. */
  lemma {:induction false} AppendAllEdges(d: Dict<string, seq<string>>, edges: seq<(string, string)>, s: string, t: string)
    requires DictValid(d)
    ensures t in Targets(AppendAll(d, edges).m, s) <==> t in Targets(d.m, s) || exists i :: EdgeAt(edges, i, s, t)
    ensures s in AppendAll(d, edges).m <==> s in d.m || exists i :: LeavesAt(edges, i, s)
  {
    if edges != [] {
      var n := |edges| - 1;
      var pre := edges[..n];
      var before := AppendAll(d, pre).m;
      var (s0, t0) := edges[n];
      assert AppendAll(d, edges).m == before[s0 := Targets(before, s0) + [t0]];
      AppendAllEdges(d, pre, s, t);
      EdgeSnoc(edges, pre, s, t);
    }
  }

  /** Creating the empty list and then appending is one append. */
  lemma CreateThenAppend(d: Dict<string, seq<string>>, s: string, t: string)
    requires DictValid(d) && s !in d.m
    ensures Put(Put(d, s, []), s, [t]) == Append(d, s, t)
  {
    assert Targets(d.m, s) + [t] == [t];
    assert d.m[s := []][s := [t]] == d.m[s := [t]];
  }

  /** The loop that appends every edge in turn. */
  method AppendEdges(d: Dict<string, seq<string>>, edges: seq<(string, string)>) returns (r: Dict<string, seq<string>>)
    requires DictValid(d)
    ensures r == AppendAll(d, edges)
  {
    r := d;
    var i := 0;
    while i < |edges|
      invariant 0 <= i <= |edges|
      invariant DictValid(r) && r == AppendAll(d, edges[..i])
    {
      assert edges[..i + 1][..i] == edges[..i];
      var s := edges[i].0;
      if s !in r.m {
        CreateThenAppend(r, s, edges[i].1);
        r := Put(r, s, []);
      }
      r := Put(r, s, r.m[s] + [edges[i].1]);
      i := i + 1;
    }
    assert edges[..i] == edges;
  }

  /** The Python mappings, lower-cased. */
  function MappingEdges(ms: seq<ColumnMapping>): seq<(string, string)> {
    seq(|ms|, i requires 0 <= i < |ms| => (Lower(ms[i].sourceColumn), Lower(ms[i].targetColumn)))
  }

  /** The C# lineages, joined as `table.column` and not lower-cased. */
  function LineageEdges(ls: seq<CSharpLineage>): seq<(string, string)> {
    seq(|ls|, i requires 0 <= i < |ls| =>
      (ls[i].sourceTable + "." + ls[i].sourceColumn, ls[i].targetTable + "." + ls[i].targetColumn))
  }

  /** `comprehensive_flows` before the bridges. */
  function Comprehensive(ms: seq<ColumnMapping>, ls: seq<CSharpLineage>): (r: Dict<string, seq<string>>)
    ensures DictValid(r)
  {
    AppendAll(EmptyDict(), MappingEdges(ms) + LineageEdges(ls))
  }

  // ------------------------------------------------------- column tables

  /** Every column of the flows in the order the two loops visit them: the
      keys, then each list in key order. */
  function ListedColumns(keys: seq<string>, m: map<string, seq<string>>): seq<string> {
    if keys == [] then []
    else ListedColumns(keys[..|keys| - 1], m) + Targets(m, keys[|keys| - 1])
  }

  lemma ListedSnoc(keys: seq<string>, m: map<string, seq<string>>, i: nat)
    requires i < |keys|
    ensures ListedColumns(keys[..i + 1], m) == ListedColumns(keys[..i], m) + Targets(m, keys[i])
  {
    assert keys[..i + 1][..i] == keys[..i];
  }

  /** `column_to_table[c] = ...` for every dotted column in turn. */
  function RecordAll(d: Dict<string, string>, cols: seq<string>): (r: Dict<string, string>)
    requires DictValid(d)
    ensures DictValid(r)
  {
    if cols == [] then d else Record(RecordAll(d, cols[..|cols| - 1]), cols[|cols| - 1])
  }

  lemma {:induction false} RecordAllAppend(d: Dict<string, string>, a: seq<string>, b: seq<string>)
    requires DictValid(d)
    ensures RecordAll(d, a + b) == RecordAll(RecordAll(d, a), b)
    decreases |b|
  {
    if b == [] {
      assert a + b == a;
    } else {
      var n := |b| - 1;
      assert (a + b)[..|a + b| - 1] == a + b[..n];
      assert (a + b)[|a + b| - 1] == b[n];
      RecordAllAppend(d, a, b[..n]);
    }
  }

  /** Exactly the dotted columns visited, each with its table part. */
  lemma {:induction false} RecordAllKeys(d: Dict<string, string>, cols: seq<string>, c: string)
    requires DictValid(d) && d.m == map[]
    ensures c in RecordAll(d, cols).m <==> '.' in c && c in cols
    ensures c in RecordAll(d, cols).m ==> RecordAll(d, cols).m[c] == AllButLast(c)
  {
    if cols != [] {
      var n := |cols| - 1;
      RecordAllKeys(d, cols[..n], c);
      assert cols == cols[..n] + [cols[n]];
    }
  }

  /** `comprehensive_column_to_table` for a flow dictionary. */
  function ColumnTables(flows: Dict<string, seq<string>>): (r: Dict<string, string>)
    ensures DictValid(r)
  {
    RecordAll(EmptyDict(), flows.keys + ListedColumns(flows.keys, flows.m))
  }

  /** Its keys are the dotted columns of the flows, each mapped to its
      table part. */
  lemma ColumnTablesFacts(flows: Dict<string, seq<string>>, c: string)
    ensures c in ColumnTables(flows).m <==> '.' in c && c in flows.keys + ListedColumns(flows.keys, flows.m)
    ensures c in ColumnTables(flows).m ==> ColumnTables(flows).m[c] == AllButLast(c)
  {
    RecordAllKeys(EmptyDict(), flows.keys + ListedColumns(flows.keys, flows.m), c);
  }

  /** The inner loop over one list of targets. */
  method RecordColumns(d: Dict<string, string>, cols: seq<string>) returns (r: Dict<string, string>)
    requires DictValid(d)
    ensures r == RecordAll(d, cols)
  {
    r := d;
    var i := 0;
    while i < |cols|
      invariant 0 <= i <= |cols|
      invariant r == RecordAll(d, cols[..i])
    {
      assert cols[..i + 1][..i] == cols[..i];
      var col := cols[i];
      if '.' in col {
        r := Put(r, col, AllButLast(col));
      }
      i := i + 1;
    }
    assert cols[..i] == cols;
  }

  /** One more key of the flows: its listed targets are recorded after the
      columns recorded so far. */
  lemma ColumnTablesStep(flows: Dict<string, seq<string>>, i: nat)
    requires DictValid(flows) && i < |flows.keys|
    ensures RecordAll(EmptyDict(), flows.keys + ListedColumns(flows.keys[..i + 1], flows.m)) ==
      RecordAll(RecordAll(EmptyDict(), flows.keys + ListedColumns(flows.keys[..i], flows.m)), flows.m[flows.keys[i]])
  {
    var before := flows.keys + ListedColumns(flows.keys[..i], flows.m);
    var colList := flows.m[flows.keys[i]];
    ListedSnoc(flows.keys, flows.m, i);
    assert Targets(flows.m, flows.keys[i]) == colList;
    assert flows.keys + ListedColumns(flows.keys[..i + 1], flows.m) == before + colList;
    RecordAllAppend(EmptyDict(), before, colList);
  }

  /** The two loops that build `comprehensive_column_to_table`: the keys
      first, then every listed target. */
  method BuildColumnTables(flows: Dict<string, seq<string>>) returns (ct: Dict<string, string>)
    requires DictValid(flows)
    ensures ct == ColumnTables(flows)
  {
    ct := RecordColumns(EmptyDict(), flows.keys);
    assert flows.keys + ListedColumns(flows.keys[..0], flows.m) == flows.keys by {
      assert flows.keys[..0] == [];
    }
    var i := 0;
    while i < |flows.keys|
      invariant 0 <= i <= |flows.keys|
      invariant ct == RecordAll(EmptyDict(), flows.keys + ListedColumns(flows.keys[..i], flows.m))
    {
      ColumnTablesStep(flows, i);
      ct := RecordColumns(ct, flows.m[flows.keys[i]]);
      i := i + 1;
    }
    assert flows.keys[..i] == flows.keys;
  }

  // ------------------------------------------------------------- bridges

  /** A `#` temp table, with or without the `<default>.` prefix. */
  predicate IsTempTable(t: string) {
    StartsWith(t, "#") || StartsWith(t, "<default>.#")
  }

  /** `intermediate_tables`: the temp tables of the column map that are
      neither source nor final tables. */
  function IntermediateOf(ct: map<string, string>, sources: set<string>, finals: set<string>): set<string> {
    set c | c in ct && IsTempTable(ct[c]) && ct[c] !in sources && ct[c] !in finals :: ct[c]
  }

  /** The loop over `comprehensive_column_to_table.items()` that collects
      the intermediate tables. */
  method CollectIntermediate(ct: Dict<string, string>, sources: set<string>, finals: set<string>) returns (inter: set<string>)
    requires DictValid(ct)
    ensures inter == IntermediateOf(ct.m, sources, finals)
  {
    var items := Items(ct);
    inter := {};
    var i := 0;
    while i < |items|
      invariant 0 <= i <= |items|
      invariant inter == set c | c in ct.keys[..i] && IsTempTable(ct.m[c]) && ct.m[c] !in sources && ct.m[c] !in finals :: ct.m[c]
    {
      assert ct.keys[..i + 1] == ct.keys[..i] + [ct.keys[i]];
      var table := items[i].1;
      if (StartsWith(table, "#") || StartsWith(table, "<default>.#")) && table !in sources && table !in finals {
        inter := inter + {table};
      }
      i := i + 1;
    }
    assert ct.keys[..i] == ct.keys;
  }

  /** `target_columns` and `intermediate_columns`: each column name to the
      columns of the admitted tables that carry it, in `items` order. */
  function Groups(items: seq<(string, string)>, admit: set<string>): (r: Dict<string, seq<string>>)
    ensures DictValid(r)
  {
    if items == [] then EmptyDict()
    else
      var d := Groups(items[..|items| - 1], admit);
      var (c, t) := items[|items| - 1];
      if t in admit then Append(d, LastSegment(c), c) else d
  }

  /** The loop that fills one of the two groupings. */
  method GroupColumns(items: seq<(string, string)>, admit: set<string>) returns (r: Dict<string, seq<string>>)
    ensures r == Groups(items, admit)
  {
    r := EmptyDict();
    var i := 0;
    while i < |items|
      invariant 0 <= i <= |items|
      invariant r == Groups(items[..i], admit)
    {
      assert items[..i + 1][..i] == items[..i];
      var (col, table) := items[i];
      if table in admit {
        var columnName := LastSegment(col);
        if columnName !in r.m {
          CreateThenAppend(r, columnName, col);
          r := Put(r, columnName, []);
        }
        r := Put(r, columnName, r.m[columnName] + [col]);
      }
      i := i + 1;
    }
    assert items[..i] == items;
  }

  /** The test both name strategies make before bridging: the edge is not
      already in the flows. */
  predicate Absent(flows: map<string, seq<string>>, s: string, t: string) {
    s !in flows || t !in flows[s]
  }

  /** The pairs `(x, y)`, `y` from `ys` in order, whose edge is absent. */
  function Row(x: string, ys: seq<string>, flows: map<string, seq<string>>): seq<(string, string)> {
    if ys == [] then []
    else
      var y := ys[|ys| - 1];
      Row(x, ys[..|ys| - 1], flows) + if Absent(flows, x, y) then [(x, y)] else []
  }

  /** The two nested loops over intermediate and target columns of one
      name. */
  function Rows(xs: seq<string>, ys: seq<string>, flows: map<string, seq<string>>): seq<(string, string)> {
    if xs == [] then [] else Rows(xs[..|xs| - 1], ys, flows) + Row(xs[|xs| - 1], ys, flows)
  }

  /** Strategy 1: for every name of an intermediate column that is also the
      name of a target column, every absent edge between the two. */
  function NamePairs(names: seq<string>, inter: map<string, seq<string>>, targets: map<string, seq<string>>,
                     flows: map<string, seq<string>>): seq<(string, string)> {
    if names == [] then []
    else NamePairs(names[..|names| - 1], inter, targets, flows) + NameRows(names[|names| - 1], inter, targets, flows)
  }

  /** The writes of strategy 1 for one name: none unless target columns
      carry it. */
  function NameRows(name: string, inter: map<string, seq<string>>, targets: map<string, seq<string>>,
                    flows: map<string, seq<string>>): seq<(string, string)> {
    if name in targets then Rows(Targets(inter, name), targets[name], flows) else []
  }

  /** `[col for col, table in items if table == wanted]` */
  function ColsOf(items: seq<(string, string)>, wanted: string): seq<string> {
    if items == [] then []
    else
      ColsOf(items[..|items| - 1], wanted) +
        if items[|items| - 1].1 == wanted then [items[|items| - 1].0] else []
  }

  /** `[tc for tc in target_cols if tc.split('.')[-1] == name]` */
  function Matching(cols: seq<string>, name: string): seq<string> {
    if cols == [] then []
    else Matching(cols[..|cols| - 1], name) + if LastSegment(cols[|cols| - 1]) == name then [cols[|cols| - 1]] else []
  }

  /** `(x, y)` for every `y` in turn. */
  function Pairs(x: string, ys: seq<string>): seq<(string, string)> {
    seq(|ys|, j requires 0 <= j < |ys| => (x, ys[j]))
  }

  /** The loops over the source columns of one MERGE pattern. */
  function MergeRows(sourceCols: seq<string>, targetCols: seq<string>): seq<(string, string)> {
    if sourceCols == [] then []
    else
      var sc := sourceCols[|sourceCols| - 1];
      MergeRows(sourceCols[..|sourceCols| - 1], targetCols) + Pairs(sc, Matching(targetCols, LastSegment(sc)))
  }

  /** Strategy 2: for every MERGE pattern with both tables named, every
      pair of a source-table column and a target-table column of the same
      name. No test for an existing edge. */
  function MergePairs(patterns: seq<MergePattern>, items: seq<(string, string)>): seq<(string, string)> {
    Flatten(patterns, q => PatternPairs(q, items))
  }

  /** The pairs one MERGE pattern contributes. */
  function PatternPairs(q: MergePattern, items: seq<(string, string)>): seq<(string, string)> {
    var s := Lower(q.sourceTable);
    var t := Lower(q.targetTable);
    if s != "" && t != "" then MergeRows(ColsOf(items, s), ColsOf(items, t)) else []
  }

  /** `common_mappings`: the column renamings strategy 3 knows. */
  const Synonyms: map<string, string> := map[
    "hashid" := "idempotencykey",
    "srcid" := "batchid",
    "batchdate" := "postingdate",
    "txnexternalid" := "hashid",
    "fromccy" := "fromcurrency",
    "toccy" := "tocurrency",
    "fxrate" := "rate"]

  /** Strategy 3: for every intermediate column whose name has a known
      renaming, every absent edge to a target column of the renamed name. */
  function SynonymPairs(items: seq<(string, string)>, inter: set<string>, targets: map<string, seq<string>>,
                        flows: map<string, seq<string>>): seq<(string, string)> {
    if items == [] then []
    else
      var (c, t) := items[|items| - 1];
      var name := LastSegment(c);
      SynonymPairs(items[..|items| - 1], inter, targets, flows) +
        if t in inter && name in Synonyms then Row(c, Targets(targets, Synonyms[name]), flows) else []
  }

  /** Every write to `bridges`, in the order the three strategies make
      them. */
  function BridgePairs(flows: map<string, seq<string>>, ct: Dict<string, string>, sources: set<string>, finals: set<string>,
                       patterns: Option<seq<MergePattern>>): seq<(string, string)>
    requires DictValid(ct)
  {
    var items := Items(ct);
    var inter := IntermediateOf(ct.m, sources, finals);
    var targets := Groups(items, finals);
    var interCols := Groups(items, inter);
    NamePairs(interCols.keys, interCols.m, targets.m, flows) +
    (if patterns.Some? then MergePairs(patterns.value, items) else []) +
    SynonymPairs(items, inter, targets.m, flows)
  }

  /** `_discover_dynamic_bridges`: the last write to each key wins. */
  function Bridges(flows: map<string, seq<string>>, ct: Dict<string, string>, sources: set<string>, finals: set<string>,
                   patterns: Option<seq<MergePattern>>): (r: Dict<string, string>)
    requires DictValid(ct)
    ensures DictValid(r)
  {
    PutAll(EmptyDict(), BridgePairs(flows, ct, sources, finals, patterns))
  }

  // ------------------------------------------------------ bridge loops

  /** One more target column: its edge is written when absent. */
  lemma RowStep(b: Dict<string, string>, x: string, ys: seq<string>, j: nat, flows: map<string, seq<string>>)
    requires DictValid(b) && j < |ys|
    ensures PutAll(b, Row(x, ys[..j + 1], flows)) ==
      if Absent(flows, x, ys[j]) then Put(PutAll(b, Row(x, ys[..j], flows)), x, ys[j])
      else PutAll(b, Row(x, ys[..j], flows))
  {
    var s := ys[..j + 1];
    assert s[..|s| - 1] == ys[..j] && s[|s| - 1] == ys[j];
    if Absent(flows, x, ys[j]) {
      RowStepAdd(b, x, s, flows);
    } else {
      RowSkip(x, s, flows);
    }
  }

  /** A last target column whose edge is absent is written last. */
  lemma RowStepAdd(b: Dict<string, string>, x: string, ys: seq<string>, flows: map<string, seq<string>>)
    requires DictValid(b) && ys != [] && Absent(flows, x, ys[|ys| - 1])
    ensures PutAll(b, Row(x, ys, flows)) == Put(PutAll(b, Row(x, ys[..|ys| - 1], flows)), x, ys[|ys| - 1])
  {
    RowAdd(x, ys, flows);
    var row := Row(x, ys, flows);
    PutAllSnoc(b, row, |row| - 1);
    assert row[..|row|] == row;
  }

  /** A last target column whose edge is absent adds its pair to the row. */
  lemma RowAdd(x: string, ys: seq<string>, flows: map<string, seq<string>>)
    requires ys != [] && Absent(flows, x, ys[|ys| - 1])
    ensures var row := Row(x, ys, flows);
      |row| >= 1 && row[..|row| - 1] == Row(x, ys[..|ys| - 1], flows) && row[|row| - 1] == (x, ys[|ys| - 1])
  {
    var a := Row(x, ys[..|ys| - 1], flows);
    assert (a + [(x, ys[|ys| - 1])])[..|a|] == a;
  }

  /** A last target column whose edge exists adds nothing to the row. */
  lemma RowSkip(x: string, ys: seq<string>, flows: map<string, seq<string>>)
    requires ys != [] && !Absent(flows, x, ys[|ys| - 1])
    ensures Row(x, ys, flows) == Row(x, ys[..|ys| - 1], flows)
  {
    var a := Row(x, ys[..|ys| - 1], flows);
    assert a + [] == a;
  }

  /** One more intermediate column: its row of edges is written. */
  lemma RowsStep(b: Dict<string, string>, xs: seq<string>, ys: seq<string>, i: nat, flows: map<string, seq<string>>)
    requires DictValid(b) && i < |xs|
    ensures PutAll(b, Rows(xs[..i + 1], ys, flows)) == PutAll(PutAll(b, Rows(xs[..i], ys, flows)), Row(xs[i], ys, flows))
  {
    assert xs[..i + 1][..i] == xs[..i];
    PutAllAppend(b, Rows(xs[..i], ys, flows), Row(xs[i], ys, flows));
  }

  /** One more name: when target columns carry it, their rows are written. */
  lemma NameStep(b: Dict<string, string>, names: seq<string>, i: nat, inter: map<string, seq<string>>,
                 targets: map<string, seq<string>>, flows: map<string, seq<string>>)
    requires DictValid(b) && i < |names|
    ensures PutAll(b, NamePairs(names[..i + 1], inter, targets, flows)) ==
      PutAll(PutAll(b, NamePairs(names[..i], inter, targets, flows)), NameRows(names[i], inter, targets, flows))
  {
    assert names[..i + 1][..i] == names[..i];
    PutAllAppend(b, NamePairs(names[..i], inter, targets, flows), NameRows(names[i], inter, targets, flows));
  }

  /** `for y in ys: if absent: bridges[x] = y` */
  method BridgeRow(b: Dict<string, string>, x: string, ys: seq<string>, flows: map<string, seq<string>>)
    returns (r: Dict<string, string>)
    requires DictValid(b)
    ensures r == PutAll(b, Row(x, ys, flows))
  {
    r := b;
    var j := 0;
    while j < |ys|
      invariant 0 <= j <= |ys|
      invariant r == PutAll(b, Row(x, ys[..j], flows))
    {
      var y := ys[j];
      RowStep(b, x, ys, j, flows);
      if x !in flows || y !in flows[x] {
        r := Put(r, x, y);
      }
      j := j + 1;
    }
    assert ys[..j] == ys;
  }

  /** The two nested loops of strategy 1 for one name. */
  method BridgeRows(b: Dict<string, string>, xs: seq<string>, ys: seq<string>, flows: map<string, seq<string>>)
    returns (r: Dict<string, string>)
    requires DictValid(b)
    ensures r == PutAll(b, Rows(xs, ys, flows))
  {
    r := b;
    var i := 0;
    while i < |xs|
      invariant 0 <= i <= |xs|
      invariant r == PutAll(b, Rows(xs[..i], ys, flows))
    {
      RowsStep(b, xs, ys, i, flows);
      r := BridgeRow(r, xs[i], ys, flows);
      i := i + 1;
    }
    assert xs[..i] == xs;
  }

  /** Strategy 1: the loop over the names of intermediate columns. */
  method BridgeByName(b: Dict<string, string>, interCols: Dict<string, seq<string>>, targets: Dict<string, seq<string>>,
                      flows: map<string, seq<string>>) returns (r: Dict<string, string>)
    requires DictValid(b) && DictValid(interCols)
    ensures r == PutAll(b, NamePairs(interCols.keys, interCols.m, targets.m, flows))
  {
    r := b;
    var names := interCols.keys;
    var i := 0;
    while i < |names|
      invariant 0 <= i <= |names|
      invariant r == PutAll(b, NamePairs(names[..i], interCols.m, targets.m, flows))
    {
      NameStep(b, names, i, interCols.m, targets.m, flows);
      assert names[i] in interCols.m;
      r := BridgeName(r, names[i], interCols.m, targets.m, flows);
      i := i + 1;
    }
    assert names[..i] == names;
  }

  /** The body of strategy 1 for one intermediate column name. */
  method BridgeName(b: Dict<string, string>, name: string, inter: map<string, seq<string>>,
                    targets: map<string, seq<string>>, flows: map<string, seq<string>>) returns (r: Dict<string, string>)
    requires DictValid(b) && name in inter
    ensures r == PutAll(b, NameRows(name, inter, targets, flows))
  {
    r := b;
    if name in targets {
      r := BridgeRows(r, inter[name], targets[name], flows);
    }
  }

  lemma PairsStep(b: Dict<string, string>, x: string, ys: seq<string>, j: nat)
    requires DictValid(b) && j < |ys|
    ensures PutAll(b, Pairs(x, ys[..j + 1])) == Put(PutAll(b, Pairs(x, ys[..j])), x, ys[j])
  {
    var p := Pairs(x, ys[..j + 1]);
    assert p[..j] == Pairs(x, ys[..j]);
    assert p[j] == (x, ys[j]);
    PutAllSnoc(b, p, j);
    assert p[..j + 1] == p;
  }

  /** `for target_col in matching_targets: bridges[source_col] = target_col` */
  method BridgeAll(b: Dict<string, string>, x: string, ys: seq<string>) returns (r: Dict<string, string>)
    requires DictValid(b)
    ensures r == PutAll(b, Pairs(x, ys))
  {
    r := b;
    var j := 0;
    while j < |ys|
      invariant 0 <= j <= |ys|
      invariant r == PutAll(b, Pairs(x, ys[..j]))
    {
      PairsStep(b, x, ys, j);
      r := Put(r, x, ys[j]);
      j := j + 1;
    }
    assert ys[..j] == ys;
  }

  /** The loop over the source columns of one MERGE pattern. */
  method BridgeMergeRows(b: Dict<string, string>, sourceCols: seq<string>, targetCols: seq<string>) returns (r: Dict<string, string>)
    requires DictValid(b)
    ensures r == PutAll(b, MergeRows(sourceCols, targetCols))
  {
    r := b;
    var i := 0;
    while i < |sourceCols|
      invariant 0 <= i <= |sourceCols|
      invariant r == PutAll(b, MergeRows(sourceCols[..i], targetCols))
    {
      assert sourceCols[..i + 1][..i] == sourceCols[..i];
      var sourceCol := sourceCols[i];
      var matching := Matching(targetCols, LastSegment(sourceCol));
      PutAllAppend(b, MergeRows(sourceCols[..i], targetCols), Pairs(sourceCol, matching));
      r := BridgeAll(r, sourceCol, matching);
      i := i + 1;
    }
    assert sourceCols[..i] == sourceCols;
  }

  /** The body of the loop over the MERGE patterns. */
  method BridgePattern(b: Dict<string, string>, q: MergePattern, items: seq<(string, string)>) returns (r: Dict<string, string>)
    requires DictValid(b)
    ensures r == PutAll(b, PatternPairs(q, items))
  {
    r := b;
    var sourceTable := Lower(q.sourceTable);
    var targetTable := Lower(q.targetTable);
    if sourceTable != "" && targetTable != "" {
      var sourceCols := ColsOf(items, sourceTable);
      var targetCols := ColsOf(items, targetTable);
      r := BridgeMergeRows(r, sourceCols, targetCols);
    }
  }

  /** Strategy 2: the loop over the MERGE patterns. */
  method BridgeByMerge(b: Dict<string, string>, patterns: seq<MergePattern>, items: seq<(string, string)>) returns (r: Dict<string, string>)
    requires DictValid(b)
    ensures r == PutAll(b, MergePairs(patterns, items))
  {
    r := b;
    var i := 0;
    while i < |patterns|
      invariant 0 <= i <= |patterns|
      invariant r == PutAll(b, MergePairs(patterns[..i], items))
    {
      assert patterns[..i + 1][..i] == patterns[..i];
      PutAllAppend(b, MergePairs(patterns[..i], items), PatternPairs(patterns[i], items));
      r := BridgePattern(r, patterns[i], items);
      i := i + 1;
    }
    assert patterns[..i] == patterns;
  }

  /** Strategy 3: the loop over the intermediate columns. */
  method BridgeBySynonym(b: Dict<string, string>, items: seq<(string, string)>, inter: set<string>,
                         targets: Dict<string, seq<string>>, flows: map<string, seq<string>>) returns (r: Dict<string, string>)
    requires DictValid(b)
    ensures r == PutAll(b, SynonymPairs(items, inter, targets.m, flows))
  {
    r := b;
    var i := 0;
    while i < |items|
      invariant 0 <= i <= |items|
      invariant r == PutAll(b, SynonymPairs(items[..i], inter, targets.m, flows))
    {
      assert items[..i + 1][..i] == items[..i];
      var (col, table) := items[i];
      var name := LastSegment(col);
      var more := if table in inter && name in Synonyms then Row(col, Targets(targets.m, Synonyms[name]), flows) else [];
      PutAllAppend(b, SynonymPairs(items[..i], inter, targets.m, flows), more);
      if table in inter && name in Synonyms {
        var matching := Targets(targets.m, Synonyms[name]);
        r := BridgeRow(r, col, matching, flows);
      }
      i := i + 1;
    }
    assert items[..i] == items;
  }

  /** `_discover_dynamic_bridges`, strategy by strategy. */
  method DiscoverBridges(flows: map<string, seq<string>>, ct: Dict<string, string>, sources: set<string>, finals: set<string>,
                         patterns: Option<seq<MergePattern>>) returns (bridges: Dict<string, string>)
    requires DictValid(ct)
    ensures bridges == Bridges(flows, ct, sources, finals, patterns)
  {
    var items := Items(ct);
    var inter := CollectIntermediate(ct, sources, finals);
    var targets := GroupColumns(items, finals);
    var interCols := GroupColumns(items, inter);
    var c1 := NamePairs(interCols.keys, interCols.m, targets.m, flows);
    var c2 := if patterns.Some? then MergePairs(patterns.value, items) else [];
    var c3 := SynonymPairs(items, inter, targets.m, flows);
    PutAllAppend(EmptyDict(), c1, c2);
    PutAllAppend(EmptyDict(), c1 + c2, c3);
    bridges := BridgeByName(EmptyDict(), interCols, targets, flows);
    if patterns.Some? {
      bridges := BridgeByMerge(bridges, patterns.value, items);
    }
    bridges := BridgeBySynonym(bridges, items, inter, targets, flows);
  }

  // ------------------------------------------------- what a bridge is

  /** Some pair of `items` lists column `c` with a table in `admit`. */
  ghost predicate ListedIn(items: seq<(string, string)>, c: string, admit: set<string>) {
    exists i :: 0 <= i < |items| && items[i].0 == c && items[i].1 in admit
  }

  lemma ListedInSnoc(items: seq<(string, string)>, c: string, admit: set<string>)
    requires items != []
    ensures ListedIn(items, c, admit) <==>
      ListedIn(items[..|items| - 1], c, admit) || (items[|items| - 1].0 == c && items[|items| - 1].1 in admit)
  {
    var n := |items| - 1;
    var pre := items[..n];
    if ListedIn(items, c, admit) {
      var i :| 0 <= i < |items| && items[i].0 == c && items[i].1 in admit;
      if i < n { assert pre[i] == items[i]; }
    }
    if ListedIn(pre, c, admit) {
      var i :| 0 <= i < |pre| && pre[i].0 == c && pre[i].1 in admit;
      assert items[i] == pre[i];
    }
    if items[n].0 == c && items[n].1 in admit { assert items[n].0 == c; }
  }

  /** The items of a column map list a column exactly when the map holds it. */
  lemma ItemsListed(ct: Dict<string, string>, c: string, admit: set<string>)
    requires DictValid(ct)
    ensures ListedIn(Items(ct), c, admit) <==> c in ct.m && ct.m[c] in admit
  {
    var items := Items(ct);
    if c in ct.m && ct.m[c] in admit {
      var i :| 0 <= i < |ct.keys| && ct.keys[i] == c;
      assert items[i].0 == c;
    }
  }

  /** A column is grouped under its own name, and only there, exactly when
      its table is admitted. */
  lemma {:induction false} GroupsMembers(items: seq<(string, string)>, admit: set<string>, c: string, name: string)
    ensures c in Targets(Groups(items, admit).m, name) <==> name == LastSegment(c) && ListedIn(items, c, admit)
    decreases |items|
  {
    if items != [] {
      GroupsMembers(items[..|items| - 1], admit, c, name);
      ListedInSnoc(items, c, admit);
    }
  }

  lemma {:induction false} RowMembers(x: string, ys: seq<string>, flows: map<string, seq<string>>, p: (string, string))
    ensures p in Row(x, ys, flows) <==> p.0 == x && p.1 in ys && Absent(flows, x, p.1)
    decreases |ys|
  {
    if ys != [] {
      var n := |ys| - 1;
      RowMembers(x, ys[..n], flows, p);
      assert ys == ys[..n] + [ys[n]];
    }
  }

  lemma {:induction false} RowsMembers(xs: seq<string>, ys: seq<string>, flows: map<string, seq<string>>, p: (string, string))
    ensures p in Rows(xs, ys, flows) <==> p.0 in xs && p.1 in ys && Absent(flows, p.0, p.1)
    decreases |xs|
  {
    if xs != [] {
      var n := |xs| - 1;
      RowsMembers(xs[..n], ys, flows, p);
      RowMembers(xs[n], ys, flows, p);
      assert xs == xs[..n] + [xs[n]];
    }
  }

  /** Strategy 1 pairs a column with a target column through a name they
      are both grouped under. */
  ghost predicate NameMatch(names: seq<string>, inter: map<string, seq<string>>, targets: map<string, seq<string>>, p: (string, string)) {
    exists name :: name in names && name in targets && p.0 in Targets(inter, name) && p.1 in targets[name]
  }

  lemma {:induction false} NamePairsMembers(names: seq<string>, inter: map<string, seq<string>>, targets: map<string, seq<string>>,
                                           flows: map<string, seq<string>>, p: (string, string))
    ensures p in NamePairs(names, inter, targets, flows) <==> NameMatch(names, inter, targets, p) && Absent(flows, p.0, p.1)
    decreases |names|
  {
    if names != [] {
      var n := |names| - 1;
      var pre := names[..n];
      NamePairsMembers(pre, inter, targets, flows, p);
      if names[n] in targets {
        RowsMembers(Targets(inter, names[n]), targets[names[n]], flows, p);
      }
      assert names == pre + [names[n]];
      if NameMatch(names, inter, targets, p) {
        var name :| name in names && name in targets && p.0 in Targets(inter, name) && p.1 in targets[name];
        if name != names[n] { assert name in pre; }
      }
    }
  }

  lemma {:induction false} ColsOfMembers(items: seq<(string, string)>, wanted: string, c: string)
    ensures c in ColsOf(items, wanted) <==> ListedIn(items, c, {wanted})
    decreases |items|
  {
    if items != [] {
      ColsOfMembers(items[..|items| - 1], wanted, c);
      ListedInSnoc(items, c, {wanted});
    }
  }

  lemma {:induction false} MatchingMembers(cols: seq<string>, name: string, c: string)
    ensures c in Matching(cols, name) <==> c in cols && LastSegment(c) == name
    decreases |cols|
  {
    if cols != [] {
      var n := |cols| - 1;
      MatchingMembers(cols[..n], name, c);
      assert cols == cols[..n] + [cols[n]];
    }
  }

  lemma {:induction false} MergeRowsMembers(sourceCols: seq<string>, targetCols: seq<string>, p: (string, string))
    ensures p in MergeRows(sourceCols, targetCols) <==>
      p.0 in sourceCols && p.1 in targetCols && LastSegment(p.1) == LastSegment(p.0)
    decreases |sourceCols|
  {
    if sourceCols != [] {
      var n := |sourceCols| - 1;
      var sc := sourceCols[n];
      var pre := sourceCols[..n];
      var ys := Matching(targetCols, LastSegment(sc));
      MergeRowsMembers(pre, targetCols, p);
      MatchingMembers(targetCols, LastSegment(sc), p.1);
      PairsMembers(sc, ys, p);
      assert MergeRows(sourceCols, targetCols) == MergeRows(pre, targetCols) + Pairs(sc, ys);
      assert p in MergeRows(sourceCols, targetCols) <==> p in MergeRows(pre, targetCols) || p in Pairs(sc, ys);
      assert sourceCols == pre + [sc];
      assert p.0 in sourceCols <==> p.0 in pre || p.0 == sc;
    }
  }

  lemma PairsMembers(x: string, ys: seq<string>, p: (string, string))
    ensures p in Pairs(x, ys) <==> p.0 == x && p.1 in ys
  {
    if p.0 == x && p.1 in ys {
      var j :| 0 <= j < |ys| && ys[j] == p.1;
      assert Pairs(x, ys)[j] == p;
    }
  }

  /** MERGE pattern `q` names both tables, lists `p.0` under its source
      table and `p.1` under its target table, and the two share a name. */
  ghost predicate MergeOf(q: MergePattern, items: seq<(string, string)>, p: (string, string)) {
    Lower(q.sourceTable) != "" && Lower(q.targetTable) != "" &&
    ListedIn(items, p.0, {Lower(q.sourceTable)}) && ListedIn(items, p.1, {Lower(q.targetTable)}) &&
    LastSegment(p.0) == LastSegment(p.1)
  }

  lemma PatternPairsMembers(q: MergePattern, items: seq<(string, string)>, p: (string, string))
    ensures p in PatternPairs(q, items) <==> MergeOf(q, items, p)
  {
    var s := Lower(q.sourceTable);
    var t := Lower(q.targetTable);
    MergeRowsMembers(ColsOf(items, s), ColsOf(items, t), p);
    ColsOfMembers(items, s, p.0);
    ColsOfMembers(items, t, p.1);
  }

  lemma {:induction false} SynonymPairsMembers(items: seq<(string, string)>, inter: set<string>, targets: map<string, seq<string>>,
                                              flows: map<string, seq<string>>, p: (string, string))
    ensures p in SynonymPairs(items, inter, targets, flows) <==>
      ListedIn(items, p.0, inter) && LastSegment(p.0) in Synonyms &&
      p.1 in Targets(targets, Synonyms[LastSegment(p.0)]) && Absent(flows, p.0, p.1)
    decreases |items|
  {
    if items != [] {
      var n := |items| - 1;
      var (c, t) := items[n];
      SynonymPairsMembers(items[..n], inter, targets, flows, p);
      ListedInSnoc(items, p.0, inter);
      if LastSegment(c) in Synonyms {
        RowMembers(c, Targets(targets, Synonyms[LastSegment(c)]), flows, p);
      }
    }
  }

  /** What every bridge `k -> v` is: both are mapped columns, and either
      an intermediate column bridged to a final-table column of the same
      or the synonymous name over an edge the flows lack (strategies 1
      and 3), or two same-named columns of the tables of a MERGE pattern
      (strategy 2). */
  predicate BridgeOk(flows: map<string, seq<string>>, ct: map<string, string>, inter: set<string>, finals: set<string>,
                     patterns: Option<seq<MergePattern>>, k: string, v: string) {
    k in ct && v in ct &&
    ((ct[k] in inter && ct[v] in finals && Absent(flows, k, v) &&
      (LastSegment(k) == LastSegment(v) || (LastSegment(k) in Synonyms && Synonyms[LastSegment(k)] == LastSegment(v)))) ||
     (patterns.Some? && LastSegment(k) == LastSegment(v) && exists q :: q in patterns.value && MergedBy(ct, q, k, v)))
  }

  /** The writes the three strategies make are exactly the bridges
      `BridgeOk` describes. */
  lemma BridgePairsMembers(flows: map<string, seq<string>>, ct: Dict<string, string>, sources: set<string>, finals: set<string>,
                           patterns: Option<seq<MergePattern>>, k: string, v: string)
    requires DictValid(ct)
    ensures (k, v) in BridgePairs(flows, ct, sources, finals, patterns) <==>
      BridgeOk(flows, ct.m, IntermediateOf(ct.m, sources, finals), finals, patterns, k, v)
  {
    var items := Items(ct);
    var inter := IntermediateOf(ct.m, sources, finals);
    var targets := Groups(items, finals);
    var interCols := Groups(items, inter);
    var p := (k, v);
    var c1 := NamePairs(interCols.keys, interCols.m, targets.m, flows);
    var c2 := if patterns.Some? then MergePairs(patterns.value, items) else [];
    var c3 := SynonymPairs(items, inter, targets.m, flows);
    assert BridgePairs(flows, ct, sources, finals, patterns) == c1 + c2 + c3;
    NameBridges(flows, ct, inter, finals, k, v);
    if patterns.Some? {
      MergeBridges(ct, patterns.value, k, v);
    }
    SynonymPairsMembers(items, inter, targets.m, flows, p);
    ItemsListed(ct, k, inter);
    ItemsListed(ct, v, finals);
    if LastSegment(k) in Synonyms {
      GroupsMembers(items, finals, v, Synonyms[LastSegment(k)]);
    }
  }

  /** Strategy 1 in terms of the column map. */
  lemma NameBridges(flows: map<string, seq<string>>, ct: Dict<string, string>, inter: set<string>, finals: set<string>,
                    k: string, v: string)
    requires DictValid(ct)
    ensures (k, v) in NamePairs(Groups(Items(ct), inter).keys, Groups(Items(ct), inter).m, Groups(Items(ct), finals).m, flows) <==>
      k in ct.m && v in ct.m && ct.m[k] in inter && ct.m[v] in finals && LastSegment(k) == LastSegment(v) && Absent(flows, k, v)
  {
    var items := Items(ct);
    var interCols := Groups(items, inter);
    var targets := Groups(items, finals);
    var p := (k, v);
    NamePairsMembers(interCols.keys, interCols.m, targets.m, flows, p);
    ItemsListed(ct, k, inter);
    ItemsListed(ct, v, finals);
    var name := LastSegment(k);
    GroupsMembers(items, inter, k, name);
    GroupsMembers(items, finals, v, name);
    if NameMatch(interCols.keys, interCols.m, targets.m, p) {
      var n :| n in interCols.keys && n in targets.m && k in Targets(interCols.m, n) && v in targets.m[n];
      GroupsMembers(items, inter, k, n);
      GroupsMembers(items, finals, v, n);
    }
    if k in ct.m && v in ct.m && ct.m[k] in inter && ct.m[v] in finals && LastSegment(k) == LastSegment(v) {
      assert name in interCols.m && name in targets.m;
      assert name in interCols.keys;
    }
  }

  /** MERGE pattern `q` names both tables, and they are the tables of
      `k` and `v`. */
  predicate MergedBy(ct: map<string, string>, q: MergePattern, k: string, v: string) {
    Lower(q.sourceTable) != "" && Lower(q.targetTable) != "" &&
    k in ct && v in ct && ct[k] == Lower(q.sourceTable) && ct[v] == Lower(q.targetTable)
  }

  /** One MERGE pattern in terms of the column map. */
  lemma PatternBridge(ct: Dict<string, string>, q: MergePattern, k: string, v: string)
    requires DictValid(ct)
    ensures (k, v) in PatternPairs(q, Items(ct)) <==> MergedBy(ct.m, q, k, v) && LastSegment(k) == LastSegment(v)
  {
    PatternPairsMembers(q, Items(ct), (k, v));
    ItemsListed(ct, k, {Lower(q.sourceTable)});
    ItemsListed(ct, v, {Lower(q.targetTable)});
  }

  /** Strategy 2 in terms of the column map. */
  lemma MergeBridges(ct: Dict<string, string>, patterns: seq<MergePattern>, k: string, v: string)
    requires DictValid(ct)
    ensures (k, v) in MergePairs(patterns, Items(ct)) <==>
      LastSegment(k) == LastSegment(v) && exists q :: q in patterns && MergedBy(ct.m, q, k, v)
  {
    var items := Items(ct);
    var p := (k, v);
    var f := q => PatternPairs(q, items);
    FlattenMembers(patterns, f, p);
    if p in MergePairs(patterns, items) {
      var i :| 0 <= i < |patterns| && p in f(patterns[i]);
      PatternBridge(ct, patterns[i], k, v);
      assert patterns[i] in patterns;
    }
    if LastSegment(k) == LastSegment(v) && exists q :: q in patterns && MergedBy(ct.m, q, k, v) {
      var q :| q in patterns && MergedBy(ct.m, q, k, v);
      var i :| 0 <= i < |patterns| && patterns[i] == q;
      PatternBridge(ct, q, k, v);
      assert p in f(patterns[i]);
    }
  }

  /** The bridges `_discover_dynamic_bridges` returns: a column is bridged
      exactly when some strategy finds a bridge for it, and the bridge it
      keeps (the last one written) is one `BridgeOk` describes. A bridge
      over an edge the flows already hold can only come from a MERGE
      pattern. */
  lemma BridgesSound(flows: map<string, seq<string>>, ct: Dict<string, string>, sources: set<string>, finals: set<string>,
                     patterns: Option<seq<MergePattern>>, k: string)
    requires DictValid(ct)
    ensures k in Bridges(flows, ct, sources, finals, patterns).m <==>
      exists v :: BridgeOk(flows, ct.m, IntermediateOf(ct.m, sources, finals), finals, patterns, k, v)
    ensures k in Bridges(flows, ct, sources, finals, patterns).m ==>
      BridgeOk(flows, ct.m, IntermediateOf(ct.m, sources, finals), finals, patterns, k, Bridges(flows, ct, sources, finals, patterns).m[k])
  {
    var pairs := BridgePairs(flows, ct, sources, finals, patterns);
    var inter := IntermediateOf(ct.m, sources, finals);
    PutAllKeys(EmptyDict(), pairs, k);
    if k in Bridges(flows, ct, sources, finals, patterns).m {
      var i :| 0 <= i < |pairs| && pairs[i].0 == k;
      PutAllLastWins(EmptyDict(), pairs, k, i);
      var j :| LastWrite(pairs, k, j) && PutAll(EmptyDict(), pairs).m[k] == pairs[j].1;
      assert pairs[j] == (k, pairs[j].1);
      BridgePairsMembers(flows, ct, sources, finals, patterns, k, pairs[j].1);
    }
    if exists v :: BridgeOk(flows, ct.m, inter, finals, patterns, k, v) {
      var v :| BridgeOk(flows, ct.m, inter, finals, patterns, k, v);
      BridgePairsMembers(flows, ct, sources, finals, patterns, k, v);
      var i :| 0 <= i < |pairs| && pairs[i] == (k, v);
      assert pairs[i].0 == k;
    }
  }

  // ------------------------------------------------------ the hybrid trace

  /** `comprehensive_flows` once the bridges are appended. */
  function FinalFlows(ms: seq<ColumnMapping>, ls: seq<CSharpLineage>, patterns: Option<seq<MergePattern>>,
                      sources: set<string>, finals: set<string>): (r: Dict<string, seq<string>>)
    ensures DictValid(r)
  {
    var flows := Comprehensive(ms, ls);
    AppendAll(flows, Items(Bridges(flows.m, ColumnTables(flows), sources, finals, patterns)))
  }

  /** The graph `find_complete_paths_to_finals` walks: the final flows, the
      column map rebuilt from them, and the C# target tables. */
  function HybridSearch(ms: seq<ColumnMapping>, ls: seq<CSharpLineage>, patterns: Option<seq<MergePattern>>,
                        sources: set<string>, finals: set<string>): Search {
    var flows := FinalFlows(ms, ls, patterns, sources, finals);
    Search(flows.m, ColumnTables(flows).m, finals)
  }

  /** A column of the final flows follows another exactly when a mapping,
      a C# lineage or the bridge kept for the first column joins them. */
  lemma FinalFlowsEdges(ms: seq<ColumnMapping>, ls: seq<CSharpLineage>, patterns: Option<seq<MergePattern>>,
                        sources: set<string>, finals: set<string>, s: string, t: string)
    ensures t in Targets(FinalFlows(ms, ls, patterns, sources, finals).m, s) <==>
      (exists i :: EdgeAt(MappingEdges(ms) + LineageEdges(ls), i, s, t)) ||
      (var flows := Comprehensive(ms, ls);
       var b := Bridges(flows.m, ColumnTables(flows), sources, finals, patterns);
       s in b.m && b.m[s] == t)
  {
    var flows := Comprehensive(ms, ls);
    var b := Bridges(flows.m, ColumnTables(flows), sources, finals, patterns);
    AppendAllEdges(EmptyDict(), MappingEdges(ms) + LineageEdges(ls), s, t);
    AppendBridgeEdges(flows, b, s, t);
  }

  /** Appending the items of a bridge dictionary adds exactly its pairs. */
  lemma AppendBridgeEdges(flows: Dict<string, seq<string>>, b: Dict<string, string>, s: string, t: string)
    requires DictValid(flows) && DictValid(b)
    ensures t in Targets(AppendAll(flows, Items(b)).m, s) <==> t in Targets(flows.m, s) || (s in b.m && b.m[s] == t)
  {
    var items := Items(b);
    AppendAllEdges(flows, items, s, t);
    if exists i :: EdgeAt(items, i, s, t) {
      var i :| EdgeAt(items, i, s, t);
      assert b.keys[i] == s;
    }
    if s in b.m && b.m[s] == t {
      var i :| 0 <= i < |b.keys| && b.keys[i] == s;
      assert EdgeAt(items, i, s, t);
    }
  }

  /** The start filter: a C# source table that is not a temp table and not
      one of the aliases the scan mistakes for tables. */
  predicate IsOriginalSource(t: string, sources: set<string>) {
    t in sources && !StartsWith(t, "#") && !StartsWith(t, "<default>.#") && t !in ["x", "r", "a", "j", "joinmap"]
  }

  function Identity(t: string): string { t }

  /** The tables of the dotted steps, one per dotted step. */
  function DottedTables(steps: seq<string>): seq<string> {
    if steps == [] then []
    else (if '.' in steps[0] then [AllButLast(steps[0])] else []) + DottedTables(steps[1..])
  }

  /** `intermediate_tables`: the tables of the dotted steps, first
      occurrence first. */
  function InnerTables(steps: seq<string>): seq<string> {
    Dedup(DottedTables(steps), Identity)
  }

  /** The set of tables of the dotted steps. */
  function TablesOfSteps(steps: seq<string>): set<string> {
    set s | s in steps && '.' in s :: AllButLast(s)
  }

  lemma {:induction false} DottedTablesMembers(steps: seq<string>, t: string)
    ensures t in DottedTables(steps) <==> t in TablesOfSteps(steps)
    decreases |steps|
  {
    if steps != [] {
      DottedTablesMembers(steps[1..], t);
      assert steps == [steps[0]] + steps[1..];
      if t in TablesOfSteps(steps) {
        var s :| s in steps && '.' in s && AllButLast(s) == t;
        if s != steps[0] { assert s in steps[1..]; }
      }
    }
  }

  /** The intermediate tables repeat no table and are exactly the tables of
      the dotted steps. */
  lemma InnerTablesFacts(steps: seq<string>)
    ensures Simple(InnerTables(steps))
    ensures Elems(InnerTables(steps)) == TablesOfSteps(steps)
  {
    var xs := DottedTables(steps);
    var r := InnerTables(steps);
    DedupFromUnique(xs, Identity, {});
    DedupFromSubset(xs, Identity, {});
    forall t ensures t in r <==> t in TablesOfSteps(steps) {
      DottedTablesMembers(steps, t);
      if t in xs {
        var i :| 0 <= i < |xs| && xs[i] == t;
        DedupFromComplete(xs, Identity, {}, i);
      }
    }
  }

  /** One turn of the loop that builds `intermediate_tables`. */
  lemma InnerTablesStep(step: string, rest: seq<string>, r: seq<string>)
    ensures r + DedupFrom(DottedTables([step] + rest), Identity, Elems(r)) ==
      (var r' := if '.' in step && AllButLast(step) !in r then r + [AllButLast(step)] else r;
       r' + DedupFrom(DottedTables(rest), Identity, Elems(r')))
  {
    assert ([step] + rest)[1..] == rest;
    if '.' in step {
      var t := AllButLast(step);
      var xs := [t] + DottedTables(rest);
      assert DottedTables([step] + rest) == xs;
      assert xs[1..] == DottedTables(rest);
      if t in r {
        assert Identity(xs[0]) in Elems(r);
      } else {
        assert Identity(xs[0]) !in Elems(r);
        assert Elems(r + [t]) == Elems(r) + {t};
      }
    } else {
      assert DottedTables([step] + rest) == [] + DottedTables(rest);
      assert [] + DottedTables(rest) == DottedTables(rest);
    }
  }

  /** The loop that builds `intermediate_tables`. */
  method InnerTablesOf(steps: seq<string>) returns (r: seq<string>)
    ensures r == InnerTables(steps)
  {
    r := [];
    assert steps[0..] == steps;
    assert Elems(r) == {};
    var i := 0;
    while i < |steps|
      invariant 0 <= i <= |steps|
      invariant r + DedupFrom(DottedTables(steps[i..]), Identity, Elems(r)) == InnerTables(steps)
    {
      assert steps[i..] == [steps[i]] + steps[i + 1..];
      InnerTablesStep(steps[i], steps[i + 1..], r);
      var step := steps[i];
      if '.' in step {
        var stepTable := AllButLast(step);
        if stepTable !in r {
          r := r + [stepTable];
        }
      }
      i := i + 1;
    }
  }

  /** One entry of `end_to_end_mappings`. */
  datatype HybridMapping = HybridMapping(sourceTable: string, sourceColumn: string, targetTable: string, targetColumn: string,
                                         steps: int, path: string, intermediateTables: seq<string>)

  /** The arrow the path is joined with. */
  const Arrow: string := " \U{2192} "

  /** The record built for a complete path. */
  function HybridOf(p: seq<string>): HybridMapping
    requires |p| >= 2
  {
    var s := p[0];
    var t := p[|p| - 1];
    HybridMapping(AllButLast(s), LastSegment(s), AllButLast(t), LastSegment(t), |p|, JoinWith(p, Arrow), InnerTables(p[1..|p| - 1]))
  }

  /** The tests a complete path passes before it is recorded: at least two
      columns and both ends dotted. */
  predicate Traceable(p: seq<string>) {
    |p| >= 2 && '.' in p[0] && '.' in p[|p| - 1]
  }

  /** The `for complete_path in complete_paths` loop. */
  function HybridPathMappings(paths: seq<seq<string>>): seq<HybridMapping> {
    if paths == [] then []
    else
      var p := paths[|paths| - 1];
      HybridPathMappings(paths[..|paths| - 1]) + if Traceable(p) then [HybridOf(p)] else []
  }

  /** The loop over the keys of `comprehensive_flows`: for each column of an
      original source table, the records of its complete paths. */
  function Candidates(g: Search, sources: set<string>, keys: seq<string>): seq<HybridMapping> {
    if keys == [] then []
    else
      var k := keys[|keys| - 1];
      Candidates(g, sources, keys[..|keys| - 1]) +
        if k in g.tables && IsOriginalSource(g.tables[k], sources) then HybridPathMappings(AllPaths(g, k)) else []
  }

  /** The de-duplication key. */
  function HybridKey(m: HybridMapping): (string, string, string, string) {
    (m.sourceTable, m.sourceColumn, m.targetTable, m.targetColumn)
  }

  /** `_trace_end_to_end_lineage`: the source and target tables lower-cased,
      the flows with their bridges searched from every original source
      column, first record per key kept. */
  function HybridMappings(ms: seq<ColumnMapping>, ls: seq<CSharpLineage>, patterns: Option<seq<MergePattern>>,
                          sourceTables: seq<string>, targetTables: seq<string>): seq<HybridMapping> {
    var sources := LowerNames(sourceTables);
    var finals := LowerNames(targetTables);
    var flows := FinalFlows(ms, ls, patterns, sources, finals);
    Dedup(Candidates(HybridSearch(ms, ls, patterns, sources, finals), sources, flows.keys), HybridKey)
  }

  // ------------------------------------------------- what a record means

  /** `m` records the complete path `p`: a walk of at least two columns
      along the flows, repeating no column and reaching a final column
      only at its end, from a column of an original source table; the
      record splits its ends at their last dots, counts its columns, joins
      it with arrows and lists its inner tables once each. */
  predicate HybridWitness(g: Search, sources: set<string>, m: HybridMapping, p: seq<string>) {
    Reported(g, p, {}) && |p| >= 2 &&
    m.sourceTable + "." + m.sourceColumn == p[0] && '.' !in m.sourceColumn &&
    m.targetTable + "." + m.targetColumn == p[|p| - 1] && '.' !in m.targetColumn &&
    IsOriginalSource(m.sourceTable, sources) && m.targetTable in g.finals &&
    m.steps == |p| && m.path == JoinWith(p, Arrow) &&
    Simple(m.intermediateTables) && Elems(m.intermediateTables) == TablesOfSteps(p[1..|p| - 1])
  }

  ghost predicate HybridSound(g: Search, sources: set<string>, m: HybridMapping) {
    exists p :: HybridWitness(g, sources, m, p)
  }

  /** The column map of a search gives each column its table part. */
  predicate TablesByName(g: Search) {
    forall c :: c in g.tables ==> g.tables[c] == AllButLast(c)
  }

  lemma HybridOfSound(g: Search, sources: set<string>, p: seq<string>)
    requires TablesByName(g) && Reported(g, p, {}) && Traceable(p)
    requires p[0] in g.tables && IsOriginalSource(g.tables[p[0]], sources)
    ensures HybridWitness(g, sources, HybridOf(p), p)
  {
    DottedName(p[0]);
    DottedName(p[|p| - 1]);
    InnerTablesFacts(p[1..|p| - 1]);
  }

  lemma {:induction false} HybridPathMappingsFrom(paths: seq<seq<string>>, m: HybridMapping)
    requires m in HybridPathMappings(paths)
    ensures exists i :: 0 <= i < |paths| && Traceable(paths[i]) && m == HybridOf(paths[i])
  {
    var n := |paths| - 1;
    if m in HybridPathMappings(paths[..n]) {
      HybridPathMappingsFrom(paths[..n], m);
      var i :| 0 <= i < n && Traceable(paths[..n][i]) && m == HybridOf(paths[..n][i]);
      assert paths[..n][i] == paths[i];
    } else {
      assert Traceable(paths[n]) && m == HybridOf(paths[n]);
    }
  }

  /** Every candidate records a complete path from an original source
      column. */
  lemma {:induction false} CandidatesSound(g: Search, sources: set<string>, keys: seq<string>, m: HybridMapping)
    requires TablesByName(g) && m in Candidates(g, sources, keys)
    ensures HybridSound(g, sources, m)
  {
    var n := |keys| - 1;
    if m in Candidates(g, sources, keys[..n]) {
      CandidatesSound(g, sources, keys[..n], m);
    } else {
      var k := keys[n];
      var paths := AllPaths(g, k);
      HybridPathMappingsFrom(paths, m);
      var i :| 0 <= i < |paths| && Traceable(paths[i]) && m == HybridOf(paths[i]);
      AllPathsSound(g, k, paths[i]);
      HybridOfSound(g, sources, paths[i]);
    }
  }

  /** The search built from the final flows gives each column its table part. */
  lemma HybridSearchTables(ms: seq<ColumnMapping>, ls: seq<CSharpLineage>, patterns: Option<seq<MergePattern>>,
                           sources: set<string>, finals: set<string>)
    ensures TablesByName(HybridSearch(ms, ls, patterns, sources, finals))
  {
    var flows := FinalFlows(ms, ls, patterns, sources, finals);
    forall c | c in ColumnTables(flows).m ensures ColumnTables(flows).m[c] == AllButLast(c) {
      ColumnTablesFacts(flows, c);
    }
  }

  /** Every traceable path of the list has its record. */
  lemma {:induction false} HybridPathMappingsHas(paths: seq<seq<string>>, i: nat)
    requires i < |paths| && Traceable(paths[i])
    ensures HybridOf(paths[i]) in HybridPathMappings(paths)
  {
    var n := |paths| - 1;
    if i < n {
      HybridPathMappingsHas(paths[..n], i);
      assert paths[..n][i] == paths[i];
    }
  }

  /** Every traceable complete path of a key of an original source table
      has its record among the candidates. */
  lemma {:induction false} CandidatesHas(g: Search, sources: set<string>, keys: seq<string>, k: nat, p: seq<string>)
    requires k < |keys| && keys[k] in g.tables && IsOriginalSource(g.tables[keys[k]], sources)
    requires p in AllPaths(g, keys[k]) && Traceable(p)
    ensures HybridOf(p) in Candidates(g, sources, keys)
  {
    var n := |keys| - 1;
    if k < n {
      assert keys[..n][k] == keys[k];
      CandidatesHas(g, sources, keys[..n], k, p);
      CandidatesPrefix(g, sources, keys, HybridOf(p));
    } else {
      var paths := AllPaths(g, keys[k]);
      var i :| 0 <= i < |paths| && paths[i] == p;
      HybridPathMappingsHas(paths, i);
      CandidatesLast(g, sources, keys, HybridOf(p));
    }
  }

  /** The candidates of the earlier keys stay candidates. */
  lemma CandidatesPrefix(g: Search, sources: set<string>, keys: seq<string>, m: HybridMapping)
    requires keys != [] && m in Candidates(g, sources, keys[..|keys| - 1])
    ensures m in Candidates(g, sources, keys)
  {
  }

  /** The records of the last key are candidates when its table is an
      original source. */
  lemma CandidatesLast(g: Search, sources: set<string>, keys: seq<string>, m: HybridMapping)
    requires keys != [] && keys[|keys| - 1] in g.tables && IsOriginalSource(g.tables[keys[|keys| - 1]], sources)
    requires m in HybridPathMappings(AllPaths(g, keys[|keys| - 1]))
    ensures m in Candidates(g, sources, keys)
  {
  }

  /** The converse of the soundness of `_trace_end_to_end_lineage`: every
      complete path along the flows with their bridges, from a column of an
      original source table to a final column, with both ends dotted, has
      its key among the kept records. */
  lemma HybridTraceComplete(ms: seq<ColumnMapping>, ls: seq<CSharpLineage>, patterns: Option<seq<MergePattern>>,
                            sourceTables: seq<string>, targetTables: seq<string>, p: seq<string>)
    requires var g := HybridSearch(ms, ls, patterns, LowerNames(sourceTables), LowerNames(targetTables));
      Reported(g, p, {}) && Traceable(p) && IsOriginalSource(AllButLast(p[0]), LowerNames(sourceTables))
    ensures exists m :: m in HybridMappings(ms, ls, patterns, sourceTables, targetTables) && HybridKey(m) == HybridKey(HybridOf(p))
  {
    var sources := LowerNames(sourceTables);
    var finals := LowerNames(targetTables);
    var flows := FinalFlows(ms, ls, patterns, sources, finals);
    var g := HybridSearch(ms, ls, patterns, sources, finals);
    assert p[0] in flows.m;
    var k :| 0 <= k < |flows.keys| && flows.keys[k] == p[0];
    ColumnTablesFacts(flows, p[0]);
    AllPathsExact(g, p[0], p);
    CandidatesHas(g, sources, flows.keys, k, p);
    var found := Candidates(g, sources, flows.keys);
    var i :| 0 <= i < |found| && found[i] == HybridOf(p);
    DedupFromComplete(found, HybridKey, {}, i);
    var r := DedupFrom(found, HybridKey, {});
    var j :| 0 <= j < |r| && HybridKey(r[j]) == HybridKey(found[i]);
    assert r[j] in HybridMappings(ms, ls, patterns, sourceTables, targetTables);
  }

  // ------------------------------------------------------- the trace loops

  /** The body of the loop over the complete paths. */
  method RecordHybridPath(acc: seq<HybridMapping>, completePath: seq<string>) returns (r: seq<HybridMapping>)
    ensures r == acc + if Traceable(completePath) then [HybridOf(completePath)] else []
  {
    r := acc;
    if |completePath| >= 2 {
      var sourceFull := completePath[0];
      var targetFull := completePath[|completePath| - 1];
      var sourceParts := Split(sourceFull, '.');
      var targetParts := Split(targetFull, '.');
      SplitCount(sourceFull, '.');
      SplitCount(targetFull, '.');
      if |sourceParts| >= 2 && |targetParts| >= 2 {
        var intermediateTables := InnerTablesOf(completePath[1..|completePath| - 1]);
        r := r + [HybridMapping(AllButLast(sourceFull), LastSegment(sourceFull), AllButLast(targetFull), LastSegment(targetFull),
                                |completePath|, JoinWith(completePath, Arrow), intermediateTables)];
      }
    }
  }

  /** The loop over the complete paths of one source column. */
  method RecordHybridPaths(acc: seq<HybridMapping>, paths: seq<seq<string>>) returns (r: seq<HybridMapping>)
    ensures r == acc + HybridPathMappings(paths)
  {
    r := acc;
    var j := 0;
    while j < |paths|
      invariant 0 <= j <= |paths|
      invariant r == acc + HybridPathMappings(paths[..j])
    {
      assert paths[..j + 1][..j] == paths[..j];
      r := RecordHybridPath(r, paths[j]);
      j := j + 1;
    }
    assert paths[..j] == paths;
  }

  /** The scan over the keys of `comprehensive_flows`. */
  method CollectCandidates(g: Search, sources: set<string>, keys: seq<string>) returns (r: seq<HybridMapping>)
    ensures r == Candidates(g, sources, keys)
  {
    r := [];
    var i := 0;
    while i < |keys|
      invariant 0 <= i <= |keys|
      invariant r == Candidates(g, sources, keys[..i])
    {
      assert keys[..i + 1][..i] == keys[..i];
      var sourceCol := keys[i];
      if sourceCol in g.tables {
        var sourceTable := g.tables[sourceCol];
        if sourceTable in sources && !StartsWith(sourceTable, "#") && !StartsWith(sourceTable, "<default>.#") &&
           sourceTable !in ["x", "r", "a", "j", "joinmap"] {
          r := RecordHybridPaths(r, AllPaths(g, sourceCol));
        }
      }
      i := i + 1;
    }
    assert keys[..i] == keys;
  }

  /** `_trace_end_to_end_lineage`, step by step: the comprehensive flows,
      their column map, the bridges, the flows with the bridges appended,
      the rebuilt column map, the search and the de-duplication. Every
      record it keeps stands for a complete path from an original source
      column to a final column, and no two share a key. */
  method HybridTrace(ms: seq<ColumnMapping>, ls: seq<CSharpLineage>, patterns: Option<seq<MergePattern>>,
                     sourceTables: seq<string>, targetTables: seq<string>) returns (mappings: seq<HybridMapping>)
    ensures mappings == HybridMappings(ms, ls, patterns, sourceTables, targetTables)
    ensures forall m :: m in mappings ==>
      HybridSound(HybridSearch(ms, ls, patterns, LowerNames(sourceTables), LowerNames(targetTables)), LowerNames(sourceTables), m)
    ensures forall i, j :: 0 <= i < j < |mappings| ==> HybridKey(mappings[i]) != HybridKey(mappings[j])
  {
    var finals := LowerNames(targetTables);
    var sources := LowerNames(sourceTables);
    var flows := AppendEdges(EmptyDict(), MappingEdges(ms) + LineageEdges(ls));
    var ct := BuildColumnTables(flows);
    var bridges := DiscoverBridges(flows.m, ct, sources, finals, patterns);
    flows := AppendEdges(flows, Items(bridges));
    ct := BuildColumnTables(flows);
    var g := Search(flows.m, ct.m, finals);
    var found := CollectCandidates(g, sources, flows.keys);
    HybridSearchTables(ms, ls, patterns, sources, finals);
    mappings := DedupLoop(found, HybridKey);
    DedupFromSubset(found, HybridKey, {});
    DedupFromUnique(found, HybridKey, {});
    forall m | m in mappings ensures HybridSound(g, sources, m) {
      CandidatesSound(g, sources, flows.keys, m);
    }
  }
}
