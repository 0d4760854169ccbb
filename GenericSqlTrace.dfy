/**
 * generic_sql_lineage_parser.py, `_trace_end_to_end_lineage`: the column
 * flow graph built from the discovered column mappings, the final and the
 * source tables, the search for every path from a source column to a column
 * of a final table, the mappings built from those paths (with the
 * name-similarity fallback), and the de-duplication of the result.
 */
module GenericSqlTrace {
  import opened Strings
  import opened Common

  /** One entry of `self.column_mappings`: its two ends as text. */
  datatype ColumnMapping = ColumnMapping(sourceColumn: string, targetColumn: string)

  // ------------------------------------------------------------ flow graph

  /** `all_flows`: each lower-cased source column maps to the set of
      lower-cased target columns it feeds, keys in first-seen order. */
  function FlowsOf(ms: seq<ColumnMapping>): (d: Dict<string, set<string>>)
    ensures DictValid(d)
  {
    if ms == [] then EmptyDict()
    else
      var d := FlowsOf(ms[..|ms| - 1]);
      var s := Lower(ms[|ms| - 1].sourceColumn);
      Put(d, s, TargetSet(d.m, s) + {Lower(ms[|ms| - 1].targetColumn)})
  }

  /** `column_to_table[c] = '.'.join(c.split('.')[:-1])` for a dotted `c`. */
  function Record(d: Dict<string, string>, c: string): (r: Dict<string, string>)
    requires DictValid(d)
    ensures DictValid(r)
  {
    if '.' in c then Put(d, c, AllButLast(c)) else d
  }

  /** `column_to_table`: every dotted end of every mapping, lower-cased, with
      its table part; no other key, and no other value. */
  function TablesOf(ms: seq<ColumnMapping>): (d: Dict<string, string>)
    ensures DictValid(d)
    ensures forall c :: c in d.m ==> '.' in c && d.m[c] == AllButLast(c)
  {
    if ms == [] then EmptyDict()
    else
      var last := ms[|ms| - 1];
      Record(Record(TablesOf(ms[..|ms| - 1]), Lower(last.sourceColumn)), Lower(last.targetColumn))
  }

  /** Mapping `i` of `ms` runs from `s` to `t` once lower-cased. */
  predicate Maps(ms: seq<ColumnMapping>, i: int, s: string, t: string) {
    0 <= i < |ms| && Lower(ms[i].sourceColumn) == s && Lower(ms[i].targetColumn) == t
  }

  lemma MapsSnoc(ms: seq<ColumnMapping>, pre: seq<ColumnMapping>, s: string, t: string)
    requires |ms| > 0 && pre == ms[..|ms| - 1]
    ensures (exists i :: Maps(ms, i, s, t)) <==> (exists i :: Maps(pre, i, s, t)) || Maps(ms, |ms| - 1, s, t)
  {
    var n := |ms| - 1;
    if exists i :: Maps(ms, i, s, t) {
      var i :| Maps(ms, i, s, t);
      if i < n {
        assert ms[..n][i] == ms[i];
        assert Maps(ms[..n], i, s, t);
      }
    }
    if exists i :: Maps(ms[..n], i, s, t) {
      var i :| Maps(ms[..n], i, s, t);
      assert ms[..n][i] == ms[i];
      assert Maps(ms, i, s, t);
    }
  }

  /** An edge of the flow graph is exactly a mapping, lower-cased. */
  lemma {:induction false} FlowsOfEdges(ms: seq<ColumnMapping>, s: string, t: string)
    ensures s in FlowsOf(ms).m && t in FlowsOf(ms).m[s] <==> exists i :: Maps(ms, i, s, t)
  {
    if ms != [] {
      var n := |ms| - 1;
      var d := FlowsOf(ms[..n]).m;
      var s0 := Lower(ms[n].sourceColumn);
      assert FlowsOf(ms).m == d[s0 := TargetSet(d, s0) + {Lower(ms[n].targetColumn)}];
      FlowsOfEdges(ms[..n], s, t);
      MapsSnoc(ms, ms[..n], s, t);
    }
  }

  /** Every dotted end of a mapping is filed with its table. */
  lemma {:induction false} TablesOfComplete(ms: seq<ColumnMapping>, i: nat)
    requires i < |ms|
    ensures var d := TablesOf(ms).m;
      ('.' in Lower(ms[i].sourceColumn) ==> Lower(ms[i].sourceColumn) in d) &&
      ('.' in Lower(ms[i].targetColumn) ==> Lower(ms[i].targetColumn) in d)
  {
    var n := |ms| - 1;
    if i < n {
      TablesOfComplete(ms[..n], i);
      assert ms[..n][i] == ms[i];
    }
  }

  /** One more mapping extends both maps as the loop body does. */
  lemma FlowGraphSnoc(ms: seq<ColumnMapping>, i: nat)
    requires i < |ms|
    ensures var s, t := Lower(ms[i].sourceColumn), Lower(ms[i].targetColumn);
      && FlowsOf(ms[..i + 1]) == Put(FlowsOf(ms[..i]), s, TargetSet(FlowsOf(ms[..i]).m, s) + {t})
      && TablesOf(ms[..i + 1]) == Record(Record(TablesOf(ms[..i]), s), t)
  {
    assert ms[..i + 1][..i] == ms[..i];
  }

  /** The loop that builds `all_flows` and `column_to_table`. */
  method BuildFlowGraph(ms: seq<ColumnMapping>) returns (flows: Dict<string, set<string>>, tables: Dict<string, string>)
    ensures (flows, tables) == (FlowsOf(ms), TablesOf(ms))
  {
    flows := EmptyDict();
    tables := EmptyDict();
    var i := 0;
    while i < |ms|
      invariant 0 <= i <= |ms|
      invariant flows == FlowsOf(ms[..i])
      invariant tables == TablesOf(ms[..i])
    {
      FlowGraphSnoc(ms, i);
      var sourceCol := Lower(ms[i].sourceColumn);
      var targetCol := Lower(ms[i].targetColumn);
      flows := Put(flows, sourceCol, TargetSet(flows.m, sourceCol) + {targetCol});
      if '.' in sourceCol {
        tables := Put(tables, sourceCol, AllButLast(sourceCol));
      }
      if '.' in targetCol {
        tables := Put(tables, targetCol, AllButLast(targetCol));
      }
      i := i + 1;
    }
    assert ms[..i] == ms;
  }

  // ------------------------------------------------ final and source tables

  /** Neither a `#` temp table nor a name containing `temp`. */
  predicate NotTemp(t: string) {
    '#' !in t && !Contains(t, "temp")
  }

  /** `f"{schema.lower()}.{table.lower()}"` */
  function Qualified(p: (string, string)): string {
    Lower(p.0) + "." + Lower(p.1)
  }

  /** The `schema.table` names of the INSERT INTO, MERGE and UPDATE matches,
      lower-cased, temp tables left out. */
  function NamedFinals(names: seq<string>): (r: set<string>)
    ensures forall t :: t in r ==> NotTemp(t)
  {
    if names == [] then {}
    else
      var t := Lower(names[|names| - 1]);
      NamedFinals(names[..|names| - 1]) + if NotTemp(t) then {t} else {}
  }

  /** The bracketed `(schema, table)` matches, joined and lower-cased, temp
      tables left out. */
  function PairFinals(pairs: seq<(string, string)>): (r: set<string>)
    ensures forall t :: t in r ==> NotTemp(t)
  {
    if pairs == [] then {}
    else
      var t := Qualified(pairs[|pairs| - 1]);
      PairFinals(pairs[..|pairs| - 1]) + if NotTemp(t) then {t} else {}
  }

  function ExactFinals(names: seq<string>, pairs: seq<(string, string)>): set<string> {
    NamedFinals(names) + PairFinals(pairs)
  }

  /** A debug match lower-cased, stripped and without brackets. */
  function Unbracketed(m: string): string {
    ReplaceAll(ReplaceAll(Strip(Lower(m)), "[", ""), "]", "")
  }

  /** The dotted, non-temp debug matches. */
  function DebugFinals(debug: seq<string>): (r: set<string>)
    ensures forall t :: t in r ==> NotTemp(t) && '.' in t
  {
    if debug == [] then {}
    else
      var t := Unbracketed(debug[|debug| - 1]);
      DebugFinals(debug[..|debug| - 1]) + if '.' in t && NotTemp(t) then {t} else {}
  }

  /** `final_target_tables`: the exact matches, and the debug matches as
      well when fewer than five tables were found. No temp table is ever
      final. */
  function FinalTables(names: seq<string>, pairs: seq<(string, string)>, debug: seq<string>): (r: set<string>)
    ensures forall t :: t in r ==> NotTemp(t)
    ensures ExactFinals(names, pairs) <= r
    ensures r - ExactFinals(names, pairs) <= DebugFinals(debug)
  {
    var exact := ExactFinals(names, pairs);
    if |exact| < 5 then exact + DebugFinals(debug) else exact
  }

  /** The loop over the INSERT INTO, MERGE and UPDATE matches. */
  method AddNamedFinals(finals0: set<string>, names: seq<string>) returns (finals: set<string>)
    ensures finals == finals0 + NamedFinals(names)
  {
    finals := finals0;
    var i := 0;
    while i < |names|
      invariant 0 <= i <= |names|
      invariant finals == finals0 + NamedFinals(names[..i])
    {
      assert names[..i + 1][..i] == names[..i];
      var tableName := Lower(names[i]);
      if NotTemp(tableName) {
        finals := finals + {tableName};
      }
      i := i + 1;
    }
    assert names[..i] == names;
  }

  /** The loop over the bracketed `(schema, table)` matches. */
  method AddPairFinals(finals0: set<string>, pairs: seq<(string, string)>) returns (finals: set<string>)
    ensures finals == finals0 + PairFinals(pairs)
  {
    finals := finals0;
    var i := 0;
    while i < |pairs|
      invariant 0 <= i <= |pairs|
      invariant finals == finals0 + PairFinals(pairs[..i])
    {
      assert pairs[..i + 1][..i] == pairs[..i];
      var tableName := Lower(pairs[i].0) + "." + Lower(pairs[i].1);
      if NotTemp(tableName) {
        finals := finals + {tableName};
      }
      i := i + 1;
    }
    assert pairs[..i] == pairs;
  }

  lemma DebugFinalsSnoc(debug: seq<string>, i: nat)
    requires i < |debug|
    ensures var t := Unbracketed(debug[i]);
      DebugFinals(debug[..i + 1]) == DebugFinals(debug[..i]) + if '.' in t && NotTemp(t) then {t} else {}
  {
    assert debug[..i + 1][..i] == debug[..i];
  }

  /** The loop over the debug matches. */
  method AddDebugFinals(finals0: set<string>, debug: seq<string>) returns (finals: set<string>)
    ensures finals == finals0 + DebugFinals(debug)
  {
    finals := finals0;
    var i := 0;
    while i < |debug|
      invariant 0 <= i <= |debug|
      invariant finals == finals0 + DebugFinals(debug[..i])
    {
      DebugFinalsSnoc(debug, i);
      var tableName := Strip(Lower(debug[i]));
      tableName := ReplaceAll(ReplaceAll(tableName, "[", ""), "]", "");
      assert tableName == Unbracketed(debug[i]);
      if '.' in tableName && NotTemp(tableName) {
        finals := finals + {tableName};
      }
      i := i + 1;
    }
    assert debug[..i] == debug;
  }

  /** The three passes that fill `final_target_tables`. */
  method CollectFinalTables(names: seq<string>, pairs: seq<(string, string)>, debug: seq<string>) returns (finals: set<string>)
    ensures finals == FinalTables(names, pairs, debug)
  {
    finals := AddNamedFinals({}, names);
    finals := AddPairFinals(finals, pairs);
    if |finals| < 5 {
      finals := AddDebugFinals(finals, debug);
    }
  }

  const SourceTablePatterns: seq<string> := ["staging", "ref", "source", "raw", "input", "external"]

  /** A table named like a source and not a temp table. */
  predicate SourceLike(t: string) {
    ContainsAny(t, SourceTablePatterns) && NotTemp(t)
  }

  /** The tables of `column_to_table` that look like sources. */
  function SourceTablesOf(tables: map<string, string>): set<string> {
    set c | c in tables && SourceLike(tables[c]) :: tables[c]
  }

  /** The loop over `column_to_table.items()` that collects the source
      tables: each one is the table of some column, and none is a temp
      table. */
  method CollectSourceTables(tables: Dict<string, string>) returns (sources: set<string>)
    requires DictValid(tables)
    ensures sources == SourceTablesOf(tables.m)
    ensures forall t :: t in sources ==> NotTemp(t) && exists c :: c in tables.m && tables.m[c] == t
  {
    var items := Items(tables);
    sources := {};
    var i := 0;
    while i < |items|
      invariant 0 <= i <= |items|
      invariant sources == set c | c in tables.keys[..i] && SourceLike(tables.m[c]) :: tables.m[c]
    {
      assert tables.keys[..i + 1] == tables.keys[..i] + [tables.keys[i]];
      var table := items[i].1;
      if SourceLike(table) {
        sources := sources + {table};
      }
      i := i + 1;
    }
    assert tables.keys[..i] == tables.keys;
  }

  // ------------------------------------------------------------ path search

  /** The flow graph with each set of successors listed in the order a `for`
      loop over it visits them. */
  method Adjacency(flows: Dict<string, set<string>>) returns (adj: map<string, seq<string>>)
    requires DictValid(flows)
    ensures adj.Keys == flows.m.Keys
    ensures forall k :: k in adj ==> Elems(adj[k]) == flows.m[k] && Simple(adj[k])
  {
    adj := map[];
    var i := 0;
    while i < |flows.keys|
      invariant 0 <= i <= |flows.keys|
      invariant adj.Keys == Elems(flows.keys[..i])
      invariant forall k :: k in adj ==> Elems(adj[k]) == flows.m[k] && Simple(adj[k])
    {
      var k := flows.keys[i];
      var nexts := Members(flows.m[k]);
      assert Elems(nexts) == flows.m[k];
      adj := adj[k := nexts];
      ElemsSnoc(flows.keys, i);
      i := i + 1;
    }
    assert flows.keys[..i] == flows.keys;
  }

  /** What `find_all_paths_to_finals` reads: the successor lists, the
      column-to-table map and the final tables. */
  datatype Search = Search(adj: map<string, seq<string>>, tables: map<string, string>, finals: set<string>)

  /** A column of a final table: where the search stops. */
  predicate IsFinal(g: Search, c: string) {
    c in g.tables && g.tables[c] in g.finals
  }

  lemma FewerUnvisited(keys: set<string>, visited: set<string>, col: string)
    requires col in keys && col !in visited
    ensures |keys - (visited + {col})| < |keys - visited|
  {
    assert keys - visited == (keys - (visited + {col})) + {col};
  }

  /** `find_all_paths_to_finals(col, visited, path)`: nothing for a visited
      column, `path + [col]` for a final column, else the paths through every
      successor, each branch with its own copy of `visited`. */
  function Paths(g: Search, col: string, visited: set<string>, path: seq<string>): seq<seq<string>>
    decreases |g.adj.Keys - visited|, 0, 0
  {
    if col in visited then []
    else if IsFinal(g, col) then [path + [col]]
    else if col !in g.adj then []
    else
      FewerUnvisited(g.adj.Keys, visited, col);
      Branches(g, g.adj[col], visited + {col}, path + [col])
  }

  /** The `for next_col in ...` loop: the paths through each successor in
      turn. */
  function Branches(g: Search, nexts: seq<string>, visited: set<string>, path: seq<string>): seq<seq<string>>
    decreases |g.adj.Keys - visited|, 1, |nexts|
  {
    if nexts == [] then []
    else Paths(g, nexts[0], visited, path) + Branches(g, nexts[1..], visited, path)
  }

  /** A walk the search can report: it follows the flow graph, repeats no
      column, avoids `visited`, and only its last column is final. */
  predicate Reported(g: Search, q: seq<string>, visited: set<string>) {
    |q| >= 1 && FollowsLists(g.adj, q) && Simple(q) &&
    (forall i :: 0 <= i < |q| ==> q[i] !in visited) &&
    IsFinal(g, q[|q| - 1]) && (forall i :: 0 <= i < |q| - 1 ==> !IsFinal(g, q[i]))
  }

  /** Prepending a non-final, unvisited column with an edge to the walk. */
  lemma ReportedCons(g: Search, col: string, q: seq<string>, visited: set<string>)
    requires col !in visited && !IsFinal(g, col) && col in g.adj
    requires Reported(g, q, visited + {col}) && q[0] in g.adj[col]
    ensures Reported(g, [col] + q, visited)
  {
    var r := [col] + q;
    forall i | 0 <= i < |r| - 1 ensures r[i] in g.adj && r[i + 1] in g.adj[r[i]] {
      if i > 0 { assert r[i] == q[i - 1] && r[i + 1] == q[i]; }
    }
    forall i, j | 0 <= i < j < |r| ensures r[i] != r[j] {
      assert r[j] == q[j - 1];
      if i > 0 { assert r[i] == q[i - 1]; }
    }
    forall i | 0 <= i < |r| - 1 ensures !IsFinal(g, r[i]) {
      if i > 0 { assert r[i] == q[i - 1]; }
    }
    forall i | 0 <= i < |r| ensures r[i] !in visited {
      if i > 0 { assert r[i] == q[i - 1]; }
    }
  }

  /** Every path `Paths` returns is `path` followed by a reported walk from
      `col`. */
  lemma {:induction false} PathsSound(g: Search, col: string, visited: set<string>, path: seq<string>, p: seq<string>)
    requires p in Paths(g, col, visited, path)
    ensures |p| > |path| && p[..|path|] == path && p[|path|] == col && Reported(g, p[|path|..], visited)
    decreases |g.adj.Keys - visited|, 0, 0
  {
    if IsFinal(g, col) {
      assert p[|path|..] == [col];
    } else {
      var path' := path + [col];
      FewerUnvisited(g.adj.Keys, visited, col);
      BranchesSound(g, g.adj[col], visited + {col}, path', p);
      assert p[|path|..] == [col] + p[|path'|..];
      ReportedCons(g, col, p[|path'|..], visited);
    }
  }

  /** Every path `Branches` returns is `path` followed by a reported walk
      from one of `nexts`. */
  lemma {:induction false} BranchesSound(g: Search, nexts: seq<string>, visited: set<string>, path: seq<string>, p: seq<string>)
    requires p in Branches(g, nexts, visited, path)
    ensures |p| > |path| && p[..|path|] == path && p[|path|] in nexts && Reported(g, p[|path|..], visited)
    decreases |g.adj.Keys - visited|, 1, |nexts|
  {
    if p in Paths(g, nexts[0], visited, path) {
      PathsSound(g, nexts[0], visited, path, p);
    } else {
      BranchesSound(g, nexts[1..], visited, path, p);
    }
  }

  /** A reported walk of two or more columns starts with an edge, and its
      tail is reported once the first column is visited. */
  lemma ReportedTail(g: Search, q: seq<string>, visited: set<string>)
    requires Reported(g, q, visited) && |q| >= 2
    ensures q[0] in g.adj && q[1] in g.adj[q[0]] && !IsFinal(g, q[0]) && q[0] !in visited
    ensures Reported(g, q[1..], visited + {q[0]})
  {
    var t := q[1..];
    forall i | 0 <= i < |t| - 1 ensures t[i] in g.adj && t[i + 1] in g.adj[t[i]] {
      assert t[i] == q[i + 1] && t[i + 1] == q[i + 2];
    }
    forall i | 0 <= i < |t| ensures t[i] !in visited + {q[0]} {
      assert t[i] == q[i + 1];
    }
    forall i | 0 <= i < |t| - 1 ensures !IsFinal(g, t[i]) {
      assert t[i] == q[i + 1];
    }
    assert t[|t| - 1] == q[|q| - 1];
  }

  /** Every reported walk from `col` is found: `path` followed by it is
      among the paths. */
  lemma {:induction false} PathsComplete(g: Search, col: string, visited: set<string>, path: seq<string>, q: seq<string>)
    requires Reported(g, q, visited) && q[0] == col
    ensures path + q in Paths(g, col, visited, path)
    decreases |g.adj.Keys - visited|, 0, 0
  {
    assert col !in visited;
    if IsFinal(g, col) {
      assert |q| == 1;
      assert q == [col];
    } else {
      assert |q| >= 2;
      ReportedTail(g, q, visited);
      FewerUnvisited(g.adj.Keys, visited, col);
      BranchesComplete(g, g.adj[col], visited + {col}, path + [col], q[1..]);
      PrefixThenTail(path, q);
    }
  }

  /** Every reported walk from one of `nexts` is found by the loop. */
  lemma {:induction false} BranchesComplete(g: Search, nexts: seq<string>, visited: set<string>, path: seq<string>, q: seq<string>)
    requires Reported(g, q, visited) && q[0] in nexts
    ensures path + q in Branches(g, nexts, visited, path)
    decreases |g.adj.Keys - visited|, 1, |nexts|
  {
    if nexts[0] == q[0] {
      PathsComplete(g, nexts[0], visited, path, q);
    } else {
      BranchesComplete(g, nexts[1..], visited, path, q);
    }
  }

  /** `find_all_paths_to_finals(col)`: fresh `visited` and `path`. */
  function AllPaths(g: Search, col: string): seq<seq<string>> {
    Paths(g, col, {}, [])
  }

  /** A path from the top-level call starts at `col`, follows the graph,
      repeats no column and meets a final column only at its end. */
  lemma AllPathsSound(g: Search, col: string, p: seq<string>)
    requires p in AllPaths(g, col)
    ensures |p| >= 1 && p[0] == col && Reported(g, p, {})
  {
    PathsSound(g, col, {}, [], p);
    assert p[0..] == p;
  }

  /** The top-level search finds exactly the reported walks from `col`. */
  lemma AllPathsExact(g: Search, col: string, q: seq<string>)
    ensures q in AllPaths(g, col) <==> |q| >= 1 && q[0] == col && Reported(g, q, {})
  {
    if q in AllPaths(g, col) {
      AllPathsSound(g, col, q);
    }
    if |q| >= 1 && q[0] == col && Reported(g, q, {}) {
      PathsComplete(g, col, {}, [], q);
      assert [] + q == q;
    }
  }

  // -------------------------------------------------------------- mappings

  /** One entry of `end_to_end_mappings`. */
  datatype EndToEnd = EndToEnd(sourceTable: string, sourceColumn: string, targetTable: string, targetColumn: string,
                               pathLength: int, kind: string, fullPath: seq<string>, intermediateCount: int)

  /** The record built for a path from `source` to `target`, both split at
      their last dot. */
  function Emit(source: string, target: string, path: seq<string>, kind: string): EndToEnd {
    EndToEnd(AllButLast(source), LastSegment(source), AllButLast(target), LastSegment(target),
             |path| - 1, kind, path, |path| - 2)
  }

  /** The tests a path passes before it is recorded: at least two columns,
      both ends dotted, and the target's table final. */
  predicate Recordable(p: seq<string>, finals: set<string>) {
    |p| >= 2 && '.' in p[0] && '.' in p[|p| - 1] && AllButLast(p[|p| - 1]) in finals
  }

  /** The `for path in paths` loop of the main pass. */
  function PathMappings(paths: seq<seq<string>>, finals: set<string>): seq<EndToEnd> {
    if paths == [] then []
    else
      var p := paths[|paths| - 1];
      PathMappings(paths[..|paths| - 1], finals) +
        if Recordable(p, finals) then [Emit(p[0], p[|p| - 1], p, "end-to-end")] else []
  }

  /** `m` is the record of the recordable path `paths[i]`. */
  predicate RecordOf(paths: seq<seq<string>>, finals: set<string>, i: int, m: EndToEnd) {
    0 <= i < |paths| && Recordable(paths[i], finals) &&
    m == Emit(paths[i][0], paths[i][|paths[i]| - 1], paths[i], "end-to-end")
  }

  /** Each recorded mapping comes from a recordable path. */
  lemma {:induction false} PathMappingsFrom(paths: seq<seq<string>>, finals: set<string>, m: EndToEnd)
    requires m in PathMappings(paths, finals)
    ensures exists i :: RecordOf(paths, finals, i, m)
  {
    var n := |paths| - 1;
    if m in PathMappings(paths[..n], finals) {
      PathMappingsFrom(paths[..n], finals, m);
      var i :| RecordOf(paths[..n], finals, i, m);
      assert paths[..n][i] == paths[i];
      assert RecordOf(paths, finals, i, m);
    } else {
      assert RecordOf(paths, finals, n, m);
    }
  }

  /** The mappings of the main pass: for each key of `all_flows` in order
      whose table is a source table, the recordable paths from it. */
  function Primary(g: Search, sources: set<string>, keys: seq<string>): seq<EndToEnd> {
    if keys == [] then []
    else
      var k := keys[|keys| - 1];
      Primary(g, sources, keys[..|keys| - 1]) +
        if k in g.tables && g.tables[k] in sources then PathMappings(AllPaths(g, k), g.finals) else []
  }

  /** The inner loop of the main pass. */
  method RecordPaths(acc: seq<EndToEnd>, paths: seq<seq<string>>, finals: set<string>) returns (r: seq<EndToEnd>)
    ensures r == acc + PathMappings(paths, finals)
  {
    r := acc;
    var j := 0;
    while j < |paths|
      invariant 0 <= j <= |paths|
      invariant r == acc + PathMappings(paths[..j], finals)
    {
      assert paths[..j + 1][..j] == paths[..j];
      var path := paths[j];
      if |path| >= 2 {
        var sourceFull := path[0];
        var targetFull := path[|path| - 1];
        if '.' in sourceFull && '.' in targetFull {
          var targetTable := AllButLast(targetFull);
          if targetTable in finals {
            r := r + [EndToEnd(AllButLast(sourceFull), LastSegment(sourceFull), targetTable, LastSegment(targetFull),
                               |path| - 1, "end-to-end", path, |path| - 2)];
          }
        }
      }
      j := j + 1;
    }
    assert paths[..j] == paths;
  }

  /** The main pass over the keys of `all_flows`. */
  method PrimaryMappings(g: Search, sources: set<string>, keys: seq<string>) returns (r: seq<EndToEnd>)
    ensures r == Primary(g, sources, keys)
  {
    r := [];
    var i := 0;
    while i < |keys|
      invariant 0 <= i <= |keys|
      invariant r == Primary(g, sources, keys[..i])
    {
      assert keys[..i + 1][..i] == keys[..i];
      var sourceCol := keys[i];
      if sourceCol in g.tables && g.tables[sourceCol] in sources {
        r := RecordPaths(r, AllPaths(g, sourceCol), g.finals);
      }
      i := i + 1;
    }
    assert keys[..i] == keys;
  }

  /** A main-pass mapping: a reported walk of at least two columns from a
      column of a source table to a column of a final table, split at the
      last dots of its ends. */
  lemma {:induction false} PrimarySound(g: Search, sources: set<string>, keys: seq<string>, m: EndToEnd)
    requires m in Primary(g, sources, keys)
    ensures m.kind == "end-to-end" && m.targetTable in g.finals
    ensures |m.fullPath| >= 2 && m.pathLength == |m.fullPath| - 1 && m.intermediateCount == |m.fullPath| - 2
    ensures Reported(g, m.fullPath, {})
    ensures m.fullPath[0] in g.tables && g.tables[m.fullPath[0]] in sources
    ensures m == Emit(m.fullPath[0], m.fullPath[|m.fullPath| - 1], m.fullPath, "end-to-end")
  {
    var n := |keys| - 1;
    var k := keys[n];
    if m in Primary(g, sources, keys[..n]) {
      PrimarySound(g, sources, keys[..n], m);
    } else {
      PathMappingsFrom(AllPaths(g, k), g.finals, m);
      var i :| RecordOf(AllPaths(g, k), g.finals, i, m);
      AllPathsSound(g, k, AllPaths(g, k)[i]);
    }
  }

  /** Every recordable path gets its record. */
  lemma {:induction false} PathMappingsHas(paths: seq<seq<string>>, finals: set<string>, i: nat)
    requires i < |paths| && Recordable(paths[i], finals)
    ensures Emit(paths[i][0], paths[i][|paths[i]| - 1], paths[i], "end-to-end") in PathMappings(paths, finals)
  {
    var n := |paths| - 1;
    if i < n {
      assert paths[..n][i] == paths[i];
      PathMappingsHas(paths[..n], finals, i);
    }
  }

  /** Every recordable reported walk from a column of a source table among
      the keys gets its main-pass record. */
  lemma {:induction false} PrimaryHas(g: Search, sources: set<string>, keys: seq<string>, q: seq<string>)
    requires |q| >= 1 && q[0] in keys && q[0] in g.tables && g.tables[q[0]] in sources
    requires Reported(g, q, {}) && Recordable(q, g.finals)
    ensures Emit(q[0], q[|q| - 1], q, "end-to-end") in Primary(g, sources, keys)
  {
    var n := |keys| - 1;
    if keys[n] == q[0] {
      AllPathsExact(g, q[0], q);
      var paths := AllPaths(g, q[0]);
      var i :| 0 <= i < |paths| && paths[i] == q;
      PathMappingsHas(paths, g.finals, i);
    } else {
      assert q[0] in keys[..n];
      PrimaryHas(g, sources, keys[..n], q);
    }
  }

  // -------------------------------------------------------------- fallback

  /** `a == b or a in b or b in a` */
  predicate Similar(a: string, b: string) {
    a == b || Contains(b, a) || Contains(a, b)
  }

  /** The first path that passes through `col`, if any. */
  function FirstWith(paths: seq<seq<string>>, col: string): (r: Option<seq<string>>)
    ensures r.Some? ==> r.value in paths && col in r.value
    ensures r.None? ==> forall p :: p in paths ==> col !in p
  {
    if paths == [] then None
    else if col in paths[0] then Some(paths[0])
    else FirstWith(paths[1..], col)
  }

  /** The fallback for one source column and one entry of `column_to_table`:
      a target column of a final table with a similar name, reached by some
      path of the search. */
  function PairFallback(g: Search, sourceCol: string, targetCol: string, targetTable: string): seq<EndToEnd> {
    if targetTable in g.finals && Similar(LastSegment(sourceCol), LastSegment(targetCol)) then
      match FirstWith(AllPaths(g, sourceCol), targetCol)
      case Some(p) => if '.' in sourceCol && '.' in targetCol then [Emit(sourceCol, targetCol, p, "pattern-matched")] else []
      case None => []
    else []
  }

  /** The loop over `column_to_table.items()` for one source column. */
  function ColumnFallback(g: Search, sourceCol: string, items: seq<(string, string)>): seq<EndToEnd> {
    if items == [] then []
    else
      var it := items[|items| - 1];
      ColumnFallback(g, sourceCol, items[..|items| - 1]) + PairFallback(g, sourceCol, it.0, it.1)
  }

  /** The fallback pass over the keys of `all_flows`. */
  function Fallback(g: Search, sources: set<string>, keys: seq<string>, items: seq<(string, string)>): seq<EndToEnd> {
    if keys == [] then []
    else
      var k := keys[|keys| - 1];
      Fallback(g, sources, keys[..|keys| - 1], items) +
        if k in g.tables && g.tables[k] in sources then ColumnFallback(g, k, items) else []
  }

  /** The innermost loop: the first path through the target column gives the
      record, and the loop stops there. */
  method PairStep(acc: seq<EndToEnd>, g: Search, sourceCol: string, targetCol: string, targetTable: string)
    returns (r: seq<EndToEnd>)
    ensures r == acc + PairFallback(g, sourceCol, targetCol, targetTable)
  {
    r := acc;
    if targetTable in g.finals {
      var sourceName := LastSegment(sourceCol);
      var targetName := LastSegment(targetCol);
      if sourceName == targetName || Contains(targetName, sourceName) || Contains(sourceName, targetName) {
        var paths := AllPaths(g, sourceCol);
        var j := 0;
        while j < |paths|
          invariant 0 <= j <= |paths|
          invariant FirstWith(paths[j..], targetCol) == FirstWith(paths, targetCol)
          invariant r == acc
        {
          assert paths[j..][1..] == paths[j + 1..];
          if targetCol in paths[j] {
            if '.' in sourceCol && '.' in targetCol {
              r := r + [Emit(sourceCol, targetCol, paths[j], "pattern-matched")];
            }
            break;
          }
          j := j + 1;
        }
      }
    }
  }

  /** The loop over `column_to_table.items()`. */
  method ColumnStep(acc: seq<EndToEnd>, g: Search, sourceCol: string, items: seq<(string, string)>)
    returns (r: seq<EndToEnd>)
    ensures r == acc + ColumnFallback(g, sourceCol, items)
  {
    r := acc;
    var j := 0;
    while j < |items|
      invariant 0 <= j <= |items|
      invariant r == acc + ColumnFallback(g, sourceCol, items[..j])
    {
      assert items[..j + 1][..j] == items[..j];
      r := PairStep(r, g, sourceCol, items[j].0, items[j].1);
      j := j + 1;
    }
    assert items[..j] == items;
  }

  /** The fallback pass, run when the main pass found nothing. */
  method FallbackMappings(g: Search, sources: set<string>, keys: seq<string>, items: seq<(string, string)>)
    returns (r: seq<EndToEnd>)
    ensures r == Fallback(g, sources, keys, items)
  {
    r := [];
    var i := 0;
    while i < |keys|
      invariant 0 <= i <= |keys|
      invariant r == Fallback(g, sources, keys[..i], items)
    {
      assert keys[..i + 1][..i] == keys[..i];
      var sourceCol := keys[i];
      if sourceCol in g.tables && g.tables[sourceCol] in sources {
        r := ColumnStep(r, g, sourceCol, items);
      }
      i := i + 1;
    }
    assert keys[..i] == keys;
  }

  /** A column that a reported walk passes through and that is final is its
      last column. */
  lemma FinalIsLast(g: Search, q: seq<string>, c: string)
    requires Reported(g, q, {}) && c in q && IsFinal(g, c)
    ensures c == q[|q| - 1]
  {
    var i :| 0 <= i < |q| && q[i] == c;
  }

  /** The shape every traced mapping has: a reported walk from a column of
      a source table, recorded under `kind` with its ends split at their
      last dots and a final target table. */
  predicate Traced(g: Search, sources: set<string>, m: EndToEnd, kind: string) {
    |m.fullPath| >= 1 && Reported(g, m.fullPath, {}) &&
    m.fullPath[0] in g.tables && g.tables[m.fullPath[0]] in sources &&
    m.targetTable in g.finals &&
    m == Emit(m.fullPath[0], m.fullPath[|m.fullPath| - 1], m.fullPath, kind)
  }

  /** A fallback mapping's path really ends at the target column that was
      matched by name: the record's target is the path's last column. */
  lemma {:induction false} FallbackSound(g: Search, sources: set<string>, keys: seq<string>, items: seq<(string, string)>, m: EndToEnd)
    requires forall c :: c in g.tables ==> g.tables[c] == AllButLast(c)
    requires forall it :: it in items ==> it.0 in g.tables && g.tables[it.0] == it.1
    requires m in Fallback(g, sources, keys, items)
    ensures Traced(g, sources, m, "pattern-matched")
  {
    var n := |keys| - 1;
    if m in Fallback(g, sources, keys[..n], items) {
      FallbackSound(g, sources, keys[..n], items, m);
    } else {
      ColumnFallbackSound(g, keys[n], items, m);
    }
  }

  lemma {:induction false} ColumnFallbackSound(g: Search, sourceCol: string, items: seq<(string, string)>, m: EndToEnd)
    requires forall c :: c in g.tables ==> g.tables[c] == AllButLast(c)
    requires forall it :: it in items ==> it.0 in g.tables && g.tables[it.0] == it.1
    requires m in ColumnFallback(g, sourceCol, items)
    ensures |m.fullPath| >= 1 && Reported(g, m.fullPath, {}) && m.fullPath[0] == sourceCol
    ensures m.targetTable in g.finals
    ensures m == Emit(m.fullPath[0], m.fullPath[|m.fullPath| - 1], m.fullPath, "pattern-matched")
  {
    var n := |items| - 1;
    if m in ColumnFallback(g, sourceCol, items[..n]) {
      ColumnFallbackSound(g, sourceCol, items[..n], m);
    } else {
      var it := items[n];
      var p := FirstWith(AllPaths(g, sourceCol), it.0).value;
      AllPathsSound(g, sourceCol, p);
      FinalIsLast(g, p, it.0);
    }
  }

  // ------------------------------------------------------------ top level

  /** The key under which duplicates are dropped. */
  function MappingKey(m: EndToEnd): (string, string, string, string) {
    (m.sourceTable, m.sourceColumn, m.targetTable, m.targetColumn)
  }

  /** What every reported end-to-end mapping satisfies, stated on the
      original column mappings: its path follows recorded flows, repeats no
      column, starts at a column of a source-like table and ends at a column
      of a final, non-temp table, and the record's fields are the path's two
      ends split at their last dots. */
  predicate SoundMapping(ms: seq<ColumnMapping>, finals: set<string>, m: EndToEnd) {
    var p := m.fullPath;
    |p| >= 1 && (m.kind == "end-to-end" || m.kind == "pattern-matched") &&
    FollowsSets(FlowsOf(ms).m, p) && Simple(p) &&
    m.sourceTable + "." + m.sourceColumn == p[0] && SourceLike(m.sourceTable) &&
    m.targetTable + "." + m.targetColumn == p[|p| - 1] && m.targetTable in finals && NotTemp(m.targetTable) &&
    m.pathLength == |p| - 1 && m.intermediateCount == |p| - 2 &&
    (m.kind == "end-to-end" ==> m.pathLength >= 1)
  }

  /** A search built from the column mappings, the detected final tables and
      the source tables of `column_to_table`. */
  predicate BuiltFrom(g: Search, sources: set<string>, ms: seq<ColumnMapping>, finals: set<string>) {
    g.adj.Keys == FlowsOf(ms).m.Keys &&
    (forall k :: k in g.adj ==> Elems(g.adj[k]) == FlowsOf(ms).m[k]) &&
    g.tables == TablesOf(ms).m && g.finals == finals && sources == SourceTablesOf(g.tables)
  }

  /** A traced record of a search built from the mappings is sound. */
  lemma TracedSound(g: Search, sources: set<string>, ms: seq<ColumnMapping>, finals: set<string>, m: EndToEnd, kind: string)
    requires BuiltFrom(g, sources, ms, finals) && (forall t :: t in finals ==> NotTemp(t))
    requires kind == "end-to-end" || kind == "pattern-matched"
    requires Traced(g, sources, m, kind) && (kind == "end-to-end" ==> |m.fullPath| >= 2)
    ensures SoundMapping(ms, finals, m)
  {
    var p := m.fullPath;
    forall i | 0 <= i < |p| - 1 ensures p[i] in FlowsOf(ms).m && p[i + 1] in FlowsOf(ms).m[p[i]] {
      assert p[i + 1] in Elems(g.adj[p[i]]);
    }
    DottedName(p[0]);
    DottedName(p[|p| - 1]);
  }

  /** The result on a search: the main pass, or the fallback when the main
      pass found nothing, first record per key kept. */
  function TraceResult(g: Search, sources: set<string>, keys: seq<string>, items: seq<(string, string)>): seq<EndToEnd> {
    var primary := Primary(g, sources, keys);
    Dedup(if |primary| == 0 then Fallback(g, sources, keys, items) else primary, MappingKey)
  }

  /** Every recordable reported walk from a column of a source table has its
      source and target columns reported. */
  lemma TraceResultHasWalk(g: Search, sources: set<string>, keys: seq<string>, items: seq<(string, string)>, q: seq<string>)
    requires |q| >= 1 && q[0] in keys && q[0] in g.tables && g.tables[q[0]] in sources
    requires Reported(g, q, {}) && Recordable(q, g.finals)
    ensures var r := TraceResult(g, sources, keys, items);
      exists j :: 0 <= j < |r| && MappingKey(r[j]) == MappingKey(Emit(q[0], q[|q| - 1], q, "end-to-end"))
  {
    var primary := Primary(g, sources, keys);
    var m := Emit(q[0], q[|q| - 1], q, "end-to-end");
    PrimaryHas(g, sources, keys, q);
    var i :| 0 <= i < |primary| && primary[i] == m;
    var r := TraceResult(g, sources, keys, items);
    assert r == DedupFrom(primary, MappingKey, {});
    DedupFromComplete(primary, MappingKey, {}, i);
    var j :| 0 <= j < |r| && MappingKey(r[j]) == MappingKey(primary[i]);
  }

  /** When the main pass finds nothing, every fallback record has its key
      reported. */
  lemma TraceResultHasFallback(g: Search, sources: set<string>, keys: seq<string>, items: seq<(string, string)>, i: nat)
    requires |Primary(g, sources, keys)| == 0 && i < |Fallback(g, sources, keys, items)|
    ensures var r := TraceResult(g, sources, keys, items);
      exists j :: 0 <= j < |r| && MappingKey(r[j]) == MappingKey(Fallback(g, sources, keys, items)[i])
  {
    var fallback := Fallback(g, sources, keys, items);
    var r := TraceResult(g, sources, keys, items);
    assert r == DedupFrom(fallback, MappingKey, {});
    DedupFromComplete(fallback, MappingKey, {}, i);
    var j :| 0 <= j < |r| && MappingKey(r[j]) == MappingKey(fallback[i]);
  }

  /** The whole of `_trace_end_to_end_lineage`: build the flow graph, detect
      final and source tables, search from every source column, fall back to
      name matching when nothing was found, and drop duplicate
      source/target pairs. `names`, `pairs` and `debug` are the matches of
      the three `INSERT`/`MERGE`/`UPDATE` scans over the procedure body. */
  method Trace(ms: seq<ColumnMapping>, names: seq<string>, pairs: seq<(string, string)>, debug: seq<string>)
    returns (mappings: seq<EndToEnd>)
    ensures var sources := SourceTablesOf(TablesOf(ms).m);
      exists g :: BuiltFrom(g, sources, ms, FinalTables(names, pairs, debug)) &&
                  mappings == TraceResult(g, sources, FlowsOf(ms).keys, Items(TablesOf(ms)))
    ensures forall m :: m in mappings ==> SoundMapping(ms, FinalTables(names, pairs, debug), m)
    ensures forall i, j :: 0 <= i < j < |mappings| ==> MappingKey(mappings[i]) != MappingKey(mappings[j])
  {
    var flows, tables := BuildFlowGraph(ms);
    var finals := CollectFinalTables(names, pairs, debug);
    var sources := CollectSourceTables(tables);
    var adj := Adjacency(flows);
    var g := Search(adj, tables.m, finals);
    assert BuiltFrom(g, sources, ms, finals);
    var found := PrimaryMappings(g, sources, flows.keys);
    var kind := "end-to-end";
    if |found| == 0 {
      found := FallbackMappings(g, sources, flows.keys, Items(tables));
      kind := "pattern-matched";
    }
    forall m | m in found ensures SoundMapping(ms, finals, m) {
      if kind == "end-to-end" {
        PrimarySound(g, sources, flows.keys, m);
      } else {
        FallbackSound(g, sources, flows.keys, Items(tables), m);
      }
      TracedSound(g, sources, ms, finals, m, kind);
    }
    mappings := DedupLoop(found, MappingKey);
    assert mappings == TraceResult(g, sources, flows.keys, Items(tables));
    DedupFromSubset(found, MappingKey, {});
    DedupFromUnique(found, MappingKey, {});
  }
}
