/**
 * advanced_lineage_tracer.py: a column lineage graph is built from the
 * lineage library's output for every DML statement, tables are filed as
 * source, intermediate or target, and each expected source column is
 * followed depth-first through intermediate columns to the columns of
 * target tables.
 */
module AdvancedLineageTracer {
  import opened Strings
  import opened Common
  import opened FinalComprehensiveParser

  /** `max_depth`'s default, which every call uses. */
  const MaxDepth: nat := 10

  /** The expected end-to-end mappings, in the order of the dictionary. */
  const ExpectedFinalMappings: seq<(string, string)> := [
    ("staging.transactions.srcid", "core.ledgerfinal.idempotencykey"),
    ("staging.transactions.txnexternalid", "audit.failedtxn.txnexternalid"),
    ("staging.transactions.accountno", "core.ledgerfinal.accountid"),
    ("staging.transactions.txndate", "core.ledgerfinal.postingdate"),
    ("staging.transactions.valuedate", "core.ledgerfinal.postingdate"),
    ("staging.transactions.amount", "core.ledgerfinal.amountbase"),
    ("staging.transactions.currency", "core.ledgerfinal.amountbase"),
    ("staging.transactions.direction", "core.ledgerfinal.direction"),
    ("staging.transactions.txntype", "core.ledgerfinal.txntype"),
    ("staging.transactions.channel", "core.ledgerfinal.feeamount"),
    ("staging.transactions.narrative", "core.ledgerfinal.narrative"),
    ("staging.transactions.batchid", "core.ledgerfinal.batchid"),
    ("staging.transactions.batchdate", "core.ledgerfinal.createdat"),
    ("ref.account.accountid", "core.ledgerfinal.accountid"),
    ("ref.account.basecurrency", "core.ledgerfinal.amountbase"),
    ("ref.feeconfig.feeflat", "core.ledgerfinal.feeamount"),
    ("ref.feeconfig.feepct", "core.ledgerfinal.feeamount"),
    ("ref.glmap.glaccount", "core.glwork.glaccount"),
    ("ref.currencyrate.rate", "core.ledgerfinal.amountbase")
  ]

  // ------------------------------------------------------------- graph

  /** `lineage_graph` (source column to its targets, each with the number of
      the statement that wrote it), `all_columns_seen` and the three sets of
      `table_categories`. */
  datatype Graph = Graph(edges: map<string, seq<(string, nat)>>, columns: set<string>,
                         sources: set<string>, intermediates: set<string>, targets: set<string>)

  const EmptyGraph := Graph(map[], {}, {}, {}, {})

  predicate IsSourceName(name: string) {
    ContainsAny(name, ["staging.", "ref."])
  }

  predicate IsTargetName(name: string) {
    ContainsAny(name, ["core.", "audit.", "ops."])
  }

  predicate IsWorkName(name: string) {
    ContainsAny(name, ["#", "temp", "work"])
  }

  /** The loop over a statement's source tables: lower-cased, filed as
      source, else as intermediate, else not at all. */
  function FileSources(g: Graph, names: seq<string>): Graph {
    if names == [] then g
    else
      var h := FileSources(g, names[..|names| - 1]);
      var n := Lower(names[|names| - 1]);
      if IsSourceName(n) then h.(sources := h.sources + {n})
      else if IsWorkName(n) then h.(intermediates := h.intermediates + {n})
      else h
  }

  /** The loop over a statement's target tables: lower-cased, filed as
      target, else as intermediate, else not at all. */
  function FileTargets(g: Graph, names: seq<string>): Graph {
    if names == [] then g
    else
      var h := FileTargets(g, names[..|names| - 1]);
      var n := Lower(names[|names| - 1]);
      if IsTargetName(n) then h.(targets := h.targets + {n})
      else if IsWorkName(n) then h.(intermediates := h.intermediates + {n})
      else h
  }

  /** The targets recorded for a column so far. */
  function Successors(edges: map<string, seq<(string, nat)>>, c: string): seq<(string, nat)> {
    if c in edges then edges[c] else []
  }

  /** A lineage path both of whose ends have text. */
  predicate Usable(p: seq<string>) {
    |p| >= 2 && p[0] != "" && p[|p| - 1] != ""
  }

  /** The loop over a statement's column lineage: an edge from the
      lower-cased first column to the lower-cased last one, tagged with the
      statement number. */
  function AddPaths(g: Graph, n: nat, paths: seq<seq<string>>): Graph {
    if paths == [] then g
    else
      var h := AddPaths(g, n, paths[..|paths| - 1]);
      var p := paths[|paths| - 1];
      if Usable(p) then
        var s := Lower(p[0]);
        var t := Lower(p[|p| - 1]);
        h.(edges := h.edges[s := Successors(h.edges, s) + [(t, n)]], columns := h.columns + {s, t})
      else h
  }

  /** Everything one statement contributes. */
  function Ingest(g: Graph, n: nat, r: RunResult): Graph {
    AddPaths(FileTargets(FileSources(g, r.sources), r.targets), n, r.paths)
  }

  /** The graph after the given statements, numbered from 1; a statement on
      which the library raised contributes nothing. */
  function GraphOf(outcomes: seq<Option<RunResult>>): Graph {
    if outcomes == [] then EmptyGraph
    else
      var n := |outcomes|;
      var g := GraphOf(outcomes[..n - 1]);
      if outcomes[n - 1].Some? then Ingest(g, n, outcomes[n - 1].value) else g
  }

  /** Some name of the list lower-cases to `name`. */
  predicate Named(names: seq<string>, name: string) {
    exists k :: 0 <= k < |names| && Lower(names[k]) == name
  }

  lemma NamedSnoc(names: seq<string>, name: string)
    requires names != []
    ensures Named(names, name) <==> Named(names[..|names| - 1], name) || Lower(names[|names| - 1]) == name
  {
    var m := |names| - 1;
    if Named(names[..m], name) {
      var k :| 0 <= k < m && Lower(names[..m][k]) == name;
      assert names[k] == names[..m][k];
    }
    if Named(names, name) {
      var k :| 0 <= k < |names| && Lower(names[k]) == name;
      if k < m { assert names[..m][k] == names[k]; }
    }
  }

  /** Filing source tables touches neither the targets nor the edges. */
  lemma {:induction false} FileSourcesFrame(g: Graph, names: seq<string>)
    ensures var h := FileSources(g, names);
      h.targets == g.targets && h.edges == g.edges && h.columns == g.columns
  {
    if names != [] {
      FileSourcesFrame(g, names[..|names| - 1]);
    }
  }

  /** Source tables only ever land in `source` or `intermediate`. */
  lemma {:induction false} FileSourcesFiled(g: Graph, names: seq<string>, name: string)
    ensures name in FileSources(g, names).sources <==>
      name in g.sources || (IsSourceName(name) && Named(names, name))
    ensures name in FileSources(g, names).intermediates <==>
      name in g.intermediates || (!IsSourceName(name) && IsWorkName(name) && Named(names, name))
  {
    if names != [] {
      FileSourcesFiled(g, names[..|names| - 1], name);
      NamedSnoc(names, name);
    }
  }

  /** Filing target tables touches neither the sources nor the edges. */
  lemma {:induction false} FileTargetsFrame(g: Graph, names: seq<string>)
    ensures var h := FileTargets(g, names);
      h.sources == g.sources && h.edges == g.edges && h.columns == g.columns
  {
    if names != [] {
      FileTargetsFrame(g, names[..|names| - 1]);
    }
  }

  /** Target tables only ever land in `target` or `intermediate`. */
  lemma {:induction false} FileTargetsFiled(g: Graph, names: seq<string>, name: string)
    ensures name in FileTargets(g, names).targets <==>
      name in g.targets || (IsTargetName(name) && Named(names, name))
    ensures name in FileTargets(g, names).intermediates <==>
      name in g.intermediates || (!IsTargetName(name) && IsWorkName(name) && Named(names, name))
  {
    if names != [] {
      FileTargetsFiled(g, names[..|names| - 1], name);
      NamedSnoc(names, name);
    }
  }

  /** Path `p` of statement `n` gives the edge `e` out of column `s`. */
  predicate GivesEdge(p: seq<string>, n: nat, s: string, e: (string, nat)) {
    Usable(p) && Lower(p[0]) == s && Lower(p[|p| - 1]) == e.0 && e.1 == n
  }

  /** Some path of the list gives the edge. */
  predicate PathsGive(paths: seq<seq<string>>, n: nat, s: string, e: (string, nat)) {
    exists j :: 0 <= j < |paths| && GivesEdge(paths[j], n, s, e)
  }

  lemma PathsGiveSnoc(paths: seq<seq<string>>, n: nat, s: string, e: (string, nat))
    requires paths != []
    ensures PathsGive(paths, n, s, e) <==> PathsGive(paths[..|paths| - 1], n, s, e) || GivesEdge(paths[|paths| - 1], n, s, e)
  {
    var m := |paths| - 1;
    if PathsGive(paths[..m], n, s, e) {
      var j :| 0 <= j < m && GivesEdge(paths[..m][j], n, s, e);
      assert paths[j] == paths[..m][j];
    }
    if PathsGive(paths, n, s, e) {
      var j :| 0 <= j < |paths| && GivesEdge(paths[j], n, s, e);
      if j < m { assert paths[..m][j] == paths[j]; }
    }
  }

  /** Adding paths leaves the categories alone. */
  lemma {:induction false} AddPathsFrame(g: Graph, n: nat, paths: seq<seq<string>>)
    ensures var h := AddPaths(g, n, paths);
      h.sources == g.sources && h.targets == g.targets && h.intermediates == g.intermediates
  {
    if paths != [] {
      AddPathsFrame(g, n, paths[..|paths| - 1]);
    }
  }

  /** Adding paths only appends edges, and an edge is new exactly when a
      usable path gives it. */
  lemma {:induction false} AddPathsEdges(g: Graph, n: nat, paths: seq<seq<string>>, s: string, e: (string, nat))
    ensures Successors(g.edges, s) <= Successors(AddPaths(g, n, paths).edges, s)
    ensures e in Successors(AddPaths(g, n, paths).edges, s) <==> e in Successors(g.edges, s) || PathsGive(paths, n, s, e)
  {
    if paths != [] {
      AddPathsEdges(g, n, paths[..|paths| - 1], s, e);
      PathsGiveSnoc(paths, n, s, e);
    }
  }

  /** Duplicates are kept: the same path twice gives the same edge twice. */
  lemma DuplicateEdges(g: Graph, n: nat, p: seq<string>)
    requires Usable(p)
    ensures var s := Lower(p[0]);
      Successors(AddPaths(g, n, [p, p]).edges, s) == Successors(g.edges, s) + [(Lower(p[|p| - 1]), n), (Lower(p[|p| - 1]), n)]
  {
    var s := Lower(p[0]);
    var e := (Lower(p[|p| - 1]), n);
    assert [p, p][..1] == [p];
    assert [p][..0] == [];
    var once := AddPaths(g, n, [p]);
    assert once == AddPaths(g, n, [])
      .(edges := g.edges[s := Successors(g.edges, s) + [e]], columns := g.columns + {s, e.0});
    assert Successors(once.edges, s) == Successors(g.edges, s) + [e];
    assert Successors(AddPaths(g, n, [p, p]).edges, s) == Successors(once.edges, s) + [e];
  }

  /** Some statement that did not raise has a path giving edge `e` out of `s`. */
  predicate StatementGives(outcomes: seq<Option<RunResult>>, s: string, e: (string, nat)) {
    exists i :: 0 <= i < |outcomes| && outcomes[i].Some? && PathsGive(outcomes[i].value.paths, i + 1, s, e)
  }

  /** Every edge of the graph comes from a usable lineage path of the
      statement whose number it carries, and every such path gives one. */
  lemma {:induction false} GraphEdges(outcomes: seq<Option<RunResult>>, s: string, e: (string, nat))
    ensures e in Successors(GraphOf(outcomes).edges, s) <==> StatementGives(outcomes, s, e)
  {
    if outcomes != [] {
      var n := |outcomes|;
      var pre := outcomes[..n - 1];
      GraphEdges(pre, s, e);
      var g := GraphOf(pre);
      if outcomes[n - 1].Some? {
        var r := outcomes[n - 1].value;
        FileSourcesFrame(g, r.sources);
        FileTargetsFrame(FileSources(g, r.sources), r.targets);
        AddPathsEdges(FileTargets(FileSources(g, r.sources), r.targets), n, r.paths, s, e);
      }
      if StatementGives(pre, s, e) {
        var i :| 0 <= i < |pre| && pre[i].Some? && PathsGive(pre[i].value.paths, i + 1, s, e);
        assert outcomes[i] == pre[i];
      }
      if StatementGives(outcomes, s, e) {
        var i :| 0 <= i < n && outcomes[i].Some? && PathsGive(outcomes[i].value.paths, i + 1, s, e);
        if i < n - 1 { assert pre[i] == outcomes[i]; }
      }
    }
  }

  /** Some statement that did not raise wrote a table of this lower-cased name. */
  predicate WroteTable(outcomes: seq<Option<RunResult>>, name: string) {
    exists i :: 0 <= i < |outcomes| && outcomes[i].Some? && Named(outcomes[i].value.targets, name)
  }

  /** Some statement that did not raise read a table of this lower-cased name. */
  predicate ReadTable(outcomes: seq<Option<RunResult>>, name: string) {
    exists i :: 0 <= i < |outcomes| && outcomes[i].Some? && Named(outcomes[i].value.sources, name)
  }

  /** Categories are split by origin: `target` holds exactly the written
      tables with a `core.`, `audit.` or `ops.` name. */
  lemma {:induction false} GraphTargets(outcomes: seq<Option<RunResult>>, name: string)
    ensures name in GraphOf(outcomes).targets <==> IsTargetName(name) && WroteTable(outcomes, name)
  {
    if outcomes != [] {
      var n := |outcomes|;
      var pre := outcomes[..n - 1];
      GraphTargets(pre, name);
      var g := GraphOf(pre);
      if outcomes[n - 1].Some? {
        var r := outcomes[n - 1].value;
        FileSourcesFrame(g, r.sources);
        FileTargetsFiled(FileSources(g, r.sources), r.targets, name);
        AddPathsFrame(FileTargets(FileSources(g, r.sources), r.targets), n, r.paths);
      }
      if WroteTable(pre, name) {
        var i :| 0 <= i < |pre| && pre[i].Some? && Named(pre[i].value.targets, name);
        assert outcomes[i] == pre[i];
      }
      if WroteTable(outcomes, name) {
        var i :| 0 <= i < n && outcomes[i].Some? && Named(outcomes[i].value.targets, name);
        if i < n - 1 { assert pre[i] == outcomes[i]; }
      }
    }
  }

  /** ... and `source` holds exactly the read tables with a `staging.` or
      `ref.` name. */
  lemma {:induction false} GraphSources(outcomes: seq<Option<RunResult>>, name: string)
    ensures name in GraphOf(outcomes).sources <==> IsSourceName(name) && ReadTable(outcomes, name)
  {
    if outcomes != [] {
      var n := |outcomes|;
      var pre := outcomes[..n - 1];
      GraphSources(pre, name);
      var g := GraphOf(pre);
      if outcomes[n - 1].Some? {
        var r := outcomes[n - 1].value;
        FileSourcesFiled(g, r.sources, name);
        FileTargetsFrame(FileSources(g, r.sources), r.targets);
        AddPathsFrame(FileTargets(FileSources(g, r.sources), r.targets), n, r.paths);
      }
      if ReadTable(pre, name) {
        var i :| 0 <= i < |pre| && pre[i].Some? && Named(pre[i].value.sources, name);
        assert outcomes[i] == pre[i];
      }
      if ReadTable(outcomes, name) {
        var i :| 0 <= i < n && outcomes[i].Some? && Named(outcomes[i].value.sources, name);
        if i < n - 1 { assert pre[i] == outcomes[i]; }
      }
    }
  }

  /** The source-table loop of one statement. */
  method FileSourceTables(g: Graph, names: seq<string>) returns (g': Graph)
    ensures g' == FileSources(g, names)
  {
    g' := g;
    var k := 0;
    while k < |names|
      invariant 0 <= k <= |names|
      invariant g' == FileSources(g, names[..k])
    {
      assert names[..k + 1][..k] == names[..k];
      var name := Lower(names[k]);
      if ContainsAny(name, ["staging.", "ref."]) {
        g' := g'.(sources := g'.sources + {name});
      } else if ContainsAny(name, ["#", "temp", "work"]) {
        g' := g'.(intermediates := g'.intermediates + {name});
      }
      k := k + 1;
    }
    assert names[..k] == names;
  }

  /** The target-table loop of one statement. */
  method FileTargetTables(g: Graph, names: seq<string>) returns (g': Graph)
    ensures g' == FileTargets(g, names)
  {
    g' := g;
    var k := 0;
    while k < |names|
      invariant 0 <= k <= |names|
      invariant g' == FileTargets(g, names[..k])
    {
      assert names[..k + 1][..k] == names[..k];
      var name := Lower(names[k]);
      if ContainsAny(name, ["core.", "audit.", "ops."]) {
        g' := g'.(targets := g'.targets + {name});
      } else if ContainsAny(name, ["#", "temp", "work"]) {
        g' := g'.(intermediates := g'.intermediates + {name});
      }
      k := k + 1;
    }
    assert names[..k] == names;
  }

  /** The column-lineage loop of one statement. */
  method AddLineagePaths(g: Graph, n: nat, paths: seq<seq<string>>) returns (g': Graph)
    ensures g' == AddPaths(g, n, paths)
  {
    g' := g;
    var j := 0;
    while j < |paths|
      invariant 0 <= j <= |paths|
      invariant g' == AddPaths(g, n, paths[..j])
    {
      assert paths[..j + 1][..j] == paths[..j];
      var p := paths[j];
      if |p| >= 2 {
        var s := Lower(p[0]);
        var t := Lower(p[|p| - 1]);
        if s != "" && t != "" {
          g' := g'.(edges := g'.edges[s := Successors(g'.edges, s) + [(t, n)]], columns := g'.columns + {s, t});
        }
      }
      j := j + 1;
    }
    assert paths[..j] == paths;
  }

  /** The statement loop that builds the graph. */
  method BuildGraph(outcomes: seq<Option<RunResult>>) returns (g: Graph)
    ensures g == GraphOf(outcomes)
  {
    g := EmptyGraph;
    var i := 0;
    while i < |outcomes|
      invariant 0 <= i <= |outcomes|
      invariant g == GraphOf(outcomes[..i])
    {
      assert outcomes[..i + 1][..i] == outcomes[..i];
      assert outcomes[..i + 1][i] == outcomes[i];
      if outcomes[i].Some? {
        var r := outcomes[i].value;
        g := FileSourceTables(g, r.sources);
        g := FileTargetTables(g, r.targets);
        g := AddLineagePaths(g, i + 1, r.paths);
      }
      assert g == GraphOf(outcomes[..i + 1]);
      i := i + 1;
    }
    assert outcomes[..i] == outcomes;
  }

  // ------------------------------------------------------------ tracing

  /** The graph has an edge from `a` to `b`. */
  predicate Edge(g: Graph, a: string, b: string) {
    a in g.edges && exists j :: 0 <= j < |g.edges[a]| && g.edges[a][j].0 == b
  }

  /** Some target-table name occurs in the column name. */
  predicate Final(g: Graph, c: string) {
    exists t :: t in g.targets && Contains(c, t)
  }

  predicate Walk(g: Graph, p: seq<string>) {
    forall k :: 0 <= k < |p| - 1 ==> Edge(g, p[k], p[k + 1])
  }

  /** A reported destination with its path: the path starts at `start`,
      follows edges, passes only through columns that are not final, ends
      at the destination, which is final, and is at most `maxDepth + 1`
      columns long. */
  predicate Route(g: Graph, start: string, maxDepth: nat, d: (string, seq<string>)) {
    var p := d.1;
    1 <= |p| <= maxDepth + 1 && p[0] == start && p[|p| - 1] == d.0 && Walk(g, p) && Final(g, d.0) &&
    forall k :: 0 <= k < |p| - 1 ==> !Final(g, p[k])
  }

  /** `final_destinations` so far: every entry a route, every destination
      visited and reported once. */
  predicate Reported(g: Graph, start: string, maxDepth: nat, dests: seq<(string, seq<string>)>, visited: set<string>) {
    (forall k :: 0 <= k < |dests| ==> Route(g, start, maxDepth, dests[k]) && dests[k].0 in visited) &&
    (forall k, l :: 0 <= k < l < |dests| ==> dests[k].0 != dests[l].0)
  }

  /** `dfs_trace` as a function of the state it shares with the whole
      search: `visited` and `final_destinations` after the call. */
  function Dfs(g: Graph, maxDepth: nat, current: string, path: seq<string>,
               visited: set<string>, dests: seq<(string, seq<string>)>): (set<string>, seq<(string, seq<string>)>)
    requires |path| <= maxDepth + 1
    decreases maxDepth + 1 - |path|, 1, 0
  {
    if |path| > maxDepth || current in visited then (visited, dests)
    else if Final(g, current) then (visited + {current}, dests + [(current, path + [current])])
    else if current in g.edges then DfsEach(g, maxDepth, g.edges[current], 0, path + [current], visited + {current}, dests)
    else (visited + {current}, dests)
  }

  /** The `for next_col, stmt_num in ...` loop of `dfs_trace`, from the
      `j`-th recorded target on; `path` already ends at the expanded column. */
  function DfsEach(g: Graph, maxDepth: nat, next: seq<(string, nat)>, j: nat, path: seq<string>,
                   visited: set<string>, dests: seq<(string, seq<string>)>): (set<string>, seq<(string, seq<string>)>)
    requires 1 <= |path| <= maxDepth + 1 && j <= |next|
    decreases maxDepth + 2 - |path|, 0, |next| - j
  {
    if j == |next| then (visited, dests)
    else
      var r := Dfs(g, maxDepth, next[j].0, path, visited, dests);
      DfsEach(g, maxDepth, next, j + 1, path, r.0, r.1)
  }

  /** `trace_column_path(start)` with the default depth bound. */
  function Destinations(g: Graph, start: string): seq<(string, seq<string>)> {
    Dfs(g, MaxDepth, start, [], {}, []).1
  }

  /** Where a call of `dfs_trace` may start: the path so far starts at the
      start column (or is empty and the call is the start column), follows
      edges and passes through no final column, and what is reported so far
      is sound. */
  ghost predicate DfsReady(g: Graph, start: string, maxDepth: nat, current: string, path: seq<string>,
                           visited: set<string>, dests: seq<(string, seq<string>)>) {
    |path| <= maxDepth + 1 && (if path == [] then current == start else path[0] == start) &&
    Walk(g, path + [current]) && (forall k :: 0 <= k < |path| ==> !Final(g, path[k])) &&
    Reported(g, start, maxDepth, dests, visited)
  }

  /** A column seen once more keeps the report sound. */
  lemma ReportedVisit(g: Graph, start: string, maxDepth: nat, dests: seq<(string, seq<string>)>,
                      visited: set<string>, c: string)
    requires Reported(g, start, maxDepth, dests, visited)
    ensures Reported(g, start, maxDepth, dests, visited + {c})
  { }

  /** Reporting a final column not seen before keeps the report sound. */
  lemma ReportedAdd(g: Graph, start: string, maxDepth: nat, dests: seq<(string, seq<string>)>,
                    visited: set<string>, d: (string, seq<string>))
    requires Reported(g, start, maxDepth, dests, visited) && d.0 !in visited && Route(g, start, maxDepth, d)
    ensures Reported(g, start, maxDepth, dests + [d], visited + {d.0})
  {
    var more := dests + [d];
    forall k | 0 <= k < |more| ensures Route(g, start, maxDepth, more[k]) && more[k].0 in visited + {d.0} {
      if k < |dests| { assert more[k] == dests[k]; }
    }
    forall k, l | 0 <= k < l < |more| ensures more[k].0 != more[l].0 {
      assert more[k] == dests[k];
      if l < |dests| { assert more[l] == dests[l]; }
    }
  }

  /** `dfs_trace` only adds to `visited` and `final_destinations`, and keeps
      every destination a route reported once. */
  lemma {:induction false} DfsSound(g: Graph, start: string, maxDepth: nat, current: string, path: seq<string>,
                                    visited: set<string>, dests: seq<(string, seq<string>)>)
    requires DfsReady(g, start, maxDepth, current, path, visited, dests)
    ensures var r := Dfs(g, maxDepth, current, path, visited, dests);
      visited <= r.0 && dests <= r.1 && Reported(g, start, maxDepth, r.1, r.0)
    decreases maxDepth + 1 - |path|, 1, 0
  {
    if |path| > maxDepth || current in visited {
    } else if Final(g, current) {
      ReportedAdd(g, start, maxDepth, dests, visited, (current, path + [current]));
    } else if current in g.edges {
      ReportedVisit(g, start, maxDepth, dests, visited, current);
      DfsEachSound(g, start, maxDepth, g.edges[current], 0, path + [current], visited + {current}, dests);
    } else {
      ReportedVisit(g, start, maxDepth, dests, visited, current);
    }
  }

  lemma {:induction false} DfsEachSound(g: Graph, start: string, maxDepth: nat, next: seq<(string, nat)>, j: nat,
                                        path: seq<string>, visited: set<string>, dests: seq<(string, seq<string>)>)
    requires 1 <= |path| <= maxDepth + 1 && j <= |next| && path[0] == start
    requires path[|path| - 1] in g.edges && next == g.edges[path[|path| - 1]]
    requires Walk(g, path) && forall k :: 0 <= k < |path| ==> !Final(g, path[k])
    requires Reported(g, start, maxDepth, dests, visited)
    ensures var r := DfsEach(g, maxDepth, next, j, path, visited, dests);
      visited <= r.0 && dests <= r.1 && Reported(g, start, maxDepth, r.1, r.0)
    decreases maxDepth + 2 - |path|, 0, |next| - j
  {
    if j < |next| {
      assert Edge(g, path[|path| - 1], next[j].0);
      assert Walk(g, path + [next[j].0]);
      DfsSound(g, start, maxDepth, next[j].0, path, visited, dests);
      var r := Dfs(g, maxDepth, next[j].0, path, visited, dests);
      DfsEachSound(g, start, maxDepth, next, j + 1, path, r.0, r.1);
    }
  }

  /** `dfs_trace`: `visited` and `final_destinations` are shared by the
      whole search. A column past the depth bound or already visited is
      skipped; a final column is reported with its path and not expanded;
      any other column is expanded through each of its recorded targets. */
  method DfsTrace(g: Graph, maxDepth: nat, current: string, path: seq<string>, depth: nat,
                  visited: set<string>, dests: seq<(string, seq<string>)>)
    returns (visited': set<string>, dests': seq<(string, seq<string>)>)
    requires depth == |path| <= maxDepth + 1
    ensures (visited', dests') == Dfs(g, maxDepth, current, path, visited, dests)
    decreases maxDepth + 1 - depth
  {
    if depth > maxDepth || current in visited {
      return visited, dests;
    }
    visited' := visited + {current};
    dests' := dests;
    var isFinal := IsFinalColumn(g, current);
    if isFinal {
      dests' := dests + [(current, path + [current])];
    } else if current in g.edges {
      var next := g.edges[current];
      var j := 0;
      while j < |next|
        invariant 0 <= j <= |next|
        invariant DfsEach(g, maxDepth, next, j, path + [current], visited', dests') == Dfs(g, maxDepth, current, path, visited, dests)
      {
        visited', dests' := DfsTrace(g, maxDepth, next[j].0, path + [current], depth + 1, visited', dests');
        j := j + 1;
      }
    }
  }

  /** The loop over `table_categories['target']` that decides whether a
      column is final. */
  method IsFinalColumn(g: Graph, c: string) returns (isFinal: bool)
    ensures isFinal <==> Final(g, c)
  {
    isFinal := false;
    var todo := g.targets;
    while todo != {}
      invariant todo <= g.targets
      invariant isFinal <==> exists t :: t in g.targets - todo && Contains(c, t)
      decreases |todo|
    {
      var t :| t in todo;
      if Contains(c, t) {
        assert t in g.targets;
        return true;
      }
      todo := todo - {t};
    }
    assert g.targets - todo == g.targets;
  }

  /** The destinations of a search from `start` are routes from it, each
      reported once; a start column that is itself final is its own only
      destination. */
  lemma DestinationsSound(g: Graph, start: string, maxDepth: nat)
    ensures var dests := Dfs(g, maxDepth, start, [], {}, []).1;
      && (forall k :: 0 <= k < |dests| ==> Route(g, start, maxDepth, dests[k]))
      && (forall k, l :: 0 <= k < l < |dests| ==> dests[k].0 != dests[l].0)
      && (Final(g, start) ==> dests == [(start, [start])])
  {
    assert [] + [start] == [start];
    DfsSound(g, start, maxDepth, start, [], {}, []);
  }

  /** Each destination of `start` is a route from it. */
  lemma DestinationRoute(g: Graph, start: string, k: nat)
    requires k < |Destinations(g, start)|
    ensures Route(g, start, MaxDepth, Destinations(g, start)[k])
  {
    var r := Dfs(g, MaxDepth, start, [], {}, []);
    assert [] + [start] == [start];
    DfsSound(g, start, MaxDepth, start, [], {}, []);
    assert Reported(g, start, MaxDepth, r.1, r.0);
    assert Destinations(g, start) == r.1;
  }

  /** The search reports a final column that is the first recorded target
      of a non-final start column first, with the two-column path. */
  lemma FirstTargetReported(g: Graph, start: string)
    requires !Final(g, start) && start in g.edges && |g.edges[start]| >= 1
    requires g.edges[start][0].0 != start && Final(g, g.edges[start][0].0)
    ensures var n := g.edges[start][0].0;
      |Destinations(g, start)| >= 1 && Destinations(g, start)[0] == (n, [start, n])
  {
    var next := g.edges[start];
    var n := next[0].0;
    var d := (n, [start, n]);
    assert Edge(g, start, n);
    assert Route(g, start, MaxDepth, d);
    assert Reported(g, start, MaxDepth, [d], {start, n});
    assert [start] + [n] == [start, n];
    assert [] + [d] == [d];
    assert Dfs(g, MaxDepth, n, [start], {start}, []) == ({start} + {n}, [d]);
    assert Dfs(g, MaxDepth, start, [], {}, []) == DfsEach(g, MaxDepth, next, 0, [] + [start], {} + {start}, []);
    assert [] + [start] == [start] && {} + {start} == {start};
    assert Destinations(g, start) == DfsEach(g, MaxDepth, next, 1, [start], {start} + {n}, [d]).1;
    DfsEachSound(g, start, MaxDepth, next, 1, [start], {start} + {n}, [d]);
  }

  /** `trace_column_path`: the search from `start` with a fresh `visited`
      and `final_destinations`. */
  method TraceColumnPath(g: Graph, start: string, maxDepth: nat) returns (dests: seq<(string, seq<string>)>)
    ensures dests == Dfs(g, maxDepth, start, [], {}, []).1
    ensures forall k :: 0 <= k < |dests| ==> Route(g, start, maxDepth, dests[k])
    ensures forall k, l :: 0 <= k < l < |dests| ==> dests[k].0 != dests[l].0
    ensures Final(g, start) ==> dests == [(start, [start])]
  {
    var visited;
    visited, dests := DfsTrace(g, maxDepth, start, [], 0, {}, []);
    DestinationsSound(g, start, maxDepth);
  }

  // --------------------------------------------------- expected mappings

  /** The script's name test as written, for the expected source against a
      graph column and for the expected target against a destination: the
      column holds the first and the second dotted part of the expected
      name. */
  predicate PartsMatch(expected: string, col: string) {
    var parts := Split(expected, '.');
    |parts| >= 2 && Contains(col, Lower(parts[0])) && Contains(col, Lower(parts[1]))
  }

  /** The name test the script evidently intends, which this model uses: the
      column holds the table and the column part of a `schema.table.column`
      name, that is, the last two dotted parts. */
  predicate TableColumnMatch(expected: string, col: string) {
    var parts := Split(expected, '.');
    |parts| >= 2 && Contains(col, Lower(parts[|parts| - 2])) && Contains(col, Lower(parts[|parts| - 1]))
  }

  /** On a two-part `table.column` name the two tests agree. */
  lemma TwoPartsAgree(expected: string, col: string)
    requires |Split(expected, '.')| == 2
    ensures PartsMatch(expected, col) <==> TableColumnMatch(expected, col)
  {
  }

  /** `matching_sources`: the columns, in iteration order, that pass the test. */
  function Matching(expected: string, order: seq<string>): (r: seq<string>)
    ensures forall c <- r :: c in order && TableColumnMatch(expected, c)
  {
    if order == [] then []
    else
      var c := order[|order| - 1];
      Matching(expected, order[..|order| - 1]) + (if TableColumnMatch(expected, c) then [c] else [])
  }

  /** No column passes the test exactly when `matching_sources` is empty. */
  lemma {:induction false} MatchingEmpty(expected: string, order: seq<string>)
    ensures Matching(expected, order) == [] <==> forall c <- order :: !TableColumnMatch(expected, c)
  {
    if order != [] {
      var m := |order| - 1;
      MatchingEmpty(expected, order[..m]);
      assert order == order[..m] + [order[m]];
    }
  }

  /** One entry of `traced_mappings`. */
  datatype Trace =
    | Traced(source: string, target: string, sourceActual: string, targetActual: string, path: seq<string>)
    | NoSourceFound(source: string, target: string)

  /** What an entry promises: a traced entry joins a matching graph column
      to a matching final column by a route; an entry without a source was
      written because no column matched. */
  predicate TraceSound(g: Graph, order: seq<string>, t: Trace) {
    match t
    case Traced(s, e, sa, ta, p) =>
      sa in order && TableColumnMatch(s, sa) && TableColumnMatch(e, ta) && Route(g, sa, MaxDepth, (ta, p))
    case NoSourceFound(s, _) => Matching(s, order) == []
  }

  /** The index of the first destination whose name passes the test for
      the expected target. */
  function FirstMatch(dests: seq<(string, seq<string>)>, expectedTarget: string): (k: Option<nat>)
    ensures k.Some? ==> k.value < |dests| && TableColumnMatch(expectedTarget, dests[k.value].0)
    ensures k.Some? ==> forall i :: 0 <= i < k.value ==> !TableColumnMatch(expectedTarget, dests[i].0)
    ensures k.None? ==> forall i :: 0 <= i < |dests| ==> !TableColumnMatch(expectedTarget, dests[i].0)
  {
    if dests == [] then None
    else if TableColumnMatch(expectedTarget, dests[0].0) then Some(0)
    else
      match FirstMatch(dests[1..], expectedTarget)
      case Some(k) => Some(k + 1)
      case None => None
  }

  /** The destination loop, which stops at the first destination whose
      name passes the test for the expected target. */
  method FirstMatchingDestination(dests: seq<(string, seq<string>)>, expectedTarget: string) returns (k: Option<nat>)
    ensures k.Some? ==> k.value < |dests| && TableColumnMatch(expectedTarget, dests[k.value].0)
    ensures k.None? ==> forall j :: 0 <= j < |dests| ==> !TableColumnMatch(expectedTarget, dests[j].0)
    ensures k == FirstMatch(dests, expectedTarget)
  {
    var j := 0;
    while j < |dests|
      invariant 0 <= j <= |dests|
      invariant forall i :: 0 <= i < j ==> !TableColumnMatch(expectedTarget, dests[i].0)
    {
      var parts := Split(expectedTarget, '.');
      if |parts| >= 2 && Contains(dests[j].0, Lower(parts[|parts| - 2])) && Contains(dests[j].0, Lower(parts[|parts| - 1])) {
        return Some(j);
      }
      j := j + 1;
    }
    return None;
  }

  /** The number of traced entries. */
  function TracedCount(ts: seq<Trace>): (n: nat)
    ensures n <= |ts|
  {
    if ts == [] then 0 else TracedCount(ts[..|ts| - 1]) + (if ts[|ts| - 1].Traced? then 1 else 0)
  }

  lemma TracedCountAppend(a: seq<Trace>, b: seq<Trace>)
    ensures TracedCount(a + b) == TracedCount(a) + TracedCount(b)
    decreases |b|
  {
    if b == [] {
      assert a + b == a;
    } else {
      var m := |b| - 1;
      TracedCountAppend(a, b[..m]);
      assert (a + b)[..|a + b| - 1] == a + b[..m];
    }
  }

  /** The entry one matching column adds: its first destination that
      passes the target test, if any. */
  function TraceOf(g: Graph, source: string, target: string, c: string): seq<Trace> {
    var dests := Destinations(g, c);
    match FirstMatch(dests, target)
    case Some(k) => [Traced(source, target, c, dests[k].0, dests[k].1)]
    case None => []
  }

  /** The traced entries for the matching columns `cols`, in order: one for
      each column some destination of which passes the target test, with the
      first such destination. */
  function TracesFor(g: Graph, source: string, target: string, cols: seq<string>): seq<Trace> {
    if cols == [] then []
    else
      TracesFor(g, source, target, cols[..|cols| - 1]) + TraceOf(g, source, target, cols[|cols| - 1])
  }

  /** The entries one expected mapping adds to `traced_mappings`. */
  function ExpectedRecords(g: Graph, order: seq<string>, source: string, target: string): seq<Trace> {
    var matching := Matching(source, order);
    if matching == [] then [NoSourceFound(source, target)] else TracesFor(g, source, target, matching)
  }

  /** `traced_mappings` after the whole expected-mapping loop. */
  function AllExpectedRecords(g: Graph, order: seq<string>, expected: seq<(string, string)>): seq<Trace> {
    if expected == [] then []
    else
      var m := expected[|expected| - 1];
      AllExpectedRecords(g, order, expected[..|expected| - 1]) + ExpectedRecords(g, order, m.0, m.1)
  }

  /** The entries for the first `i + 1` columns extend those for the first
      `i` by the `i`-th column's entry. */
  lemma TracesForSnoc(g: Graph, source: string, target: string, cols: seq<string>, i: nat)
    requires i < |cols|
    ensures TracesFor(g, source, target, cols[..i + 1]) ==
      TracesFor(g, source, target, cols[..i]) + TraceOf(g, source, target, cols[i])
  {
    assert cols[..i + 1][..i] == cols[..i];
  }

  /** The same for the expected-mapping loop. */
  lemma AllExpectedSnoc(g: Graph, order: seq<string>, expected: seq<(string, string)>, i: nat)
    requires i < |expected|
    ensures AllExpectedRecords(g, order, expected[..i + 1]) ==
      AllExpectedRecords(g, order, expected[..i]) + ExpectedRecords(g, order, expected[i].0, expected[i].1)
  {
    assert expected[..i + 1][..i] == expected[..i];
  }

  /** A traced entry is in the list exactly when it names a column of
      `cols`, the first of that column's destinations that passes the target
      test, and that destination's path. */
  lemma {:induction false} TracesForMembers(g: Graph, source: string, target: string, cols: seq<string>,
                                            c: string, d: string, p: seq<string>)
    ensures Traced(source, target, c, d, p) in TracesFor(g, source, target, cols) <==>
      c in cols && FirstMatch(Destinations(g, c), target).Some? &&
      Destinations(g, c)[FirstMatch(Destinations(g, c), target).value] == (d, p)
  {
    if cols != [] {
      var n := |cols| - 1;
      TracesForMembers(g, source, target, cols[..n], c, d, p);
      assert cols == cols[..n] + [cols[n]];
    }
  }

  /** One turn of the loop over `matching_sources`: trace the column and
      keep its first destination that passes the target test. */
  method TraceColumn(g: Graph, order: seq<string>, source: string, target: string, sourceCol: string)
    returns (found: seq<Trace>, n: nat)
    requires sourceCol in order && TableColumnMatch(source, sourceCol)
    ensures found == TraceOf(g, source, target, sourceCol)
    ensures |found| <= 1 && n == |found|
    ensures |found| == 1 ==>
      found[0].Traced? && TraceSound(g, order, found[0]) && found[0].source == source && found[0].target == target
  {
    var dests := TraceColumnPath(g, sourceCol, MaxDepth);
    var k := FirstMatchingDestination(dests, target);
    if k.Some? {
      var d := dests[k.value];
      found := [Traced(source, target, sourceCol, d.0, d.1)];
      assert TraceSound(g, order, found[0]);
      n := 1;
    } else {
      found, n := [], 0;
    }
  }

  /** The entry of a matching column of the graph is sound. */
  lemma TraceOfSound(g: Graph, order: seq<string>, source: string, target: string, c: string)
    requires c in order && TableColumnMatch(source, c)
    ensures var found := TraceOf(g, source, target, c);
      |found| <= 1 &&
      (|found| == 1 ==> found[0].Traced? && TraceSound(g, order, found[0]) && found[0].source == source && found[0].target == target)
  {
    var dests := Destinations(g, c);
    var first := FirstMatch(dests, target);
    if first.Some? {
      DestinationRoute(g, c, first.value);
    }
  }

  /** Every entry for matching columns of the graph is a sound traced
      entry for this expected mapping. */
  lemma {:induction false} TracesForSound(g: Graph, order: seq<string>, source: string, target: string, cols: seq<string>)
    requires forall c <- cols :: c in order && TableColumnMatch(source, c)
    ensures forall r <- TracesFor(g, source, target, cols) ::
      r.Traced? && TraceSound(g, order, r) && r.source == source && r.target == target
  {
    if cols != [] {
      var n := |cols| - 1;
      TracesForSound(g, order, source, target, cols[..n]);
      TraceOfSound(g, order, source, target, cols[n]);
    }
  }

  /** The entries of one expected mapping are sound, and they are the single
      no-source entry exactly when no column matches. */
  lemma ExpectedRecordsSound(g: Graph, order: seq<string>, source: string, target: string)
    ensures var records := ExpectedRecords(g, order, source, target);
      && (forall r <- records :: TraceSound(g, order, r) && r.source == source && r.target == target)
      && (records == [NoSourceFound(source, target)] <==> Matching(source, order) == [])
  {
    var matching := Matching(source, order);
    if matching != [] {
      TracesForSound(g, order, source, target, matching);
      var records := TracesFor(g, source, target, matching);
      if records != [] {
        assert records[0] in records;
      }
    }
  }

  /** Every entry of `traced_mappings` is sound. */
  lemma {:induction false} AllExpectedSound(g: Graph, order: seq<string>, expected: seq<(string, string)>)
    ensures forall r <- AllExpectedRecords(g, order, expected) :: TraceSound(g, order, r)
  {
    if expected != [] {
      var n := |expected| - 1;
      AllExpectedSound(g, order, expected[..n]);
      ExpectedRecordsSound(g, order, expected[n].0, expected[n].1);
    }
  }

  /** An expected mapping no column matches has its no-source entry in
      `traced_mappings`. */
  lemma {:induction false} NoSourceRecorded(g: Graph, order: seq<string>, expected: seq<(string, string)>, k: nat)
    requires k < |expected| && Matching(expected[k].0, order) == []
    ensures NoSourceFound(expected[k].0, expected[k].1) in AllExpectedRecords(g, order, expected)
  {
    var n := |expected| - 1;
    if k < n {
      assert expected[..n][k] == expected[k];
      NoSourceRecorded(g, order, expected[..n], k);
    }
  }

  /** Every expected mapping no column matches has its no-source entry. */
  lemma AllNoSourceRecorded(g: Graph, order: seq<string>, expected: seq<(string, string)>)
    ensures forall m <- expected :: Matching(m.0, order) == [] ==> NoSourceFound(m.0, m.1) in AllExpectedRecords(g, order, expected)
  {
    forall m <- expected | Matching(m.0, order) == []
      ensures NoSourceFound(m.0, m.1) in AllExpectedRecords(g, order, expected)
    {
      var k :| 0 <= k < |expected| && expected[k] == m;
      NoSourceRecorded(g, order, expected, k);
    }
  }

  /** The loop over `matching_sources`: trace every matching column and
      keep, for each, its first destination that matches the expected target. */
  method TraceMatching(g: Graph, order: seq<string>, source: string, target: string, matching: seq<string>)
    returns (records: seq<Trace>, successes: nat)
    requires forall c <- matching :: c in order && TableColumnMatch(source, c)
    ensures records == TracesFor(g, source, target, matching)
    ensures successes == TracedCount(records)
  {
    records, successes := [], 0;
    var i := 0;
    while i < |matching|
      invariant 0 <= i <= |matching|
      invariant successes == TracedCount(records)
      invariant records == TracesFor(g, source, target, matching[..i])
    {
      var found, n := TraceColumn(g, order, source, target, matching[i]);
      TracesForSnoc(g, source, target, matching, i);
      TracedCountAppend(records, found);
      assert TracedCount(found) == n by {
        if n == 1 {
          assert found[..0] == [];
        }
      }
      records := records + found;
      successes := successes + n;
      i := i + 1;
    }
    assert matching[..i] == matching;
  }

  /** One round of the expected-mapping loop: the matching columns' traced
      entries; with no matching column, the record that no source was found. */
  method TraceExpected(g: Graph, order: seq<string>, source: string, target: string)
    returns (records: seq<Trace>, successes: nat)
    ensures forall r <- records :: TraceSound(g, order, r) && r.source == source && r.target == target
    ensures records == [NoSourceFound(source, target)] <==> Matching(source, order) == []
    ensures successes == TracedCount(records)
    ensures records == ExpectedRecords(g, order, source, target)
  {
    var matching := Matching(source, order);
    if matching == [] {
      records, successes := [NoSourceFound(source, target)], 0;
    } else {
      records, successes := TraceMatching(g, order, source, target, matching);
    }
    ExpectedRecordsSound(g, order, source, target);
  }

  /** The expected-mapping loop: `traced_mappings` and `successful_traces`. */
  method TraceAllExpected(g: Graph, order: seq<string>, expected: seq<(string, string)>)
    returns (traced: seq<Trace>, successes: nat)
    ensures forall r <- traced :: TraceSound(g, order, r)
    ensures successes == TracedCount(traced)
    ensures forall m <- expected :: Matching(m.0, order) == [] ==> NoSourceFound(m.0, m.1) in traced
    ensures traced == AllExpectedRecords(g, order, expected)
  {
    traced, successes := [], 0;
    var i := 0;
    while i < |expected|
      invariant 0 <= i <= |expected|
      invariant successes == TracedCount(traced)
      invariant traced == AllExpectedRecords(g, order, expected[..i])
    {
      AllExpectedSnoc(g, order, expected, i);
      var records, n := TraceExpected(g, order, expected[i].0, expected[i].1);
      TracedCountAppend(traced, records);
      traced := traced + records;
      successes := successes + n;
      i := i + 1;
    }
    assert expected[..i] == expected;
    AllExpectedSound(g, order, expected);
    AllNoSourceRecorded(g, order, expected);
  }

  /** The entries of one status, in order: the traced ones (`b` true) or
      the ones without a source. */
  function OfStatus(ts: seq<Trace>, b: bool): (r: seq<Trace>)
    ensures |r| <= |ts|
  {
    if ts == [] then []
    else
      var last := ts[|ts| - 1];
      OfStatus(ts[..|ts| - 1], b) + (if last.Traced? == b then [last] else [])
  }

  lemma OfStatusSnoc(ts: seq<Trace>, i: nat, b: bool)
    requires i < |ts|
    ensures OfStatus(ts[..i + 1], b) == OfStatus(ts[..i], b) + (if ts[i].Traced? == b then [ts[i]] else [])
  {
    assert ts[..i + 1][..i] == ts[..i];
  }

  /** A status list holds exactly the entries of that status. */
  lemma {:induction false} OfStatusMembers(ts: seq<Trace>, b: bool)
    ensures forall r :: r in OfStatus(ts, b) <==> r in ts && r.Traced? == b
  {
    if ts != [] {
      OfStatusMembers(ts[..|ts| - 1], b);
      assert ts == ts[..|ts| - 1] + [ts[|ts| - 1]];
    }
  }

  /** Every entry lands in exactly one of the two lists, and the traced
      list is as long as the success count. */
  lemma {:induction false} OfStatusCounts(ts: seq<Trace>)
    ensures |OfStatus(ts, true)| == TracedCount(ts)
    ensures |OfStatus(ts, true)| + |OfStatus(ts, false)| == |ts|
  {
    if ts != [] {
      OfStatusCounts(ts[..|ts| - 1]);
    }
  }

  /** `successful_mappings` and `failed_mappings`: the entries split by status. */
  method SplitByStatus(traced: seq<Trace>) returns (successful: seq<Trace>, failed: seq<Trace>)
    ensures successful == OfStatus(traced, true) && failed == OfStatus(traced, false)
    ensures |successful| == TracedCount(traced)
    ensures |successful| + |failed| == |traced|
    ensures forall r <- successful :: r.Traced? && r in traced
    ensures forall r <- failed :: r.NoSourceFound? && r in traced
  {
    successful, failed := [], [];
    var i := 0;
    while i < |traced|
      invariant 0 <= i <= |traced|
      invariant successful == OfStatus(traced[..i], true)
      invariant failed == OfStatus(traced[..i], false)
    {
      OfStatusSnoc(traced, i, true);
      OfStatusSnoc(traced, i, false);
      if traced[i].Traced? {
        successful := successful + [traced[i]];
      } else {
        failed := failed + [traced[i]];
      }
      i := i + 1;
    }
    assert traced[..i] == traced;
    OfStatusCounts(traced);
    OfStatusMembers(traced, true);
    OfStatusMembers(traced, false);
  }

  // ------------------------------------------------- additional mappings

  /** Some source-table name occurs in the column name. */
  predicate OfSourceTable(g: Graph, c: string) {
    exists t :: t in g.sources && Contains(c, t)
  }

  /** `source_columns`, in iteration order. */
  function SourceColumns(g: Graph, order: seq<string>): (r: seq<string>)
    ensures forall c <- r :: c in order && OfSourceTable(g, c)
    ensures forall c <- order :: OfSourceTable(g, c) ==> c in r
  {
    assert order != [] ==> order == order[..|order| - 1] + [order[|order| - 1]];
    if order == [] then []
    else
      var c := order[|order| - 1];
      SourceColumns(g, order[..|order| - 1]) + (if OfSourceTable(g, c) then [c] else [])
  }

  /** `xs[:50]` */
  function FirstFifty(xs: seq<string>): (r: seq<string>)
    ensures |r| <= 50 && forall x <- r :: x in xs
  {
    if |xs| <= 50 then xs else xs[..50]
  }

  /** Some traced entry joins these two actual columns. */
  predicate TracedPair(traced: seq<Trace>, s: string, d: string) {
    exists k :: 0 <= k < |traced| && traced[k].Traced? && traced[k].sourceActual == s && traced[k].targetActual == d
  }

  /** `is_expected`: the break loop over `traced_mappings`. */
  method IsExpected(traced: seq<Trace>, s: string, d: string) returns (found: bool)
    ensures found <==> TracedPair(traced, s, d)
  {
    found := false;
    var k := 0;
    while k < |traced|
      invariant 0 <= k <= |traced|
      invariant forall i :: 0 <= i < k ==> !(traced[i].Traced? && traced[i].sourceActual == s && traced[i].targetActual == d)
    {
      if traced[k].Traced? && traced[k].sourceActual == s && traced[k].targetActual == d {
        return true;
      }
      k := k + 1;
    }
  }

  /** Some route of `hops` columns joins `s` to the final column `d`. */
  ghost predicate Reaches(g: Graph, s: string, d: string, hops: nat) {
    exists p :: |p| == hops && Route(g, s, MaxDepth, (d, p))
  }

  /** The records one source column adds to `additional_mappings`: each of
      the destinations `dests` that no traced entry already joins to `s`,
      with the number of columns on its path. */
  function AdditionalFor(traced: seq<Trace>, s: string, dests: seq<(string, seq<string>)>): seq<(string, string, nat)> {
    if dests == [] then []
    else
      var d := dests[|dests| - 1];
      AdditionalFor(traced, s, dests[..|dests| - 1]) + (if TracedPair(traced, s, d.0) then [] else [(s, d.0, |d.1|)])
  }

  /** `additional_mappings` after the loop over the columns `firsts`. */
  function Additional(g: Graph, traced: seq<Trace>, firsts: seq<string>): seq<(string, string, nat)> {
    if firsts == [] then []
    else
      var c := firsts[|firsts| - 1];
      Additional(g, traced, firsts[..|firsts| - 1]) + AdditionalFor(traced, c, Destinations(g, c))
  }

  /** A record for `s` is added exactly for a destination not already
      traced, and holds that destination's path length. */
  lemma {:induction false} AdditionalForMembers(traced: seq<Trace>, s: string, dests: seq<(string, seq<string>)>,
                                                a: (string, string, nat))
    ensures a in AdditionalFor(traced, s, dests) <==>
      a.0 == s && !TracedPair(traced, s, a.1) && exists k :: 0 <= k < |dests| && dests[k].0 == a.1 && |dests[k].1| == a.2
  {
    if dests != [] {
      var n := |dests| - 1;
      AdditionalForMembers(traced, s, dests[..n], a);
      if a.0 == s && !TracedPair(traced, s, a.1) && exists k :: 0 <= k < |dests| && dests[k].0 == a.1 && |dests[k].1| == a.2 {
        var k :| 0 <= k < |dests| && dests[k].0 == a.1 && |dests[k].1| == a.2;
        if k < n {
          assert dests[..n][k] == dests[k];
        }
      }
      if exists k :: 0 <= k < n && dests[..n][k].0 == a.1 && |dests[..n][k].1| == a.2 {
        var k :| 0 <= k < n && dests[..n][k].0 == a.1 && |dests[..n][k].1| == a.2;
        assert dests[k] == dests[..n][k];
      }
    }
  }

  /** A record is in `additional_mappings` exactly when it joins one of the
      columns `firsts` to one of its destinations that no traced entry joins
      it to, with that destination's path length. */
  lemma {:induction false} AdditionalMembers(g: Graph, traced: seq<Trace>, firsts: seq<string>, a: (string, string, nat))
    ensures a in Additional(g, traced, firsts) <==>
      a.0 in firsts && !TracedPair(traced, a.0, a.1) &&
      exists k :: 0 <= k < |Destinations(g, a.0)| && Destinations(g, a.0)[k].0 == a.1 && |Destinations(g, a.0)[k].1| == a.2
  {
    if firsts != [] {
      var n := |firsts| - 1;
      var c := firsts[n];
      AdditionalMembers(g, traced, firsts[..n], a);
      AdditionalForMembers(traced, c, Destinations(g, c), a);
      assert firsts == firsts[..n] + [c];
    }
  }

  /** Every record of `additional_mappings` joins a listed column to a final
      column it reaches by a route of the recorded length, and no traced
      entry already joins them. */
  lemma AdditionalSound(g: Graph, traced: seq<Trace>, firsts: seq<string>)
    ensures forall a <- Additional(g, traced, firsts) ::
      a.0 in firsts && !TracedPair(traced, a.0, a.1) && Reaches(g, a.0, a.1, a.2)
  {
    forall a <- Additional(g, traced, firsts)
      ensures a.0 in firsts && !TracedPair(traced, a.0, a.1) && Reaches(g, a.0, a.1, a.2)
    {
      AdditionalMembers(g, traced, firsts, a);
      var dests := Destinations(g, a.0);
      var k :| 0 <= k < |dests| && dests[k].0 == a.1 && |dests[k].1| == a.2;
      DestinationRoute(g, a.0, k);
      assert Route(g, a.0, MaxDepth, (a.1, dests[k].1));
    }
  }

  /** The destination loop for one source column. */
  method AdditionalForColumn(g: Graph, traced: seq<Trace>, sourceCol: string) returns (more: seq<(string, string, nat)>)
    ensures more == AdditionalFor(traced, sourceCol, Destinations(g, sourceCol))
  {
    var dests := TraceColumnPath(g, sourceCol, MaxDepth);
    more := [];
    var j := 0;
    while j < |dests|
      invariant 0 <= j <= |dests|
      invariant more == AdditionalFor(traced, sourceCol, dests[..j])
    {
      var (destCol, path) := dests[j];
      assert dests[..j + 1][..j] == dests[..j];
      var isExpected := IsExpected(traced, sourceCol, destCol);
      if !isExpected {
        more := more + [(sourceCol, destCol, |path|)];
      }
      j := j + 1;
    }
    assert dests[..j] == dests;
  }

  /** The loop over the listed source columns. */
  method AdditionalLoop(g: Graph, traced: seq<Trace>, firsts: seq<string>) returns (additional: seq<(string, string, nat)>)
    ensures additional == Additional(g, traced, firsts)
  {
    additional := [];
    var i := 0;
    while i < |firsts|
      invariant 0 <= i <= |firsts|
      invariant additional == Additional(g, traced, firsts[..i])
    {
      assert firsts[..i + 1][..i] == firsts[..i];
      var more := AdditionalForColumn(g, traced, firsts[i]);
      additional := additional + more;
      i := i + 1;
    }
    assert firsts[..i] == firsts;
  }

  /** `additional_mappings`: for the first 50 source columns, every
      destination not already joined by a traced entry, with its path length. */
  method AdditionalMappings(g: Graph, order: seq<string>, traced: seq<Trace>)
    returns (additional: seq<(string, string, nat)>)
    ensures additional == Additional(g, traced, FirstFifty(SourceColumns(g, order)))
    ensures var firsts := FirstFifty(SourceColumns(g, order));
      forall a <- additional :: a.0 in firsts && !TracedPair(traced, a.0, a.1) && Reaches(g, a.0, a.1, a.2)
  {
    var sourceColumns := SourceColumns(g, order);
    var firsts := FirstFifty(sourceColumns);
    additional := AdditionalLoop(g, traced, firsts);
    AdditionalSound(g, traced, firsts);
  }

  /** `trace_end_to_end_lineage` after the statements have been run:
      `order` is the iteration order of `all_columns_seen`. */
  method TraceEndToEnd(outcomes: seq<Option<RunResult>>, order: seq<string>, expected: seq<(string, string)>)
    returns (g: Graph, traced: seq<Trace>, successes: nat, successful: seq<Trace>, failed: seq<Trace>,
             additional: seq<(string, string, nat)>)
    requires Simple(order) && forall c :: c in order <==> c in GraphOf(outcomes).columns
    ensures g == GraphOf(outcomes)
    ensures traced == AllExpectedRecords(g, order, expected)
    ensures additional == Additional(g, traced, FirstFifty(SourceColumns(g, order)))
    ensures forall r <- traced :: TraceSound(g, order, r)
    ensures forall m <- expected :: Matching(m.0, order) == [] ==> NoSourceFound(m.0, m.1) in traced
    ensures successful == OfStatus(traced, true) && failed == OfStatus(traced, false)
    ensures successes == |successful| && |successful| + |failed| == |traced|
    ensures forall a <- additional :: a.0 in order && OfSourceTable(g, a.0) && !TracedPair(traced, a.0, a.1) && Reaches(g, a.0, a.1, a.2)
  {
    g := BuildGraph(outcomes);
    traced, successes := TraceAllExpected(g, order, expected);
    successful, failed := SplitByStatus(traced);
    additional := AdditionalMappings(g, order, traced);
    var sourceColumns := SourceColumns(g, order);
    forall a <- additional
      ensures a.0 in order && OfSourceTable(g, a.0)
    {
      assert a.0 in FirstFifty(sourceColumns);
    }
  }

  // ------------------------------------------------------------ finding

  /** With the corrected test a matching column always holds the expected
      column name. */
  lemma TableColumnMatchHoldsColumn(expected: string, col: string)
    requires TableColumnMatch(expected, col)
    ensures Contains(col, Lower(LastSegment(expected)))
  {
  }

  /** A name with no upper-case letter is its own lower-cased form. */
  lemma {:induction false} LowerFixed(s: string)
    requires forall i :: 0 <= i < |s| ==> !('A' <= s[i] <= 'Z')
    ensures Lower(s) == s
  {
    if s != [] {
      LowerFixed(s[1..]);
    }
  }

  /** A lower-case word holds no dot and is its own lower-case form. */
  lemma PlainWord(s: string)
    requires forall i :: 0 <= i < |s| ==> 'a' <= s[i] <= 'z'
    ensures '.' !in s && Lower(s) == s
  {
    LowerFixed(s);
  }

  /** A three-part dotted name splits into its three parts. */
  lemma ThreeParts(schema: string, table: string, column: string)
    requires '.' !in schema && '.' !in table && '.' !in column
    ensures Split(schema + "." + table + "." + column, '.') == [schema, table, column]
  {
    SplitFirstPiece(schema, table + "." + column, '.');
    assert schema + ['.'] + (table + "." + column) == schema + "." + table + "." + column;
    SplitFirstPiece(table, column, '.');
    assert table + ['.'] + column == table + "." + column;
    SplitWhole(column, '.');
  }

  /** On a three-part name the script's test reads the first two parts and
      the corrected test the last two. */
  lemma TestsOnThreeParts(expected: string, col: string, a: string, b: string, c: string)
    requires Split(expected, '.') == [a, b, c]
    ensures PartsMatch(expected, col) <==> Contains(col, Lower(a)) && Contains(col, Lower(b))
    ensures TableColumnMatch(expected, col) <==> Contains(col, Lower(b)) && Contains(col, Lower(c))
  {
  }

  /** A dotted name holds its first two parts. */
  lemma HoldsFirstTwo(schema: string, table: string, rest: string)
    ensures Contains(schema + "." + table + rest, schema)
    ensures Contains(schema + "." + table + rest, table)
  {
    var col := schema + "." + table + rest;
    assert OccursAt(col, schema, 0);
    assert col[|schema| + 1..|schema| + 1 + |table|] == table;
    assert OccursAt(col, table, |schema| + 1);
    ContainsAt(col, schema);
    ContainsAt(col, table);
  }

  /** For a `schema.table.column` name the script's test compares schema
      and table only, so it accepts every other column of the same table
      whose name does not hold the expected column name; the corrected
      test rejects it. */
  lemma SchemaTableOnly(schema: string, table: string, column: string, other: string)
    requires '.' !in schema && '.' !in table && '.' !in column
    requires Lower(schema) == schema && Lower(table) == table && Lower(column) == column
    requires !Contains(schema + "." + table + "." + other, column)
    ensures PartsMatch(schema + "." + table + "." + column, schema + "." + table + "." + other)
    ensures !TableColumnMatch(schema + "." + table + "." + column, schema + "." + table + "." + other)
  {
    var e := schema + "." + table + "." + column;
    var c := schema + "." + table + "." + other;
    ThreeParts(schema, table, column);
    TestsOnThreeParts(e, c, schema, table, column);
    assert c == schema + "." + table + ("." + other);
    HoldsFirstTwo(schema, table, "." + other);
  }

  /** `amount` does not hold `srcid`: it has no `d`. */
  lemma NoSrcId(schema: string, table: string, column: string, other: string)
    requires schema == "staging" && table == "transactions" && column == "srcid" && other == "amount"
    ensures !Contains(schema + "." + table + "." + other, column)
  {
    var col := schema + "." + table + "." + other;
    assert 'd' !in col;
    if Contains(col, column) {
      ContainsCharOf(col, column, 4);
      assert false;
    }
  }

  /** The instance: `staging.transactions.srcid` is matched by the column
      `staging.transactions.amount`. */
  lemma SrcIdMatchesAmount(schema: string, table: string, column: string, other: string)
    requires schema == "staging" && table == "transactions" && column == "srcid" && other == "amount"
    ensures PartsMatch(schema + "." + table + "." + column, schema + "." + table + "." + other)
    ensures !TableColumnMatch(schema + "." + table + "." + column, schema + "." + table + "." + other)
  {
    PlainWord(schema);
    PlainWord(table);
    PlainWord(column);
    NoSrcId(schema, table, column, other);
    SchemaTableOnly(schema, table, column, other);
  }

  /** `core.ledgerfinal.accountid` has no `y`, so it does not hold
      `idempotencykey`. */
  lemma NoIdempotencyKey(schema: string, table: string, column: string, other: string)
    requires schema == "core" && table == "ledgerfinal" && column == "idempotencykey" && other == "accountid"
    ensures !Contains(schema + "." + table + "." + other, column)
  {
    var col := schema + "." + table + "." + other;
    assert 'y' !in col;
    if Contains(col, column) {
      ContainsCharOf(col, column, 10);
      assert false;
    }
  }

  /** The same test on the target side: the expected target
      `core.ledgerfinal.idempotencykey` is met by the destination
      `core.ledgerfinal.accountid`, so the destination loop as written
      stops at the wrong column of the right table. */
  lemma AccountIdMeetsIdempotencyKey(schema: string, table: string, column: string, other: string)
    requires schema == "core" && table == "ledgerfinal" && column == "idempotencykey" && other == "accountid"
    ensures PartsMatch(schema + "." + table + "." + column, schema + "." + table + "." + other)
    ensures !TableColumnMatch(schema + "." + table + "." + column, schema + "." + table + "." + other)
  {
    PlainWord(schema);
    PlainWord(table);
    PlainWord(column);
    NoIdempotencyKey(schema, table, column, other);
    SchemaTableOnly(schema, table, column, other);
  }
}
