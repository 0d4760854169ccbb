/**
 * The enhanced parser (enhanced_lineage_parser.py): the same schema maps,
 * sqllineage flows and C# column lineages as the focused parser, but a
 * wider table categorization (sources, targets and intermediates by name),
 * a search for simple paths at most five columns long, schema-based
 * matches by column name, and a de-duplication in which traced mappings
 * win over schema matches.
 */
module EnhancedLineageParser {
  import opened Strings
  import opened Common
  import opened ColumnFlows

  /** One entry of `end_to_end_mappings`. */
  datatype Mapping = Mapping(sourceTable: string, sourceColumn: string, targetTable: string, targetColumn: string,
                             pathLength: int, transformationType: string)

  const SourcePatterns: seq<string> := ["staging", "ref", "source", "raw", "input"]
  const TargetPatterns: seq<string> := ["core", "audit", "ops", "final", "output"]
  const IntermediatePatterns: seq<string> := ["work", "temp", "#", "intermediate"]

  // ----------------------------------------------------------- categories

  datatype Kind = Source | Target | Intermediate | Unclassified

  /** The schema pass tries the source patterns, then the target patterns,
      then the intermediate ones. */
  function KindOf(t: string): Kind {
    if ContainsAny(t, SourcePatterns) then Source
    else if ContainsAny(t, TargetPatterns) then Target
    else if ContainsAny(t, IntermediatePatterns) then Intermediate
    else Unclassified
  }

  /** The lower-cased schema tables the schema pass puts in category `k`. */
  function SchemaTables(tables: set<string>, k: Kind): set<string> {
    set t | t in tables && KindOf(Lower(t)) == k :: Lower(t)
  }

  /** The schema pass puts a table in at most one category, in the order of
      precedence of the patterns, and misses no table a pattern names. */
  lemma SchemaKinds(tables: set<string>, t: string)
    ensures t in SchemaTables(tables, Source) ==> ContainsAny(t, SourcePatterns)
    ensures t in SchemaTables(tables, Target) ==> !ContainsAny(t, SourcePatterns) && ContainsAny(t, TargetPatterns)
    ensures t in SchemaTables(tables, Intermediate) ==>
      !ContainsAny(t, SourcePatterns) && !ContainsAny(t, TargetPatterns) && ContainsAny(t, IntermediatePatterns)
    ensures t in SchemaTables(tables, Source) ==> t !in SchemaTables(tables, Target) + SchemaTables(tables, Intermediate)
    ensures t in SchemaTables(tables, Target) ==> t !in SchemaTables(tables, Intermediate)
    ensures t in tables && ContainsAny(Lower(t), SourcePatterns + TargetPatterns + IntermediatePatterns) ==>
      Lower(t) in SchemaTables(tables, Source) + SchemaTables(tables, Target) + SchemaTables(tables, Intermediate)
  {
    if t in tables && ContainsAny(Lower(t), SourcePatterns + TargetPatterns + IntermediatePatterns) {
      var k :| 0 <= k < |SourcePatterns + TargetPatterns + IntermediatePatterns| &&
        Contains(Lower(t), (SourcePatterns + TargetPatterns + IntermediatePatterns)[k]);
      if k < 5 {
        assert Contains(Lower(t), SourcePatterns[k]);
      } else if k < 10 {
        assert Contains(Lower(t), TargetPatterns[k - 5]);
      } else {
        assert Contains(Lower(t), IntermediatePatterns[k - 10]);
      }
    }
  }

  lemma SchemaTablesSnoc(keys: seq<string>, i: nat, k: Kind)
    requires i < |keys|
    ensures SchemaTables(Elems(keys[..i + 1]), k) ==
      if KindOf(Lower(keys[i])) == k then SchemaTables(Elems(keys[..i]), k) + {Lower(keys[i])}
      else SchemaTables(Elems(keys[..i]), k)
  {
    ElemsSnoc(keys, i);
  }

  /** `update(table.lower() for table in real_tables)` */
  method AddLowered(base: set<string>, tables: seq<string>) returns (r: set<string>)
    ensures r == base + LowerNames(tables)
  {
    r := base;
    var i := 0;
    while i < |tables|
      invariant 0 <= i <= |tables|
      invariant r == base + LowerNames(tables[..i])
    {
      LowerNamesSnoc(tables, i);
      r := r + {Lower(tables[i])};
      i := i + 1;
    }
    assert tables[..i] == tables;
  }

  /** The loop over the schema's tables. */
  method AddSchemaTables(sources: set<string>, targets: set<string>, middles: set<string>, keys: seq<string>)
    returns (src: set<string>, tgt: set<string>, mid: set<string>)
    ensures src == sources + SchemaTables(Elems(keys), Source)
    ensures tgt == targets + SchemaTables(Elems(keys), Target)
    ensures mid == middles + SchemaTables(Elems(keys), Intermediate)
  {
    src, tgt, mid := sources, targets, middles;
    var i := 0;
    while i < |keys|
      invariant 0 <= i <= |keys|
      invariant src == sources + SchemaTables(Elems(keys[..i]), Source)
      invariant tgt == targets + SchemaTables(Elems(keys[..i]), Target)
      invariant mid == middles + SchemaTables(Elems(keys[..i]), Intermediate)
    {
      SchemaTablesSnoc(keys, i, Source);
      SchemaTablesSnoc(keys, i, Target);
      SchemaTablesSnoc(keys, i, Intermediate);
      var t := Lower(keys[i]);
      if ContainsAny(t, SourcePatterns) {
        UnionAssoc(sources, SchemaTables(Elems(keys[..i]), Source), {t});
        src := src + {t};
      } else if ContainsAny(t, TargetPatterns) {
        UnionAssoc(targets, SchemaTables(Elems(keys[..i]), Target), {t});
        tgt := tgt + {t};
      } else if ContainsAny(t, IntermediatePatterns) {
        UnionAssoc(middles, SchemaTables(Elems(keys[..i]), Intermediate), {t});
        mid := mid + {t};
      }
      i := i + 1;
    }
    assert keys[..i] == keys;
  }

  // ---------------------------------------------------------- path search

  /** `find_target_paths(start, visited, depth)`: no paths from a visited
      column or once the depth is spent, the column alone when its table is
      a target, otherwise `start` in front of every path found one level
      deeper, with `start` visited, from each successor. Each successor
      gets its own copy of the visited set. The caller's test that a
      successor is not yet visited is left to the callee, whose own test
      then reports no paths. */
  function SimplePaths(g: Graph, start: string, visited: set<string>, depth: int): seq<seq<string>>
    decreases Depth(depth), 0, 0
  {
    if start in visited || depth <= 0 then []
    else if AtFinal(g, start) then [[start]]
    else FollowFresh(g, start, Nexts(g, start), visited + {start}, depth - 1)
  }

  function FollowFresh(g: Graph, start: string, nexts: seq<string>, visited: set<string>, depth: int): seq<seq<string>>
    decreases Depth(depth), 1, |nexts|
  {
    if nexts == [] then []
    else
      Prefixed(start, SimplePaths(g, nexts[0], visited, depth)) +
      FollowFresh(g, start, nexts[1..], visited, depth)
  }

  /** No column repeats and none was visited before. */
  predicate Fresh(p: seq<string>, visited: set<string>) {
    Simple(p) && forall i :: 0 <= i < |p| ==> p[i] !in visited
  }

  lemma FreshCons(p: seq<string>, visited: set<string>)
    requires |p| >= 1
    ensures Fresh(p, visited) <==> p[0] !in visited && Fresh(p[1..], visited + {p[0]})
  {
    var q := p[1..];
    if Fresh(p, visited) {
      forall i, j | 0 <= i < j < |q|
        ensures q[i] != q[j]
      {
        assert q[i] == p[i + 1] && q[j] == p[j + 1];
      }
      forall i | 0 <= i < |q|
        ensures q[i] !in visited + {p[0]}
      {
        assert q[i] == p[i + 1];
      }
    }
    if p[0] !in visited && Fresh(q, visited + {p[0]}) {
      forall i, j | 0 <= i < j < |p|
        ensures p[i] != p[j]
      {
        assert p[j] == q[j - 1];
        if i > 0 {
          assert p[i] == q[i - 1];
        }
      }
      forall i | 0 <= i < |p|
        ensures p[i] !in visited
      {
        if i > 0 {
          assert p[i] == q[i - 1];
        }
      }
    }
  }

  /** Some successor in `nexts` has `q` among its paths. */
  predicate FromSomeFresh(g: Graph, nexts: seq<string>, visited: set<string>, depth: int, q: seq<string>) {
    exists k :: 0 <= k < |nexts| && q in SimplePaths(g, nexts[k], visited, depth)
  }

  lemma {:induction false} FollowFreshMembers(g: Graph, start: string, nexts: seq<string>, visited: set<string>, depth: int,
                                              p: seq<string>)
    ensures p in FollowFresh(g, start, nexts, visited, depth) <==>
      |p| >= 1 && p[0] == start && FromSomeFresh(g, nexts, visited, depth, p[1..])
    decreases |nexts|
  {
    if nexts != [] {
      var rest := nexts[1..];
      FollowFreshMembers(g, start, rest, visited, depth, p);
      assert FollowFresh(g, start, nexts, visited, depth) ==
        Prefixed(start, SimplePaths(g, nexts[0], visited, depth)) + FollowFresh(g, start, rest, visited, depth);
      if |p| >= 1 && FromSomeFresh(g, nexts, visited, depth, p[1..]) {
        var k :| 0 <= k < |nexts| && p[1..] in SimplePaths(g, nexts[k], visited, depth);
        if k > 0 {
          assert rest[k - 1] == nexts[k];
          assert FromSomeFresh(g, rest, visited, depth, p[1..]);
        }
      }
      if |p| >= 1 && FromSomeFresh(g, rest, visited, depth, p[1..]) {
        var k :| 0 <= k < |rest| && p[1..] in SimplePaths(g, rest[k], visited, depth);
        assert rest[k] == nexts[k + 1];
      }
    }
  }

  /** A reported path is the unvisited final column alone, or the unvisited
      `start` in front of a path reported one level deeper, with `start`
      visited, from one of its successors, `next`. */
  lemma SimplePathsCases(g: Graph, start: string, visited: set<string>, depth: int, p: seq<string>)
    returns (next: string)
    requires p in SimplePaths(g, start, visited, depth)
    ensures start !in visited && depth > 0
    ensures AtFinal(g, start) ==> p == [start]
    ensures !AtFinal(g, start) ==>
      |p| >= 1 && p[0] == start && next in Nexts(g, start) &&
      p[1..] in SimplePaths(g, next, visited + {start}, depth - 1)
  {
    next := start;
    if !AtFinal(g, start) {
      var nexts := Nexts(g, start);
      FollowFreshMembers(g, start, nexts, visited + {start}, depth - 1, p);
      var k :| 0 <= k < |nexts| && p[1..] in SimplePaths(g, nexts[k], visited + {start}, depth - 1);
      next := nexts[k];
    }
  }

  /** Every reported path is a walk from `start` to a target column, of at
      most `depth` columns, that repeats no column and avoids `visited`. */
  lemma {:induction false} SimplePathsSound(g: Graph, start: string, visited: set<string>, depth: int, p: seq<string>)
    requires p in SimplePaths(g, start, visited, depth)
    ensures Walk(g, p) && p[0] == start && |p| <= depth && Fresh(p, visited)
    decreases Depth(depth)
  {
    var next := SimplePathsCases(g, start, visited, depth, p);
    if !AtFinal(g, start) {
      SimplePathsSound(g, next, visited + {start}, depth - 1, p[1..]);
      SoundCons(g, p, visited, depth);
    }
  }

  /** A fresh walk from a successor of a column that is not final, with
      that column in front, is a fresh walk from the column. */
  lemma SoundCons(g: Graph, p: seq<string>, visited: set<string>, depth: int)
    requires |p| >= 2 && !AtFinal(g, p[0]) && p[1] in Nexts(g, p[0]) && p[0] !in visited
    requires Walk(g, p[1..]) && |p[1..]| <= depth - 1 && Fresh(p[1..], visited + {p[0]})
    ensures Walk(g, p) && |p| <= depth && Fresh(p, visited)
  {
    WalkCons(g, p);
    FreshCons(p, visited);
  }

  lemma FollowFreshFrom(g: Graph, start: string, nexts: seq<string>, visited: set<string>, depth: int, p: seq<string>)
    requires |p| >= 2 && p[0] == start && p[1] in nexts && p[1..] in SimplePaths(g, p[1], visited, depth)
    ensures p in FollowFresh(g, start, nexts, visited, depth)
  {
    var k :| 0 <= k < |nexts| && nexts[k] == p[1];
    assert FromSomeFresh(g, nexts, visited, depth, p[1..]);
    FollowFreshMembers(g, start, nexts, visited, depth, p);
  }

  /** Every such walk is reported. */
  lemma {:induction false} SimplePathsComplete(g: Graph, start: string, visited: set<string>, depth: int, p: seq<string>)
    requires Walk(g, p) && p[0] == start && |p| <= depth && Fresh(p, visited)
    ensures p in SimplePaths(g, start, visited, depth)
    decreases Depth(depth)
  {
    assert start !in visited;
    if AtFinal(g, start) {
      if |p| >= 2 {
        WalkTail(g, p);
      }
      assert p == [start];
    } else {
      TailReady(g, p, visited, depth);
      var v := visited + {start};
      SimplePathsComplete(g, p[1], v, depth - 1, p[1..]);
      CompleteFromTail(g, p, visited, depth);
    }
  }

  /** A walk from a column that is not final continues with a walk from its
      successor, one column shorter and avoiding the first column too. */
  lemma TailReady(g: Graph, p: seq<string>, visited: set<string>, depth: int)
    requires Walk(g, p) && |p| <= depth && Fresh(p, visited) && !AtFinal(g, p[0])
    ensures |p| >= 2 && p[1] in Nexts(g, p[0]) && p[0] !in visited
    ensures Walk(g, p[1..]) && |p[1..]| <= depth - 1 && Fresh(p[1..], visited + {p[0]})
  {
    assert |p| >= 2;
    WalkTail(g, p);
    FreshCons(p, visited);
  }

  /** When the successor's search reports the tail, the search from the
      first column reports the whole path. */
  lemma CompleteFromTail(g: Graph, p: seq<string>, visited: set<string>, depth: int)
    requires |p| >= 2 && p[1] in Nexts(g, p[0]) && p[0] !in visited && depth > 0 && !AtFinal(g, p[0])
    requires p[1..] in SimplePaths(g, p[1], visited + {p[0]}, depth - 1)
    ensures p in SimplePaths(g, p[0], visited, depth)
  {
    var v := visited + {p[0]};
    FollowFreshFrom(g, p[0], Nexts(g, p[0]), v, depth - 1, p);
  }

  // ---------------------------------------------------- traced mappings

  /** The mapping one path reports: from the source column to the last
      column's table and its name after the last dot, with the path's
      length. */
  function PathMapping(g: Graph, st: string, sc: string, p: seq<string>): seq<Mapping> {
    if |p| >= 2 && p[|p| - 1] in g.tables
    then [Mapping(st, sc, g.tables[p[|p| - 1]], LastSegment(p[|p| - 1]), |p|, "traced")]
    else []
  }

  /** Tracing starts five columns deep. */
  const MaxDepth := 5

  function PathsMappings(g: Graph, st: string, sc: string, paths: seq<seq<string>>): seq<Mapping> {
    Flatten(paths, p => PathMapping(g, st, sc, p))
  }

  function ColumnTraces(g: Graph, st: string, sc: string, depth: int): seq<Mapping> {
    PathsMappings(g, st, sc, SimplePaths(g, st + "." + sc, {}, depth))
  }

  function ColumnsMappings(g: Graph, st: string, columns: seq<string>, depth: int): seq<Mapping> {
    Flatten(columns, sc => ColumnTraces(g, st, sc, depth))
  }

  function SourceTraces(g: Graph, tc: map<string, seq<string>>, st: string, depth: int): seq<Mapping> {
    ColumnsMappings(g, st, Columns(tc, st), depth)
  }

  /** The traced mappings, source table by source table in `order`. */
  function TracedMappings(g: Graph, tc: map<string, seq<string>>, order: seq<string>, depth: int): seq<Mapping> {
    Flatten(order, st => SourceTraces(g, tc, st, depth))
  }

  predicate ReportsWalk(g: Graph, st: string, sc: string, p: seq<string>, m: Mapping)
    requires |p| >= 1 && p[|p| - 1] in g.tables
  {
    m == Mapping(st, sc, g.tables[p[|p| - 1]], LastSegment(p[|p| - 1]), |p|, "traced")
  }

  /** Some simple walk of two to `depth` columns from `start` to a target
      column reports `m` for column `sc` of table `st`. */
  ghost predicate ReportedFrom(g: Graph, st: string, sc: string, start: string, depth: int, m: Mapping) {
    exists p :: Walk(g, p) && p[0] == start && 2 <= |p| <= depth && Simple(p) && ReportsWalk(g, st, sc, p, m)
  }

  lemma PathsMappingsMembers(g: Graph, st: string, sc: string, start: string, depth: int, m: Mapping)
    ensures m in PathsMappings(g, st, sc, SimplePaths(g, start, {}, depth)) <==> ReportedFrom(g, st, sc, start, depth, m)
  {
    if m in PathsMappings(g, st, sc, SimplePaths(g, start, {}, depth)) {
      PathsMappingsSound(g, st, sc, start, depth, m);
    }
    if ReportedFrom(g, st, sc, start, depth, m) {
      PathsMappingsComplete(g, st, sc, start, depth, m);
    }
  }

  /** Each mapping the paths report comes from a simple walk from `start`. */
  lemma PathsMappingsSound(g: Graph, st: string, sc: string, start: string, depth: int, m: Mapping)
    requires m in PathsMappings(g, st, sc, SimplePaths(g, start, {}, depth))
    ensures ReportedFrom(g, st, sc, start, depth, m)
  {
    var paths := SimplePaths(g, start, {}, depth);
    FlattenMembers(paths, p => PathMapping(g, st, sc, p), m);
    var k :| 0 <= k < |paths| && m in PathMapping(g, st, sc, paths[k]);
    var p := paths[k];
    PathMappingReports(g, st, sc, p, m);
    SimplePathsSound(g, start, {}, depth, p);
    assert Simple(p);
  }

  /** A path reports a mapping only when it ends at a column of a table,
      and then the mapping is the one for that column. */
  lemma PathMappingReports(g: Graph, st: string, sc: string, p: seq<string>, m: Mapping)
    requires m in PathMapping(g, st, sc, p)
    ensures |p| >= 2 && p[|p| - 1] in g.tables && ReportsWalk(g, st, sc, p, m)
  {
  }

  /** Each simple walk from `start` to a target column has its mapping
      reported. */
  lemma PathsMappingsComplete(g: Graph, st: string, sc: string, start: string, depth: int, m: Mapping)
    requires ReportedFrom(g, st, sc, start, depth, m)
    ensures m in PathsMappings(g, st, sc, SimplePaths(g, start, {}, depth))
  {
    var paths := SimplePaths(g, start, {}, depth);
    var p :| Walk(g, p) && p[0] == start && 2 <= |p| <= depth && Simple(p) && ReportsWalk(g, st, sc, p, m);
    assert Fresh(p, {});
    SimplePathsComplete(g, start, {}, depth, p);
    var k :| 0 <= k < |paths| && paths[k] == p;
    assert m in PathMapping(g, st, sc, paths[k]);
    FlattenMembers(paths, p => PathMapping(g, st, sc, p), m);
  }

  lemma SourceTracesMembers(g: Graph, tc: map<string, seq<string>>, st: string, depth: int, m: Mapping)
    ensures m in SourceTraces(g, tc, st, depth) <==>
      exists sc :: sc in Columns(tc, st) && ReportedFrom(g, st, sc, st + "." + sc, depth, m)
  {
    var columns := Columns(tc, st);
    FlattenMembers(columns, sc => ColumnTraces(g, st, sc, depth), m);
    forall sc | sc in columns {
      PathsMappingsMembers(g, st, sc, st + "." + sc, depth, m);
    }
    if exists sc :: sc in columns && ReportedFrom(g, st, sc, st + "." + sc, depth, m) {
      var sc :| sc in columns && ReportedFrom(g, st, sc, st + "." + sc, depth, m);
      var j :| 0 <= j < |columns| && columns[j] == sc;
      assert m in ColumnTraces(g, st, columns[j], depth);
    }
  }

  /** A traced mapping is reported exactly for each simple walk of two to
      `depth` columns from a column of a source table in `order` to a
      target column; it carries the walk's length. */
  lemma TracedMembers(g: Graph, tc: map<string, seq<string>>, order: seq<string>, depth: int, m: Mapping)
    ensures m in TracedMappings(g, tc, order, depth) <==>
      exists st, sc :: st in order && sc in Columns(tc, st) && ReportedFrom(g, st, sc, st + "." + sc, depth, m)
  {
    FlattenMembers(order, st => SourceTraces(g, tc, st, depth), m);
    forall st | st in order {
      SourceTracesMembers(g, tc, st, depth, m);
    }
    if exists st, sc :: st in order && sc in Columns(tc, st) && ReportedFrom(g, st, sc, st + "." + sc, depth, m) {
      var st, sc :| st in order && sc in Columns(tc, st) && ReportedFrom(g, st, sc, st + "." + sc, depth, m);
      var i :| 0 <= i < |order| && order[i] == st;
      assert m in SourceTraces(g, tc, order[i], depth);
    }
  }

  /** A traced mapping runs from a column of a source table in `order` to
      a column of a target table, over two to `depth` columns. */
  lemma TracedShape(g: Graph, tc: map<string, seq<string>>, order: seq<string>, depth: int, m: Mapping)
    requires m in TracedMappings(g, tc, order, depth)
    ensures m.sourceTable in order && m.sourceColumn in Columns(tc, m.sourceTable)
    ensures m.targetTable in g.finals && 2 <= m.pathLength <= depth && m.transformationType == "traced"
  {
    TracedMembers(g, tc, order, depth, m);
    var st, sc :| st in order && sc in Columns(tc, st) && ReportedFrom(g, st, sc, st + "." + sc, depth, m);
    var p :| Walk(g, p) && p[0] == st + "." + sc && 2 <= |p| <= depth && Simple(p) && ReportsWalk(g, st, sc, p, m);
  }

  /** The loop over one column's paths. */
  method TracePaths(g: Graph, st: string, sc: string, paths: seq<seq<string>>) returns (r: seq<Mapping>)
    ensures r == PathsMappings(g, st, sc, paths)
  {
    r := [];
    var k := 0;
    while k < |paths|
      invariant 0 <= k <= |paths|
      invariant r == PathsMappings(g, st, sc, paths[..k])
    {
      assert paths[..k + 1][..k] == paths[..k];
      var path := paths[k];
      assert PathsMappings(g, st, sc, paths[..k + 1]) == r + PathMapping(g, st, sc, path);
      if |path| >= 2 {
        var last := path[|path| - 1];
        if last in g.tables {
          r := r + [Mapping(st, sc, g.tables[last], LastSegment(last), |path|, "traced")];
        }
      }
      k := k + 1;
    }
    assert paths[..k] == paths;
  }

  /** The loop over one source table's columns. */
  method TraceSource(g: Graph, tc: map<string, seq<string>>, st: string, depth: int) returns (r: seq<Mapping>)
    ensures r == SourceTraces(g, tc, st, depth)
  {
    var columns := Columns(tc, st);
    r := [];
    var j := 0;
    while j < |columns|
      invariant 0 <= j <= |columns|
      invariant r == ColumnsMappings(g, st, columns[..j], depth)
    {
      assert columns[..j + 1][..j] == columns[..j];
      var paths := SimplePaths(g, st + "." + columns[j], {}, depth);
      var more := TracePaths(g, st, columns[j], paths);
      r := r + more;
      j := j + 1;
    }
    assert columns[..j] == columns;
  }

  /** The loop over the source tables, in `order`. */
  method TraceSources(g: Graph, tc: map<string, seq<string>>, order: seq<string>, depth: int) returns (r: seq<Mapping>)
    ensures r == TracedMappings(g, tc, order, depth)
  {
    r := [];
    var i := 0;
    while i < |order|
      invariant 0 <= i <= |order|
      invariant r == TracedMappings(g, tc, order[..i], depth)
    {
      assert order[..i + 1][..i] == order[..i];
      var more := TraceSource(g, tc, order[i], depth);
      r := r + more;
      i := i + 1;
    }
    assert order[..i] == order;
  }

  // ------------------------------------------------ schema-based mappings

  /** Name fragments that usually mark a transformation, source to target. */
  const Transformations: seq<(string, string)> := [
    ("txnexternalid", "idempotencykey"),
    ("accountno", "accountid"),
    ("txndate", "postingdate"),
    ("valuedate", "postingdate"),
    ("batchdate", "createdat"),
    ("amount", "amountbase"),
    ("channel", "feeamount")
  ]

  predicate PairMatch(s: string, t: string, k: int)
    requires 0 <= k < |Transformations|
  {
    Contains(s, Transformations[k].0) && Contains(t, Transformations[k].1)
  }

  /** The pieces of a column name between underscores. */
  function Tokens(s: string): set<string> {
    Elems(Split(s, '_'))
  }

  /** A known pair of fragments, one name inside the other, or a shared
      piece between underscores. */
  predicate LikelyTransformation(s: string, t: string) {
    (exists k :: 0 <= k < |Transformations| && PairMatch(s, t, k)) ||
    Contains(t, s) || Contains(s, t) || Tokens(s) * Tokens(t) != {}
  }

  /** `_is_likely_transformation`: the pairs first, then the partial
      matches. */
  method IsLikelyTransformation(s: string, t: string) returns (r: bool)
    ensures r == LikelyTransformation(s, t)
  {
    var k := 0;
    while k < |Transformations|
      invariant 0 <= k <= |Transformations|
      invariant forall j :: 0 <= j < k ==> !PairMatch(s, t, j)
    {
      var (src, tgt) := Transformations[k];
      if Contains(s, src) && Contains(t, tgt) {
        assert PairMatch(s, t, k);
        return true;
      }
      k := k + 1;
    }
    r := Contains(t, s) || Contains(s, t) || Tokens(s) * Tokens(t) != {};
  }

  /** Every name is a likely transformation of itself, and of any name
      that contains it or that it contains. */
  lemma LikelyContained(s: string, t: string)
    ensures Contains(t, s) || Contains(s, t) ==> LikelyTransformation(s, t) && LikelyTransformation(t, s)
    ensures LikelyTransformation(s, s)
  {
    ContainsSelf(s);
  }

  /** What one source column and one target column contribute. */
  function ColumnPair(st: string, sc: string, tt: string, tcol: string): seq<Mapping> {
    if sc == tcol then [Mapping(st, sc, tt, tcol, 1, "schema_exact_match")]
    else if LikelyTransformation(sc, tcol) then [Mapping(st, sc, tt, tcol, 1, "schema_transform_match")]
    else []
  }

  function PairsWith(st: string, sc: string, tt: string, tcols: seq<string>): seq<Mapping> {
    Flatten(tcols, tcol => ColumnPair(st, sc, tt, tcol))
  }

  function TablePairs(st: string, scols: seq<string>, tt: string, tcols: seq<string>): seq<Mapping> {
    Flatten(scols, sc => PairsWith(st, sc, tt, tcols))
  }

  function TargetPairs(tc: map<string, seq<string>>, st: string, targets: seq<string>): seq<Mapping> {
    Flatten(targets, tt => TablePairs(st, Columns(tc, st), tt, Columns(tc, tt)))
  }

  /** `_generate_schema_based_mappings`: source table by source table, then
      target table, source column and target column. */
  function SchemaMappings(tc: map<string, seq<string>>, sources: seq<string>, targets: seq<string>): seq<Mapping> {
    Flatten(sources, st => TargetPairs(tc, st, targets))
  }

  /** A one-step match: an exact match when the names agree, otherwise a
      likely transformation. */
  predicate NameMatch(m: Mapping) {
    m.pathLength == 1 &&
    if m.sourceColumn == m.targetColumn then m.transformationType == "schema_exact_match"
    else LikelyTransformation(m.sourceColumn, m.targetColumn) && m.transformationType == "schema_transform_match"
  }

  lemma PairsWithMembers(st: string, sc: string, tt: string, tcols: seq<string>, m: Mapping)
    ensures m in PairsWith(st, sc, tt, tcols) <==>
      m.sourceTable == st && m.sourceColumn == sc && m.targetTable == tt && m.targetColumn in tcols && NameMatch(m)
  {
    FlattenMembers(tcols, tcol => ColumnPair(st, sc, tt, tcol), m);
    if m.sourceTable == st && m.sourceColumn == sc && m.targetTable == tt && m.targetColumn in tcols && NameMatch(m) {
      var j :| 0 <= j < |tcols| && tcols[j] == m.targetColumn;
      assert m in ColumnPair(st, sc, tt, tcols[j]);
    }
  }

  lemma TablePairsMembers(st: string, scols: seq<string>, tt: string, tcols: seq<string>, m: Mapping)
    ensures m in TablePairs(st, scols, tt, tcols) <==>
      m.sourceTable == st && m.sourceColumn in scols && m.targetTable == tt && m.targetColumn in tcols && NameMatch(m)
  {
    FlattenMembers(scols, sc => PairsWith(st, sc, tt, tcols), m);
    forall sc | sc in scols {
      PairsWithMembers(st, sc, tt, tcols, m);
    }
    if m.sourceTable == st && m.sourceColumn in scols && m.targetTable == tt && m.targetColumn in tcols && NameMatch(m) {
      var j :| 0 <= j < |scols| && scols[j] == m.sourceColumn;
      assert m in PairsWith(st, scols[j], tt, tcols);
    }
  }

  /** `m` pairs a column of its source table with a column of its target
      table. */
  predicate SchemaPair(tc: map<string, seq<string>>, m: Mapping) {
    m.sourceColumn in Columns(tc, m.sourceTable) && m.targetColumn in Columns(tc, m.targetTable) && NameMatch(m)
  }

  lemma TargetPairsMembers(tc: map<string, seq<string>>, st: string, targets: seq<string>, m: Mapping)
    ensures m in TargetPairs(tc, st, targets) <==> m.sourceTable == st && m.targetTable in targets && SchemaPair(tc, m)
  {
    FlattenMembers(targets, tt => TablePairs(st, Columns(tc, st), tt, Columns(tc, tt)), m);
    forall tt | tt in targets {
      TablePairsMembers(st, Columns(tc, st), tt, Columns(tc, tt), m);
    }
    if m.sourceTable == st && m.targetTable in targets && SchemaPair(tc, m) {
      var j :| 0 <= j < |targets| && targets[j] == m.targetTable;
      assert m in TablePairs(st, Columns(tc, st), targets[j], Columns(tc, targets[j]));
    }
  }

  /** A schema mapping is produced exactly for every pair of a column of a
      source table and a column of a target table whose names agree
      (an exact match) or differ but look like a transformation (a
      transform match); it is always one step long. */
  lemma SchemaMembers(tc: map<string, seq<string>>, sources: seq<string>, targets: seq<string>, m: Mapping)
    ensures m in SchemaMappings(tc, sources, targets) <==>
      m.sourceTable in sources && m.targetTable in targets && SchemaPair(tc, m)
  {
    FlattenMembers(sources, st => TargetPairs(tc, st, targets), m);
    forall st | st in sources {
      TargetPairsMembers(tc, st, targets, m);
    }
    if m.sourceTable in sources && m.targetTable in targets && SchemaPair(tc, m) {
      var i :| 0 <= i < |sources| && sources[i] == m.sourceTable;
      assert m in TargetPairs(tc, sources[i], targets);
    }
  }

  /** The loop over the target columns for one source column. */
  method MatchColumn(st: string, sc: string, tt: string, tcols: seq<string>) returns (r: seq<Mapping>)
    ensures r == PairsWith(st, sc, tt, tcols)
  {
    r := [];
    var l := 0;
    while l < |tcols|
      invariant 0 <= l <= |tcols|
      invariant r == PairsWith(st, sc, tt, tcols[..l])
    {
      assert tcols[..l + 1][..l] == tcols[..l];
      var tcol := tcols[l];
      assert PairsWith(st, sc, tt, tcols[..l + 1]) == r + ColumnPair(st, sc, tt, tcol);
      if sc == tcol {
        r := r + [Mapping(st, sc, tt, tcol, 1, "schema_exact_match")];
      } else {
        var likely := IsLikelyTransformation(sc, tcol);
        if likely {
          r := r + [Mapping(st, sc, tt, tcol, 1, "schema_transform_match")];
        } else {
          assert r + [] == r;
        }
      }
      l := l + 1;
    }
    assert tcols[..l] == tcols;
  }

  /** The loop over the source columns for one pair of tables. */
  method MatchTables(st: string, scols: seq<string>, tt: string, tcols: seq<string>) returns (r: seq<Mapping>)
    ensures r == TablePairs(st, scols, tt, tcols)
  {
    r := [];
    var k := 0;
    while k < |scols|
      invariant 0 <= k <= |scols|
      invariant r == TablePairs(st, scols[..k], tt, tcols)
    {
      assert scols[..k + 1][..k] == scols[..k];
      var more := MatchColumn(st, scols[k], tt, tcols);
      r := r + more;
      k := k + 1;
    }
    assert scols[..k] == scols;
  }

  /** The loop over the target tables for one source table. */
  method MatchTargets(tc: map<string, seq<string>>, st: string, targets: seq<string>) returns (r: seq<Mapping>)
    ensures r == TargetPairs(tc, st, targets)
  {
    var scols := Columns(tc, st);
    r := [];
    var j := 0;
    while j < |targets|
      invariant 0 <= j <= |targets|
      invariant r == TargetPairs(tc, st, targets[..j])
    {
      assert targets[..j + 1][..j] == targets[..j];
      var more := MatchTables(st, scols, targets[j], Columns(tc, targets[j]));
      r := r + more;
      j := j + 1;
    }
    assert targets[..j] == targets;
  }

  /** The loop over the source tables. */
  method SchemaBasedMappings(tc: map<string, seq<string>>, sources: seq<string>, targets: seq<string>)
    returns (r: seq<Mapping>)
    ensures r == SchemaMappings(tc, sources, targets)
  {
    r := [];
    var i := 0;
    while i < |sources|
      invariant 0 <= i <= |sources|
      invariant r == SchemaMappings(tc, sources[..i], targets)
    {
      assert sources[..i + 1][..i] == sources[..i];
      var more := MatchTargets(tc, sources[i], targets);
      r := r + more;
      i := i + 1;
    }
    assert sources[..i] == sources;
  }

  // ---------------------------------------------------------- end to end

  /** `_deduplicate_mappings` keys a mapping by its two columns. */
  function KeyOf(m: Mapping): (string, string, string, string) {
    (m.sourceTable, m.sourceColumn, m.targetTable, m.targetColumn)
  }

  /** The traced mappings, then the schema matches, each key kept once. */
  function EndToEnd(g: Graph, tc: map<string, seq<string>>, sources: seq<string>, targets: seq<string>): seq<Mapping> {
    Dedup(TracedMappings(g, tc, sources, MaxDepth) + SchemaMappings(tc, sources, targets), KeyOf)
  }

  /** Every end-to-end mapping runs from a column of a source table to a
      column of a target table: either traced over a simple path of two to
      five columns, or a one-step schema match. */
  lemma EndToEndSound(g: Graph, tc: map<string, seq<string>>, sources: seq<string>, targets: seq<string>, m: Mapping)
    requires m in EndToEnd(g, tc, sources, targets)
    ensures m.sourceTable in sources && m.sourceColumn in Columns(tc, m.sourceTable)
    ensures m.transformationType == "traced" ==> m.targetTable in g.finals && 2 <= m.pathLength <= MaxDepth
    ensures m.transformationType != "traced" ==> m.targetTable in targets && SchemaPair(tc, m)
  {
    var traced := TracedMappings(g, tc, sources, MaxDepth);
    var schema := SchemaMappings(tc, sources, targets);
    DedupFromSubset(traced + schema, KeyOf, {});
    if m in traced {
      TracedShape(g, tc, sources, MaxDepth, m);
    } else {
      SchemaMembers(tc, sources, targets, m);
    }
  }

  /** No two end-to-end mappings share a key. */
  lemma EndToEndUnique(g: Graph, tc: map<string, seq<string>>, sources: seq<string>, targets: seq<string>)
    ensures forall i, j :: 0 <= i < j < |EndToEnd(g, tc, sources, targets)| ==>
      KeyOf(EndToEnd(g, tc, sources, targets)[i]) != KeyOf(EndToEnd(g, tc, sources, targets)[j])
  {
    DedupFromUnique(TracedMappings(g, tc, sources, MaxDepth) + SchemaMappings(tc, sources, targets), KeyOf, {});
  }

  /** A traced mapping wins over a schema match with the same key: a
      schema match is reported only for keys no path reaches. */
  lemma TracedWins(g: Graph, tc: map<string, seq<string>>, sources: seq<string>, targets: seq<string>, m: Mapping, t: Mapping)
    requires m in EndToEnd(g, tc, sources, targets) && t in TracedMappings(g, tc, sources, MaxDepth)
    requires KeyOf(t) == KeyOf(m)
    ensures m.transformationType == "traced"
  {
    var traced := TracedMappings(g, tc, sources, MaxDepth);
    var all := traced + SchemaMappings(tc, sources, targets);
    var i :| 0 <= i < |traced| && traced[i] == t;
    assert all[i] == t;
    KeptFirst(all, KeyOf, m, i);
    var j :| 0 <= j <= i && all[j] == m;
    assert m == traced[j];
    TracedShape(g, tc, sources, MaxDepth, m);
  }

  /** Every traced mapping and every schema match is represented by the
      mapping kept for its key. */
  lemma EndToEndComplete(g: Graph, tc: map<string, seq<string>>, sources: seq<string>, targets: seq<string>, m: Mapping)
    requires m in TracedMappings(g, tc, sources, MaxDepth) + SchemaMappings(tc, sources, targets)
    ensures exists k :: k in EndToEnd(g, tc, sources, targets) && KeyOf(k) == KeyOf(m)
  {
    var all := TracedMappings(g, tc, sources, MaxDepth) + SchemaMappings(tc, sources, targets);
    var i :| 0 <= i < |all| && all[i] == m;
    DedupFromComplete(all, KeyOf, {}, i);
  }

  // ------------------------------------------------------------- report

  function ReportKey(m: Mapping): seq<string> {
    [m.targetTable, m.sourceTable, m.sourceColumn]
  }

  /** The report lists the mappings by target table, then source table,
      then source column. */
  function ReportOrder(ms: seq<Mapping>): (r: seq<Mapping>)
    ensures SortedBy(r, ReportKey) && multiset(r) == multiset(ms)
  {
    SortBy(ms, ReportKey)
  }

  // -------------------------------------------------------------- parser

  /** The trace took successors, source tables and target tables in some
      iteration order. */
  ghost predicate TracedIn(mappings: seq<Mapping>, flows: map<string, set<string>>, tables: map<string, string>,
                           tc: map<string, seq<string>>, sources: set<string>, targets: set<string>) {
    exists adj, sOrder, tOrder :: ListsOf(adj, flows) && Elems(sOrder) == sources && Simple(sOrder) &&
      Elems(tOrder) == targets && Simple(tOrder) &&
      mappings == EndToEnd(Graph(adj, tables, targets), tc, sOrder, tOrder)
  }

  /** The enhanced parser's state. */
  class EnhancedParser {
    var sourceTables: set<string>
    var targetTables: set<string>
    var intermediateTables: set<string>
    var columnFlows: map<string, set<string>>
    var tableColumns: map<string, seq<string>>
    var columnTables: map<string, string>
    var mappings: seq<Mapping>

    constructor ()
      ensures sourceTables == {} && targetTables == {} && intermediateTables == {} && columnFlows == map[]
      ensures tableColumns == map[] && columnTables == map[] && mappings == []
    {
      sourceTables := {};
      targetTables := {};
      intermediateTables := {};
      columnFlows := map[];
      tableColumns := map[];
      columnTables := map[];
      mappings := [];
    }

    /** `_build_table_column_mappings` */
    method BuildTableColumnMappings(schema: seq<SchemaTable>)
      modifies this
      ensures tableColumns == TableColumnsOf(old(tableColumns), schema)
      ensures columnTables == ColumnTablesOf(old(columnTables), schema)
      ensures sourceTables == old(sourceTables) && targetTables == old(targetTables)
      ensures intermediateTables == old(intermediateTables)
      ensures columnFlows == old(columnFlows) && mappings == old(mappings)
    {
      var tc, ct := BuildMaps(tableColumns, columnTables, schema);
      tableColumns := tc;
      columnTables := ct;
    }

    /** `_categorize_tables`: every real source and target table of the
      metadata (`None` when the metadata or its section is missing), then
      the schema's tables by name. */
    method CategorizeTables(metaSources: Option<seq<string>>, metaTargets: Option<seq<string>>)
      modifies this
      ensures sourceTables == old(sourceTables) + LowerNames(Listed(metaSources)) + SchemaTables(tableColumns.Keys, Source)
      ensures targetTables == old(targetTables) + LowerNames(Listed(metaTargets)) + SchemaTables(tableColumns.Keys, Target)
      ensures intermediateTables == old(intermediateTables) + SchemaTables(tableColumns.Keys, Intermediate)
      ensures columnFlows == old(columnFlows) && tableColumns == old(tableColumns)
      ensures columnTables == old(columnTables) && mappings == old(mappings)
    {
      var metaS := AddLowered(sourceTables, Listed(metaSources));
      var metaT := AddLowered(targetTables, Listed(metaTargets));
      var keys := Members(tableColumns.Keys);
      var src, tgt, mid := AddSchemaTables(metaS, metaT, intermediateTables, keys);
      assert Elems(keys) == tableColumns.Keys;
      sourceTables := src;
      targetTables := tgt;
      intermediateTables := mid;
    }

    /** `_extract_sqllineage_flows` over the column lineage paths sqllineage
      reported for the DML statements. */
    method ExtractFlows(paths: seq<seq<string>>)
      modifies this
      ensures columnFlows == AddEdges(old(columnFlows), PathEdges(paths))
      ensures columnTables == RecordEnds(old(columnTables), PathEdges(paths))
      ensures sourceTables == old(sourceTables) && targetTables == old(targetTables)
      ensures intermediateTables == old(intermediateTables)
      ensures tableColumns == old(tableColumns) && mappings == old(mappings)
    {
      var flows, ct := RecordPaths(columnFlows, columnTables, paths);
      columnFlows := flows;
      columnTables := ct;
    }

    /** `_merge_metadata_flows` over the `real_to_real` column lineages
      (`None` when the metadata or its section is missing); `added` counts
      the complete entries. */
    method MergeMetadataFlows(meta: Option<seq<MetaLineage>>) returns (added: nat)
      modifies this
      ensures added == |Accepted(Listed(meta))|
      ensures columnFlows == AddEdges(old(columnFlows), MetaEdges(Accepted(Listed(meta))))
      ensures columnTables == MetaTables(old(columnTables), Accepted(Listed(meta)))
      ensures sourceTables == old(sourceTables) && targetTables == old(targetTables)
      ensures intermediateTables == old(intermediateTables)
      ensures tableColumns == old(tableColumns) && mappings == old(mappings)
    {
      var flows, ct;
      added, flows, ct := MergeEntries(columnFlows, columnTables, Listed(meta));
      columnFlows := flows;
      columnTables := ct;
    }

    /** `_trace_end_to_end_lineage` */
    method TraceEndToEnd()
      modifies this
      ensures TracedIn(mappings, columnFlows, columnTables, tableColumns, sourceTables, targetTables)
      ensures sourceTables == old(sourceTables) && targetTables == old(targetTables)
      ensures intermediateTables == old(intermediateTables) && columnFlows == old(columnFlows)
      ensures tableColumns == old(tableColumns) && columnTables == old(columnTables)
    {
      mappings := TraceAll(columnFlows, columnTables, tableColumns, sourceTables, targetTables);
    }

    /** `analyze`: the schema passes, the two flow sources, then the trace.
      Every reported mapping runs from a column of a source table to a
      target table, a traced one over two to five columns and a schema
      match in one step, and no two share a key. */
    method Analyze(schema: seq<SchemaTable>, metaSources: Option<seq<string>>, metaTargets: Option<seq<string>>,
                   lineagePaths: seq<seq<string>>, metaLineages: Option<seq<MetaLineage>>)
      modifies this
      ensures tableColumns == TableColumnsOf(old(tableColumns), schema)
      ensures columnTables ==
        MetaTables(RecordEnds(ColumnTablesOf(old(columnTables), schema), PathEdges(lineagePaths)), Accepted(Listed(metaLineages)))
      ensures sourceTables == old(sourceTables) + LowerNames(Listed(metaSources)) + SchemaTables(tableColumns.Keys, Source)
      ensures targetTables == old(targetTables) + LowerNames(Listed(metaTargets)) + SchemaTables(tableColumns.Keys, Target)
      ensures intermediateTables == old(intermediateTables) + SchemaTables(tableColumns.Keys, Intermediate)
      ensures columnFlows ==
        AddEdges(AddEdges(old(columnFlows), PathEdges(lineagePaths)), MetaEdges(Accepted(Listed(metaLineages))))
      ensures TracedIn(mappings, columnFlows, columnTables, tableColumns, sourceTables, targetTables)
      ensures forall m :: m in mappings ==>
        m.sourceTable in sourceTables && m.sourceColumn in Columns(tableColumns, m.sourceTable) &&
        m.targetTable in targetTables &&
        (if m.transformationType == "traced" then 2 <= m.pathLength <= MaxDepth else SchemaPair(tableColumns, m))
      ensures forall i, j :: 0 <= i < j < |mappings| ==> KeyOf(mappings[i]) != KeyOf(mappings[j])
    {
      BuildTableColumnMappings(schema);
      CategorizeTables(metaSources, metaTargets);
      ExtractFlows(lineagePaths);
      var _ := MergeMetadataFlows(metaLineages);
      TraceEndToEnd();
      ghost var adj, sOrder, tOrder :| ListsOf(adj, columnFlows) && Elems(sOrder) == sourceTables && Simple(sOrder) &&
        Elems(tOrder) == targetTables && Simple(tOrder) &&
        mappings == EndToEnd(Graph(adj, columnTables, targetTables), tableColumns, sOrder, tOrder);
      forall m | m in mappings
        ensures m.sourceTable in sourceTables && m.sourceColumn in Columns(tableColumns, m.sourceTable)
        ensures m.targetTable in targetTables
        ensures if m.transformationType == "traced" then 2 <= m.pathLength <= MaxDepth else SchemaPair(tableColumns, m)
      {
        EndToEndSound(Graph(adj, columnTables, targetTables), tableColumns, sOrder, tOrder, m);
      }
      EndToEndUnique(Graph(adj, columnTables, targetTables), tableColumns, sOrder, tOrder);
    }
  }

  /** The traced mappings, the schema matches and the de-duplication, in
      some iteration order of the sets. */
  method TraceAll(flows: map<string, set<string>>, tables: map<string, string>, tc: map<string, seq<string>>,
                  sources: set<string>, targets: set<string>) returns (mappings: seq<Mapping>)
    ensures TracedIn(mappings, flows, tables, tc, sources, targets)
  {
    var adj := FlowLists(flows);
    var sOrder := Members(sources);
    var tOrder := Members(targets);
    assert Elems(sOrder) == sources && Elems(tOrder) == targets;
    var g := Graph(adj, tables, targets);
    var traced := TraceSources(g, tc, sOrder, MaxDepth);
    var schema := SchemaBasedMappings(tc, sOrder, tOrder);
    mappings := DedupLoop(traced + schema, KeyOf);
    assert mappings == EndToEnd(g, tc, sOrder, tOrder);
  }
}
