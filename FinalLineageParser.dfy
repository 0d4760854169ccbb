/**
 * The focused parser (final_lineage_parser.py): a schema gives every
 * table its columns, C# metadata and the schema name the source and final
 * tables, sqllineage results and C# column lineages give the column flows,
 * and the report lists a fixed set of key business transformations plus
 * the flows traced at most three columns deep from every source column.
 */
module FinalLineageParser {
  import opened Strings
  import opened Common
  import opened ColumnFlows

  /** One entry of `end_to_end_mappings`. */
  datatype KeyMapping = KeyMapping(sourceTable: string, sourceColumn: string, targetTable: string, targetColumn: string,
                                   transformationType: string)

  const SourcePatterns: seq<string> := ["staging", "ref"]
  const FinalTargetPatterns: seq<string> := ["core.ledgerfinal", "audit.failedtxn", "audit.reconsummary",
                                            "audit.steplog", "ops.batchregistry", "core.gl"]
  const MetaTargetPatterns: seq<string> := ["ledgerfinal", "audit", "ops"]

  // ----------------------------------------------------------- categories

  /** The metadata's real source tables kept: those naming staging or ref. */
  function MetaSources(tables: seq<string>): set<string> {
    set t | t in tables && ContainsAny(Lower(t), SourcePatterns) :: Lower(t)
  }

  /** A metadata target kept: no `work`, and a ledger, audit or ops name or
      exactly `core.gl`. */
  predicate FinalLike(t: string) {
    !Contains(t, "work") && (ContainsAny(t, MetaTargetPatterns) || t == "core.gl")
  }

  function MetaFinals(tables: seq<string>): set<string> {
    set t | t in tables && FinalLike(Lower(t)) :: Lower(t)
  }

  /** The schema pass: a table naming staging or ref is a source; otherwise
      it is a final target only when it is one of the six names. */
  function SchemaSources(tables: set<string>): set<string> {
    set t | t in tables && ContainsAny(Lower(t), SourcePatterns) :: Lower(t)
  }

  function SchemaFinals(tables: set<string>): set<string> {
    set t | t in tables && !ContainsAny(Lower(t), SourcePatterns) && Lower(t) in FinalTargetPatterns :: Lower(t)
  }

  /** Every source the categorization adds names staging or ref, and every
      final target it adds is either a kept metadata target or one of the
      six names; a schema table matching a source pattern is never made a
      final target by the schema pass. */
  lemma CategoriesSound(metaSources: Option<seq<string>>, metaTargets: Option<seq<string>>, tables: set<string>, t: string)
    ensures t in MetaSources(Listed(metaSources)) + SchemaSources(tables) ==> ContainsAny(t, SourcePatterns)
    ensures t in MetaFinals(Listed(metaTargets)) + SchemaFinals(tables) ==> FinalLike(t) || t in FinalTargetPatterns
    ensures t in SchemaFinals(tables) ==> !ContainsAny(t, SourcePatterns)
  {
  }

  // ---------------------------------------------------------- path search

  /** `find_target_paths(start, depth)`: no paths once the depth is spent,
      the column alone when it is final, otherwise `start` in front of every
      path found one level deeper from each successor. */
  function TargetPaths(g: Graph, start: string, depth: int): seq<seq<string>>
    decreases Depth(depth), 0, 0
  {
    if depth <= 0 then []
    else if AtFinal(g, start) then [[start]]
    else Follow(g, start, Nexts(g, start), depth - 1)
  }

  function Follow(g: Graph, start: string, nexts: seq<string>, depth: int): seq<seq<string>>
    decreases Depth(depth), 1, |nexts|
  {
    if nexts == [] then []
    else Prefixed(start, TargetPaths(g, nexts[0], depth)) + Follow(g, start, nexts[1..], depth)
  }

  /** Some successor in `nexts` has `q` among its paths. */
  predicate FromSome(g: Graph, nexts: seq<string>, depth: int, q: seq<string>) {
    exists k :: 0 <= k < |nexts| && q in TargetPaths(g, nexts[k], depth)
  }

  lemma {:induction false} FollowMembers(g: Graph, start: string, nexts: seq<string>, depth: int, p: seq<string>)
    ensures p in Follow(g, start, nexts, depth) <==> |p| >= 1 && p[0] == start && FromSome(g, nexts, depth, p[1..])
    decreases |nexts|
  {
    if nexts != [] {
      var rest := nexts[1..];
      FollowMembers(g, start, rest, depth, p);
      assert p in Follow(g, start, nexts, depth) <==>
        p in Prefixed(start, TargetPaths(g, nexts[0], depth)) || p in Follow(g, start, rest, depth);
      if |p| >= 1 && FromSome(g, nexts, depth, p[1..]) {
        var k :| 0 <= k < |nexts| && p[1..] in TargetPaths(g, nexts[k], depth);
        if k > 0 {
          assert rest[k - 1] == nexts[k];
          assert FromSome(g, rest, depth, p[1..]);
        }
      }
      if |p| >= 1 && FromSome(g, rest, depth, p[1..]) {
        var k :| 0 <= k < |rest| && p[1..] in TargetPaths(g, rest[k], depth);
        assert rest[k] == nexts[k + 1];
      }
    }
  }

  /** A reported path is the final column alone, or `start` in front of a
      path reported one level deeper from one of its successors. */
  lemma TargetPathsCases(g: Graph, start: string, depth: int, p: seq<string>)
    requires p in TargetPaths(g, start, depth)
    ensures depth > 0
    ensures AtFinal(g, start) ==> p == [start]
    ensures !AtFinal(g, start) ==> |p| >= 1 && p[0] == start && FromSome(g, Nexts(g, start), depth - 1, p[1..])
  {
    if !AtFinal(g, start) {
      FollowMembers(g, start, Nexts(g, start), depth - 1, p);
    }
  }

  /** Every reported path is a walk from `start` of at most `depth` columns. */
  lemma {:induction false} TargetPathsSound(g: Graph, start: string, depth: int, p: seq<string>)
    requires p in TargetPaths(g, start, depth)
    ensures Walk(g, p) && p[0] == start && |p| <= depth
    decreases Depth(depth)
  {
    TargetPathsCases(g, start, depth, p);
    if !AtFinal(g, start) {
      var nexts := Nexts(g, start);
      var q := p[1..];
      var k :| 0 <= k < |nexts| && q in TargetPaths(g, nexts[k], depth - 1);
      TargetPathsSound(g, nexts[k], depth - 1, q);
      WalkCons(g, p);
    }
  }

  /** A path reported from a successor, with `start` in front, is among
      the paths `Follow` collects. */
  lemma FollowFrom(g: Graph, start: string, nexts: seq<string>, depth: int, p: seq<string>)
    requires |p| >= 2 && p[0] == start && p[1] in nexts && p[1..] in TargetPaths(g, p[1], depth)
    ensures p in Follow(g, start, nexts, depth)
  {
    var k :| 0 <= k < |nexts| && nexts[k] == p[1];
    assert FromSome(g, nexts, depth, p[1..]);
    FollowMembers(g, start, nexts, depth, p);
  }

  /** Every walk from `start` of at most `depth` columns is reported. */
  lemma {:induction false} TargetPathsComplete(g: Graph, start: string, depth: int, p: seq<string>)
    requires Walk(g, p) && p[0] == start && |p| <= depth
    ensures p in TargetPaths(g, start, depth)
    decreases Depth(depth)
  {
    if AtFinal(g, start) {
      if |p| >= 2 {
        WalkTail(g, p);
      }
      assert p == [start];
    } else {
      assert |p| >= 2;
      WalkTail(g, p);
      TargetPathsComplete(g, p[1], depth - 1, p[1..]);
      var ps := Follow(g, start, Nexts(g, start), depth - 1);
      FollowFrom(g, start, Nexts(g, start), depth - 1, p);
      assert TargetPaths(g, start, depth) == ps;
    }
  }

  // ------------------------------------------------------- key mappings

  /** The known business transformations: each source column to the
      target columns it feeds, in the order written. */
  const KeyTransformations: seq<(string, seq<string>)> := [
    ("staging.transactions.srcid", ["core.ledgerfinal.idempotencykey", "core.ledger.idempotencykey"]),
    ("staging.transactions.txnexternalid", ["audit.failedtxn.txnexternalid", "core.ledgerfinal.idempotencykey"]),
    ("staging.transactions.accountno", ["core.ledgerfinal.accountid"]),
    ("staging.transactions.amount", ["core.ledgerfinal.amountbase"]),
    ("staging.transactions.currency", ["core.ledgerfinal.amountbase"]),
    ("staging.transactions.direction", ["core.ledgerfinal.direction"]),
    ("staging.transactions.txntype", ["core.ledgerfinal.txntype"]),
    ("staging.transactions.channel", ["core.ledgerfinal.feeamount"]),
    ("staging.transactions.narrative", ["core.ledgerfinal.narrative"]),
    ("staging.transactions.batchid", ["core.ledgerfinal.batchid", "audit.failedtxn.batchid"]),
    ("staging.transactions.batchdate", ["core.ledgerfinal.createdat"]),
    ("ref.account.accountid", ["core.ledgerfinal.accountid"]),
    ("ref.account.basecurrency", ["core.ledgerfinal.amountbase"]),
    ("ref.feeconfig.feeamount", ["core.ledgerfinal.feeamount"]),
    ("ref.glmap.glaccount", ["core.gl.glaccount"]),
    ("ref.currencyrate.rate", ["core.ledgerfinal.amountbase"])]

  /** A key transformation is reported only between a source table and a
      final target table that the schema has, and columns each of them has. */
  predicate KnownPair(st: string, sc: string, tt: string, tcol: string,
                      sources: set<string>, finals: set<string>, tc: map<string, seq<string>>) {
    st in sources && tt in finals && st in tc && tt in tc && sc in tc[st] && tcol in tc[tt]
  }

  /** One known source column and target column, split at the last dot. */
  function KeyCandidate(source: string, target: string,
                        sources: set<string>, finals: set<string>, tc: map<string, seq<string>>): seq<KeyMapping> {
    var st := AllButLast(source);
    var sc := LastSegment(source);
    var tt := AllButLast(target);
    var tcol := LastSegment(target);
    if KnownPair(st, sc, tt, tcol, sources, finals, tc) then [KeyMapping(st, sc, tt, tcol, "key_business_logic")] else []
  }

  function EntryMappings(e: (string, seq<string>), sources: set<string>, finals: set<string>,
                         tc: map<string, seq<string>>): seq<KeyMapping> {
    Flatten(e.1, target => KeyCandidate(e.0, target, sources, finals, tc))
  }

  /** The key business mappings, in the order of the transformations. */
  function KeyMappings(entries: seq<(string, seq<string>)>, sources: set<string>, finals: set<string>,
                       tc: map<string, seq<string>>): seq<KeyMapping> {
    Flatten(entries, e => EntryMappings(e, sources, finals, tc))
  }

  /** A key mapping is reported exactly for each listed transformation whose
      tables are categorized and whose columns the schema has. */
  lemma KeyMappingsMembers(entries: seq<(string, seq<string>)>, sources: set<string>, finals: set<string>,
                           tc: map<string, seq<string>>, m: KeyMapping)
    ensures m in KeyMappings(entries, sources, finals, tc) <==>
      m.transformationType == "key_business_logic" &&
      KnownPair(m.sourceTable, m.sourceColumn, m.targetTable, m.targetColumn, sources, finals, tc) &&
      exists i, j :: 0 <= i < |entries| && 0 <= j < |entries[i].1| &&
        m.sourceTable == AllButLast(entries[i].0) && m.sourceColumn == LastSegment(entries[i].0) &&
        m.targetTable == AllButLast(entries[i].1[j]) && m.targetColumn == LastSegment(entries[i].1[j])
  {
    FlattenMembers(entries, e => EntryMappings(e, sources, finals, tc), m);
    forall i | 0 <= i < |entries| {
      FlattenMembers(entries[i].1, target => KeyCandidate(entries[i].0, target, sources, finals, tc), m);
    }
  }

  /** The loop over one transformation's targets. */
  method CollectEntry(e: (string, seq<string>), sources: set<string>, finals: set<string>,
                      tc: map<string, seq<string>>) returns (r: seq<KeyMapping>)
    ensures r == EntryMappings(e, sources, finals, tc)
  {
    r := [];
    var j := 0;
    while j < |e.1|
      invariant 0 <= j <= |e.1|
      invariant r == EntryMappings((e.0, e.1[..j]), sources, finals, tc)
    {
      assert e.1[..j + 1][..j] == e.1[..j];
      var st := AllButLast(e.0);
      var sc := LastSegment(e.0);
      var tt := AllButLast(e.1[j]);
      var tcol := LastSegment(e.1[j]);
      if st in sources && tt in finals && st in tc && tt in tc {
        if sc in tc[st] && tcol in tc[tt] {
          r := r + [KeyMapping(st, sc, tt, tcol, "key_business_logic")];
        }
      }
      j := j + 1;
    }
    assert e.1[..j] == e.1;
  }

  /** The loop over the known transformations. */
  method CollectKeyMappings(entries: seq<(string, seq<string>)>, sources: set<string>, finals: set<string>,
                            tc: map<string, seq<string>>) returns (r: seq<KeyMapping>)
    ensures r == KeyMappings(entries, sources, finals, tc)
  {
    r := [];
    var i := 0;
    while i < |entries|
      invariant 0 <= i <= |entries|
      invariant r == KeyMappings(entries[..i], sources, finals, tc)
    {
      assert entries[..i + 1][..i] == entries[..i];
      var more := CollectEntry(entries[i], sources, finals, tc);
      r := r + more;
      i := i + 1;
    }
    assert entries[..i] == entries;
  }

  // ---------------------------------------------------- traced mappings

  /** The mapping one path reports: from the source column to the last
      column's table and its name after the last dot. */
  function PathMapping(g: Graph, st: string, sc: string, p: seq<string>): seq<KeyMapping> {
    if |p| >= 2 && p[|p| - 1] in g.tables
    then [KeyMapping(st, sc, g.tables[p[|p| - 1]], LastSegment(p[|p| - 1]), "traced_flow")]
    else []
  }

  /** Tracing starts three columns deep. */
  const MaxDepth := 3

  function PathsMappings(g: Graph, st: string, sc: string, paths: seq<seq<string>>): seq<KeyMapping> {
    Flatten(paths, p => PathMapping(g, st, sc, p))
  }

  function ColumnTraces(g: Graph, st: string, sc: string, depth: int): seq<KeyMapping> {
    PathsMappings(g, st, sc, TargetPaths(g, st + "." + sc, depth))
  }

  function ColumnsMappings(g: Graph, st: string, columns: seq<string>, depth: int): seq<KeyMapping> {
    Flatten(columns, sc => ColumnTraces(g, st, sc, depth))
  }

  function SourceTraces(g: Graph, tc: map<string, seq<string>>, st: string, depth: int): seq<KeyMapping> {
    ColumnsMappings(g, st, Columns(tc, st), depth)
  }

  /** The traced mappings, source table by source table in `order`, each
      column searched `depth` columns deep. */
  function TracedMappings(g: Graph, tc: map<string, seq<string>>, order: seq<string>, depth: int): seq<KeyMapping> {
    Flatten(order, st => SourceTraces(g, tc, st, depth))
  }

  predicate ReportsWalk(g: Graph, st: string, sc: string, p: seq<string>, m: KeyMapping)
    requires |p| >= 1 && p[|p| - 1] in g.tables
  {
    m == KeyMapping(st, sc, g.tables[p[|p| - 1]], LastSegment(p[|p| - 1]), "traced_flow")
  }

  /** Some walk of two to `depth` columns from `start` to a final column
      reports `m` for column `sc` of table `st`. */
  ghost predicate ReportedFrom(g: Graph, st: string, sc: string, start: string, depth: int, m: KeyMapping) {
    exists p :: Walk(g, p) && p[0] == start && 2 <= |p| <= depth && ReportsWalk(g, st, sc, p, m)
  }

  lemma PathsMappingsMembers(g: Graph, st: string, sc: string, start: string, depth: int, m: KeyMapping)
    ensures m in PathsMappings(g, st, sc, TargetPaths(g, start, depth)) <==> ReportedFrom(g, st, sc, start, depth, m)
  {
    var paths := TargetPaths(g, start, depth);
    FlattenMembers(paths, p => PathMapping(g, st, sc, p), m);
    if m in PathsMappings(g, st, sc, paths) {
      var k :| 0 <= k < |paths| && m in PathMapping(g, st, sc, paths[k]);
      var p := paths[k];
      TargetPathsSound(g, start, depth, p);
      assert AtFinal(g, p[|p| - 1]);
      assert ReportsWalk(g, st, sc, p, m);
    }
    if ReportedFrom(g, st, sc, start, depth, m) {
      var p :| Walk(g, p) && p[0] == start && 2 <= |p| <= depth && ReportsWalk(g, st, sc, p, m);
      TargetPathsComplete(g, start, depth, p);
      var k :| 0 <= k < |paths| && paths[k] == p;
      assert m in PathMapping(g, st, sc, paths[k]);
    }
  }

  lemma SourceTracesMembers(g: Graph, tc: map<string, seq<string>>, st: string, depth: int, m: KeyMapping)
    ensures m in SourceTraces(g, tc, st, depth) <==>
      exists sc :: sc in Columns(tc, st) && ReportedFrom(g, st, sc, st + "." + sc, depth, m)
  {
    var columns := Columns(tc, st);
    FlattenMembers(columns, sc => ColumnTraces(g, st, sc, depth), m);
    forall sc | sc in columns {
      PathsMappingsMembers(g, st, sc, st + "." + sc, depth, m);
    }
    if exists sc :: sc in columns && ReportedFrom(g, st, sc, st + "." + sc, depth, m) {
      var sc :| sc in columns && ReportedFrom(g, st, sc, st + "." + sc, depth, m);
      var j :| 0 <= j < |columns| && columns[j] == sc;
      assert m in ColumnTraces(g, st, columns[j], depth);
    }
  }

  /** A traced mapping is reported exactly for each walk of two to `depth`
      columns from a column of a source table in `order` to a final column:
      it names that source column, the final column's table and its name. */
  lemma TracedMembers(g: Graph, tc: map<string, seq<string>>, order: seq<string>, depth: int, m: KeyMapping)
    ensures m in TracedMappings(g, tc, order, depth) <==>
      exists st, sc :: st in order && sc in Columns(tc, st) && ReportedFrom(g, st, sc, st + "." + sc, depth, m)
  {
    FlattenMembers(order, st => SourceTraces(g, tc, st, depth), m);
    forall st | st in order {
      SourceTracesMembers(g, tc, st, depth, m);
    }
    if exists st, sc :: st in order && sc in Columns(tc, st) && ReportedFrom(g, st, sc, st + "." + sc, depth, m) {
      var st, sc :| st in order && sc in Columns(tc, st) && ReportedFrom(g, st, sc, st + "." + sc, depth, m);
      var i :| 0 <= i < |order| && order[i] == st;
      assert m in SourceTraces(g, tc, order[i], depth);
    }
  }

  /** The loop over one column's paths. */
  method TracePaths(g: Graph, st: string, sc: string, paths: seq<seq<string>>) returns (r: seq<KeyMapping>)
    ensures r == PathsMappings(g, st, sc, paths)
  {
    r := [];
    var k := 0;
    while k < |paths|
      invariant 0 <= k <= |paths|
      invariant r == PathsMappings(g, st, sc, paths[..k])
    {
      assert paths[..k + 1][..k] == paths[..k];
      var path := paths[k];
      assert PathsMappings(g, st, sc, paths[..k + 1]) == r + PathMapping(g, st, sc, path);
      if |path| >= 2 {
        var last := path[|path| - 1];
        if last in g.tables {
          r := r + [KeyMapping(st, sc, g.tables[last], LastSegment(last), "traced_flow")];
        }
      }
      k := k + 1;
    }
    assert paths[..k] == paths;
  }

  /** The loop over one source table's columns. */
  method TraceSource(g: Graph, tc: map<string, seq<string>>, st: string, depth: int) returns (r: seq<KeyMapping>)
    ensures r == SourceTraces(g, tc, st, depth)
  {
    var columns := Columns(tc, st);
    r := [];
    var j := 0;
    while j < |columns|
      invariant 0 <= j <= |columns|
      invariant r == ColumnsMappings(g, st, columns[..j], depth)
    {
      assert columns[..j + 1][..j] == columns[..j];
      var paths := TargetPaths(g, st + "." + columns[j], depth);
      var more := TracePaths(g, st, columns[j], paths);
      r := r + more;
      j := j + 1;
    }
    assert columns[..j] == columns;
  }

  /** The loop over the source tables, in `order`. */
  method TraceSources(g: Graph, tc: map<string, seq<string>>, order: seq<string>, depth: int) returns (r: seq<KeyMapping>)
    ensures r == TracedMappings(g, tc, order, depth)
  {
    r := [];
    var i := 0;
    while i < |order|
      invariant 0 <= i <= |order|
      invariant r == TracedMappings(g, tc, order[..i], depth)
    {
      assert order[..i + 1][..i] == order[..i];
      var more := TraceSource(g, tc, order[i], depth);
      r := r + more;
      i := i + 1;
    }
    assert order[..i] == order;
  }

  // ----------------------------------------------------------- filtering

  /** What makes two mappings the same: both ends, not the kind. */
  function KeyOf(m: KeyMapping): (string, string, string, string) {
    (m.sourceTable, m.sourceColumn, m.targetTable, m.targetColumn)
  }

  /** Not a column mapped to itself, and not into a work table. */
  predicate Meaningful(m: KeyMapping) {
    !(m.sourceTable == m.targetTable && m.sourceColumn == m.targetColumn) && !Contains(m.targetTable, "work")
  }

  /** `_filter_meaningful_mappings` from a set of keys already seen: a key
      is marked seen before the mapping is tested, so a mapping that is
      dropped still hides every later mapping with its key. */
  function FilterFrom(ms: seq<KeyMapping>, seen: set<(string, string, string, string)>): seq<KeyMapping> {
    if ms == [] then []
    else if KeyOf(ms[0]) in seen then FilterFrom(ms[1..], seen)
    else (if Meaningful(ms[0]) then [ms[0]] else []) + FilterFrom(ms[1..], seen + {KeyOf(ms[0])})
  }

  function FilterMeaningful(ms: seq<KeyMapping>): seq<KeyMapping> {
    FilterFrom(ms, {})
  }

  /** Whether a mapping is meaningful depends only on its key, so marking a
      dropped mapping's key seen loses nothing: the filter keeps exactly the
      meaningful mappings among the first of each key. */
  lemma {:induction false} FilterMembers(ms: seq<KeyMapping>, seen: set<(string, string, string, string)>, x: KeyMapping)
    ensures x in FilterFrom(ms, seen) <==> x in DedupFrom(ms, KeyOf, seen) && Meaningful(x)
    decreases |ms|
  {
    if ms != [] {
      var s' := if KeyOf(ms[0]) in seen then seen else seen + {KeyOf(ms[0])};
      FilterMembers(ms[1..], s', x);
    }
  }

  /** No two kept mappings share a key. */
  lemma {:induction false} FilterUnique(ms: seq<KeyMapping>, seen: set<(string, string, string, string)>)
    ensures forall i, j :: 0 <= i < j < |FilterFrom(ms, seen)| ==> KeyOf(FilterFrom(ms, seen)[i]) != KeyOf(FilterFrom(ms, seen)[j])
    decreases |ms|
  {
    if ms != [] {
      var s' := if KeyOf(ms[0]) in seen then seen else seen + {KeyOf(ms[0])};
      FilterUnique(ms[1..], s');
      if KeyOf(ms[0]) !in seen && Meaningful(ms[0]) {
        var rest := FilterFrom(ms[1..], s');
        var r := FilterFrom(ms, seen);
        assert r == [ms[0]] + rest;
        DedupFromSubset(ms[1..], KeyOf, s');
        forall i, j | 0 <= i < j < |r| ensures KeyOf(r[i]) != KeyOf(r[j]) {
          assert r[j] == rest[j - 1];
          FilterMembers(ms[1..], s', r[j]);
          if i > 0 { assert r[i] == rest[i - 1]; }
        }
      }
    }
  }

  /** The loop with its `seen` set. */
  method FilterMeaningfulLoop(ms: seq<KeyMapping>) returns (filtered: seq<KeyMapping>)
    ensures filtered == FilterMeaningful(ms)
  {
    var seen: set<(string, string, string, string)> := {};
    filtered := [];
    var i := 0;
    while i < |ms|
      invariant 0 <= i <= |ms|
      invariant filtered + FilterFrom(ms[i..], seen) == FilterMeaningful(ms)
    {
      var m := ms[i];
      assert ms[i..][1..] == ms[i + 1..];
      var key := (m.sourceTable, m.sourceColumn, m.targetTable, m.targetColumn);
      if key !in seen {
        seen := seen + {key};
        if m.sourceTable == m.targetTable && m.sourceColumn == m.targetColumn {
        } else if Contains(m.targetTable, "work") {
        } else {
          filtered := filtered + [m];
        }
      }
      i := i + 1;
    }
  }

  // -------------------------------------------------------- end to end

  /** `end_to_end_mappings`: the key mappings, then the traced ones, filtered. */
  function EndToEnd(g: Graph, tc: map<string, seq<string>>, order: seq<string>,
                    sources: set<string>, finals: set<string>): seq<KeyMapping> {
    FilterMeaningful(KeyMappings(KeyTransformations, sources, finals, tc) + TracedMappings(g, tc, order, MaxDepth))
  }

  /** Every traced mapping runs from a table in `order` to a final table. */
  lemma TracedEnds(g: Graph, tc: map<string, seq<string>>, order: seq<string>, depth: int, m: KeyMapping)
    requires m in TracedMappings(g, tc, order, depth)
    ensures m.sourceTable in order && m.targetTable in g.finals && m.transformationType == "traced_flow"
  {
    TracedMembers(g, tc, order, depth, m);
    var st, sc :| st in order && sc in Columns(tc, st) && ReportedFrom(g, st, sc, st + "." + sc, depth, m);
    var p :| Walk(g, p) && p[0] == st + "." + sc && 2 <= |p| <= depth && ReportsWalk(g, st, sc, p, m);
  }

  /** Every end-to-end mapping is meaningful, is a key mapping or a traced
      one, and runs from a source table to a final target table. */
  lemma EndToEndSound(g: Graph, tc: map<string, seq<string>>, order: seq<string>,
                      sources: set<string>, finals: set<string>, m: KeyMapping)
    requires g.finals == finals && forall st :: st in order ==> st in sources
    requires m in EndToEnd(g, tc, order, sources, finals)
    ensures Meaningful(m) && m.sourceTable in sources && m.targetTable in finals
    ensures m in KeyMappings(KeyTransformations, sources, finals, tc) || m in TracedMappings(g, tc, order, MaxDepth)
  {
    var keys := KeyMappings(KeyTransformations, sources, finals, tc);
    var traced := TracedMappings(g, tc, order, MaxDepth);
    FilterMembers(keys + traced, {}, m);
    DedupFromSubset(keys + traced, KeyOf, {});
    if m in keys {
      KeyMappingsMembers(KeyTransformations, sources, finals, tc, m);
    } else {
      TracedEnds(g, tc, order, MaxDepth, m);
    }
  }

  /** A key mapping shadows every traced mapping with the same key. */
  lemma KeyMappingsShadow(g: Graph, tc: map<string, seq<string>>, order: seq<string>,
                          sources: set<string>, finals: set<string>, m: KeyMapping, k: KeyMapping)
    requires m in EndToEnd(g, tc, order, sources, finals) && m.transformationType == "traced_flow"
    requires k in KeyMappings(KeyTransformations, sources, finals, tc)
    ensures KeyOf(k) != KeyOf(m)
  {
    var keys := KeyMappings(KeyTransformations, sources, finals, tc);
    var all := keys + TracedMappings(g, tc, order, MaxDepth);
    FilterMembers(all, {}, m);
    KeyMappingsMembers(KeyTransformations, sources, finals, tc, k);
    var i :| 0 <= i < |keys| && keys[i] == k;
    assert all[i] == k;
    if KeyOf(k) == KeyOf(m) {
      KeptFirst(all, KeyOf, m, i);
      var j :| 0 <= j <= i && all[j] == m;
      assert m in keys;
      KeyMappingsMembers(KeyTransformations, sources, finals, tc, m);
    }
  }

  /** Every end-to-end mapping's key is unique. */
  lemma EndToEndUnique(g: Graph, tc: map<string, seq<string>>, order: seq<string>, sources: set<string>, finals: set<string>)
    ensures var r := EndToEnd(g, tc, order, sources, finals);
      forall i, j :: 0 <= i < j < |r| ==> KeyOf(r[i]) != KeyOf(r[j])
  {
    FilterUnique(KeyMappings(KeyTransformations, sources, finals, tc) + TracedMappings(g, tc, order, MaxDepth), {});
  }

  /** Every meaningful key mapping or traced mapping has its key reported. */
  lemma EndToEndComplete(g: Graph, tc: map<string, seq<string>>, order: seq<string>,
                         sources: set<string>, finals: set<string>, x: KeyMapping)
    requires x in KeyMappings(KeyTransformations, sources, finals, tc) + TracedMappings(g, tc, order, MaxDepth)
    requires Meaningful(x)
    ensures exists m :: m in EndToEnd(g, tc, order, sources, finals) && KeyOf(m) == KeyOf(x)
  {
    var all := KeyMappings(KeyTransformations, sources, finals, tc) + TracedMappings(g, tc, order, MaxDepth);
    var i :| 0 <= i < |all| && all[i] == x;
    DedupFromComplete(all, KeyOf, {}, i);
    var d := DedupFrom(all, KeyOf, {});
    var j :| 0 <= j < |d| && KeyOf(d[j]) == KeyOf(x);
    FilterMembers(all, {}, d[j]);
  }

  // ------------------------------------------------------------- report

  function ReportKey(m: KeyMapping): seq<string> {
    [m.targetTable, m.sourceTable, m.sourceColumn]
  }

  /** The report lists the mappings by target table, then source table,
      then source column. */
  function ReportOrder(ms: seq<KeyMapping>): (r: seq<KeyMapping>)
    ensures SortedBy(r, ReportKey) && multiset(r) == multiset(ms)
  {
    SortBy(ms, ReportKey)
  }

  // -------------------------------------------------------------- parser

  /** The trace took successors and source tables in some iteration order. */
  ghost predicate TracedIn(mappings: seq<KeyMapping>, flows: map<string, set<string>>, tables: map<string, string>,
                           tc: map<string, seq<string>>, sources: set<string>, finals: set<string>) {
    exists adj, order :: ListsOf(adj, flows) && Elems(order) == sources && Simple(order) &&
      mappings == EndToEnd(Graph(adj, tables, finals), tc, order, sources, finals)
  }

  lemma MetaSourcesSnoc(xs: seq<string>, i: nat)
    requires i < |xs|
    ensures MetaSources(xs[..i + 1]) == MetaSources(xs[..i]) + if ContainsAny(Lower(xs[i]), SourcePatterns) then {Lower(xs[i])} else {}
    ensures MetaFinals(xs[..i + 1]) == MetaFinals(xs[..i]) + if FinalLike(Lower(xs[i])) then {Lower(xs[i])} else {}
  {
    assert xs[..i + 1] == xs[..i] + [xs[i]];
  }

  lemma SchemaSnoc(keys: seq<string>, i: nat)
    requires i < |keys|
    ensures SchemaSources(Elems(keys[..i + 1])) ==
      if ContainsAny(Lower(keys[i]), SourcePatterns) then SchemaSources(Elems(keys[..i])) + {Lower(keys[i])}
      else SchemaSources(Elems(keys[..i]))
    ensures SchemaFinals(Elems(keys[..i + 1])) ==
      if !ContainsAny(Lower(keys[i]), SourcePatterns) && Lower(keys[i]) in FinalTargetPatterns
      then SchemaFinals(Elems(keys[..i])) + {Lower(keys[i])}
      else SchemaFinals(Elems(keys[..i]))
  {
    ElemsSnoc(keys, i);
  }

  /** The focused parser's state. */
  class FinalParser {
    var sourceTables: set<string>
    var finalTargets: set<string>
    var columnFlows: map<string, set<string>>
    var tableColumns: map<string, seq<string>>
    var columnTables: map<string, string>
    var mappings: seq<KeyMapping>

    constructor ()
      ensures sourceTables == {} && finalTargets == {} && columnFlows == map[]
      ensures tableColumns == map[] && columnTables == map[] && mappings == []
    {
      sourceTables := {};
      finalTargets := {};
      columnFlows := map[];
      tableColumns := map[];
      columnTables := map[];
      mappings := [];
    }

    /** `_build_table_column_mappings` */
    method BuildTableColumnMappings(schema: seq<SchemaTable>)
      modifies this
      ensures tableColumns == TableColumnsOf(old(tableColumns), schema)
      ensures columnTables == ColumnTablesOf(old(columnTables), schema)
      ensures sourceTables == old(sourceTables) && finalTargets == old(finalTargets)
      ensures columnFlows == old(columnFlows) && mappings == old(mappings)
    {
      var tc, ct := BuildMaps(tableColumns, columnTables, schema);
      tableColumns := tc;
      columnTables := ct;
    }

    /** `_categorize_tables`: the metadata's real source and target tables
      (`None` when the metadata or its section is missing), then the schema's
      tables. */
    method CategorizeTables(metaSources: Option<seq<string>>, metaTargets: Option<seq<string>>)
      modifies this
      ensures sourceTables == old(sourceTables) + MetaSources(Listed(metaSources)) + SchemaSources(tableColumns.Keys)
      ensures finalTargets == old(finalTargets) + MetaFinals(Listed(metaTargets)) + SchemaFinals(tableColumns.Keys)
      ensures columnFlows == old(columnFlows) && tableColumns == old(tableColumns)
      ensures columnTables == old(columnTables) && mappings == old(mappings)
    {
      var metaS := AddMetaSources(sourceTables, Listed(metaSources));
      var metaF := AddMetaFinals(finalTargets, Listed(metaTargets));
      var keys := Members(tableColumns.Keys);
      var src, fin := AddSchemaTables(metaS, metaF, keys);
      assert Elems(keys) == tableColumns.Keys;
      sourceTables := src;
      finalTargets := fin;
    }

    /** `_extract_sqllineage_flows` over the column lineage paths sqllineage
      reported for the DML statements. */
    method ExtractFlows(paths: seq<seq<string>>)
      modifies this
      ensures columnFlows == AddEdges(old(columnFlows), PathEdges(paths))
      ensures columnTables == RecordEnds(old(columnTables), PathEdges(paths))
      ensures sourceTables == old(sourceTables) && finalTargets == old(finalTargets)
      ensures tableColumns == old(tableColumns) && mappings == old(mappings)
    {
      var flows, ct := RecordPaths(columnFlows, columnTables, paths);
      columnFlows := flows;
      columnTables := ct;
    }

    /** `_merge_metadata_flows` over the `real_to_real` column lineages
      (`None` when the metadata or its section is missing); `added` counts
      the complete entries. */
    method MergeMetadataFlows(meta: Option<seq<MetaLineage>>) returns (added: nat)
      modifies this
      ensures added == |Accepted(Listed(meta))|
      ensures columnFlows == AddEdges(old(columnFlows), MetaEdges(Accepted(Listed(meta))))
      ensures columnTables == MetaTables(old(columnTables), Accepted(Listed(meta)))
      ensures sourceTables == old(sourceTables) && finalTargets == old(finalTargets)
      ensures tableColumns == old(tableColumns) && mappings == old(mappings)
    {
      var flows, ct;
      added, flows, ct := MergeEntries(columnFlows, columnTables, Listed(meta));
      columnFlows := flows;
      columnTables := ct;
    }

    /** `_trace_key_end_to_end_lineage` */
    method TraceKeyLineage()
      modifies this
      ensures TracedIn(mappings, columnFlows, columnTables, tableColumns, sourceTables, finalTargets)
      ensures sourceTables == old(sourceTables) && finalTargets == old(finalTargets) && columnFlows == old(columnFlows)
      ensures tableColumns == old(tableColumns) && columnTables == old(columnTables)
    {
      mappings := TraceAll(columnFlows, columnTables, tableColumns, sourceTables, finalTargets);
    }

    /** `analyze`: the two schema passes, the two flow sources, then the
      trace. Every reported mapping is meaningful and runs from a source
      table to a final target table, and no two share a key. */
    method Analyze(schema: seq<SchemaTable>, metaSources: Option<seq<string>>, metaTargets: Option<seq<string>>,
                   lineagePaths: seq<seq<string>>, metaLineages: Option<seq<MetaLineage>>)
      modifies this
      ensures tableColumns == TableColumnsOf(old(tableColumns), schema)
      ensures columnTables ==
        MetaTables(RecordEnds(ColumnTablesOf(old(columnTables), schema), PathEdges(lineagePaths)), Accepted(Listed(metaLineages)))
      ensures sourceTables == old(sourceTables) + MetaSources(Listed(metaSources)) + SchemaSources(tableColumns.Keys)
      ensures finalTargets == old(finalTargets) + MetaFinals(Listed(metaTargets)) + SchemaFinals(tableColumns.Keys)
      ensures columnFlows ==
        AddEdges(AddEdges(old(columnFlows), PathEdges(lineagePaths)), MetaEdges(Accepted(Listed(metaLineages))))
      ensures TracedIn(mappings, columnFlows, columnTables, tableColumns, sourceTables, finalTargets)
      ensures forall m :: m in mappings ==> Meaningful(m) && m.sourceTable in sourceTables && m.targetTable in finalTargets
      ensures forall i, j :: 0 <= i < j < |mappings| ==> KeyOf(mappings[i]) != KeyOf(mappings[j])
    {
      BuildTableColumnMappings(schema);
      CategorizeTables(metaSources, metaTargets);
      ExtractFlows(lineagePaths);
      var _ := MergeMetadataFlows(metaLineages);
      TraceKeyLineage();
      ghost var adj, order :| ListsOf(adj, columnFlows) && Elems(order) == sourceTables && Simple(order) &&
        mappings == EndToEnd(Graph(adj, columnTables, finalTargets), tableColumns, order, sourceTables, finalTargets);
      forall m | m in mappings
        ensures Meaningful(m) && m.sourceTable in sourceTables && m.targetTable in finalTargets
      {
        EndToEndSound(Graph(adj, columnTables, finalTargets), tableColumns, order, sourceTables, finalTargets, m);
      }
      EndToEndUnique(Graph(adj, columnTables, finalTargets), tableColumns, order, sourceTables, finalTargets);
    }
  }

  /** The loop over the metadata's real source tables. */
  method AddMetaSources(base: set<string>, sources: seq<string>) returns (r: set<string>)
    ensures r == base + MetaSources(sources)
  {
    r := base;
    var i := 0;
    while i < |sources|
      invariant 0 <= i <= |sources|
      invariant r == base + MetaSources(sources[..i])
    {
      MetaSourcesSnoc(sources, i);
      var t := Lower(sources[i]);
      if ContainsAny(t, SourcePatterns) {
        r := r + {t};
      }
      i := i + 1;
    }
    assert sources[..i] == sources;
  }

  /** The loop over the metadata's real target tables. */
  method AddMetaFinals(base: set<string>, targets: seq<string>) returns (r: set<string>)
    ensures r == base + MetaFinals(targets)
  {
    r := base;
    var i := 0;
    while i < |targets|
      invariant 0 <= i <= |targets|
      invariant r == base + MetaFinals(targets[..i])
    {
      MetaSourcesSnoc(targets, i);
      var t := Lower(targets[i]);
      if !Contains(t, "work") && (ContainsAny(t, MetaTargetPatterns) || t == "core.gl") {
        r := r + {t};
      }
      i := i + 1;
    }
    assert targets[..i] == targets;
  }

  /** The loop over the schema's tables. */
  method AddSchemaTables(sources: set<string>, finals: set<string>, keys: seq<string>) returns (src: set<string>, fin: set<string>)
    ensures src == sources + SchemaSources(Elems(keys))
    ensures fin == finals + SchemaFinals(Elems(keys))
  {
    src, fin := sources, finals;
    var i := 0;
    while i < |keys|
      invariant 0 <= i <= |keys|
      invariant src == sources + SchemaSources(Elems(keys[..i]))
      invariant fin == finals + SchemaFinals(Elems(keys[..i]))
    {
      SchemaSnoc(keys, i);
      var t := Lower(keys[i]);
      if ContainsAny(t, SourcePatterns) {
        UnionAssoc(sources, SchemaSources(Elems(keys[..i])), {t});
        src := src + {t};
      } else if t in FinalTargetPatterns {
        UnionAssoc(finals, SchemaFinals(Elems(keys[..i])), {t});
        fin := fin + {t};
      }
      i := i + 1;
    }
    assert keys[..i] == keys;
  }

  /** The key mappings, the traced mappings in some iteration order, and
      the filter. */
  method TraceAll(flows: map<string, set<string>>, tables: map<string, string>, tc: map<string, seq<string>>,
                  sources: set<string>, finals: set<string>) returns (mappings: seq<KeyMapping>)
    ensures TracedIn(mappings, flows, tables, tc, sources, finals)
  {
    var keyMappings := CollectKeyMappings(KeyTransformations, sources, finals, tc);
    var adj := FlowLists(flows);
    var order := Members(sources);
    assert Elems(order) == sources;
    var g := Graph(adj, tables, finals);
    var traced := TraceSources(g, tc, order, MaxDepth);
    mappings := FilterMeaningfulLoop(keyMappings + traced);
    assert mappings == EndToEnd(g, tc, order, sources, finals);
  }
}
