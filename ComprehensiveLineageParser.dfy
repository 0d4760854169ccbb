/**
 * comprehensive_lineage_parser.py: the data-manipulation statements of a
 * stored procedure are run through the lineage library one by one; each
 * report fills the column mappings, the table relationships, the
 * processing stages and the source-to-final-target map, and the success
 * and error counters keep score. Two passes over the column mappings then
 * gather the external source tables and count direct and multi-hop
 * mappings.
 */
module ComprehensiveLineageParser {
  import opened Strings
  import opened Common
  import ColumnFlows

  // ------------------------------------------------------ DML statements

  /** One piece of `sqlparse.split` as sqlparse sees it: its text, its
      `get_type()`, and its normalized first token ("" without tokens). */
  datatype Parsed = Parsed(text: string, kind: string, firstToken: string)

  /** A statement the lineage library is run on: not blank, and typed as an
      insert, update or merge, or opening with `WITH`. */
  predicate IsDml(p: Parsed) {
    Strip(p.text) != "" && (p.kind in ["INSERT", "UPDATE", "MERGE"] || p.firstToken == "WITH")
  }

  /** The texts of the pieces that pass `keep`, in order. */
  function TextsWhere(ps: seq<Parsed>, keep: Parsed -> bool): (r: seq<string>)
    ensures |r| <= |ps|
  {
    if ps == [] then []
    else
      var last := ps[|ps| - 1];
      TextsWhere(ps[..|ps| - 1], keep) + (if keep(last) then [last.text] else [])
  }

  lemma {:induction false} TextsWhereMembers(ps: seq<Parsed>, keep: Parsed -> bool, s: string)
    ensures s in TextsWhere(ps, keep) <==> exists i :: 0 <= i < |ps| && keep(ps[i]) && ps[i].text == s
  {
    if ps != [] {
      var n := |ps| - 1;
      var pre := ps[..n];
      TextsWhereMembers(pre, keep, s);
      if exists i :: 0 <= i < n && keep(pre[i]) && pre[i].text == s {
        var i :| 0 <= i < n && keep(pre[i]) && pre[i].text == s;
        assert ps[i] == pre[i];
      }
      if exists i :: 0 <= i < |ps| && keep(ps[i]) && ps[i].text == s {
        var i :| 0 <= i < |ps| && keep(ps[i]) && ps[i].text == s;
        if i < n { assert pre[i] == ps[i]; }
      }
    }
  }

  /** `dml_statements`, in their original order. */
  function DmlStatements(ps: seq<Parsed>): (r: seq<string>)
    ensures |r| <= |ps|
  {
    TextsWhere(ps, IsDml)
  }

  /** The DML statements are exactly the texts of the pieces that pass the test. */
  lemma DmlStatementsMembers(ps: seq<Parsed>, s: string)
    ensures s in DmlStatements(ps) <==> exists i :: 0 <= i < |ps| && IsDml(ps[i]) && ps[i].text == s
  {
    TextsWhereMembers(ps, IsDml, s);
  }

  /** The statement-splitting loop. */
  method SelectDml(ps: seq<Parsed>) returns (dml: seq<string>)
    ensures dml == DmlStatements(ps)
  {
    dml := [];
    for i := 0 to |ps|
      invariant dml == TextsWhere(ps[..i], IsDml)
    {
      assert ps[..i + 1][..i] == ps[..i];
      if IsDml(ps[i]) {
        dml := dml + [ps[i].text];
      }
    }
    assert ps[..|ps|] == ps;
  }

  // ------------------------------------------------- what the library says

  /** What the lineage library reports for one cleaned statement: each
      column-lineage path (`None` for a column that is falsy), and the
      source, target and intermediate tables. */
  datatype Run = Run(paths: seq<seq<Option<string>>>, sources: seq<string>,
                     targets: seq<string>, intermediates: seq<string>)

  /** A statement is either analysed or raises with a message. */
  datatype Outcome = Ran(run: Run) | Raised(message: string)

  /** One row of `data_flow_stages`. */
  datatype Stage = Stage(statement: nat, sources: seq<string>, targets: seq<string>,
                         intermediates: seq<string>, columnCount: nat)

  /** One entry of `column_mappings`. */
  datatype ColumnMapping = ColumnMapping(statement: nat, source: string, target: string, fullPath: seq<string>)

  /** `[str(m) for m in mapping if m]` */
  function FullPath(p: seq<Option<string>>): (r: seq<string>)
    ensures |r| <= |p|
  {
    if p == [] then []
    else
      var last := p[|p| - 1];
      FullPath(p[..|p| - 1]) + (if last.Some? then [last.value] else [])
  }

  /** The full path keeps exactly the columns that are present. */
  lemma {:induction false} FullPathMembers(p: seq<Option<string>>, x: string)
    ensures x in FullPath(p) <==> Some(x) in p
  {
    if p != [] {
      var n := |p| - 1;
      FullPathMembers(p[..n], x);
      assert p == p[..n] + [p[n]];
    }
  }

  /** A present first column opens the full path. */
  lemma {:induction false} FullPathHead(p: seq<Option<string>>)
    requires p != [] && p[0].Some?
    ensures FullPath(p) != [] && FullPath(p)[0] == p[0].value
  {
    var n := |p| - 1;
    if n > 0 {
      assert p[..n][0] == p[0];
      FullPathHead(p[..n]);
    }
  }

  /** `str(m) if m else 'unknown'` for an end of a path. */
  function EndName(c: Option<string>): (r: string)
    ensures c.None? ==> r == "unknown"
  {
    if c.Some? then c.value else "unknown"
  }

  /** The entry recorded for path `p` of statement number `n`. */
  function MappingOf(n: nat, p: seq<Option<string>>): ColumnMapping
    requires |p| >= 2
  {
    ColumnMapping(n, EndName(p[0]), EndName(p[|p| - 1]), FullPath(p))
  }

  /** A present end is the matching end of the full path; a missing one is
      recorded as `unknown` and leaves the full path. */
  lemma MappingEnds(n: nat, p: seq<Option<string>>)
    requires |p| >= 2
    ensures var m := MappingOf(n, p);
      (p[0].Some? ==> m.fullPath != [] && m.fullPath[0] == m.source) &&
      (p[|p| - 1].Some? ==> m.fullPath != [] && m.fullPath[|m.fullPath| - 1] == m.target) &&
      (p[0].None? ==> m.source == "unknown") &&
      (p[|p| - 1].None? ==> m.target == "unknown")
  {
    if p[0].Some? {
      FullPathHead(p);
    }
    assert p == p[..|p| - 1] + [p[|p| - 1]];
  }

  // ------------------------------------------------------ column mappings

  /** The entry of one path: one for a path of two or more columns. */
  function PathMapping(n: nat, p: seq<Option<string>>): seq<ColumnMapping> {
    if |p| >= 2 then [MappingOf(n, p)] else []
  }

  /** The entries of one statement, path by path. */
  function PathMappings(n: nat, paths: seq<seq<Option<string>>>): seq<ColumnMapping> {
    Flatten(paths, p => PathMapping(n, p))
  }

  /** Path `p` of the statement numbered `m.statement` gives `m`. */
  predicate PathGives(p: seq<Option<string>>, m: ColumnMapping) {
    |p| >= 2 && MappingOf(m.statement, p) == m
  }

  lemma PathMappingsMembers(n: nat, paths: seq<seq<Option<string>>>, m: ColumnMapping)
    ensures m in PathMappings(n, paths) <==> m.statement == n && exists j :: 0 <= j < |paths| && PathGives(paths[j], m)
  {
    FlattenMembers(paths, p => PathMapping(n, p), m);
  }

  /** The entries of the statement numbered `n`; one that raised gives none. */
  function StatementMappings(n: nat, o: Outcome): seq<ColumnMapping> {
    if o.Ran? then PathMappings(n, o.run.paths) else []
  }

  /** `column_mappings` after the given statements, numbered from 1. */
  function ColumnMappings(os: seq<Outcome>): seq<ColumnMapping> {
    if os == [] then []
    else
      var n := |os|;
      ColumnMappings(os[..n - 1]) + StatementMappings(n, os[n - 1])
  }

  /** Some path of an analysed statement gives `m`. */
  predicate StatementGives(o: Outcome, m: ColumnMapping) {
    o.Ran? && exists j :: 0 <= j < |o.run.paths| && PathGives(o.run.paths[j], m)
  }

  /** A column mapping comes from a path of two or more columns of the
      analysed statement whose number it carries. */
  lemma {:induction false} ColumnMappingsMembers(os: seq<Outcome>, m: ColumnMapping)
    ensures m in ColumnMappings(os) <==> 1 <= m.statement <= |os| && StatementGives(os[m.statement - 1], m)
  {
    if os != [] {
      var n := |os|;
      var pre := os[..n - 1];
      ColumnMappingsMembers(pre, m);
      if os[n - 1].Ran? {
        PathMappingsMembers(n, os[n - 1].run.paths, m);
      }
      if 1 <= m.statement < n {
        assert pre[m.statement - 1] == os[m.statement - 1];
      }
    }
  }

  // ------------------------------------------------------ processing stages

  /** The stage recorded for the analysed statement numbered `n`. */
  function StageOf(n: nat, r: Run): Stage {
    Stage(n, r.sources, r.targets, r.intermediates, |r.paths|)
  }

  /** `data_flow_stages` after the given statements. */
  function Stages(os: seq<Outcome>): (r: seq<Stage>)
    ensures |r| <= |os|
  {
    if os == [] then []
    else
      var n := |os|;
      var last := os[n - 1];
      Stages(os[..n - 1]) + (if last.Ran? then [StageOf(n, last.run)] else [])
  }

  /** A stage is exactly the report of an analysed statement, carrying its
      number and its count of column-lineage paths. */
  lemma {:induction false} StagesMembers(os: seq<Outcome>, st: Stage)
    ensures st in Stages(os) <==>
      1 <= st.statement <= |os| && os[st.statement - 1].Ran? && st == StageOf(st.statement, os[st.statement - 1].run)
  {
    if os != [] {
      var n := |os|;
      var pre := os[..n - 1];
      StagesMembers(pre, st);
      if 1 <= st.statement < n {
        assert pre[st.statement - 1] == os[st.statement - 1];
      }
    }
  }

  // ------------------------------------------------- table relationships

  /** Markers of a table that is not a true source. */
  const IntermediateSourceMarks: seq<string> := ["#", "temp", "work", "stage"]

  /** Markers of a table that is not a final target. */
  const IntermediateTargetMarks: seq<string> := ["#", "temp", "work"]

  /** The lower-cased name holds none of the markers. */
  predicate Clean(name: string, marks: seq<string>) {
    !ContainsAny(Lower(name), marks)
  }

  /** The names that hold none of the markers, in order. */
  function CleanNames(xs: seq<string>, marks: seq<string>): (r: seq<string>)
    ensures forall x <- r :: x in xs && Clean(x, marks)
  {
    if xs == [] then []
    else
      var last := xs[|xs| - 1];
      CleanNames(xs[..|xs| - 1], marks) + (if Clean(last, marks) then [last] else [])
  }

  lemma {:induction false} CleanNamesMembers(xs: seq<string>, marks: seq<string>, x: string)
    ensures x in CleanNames(xs, marks) <==> x in xs && Clean(x, marks)
  {
    if xs != [] {
      var n := |xs| - 1;
      CleanNamesMembers(xs[..n], marks, x);
      assert xs == xs[..n] + [xs[n]];
    }
  }

  /** The table pairs one report adds: every source × target pair, or, for
      `source_to_target`, every true source × final target pair. */
  function Links(r: Run, filtered: bool): seq<(string, string)> {
    if filtered then Product(CleanNames(r.sources, IntermediateSourceMarks), CleanNames(r.targets, IntermediateTargetMarks))
    else Product(r.sources, r.targets)
  }

  /** `table_relationships` (unfiltered) or `source_to_target` (filtered)
      after the given statements. */
  function Linked(os: seq<Outcome>, filtered: bool): map<string, set<string>> {
    if os == [] then map[]
    else
      var n := |os|;
      var g := Linked(os[..n - 1], filtered);
      var last := os[n - 1];
      if last.Ran? then ColumnFlows.AddEdges(g, Links(last.run, filtered)) else g
  }

  /** Statement `i` was analysed and read `s` and wrote `t`; when filtered,
      `s` is a true source and `t` a final target. */
  predicate LinkedBy(o: Outcome, s: string, t: string, filtered: bool) {
    o.Ran? && s in o.run.sources && t in o.run.targets &&
    (filtered ==> Clean(s, IntermediateSourceMarks) && Clean(t, IntermediateTargetMarks))
  }

  lemma LinksMembers(r: Run, filtered: bool, s: string, t: string)
    ensures (s, t) in Links(r, filtered) <==> LinkedBy(Ran(r), s, t, filtered)
  {
    if filtered {
      var cs := CleanNames(r.sources, IntermediateSourceMarks);
      var ct := CleanNames(r.targets, IntermediateTargetMarks);
      ProductMembers(cs, ct, s, t);
      CleanNamesMembers(r.sources, IntermediateSourceMarks, s);
      CleanNamesMembers(r.targets, IntermediateTargetMarks, t);
    } else {
      ProductMembers(r.sources, r.targets, s, t);
    }
  }

  /** A table is linked to another exactly when some analysed statement
      read the first and wrote the second (both passing the filters when
      filtered). */
  lemma {:induction false} LinkedMembers(os: seq<Outcome>, filtered: bool, s: string, t: string)
    ensures t in TargetSet(Linked(os, filtered), s) <==> exists i :: 0 <= i < |os| && LinkedBy(os[i], s, t, filtered)
  {
    if os != [] {
      var n := |os|;
      var pre := os[..n - 1];
      LinkedMembers(pre, filtered, s, t);
      var last := os[n - 1];
      if last.Ran? {
        ColumnFlows.AddEdgesFacts(Linked(pre, filtered), Links(last.run, filtered), s, t);
        LinksMembers(last.run, filtered, s, t);
      }
      if exists i :: 0 <= i < n - 1 && LinkedBy(pre[i], s, t, filtered) {
        var i :| 0 <= i < n - 1 && LinkedBy(pre[i], s, t, filtered);
        assert os[i] == pre[i];
      }
      if exists i :: 0 <= i < n && LinkedBy(os[i], s, t, filtered) {
        var i :| 0 <= i < n && LinkedBy(os[i], s, t, filtered);
        if i < n - 1 { assert pre[i] == os[i]; }
      }
    }
  }

  /** Every source-to-target pair is a table relationship, and every key of
      `source_to_target` is a true source. */
  lemma SourceToTargetWithin(os: seq<Outcome>, s: string, t: string)
    ensures t in TargetSet(Linked(os, true), s) ==> t in TargetSet(Linked(os, false), s)
    ensures t in TargetSet(Linked(os, true), s) ==> Clean(s, IntermediateSourceMarks) && Clean(t, IntermediateTargetMarks)
  {
    LinkedMembers(os, true, s, t);
    LinkedMembers(os, false, s, t);
  }

  // ------------------------------------------------------------- counters

  /** `processing_stats['success']` */
  function Successes(os: seq<Outcome>): nat {
    if os == [] then 0 else Successes(os[..|os| - 1]) + (if os[|os| - 1].Ran? then 1 else 0)
  }

  /** `processing_stats['errors']` */
  function Errors(os: seq<Outcome>): nat {
    if os == [] then 0 else Errors(os[..|os| - 1]) + (if os[|os| - 1].Raised? then 1 else 0)
  }

  /** `f"Statement {n}: {message[:100]}..."` */
  function ErrorText(n: nat, message: string): string {
    "Statement " + IntText(n) + ": " + message[..if |message| < 100 then |message| else 100] + "..."
  }

  /** `processing_stats['error_details']` */
  function ErrorDetails(os: seq<Outcome>): seq<string> {
    if os == [] then []
    else
      var n := |os|;
      var last := os[n - 1];
      ErrorDetails(os[..n - 1]) + (if last.Raised? then [ErrorText(n, last.message)] else [])
  }

  /** Every statement attempted is counted once, as a success or as an
      error; each error leaves one detail line and each success one stage. */
  lemma {:induction false} CountersAgree(os: seq<Outcome>)
    ensures Successes(os) + Errors(os) == |os|
    ensures |ErrorDetails(os)| == Errors(os)
    ensures |Stages(os)| == Successes(os)
  {
    if os != [] {
      CountersAgree(os[..|os| - 1]);
    }
  }

  // ------------------------------------------------------ statement loop

  /** `lineage_data` */
  datatype LineageData = LineageData(columnMappings: seq<ColumnMapping>,
                                     tableRelationships: map<string, set<string>>,
                                     stages: seq<Stage>,
                                     sourceToTarget: map<string, set<string>>)

  /** `processing_stats` */
  datatype Stats = Stats(success: nat, errors: nat, errorDetails: seq<string>)

  /** `lineage_data` after the given statements. */
  function DataOf(os: seq<Outcome>): LineageData {
    LineageData(ColumnMappings(os), Linked(os, false), Stages(os), Linked(os, true))
  }

  /** `processing_stats` after the given statements. */
  function StatsOf(os: seq<Outcome>): Stats {
    Stats(Successes(os), Errors(os), ErrorDetails(os))
  }

  /** The loop storing the column mappings of one statement. */
  method AddColumnMappings(ms: seq<ColumnMapping>, n: nat, paths: seq<seq<Option<string>>>)
    returns (ms': seq<ColumnMapping>)
    ensures ms' == ms + PathMappings(n, paths)
  {
    ms' := ms;
    for j := 0 to |paths|
      invariant ms' == ms + PathMappings(n, paths[..j])
    {
      assert paths[..j + 1][..j] == paths[..j] && paths[..j + 1][j] == paths[j];
      var p := paths[j];
      if |p| >= 2 {
        ms' := ms' + [MappingOf(n, p)];
      }
    }
    assert paths[..|paths|] == paths;
  }

  /** What an analysed statement adds to the accumulators. */
  lemma RanStep(os: seq<Outcome>, i: nat)
    requires i < |os| && os[i].Ran?
    ensures var pre := os[..i]; var r := os[i].run;
      DataOf(os[..i + 1]) == LineageData(ColumnMappings(pre) + PathMappings(i + 1, r.paths),
                                         ColumnFlows.AddEdges(Linked(pre, false), Links(r, false)),
                                         Stages(pre) + [StageOf(i + 1, r)],
                                         ColumnFlows.AddEdges(Linked(pre, true), Links(r, true))) &&
      StatsOf(os[..i + 1]) == Stats(Successes(pre) + 1, Errors(pre), ErrorDetails(pre))
  {
    assert os[..i + 1][..i] == os[..i] && os[..i + 1][i] == os[i];
  }

  /** What a statement that raised adds to the accumulators. */
  lemma RaisedStep(os: seq<Outcome>, i: nat)
    requires i < |os| && os[i].Raised?
    ensures var pre := os[..i];
      DataOf(os[..i + 1]) == DataOf(pre) &&
      StatsOf(os[..i + 1]) == Stats(Successes(pre), Errors(pre) + 1, ErrorDetails(pre) + [ErrorText(i + 1, os[i].message)])
  {
    assert os[..i + 1][..i] == os[..i] && os[..i + 1][i] == os[i];
  }

  /** One round of the statement loop: record the report of statement
      `i + 1`, or count its error. */
  method ProcessStatement(os: seq<Outcome>, i: nat, data: LineageData, stats: Stats)
    returns (data': LineageData, stats': Stats)
    requires i < |os| && data == DataOf(os[..i]) && stats == StatsOf(os[..i])
    ensures data' == DataOf(os[..i + 1]) && stats' == StatsOf(os[..i + 1])
  {
    match os[i]
    case Ran(r) =>
      RanStep(os, i);
      var stages := data.stages + [StageOf(i + 1, r)];
      var relationships := ColumnFlows.AddEdges(data.tableRelationships, Links(r, false));
      var sourceToTarget := ColumnFlows.AddEdges(data.sourceToTarget, Links(r, true));
      var ms := AddColumnMappings(data.columnMappings, i + 1, r.paths);
      data' := LineageData(ms, relationships, stages, sourceToTarget);
      stats' := Stats(stats.success + 1, stats.errors, stats.errorDetails);
    case Raised(message) =>
      RaisedStep(os, i);
      data' := data;
      stats' := Stats(stats.success, stats.errors + 1, stats.errorDetails + [ErrorText(i + 1, message)]);
  }

  /** The statement loop over the outcomes of the DML statements. */
  method ProcessStatements(os: seq<Outcome>) returns (data: LineageData, stats: Stats)
    ensures data == DataOf(os) && stats == StatsOf(os)
    ensures stats.success + stats.errors == |os|
  {
    data := LineageData([], map[], [], map[]);
    stats := Stats(0, 0, []);
    for i := 0 to |os|
      invariant data == DataOf(os[..i]) && stats == StatsOf(os[..i])
    {
      data, stats := ProcessStatement(os, i, data, stats);
    }
    assert os[..|os|] == os;
    CountersAgree(os);
  }

  // ----------------------------------------------- external source tables

  /** Markers of a table that is not an external source. */
  const NonExternalMarks: seq<string> := ["#", "temp", "work", "stage", "invalid", "unknown"]

  /** The table of a mapping end: the text before the first dot. */
  function TableOf(name: string): (r: string)
    ensures '.' !in r
    ensures '.' !in name ==> r == name
  {
    if '.' in name then FirstSegment(name) else name
  }

  /** One entry of `external_sources`. */
  datatype Usage = Usage(targets: set<string>, columnCount: nat, statements: set<nat>)

  /** A table's entry, a fresh one when it has none yet. */
  function UsageOf(e: map<string, Usage>, t: string): Usage {
    if t in e then e[t] else Usage({}, 0, {})
  }

  /** One round of the external-source loop: a mapping whose source table
      is external adds its target table, one column and its statement to
      that table's entry. */
  function Tally(e: map<string, Usage>, m: ColumnMapping): map<string, Usage> {
    var t := TableOf(m.source);
    if Clean(t, NonExternalMarks) then
      var u := UsageOf(e, t);
      e[t := Usage(u.targets + {TableOf(m.target)}, u.columnCount + 1, u.statements + {m.statement})]
    else e
  }

  /** `external_sources` after the given column mappings. */
  function ExternalSources(ms: seq<ColumnMapping>): map<string, Usage> {
    if ms == [] then map[] else Tally(ExternalSources(ms[..|ms| - 1]), ms[|ms| - 1])
  }

  /** The mappings counted for table `t`: those whose source table is `t`
      and is external. */
  function Qualifying(ms: seq<ColumnMapping>, t: string): (r: seq<ColumnMapping>)
    ensures forall m <- r :: m in ms && TableOf(m.source) == t && Clean(t, NonExternalMarks)
  {
    if ms == [] then []
    else
      var m := ms[|ms| - 1];
      Qualifying(ms[..|ms| - 1], t) + (if TableOf(m.source) == t && Clean(t, NonExternalMarks) then [m] else [])
  }

  /** What the mappings of a table add up to: their target tables, their
      number and their statements. */
  function Summary(q: seq<ColumnMapping>): Usage {
    Usage(set m <- q :: TableOf(m.target), |q|, set m <- q :: m.statement)
  }

  lemma SummarySnoc(q: seq<ColumnMapping>, m: ColumnMapping)
    ensures Summary(q + [m]) == Usage(Summary(q).targets + {TableOf(m.target)}, |q| + 1, Summary(q).statements + {m.statement})
  {
    var q' := q + [m];
    assert (set x <- q' :: TableOf(x.target)) == (set x <- q :: TableOf(x.target)) + {TableOf(m.target)};
    assert (set x <- q' :: x.statement) == (set x <- q :: x.statement) + {m.statement};
  }

  /** A table is an external source exactly when some mapping qualifies for
      it, and its entry counts those mappings, their target tables and
      their statements. */
  lemma {:induction false} ExternalSourcesMeaning(ms: seq<ColumnMapping>, t: string)
    ensures t in ExternalSources(ms) <==> Qualifying(ms, t) != []
    ensures UsageOf(ExternalSources(ms), t) == Summary(Qualifying(ms, t))
    ensures t in ExternalSources(ms) ==> '.' !in t && Clean(t, NonExternalMarks)
  {
    if ms == [] {
      assert Summary([]) == Usage({}, 0, {});
    } else {
      var pre := ms[..|ms| - 1];
      var m := ms[|ms| - 1];
      ExternalSourcesMeaning(pre, t);
      if TableOf(m.source) == t && Clean(t, NonExternalMarks) {
        SummarySnoc(Qualifying(pre, t), m);
      }
    }
  }

  lemma ExternalSourcesSnoc(ms: seq<ColumnMapping>, i: nat)
    requires i < |ms|
    ensures ExternalSources(ms[..i + 1]) == Tally(ExternalSources(ms[..i]), ms[i])
  {
    assert ms[..i + 1][..i] == ms[..i];
  }

  /** A mapping whose source table is external updates that table's entry. */
  lemma TallyExternal(e: map<string, Usage>, m: ColumnMapping, u: Usage)
    requires Clean(TableOf(m.source), NonExternalMarks) && u == UsageOf(e, TableOf(m.source))
    ensures Tally(e, m) == e[TableOf(m.source) := Usage(u.targets + {TableOf(m.target)}, u.columnCount + 1, u.statements + {m.statement})]
  {
  }

  /** The external-source loop. */
  method CollectExternalSources(ms: seq<ColumnMapping>) returns (e: map<string, Usage>)
    ensures e == ExternalSources(ms)
  {
    e := map[];
    for i := 0 to |ms|
      invariant e == ExternalSources(ms[..i])
    {
      ExternalSourcesSnoc(ms, i);
      ghost var before := e;
      var m := ms[i];
      var sourceTable := TableOf(m.source);
      var targetTable := TableOf(m.target);
      if Clean(sourceTable, NonExternalMarks) {
        var u := UsageOf(e, sourceTable);
        e := e[sourceTable := Usage(u.targets + {targetTable}, u.columnCount + 1, u.statements + {m.statement})];
        TallyExternal(before, m, u);
      } else {
        assert e == Tally(before, m);
      }
    }
    assert ms[..|ms|] == ms;
  }

  // --------------------------------------------------- mapping complexity

  /** `direct_mappings`: full paths of at most two columns. */
  function DirectCount(ms: seq<ColumnMapping>): nat {
    if ms == [] then 0 else DirectCount(ms[..|ms| - 1]) + (if |ms[|ms| - 1].fullPath| <= 2 then 1 else 0)
  }

  /** `multi_hop_mappings`: full paths of three or more columns. */
  function MultiHopCount(ms: seq<ColumnMapping>): nat {
    if ms == [] then 0 else MultiHopCount(ms[..|ms| - 1]) + (if |ms[|ms| - 1].fullPath| > 2 then 1 else 0)
  }

  /** Every mapping is counted once, as direct or as multi-hop. */
  lemma {:induction false} ComplexityPartition(ms: seq<ColumnMapping>)
    ensures DirectCount(ms) + MultiHopCount(ms) == |ms|
  {
    if ms != [] {
      ComplexityPartition(ms[..|ms| - 1]);
    }
  }

  /** The complexity loop. */
  method CountComplexity(ms: seq<ColumnMapping>) returns (direct: nat, multiHop: nat)
    ensures direct == DirectCount(ms) && multiHop == MultiHopCount(ms)
    ensures direct + multiHop == |ms|
  {
    direct, multiHop := 0, 0;
    for i := 0 to |ms|
      invariant direct == DirectCount(ms[..i]) && multiHop == MultiHopCount(ms[..i])
    {
      assert ms[..i + 1][..i] == ms[..i];
      if |ms[i].fullPath| <= 2 {
        direct := direct + 1;
      } else {
        multiHop := multiHop + 1;
      }
    }
    assert ms[..|ms|] == ms;
    ComplexityPartition(ms);
  }

  // ----------------------------------------------------------- the analysis

  /** The whole analysis of one procedure body. `runner` stands for the
      lineage library applied to a statement after its `@` variables are
      replaced. */
  method AnalyzeStoredProcedureLineage(ps: seq<Parsed>, runner: string -> Outcome)
    returns (data: LineageData, stats: Stats, external: map<string, Usage>, direct: nat, multiHop: nat)
    ensures var dml := DmlStatements(ps);
      var os := seq(|dml|, i requires 0 <= i < |dml| => runner(dml[i]));
      data == DataOf(os) && stats == StatsOf(os)
    ensures stats.success + stats.errors == |DmlStatements(ps)|
    ensures external == ExternalSources(data.columnMappings)
    ensures direct + multiHop == |data.columnMappings|
  {
    var dml := SelectDml(ps);
    var os := seq(|dml|, i requires 0 <= i < |dml| => runner(dml[i]));
    data, stats := ProcessStatements(os);
    external := CollectExternalSources(data.columnMappings);
    direct, multiHop := CountComplexity(data.columnMappings);
  }
}
