/**
 * ultimate_lineage_parser.py: table names reduced to their last dotted part,
 * filed into source / intermediate / target / other buckets, a table-level
 * flow graph, and for each source the final target tables reachable through
 * intermediate and unclassified tables.
 */
module UltimateLineageParser {
  import opened Strings
  import opened Common

  /** `extract_table_name`: "unknown" for a falsy name, else the lower-cased
      text after the last dot. */
  function ExtractTableName(s: string): (r: string)
    ensures s == "" ==> r == "unknown"
    ensures s != "" ==> '.' !in r
    ensures s != "" && '.' !in s ==> r == Lower(s)
    ensures s != "" && '.' in s ==> AllButLast(Lower(s)) + "." + r == Lower(s)
  {
    if s == "" then "unknown"
    else
      var t := Lower(s);
      LowerKeeps(s, '.');
      if '.' in t then
        DottedName(t);
        LastSegment(t)
      else t
  }

  const SourcePatterns: seq<string> := ["staging", "ref"]
  const IntermediatePatterns: seq<string> := ["#", "temp", "work", "stage", "valid", "invalid", "fees", "post", "bal", "scores"]
  const TargetPatterns: seq<string> := ["core", "audit", "ops"]

  /** `categorize_table`: source patterns first, then intermediate, then
      target, else "other". */
  function Categorize(name: string): string {
    var t := Lower(name);
    if ContainsAny(t, SourcePatterns) then "source"
    else if ContainsAny(t, IntermediatePatterns) then "intermediate"
    else if ContainsAny(t, TargetPatterns) then "target"
    else "other"
  }

  /** Source patterns win over the others, intermediate ones over target
      ones. */
  lemma CategorizeOrder(name: string)
    ensures Categorize(name) in {"source", "intermediate", "target", "other"}
    ensures Categorize(name) == "source" <==> ContainsAny(Lower(name), SourcePatterns)
    ensures Categorize(name) == "target" ==>
      ContainsAny(Lower(name), TargetPatterns) && !ContainsAny(Lower(name), IntermediatePatterns)
  {
  }

  /** The category depends only on the lower-cased name. */
  lemma CategorizeIgnoresCase(name: string)
    ensures Categorize(name) == Categorize(Lower(name))
  {
    LowerIdempotent(name);
  }

  // -------------------------------------------------------- statement loop

  /** One statement's sqllineage result: `str()` of its tables, and its
      column-lineage tuples with `None` for a falsy element. */
  datatype Stmt = Stmt(sources: seq<string>, targets: seq<string>, intermediates: seq<string>,
                       lineage: seq<seq<Option<string>>>)

  datatype Buckets = Buckets(source: set<string>, intermediate: set<string>, target: set<string>, other: set<string>)

  datatype Stage = Stage(stage: nat, sources: seq<string>, targets: seq<string>, intermediates: seq<string>, columns: nat)

  /** `all_tables[category].add(name)` */
  function File(b: Buckets, cat: string, name: string): Buckets {
    if cat == "source" then b.(source := b.source + {name})
    else if cat == "intermediate" then b.(intermediate := b.intermediate + {name})
    else if cat == "target" then b.(target := b.target + {name})
    else b.(other := b.other + {name})
  }

  function FileAll(b: Buckets, names: seq<string>): Buckets
    decreases names
  {
    if names == [] then b else FileAll(File(b, Categorize(names[0]), names[0]), names[1..])
  }

  function Extracted(names: seq<string>): (r: seq<string>)
    ensures |r| == |names|
    ensures forall i :: 0 <= i < |names| ==> r[i] == ExtractTableName(names[i])
  {
    seq(|names|, i requires 0 <= i < |names| => ExtractTableName(names[i]))
  }

  /** `table_flow[s].add(t)` for every pair of the nested loops. */
  function AddFlows(flow: map<string, set<string>>, pairs: seq<(string, string)>): map<string, set<string>>
    decreases pairs
  {
    if pairs == [] then flow
    else AddFlows(flow[pairs[0].0 := TargetSet(flow, pairs[0].0) + {pairs[0].1}], pairs[1..])
  }

  /** `column_flows` rows of a statement; `stage` is its 1-based number. */
  function ColumnFlows(lineage: seq<seq<Option<string>>>, stage: nat): seq<(string, string, nat)> {
    if lineage == [] then []
    else
      var m := lineage[0];
      var row := if |m| >= 2 then
          [(if m[0].Some? then m[0].value else "unknown", if m[|m| - 1].Some? then m[|m| - 1].value else "unknown", stage)]
        else [];
      row + ColumnFlows(lineage[1..], stage)
  }

  /** `all_tables` after a statement: its sources and targets filed by
      category, its intermediate tables filed as intermediate. */
  function TablesStep(b: Buckets, s: Stmt): Buckets {
    var b1 := FileAll(FileAll(b, Extracted(s.sources)), Extracted(s.targets));
    b1.(intermediate := b1.intermediate + set n | n in Extracted(s.intermediates))
  }

  /** `all_tables` after the first `|stmts|` statements; a statement whose
      analysis failed (`None`) changes nothing. */
  function Tables(stmts: seq<Option<Stmt>>): Buckets {
    if stmts == [] then Buckets({}, {}, {}, {})
    else
      var b := Tables(stmts[..|stmts| - 1]);
      var last := stmts[|stmts| - 1];
      if last.Some? then TablesStep(b, last.value) else b
  }

  /** `table_flow` after the first `|stmts|` statements. */
  function Flow(stmts: seq<Option<Stmt>>): map<string, set<string>> {
    if stmts == [] then map[]
    else
      var f := Flow(stmts[..|stmts| - 1]);
      var last := stmts[|stmts| - 1];
      if last.Some? then AddFlows(f, Product(Extracted(last.value.sources), Extracted(last.value.targets))) else f
  }

  /** `column_flows` after the first `|stmts|` statements. */
  function ColumnFlowsOf(stmts: seq<Option<Stmt>>): seq<(string, string, nat)> {
    if stmts == [] then []
    else
      var c := ColumnFlowsOf(stmts[..|stmts| - 1]);
      var last := stmts[|stmts| - 1];
      if last.Some? then c + ColumnFlows(last.value.lineage, |stmts|) else c
  }

  /** `processing_stages` after the first `|stmts|` statements. */
  function StagesOf(stmts: seq<Option<Stmt>>): seq<Stage> {
    if stmts == [] then []
    else
      var st := StagesOf(stmts[..|stmts| - 1]);
      var last := stmts[|stmts| - 1];
      if last.Some? then
        var s := last.value;
        st + [Stage(|stmts|, Extracted(s.sources), Extracted(s.targets), Extracted(s.intermediates), |s.lineage|)]
      else st
  }

  /** The statement loop of `create_end_to_end_lineage_report`. */
  method ProcessStatements(stmts: seq<Option<Stmt>>)
    returns (tables: Buckets, flow: map<string, set<string>>, columnFlows: seq<(string, string, nat)>, stages: seq<Stage>)
    ensures tables == Tables(stmts) && flow == Flow(stmts)
    ensures columnFlows == ColumnFlowsOf(stmts) && stages == StagesOf(stmts)
  {
    tables, flow, columnFlows, stages := Buckets({}, {}, {}, {}), map[], [], [];
    var i := 0;
    while i < |stmts|
      invariant 0 <= i <= |stmts|
      invariant tables == Tables(stmts[..i]) && flow == Flow(stmts[..i])
      invariant columnFlows == ColumnFlowsOf(stmts[..i]) && stages == StagesOf(stmts[..i])
    {
      assert stmts[..i + 1][..i] == stmts[..i];
      if stmts[i].Some? {
        var s := stmts[i].value;
        var srcs, tgts := Extracted(s.sources), Extracted(s.targets);
        var ints := Extracted(s.intermediates);
        stages := stages + [Stage(i + 1, srcs, tgts, ints, |s.lineage|)];
        tables := TablesStep(tables, s);
        flow := AddFlows(flow, Product(srcs, tgts));
        columnFlows := columnFlows + ColumnFlows(s.lineage, i + 1);
      }
      i := i + 1;
    }
    assert stmts[..i] == stmts;
  }

  /** `AddFlows` adds exactly the listed edges. */
  lemma {:induction false} AddFlowsMembers(flow: map<string, set<string>>, pairs: seq<(string, string)>, a: string, b: string)
    ensures b in TargetSet(AddFlows(flow, pairs), a) <==> b in TargetSet(flow, a) || (a, b) in pairs
    decreases pairs
  {
    if pairs != [] {
      AddFlowsMembers(flow[pairs[0].0 := TargetSet(flow, pairs[0].0) + {pairs[0].1}], pairs[1..], a, b);
      assert pairs == [pairs[0]] + pairs[1..];
    }
  }

  /** One statement adds exactly its source×target pairs. */
  lemma FlowStepMembers(f: map<string, set<string>>, s: Stmt, a: string, b: string)
    ensures b in TargetSet(AddFlows(f, Product(Extracted(s.sources), Extracted(s.targets))), a) <==>
      b in TargetSet(f, a) || (a in Extracted(s.sources) && b in Extracted(s.targets))
  {
    AddFlowsMembers(f, Product(Extracted(s.sources), Extracted(s.targets)), a, b);
    ProductMembers(Extracted(s.sources), Extracted(s.targets), a, b);
  }

  /** Statement `i` parsed and has `a` among its sources and `b` among its targets. */
  predicate FlowFrom(stmts: seq<Option<Stmt>>, i: int, a: string, b: string) {
    0 <= i < |stmts| && stmts[i].Some? &&
    a in Extracted(stmts[i].value.sources) && b in Extracted(stmts[i].value.targets)
  }

  /** Every source×target pair of a parsed statement is a table flow, and
      every table flow comes from such a pair. */
  lemma {:induction false} FlowMembers(stmts: seq<Option<Stmt>>, a: string, b: string)
    ensures b in TargetSet(Flow(stmts), a) <==> exists i :: FlowFrom(stmts, i, a, b)
  {
    if stmts != [] {
      var n := |stmts| - 1;
      var pre := stmts[..n];
      FlowMembers(pre, a, b);
      var old_ := b in TargetSet(Flow(pre), a);
      var added := FlowFrom(stmts, n, a, b);
      if stmts[n].Some? {
        var s := stmts[n].value;
        assert Flow(stmts) == AddFlows(Flow(pre), Product(Extracted(s.sources), Extracted(s.targets)));
        FlowStepMembers(Flow(pre), s, a, b);
        assert b in TargetSet(Flow(stmts), a) <==> old_ || added;
      } else {
        assert Flow(stmts) == Flow(pre);
        assert !added;
      }
      assert old_ ==> exists i :: FlowFrom(stmts, i, a, b) by {
        if old_ {
          var i :| FlowFrom(pre, i, a, b);
          assert pre[i] == stmts[i];
          assert FlowFrom(stmts, i, a, b);
        }
      }
      assert added ==> exists i :: FlowFrom(stmts, i, a, b);
      assert (exists i :: FlowFrom(stmts, i, a, b)) ==> old_ || added by {
        if exists i :: FlowFrom(stmts, i, a, b) {
          var i :| FlowFrom(stmts, i, a, b);
          if i < n {
            assert pre[i] == stmts[i];
            assert FlowFrom(pre, i, a, b);
            assert old_;
          } else {
            assert i == n;
            assert added;
          }
        }
      }
    }
  }

  /** Tables sqllineage reports as intermediate are filed as intermediate
      whatever `categorize_table` would say. */
  lemma {:induction false} IntermediatesFiled(stmts: seq<Option<Stmt>>, i: nat, name: string)
    requires i < |stmts| && stmts[i].Some? && name in stmts[i].value.intermediates
    ensures ExtractTableName(name) in Tables(stmts).intermediate
  {
    var n := |stmts| - 1;
    var pre := stmts[..n];
    if i < n {
      assert pre[i] == stmts[i];
      IntermediatesFiled(pre, i, name);
      if stmts[n].Some? {
        var s := stmts[n].value;
        assert Tables(stmts) == TablesStep(Tables(pre), s);
        TablesStepKeeps(Tables(pre), s);
      } else {
        assert Tables(stmts) == Tables(pre);
      }
    } else {
      var s := stmts[n].value;
      assert Tables(stmts) == TablesStep(Tables(pre), s);
      var k :| 0 <= k < |s.intermediates| && s.intermediates[k] == name;
      assert Extracted(s.intermediates)[k] == ExtractTableName(name);
    }
  }

  lemma TablesStepKeeps(b: Buckets, s: Stmt)
    ensures b.intermediate <= TablesStep(b, s).intermediate
  {
    FileAllKeeps(b, Extracted(s.sources));
    FileAllKeeps(FileAll(b, Extracted(s.sources)), Extracted(s.targets));
  }

  lemma {:induction false} FileAllKeeps(b: Buckets, names: seq<string>)
    ensures b.intermediate <= FileAll(b, names).intermediate
    decreases names
  {
    if names != [] {
      FileAllKeeps(File(b, Categorize(names[0]), names[0]), names[1..]);
    }
  }

  // --------------------------------------------------- find_final_targets

  /** The tables `find_final_targets` may walk through. */
  predicate PassThrough(t: string) {
    Categorize(t) == "intermediate" || Categorize(t) == "other"
  }

  /** `find_final_targets`: direct successors categorized "target", plus the
      final targets of intermediate and "other" successors, each explored with
      its own copy of `visited`. */
  function FindFinalTargets(flow: map<string, set<string>>, table: string, visited: set<string>): set<string>
    decreases |flow.Keys - visited|
  {
    if table in visited then {}
    else
      var next := TargetSet(flow, table);
      var v := visited + {table};
      assert table in flow ==> flow.Keys - v == (flow.Keys - visited) - {table};
      (set t | t in next && Categorize(t) == "target") +
      (set x, t | t in next && PassThrough(t) && x in FindFinalTargets(flow, t, v) :: x)
  }

  /** A walk the search can take: it starts outside `visited`, follows
      `table_flow`, repeats no table, passes only through intermediate or
      unclassified tables, and ends at a target table (which may be one
      already seen: only the tables walked through are marked). */
  predicate SearchPath(flow: map<string, set<string>>, p: seq<string>, visited: set<string>) {
    |p| >= 2 && Simple(p[..|p| - 1]) && FollowsSets(flow, p) &&
    (forall i :: 0 <= i < |p| - 1 ==> p[i] !in visited) &&
    (forall i :: 0 < i < |p| - 1 ==> PassThrough(p[i])) &&
    Categorize(p[|p| - 1]) == "target"
  }

  /** Completeness: the end of every such walk is found. */
  lemma {:induction false} FinalTargetsComplete(flow: map<string, set<string>>, p: seq<string>, visited: set<string>)
    requires SearchPath(flow, p, visited)
    ensures p[|p| - 1] in FindFinalTargets(flow, p[0], visited)
    decreases |p|
  {
    var v := visited + {p[0]};
    if |p| > 2 {
      var q := p[1..];
      var w := p[..|p| - 1];
      forall i | 0 <= i < |q| - 1 ensures q[i] !in v {
        assert q[i] == p[i + 1] == w[i + 1] && p[0] == w[0];
      }
      assert q[..|q| - 1] == w[1..];
      assert SearchPath(flow, q, v);
      FinalTargetsComplete(flow, q, v);
      assert p[1] in TargetSet(flow, p[0]) && PassThrough(p[1]);
    }
  }

  /** A walk from a pass-through successor extends back to its predecessor. */
  lemma PrependSearchPath(flow: map<string, set<string>>, table: string, q: seq<string>, visited: set<string>)
    requires SearchPath(flow, q, visited + {table})
    requires q[0] in TargetSet(flow, table) && PassThrough(q[0]) && table !in visited
    ensures SearchPath(flow, [table] + q, visited)
    ensures WalkTo(flow, [table] + q, visited, table, q[|q| - 1])
  {
    var p := [table] + q;
    assert p[|p| - 1] == q[|q| - 1];
    var w := p[..|p| - 1];
    forall i, j | 0 <= i < j < |w| ensures w[i] != w[j] {
      assert p[j] == q[j - 1] && q[j - 1] == q[..|q| - 1][j - 1];
      if i == 0 {
        assert q[j - 1] !in visited + {table};
      } else {
        assert p[i] == q[i - 1] && q[i - 1] == q[..|q| - 1][i - 1];
      }
    }
    forall i | 0 < i < |p| - 1 ensures PassThrough(p[i]) {
      assert p[i] == q[i - 1];
    }
    forall i | 0 <= i < |p| - 1 ensures p[i] !in visited {
      if i > 0 { assert p[i] == q[i - 1]; }
    }
    forall i | 0 <= i < |p| - 1 ensures p[i] in flow && p[i + 1] in flow[p[i]] {
      if i > 0 { assert p[i] == q[i - 1] && p[i + 1] == q[i]; }
    }
  }

  /** `p` is a search walk from `table` to `x`. */
  predicate WalkTo(flow: map<string, set<string>>, p: seq<string>, visited: set<string>, table: string, x: string) {
    SearchPath(flow, p, visited) && p[0] == table && p[|p| - 1] == x
  }

  /** Soundness: everything found is the end of such a walk. */
  lemma {:induction false} FinalTargetsSound(flow: map<string, set<string>>, table: string, visited: set<string>, x: string)
    requires x in FindFinalTargets(flow, table, visited)
    ensures exists p :: WalkTo(flow, p, visited, table, x)
    decreases |flow.Keys - visited|
  {
    var v := visited + {table};
    FinalTargetsStep(flow, table, visited, x);
    if x in TargetSet(flow, table) && Categorize(x) == "target" {
      assert WalkTo(flow, [table, x], visited, table, x);
    } else {
      var t := PassThroughStep(flow, table, visited, x);
      FinalTargetsSound(flow, t, v, x);
      var q :| WalkTo(flow, q, v, t, x);
      PrependSearchPath(flow, table, q, visited);
      assert WalkTo(flow, [table] + q, visited, table, x);
    }
  }

  /** One step of the search: a found table is a target successor or is
      found from a pass-through successor. */
  lemma FinalTargetsStep(flow: map<string, set<string>>, table: string, visited: set<string>, x: string)
    requires x in FindFinalTargets(flow, table, visited)
    ensures table !in visited && table in flow
    ensures (x in TargetSet(flow, table) && Categorize(x) == "target") ||
      exists t :: t in TargetSet(flow, table) && PassThrough(t) && x in FindFinalTargets(flow, t, visited + {table})
  {
  }

  /** The successor a table found through a pass-through successor is
      found from, with the search one table closer to its end. */
  lemma PassThroughStep(flow: map<string, set<string>>, table: string, visited: set<string>, x: string)
    returns (t: string)
    requires x in FindFinalTargets(flow, table, visited)
    requires !(x in TargetSet(flow, table) && Categorize(x) == "target")
    ensures t in TargetSet(flow, table) && PassThrough(t) && x in FindFinalTargets(flow, t, visited + {table})
    ensures |flow.Keys - (visited + {table})| < |flow.Keys - visited|
  {
    FinalTargetsStep(flow, table, visited, x);
    t :| t in TargetSet(flow, table) && PassThrough(t) && x in FindFinalTargets(flow, t, visited + {table});
    assert flow.Keys - (visited + {table}) == (flow.Keys - visited) - {table};
  }

  // ---------------------------------------------------------------- report

  /** The purpose column of a report row: a source without final targets is
      "Data Staging"; otherwise the first matching keyword among its targets
      decides, ledger before gl before audit before ops. */
  function Purpose(finals: set<string>): (r: string)
    ensures finals == {} <==> r == "Data Staging"
    ensures r == "Financial Ledger" <==> exists t :: t in finals && Contains(t, "ledger")
    ensures r == "Core Banking" <==> finals != {} && forall t :: t in finals ==>
      !Contains(t, "ledger") && !Contains(t, "gl") && !Contains(t, "audit") && !Contains(t, "ops")
  {
    if finals == {} then "Data Staging"
    else if exists t :: t in finals && Contains(t, "ledger") then "Financial Ledger"
    else if exists t :: t in finals && Contains(t, "gl") then "General Ledger"
    else if exists t :: t in finals && Contains(t, "audit") then "Audit Trail"
    else if exists t :: t in finals && Contains(t, "ops") then "Operations"
    else "Core Banking"
  }

  /** The report loop: one row per source table, in name order, with its
      final targets. */
  method SourceReport(sources: set<string>, flow: map<string, set<string>>) returns (rows: seq<(string, set<string>)>)
    ensures forall i, j :: 0 <= i < j < |rows| ==> KeyLe([rows[i].0], [rows[j].0])
    ensures forall i :: 0 <= i < |rows| ==> rows[i].0 in sources && rows[i].1 == FindFinalTargets(flow, rows[i].0, {})
    ensures forall s :: s in sources ==> exists i :: 0 <= i < |rows| && rows[i].0 == s
    ensures |rows| == |sources|
  {
    var names := Members(sources);
    var sorted := SortBy(names, (s: string) => [s]);
    SortByMembers(names, (s: string) => [s]);
    rows := TargetRows(sorted, flow);
    assert |multiset(sorted)| == |multiset(names)|;
    SimpleCount(names);
    assert Elems(names) == sources;
  }

  /** The loop of the report: each name with its final targets. */
  method TargetRows(names: seq<string>, flow: map<string, set<string>>) returns (rows: seq<(string, set<string>)>)
    ensures |rows| == |names|
    ensures forall k :: 0 <= k < |rows| ==> rows[k].0 == names[k] && rows[k].1 == FindFinalTargets(flow, names[k], {})
  {
    rows := [];
    var i := 0;
    while i < |names|
      invariant 0 <= i <= |names|
      invariant |rows| == i
      invariant forall k :: 0 <= k < i ==> rows[k].0 == names[k] && rows[k].1 == FindFinalTargets(flow, names[k], {})
    {
      rows := rows + [(names[i], FindFinalTargets(flow, names[i], {}))];
      i := i + 1;
    }
  }
}
