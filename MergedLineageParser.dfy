/**
 * merged_lineage_parser.py: the end-to-end column lineage of
 * lineage_parser.py with a wider, case-insensitive intermediate test, plus a
 * per-statement table-relation list, a source-table summary and a
 * relationship-type table.
 */
module MergedLineageParser {
  import opened Strings
  import opened Common
  import opened SqlLineage
  import LineageParser

  /** What one `LineageRunner` call yields; `None` is a raised exception. */
  datatype StmtResult = StmtResult(
    lineage: seq<LineageTuple>,
    sources: seq<Table>,
    targets: seq<Table>,
    intermediates: seq<Table>)

  /** `is_intermediate` on a lower-cased table name. */
  predicate IntermediateName(name: string, ctes: set<string>, temps: set<string>) {
    var t := Lower(name);
    StartsWith(t, "#") ||
    (exists cte :: cte in ctes && Contains(t, Lower(cte))) ||
    (exists tmp :: tmp in temps && Contains(t, Lower(tmp))) ||
    EndsWith(t, "work") ||
    Contains(t, "temp") ||
    Contains(t, "stage")
  }

  /** The name `is_intermediate` tests: the parent table's raw name, or,
      for a column whose parent carries no raw name, the column's own raw
      name. */
  function ColumnTable(c: Column): string {
    if c.parent.Some? then c.parent.value.rawName else c.rawName
  }

  predicate ColumnIsIntermediate(c: Column, ctes: set<string>, temps: set<string>) {
    IntermediateName(ColumnTable(c), ctes, temps)
  }

  predicate TableIsIntermediate(t: Table, ctes: set<string>, temps: set<string>) {
    IntermediateName(t.rawName, ctes, temps)
  }

  function Inter(ctes: set<string>, temps: set<string>): Column -> bool {
    (c: Column) => ColumnIsIntermediate(c, ctes, temps)
  }

  /** Every column with a table that lineage_parser.py calls intermediate is
      intermediate here too: lower-casing keeps `#` and `work`, and a CTE
      name is a substring of itself. */
  lemma MergedWidensIntermediate(c: Column, ctes: set<string>, temps: set<string>)
    requires c.parent.Some? && LineageParser.IsIntermediate(c, ctes)
    ensures ColumnIsIntermediate(c, ctes, temps)
  {
    var raw := c.parent.value.rawName;
    var t := Lower(raw);
    if StartsWith(raw, "#") {
      LowerStartsWith(raw, "#");
      assert Lower("#") == "#";
    } else if raw in ctes {
      ContainsSelf(t);
    } else {
      LowerEndsWith(raw, "work");
      assert Lower("work") == "work";
    }
  }

  /** ... but not conversely: a `STAGE` table is intermediate only here. */
  lemma MergedIsWider()
    ensures var c := Column(Some(Table(DefaultSchema, "STAGE_X")), "id");
      !LineageParser.IsIntermediate(c, {}) && ColumnIsIntermediate(c, {}, {})
  {
    StageNotLegacy();
    StageIntermediate();
  }

  lemma StageNotLegacy()
    ensures !LineageParser.IsIntermediate(Column(Some(Table(DefaultSchema, "STAGE_X")), "id"), {})
  {
    assert !StartsWith("STAGE_X", "#") by { assert "STAGE_X"[0] != '#'; }
    assert !EndsWith("STAGE_X", "work");
  }

  lemma StageIntermediate()
    ensures IntermediateName("STAGE_X", {}, {})
  {
    assert Lower("STAGE_X") == "stage_x";
    assert StartsWith("stage_x", "stage");
  }

  /** A column without a table is always intermediate to lineage_parser.py,
      but here its own name is tested, so a plain `id` is not. */
  lemma ParentlessNotIntermediate()
    ensures var c := Column(None, "id");
      LineageParser.IsIntermediate(c, {}) && !ColumnIsIntermediate(c, {}, {})
  {
    var t := Lower("id");
    assert t == "id";
    assert !StartsWith(t, "#");
    assert !EndsWith(t, "work");
    if Contains(t, "temp") {
      ContainsCharOf(t, "temp", 0);
    }
    if Contains(t, "stage") {
      ContainsCharOf(t, "stage", 0);
    }
  }

  /** A pair this script keeps in `final_lineage`: each end that names a
      table is one lineage_parser.py would also let through, so on columns
      with tables the wider test only ever drops more pairs. */
  lemma KeptEndsLegacyReal(m: map<Column, Column>, ctes: set<string>, temps: set<string>, t: Column)
    requires t in m && Kept(m, Inter(ctes, temps), t)
    ensures var s := FindOriginalSource(m, Inter(ctes, temps), m[t], {});
      (t.parent.Some? ==> LineageParser.RealTable(t, ctes)) &&
      (s.parent.Some? ==> LineageParser.RealTable(s, ctes))
  {
    var s := FindOriginalSource(m, Inter(ctes, temps), m[t], {});
    assert !ColumnIsIntermediate(t, ctes, temps) && !ColumnIsIntermediate(s, ctes, temps);
    if t.parent.Some? && LineageParser.IsIntermediate(t, ctes) {
      MergedWidensIntermediate(t, ctes, temps);
      assert false;
    }
    if s.parent.Some? && LineageParser.IsIntermediate(s, ctes) {
      MergedWidensIntermediate(s, ctes, temps);
      assert false;
    }
  }

  // ------------------------------------------------------- statement loop

  /** `stmt_relations`: source×target, source×intermediate, intermediate×target. */
  function StmtRelations(r: StmtResult): seq<(Table, Table)> {
    Product(r.sources, r.targets) + Product(r.sources, r.intermediates) + Product(r.intermediates, r.targets)
  }

  /** A table pair is related exactly when it crosses one of the three stages. */
  lemma StmtRelationsMembers(r: StmtResult, a: Table, b: Table)
    ensures (a, b) in StmtRelations(r) <==>
      (a in r.sources && b in r.targets) ||
      (a in r.sources && b in r.intermediates) ||
      (a in r.intermediates && b in r.targets)
  {
    ProductMembers(r.sources, r.targets, a, b);
    ProductMembers(r.sources, r.intermediates, a, b);
    ProductMembers(r.intermediates, r.targets, a, b);
  }

  /** The statement loop: lineage tuples and relations are appended for every
      statement that parsed; a failing statement only counts as an error. */
  method AnalyzeStatements(results: seq<Option<StmtResult>>)
    returns (tuples: seq<LineageTuple>, relations: seq<(Table, Table)>, tables: set<Table>, errors: nat)
    ensures errors == |results| - |Parsed(results)|
    ensures tuples == AllTuples(Parsed(results))
    ensures relations == AllRelations(Parsed(results))
    ensures tables == AllTables(Parsed(results))
  {
    tuples, relations, tables, errors := [], [], {}, 0;
    var i := 0;
    while i < |results|
      invariant 0 <= i <= |results|
      invariant errors == i - |Parsed(results[..i])|
      invariant tuples == AllTuples(Parsed(results[..i]))
      invariant relations == AllRelations(Parsed(results[..i]))
      invariant tables == AllTables(Parsed(results[..i]))
    {
      assert results[..i + 1][..i] == results[..i];
      match results[i] {
        case None =>
          errors := errors + 1;
        case Some(r) =>
          ParsedSnoc(results[..i], r);
          tuples := tuples + r.lineage;
          relations := relations + StmtRelations(r);
          tables := tables + StmtTables(r);
      }
      i := i + 1;
    }
    assert results[..i] == results;
  }

  /** The statements that parsed, in order. */
  function Parsed(results: seq<Option<StmtResult>>): (ps: seq<StmtResult>)
    ensures |ps| <= |results|
  {
    if results == [] then []
    else
      var pre := Parsed(results[..|results| - 1]);
      match results[|results| - 1]
      case None => pre
      case Some(r) => pre + [r]
  }

  lemma ParsedSnoc(results: seq<Option<StmtResult>>, r: StmtResult)
    ensures Parsed(results + [Some(r)]) == Parsed(results) + [r]
  {
    assert (results + [Some(r)])[..|results|] == results;
  }

  function AllTuples(ps: seq<StmtResult>): seq<LineageTuple> {
    if ps == [] then [] else AllTuples(ps[..|ps| - 1]) + ps[|ps| - 1].lineage
  }

  function StmtTables(r: StmtResult): set<Table> {
    set t | t in r.sources + r.targets + r.intermediates
  }

  function AllTables(ps: seq<StmtResult>): set<Table> {
    if ps == [] then {} else AllTables(ps[..|ps| - 1]) + StmtTables(ps[|ps| - 1])
  }

  function AllRelations(ps: seq<StmtResult>): seq<(Table, Table)> {
    if ps == [] then [] else AllRelations(ps[..|ps| - 1]) + StmtRelations(ps[|ps| - 1])
  }

  // ------------------------------------------------- source-table summary

  /** The parents of every source column (lines 171-175) and the source end
      of every relation (lines 178-185) join the statements' tables. */
  function SourceTables(tables: set<Table>, tuples: seq<LineageTuple>, relations: seq<(Table, Table)>): set<Table> {
    tables +
    (set i | 0 <= i < |tuples| && |tuples[i]| > 1 && tuples[i][0].Some? && tuples[i][0].value.parent.Some? :: tuples[i][0].value.parent.value) +
    (set i | 0 <= i < |relations| :: relations[i].0)
  }

  /** `dest_name`, marked when the destination is intermediate. */
  function DestName(t: Table, ctes: set<string>, temps: set<string>): string {
    if TableIsIntermediate(t, ctes, temps) then t.rawName + " (intermediate)" else t.rawName
  }

  /** The destination names of a source table, in relation order. */
  function DestList(src: Table, relations: seq<(Table, Table)>, ctes: set<string>, temps: set<string>): (ds: seq<string>)
    ensures forall d :: d in ds <==> exists i :: 0 <= i < |relations| && relations[i].0 == src && d == DestName(relations[i].1, ctes, temps)
  {
    if relations == [] then []
    else
      var pre := DestList(src, relations[..|relations| - 1], ctes, temps);
      var (s, t) := relations[|relations| - 1];
      assert forall i :: 0 <= i < |relations| - 1 ==> relations[..|relations| - 1][i] == relations[i];
      if s == src then pre + [DestName(t, ctes, temps)] else pre
  }

  function SetOf(ds: seq<string>): set<string> {
    set d | d in ds
  }

  /** `info["columns"]`: raw names of the source columns whose table is `src`. */
  function SourceColumns(src: Table, tuples: seq<LineageTuple>): set<string> {
    set i | 0 <= i < |tuples| && |tuples[i]| > 1 && tuples[i][0].Some? && tuples[i][0].value.parent == Some(src) ::
      tuples[i][0].value.rawName
  }

  /** `transformation_summary` of the destination set `SetOf(ds)`. */
  function Summary(ds: seq<string>): string {
    if ds == [] then "No direct destinations found"
    else if |SetOf(ds)| == 1 then
      var d := ds[0];
      if Contains(d, "(intermediate)") then "Flows through " + ReplaceAll(d, " (intermediate)", "") + " - see column lineage"
      else "Direct flow to " + d
    else "Multiple destinations - see column lineage for details"
  }

  datatype TableInfo = TableInfo(columns: set<string>, destinations: set<string>, summary: string)

  /** The summary one source table gets. */
  function InfoOf(t: Table, tuples: seq<LineageTuple>, relations: seq<(Table, Table)>,
                  ctes: set<string>, temps: set<string>): TableInfo {
    var ds := DestList(t, relations, ctes, temps);
    TableInfo(SourceColumns(t, tuples), SetOf(ds), Summary(ds))
  }

  /** The loop over `all_source_tables`: intermediate tables are skipped, the
      rest are summarised under their raw name. Tables of different schemas
      that share a raw name share one key, and whichever the set's iteration
      visits last is the one kept. */
  method SourceTableInfo(all: set<Table>, tuples: seq<LineageTuple>, relations: seq<(Table, Table)>,
                         ctes: set<string>, temps: set<string>)
    returns (info: map<string, TableInfo>)
    ensures forall name :: name in info <==>
      exists t :: t in all && t.rawName == name && !TableIsIntermediate(t, ctes, temps)
    ensures forall name :: name in info ==>
      exists t :: t in all && t.rawName == name && !TableIsIntermediate(t, ctes, temps) &&
        info[name] == InfoOf(t, tuples, relations, ctes, temps)
  {
    info := map[];
    var todo := all;
    while todo != {}
      invariant todo <= all
      invariant forall name :: name in info <==>
        exists t :: t in all - todo && t.rawName == name && !TableIsIntermediate(t, ctes, temps)
      invariant forall name :: name in info ==>
        exists t :: t in all - todo && t.rawName == name && !TableIsIntermediate(t, ctes, temps) &&
          info[name] == InfoOf(t, tuples, relations, ctes, temps)
      decreases |todo|
    {
      var t :| t in todo;
      todo := todo - {t};
      if !TableIsIntermediate(t, ctes, temps) {
        var ds := DestList(t, relations, ctes, temps);
        info := info[t.rawName := TableInfo(SourceColumns(t, tuples), SetOf(ds), Summary(ds))];
      }
    }
  }

  /** Same-named tables of two schemas are two tables: their source columns
      are told apart by the column's parent. */
  lemma SchemasKeptApart()
    ensures var a := Table("staging", "orders");
      var b := Table("dbo", "orders");
      var tuples := [[Some(Column(Some(a), "id")), Some(Column(None, "x"))]];
      a.rawName == b.rawName && SourceColumns(a, tuples) == {"id"} && SourceColumns(b, tuples) == {}
  {
    var a := Table("staging", "orders");
    var b := Table("dbo", "orders");
    var tuples: seq<LineageTuple> := [[Some(Column(Some(a), "id")), Some(Column(None, "x"))]];
    assert 0 in set i | 0 <= i < |tuples| && |tuples[i]| > 1 && tuples[i][0].Some? && tuples[i][0].value.parent == Some(a);
  }

  /** With a single plain destination the summary names it. */
  lemma SummaryDirect(ds: seq<string>, d: string)
    requires SetOf(ds) == {d} && !Contains(d, "(intermediate)")
    ensures Summary(ds) == "Direct flow to " + d
  {
    assert ds[0] in SetOf(ds);
  }

  /** With a single intermediate destination the summary names the table
      behind it, the marker removed. */
  lemma SummaryThrough(ds: seq<string>, name: string)
    requires SetOf(ds) == {name + " (intermediate)"} && '(' !in name
    ensures Summary(ds) == "Flows through " + name + " - see column lineage"
  {
    assert ds[0] in SetOf(ds);
    MarkedContains(name);
    ReplaceAfterPrefix(name, " (intermediate)");
    ReplaceSelf(" (intermediate)");
  }

  lemma MarkedContains(name: string)
    ensures Contains(name + " (intermediate)", "(intermediate)")
  {
    var d := name + " (intermediate)";
    assert d[|name| + 1..|name| + 1 + |"(intermediate)"|] == "(intermediate)";
    assert OccursAt(d, "(intermediate)", |name| + 1);
    ContainsAt(d, "(intermediate)");
  }

  /** Several destinations give the generic summary. */
  lemma SummaryMultiple(ds: seq<string>)
    requires |SetOf(ds)| > 1
    ensures Summary(ds) == "Multiple destinations - see column lineage for details"
  {
  }

  lemma ReplaceSelf(p: string)
    requires |p| > 0
    ensures ReplaceAll(p, p, "") == ""
  {
    assert p[|p|..] == [];
  }

  /** No occurrence of `p` can start inside `a` when `a` lacks `p[1]` and
      `p[0] != p[1]`; so `replace` leaves `a` alone. */
  lemma {:induction false} ReplaceAfterPrefix(a: string, p: string)
    requires |p| >= 2 && p[0] != p[1] && p[1] !in a
    ensures ReplaceAll(a + p, p, "") == a + ReplaceAll(p, p, "")
    decreases |a|
  {
    if a != [] {
      assert (a + p)[1..] == a[1..] + p;
      if |a| >= 2 {
        assert (a + p)[1] == a[1];
      } else {
        assert (a + p)[1] == p[0];
      }
      assert (a + p)[..|p|][1] == (a + p)[1];
      assert !StartsWith(a + p, p);
      ReplaceAfterPrefix(a[1..], p);
    }
  }

  // ------------------------------------------------ relationship summary

  /** The relationship type of a `(source, target)` table pair. */
  function RelationType(src: Table, tgt: Table, ctes: set<string>, temps: set<string>): (kind: string)
    ensures kind == "Direct" <==> !TableIsIntermediate(src, ctes, temps) && !TableIsIntermediate(tgt, ctes, temps)
    ensures kind == "Final" <==> TableIsIntermediate(src, ctes, temps) && !TableIsIntermediate(tgt, ctes, temps)
    ensures kind == "Staging" <==> TableIsIntermediate(tgt, ctes, temps)
  {
    if TableIsIntermediate(tgt, ctes, temps) then "Staging"
    else if TableIsIntermediate(src, ctes, temps) then "Final"
    else "Direct"
  }

  /** `unique_relations`: one `(source, target, type)` row per related pair. */
  method UniqueRelations(relations: seq<(Table, Table)>, ctes: set<string>, temps: set<string>)
    returns (rows: set<(string, string, string)>)
    ensures forall row :: row in rows <==>
      exists i :: 0 <= i < |relations| && row == (relations[i].0.rawName, relations[i].1.rawName, RelationType(relations[i].0, relations[i].1, ctes, temps))
  {
    rows := {};
    var i := 0;
    while i < |relations|
      invariant 0 <= i <= |relations|
      invariant forall row :: row in rows <==>
        exists k :: 0 <= k < i && row == (relations[k].0.rawName, relations[k].1.rawName, RelationType(relations[k].0, relations[k].1, ctes, temps))
    {
      var (s, t) := relations[i];
      rows := rows + {(s.rawName, t.rawName, RelationType(s, t, ctes, temps))};
      i := i + 1;
    }
  }
}
