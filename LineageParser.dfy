/**
 * lineage_parser.py: collapse sqllineage's column lineage into end-to-end
 * pairs by walking `lineage_map` back through intermediate columns
 * (temp tables, CTEs, `...work` tables).
 */
module LineageParser {
  import opened Strings
  import opened Common
  import opened SqlLineage

  /** `is_intermediate`: a column without a table counts as intermediate;
      otherwise its raw table name (not lower-cased) is tested. */
  predicate IsIntermediate(c: Column, ctes: set<string>) {
    c.parent.None? ||
    StartsWith(c.parent.value.rawName, "#") ||
    c.parent.value.rawName in ctes ||
    EndsWith(c.parent.value.rawName, "work")
  }

  /** The script's test as a value for the shared walk. */
  function Inter(ctes: set<string>): Column -> bool {
    (c: Column) => IsIntermediate(c, ctes)
  }

  /** A table name the test lets through: not a temp table, not a CTE and
      not a `...work` table. */
  predicate RealTable(c: Column, ctes: set<string>) {
    c.parent.Some? && !StartsWith(c.parent.value.rawName, "#") &&
    c.parent.value.rawName !in ctes && !EndsWith(c.parent.value.rawName, "work")
  }

  /** A pair reaches `final_lineage` only when its target and its resolved
      source both name a real table; a column without table information is
      always dropped. */
  lemma KeptEndsReal(m: map<Column, Column>, ctes: set<string>, t: Column)
    requires t in m && Kept(m, Inter(ctes), t)
    ensures RealTable(t, ctes)
    ensures RealTable(FindOriginalSource(m, Inter(ctes), m[t], {}), ctes)
  {
    var s := FindOriginalSource(m, Inter(ctes), m[t], {});
    assert !Inter(ctes)(t) && !Inter(ctes)(s);
  }
}
