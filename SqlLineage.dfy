/**
 * The values the sqllineage library hands to the scripts, taken here as
 * inputs: tables with a schema and a raw name, columns that may or may not know their
 * table, and column-lineage tuples (source first, target last).
 */
module SqlLineage {
  import opened Common

  /** sqllineage's `Table`: two tables are equal when both schema and raw
      name agree; a table written without a schema gets `DefaultSchema`. */
  datatype Table = Table(schema: string, rawName: string)

  const DefaultSchema := "<default>"

  /** `parent == None`: the column object carries no table information. */
  datatype Column = Column(parent: Option<Table>, rawName: string)

  /** One entry of `get_column_lineage()`; `None` marks a falsy element. */
  type LineageTuple = seq<Option<Column>>

  /** `lineage_tuple and len(lineage_tuple) > 1` and both ends truthy. */
  predicate UsableTuple(t: LineageTuple) {
    |t| > 1 && t[0].Some? && t[|t| - 1].Some?
  }

  function SourceOf(t: LineageTuple): Column
    requires UsableTuple(t)
  {
    t[0].value
  }

  function TargetOf(t: LineageTuple): Column
    requires UsableTuple(t)
  {
    t[|t| - 1].value
  }

  /** `lineage_map` after the first `|tuples|` tuples: for each usable tuple,
      `lineage_map[target] = source`. */
  function LineageMapOf(tuples: seq<LineageTuple>): (d: Dict<Column, Column>)
    ensures DictValid(d)
  {
    if tuples == [] then EmptyDict()
    else
      var d := LineageMapOf(tuples[..|tuples| - 1]);
      var t := tuples[|tuples| - 1];
      if UsableTuple(t) then Put(d, TargetOf(t), SourceOf(t)) else d
  }

  /** The module-level loop that builds `lineage_map`. */
  method BuildLineageMap(tuples: seq<LineageTuple>) returns (d: Dict<Column, Column>)
    ensures d == LineageMapOf(tuples)
  {
    d := EmptyDict();
    var n := 0;
    while n < |tuples|
      invariant 0 <= n <= |tuples|
      invariant d == LineageMapOf(tuples[..n])
    {
      assert tuples[..n + 1][..n] == tuples[..n];
      var t := tuples[n];
      if UsableTuple(t) {
        d := Put(d, TargetOf(t), SourceOf(t));
      }
      n := n + 1;
    }
    assert tuples[..n] == tuples;
  }

  /** Tuple `i` is the last usable tuple whose target is `c`. */
  predicate LastFor(tuples: seq<LineageTuple>, c: Column, i: int) {
    0 <= i < |tuples| && UsableTuple(tuples[i]) && TargetOf(tuples[i]) == c &&
    forall j :: i < j < |tuples| && UsableTuple(tuples[j]) ==> TargetOf(tuples[j]) != c
  }

  /** The map's keys are exactly the targets of usable tuples. */
  lemma {:induction false} LineageMapKeys(tuples: seq<LineageTuple>, c: Column)
    ensures c in LineageMapOf(tuples).m <==>
      exists i :: 0 <= i < |tuples| && UsableTuple(tuples[i]) && TargetOf(tuples[i]) == c
  {
    if tuples != [] {
      var n := |tuples| - 1;
      var pre := tuples[..n];
      LineageMapKeys(pre, c);
      if exists i :: 0 <= i < |tuples| && UsableTuple(tuples[i]) && TargetOf(tuples[i]) == c {
        var i :| 0 <= i < |tuples| && UsableTuple(tuples[i]) && TargetOf(tuples[i]) == c;
        if i < n {
          assert pre[i] == tuples[i];
        }
      }
      if exists i :: 0 <= i < n && UsableTuple(pre[i]) && TargetOf(pre[i]) == c {
        var i :| 0 <= i < n && UsableTuple(pre[i]) && TargetOf(pre[i]) == c;
        assert tuples[i] == pre[i];
      }
    }
  }

  lemma LastForSnoc(tuples: seq<LineageTuple>, c: Column, i: int)
    requires |tuples| > 0 && LastFor(tuples[..|tuples| - 1], c, i)
    requires !(UsableTuple(tuples[|tuples| - 1]) && TargetOf(tuples[|tuples| - 1]) == c)
    ensures LastFor(tuples, c, i) && tuples[i] == tuples[..|tuples| - 1][i]
  {
    var pre := tuples[..|tuples| - 1];
    forall j | i < j < |tuples| && UsableTuple(tuples[j]) ensures TargetOf(tuples[j]) != c {
      if j < |pre| { assert tuples[j] == pre[j]; }
    }
  }

  /** One source per target: a key maps to the source of the last usable
      tuple with that target. */
  lemma {:induction false} LineageMapLastWins(tuples: seq<LineageTuple>, c: Column)
    requires c in LineageMapOf(tuples).m
    ensures exists i :: LastFor(tuples, c, i) && LineageMapOf(tuples).m[c] == SourceOf(tuples[i])
  {
    var n := |tuples| - 1;
    var pre := tuples[..n];
    var t := tuples[n];
    if UsableTuple(t) && TargetOf(t) == c {
      assert LastFor(tuples, c, n);
    } else {
      assert c in LineageMapOf(pre).m && LineageMapOf(tuples).m[c] == LineageMapOf(pre).m[c];
      LineageMapLastWins(pre, c);
      var i :| LastFor(pre, c, i) && LineageMapOf(pre).m[c] == SourceOf(pre[i]);
      LastForSnoc(tuples, c, i);
    }
  }

  /** `find_original_source`: follow `lineage_map` while the mapped source is
      intermediate (by the script's own test `inter`); a revisited column is
      returned as is. */
  function FindOriginalSource(m: map<Column, Column>, inter: Column -> bool, c: Column, visited: set<Column>): Column
    decreases |m.Keys - visited|
  {
    if c in visited then c
    else if c in m && inter(m[c]) then
      assert m.Keys - (visited + {c}) == (m.Keys - visited) - {c};
      FindOriginalSource(m, inter, m[c], visited + {c})
    else if c in m then m[c]
    else c
  }

  /** Consecutive columns follow `lineage_map` from target to source. */
  predicate FollowsMap(m: map<Column, Column>, p: seq<Column>) {
    forall i :: 0 <= i < |p| - 1 ==> p[i] in m && m[p[i]] == p[i + 1]
  }

  /** Why a walk ends at `r`. */
  predicate Stopped(m: map<Column, Column>, inter: Column -> bool, p: seq<Column>, r: Column, visited: set<Column>)
    requires |p| > 0
  {
    r !in m || (|p| > 1 && !inter(r)) || r in visited || r in p[..|p| - 1]
  }

  /** A walk from `m[c]` that stops with `c` visited extends to a walk from
      `c` that stops without it. */
  lemma WalkPrepend(m: map<Column, Column>, inter: Column -> bool, c: Column, q: seq<Column>, r: Column,
                    visited: set<Column>)
    requires c in m && inter(m[c]) && |q| > 0 && q[0] == m[c] && q[|q| - 1] == r
    requires FollowsMap(m, q) && (forall i :: 0 < i < |q| - 1 ==> inter(q[i]))
    requires Stopped(m, inter, q, r, visited + {c})
    ensures FollowsMap(m, [c] + q) && (forall i :: 0 < i < |q| ==> inter(([c] + q)[i]))
    ensures Stopped(m, inter, [c] + q, r, visited)
  {
    var p := [c] + q;
    assert p[1..] == q;
    forall i | 0 < i < |p| - 1 ensures inter(p[i]) {
      if i > 1 { assert p[i] == q[i - 1]; }
    }
    if r in visited + {c} && r !in visited {
      assert r == p[0];
    }
    if r in q[..|q| - 1] {
      var k :| 0 <= k < |q| - 1 && q[k] == r;
      assert p[k + 1] == r;
    }
  }

  /** The walk: the result is reached from `c` by following `lineage_map`
      through intermediate columns only, and the walk ends because the column
      has no source, or it is not intermediate, or it was already visited. */
  lemma {:induction false} OriginalSourceWalk(m: map<Column, Column>, inter: Column -> bool, c: Column, visited: set<Column>)
    ensures exists p: seq<Column> ::
      |p| > 0 && p[0] == c && p[|p| - 1] == FindOriginalSource(m, inter, c, visited) &&
      FollowsMap(m, p) && (forall i :: 0 < i < |p| - 1 ==> inter(p[i])) &&
      Stopped(m, inter, p, FindOriginalSource(m, inter, c, visited), visited)
    decreases |m.Keys - visited|
  {
    var r := FindOriginalSource(m, inter, c, visited);
    if c in visited {
      assert Stopped(m, inter, [c], r, visited);
    } else if c in m && inter(m[c]) {
      assert m.Keys - (visited + {c}) == (m.Keys - visited) - {c};
      OriginalSourceWalk(m, inter, m[c], visited + {c});
      var q: seq<Column> :| |q| > 0 && q[0] == m[c] && q[|q| - 1] == r &&
        FollowsMap(m, q) && (forall i :: 0 < i < |q| - 1 ==> inter(q[i])) &&
        Stopped(m, inter, q, r, visited + {c});
      WalkPrepend(m, inter, c, q, r, visited);
      assert Stopped(m, inter, [c] + q, r, visited);
    } else if c in m {
      assert Stopped(m, inter, [c, m[c]], r, visited);
    } else {
      assert Stopped(m, inter, [c], r, visited);
    }
  }

  /** The loop that builds `final_lineage`, keyed by `str(target)`: for every
      non-intermediate target whose resolved source is not intermediate. The
      library's `str()` of a column is the parameter `render`; the script's
      `is_intermediate` is the parameter `inter`. */
  method FinalLineage(lm: Dict<Column, Column>, inter: Column -> bool, render: Column -> string)
    returns (fl: Dict<string, string>)
    requires DictValid(lm)
    ensures DictValid(fl)
    ensures forall k :: k in fl.m ==>
      exists t :: t in lm.m && render(t) == k && Kept(lm.m, inter, t) &&
        fl.m[k] == render(FindOriginalSource(lm.m, inter, lm.m[t], {}))
    ensures forall t :: t in lm.m && Kept(lm.m, inter, t) ==> render(t) in fl.m
  {
    fl := EmptyDict();
    var n := 0;
    while n < |lm.keys|
      invariant 0 <= n <= |lm.keys|
      invariant DictValid(fl)
      invariant forall k :: k in fl.m ==>
        exists t :: t in lm.m && render(t) == k && Kept(lm.m, inter, t) &&
          fl.m[k] == render(FindOriginalSource(lm.m, inter, lm.m[t], {}))
      invariant forall j :: 0 <= j < n && Kept(lm.m, inter, lm.keys[j]) ==> render(lm.keys[j]) in fl.m
    {
      var target := lm.keys[n];
      assert target in lm.m;
      if !inter(target) {
        var original := FindOriginalSource(lm.m, inter, lm.m[target], {});
        if !inter(original) {
          fl := Put(fl, render(target), render(original));
        }
      }
      n := n + 1;
    }
    forall t | t in lm.m && Kept(lm.m, inter, t) ensures render(t) in fl.m {
      assert t in lm.keys;
      var j :| 0 <= j < |lm.keys| && lm.keys[j] == t;
    }
  }

  /** A target kept in `final_lineage`. */
  predicate Kept(m: map<Column, Column>, inter: Column -> bool, t: Column)
    requires t in m
  {
    !inter(t) && !inter(FindOriginalSource(m, inter, m[t], {}))
  }

  lemma ReportRow(fl: Dict<string, string>, rows: seq<(string, string)>, row: (string, string))
    requires DictValid(fl) && multiset(rows) == multiset(Items(fl))
    ensures row in rows <==> row.0 in fl.m && row.1 == fl.m[row.0]
  {
    var items := Items(fl);
    assert row in rows <==> row in multiset(items);
    if row.0 in fl.m {
      assert row.0 in fl.keys;
      var j :| 0 <= j < |fl.keys| && fl.keys[j] == row.0;
      assert row.1 == fl.m[row.0] ==> items[j] == row;
    }
  }

  /** `sorted(final_lineage.items())`: the same pairs, ordered by target. */
  function Report(fl: Dict<string, string>): (rows: seq<(string, string)>)
    requires DictValid(fl)
    ensures forall row :: row in rows <==> row.0 in fl.m && row.1 == fl.m[row.0]
    ensures forall i, j :: 0 <= i < j < |rows| ==> StrLt(rows[i].0, rows[j].0) || rows[i].0 == rows[j].0
  {
    var items := Items(fl);
    var key := (row: (string, string)) => [row.0];
    var rows := SortBy(items, key);
    forall row ensures row in rows <==> row.0 in fl.m && row.1 == fl.m[row.0] {
      ReportRow(fl, rows, row);
    }
    forall i, j | 0 <= i < j < |rows| ensures StrLt(rows[i].0, rows[j].0) || rows[i].0 == rows[j].0 {
      SingleKeyOrder(rows, key, i, j);
    }
    rows
  }

  /** Build `lineage_map`, resolve every non-intermediate target to its
      original source, and list the pairs ordered by target. */
  method EndToEndLineage(tuples: seq<LineageTuple>, inter: Column -> bool, render: Column -> string)
    returns (rows: seq<(string, string)>)
    ensures forall i, j :: 0 <= i < j < |rows| ==> StrLt(rows[i].0, rows[j].0) || rows[i].0 == rows[j].0
    ensures forall row :: row in rows ==>
      exists t :: t in LineageMapOf(tuples).m && Kept(LineageMapOf(tuples).m, inter, t) && render(t) == row.0 &&
        row.1 == render(FindOriginalSource(LineageMapOf(tuples).m, inter, LineageMapOf(tuples).m[t], {}))
    ensures forall t :: t in LineageMapOf(tuples).m && Kept(LineageMapOf(tuples).m, inter, t) ==>
      exists row :: row in rows && row.0 == render(t)
  {
    var lm := BuildLineageMap(tuples);
    var fl := FinalLineage(lm, inter, render);
    rows := Report(fl);
  }
}
