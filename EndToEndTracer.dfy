/**
 * end_to_end_lineage_tracer.py: a list-valued column graph built from the
 * C# analyser's real-to-real and temp-involved lineages, column metadata,
 * the staging-source and final-target filters, a depth-bounded BFS between
 * two columns and the sample-path search.
 */
module EndToEndTracer {
  import opened Strings
  import opened Common

  /** One lineage record of the C# metadata. */
  datatype ColumnLineage = ColumnLineage(sourceTable: string, sourceColumn: string,
                                         targetTable: string, targetColumn: string)

  function SourceName(l: ColumnLineage): string { l.sourceTable + "." + l.sourceColumn }
  function TargetName(l: ColumnLineage): string { l.targetTable + "." + l.targetColumn }

  /** `column_metadata[column]`: its table, its column and its type
      (`real_source`, `real_target`, `temp_source` or `temp_target`). */
  datatype Meta = Meta(table: string, column: string, kind: string)

  predicate IsReal(kind: string) {
    kind == "real_source" || kind == "real_target"
  }

  // ------------------------------------------------------------ the graph

  /** The edge a lineage adds: `source -> target` in `lineage_graph`,
      `target -> source` in `reverse_graph`. */
  function Edge(l: ColumnLineage, forward: bool): (string, string) {
    if forward then (SourceName(l), TargetName(l)) else (TargetName(l), SourceName(l))
  }

  /** The edges of the lineages, in order. */
  function Edges(ls: seq<ColumnLineage>, forward: bool): seq<(string, string)> {
    if ls == [] then [] else Edges(ls[..|ls| - 1], forward) + [Edge(ls[|ls| - 1], forward)]
  }

  /** `graph[a].append(b)` for the edge of each lineage in turn (a
      `defaultdict(list)`). */
  function Appended(g: map<string, seq<string>>, ls: seq<ColumnLineage>, forward: bool): map<string, seq<string>> {
    if ls == [] then g
    else
      var h := Appended(g, ls[..|ls| - 1], forward);
      var e := Edge(ls[|ls| - 1], forward);
      h[e.0 := Targets(h, e.0) + [e.1]]
  }

  lemma AppendedSnoc(g: map<string, seq<string>>, ls: seq<ColumnLineage>, forward: bool, i: nat)
    requires i < |ls|
    ensures var h := Appended(g, ls[..i], forward); var e := Edge(ls[i], forward);
      Appended(g, ls[..i + 1], forward) == h[e.0 := Targets(h, e.0) + [e.1]]
  {
    assert ls[..i + 1][..i] == ls[..i];
  }

  /** Lists keep duplicates: after the appends, `b` occurs in `graph[a]` once
      more for every `(a, b)` edge appended. */
  lemma {:induction false} AppendedCount(g: map<string, seq<string>>, ls: seq<ColumnLineage>, forward: bool, a: string, b: string)
    ensures multiset(Targets(Appended(g, ls, forward), a))[b] == multiset(Targets(g, a))[b] + multiset(Edges(ls, forward))[(a, b)]
  {
    if ls != [] {
      var n := |ls| - 1;
      var e := Edge(ls[n], forward);
      AppendedCount(g, ls[..n], forward, a, b);
      EdgesCountSnoc(ls, forward, a, b);
      TargetsCountSnoc(Appended(g, ls[..n], forward), e, a, b);
    }
  }

  lemma EdgesCountSnoc(ls: seq<ColumnLineage>, forward: bool, a: string, b: string)
    requires ls != []
    ensures multiset(Edges(ls, forward))[(a, b)] ==
      multiset(Edges(ls[..|ls| - 1], forward))[(a, b)] + if Edge(ls[|ls| - 1], forward) == (a, b) then 1 else 0
  {
    var e := Edge(ls[|ls| - 1], forward);
    assert multiset(Edges(ls, forward)) == multiset(Edges(ls[..|ls| - 1], forward)) + multiset{e};
  }

  lemma TargetsCountSnoc(h: map<string, seq<string>>, e: (string, string), a: string, b: string)
    ensures multiset(Targets(h[e.0 := Targets(h, e.0) + [e.1]], a))[b] ==
      multiset(Targets(h, a))[b] + if e == (a, b) then 1 else 0
  {
    if e.0 == a {
      var t := Targets(h, a);
      assert Targets(h[e.0 := t + [e.1]], a) == t + [e.1];
      assert multiset(t + [e.1]) == multiset(t) + multiset{e.1};
    } else {
      assert Targets(h[e.0 := Targets(h, e.0) + [e.1]], a) == Targets(h, a);
    }
  }

  lemma {:induction false} FlipCount(ls: seq<ColumnLineage>, a: string, b: string)
    ensures multiset(Edges(ls, false))[(b, a)] == multiset(Edges(ls, true))[(a, b)]
  {
    if ls != [] {
      var n := |ls| - 1;
      FlipCount(ls[..n], a, b);
      assert multiset(Edges(ls, false)) == multiset(Edges(ls[..n], false)) + multiset{Edge(ls[n], false)};
      assert multiset(Edges(ls, true)) == multiset(Edges(ls[..n], true)) + multiset{Edge(ls[n], true)};
    }
  }

  /** `reverse_graph` mirrors `lineage_graph` edge for edge, duplicates
      included. */
  ghost predicate Mirror(g: map<string, seq<string>>, r: map<string, seq<string>>) {
    forall a, b :: multiset(Targets(g, a))[b] == multiset(Targets(r, b))[a]
  }

  /** Paired appends keep the two graphs mirrored. */
  lemma AppendedMirror(g: map<string, seq<string>>, r: map<string, seq<string>>, ls: seq<ColumnLineage>)
    requires Mirror(g, r)
    ensures Mirror(Appended(g, ls, true), Appended(r, ls, false))
  {
    forall a, b ensures multiset(Targets(Appended(g, ls, true), a))[b] == multiset(Targets(Appended(r, ls, false), b))[a] {
      AppendedCount(g, ls, true, a, b);
      AppendedCount(r, ls, false, b, a);
      FlipCount(ls, a, b);
    }
  }

  // ------------------------------------------------------------ metadata

  /** The type a lineage endpoint is recorded with: always real in the
      real-to-real pass, real in the temp-involved pass only when its table is
      one of the real tables. */
  function Kind(table: string, realTables: set<string>, temp: bool, isSource: bool): string {
    if !temp || table in realTables then (if isSource then "real_source" else "real_target")
    else (if isSource then "temp_source" else "temp_target")
  }

  function SourceMeta(l: ColumnLineage, realTables: set<string>, temp: bool): Meta {
    Meta(l.sourceTable, l.sourceColumn, Kind(l.sourceTable, realTables, temp, true))
  }

  function TargetMeta(l: ColumnLineage, realTables: set<string>, temp: bool): Meta {
    Meta(l.targetTable, l.targetColumn, Kind(l.targetTable, realTables, temp, false))
  }

  /** The metadata writes of a pass, source then target, lineage by
      lineage. */
  function Writes(ls: seq<ColumnLineage>, realTables: set<string>, temp: bool): (ws: seq<(string, Meta)>)
    ensures |ws| == 2 * |ls|
  {
    if ls == [] then []
    else
      var l := ls[|ls| - 1];
      Writes(ls[..|ls| - 1], realTables, temp) +
        [(SourceName(l), SourceMeta(l, realTables, temp)), (TargetName(l), TargetMeta(l, realTables, temp))]
  }

  /** In the real-to-real pass every record is real; in the temp-involved
      pass exactly those whose table is real. */
  lemma {:induction false} WritesKinds(ls: seq<ColumnLineage>, realTables: set<string>, temp: bool, w: (string, Meta))
    requires w in Writes(ls, realTables, temp)
    ensures if temp then (IsReal(w.1.kind) <==> w.1.table in realTables) else IsReal(w.1.kind)
  {
    var n := |ls| - 1;
    if w in Writes(ls[..n], realTables, temp) {
      WritesKinds(ls[..n], realTables, temp, w);
    }
  }

  /** `column_metadata` after one pass. */
  function MetaAfter(d: Dict<string, Meta>, ls: seq<ColumnLineage>, realTables: set<string>, temp: bool): (r: Dict<string, Meta>)
    requires DictValid(d)
    ensures DictValid(r)
  {
    if ls == [] then d
    else
      var l := ls[|ls| - 1];
      Put(Put(MetaAfter(d, ls[..|ls| - 1], realTables, temp), SourceName(l), SourceMeta(l, realTables, temp)),
          TargetName(l), TargetMeta(l, realTables, temp))
  }

  lemma MetaAfterSnoc(d: Dict<string, Meta>, ls: seq<ColumnLineage>, realTables: set<string>, temp: bool, i: nat)
    requires DictValid(d) && i < |ls|
    ensures MetaAfter(d, ls[..i + 1], realTables, temp) ==
      Put(Put(MetaAfter(d, ls[..i], realTables, temp), SourceName(ls[i]), SourceMeta(ls[i], realTables, temp)),
          TargetName(ls[i]), TargetMeta(ls[i], realTables, temp))
  {
    assert ls[..i + 1][..i] == ls[..i];
  }

  /** A pass is its writes applied in order. */
  lemma {:induction false} MetaAfterWrites(d: Dict<string, Meta>, ls: seq<ColumnLineage>, realTables: set<string>, temp: bool)
    requires DictValid(d)
    ensures MetaAfter(d, ls, realTables, temp) == PutAll(d, Writes(ls, realTables, temp))
  {
    if ls != [] {
      var pre := ls[..|ls| - 1];
      var l := ls[|ls| - 1];
      var a := (SourceName(l), SourceMeta(l, realTables, temp));
      var b := (TargetName(l), TargetMeta(l, realTables, temp));
      var wpre := Writes(pre, realTables, temp);
      var ws := wpre + [a, b];
      MetaAfterWrites(d, pre, realTables, temp);
      calc {
        PutAll(d, ws);
        { assert ws[..|ws| - 1] == wpre + [a]; }
        Put(PutAll(d, wpre + [a]), b.0, b.1);
        { assert (wpre + [a])[..|wpre|] == wpre; }
        Put(Put(PutAll(d, wpre), a.0, a.1), b.0, b.1);
      }
    }
  }

  /** Every record is filed under its own `table.column` name. */
  ghost predicate Named(d: Dict<string, Meta>) {
    forall c :: c in d.m ==> c == d.m[c].table + "." + d.m[c].column
  }

  lemma {:induction false} MetaAfterNamed(d: Dict<string, Meta>, ls: seq<ColumnLineage>, realTables: set<string>, temp: bool)
    requires DictValid(d) && Named(d)
    ensures Named(MetaAfter(d, ls, realTables, temp))
  {
    if ls != [] {
      MetaAfterNamed(d, ls[..|ls| - 1], realTables, temp);
    }
  }

  /** A later write overwrites an earlier one: a column written by the
      temp-involved pass ends up with the record of its last write there,
      typed real exactly when its table is real. */
  lemma LaterWriteWins(d: Dict<string, Meta>, realToReal: seq<ColumnLineage>, tempInvolved: seq<ColumnLineage>,
                       realTables: set<string>, c: string, i: nat)
    requires DictValid(d)
    requires i < 2 * |tempInvolved| && Writes(tempInvolved, realTables, true)[i].0 == c
    ensures var m := MetaAfter(MetaAfter(d, realToReal, realTables, false), tempInvolved, realTables, true).m;
      c in m && (IsReal(m[c].kind) <==> m[c].table in realTables) &&
      exists j :: LastWrite(Writes(tempInvolved, realTables, true), c, j) && m[c] == Writes(tempInvolved, realTables, true)[j].1
  {
    var d1 := MetaAfter(d, realToReal, realTables, false);
    var ws := Writes(tempInvolved, realTables, true);
    MetaAfterWrites(d1, tempInvolved, realTables, true);
    PutAllLastWins(d1, ws, c, i);
    var m := PutAll(d1, ws).m;
    var j :| LastWrite(ws, c, j) && m[c] == ws[j].1;
    WritesKinds(tempInvolved, realTables, true, ws[j]);
  }

  /** A column only the real-to-real pass writes keeps a real type. */
  lemma RealPassKept(d: Dict<string, Meta>, realToReal: seq<ColumnLineage>, tempInvolved: seq<ColumnLineage>,
                     realTables: set<string>, c: string, i: nat)
    requires DictValid(d)
    requires i < 2 * |realToReal| && Writes(realToReal, realTables, false)[i].0 == c
    requires forall j :: 0 <= j < 2 * |tempInvolved| ==> Writes(tempInvolved, realTables, true)[j].0 != c
    ensures var m := MetaAfter(MetaAfter(d, realToReal, realTables, false), tempInvolved, realTables, true).m;
      c in m && IsReal(m[c].kind)
  {
    var ws := Writes(realToReal, realTables, false);
    MetaAfterWrites(d, realToReal, realTables, false);
    PutAllLastWins(d, ws, c, i);
    var d1 := PutAll(d, ws);
    var j :| LastWrite(ws, c, j) && d1.m[c] == ws[j].1;
    WritesKinds(realToReal, realTables, false, ws[j]);
    MetaAfterWrites(d1, tempInvolved, realTables, true);
    PutAllUntouched(d1, Writes(tempInvolved, realTables, true), c);
  }

  // ------------------------------------------------------------- filters

  predicate IsStaging(m: Meta) {
    StartsWith(Lower(m.table), "staging.")
  }

  predicate IsFinal(m: Meta) {
    m.kind == "real_target" && !StartsWith(Lower(m.table), "staging.") && !StartsWith(m.table, "#")
  }

  /** The keys, in order, whose record passes `keep`. */
  function Where(keys: seq<string>, m: map<string, Meta>, keep: Meta -> bool): (r: seq<string>)
    ensures forall c :: c in r <==> c in keys && c in m && keep(m[c])
    ensures Simple(keys) ==> Simple(r)
    ensures |r| <= |keys|
  {
    if keys == [] then []
    else
      var pre := Where(keys[..|keys| - 1], m, keep);
      var c := keys[|keys| - 1];
      assert keys == keys[..|keys| - 1] + [c];
      if c in m && keep(m[c]) then pre + [c] else pre
  }

  /** A staging column is never a final target. */
  lemma StagingNotFinal(d: Dict<string, Meta>, c: string)
    requires c in Where(d.keys, d.m, IsStaging)
    ensures c !in Where(d.keys, d.m, IsFinal)
  {
  }

  // --------------------------------------------------------------- walks

  /** `p` walks `g` from `s` to `t`. */
  predicate Walk(g: map<string, seq<string>>, p: seq<string>, s: string, t: string) {
    |p| >= 1 && p[0] == s && p[|p| - 1] == t && FollowsLists(g, p)
  }

  /** The columns one edge away from some column of `xs`. */
  function Succ(g: map<string, seq<string>>, xs: set<string>): set<string> {
    set x, y | x in xs && y in Targets(g, x) :: y
  }

  /** The columns within `n` edges of `s`. */
  function Within(g: map<string, seq<string>>, s: string, n: nat): set<string> {
    if n == 0 then {s} else Within(g, s, n - 1) + Succ(g, Within(g, s, n - 1))
  }

  /** The columns within `n - 1` edges (none for `n == 0`). */
  function Below(g: map<string, seq<string>>, s: string, n: nat): set<string> {
    if n == 0 then {} else Within(g, s, n - 1)
  }

  lemma {:induction false} WithinGrows(g: map<string, seq<string>>, s: string, m: nat, n: nat)
    requires m <= n
    ensures Within(g, s, m) <= Within(g, s, n)
    decreases n
  {
    if m < n {
      WithinGrows(g, s, m, n - 1);
    }
  }

  /** The end of a walk of `k` edges is within `k` edges of its start. */
  lemma {:induction false} WalkWithin(g: map<string, seq<string>>, p: seq<string>)
    requires |p| >= 1 && FollowsLists(g, p)
    ensures p[|p| - 1] in Within(g, p[0], |p| - 1)
  {
    if |p| > 1 {
      var n := |p| - 1;
      var q := p[..n];
      assert FollowsLists(g, q);
      WalkWithin(g, q);
      assert p[n] in Targets(g, p[n - 1]);
    }
  }

  /** Once a layer adds nothing, no later layer does. */
  lemma {:induction false} WithinStable(g: map<string, seq<string>>, s: string, d: nat, n: nat)
    requires Within(g, s, d + 1) == Within(g, s, d) && d <= n
    ensures Within(g, s, n) == Within(g, s, d)
    decreases n
  {
    if d < n {
      WithinStable(g, s, d, n - 1);
    }
  }

  /** With no walk of at most `n` edges into `t`, every walk into `t` is
      longer than `n + 1` columns. */
  lemma Unreachable(g: map<string, seq<string>>, s: string, t: string, n: nat)
    requires t !in Within(g, s, n)
    ensures forall q :: Walk(g, q, s, t) ==> |q| > n + 1
  {
    forall q | Walk(g, q, s, t) ensures |q| > n + 1 {
      WalkWithin(g, q);
      if |q| <= n + 1 {
        WithinGrows(g, s, |q| - 1, n);
      }
    }
  }

  // ------------------------------------------------------------- the BFS

  /** A BFS path: a walk from `s` whose `i`-th column is first reached after
      exactly `i` edges. */
  ghost predicate Layered(g: map<string, seq<string>>, s: string, p: seq<string>) {
    |p| >= 1 && p[0] == s && FollowsLists(g, p) &&
    forall i :: 0 < i < |p| ==> p[i] !in Within(g, s, i - 1)
  }

  /** The `i`-th column of a walk from `s` is within `i` edges of `s`. */
  lemma LayeredAt(g: map<string, seq<string>>, s: string, p: seq<string>, i: nat)
    requires |p| >= 1 && p[0] == s && FollowsLists(g, p) && i < |p|
    ensures p[i] in Within(g, s, i)
  {
    var q := p[..i + 1];
    assert FollowsLists(g, q);
    WalkWithin(g, q);
  }

  lemma LayeredSimple(g: map<string, seq<string>>, s: string, p: seq<string>)
    requires Layered(g, s, p)
    ensures Simple(p)
    ensures p[|p| - 1] in Within(g, s, |p| - 1)
  {
    LayeredAt(g, s, p, |p| - 1);
    forall i, j | 0 <= i < j < |p| ensures p[i] != p[j] {
      LayeredDistinct(g, s, p, i, j);
    }
  }

  /** Two columns of a BFS path at different depths differ: the earlier
      one is within its depth, the later one was not reached before its. */
  lemma LayeredDistinct(g: map<string, seq<string>>, s: string, p: seq<string>, i: nat, j: nat)
    requires Layered(g, s, p) && i < j < |p|
    ensures p[i] != p[j]
  {
    LayeredAt(g, s, p, i);
    WithinGrows(g, s, i, j - 1);
    assert p[j] !in Within(g, s, j - 1);
  }

  lemma LayeredExtend(g: map<string, seq<string>>, s: string, p: seq<string>, x: string)
    requires Layered(g, s, p) && x in Targets(g, p[|p| - 1]) && x !in Within(g, s, |p| - 1)
    ensures Layered(g, s, p + [x])
  {
    var q := p + [x];
    forall i | 0 <= i < |q| - 1 ensures q[i] in g && q[i + 1] in g[q[i]] {
      if i < |p| - 1 {
        assert q[i] == p[i] && q[i + 1] == p[i + 1];
      }
    }
    forall i | 0 < i < |q| ensures q[i] !in Within(g, s, i - 1) {
      if i < |p| {
        assert q[i] == p[i];
      }
    }
  }

  /** The columns the paths of a frontier end at. */
  function Lasts(frontier: seq<seq<string>>): set<string> {
    set p | p in frontier && |p| > 0 :: p[|p| - 1]
  }

  lemma LastsSnoc(frontier: seq<seq<string>>, p: seq<string>)
    requires |p| > 0
    ensures Lasts(frontier + [p]) == Lasts(frontier) + {p[|p| - 1]}
  {
    var f := frontier + [p];
    forall y | y in Lasts(f) ensures y in Lasts(frontier) + {p[|p| - 1]} {
      var q :| q in f && |q| > 0 && q[|q| - 1] == y;
      if q != p {
        assert q in frontier;
      }
    }
  }

  /** A frontier at level `d`: BFS paths of `d` edges ending exactly at the
      columns first reached after `d` edges. */
  ghost predicate FrontierOk(g: map<string, seq<string>>, s: string, frontier: seq<seq<string>>, d: nat) {
    (forall p :: p in frontier ==> Layered(g, s, p) && |p| == d + 1) &&
    Lasts(frontier) == Within(g, s, d) - Below(g, s, d)
  }

  /** The state when level `d` starts: everything within `d` edges visited,
      the target not among them. */
  ghost predicate LevelInv(g: map<string, seq<string>>, s: string, t: string, frontier: seq<seq<string>>,
                           visited: set<string>, d: nat) {
    visited == Within(g, s, d) && t !in visited && FrontierOk(g, s, frontier, d)
  }

  /** The state inside level `d`: the paths `frontier[..k]` are expanded,
      and `extra` are the successors of `frontier[k]` looked at so far. */
  ghost predicate ScanInv(g: map<string, seq<string>>, s: string, t: string, frontier: seq<seq<string>>, k: nat,
                          extra: set<string>, visited: set<string>, next: seq<seq<string>>, d: nat) {
    k <= |frontier| &&
    visited == Within(g, s, d) + Succ(g, Lasts(frontier[..k])) + extra && t !in visited &&
    (forall q :: q in next ==> Layered(g, s, q) && |q| == d + 2) &&
    Lasts(next) == visited - Within(g, s, d)
  }

  lemma ScanAdd(g: map<string, seq<string>>, s: string, t: string, frontier: seq<seq<string>>, k: nat,
                extra: set<string>, visited: set<string>, next: seq<seq<string>>, d: nat, x: string)
    requires k < |frontier| && Layered(g, s, frontier[k]) && |frontier[k]| == d + 1
    requires ScanInv(g, s, t, frontier, k, extra, visited, next, d)
    requires x in Targets(g, frontier[k][|frontier[k]| - 1]) && x != t && x !in visited
    ensures ScanInv(g, s, t, frontier, k, extra + {x}, visited + {x}, next + [frontier[k] + [x]], d)
  {
    var p := frontier[k];
    LayeredExtend(g, s, p, x);
    LastsSnoc(next, p + [x]);
  }

  lemma ScanSkip(g: map<string, seq<string>>, s: string, t: string, frontier: seq<seq<string>>, k: nat,
                 extra: set<string>, visited: set<string>, next: seq<seq<string>>, d: nat, x: string)
    requires ScanInv(g, s, t, frontier, k, extra, visited, next, d) && x in visited
    ensures ScanInv(g, s, t, frontier, k, extra + {x}, visited, next, d)
  {
  }

  /** The BFS looking at successor `x` of `path`: an unseen column is
      marked visited and its path is queued; a seen one changes nothing. */
  function Visit(visited: set<string>, queue: seq<seq<string>>, path: seq<string>, x: string)
    : (set<string>, seq<seq<string>>)
  {
    if x in visited then (visited, queue) else (visited + {x}, queue + [path + [x]])
  }

  /** One successor `succ[j]` of `frontier[k]`: the target gives a shortest
      walk; otherwise the scan state moves past it, visiting and queueing it
      when unseen. */
  lemma ScanStep(g: map<string, seq<string>>, s: string, t: string, frontier: seq<seq<string>>, k: nat,
                 succ: seq<string>, j: nat, visited: set<string>, next: seq<seq<string>>, d: nat)
    requires k < |frontier| && Layered(g, s, frontier[k]) && |frontier[k]| == d + 1
    requires succ == Targets(g, frontier[k][|frontier[k]| - 1]) && j < |succ|
    requires ScanInv(g, s, t, frontier, k, Elems(succ[..j]), visited, next, d)
    ensures succ[j] == t ==> Walk(g, frontier[k] + [t], s, t) && Simple(frontier[k] + [t]) && |frontier[k]| == d + 1
    ensures succ[j] == t ==> forall q :: Walk(g, q, s, t) ==> |frontier[k]| + 1 <= |q|
    ensures succ[j] != t ==>
      var (visited', next') := Visit(visited, next, frontier[k], succ[j]);
      ScanInv(g, s, t, frontier, k, Elems(succ[..j + 1]), visited', next', d)
  {
    var x := succ[j];
    var extra := Elems(succ[..j]);
    ElemsSnoc(succ, j);
    if x == t {
      ScanFound(g, s, t, frontier, k, extra, visited, next, d);
    } else if x !in visited {
      ScanAdd(g, s, t, frontier, k, extra, visited, next, d, x);
    } else {
      ScanSkip(g, s, t, frontier, k, extra, visited, next, d, x);
    }
  }

  /** Successors distribute over union. */
  lemma SuccUnion(g: map<string, seq<string>>, a: set<string>, b: set<string>)
    ensures Succ(g, a + b) == Succ(g, a) + Succ(g, b)
  {
  }

  /** Adding a path to the expanded ones adds the successors of its last
      column. */
  lemma SuccLastsSnoc(g: map<string, seq<string>>, frontier: seq<seq<string>>, k: nat)
    requires k < |frontier| && |frontier[k]| > 0
    ensures Succ(g, Lasts(frontier[..k + 1])) ==
      Succ(g, Lasts(frontier[..k])) + Elems(Targets(g, frontier[k][|frontier[k]| - 1]))
  {
    var u := frontier[k][|frontier[k]| - 1];
    var lasts := Lasts(frontier[..k]);
    assert frontier[..k + 1] == frontier[..k] + [frontier[k]];
    LastsSnoc(frontier[..k], frontier[k]);
    assert Lasts(frontier[..k + 1]) == lasts + {u};
    SuccUnion(g, lasts, {u});
    SuccOne(g, u);
  }

  lemma SuccOne(g: map<string, seq<string>>, u: string)
    ensures Succ(g, {u}) == Elems(Targets(g, u))
  {
    forall y | y in Elems(Targets(g, u)) ensures y in Succ(g, {u}) {
      assert u in {u} && y in Targets(g, u);
    }
  }

  lemma ScanNext(g: map<string, seq<string>>, s: string, t: string, frontier: seq<seq<string>>, k: nat,
                 visited: set<string>, next: seq<seq<string>>, d: nat)
    requires k < |frontier| && |frontier[k]| > 0
    requires ScanInv(g, s, t, frontier, k, Elems(Targets(g, frontier[k][|frontier[k]| - 1])), visited, next, d)
    ensures ScanInv(g, s, t, frontier, k + 1, {}, visited, next, d)
  {
    SuccLastsSnoc(g, frontier, k);
  }

  /** Layer `d + 1` adds the successors of the columns first reached after
      `d` edges: those of earlier columns are already within `d` edges. */
  lemma WithinStep(g: map<string, seq<string>>, s: string, d: nat)
    ensures Within(g, s, d + 1) == Within(g, s, d) + Succ(g, Within(g, s, d) - Below(g, s, d))
  {
    var w := Within(g, s, d);
    var below := Below(g, s, d);
    assert w == below + (w - below) by {
      if d > 0 { WithinGrows(g, s, d - 1, d); }
    }
    SuccUnion(g, below, w - below);
    assert Succ(g, below) <= w;
  }

  /** After the last path of level `d`, the new frontier is level `d + 1`. */
  lemma LevelClose(g: map<string, seq<string>>, s: string, t: string, frontier: seq<seq<string>>,
                   visited: set<string>, next: seq<seq<string>>, d: nat)
    requires FrontierOk(g, s, frontier, d)
    requires ScanInv(g, s, t, frontier, |frontier|, {}, visited, next, d)
    ensures LevelInv(g, s, t, next, visited, d + 1)
  {
    assert frontier[..|frontier|] == frontier;
    WithinStep(g, s, d);
  }

  /** Finding the target among the successors of a level-`d` path gives a
      simple walk of `d + 1` edges, and none of `d` edges or fewer exists. */
  lemma ScanFound(g: map<string, seq<string>>, s: string, t: string, frontier: seq<seq<string>>, k: nat,
                  extra: set<string>, visited: set<string>, next: seq<seq<string>>, d: nat)
    requires k < |frontier| && Layered(g, s, frontier[k]) && |frontier[k]| == d + 1
    requires ScanInv(g, s, t, frontier, k, extra, visited, next, d)
    requires t in Targets(g, frontier[k][|frontier[k]| - 1])
    ensures Walk(g, frontier[k] + [t], s, t) && Simple(frontier[k] + [t])
    ensures forall q :: Walk(g, q, s, t) ==> |frontier[k]| + 1 <= |q|
  {
    var p := frontier[k];
    LayeredExtend(g, s, p, t);
    LayeredSimple(g, s, p + [t]);
    Unreachable(g, s, t, d);
  }

  /** The BFS stops without the target: either `maxDepth` levels were
      expanded, or a level came out empty and no later layer adds anything. */
  lemma Exhausted(g: map<string, seq<string>>, s: string, t: string, frontier: seq<seq<string>>,
                  visited: set<string>, d: nat, maxDepth: nat)
    requires LevelInv(g, s, t, frontier, visited, d) && d <= maxDepth
    requires d == maxDepth || (frontier == [] && d > 0)
    ensures forall q :: Walk(g, q, s, t) ==> |q| > maxDepth + 1
  {
    if d < maxDepth {
      var e: nat := d - 1;
      assert Below(g, s, d) == Within(g, s, e);
      assert Lasts(frontier) == {};
      WithinGrows(g, s, e, d);
      forall x | x in Within(g, s, d) ensures x in Within(g, s, e) {
        assert x !in Within(g, s, d) - Below(g, s, d);
      }
      assert Within(g, s, d) == Within(g, s, e);
      assert e + 1 == d;
      WithinStable(g, s, e, maxDepth);
    }
    Unreachable(g, s, t, maxDepth);
  }

  /** One level of the BFS: every path of the frontier, every successor of
      its last column in list order. */
  method ExpandLevel(g: map<string, seq<string>>, frontier: seq<seq<string>>, visited: set<string>, d: nat,
                     source: string, target: string)
    returns (found: Option<seq<string>>, seen: set<string>, next: seq<seq<string>>)
    requires LevelInv(g, source, target, frontier, visited, d)
    ensures found.Some? ==> Walk(g, found.value, source, target) && Simple(found.value) && |found.value| == d + 2
    ensures found.Some? ==> forall q :: Walk(g, q, source, target) ==> |found.value| <= |q|
    ensures found.None? ==> LevelInv(g, source, target, next, seen, d + 1)
  {
    seen := visited;
    next := [];
    var k := 0;
    assert frontier[..0] == [];
    assert Lasts([]) == {};
    while k < |frontier|
      invariant ScanInv(g, source, target, frontier, k, {}, seen, next, d)
    {
      assert frontier[k] in frontier;
      found, seen, next := ExpandPath(g, frontier, k, seen, next, d, source, target);
      if found.Some? {
        return;
      }
      k := k + 1;
    }
    LevelClose(g, source, target, frontier, seen, next, d);
    found := None;
  }

  /** The successors of `frontier[k]`, in list order: the target ends the
      search, an unseen column is visited and queued. */
  method ExpandPath(g: map<string, seq<string>>, frontier: seq<seq<string>>, k: nat, visited: set<string>,
                    queued: seq<seq<string>>, d: nat, source: string, target: string)
    returns (found: Option<seq<string>>, seen: set<string>, next: seq<seq<string>>)
    requires k < |frontier| && Layered(g, source, frontier[k]) && |frontier[k]| == d + 1
    requires ScanInv(g, source, target, frontier, k, {}, visited, queued, d)
    ensures found.Some? ==> Walk(g, found.value, source, target) && Simple(found.value) && |found.value| == d + 2
    ensures found.Some? ==> forall q :: Walk(g, q, source, target) ==> |found.value| <= |q|
    ensures found.None? ==> ScanInv(g, source, target, frontier, k + 1, {}, seen, next, d)
  {
    seen, next := visited, queued;
    var path := frontier[k];
    var succ := Targets(g, path[|path| - 1]);
    var j := 0;
    assert succ[..0] == [];
    while j < |succ|
      invariant j <= |succ|
      invariant ScanInv(g, source, target, frontier, k, Elems(succ[..j]), seen, next, d)
    {
      var x := succ[j];
      ScanStep(g, source, target, frontier, k, succ, j, seen, next, d);
      if x == target {
        return Some(path + [x]), seen, next;
      }
      var after := Visit(seen, next, path, x);
      seen, next := after.0, after.1;
      j := j + 1;
    }
    assert succ[..j] == succ;
    ScanNext(g, source, target, frontier, k, seen, next, d);
    found := None;
  }

  /** The BFS of `trace_end_to_end_path` on `g`. The queue is taken level
      by level, which visits the columns in the same order. */
  method ShortestWalk(g: map<string, seq<string>>, source: string, target: string, maxDepth: nat) returns (r: Option<seq<string>>)
    ensures source == target ==> r == Some([source])
    ensures r.Some? ==> Walk(g, r.value, source, target) && Simple(r.value) && |r.value| <= maxDepth + 1
    ensures r.Some? ==> forall q :: Walk(g, q, source, target) ==> |r.value| <= |q|
    ensures r.None? ==> forall q :: Walk(g, q, source, target) ==> |q| > maxDepth + 1
  {
    if source == target {
      return Some([source]);
    }
    var frontier := [[source]];
    var visited := {source};
    var d := 0;
    assert Lasts(frontier) == {source} by {
      assert [source][|[source]| - 1] == source;
    }
    while frontier != [] && d < maxDepth
      invariant d <= maxDepth
      invariant LevelInv(g, source, target, frontier, visited, d)
      invariant d == 0 ==> frontier == [[source]]
      decreases maxDepth - d
    {
      var found;
      found, visited, frontier := ExpandLevel(g, frontier, visited, d, source, target);
      if found.Some? {
        return found;
      }
      d := d + 1;
    }
    Exhausted(g, source, target, frontier, visited, d, maxDepth);
    return None;
  }

  /** The loop of `find_sample_paths` over the pairs to try. */
  method CollectSamples(g: map<string, seq<string>>, pairs: seq<(string, string)>, maxSamples: nat)
    returns (samples: seq<Sample>)
    requires forall p :: p in pairs ==> p.0 != p.1
    ensures |samples| <= if maxSamples == 0 then 1 else maxSamples
    ensures forall k :: 0 <= k < |samples| ==> SampleOk(g, samples[k])
    ensures forall k :: 0 <= k < |samples| ==> (samples[k].source, samples[k].target) in pairs
    ensures |samples| < maxSamples || samples == [] ==> Complete(g, pairs, samples)
  {
    samples := [];
    var n := 0;
    while n < |pairs|
      invariant n <= |pairs|
      invariant samples == [] || |samples| < maxSamples
      invariant forall k :: 0 <= k < |samples| ==> SampleOk(g, samples[k])
      invariant forall k :: 0 <= k < |samples| ==> (samples[k].source, samples[k].target) in pairs
      invariant Complete(g, pairs[..n], samples)
    {
      var (source, target) := pairs[n];
      assert pairs[n] in pairs;
      var path := ShortestWalk(g, source, target, 15);
      if path.Some? && |path.value| > 1 {
        var sample := Sample(source, target, path.value, |path.value|);
        assert SampleOk(g, sample);
        SampleAdded(g, pairs, n, samples, sample);
        samples := samples + [sample];
        if |samples| >= maxSamples {
          break;
        }
      } else {
        assert !Reachable(g, source, target, 16);
        CompleteSnoc(g, pairs, n, samples);
      }
      n := n + 1;
    }
    assert pairs[..|pairs|] == pairs;
  }

  /** The loop of one `build_lineage_graph` pass over the graphs and the
      metadata. */
  method Ingest(graph0: map<string, seq<string>>, reverse0: map<string, seq<string>>, metadata0: Dict<string, Meta>,
                ls: seq<ColumnLineage>, realTables: set<string>, temp: bool)
    returns (graph: map<string, seq<string>>, reverse: map<string, seq<string>>, metadata: Dict<string, Meta>)
    requires DictValid(metadata0)
    ensures graph == Appended(graph0, ls, true)
    ensures reverse == Appended(reverse0, ls, false)
    ensures metadata == MetaAfter(metadata0, ls, realTables, temp)
  {
    graph, reverse, metadata := graph0, reverse0, metadata0;
    var i := 0;
    while i < |ls|
      invariant 0 <= i <= |ls|
      invariant (graph, reverse, metadata) ==
        (Appended(graph0, ls[..i], true), Appended(reverse0, ls[..i], false), MetaAfter(metadata0, ls[..i], realTables, temp))
    {
      var l := ls[i];
      var source := SourceName(l);
      var target := TargetName(l);
      assert Edge(l, true) == (source, target) && Edge(l, false) == (target, source);
      AppendedSnoc(graph0, ls, true, i);
      AppendedSnoc(reverse0, ls, false, i);
      MetaAfterSnoc(metadata0, ls, realTables, temp, i);
      graph := graph[source := Targets(graph, source) + [target]];
      reverse := reverse[target := Targets(reverse, target) + [source]];
      metadata := Put(metadata, source, SourceMeta(l, realTables, temp));
      metadata := Put(metadata, target, TargetMeta(l, realTables, temp));
      i := i + 1;
    }
    assert ls[..i] == ls;
  }

  // ------------------------------------------------------------ the tracer

  /** Some walk from `s` to `t` has at most `n` columns. */
  ghost predicate Reachable(g: map<string, seq<string>>, s: string, t: string, n: nat) {
    exists q :: Walk(g, q, s, t) && |q| <= n
  }

  /** A sample of the search: a shortest walk of 2 to 16 columns. */
  ghost predicate SampleOk(g: map<string, seq<string>>, smp: Sample) {
    Walk(g, smp.path, smp.source, smp.target) && 2 <= |smp.path| <= 16 && smp.length == |smp.path| &&
    forall q :: Walk(g, q, smp.source, smp.target) ==> |smp.path| <= |q|
  }

  predicate HasSample(samples: seq<Sample>, s: string, t: string) {
    exists k :: 0 <= k < |samples| && samples[k].source == s && samples[k].target == t
  }

  /** Every pair with a walk of at most 16 columns has a sample. */
  ghost predicate Complete(g: map<string, seq<string>>, pairs: seq<(string, string)>, samples: seq<Sample>) {
    forall i :: 0 <= i < |pairs| && Reachable(g, pairs[i].0, pairs[i].1, 16) ==>
      HasSample(samples, pairs[i].0, pairs[i].1)
  }

  lemma CompleteSnoc(g: map<string, seq<string>>, pairs: seq<(string, string)>, n: nat, samples: seq<Sample>)
    requires n < |pairs| && Complete(g, pairs[..n], samples)
    requires Reachable(g, pairs[n].0, pairs[n].1, 16) ==> HasSample(samples, pairs[n].0, pairs[n].1)
    ensures Complete(g, pairs[..n + 1], samples)
  {
    assert pairs[..n + 1] == pairs[..n] + [pairs[n]];
  }

  /** A sample for pair `n` keeps every sample sound and drawn from the
      pairs, and covers the pairs up to and including `n`. */
  lemma SampleAdded(g: map<string, seq<string>>, pairs: seq<(string, string)>, n: nat, samples: seq<Sample>, sample: Sample)
    requires n < |pairs| && Complete(g, pairs[..n], samples)
    requires forall k :: 0 <= k < |samples| ==> SampleOk(g, samples[k])
    requires forall k :: 0 <= k < |samples| ==> (samples[k].source, samples[k].target) in pairs
    requires SampleOk(g, sample) && (sample.source, sample.target) == pairs[n]
    ensures var more := samples + [sample];
      && (forall k :: 0 <= k < |more| ==> SampleOk(g, more[k]))
      && (forall k :: 0 <= k < |more| ==> (more[k].source, more[k].target) in pairs)
      && Complete(g, pairs[..n + 1], more)
  {
    var more := samples + [sample];
    assert more[|samples|] == sample;
    assert HasSample(more, sample.source, sample.target);
    CompleteMore(g, pairs[..n], samples, more);
    CompleteSnoc(g, pairs, n, more);
  }

  lemma CompleteMore(g: map<string, seq<string>>, pairs: seq<(string, string)>, samples: seq<Sample>, more: seq<Sample>)
    requires Complete(g, pairs, samples) && samples <= more
    ensures Complete(g, pairs, more)
  {
    forall i | 0 <= i < |pairs| && Reachable(g, pairs[i].0, pairs[i].1, 16)
      ensures HasSample(more, pairs[i].0, pairs[i].1)
    {
      var k :| 0 <= k < |samples| && samples[k].source == pairs[i].0 && samples[k].target == pairs[i].1;
      assert more[k] == samples[k];
    }
  }

  // ------------------------------------------------- the all-pairs search

  /** One record of the all-pairs search: the pair, the tables the metadata
      gives them, the walk, its number of edges and its inner columns. */
  datatype EndToEndLineage = EndToEndLineage(sourceColumn: string, targetColumn: string,
                                             sourceTable: string, targetTable: string,
                                             path: seq<string>, steps: nat, intermediateSteps: seq<string>)

  /** A record of the search: a shortest walk of 2 to 11 columns, with the
      fields derived from it and from the metadata. */
  ghost predicate LineageOk(g: map<string, seq<string>>, meta: map<string, Meta>, l: EndToEndLineage) {
    Walk(g, l.path, l.sourceColumn, l.targetColumn) && 2 <= |l.path| <= 11 &&
    (forall q :: Walk(g, q, l.sourceColumn, l.targetColumn) ==> |l.path| <= |q|) &&
    l.steps == |l.path| - 1 && l.intermediateSteps == l.path[1..|l.path| - 1] &&
    l.sourceColumn in meta && l.targetColumn in meta &&
    l.sourceTable == meta[l.sourceColumn].table && l.targetTable == meta[l.targetColumn].table
  }

  predicate HasLineage(ls: seq<EndToEndLineage>, s: string, t: string) {
    exists k :: 0 <= k < |ls| && ls[k].sourceColumn == s && ls[k].targetColumn == t
  }

  /** Every pair with a walk of at most 11 columns has a record. */
  ghost predicate Covers(g: map<string, seq<string>>, pairs: seq<(string, string)>, ls: seq<EndToEndLineage>) {
    forall i :: 0 <= i < |pairs| && Reachable(g, pairs[i].0, pairs[i].1, 11) ==>
      HasLineage(ls, pairs[i].0, pairs[i].1)
  }

  lemma CoversSnoc(g: map<string, seq<string>>, pairs: seq<(string, string)>, n: nat, ls: seq<EndToEndLineage>)
    requires n < |pairs| && Covers(g, pairs[..n], ls)
    requires Reachable(g, pairs[n].0, pairs[n].1, 11) ==> HasLineage(ls, pairs[n].0, pairs[n].1)
    ensures Covers(g, pairs[..n + 1], ls)
  {
    assert pairs[..n + 1] == pairs[..n] + [pairs[n]];
  }

  /** A shortest walk of 2 to 11 columns between columns with metadata,
      with the fields the search derives from it, is a record. */
  lemma LineageOfWalk(g: map<string, seq<string>>, meta: map<string, Meta>, l: EndToEndLineage)
    requires Walk(g, l.path, l.sourceColumn, l.targetColumn) && 2 <= |l.path| <= 11
    requires forall q :: Walk(g, q, l.sourceColumn, l.targetColumn) ==> |l.path| <= |q|
    requires l.sourceColumn in meta && l.targetColumn in meta
    requires l.steps == |l.path| - 1 && l.intermediateSteps == l.path[1..|l.path| - 1]
    requires l.sourceTable == meta[l.sourceColumn].table && l.targetTable == meta[l.targetColumn].table
    ensures LineageOk(g, meta, l)
  { }

  /** What the double loop keeps after the first `n` pairs: every record is
      sound and drawn from the pairs, and the pairs tried are covered. */
  ghost predicate Collected(g: map<string, seq<string>>, meta: map<string, Meta>, pairs: seq<(string, string)>,
                            n: nat, ls: seq<EndToEndLineage>) {
    n <= |pairs| && |ls| <= n &&
    (forall k :: 0 <= k < |ls| ==> LineageOk(g, meta, ls[k])) &&
    (forall k :: 0 <= k < |ls| ==> (ls[k].sourceColumn, ls[k].targetColumn) in pairs) &&
    Covers(g, pairs[..n], ls)
  }

  /** A record for pair `n` keeps the loop's facts for the pairs up to `n`. */
  lemma LineageAdded(g: map<string, seq<string>>, meta: map<string, Meta>, pairs: seq<(string, string)>, n: nat,
                     ls: seq<EndToEndLineage>, l: EndToEndLineage)
    requires n < |pairs| && Collected(g, meta, pairs, n, ls)
    requires LineageOk(g, meta, l) && (l.sourceColumn, l.targetColumn) == pairs[n]
    ensures Collected(g, meta, pairs, n + 1, ls + [l])
  {
    var more := ls + [l];
    forall k | 0 <= k < |more|
      ensures LineageOk(g, meta, more[k]) && (more[k].sourceColumn, more[k].targetColumn) in pairs
    {
      if k < |ls| {
        assert more[k] == ls[k];
      } else {
        assert more[k] == l;
      }
    }
    CoversAdded(g, pairs, n, ls, l);
  }

  /** A record for pair `n` keeps the pairs up to `n` covered. */
  lemma CoversAdded(g: map<string, seq<string>>, pairs: seq<(string, string)>, n: nat,
                    ls: seq<EndToEndLineage>, l: EndToEndLineage)
    requires n < |pairs| && Covers(g, pairs[..n], ls)
    requires (l.sourceColumn, l.targetColumn) == pairs[n]
    ensures Covers(g, pairs[..n + 1], ls + [l])
  {
    var more := ls + [l];
    assert more[|ls|] == l;
    assert HasLineage(more, l.sourceColumn, l.targetColumn);
    forall i | 0 <= i < n && Reachable(g, pairs[i].0, pairs[i].1, 11)
      ensures HasLineage(more, pairs[i].0, pairs[i].1)
    {
      assert pairs[..n][i] == pairs[i];
      var k :| 0 <= k < |ls| && ls[k].sourceColumn == pairs[i].0 && ls[k].targetColumn == pairs[i].1;
      assert more[k] == ls[k];
    }
    CoversSnoc(g, pairs, n, more);
  }

  /** A pair without a walk of at most 11 columns keeps the loop's facts. */
  lemma LineageSkipped(g: map<string, seq<string>>, meta: map<string, Meta>, pairs: seq<(string, string)>, n: nat,
                       ls: seq<EndToEndLineage>)
    requires n < |pairs| && Collected(g, meta, pairs, n, ls)
    requires !Reachable(g, pairs[n].0, pairs[n].1, 11)
    ensures Collected(g, meta, pairs, n + 1, ls)
  {
    CoversSnoc(g, pairs, n, ls);
  }

  /** The body of the double loop for one pair: the pair is traced with
      depth 10, and a walk of more than one column becomes a record. */
  method TraceLineage(g: map<string, seq<string>>, meta: map<string, Meta>, source: string, target: string)
    returns (r: Option<EndToEndLineage>)
    requires source != target && source in meta && target in meta
    ensures r.Some? ==> LineageOk(g, meta, r.value) && r.value.sourceColumn == source && r.value.targetColumn == target
    ensures r.None? ==> !Reachable(g, source, target, 11)
  {
    var path := ShortestWalk(g, source, target, 10);
    if path.Some? && |path.value| > 1 {
      var p := path.value;
      r := Some(EndToEndLineage(source, target, meta[source].table, meta[target].table, p, |p| - 1, p[1..|p| - 1]));
      LineageOfWalk(g, meta, r.value);
    } else {
      r := None;
    }
  }

  /** The double loop of the all-pairs search: each pair is traced with
      depth 10, and a walk of more than one column becomes a record. */
  method CollectLineages(g: map<string, seq<string>>, meta: map<string, Meta>, pairs: seq<(string, string)>)
    returns (ls: seq<EndToEndLineage>)
    requires forall p :: p in pairs ==> p.0 != p.1 && p.0 in meta && p.1 in meta
    ensures |ls| <= |pairs|
    ensures forall k :: 0 <= k < |ls| ==> LineageOk(g, meta, ls[k])
    ensures forall k :: 0 <= k < |ls| ==> (ls[k].sourceColumn, ls[k].targetColumn) in pairs
    ensures Covers(g, pairs, ls)
  {
    ls := [];
    var n := 0;
    assert pairs[..0] == [];
    while n < |pairs|
      invariant Collected(g, meta, pairs, n, ls)
      decreases |pairs| - n
    {
      assert pairs[n] in pairs;
      var found := TraceLineage(g, meta, pairs[n].0, pairs[n].1);
      if found.Some? {
        LineageAdded(g, meta, pairs, n, ls, found.value);
        ls := ls + [found.value];
      } else {
        LineageSkipped(g, meta, pairs, n, ls);
      }
      n := n + 1;
    }
    assert pairs[..|pairs|] == pairs;
  }

  function Min(a: int, b: int): int {
    if a <= b then a else b
  }

  /** One entry of `find_sample_paths`; `length == |path|`. */
  datatype Sample = Sample(source: string, target: string, path: seq<string>, length: nat)

  /** `EndToEndLineageTracer`: the C# metadata it was given (read from JSON
      by the script) and the graph and metadata it builds. */
  class Tracer {
    const realToReal: seq<ColumnLineage>
    const tempInvolved: seq<ColumnLineage>
    const realSourceTables: seq<string>
    const realTargetTables: seq<string>
    var lineageGraph: map<string, seq<string>>
    var reverseGraph: map<string, seq<string>>
    var columnMetadata: Dict<string, Meta>

    ghost predicate Valid()
      reads this
    {
      DictValid(columnMetadata) && Named(columnMetadata) && Mirror(lineageGraph, reverseGraph)
    }

    constructor(realToReal: seq<ColumnLineage>, tempInvolved: seq<ColumnLineage>,
                realSourceTables: seq<string>, realTargetTables: seq<string>)
      ensures Valid()
      ensures this.realToReal == realToReal && this.tempInvolved == tempInvolved
      ensures this.realSourceTables == realSourceTables && this.realTargetTables == realTargetTables
      ensures lineageGraph == map[] && reverseGraph == map[] && columnMetadata == EmptyDict()
    {
      this.realToReal := realToReal;
      this.tempInvolved := tempInvolved;
      this.realSourceTables := realSourceTables;
      this.realTargetTables := realTargetTables;
      lineageGraph := map[];
      reverseGraph := map[];
      columnMetadata := EmptyDict();
    }

    /** `_get_real_tables`: the real source and real target tables. */
    function RealTables(): (r: set<string>)
      ensures forall t :: t in r <==> t in realSourceTables || t in realTargetTables
    {
      Elems(realSourceTables) + Elems(realTargetTables)
    }

    /** `build_lineage_graph`: the real-to-real pass, then the temp-involved
        pass. */
    method BuildLineageGraph()
      requires Valid()
      modifies this
      ensures Valid()
      ensures lineageGraph == Appended(Appended(old(lineageGraph), realToReal, true), tempInvolved, true)
      ensures reverseGraph == Appended(Appended(old(reverseGraph), realToReal, false), tempInvolved, false)
      ensures columnMetadata ==
        MetaAfter(MetaAfter(old(columnMetadata), realToReal, RealTables(), false), tempInvolved, RealTables(), true)
    {
      AddLineages(realToReal, false);
      AddLineages(tempInvolved, true);
    }

    /** One pass of `build_lineage_graph`: append each edge to both graphs
        and record both endpoints, a later record overwriting an earlier
        one. */
    method AddLineages(ls: seq<ColumnLineage>, temp: bool)
      requires Valid()
      modifies this
      ensures Valid()
      ensures lineageGraph == Appended(old(lineageGraph), ls, true)
      ensures reverseGraph == Appended(old(reverseGraph), ls, false)
      ensures columnMetadata == MetaAfter(old(columnMetadata), ls, RealTables(), temp)
    {
      var realTables := RealTables();
      var graph, reverse, metadata := Ingest(lineageGraph, reverseGraph, columnMetadata, ls, realTables, temp);
      AppendedMirror(lineageGraph, reverseGraph, ls);
      MetaAfterNamed(columnMetadata, ls, realTables, temp);
      lineageGraph, reverseGraph, columnMetadata := graph, reverse, metadata;
    }

    /** `find_staging_sources` */
    method FindStagingSources() returns (r: seq<string>)
      ensures r == Where(columnMetadata.keys, columnMetadata.m, IsStaging)
    {
      r := Scan(IsStaging);
    }

    /** `find_final_targets` */
    method FindFinalTargets() returns (r: seq<string>)
      ensures r == Where(columnMetadata.keys, columnMetadata.m, IsFinal)
    {
      r := Scan(IsFinal);
    }

    /** The loop of both filters over `column_metadata.items()`. */
    method Scan(keep: Meta -> bool) returns (r: seq<string>)
      ensures r == Where(columnMetadata.keys, columnMetadata.m, keep)
    {
      var keys := columnMetadata.keys;
      r := [];
      var i := 0;
      while i < |keys|
        invariant 0 <= i <= |keys|
        invariant r == Where(keys[..i], columnMetadata.m, keep)
      {
        assert keys[..i + 1][..i] == keys[..i];
        var c := keys[i];
        if c in columnMetadata.m && keep(columnMetadata.m[c]) {
          r := r + [c];
        }
        i := i + 1;
      }
      assert keys[..i] == keys;
    }

    /** `trace_end_to_end_path`: BFS from `source` with one shared `visited`
        set, not expanding columns `maxDepth` edges away. */
    method TraceEndToEndPath(source: string, target: string, maxDepth: nat) returns (r: Option<seq<string>>)
      ensures source == target ==> r == Some([source])
      ensures r.Some? ==> Walk(lineageGraph, r.value, source, target) && Simple(r.value) && |r.value| <= maxDepth + 1
      ensures r.Some? ==> forall q :: Walk(lineageGraph, q, source, target) ==> |r.value| <= |q|
      ensures r.None? ==> forall q :: Walk(lineageGraph, q, source, target) ==> |q| > maxDepth + 1
    {
      r := ShortestWalk(lineageGraph, source, target, maxDepth);
    }

    /** `find_sample_paths`: the first `min(50, |S| * |T|)` (staging source,
        final target) pairs in `itertools.product` order, each traced with
        depth 15; a found walk of more than one column is kept, and the
        search stops once `maxSamples` are kept. */
    method FindSamplePaths(maxSamples: nat) returns (samples: seq<Sample>)
      ensures |samples| <= if maxSamples == 0 then 1 else maxSamples
      ensures forall k :: 0 <= k < |samples| ==> SampleOk(lineageGraph, samples[k])
      ensures forall k :: 0 <= k < |samples| ==> (samples[k].source, samples[k].target) in SearchPairs()
      ensures |samples| < maxSamples || samples == [] ==> Complete(lineageGraph, SearchPairs(), samples)
    {
      var stagingSources := FindStagingSources();
      var finalTargets := FindFinalTargets();
      var pairs := Product(stagingSources, finalTargets)[..Min(50, |stagingSources| * |finalTargets|)];
      assert pairs == SearchPairs();
      forall p | p in pairs ensures p.0 != p.1 {
        StagingNotFinal(columnMetadata, p.0);
      }
      samples := CollectSamples(lineageGraph, pairs, maxSamples);
    }

    /** The all-pairs search at end_to_end_lineage_tracer.py:236-269: every
        staging source with every final target, in `for` order. */
    method FindAllEndToEndLineages() returns (ls: seq<EndToEndLineage>)
      ensures forall k :: 0 <= k < |ls| ==> LineageOk(lineageGraph, columnMetadata.m, ls[k])
      ensures forall k :: 0 <= k < |ls| ==>
        ls[k].sourceColumn in Where(columnMetadata.keys, columnMetadata.m, IsStaging) &&
        ls[k].targetColumn in Where(columnMetadata.keys, columnMetadata.m, IsFinal)
      ensures forall s, t ::
        (s in Where(columnMetadata.keys, columnMetadata.m, IsStaging) &&
         t in Where(columnMetadata.keys, columnMetadata.m, IsFinal) &&
         Reachable(lineageGraph, s, t, 11)) ==> HasLineage(ls, s, t)
    {
      var stagingSources := FindStagingSources();
      var finalTargets := FindFinalTargets();
      var pairs := Product(stagingSources, finalTargets);
      forall p | p in pairs
        ensures p.0 != p.1 && p.0 in columnMetadata.m && p.1 in columnMetadata.m
        ensures p.0 in stagingSources && p.1 in finalTargets
      {
        ProductMembers(stagingSources, finalTargets, p.0, p.1);
        StagingNotFinal(columnMetadata, p.0);
      }
      ls := CollectLineages(lineageGraph, columnMetadata.m, pairs);
      forall s, t | s in stagingSources && t in finalTargets && Reachable(lineageGraph, s, t, 11)
        ensures HasLineage(ls, s, t)
      {
        ProductMembers(stagingSources, finalTargets, s, t);
        var i :| 0 <= i < |pairs| && pairs[i] == (s, t);
      }
    }

    /** The pairs the sample search tries, in order. */
    function SearchPairs(): (r: seq<(string, string)>)
      reads this
      ensures |r| <= 50
      ensures forall p :: p in r ==>
        p.0 in Where(columnMetadata.keys, columnMetadata.m, IsStaging) &&
        p.1 in Where(columnMetadata.keys, columnMetadata.m, IsFinal)
    {
      var sources := Where(columnMetadata.keys, columnMetadata.m, IsStaging);
      var targets := Where(columnMetadata.keys, columnMetadata.m, IsFinal);
      var all := Product(sources, targets);
      var r := all[..Min(50, |sources| * |targets|)];
      forall p | p in r ensures p.0 in sources && p.1 in targets {
        ProductMembers(sources, targets, p.0, p.1);
      }
      r
    }
  }
}
