/**
 * lineage_analyzer.py: a forward and a reverse column graph built from the
 * C# metadata, ultimate sources and targets found by recursion, all simple
 * paths between them found by breadth-first search, and the lineage
 * records and counters of `generate_end_to_end_lineages`.
 */
module LineageAnalyzer {
  import opened Strings
  import opened Common

  /** One metadata lineage entry. A missing field reads as "", as the
      `.get` calls that filter the temp-involved entries read it; a
      real-to-real entry with a missing field would stop the script with a
      `KeyError`, which is not modelled. */
  datatype MetaLineage = MetaLineage(sourceTable: string, sourceColumn: string,
                                     targetTable: string, targetColumn: string)

  function SourceKey(l: MetaLineage): string { l.sourceTable + "." + l.sourceColumn }
  function TargetKey(l: MetaLineage): string { l.targetTable + "." + l.targetColumn }

  /** All four fields are truthy. */
  predicate Complete(l: MetaLineage) {
    l.sourceTable != "" && l.sourceColumn != "" && l.targetTable != "" && l.targetColumn != ""
  }

  /** The `temp_involved` entries that are kept. */
  function CompleteOnly(ls: seq<MetaLineage>): (r: seq<MetaLineage>)
    ensures forall l :: l in r <==> l in ls && Complete(l)
  {
    if ls == [] then []
    else (if Complete(ls[0]) then [ls[0]] else []) + CompleteOnly(ls[1..])
  }

  /** The edges a list of lineages yields. */
  function Edges(ls: seq<MetaLineage>): set<(string, string)> {
    set l | l in ls :: (SourceKey(l), TargetKey(l))
  }

  lemma EdgesSnoc(ls: seq<MetaLineage>, i: nat)
    requires i < |ls|
    ensures Edges(ls[..i + 1]) == Edges(ls[..i]) + {(SourceKey(ls[i]), TargetKey(ls[i]))}
  {
    assert ls[..i + 1] == ls[..i] + [ls[i]];
  }

  /** `lineages`: every `real_to_real` entry, then the complete `temp_involved` ones. */
  function Ingested(realToReal: seq<MetaLineage>, tempInvolved: seq<MetaLineage>): (ls: seq<MetaLineage>)
    ensures forall l :: l in ls <==> l in realToReal || (l in tempInvolved && Complete(l))
  {
    realToReal + CompleteOnly(tempInvolved)
  }

  /** `g[a].add(b)` on a `defaultdict(set)`. */
  function Link(g: map<string, set<string>>, a: string, b: string): (r: map<string, set<string>>)
    ensures r.Keys == g.Keys + {a}
    ensures forall x, y :: y in TargetSet(r, x) <==> y in TargetSet(g, x) || (x, y) == (a, b)
  {
    g[a := TargetSet(g, a) + {b}]
  }

  /** Adding an edge that is already there changes nothing. */
  lemma LinkIdempotent(g: map<string, set<string>>, a: string, b: string)
    requires b in TargetSet(g, a)
    ensures Link(g, a, b) == g
  {
    assert g[a] + {b} == g[a];
  }

  /** `_is_temp_table`: a `#` name, or one of the listed aliases ignoring case. */
  const TempIndicators: seq<string> := ["#", "x", "j", "a", "r", "scores", "feerule", "feecalc", "bal",
                                        "needcheck", "slice", "map", "src", "joinmap", "net"]

  predicate IsTempTable(name: string) {
    StartsWith(name, "#") || Lower(name) in TempIndicators
  }

  /** `_is_temp_table` compares lower-cased names, so case does not matter. */
  lemma TempIgnoresCase(name: string)
    ensures IsTempTable(name) <==> StartsWith(name, "#") || IsTempTable(Lower(name))
  {
    LowerIdempotent(name);
  }

  datatype LineageCategory = RealToReal | RealToTemp | TempToReal | TempToTemp

  /** `_categorize_lineage`: the table is the text before the first dot. */
  function CategorizeLineage(source: string, target: string): (c: LineageCategory)
    ensures c == RealToReal <==> !IsTempTable(FirstSegment(source)) && !IsTempTable(FirstSegment(target))
    ensures c == TempToTemp <==> IsTempTable(FirstSegment(source)) && IsTempTable(FirstSegment(target))
    ensures c == RealToTemp <==> !IsTempTable(FirstSegment(source)) && IsTempTable(FirstSegment(target))
  {
    var s := IsTempTable(FirstSegment(source));
    var t := IsTempTable(FirstSegment(target));
    if !s && !t then RealToReal
    else if !s && t then RealToTemp
    else if s && !t then TempToReal
    else TempToTemp
  }

  // -------------------------------------------------- ultimate sources/targets

  /** `find_ultimate_sources` on the reverse graph and `find_ultimate_targets`
      on the forward graph: a column without edges in `g` is its own answer;
      otherwise the answers of its neighbours, each with its own copy of
      `visited`; a column seen before yields nothing. */
  function Ultimate(g: map<string, set<string>>, c: string, visited: set<string>): (r: set<string>)
    ensures forall x :: x in r ==> x !in g
    decreases |g.Keys - visited|
  {
    if c in visited then {}
    else if c !in g then {c}
    else
      var v := visited + {c};
      assert g.Keys - v == (g.Keys - visited) - {c};
      set x, n | n in g[c] && x in Ultimate(g, n, v) :: x
  }

  /** A walk the recursion follows: it starts outside `visited`, follows `g`,
      repeats no column, and ends at a column without edges. */
  predicate UltimateWalk(g: map<string, set<string>>, p: seq<string>, visited: set<string>) {
    |p| >= 1 && Simple(p) && FollowsSets(g, p) && p[|p| - 1] !in g &&
    forall i :: 0 <= i < |p| ==> p[i] !in visited
  }

  /** Completeness: the end of every such walk is found. */
  lemma {:induction false} UltimateComplete(g: map<string, set<string>>, p: seq<string>, visited: set<string>)
    requires UltimateWalk(g, p, visited)
    ensures p[|p| - 1] in Ultimate(g, p[0], visited)
    decreases |p|
  {
    if |p| > 1 {
      var q := p[1..];
      var v := visited + {p[0]};
      forall i | 0 <= i < |q| ensures q[i] !in v {
        assert q[i] == p[i + 1];
      }
      assert UltimateWalk(g, q, v);
      UltimateComplete(g, q, v);
      assert p[1] in g[p[0]];
    }
  }

  /** A walk from a neighbour extends back to `c`. */
  lemma PrependWalk(g: map<string, set<string>>, c: string, q: seq<string>, visited: set<string>)
    requires UltimateWalk(g, q, visited + {c}) && c in g && q[0] in g[c] && c !in visited
    ensures UltimateWalk(g, [c] + q, visited)
  {
    var p := [c] + q;
    forall i, j | 0 <= i < j < |p| ensures p[i] != p[j] {
      assert p[j] == q[j - 1];
      if i > 0 { assert p[i] == q[i - 1]; }
    }
    forall i | 0 <= i < |p| - 1 ensures p[i] in g && p[i + 1] in g[p[i]] {
      if i > 0 { assert p[i] == q[i - 1] && p[i + 1] == q[i]; }
    }
    forall i | 0 <= i < |p| ensures p[i] !in visited {
      if i > 0 { assert p[i] == q[i - 1]; }
    }
  }

  /** Soundness: everything found ends such a walk from `c`. */
  lemma {:induction false} UltimateSound(g: map<string, set<string>>, c: string, visited: set<string>, x: string)
    requires x in Ultimate(g, c, visited)
    ensures exists p :: UltimateWalk(g, p, visited) && p[0] == c && p[|p| - 1] == x
    decreases |g.Keys - visited|
  {
    assert c !in visited;
    if c !in g {
      assert UltimateWalk(g, [c], visited);
    } else {
      var v := visited + {c};
      assert g.Keys - v == (g.Keys - visited) - {c};
      var n :| n in g[c] && x in Ultimate(g, n, v);
      UltimateSound(g, n, v, x);
      var q :| UltimateWalk(g, q, v) && q[0] == n && q[|q| - 1] == x;
      PrependWalk(g, c, q, visited);
      assert ([c] + q)[|q|] == x;
    }
  }

  // ----------------------------------------------------------------- paths

  /** A path `find_paths` may report: from `source` to `target`, along the
      forward graph, no column twice, at most `maxDepth + 1` columns. */
  predicate FoundPath(g: map<string, set<string>>, p: seq<string>, source: string, target: string, maxDepth: nat) {
    2 <= |p| <= maxDepth + 1 && p[0] == source && p[|p| - 1] == target &&
    Simple(p) && FollowsSets(g, p)
  }

  /** A path still in the queue: from `source`, along the graph, no column
      twice, not yet at `target`. */
  predicate Pending(g: map<string, set<string>>, p: seq<string>, source: string, target: string) {
    |p| >= 1 && p[0] == source && Simple(p) && FollowsSets(g, p) && target !in p
  }

  lemma ExtendPending(g: map<string, set<string>>, p: seq<string>, nx: string, source: string, target: string)
    requires Pending(g, p, source, target) && p[|p| - 1] in g && nx in g[p[|p| - 1]] && nx !in p
    ensures nx != target ==> Pending(g, p + [nx], source, target)
    ensures Simple(p + [nx]) && FollowsSets(g, p + [nx]) && (p + [nx])[0] == source
  {
    var q := p + [nx];
    forall i, j | 0 <= i < j < |q| ensures q[i] != q[j] {
      if j < |p| { assert q[i] == p[i] && q[j] == p[j]; }
      else { assert q[i] == p[i]; }
    }
    forall i | 0 <= i < |q| - 1 ensures q[i] in g && q[i + 1] in g[q[i]] {
      assert q[i] == p[i];
      if i + 1 < |p| { assert q[i + 1] == p[i + 1]; }
    }
  }

  /** The prefix of a reportable path is a pending path. */
  lemma PrefixPending(g: map<string, set<string>>, p: seq<string>, k: nat, source: string, target: string)
    requires Simple(p) && FollowsSets(g, p) && |p| >= 1 && p[0] == source && p[|p| - 1] == target
    requires 1 <= k < |p|
    ensures Pending(g, p[..k], source, target)
  {
    var q := p[..k];
    forall i, j | 0 <= i < j < |q| ensures q[i] != q[j] { assert q[i] == p[i] && q[j] == p[j]; }
    forall i | 0 <= i < |q| - 1 ensures q[i] in g && q[i + 1] in g[q[i]] { assert q[i] == p[i] && q[i + 1] == p[i + 1]; }
    forall i | 0 <= i < |q| ensures q[i] != target { assert q[i] == p[i] && p[i] != p[|p| - 1]; }
  }

  /** The complete paths of length `n`. */
  predicate FoundOfLength(g: map<string, set<string>>, p: seq<string>, source: string, target: string, maxDepth: nat, n: nat) {
    FoundPath(g, p, source, target, maxDepth) && |p| == n
  }

  /** One record of `generate_end_to_end_lineages`. */
  datatype EndToEnd = EndToEnd(source: string, target: string,
                               sourceTable: string, sourceColumn: string,
                               targetTable: string, targetColumn: string,
                               category: LineageCategory, isDirect: bool,
                               shortestPath: seq<string>, pathLength: int,
                               allPaths: seq<seq<string>>, pathCount: nat)

  datatype Statistics = Statistics(totalLineages: nat, directLineages: nat, indirectLineages: nat,
                                   realToRealCount: nat, tempInvolvedCount: nat,
                                   ultimateSources: nat, ultimateTargets: nat, totalColumns: nat)

  datatype Results = Results(direct: seq<EndToEnd>, indirect: seq<EndToEnd>,
                             realToReal: seq<EndToEnd>, tempInvolved: seq<EndToEnd>, stats: Statistics)

  /** `min(paths, key=len)`: the first of the shortest paths. */
  function Shortest(paths: seq<seq<string>>): (r: seq<string>)
    requires paths != []
    ensures r in paths && forall p :: p in paths ==> |r| <= |p|
    ensures exists k :: 0 <= k < |paths| && r == paths[k] && forall j :: 0 <= j < k ==> |r| < |paths[j]|
  {
    if |paths| == 1 then paths[0]
    else
      var m := Shortest(paths[1..]);
      if |m| < |paths[0]| then
        assert forall p :: p in paths ==> p == paths[0] || p in paths[1..];
        var k :| 0 <= k < |paths[1..]| && m == paths[1..][k] && forall j :: 0 <= j < k ==> |m| < |paths[1..][j]|;
        assert m == paths[k + 1] && forall j :: 0 <= j < k + 1 ==> |m| < |paths[j]|;
        m
      else
        assert forall p :: p in paths ==> p == paths[0] || p in paths[1..];
        paths[0]
  }

  /** `find_paths` is always called with its default bound. */
  const MaxDepth: nat := 15

  /** What `find_paths` returns for two different columns, up to the order
      of paths of equal length: every reportable path exactly once, shortest
      first. */
  ghost predicate PathList(g: map<string, set<string>>, paths: seq<seq<string>>, source: string, target: string) {
    Simple(paths) &&
    (forall p :: p in paths <==> FoundPath(g, p, source, target, MaxDepth)) &&
    (forall i, j :: 0 <= i < j < |paths| ==> |paths[i]| <= |paths[j]|)
  }

  /** A record is the one `generate_end_to_end_lineages` builds for an
      ultimate source and an ultimate target: its name halves are split at
      the first dot, its category comes from its ends, and its paths come
      from a listing of them as `find_paths` returns it, whose first path is
      the shortest, whose first five are kept and which is counted. */
  ghost predicate LineageOk(forward: map<string, set<string>>, reverse: map<string, set<string>>, l: EndToEnd) {
    l.source !in reverse && l.target !in forward &&
    l.sourceTable + "." + l.sourceColumn == l.source && '.' !in l.sourceTable &&
    l.targetTable + "." + l.targetColumn == l.target && '.' !in l.targetTable &&
    l.category == CategorizeLineage(l.source, l.target) &&
    (l.isDirect <==> |l.shortestPath| == 2) && l.pathLength == |l.shortestPath| - 1 &&
    exists paths :: Listing(forward, l, paths)
  }

  /** `l` holds the paths of `paths`, a listing of the paths between its
      ends. */
  ghost predicate Listing(forward: map<string, set<string>>, l: EndToEnd, paths: seq<seq<string>>) {
    paths != [] && PathList(forward, paths, l.source, l.target) &&
    l.shortestPath == paths[0] && l.allPaths == paths[..if |paths| < 5 then |paths| else 5] && l.pathCount == |paths|
  }

  /** What a record says about the graph: its shortest path is a reportable
      path that no reportable path beats, and its length is that path's
      number of steps; it is direct exactly when the source has an edge to
      the target; it lists up to five distinct reportable paths, shortest
      first, leaving out none shorter than the last it lists; and its count
      is the number of reportable paths, however they are listed. */
  lemma LineageFacts(forward: map<string, set<string>>, reverse: map<string, set<string>>, l: EndToEnd)
    requires LineageOk(forward, reverse, l)
    ensures FoundPath(forward, l.shortestPath, l.source, l.target, MaxDepth)
    ensures forall p :: FoundPath(forward, p, l.source, l.target, MaxDepth) ==> |l.shortestPath| <= |p|
    ensures l.pathLength == |l.shortestPath| - 1 >= 1
    ensures l.isDirect <==> l.target in TargetSet(forward, l.source)
    ensures |l.allPaths| == (if l.pathCount < 5 then l.pathCount else 5) && l.allPaths[0] == l.shortestPath
    ensures Simple(l.allPaths) && forall p :: p in l.allPaths ==> FoundPath(forward, p, l.source, l.target, MaxDepth)
    ensures forall p :: FoundPath(forward, p, l.source, l.target, MaxDepth) && |p| < |l.allPaths[|l.allPaths| - 1]| ==>
      p in l.allPaths
    ensures forall paths :: PathList(forward, paths, l.source, l.target) ==> |paths| == l.pathCount
  {
    var paths :| Listing(forward, l, paths);
    var m := if |paths| < 5 then |paths| else 5;
    FirstFive(forward, paths, l.source, l.target, m);
    DirectEdge(forward, paths[0], l.source, l.target);
    forall ps | PathList(forward, ps, l.source, l.target) ensures |ps| == |paths| {
      SameMembersSameLength(ps, paths);
    }
  }

  /** On a list in non-decreasing length, `min(paths, key=len)` is the first. */
  lemma ShortestOfOrdered(paths: seq<seq<string>>)
    requires paths != [] && forall i, j :: 0 <= i < j < |paths| ==> |paths[i]| <= |paths[j]|
    ensures Shortest(paths) == paths[0]
  {
    var sp := Shortest(paths);
    var k :| 0 <= k < |paths| && sp == paths[k] && forall j :: 0 <= j < k ==> |sp| < |paths[j]|;
  }

  /** The first path of a listing is no longer than any reportable path; the
      first `m` are distinct reportable paths, and no reportable path shorter
      than the last of them is left out. */
  lemma FirstFive(g: map<string, set<string>>, paths: seq<seq<string>>, source: string, target: string, m: nat)
    requires PathList(g, paths, source, target) && 1 <= m <= |paths| && (m < |paths| ==> m == 5)
    ensures FoundPath(g, paths[0], source, target, MaxDepth)
    ensures forall p :: FoundPath(g, p, source, target, MaxDepth) ==> |paths[0]| <= |p|
    ensures Simple(paths[..m]) && (forall p :: p in paths[..m] ==> FoundPath(g, p, source, target, MaxDepth))
    ensures forall p :: FoundPath(g, p, source, target, MaxDepth) && |p| < |paths[m - 1]| ==> p in paths[..m]
  {
    assert paths[0] in paths;
    forall p | FoundPath(g, p, source, target, MaxDepth) ensures |paths[0]| <= |p| {
      var i :| 0 <= i < |paths| && paths[i] == p;
      if i > 0 {
        assert |paths[0]| <= |paths[i]|;
      }
    }
    var a := paths[..m];
    forall i, j | 0 <= i < j < m ensures a[i] != a[j] {
      assert a[i] == paths[i] && a[j] == paths[j];
    }
    forall p | p in a ensures FoundPath(g, p, source, target, MaxDepth) {
      var i :| 0 <= i < m && a[i] == p;
      assert paths[i] in paths;
    }
    forall p | FoundPath(g, p, source, target, MaxDepth) && |p| < |paths[m - 1]|
      ensures p in a
    {
      var i :| 0 <= i < |paths| && paths[i] == p;
      assert i < m;
      assert a[i] == p;
    }
  }

  /** A shortest reportable path has one step exactly when the source has an
      edge to the target. */
  lemma DirectEdge(g: map<string, set<string>>, sp: seq<string>, source: string, target: string)
    requires FoundPath(g, sp, source, target, MaxDepth)
    requires forall p :: FoundPath(g, p, source, target, MaxDepth) ==> |sp| <= |p|
    ensures |sp| == 2 <==> target in TargetSet(g, source)
  {
    assert sp[0] != sp[|sp| - 1];
    if target in TargetSet(g, source) {
      assert FoundPath(g, [source, target], source, target, MaxDepth);
    }
  }

  /** `s` and `t` are joined by a path only if some record is about them. */
  ghost predicate Covered(forward: map<string, set<string>>, recs: seq<EndToEnd>, s: string, t: string) {
    (exists p :: FoundPath(forward, p, s, t, MaxDepth)) ==>
      exists l :: l in recs && l.source == s && l.target == t
  }

  /** Filing more records keeps every pair covered. */
  lemma CoveredGrows(forward: map<string, set<string>>, recs: seq<EndToEnd>, more: seq<EndToEnd>)
    requires forall x :: x in recs ==> x in more
    ensures forall s, t :: Covered(forward, recs, s, t) ==> Covered(forward, more, s, t)
  {
    forall s, t | Covered(forward, recs, s, t) ensures Covered(forward, more, s, t) {
      if exists p :: FoundPath(forward, p, s, t, MaxDepth) {
        var x :| x in recs && x.source == s && x.target == t;
        assert x in more;
      }
    }
  }

  /** No two records are about the same source and target. */
  predicate PairsUnique(recs: seq<EndToEnd>) {
    forall i, j :: 0 <= i < j < |recs| ==> recs[i].source != recs[j].source || recs[i].target != recs[j].target
  }

  /** No pair has a record in both lists. */
  predicate PairsApart(a: seq<EndToEnd>, b: seq<EndToEnd>) {
    forall x, y :: x in a && y in b ==> x.source != y.source || x.target != y.target
  }

  /** Two lists without a repeated pair, and without a pair in both, join
      into one list without a repeated pair. */
  lemma PairsUniqueJoin(a: seq<EndToEnd>, b: seq<EndToEnd>)
    requires PairsUnique(a) && PairsUnique(b) && PairsApart(a, b)
    ensures PairsUnique(a + b)
  {
    forall i, j | 0 <= i < j < |a + b|
      ensures (a + b)[i].source != (a + b)[j].source || (a + b)[i].target != (a + b)[j].target
    {
      if j < |a| {
      } else if i >= |a| {
        assert (a + b)[i] == b[i - |a|] && (a + b)[j] == b[j - |a|];
      } else {
        assert (a + b)[i] in a && (a + b)[j] == b[j - |a|];
      }
    }
  }

  /** A record about a new pair keeps a list free of repeated pairs. */
  lemma PairsUniqueSnoc(a: seq<EndToEnd>, l: EndToEnd)
    requires PairsUnique(a)
    requires forall x :: x in a ==> x.source != l.source || x.target != l.target
    ensures PairsUnique(a + [l])
  {
    forall i, j | 0 <= i < j < |a + [l]|
      ensures (a + [l])[i].source != (a + [l])[j].source || (a + [l])[i].target != (a + [l])[j].target
    {
      if j == |a| {
        assert (a + [l])[i] in a;
      }
    }
  }

  /** Every record filed so far is sound and sits in the right lists, the
      category lists hold the same records as the direct and indirect ones,
      no pair has two records, and the counters agree with the lists. */
  ghost predicate Filed(forward: map<string, set<string>>, reverse: map<string, set<string>>, allColumns: set<string>,
                  direct: seq<EndToEnd>, indirect: seq<EndToEnd>, realToReal: seq<EndToEnd>, tempInvolved: seq<EndToEnd>,
                  total: nat, directCount: nat, indirectCount: nat) {
    (forall l :: l in direct + indirect ==> LineageOk(forward, reverse, l) && l.source in allColumns && l.target in allColumns) &&
    (forall l :: l in direct ==> l.isDirect) &&
    (forall l :: l in indirect ==> !l.isDirect) &&
    (forall l :: l in realToReal ==> l.category == RealToReal) &&
    (forall l :: l in tempInvolved ==> l.category != RealToReal) &&
    multiset(realToReal + tempInvolved) == multiset(direct + indirect) &&
    PairsUnique(direct) && PairsUnique(indirect) && PairsApart(direct, indirect) &&
    total == directCount + indirectCount == |realToReal| + |tempInvolved| &&
    directCount == |direct| && indirectCount == |indirect|
  }

  lemma FiledGrows(forward: map<string, set<string>>, reverse: map<string, set<string>>, allColumns: set<string>,
                   direct: seq<EndToEnd>, indirect: seq<EndToEnd>, realToReal: seq<EndToEnd>, tempInvolved: seq<EndToEnd>,
                   total: nat, directCount: nat, indirectCount: nat, l: EndToEnd,
                   direct': seq<EndToEnd>, indirect': seq<EndToEnd>, realToReal': seq<EndToEnd>, tempInvolved': seq<EndToEnd>)
    requires Filed(forward, reverse, allColumns, direct, indirect, realToReal, tempInvolved, total, directCount, indirectCount)
    requires LineageOk(forward, reverse, l) && l.source in allColumns && l.target in allColumns
    requires forall x :: x in direct + indirect ==> x.source != l.source || x.target != l.target
    requires direct' == if l.isDirect then direct + [l] else direct
    requires indirect' == if l.isDirect then indirect else indirect + [l]
    requires realToReal' == if l.category == RealToReal then realToReal + [l] else realToReal
    requires tempInvolved' == if l.category == RealToReal then tempInvolved else tempInvolved + [l]
    ensures Filed(forward, reverse, allColumns, direct', indirect', realToReal', tempInvolved', total + 1,
                  if l.isDirect then directCount + 1 else directCount, if l.isDirect then indirectCount else indirectCount + 1)
  {
    FiledKinds(direct, indirect, realToReal, tempInvolved, l, direct', indirect', realToReal', tempInvolved');
    RecordsOkGrow(forward, reverse, allColumns, direct + indirect, l, direct' + indirect');
    FiledPairs(direct, indirect, l, direct', indirect');
    SameRecordsGrow(direct, indirect, l, direct', indirect');
    SameRecordsGrow(realToReal, tempInvolved, l, realToReal', tempInvolved');
  }

  /** Filing a record keeps each list to its kind, and adds the record to
      the direct and indirect lists together. */
  lemma FiledKinds(direct: seq<EndToEnd>, indirect: seq<EndToEnd>, realToReal: seq<EndToEnd>, tempInvolved: seq<EndToEnd>,
                   l: EndToEnd, direct': seq<EndToEnd>, indirect': seq<EndToEnd>, realToReal': seq<EndToEnd>, tempInvolved': seq<EndToEnd>)
    requires (forall x :: x in direct ==> x.isDirect) && (forall x :: x in indirect ==> !x.isDirect)
    requires (forall x :: x in realToReal ==> x.category == RealToReal) && (forall x :: x in tempInvolved ==> x.category != RealToReal)
    requires direct' == if l.isDirect then direct + [l] else direct
    requires indirect' == if l.isDirect then indirect else indirect + [l]
    requires realToReal' == if l.category == RealToReal then realToReal + [l] else realToReal
    requires tempInvolved' == if l.category == RealToReal then tempInvolved else tempInvolved + [l]
    ensures (forall x :: x in direct' ==> x.isDirect) && (forall x :: x in indirect' ==> !x.isDirect)
    ensures (forall x :: x in realToReal' ==> x.category == RealToReal) && (forall x :: x in tempInvolved' ==> x.category != RealToReal)
    ensures forall x :: x in direct' + indirect' ==> x in direct + indirect || x == l
    ensures |direct'| + |indirect'| == |direct| + |indirect| + 1 && |realToReal'| + |tempInvolved'| == |realToReal| + |tempInvolved| + 1
  {
  }

  /** One more sound record keeps every record sound. */
  lemma RecordsOkGrow(forward: map<string, set<string>>, reverse: map<string, set<string>>, allColumns: set<string>,
                      recs: seq<EndToEnd>, l: EndToEnd, recs': seq<EndToEnd>)
    requires forall x :: x in recs ==> LineageOk(forward, reverse, x) && x.source in allColumns && x.target in allColumns
    requires LineageOk(forward, reverse, l) && l.source in allColumns && l.target in allColumns
    requires forall x :: x in recs' ==> x in recs || x == l
    ensures forall x :: x in recs' ==> LineageOk(forward, reverse, x) && x.source in allColumns && x.target in allColumns
  {
  }

  /** Filing a record about a new pair keeps every pair on one record. */
  lemma FiledPairs(direct: seq<EndToEnd>, indirect: seq<EndToEnd>, l: EndToEnd,
                   direct': seq<EndToEnd>, indirect': seq<EndToEnd>)
    requires PairsUnique(direct) && PairsUnique(indirect) && PairsApart(direct, indirect)
    requires forall x :: x in direct + indirect ==> x.source != l.source || x.target != l.target
    requires direct' == if l.isDirect then direct + [l] else direct
    requires indirect' == if l.isDirect then indirect else indirect + [l]
    ensures PairsUnique(direct') && PairsUnique(indirect') && PairsApart(direct', indirect')
  {
    if l.isDirect {
      PairsUniqueSnoc(direct, l);
    } else {
      PairsUniqueSnoc(indirect, l);
    }
  }

  /** Appending a record to one of two lists adds it once to their union. */
  lemma SameRecordsGrow(a: seq<EndToEnd>, b: seq<EndToEnd>, l: EndToEnd, a': seq<EndToEnd>, b': seq<EndToEnd>)
    requires (a' == a + [l] && b' == b) || (a' == a && b' == b + [l])
    ensures multiset(a' + b') == multiset(a + b) + multiset{l}
  {
    if a' == a + [l] && b' == b {
      assert a' + b' == a + [l] + b;
    } else {
      assert a' + b' == (a + b) + [l];
    }
  }

  /** A record is filed as direct exactly when its source has an edge to its
      target. */
  lemma FiledByEdge(forward: map<string, set<string>>, reverse: map<string, set<string>>, allColumns: set<string>,
                    direct: seq<EndToEnd>, indirect: seq<EndToEnd>, realToReal: seq<EndToEnd>, tempInvolved: seq<EndToEnd>,
                    total: nat, directCount: nat, indirectCount: nat)
    requires Filed(forward, reverse, allColumns, direct, indirect, realToReal, tempInvolved, total, directCount, indirectCount)
    ensures forall l :: l in direct ==> l.target in TargetSet(forward, l.source)
    ensures forall l :: l in indirect ==> l.target !in TargetSet(forward, l.source)
  {
    forall l | l in direct + indirect ensures l.isDirect <==> l.target in TargetSet(forward, l.source) {
      LineageFacts(forward, reverse, l);
    }
  }

  /** The two graphs are mirror images, neither keeps an empty entry, and
      `all_columns` is exactly the set of edge ends, each a dotted name. */
  ghost predicate GraphsOk(forward: map<string, set<string>>, reverse: map<string, set<string>>, allColumns: set<string>) {
    (forall s, t :: t in TargetSet(forward, s) <==> s in TargetSet(reverse, t)) &&
    (forall s :: s in forward ==> forward[s] != {}) &&
    (forall t :: t in reverse ==> reverse[t] != {}) &&
    allColumns == forward.Keys + reverse.Keys &&
    (forall c :: c in allColumns ==> '.' in c)
  }

  /** One iteration of the graph-building loop keeps the invariant. */
  lemma AddEdge(forward: map<string, set<string>>, reverse: map<string, set<string>>, allColumns: set<string>,
                source: string, target: string)
    requires GraphsOk(forward, reverse, allColumns) && '.' in source && '.' in target
    ensures GraphsOk(Link(forward, source, target), Link(reverse, target, source), allColumns + {source, target})
  {
  }

  lemma KeysDotted(l: MetaLineage)
    ensures '.' in SourceKey(l) && '.' in TargetKey(l)
  {
    assert SourceKey(l)[|l.sourceTable|] == '.';
    assert TargetKey(l)[|l.targetTable|] == '.';
  }

  /** The loop of `_build_lineage_graph`. */
  method BuildGraphs(lineages: seq<MetaLineage>)
    returns (forward: map<string, set<string>>, reverse: map<string, set<string>>, allColumns: set<string>)
    ensures GraphsOk(forward, reverse, allColumns)
    ensures forall s, t :: t in TargetSet(forward, s) <==> (s, t) in Edges(lineages)
  {
    forward, reverse, allColumns := map[], map[], {};
    var i := 0;
    while i < |lineages|
      invariant 0 <= i <= |lineages|
      invariant GraphsOk(forward, reverse, allColumns)
      invariant forall s, t :: t in TargetSet(forward, s) <==> (s, t) in Edges(lineages[..i])
    {
      var source := SourceKey(lineages[i]);
      var target := TargetKey(lineages[i]);
      KeysDotted(lineages[i]);
      AddEdge(forward, reverse, allColumns, source, target);
      forward := Link(forward, source, target);
      reverse := Link(reverse, target, source);
      allColumns := allColumns + {source, target};
      EdgesSnoc(lineages, i);
      i := i + 1;
    }
    assert lineages[..i] == lineages;
  }

  class Analyzer {
    var forward: map<string, set<string>>
    var reverse: map<string, set<string>>
    var allColumns: set<string>

    ghost predicate Valid()
      reads this
    {
      GraphsOk(forward, reverse, allColumns)
    }

    /** `_build_lineage_graph`: one forward and one reverse edge per ingested
        lineage. */
    constructor(realToReal: seq<MetaLineage>, tempInvolved: seq<MetaLineage>)
      ensures Valid()
      ensures forall s, t :: t in TargetSet(forward, s) <==> (s, t) in Edges(Ingested(realToReal, tempInvolved))
    {
      var f, r, cols := BuildGraphs(Ingested(realToReal, tempInvolved));
      forward, reverse, allColumns := f, r, cols;
    }

    /** Under the invariant no column is both an ultimate source and an
        ultimate target: it would have no edge at all. */
    lemma SourcesAndTargetsDisjoint(c: string)
      requires Valid() && c in allColumns
      ensures c in forward || c in reverse
    {
    }

    /** The first loop of `generate_end_to_end_lineages`: columns without
        incoming edges and columns without outgoing edges. */
    method UltimateColumns() returns (sources: set<string>, targets: set<string>)
      ensures forall c :: c in sources <==> c in allColumns && c !in reverse
      ensures forall c :: c in targets <==> c in allColumns && c !in forward
    {
      var columns := Members(allColumns);
      sources, targets := {}, {};
      var i := 0;
      while i < |columns|
        invariant 0 <= i <= |columns|
        invariant forall c :: c in sources <==> c in columns[..i] && c !in reverse
        invariant forall c :: c in targets <==> c in columns[..i] && c !in forward
      {
        assert columns[..i + 1] == columns[..i] + [columns[i]];
        if columns[i] !in reverse {
          sources := sources + {columns[i]};
        }
        if columns[i] !in forward {
          targets := targets + {columns[i]};
        }
        i := i + 1;
      }
      assert columns[..i] == columns;
    }

    /** The body of the inner loop for one source and one target: a record
        exactly when some path joins them. */
    method PairLineage(source: string, target: string) returns (r: Option<EndToEnd>)
      requires Valid() && source in allColumns && source !in reverse && target in allColumns && target !in forward
      ensures r.Some? <==> exists p :: FoundPath(forward, p, source, target, MaxDepth)
      ensures r.Some? ==> LineageOk(forward, reverse, r.value) && r.value.source == source && r.value.target == target
    {
      SourcesAndTargetsDisjoint(source);
      var paths := FindPaths(source, target, MaxDepth);
      if paths == [] {
        return None;
      }
      ShortestOfOrdered(paths);
      var shortest := Shortest(paths);
      var (st, sc) := SplitDot(source);
      var (tt, tc) := SplitDot(target);
      r := Some(EndToEnd(source, target, st, sc, tt, tc,
                         CategorizeLineage(source, target), |shortest| == 2, shortest,
                         |shortest| - 1, paths[..if |paths| < 5 then |paths| else 5], |paths|));
      assert Listing(forward, r.value, paths);
    }

    /** Filing one record: direct or indirect by its shortest path, and
        real-to-real or temp-involved by its category. */
    static method FileLineage(l: EndToEnd, direct: seq<EndToEnd>, indirect: seq<EndToEnd>,
                              realToReal: seq<EndToEnd>, tempInvolved: seq<EndToEnd>)
      returns (direct': seq<EndToEnd>, indirect': seq<EndToEnd>, realToReal': seq<EndToEnd>, tempInvolved': seq<EndToEnd>)
      ensures direct' == if l.isDirect then direct + [l] else direct
      ensures indirect' == if l.isDirect then indirect else indirect + [l]
      ensures realToReal' == if l.category == RealToReal then realToReal + [l] else realToReal
      ensures tempInvolved' == if l.category == RealToReal then tempInvolved else tempInvolved + [l]
      ensures l in direct' + indirect'
      ensures forall x :: x in direct' + indirect' <==> x in direct + indirect || x == l
    {
      direct', indirect', realToReal', tempInvolved' := direct, indirect, realToReal, tempInvolved;
      if l.isDirect {
        direct' := direct + [l];
      } else {
        indirect' := indirect + [l];
      }
      if l.category == RealToReal {
        realToReal' := realToReal + [l];
      } else {
        tempInvolved' := tempInvolved + [l];
      }
    }

    /** `generate_end_to_end_lineages`: for every ultimate source and every
        ultimate target joined by at least one path, one record built from
        the shortest path, filed as direct or indirect and as real-to-real
        or temp-involved, with the counters. */
    method GenerateEndToEnd() returns (res: Results)
      requires Valid()
      ensures forall l :: l in res.direct + res.indirect ==> LineageOk(forward, reverse, l) && l.source in allColumns && l.target in allColumns
      ensures forall l :: l in res.direct ==> l.isDirect
      ensures forall l :: l in res.indirect ==> !l.isDirect
      ensures forall l :: l in res.direct ==> l.target in TargetSet(forward, l.source)
      ensures forall l :: l in res.indirect ==> l.target !in TargetSet(forward, l.source)
      ensures forall l :: l in res.realToReal ==> l.category == RealToReal
      ensures forall l :: l in res.tempInvolved ==> l.category != RealToReal
      ensures res.stats.totalLineages == res.stats.directLineages + res.stats.indirectLineages
      ensures res.stats.totalLineages == res.stats.realToRealCount + res.stats.tempInvolvedCount
      ensures res.stats.directLineages == |res.direct| && res.stats.indirectLineages == |res.indirect|
      ensures res.stats.realToRealCount == |res.realToReal| && res.stats.tempInvolvedCount == |res.tempInvolved|
      ensures res.stats.ultimateSources == |set c | c in allColumns && c !in reverse|
      ensures res.stats.ultimateTargets == |set c | c in allColumns && c !in forward|
      ensures res.stats.totalColumns == |allColumns|
      ensures multiset(res.realToReal + res.tempInvolved) == multiset(res.direct + res.indirect)
      ensures PairsUnique(res.direct + res.indirect)
      ensures forall s, t :: s in allColumns && s !in reverse && t in allColumns && t !in forward ==>
        Covered(forward, res.direct + res.indirect, s, t)
    {
      var sources, targets := UltimateColumns();
      assert sources == set c | c in allColumns && c !in reverse;
      assert targets == set c | c in allColumns && c !in forward;
      var direct: seq<EndToEnd>, indirect: seq<EndToEnd> := [], [];
      var realToReal: seq<EndToEnd>, tempInvolved: seq<EndToEnd> := [], [];
      var total, directCount, indirectCount := 0, 0, 0;
      var srcs := Members(sources);
      var tgts := Members(targets);
      var a := 0;
      while a < |srcs|
        invariant 0 <= a <= |srcs|
        invariant Filed(forward, reverse, allColumns, direct, indirect, realToReal, tempInvolved, total, directCount, indirectCount)
        invariant forall s, t :: s in srcs[..a] && t in targets ==> Covered(forward, direct + indirect, s, t)
        invariant forall x :: x in direct + indirect ==> x.source in srcs[..a]
      {
        var source := srcs[a];
        TakeSnoc(srcs, a);
        ghost var before := direct + indirect;
        direct, indirect, realToReal, tempInvolved, total, directCount, indirectCount :=
          FileSource(source, tgts, direct, indirect, realToReal, tempInvolved, total, directCount, indirectCount);
        CoveredGrows(forward, before, direct + indirect);
        forall s, t | s in srcs[..a + 1] && t in targets
          ensures Covered(forward, direct + indirect, s, t)
        {
          if s != source {
            assert s in srcs[..a];
          }
        }
        a := a + 1;
      }
      assert srcs[..a] == srcs;
      PairsUniqueJoin(direct, indirect);
      FiledByEdge(forward, reverse, allColumns, direct, indirect, realToReal, tempInvolved, total, directCount, indirectCount);
      res := Results(direct, indirect, realToReal, tempInvolved,
                     Statistics(total, directCount, indirectCount, |realToReal|, |tempInvolved|,
                                |sources|, |targets|, |allColumns|));
    }

    /** The inner loop of `generate_end_to_end_lineages`: one source against
        every ultimate target in turn. */
    method FileSource(source: string, tgts: seq<string>, direct: seq<EndToEnd>, indirect: seq<EndToEnd>,
                      realToReal: seq<EndToEnd>, tempInvolved: seq<EndToEnd>, total: nat, directCount: nat, indirectCount: nat)
      returns (direct': seq<EndToEnd>, indirect': seq<EndToEnd>, realToReal': seq<EndToEnd>, tempInvolved': seq<EndToEnd>,
               total': nat, directCount': nat, indirectCount': nat)
      requires Valid() && source in allColumns && source !in reverse
      requires forall t :: t in tgts ==> t in allColumns && t !in forward
      requires Simple(tgts)
      requires forall x :: x in direct + indirect ==> x.source != source
      requires Filed(forward, reverse, allColumns, direct, indirect, realToReal, tempInvolved, total, directCount, indirectCount)
      ensures Filed(forward, reverse, allColumns, direct', indirect', realToReal', tempInvolved', total', directCount', indirectCount')
      ensures forall x :: x in direct + indirect ==> x in direct' + indirect'
      ensures forall t :: t in tgts ==> Covered(forward, direct' + indirect', source, t)
      ensures forall x :: x in direct' + indirect' ==> x in direct + indirect || (x.source == source && x.target in tgts)
    {
      direct', indirect', realToReal', tempInvolved' := direct, indirect, realToReal, tempInvolved;
      total', directCount', indirectCount' := total, directCount, indirectCount;
      var b := 0;
      while b < |tgts|
        invariant 0 <= b <= |tgts|
        invariant Filed(forward, reverse, allColumns, direct', indirect', realToReal', tempInvolved', total', directCount', indirectCount')
        invariant forall x :: x in direct + indirect ==> x in direct' + indirect'
        invariant forall t :: t in tgts[..b] ==> Covered(forward, direct' + indirect', source, t)
        invariant forall x :: x in direct' + indirect' ==> x in direct + indirect || (x.source == source && x.target in tgts[..b])
      {
        ghost var before := direct' + indirect';
        assert tgts[b] in tgts;
        direct', indirect', realToReal', tempInvolved', total', directCount', indirectCount' :=
          FileTarget(source, tgts[b], direct', indirect', realToReal', tempInvolved', total', directCount', indirectCount');
        CoveredGrows(forward, before, direct' + indirect');
        TakeSnoc(tgts, b);
        b := b + 1;
      }
      assert tgts[..b] == tgts;
    }

    /** The body of the inner loop: the record for `source` and `target`, if
        any, is filed and counted. */
    method FileTarget(source: string, target: string, direct: seq<EndToEnd>, indirect: seq<EndToEnd>,
                      realToReal: seq<EndToEnd>, tempInvolved: seq<EndToEnd>, total: nat, directCount: nat, indirectCount: nat)
      returns (direct': seq<EndToEnd>, indirect': seq<EndToEnd>, realToReal': seq<EndToEnd>, tempInvolved': seq<EndToEnd>,
               total': nat, directCount': nat, indirectCount': nat)
      requires Valid() && source in allColumns && source !in reverse && target in allColumns && target !in forward
      requires forall x :: x in direct + indirect ==> x.source != source || x.target != target
      requires Filed(forward, reverse, allColumns, direct, indirect, realToReal, tempInvolved, total, directCount, indirectCount)
      ensures Filed(forward, reverse, allColumns, direct', indirect', realToReal', tempInvolved', total', directCount', indirectCount')
      ensures forall x :: x in direct + indirect ==> x in direct' + indirect'
      ensures forall x :: x in direct' + indirect' ==> x in direct + indirect || (x.source == source && x.target == target)
      ensures Covered(forward, direct' + indirect', source, target)
    {
      direct', indirect', realToReal', tempInvolved' := direct, indirect, realToReal, tempInvolved;
      total', directCount', indirectCount' := total, directCount, indirectCount;
      var r := PairLineage(source, target);
      if r.Some? {
        direct', indirect', realToReal', tempInvolved' := FileLineage(r.value, direct, indirect, realToReal, tempInvolved);
        FiledGrows(forward, reverse, allColumns, direct, indirect, realToReal, tempInvolved,
                   total, directCount, indirectCount, r.value, direct', indirect', realToReal', tempInvolved');
        if r.value.isDirect {
          directCount' := directCount + 1;
        } else {
          indirectCount' := indirectCount + 1;
        }
        total' := total + 1;
      }
    }

    /** `find_paths`: every simple path from `source` to `target` along the
        forward graph with at most `maxDepth + 1` columns, shortest first;
        `[[source]]` when the two are equal. The deque is processed one
        path length at a time, which visits paths in the same order. */
    method FindPaths(source: string, target: string, maxDepth: nat) returns (paths: seq<seq<string>>)
      ensures source == target ==> paths == [[source]]
      ensures source != target ==>
        forall p {:trigger p in paths} {:trigger FoundPath(forward, p, source, target, maxDepth)} ::
          p in paths <==> FoundPath(forward, p, source, target, maxDepth)
      ensures forall i, j :: 0 <= i < j < |paths| ==> |paths[i]| <= |paths[j]|
      ensures Simple(paths)
    {
      if source == target {
        return [[source]];
      }
      paths := [];
      var queue := [[source]];
      var level := 1;
      BfsStart(forward, source, target, maxDepth);
      while queue != []
        invariant BfsInvariant(forward, queue, paths, level, source, target, maxDepth)
        invariant Simple(queue) && Simple(paths)
        decreases maxDepth + 2 - level
      {
        var found, next := ExpandLevel(queue, level, source, target, maxDepth);
        BfsStep(forward, queue, paths, level, source, target, maxDepth, found, next);
        DisjointByLength(paths, found, level);
        paths := paths + found;
        queue := next;
        level := level + 1;
      }
      BfsDone(forward, paths, level, source, target, maxDepth);
    }

    /** One round of the deque: every path of length `level` is extended by
        each successor of its last column that it does not contain yet. */
    method ExpandLevel(queue: seq<seq<string>>, level: nat, source: string, target: string, maxDepth: nat)
      returns (found: seq<seq<string>>, next: seq<seq<string>>)
      requires forall p :: p in queue ==> Pending(forward, p, source, target) && |p| == level
      requires Simple(queue)
      ensures forall p {:trigger p in found} {:trigger FoundPath(forward, p, source, target, maxDepth)} :: p in found <==> FoundPath(forward, p, source, target, maxDepth) && |p| == level + 1 && p[..level] in queue
      ensures forall p {:trigger p in next} {:trigger Pending(forward, p, source, target)} :: p in next <==> Pending(forward, p, source, target) && |p| == level + 1 && |p| <= maxDepth + 1 && p[..level] in queue
      ensures Simple(found) && Simple(next)
    {
      found, next := [], [];
      var k := 0;
      while k < |queue|
        invariant 0 <= k <= |queue|
        invariant forall p {:trigger p in found} {:trigger FoundPath(forward, p, source, target, maxDepth)} :: p in found <==> FoundPath(forward, p, source, target, maxDepth) && |p| == level + 1 && p[..level] in queue[..k]
        invariant forall p {:trigger p in next} {:trigger Pending(forward, p, source, target)} :: p in next <==> Pending(forward, p, source, target) && |p| == level + 1 && |p| <= maxDepth + 1 && p[..level] in queue[..k]
        invariant Simple(found) && Simple(next)
      {
        var f, n := ExpandPath(queue[k], source, target, maxDepth);
        forall p: seq<string> | |p| >= level ensures p[..level] in queue[..k + 1] <==> p[..level] in queue[..k] || p[..level] == queue[k] {
          assert queue[..k + 1] == queue[..k] + [queue[k]];
        }
        NewPrefix(queue, k);
        SimpleAppend(found, f);
        SimpleAppend(next, n);
        found, next := found + f, next + n;
        k := k + 1;
      }
      assert queue[..k] == queue;
    }

    /** The inner loop over `forward_graph[current]` for one path. */
    method ExpandPath(path: seq<string>, source: string, target: string, maxDepth: nat)
      returns (found: seq<seq<string>>, next: seq<seq<string>>)
      requires Pending(forward, path, source, target)
      ensures forall p {:trigger p in found} {:trigger FoundPath(forward, p, source, target, maxDepth)} :: p in found <==> FoundPath(forward, p, source, target, maxDepth) && |p| == |path| + 1 && p[..|path|] == path
      ensures forall p {:trigger p in next} {:trigger Pending(forward, p, source, target)} :: p in next <==> Pending(forward, p, source, target) && |p| == |path| + 1 && |p| <= maxDepth + 1 && p[..|path|] == path
      ensures Simple(found) && Simple(next)
    {
      found, next := [], [];
      var n := |path|;
      var current := path[n - 1];
      var expand := if n <= maxDepth then TargetSet(forward, current) else {};
      var left := expand;
      while left != {}
        invariant left <= expand
        invariant forall p {:trigger p in found} :: p in found <==>
          |p| == n + 1 && p[..n] == path && p[n] in expand - left && p[n] !in path && p[n] == target
        invariant forall p {:trigger p in next} :: p in next <==>
          |p| == n + 1 && p[..n] == path && p[n] in expand - left && p[n] !in path && p[n] != target
        invariant Simple(found) && Simple(next)
        decreases left
      {
        var nx :| nx in left;
        left := left - {nx};
        if nx !in path {
          assert (path + [nx])[..n] == path;
          forall p | |p| == n + 1 && p[..n] == path && p[n] == nx ensures p == path + [nx] {
            assert p == p[..n] + [p[n]];
          }
          if nx == target {
            SimpleAppend(found, [path + [nx]]);
            found := found + [path + [nx]];
          } else {
            SimpleAppend(next, [path + [nx]]);
            next := next + [path + [nx]];
          }
        }
      }
      forall p: seq<string> ensures p in found <==> FoundPath(forward, p, source, target, maxDepth) && |p| == n + 1 && p[..n] == path {
        ShapeOfStep(forward, path, p, source, target, maxDepth);
      }
      forall p: seq<string> ensures p in next <==> Pending(forward, p, source, target) && |p| == n + 1 && |p| <= maxDepth + 1 && p[..n] == path {
        ShapeOfStep(forward, path, p, source, target, maxDepth);
      }
    }
  }

  /** In a list without duplicates, an element is not among those before it. */
  lemma NewPrefix(queue: seq<seq<string>>, k: nat)
    requires Simple(queue) && k < |queue|
    ensures queue[k] !in queue[..k]
  {
    forall i | 0 <= i < k ensures queue[..k][i] != queue[k] {
      assert queue[..k][i] == queue[i];
    }
  }

  /** The state of the breadth-first search before the paths of length
      `level` are expanded: the queue holds exactly the pending paths of that
      length, `paths` exactly the reportable paths up to that length in
      non-decreasing length, and every longer reportable path passes through
      the queue. */
  ghost predicate BfsInvariant(g: map<string, set<string>>, queue: seq<seq<string>>, paths: seq<seq<string>>,
                               level: nat, source: string, target: string, maxDepth: nat) {
    1 <= level &&
    (queue != [] ==> level <= maxDepth + 1) &&
    (forall p {:trigger p in queue} {:trigger Pending(g, p, source, target)} :: p in queue <==> Pending(g, p, source, target) && |p| == level && level <= maxDepth + 1) &&
    (forall p {:trigger p in paths} {:trigger FoundPath(g, p, source, target, maxDepth)} :: p in paths <==> FoundPath(g, p, source, target, maxDepth) && |p| <= level) &&
    (forall i, j :: 0 <= i < j < |paths| ==> |paths[i]| <= |paths[j]|) &&
    (forall i :: 0 <= i < |paths| ==> |paths[i]| <= level) &&
    (forall p {:trigger FoundPath(g, p, source, target, maxDepth)} :: FoundPath(g, p, source, target, maxDepth) && |p| > level ==> p[..level] in queue)
  }

  /** The search starts from the one-column path at the source. */
  lemma BfsStart(g: map<string, set<string>>, source: string, target: string, maxDepth: nat)
    requires source != target
    ensures BfsInvariant(g, [[source]], [], 1, source, target, maxDepth) && Simple([[source]])
  {
    forall p | Pending(g, p, source, target) && |p| == 1 ensures p == [source] {
      assert p == [p[0]];
    }
    forall p | FoundPath(g, p, source, target, maxDepth) ensures p[..1] == [source] {
      assert p[..1] == [p[0]];
    }
  }

  /** Once the queue is empty every reportable path has been found. */
  lemma BfsDone(g: map<string, set<string>>, paths: seq<seq<string>>, level: nat, source: string, target: string, maxDepth: nat)
    requires BfsInvariant(g, [], paths, level, source, target, maxDepth)
    ensures forall p {:trigger p in paths} {:trigger FoundPath(g, p, source, target, maxDepth)} ::
      p in paths <==> FoundPath(g, p, source, target, maxDepth)
  {
  }

  /** One round keeps the invariant. */
  lemma BfsStep(g: map<string, set<string>>, queue: seq<seq<string>>, paths: seq<seq<string>>,
                level: nat, source: string, target: string, maxDepth: nat,
                found: seq<seq<string>>, next: seq<seq<string>>)
    requires StepReady(g, queue, paths, level, source, target, maxDepth, found, next)
    ensures BfsInvariant(g, next, paths + found, level + 1, source, target, maxDepth)
  {
    NextExact(g, queue, paths, level, source, target, maxDepth, found, next);
    FoundExact(g, queue, paths, level, source, target, maxDepth, found, next);
    LongerThrough(g, queue, paths, level, source, target, maxDepth, found, next);
    Ordered(g, queue, paths, level, source, target, maxDepth, found, next);
    BfsAssemble(g, next, paths + found, level + 1, source, target, maxDepth);
  }

  /** The search state together with the outcome of one round of the deque. */
  ghost predicate StepReady(g: map<string, set<string>>, queue: seq<seq<string>>, paths: seq<seq<string>>,
                            level: nat, source: string, target: string, maxDepth: nat,
                            found: seq<seq<string>>, next: seq<seq<string>>) {
    BfsInvariant(g, queue, paths, level, source, target, maxDepth) && queue != [] &&
    (forall p {:trigger p in found} {:trigger FoundPath(g, p, source, target, maxDepth)} :: p in found <==> FoundPath(g, p, source, target, maxDepth) && |p| == level + 1 && p[..level] in queue) &&
    (forall p {:trigger p in next} {:trigger Pending(g, p, source, target)} :: p in next <==> Pending(g, p, source, target) && |p| == level + 1 && |p| <= maxDepth + 1 && p[..level] in queue)
  }

  /** The search invariant from its parts. */
  lemma BfsAssemble(g: map<string, set<string>>, queue: seq<seq<string>>, paths: seq<seq<string>>,
                    level: nat, source: string, target: string, maxDepth: nat)
    requires 1 <= level
    requires forall p {:trigger p in queue} {:trigger Pending(g, p, source, target)} :: p in queue <==> Pending(g, p, source, target) && |p| == level && level <= maxDepth + 1
    requires forall p {:trigger p in paths} {:trigger FoundPath(g, p, source, target, maxDepth)} :: p in paths <==> FoundPath(g, p, source, target, maxDepth) && |p| <= level
    requires forall i, j :: 0 <= i < j < |paths| ==> |paths[i]| <= |paths[j]|
    requires forall i :: 0 <= i < |paths| ==> |paths[i]| <= level
    requires forall p {:trigger FoundPath(g, p, source, target, maxDepth)} :: FoundPath(g, p, source, target, maxDepth) && |p| > level ==> p[..level] in queue
    ensures BfsInvariant(g, queue, paths, level, source, target, maxDepth)
  {
    if queue != [] {
      assert queue[0] in queue;
    }
  }

  /** Paths up to `level` columns and paths of `level + 1` columns, each
      list without duplicates, concatenate to a list without duplicates. */
  lemma DisjointByLength(paths: seq<seq<string>>, found: seq<seq<string>>, level: nat)
    requires Simple(paths) && Simple(found)
    requires forall i :: 0 <= i < |paths| ==> |paths[i]| <= level
    requires forall p :: p in found ==> |p| == level + 1
    ensures Simple(paths + found)
  {
    forall p | p in paths ensures p !in found {
      var i :| 0 <= i < |paths| && paths[i] == p;
    }
    SimpleAppend(paths, found);
  }

  lemma NextExact(g: map<string, set<string>>, queue: seq<seq<string>>, paths: seq<seq<string>>, level: nat,
                  source: string, target: string, maxDepth: nat, found: seq<seq<string>>, next: seq<seq<string>>)
    requires StepReady(g, queue, paths, level, source, target, maxDepth, found, next)
    ensures forall p {:trigger p in next} {:trigger Pending(g, p, source, target)} :: p in next <==> Pending(g, p, source, target) && |p| == level + 1 && level + 1 <= maxDepth + 1
  {
    forall p | Pending(g, p, source, target) && |p| == level + 1 && level + 1 <= maxDepth + 1
      ensures p in next
    {
      PrefixOfPending(g, p, level, source, target);
    }
  }

  lemma FoundExact(g: map<string, set<string>>, queue: seq<seq<string>>, paths: seq<seq<string>>, level: nat,
                   source: string, target: string, maxDepth: nat, found: seq<seq<string>>, next: seq<seq<string>>)
    requires StepReady(g, queue, paths, level, source, target, maxDepth, found, next)
    ensures forall p {:trigger p in paths + found} {:trigger FoundPath(g, p, source, target, maxDepth)} :: p in paths + found <==> FoundPath(g, p, source, target, maxDepth) && |p| <= level + 1
  {
    forall p | FoundPath(g, p, source, target, maxDepth) && |p| == level + 1
      ensures p in found
    {
      PrefixPending(g, p, level, source, target);
    }
  }

  lemma LongerThrough(g: map<string, set<string>>, queue: seq<seq<string>>, paths: seq<seq<string>>, level: nat,
                      source: string, target: string, maxDepth: nat, found: seq<seq<string>>, next: seq<seq<string>>)
    requires StepReady(g, queue, paths, level, source, target, maxDepth, found, next)
    ensures forall p {:trigger FoundPath(g, p, source, target, maxDepth)} :: FoundPath(g, p, source, target, maxDepth) && |p| > level + 1 ==> p[..level + 1] in next
  {
    forall p | FoundPath(g, p, source, target, maxDepth) && |p| > level + 1
      ensures p[..level + 1] in next
    {
      PrefixPending(g, p, level + 1, source, target);
      PrefixPending(g, p, level, source, target);
      assert p[..level + 1][..level] == p[..level];
    }
  }

  lemma Ordered(g: map<string, set<string>>, queue: seq<seq<string>>, paths: seq<seq<string>>, level: nat,
                source: string, target: string, maxDepth: nat, found: seq<seq<string>>, next: seq<seq<string>>)
    requires StepReady(g, queue, paths, level, source, target, maxDepth, found, next)
    ensures forall i, j :: 0 <= i < j < |paths + found| ==> |(paths + found)[i]| <= |(paths + found)[j]|
    ensures forall i :: 0 <= i < |paths + found| ==> |(paths + found)[i]| <= level + 1
  {
    var r := paths + found;
    forall i, j | 0 <= i < j < |r| ensures |r[i]| <= |r[j]| {
      if j >= |paths| { assert r[j] == found[j - |paths|]; assert r[j] in found; }
      if i >= |paths| { assert r[i] == found[i - |paths|]; assert r[i] in found; }
    }
    forall i | 0 <= i < |r| ensures |r[i]| <= level + 1 {
      if i >= |paths| { assert r[i] == found[i - |paths|]; assert r[i] in found; }
    }
  }

  /** A one-column extension of a pending path, in both directions: it
      follows the graph, repeats nothing and stays within the bound exactly
      when its new column is an unvisited successor and the old path was
      short enough. */
  lemma ShapeOfStep(g: map<string, set<string>>, path: seq<string>, p: seq<string>, source: string, target: string, maxDepth: nat)
    requires Pending(g, path, source, target)
    ensures |p| == |path| + 1 && p[..|path|] == path ==>
      ((Simple(p) && FollowsSets(g, p) && |p| <= maxDepth + 1) <==>
       (p[|path|] in (if |path| <= maxDepth then TargetSet(g, path[|path| - 1]) else {}) && p[|path|] !in path))
  {
    var n := |path|;
    if |p| == n + 1 && p[..n] == path {
      if Simple(p) && FollowsSets(g, p) && |p| <= maxDepth + 1 {
        StepShape(g, path, p);
      }
      if p[n] in (if n <= maxDepth then TargetSet(g, path[n - 1]) else {}) && p[n] !in path {
        ExtendPending(g, path, p[n], source, target);
        assert p == path + [p[n]];
      }
    }
  }

  /** One more column on a path in the queue. */
  lemma StepShape(g: map<string, set<string>>, path: seq<string>, p: seq<string>)
    requires |path| >= 1 && |p| == |path| + 1 && p[..|path|] == path
    requires Simple(p) && FollowsSets(g, p)
    ensures p == path + [p[|path|]]
    ensures p[|path|] in TargetSet(g, path[|path| - 1]) && p[|path|] !in path
  {
    var n := |path|;
    assert p[n - 1] == path[n - 1];
    forall i | 0 <= i < n ensures path[i] != p[n] { assert p[i] == path[i]; }
  }

  /** A prefix of a pending path is pending. */
  lemma PrefixOfPending(g: map<string, set<string>>, p: seq<string>, k: nat, source: string, target: string)
    requires Pending(g, p, source, target) && 1 <= k <= |p|
    ensures Pending(g, p[..k], source, target)
  {
    var q := p[..k];
    forall i, j | 0 <= i < j < |q| ensures q[i] != q[j] { assert q[i] == p[i] && q[j] == p[j]; }
    forall i | 0 <= i < |q| - 1 ensures q[i] in g && q[i + 1] in g[q[i]] { assert q[i] == p[i] && q[i + 1] == p[i + 1]; }
    forall i | 0 <= i < |q| ensures q[i] != target { assert q[i] == p[i]; }
  }
}
