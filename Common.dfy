/**
 * Shapes shared by the lineage scripts: optional values, Python's ordering
 * of strings and tuples of strings with a stable `sorted`, the
 * "first occurrence wins" de-duplication loop, and the vocabulary of walks
 * through a column-flow graph.
 */
module Common {
  import opened Strings

  datatype Option<T> = None | Some(value: T)

  /** `d.get(key, [])` of a list-valued entry, `None` when the entry (or
      the document holding it) is missing. */
  function Listed<T>(section: Option<seq<T>>): seq<T> {
    if section.Some? then section.value else []
  }

  // --------------------------------------------------- insertion-ordered dict

  /** A Python `dict`: its keys in insertion order and its mapping. */
  datatype Dict<K, V> = Dict(keys: seq<K>, m: map<K, V>)

  ghost predicate DictValid<K, V>(d: Dict<K, V>) {
    Simple(d.keys) && d.m.Keys == (set k | k in d.keys)
  }

  function EmptyDict<K, V>(): (d: Dict<K, V>)
    ensures DictValid(d) && d.m == map[]
  {
    Dict([], map[])
  }

  /** `d[k] = v`: a new key goes to the end, an old key keeps its place. */
  function Put<K, V>(d: Dict<K, V>, k: K, v: V): (r: Dict<K, V>)
    requires DictValid(d)
    ensures DictValid(r)
    ensures r.m == d.m[k := v]
    ensures r.keys == if k in d.m then d.keys else d.keys + [k]
  {
    if k in d.m then Dict(d.keys, d.m[k := v]) else Dict(d.keys + [k], d.m[k := v])
  }

  /** `d[k] = v` for each pair in turn. */
  function PutAll<K, V>(d: Dict<K, V>, kvs: seq<(K, V)>): (r: Dict<K, V>)
    requires DictValid(d)
    ensures DictValid(r)
  {
    if kvs == [] then d
    else Put(PutAll(d, kvs[..|kvs| - 1]), kvs[|kvs| - 1].0, kvs[|kvs| - 1].1)
  }

  lemma PutAllSnoc<K, V>(d: Dict<K, V>, kvs: seq<(K, V)>, n: nat)
    requires DictValid(d) && n < |kvs|
    ensures PutAll(d, kvs[..n + 1]) == Put(PutAll(d, kvs[..n]), kvs[n].0, kvs[n].1)
  {
    assert kvs[..n + 1][..n] == kvs[..n];
  }

  /** Pair `i` is the last write to key `k`. */
  predicate LastWrite<K(==), V>(kvs: seq<(K, V)>, k: K, i: int) {
    0 <= i < |kvs| && kvs[i].0 == k && forall j :: i < j < |kvs| ==> kvs[j].0 != k
  }

  /** The keys after `PutAll`: the old ones and every key written. */
  lemma {:induction false} PutAllKeys<K, V>(d: Dict<K, V>, kvs: seq<(K, V)>, k: K)
    requires DictValid(d)
    ensures k in PutAll(d, kvs).m <==> k in d.m || exists i :: 0 <= i < |kvs| && kvs[i].0 == k
  {
    if kvs != [] {
      var n := |kvs| - 1;
      PutAllKeys(d, kvs[..n], k);
      assert PutAll(d, kvs).m == PutAll(d, kvs[..n]).m[kvs[n].0 := kvs[n].1];
      if exists i :: 0 <= i < |kvs| && kvs[i].0 == k {
        var i :| 0 <= i < |kvs| && kvs[i].0 == k;
        if i < n { assert kvs[..n][i] == kvs[i]; }
      }
    }
  }

  lemma LastWriteSnoc<K, V>(kvs: seq<(K, V)>, k: K, j: int)
    requires |kvs| > 0 && kvs[|kvs| - 1].0 != k && LastWrite(kvs[..|kvs| - 1], k, j)
    ensures LastWrite(kvs, k, j) && kvs[j] == kvs[..|kvs| - 1][j]
  {
    var pre := kvs[..|kvs| - 1];
    forall jj | j < jj < |kvs| ensures kvs[jj].0 != k {
      if jj < |pre| { assert kvs[jj] == pre[jj]; }
    }
  }

  /** A later write overwrites an earlier one. */
  lemma {:induction false} PutAllLastWins<K, V>(d: Dict<K, V>, kvs: seq<(K, V)>, k: K, i: nat)
    requires DictValid(d)
    requires i < |kvs| && kvs[i].0 == k
    ensures k in PutAll(d, kvs).m
    ensures exists j :: LastWrite(kvs, k, j) && PutAll(d, kvs).m[k] == kvs[j].1
  {
    var n := |kvs| - 1;
    var before := PutAll(d, kvs[..n]).m;
    assert PutAll(d, kvs).m == before[kvs[n].0 := kvs[n].1];
    if kvs[n].0 == k {
      assert LastWrite(kvs, k, n);
    } else {
      var pre := kvs[..n];
      assert pre[i] == kvs[i];
      PutAllLastWins(d, pre, k, i);
      var j :| LastWrite(pre, k, j) && before[k] == pre[j].1;
      LastWriteSnoc(kvs, k, j);
      assert PutAll(d, kvs).m[k] == before[k];
    }
  }

  /** A key no pair writes keeps its old value. */
  lemma {:induction false} PutAllUntouched<K, V>(d: Dict<K, V>, kvs: seq<(K, V)>, k: K)
    requires DictValid(d)
    requires k in d.m && forall i :: 0 <= i < |kvs| ==> kvs[i].0 != k
    ensures k in PutAll(d, kvs).m && PutAll(d, kvs).m[k] == d.m[k]
  {
    if kvs != [] {
      var n := |kvs| - 1;
      PutAllUntouched(d, kvs[..n], k);
      assert PutAll(d, kvs).m == PutAll(d, kvs[..n]).m[kvs[n].0 := kvs[n].1];
    }
  }

  /** Writing two runs of pairs one after the other. */
  lemma {:induction false} PutAllAppend<K, V>(d: Dict<K, V>, a: seq<(K, V)>, b: seq<(K, V)>)
    requires DictValid(d)
    ensures PutAll(d, a + b) == PutAll(PutAll(d, a), b)
    decreases |b|
  {
    if b != [] {
      var n := |b| - 1;
      assert (a + b)[..|a + b| - 1] == a + b[..n];
      assert (a + b)[|a + b| - 1] == b[n];
      PutAllAppend(d, a, b[..n]);
    } else {
      assert a + b == a;
    }
  }

  /** `list(d.items())` */
  function Items<K, V>(d: Dict<K, V>): (r: seq<(K, V)>)
    requires DictValid(d)
    ensures |r| == |d.keys|
    ensures forall i :: 0 <= i < |r| ==> r[i].0 == d.keys[i] && r[i].1 == d.m[d.keys[i]]
  {
    seq(|d.keys|, i requires 0 <= i < |d.keys| => (d.keys[i], d.m[d.keys[i]]))
  }

  // ------------------------------------------------------------ ordering

  /** Python's `a < b` on strings: code-point lexicographic order. */
  predicate StrLt(a: string, b: string) {
    if a == [] then b != []
    else if b == [] then false
    else a[0] < b[0] || (a[0] == b[0] && StrLt(a[1..], b[1..]))
  }

  lemma {:induction false} StrLtIrreflexive(a: string)
    ensures !StrLt(a, a)
  {
    if a != [] { StrLtIrreflexive(a[1..]); }
  }

  lemma {:induction false} StrLtTotal(a: string, b: string)
    ensures StrLt(a, b) || a == b || StrLt(b, a)
  {
    if a != [] && b != [] && a[0] == b[0] {
      StrLtTotal(a[1..], b[1..]);
      if a[1..] == b[1..] {
        assert a == [a[0]] + a[1..] && b == [b[0]] + b[1..];
      }
    }
  }

  lemma {:induction false} StrLtTrans(a: string, b: string, c: string)
    requires StrLt(a, b) && StrLt(b, c)
    ensures StrLt(a, c)
  {
    if a != [] && a[0] == b[0] && b[0] == c[0] {
      StrLtTrans(a[1..], b[1..], c[1..]);
    }
  }

  /** Python's `<` on tuples of strings, written as sequences. */
  predicate KeyLt(a: seq<string>, b: seq<string>) {
    if a == [] then b != []
    else if b == [] then false
    else StrLt(a[0], b[0]) || (a[0] == b[0] && KeyLt(a[1..], b[1..]))
  }

  lemma {:induction false} KeyLtIrreflexive(a: seq<string>)
    ensures !KeyLt(a, a)
  {
    if a != [] {
      StrLtIrreflexive(a[0]);
      KeyLtIrreflexive(a[1..]);
    }
  }

  lemma {:induction false} KeyLtTotal(a: seq<string>, b: seq<string>)
    ensures KeyLt(a, b) || a == b || KeyLt(b, a)
  {
    if a != [] && b != [] {
      StrLtTotal(a[0], b[0]);
      if a[0] == b[0] {
        KeyLtTotal(a[1..], b[1..]);
        if a[1..] == b[1..] {
          assert a == [a[0]] + a[1..] && b == [b[0]] + b[1..];
        }
      }
    }
  }

  lemma {:induction false} KeyLtTrans(a: seq<string>, b: seq<string>, c: seq<string>)
    requires KeyLt(a, b) && KeyLt(b, c)
    ensures KeyLt(a, c)
  {
    if a != [] && b != [] && c != [] {
      if StrLt(a[0], b[0]) && StrLt(b[0], c[0]) {
        StrLtTrans(a[0], b[0], c[0]);
      } else if a[0] == b[0] && b[0] == c[0] {
        KeyLtTrans(a[1..], b[1..], c[1..]);
      }
    }
  }

  predicate KeyLe(a: seq<string>, b: seq<string>) {
    KeyLt(a, b) || a == b
  }

  predicate SortedBy<T>(xs: seq<T>, key: T -> seq<string>) {
    forall i, j :: 0 <= i < j < |xs| ==> KeyLe(key(xs[i]), key(xs[j]))
  }

  lemma InsertFront<T>(x: T, ys: seq<T>, key: T -> seq<string>)
    requires SortedBy(ys, key) && ys != [] && KeyLt(key(x), key(ys[0]))
    ensures SortedBy([x] + ys, key)
  {
    forall j | 0 <= j < |ys| ensures KeyLe(key(x), key(ys[j])) {
      if j > 0 && KeyLt(key(ys[0]), key(ys[j])) { KeyLtTrans(key(x), key(ys[0]), key(ys[j])); }
    }
  }

  lemma InsertBehind<T>(x: T, ys: seq<T>, key: T -> seq<string>, rest: seq<T>)
    requires SortedBy(ys, key) && ys != [] && !KeyLt(key(x), key(ys[0]))
    requires SortedBy(rest, key) && multiset(rest) == multiset(ys[1..]) + multiset{x}
    ensures SortedBy([ys[0]] + rest, key)
    ensures multiset([ys[0]] + rest) == multiset(ys) + multiset{x}
  {
    assert ys == [ys[0]] + ys[1..];
    KeyLtTotal(key(x), key(ys[0]));
    forall j | 0 <= j < |rest| ensures KeyLe(key(ys[0]), key(rest[j])) {
      assert rest[j] in multiset(rest);
      if rest[j] != x {
        assert rest[j] in multiset(ys[1..]);
        var k :| 0 <= k < |ys[1..]| && ys[1..][k] == rest[j];
        assert KeyLe(key(ys[0]), key(ys[k + 1]));
      }
    }
  }

  /** Puts `x` after every element whose key is not larger than its own. */
  function Insert<T>(x: T, ys: seq<T>, key: T -> seq<string>): (r: seq<T>)
    requires SortedBy(ys, key)
    ensures SortedBy(r, key)
    ensures multiset(r) == multiset(ys) + multiset{x}
    ensures |r| == |ys| + 1
  {
    if ys == [] then [x]
    else if KeyLt(key(x), key(ys[0])) then
      InsertFront(x, ys, key);
      [x] + ys
    else
      var rest := Insert(x, ys[1..], key);
      InsertBehind(x, ys, key, rest);
      [ys[0]] + rest
  }

  /** `sorted(xs, key=key)`: an ordered permutation of `xs`. */
  function SortBy<T>(xs: seq<T>, key: T -> seq<string>): (r: seq<T>)
    ensures SortedBy(r, key)
    ensures multiset(r) == multiset(xs)
  {
    if xs == [] then []
    else
      assert xs == xs[..|xs| - 1] + [xs[|xs| - 1]];
      Insert(xs[|xs| - 1], SortBy(xs[..|xs| - 1], key), key)
  }

  /** With one-string keys, a sorted sequence is ordered by that string. */
  lemma SingleKeyOrder<T>(xs: seq<T>, key: T -> seq<string>, i: int, j: int)
    requires SortedBy(xs, key) && 0 <= i < j < |xs| && |key(xs[i])| == 1 && |key(xs[j])| == 1
    ensures StrLt(key(xs[i])[0], key(xs[j])[0]) || key(xs[i])[0] == key(xs[j])[0]
  {
    var a, b := key(xs[i]), key(xs[j]);
    assert KeyLe(a, b);
    if KeyLt(a, b) && !StrLt(a[0], b[0]) {
      assert a[1..] == [] && b[1..] == [];
    }
  }

  /** Sorting keeps exactly the same members. */
  lemma SortByMembers<T>(xs: seq<T>, key: T -> seq<string>)
    ensures forall x :: x in SortBy(xs, key) <==> x in xs
  {
    forall x ensures x in SortBy(xs, key) <==> x in xs {
      assert x in SortBy(xs, key) <==> x in multiset(SortBy(xs, key));
      assert x in xs <==> x in multiset(xs);
    }
  }

  // ------------------------------------------------------ de-duplication

  /** The elements of `xs` whose key was not seen before, in order. */
  function DedupFrom<T, K(==)>(xs: seq<T>, key: T -> K, seen: set<K>): seq<T> {
    if xs == [] then []
    else if key(xs[0]) in seen then DedupFrom(xs[1..], key, seen)
    else [xs[0]] + DedupFrom(xs[1..], key, seen + {key(xs[0])})
  }

  function Dedup<T, K(==)>(xs: seq<T>, key: T -> K): seq<T> {
    DedupFrom(xs, key, {})
  }

  /** `seen` / `unique` loop: keep an element only if its key is new. */
  method DedupLoop<T, K(==)>(xs: seq<T>, key: T -> K) returns (unique: seq<T>)
    ensures unique == Dedup(xs, key)
  {
    var seen: set<K> := {};
    unique := [];
    var i := 0;
    while i < |xs|
      invariant 0 <= i <= |xs|
      invariant unique + DedupFrom(xs[i..], key, seen) == Dedup(xs, key)
    {
      assert xs[i..] == [xs[i]] + xs[i + 1..];
      if key(xs[i]) !in seen {
        seen := seen + {key(xs[i])};
        unique := unique + [xs[i]];
      }
      i := i + 1;
    }
  }

  /** One step of the de-duplication: the head is kept iff its key is new. */
  lemma DedupFromCons<T, K>(x: T, rest: seq<T>, key: T -> K, seen: set<K>)
    ensures DedupFrom([x] + rest, key, seen) ==
      if key(x) in seen then DedupFrom(rest, key, seen) else [x] + DedupFrom(rest, key, seen + {key(x)})
  {
    assert ([x] + rest)[0] == x && ([x] + rest)[1..] == rest;
  }

  /** De-duplication keeps only elements of the input whose key was new. */
  lemma {:induction false} DedupFromSubset<T, K>(xs: seq<T>, key: T -> K, seen: set<K>)
    ensures forall y :: y in DedupFrom(xs, key, seen) ==> y in xs && key(y) !in seen
  {
    if xs != [] {
      var s' := if key(xs[0]) in seen then seen else seen + {key(xs[0])};
      DedupFromSubset(xs[1..], key, s');
    }
  }

  /** No two kept elements share a key. */
  lemma {:induction false} DedupFromUnique<T, K>(xs: seq<T>, key: T -> K, seen: set<K>)
    ensures forall i, j :: 0 <= i < j < |DedupFrom(xs, key, seen)| ==>
      key(DedupFrom(xs, key, seen)[i]) != key(DedupFrom(xs, key, seen)[j])
  {
    if xs != [] {
      var s' := if key(xs[0]) in seen then seen else seen + {key(xs[0])};
      DedupFromUnique(xs[1..], key, s');
      if key(xs[0]) !in seen {
        var rest := DedupFrom(xs[1..], key, s');
        var r := DedupFrom(xs, key, seen);
        assert r == [xs[0]] + rest;
        DedupFromSubset(xs[1..], key, s');
        forall i, j | 0 <= i < j < |r| ensures key(r[i]) != key(r[j]) {
          assert r[j] == rest[j - 1];
          assert r[j] in rest;
          if i > 0 { assert r[i] == rest[i - 1]; }
        }
      }
    }
  }

  /** Every key of the input that was not seen before is kept. */
  lemma {:induction false} DedupFromComplete<T, K>(xs: seq<T>, key: T -> K, seen: set<K>, i: nat)
    requires i < |xs| && key(xs[i]) !in seen
    ensures exists j :: 0 <= j < |DedupFrom(xs, key, seen)| && key(DedupFrom(xs, key, seen)[j]) == key(xs[i])
  {
    var r := DedupFrom(xs, key, seen);
    if key(xs[i]) == key(xs[0]) {
      assert key(r[0]) == key(xs[i]);
    } else {
      var s' := if key(xs[0]) in seen then seen else seen + {key(xs[0])};
      var rest := DedupFrom(xs[1..], key, s');
      assert xs[1..][i - 1] == xs[i];
      DedupFromComplete(xs[1..], key, s', i - 1);
      var j :| 0 <= j < |rest| && key(rest[j]) == key(xs[i]);
      if key(xs[0]) in seen {
        assert key(r[j]) == key(xs[i]);
      } else {
        assert r[j + 1] == rest[j];
      }
    }
  }

  /** The element kept for a key is the first element of `xs` with that key. */
  lemma {:induction false} DedupFirst<T, K>(xs: seq<T>, key: T -> K, seen: set<K>, i: nat)
    requires i < |xs| && key(xs[i]) !in seen
    requires forall j :: 0 <= j < i ==> key(xs[j]) != key(xs[i])
    ensures xs[i] in DedupFrom(xs, key, seen)
  {
    if i > 0 {
      var s' := if key(xs[0]) in seen then seen else seen + {key(xs[0])};
      DedupFirst(xs[1..], key, s', i - 1);
    }
  }

  /** The element kept for a key comes no later than any element with it. */
  lemma {:induction false} KeptFirst<T, K>(xs: seq<T>, key: T -> K, m: T, i: nat)
    requires m in DedupFrom(xs, key, {}) && i < |xs| && key(xs[i]) == key(m)
    ensures exists j :: 0 <= j <= i && xs[j] == m
  {
    KeptFirstFrom(xs, key, {}, m, i);
  }

  lemma {:induction false} KeptFirstFrom<T, K>(xs: seq<T>, key: T -> K, seen: set<K>, m: T, i: nat)
    requires m in DedupFrom(xs, key, seen) && i < |xs| && key(xs[i]) == key(m)
    ensures exists j :: 0 <= j <= i && xs[j] == m
    decreases |xs|
  {
    DedupFromSubset(xs, key, seen);
    if key(xs[0]) in seen {
      KeptFirstFrom(xs[1..], key, seen, m, i - 1);
      var j :| 0 <= j <= i - 1 && xs[1..][j] == m;
      assert xs[j + 1] == m;
    } else if m != xs[0] {
      var s' := seen + {key(xs[0])};
      DedupFromSubset(xs[1..], key, s');
      assert m in DedupFrom(xs[1..], key, s');
      KeptFirstFrom(xs[1..], key, s', m, i - 1);
      var j :| 0 <= j <= i - 1 && xs[1..][j] == m;
      assert xs[j + 1] == m;
    }
  }

  // ----------------------------------------------------------------- walks

  /** No column repeats. */
  predicate Simple<T(==)>(p: seq<T>) {
    forall i, j :: 0 <= i < j < |p| ==> p[i] != p[j]
  }

  /** Consecutive columns are joined by an edge of a set-valued graph. */
  predicate FollowsSets<T>(g: map<T, set<T>>, p: seq<T>) {
    forall i :: 0 <= i < |p| - 1 ==> p[i] in g && p[i + 1] in g[p[i]]
  }

  /** Consecutive columns are joined by an edge of a list-valued graph. */
  predicate FollowsLists<T>(g: map<T, seq<T>>, p: seq<T>) {
    forall i :: 0 <= i < |p| - 1 ==> p[i] in g && p[i + 1] in g[p[i]]
  }

  /** The members of a set in the order a Python `for` loop over it happens
      to visit them (any order). */
  method Members<T>(s: set<T>) returns (r: seq<T>)
    ensures forall x :: x in r <==> x in s
    ensures Simple(r)
  {
    r := [];
    var left := s;
    while left != {}
      invariant left <= s
      invariant forall x :: x in r ==> x in s && x !in left
      invariant forall x :: x in s ==> x in r || x in left
      invariant Simple(r)
      decreases left
    {
      var x :| x in left;
      r := r + [x];
      left := left - {x};
    }
  }

  /** `d.get(k, [])` */
  function Targets<T>(g: map<T, seq<T>>, k: T): seq<T> {
    if k in g then g[k] else []
  }

  /** `set(xs)` */
  function Elems<T>(xs: seq<T>): set<T> {
    set x | x in xs
  }

  lemma TakeSnoc<T>(xs: seq<T>, j: nat)
    requires j < |xs|
    ensures xs[..j + 1] == xs[..j] + [xs[j]]
  {
  }

  lemma ElemsSnoc<T>(xs: seq<T>, j: nat)
    requires j < |xs|
    ensures Elems(xs[..j + 1]) == Elems(xs[..j]) + {xs[j]}
  {
    assert xs[..j + 1] == xs[..j] + [xs[j]];
  }

  /** A duplicate-free list has as many elements as its set. */
  lemma {:induction false} SimpleCount<T>(xs: seq<T>)
    requires Simple(xs)
    ensures |Elems(xs)| == |xs|
  {
    if xs != [] {
      var n := |xs| - 1;
      SimpleCount(xs[..n]);
      ElemsSnoc(xs, n);
      assert xs[..n + 1] == xs;
      forall x | x in xs[..n] ensures x != xs[n] {
        var i :| 0 <= i < n && xs[..n][i] == x;
      }
    }
  }

  /** Two duplicate-free lists of the same elements are equally long. */
  lemma SameMembersSameLength<T>(a: seq<T>, b: seq<T>)
    requires Simple(a) && Simple(b) && forall x :: x in a <==> x in b
    ensures |a| == |b|
  {
    SimpleCount(a);
    SimpleCount(b);
    assert Elems(a) == Elems(b);
  }

  /** Two duplicate-free lists with nothing in common concatenate to one. */
  lemma SimpleAppend<T>(a: seq<T>, b: seq<T>)
    requires Simple(a) && Simple(b) && forall x :: x in a ==> x !in b
    ensures Simple(a + b)
  {
    var r := a + b;
    forall i, j | 0 <= i < j < |r| ensures r[i] != r[j] {
      if i < |a| <= j {
        assert r[i] == a[i] && r[j] == b[j - |a|];
        assert r[j] in b;
      } else if |a| <= i {
        assert r[i] == b[i - |a|] && r[j] == b[j - |a|];
      }
    }
  }

  /** `d.get(k, set())` */
  function TargetSet<T>(g: map<T, set<T>>, k: T): set<T> {
    if k in g then g[k] else {}
  }

  // ------------------------------------------------------------- products

  /** `[(x, y) for x in xs for y in ys]`: the nested loops over two lists. */
  function Product<A, B>(xs: seq<A>, ys: seq<B>): (r: seq<(A, B)>)
    ensures |r| == |xs| * |ys|
  {
    if xs == [] then []
    else seq(|ys|, j requires 0 <= j < |ys| => (xs[0], ys[j])) + Product(xs[1..], ys)
  }

  /** Every pair of the nested loops, and nothing else. */
  lemma {:induction false} ProductMembers<A, B>(xs: seq<A>, ys: seq<B>, a: A, b: B)
    ensures (a, b) in Product(xs, ys) <==> a in xs && b in ys
  {
    if xs != [] {
      ProductMembers(xs[1..], ys, a, b);
      var row := seq(|ys|, j requires 0 <= j < |ys| => (xs[0], ys[j]));
      assert Product(xs, ys) == row + Product(xs[1..], ys);
      if b in ys && a == xs[0] {
        var j :| 0 <= j < |ys| && ys[j] == b;
        assert row[j] == (a, b);
      }
      assert xs == [xs[0]] + xs[1..];
    }
  }
  // ---------------------------------------------------------- appending

  lemma UnionAssoc<T>(a: set<T>, b: set<T>, c: set<T>)
    ensures a + b + c == a + (b + c)
  { }

  lemma PrefixThenTail<T>(path: seq<T>, q: seq<T>)
    requires |q| >= 1
    ensures (path + [q[0]]) + q[1..] == path + q
  {
    assert q == [q[0]] + q[1..];
  }

  lemma AppendAssoc3<T>(x: seq<T>, a: seq<T>, b: seq<T>, c: seq<T>)
    ensures x + a + b + c == x + (a + b + c)
  {
  }

  // ---------------------------------------------------------- mapping

  /** `f` applied to each element of `xs`, in order. */
  function MapSeq<T, U>(xs: seq<T>, f: T -> U): (r: seq<U>)
    ensures |r| == |xs|
  {
    seq(|xs|, i requires 0 <= i < |xs| => f(xs[i]))
  }

  lemma MapSeqSnoc<T, U>(xs: seq<T>, f: T -> U, i: nat)
    requires i < |xs|
    ensures MapSeq(xs[..i + 1], f) == MapSeq(xs[..i], f) + [f(xs[i])]
  {
  }

  // ---------------------------------------------------------- flattening

  /** What `f` gives for each element of `xs` in turn, concatenated. */
  function Flatten<T, U>(xs: seq<T>, f: T -> seq<U>): seq<U> {
    if xs == [] then [] else Flatten(xs[..|xs| - 1], f) + f(xs[|xs| - 1])
  }

  lemma {:induction false} FlattenMembers<T, U>(xs: seq<T>, f: T -> seq<U>, p: U)
    ensures p in Flatten(xs, f) <==> exists i :: 0 <= i < |xs| && p in f(xs[i])
    decreases |xs|
  {
    if xs != [] {
      var n := |xs| - 1;
      var pre := xs[..n];
      FlattenMembers(pre, f, p);
      if p in Flatten(pre, f) {
        var i :| 0 <= i < |pre| && p in f(pre[i]);
        assert xs[i] == pre[i];
      }
      if exists i :: 0 <= i < |xs| && p in f(xs[i]) {
        var i :| 0 <= i < |xs| && p in f(xs[i]);
        if i < n { assert pre[i] == xs[i]; }
      }
    }
  }
}
