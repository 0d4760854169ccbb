/**
 * Text helpers shared by every model: the few Python `str` operations the
 * lineage scripts use (`lower`, `upper`, `strip`, `in`, `startswith`,
 * `endswith`, `split`, `join`, `replace`), written over `seq<char>`.
 * Case mapping covers the ASCII letters only.
 */
module Strings {

  // ---------------------------------------------------------------- case

  function LowerChar(c: char): char {
    if 'A' <= c <= 'Z' then (c as int + 32) as char else c
  }

  function UpperChar(c: char): char {
    if 'a' <= c <= 'z' then (c as int - 32) as char else c
  }

  /** `s.lower()` */
  function Lower(s: string): (r: string)
    ensures |r| == |s|
  {
    if s == [] then [] else [LowerChar(s[0])] + Lower(s[1..])
  }

  /** `s.upper()` */
  function Upper(s: string): (r: string)
    ensures |r| == |s|
  {
    if s == [] then [] else [UpperChar(s[0])] + Upper(s[1..])
  }

  lemma {:induction false} LowerAt(s: string, i: nat)
    requires i < |s|
    ensures Lower(s)[i] == LowerChar(s[i])
  {
    if i > 0 { LowerAt(s[1..], i - 1); }
  }

  lemma {:induction false} UpperAt(s: string, i: nat)
    requires i < |s|
    ensures Upper(s)[i] == UpperChar(s[i])
  {
    if i > 0 { UpperAt(s[1..], i - 1); }
  }

  /** Lower-casing twice is lower-casing once. */
  lemma {:induction false} LowerIdempotent(s: string)
    ensures Lower(Lower(s)) == Lower(s)
  {
    if s != [] { LowerIdempotent(s[1..]); }
  }

  lemma {:induction false} LowerAppend(a: string, b: string)
    ensures Lower(a + b) == Lower(a) + Lower(b)
  {
    if a != [] {
      assert (a + b)[0] == a[0];
      assert (a + b)[1..] == a[1..] + b;
      LowerAppend(a[1..], b);
    } else {
      assert a + b == b;
    }
  }

  /** Lower-casing neither adds nor removes a character that is not a letter. */
  lemma {:induction false} LowerKeeps(s: string, c: char)
    requires !('A' <= c <= 'Z') && !('a' <= c <= 'z')
    ensures c in s <==> c in Lower(s)
  {
    if s != [] {
      LowerKeeps(s[1..], c);
      assert s == [s[0]] + s[1..];
      assert Lower(s) == [LowerChar(s[0])] + Lower(s[1..]);
    }
  }

  /** Lower-casing commutes with taking a prefix or a suffix. */
  lemma LowerSlices(s: string, n: nat)
    requires n <= |s|
    ensures Lower(s)[..n] == Lower(s[..n]) && Lower(s)[n..] == Lower(s[n..])
  {
    assert s == s[..n] + s[n..];
    LowerAppend(s[..n], s[n..]);
  }

  // ------------------------------------------------------ prefix / suffix

  /** `s.startswith(p)` */
  predicate StartsWith(s: string, p: string) {
    |p| <= |s| && s[..|p|] == p
  }

  /** `s.endswith(p)` */
  predicate EndsWith(s: string, p: string) {
    |p| <= |s| && s[|s| - |p|..] == p
  }

  /** A prefix survives lower-casing, lower-cased itself. */
  lemma LowerStartsWith(s: string, p: string)
    requires StartsWith(s, p)
    ensures StartsWith(Lower(s), Lower(p))
  {
    LowerSlices(s, |p|);
  }

  /** A suffix survives lower-casing, lower-cased itself. */
  lemma LowerEndsWith(s: string, p: string)
    requires EndsWith(s, p)
    ensures EndsWith(Lower(s), Lower(p))
  {
    LowerSlices(s, |s| - |p|);
  }

  /** `p in s` for two strings: `p` occurs in `s` as a contiguous block. */
  predicate Contains(s: string, p: string)
    decreases |s|
  {
    StartsWith(s, p) || (|s| > 0 && Contains(s[1..], p))
  }

  /** `any(p in s for p in pats)` */
  predicate ContainsAny(s: string, pats: seq<string>) {
    exists k :: 0 <= k < |pats| && Contains(s, pats[k])
  }

  /** `p` occurs in `s` starting at index `i`. */
  predicate OccursAt(s: string, p: string, i: int) {
    0 <= i && i + |p| <= |s| && s[i..i + |p|] == p
  }

  /** `Contains` is the usual substring relation. */
  lemma {:induction false} ContainsAt(s: string, p: string)
    ensures Contains(s, p) <==> exists i :: OccursAt(s, p, i)
    decreases |s|
  {
    if |s| > 0 {
      ContainsAt(s[1..], p);
      if Contains(s[1..], p) {
        var i :| OccursAt(s[1..], p, i);
        assert s[i + 1..i + 1 + |p|] == s[1..][i..i + |p|];
        assert OccursAt(s, p, i + 1);
      }
      if StartsWith(s, p) {
        assert OccursAt(s, p, 0);
      }
      if exists i :: OccursAt(s, p, i) {
        var i :| OccursAt(s, p, i);
        if i > 0 {
          assert s[1..][i - 1..i - 1 + |p|] == s[i..i + |p|];
          assert OccursAt(s[1..], p, i - 1);
        }
      }
    } else {
      if Contains(s, p) {
        assert OccursAt(s, p, 0);
      }
      if exists i :: OccursAt(s, p, i) {
        var i :| OccursAt(s, p, i);
        assert s[..|p|] == p;
      }
    }
  }

  /** A string contains itself, so `x in x` is always true. */
  lemma ContainsSelf(s: string)
    ensures Contains(s, s)
  {
  }

  /** Every string contains the empty string. */
  lemma ContainsEmpty(s: string)
    ensures Contains(s, "")
  {
  }

  /** A one-character pattern occurs iff that character occurs. */
  lemma {:induction false} ContainsChar(s: string, c: char)
    ensures Contains(s, [c]) <==> c in s
    decreases |s|
  {
    if |s| > 0 {
      ContainsChar(s[1..], c);
      assert s == [s[0]] + s[1..];
    }
  }

  /** A string that contains `p` contains every character of `p`. */
  lemma ContainsCharOf(s: string, p: string, j: nat)
    requires Contains(s, p) && j < |p|
    ensures p[j] in s
  {
    ContainsAt(s, p);
    var i :| OccursAt(s, p, i);
    assert s[i + j] == s[i..i + |p|][j];
  }

  lemma ContainsPrefix(s: string, p: string)
    requires StartsWith(s, p)
    ensures Contains(s, p)
  {
  }

  /** A block of a block of `s` is a block of `s`. */
  lemma ContainsTrans(s: string, m: string, p: string)
    requires Contains(s, m) && Contains(m, p)
    ensures Contains(s, p)
  {
    ContainsAt(s, m);
    ContainsAt(m, p);
    var i :| OccursAt(s, m, i);
    var j :| OccursAt(m, p, j);
    forall k | 0 <= k < |p|
      ensures s[i + j + k] == p[k]
    {
      assert p[k] == m[j..j + |p|][k] == m[j + k];
      assert m[j + k] == s[i..i + |m|][j + k];
    }
    assert s[i + j..i + j + |p|] == p;
    assert OccursAt(s, p, i + j);
    ContainsAt(s, p);
  }

  // --------------------------------------------------------------- strip

  /** The ASCII characters Python's `str.isspace` accepts. */
  predicate IsSpace(c: char) {
    (9 <= c as int <= 13) || (28 <= c as int <= 32)
  }

  function StripLeft(s: string): (r: string)
    ensures |r| <= |s| && r == s[|s| - |r|..]
    ensures r == [] || !IsSpace(r[0])
  {
    if s != [] && IsSpace(s[0]) then StripLeft(s[1..]) else s
  }

  function StripRight(s: string): (r: string)
    ensures |r| <= |s| && r == s[..|r|]
    ensures r == [] || !IsSpace(r[|r| - 1])
  {
    if s != [] && IsSpace(s[|s| - 1]) then StripRight(s[..|s| - 1]) else s
  }

  /** `s.strip()`: the longest middle block with no white space at either end. */
  function Strip(s: string): (r: string)
    ensures |r| <= |s|
    ensures r == [] || (!IsSpace(r[0]) && !IsSpace(r[|r| - 1]))
    ensures Contains(s, r)
  {
    var l := StripLeft(s);
    var r := StripRight(l);
    assert l[..|r|] == s[|s| - |l|..|s| - |l| + |r|];
    assert OccursAt(s, r, |s| - |l|);
    ContainsAt(s, r);
    r
  }

  /** A stripped string never starts with white space, so in particular it
      never starts with two blanks. */
  lemma StripNoLeadingBlanks(s: string)
    ensures !StartsWith(Strip(s), "  ")
  {
  }

  // -------------------------------------------------------- split / join

  /** `s.split(sep)` for a one-character separator. */
  function Split(s: string, sep: char): (parts: seq<string>)
    ensures |parts| >= 1
  {
    if s == [] then [""]
    else if s[0] == sep then [""] + Split(s[1..], sep)
    else
      var rest := Split(s[1..], sep);
      [[s[0]] + rest[0]] + rest[1..]
  }

  /** `sep.join(parts)` */
  function Join(parts: seq<string>, sep: char): string {
    if parts == [] then ""
    else if |parts| == 1 then parts[0]
    else parts[0] + [sep] + Join(parts[1..], sep)
  }

  /** `sep.join(parts)` with a separator of several characters. */
  function JoinWith(parts: seq<string>, sep: string): string {
    if parts == [] then ""
    else if |parts| == 1 then parts[0]
    else parts[0] + sep + JoinWith(parts[1..], sep)
  }

  /** No piece of a split holds the separator. */
  lemma {:induction false} SplitNoSep(s: string, sep: char)
    ensures forall k :: 0 <= k < |Split(s, sep)| ==> sep !in Split(s, sep)[k]
  {
    if s != [] {
      SplitNoSep(s[1..], sep);
    }
  }

  /** Joining the pieces of a split gives back the string. */
  lemma {:induction false} JoinSplit(s: string, sep: char)
    ensures Join(Split(s, sep), sep) == s
  {
    if s != [] {
      JoinSplit(s[1..], sep);
      var rest := Split(s[1..], sep);
      if s[0] == sep {
        assert s == [sep] + s[1..];
      } else {
        var parts := Split(s, sep);
        assert parts[1..] == rest[1..];
        if |rest| == 1 {
          assert s == [s[0]] + rest[0];
        } else {
          assert Join(rest, sep) == rest[0] + [sep] + Join(rest[1..], sep);
          assert s == [s[0]] + rest[0] + [sep] + Join(rest[1..], sep);
        }
      }
    }
  }

  /** A string splits into more than one piece iff it holds the separator. */
  lemma {:induction false} SplitCount(s: string, sep: char)
    ensures |Split(s, sep)| > 1 <==> sep in s
  {
    if s != [] {
      SplitCount(s[1..], sep);
      assert s == [s[0]] + s[1..];
    }
  }

  lemma {:induction false} JoinSnoc(parts: seq<string>, sep: char)
    requires |parts| >= 2
    ensures Join(parts, sep) == Join(parts[..|parts| - 1], sep) + [sep] + parts[|parts| - 1]
  {
    if |parts| > 2 {
      JoinSnoc(parts[1..], sep);
      assert parts[1..][..|parts| - 2] == parts[..|parts| - 1][1..];
    }
  }

  /** A piece without the separator splits off as the first piece. */
  lemma {:induction false} SplitFirstPiece(a: string, b: string, sep: char)
    requires sep !in a
    ensures Split(a + [sep] + b, sep) == [a] + Split(b, sep)
  {
    if a == [] {
      assert a + [sep] + b == [sep] + b;
    } else {
      SplitFirstPiece(a[1..], b, sep);
      var s := a + [sep] + b;
      assert s[0] == a[0] != sep;
      assert s[1..] == a[1..] + [sep] + b;
      assert [a[0]] + a[1..] == a;
    }
  }

  /** A string without the separator is a single piece. */
  lemma {:induction false} SplitWhole(a: string, sep: char)
    requires sep !in a
    ensures Split(a, sep) == [a]
  {
    if a != [] {
      SplitWhole(a[1..], sep);
      assert a == [a[0]] + a[1..];
    }
  }

  /** `s.split('.')[-1]`: the text after the last dot (all of `s` without one). */
  function LastSegment(s: string): (r: string)
    ensures '.' !in r
  {
    SplitNoSep(s, '.');
    var parts := Split(s, '.');
    parts[|parts| - 1]
  }

  /** `'.'.join(s.split('.')[:-1])`: the text before the last dot ("" without one). */
  function AllButLast(s: string): string {
    var parts := Split(s, '.');
    Join(parts[..|parts| - 1], '.')
  }

  /** `s.split('.')[0]`: the text before the first dot (all of `s` without one). */
  function FirstSegment(s: string): (r: string)
    ensures '.' !in r
  {
    SplitNoSep(s, '.');
    Split(s, '.')[0]
  }

  /** A dotted name is its table part, a dot, and its column part. */
  lemma DottedName(s: string)
    requires '.' in s
    ensures AllButLast(s) + "." + LastSegment(s) == s
  {
    SplitCount(s, '.');
    JoinSnoc(Split(s, '.'), '.');
    JoinSplit(s, '.');
  }

  /** A name without a dot has no table part and is its own column part. */
  lemma UndottedName(s: string)
    requires '.' !in s
    ensures AllButLast(s) == "" && LastSegment(s) == s && FirstSegment(s) == s
  {
    SplitCount(s, '.');
    JoinSplit(s, '.');
  }

  /** `s.rsplit('.', 1)` on a dotted name: the two halves around the last dot. */
  function RSplitDot(s: string): (r: (string, string))
    requires '.' in s
    ensures r.0 + "." + r.1 == s && '.' !in r.1
  {
    DottedName(s);
    (AllButLast(s), LastSegment(s))
  }

  /** `s.split('.', 1)` on a dotted name: the two halves around the first dot. */
  function SplitDot(s: string): (r: (string, string))
    requires '.' in s
    ensures r.0 + "." + r.1 == s && '.' !in r.0
  {
    SplitCount(s, '.');
    JoinSplit(s, '.');
    var parts := Split(s, '.');
    (FirstSegment(s), Join(parts[1..], '.'))
  }

  // ------------------------------------------------------------- replace

  /** `s.replace(pat, rep)`: left-to-right, non-overlapping. */
  function ReplaceAll(s: string, pat: string, rep: string): string
    requires |pat| > 0
    decreases |s|
  {
    if s == [] then []
    else if StartsWith(s, pat) then rep + ReplaceAll(s[|pat|..], pat, rep)
    else [s[0]] + ReplaceAll(s[1..], pat, rep)
  }

  /** Replacing a pattern that does not occur changes nothing. */
  lemma {:induction false} ReplaceAbsent(s: string, pat: string, rep: string)
    requires |pat| > 0 && !Contains(s, pat)
    ensures ReplaceAll(s, pat, rep) == s
    decreases |s|
  {
    if s != [] {
      ReplaceAbsent(s[1..], pat, rep);
    }
  }

  /** `s.replace(c, "")` removes every copy of `c`. */
  lemma {:induction false} ReplaceCharGone(s: string, c: char)
    ensures c !in ReplaceAll(s, [c], "")
    decreases |s|
  {
    if s != [] {
      ReplaceCharGone(s[1..], c);
    }
  }

  /** The lower-cased names of a list. */
  function LowerNames(xs: seq<string>): set<string> {
    set x | x in xs :: Lower(x)
  }

  /** One lower-cased name more. */
  lemma LowerNamesSnoc(xs: seq<string>, i: nat)
    requires i < |xs|
    ensures LowerNames(xs[..i + 1]) == LowerNames(xs[..i]) + {Lower(xs[i])}
  {
    assert xs[..i + 1] == xs[..i] + [xs[i]];
  }

  // ------------------------------------------------------------- numbers

  function DigitChar(d: int): char
    requires 0 <= d < 10
  {
    ['0', '1', '2', '3', '4', '5', '6', '7', '8', '9'][d]
  }

  /** The decimal digits of `n`. */
  function Digits(n: nat): (r: string)
    ensures |r| >= 1
    decreases n
  {
    if n < 10 then [DigitChar(n)] else Digits(n / 10) + [DigitChar(n % 10)]
  }

  /** `str(n)` / `f"{n}"` for an integer. */
  function IntText(n: int): string {
    if n < 0 then "-" + Digits(-n) else Digits(n)
  }
}
