/**
 * generic_sql_lineage_parser.py: table categories by ordered substring
 * rules, statement types by leading keyword, the BEGIN/END scan that cuts a
 * stored procedure's body out of a script, the usage-based refinement of
 * the table dictionaries, and the end-to-end trace from source-table
 * columns to columns of final tables with its de-duplication.
 */
module GenericSqlParser {
  import opened Strings
  import opened Common

  // ------------------------------------------------------- categorisation

  const SourcePatterns: seq<string> := ["staging", "stage", "src", "source", "raw", "input", "import",
                                         "ext", "external", "ref", "reference", "lookup", "dim", "fact"]
  const TargetPatterns: seq<string> := ["core", "final", "output", "dest", "destination", "prod", "production",
                                         "audit", "log", "history", "archive", "summary", "agg", "aggregate"]
  const IntermediatePatterns: seq<string> := ["#", "temp", "tmp", "work", "staging", "buffer", "cache",
                                               "intermediate", "process", "transform", "enrich", "clean"]

  /** `_categorize_table`: intermediate patterns first, then source, then
      target, else "unknown". */
  function CategorizeTable(name: string): string {
    var t := Lower(name);
    if ContainsAny(t, IntermediatePatterns) then "intermediate"
    else if ContainsAny(t, SourcePatterns) then "source"
    else if ContainsAny(t, TargetPatterns) then "target"
    else "unknown"
  }

  /** The four outcomes, "unknown" exactly when no pattern matches, and
      source only when no intermediate pattern matches. */
  lemma CategorizeOutcomes(name: string)
    ensures CategorizeTable(name) in {"intermediate", "source", "target", "unknown"}
    ensures CategorizeTable(name) == "unknown" <==>
      !ContainsAny(Lower(name), IntermediatePatterns) && !ContainsAny(Lower(name), SourcePatterns) &&
      !ContainsAny(Lower(name), TargetPatterns)
    ensures CategorizeTable(name) == "source" ==> !ContainsAny(Lower(name), IntermediatePatterns)
  {
  }

  /** "staging" is both a source and an intermediate pattern; intermediate is
      tested first, so a staging table is never a source. */
  lemma StagingIsIntermediate(name: string)
    requires Contains(Lower(name), "staging")
    ensures CategorizeTable(name) == "intermediate"
  {
    assert IntermediatePatterns[4] == "staging";
  }

  /** The category depends only on the lower-cased name. */
  lemma CategorizeIgnoresCase(name: string)
    ensures CategorizeTable(name) == CategorizeTable(Lower(name))
  {
    LowerIdempotent(name);
  }

  // ------------------------------------------------------- statement type

  /** The keyword each statement type is recognised by. */
  function Keyword(kind: string): string {
    if kind == "CTE" then "WITH" else kind
  }

  /** `_get_statement_type`: the first of INSERT, UPDATE, MERGE, DELETE and
      WITH that the stripped, upper-cased text starts with. */
  function StatementType(stmt: string): string {
    KindOf(Upper(Strip(stmt)))
  }

  /** The keyword chain on the already normalised text `u`. */
  function KindOf(u: string): string {
    if StartsWith(u, "INSERT") then "INSERT"
    else if StartsWith(u, "UPDATE") then "UPDATE"
    else if StartsWith(u, "MERGE") then "MERGE"
    else if StartsWith(u, "DELETE") then "DELETE"
    else if StartsWith(u, "WITH") then "CTE"
    else "OTHER"
  }

  /** A statement is typed by the keyword it starts with, and "OTHER" exactly
      when it starts with none of them. */
  lemma StatementTypeKeyword(stmt: string)
    ensures var kind := StatementType(stmt);
      var u := Upper(Strip(stmt));
      kind in {"INSERT", "UPDATE", "MERGE", "DELETE", "CTE", "OTHER"} &&
      (kind != "OTHER" ==> StartsWith(u, Keyword(kind))) &&
      (kind == "OTHER" <==>
        !StartsWith(u, "INSERT") && !StartsWith(u, "UPDATE") && !StartsWith(u, "MERGE") &&
        !StartsWith(u, "DELETE") && !StartsWith(u, "WITH"))
  {
  }

  /** A statement starting with `with` in any case is a CTE: no other keyword
      starts with W. */
  lemma WithIsCte(stmt: string)
    requires StartsWith(Upper(Strip(stmt)), "WITH")
    ensures StatementType(stmt) == "CTE"
  {
    var u := Upper(Strip(stmt));
    assert u[0] == 'W';
  }

  // ------------------------------------------------------ procedure body

  /** `\w` for ASCII text. */
  predicate IsWordChar(c: char) {
    ('a' <= c <= 'z') || ('A' <= c <= 'Z') || ('0' <= c <= '9') || c == '_'
  }

  /** The upper-case keyword `w` is spelled, in any case, at index `i` of `t`. */
  predicate SpelledAt(t: string, w: string, i: int) {
    0 <= i && i + |w| <= |t| && forall j :: 0 <= j < |w| ==> UpperChar(t[i + j]) == w[j]
  }

  /** `\bW\b` matches `t` at `i`, ignoring case. */
  predicate WordAt(t: string, w: string, i: int) {
    SpelledAt(t, w, i) &&
    (i == 0 || !IsWordChar(t[i - 1])) &&
    (i + |w| == |t| || !IsWordChar(t[i + |w|]))
  }

  /** `re.search(r'\bW\b', t, re.IGNORECASE)` from index `i`: the first
      match, if any. */
  function FindWord(t: string, w: string, i: nat): Option<nat>
    decreases |t| - i
  {
    if i + |w| > |t| then None
    else if WordAt(t, w, i) then Some(i)
    else FindWord(t, w, i + 1)
  }

  /** `FindWord` finds the first match, and finds nothing only when there is
      no match. */
  lemma {:induction false} FindWordFirst(t: string, w: string, i: nat)
    ensures var r := FindWord(t, w, i);
      (r.Some? ==> i <= r.value && WordAt(t, w, r.value) && forall k :: i <= k < r.value ==> !WordAt(t, w, k)) &&
      (r.None? ==> forall k :: i <= k ==> !WordAt(t, w, k))
    decreases |t| - i
  {
    if i + |w| <= |t| && !WordAt(t, w, i) {
      FindWordFirst(t, w, i + 1);
    }
  }

  /** What one round of the scan sees first in the rest of the text. */
  datatype Hit = Begin(at: nat) | End(at: nat) | Neither

  /** One round of the loop: a BEGIN that comes before every END wins,
      otherwise the first END, if any. */
  function NextKeyword(t: string): Hit {
    var b := FindWord(t, "BEGIN", 0);
    var e := FindWord(t, "END", 0);
    if b.Some? && (e.None? || b.value < e.value) then Begin(b.value)
    else if e.Some? then End(e.value)
    else Neither
  }

  /** A reported keyword is really there as a whole word. */
  lemma NextKeywordFound(t: string)
    ensures NextKeyword(t).Begin? ==> WordAt(t, "BEGIN", NextKeyword(t).at)
    ensures NextKeyword(t).End? ==> WordAt(t, "END", NextKeyword(t).at)
  {
    FindWordFirst(t, "BEGIN", 0);
    FindWordFirst(t, "END", 0);
  }

  /** The loop of `_extract_procedure_body` from offset `pos` with `count`
      blocks open: the offset `pos` reached and the offset of the closing END
      within `s[pos..]`, for the END that brings the count to zero. The END
      found lies within the text, at or after the offset the scan started
      from. */
  function ClosingEnd(s: string, pos: nat, count: nat): (r: Option<(nat, nat)>)
    ensures r.Some? ==>
      pos <= r.value.0 && r.value.0 + r.value.1 + 3 <= |s| && WordAt(s[r.value.0..], "END", r.value.1)
    decreases |s| - pos
  {
    if pos >= |s| || count == 0 then None
    else
      NextKeywordFound(s[pos..]);
      match NextKeyword(s[pos..])
      case Begin(b) => ClosingEnd(s, pos + b + 5, count + 1)
      case End(e) => if count - 1 == 0 then Some((pos, e)) else ClosingEnd(s, pos + e + 3, count - 1)
      case Neither => None
  }

  /** One round of `ClosingEnd`, unfolded. */
  lemma ClosingEndStep(s: string, pos: nat, count: nat)
    requires pos < |s| && count > 0
    ensures ClosingEnd(s, pos, count) ==
      match NextKeyword(s[pos..])
      case Begin(b) => ClosingEnd(s, pos + b + 5, count + 1)
      case End(e) => if count == 1 then Some((pos, e)) else ClosingEnd(s, pos + e + 3, count - 1)
      case Neither => None
  {
  }

  /** A whole-word match inside a suffix is a spelling in the whole text. */
  lemma SpelledInSuffix(s: string, pos: nat, w: string, i: nat)
    requires pos <= |s| && WordAt(s[pos..], w, i)
    ensures SpelledAt(s, w, pos + i)
  {
    forall j | 0 <= j < |w|
      ensures UpperChar(s[pos + i + j]) == w[j]
    {
      assert s[pos..][i + j] == s[pos + i + j];
    }
  }

  /** Where the script cuts the body off: `header` is where the
      `CREATE PROCEDURE ... AS BEGIN` match ends, if there is one, and the
      END's offset within `s[pos..]` is added to the START of the body. */
  function ProcedureEnd(s: string, header: Option<nat>): (r: Option<nat>)
    requires header.Some? ==> header.value <= |s|
    ensures r.Some? ==> header.Some? && header.value <= r.value <= |s|
  {
    if header.None? then None
    else
      match ClosingEnd(s, header.value, 1)
      case None => None
      case Some((pos, rel)) => Some(header.value + rel)
  }

  /** The corrected cut: the END's offset is added to the offset the scan
      had reached, so the body stops exactly where the closing END is
      spelled. */
  function FixedProcedureEnd(s: string, header: Option<nat>): (r: Option<nat>)
    requires header.Some? ==> header.value <= |s|
    ensures r.Some? ==> header.Some? && header.value <= r.value <= |s|
  {
    if header.None? then None
    else
      match ClosingEnd(s, header.value, 1)
      case None => None
      case Some((pos, rel)) => Some(pos + rel)
  }

  /** The corrected cut lies where the closing END is spelled. */
  lemma FixedCutAtEnd(s: string, header: Option<nat>)
    requires header.Some? ==> header.value <= |s|
    ensures var r := FixedProcedureEnd(s, header); r.Some? ==> SpelledAt(s, "END", r.value)
  {
    if header.Some? {
      match ClosingEnd(s, header.value, 1)
      case None =>
      case Some((pos, rel)) => SpelledInSuffix(s, pos, "END", rel);
    }
  }

  /** The corrected cut, once the scan has found the closing END. */
  lemma FixedEndAt(s: string, start: nat, pos: nat, e: nat)
    requires start <= |s| && ClosingEnd(s, start, 1) == Some((pos, e))
    ensures FixedProcedureEnd(s, Some(start)) == Some(pos + e)
  {
  }

  /** `_extract_procedure_body`'s result for a given cut: the stripped text
      between the header and the cut if that is longer than 100 characters,
      else the whole script. A cut at offset 0 counts as no cut. */
  function BodyUpTo(s: string, header: Option<nat>, end: Option<nat>): (r: string)
    requires header.Some? ==> header.value <= |s|
    requires end.Some? ==> header.Some? && header.value <= end.value <= |s|
    ensures r == s || (|r| > 100 && Contains(s, r))
    ensures r != s ==> header.Some? && end.Some? && end.value != 0
  {
    if end.Some? && end.value != 0 then
      var block := s[header.value..end.value];
      var body := Strip(block);
      if |body| > 100 then
        assert OccursAt(s, block, header.value);
        ContainsAt(s, block);
        ContainsTrans(s, block, body);
        body
      else s
    else s
  }

  /** The body as the script extracts it. */
  function ProcedureBody(s: string, header: Option<nat>): string
    requires header.Some? ==> header.value <= |s|
  {
    BodyUpTo(s, header, ProcedureEnd(s, header))
  }

  /** The body with the corrected cut. */
  function FixedProcedureBody(s: string, header: Option<nat>): string
    requires header.Some? ==> header.value <= |s|
  {
    BodyUpTo(s, header, FixedProcedureEnd(s, header))
  }

  /** One round of `_extract_procedure_body`'s loop: search the rest of the
      text for BEGIN and for END, open a block on a BEGIN that comes first,
      close one on an END, stop when neither is found. `closed` is the END's
      offset within `content[pos..]` when it closes the last block. */
  method ScanRound(content: string, pos: nat, count: nat) returns (pos': nat, count': nat, closed: Option<nat>)
    requires pos < |content| && count > 0
    ensures match NextKeyword(content[pos..])
      case Begin(b) => (pos', count', closed) == (pos + b + 5, count + 1, None)
      case End(e) => (pos', count', closed) == (pos + e + 3, count - 1, if count == 1 then Some(e) else None)
      case Neither => (pos', count', closed) == (pos, 0, None)
  {
    var beginMatch := FindWord(content[pos..], "BEGIN", 0);
    var endMatch := FindWord(content[pos..], "END", 0);
    if beginMatch.Some? && (endMatch.None? || beginMatch.value < endMatch.value) {
      return pos + beginMatch.value + 5, count + 1, None;
    } else if endMatch.Some? {
      if count - 1 == 0 {
        return pos + endMatch.value + 3, 0, Some(endMatch.value);
      }
      return pos + endMatch.value + 3, count - 1, None;
    } else {
      return pos, 0, None;
    }
  }

  /** The nesting loop of `_extract_procedure_body`: from `startPos`, with
      one block open, count BEGIN up and END down until the count reaches
      zero. The result is the offset the last round started from and the
      closing END's offset within the text from there. */
  method ScanToClosingEnd(content: string, startPos: nat) returns (found: Option<(nat, nat)>)
    requires startPos <= |content|
    ensures found == ClosingEnd(content, startPos, 1)
  {
    var beginCount: nat := 1;
    var pos: nat := startPos;
    found := None;
    while pos < |content| && beginCount > 0
      invariant ClosingEnd(content, pos, beginCount) == ClosingEnd(content, startPos, 1)
      invariant found.None?
      decreases |content| - pos
    {
      ClosingEndStep(content, pos, beginCount);
      var pos', count', closed := ScanRound(content, pos, beginCount);
      if closed.Some? {
        found := Some((pos, closed.value));
        return;
      }
      if count' == 0 {
        return;
      }
      pos, beginCount := pos', count';
    }
  }

  /** `_extract_procedure_body`, with the cut placed where the closing END
      is spelled (the script's own cut is `ProcedureEnd`). */
  method ExtractProcedureBody(content: string, header: Option<nat>) returns (body: string)
    requires header.Some? ==> header.value <= |content|
    ensures body == FixedProcedureBody(content, header)
    ensures body == content || (|body| > 100 && Contains(content, body))
  {
    if header.None? {
      return content;
    }
    var found := ScanToClosingEnd(content, header.value);
    var endPos: Option<nat> := None;
    if found.Some? {
      FixedEndAt(content, header.value, found.value.0, found.value.1);
      endPos := Some(found.value.0 + found.value.1);
    }
    assert header == Some(header.value);
    assert endPos == FixedProcedureEnd(content, header);
    body := BodyUpTo(content, header, endPos);
  }

  // ------------------------------------------------- the misplaced cut

  /** Skipping a position where the word does not start. */
  lemma FindWordSkip(t: string, w: string, i: nat)
    requires i + |w| <= |t| && !WordAt(t, w, i)
    ensures FindWord(t, w, i) == FindWord(t, w, i + 1)
  {
  }

  /** The first round on " BEGIN END END" meets the BEGIN. */
  lemma RoundOnBegin(t: string)
    requires t == " BEGIN END END"
    ensures NextKeyword(t) == Begin(1)
  {
    assert UpperChar(t[0]) == ' ' && UpperChar(t[1]) == 'B';
    FindWordSkip(t, "BEGIN", 0);
    assert WordAt(t, "BEGIN", 1);
    FindWordSkip(t, "END", 0);
    FindWordSkip(t, "END", 1);
    FindWordFirst(t, "END", 2);
  }

  /** A round on " END" or " END END" meets the END at offset 1. */
  lemma RoundOnEnd(t: string)
    requires t == " END END" || t == " END"
    ensures NextKeyword(t) == End(1)
  {
    assert UpperChar(t[0]) == ' ' && UpperChar(t[1]) == 'E';
    FindWordSkip(t, "END", 0);
    assert WordAt(t, "END", 1);
    if t == " END END" {
      assert UpperChar(t[2]) == 'N' && UpperChar(t[3]) == 'D';
      FindWordSkip(t, "BEGIN", 0);
      FindWordSkip(t, "BEGIN", 1);
      FindWordSkip(t, "BEGIN", 2);
      FindWordSkip(t, "BEGIN", 3);
    }
  }

  /** On "P BEGIN BEGIN END END" from offset 7 the scan opens a second
      block, closes it, and closes the first at offset 1 of `s[17..]`. */
  lemma ClosingEndExample(s: string)
    requires s == "P BEGIN BEGIN END END"
    ensures ClosingEnd(s, 7, 1) == Some((17, 1))
  {
    assert s[7..] == " BEGIN END END";
    assert s[13..] == " END END";
    assert s[17..] == " END";
    RoundOnBegin(s[7..]);
    RoundOnEnd(s[13..]);
    RoundOnEnd(s[17..]);
    ClosingEndStep(s, 7, 1);
    ClosingEndStep(s, 13, 2);
    ClosingEndStep(s, 17, 1);
  }

  /** Offset 8 of "P BEGIN BEGIN END END" is the B of the nested BEGIN. */
  lemma NoEndAtEight(s: string)
    requires s == "P BEGIN BEGIN END END"
    ensures !SpelledAt(s, "END", 8)
  {
    assert s[8] == 'B' && UpperChar(s[8]) != "END"[0];
  }

  /** On "P BEGIN BEGIN END END" with the header ending at offset 7, the
      closing END sits at offset 18, but the script cuts the body at offset
      8, where no END is spelled. */
  lemma MisplacedCut(s: string)
    requires s == "P BEGIN BEGIN END END"
    ensures ProcedureEnd(s, Some(7)) == Some(8) && !SpelledAt(s, "END", 8)
  {
    NoEndAtEight(s);
    ClosingEndExample(s);
  }

  /** On the same text the corrected cut is the offset of the closing END. */
  lemma FixedCutExample(s: string)
    requires s == "P BEGIN BEGIN END END"
    ensures FixedProcedureEnd(s, Some(7)) == Some(18) && SpelledAt(s, "END", 18)
  {
    ClosingEndExample(s);
    FixedCutAtEnd(s, Some(7));
  }

  // --------------------------------------------- refining the categories

  /** The `{'columns': set(), 'usage_count': n}` record kept per table. */
  datatype Usage = Usage(columns: set<string>, usageCount: nat)

  /** The table names `_extract_table_references` collected per clause,
      lower-cased. */
  datatype TableRefs = TableRefs(fromTables: set<string>, insertTables: set<string>, updateTables: set<string>,
                                 joinTables: set<string>, withTables: set<string>)

  /** Read in FROM or JOIN, written by no INSERT or UPDATE, and not a `#`
      temp table. */
  predicate SourceCandidate(refs: TableRefs, t: string) {
    t in refs.fromTables + refs.joinTables && t !in refs.insertTables && t !in refs.updateTables &&
    !StartsWith(t, "#")
  }

  /** Written by INSERT or UPDATE, not a `#` temp table and without `temp`
      in its lower-cased name. */
  predicate TargetCandidate(refs: TableRefs, t: string) {
    t in refs.insertTables + refs.updateTables && !StartsWith(t, "#") && !Contains(Lower(t), "temp")
  }

  /** Each name of `names` not yet in `m` gets a fresh record with usage 1;
      existing records are left as they are. */
  function AddNew(m: map<string, Usage>, names: set<string>): (r: map<string, Usage>)
    ensures forall k :: k in r <==> k in m || k in names
    ensures forall k :: k in m ==> r[k] == m[k]
    ensures forall k :: k in r && k !in m ==> r[k] == Usage({}, 1)
  {
    map k | k in m.Keys + names :: if k in m then m[k] else Usage({}, 1)
  }

  /** Adding one more name to the set handled so far. */
  lemma AddNewSnoc(m: map<string, Usage>, names: set<string>, t: string)
    ensures AddNew(m, names + {t}) ==
      if t in AddNew(m, names) then AddNew(m, names) else AddNew(m, names)[t := Usage({}, 1)]
  {
  }

  /** One of the three loops of `_refine_table_categorization`: every name
      of `xs` that passes `admit` is added unless already present. */
  method AddAdmitted(m: map<string, Usage>, xs: seq<string>, admit: set<string>) returns (r: map<string, Usage>)
    ensures r == AddNew(m, Elems(xs) * admit)
  {
    r := m;
    var i := 0;
    while i < |xs|
      invariant 0 <= i <= |xs|
      invariant r == AddNew(m, Elems(xs[..i]) * admit)
    {
      ElemsSnoc(xs, i);
      if xs[i] in admit {
        AddNewSnoc(m, Elems(xs[..i]) * admit, xs[i]);
        assert Elems(xs[..i + 1]) * admit == Elems(xs[..i]) * admit + {xs[i]};
        if xs[i] !in r {
          r := r[xs[i] := Usage({}, 1)];
        }
      } else {
        assert Elems(xs[..i + 1]) * admit == Elems(xs[..i]) * admit;
      }
      i := i + 1;
    }
    assert xs[..i] == xs;
  }

  function SourceCandidates(refs: TableRefs): set<string> {
    set t | t in refs.fromTables + refs.joinTables && SourceCandidate(refs, t)
  }

  function TargetCandidates(refs: TableRefs): set<string> {
    set t | t in refs.insertTables + refs.updateTables && TargetCandidate(refs, t)
  }

  /** The parser's three table dictionaries. */
  class GenericParser {
    var sourceTables: map<string, Usage>
    var targetTables: map<string, Usage>
    var intermediateTables: map<string, Usage>

    constructor ()
      ensures sourceTables == map[] && targetTables == map[] && intermediateTables == map[]
    {
      sourceTables := map[];
      targetTables := map[];
      intermediateTables := map[];
    }

    /** `_refine_table_categorization`: sources from FROM/JOIN tables that
        are never written, targets from written tables, intermediates from
        WITH names; an existing record is never replaced. */
    method Refine(refs: TableRefs)
      modifies this
      ensures sourceTables == AddNew(old(sourceTables), SourceCandidates(refs))
      ensures targetTables == AddNew(old(targetTables), TargetCandidates(refs))
      ensures intermediateTables == AddNew(old(intermediateTables), refs.withTables)
    {
      var readTables := Members(refs.fromTables + refs.joinTables);
      var admitted := set t | t in readTables && SourceCandidate(refs, t);
      assert Elems(readTables) * admitted == SourceCandidates(refs);
      sourceTables := AddAdmitted(sourceTables, readTables, admitted);
      var writes := Members(refs.insertTables + refs.updateTables);
      admitted := set t | t in writes && TargetCandidate(refs, t);
      assert Elems(writes) * admitted == TargetCandidates(refs);
      targetTables := AddAdmitted(targetTables, writes, admitted);
      var withs := Members(refs.withTables);
      assert Elems(withs) * refs.withTables == refs.withTables;
      intermediateTables := AddAdmitted(intermediateTables, withs, refs.withTables);
    }
  }

  /** Refining never replaces a record, never files a `#` table as a source
      or a target, never files a written table as a new source, and never
      files a name containing `temp` as a new target. */
  lemma RefineSafe(refs: TableRefs, sources: map<string, Usage>, targets: map<string, Usage>, t: string)
    ensures t in sources ==> AddNew(sources, SourceCandidates(refs))[t] == sources[t]
    ensures t in targets ==> AddNew(targets, TargetCandidates(refs))[t] == targets[t]
    ensures t in AddNew(sources, SourceCandidates(refs)) && t !in sources ==>
      !StartsWith(t, "#") && t !in refs.insertTables && t !in refs.updateTables &&
      AddNew(sources, SourceCandidates(refs))[t] == Usage({}, 1)
    ensures t in AddNew(targets, TargetCandidates(refs)) && t !in targets ==>
      !StartsWith(t, "#") && !Contains(Lower(t), "temp") && AddNew(targets, TargetCandidates(refs))[t] == Usage({}, 1)
  {
  }
}
