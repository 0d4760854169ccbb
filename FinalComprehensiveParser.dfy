/**
 * final_comprehensive_parser.py: column mappings found by the lineage
 * library are gathered statement by statement, then every expected
 * column mapping is validated, first against those technical mappings and,
 * failing that, against business-logic evidence in the procedure text; a
 * second pass counts what the report shows.
 */
module FinalComprehensiveParser {
  import opened Strings
  import opened Common
  import ColumnFlows

  /** The expected column mappings of the settlement procedure. */
  const ExpectedColumnMappings: seq<(string, string)> := [
    ("Staging.Transactions.SrcId", "Core.LedgerFinal.IdempotencyKey"),
    ("Staging.Transactions.TxnExternalId", "Audit.FailedTxn.TxnExternalId"),
    ("Staging.Transactions.AccountNo", "Core.LedgerFinal.AccountId"),
    ("Staging.Transactions.TxnDate", "Core.LedgerFinal.PostingDate"),
    ("Staging.Transactions.ValueDate", "Core.LedgerFinal.PostingDate"),
    ("Staging.Transactions.Amount", "Core.LedgerFinal.AmountBase"),
    ("Staging.Transactions.Currency", "Core.LedgerFinal.AmountBase"),
    ("Staging.Transactions.Direction", "Core.LedgerFinal.Direction"),
    ("Staging.Transactions.TxnType", "Core.LedgerFinal.TxnType"),
    ("Staging.Transactions.Channel", "Core.LedgerFinal.FeeAmount"),
    ("Staging.Transactions.Narrative", "Core.LedgerFinal.Narrative"),
    ("Staging.Transactions.BatchId", "Core.LedgerFinal.BatchId"),
    ("Staging.Transactions.BatchId", "Audit.FailedTxn.BatchId"),
    ("Staging.Transactions.BatchDate", "Core.LedgerFinal.CreatedAt"),
    ("Ref.Account.AccountId", "Core.LedgerFinal.AccountId"),
    ("Ref.Account.BaseCurrency", "Core.LedgerFinal.AmountBase"),
    ("Ref.FeeConfig.FeeFlat", "Core.LedgerFinal.FeeAmount"),
    ("Ref.FeeConfig.FeePct", "Core.LedgerFinal.FeeAmount"),
    ("Ref.GLMap.GLAccount", "Core.GLWork.GLAccount"),
    ("Ref.CurrencyRate.Rate", "Core.LedgerFinal.AmountBase"),
    ("InvalidReason (derived)", "Audit.FailedTxn.Reason")
  ]

  // ---------------------------------------------------- DML statements

  /** A statement the lineage library is run on: not blank, and naming one
      of the four data-changing keywords in upper case. */
  predicate IsDml(stmt: string) {
    Strip(stmt) != "" && ContainsAny(Upper(stmt), ["INSERT", "UPDATE", "MERGE", "WITH"])
  }

  /** `dml_statements`, in their original order. */
  function DmlStatements(stmts: seq<string>): (r: seq<string>)
    ensures |r| <= |stmts|
  {
    if stmts == [] then []
    else
      var last := stmts[|stmts| - 1];
      DmlStatements(stmts[..|stmts| - 1]) + (if IsDml(last) then [last] else [])
  }

  /** The DML statements are exactly the statements that pass the test. */
  lemma {:induction false} DmlStatementsMembers(stmts: seq<string>, s: string)
    ensures s in DmlStatements(stmts) <==> s in stmts && IsDml(s)
  {
    if stmts != [] {
      var n := |stmts| - 1;
      var pre, last := stmts[..n], stmts[n];
      DmlStatementsMembers(pre, s);
      assert stmts == pre + [last];
      assert DmlStatements(stmts) == DmlStatements(pre) + (if IsDml(last) then [last] else []);
      assert s in stmts <==> s in pre || s == last;
    }
  }

  // ------------------------------------------------ technical mappings

  /** What the lineage library yields for one cleaned statement: each
      column-lineage path as the text of its columns, and the source and
      target tables. */
  datatype RunResult = RunResult(paths: seq<seq<string>>, sources: seq<string>, targets: seq<string>)

  /** `(str(mapping[0]), str(mapping[-1]), i+1)` */
  datatype TechMapping = TechMapping(source: string, target: string, statement: nat)

  /** Path `p` gives the technical mapping `t`, ignoring the statement number. */
  predicate Yields(p: seq<string>, t: TechMapping) {
    |p| >= 2 && p[0] == t.source && p[|p| - 1] == t.target
  }

  /** The mappings of statement number `n`: one per path of two or more columns. */
  function PathMappings(n: nat, paths: seq<seq<string>>): (r: seq<TechMapping>)
    ensures |r| <= |paths|
  {
    if paths == [] then []
    else
      var p := paths[|paths| - 1];
      PathMappings(n, paths[..|paths| - 1])
      + (if |p| >= 2 then [TechMapping(p[0], p[|p| - 1], n)] else [])
  }

  lemma {:induction false} PathMappingsMembers(n: nat, paths: seq<seq<string>>, t: TechMapping)
    ensures t in PathMappings(n, paths) <==> t.statement == n && exists j :: 0 <= j < |paths| && Yields(paths[j], t)
  {
    if paths != [] {
      var k := |paths| - 1;
      var pre := paths[..k];
      PathMappingsMembers(n, pre, t);
      if exists j :: 0 <= j < |pre| && Yields(pre[j], t) {
        var j :| 0 <= j < |pre| && Yields(pre[j], t);
        assert paths[j] == pre[j];
      }
      if exists j :: 0 <= j < |paths| && Yields(paths[j], t) {
        var j :| 0 <= j < |paths| && Yields(paths[j], t);
        if j < k { assert pre[j] == paths[j]; }
      }
    }
  }

  /** The mappings of the `n`-th DML statement; one that raised gives none. */
  function StatementMappings(n: nat, outcome: Option<RunResult>): seq<TechMapping> {
    if outcome.Some? then PathMappings(n, outcome.value.paths) else []
  }

  /** `technical_mappings` after the given statements, numbered from 1. */
  function TechnicalMappings(outcomes: seq<Option<RunResult>>): seq<TechMapping> {
    if outcomes == [] then []
    else
      var n := |outcomes|;
      TechnicalMappings(outcomes[..n - 1]) + StatementMappings(n, outcomes[n - 1])
  }

  /** Some path of a statement that did not raise gives `t`. */
  predicate StatementYields(outcome: Option<RunResult>, t: TechMapping) {
    outcome.Some? && exists j :: 0 <= j < |outcome.value.paths| && Yields(outcome.value.paths[j], t)
  }

  /** A technical mapping is the first and last column of a path of some
      statement that did not raise, tagged with that statement's number. */
  lemma {:induction false} TechnicalMappingsMembers(outcomes: seq<Option<RunResult>>, t: TechMapping)
    ensures t in TechnicalMappings(outcomes) <==>
      1 <= t.statement <= |outcomes| && StatementYields(outcomes[t.statement - 1], t)
  {
    if outcomes != [] {
      var n := |outcomes|;
      var pre := outcomes[..n - 1];
      TechnicalMappingsMembers(pre, t);
      if outcomes[n - 1].Some? {
        PathMappingsMembers(n, outcomes[n - 1].value.paths, t);
      }
      if 1 <= t.statement < n {
        assert pre[t.statement - 1] == outcomes[t.statement - 1];
      }
    }
  }

  /** `table_relationships` after the given statements: every source ×
      target pair of every statement that did not raise. */
  function Relationships(outcomes: seq<Option<RunResult>>): map<string, set<string>> {
    if outcomes == [] then map[]
    else
      var n := |outcomes|;
      var g := Relationships(outcomes[..n - 1]);
      var last := outcomes[n - 1];
      if last.Some? then ColumnFlows.AddEdges(g, Product(last.value.sources, last.value.targets)) else g
  }

  /** A table is related to another exactly when some statement read the
      first and wrote the second. */
  lemma {:induction false} RelationshipsMembers(outcomes: seq<Option<RunResult>>, s: string, t: string)
    ensures t in TargetSet(Relationships(outcomes), s) <==>
      exists i :: 0 <= i < |outcomes| && outcomes[i].Some? && s in outcomes[i].value.sources && t in outcomes[i].value.targets
  {
    if outcomes != [] {
      var n := |outcomes|;
      var pre := outcomes[..n - 1];
      RelationshipsMembers(pre, s, t);
      var last := outcomes[n - 1];
      if last.Some? {
        ColumnFlows.AddEdgesFacts(Relationships(pre), Product(last.value.sources, last.value.targets), s, t);
        ProductMembers(last.value.sources, last.value.targets, s, t);
      }
      if exists i :: 0 <= i < n - 1 && pre[i].Some? && s in pre[i].value.sources && t in pre[i].value.targets {
        var i :| 0 <= i < n - 1 && pre[i].Some? && s in pre[i].value.sources && t in pre[i].value.targets;
        assert outcomes[i] == pre[i];
      }
      if exists i :: 0 <= i < n && outcomes[i].Some? && s in outcomes[i].value.sources && t in outcomes[i].value.targets {
        var i :| 0 <= i < n && outcomes[i].Some? && s in outcomes[i].value.sources && t in outcomes[i].value.targets;
        if i < n - 1 { assert pre[i] == outcomes[i]; }
      }
    }
  }

  /** The inner loop: append the mapping of every path of two or more columns. */
  method AddPathMappings(tms: seq<TechMapping>, n: nat, paths: seq<seq<string>>) returns (tms': seq<TechMapping>)
    ensures tms' == tms + PathMappings(n, paths)
  {
    tms' := tms;
    var j := 0;
    while j < |paths|
      invariant 0 <= j <= |paths|
      invariant tms' == tms + PathMappings(n, paths[..j])
    {
      var p := paths[j];
      assert paths[..j + 1][..j] == paths[..j];
      if |p| >= 2 {
        tms' := tms' + [TechMapping(p[0], p[|p| - 1], n)];
      }
      j := j + 1;
    }
    assert paths[..j] == paths;
  }

  /** The statement loop: run the library on each DML statement, skipping
      those where it raises. */
  method CollectTechnical(outcomes: seq<Option<RunResult>>)
    returns (tms: seq<TechMapping>, relationships: map<string, set<string>>)
    ensures tms == TechnicalMappings(outcomes)
    ensures relationships == Relationships(outcomes)
  {
    tms, relationships := [], map[];
    var i := 0;
    while i < |outcomes|
      invariant 0 <= i <= |outcomes|
      invariant (tms, relationships) == (TechnicalMappings(outcomes[..i]), Relationships(outcomes[..i]))
    {
      assert outcomes[..i + 1][..i] == outcomes[..i];
      var outcome := outcomes[i];
      assert outcomes[..i + 1][i] == outcome;
      if outcome.Some? {
        tms := AddPathMappings(tms, i + 1, outcome.value.paths);
        relationships := ColumnFlows.AddEdges(relationships, Product(outcome.value.sources, outcome.value.targets));
      }
      assert tms == TechnicalMappings(outcomes[..i + 1]);
      assert relationships == Relationships(outcomes[..i + 1]);
      i := i + 1;
    }
    assert outcomes[..i] == outcomes;
  }

  // --------------------------------------------------- technical match

  /** `s.lower().replace(" ", "")` */
  function Normalize(s: string): (r: string)
    ensures ' ' !in r
  {
    ReplaceCharGone(Lower(s), ' ');
    ReplaceAll(Lower(s), " ", "")
  }

  /** The test inside the technical loop, on normalized names: both names
      occur in the technical pair, or some dotted part of each does. */
  predicate TechMatch(sourceNorm: string, targetNorm: string, t: TechMapping) {
    var ts := Normalize(t.source);
    var tt := Normalize(t.target);
    (Contains(ts, sourceNorm) && Contains(tt, targetNorm)) ||
    (ContainsAny(ts, Split(sourceNorm, '.')) && ContainsAny(tt, Split(targetNorm, '.')))
  }

  /** Some technical mapping passes the test. */
  predicate TechnicallyFound(sourceNorm: string, targetNorm: string, tms: seq<TechMapping>) {
    exists i :: 0 <= i < |tms| && TechMatch(sourceNorm, targetNorm, tms[i])
  }

  /** The first piece of a split is a prefix of the text. */
  lemma {:induction false} SplitFirstPrefix(s: string, sep: char)
    ensures StartsWith(s, Split(s, sep)[0])
  {
    if s != [] && s[0] != sep {
      SplitFirstPrefix(s[1..], sep);
      var rest := Split(s[1..], sep);
      assert s == [s[0]] + s[1..];
      assert s[..|rest[0]| + 1] == [s[0]] + s[1..][..|rest[0]|];
    }
  }

  /** The whole-name test adds nothing: a text holding the name holds its
      first dotted part, so a match is decided by the dotted parts alone. */
  lemma ExactMatchIsPartial(sourceNorm: string, targetNorm: string, t: TechMapping)
    ensures TechMatch(sourceNorm, targetNorm, t) <==>
      ContainsAny(Normalize(t.source), Split(sourceNorm, '.')) && ContainsAny(Normalize(t.target), Split(targetNorm, '.'))
  {
    var ts := Normalize(t.source);
    var tt := Normalize(t.target);
    if Contains(ts, sourceNorm) && Contains(tt, targetNorm) {
      SplitFirstPrefix(sourceNorm, '.');
      SplitFirstPrefix(targetNorm, '.');
      ContainsPrefix(sourceNorm, Split(sourceNorm, '.')[0]);
      ContainsPrefix(targetNorm, Split(targetNorm, '.')[0]);
      ContainsTrans(ts, sourceNorm, Split(sourceNorm, '.')[0]);
      ContainsTrans(tt, targetNorm, Split(targetNorm, '.')[0]);
    }
  }

  /** The technical loop, which stops at the first match. */
  method FindTechnical(sourceNorm: string, targetNorm: string, tms: seq<TechMapping>) returns (found: bool)
    ensures found <==> TechnicallyFound(sourceNorm, targetNorm, tms)
  {
    found := false;
    var i := 0;
    while i < |tms|
      invariant 0 <= i <= |tms|
      invariant !found
      invariant forall k :: 0 <= k < i ==> !TechMatch(sourceNorm, targetNorm, tms[k])
    {
      var ts := Normalize(tms[i].source);
      var tt := Normalize(tms[i].target);
      if (Contains(ts, sourceNorm) && Contains(tt, targetNorm)) ||
         (ContainsAny(ts, Split(sourceNorm, '.')) && ContainsAny(tt, Split(targetNorm, '.')))
      {
        found := true;
        return;
      }
      i := i + 1;
    }
  }

  // -------------------------------------------------- business evidence

  /** The lower-cased text before the first dot (the whole name without one). */
  function TablePart(col: string): (r: string)
    ensures '.' !in r
  {
    if '.' in col then
      LowerKeeps(FirstSegment(col), '.');
      Lower(FirstSegment(col))
    else
      LowerKeeps(col, '.');
      Lower(col)
  }

  /** The source table with its `ref.` and `staging.` prefixes removed. */
  function SourceTableKey(col: string): string {
    ReplaceAll(ReplaceAll(TablePart(col), "ref.", ""), "staging.", "")
  }

  /** The target table with its `core.` and `audit.` prefixes removed. */
  function TargetTableKey(col: string): string {
    ReplaceAll(ReplaceAll(TablePart(col), "core.", ""), "audit.", "")
  }

  /** A text without a dot holds no pattern ending in one. */
  lemma NoDottedPattern(s: string, pat: string)
    requires '.' !in s && |pat| > 0 && pat[|pat| - 1] == '.'
    ensures ReplaceAll(s, pat, "") == s
  {
    if Contains(s, pat) {
      ContainsCharOf(s, pat, |pat| - 1);
    }
    ReplaceAbsent(s, pat, "");
  }

  /** The prefix removal never changes anything: the table part was cut at
      the first dot, so it cannot hold `ref.`, `staging.`, `core.` or `audit.`. */
  lemma PrefixRemovalIsIdentity(col: string)
    ensures SourceTableKey(col) == TablePart(col)
    ensures TargetTableKey(col) == TablePart(col)
  {
    var t := TablePart(col);
    NoDottedPattern(t, "ref.");
    NoDottedPattern(t, "staging.");
    NoDottedPattern(t, "core.");
    NoDottedPattern(t, "audit.");
  }

  /** The procedure text; the two regular-expression searches are given as
      their outcomes: `fee.*calculation|calculate.*fee` and `fx|currency|rate`,
      both case-insensitive. */
  datatype Sql = Sql(text: string, feeCalculation: bool, currencyTerms: bool)

  predicate FeePattern(source: string, target: string, sql: Sql) {
    Contains(Lower(source), "fee") && Contains(Lower(target), "fee") && sql.feeCalculation
  }

  predicate CurrencyPattern(source: string, target: string, sql: Sql) {
    Contains(Lower(source), "currency") && Contains(Lower(target), "amount") && sql.currencyTerms
  }

  predicate SourceReferenced(source: string, sql: Sql) {
    Contains(Lower(sql.text), SourceTableKey(source))
  }

  predicate TargetReferenced(target: string, sql: Sql) {
    Contains(Lower(sql.text), TargetTableKey(target))
  }

  /** `business_evidence`: a point per table reference, two per pattern. */
  function BusinessEvidence(source: string, target: string, sql: Sql): (r: nat)
    ensures r <= 6
  {
    (if SourceReferenced(source, sql) then 1 else 0)
    + (if TargetReferenced(target, sql) then 1 else 0)
    + (if FeePattern(source, target, sql) then 2 else 0)
    + (if CurrencyPattern(source, target, sql) then 2 else 0)
  }

  /** Two points take a pattern or both tables; three take a pattern with a
      table, or both patterns. */
  lemma BusinessThresholds(source: string, target: string, sql: Sql)
    ensures var b := BusinessEvidence(source, target, sql);
      var pattern := FeePattern(source, target, sql) || CurrencyPattern(source, target, sql);
      var table := SourceReferenced(source, sql) || TargetReferenced(target, sql);
      && (b >= 2 <==> pattern || (SourceReferenced(source, sql) && TargetReferenced(target, sql)))
      && (b >= 3 <==> (pattern && table) || (FeePattern(source, target, sql) && CurrencyPattern(source, target, sql)))
      && (b == 0 <==> !pattern && !table)
  {
  }

  // ------------------------------------------------------------ grading

  datatype EvidenceType = TechnicalMatch | StrongBusinessLogic | ModerateBusinessLogic | WeakEvidence | NotFound

  /** `evidence_type` */
  function Grade(found: bool, business: nat): (e: EvidenceType)
    ensures e == TechnicalMatch <==> found
    ensures e == StrongBusinessLogic <==> !found && business >= 3
    ensures e == ModerateBusinessLogic <==> !found && business == 2
    ensures e == WeakEvidence <==> !found && business == 1
    ensures e == NotFound <==> !found && business == 0
  {
    if found then TechnicalMatch
    else if business >= 3 then StrongBusinessLogic
    else if business >= 2 then ModerateBusinessLogic
    else if business >= 1 then WeakEvidence
    else NotFound
  }

  /** The text the report stores for an evidence type. */
  function Label(e: EvidenceType): string {
    match e
    case TechnicalMatch => "Technical Match"
    case StrongBusinessLogic => "Strong Business Logic"
    case ModerateBusinessLogic => "Moderate Business Logic"
    case WeakEvidence => "Weak Evidence"
    case NotFound => "Not Found"
  }

  /** One entry of `validation_results`. */
  datatype Row = Row(source: string, target: string, evidence: EvidenceType, validated: bool)

  /** The validation of one expected mapping. Business evidence is only
      gathered when no technical mapping matched. */
  function RowOf(source: string, target: string, tms: seq<TechMapping>, sql: Sql): Row {
    var found := TechnicallyFound(Normalize(source), Normalize(target), tms);
    var business := if found then 0 else BusinessEvidence(source, target, sql);
    Row(source, target, Grade(found, business), found || business >= 2)
  }

  /** What the second pass counts as validated. */
  predicate ShownValidated(e: EvidenceType) {
    e == TechnicalMatch || e == StrongBusinessLogic || e == ModerateBusinessLogic
  }

  /** The `validated` flag and the evidence type agree: a mapping is
      validated exactly when the report shows it as technical, business
      logic or moderate. */
  lemma RowConsistent(source: string, target: string, tms: seq<TechMapping>, sql: Sql)
    ensures var r := RowOf(source, target, tms, sql);
      r.validated <==> ShownValidated(r.evidence)
  {
  }

  /** A row is validated exactly when a technical mapping matched, or the
      procedure shows a business pattern or references both tables. */
  lemma RowValidatedMeaning(source: string, target: string, tms: seq<TechMapping>, sql: Sql)
    ensures RowOf(source, target, tms, sql).validated <==>
      TechnicallyFound(Normalize(source), Normalize(target), tms) ||
      FeePattern(source, target, sql) || CurrencyPattern(source, target, sql) ||
      (SourceReferenced(source, sql) && TargetReferenced(target, sql))
  {
    BusinessThresholds(source, target, sql);
  }

  /** The body of the validation loop for one expected mapping. */
  method ValidateMapping(source: string, target: string, tms: seq<TechMapping>, sql: Sql) returns (row: Row)
    ensures row == RowOf(source, target, tms, sql)
  {
    var found := FindTechnical(Normalize(source), Normalize(target), tms);
    var evidence := NotFound;
    if found {
      evidence := TechnicalMatch;
    }
    var business := 0;
    if !found {
      var text := Lower(sql.text);
      if Contains(text, SourceTableKey(source)) {
        business := business + 1;
      }
      if Contains(text, TargetTableKey(target)) {
        business := business + 1;
      }
      if Contains(Lower(source), "fee") && Contains(Lower(target), "fee") {
        if sql.feeCalculation {
          business := business + 2;
        }
      }
      if Contains(Lower(source), "currency") && Contains(Lower(target), "amount") {
        if sql.currencyTerms {
          business := business + 2;
        }
      }
      if business >= 3 {
        evidence := StrongBusinessLogic;
      } else if business >= 2 {
        evidence := ModerateBusinessLogic;
      } else if business >= 1 {
        evidence := WeakEvidence;
      }
    }
    row := Row(source, target, evidence, found || business >= 2);
  }

  /** `validation_results` */
  function Rows(mappings: seq<(string, string)>, tms: seq<TechMapping>, sql: Sql): (rows: seq<Row>)
    ensures |rows| == |mappings|
  {
    seq(|mappings|, i requires 0 <= i < |mappings| => RowOf(mappings[i].0, mappings[i].1, tms, sql))
  }

  /** Validating one more expected mapping appends its row. */
  lemma RowsSnoc(mappings: seq<(string, string)>, tms: seq<TechMapping>, sql: Sql, i: nat)
    requires i < |mappings|
    ensures Rows(mappings[..i + 1], tms, sql) == Rows(mappings[..i], tms, sql) + [RowOf(mappings[i].0, mappings[i].1, tms, sql)]
  {
    var a, b := Rows(mappings[..i + 1], tms, sql), Rows(mappings[..i], tms, sql);
    forall k | 0 <= k < i ensures a[k] == b[k] {
      assert mappings[..i + 1][k] == mappings[..i][k];
    }
  }

  // ------------------------------------------------------------ counters

  /** The number of rows the second pass counts as validated. */
  function ShownCount(rows: seq<Row>): (n: nat)
    ensures n <= |rows|
  {
    if rows == [] then 0
    else ShownCount(rows[..|rows| - 1]) + (if ShownValidated(rows[|rows| - 1].evidence) then 1 else 0)
  }

  /** The number of rows whose `validated` flag is set. */
  function FlaggedCount(rows: seq<Row>): (n: nat)
    ensures n <= |rows|
  {
    if rows == [] then 0
    else FlaggedCount(rows[..|rows| - 1]) + (if rows[|rows| - 1].validated then 1 else 0)
  }

  /** The number of rows with a given evidence type. */
  function EvidenceCount(rows: seq<Row>, e: EvidenceType): (n: nat)
    ensures n <= |rows|
  {
    if rows == [] then 0
    else EvidenceCount(rows[..|rows| - 1], e) + (if rows[|rows| - 1].evidence == e then 1 else 0)
  }

  /** Technical and strong business-logic matches are both counted as validated. */
  lemma {:induction false} CountsNested(rows: seq<Row>)
    ensures EvidenceCount(rows, TechnicalMatch) + EvidenceCount(rows, StrongBusinessLogic) <= ShownCount(rows)
  {
    if rows != [] {
      CountsNested(rows[..|rows| - 1]);
    }
  }

  /** When every flag agrees with its evidence type, `validated_count`
      equals the number of rows returned in `validated_mappings`. */
  lemma {:induction false} ShownIsFlagged(rows: seq<Row>)
    requires forall r <- rows :: r.validated <==> ShownValidated(r.evidence)
    ensures ShownCount(rows) == FlaggedCount(rows)
  {
    if rows != [] {
      ShownIsFlagged(rows[..|rows| - 1]);
    }
  }

  /** `[r for r in validation_results if r['validated']]` */
  function ValidatedRows(rows: seq<Row>): (r: seq<Row>)
    ensures |r| == FlaggedCount(rows)
  {
    if rows == [] then []
    else
      var last := rows[|rows| - 1];
      ValidatedRows(rows[..|rows| - 1]) + (if last.validated then [last] else [])
  }

  /** The second pass over the results, counting by evidence type. */
  method Summarize(rows: seq<Row>) returns (validatedCount: nat, technicalMatches: nat, businessLogicMatches: nat)
    ensures validatedCount == ShownCount(rows)
    ensures technicalMatches == EvidenceCount(rows, TechnicalMatch)
    ensures businessLogicMatches == EvidenceCount(rows, StrongBusinessLogic)
  {
    validatedCount, technicalMatches, businessLogicMatches := 0, 0, 0;
    var i := 0;
    while i < |rows|
      invariant 0 <= i <= |rows|
      invariant (validatedCount, technicalMatches, businessLogicMatches) ==
        (ShownCount(rows[..i]), EvidenceCount(rows[..i], TechnicalMatch), EvidenceCount(rows[..i], StrongBusinessLogic))
    {
      assert rows[..i + 1][..i] == rows[..i];
      var evidence := rows[i].evidence;
      if evidence == TechnicalMatch {
        technicalMatches := technicalMatches + 1;
        validatedCount := validatedCount + 1;
      } else if evidence == StrongBusinessLogic {
        businessLogicMatches := businessLogicMatches + 1;
        validatedCount := validatedCount + 1;
      } else if evidence == ModerateBusinessLogic {
        validatedCount := validatedCount + 1;
      }
      i := i + 1;
    }
    assert rows[..i] == rows;
  }

  /** What the lineage library makes of each DML statement, in order. */
  function DmlOutcomes(statements: seq<string>, runner: string -> Option<RunResult>): (os: seq<Option<RunResult>>)
    ensures |os| == |DmlStatements(statements)|
  {
    var dml := DmlStatements(statements);
    seq(|dml|, i requires 0 <= i < |dml| => runner(dml[i]))
  }

  /** `comprehensive_lineage_report` after the procedure body has been read
      and split: collect the technical mappings, validate every expected
      mapping, and count. `runner` stands for the lineage library applied
      to a statement with its `@` variables replaced. */
  method ComprehensiveReport(statements: seq<string>, runner: string -> Option<RunResult>,
                             mappings: seq<(string, string)>, sql: Sql)
    returns (tms: seq<TechMapping>, relationships: map<string, set<string>>, rows: seq<Row>,
             validatedCount: nat, technicalMatches: nat, businessLogicMatches: nat)
    ensures tms == TechnicalMappings(DmlOutcomes(statements, runner))
    ensures relationships == Relationships(DmlOutcomes(statements, runner))
    ensures rows == Rows(mappings, tms, sql)
    ensures validatedCount == FlaggedCount(rows) == |ValidatedRows(rows)| <= |mappings|
    ensures technicalMatches + businessLogicMatches <= validatedCount
  {
    tms, relationships := CollectTechnical(DmlOutcomes(statements, runner));
    rows := [];
    var i := 0;
    while i < |mappings|
      invariant 0 <= i <= |mappings|
      invariant rows == Rows(mappings[..i], tms, sql)
    {
      var row := ValidateMapping(mappings[i].0, mappings[i].1, tms, sql);
      RowsSnoc(mappings, tms, sql, i);
      rows := rows + [row];
      i := i + 1;
    }
    assert mappings[..i] == mappings;
    validatedCount, technicalMatches, businessLogicMatches := Summarize(rows);
    forall r <- rows
      ensures r.validated <==> ShownValidated(r.evidence)
    {
      var k :| 0 <= k < |rows| && rows[k] == r;
      RowConsistent(mappings[k].0, mappings[k].1, tms, sql);
    }
    ShownIsFlagged(rows);
    CountsNested(rows);
  }
}
