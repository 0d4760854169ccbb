/**
 * business_logic_lineage_analyzer.py: `manual_lineage_analysis` scores each
 * expected column mapping by the evidence the procedure's text holds for it,
 * grades the score as strong, moderate or weak evidence, and sorts the
 * graded mappings into three buckets.
 */
module BusinessLogicAnalyzer {
  import opened Strings
  import opened Common

  /** One expected mapping: source column, target column, the confidence the
      analyst gave it and a description. */
  datatype Expected = Expected(source: string, target: string, confidence: string, description: string)

  /** The expected lineage the analysis validates. */
  const ExpectedMappings: seq<Expected> := [
    Expected("Staging.Transactions.SrcId", "Core.LedgerFinal.IdempotencyKey", "HIGH", "Direct hash/ID mapping"),
    Expected("Staging.Transactions.TxnExternalId", "Audit.FailedTxn.TxnExternalId", "HIGH", "Direct field copy"),
    Expected("Staging.Transactions.AccountNo", "Core.LedgerFinal.AccountId", "MEDIUM", "Via Ref.Account join"),
    Expected("Staging.Transactions.TxnDate", "Core.LedgerFinal.PostingDate", "HIGH", "Direct date mapping"),
    Expected("Staging.Transactions.ValueDate", "Core.LedgerFinal.PostingDate", "MEDIUM", "Alternative date source"),
    Expected("Staging.Transactions.Amount", "Core.LedgerFinal.AmountBase", "MEDIUM", "Via currency conversion"),
    Expected("Staging.Transactions.Currency", "Core.LedgerFinal.AmountBase", "MEDIUM", "Currency conversion factor"),
    Expected("Staging.Transactions.Direction", "Core.LedgerFinal.Direction", "HIGH", "Direct field copy"),
    Expected("Staging.Transactions.TxnType", "Core.LedgerFinal.TxnType", "HIGH", "Direct field copy"),
    Expected("Staging.Transactions.Channel", "Core.LedgerFinal.FeeAmount", "MEDIUM", "Via fee calculation"),
    Expected("Staging.Transactions.Narrative", "Core.LedgerFinal.Narrative", "HIGH", "Direct field copy"),
    Expected("Staging.Transactions.BatchId", "Core.LedgerFinal.BatchId", "HIGH", "Direct field copy"),
    Expected("Staging.Transactions.BatchId", "Audit.FailedTxn.BatchId", "HIGH", "Direct field copy"),
    Expected("Staging.Transactions.BatchDate", "Core.LedgerFinal.CreatedAt", "MEDIUM", "Date transformation"),
    Expected("Ref.Account.AccountId", "Core.LedgerFinal.AccountId", "HIGH", "Account resolution"),
    Expected("Ref.Account.BaseCurrency", "Core.LedgerFinal.AmountBase", "MEDIUM", "Currency conversion"),
    Expected("Ref.FeeConfig.FeeFlat", "Core.LedgerFinal.FeeAmount", "MEDIUM", "Fee calculation"),
    Expected("Ref.FeeConfig.FeePct", "Core.LedgerFinal.FeeAmount", "MEDIUM", "Fee calculation"),
    Expected("Ref.GLMap.GLAccount", "Core.GLWork.GLAccount", "HIGH", "GL account mapping"),
    Expected("Ref.CurrencyRate.Rate", "Core.LedgerFinal.AmountBase", "MEDIUM", "FX conversion"),
    Expected("InvalidReason (derived)", "Audit.FailedTxn.Reason", "HIGH", "Business rule validation")
  ]

  /** What the regular-expression searches over the procedure's text find.
      The three column patterns are built from the lower-cased source and
      target column names, so each is a predicate over that pair:
      `assignment` is "target = ... source", `alias` is "source ... AS target",
      `selectTogether` is "SELECT ... source ... target". */
  datatype Sql = Sql(text: string,
                     assignment: (string, string) -> bool,
                     alias: (string, string) -> bool,
                     selectTogether: (string, string) -> bool,
                     feeCalculation: bool,
                     currencyConversion: bool,
                     glMapping: bool)

  /** One line of `evidence_details`; each line stands for the points it earned. */
  datatype Evidence =
    | DirectAssignment
    | ColumnAlias
    | SelectTogether
    | SourceTableReferenced(table: string)
    | TargetTableReferenced(table: string)
    | FeeLogic
    | CurrencyLogic
    | GlLogic
  {
    predicate IsColumnLevel() {
      DirectAssignment? || ColumnAlias? || SelectTogether?
    }

    predicate IsTableLevel() {
      SourceTableReferenced? || TargetTableReferenced?
    }

    predicate IsPattern() {
      FeeLogic? || CurrencyLogic? || GlLogic?
    }
  }

  function Points(e: Evidence): nat {
    match e
    case DirectAssignment => 3
    case ColumnAlias => 3
    case SelectTogether => 1
    case SourceTableReferenced(_) => 1
    case TargetTableReferenced(_) => 1
    case FeeLogic => 2
    case CurrencyLogic => 2
    case GlLogic => 2
  }

  /** The points a list of evidence lines earned, in the order they were added. */
  function Total(es: seq<Evidence>): nat {
    if es == [] then 0 else Total(es[..|es| - 1]) + Points(es[|es| - 1])
  }

  /** The number of column-level lines. */
  function ColumnLines(es: seq<Evidence>): nat {
    if es == [] then 0 else ColumnLines(es[..|es| - 1]) + (if es[|es| - 1].IsColumnLevel() then 1 else 0)
  }

  lemma TotalSnoc(es: seq<Evidence>, e: Evidence)
    ensures Total(es + [e]) == Total(es) + Points(e)
  {
    assert (es + [e])[..|es|] == es;
  }

  lemma {:induction false} TotalAppend(a: seq<Evidence>, b: seq<Evidence>)
    ensures Total(a + b) == Total(a) + Total(b)
  {
    if b != [] {
      var last := b[|b| - 1];
      TotalAppend(a, b[..|b| - 1]);
      assert a + b == (a + b[..|b| - 1]) + [last];
      TotalSnoc(a + b[..|b| - 1], last);
      assert b == b[..|b| - 1] + [last];
      TotalSnoc(b[..|b| - 1], last);
    } else {
      assert a + b == a;
    }
  }

  lemma {:induction false} ColumnLinesAppend(a: seq<Evidence>, b: seq<Evidence>)
    ensures ColumnLines(a + b) == ColumnLines(a) + ColumnLines(b)
  {
    if b != [] {
      ColumnLinesAppend(a, b[..|b| - 1]);
      assert (a + b)[..|a + b| - 1] == a + b[..|b| - 1];
    } else {
      assert a + b == a;
    }
  }

  // ------------------------------------------------------------ name parts

  /** `name.split('.')`: the first piece, lower-cased, is the table; the
      second, lower-cased, is the column, or "" when there is only one piece. */
  function NameParts(name: string): (r: (string, string))
    ensures '.' !in r.0 && '.' !in r.1
    ensures '.' !in name ==> r == (Lower(name), "")
  {
    var parts := Split(name, '.');
    SplitNoSep(name, '.');
    SplitCount(name, '.');
    LowerKeeps(parts[0], '.');
    if |parts| >= 2 then
      LowerKeeps(parts[1], '.');
      (Lower(parts[0]), Lower(parts[1]))
    else
      SplitWhole(name, '.');
      (Lower(parts[0]), "")
  }

  /** A `table.column` name splits into its two halves. */
  lemma QualifiedParts(table: string, column: string)
    requires '.' !in table && '.' !in column
    ensures NameParts(table + "." + column) == (Lower(table), Lower(column))
  {
    SplitFirstPiece(table, column, '.');
    SplitWhole(column, '.');
  }

  /** A `schema.table.column` name, the form every expected mapping but the
      derived one takes, yields the schema as the table and the table as the
      column. */
  lemma SchemaQualifiedParts(schema: string, table: string, column: string)
    requires '.' !in schema && '.' !in table && '.' !in column
    ensures NameParts(schema + "." + table + "." + column) == (Lower(schema), Lower(table))
  {
    assert schema + "." + table + "." + column == schema + ['.'] + (table + "." + column);
    SplitFirstPiece(schema, table + "." + column, '.');
    SplitFirstPiece(table, column, '.');
    SplitWhole(column, '.');
  }

  // ------------------------------------------------------------- evidence

  /** A line that is added when its test holds. */
  function When(test: bool, e: Evidence): (r: seq<Evidence>)
    ensures e in r <==> test
    ensures forall x <- r :: x == e
    ensures Total(r) == (if test then Points(e) else 0)
    ensures ColumnLines(r) == (if test && e.IsColumnLevel() then 1 else 0)
    ensures |r| == (if test then 1 else 0)
  {
    if test then [e] else []
  }

  /** 1. The column patterns, tried in turn; only the first that matches counts. */
  function ColumnEvidence(sourceColumn: string, targetColumn: string, sql: Sql): (r: seq<Evidence>)
    ensures ColumnLines(r) == |r| <= 1
    ensures Total(r) <= 3
    ensures sourceColumn == "" || targetColumn == "" ==> r == []
    ensures forall e <- r :: e.IsColumnLevel()
  {
    if sourceColumn != "" && targetColumn != "" then
      if sql.assignment(sourceColumn, targetColumn) then When(true, DirectAssignment)
      else if sql.alias(sourceColumn, targetColumn) then When(true, ColumnAlias)
      else When(sql.selectTogether(sourceColumn, targetColumn), SelectTogether)
    else []
  }

  /** `table in sql.lower()` */
  predicate Mentions(text: string, table: string) {
    Contains(Lower(text), table)
  }

  /** 2. A point for each of the two tables the lower-cased text mentions. */
  function TableEvidence(sourceTable: string, targetTable: string, text: string): (r: seq<Evidence>)
    ensures SourceTableReferenced(sourceTable) in r <==> Mentions(text, sourceTable)
    ensures TargetTableReferenced(targetTable) in r <==> Mentions(text, targetTable)
    ensures forall e <- r :: e.IsTableLevel()
  {
    When(Mentions(text, sourceTable), SourceTableReferenced(sourceTable))
    + When(Mentions(text, targetTable), TargetTableReferenced(targetTable))
  }

  /** Adding a conditional line worth `k` points, none of them column-level,
      to lines that each earned `k` points keeps every line at `k` points. */
  lemma WhenAppendCounts(a: seq<Evidence>, test: bool, e: Evidence, k: nat)
    requires ColumnLines(a) == 0 && Total(a) == k * |a|
    requires Points(e) == k && !e.IsColumnLevel()
    ensures var r := a + When(test, e);
      ColumnLines(r) == 0 && Total(r) == k * |r| && |r| <= |a| + 1
  {
    TotalAppend(a, When(test, e));
    ColumnLinesAppend(a, When(test, e));
  }

  /** Each table line earns one point and none is column-level. */
  lemma TableEvidenceCounts(sourceTable: string, targetTable: string, text: string)
    ensures var r := TableEvidence(sourceTable, targetTable, text);
      ColumnLines(r) == 0 && Total(r) == |r| <= 2
  {
    var a := When(Mentions(text, sourceTable), SourceTableReferenced(sourceTable));
    WhenAppendCounts(a, Mentions(text, targetTable), TargetTableReferenced(targetTable), 1);
  }

  predicate FeeNames(m: Expected) {
    Contains(Lower(m.source), "fee") && Contains(Lower(m.target), "fee")
  }

  predicate CurrencyNames(m: Expected) {
    Contains(Lower(m.source), "currency") && Contains(Lower(m.target), "amount")
  }

  predicate GlNames(m: Expected) {
    Contains(Lower(m.source), "gl") && Contains(Lower(m.target), "gl")
  }

  /** 3. Two points for each business pattern whose name test and text search both hold. */
  function PatternEvidence(m: Expected, sql: Sql): (r: seq<Evidence>)
    ensures FeeLogic in r <==> FeeNames(m) && sql.feeCalculation
    ensures CurrencyLogic in r <==> CurrencyNames(m) && sql.currencyConversion
    ensures GlLogic in r <==> GlNames(m) && sql.glMapping
    ensures forall e <- r :: e.IsPattern()
  {
    When(FeeNames(m) && sql.feeCalculation, FeeLogic)
    + When(CurrencyNames(m) && sql.currencyConversion, CurrencyLogic)
    + When(GlNames(m) && sql.glMapping, GlLogic)
  }

  /** Each pattern line earns two points and none is column-level. */
  lemma PatternEvidenceCounts(m: Expected, sql: Sql)
    ensures var r := PatternEvidence(m, sql);
      ColumnLines(r) == 0 && Total(r) == 2 * |r| <= 6
  {
    var a := When(FeeNames(m) && sql.feeCalculation, FeeLogic);
    var b := When(CurrencyNames(m) && sql.currencyConversion, CurrencyLogic);
    WhenAppendCounts(a, CurrencyNames(m) && sql.currencyConversion, CurrencyLogic, 2);
    WhenAppendCounts(a + b, GlNames(m) && sql.glMapping, GlLogic, 2);
  }

  /** `evidence_details` for the given table and column parts of the two names. */
  function EvidenceFrom(m: Expected, sourceTable: string, sourceColumn: string,
                        targetTable: string, targetColumn: string, sql: Sql): seq<Evidence> {
    ColumnEvidence(sourceColumn, targetColumn, sql)
    + TableEvidence(sourceTable, targetTable, sql.text)
    + PatternEvidence(m, sql)
  }

  /** `evidence_details`, in the order the checks run. */
  function EvidenceFor(m: Expected, sql: Sql): seq<Evidence> {
    var (sourceTable, sourceColumn) := NameParts(m.source);
    var (targetTable, targetColumn) := NameParts(m.target);
    EvidenceFrom(m, sourceTable, sourceColumn, targetTable, targetColumn, sql)
  }

  datatype Status = Strong | Moderate | Weak

  /** `validation_status` */
  function StatusOf(score: int): (s: Status)
    ensures s == Strong <==> score >= 4
    ensures s == Moderate <==> 2 <= score < 4
    ensures s == Weak <==> score < 2
  {
    if score >= 4 then Strong else if score >= 2 then Moderate else Weak
  }

  /** The text the report shows for a status. */
  function Label(s: Status): string {
    match s
    case Strong => "✅ STRONG EVIDENCE"
    case Moderate => "⚠️ MODERATE EVIDENCE"
    case Weak => "❌ WEAK EVIDENCE"
  }

  /** One entry of `validated_mappings`. */
  datatype Validated = Validated(mapping: Expected, score: nat, evidence: seq<Evidence>, status: Status)

  function Validation(m: Expected, sql: Sql): Validated {
    var evidence := EvidenceFor(m, sql);
    Validated(m, Total(evidence), evidence, StatusOf(Total(evidence)))
  }

  /** 1. in `manual_lineage_analysis`: the column patterns, when both names have a column part. */
  method CheckColumns(sourceColumn: string, targetColumn: string, sql: Sql, score: nat, evidence: seq<Evidence>)
    returns (score': nat, evidence': seq<Evidence>)
    ensures evidence' == evidence + ColumnEvidence(sourceColumn, targetColumn, sql)
    ensures score' == score + Total(ColumnEvidence(sourceColumn, targetColumn, sql))
  {
    score', evidence' := score, evidence;
    if sourceColumn != "" && targetColumn != "" {
      if sql.assignment(sourceColumn, targetColumn) {
        score' := score' + 3;
        evidence' := evidence' + [DirectAssignment];
      } else if sql.alias(sourceColumn, targetColumn) {
        score' := score' + 3;
        evidence' := evidence' + [ColumnAlias];
      } else if sql.selectTogether(sourceColumn, targetColumn) {
        score' := score' + 1;
        evidence' := evidence' + [SelectTogether];
      }
    }
  }

  /** 2.: the table references. */
  method CheckTables(sourceTable: string, targetTable: string, sql: Sql, score: nat, evidence: seq<Evidence>)
    returns (score': nat, evidence': seq<Evidence>)
    ensures evidence' == evidence + TableEvidence(sourceTable, targetTable, sql.text)
    ensures score' == score + Total(TableEvidence(sourceTable, targetTable, sql.text))
  {
    score', evidence' := score, evidence;
    var text := Lower(sql.text);
    if Contains(text, sourceTable) {
      score' := score' + 1;
      evidence' := evidence' + [SourceTableReferenced(sourceTable)];
    }
    if Contains(text, targetTable) {
      score' := score' + 1;
      evidence' := evidence' + [TargetTableReferenced(targetTable)];
    }
    assert evidence' == evidence + TableEvidence(sourceTable, targetTable, sql.text);
    TableEvidenceCounts(sourceTable, targetTable, sql.text);
  }

  /** 3.: the business-logic patterns. */
  method CheckPatterns(m: Expected, sql: Sql, score: nat, evidence: seq<Evidence>)
    returns (score': nat, evidence': seq<Evidence>)
    ensures evidence' == evidence + PatternEvidence(m, sql)
    ensures score' == score + Total(PatternEvidence(m, sql))
  {
    ghost var a := When(FeeNames(m) && sql.feeCalculation, FeeLogic);
    ghost var b := When(CurrencyNames(m) && sql.currencyConversion, CurrencyLogic);
    ghost var c := When(GlNames(m) && sql.glMapping, GlLogic);
    score', evidence' := score, evidence;
    if Contains(Lower(m.source), "fee") && Contains(Lower(m.target), "fee") {
      if sql.feeCalculation {
        score' := score' + 2;
        evidence' := evidence' + [FeeLogic];
      }
    }
    assert evidence' == evidence + a && score' == score + 2 * |a|;
    if Contains(Lower(m.source), "currency") && Contains(Lower(m.target), "amount") {
      if sql.currencyConversion {
        score' := score' + 2;
        evidence' := evidence' + [CurrencyLogic];
      }
    }
    assert evidence' == evidence + a + b && score' == score + 2 * (|a| + |b|);
    if Contains(Lower(m.source), "gl") && Contains(Lower(m.target), "gl") {
      if sql.glMapping {
        score' := score' + 2;
        evidence' := evidence' + [GlLogic];
      }
    }
    assert evidence' == evidence + a + b + c && score' == score + 2 * (|a| + |b| + |c|);
    assert PatternEvidence(m, sql) == a + b + c;
    AppendAssoc3(evidence, a, b, c);
    PatternEvidenceCounts(m, sql);
  }

  /** One round of the validation loop: `evidence_score` and
      `evidence_details` are accumulated check by check, then graded. */
  method Validate(m: Expected, sql: Sql) returns (v: Validated)
    ensures v == Validation(m, sql)
  {
    var score := 0;
    var evidence: seq<Evidence> := [];
    var (sourceTable, sourceColumn) := NameParts(m.source);
    var (targetTable, targetColumn) := NameParts(m.target);
    ghost var c := ColumnEvidence(sourceColumn, targetColumn, sql);
    ghost var t := TableEvidence(sourceTable, targetTable, sql.text);
    ghost var p := PatternEvidence(m, sql);
    score, evidence := CheckColumns(sourceColumn, targetColumn, sql, score, evidence);
    assert evidence == c && score == Total(c) by {
      assert [] + c == c;
    }
    score, evidence := CheckTables(sourceTable, targetTable, sql, score, evidence);
    TotalAppend(c, t);
    score, evidence := CheckPatterns(m, sql, score, evidence);
    TotalAppend(c + t, p);
    assert evidence == EvidenceFor(m, sql) && score == Total(evidence);
    var status;
    if score >= 4 {
      status := Strong;
    } else if score >= 2 {
      status := Moderate;
    } else {
      status := Weak;
    }
    v := Validated(m, score, evidence, status);
  }

  // ------------------------------------------------------------ properties

  lemma EvidenceFromScore(m: Expected, sourceTable: string, sourceColumn: string,
                          targetTable: string, targetColumn: string, sql: Sql)
    ensures Total(EvidenceFrom(m, sourceTable, sourceColumn, targetTable, targetColumn, sql)) <= 11
  {
    var c := ColumnEvidence(sourceColumn, targetColumn, sql);
    var t := TableEvidence(sourceTable, targetTable, sql.text);
    TableEvidenceCounts(sourceTable, targetTable, sql.text);
    PatternEvidenceCounts(m, sql);
    TotalAppend(c + t, PatternEvidence(m, sql));
    TotalAppend(c, t);
  }

  lemma EvidenceFromColumns(m: Expected, sourceTable: string, sourceColumn: string,
                            targetTable: string, targetColumn: string, sql: Sql)
    ensures var ev := EvidenceFrom(m, sourceTable, sourceColumn, targetTable, targetColumn, sql);
      ColumnLines(ev) <= 1 && (sourceColumn == "" || targetColumn == "" ==> ColumnLines(ev) == 0)
  {
    var c := ColumnEvidence(sourceColumn, targetColumn, sql);
    var t := TableEvidence(sourceTable, targetTable, sql.text);
    TableEvidenceCounts(sourceTable, targetTable, sql.text);
    PatternEvidenceCounts(m, sql);
    ColumnLinesAppend(c + t, PatternEvidence(m, sql));
    ColumnLinesAppend(c, t);
  }

  lemma EvidenceFromTables(m: Expected, sourceTable: string, sourceColumn: string,
                           targetTable: string, targetColumn: string, sql: Sql)
    ensures var ev := EvidenceFrom(m, sourceTable, sourceColumn, targetTable, targetColumn, sql);
      && (SourceTableReferenced(sourceTable) in ev <==> Mentions(sql.text, sourceTable))
      && (TargetTableReferenced(targetTable) in ev <==> Mentions(sql.text, targetTable))
  {
    var c := ColumnEvidence(sourceColumn, targetColumn, sql);
    var p := PatternEvidence(m, sql);
    assert SourceTableReferenced(sourceTable) !in c && TargetTableReferenced(targetTable) !in c;
    assert SourceTableReferenced(sourceTable) !in p && TargetTableReferenced(targetTable) !in p;
  }

  lemma EvidenceFromPatterns(m: Expected, sourceTable: string, sourceColumn: string,
                             targetTable: string, targetColumn: string, sql: Sql)
    ensures var ev := EvidenceFrom(m, sourceTable, sourceColumn, targetTable, targetColumn, sql);
      && (FeeLogic in ev <==> FeeNames(m) && sql.feeCalculation)
      && (CurrencyLogic in ev <==> CurrencyNames(m) && sql.currencyConversion)
      && (GlLogic in ev <==> GlNames(m) && sql.glMapping)
  {
    var c := ColumnEvidence(sourceColumn, targetColumn, sql);
    var t := TableEvidence(sourceTable, targetTable, sql.text);
    assert FeeLogic !in c && CurrencyLogic !in c && GlLogic !in c;
    assert FeeLogic !in t && CurrencyLogic !in t && GlLogic !in t;
  }

  /** The score is the points of the evidence found, at most 3 + 2 + 6. */
  lemma ScoreRange(m: Expected, sql: Sql)
    ensures Validation(m, sql).score == Total(Validation(m, sql).evidence) <= 11
  {
    var (sourceTable, sourceColumn) := NameParts(m.source);
    var (targetTable, targetColumn) := NameParts(m.target);
    EvidenceFromScore(m, sourceTable, sourceColumn, targetTable, targetColumn, sql);
  }

  /** The column checks form an `elif` chain: at most one column-level line. */
  lemma OneColumnSignal(m: Expected, sql: Sql)
    ensures ColumnLines(Validation(m, sql).evidence) <= 1
  {
    var (sourceTable, sourceColumn) := NameParts(m.source);
    var (targetTable, targetColumn) := NameParts(m.target);
    EvidenceFromColumns(m, sourceTable, sourceColumn, targetTable, targetColumn, sql);
  }

  /** A name without a dot has no column part, so the column checks are skipped. */
  lemma UndottedNoColumnSignal(m: Expected, sql: Sql)
    requires '.' !in m.source || '.' !in m.target
    ensures ColumnLines(Validation(m, sql).evidence) == 0
  {
    var (sourceTable, sourceColumn) := NameParts(m.source);
    var (targetTable, targetColumn) := NameParts(m.target);
    EvidenceFromColumns(m, sourceTable, sourceColumn, targetTable, targetColumn, sql);
  }

  /** The table points and the business-pattern points, in terms of the inputs. */
  lemma EvidenceMeaning(m: Expected, sql: Sql)
    ensures var ev := Validation(m, sql).evidence;
      && (SourceTableReferenced(NameParts(m.source).0) in ev <==> Mentions(sql.text, NameParts(m.source).0))
      && (TargetTableReferenced(NameParts(m.target).0) in ev <==> Mentions(sql.text, NameParts(m.target).0))
      && (FeeLogic in ev <==> FeeNames(m) && sql.feeCalculation)
      && (CurrencyLogic in ev <==> CurrencyNames(m) && sql.currencyConversion)
      && (GlLogic in ev <==> GlNames(m) && sql.glMapping)
  {
    var (sourceTable, sourceColumn) := NameParts(m.source);
    var (targetTable, targetColumn) := NameParts(m.target);
    EvidenceFromTables(m, sourceTable, sourceColumn, targetTable, targetColumn, sql);
    EvidenceFromPatterns(m, sourceTable, sourceColumn, targetTable, targetColumn, sql);
  }

  // -------------------------------------------------------------- buckets

  /** The graded mappings with a given status, in order. */
  function WithStatus(vs: seq<Validated>, s: Status): (r: seq<Validated>)
    ensures |r| <= |vs|
  {
    if vs == [] then []
    else
      var last := vs[|vs| - 1];
      WithStatus(vs[..|vs| - 1], s) + (if last.status == s then [last] else [])
  }

  lemma WithStatusSnoc(vs: seq<Validated>, i: nat, s: Status)
    requires i < |vs|
    ensures WithStatus(vs[..i + 1], s) == WithStatus(vs[..i], s) + (if vs[i].status == s then [vs[i]] else [])
  {
    assert vs[..i + 1][..i] == vs[..i];
  }

  /** A bucket holds exactly the graded mappings with its status. */
  lemma {:induction false} WithStatusMembers(vs: seq<Validated>, s: Status)
    ensures forall v :: v in WithStatus(vs, s) <==> v in vs && v.status == s
  {
    if vs != [] {
      WithStatusMembers(vs[..|vs| - 1], s);
      assert vs == vs[..|vs| - 1] + [vs[|vs| - 1]];
    }
  }

  /** Every graded mapping lands in exactly one bucket. */
  lemma {:induction false} BucketsPartition(vs: seq<Validated>)
    ensures |WithStatus(vs, Strong)| + |WithStatus(vs, Moderate)| + |WithStatus(vs, Weak)| == |vs|
  {
    if vs != [] {
      BucketsPartition(vs[..|vs| - 1]);
    }
  }

  /** The bucket loop of the report. */
  method SortIntoBuckets(vs: seq<Validated>) returns (strong: seq<Validated>, moderate: seq<Validated>, weak: seq<Validated>)
    ensures strong == WithStatus(vs, Strong)
    ensures moderate == WithStatus(vs, Moderate)
    ensures weak == WithStatus(vs, Weak)
    ensures |strong| + |moderate| + |weak| == |vs|
  {
    strong, moderate, weak := [], [], [];
    var i := 0;
    while i < |vs|
      invariant 0 <= i <= |vs|
      invariant strong == WithStatus(vs[..i], Strong)
      invariant moderate == WithStatus(vs[..i], Moderate)
      invariant weak == WithStatus(vs[..i], Weak)
    {
      WithStatusSnoc(vs, i, Strong);
      WithStatusSnoc(vs, i, Moderate);
      WithStatusSnoc(vs, i, Weak);
      var v := vs[i];
      if v.status == Strong {
        strong := strong + [v];
      } else if v.status == Moderate {
        moderate := moderate + [v];
      } else {
        weak := weak + [v];
      }
      i := i + 1;
    }
    assert vs[..|vs|] == vs;
    BucketsPartition(vs);
  }

  /** `validated_mappings`: one graded mapping per expected mapping, in order. */
  function Validations(ms: seq<Expected>, sql: Sql): (vs: seq<Validated>)
    ensures |vs| == |ms|
  {
    MapSeq(ms, m => Validation(m, sql))
  }

  /** Every graded mapping carries the status its score earns, and a score of at most 11. */
  lemma ValidationsGraded(ms: seq<Expected>, sql: Sql)
    ensures forall v <- Validations(ms, sql) :: v.status == StatusOf(v.score) && v.score <= 11
  {
    var vs := Validations(ms, sql);
    forall i | 0 <= i < |vs|
      ensures vs[i].status == StatusOf(vs[i].score) && vs[i].score <= 11
    {
      assert vs[i] == Validation(ms[i], sql);
      ScoreRange(ms[i], sql);
    }
  }

  lemma ValidationsSnoc(ms: seq<Expected>, sql: Sql, i: nat)
    requires i < |ms|
    ensures Validations(ms[..i + 1], sql) == Validations(ms[..i], sql) + [Validation(ms[i], sql)]
  {
    MapSeqSnoc(ms, m => Validation(m, sql), i);
  }

  /** The three buckets of graded mappings hold the score bands of their statuses. */
  lemma BucketScores(ms: seq<Expected>, sql: Sql)
    ensures var vs := Validations(ms, sql);
      && (forall v <- WithStatus(vs, Strong) :: v in vs && 4 <= v.score <= 11)
      && (forall v <- WithStatus(vs, Moderate) :: v in vs && 2 <= v.score < 4)
      && (forall v <- WithStatus(vs, Weak) :: v in vs && v.score < 2)
  {
    var vs := Validations(ms, sql);
    ValidationsGraded(ms, sql);
    WithStatusMembers(vs, Strong);
    WithStatusMembers(vs, Moderate);
    WithStatusMembers(vs, Weak);
  }

  /** `manual_lineage_analysis` after the SQL has been read: grade every
      expected mapping, then sort the graded mappings into the three buckets. */
  method ManualLineageAnalysis(ms: seq<Expected>, sql: Sql)
    returns (validated: seq<Validated>, strong: seq<Validated>, moderate: seq<Validated>, weak: seq<Validated>)
    ensures validated == Validations(ms, sql)
    ensures strong == WithStatus(validated, Strong)
    ensures moderate == WithStatus(validated, Moderate)
    ensures weak == WithStatus(validated, Weak)
    ensures |strong| + |moderate| + |weak| == |ms|
    ensures forall v <- strong :: v in validated && 4 <= v.score <= 11
    ensures forall v <- moderate :: v in validated && 2 <= v.score < 4
    ensures forall v <- weak :: v in validated && v.score < 2
  {
    validated := [];
    var i := 0;
    while i < |ms|
      invariant 0 <= i <= |ms|
      invariant validated == Validations(ms[..i], sql)
    {
      var v := Validate(ms[i], sql);
      ValidationsSnoc(ms, sql, i);
      validated := validated + [v];
      i := i + 1;
    }
    assert ms[..|ms|] == ms;
    BucketScores(ms, sql);
    strong, moderate, weak := SortIntoBuckets(validated);
  }
}
