/**
 * The OpenLineage event generator (openlineage_generator.py): table names
 * are normalized into `schema.table` form, each lineage gets a
 * transformation type from its path length, every output table gets a
 * ColumnLineageDatasetFacet of the OpenLineage 1.2.0 specification, and a
 * run is reported as a START, a RUNNING and a COMPLETE event.
 */
module OpenLineageGenerator {
  import opened Strings
  import opened Common

  const Namespace := "banking_settlement"

  /** One entry of the lineage analysis' `direct_lineages` or
      `indirect_lineages`: an absent string key reads as "", an absent
      `path_length` as `None`. */
  datatype Lineage = Lineage(source: string, target: string, sourceTable: string, targetTable: string,
                             pathLength: Option<int>)

  datatype Transformation = Transformation(kind: string, subtype: string, description: string, masking: bool)

  /** An entry of a facet field's `inputFields` or of the facet's `dataset`. */
  datatype InputField = InputField(namespace: string, name: string, field: string, transformations: seq<Transformation>)

  /** A ColumnLineageDatasetFacet: `fields` in insertion order, and `dataset`. */
  datatype Facet = Facet(fields: Dict<string, seq<InputField>>, dataset: seq<InputField>)

  /** One table of the schema document: its name and its columns with their
      types, in document order. */
  datatype TableSchema = TableSchema(name: string, columns: seq<(string, string)>)

  datatype SchemaField = SchemaField(name: string, fieldType: string, description: string)

  /** An input or output dataset; outputs carry a column-lineage facet. */
  datatype Dataset = Dataset(namespace: string, name: string, fields: seq<SchemaField>, columnLineage: Option<Facet>)

  datatype Event = Event(eventType: string, inputs: seq<Dataset>, outputs: seq<Dataset>)

  // -------------------------------------------------------- table names

  /** Aliases of CTEs and derived tables in the settlement procedure. */
  const CteAliases: seq<string> := ["x", "j", "a", "r", "scores", "feerule", "feecalc", "bal",
                                    "needcheck", "slice", "map", "src", "joinmap", "net"]

  /** `_normalize_table_name`: `#t` becomes `temp.t`, a CTE alias (in any
      case) `cte.` followed by the name, an undotted name `public.`
      followed by the name; anything else is kept. */
  function NormalizeTableName(name: string): string {
    if StartsWith(name, "#") then "temp." + name[1..]
    else if Lower(name) in CteAliases then "cte." + name
    else if '.' !in name then "public." + name
    else name
  }

  /** A normalized name always has a schema part. */
  lemma NormalizeHasDot(name: string)
    ensures '.' in NormalizeTableName(name)
  {
    var r := NormalizeTableName(name);
    if StartsWith(name, "#") {
      assert r[4] == '.';
    } else if Lower(name) in CteAliases {
      assert r[3] == '.';
    } else if '.' !in name {
      assert r[6] == '.';
    }
  }

  /** A dotted name that is not a temp table is already normalized: no
      alias has a dot. */
  lemma NormalizeDotted(name: string)
    requires '.' in name && !StartsWith(name, "#")
    ensures NormalizeTableName(name) == name
  {
    LowerKeeps(name, '.');
    assert forall k :: 0 <= k < |CteAliases| ==> '.' !in CteAliases[k];
  }

  /** Normalizing twice is normalizing once. */
  lemma NormalizeIdempotent(name: string)
    ensures NormalizeTableName(NormalizeTableName(name)) == NormalizeTableName(name)
  {
    var r := NormalizeTableName(name);
    NormalizeHasDot(name);
    if StartsWith(name, "#") {
      assert r[0] == 't';
    } else if Lower(name) in CteAliases {
      assert r[0] == 'c';
    } else if '.' !in name {
      assert r[0] == 'p';
    }
    NormalizeDotted(r);
  }

  // ---------------------------------------------------- transformations

  /** `lineage.get('path_length', 1)` */
  function PathLength(l: Lineage): int {
    if l.pathLength.Some? then l.pathLength.value else 1
  }

  /** `_get_transformation_type`: one step is direct (an identity within one
      table, a transformation across two), anything else indirect; nothing
      is masked. */
  function TransformationOf(l: Lineage): (r: Transformation)
    ensures !r.masking
    ensures r.kind == "DIRECT" <==> PathLength(l) == 1
    ensures r.kind == "DIRECT" || r.kind == "INDIRECT"
    ensures r.subtype == "IDENTITY" <==> PathLength(l) == 1 && l.sourceTable == l.targetTable
  {
    if PathLength(l) == 1 then
      if l.sourceTable == l.targetTable
      then Transformation("DIRECT", "IDENTITY", "Direct column copy", false)
      else Transformation("DIRECT", "TRANSFORMATION", "Direct column transformation", false)
    else Transformation("INDIRECT", "TRANSFORMATION", "Multi-step transformation (" + IntText(PathLength(l)) + " steps)", false)
  }

  // ------------------------------------------------------ lineage facet

  /** The lineage's target is a column of `table`: it has a dot and the
      text before its last dot is `table`. */
  predicate TargetsTable(l: Lineage, table: string) {
    '.' in l.target && AllButLast(l.target) == table
  }

  /** The lineages of `ls` whose target is a column of `table`, in order. */
  function Targeting(ls: seq<Lineage>, table: string): seq<Lineage> {
    if ls == [] then []
    else Targeting(ls[..|ls| - 1], table) + (if TargetsTable(ls[|ls| - 1], table) then [ls[|ls| - 1]] else [])
  }

  lemma {:induction false} TargetingMembers(ls: seq<Lineage>, table: string, l: Lineage)
    ensures l in Targeting(ls, table) <==> l in ls && TargetsTable(l, table)
  {
    if ls != [] {
      TargetingMembers(ls[..|ls| - 1], table, l);
      assert ls == ls[..|ls| - 1] + [ls[|ls| - 1]];
    }
  }

  /** The target column's name: the text after the last dot. */
  function ColumnOf(l: Lineage): string {
    LastSegment(l.target)
  }

  /** The dotted-target lineages of `ls` for target column `c`, in order. */
  function ColumnGroup(ls: seq<Lineage>, c: string): seq<Lineage> {
    if ls == [] then []
    else
      var l := ls[|ls| - 1];
      ColumnGroup(ls[..|ls| - 1], c) + (if '.' in l.target && ColumnOf(l) == c then [l] else [])
  }

  lemma {:induction false} ColumnGroupMembers(ls: seq<Lineage>, c: string, l: Lineage)
    ensures l in ColumnGroup(ls, c) <==> l in ls && '.' in l.target && ColumnOf(l) == c
  {
    if ls != [] {
      ColumnGroupMembers(ls[..|ls| - 1], c, l);
      assert ls == ls[..|ls| - 1] + [ls[|ls| - 1]];
    }
  }

  /** `columns_map`: the lineages with a dotted target grouped by target
      column, the columns in order of first appearance. */
  function Grouped(ls: seq<Lineage>): (d: Dict<string, seq<Lineage>>)
    ensures DictValid(d)
  {
    if ls == [] then EmptyDict()
    else
      var g := Grouped(ls[..|ls| - 1]);
      var l := ls[|ls| - 1];
      if '.' in l.target then Put(g, ColumnOf(l), (if ColumnOf(l) in g.m then g.m[ColumnOf(l)] else []) + [l])
      else g
  }

  /** A column is a key of `columns_map` exactly when some lineage targets
      it, and its list holds those lineages in order. */
  lemma {:induction false} GroupedAt(ls: seq<Lineage>, c: string)
    ensures c in Grouped(ls).m <==> ColumnGroup(ls, c) != []
    ensures c in Grouped(ls).m ==> Grouped(ls).m[c] == ColumnGroup(ls, c)
  {
    if ls != [] {
      GroupedAt(ls[..|ls| - 1], c);
    }
  }

  /** The input field a lineage with a dotted source contributes. */
  function SourceField(l: Lineage): InputField {
    InputField(Namespace, NormalizeTableName(AllButLast(l.source)), LastSegment(l.source), [TransformationOf(l)])
  }

  /** The `inputFields` of one target column: one per lineage with a dotted
      source, in order. */
  function InputFieldsOf(group: seq<Lineage>): seq<InputField> {
    if group == [] then []
    else
      var l := group[|group| - 1];
      InputFieldsOf(group[..|group| - 1]) + (if '.' in l.source then [SourceField(l)] else [])
  }

  lemma {:induction false} InputFieldsMembers(group: seq<Lineage>, f: InputField)
    ensures f in InputFieldsOf(group) <==> exists l :: l in group && '.' in l.source && f == SourceField(l)
  {
    if group != [] {
      var init := group[..|group| - 1];
      InputFieldsMembers(init, f);
      assert group == init + [group[|group| - 1]];
      if exists l :: l in group && '.' in l.source && f == SourceField(l) {
        var l :| l in group && '.' in l.source && f == SourceField(l);
        if l != group[|group| - 1] {
          assert l in init;
        }
      }
    }
  }

  /** `facet["fields"]`: one entry per key of `columns_map`, in its order. */
  function FieldsOf(g: Dict<string, seq<Lineage>>): Dict<string, seq<InputField>> {
    Dict(g.keys, map c | c in g.m :: InputFieldsOf(g.m[c]))
  }

  const ChainStep := Transformation("INDIRECT", "AGGREGATION", "Part of complex transformation chain", false)

  /** The dataset entry a lineage proposes: one of more than one step with
      a dotted source. */
  function Candidate(l: Lineage): seq<InputField> {
    if PathLength(l) > 1 && '.' in l.source
    then [InputField(Namespace, NormalizeTableName(AllButLast(l.source)), LastSegment(l.source), [ChainStep])]
    else []
  }

  function Candidates(ls: seq<Lineage>): seq<InputField> {
    if ls == [] then [] else Candidate(ls[0]) + Candidates(ls[1..])
  }

  function EntryKey(e: InputField): (string, string) {
    (e.name, e.field)
  }

  /** `facet["dataset"]`: the proposed entries, each `(name, field)` once. */
  function DatasetOf(ls: seq<Lineage>): seq<InputField> {
    DedupFrom(Candidates(ls), EntryKey, {})
  }

  /** The facet for `table` over the direct, then the indirect lineages. */
  function FacetOf(direct: seq<Lineage>, indirect: seq<Lineage>, table: string): Facet {
    var ls := Targeting(direct, table) + Targeting(indirect, table);
    Facet(FieldsOf(Grouped(ls)), DatasetOf(ls))
  }

  /** The facet's fields are exactly the target columns of the lineages
      into `table`, and a column's input fields are exactly those of its
      lineages with a dotted source. */
  lemma FacetFields(direct: seq<Lineage>, indirect: seq<Lineage>, table: string, c: string, f: InputField)
    ensures c in FacetOf(direct, indirect, table).fields.m <==>
      exists l :: l in direct + indirect && TargetsTable(l, table) && ColumnOf(l) == c
    ensures c in FacetOf(direct, indirect, table).fields.m ==>
      (f in FacetOf(direct, indirect, table).fields.m[c] <==>
       exists l :: l in direct + indirect && TargetsTable(l, table) && ColumnOf(l) == c && '.' in l.source &&
         f == SourceField(l))
  {
    var ls := Targeting(direct, table) + Targeting(indirect, table);
    GroupedAt(ls, c);
    var group := ColumnGroup(ls, c);
    forall l
      ensures l in group <==> l in direct + indirect && TargetsTable(l, table) && ColumnOf(l) == c
    {
      ColumnGroupMembers(ls, c, l);
      TargetingMembers(direct, table, l);
      TargetingMembers(indirect, table, l);
    }
    if group != [] {
      assert group[0] in group;
    }
    if exists l :: l in direct + indirect && TargetsTable(l, table) && ColumnOf(l) == c {
      var l :| l in direct + indirect && TargetsTable(l, table) && ColumnOf(l) == c;
      assert l in group;
    }
    InputFieldsMembers(group, f);
  }

  lemma {:induction false} CandidatesMembers(ls: seq<Lineage>, e: InputField)
    ensures e in Candidates(ls) <==>
      exists l :: l in ls && PathLength(l) > 1 && '.' in l.source && e == Candidate(l)[0]
  {
    if ls != [] {
      CandidatesMembers(ls[1..], e);
      assert ls == [ls[0]] + ls[1..];
      if exists l :: l in ls && PathLength(l) > 1 && '.' in l.source && e == Candidate(l)[0] {
        var l :| l in ls && PathLength(l) > 1 && '.' in l.source && e == Candidate(l)[0];
        if l != ls[0] {
          assert l in ls[1..];
        }
      }
    }
  }

  /** The dataset entries come from lineages of more than one step with a
      dotted source, no two share a name and field, and every such lineage
      is represented by the entry kept for its name and field. */
  lemma DatasetFacts(ls: seq<Lineage>, e: InputField)
    ensures e in DatasetOf(ls) ==> exists l :: l in ls && PathLength(l) > 1 && '.' in l.source && e == Candidate(l)[0]
    ensures forall i, j :: 0 <= i < j < |DatasetOf(ls)| ==> EntryKey(DatasetOf(ls)[i]) != EntryKey(DatasetOf(ls)[j])
    ensures e in Candidates(ls) ==> exists d :: d in DatasetOf(ls) && EntryKey(d) == EntryKey(e)
  {
    var cands := Candidates(ls);
    DedupFromSubset(cands, EntryKey, {});
    DedupFromUnique(cands, EntryKey, {});
    CandidatesMembers(ls, e);
    if e in cands {
      var i :| 0 <= i < |cands| && cands[i] == e;
      DedupFromComplete(cands, EntryKey, {}, i);
      var j :| 0 <= j < |DatasetOf(ls)| && EntryKey(DatasetOf(ls)[j]) == EntryKey(e);
      assert DatasetOf(ls)[j] in DatasetOf(ls);
    }
  }

  // ---------------------------------------------------------- the loops

  /** The loop over one lineage list picking the lineages into `table`. */
  method CollectTargetLineages(ls: seq<Lineage>, table: string) returns (r: seq<Lineage>)
    ensures r == Targeting(ls, table)
  {
    r := [];
    var i := 0;
    while i < |ls|
      invariant 0 <= i <= |ls|
      invariant r == Targeting(ls[..i], table)
    {
      assert ls[..i + 1][..i] == ls[..i];
      var target := ls[i].target;
      if '.' in target {
        var tableName := RSplitDot(target).0;
        if tableName == table {
          r := r + [ls[i]];
        }
      }
      i := i + 1;
    }
    assert ls[..i] == ls;
  }

  /** The loop filling `columns_map`. */
  method GroupByColumn(ls: seq<Lineage>) returns (g: Dict<string, seq<Lineage>>)
    ensures g == Grouped(ls)
  {
    g := EmptyDict();
    var i := 0;
    while i < |ls|
      invariant 0 <= i <= |ls|
      invariant g == Grouped(ls[..i])
    {
      assert ls[..i + 1][..i] == ls[..i];
      var target := ls[i].target;
      if '.' in target {
        var col := RSplitDot(target).1;
        var old_ := if col in g.m then g.m[col] else [];
        g := Put(g, col, old_ + [ls[i]]);
      }
      i := i + 1;
    }
    assert ls[..i] == ls;
  }

  /** The loop building one column's `inputFields`. */
  method FieldsOfGroup(group: seq<Lineage>) returns (fs: seq<InputField>)
    ensures fs == InputFieldsOf(group)
  {
    fs := [];
    var k := 0;
    while k < |group|
      invariant 0 <= k <= |group|
      invariant fs == InputFieldsOf(group[..k])
    {
      assert group[..k + 1][..k] == group[..k];
      var source := group[k].source;
      if '.' in source {
        var (sourceTable, sourceColumn) := RSplitDot(source);
        fs := fs + [InputField(Namespace, NormalizeTableName(sourceTable), sourceColumn, [TransformationOf(group[k])])];
      }
      k := k + 1;
    }
    assert group[..k] == group;
  }

  /** The loop over `columns_map.items()`. */
  method BuildFields(g: Dict<string, seq<Lineage>>) returns (fields: Dict<string, seq<InputField>>)
    requires DictValid(g)
    ensures fields == FieldsOf(g)
  {
    fields := EmptyDict();
    var i := 0;
    while i < |g.keys|
      invariant 0 <= i <= |g.keys|
      invariant DictValid(fields)
      invariant fields.keys == g.keys[..i]
      invariant fields.m == map c | c in g.keys[..i] :: InputFieldsOf(g.m[c])
    {
      var c := g.keys[i];
      assert forall j :: 0 <= j < i ==> g.keys[..i][j] != c;
      var fs := FieldsOfGroup(g.m[c]);
      fields := Put(fields, c, fs);
      assert g.keys[..i + 1] == g.keys[..i] + [c];
      i := i + 1;
    }
    assert g.keys[..i] == g.keys;
    assert forall c :: c in g.keys <==> c in g.m;
  }

  /** The keys of the entries so far. */
  function EntryKeys(ds: seq<InputField>): set<(string, string)> {
    set d | d in ds :: EntryKey(d)
  }

  lemma EntryKeysSnoc(ds: seq<InputField>, e: InputField)
    ensures EntryKeys(ds + [e]) == EntryKeys(ds) + {EntryKey(e)}
  {
  }

  lemma CandidatesCons(ls: seq<Lineage>, i: nat)
    requires i < |ls|
    ensures Candidates(ls[i..]) == Candidate(ls[i]) + Candidates(ls[i + 1..])
  {
    assert ls[i..][1..] == ls[i + 1..];
  }

  /** Offering one entry: it is appended exactly when its name and field
      are new, and the later entries are then measured against it too. */
  lemma EntryStep(dataset: seq<InputField>, entry: InputField, rest: seq<InputField>)
    ensures var next := if EntryKey(entry) in EntryKeys(dataset) then dataset else dataset + [entry];
      next + DedupFrom(rest, EntryKey, EntryKeys(next)) == dataset + DedupFrom([entry] + rest, EntryKey, EntryKeys(dataset))
  {
    DedupFromCons(entry, rest, EntryKey, EntryKeys(dataset));
    if EntryKey(entry) !in EntryKeys(dataset) {
      EntryKeysSnoc(dataset, entry);
      var tail := DedupFrom(rest, EntryKey, EntryKeys(dataset + [entry]));
      assert dataset + [entry] + tail == dataset + ([entry] + tail);
    }
  }

  /** One round of the loop filling `facet["dataset"]`: the entry `l`
      proposes is appended when its name and field are new; `rest` stands
      for the entries the later lineages propose. */
  method AddEntry(dataset: seq<InputField>, l: Lineage, ghost rest: seq<InputField>) returns (next: seq<InputField>)
    ensures next + DedupFrom(rest, EntryKey, EntryKeys(next)) ==
      dataset + DedupFrom(Candidate(l) + rest, EntryKey, EntryKeys(dataset))
  {
    next := dataset;
    if PathLength(l) > 1 && '.' in l.source {
      var (sourceTable, sourceColumn) := RSplitDot(l.source);
      var entry := InputField(Namespace, NormalizeTableName(sourceTable), sourceColumn, [ChainStep]);
      assert Candidate(l) == [entry];
      EntryStep(dataset, entry, rest);
      if (entry.name, entry.field) !in EntryKeys(dataset) {
        next := dataset + [entry];
      }
    } else {
      assert Candidate(l) + rest == rest;
    }
  }

  /** The loop filling `facet["dataset"]`, testing each proposed entry's
      name and field against the entries so far. */
  method BuildDataset(ls: seq<Lineage>) returns (dataset: seq<InputField>)
    ensures dataset == DatasetOf(ls)
  {
    dataset := [];
    assert EntryKeys(dataset) == {};
    assert ls[0..] == ls;
    var i := 0;
    while i < |ls|
      invariant 0 <= i <= |ls|
      invariant dataset + DedupFrom(Candidates(ls[i..]), EntryKey, EntryKeys(dataset)) == DatasetOf(ls)
    {
      CandidatesCons(ls, i);
      dataset := AddEntry(dataset, ls[i], Candidates(ls[i + 1..]));
      i := i + 1;
    }
  }

  /** `_build_column_lineage_facet` */
  method BuildColumnLineageFacet(direct: seq<Lineage>, indirect: seq<Lineage>, table: string) returns (facet: Facet)
    ensures facet == FacetOf(direct, indirect, table)
  {
    var fromDirect := CollectTargetLineages(direct, table);
    var fromIndirect := CollectTargetLineages(indirect, table);
    var ls := fromDirect + fromIndirect;
    var g := GroupByColumn(ls);
    var fields := BuildFields(g);
    var dataset := BuildDataset(ls);
    facet := Facet(fields, dataset);
  }

  // ------------------------------------------------------------ datasets

  predicate IsInput(name: string) {
    StartsWith(name, "staging.") || StartsWith(name, "ref.")
  }

  predicate IsOutput(name: string) {
    StartsWith(name, "core.") || StartsWith(name, "audit.") || StartsWith(name, "ops.")
  }

  function SchemaFields(t: TableSchema, description: string): seq<SchemaField> {
    seq(|t.columns|, i requires 0 <= i < |t.columns| => SchemaField(t.columns[i].0, t.columns[i].1, description + t.name))
  }

  function InputDataset(t: TableSchema): Dataset {
    Dataset(Namespace, NormalizeTableName(t.name), SchemaFields(t, "Column from "), None)
  }

  function OutputDataset(t: TableSchema, direct: seq<Lineage>, indirect: seq<Lineage>): Dataset {
    Dataset(Namespace, NormalizeTableName(t.name), SchemaFields(t, "Column in "), Some(FacetOf(direct, indirect, t.name)))
  }

  /** The input datasets in schema order, before sorting. */
  function InputList(schema: seq<TableSchema>): seq<Dataset> {
    if schema == [] then []
    else
      var t := schema[|schema| - 1];
      InputList(schema[..|schema| - 1]) + (if IsInput(t.name) then [InputDataset(t)] else [])
  }

  function OutputList(schema: seq<TableSchema>, direct: seq<Lineage>, indirect: seq<Lineage>): seq<Dataset> {
    if schema == [] then []
    else
      var t := schema[|schema| - 1];
      OutputList(schema[..|schema| - 1], direct, indirect) + (if IsOutput(t.name) then [OutputDataset(t, direct, indirect)] else [])
  }

  function NameKey(d: Dataset): seq<string> {
    [d.name]
  }

  lemma {:induction false} InputListMembers(schema: seq<TableSchema>, d: Dataset)
    ensures d in InputList(schema) <==> exists t :: t in schema && IsInput(t.name) && d == InputDataset(t)
  {
    if schema != [] {
      var init, last := schema[..|schema| - 1], schema[|schema| - 1];
      InputListMembers(init, d);
      assert schema == init + [last];
      var tail := if IsInput(last.name) then [InputDataset(last)] else [];
      assert InputList(schema) == InputList(init) + tail;
      if d in InputList(init) {
        var t :| t in init && IsInput(t.name) && d == InputDataset(t);
        assert t in schema;
      } else if d in tail {
        assert last in schema;
      }
      if exists t :: t in schema && IsInput(t.name) && d == InputDataset(t) {
        var t :| t in schema && IsInput(t.name) && d == InputDataset(t);
        if t != last {
          assert t in init;
        }
      }
    }
  }

  lemma {:induction false} OutputListMembers(schema: seq<TableSchema>, direct: seq<Lineage>, indirect: seq<Lineage>, d: Dataset)
    ensures d in OutputList(schema, direct, indirect) <==>
      exists t :: t in schema && IsOutput(t.name) && d == OutputDataset(t, direct, indirect)
  {
    if schema != [] {
      var init, last := schema[..|schema| - 1], schema[|schema| - 1];
      OutputListMembers(init, direct, indirect, d);
      assert schema == init + [last];
      var tail := if IsOutput(last.name) then [OutputDataset(last, direct, indirect)] else [];
      assert OutputList(schema, direct, indirect) == OutputList(init, direct, indirect) + tail;
      if d in OutputList(init, direct, indirect) {
        var t :| t in init && IsOutput(t.name) && d == OutputDataset(t, direct, indirect);
        assert t in schema;
      } else if d in tail {
        assert last in schema;
      }
      if exists t :: t in schema && IsOutput(t.name) && d == OutputDataset(t, direct, indirect) {
        var t :| t in schema && IsOutput(t.name) && d == OutputDataset(t, direct, indirect);
        if t != last {
          assert t in init;
        }
      }
    }
  }

  /** A staging, ref, core, audit or ops table keeps its own name. */
  lemma PrefixedNameKept(name: string, p: string)
    requires StartsWith(name, p) && p in ["staging.", "ref.", "core.", "audit.", "ops."]
    ensures NormalizeTableName(name) == name
  {
    assert name[|p| - 1] == '.';
    assert name[0] != '#';
    NormalizeDotted(name);
  }

  /** `_get_input_datasets`: exactly the staging and ref tables of the
      schema, under their own names, sorted by name. */
  function InputDatasets(schema: seq<TableSchema>): (r: seq<Dataset>)
    ensures SortedBy(r, NameKey) && multiset(r) == multiset(InputList(schema))
  {
    SortBy(InputList(schema), NameKey)
  }

  function OutputDatasets(schema: seq<TableSchema>, direct: seq<Lineage>, indirect: seq<Lineage>): (r: seq<Dataset>)
    ensures SortedBy(r, NameKey) && multiset(r) == multiset(OutputList(schema, direct, indirect))
  {
    SortBy(OutputList(schema, direct, indirect), NameKey)
  }

  /** The inputs are exactly the schema's staging and ref tables and the
      outputs its core, audit and ops tables, each named as in the schema,
      each output with the facet built for it; both lists are in order of
      name. */
  lemma DatasetsMembers(schema: seq<TableSchema>, direct: seq<Lineage>, indirect: seq<Lineage>, d: Dataset)
    ensures d in InputDatasets(schema) <==>
      exists t :: t in schema && IsInput(t.name) && d == InputDataset(t)
    ensures d in OutputDatasets(schema, direct, indirect) <==>
      exists t :: t in schema && IsOutput(t.name) && d == OutputDataset(t, direct, indirect)
    ensures d in InputDatasets(schema) + OutputDatasets(schema, direct, indirect) ==>
      exists t :: t in schema && d.name == t.name
  {
    SortByMembers(InputList(schema), NameKey);
    SortByMembers(OutputList(schema, direct, indirect), NameKey);
    InputListMembers(schema, d);
    OutputListMembers(schema, direct, indirect, d);
    if d in InputDatasets(schema) {
      var t :| t in schema && IsInput(t.name) && d == InputDataset(t);
      if StartsWith(t.name, "staging.") {
        PrefixedNameKept(t.name, "staging.");
      } else {
        PrefixedNameKept(t.name, "ref.");
      }
    } else if d in OutputDatasets(schema, direct, indirect) {
      var t :| t in schema && IsOutput(t.name) && d == OutputDataset(t, direct, indirect);
      if StartsWith(t.name, "core.") {
        PrefixedNameKept(t.name, "core.");
      } else if StartsWith(t.name, "audit.") {
        PrefixedNameKept(t.name, "audit.");
      } else {
        PrefixedNameKept(t.name, "ops.");
      }
    }
  }

  /** The loop over the schema's tables collecting the inputs. */
  method GetInputDatasets(schema: seq<TableSchema>) returns (inputs: seq<Dataset>)
    ensures inputs == InputDatasets(schema)
  {
    var found: seq<Dataset> := [];
    var i := 0;
    while i < |schema|
      invariant 0 <= i <= |schema|
      invariant found == InputList(schema[..i])
    {
      assert schema[..i + 1][..i] == schema[..i];
      var t := schema[i];
      if StartsWith(t.name, "staging.") || StartsWith(t.name, "ref.") {
        found := found + [Dataset(Namespace, NormalizeTableName(t.name), SchemaFields(t, "Column from "), None)];
      }
      i := i + 1;
    }
    assert schema[..i] == schema;
    inputs := SortBy(found, NameKey);
  }

  /** The loop over the schema's tables building the outputs and their
      facets. */
  method GetOutputDatasets(schema: seq<TableSchema>, direct: seq<Lineage>, indirect: seq<Lineage>)
    returns (outputs: seq<Dataset>)
    ensures outputs == OutputDatasets(schema, direct, indirect)
  {
    var found: seq<Dataset> := [];
    var i := 0;
    while i < |schema|
      invariant 0 <= i <= |schema|
      invariant found == OutputList(schema[..i], direct, indirect)
    {
      assert schema[..i + 1][..i] == schema[..i];
      var t := schema[i];
      if StartsWith(t.name, "core.") || StartsWith(t.name, "audit.") || StartsWith(t.name, "ops.") {
        var facet := BuildColumnLineageFacet(direct, indirect, t.name);
        found := found + [Dataset(Namespace, NormalizeTableName(t.name), SchemaFields(t, "Column in "), Some(facet))];
      }
      i := i + 1;
    }
    assert schema[..i] == schema;
    outputs := SortBy(found, NameKey);
  }

  // -------------------------------------------------------------- events

  /** `generate_event`: the inputs and the outputs of the schema. */
  method GenerateEvent(eventType: string, schema: seq<TableSchema>, direct: seq<Lineage>, indirect: seq<Lineage>)
    returns (e: Event)
    ensures e == Event(eventType, InputDatasets(schema), OutputDatasets(schema, direct, indirect))
  {
    var inputs := GetInputDatasets(schema);
    var outputs := GetOutputDatasets(schema, direct, indirect);
    e := Event(eventType, inputs, outputs);
  }

  /** `generate_all_events`: START and RUNNING without outputs, then
      COMPLETE with them, all with the same inputs. */
  method GenerateAllEvents(schema: seq<TableSchema>, direct: seq<Lineage>, indirect: seq<Lineage>)
    returns (events: seq<Event>)
    ensures var inputs := InputDatasets(schema);
      events == [Event("START", inputs, []), Event("RUNNING", inputs, []),
                 Event("COMPLETE", inputs, OutputDatasets(schema, direct, indirect))]
  {
    events := [];
    var start := GenerateEvent("START", schema, direct, indirect);
    start := start.(outputs := []);
    events := events + [start];
    var running := GenerateEvent("RUNNING", schema, direct, indirect);
    running := running.(outputs := []);
    events := events + [running];
    var complete := GenerateEvent("COMPLETE", schema, direct, indirect);
    events := events + [complete];
  }
}
