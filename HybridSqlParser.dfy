/**
 * hybrid_sql_lineage_parser.py, the metadata side: reading the marked block
 * the C# table extractor prints (`_parse_csharp_output`), and seeding the
 * inherited table categories from that metadata
 * (`_initialize_from_csharp_metadata`).
 */
module HybridSqlParser {
  import opened Strings
  import opened Common
  import opened GenericSqlParser

  /** Which list the indented lines of the block belong to. */
  datatype Section = SourceSection | TargetSection

  /** The metadata dictionary `_parse_csharp_output` returns. */
  datatype CSharpMetadata = CSharpMetadata(procedureName: Option<string>, sourceTables: seq<string>, targetTables: seq<string>)

  const StartMarker: string := "HYBRID_METADATA_START"
  const EndMarker: string := "HYBRID_METADATA_END"
  const NamePrefix: string := "PROCEDURE_NAME:"
  const SourceHeader: string := "SOURCE_TABLES:"
  const TargetHeader: string := "TARGET_TABLES:"
  const Indent: string := "  "

  function NoMetadata(): CSharpMetadata {
    CSharpMetadata(None, [], [])
  }

  /** The loop's state: `in_metadata`, `current_section` and the metadata
      gathered so far. */
  datatype ParseState = ParseState(inMeta: bool, section: Option<Section>, meta: CSharpMetadata)

  /** One pass of the loop body over a stripped line: `None` at the end
      marker, where the loop breaks. The name is what follows the first
      colon, which is the prefix's own. */
  function StepLine(st: ParseState, line: string): Option<ParseState> {
    if line == StartMarker then Some(st.(inMeta := true))
    else if line == EndMarker then None
    else if !st.inMeta then Some(st)
    else if StartsWith(line, NamePrefix) then
      Some(st.(meta := st.meta.(procedureName := Some(Strip(line[|NamePrefix|..])))))
    else if line == SourceHeader then Some(st.(section := Some(SourceSection)))
    else if line == TargetHeader then Some(st.(section := Some(TargetSection)))
    else if StartsWith(line, Indent) && st.section.Some? then
      var name := Strip(line);
      if name == [] then Some(st)
      else if st.section.value == SourceSection then
        Some(st.(meta := st.meta.(sourceTables := st.meta.sourceTables + [name])))
      else Some(st.(meta := st.meta.(targetTables := st.meta.targetTables + [name])))
    else Some(st)
  }

  /** A loop over lines from one line on: every line is stripped first, and the end
      marker stops the loop wherever it appears. */
  function RunLines(step: (ParseState, string) -> Option<ParseState>, lines: seq<string>, st: ParseState): CSharpMetadata
    decreases |lines|
  {
    if lines == [] then st.meta
    else
      match step(st, Strip(lines[0]))
      case None => st.meta
      case Some(st') => RunLines(step, lines[1..], st')
  }

  /** The loop of `_parse_csharp_output` from one line on. */
  function ParseLines(lines: seq<string>, st: ParseState): CSharpMetadata {
    RunLines(StepLine, lines, st)
  }

  /** `_parse_csharp_output(output)` */
  function ParseOutput(output: string): CSharpMetadata {
    ParseLines(Split(output, '\n'), ParseState(false, None, NoMetadata()))
  }

  /** One line further: the step on the stripped line either stops at the
      end marker with the metadata so far or goes on from the next line. */
  lemma ParseLinesStep(lines: seq<string>, i: nat, st: ParseState)
    requires i < |lines|
    ensures ParseLines(lines[i..], st) ==
      match StepLine(st, Strip(lines[i]))
      case None => st.meta
      case Some(st') => ParseLines(lines[i + 1..], st')
  {
    assert lines[i..][1..] == lines[i + 1..];
  }

  /** The parsing loop itself, with its two state variables and its
      `break` at the end marker. */
  method ParseCSharpOutput(output: string) returns (meta: CSharpMetadata)
    ensures meta == ParseOutput(output)
  {
    var lines := Split(output, '\n');
    meta := NoMetadata();
    var inMeta := false;
    var section: Option<Section> := None;
    var i := 0;
    while i < |lines|
      invariant 0 <= i <= |lines|
      invariant ParseLines(lines[i..], ParseState(inMeta, section, meta)) == ParseOutput(output)
    {
      var line := Strip(lines[i]);
      ParseLinesStep(lines, i, ParseState(inMeta, section, meta));
      if line == StartMarker {
        inMeta := true;
      } else if line == EndMarker {
        inMeta := false;
        break;
      } else if !inMeta {
      } else if StartsWith(line, NamePrefix) {
        meta := meta.(procedureName := Some(Strip(line[|NamePrefix|..])));
      } else if line == SourceHeader {
        section := Some(SourceSection);
      } else if line == TargetHeader {
        section := Some(TargetSection);
      } else if StartsWith(line, Indent) && section.Some? {
        var name := Strip(line);
        if name != [] {
          if section.value == SourceSection {
            meta := meta.(sourceTables := meta.sourceTables + [name]);
          } else {
            meta := meta.(targetTables := meta.targetTables + [name]);
          }
        }
      }
      i := i + 1;
    }
  }

  /** One step over a stripped line: the lists are kept, because no stripped
      line starts with two blanks; the name changes only on a name line
      inside the block; the block opens only at the start marker. */
  lemma StepFacts(st: ParseState, raw: string)
    ensures StepLine(st, Strip(raw)).Some? ==>
      var st' := StepLine(st, Strip(raw)).value;
      st'.meta.sourceTables == st.meta.sourceTables && st'.meta.targetTables == st.meta.targetTables &&
      (st'.meta.procedureName != st.meta.procedureName ==> st.inMeta && StartsWith(Strip(raw), NamePrefix)) &&
      (st'.inMeta ==> st.inMeta || Strip(raw) == StartMarker)
  {
    StripNoLeadingBlanks(raw);
    UnindentedStep(st, Strip(raw));
  }

  /** The same facts for any line that does not start with the indent. */
  lemma UnindentedStep(st: ParseState, line: string)
    requires !StartsWith(line, "  ")
    ensures StepLine(st, line).Some? ==>
      var st' := StepLine(st, line).value;
      st'.meta.sourceTables == st.meta.sourceTables && st'.meta.targetTables == st.meta.targetTables &&
      (st'.meta.procedureName != st.meta.procedureName ==> st.inMeta && StartsWith(line, NamePrefix)) &&
      (st'.inMeta ==> st.inMeta || line == StartMarker)
  {
    assert Indent == "  ";
  }

  /** The table lists are never extended: they stay as they were. */
  lemma {:induction false} ParseLinesKeepsLists(lines: seq<string>, st: ParseState)
    ensures ParseLines(lines, st).sourceTables == st.meta.sourceTables
    ensures ParseLines(lines, st).targetTables == st.meta.targetTables
    decreases |lines|
  {
    if lines != [] {
      StepFacts(st, lines[0]);
      if StepLine(st, Strip(lines[0])).Some? {
        ParseLinesKeepsLists(lines[1..], StepLine(st, Strip(lines[0])).value);
      }
    }
  }

  /** The returned source and target lists are always empty: only the
      procedure name can be filled in. */
  lemma ParseOutputListsEmpty(output: string)
    ensures ParseOutput(output).sourceTables == [] && ParseOutput(output).targetTables == []
  {
    ParseLinesKeepsLists(Split(output, '\n'), ParseState(false, None, NoMetadata()));
  }

  /** Without a start marker, outside the block, nothing is read. */
  lemma {:induction false} ParseWithoutStart(lines: seq<string>, st: ParseState)
    requires !st.inMeta
    requires forall i :: 0 <= i < |lines| ==> Strip(lines[i]) != StartMarker
    ensures ParseLines(lines, st) == st.meta
    decreases |lines|
  {
    if lines != [] {
      ParseWithoutStart(lines[1..], st);
    }
  }

  /** A line at which the loop breaks, whatever its state. */
  ghost predicate Stops(step: (ParseState, string) -> Option<ParseState>, line: string) {
    forall st :: step(st, line).None?
  }

  /** The end marker is not the start marker, so the loop breaks there. */
  lemma EndMarkerStops(line: string)
    requires line == EndMarker
    ensures Stops(StepLine, line)
  {
    assert line[16] != StartMarker[16];
  }

  /** Nothing after a line where the loop breaks is read: lines appended
      after it change nothing. */
  lemma {:induction false} RunLinesStop(step: (ParseState, string) -> Option<ParseState>, pre: seq<string>, post: seq<string>, st: ParseState)
    requires pre != [] && Stops(step, Strip(pre[|pre| - 1]))
    ensures RunLines(step, pre + post, st) == RunLines(step, pre, st)
    decreases |pre|
  {
    var whole := pre + post;
    assert whole[0] == pre[0];
    if |pre| > 1 && step(st, Strip(pre[0])).Some? {
      assert whole[1..] == pre[1..] + post;
      RunLinesStop(step, pre[1..], post, step(st, Strip(pre[0])).value);
    }
  }

  /** Nothing after the end marker is read: whatever follows a line that
      strips to the end marker leaves the metadata as it was. */
  lemma ParseStopsAtEnd(pre: seq<string>, post: seq<string>)
    requires pre != [] && Strip(pre[|pre| - 1]) == EndMarker
    ensures ParseLines(pre + post, ParseState(false, None, NoMetadata())) == ParseLines(pre, ParseState(false, None, NoMetadata()))
  {
    EndMarkerStops(Strip(pre[|pre| - 1]));
    RunLinesStop(StepLine, pre, post, ParseState(false, None, NoMetadata()));
  }

  /** A line that names the procedure. */
  predicate NameLine(lines: seq<string>, i: int) {
    0 <= i < |lines| && StartsWith(Strip(lines[i]), NamePrefix)
  }

  /** A start marker before line `i`. */
  predicate OpenedBefore(lines: seq<string>, i: int) {
    exists j :: 0 <= j < i && j < |lines| && Strip(lines[j]) == StartMarker
  }

  /** What the loop body promises about the name and the block: the name
      changes only on a name line inside the block, and the block opens only
      at the start marker. */
  ghost predicate NameDiscipline(step: (ParseState, string) -> Option<ParseState>) {
    forall st, line :: step(st, line).Some? ==>
      (step(st, line).value.meta.procedureName != st.meta.procedureName ==> st.inMeta && StartsWith(line, NamePrefix)) &&
      (step(st, line).value.inMeta ==> st.inMeta || line == StartMarker)
  }

  lemma StepLineDiscipline()
    ensures NameDiscipline(StepLine)
  {
  }

  /** A procedure name is only ever read from a `PROCEDURE_NAME:` line that
      follows a start marker (or any such line once inside the block). */
  lemma {:induction false} NameFromBlock(step: (ParseState, string) -> Option<ParseState>, lines: seq<string>, st: ParseState)
    requires NameDiscipline(step)
    requires RunLines(step, lines, st).procedureName != st.meta.procedureName
    ensures exists i :: NameLine(lines, i) && (st.inMeta || OpenedBefore(lines, i))
    decreases |lines|
  {
    assert lines != [];
    var next := step(st, Strip(lines[0]));
    assert next.Some?;
    var st' := next.value;
    var rest := lines[1..];
    assert RunLines(step, rest, st').procedureName != st.meta.procedureName;
    if st'.meta.procedureName != st.meta.procedureName {
      assert NameLine(lines, 0);
    } else {
      NameFromBlock(step, rest, st');
      var i :| NameLine(rest, i) && (st'.inMeta || OpenedBefore(rest, i));
      ShiftLines(lines, i);
      if !st.inMeta && Strip(lines[0]) != StartMarker {
        assert OpenedBefore(rest, i);
      }
    }
  }

  /** A name line, or a start marker before it, one line further down once
      a line is put in front; a start marker in front precedes every later
      line. */
  lemma ShiftLines(lines: seq<string>, i: int)
    requires lines != [] && NameLine(lines[1..], i)
    ensures NameLine(lines, i + 1)
    ensures OpenedBefore(lines[1..], i) ==> OpenedBefore(lines, i + 1)
    ensures Strip(lines[0]) == StartMarker ==> OpenedBefore(lines, i + 1)
  {
    assert lines[1..][i] == lines[i + 1];
    if OpenedBefore(lines[1..], i) {
      var j :| 0 <= j < i && j < |lines[1..]| && Strip(lines[1..][j]) == StartMarker;
      assert lines[1..][j] == lines[j + 1];
    }
  }

  /** At the top level: a name comes from a name line after a start
      marker. */
  lemma NameAfterStart(output: string)
    requires ParseOutput(output).procedureName.Some?
    ensures exists i :: NameLine(Split(output, '\n'), i) && OpenedBefore(Split(output, '\n'), i)
  {
    StepLineDiscipline();
    NameFromBlock(StepLine, Split(output, '\n'), ParseState(false, None, NoMetadata()));
  }

  // ---------------------------------------------------- seeding categories

  /** One of the two loops of `_initialize_from_csharp_metadata`: each
      lower-cased name is entered with no columns and a usage count of one,
      unless it is already there. */
  method SeedTables(m: map<string, Usage>, xs: seq<string>) returns (r: map<string, Usage>)
    ensures r == AddNew(m, LowerNames(xs))
  {
    r := m;
    var i := 0;
    while i < |xs|
      invariant 0 <= i <= |xs|
      invariant r == AddNew(m, LowerNames(xs[..i]))
    {
      LowerNamesSnoc(xs, i);
      AddNewSnoc(m, LowerNames(xs[..i]), Lower(xs[i]));
      var tableLower := Lower(xs[i]);
      if tableLower !in r {
        r := r[tableLower := Usage({}, 1)];
      }
      i := i + 1;
    }
    assert xs[..i] == xs;
  }

  /** `_initialize_from_csharp_metadata`: the source and target lists of the
      metadata seed the parser's categories; nothing already present is
      overwritten, and the intermediate tables are untouched. */
  method InitializeFromMetadata(p: GenericParser, sourceTables: seq<string>, targetTables: seq<string>)
    modifies p
    ensures p.sourceTables == AddNew(old(p.sourceTables), LowerNames(sourceTables))
    ensures p.targetTables == AddNew(old(p.targetTables), LowerNames(targetTables))
    ensures p.intermediateTables == old(p.intermediateTables)
  {
    var s := SeedTables(p.sourceTables, sourceTables);
    p.sourceTables := s;
    var t := SeedTables(p.targetTables, targetTables);
    p.targetTables := t;
  }

  /** Seeding never overwrites an entry and enters every listed name. */
  lemma SeedingKeeps(m: map<string, Usage>, xs: seq<string>, t: string)
    ensures t in m ==> AddNew(m, LowerNames(xs))[t] == m[t]
    ensures t in AddNew(m, LowerNames(xs)) <==> t in m || exists x :: x in xs && Lower(x) == t
    ensures t in AddNew(m, LowerNames(xs)) && t !in m ==> AddNew(m, LowerNames(xs))[t] == Usage({}, 1)
  {
  }
}
