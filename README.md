# Column lineage of stored procedures, modelled in Dafny

This project models the column-lineage engine of a family of Python scripts.
The scripts read a SQL Server stored procedure for a banking settlement
process and report which source columns end up in which columns of the final
tables. Each script takes `(source column, target column)` edges from the
sqllineage library or from a C# metadata extractor, then:

- files tables as source, intermediate, target or unknown by ordered
  substring rules;
- merges the edges into forward and reverse column graphs, skipping entries
  with an empty endpoint;
- searches those graphs for paths from origin columns to columns of final
  tables. The variants are a DFS with a per-path visited set, a
  depth-bounded DFS, a BFS for the shortest path with a global visited set,
  a BFS over all simple paths, a DFS with a shared visited set, table-level
  reachability, and a single-valued walk back to the original source;
- proposes bridge edges between intermediate and final columns by name;
- de-duplicates mappings (first occurrence wins) and filters them;
- scores expected mappings by evidence points and thresholds;
- builds the OpenLineage 1.2.0 ColumnLineageDatasetFacet for each output
  table.

There is one Dafny module per script, plus four shared modules:

- `Strings`: the Python `str` operations the scripts use.
- `Common`: options, Python's ordering of strings and string tuples, a
  sort, first-occurrence de-duplication, and walks through a flow graph.
- `SqlLineage`: the values the lineage library hands over, and the walk
  back through intermediate columns. lineage_parser.py:48-84 and
  merged_lineage_parser.py:124-155 share this walk; each script supplies
  its own intermediate test.
- `ColumnFlows`: the schema maps and flow graph that final_lineage_parser.py
  and enhanced_lineage_parser.py build in the same way.

The scripts read the C# extractor's metadata in two shapes. The hybrid
modules (`HybridSqlParser`, `HybridSqlTrace`) take the shape
hybrid_sql_lineage_parser.py reads: `source_tables` and `target_tables` are
flat lists of table names, and `column_lineages` is one flat list of
entries. The other modules take the shape the other scripts read: `column_lineages`
is a dict of lists keyed by `real_to_real` and `temp_involved`, and
`source_tables` and `target_tables` are dicts whose `real_tables` entry
lists the names.

The scripts' variants deliberately disagree, and each is modelled as
written. For example, generic_sql_lineage_parser.py tests the intermediate
patterns before the source patterns, while enhanced_lineage_parser.py tests
source first.

Code that updates state step by step is modelled as methods with loops or
as classes with fields. Each method is proved against a specification
function, and the functions carry the lemmas. Recursive searches are
functions. The outputs of sqllineage, sqlparse and the C# extractor are
inputs. The regular-expression scans over the raw SQL become boolean or
list parameters. Where a script iterates a Python set, the iteration order
is an `order` parameter that lists the set once.

Three places where the code does not do what it evidently intends are
listed under Findings: one defect in generic_sql_lineage_parser.py, and one
that appears twice in advanced_lineage_tracer.py. The model uses the
corrected behaviour in all three places, and keeps the behaviour as written
beside it with a counterexample.

## Model

| member | source | states |
|---|---|---|
| ColumnFlows.LowerAll | final_lineage_parser.py:94 | each schema column is lower-cased, in order |
| ColumnFlows.TableColumnsFacts | final_lineage_parser.py:92-94 | a table of the schema pass has exactly the lower-cased columns of the last schema table of its lower-cased name |
| ColumnFlows.KeysOfFacts | final_lineage_parser.py:96-99 | one table adds exactly the keys `table.column` of its columns, each mapped to the table |
| ColumnFlows.ColumnTablesComplete | final_lineage_parser.py:92-99 | every column of every schema table gets its key |
| ColumnFlows.ColumnTablesSound | final_lineage_parser.py:92-99 | a key the schema pass adds maps to the lower-cased table of some schema column with that key |
| ColumnFlows.BuildMaps | final_lineage_parser.py:88-101 | the schema loop builds exactly the table-to-columns and column-to-table maps |
| ColumnFlows.PathEdgesMembers | final_lineage_parser.py:181-185 | sqllineage contributes one flow per path of two or more columns, from its first column to its last, lower-cased |
| ColumnFlows.AddEdgesFacts | final_lineage_parser.py:185 | a flow exists afterwards exactly when it existed before or is one of the flows added; a column has flows exactly when it had some or a flow leaves it |
| ColumnFlows.AddEdgesIdempotent | final_lineage_parser.py:185 | adding the same flows again changes nothing, because the flows are sets |
| ColumnFlows.AddEdgesSnoc | final_lineage_parser.py:185 | one more flow adds its target to its source's set |
| ColumnFlows.RecordEndsSnoc | final_lineage_parser.py:187-193 | one more flow records the table part of each dotted end |
| ColumnFlows.RecordPaths | final_lineage_parser.py:181-193 | the loop over the paths adds exactly their flows and records the tables of their dotted ends |
| ColumnFlows.Accepted | final_lineage_parser.py:215-218 | the metadata entries kept are exactly those with all four fields present |
| ColumnFlows.MetaEdges | final_lineage_parser.py:220-228 | one flow per complete metadata entry |
| ColumnFlows.MetaEdgesMembers | final_lineage_parser.py:220-228 | a flow comes from the metadata exactly when some complete entry joins its lower-cased source and target |
| ColumnFlows.MetaSnoc | final_lineage_parser.py:225-230 | one more complete entry adds its flow and records both its tables |
| ColumnFlows.MergedEdges | final_lineage_parser.py:204-234 | after the merge a column flows to another exactly when it did before or a complete entry joins them |
| ColumnFlows.MergeEntries | final_lineage_parser.py:212-232 | the metadata loop counts the complete entries, adds their flows and records their tables |
| ColumnFlows.Prefixed | final_lineage_parser.py:307-308 | the extended paths are exactly the given paths with the column put in front |
| ColumnFlows.WalkCons | final_lineage_parser.py:298-308 | a column that is not final and flows into a walk's first column extends the walk |
| ColumnFlows.WalkTail | final_lineage_parser.py:298-308 | the tail of a walk of two or more columns is a walk, entered from a column that is not final |
| ColumnFlows.FlowLists | final_lineage_parser.py:305 | every successor set is listed once, in some iteration order |
| Common.DedupLoop | enhanced_lineage_parser.py:360-372 | the `seen` loop keeps the mappings the de-duplication specification keeps |
| Common.DedupFromSubset | enhanced_lineage_parser.py:365-370 | only input mappings whose key was not seen before are kept |
| Common.DedupFromUnique | enhanced_lineage_parser.py:365-370 | no two kept mappings share a key |
| Common.DedupFromComplete | enhanced_lineage_parser.py:365-370 | every key of the input not seen before is kept |
| Common.DedupFirst | enhanced_lineage_parser.py:365-370 | the first mapping with a key is the one kept |
| Common.KeptFirst | enhanced_lineage_parser.py:365-370 | the mapping kept for a key comes no later than any mapping with it |
| UltimateLineageParser.ExtractTableName | ultimate_lineage_parser.py:6-16 | an empty name gives `unknown`; otherwise the result is the lower-cased name when it has no dot, and otherwise the dot-free last part, which follows the lower-cased prefix and a dot |
| UltimateLineageParser.CategorizeOrder | ultimate_lineage_parser.py:18-29 | the category is one of four; it is `source` exactly when a source pattern occurs; `target` only when a target pattern occurs and no intermediate one does |
| UltimateLineageParser.CategorizeIgnoresCase | ultimate_lineage_parser.py:18-29 | the category depends only on the lower-cased name |
| UltimateLineageParser.Extracted | ultimate_lineage_parser.py:90-105 | each reported table name is cleaned by `extract_table_name`, position by position |
| UltimateLineageParser.ProcessStatements | ultimate_lineage_parser.py:75-132 | the statement loop leaves the table buckets, the table flow, the column flows and the stages equal to their statement-by-statement definitions; a statement that raised adds nothing |
| UltimateLineageParser.FlowStepMembers | ultimate_lineage_parser.py:116-121 | one statement adds to the table flow exactly its cleaned source × target pairs |
| UltimateLineageParser.FlowMembers | ultimate_lineage_parser.py:116-121 | a table flow `a → b` exists exactly when some parsed statement read `a` and wrote `b` |
| UltimateLineageParser.IntermediatesFiled | ultimate_lineage_parser.py:102-105 | a table reported as intermediate is filed as intermediate whatever its category would be |
| UltimateLineageParser.FinalTargetsComplete | ultimate_lineage_parser.py:217-234 | every target-category table at the end of a walk through intermediate or other tables is found |
| UltimateLineageParser.FinalTargetsSound | ultimate_lineage_parser.py:217-234 | every table found ends such a walk from the start |
| UltimateLineageParser.FinalTargetsStep | ultimate_lineage_parser.py:220-233 | a found table is a target-category successor, or is found from an intermediate or other successor with the current table visited |
| UltimateLineageParser.Purpose | ultimate_lineage_parser.py:239-260 | no final targets gives `Data Staging`; `Financial Ledger` exactly when some target holds `ledger`; `Core Banking` exactly when there are final targets and none holds ledger, gl, audit or ops |
| UltimateLineageParser.SourceReport | ultimate_lineage_parser.py:239-240 | one row per source table, in name order, each with its final targets: every source has a row, and there are as many rows as sources |
| UltimateLineageParser.TargetRows | ultimate_lineage_parser.py:239-240 | each name in order paired with its final targets |
| SqlLineage.LineageMapOf | lineage_parser.py:48-54 | the lineage map stays a well-formed insertion-ordered dictionary |
| SqlLineage.BuildLineageMap | lineage_parser.py:48-54 | the loop builds exactly the lineage map of the tuples |
| SqlLineage.LineageMapKeys | lineage_parser.py:48-54 | the keys are exactly the targets of tuples of two or more elements whose two ends are present |
| SqlLineage.LineageMapLastWins | lineage_parser.py:48-54 | each target maps to the source of the last usable tuple with that target |
| SqlLineage.OriginalSourceWalk | lineage_parser.py:62-72 | the resolved source is reached by following the map through intermediate columns only; the walk stops at a column without a source, at a column that is not intermediate, or at a revisit |
| SqlLineage.FinalLineage | lineage_parser.py:74-79 | every key of `final_lineage` is the text of a non-intermediate target whose resolved source is not intermediate, mapped to that source's text; every such target is a key |
| SqlLineage.Report | lineage_parser.py:83 | the printed pairs are exactly the items of `final_lineage`, ordered by target |
| SqlLineage.EndToEndLineage | lineage_parser.py:48-84 | the report is ordered by target; each row comes from a kept target and its resolved source, and every kept target has a row |
| LineageParser.KeptEndsReal | lineage_parser.py:56-60 | a reported pair has a table at both ends, and neither table is a temp table, a CTE or a `...work` table |
| SqlLineage.ReportRow | lineage_parser.py:83 | a permutation of the items of `final_lineage` holds a pair exactly when the dictionary maps its target to its source |
| GenericSqlParser.CategorizeOutcomes | generic_sql_lineage_parser.py:84-119 | the category is one of four; `unknown` exactly when no intermediate, source or target pattern occurs in the lower-cased name; `source` only when no intermediate pattern occurs |
| GenericSqlParser.StagingIsIntermediate | generic_sql_lineage_parser.py:89-116 | a name holding `staging` is intermediate, never a source, because intermediate patterns are checked first |
| GenericSqlParser.CategorizeIgnoresCase | generic_sql_lineage_parser.py:86 | the category depends only on the lower-cased name |
| GenericSqlParser.StatementTypeKeyword | generic_sql_lineage_parser.py:292-306 | the type is one of six; a keyword type means the stripped upper-cased text starts with that keyword; `OTHER` exactly when it starts with none of them |
| GenericSqlParser.WithIsCte | generic_sql_lineage_parser.py:303-304 | a statement starting with `WITH` in any case is a CTE |
| GenericSqlParser.FindWordFirst | generic_sql_lineage_parser.py:55-56 | the whole-word search returns the first match at or after the start, and nothing only when there is no match |
| GenericSqlParser.NextKeywordFound | generic_sql_lineage_parser.py:55-60 | a reported BEGIN or END really occurs there as a whole word |
| GenericSqlParser.ClosingEnd | generic_sql_lineage_parser.py:52-73 | the END that brings the nesting count to zero lies within the text, at or after where the scan started |
| GenericSqlParser.ClosingEndStep | generic_sql_lineage_parser.py:54-73 | one round opens a block on a BEGIN found first, closes one on an END, and stops when neither is found |
| GenericSqlParser.ProcedureEnd | generic_sql_lineage_parser.py:43-73 | a cut exists only when the header matched, and lies between the header's end and the end of the text |
| GenericSqlParser.FixedProcedureEnd | generic_sql_lineage_parser.py:69 | the corrected cut (the END's offset added to where the last round started) exists only when the header matched, and lies between the header's end and the end of the text |
| GenericSqlParser.FixedCutAtEnd | generic_sql_lineage_parser.py:69 | the corrected cut lies at an offset where `END` is spelled |
| GenericSqlParser.FixedEndAt | generic_sql_lineage_parser.py:69 | once the scan reports the closing END, the corrected cut is the offset of that END in the whole text |
| GenericSqlParser.BodyUpTo | generic_sql_lineage_parser.py:75-82 | the body is the whole text, or a piece of it longer than 100 characters, and it differs from the text only when a header and a non-zero cut exist |
| GenericSqlParser.ScanRound | generic_sql_lineage_parser.py:54-73 | one loop round moves past a BEGIN and opens a block, moves past an END and closes one (reporting it when it was the last), or stops |
| GenericSqlParser.ScanToClosingEnd | generic_sql_lineage_parser.py:52-70 | the nesting loop, counting BEGIN up and END down from one open block, finds exactly the END that `ClosingEnd` specifies |
| GenericSqlParser.ExtractProcedureBody | generic_sql_lineage_parser.py:37-82 | returns the body cut at the closing END (corrected cut): the whole text, or a piece of it longer than 100 characters |
| GenericSqlParser.ClosingEndExample | generic_sql_lineage_parser.py:52-73 | on `P BEGIN BEGIN END END` from offset 7 the closing END is found at offset 1 of the rest from offset 17 |
| GenericSqlParser.NoEndAtEight | generic_sql_lineage_parser.py:69 | offset 8 of `P BEGIN BEGIN END END` does not spell END |
| GenericSqlParser.MisplacedCut | generic_sql_lineage_parser.py:69 | on that text the script as written cuts at offset 8, where no END is spelled |
| GenericSqlParser.FixedCutExample | generic_sql_lineage_parser.py:69 | on that text the corrected cut is offset 18, where END is spelled |
| GenericSqlParser.AddNew | generic_sql_lineage_parser.py:313-327 | names not yet present get a fresh record with usage 1; existing records are kept as they are |
| GenericSqlParser.AddAdmitted | generic_sql_lineage_parser.py:313-327 | one refinement loop adds exactly the admitted names not yet present |
| GenericSqlParser.GenericParser.constructor | generic_sql_lineage_parser.py:15-27 | the three table dictionaries start empty |
| GenericSqlParser.GenericParser.Refine | generic_sql_lineage_parser.py:308-327 | sources gain unwritten FROM/JOIN tables, targets gain written tables that are not temp tables, intermediates gain WITH names; nothing present is replaced |
| GenericSqlParser.RefineSafe | generic_sql_lineage_parser.py:313-327 | refinement never replaces a record, never files a `#` table as a new source or target, never files a written table as a new source, and never files a `temp` table as a new target |
| GenericSqlTrace.FlowsOf | generic_sql_lineage_parser.py:365-372 | `all_flows` is a well-formed insertion-ordered dictionary |
| GenericSqlTrace.TablesOf | generic_sql_lineage_parser.py:366-380 | every key of `column_to_table` is a dotted column mapped to its text before the last dot |
| GenericSqlTrace.FlowsOfEdges | generic_sql_lineage_parser.py:369-372 | an edge of the flow graph is exactly a mapping with both ends lower-cased |
| GenericSqlTrace.TablesOfComplete | generic_sql_lineage_parser.py:374-380 | every dotted end of every mapping is filed with its table |
| GenericSqlTrace.BuildFlowGraph | generic_sql_lineage_parser.py:365-380 | the loop builds exactly the flow graph and the column-to-table map |
| GenericSqlTrace.NamedFinals | generic_sql_lineage_parser.py:392-398 | no table found by the INSERT INTO, MERGE or UPDATE patterns holds `#` or `temp` |
| GenericSqlTrace.PairFinals | generic_sql_lineage_parser.py:406-414 | no joined schema and table from the bracketed patterns holds `#` or `temp` |
| GenericSqlTrace.DebugFinals | generic_sql_lineage_parser.py:425-430 | a table from the debug pass is dotted and holds neither `#` nor `temp` |
| GenericSqlTrace.FinalTables | generic_sql_lineage_parser.py:383-430 | the final tables hold every exact match, add only debug matches, and include no temp table |
| GenericSqlTrace.AddNamedFinals | generic_sql_lineage_parser.py:392-398 | the loop adds exactly the non-temp named matches |
| GenericSqlTrace.AddPairFinals | generic_sql_lineage_parser.py:406-414 | the loop adds exactly the non-temp bracketed matches |
| GenericSqlTrace.DebugFinalsSnoc | generic_sql_lineage_parser.py:425-431 | one more debug match adds its cleaned name exactly when it is dotted and not a temp table |
| GenericSqlTrace.AddDebugFinals | generic_sql_lineage_parser.py:425-430 | the loop adds exactly the dotted non-temp debug matches |
| GenericSqlTrace.CollectFinalTables | generic_sql_lineage_parser.py:383-430 | the three passes give exactly the final tables |
| GenericSqlTrace.CollectSourceTables | generic_sql_lineage_parser.py:435-441 | each source table is the table of some column, holds a source pattern, and is not a temp table |
| GenericSqlTrace.Adjacency | generic_sql_lineage_parser.py:466 | each column's successor list holds its successor set exactly once per element |
| GenericSqlTrace.PathsSound | generic_sql_lineage_parser.py:445-470 | every path returned extends the path so far with a reported walk from the column |
| GenericSqlTrace.BranchesSound | generic_sql_lineage_parser.py:465-470 | every path from the successor loop extends the path so far with a reported walk from one successor |
| GenericSqlTrace.AllPathsSound | generic_sql_lineage_parser.py:445-470 | a path from the top-level call starts at the column, follows the graph, repeats no column and meets a final-table column only at its end |
| GenericSqlTrace.ReportedTail | generic_sql_lineage_parser.py:459-470 | a reported walk of two or more columns starts with an edge from a non-final column, and its tail is reported once that column is visited |
| GenericSqlTrace.PathsComplete | generic_sql_lineage_parser.py:445-470 | every walk from the column that follows the flows, repeats no column, avoids the visited ones and meets a final column only at its end is returned after the path so far |
| GenericSqlTrace.BranchesComplete | generic_sql_lineage_parser.py:465-470 | every such walk from one of the successors is returned by the successor loop |
| GenericSqlTrace.AllPathsExact | generic_sql_lineage_parser.py:445-470 | the top-level search returns exactly the walks from the column that repeat no column and meet a final column only at their end |
| GenericSqlTrace.PathMappingsFrom | generic_sql_lineage_parser.py:485-511 | each recorded mapping comes from a path of two or more columns with dotted ends whose target table is final |
| GenericSqlTrace.RecordPaths | generic_sql_lineage_parser.py:485-511 | the inner loop appends exactly the mappings of the recordable paths |
| GenericSqlTrace.PrimaryMappings | generic_sql_lineage_parser.py:477-511 | the main pass gives exactly the specified mappings, key by key of `all_flows` |
| GenericSqlTrace.PrimarySound | generic_sql_lineage_parser.py:477-511 | a main-pass mapping is an end-to-end walk of two or more columns from a source-table column to a final-table column, with path length and intermediate count from its length |
| GenericSqlTrace.FirstWith | generic_sql_lineage_parser.py:538-554 | the first path through the column is one of the paths and contains it; nothing is returned only when no path contains it |
| GenericSqlTrace.PairStep | generic_sql_lineage_parser.py:536-554 | the innermost loop records the first path through the target column and stops |
| GenericSqlTrace.ColumnStep | generic_sql_lineage_parser.py:526-554 | the loop over `column_to_table` records the fallback mappings of one source column |
| GenericSqlTrace.FallbackMappings | generic_sql_lineage_parser.py:514-554 | the fallback pass gives exactly the specified mappings |
| GenericSqlTrace.FinalIsLast | generic_sql_lineage_parser.py:459-463 | a final-table column on a reported walk is its last column |
| GenericSqlTrace.FallbackSound | generic_sql_lineage_parser.py:514-554 | a fallback mapping's path ends at the target column matched by name |
| GenericSqlTrace.ColumnFallbackSound | generic_sql_lineage_parser.py:526-554 | a mapping from one source column starts at it and follows a reported walk to the matched target column |
| GenericSqlTrace.TracedSound | generic_sql_lineage_parser.py:477-554 | a traced record of a search built from the mappings follows the mapping graph from a source table to a non-temp final table |
| GenericSqlTrace.PathMappingsHas | generic_sql_lineage_parser.py:485-511 | every path of two or more columns with dotted ends and a final target table gets its record |
| GenericSqlTrace.PrimaryHas | generic_sql_lineage_parser.py:477-511 | every such walk from a column of a source table gets its main-pass record |
| GenericSqlTrace.TraceResultHasWalk | generic_sql_lineage_parser.py:477-567 | every recordable walk from a column of a source table has its source and target reported |
| GenericSqlTrace.TraceResultHasFallback | generic_sql_lineage_parser.py:514-567 | when the main pass finds nothing, every fallback record has its key reported |
| GenericSqlTrace.Trace | generic_sql_lineage_parser.py:360-567 | for some `for`-order of the successor sets, the result is the main pass, or the fallback when the main pass found nothing, first record per source and target key kept; every reported mapping is sound, and no two share a key |
| HybridSqlParser.ParseCSharpOutput | hybrid_sql_lineage_parser.py:64-110 | the line loop, with its block flag, current section and break at the end marker, gives exactly the specified metadata |
| HybridSqlParser.StepFacts | hybrid_sql_lineage_parser.py:76-103 | a step over a stripped line keeps both table lists, changes the name only on a name line inside the block, and opens the block only at the start marker |
| HybridSqlParser.ParseLinesKeepsLists | hybrid_sql_lineage_parser.py:97-101 | the source and target lists are never extended, because no stripped line starts with two blanks |
| HybridSqlParser.ParseOutputListsEmpty | hybrid_sql_lineage_parser.py:64-110 | the parsed source and target lists are always empty |
| HybridSqlParser.ParseWithoutStart | hybrid_sql_lineage_parser.py:79-87 | without a start marker, outside the block, nothing is read |
| HybridSqlParser.EndMarkerStops | hybrid_sql_lineage_parser.py:82-84 | the loop breaks at the end marker |
| HybridSqlParser.RunLinesStop | hybrid_sql_lineage_parser.py:82-84 | lines after a line where the loop breaks change nothing |
| HybridSqlParser.ParseStopsAtEnd | hybrid_sql_lineage_parser.py:82-84 | whatever follows the end marker leaves the metadata as it was |
| HybridSqlParser.StepLineDiscipline | hybrid_sql_lineage_parser.py:86-90 | the step sets the name only inside the block, on a `PROCEDURE_NAME:` line |
| HybridSqlParser.NameFromBlock | hybrid_sql_lineage_parser.py:76-90 | a changed name comes from a name line inside the block or after a start marker |
| HybridSqlParser.NameAfterStart | hybrid_sql_lineage_parser.py:64-110 | a parsed procedure name comes from a name line that follows a start marker |
| HybridSqlParser.SeedTables | hybrid_sql_lineage_parser.py:240-250 | one seeding loop enters each lower-cased name with no columns and usage 1, unless already present |
| HybridSqlParser.InitializeFromMetadata | hybrid_sql_lineage_parser.py:236-250 | the metadata's lists seed the source and target tables; nothing present is overwritten; intermediates are untouched |
| HybridSqlParser.SeedingKeeps | hybrid_sql_lineage_parser.py:240-250 | seeding keeps every existing entry and enters exactly the lower-cased listed names |
| HybridSqlTrace.AppendAllEdges | hybrid_sql_lineage_parser.py:401-417 | after appending a list of edges, a column follows another exactly when it did before or an appended edge joins them, and a column has a list exactly when it had one or an appended edge leaves it |
| HybridSqlTrace.CreateThenAppend | hybrid_sql_lineage_parser.py:405-407 | creating the empty list for a new key and then appending equals a single append |
| HybridSqlTrace.AppendEdges | hybrid_sql_lineage_parser.py:401-417 | the loop that appends each edge gives the appended dictionary |
| HybridSqlTrace.RecordAllAppend | hybrid_sql_lineage_parser.py:420-430 | recording the columns of two lists is recording the first list, then the second |
| HybridSqlTrace.RecordAllKeys | hybrid_sql_lineage_parser.py:421-430 | starting from an empty map, exactly the dotted columns visited are recorded, each with the text before its last dot |
| HybridSqlTrace.ColumnTablesFacts | hybrid_sql_lineage_parser.py:420-430 | the column map holds exactly the dotted columns that are keys or listed targets of the flows, each mapped to its table part |
| HybridSqlTrace.RecordColumns | hybrid_sql_lineage_parser.py:427-430 | the inner loop over one target list records its dotted columns |
| HybridSqlTrace.BuildColumnTables | hybrid_sql_lineage_parser.py:420-430 | the two loops build the column map of the flows |
| HybridSqlTrace.CollectIntermediate | hybrid_sql_lineage_parser.py:257-260 | the intermediate tables are the mapped tables starting with `#` or `<default>.#` that are neither source nor final tables |
| HybridSqlTrace.GroupColumns | hybrid_sql_lineage_parser.py:265-279 | the grouping loop gives each column name the columns of the admitted tables that carry it, in map order |
| HybridSqlTrace.GroupsMembers | hybrid_sql_lineage_parser.py:265-279 | a column is listed under a name exactly when the name is its last segment and its table is admitted |
| HybridSqlTrace.ItemsListed | hybrid_sql_lineage_parser.py:266-275 | the items of the column map list a column with an admitted table exactly when the map holds it with that table |
| HybridSqlTrace.BridgeRow | hybrid_sql_lineage_parser.py:285-288 | one row of strategy 1 writes a bridge for each target whose edge the flows do not already hold |
| HybridSqlTrace.BridgeRows | hybrid_sql_lineage_parser.py:284-288 | the two nested loops of strategy 1 for one name write exactly their row writes |
| HybridSqlTrace.BridgeName | hybrid_sql_lineage_parser.py:282-288 | for one intermediate column name, the bridges to the same-named target columns are written when the target side has that name, and nothing otherwise |
| HybridSqlTrace.BridgeByName | hybrid_sql_lineage_parser.py:282-288 | strategy 1 writes the bridges between same-named intermediate and final columns |
| HybridSqlTrace.RowMembers | hybrid_sql_lineage_parser.py:285-288 | a row writes a pair exactly when it starts at the row's column, ends at a listed target, and the flows lack that edge |
| HybridSqlTrace.RowsMembers | hybrid_sql_lineage_parser.py:284-288 | the nested loops write a pair exactly when its ends are listed and the flows lack that edge |
| HybridSqlTrace.NamePairsMembers | hybrid_sql_lineage_parser.py:282-288 | strategy 1 writes a pair exactly when both columns are grouped under the same name and the flows lack that edge |
| HybridSqlTrace.NameBridges | hybrid_sql_lineage_parser.py:264-288 | in terms of the column map: strategy 1 bridges an intermediate column to a final column with the same last segment, only over an edge the flows lack |
| HybridSqlTrace.PairsStep | hybrid_sql_lineage_parser.py:304-305 | one more matching target writes one more bridge from the source column |
| HybridSqlTrace.BridgeAll | hybrid_sql_lineage_parser.py:304-305 | the innermost loop of strategy 2 writes a bridge to every matching target |
| HybridSqlTrace.BridgeMergeRows | hybrid_sql_lineage_parser.py:301-305 | the loop over a pattern's source columns writes its same-named pairs |
| HybridSqlTrace.BridgePattern | hybrid_sql_lineage_parser.py:293-305 | one MERGE pattern writes the pairs of its lower-cased source and target tables, and nothing when either name is empty |
| HybridSqlTrace.BridgeByMerge | hybrid_sql_lineage_parser.py:292-306 | strategy 2 writes the pairs of every MERGE pattern in turn |
| HybridSqlTrace.ColsOfMembers | hybrid_sql_lineage_parser.py:298-299 | the columns collected for a table are exactly the mapped columns of that table |
| HybridSqlTrace.MatchingMembers | hybrid_sql_lineage_parser.py:303 | the matching targets are exactly the target columns with the same last segment |
| HybridSqlTrace.MergeRowsMembers | hybrid_sql_lineage_parser.py:301-305 | a pattern writes a pair exactly when its ends are a source and a target column with the same last segment |
| HybridSqlTrace.PatternPairsMembers | hybrid_sql_lineage_parser.py:293-305 | a pattern writes exactly the pairs its MERGE description admits |
| HybridSqlTrace.PatternBridge | hybrid_sql_lineage_parser.py:294-305 | in terms of the column map: a pattern bridges a column of its source table to a same-named column of its target table |
| HybridSqlTrace.MergeBridges | hybrid_sql_lineage_parser.py:292-306 | strategy 2 bridges a pair exactly when the ends share their last segment and some pattern joins their tables |
| HybridSqlTrace.BridgeBySynonym | hybrid_sql_lineage_parser.py:319-328 | strategy 3 writes the bridges from intermediate columns whose name has a synonym to the final columns carrying that synonym |
| HybridSqlTrace.SynonymPairsMembers | hybrid_sql_lineage_parser.py:309-328 | strategy 3 writes a pair exactly when the first column is intermediate, its name is one of the seven synonym keys, the second carries the synonym, and the flows lack that edge |
| HybridSqlTrace.DiscoverBridges | hybrid_sql_lineage_parser.py:252-331 | the three strategies run in order give the bridge dictionary |
| HybridSqlTrace.BridgePairsMembers | hybrid_sql_lineage_parser.py:252-331 | the writes of the three strategies are exactly the pairs one of the strategies admits |
| HybridSqlTrace.BridgesSound | hybrid_sql_lineage_parser.py:252-331 | a column is bridged exactly when some strategy admits a bridge for it, and the bridge kept (the last written) is an admitted one; only a MERGE pattern can bridge an edge the flows already hold |
| HybridSqlTrace.FinalFlowsEdges | hybrid_sql_lineage_parser.py:398-439 | in the final flows a column follows another exactly when a column mapping, a C# lineage or the column's kept bridge joins them |
| HybridSqlTrace.HybridSearchTables | hybrid_sql_lineage_parser.py:441-452 | the rebuilt column map gives every column its table part |
| HybridSqlTrace.DottedTablesMembers | hybrid_sql_lineage_parser.py:521-525 | the tables collected from the inner steps are exactly the table parts of the dotted steps |
| HybridSqlTrace.InnerTablesFacts | hybrid_sql_lineage_parser.py:520-525 | the intermediate tables repeat no table and are exactly the tables of the dotted inner steps |
| HybridSqlTrace.InnerTablesStep | hybrid_sql_lineage_parser.py:521-525 | one round of the loop appends a dotted step's table unless it is listed already |
| HybridSqlTrace.InnerTablesOf | hybrid_sql_lineage_parser.py:520-525 | the loop builds the intermediate tables |
| HybridSqlTrace.HybridOfSound | hybrid_sql_lineage_parser.py:504-535 | the record built for a reported complete path from an original source column splits its ends at the last dot, counts its columns, joins it with arrows, and lists its inner tables once each |
| HybridSqlTrace.HybridPathMappingsFrom | hybrid_sql_lineage_parser.py:504-513 | every record comes from a complete path with at least two columns and two dotted ends |
| HybridSqlTrace.CandidatesSound | hybrid_sql_lineage_parser.py:488-537 | every record stands for a complete path from a column of an original source table, which is a source table that is not a temp table and not one of the five aliases |
| HybridSqlTrace.RecordHybridPath | hybrid_sql_lineage_parser.py:504-535 | one complete path adds its record exactly when it is traceable |
| HybridSqlTrace.RecordHybridPaths | hybrid_sql_lineage_parser.py:504-537 | the loop over the complete paths appends their records |
| HybridSqlTrace.CollectCandidates | hybrid_sql_lineage_parser.py:488-537 | the scan over the flow keys collects the records of every original source column |
| HybridSqlTrace.HybridTrace | hybrid_sql_lineage_parser.py:333-555 | the whole trace gives the de-duplicated records; every record stands for a complete path from an original source column to a final column, and no two records share a source and target table and column (the converse is HybridSqlTrace.HybridTraceComplete) |
| HybridSqlTrace.HybridPathMappingsHas | hybrid_sql_lineage_parser.py:504-535 | every complete path with two or more columns and dotted ends gets its record |
| HybridSqlTrace.CandidatesHas | hybrid_sql_lineage_parser.py:488-535 | every such path of a column of an original source table is among the candidate records |
| HybridSqlTrace.HybridTraceComplete | hybrid_sql_lineage_parser.py:488-555 | every complete path along the flows with their bridges, from a column of an original source table to a final column and with dotted ends, has its source and target table and column among the kept records |
| EndToEndTracer.AppendedCount | end_to_end_lineage_tracer.py:61-66 | lists keep duplicates: after a pass, a target occurs in a column's list once more for every edge of the pass joining them |
| EndToEndTracer.FlipCount | end_to_end_lineage_tracer.py:65-66 | the reverse graph receives each edge of the forward graph flipped, as often |
| EndToEndTracer.AppendedMirror | end_to_end_lineage_tracer.py:61-66 | paired appends keep the forward and reverse graphs mirror images, edge counts included |
| EndToEndTracer.WritesKinds | end_to_end_lineage_tracer.py:69-78 | in the real-to-real pass every metadata record is typed real; in the temp-involved pass exactly those whose table is a real table |
| EndToEndTracer.MetaAfterWrites | end_to_end_lineage_tracer.py:61-104 | a pass is its metadata writes, source then target for each lineage, applied in order |
| EndToEndTracer.MetaAfterNamed | end_to_end_lineage_tracer.py:69-104 | every metadata record stays keyed by its own table and column names |
| EndToEndTracer.LaterWriteWins | end_to_end_lineage_tracer.py:84-104 | a column written in the temp-involved pass ends with the record of its last write there, typed real exactly when its table is real |
| EndToEndTracer.RealPassKept | end_to_end_lineage_tracer.py:61-78 | a column written only by the real-to-real pass keeps a real type |
| EndToEndTracer.StagingNotFinal | end_to_end_lineage_tracer.py:125-147 | no column is both a staging source and a final target |
| EndToEndTracer.WithinGrows | end_to_end_lineage_tracer.py:158-176 | the columns reachable within more edges include those within fewer |
| EndToEndTracer.WalkWithin | end_to_end_lineage_tracer.py:158-176 | the end of a walk of k edges is reachable within k edges |
| EndToEndTracer.WithinStable | end_to_end_lineage_tracer.py:162-176 | once a BFS layer adds nothing, no later layer adds anything |
| EndToEndTracer.Unreachable | end_to_end_lineage_tracer.py:162-178 | when the target is not within n edges, every walk to it has more than n + 1 columns |
| EndToEndTracer.LayeredAt | end_to_end_lineage_tracer.py:162-176 | the i-th column of a walk from the source is within i edges of it |
| EndToEndTracer.LayeredSimple | end_to_end_lineage_tracer.py:162-176 | a path the BFS builds, each column first reached at its own depth, repeats no column |
| EndToEndTracer.LayeredExtend | end_to_end_lineage_tracer.py:174-176 | extending a BFS path by a column not reached earlier keeps it a BFS path |
| EndToEndTracer.ScanStep | end_to_end_lineage_tracer.py:170-176 | one successor: the target gives a shortest walk; otherwise an unseen column is visited and queued |
| EndToEndTracer.ScanNext | end_to_end_lineage_tracer.py:170-176 | after all successors of a path the scan moves to the next path of the level |
| EndToEndTracer.LevelClose | end_to_end_lineage_tracer.py:162-176 | after the last path of a level the queued paths form the next level |
| EndToEndTracer.ScanFound | end_to_end_lineage_tracer.py:171-172 | finding the target among the successors gives a simple walk that no walk to the target undercuts |
| EndToEndTracer.Exhausted | end_to_end_lineage_tracer.py:165-178 | the BFS stops without the target only when every walk to it is longer than the depth bound allows |
| EndToEndTracer.ExpandLevel | end_to_end_lineage_tracer.py:162-176 | one level either finds a shortest simple walk of the next length or yields the next level |
| EndToEndTracer.ExpandPath | end_to_end_lineage_tracer.py:170-176 | the successors of one path, in list order, either end the search with a shortest walk or extend the queue |
| EndToEndTracer.ShortestWalk | end_to_end_lineage_tracer.py:149-178 | equal columns give the one-column path; a found path is a simple, shortest walk of at most maxDepth edges; none found means no walk of at most maxDepth edges exists |
| EndToEndTracer.CollectSamples | end_to_end_lineage_tracer.py:193-207 | every kept sample is a shortest walk of 2 to 16 columns for a tried pair; at most maxSamples are kept (one when it is 0), and unless the search stopped early every tried pair with a walk of at most 15 edges has a sample |
| EndToEndTracer.Ingest | end_to_end_lineage_tracer.py:61-104 | one pass appends every edge to both graphs and writes every metadata record |
| EndToEndTracer.CompleteSnoc | end_to_end_lineage_tracer.py:193-204 | a pair that is unreachable or has a sample keeps the tried pairs covered |
| EndToEndTracer.CompleteMore | end_to_end_lineage_tracer.py:199-204 | keeping more samples keeps the tried pairs covered |
| EndToEndTracer.Tracer.constructor | end_to_end_lineage_tracer.py:19-53 | the tracer starts with empty graphs and metadata and holds the given lineages and real tables |
| EndToEndTracer.Tracer.RealTables | end_to_end_lineage_tracer.py:111-123 | the real tables are exactly the real source and real target tables |
| EndToEndTracer.Tracer.BuildLineageGraph | end_to_end_lineage_tracer.py:55-109 | the real-to-real pass then the temp-involved pass, on both graphs and the metadata |
| EndToEndTracer.Tracer.AddLineages | end_to_end_lineage_tracer.py:59-104 | one pass updates both graphs and the metadata as specified |
| EndToEndTracer.Tracer.FindStagingSources | end_to_end_lineage_tracer.py:125-134 | the columns, in metadata order, whose table lower-cased starts with `staging.` |
| EndToEndTracer.Tracer.FindFinalTargets | end_to_end_lineage_tracer.py:136-147 | the columns, in metadata order, typed real target whose table is neither staging nor temp |
| EndToEndTracer.Tracer.Scan | end_to_end_lineage_tracer.py:129-145 | the filter loop keeps exactly the metadata keys whose record passes the test, in order |
| EndToEndTracer.Tracer.TraceEndToEndPath | end_to_end_lineage_tracer.py:149-178 | the BFS on the tracer's graph finds a simple shortest walk within the depth bound, or proves there is none |
| EndToEndTracer.Tracer.FindSamplePaths | end_to_end_lineage_tracer.py:180-210 | the samples are shortest walks for staging-to-final pairs among the first 50 tried, at most maxSamples of them, covering every reachable tried pair unless the search stopped early |
| EndToEndTracer.Tracer.SearchPairs | end_to_end_lineage_tracer.py:189-195 | at most 50 pairs are tried, each a staging source with a final target |
| EndToEndTracer.Where | end_to_end_lineage_tracer.py:125-147 | the columns kept are exactly the metadata keys whose record passes the test, never more than the keys and without repeats |
| EndToEndTracer.TraceLineage | end_to_end_lineage_tracer.py:251-264 | one pair traced with depth 10: a record is a shortest walk of 2 to 11 columns with its tables, its edge count and its inner columns; no record means no walk of at most 10 edges |
| EndToEndTracer.CoversAdded | end_to_end_lineage_tracer.py:251-265 | a record for the next pair keeps every tried reachable pair covered |
| EndToEndTracer.LineageSkipped | end_to_end_lineage_tracer.py:251-253 | a pair with no walk of at most 10 edges needs no record |
| EndToEndTracer.CollectLineages | end_to_end_lineage_tracer.py:249-265 | every record is sound and drawn from the pairs, there are no more records than pairs, and every pair with a walk of at most 10 edges has one |
| EndToEndTracer.Tracer.FindAllEndToEndLineages | end_to_end_lineage_tracer.py:236-269 | the records join staging sources to final targets, each a shortest walk with its metadata tables, and every staging-to-final pair with a walk of at most 10 edges has a record |
| EnhancedLineageParser.SchemaKinds | enhanced_lineage_parser.py:119-132 | a schema table lands in at most one category, by the precedence of the source, target and intermediate patterns, and a table any pattern names is categorised |
| EnhancedLineageParser.SchemaTablesSnoc | enhanced_lineage_parser.py:124-132 | one more schema table adds its lower-cased name to the one category its patterns choose |
| EnhancedLineageParser.AddLowered | enhanced_lineage_parser.py:112-117 | the update adds the lower-cased metadata tables to the set |
| EnhancedLineageParser.AddSchemaTables | enhanced_lineage_parser.py:124-132 | the loop over the schema tables adds each to the category its patterns choose |
| EnhancedLineageParser.FreshCons | enhanced_lineage_parser.py:238-253 | a path avoids the visited columns and repeats none exactly when its head is unvisited and its tail does so with the head visited |
| EnhancedLineageParser.FollowFreshMembers | enhanced_lineage_parser.py:251-255 | the paths built from the successors are exactly the start followed by a path from some unvisited successor |
| EnhancedLineageParser.SimplePathsSound | enhanced_lineage_parser.py:234-257 | every path `find_target_paths` reports is a walk from the start, of at most the depth bound in columns, that repeats no column and avoids the visited columns |
| EnhancedLineageParser.FollowFreshFrom | enhanced_lineage_parser.py:251-255 | a path through a listed successor whose tail is reported from it is reported |
| EnhancedLineageParser.SimplePathsComplete | enhanced_lineage_parser.py:234-257 | every such walk ending in the first target column it meets is reported |
| EnhancedLineageParser.PathsMappingsMembers | enhanced_lineage_parser.py:270-288 | a column's traced mappings are exactly the records of its reported paths of two or more columns that end at a mapped column |
| EnhancedLineageParser.SourceTracesMembers | enhanced_lineage_parser.py:264-288 | a source table's traced mappings are exactly those of its columns |
| EnhancedLineageParser.TracedMembers | enhanced_lineage_parser.py:263-288 | the traced mappings are exactly the records of the simple walks of two to five columns from a column of a source table to a target column |
| EnhancedLineageParser.TracedShape | enhanced_lineage_parser.py:272-288 | a traced mapping runs from a column of a source table to a column of a target table, over two to five columns, typed `traced` |
| EnhancedLineageParser.TracePaths | enhanced_lineage_parser.py:272-288 | the loop over one column's paths builds its traced mappings |
| EnhancedLineageParser.TraceSource | enhanced_lineage_parser.py:264-288 | the loop over one source table's columns builds its traced mappings |
| EnhancedLineageParser.TraceSources | enhanced_lineage_parser.py:263-288 | the loop over the source tables builds the traced mappings |
| EnhancedLineageParser.IsLikelyTransformation | enhanced_lineage_parser.py:336-358 | the loop over the seven pattern pairs, then the partial-name tests, decides a likely transformation |
| EnhancedLineageParser.LikelyContained | enhanced_lineage_parser.py:353-356 | a name is a likely transformation of itself and of any name containing it or contained in it, both ways |
| EnhancedLineageParser.PairsWithMembers | enhanced_lineage_parser.py:312-332 | one source column is matched exactly with the target columns whose names agree or look like a transformation |
| EnhancedLineageParser.TablePairsMembers | enhanced_lineage_parser.py:311-332 | one pair of tables is matched on exactly their name-matching column pairs |
| EnhancedLineageParser.TargetPairsMembers | enhanced_lineage_parser.py:308-332 | one source table is matched against exactly the target tables' name-matching columns |
| EnhancedLineageParser.SchemaMembers | enhanced_lineage_parser.py:299-334 | a schema mapping exists exactly for each source-target column pair whose names agree (exact match) or differ but look like a transformation (transform match), one step long |
| EnhancedLineageParser.MatchColumn | enhanced_lineage_parser.py:312-332 | the loop over the target columns gives one source column's matches |
| EnhancedLineageParser.MatchTables | enhanced_lineage_parser.py:311-332 | the loop over the source columns gives one pair of tables' matches |
| EnhancedLineageParser.MatchTargets | enhanced_lineage_parser.py:308-332 | the loop over the target tables gives one source table's matches |
| EnhancedLineageParser.SchemaBasedMappings | enhanced_lineage_parser.py:299-334 | the loop over the source tables gives all schema matches |
| EnhancedLineageParser.EndToEndSound | enhanced_lineage_parser.py:259-295 | every kept mapping runs from a column of a source table: a traced one to a target column over two to five columns, a schema one a one-step name match |
| EnhancedLineageParser.EndToEndUnique | enhanced_lineage_parser.py:360-372 | no two kept mappings share their source and target table and column |
| EnhancedLineageParser.TracedWins | enhanced_lineage_parser.py:290-295 | a schema match survives only for keys no traced path reaches, because traced mappings come first |
| EnhancedLineageParser.EndToEndComplete | enhanced_lineage_parser.py:290-295 | every traced mapping and every schema match is represented by the mapping kept for its key |
| EnhancedLineageParser.ReportOrder | enhanced_lineage_parser.py:405-406 | the report lists a permutation of the mappings, sorted by target table, source table and source column |
| EnhancedLineageParser.EnhancedParser.constructor | enhanced_lineage_parser.py:23-46 | the parser starts with empty table sets, flows, maps and mappings |
| EnhancedLineageParser.EnhancedParser.BuildTableColumnMappings | enhanced_lineage_parser.py:90-103 | each schema table's lower-cased columns are recorded under its lower-cased name, and each column under its table; nothing else changes |
| EnhancedLineageParser.EnhancedParser.CategorizeTables | enhanced_lineage_parser.py:105-136 | the real metadata tables, lower-cased, and the schema tables by pattern are added to the three categories; nothing else changes |
| EnhancedLineageParser.EnhancedParser.ExtractFlows | enhanced_lineage_parser.py:174-187 | each reported column path adds the flow from its first to its last column and records the tables of both ends |
| EnhancedLineageParser.EnhancedParser.MergeMetadataFlows | enhanced_lineage_parser.py:198-228 | only the complete real-to-real entries add a lower-cased flow and both table records, and the count is theirs |
| EnhancedLineageParser.EnhancedParser.TraceEndToEnd | enhanced_lineage_parser.py:230-297 | the mappings are the de-duplicated traced and schema mappings for some iteration order of the sets; only the mappings change |
| EnhancedLineageParser.EnhancedParser.Analyze | enhanced_lineage_parser.py:374-390 | the new state is the composition of the passes: the schema maps, the source, target and intermediate tables from the metadata and the schema, the flows from the lineage paths and then the accepted metadata lineages, and the mappings traced over them for some iteration order of the sets; so every mapping runs from a column of a source table to a target table, traced over two to five columns or a one-step schema match, and no two share a key |
| EnhancedLineageParser.TraceAll | enhanced_lineage_parser.py:259-295 | the traced mappings, the schema matches and the de-duplication, for some iteration order of the sets |
| FinalLineageParser.CategoriesSound | final_lineage_parser.py:103-140 | every source added names staging or ref; every final target added is a kept metadata target or one of the six listed tables; a schema table matching a source pattern is never made a final target |
| FinalLineageParser.MetaSourcesSnoc | final_lineage_parser.py:117-131 | one more metadata table, lower-cased, is added as a source when it names staging or ref, and as a final target when it passes the final-target test |
| FinalLineageParser.SchemaSnoc | final_lineage_parser.py:134-140 | one more schema table is added as a source when it names a source pattern, otherwise as a final target when it is one of the six listed tables |
| FinalLineageParser.AddMetaSources | final_lineage_parser.py:116-121 | the loop over the metadata's real source tables adds the lower-cased ones that name staging or ref |
| FinalLineageParser.AddMetaFinals | final_lineage_parser.py:123-131 | the loop over the metadata's real target tables adds the lower-cased ones without `work` that name ledgerfinal, audit or ops, or are `core.gl` |
| FinalLineageParser.AddSchemaTables | final_lineage_parser.py:134-140 | the loop over the schema's tables adds sources and final targets by pattern |
| FinalLineageParser.FollowMembers | final_lineage_parser.py:305-308 | the paths built from the successors are exactly the start followed by a path reported from some successor |
| FinalLineageParser.TargetPathsSound | final_lineage_parser.py:291-310 | every path `find_target_paths` reports is a walk from the start of at most the depth bound in columns |
| FinalLineageParser.FollowFrom | final_lineage_parser.py:305-308 | a path through a listed successor whose tail is reported from it is reported |
| FinalLineageParser.TargetPathsComplete | final_lineage_parser.py:291-310 | every such walk, ending at the first final column it meets, is reported |
| FinalLineageParser.KeyMappingsMembers | final_lineage_parser.py:241-288 | a key mapping is reported exactly for each listed transformation whose source table is a source, whose target table is a final target, and whose columns the schema has |
| FinalLineageParser.CollectEntry | final_lineage_parser.py:265-288 | the loop over one transformation's targets collects its key mappings |
| FinalLineageParser.CollectKeyMappings | final_lineage_parser.py:264-288 | the loop over the sixteen known transformations collects the key mappings |
| FinalLineageParser.PathsMappingsMembers | final_lineage_parser.py:319-334 | a column's traced mappings are exactly the records of its reported paths of two or more columns ending at a mapped column |
| FinalLineageParser.SourceTracesMembers | final_lineage_parser.py:314-334 | a source table's traced mappings are exactly those of its columns |
| FinalLineageParser.TracedMembers | final_lineage_parser.py:313-334 | the traced mappings are exactly the records of the walks of two to three columns from a column of a source table to a final column |
| FinalLineageParser.TracePaths | final_lineage_parser.py:321-334 | the loop over one column's paths builds its traced mappings |
| FinalLineageParser.TraceSource | final_lineage_parser.py:314-334 | the loop over one source table's columns builds its traced mappings |
| FinalLineageParser.TraceSources | final_lineage_parser.py:313-334 | the loop over the source tables builds the traced mappings |
| FinalLineageParser.FilterMembers | final_lineage_parser.py:341-364 | the filter keeps exactly the meaningful mappings among the first of each key, because a dropped mapping's key is still marked seen |
| FinalLineageParser.FilterUnique | final_lineage_parser.py:343-362 | no two kept mappings share a key |
| FinalLineageParser.FilterMeaningfulLoop | final_lineage_parser.py:341-364 | the loop with its seen set gives the filtered mappings |
| FinalLineageParser.TracedEnds | final_lineage_parser.py:313-334 | every traced mapping runs from a traced source table to a final table, typed `traced_flow` |
| FinalLineageParser.EndToEndSound | final_lineage_parser.py:236-337 | every end-to-end mapping is meaningful, is a key mapping or a traced one, and runs from a source table to a final target table |
| FinalLineageParser.KeyMappingsShadow | final_lineage_parser.py:262-337 | a kept traced mapping never shares its key with a key mapping, because the key mappings come first |
| FinalLineageParser.EndToEndUnique | final_lineage_parser.py:337-364 | no two end-to-end mappings share a key |
| FinalLineageParser.EndToEndComplete | final_lineage_parser.py:262-364 | every meaningful key or traced mapping has its key reported |
| FinalLineageParser.ReportOrder | final_lineage_parser.py:397-398 | the report lists a permutation of the mappings, sorted by target table, source table and source column |
| FinalLineageParser.FinalParser.constructor | final_lineage_parser.py:22-44 | the parser starts with empty table sets, flows, maps and mappings |
| FinalLineageParser.FinalParser.BuildTableColumnMappings | final_lineage_parser.py:88-101 | each schema table's lower-cased columns are recorded under its lower-cased name, and each column under its table; nothing else changes |
| FinalLineageParser.FinalParser.CategorizeTables | final_lineage_parser.py:103-143 | the metadata's filtered real tables, then the schema's tables by pattern, are added to the sources and final targets; nothing else changes |
| FinalLineageParser.FinalParser.ExtractFlows | final_lineage_parser.py:181-193 | each reported column path adds the flow from its first to its last column and records the tables of both ends |
| FinalLineageParser.FinalParser.MergeMetadataFlows | final_lineage_parser.py:204-234 | only the complete real-to-real entries add a lower-cased flow and both table records, and the count is theirs |
| FinalLineageParser.FinalParser.TraceKeyLineage | final_lineage_parser.py:236-339 | the mappings are the filtered key and traced mappings for some iteration order of the sets; only the mappings change |
| FinalLineageParser.FinalParser.Analyze | final_lineage_parser.py:366-382 | the new state is the composition of the passes: the schema maps, the source and final tables from the metadata and the schema, the flows from the lineage paths and then the accepted metadata lineages, and the mappings traced over them for some iteration order of the sets; so every mapping is meaningful and runs from a source table to a final target table, and no two share a key |
| FinalLineageParser.TraceAll | final_lineage_parser.py:262-337 | the key mappings, the traced mappings in some iteration order, and the filter |
| OpenLineageGenerator.NormalizeHasDot | openlineage_generator.py:61-78 | a normalised table name always has a namespace part |
| OpenLineageGenerator.NormalizeDotted | openlineage_generator.py:67-78 | a dotted name that is not a temp table is kept as it is, because no CTE alias has a dot |
| OpenLineageGenerator.NormalizeIdempotent | openlineage_generator.py:61-78 | normalising twice is normalising once |
| OpenLineageGenerator.PrefixedNameKept | openlineage_generator.py:74-78 | a staging, ref, core, audit or ops table keeps its own name |
| OpenLineageGenerator.TransformationOf | openlineage_generator.py:80-110 | a one-step lineage is DIRECT, an identity exactly when it stays in one table; any other is INDIRECT; nothing is masked |
| OpenLineageGenerator.TargetingMembers | openlineage_generator.py:122-136 | the lineages picked for a table are exactly those whose target column lies in it |
| OpenLineageGenerator.ColumnGroupMembers | openlineage_generator.py:139-144 | a column's group holds exactly the lineages with a dotted target naming that column |
| OpenLineageGenerator.GroupedAt | openlineage_generator.py:138-144 | a column is a key of `columns_map` exactly when some lineage targets it, and its list holds those lineages in order |
| OpenLineageGenerator.InputFieldsMembers | openlineage_generator.py:148-165 | a column's input fields are exactly the normalised source fields of its lineages with a dotted source |
| OpenLineageGenerator.FacetFields | openlineage_generator.py:112-169 | the facet's fields are exactly the target columns of the lineages into the table, each with the input fields of its lineages with a dotted source |
| OpenLineageGenerator.CandidatesMembers | openlineage_generator.py:172-192 | the proposed dataset entries come exactly from the lineages of more than one step with a dotted source |
| OpenLineageGenerator.DatasetFacts | openlineage_generator.py:171-197 | each dataset entry comes from a multi-step lineage with a dotted source, no two share a name and field, and every proposed entry is represented by the one kept for its name and field |
| OpenLineageGenerator.CollectTargetLineages | openlineage_generator.py:124-136 | the loop over one lineage list picks the lineages into the table |
| OpenLineageGenerator.GroupByColumn | openlineage_generator.py:139-144 | the loop fills `columns_map` |
| OpenLineageGenerator.FieldsOfGroup | openlineage_generator.py:148-165 | the loop builds one column's input fields |
| OpenLineageGenerator.BuildFields | openlineage_generator.py:147-169 | the loop over `columns_map` builds the facet's fields |
| OpenLineageGenerator.EntryKeysSnoc | openlineage_generator.py:195-197 | appending an entry adds its name and field to the keys seen |
| OpenLineageGenerator.CandidatesCons | openlineage_generator.py:173-192 | the entries proposed by a suffix of the lineages are those of its first lineage followed by the rest's |
| OpenLineageGenerator.AddEntry | openlineage_generator.py:182-197 | one round appends the proposed entry exactly when its name and field are new |
| OpenLineageGenerator.BuildDataset | openlineage_generator.py:172-197 | the loop fills `facet["dataset"]` with the first entry of each name and field |
| OpenLineageGenerator.BuildColumnLineageFacet | openlineage_generator.py:112-199 | the facet holds the fields and the dataset built for the table |
| OpenLineageGenerator.InputListMembers | openlineage_generator.py:205-224 | the inputs collected are exactly the schema's staging and ref tables |
| OpenLineageGenerator.OutputListMembers | openlineage_generator.py:232-259 | the outputs collected are exactly the schema's core, audit and ops tables, each with its facet |
| OpenLineageGenerator.InputDatasets | openlineage_generator.py:201-226 | the inputs are a permutation of the collected ones, sorted by name |
| OpenLineageGenerator.OutputDatasets | openlineage_generator.py:228-261 | the outputs are a permutation of the collected ones, sorted by name |
| OpenLineageGenerator.DatasetsMembers | openlineage_generator.py:201-261 | the inputs are exactly the schema's staging and ref tables and the outputs its core, audit and ops tables, each named as in the schema, each output with its facet |
| OpenLineageGenerator.GetInputDatasets | openlineage_generator.py:201-226 | the loop over the schema collects and sorts the inputs |
| OpenLineageGenerator.GetOutputDatasets | openlineage_generator.py:228-261 | the loop over the schema builds, collects and sorts the outputs |
| OpenLineageGenerator.GenerateEvent | openlineage_generator.py:263-296 | an event carries its type, the inputs and the outputs of the schema |
| OpenLineageGenerator.GenerateAllEvents | openlineage_generator.py:298-324 | three events, START, RUNNING and COMPLETE, all with the same inputs; only COMPLETE has outputs |
| LineageAnalyzer.CompleteOnly | lineage_analyzer.py:61-65 | the temp-involved entries kept are exactly those with all four names present |
| LineageAnalyzer.Ingested | lineage_analyzer.py:51-65 | the lineages are every real-to-real entry and the complete temp-involved ones |
| LineageAnalyzer.EdgesSnoc | lineage_analyzer.py:68-73 | one more lineage adds the edge from its source column to its target column |
| LineageAnalyzer.Link | lineage_analyzer.py:72-73 | adding to a set-valued default dictionary adds exactly that edge and that key |
| LineageAnalyzer.LinkIdempotent | lineage_analyzer.py:72-73 | adding an edge already present changes nothing |
| LineageAnalyzer.AddEdge | lineage_analyzer.py:68-75 | one round keeps the forward and reverse graphs mirror images with non-empty target sets, and the column set their keys, all dotted |
| LineageAnalyzer.KeysDotted | lineage_analyzer.py:69-70 | every source and target key has a dot |
| LineageAnalyzer.BuildGraphs | lineage_analyzer.py:67-75 | the loop builds mirrored graphs whose forward edges are exactly the lineages' edges |
| LineageAnalyzer.Analyzer.constructor | lineage_analyzer.py:24-75 | the analyzer's forward edges are exactly the edges of the ingested lineages, and its graphs are mirrored |
| LineageAnalyzer.Analyzer.SourcesAndTargetsDisjoint | lineage_analyzer.py:186-198 | no known column is both an ultimate source and an ultimate target, because every known column has an edge |
| LineageAnalyzer.TempIgnoresCase | lineage_analyzer.py:77-85 | the temp test ignores case apart from the `#` prefix |
| LineageAnalyzer.CategorizeLineage | lineage_analyzer.py:87-102 | real-to-real exactly when neither first segment names a temp table, temp-to-temp exactly when both do, real-to-temp exactly when only the target's does |
| LineageAnalyzer.Ultimate | lineage_analyzer.py:104-142 | every ultimate source (on the reverse graph) or target (on the forward graph) found has no edge onward |
| LineageAnalyzer.UltimateComplete | lineage_analyzer.py:104-142 | the end of every walk that avoids the visited columns, repeats none, and stops at the first column without edges is found |
| LineageAnalyzer.PrependWalk | lineage_analyzer.py:118-120 | a walk from a neighbour extends back to the column |
| LineageAnalyzer.UltimateSound | lineage_analyzer.py:104-142 | everything found ends such a walk from the column |
| LineageAnalyzer.ExtendPending | lineage_analyzer.py:158-168 | extending a queued path by an unvisited successor gives a simple walk from the source, queued again unless it reached the target |
| LineageAnalyzer.PrefixPending | lineage_analyzer.py:150-168 | every proper prefix of a simple path from the source to the target was queued |
| LineageAnalyzer.PrefixOfPending | lineage_analyzer.py:150-168 | a prefix of a queued path was queued |
| LineageAnalyzer.ShapeOfStep | lineage_analyzer.py:155-163 | a one-column extension of a queued path is simple, follows the graph and is within the bound exactly when its new column is an unvisited successor of a short enough path |
| LineageAnalyzer.StepShape | lineage_analyzer.py:159-163 | a simple one-column extension adds an unvisited successor |
| LineageAnalyzer.BfsStart | lineage_analyzer.py:149-150 | the search starts with no path found and the one-column path at the source queued, which is exactly the pending paths of one column |
| LineageAnalyzer.BfsStep | lineage_analyzer.py:152-168 | one round of the deque keeps the search invariant |
| LineageAnalyzer.BfsAssemble | lineage_analyzer.py:152-168 | the search invariant holds once its parts do: the queue and the found list are exact, ordered by length, and every longer path passes through the queue |
| LineageAnalyzer.BfsDone | lineage_analyzer.py:152-170 | once the queue is empty the paths found are exactly the reportable paths |
| LineageAnalyzer.DisjointByLength | lineage_analyzer.py:163-166 | the paths found in one round are longer than every earlier one, so the list of found paths never holds a path twice |
| LineageAnalyzer.NewPrefix | lineage_analyzer.py:152-168 | a path in a duplicate-free queue is not among the paths before it, so its extensions are new |
| LineageAnalyzer.NextExact | lineage_analyzer.py:159-168 | the next round's queue is exactly the queued paths one column longer |
| LineageAnalyzer.FoundExact | lineage_analyzer.py:163-166 | the paths found so far are exactly the simple paths to the target up to the current length |
| LineageAnalyzer.LongerThrough | lineage_analyzer.py:152-168 | every longer path to the target passes through the next queue |
| LineageAnalyzer.Ordered | lineage_analyzer.py:152-168 | paths are found in order of length |
| LineageAnalyzer.Analyzer.FindPaths | lineage_analyzer.py:144-170 | equal ends give `[[source]]`; otherwise the paths are exactly the simple paths from source to target with at most 16 columns, each once, shortest first |
| LineageAnalyzer.Analyzer.ExpandLevel | lineage_analyzer.py:152-168 | one round of the deque finds exactly the one-column extensions that reach the target and queues exactly the others within the bound, each once |
| LineageAnalyzer.Analyzer.ExpandPath | lineage_analyzer.py:158-168 | the successors of one path, in turn, give exactly its extensions that reach the target and those to queue, each once |
| LineageAnalyzer.Shortest | lineage_analyzer.py:215 | the first of the shortest paths is one of the paths and no longer than any |
| LineageAnalyzer.ShortestOfOrdered | lineage_analyzer.py:215 | on paths listed shortest first, as `find_paths` lists them, `min(paths, key=len)` is the first path |
| LineageAnalyzer.FirstFive | lineage_analyzer.py:215-229 | the first listed path is no longer than any reportable path, and `paths[:5]` holds distinct reportable paths and leaves out none shorter than the last it keeps |
| LineageAnalyzer.DirectEdge | lineage_analyzer.py:215-216 | a shortest path has two columns exactly when the source has an edge to the target |
| LineageAnalyzer.LineageFacts | lineage_analyzer.py:211-230 | a record's shortest path is a reportable path no other beats, with `path_length` its steps; `is_direct` holds exactly when the source has an edge to the target; `all_paths` holds up to five distinct reportable paths, shortest first, missing none shorter than its last; `path_count` is the number of reportable paths, whatever order they are listed in |
| LineageAnalyzer.FiledByEdge | lineage_analyzer.py:234-239 | a record is filed as direct exactly when its source has an edge to its target |
| LineageAnalyzer.CoveredGrows | lineage_analyzer.py:209-246 | filing more records keeps every joined pair covered |
| LineageAnalyzer.FiledGrows | lineage_analyzer.py:234-246 | filing one valid record about a pair not yet filed, as direct or indirect and as real-to-real or temp-involved, keeps the lists and counters consistent, keeps the category lists holding the same records as the direct and indirect ones, and leaves no pair with two records |
| LineageAnalyzer.Analyzer.UltimateColumns | lineage_analyzer.py:186-198 | the ultimate sources are exactly the known columns without incoming edges, the targets those without outgoing ones |
| LineageAnalyzer.Analyzer.PairLineage | lineage_analyzer.py:211-231 | a record exists for a source and target exactly when some path joins them; it is built from a listing of exactly the reportable paths, each once and shortest first: its shortest path is the first, `all_paths` the first five, `path_count` their number, `is_direct` and `path_length` from the shortest path, the name halves split at the first dot, and the category from the two ends |
| LineageAnalyzer.Analyzer.FileTarget | lineage_analyzer.py:211-246 | the record for one source and target, if any, is filed and counted, and it is the only record added |
| LineageAnalyzer.Analyzer.FileSource | lineage_analyzer.py:210-246 | one source against every ultimate target files every record, adds only records about that source and those targets, and keeps all joined pairs covered |
| LineageAnalyzer.Analyzer.GenerateEndToEnd | lineage_analyzer.py:172-267 | every record is the one built from the reportable paths between an ultimate source and an ultimate target, as PairLineage states; it is filed as direct exactly when the source has an edge to the target, and by category; the real-to-real and temp-involved lists hold the same records as the direct and indirect lists; no two records share a source and a target; each of the eight counters is stated: the four list counters are the lists' lengths, `total_lineages` is both their sums, `ultimate_sources` and `ultimate_targets` count the known columns without incoming and without outgoing edges, and `total_columns` counts all known columns; and every joined pair of an ultimate source and an ultimate target has a record |
| MergedLineageParser.MergedWidensIntermediate | merged_lineage_parser.py:106-121 | every column with a table that lineage_parser.py calls intermediate is intermediate here too: lower-casing keeps `#` and `work`, and a CTE name contains itself |
| MergedLineageParser.MergedIsWider | merged_lineage_parser.py:116-121 | the converse fails: a `STAGE_X` table is intermediate only here |
| MergedLineageParser.StageNotLegacy | lineage_parser.py:56-60 | lineage_parser.py's test lets a `STAGE_X` table through |
| MergedLineageParser.StageIntermediate | merged_lineage_parser.py:116-121 | this script's test catches a `STAGE_X` table by its lower-cased `stage` |
| MergedLineageParser.ParentlessNotIntermediate | merged_lineage_parser.py:108-113 | a column without a table is tested by its own raw name, so a plain `id` is not intermediate here although lineage_parser.py always calls it intermediate |
| MergedLineageParser.KeptEndsLegacyReal | merged_lineage_parser.py:150-155 | each end of a pair kept in `final_lineage` that names a table is one lineage_parser.py's test would let through |
| MergedLineageParser.StmtRelationsMembers | merged_lineage_parser.py:68-85 | a table pair is related exactly when it goes source to target, source to intermediate, or intermediate to target |
| MergedLineageParser.AnalyzeStatements | merged_lineage_parser.py:53-98 | the statement loop appends lineage tuples, relations and tables for every statement that parsed; each failing statement counts one error |
| MergedLineageParser.Parsed | merged_lineage_parser.py:63-98 | no more statements parse than were given |
| MergedLineageParser.ParsedSnoc | merged_lineage_parser.py:87-92 | a statement that parsed is appended to the parsed ones |
| MergedLineageParser.DestList | merged_lineage_parser.py:208-227 | a source table's destinations are exactly the targets of its relations, marked when intermediate |
| MergedLineageParser.SourceTableInfo | merged_lineage_parser.py:187-241 | a raw name is a key exactly when some non-intermediate source table has it, and its summary (columns, destinations, wording) is that of one such table; tables of different schemas that share a raw name overwrite each other |
| MergedLineageParser.SchemasKeptApart | merged_lineage_parser.py:201-205 | `staging.orders` and `dbo.orders` share a raw name but are different tables: a column of the first is not a source column of the second |
| MergedLineageParser.SummaryDirect | merged_lineage_parser.py:232-237 | a single plain destination gives "Direct flow to" it |
| MergedLineageParser.SummaryThrough | merged_lineage_parser.py:232-235 | a single marked destination gives "Flows through" the table behind it, the marker removed |
| MergedLineageParser.MarkedContains | merged_lineage_parser.py:217 | a marked destination contains the marker |
| MergedLineageParser.SummaryMultiple | merged_lineage_parser.py:238-239 | several destinations give the generic summary |
| MergedLineageParser.ReplaceSelf | merged_lineage_parser.py:235 | removing a text from itself leaves nothing |
| MergedLineageParser.ReplaceAfterPrefix | merged_lineage_parser.py:235 | removing the marker from a marked name leaves the name, when the name holds no `(` |
| MergedLineageParser.RelationType | merged_lineage_parser.py:281-287 | Staging exactly when the target is intermediate, Final exactly when only the source is, Direct exactly when neither is |
| MergedLineageParser.UniqueRelations | merged_lineage_parser.py:273-302 | the relationship rows are exactly the raw names of each related pair with its relationship type |
| BusinessLogicAnalyzer.TotalSnoc | business_logic_lineage_analyzer.py:136-199 | adding one evidence line adds its points to the score |
| BusinessLogicAnalyzer.TotalAppend | business_logic_lineage_analyzer.py:136-199 | the score of two runs of evidence is the sum of their scores |
| BusinessLogicAnalyzer.ColumnLinesAppend | business_logic_lineage_analyzer.py:159-174 | the column-level lines of two runs of evidence add up |
| BusinessLogicAnalyzer.NameParts | business_logic_lineage_analyzer.py:140-155 | the table and column parts hold no dot, and a name without a dot gives itself lower-cased with an empty column |
| BusinessLogicAnalyzer.QualifiedParts | business_logic_lineage_analyzer.py:140-152 | a `table.column` name splits into its two halves, lower-cased |
| BusinessLogicAnalyzer.SchemaQualifiedParts | business_logic_lineage_analyzer.py:140-152 | a `schema.table.column` name, the form all but one expected mapping take, yields the schema as the table and the table as the column |
| BusinessLogicAnalyzer.When | business_logic_lineage_analyzer.py:166-199 | a guarded line is present exactly when its test holds, and brings its points only then |
| BusinessLogicAnalyzer.ColumnEvidence | business_logic_lineage_analyzer.py:159-174 | the three column patterns form an `elif` chain: at most one column-level line, at most 3 points, none when either column part is empty |
| BusinessLogicAnalyzer.TableEvidence | business_logic_lineage_analyzer.py:176-183 | a table line is present exactly when the lower-cased text mentions that table |
| BusinessLogicAnalyzer.TableEvidenceCounts | business_logic_lineage_analyzer.py:176-183 | each table line earns one point, at most two, none column-level |
| BusinessLogicAnalyzer.PatternEvidence | business_logic_lineage_analyzer.py:185-199 | a fee, currency or GL line is present exactly when both its name test and its text search hold |
| BusinessLogicAnalyzer.PatternEvidenceCounts | business_logic_lineage_analyzer.py:185-199 | each pattern line earns two points, at most six, none column-level |
| BusinessLogicAnalyzer.StatusOf | business_logic_lineage_analyzer.py:201-207 | strong exactly from 4 points, moderate exactly from 2 to 3, weak exactly below 2 |
| BusinessLogicAnalyzer.CheckColumns | business_logic_lineage_analyzer.py:159-174 | the column checks append their evidence and add its points |
| BusinessLogicAnalyzer.CheckTables | business_logic_lineage_analyzer.py:176-183 | the table checks append their evidence and add its points |
| BusinessLogicAnalyzer.CheckPatterns | business_logic_lineage_analyzer.py:185-199 | the business-pattern checks append their evidence and add its points |
| BusinessLogicAnalyzer.Validate | business_logic_lineage_analyzer.py:135-217 | one round of the loop accumulates the score and evidence check by check and grades the mapping |
| BusinessLogicAnalyzer.EvidenceFromScore | business_logic_lineage_analyzer.py:157-199 | the evidence earns at most 3 + 2 + 6 points |
| BusinessLogicAnalyzer.EvidenceFromColumns | business_logic_lineage_analyzer.py:159-174 | the evidence holds at most one column-level line, none when a column part is empty |
| BusinessLogicAnalyzer.EvidenceFromTables | business_logic_lineage_analyzer.py:176-183 | the evidence holds a table line exactly when the text mentions that table |
| BusinessLogicAnalyzer.EvidenceFromPatterns | business_logic_lineage_analyzer.py:185-199 | the evidence holds a business-pattern line exactly when its two tests hold |
| BusinessLogicAnalyzer.ScoreRange | business_logic_lineage_analyzer.py:136-199 | a mapping's score is the points of its evidence, at most 11 |
| BusinessLogicAnalyzer.OneColumnSignal | business_logic_lineage_analyzer.py:166-174 | a graded mapping has at most one column-level evidence line |
| BusinessLogicAnalyzer.UndottedNoColumnSignal | business_logic_lineage_analyzer.py:143-160 | a name without a dot has no column part, so the column checks are skipped |
| BusinessLogicAnalyzer.EvidenceMeaning | business_logic_lineage_analyzer.py:176-199 | the table and business-pattern lines of a graded mapping, in terms of the mapping's names and the SQL text |
| BusinessLogicAnalyzer.WithStatus | business_logic_lineage_analyzer.py:245-265 | a bucket is no longer than the graded list |
| BusinessLogicAnalyzer.WithStatusSnoc | business_logic_lineage_analyzer.py:249-265 | one more graded mapping joins the bucket of its status |
| BusinessLogicAnalyzer.WithStatusMembers | business_logic_lineage_analyzer.py:260-265 | a bucket holds exactly the graded mappings with its status |
| BusinessLogicAnalyzer.BucketsPartition | business_logic_lineage_analyzer.py:260-282 | every graded mapping lands in exactly one bucket, so the three counts add up to the total |
| BusinessLogicAnalyzer.SortIntoBuckets | business_logic_lineage_analyzer.py:245-265 | the bucket loop gives the three buckets, whose sizes add up to the total |
| BusinessLogicAnalyzer.Validations | business_logic_lineage_analyzer.py:133-217 | one graded mapping per expected mapping |
| BusinessLogicAnalyzer.ValidationsGraded | business_logic_lineage_analyzer.py:201-217 | every graded mapping carries the status its score earns, and a score of at most 11 |
| BusinessLogicAnalyzer.ManualLineageAnalysis | business_logic_lineage_analyzer.py:101-282 | every expected mapping is graded; the strong, moderate and weak buckets are exactly the graded mappings of that status, in order, so each graded mapping lands in exactly one bucket; their scores are 4 to 11, 2 to 3 and below 2, and together they hold as many as the expected mappings |
| FinalComprehensiveParser.DmlStatements | final_comprehensive_parser.py:78-80 | the DML statements are a subsequence of the split statements, never longer |
| FinalComprehensiveParser.DmlStatementsMembers | final_comprehensive_parser.py:78-80 | a statement is kept exactly when it is one of the split statements, is not blank, and its upper-cased text holds INSERT, UPDATE, MERGE or WITH |
| FinalComprehensiveParser.PathMappings | final_comprehensive_parser.py:91-93 | a statement yields at most one technical mapping per lineage path |
| FinalComprehensiveParser.PathMappingsMembers | final_comprehensive_parser.py:91-93 | a mapping comes from this statement exactly when some path of two or more columns has it as first and last column |
| FinalComprehensiveParser.TechnicalMappingsMembers | final_comprehensive_parser.py:85-101 | a technical mapping is the first and last column of a path of some statement that did not raise, tagged with that statement's 1-based number |
| FinalComprehensiveParser.RelationshipsMembers | final_comprehensive_parser.py:95-101 | a table is related to another exactly when some statement that did not raise read the first and wrote the second |
| FinalComprehensiveParser.AddPathMappings | final_comprehensive_parser.py:91-93 | the inner loop appends exactly the mappings of this statement's paths |
| FinalComprehensiveParser.CollectTechnical | final_comprehensive_parser.py:82-101 | the statement loop yields exactly the technical mappings and table relationships of all statements that did not raise |
| FinalComprehensiveParser.Normalize | final_comprehensive_parser.py:116-121 | a normalised name holds no space |
| FinalComprehensiveParser.SplitFirstPrefix | final_comprehensive_parser.py:125-126 | the first dotted part of a name is a prefix of it |
| FinalComprehensiveParser.ExactMatchIsPartial | final_comprehensive_parser.py:123-126 | the whole-name test adds nothing: a technical mapping matches exactly when each end holds some dotted part of the expected end |
| FinalComprehensiveParser.FindTechnical | final_comprehensive_parser.py:119-129 | the loop reports a match exactly when some technical mapping matches the expected pair |
| FinalComprehensiveParser.TablePart | final_comprehensive_parser.py:135-136 | the table part of a name holds no dot |
| FinalComprehensiveParser.NoDottedPattern | final_comprehensive_parser.py:138-141 | removing a pattern that ends in a dot from a text without a dot leaves the text unchanged |
| FinalComprehensiveParser.PrefixRemovalIsIdentity | final_comprehensive_parser.py:135-141 | the removal of `ref.`, `staging.`, `core.` and `audit.` never changes the table part that is searched for |
| FinalComprehensiveParser.BusinessEvidence | final_comprehensive_parser.py:132-150 | the business evidence is at most six points |
| FinalComprehensiveParser.BusinessThresholds | final_comprehensive_parser.py:138-157 | two points are reached exactly by a pattern or by both tables, three exactly by a pattern with a table or by both patterns, and zero exactly with neither pattern nor table |
| FinalComprehensiveParser.Grade | final_comprehensive_parser.py:112-157 | technical match exactly when found; otherwise strong from three points, moderate at two, weak at one, not found at zero |
| FinalComprehensiveParser.RowConsistent | final_comprehensive_parser.py:159-164 | a row's validated flag is set exactly when the report shows its evidence type as technical, business logic or moderate |
| FinalComprehensiveParser.RowValidatedMeaning | final_comprehensive_parser.py:109-164 | a mapping is validated exactly when a technical mapping matched, the procedure shows a fee or currency pattern, or it references both tables |
| FinalComprehensiveParser.ValidateMapping | final_comprehensive_parser.py:109-164 | one pass of the validation loop builds the row the specification gives for that expected mapping |
| FinalComprehensiveParser.Rows | final_comprehensive_parser.py:108-164 | there is one validation result per expected mapping |
| FinalComprehensiveParser.ShownCount | final_comprehensive_parser.py:186-222 | the validated count never exceeds the number of results |
| FinalComprehensiveParser.FlaggedCount | final_comprehensive_parser.py:281 | the number of flagged rows never exceeds the number of results |
| FinalComprehensiveParser.EvidenceCount | final_comprehensive_parser.py:210-217 | the number of rows of one evidence type never exceeds the number of results |
| FinalComprehensiveParser.CountsNested | final_comprehensive_parser.py:210-217 | technical plus business-logic matches never exceed the validated count |
| FinalComprehensiveParser.ShownIsFlagged | final_comprehensive_parser.py:186-222 | when every flag agrees with its evidence type, the validated count equals the number of flagged rows |
| FinalComprehensiveParser.ValidatedRows | final_comprehensive_parser.py:281 | `validated_mappings` holds exactly as many rows as are flagged |
| FinalComprehensiveParser.Summarize | final_comprehensive_parser.py:186-222 | the counting loop yields the validated count and the technical and strong business-logic counts of the results |
| FinalComprehensiveParser.ComprehensiveReport | final_comprehensive_parser.py:78-284 | the report's technical mappings and its table relationships come from the DML statements, its rows validate every expected mapping, and the validated count equals the number of returned validated mappings, bounded by the expected mappings and at least the technical plus business-logic matches |
| AdvancedLineageTracer.NamedSnoc | advanced_lineage_tracer.py:80-92 | a name is among the lower-cased table names of a list exactly when it is among those of its front or is the last one lower-cased |
| AdvancedLineageTracer.FileSourcesFrame | advanced_lineage_tracer.py:80-85 | filing source tables touches neither the target category, the graph edges nor the columns seen |
| AdvancedLineageTracer.FileSourcesFiled | advanced_lineage_tracer.py:80-85 | a read table lands in `source` exactly when its name holds `staging.` or `ref.`, and otherwise in `intermediate` exactly when it holds `#`, `temp` or `work` |
| AdvancedLineageTracer.FileTargetsFrame | advanced_lineage_tracer.py:87-92 | filing target tables touches neither the source category, the graph edges nor the columns seen |
| AdvancedLineageTracer.FileTargetsFiled | advanced_lineage_tracer.py:87-92 | a written table lands in `target` exactly when its name holds `core.`, `audit.` or `ops.`, and otherwise in `intermediate` exactly when it holds `#`, `temp` or `work` |
| AdvancedLineageTracer.PathsGiveSnoc | advanced_lineage_tracer.py:95-103 | a list of paths gives an edge exactly when its front gives it or its last path does |
| AdvancedLineageTracer.AddPathsFrame | advanced_lineage_tracer.py:95-103 | adding lineage paths leaves the three table categories alone |
| AdvancedLineageTracer.AddPathsEdges | advanced_lineage_tracer.py:95-103 | adding paths only appends edges, and an edge is new exactly when a path of two or more non-empty columns gives it |
| AdvancedLineageTracer.DuplicateEdges | advanced_lineage_tracer.py:101 | the adjacency lists keep duplicates: the same path twice appends its edge twice |
| AdvancedLineageTracer.GraphEdges | advanced_lineage_tracer.py:73-103 | every edge of the graph comes from a usable lineage path of the statement whose number it carries, and every such path gives one |
| AdvancedLineageTracer.GraphTargets | advanced_lineage_tracer.py:87-90 | `target` holds exactly the written tables whose lower-cased name holds `core.`, `audit.` or `ops.` |
| AdvancedLineageTracer.GraphSources | advanced_lineage_tracer.py:80-83 | `source` holds exactly the read tables whose lower-cased name holds `staging.` or `ref.` |
| AdvancedLineageTracer.FileSourceTables | advanced_lineage_tracer.py:80-85 | the source-table loop files the tables as the specification function does |
| AdvancedLineageTracer.FileTargetTables | advanced_lineage_tracer.py:87-92 | the target-table loop files the tables as the specification function does |
| AdvancedLineageTracer.AddLineagePaths | advanced_lineage_tracer.py:95-103 | the column-lineage loop adds exactly the edges and columns of the specification function |
| AdvancedLineageTracer.BuildGraph | advanced_lineage_tracer.py:63-106 | the statement loop builds the graph of all statements that did not raise |
| AdvancedLineageTracer.DfsTrace | advanced_lineage_tracer.py:119-135 | the recursive search with its shared `visited` set and destination list computes exactly the depth-first search function: skip past the depth bound or when visited, report a final column with its path, otherwise descend through each recorded target in order |
| AdvancedLineageTracer.DfsSound | advanced_lineage_tracer.py:119-135 | a search call started on a walk from the start through non-final columns only adds to `visited` and to the destinations, and keeps every destination a route from the start, reported once |
| AdvancedLineageTracer.DfsEachSound | advanced_lineage_tracer.py:133-135 | the loop over the recorded targets of a non-final column keeps the same guarantees |
| AdvancedLineageTracer.ReportedAdd | advanced_lineage_tracer.py:127-128 | reporting a final column not yet visited, with a route to it, keeps the destinations sound and distinct |
| AdvancedLineageTracer.ReportedVisit | advanced_lineage_tracer.py:122 | marking one more column visited keeps the destinations sound |
| AdvancedLineageTracer.IsFinalColumn | advanced_lineage_tracer.py:125-130 | the loop over the target tables finds a column final exactly when its name holds some target table's name |
| AdvancedLineageTracer.DestinationsSound | advanced_lineage_tracer.py:112-138 | every destination of a fresh search is a route from the start within the bound, no name is reported twice, and a final start column is its own only destination |
| AdvancedLineageTracer.DestinationRoute | advanced_lineage_tracer.py:112-138 | each destination of a column is a route from it |
| AdvancedLineageTracer.FirstTargetReported | advanced_lineage_tracer.py:133-135 | a final column that is the first recorded target of a non-final start column is the first destination, with the two-column path |
| AdvancedLineageTracer.TraceColumnPath | advanced_lineage_tracer.py:112-138 | the destinations are exactly those of the depth-first search from the start with nothing visited; each is a final column reached from the start within the depth bound through non-final columns, none is reported twice, and a final start column is its own only destination |
| AdvancedLineageTracer.Matching | advanced_lineage_tracer.py:150-160 | the matching sources are exactly the columns seen that pass the corrected name test: they hold the last two dotted parts of the expected name (table and column) |
| AdvancedLineageTracer.MatchingEmpty | advanced_lineage_tracer.py:150-162 | no source is found exactly when no column seen passes the corrected name test |
| AdvancedLineageTracer.FirstMatchingDestination | advanced_lineage_tracer.py:169-187 | the loop stops at the first destination that passes the corrected name test for the expected target, and finds none exactly when no destination passes it |
| AdvancedLineageTracer.FirstMatch | advanced_lineage_tracer.py:169-187 | the index found passes the target test and none before it does; no index is found exactly when no destination passes |
| AdvancedLineageTracer.TracedCount | advanced_lineage_tracer.py:185 | at most one success per traced entry |
| AdvancedLineageTracer.TracedCountAppend | advanced_lineage_tracer.py:143-196 | the successes of two runs of entries add up |
| AdvancedLineageTracer.TracesForSnoc | advanced_lineage_tracer.py:165-187 | the entries for one more matching column extend those before by that column's entry |
| AdvancedLineageTracer.AllExpectedSnoc | advanced_lineage_tracer.py:146-196 | the records for one more expected mapping extend those before by that mapping's entries |
| AdvancedLineageTracer.TracesForMembers | advanced_lineage_tracer.py:165-187 | a traced entry is recorded exactly when it names a matching column, the first of its destinations that passes the target test, and that destination's path |
| AdvancedLineageTracer.TraceOfSound | advanced_lineage_tracer.py:165-187 | a matching column yields at most one entry, and that entry is a sound traced entry for the expected mapping |
| AdvancedLineageTracer.TracesForSound | advanced_lineage_tracer.py:165-187 | every entry for matching columns is a sound traced entry for the expected mapping |
| AdvancedLineageTracer.ExpectedRecordsSound | advanced_lineage_tracer.py:146-196 | the entries of one expected mapping are sound, and they are the single no-source entry exactly when no column matches |
| AdvancedLineageTracer.AllExpectedSound | advanced_lineage_tracer.py:143-196 | every entry of `traced_mappings` is sound |
| AdvancedLineageTracer.NoSourceRecorded | advanced_lineage_tracer.py:188-196 | an expected mapping that no column matches has its no-source entry in `traced_mappings` |
| AdvancedLineageTracer.AllNoSourceRecorded | advanced_lineage_tracer.py:143-196 | every expected mapping that no column matches has its no-source entry |
| AdvancedLineageTracer.TraceColumn | advanced_lineage_tracer.py:166-187 | tracing one matching column yields exactly its specified entry, at most one, sound and counted once |
| AdvancedLineageTracer.TraceMatching | advanced_lineage_tracer.py:165-187 | the loop over `matching_sources` yields exactly the specified entries for those columns and counts the traced ones |
| AdvancedLineageTracer.TraceExpected | advanced_lineage_tracer.py:146-196 | one expected mapping yields exactly its specified entries: one no-source entry when no column matches, otherwise, for each matching column in order, one traced entry with its first destination that passes the target test; all entries are sound and the success count is the number of traced entries |
| AdvancedLineageTracer.TraceAllExpected | advanced_lineage_tracer.py:143-196 | `traced_mappings` is the concatenation, in the order of the expected mappings, of each mapping's entries; every entry is sound, `successful_traces` counts the traced entries, and every expected source with no matching column is recorded as not found |
| AdvancedLineageTracer.SplitByStatus | advanced_lineage_tracer.py:208-220 | `successful_mappings` is exactly the traced entries and `failed_mappings` exactly the no-source ones, each in the order of `traced_mappings`; `successful_mappings` is as long as the success count |
| AdvancedLineageTracer.OfStatusMembers | advanced_lineage_tracer.py:211-220 | an entry is in a status list exactly when it is an entry of that status |
| AdvancedLineageTracer.OfStatusCounts | advanced_lineage_tracer.py:211-220 | each entry lands in exactly one of the two lists, and the traced list is as long as the success count |
| AdvancedLineageTracer.SourceColumns | advanced_lineage_tracer.py:240-241 | the source columns are exactly the columns seen that hold the name of a source table |
| AdvancedLineageTracer.FirstFifty | advanced_lineage_tracer.py:245 | at most fifty columns, all taken from the list |
| AdvancedLineageTracer.IsExpected | advanced_lineage_tracer.py:249-253 | the loop finds an entry exactly when a traced entry joins that source column to that destination |
| AdvancedLineageTracer.AdditionalForMembers | advanced_lineage_tracer.py:246-256 | a record for a source column is added exactly for a destination that no traced entry joins to it, with that destination's path length |
| AdvancedLineageTracer.AdditionalMembers | advanced_lineage_tracer.py:245-256 | a record is in `additional_mappings` exactly when it joins a listed source column to one of its destinations that no traced entry joins it to, with that destination's path length |
| AdvancedLineageTracer.AdditionalSound | advanced_lineage_tracer.py:245-256 | every additional record joins a listed column to a final column it reaches by a route of the recorded length, not already traced |
| AdvancedLineageTracer.AdditionalForColumn | advanced_lineage_tracer.py:246-256 | the destination loop for one source column adds exactly its specified records |
| AdvancedLineageTracer.AdditionalLoop | advanced_lineage_tracer.py:245-256 | the loop over the listed source columns builds exactly the specified list |
| AdvancedLineageTracer.AdditionalMappings | advanced_lineage_tracer.py:237-256 | `additional_mappings` is exactly, for each of the first fifty source columns in order, each destination that no traced entry joins to it, with its path length; every record is reached along a route of that length |
| AdvancedLineageTracer.TraceEndToEnd | advanced_lineage_tracer.py:63-256 | the graph is the one the statements give, `traced_mappings` and `additional_mappings` are exactly their specified lists, every traced entry is sound, every expected source with no matching column is recorded as not found, `successful_mappings` and `failed_mappings` are the traced and the no-source entries in order, and the success count is the number of successful entries |
| AdvancedLineageTracer.TwoPartsAgree | advanced_lineage_tracer.py:151-160 | for a two-part `table.column` name the script's test and the corrected test agree |
| AdvancedLineageTracer.TableColumnMatchHoldsColumn | advanced_lineage_tracer.py:158-160 | with the corrected test a matching column always holds the expected column name |
| AdvancedLineageTracer.LowerFixed | advanced_lineage_tracer.py:156-157 | a name with no upper-case letter is its own lower-cased form |
| AdvancedLineageTracer.PlainWord | advanced_lineage_tracer.py:156-157 | a lower-case word holds no dot and is its own lower-cased form |
| AdvancedLineageTracer.ThreeParts | advanced_lineage_tracer.py:151 | a three-part dotted name splits into its three parts |
| AdvancedLineageTracer.HoldsFirstTwo | advanced_lineage_tracer.py:159 | a dotted name holds its first two parts |
| AdvancedLineageTracer.SchemaTableOnly | advanced_lineage_tracer.py:151-160 | for a `schema.table.column` name the script compares schema and table only, so it accepts another column of the same table that does not hold the expected column name; the corrected test rejects it |
| AdvancedLineageTracer.NoSrcId | advanced_lineage_tracer.py:27 | `staging.transactions.amount` does not hold `srcid` |
| AdvancedLineageTracer.SrcIdMatchesAmount | advanced_lineage_tracer.py:27-32 | the expected source `staging.transactions.srcid` is matched by the column `staging.transactions.amount`, which the corrected test rejects |
| AdvancedLineageTracer.NoIdempotencyKey | advanced_lineage_tracer.py:27-29 | `core.ledgerfinal.accountid` does not hold `idempotencykey` |
| AdvancedLineageTracer.AccountIdMeetsIdempotencyKey | advanced_lineage_tracer.py:171-176 | the expected target `core.ledgerfinal.idempotencykey` is met by the destination `core.ledgerfinal.accountid` under the script's test, which the corrected test rejects |
| ComprehensiveLineageParser.TextsWhere | comprehensive_lineage_parser.py:47-54 | the kept statement texts are never more than the pieces |
| ComprehensiveLineageParser.TextsWhereMembers | comprehensive_lineage_parser.py:47-54 | a text is kept exactly when some piece that passes the test has it |
| ComprehensiveLineageParser.DmlStatements | comprehensive_lineage_parser.py:44-54 | the DML statements are never more than the split statements |
| ComprehensiveLineageParser.DmlStatementsMembers | comprehensive_lineage_parser.py:47-54 | a text is a DML statement exactly when its piece is not blank and is typed INSERT, UPDATE or MERGE or opens with WITH |
| ComprehensiveLineageParser.SelectDml | comprehensive_lineage_parser.py:44-54 | the splitting loop keeps exactly the DML statements, in order |
| ComprehensiveLineageParser.FullPath | comprehensive_lineage_parser.py:112 | the full path is never longer than the lineage path |
| ComprehensiveLineageParser.FullPathMembers | comprehensive_lineage_parser.py:112 | the full path keeps exactly the columns that are present |
| ComprehensiveLineageParser.FullPathHead | comprehensive_lineage_parser.py:110-112 | a present first column opens the full path |
| ComprehensiveLineageParser.EndName | comprehensive_lineage_parser.py:110-111 | a missing end is named `unknown` |
| ComprehensiveLineageParser.MappingEnds | comprehensive_lineage_parser.py:106-113 | a present end of a path is the matching end of the full path, and a missing one is recorded as `unknown` |
| ComprehensiveLineageParser.PathMappingsMembers | comprehensive_lineage_parser.py:106-113 | a statement stores a mapping exactly when one of its paths of two or more columns gives it, tagged with the statement's number |
| ComprehensiveLineageParser.ColumnMappingsMembers | comprehensive_lineage_parser.py:68-113 | a column mapping comes from a path of two or more columns of the analysed statement whose number it carries, and every such path gives one |
| ComprehensiveLineageParser.Stages | comprehensive_lineage_parser.py:80-88 | at most one stage per statement |
| ComprehensiveLineageParser.StagesMembers | comprehensive_lineage_parser.py:80-88 | a stage is exactly the report of an analysed statement, carrying its number, its tables and its count of column-lineage paths |
| ComprehensiveLineageParser.CleanNames | comprehensive_lineage_parser.py:99-102 | the kept names are names of the list holding none of the markers |
| ComprehensiveLineageParser.CleanNamesMembers | comprehensive_lineage_parser.py:99-102 | a name is kept exactly when it is in the list and its lower-cased form holds none of the markers |
| ComprehensiveLineageParser.LinksMembers | comprehensive_lineage_parser.py:90-103 | a statement links two tables exactly when it read the first and wrote the second, both passing the filters when filtered |
| ComprehensiveLineageParser.LinkedMembers | comprehensive_lineage_parser.py:90-103 | a table is linked to another exactly when some analysed statement links them |
| ComprehensiveLineageParser.SourceToTargetWithin | comprehensive_lineage_parser.py:95-103 | every source-to-target pair is a table relationship, its source holds none of `#`, `temp`, `work`, `stage` and its target none of `#`, `temp`, `work` |
| ComprehensiveLineageParser.CountersAgree | comprehensive_lineage_parser.py:115-120 | every statement is counted once as a success or an error; each error leaves one detail line and each success one stage |
| ComprehensiveLineageParser.AddColumnMappings | comprehensive_lineage_parser.py:106-113 | the inner loop appends exactly the mappings of this statement's paths |
| ComprehensiveLineageParser.RanStep | comprehensive_lineage_parser.py:74-115 | an analysed statement appends its mappings and stage, adds its links to both maps and counts one success |
| ComprehensiveLineageParser.RaisedStep | comprehensive_lineage_parser.py:117-120 | a statement that raised leaves the lineage data unchanged, counts one error and appends its detail line |
| ComprehensiveLineageParser.ProcessStatement | comprehensive_lineage_parser.py:69-120 | one round of the statement loop extends the accumulators to cover one more statement |
| ComprehensiveLineageParser.ProcessStatements | comprehensive_lineage_parser.py:59-120 | the statement loop yields the lineage data and counters of all outcomes, with successes plus errors equal to the number of statements |
| ComprehensiveLineageParser.TableOf | comprehensive_lineage_parser.py:178-179 | the table of a name holds no dot, and a name without a dot is its own table |
| ComprehensiveLineageParser.Qualifying | comprehensive_lineage_parser.py:177-185 | the mappings counted for a table are mappings whose source table is that table and holds none of the non-external markers |
| ComprehensiveLineageParser.SummarySnoc | comprehensive_lineage_parser.py:183-185 | one more mapping adds its target table, one to the column count and its statement |
| ComprehensiveLineageParser.ExternalSourcesMeaning | comprehensive_lineage_parser.py:175-185 | a table is an external source exactly when some mapping qualifies for it; its entry counts those mappings, their target tables and their statements; it holds no dot and none of the markers |
| ComprehensiveLineageParser.CollectExternalSources | comprehensive_lineage_parser.py:175-185 | the loop builds exactly the external-source map |
| ComprehensiveLineageParser.ComplexityPartition | comprehensive_lineage_parser.py:215-220 | every mapping is counted once, as direct or as multi-hop |
| ComprehensiveLineageParser.CountComplexity | comprehensive_lineage_parser.py:208-220 | the loop counts the mappings with at most two columns as direct and the rest as multi-hop, and the two add up to all mappings |
| ComprehensiveLineageParser.AnalyzeStoredProcedureLineage | comprehensive_lineage_parser.py:44-243 | the lineage data and counters are those of the DML statements' outcomes, every DML statement is counted once, and the external sources and complexity counts are computed from the column mappings |

## Left out

- The sqllineage `LineageRunner` and the `sqlparse` statement typing are foreign libraries. Their results are inputs: edge lists, table lists, `Parsed` statement records, and runner outcomes in which `None` stands for a raised exception. The substitution of `@`-variables before a statement is run is folded into the runner.
- Regular-expression scans over the SQL text are inputs or boolean parameters. These include the table-reference extraction, the final-table patterns, CTE and temp-table discovery, and the business-evidence keyword searches.
- File and JSON I/O, argparse, and the `dotnet` subprocess that runs the C# extractor are left out. The extractor's printed output is an input string.
- `print` output and report text are left out: headings, title-casing, truncation, emoji, and the wording of the evidence details. Where a script prints a path joined by arrows, the model keeps the list of columns.
- Floating-point metrics are left out: `complexity_score`, the evidence `confidence`, `success_rate`, `validation_rate` and `avg_steps`. The integer counts they are computed from are modelled.
- OpenLineage run ids (`uuid`), `eventTime` timestamps, and the constant producer and schema URLs are left out. The event sequence, its event types and datasets, and the column facet are modelled.
- The WITH-prefixing of statements before they reach sqllineage (lineage_parser.py:32-45, merged_lineage_parser.py:50-58) only shapes the runner's input, so it is folded into the runner.
- merged_lineage_parser.py:33-42 filters DML statements with the same test as comprehensive_lineage_parser.py:43-54. It is modelled once, as `ComprehensiveLineageParser.SelectDml`.
- The evidence buckets in business_logic_lineage_analyzer.py test substrings of the printed status label. The model tests the status value; the labels are distinct, so the two agree.
- hybrid_sql_lineage_parser.py:345-389 builds `all_flows`, `column_to_table` and `find_all_paths_to_finals`, which nothing calls. They are not modelled.
- end_to_end_lineage_tracer.py:453 calls `find_all_end_to_end_lineages`, which is not defined, so the run stops there with an `AttributeError`. The search that name stands for is written at lines 236-269, inside `display_sample_paths`, which runs it only when the sample list is not empty (it returns early otherwise) and drops its result. The model gives that search its own name, `EndToEndTracer.Tracer.FindAllEndToEndLineages`; the crash and the dropped result are not modelled.
- Case mapping covers ASCII letters only, and `strip` removes ASCII whitespace only. Python's `lower`, `upper` and `strip` also act on other Unicode characters.
- GenericSqlParser.IsWordChar, and with it GenericSqlParser.FindWordFirst and GenericSqlParser.NextKeywordFound, treats only ASCII letters, digits and `_` as word characters. For a `str` pattern, Python's `\w` and `\b` also count every other Unicode letter and digit. On `éBEGIN` the source finds no `\bBEGIN\b`, while the model reports a match at offset 1.
- Common.SortBy: inserts each element after the equal keys already placed, as Python's stable `sorted` does. Its contract states only that the result is ordered and is a permutation; stability is not stated.
- LineageAnalyzer.MetaLineage: a missing field reads as the empty string. This matches the `.get` calls that filter the `temp_involved` entries (lineage_analyzer.py:58-62). For a `real_to_real` entry, lineage_analyzer.py:69-70 index the fields directly, so a missing field raises `KeyError` and the script stops; the model does not raise it and builds the edge from the empty string.
- LineageAnalyzer.Analyzer.FindPaths: paths of equal length come out in the order Python happens to iterate a column's successor set, which the model leaves open. The contract fixes which paths are found, that each is found once, and that shorter paths come first. A record's `all_paths` is therefore pinned only up to the order among paths of equal length, and `paths[:5]` may keep a different subset of the longest paths it reaches.
- EnhancedLineageParser.SimplePaths: the script also skips a successor that is already on the path before it recurses. The model leaves that test to the recursive call, which returns nothing for a visited start, so the paths are the same.
- lineage_parser2.py, example_usage.py and debug_lineage.py are not part of this model. They only read attributes of sqllineage objects or drive and print the other scripts. The files whose names end in " copy.py" are older copies and are not part of this model.

## Findings

| source | as written | input that shows it | evidently intended | confidence | as-written member | corrected member |
|---|---|---|---|---|---|---|
| generic_sql_lineage_parser.py:69 | the cut is `start_pos + end_match.start()`, but the offset is relative to `content[pos:]`, not to the header's end | `P BEGIN BEGIN END END`, header ending at offset 7: the cut is at offset 8, where no END is spelled, instead of 18 | cut at the closing END: the offset of the round where END was found plus `end_match.start()` | not executed | GenericSqlParser.MisplacedCut | GenericSqlParser.FixedCutAtEnd |
| advanced_lineage_tracer.py:151-160 | for an expected `schema.table.column` name, parts 0 and 1 (schema and table) are compared, so the column name is never checked | `staging.transactions.srcid` matches the column `staging.transactions.amount` | compare the table and column parts (the last two dotted parts) | not executed | AdvancedLineageTracer.SrcIdMatchesAmount | AdvancedLineageTracer.TableColumnMatchHoldsColumn |
| advanced_lineage_tracer.py:171-176 | the same parts 0 and 1 are compared for the expected target against each destination, so the destination loop stops at any column of the target table | `core.ledgerfinal.idempotencykey` is met by the destination `core.ledgerfinal.accountid` | compare the table and column parts of the expected target | not executed | AdvancedLineageTracer.AccountIdMeetsIdempotencyKey | AdvancedLineageTracer.FirstMatchingDestination |
