# Assembly and materialization, verified

The engine builds Python modules out of templates. A template is a parsed module with markers in it: holes where
statements, expressions, parameters or `elif` clauses go, demands for names and for literals, and supplies. An assembly
is a growing graph of occurrences of templates, with edges that put the module of one occurrence into a hole of another.
Materializing an occurrence builds the modules of its sources, splices them into a copy of its template along printed
paths, and lowers the markers that are left.

This project models that pipeline in Dafny and proves what it is for:

- **Splicing is substitution.** Groups of edges are spliced one after another, in place, along paths that were printed
  for the original tree. The order in which they are sorted makes this the same as replacing every target at once
  (`Splice`, `EdgeOrder`, `EdgeApplication`, `EdgeTargets`, `SpliceTheorem`, `SpliceOutcomes`), and every statement of
  every payload is found where its position among the edges puts it (`Payloads`).
- **Paths survive exactly when nothing before them changed length** (`Survivors`), and then every expression edge lands
  on its own expression (`ExpressionEdges`).
- **The memoised search is the plain recursion**, and its cycle error means a cycle (`Materializer`,
  `MaterializerTheorems`). No materialized module has a marker left (`FinishedModules`). After a run of batch requests the graph errors cannot occur at all (`Runs`, `EdgeErrors`,
  `RunMaterialization`).
- **Printed locators lead back.** What the extraction visits is what the materializer finds (`AstPaths`, `Navigation`,
  `Extraction`, `DocumentOrder`, `LocatorRoundTrip`), and so for expressions (`ExpressionVisits`).
- **An assembly state is its indexes.** In every reachable state the six indexes hold what a scan of the records gives,
  a candidate query is a scan, a batch is a fold, and no record is lost (`AssemblyIndexes`, `AssemblyState`,
  `Candidates`, `Batch`, `LiveRecords`). The path matcher decides the declarative meaning of a selector
  (`PathMatcher`).
- **External substitution preserves meaning**, for an evaluator with closures and sequential comprehension scopes
  (`ExternalSubst`, `ExternalMeaning`, `ExternalTheorem`), and puts the literal at each place it should (`Places`,
  `ExternalPlaces`).
- **Renaming and lowering**: fresh names, import collisions, `elif` chains, the markers a lowered suite no longer has
  (`Renaming`, `RenamingPlaces`, `PyImports`, `ElifChain`, `Lowering`).
- **Codecs and tables**: scopes and their two lookups (`Scopes`, `ScopeTree`, `ScopeLookup`), parameter splices
  (`Parameters`), reference paths (`RefPaths`), interned packages (`Interning`) and the templates rebuilt from them
  (`RebuiltTemplates`).

The modules are named after the parts of the engine they model. `Ast`, `Templates`, `Assembly` and `Wrappers` hold the
data model, `Sets` a fact about sizes. A statement is a head with up to four suites and a list of branches (handlers
or cases), which covers every statement of the original that has suites. An address is the list of steps from the root
to a statement; a path is the text it prints to. Objects that the original updates are classes (`NativeAssemblyState`,
`Search`, `Matcher`, `InsertCall`, `PackageBuilder`); the loops and in-place traversals are methods, each proved equal
to a function, about which the lemmas then speak.

## What the code does not promise

Some properties one would expect are false of the code. Each is stated with the exact condition under which it holds.

- Expression, parameter and call-argument groups run after all statement splices, with the paths of the original tree.
  Such a path still names its statement if and only if every splice in an enclosing suite in front of it inserted, in
  total, as many statements as it removed, and no `elif` marker above got more than one branch
  (`Survivors.OldPathRightIff`); a hole with two statements in front of a statement is a counterexample
  (`Survivors.OldPathCanBeWrong`). Under that condition every expression edge lands (`ExpressionEdges.ExpressionEdgesLand`).
- A second external substitution can still replace something: the first pass over `astichi_ref(x, external=x)`
  turns the keyword into an argument and leaves `x`, which the second pass replaces
  (`ExternalSubst.SecondPassCanReplace`). It replaces nothing if and only if no such call is left in an unshadowed place
  (`ExternalSubst.SecondPass`).
- The body of a fallback `with` joins its suite after import collisions were resolved, so a name it binds can collide
  with an import (`Lowering.FallbackCanCollide`). In a lowered suite the import names are bound by nothing but the imports
  if and only if no fallback body, lowered as it joins, binds one (`Lowering.LoweredImportsApartIff`).
- A batch is read as a whole before its first request is applied. Splitting a batch in two therefore gives the same
  outcome if and only if the second half can be read, or the first cannot, or the first does nothing
  (`Batch.BatchSplitIff`; `Batch.SplitCanDiffer` is a counterexample).
- A parameter hole among the keyword-only parameters drops the positional parameters of its payload
  (`Parameters.KeywordHoleDropsPositional`).
- Empty resource names and kinds are not indexed. A query that succeeds answers like a full scan if and only if every
  record that its index leaves out is refused (`Candidates.FullScanIff`), which holds in every state unless it looks up
  the empty name, or the empty kind (`Candidates.QueryIsFullScan`); for each plain query that does there is a state in
  which it misses a record (`Candidates.EmptyIsMissed`).
- The template key and source summary of a package are read from fixed positions of its string table, where interning
  puts them if and only if the three header strings differ (`Interning.HeaderRightIff`); as keys and summaries are made,
  only the signature of the surface bundle could equal one of them (`Interning.HeaderSpoiledIff`).
- Scopes inside `match`, `async for`, `async with` and `try*` are not recorded (`ScopeLookup.MatchScopesMissed`). A scope
  is recorded if and only if no such statement lies above it (`ScopeLookup.RecordedIff`), and the lookup finds the
  innermost function or class around a statement if and only if that one is recorded (`ScopeLookup.LookUpRightIff`).

## Model

| member | source | states |
|---|---|---|
| AstPaths.ParsePrint | native_engine/src/materialize_ir.rs:1410-1436 | parsing a printed path gives back its segments, and its parts at the slashes are the printed segments |
| Navigation.CloneIsStmtAt | native_engine/src/materialize_ir.rs:1197-1238 | walking the suites along parsed segments finds the statement at the address the segments spell, and fails when they spell none or no statement is there |
| Navigation.NestedIsFirstStep | native_engine/src/materialize_ir.rs:1263-1318 | the suite that the next segment enters, handlers and cases included, is the slot of the first step the path spells, and in every other case the walk cannot go on |
| Navigation.PrintedAddressFound | native_engine/src/materialize_ir.rs:1197-1200 | the printed path of an address leads to the statement at that address, and fails if and only if there is none |
| Navigation.PrintAddressInjective | native_engine/src/template_extract.rs:873-890 | two addresses with one printed path are one address |
| Navigation.LocatorsLeadBack | native_engine/src/materialize_ir.rs:1118-1142 | from the locator of a marker expression, of a statement, or of an `elif` test, the materializer recovers the path of the statement |
| Extraction.ExtractRecords | native_engine/src/template_extract.rs:177-191 | the traversal that prints paths as it goes records the markers of the visited statements, in order, or fails where the first malformed marker is |
| Extraction.StmtRecords | native_engine/src/template_extract.rs:892-1536 | given the printed path of a statement, the records pushed are those of its visits, after the ones already there |
| Extraction.NestedRecords | native_engine/src/template_extract.rs:892-1536 | the suites of a statement are visited under the paths of their addresses |
| Extraction.SuiteRecords | native_engine/src/template_extract.rs:873-890 | each statement of a suite is visited under its own index |
| Extraction.BranchRecords | native_engine/src/template_extract.rs:1538-1569 | the bodies of handlers and cases are visited under the paths of their addresses |
| Extraction.MarkersOfStatement | native_engine/src/template_extract.rs:892-1536 | hole statements, fallback `with` statements, `elif` tests and `elif` productions are recorded as what they are, under the path of the marker, with its name |
| Extraction.OtherStatements | native_engine/src/template_extract.rs:892-1536 | recording fails if and only if the marker has no name or the `with` is no fallback, and no other statement is recorded |
| LocatorRoundTrip.VisitedStatementsAreFound | native_engine/src/template_extract.rs:873-1569 | the materializer, given the path printed for a visited statement, finds that same statement |
| LocatorRoundTrip.VisitedPathsDiffer | native_engine/src/template_extract.rs:873-1569 | two visits never print the same path |
| LocatorRoundTrip.VisitsInOrder | native_engine/src/template_extract.rs:873-1569 | statements are visited in document order |
| LocatorRoundTrip.RecordsExact | native_engine/src/template_extract.rs:873-1569 | the records are the markers of the visited statements, each once, in the order of the visits, and no visited marker is missed |
| LocatorRoundTrip.RecordsFailIff | native_engine/src/template_extract.rs:873-1569 | the extraction fails if and only if it comes to a malformed marker |
| ExpressionVisits.VisitedExpressionsAreRead | native_engine/src/template_extract.rs:1571-2053 | the path printed for an expression of a visited statement leads the materializer to that expression, and is refused if and only if it goes through a field that the materializer does not enter |
| LocatorRoundTrip.ReachableStatementsAreVisited | native_engine/src/template_extract.rs:892-1536 | the extraction visits a statement if and only if no statement above it is one whose suites it does not enter |
| LocatorRoundTrip.ExtractedTargetsAreValid | native_engine/src/template_extract.rs:873-1569 | every extracted statement hole names a statement of the module, an `elif` hole names an `if`, no two records name the same one, and they come in document order |
| EdgeApplication.ReplaceIsReplaceAt | native_engine/src/materialize_ir.rs:5558-5628 | replacing along a parsed path replaces the statement at the address the path spells, and fails when there is none |
| Splice.ApplyOneRefines | native_engine/src/materialize_ir.rs:5549-5628 | one splice into a tree in which other targets were already replaced adds its target to the simultaneous substitution, as long as none of the others moved it |
| EdgeOrder.KeyLessStrict | native_engine/src/materialize_ir.rs:840-849 | the order on path keys (depth, then fields and indexes) is a strict total order |
| EdgeOrder.ShiftingTargetIsLater | native_engine/src/materialize_ir.rs:818-838 | a target that would move another one has the smaller key, so the descending order splices it later |
| EdgeApplication.BuildChain | native_engine/src/materialize_ir.rs:920-939 | folding the clauses from the last to the first nests them in edge order around the original else part, or fails with the last malformed payload |
| EdgeApplication.ApplyMaterializedEdges | native_engine/src/materialize_ir.rs:766-798 | grouping, sorting and applying in a loop is the fold that the theorems are about, failures included |
| SpliceTheorem.GroupsPartition | native_engine/src/materialize_ir.rs:772-779 | the groups are unique by target and operation and each holds exactly its edges, in their order |
| SpliceTheorem.SortGroupsSorted | native_engine/src/materialize_ir.rs:780-788 | sorting keeps the groups and puts them in the order of `compare_edge_groups` |
| SpliceTheorem.EarlierGroupsDoNotShift | native_engine/src/materialize_ir.rs:818-838 | when the turn of a group comes, no group before it has moved its target |
| SpliceTheorem.RunRefinesSubstitution | native_engine/src/materialize_ir.rs:789-797 | applying sorted statement groups one after another succeeds and equals one simultaneous substitution over the original tree |
| SpliceTheorem.EdgesRefineSubstitution | native_engine/src/materialize_ir.rs:766-849 | applying all edges is the simultaneous substitution of the statement edges, each target replaced by its payloads in edge order and everything else kept, followed by the other groups on that tree; each payload statement and each branch stands at the place that the edges before it leave |
| EdgeTargets.AllPayloadsPlaced | native_engine/src/materialize_ir.rs:874-939 | read off the edges: at a block target stand the bodies of its edges one after another in edge order and nothing else, at an `elif` target one branch for each edge in edge order |
| Payloads.PayloadFound | native_engine/src/materialize_ir.rs:874-881 | statement j of the payload of edge k is found in the result, counted from where its target moved, behind all statements of the edges before it to that target |
| Payloads.BlockFound | native_engine/src/materialize_ir.rs:5606-5628 | the statements of a block stand in order from where the replaced statement moved, if the suite itself survives |
| Payloads.BehindBlock | native_engine/src/materialize_ir.rs:5606-5628 | what stood behind a replaced statement follows the last statement of its block |
| Payloads.SuiteGrowth | native_engine/src/materialize_ir.rs:5606-5628 | a suite grows by the statements of each block less the one it replaces, and by nothing for an expanded marker |
| SpliceOutcomes.StatementEdgesOutcome | native_engine/src/materialize_ir.rs:851-939 | with statement edges only, it succeeds if and only if every `elif` payload is well formed, and then is that substitution |
| SpliceOutcomes.MalformedPayloadFails | native_engine/src/materialize_ir.rs:1154-1182 | one malformed `elif` payload makes the whole application fail |
| SpliceOutcomes.ExtractedTemplatesAreSpliceable | native_engine/src/materialize_ir.rs:851-881 | an extracted template meets the conditions of the splice theorem for all edges whose operations fit its records |
| Survivors.SurvivorFound | native_engine/src/materialize_ir.rs:5606-5628 | a statement that no splice removed is found in the substituted tree at its moved address, with the substitution applied inside it |
| Survivors.MovedInjective | native_engine/src/materialize_ir.rs:5606-5628 | two surviving statements never move to one address |
| Survivors.OldPathRightIff | native_engine/src/materialize_ir.rs:832-837 | the original path of a statement is still its path if and only if, along it, the splices in front removed as many statements as they inserted and no `elif` marker above got more than one branch |
| Survivors.OneForOneKeepsPaths | native_engine/src/materialize_ir.rs:832-837 | if every splice inserts exactly one statement, every original path stays right |
| Survivors.UnmovedSurvivorFound | native_engine/src/materialize_ir.rs:832-837 | under that condition a later group finds its own statement at the original path |
| Survivors.OldPathCanBeWrong | native_engine/src/materialize_ir.rs:832-837 | a hole with two statements in front of a statement: the original path then names the second inserted one |
| ExpressionEdges.ReplacedIsRead | native_engine/src/materialize_ir.rs:1719-1870 | replacing an expression along a path works exactly where reading one works, and the replacement is then read there |
| ExpressionEdges.OthersKept | native_engine/src/materialize_ir.rs:1719-1870 | what is read along any path that parts from it stays what it was |
| ExpressionEdges.ReadAtAddress | native_engine/src/materialize_ir.rs:1563-1665 | a path of a statement and a path in it read the expression of the statement at that address |
| ExpressionEdges.UnmovedExpressionRead | native_engine/src/materialize_ir.rs:832-837 | after splices that left its statement where it was, in particular after one-for-one splices, an expression is read at its original path |
| ExpressionEdges.AllLand | native_engine/src/materialize_ir.rs:863-873 | expression groups at paths that part from each other, applied one after another, all land, and nothing apart from them changes |
| ExpressionEdges.ExpressionEdgesLand | native_engine/src/materialize_ir.rs:766-873 | statement and expression edges together: if the splices left the statements of the expressions in place, every expression edge replaces the expression at its own path and every other expression is that of the simultaneous substitution |
| ElifChain.ClausesInEdgeOrder | native_engine/src/materialize_ir.rs:920-939 | the clauses of a group are those of its edges, one each, in edge order |
| ElifChain.ClauseIsBranch | native_engine/src/materialize_ir.rs:1154-1182 | an edge gives a branch if and only if the production function has one `if` without `else` and otherwise only markers; the branch has the test and the body of that `if` |
| ElifChain.LocatorIsUnique | native_engine/src/occurrence_store.rs:116-135 | a surface has a locator if and only if exactly one record is on it, and then it is that record's |
| ElifChain.ChainDecided | native_engine/src/materialize_ir.rs:920-939 | trying the clauses in order ends at the first true or aborting test, or after the last |
| ElifChain.ChainMeaning | native_engine/src/materialize_ir.rs:920-939 | the chain runs the body of the clause that decides, in the state its tests left, and otherwise the else part |
| ElifChain.ExpandedMarkerMeaning | native_engine/src/materialize_ir.rs:851-939 | the expanded marker runs the first true clause and otherwise the marker's own else part with the deeper splices in it; if no test has an effect and none holds, it runs as the marker would |
| Materializer.EdgesIntoMembers | native_engine/src/materialize_ir.rs:723-727 | the edges gathered for an occurrence are exactly the edges into it, once each |
| Materializer.EdgesIntoOrdered | native_engine/src/materialize_ir.rs:728-730 | they are in ascending order of (order, edge index) |
| Materializer.Search.Materialize | native_engine/src/materialize_ir.rs:693-759 | the search with its cache and its set of visited occurrences returns what the recursion without a cache returns, ends, and on success leaves the visited set as it was and every cached module right |
| Materializer.BuildShrinks | native_engine/src/materialize_ir.rs:704-708 | a module built while some occurrences were being visited is the one built while fewer are |
| Materializer.BuildGrows | native_engine/src/materialize_ir.rs:693-759 | a cached module stays right below an occurrence that is not itself among the finished ones |
| Materializer.LeaveOccurrence | native_engine/src/materialize_ir.rs:751-758 | storing a built module and leaving the occurrence keeps every cached module right |
| MaterializerTheorems.CycleErrors | native_engine/src/materialize_ir.rs:704-708 | in any state, a reachable cycle makes materializing fail, and the cycle error is only reported when one is reachable |
| MaterializerTheorems.CycleErrorIff | native_engine/src/materialize_ir.rs:693-759 | when the occurrences are live and the other steps succeed on the modules that the search builds, the cycle error is reported if and only if a cycle is reachable from the root, and otherwise it succeeds |
| MaterializerTheorems.BuildUnfolds | native_engine/src/materialize_ir.rs:731-758 | a materialized occurrence is its template assembled with what its sources materialize to on their own, whatever was being visited; each input has the target and the operation of its edge and the records of its source's template |
| MaterializerTheorems.MaterializedModule | native_engine/src/materialize_ir.rs:693-849 | it is its template with the modules of its sources substituted for its holes at once, then the other groups, then the overlays and the lowering |
| FinishedModules.MaterializedIsClean | native_engine/src/materialize_ir.rs:744-758 | when lowering follows the overlays, a materialized module and every source in it has no statement marker left at any depth |
| EdgeErrors.EdgesError | native_engine/src/materialize_ir.rs:851-957 | when every group fits its records, applying the edges reports no error but a malformed path or payload, or one of the other steps |
| PathMatcher.MatchDecides | native_engine/src/occurrence_store.rs:2528-2592 | the matcher answers true if and only if the path splits into consecutive pieces that match the parts; it fails if and only if a malformed part is reached, and then with one error |
| PathMatcher.WellFormedNeverFails | native_engine/src/occurrence_store.rs:2528-2592 | with well-formed parts it never fails and decides the split |
| PathMatcher.MatchesPath | native_engine/src/occurrence_store.rs:2528-2531 | the memoised matcher gives that answer with at most (m+1)(n+1) evaluations |
| PathMatcher.Matcher.MatchesAt | native_engine/src/occurrence_store.rs:2533-2592 | a cell gets its right answer, from the memo when it was evaluated before, and no cell is evaluated twice |
| PathMatcher.Matcher.WorkOut | native_engine/src/occurrence_store.rs:2544-2588 | working a cell out from later cells gives its right answer and leaves no cell half evaluated |
| AssemblyIndexes.RowsAreRecords | native_engine/src/occurrence_store.rs:213-238 | the rows are exactly the records of the occurrences, in ascending key order |
| AssemblyIndexes.KeysWithMembers | native_engine/src/occurrence_store.rs:352-389 | an index entry holds a key if and only if its record has the attribute |
| AssemblyIndexes.KeysWithAscending | native_engine/src/occurrence_store.rs:352-389 | an index entry is in ascending order, without repetition |
| AssemblyIndexes.AgreesPush | native_engine/src/occurrence_store.rs:352-389 | pushing the key of a new row keeps an index in agreement with the rows |
| AssemblyState.NativeAssemblyState.IndexesExact | native_engine/src/occurrence_store.rs:352-389 | in every valid state each entry of each of the six indexes is exactly the records with the attribute, ascending, once each |
| AssemblyState.NativeAssemblyState.constructor | native_engine/src/occurrence_store.rs:172-181 | a new state is empty and its indexes agree |
| AssemblyState.NativeAssemblyState.AppendToIndexes | native_engine/src/occurrence_store.rs:352-389 | all six indexes agree with the rows and the new row |
| AssemblyState.NativeAssemblyState.AppendOccurrence | native_engine/src/occurrence_store.rs:213-238 | the occurrence is added last, nothing else changes, and the indexes agree again |
| AssemblyState.NativeAssemblyState.AppendEdge | native_engine/src/occurrence_store.rs:240-255 | the edge is added last and its index returned |
| AssemblyState.NativeAssemblyState.AppendOverlay | native_engine/src/occurrence_store.rs:257-270 | the overlay is added last and its index returned |
| AssemblyState.NativeAssemblyState.MarkSatisfied | native_engine/src/occurrence_store.rs:760-784 | the record joins the satisfied ones and none leaves |
| LiveRecords.CountLiveKeys | native_engine/src/occurrence_store.rs:2328-2338 | counting fails if and only if a key has no occurrence, and otherwise counts the live ones |
| LiveRecords.LiveRecordCount | native_engine/src/occurrence_store.rs:2328-2349 | the count over the build-path index, whatever order its entries come in, is the number of live rows |
| LiveRecords.NothingLost | native_engine/src/occurrence_store.rs:2328-2349 | live and satisfied records together are all records |
| Candidates.RawTargetRecordKeys | native_engine/src/occurrence_store.rs:1508-1535 | whichever index is read, the raw keys are those of the rows with the asked name and kinds |
| Candidates.Accept | native_engine/src/occurrence_store.rs:1536-1566 | the filters in sequence decide as the filter that the lemmas describe |
| Candidates.AcceptedMeaning | native_engine/src/occurrence_store.rs:1536-1566 | a record is accepted if and only if it is visible, of an asked kind, resolves to the asked name, and its build and owner paths match; it fails only on a malformed selector |
| Candidates.QueryTargetRecordKeys | native_engine/src/occurrence_store.rs:1508-1567 | the loop with its set of seen targets returns what the declarative query returns |
| Candidates.QueryIsScan | native_engine/src/occurrence_store.rs:1508-1567 | the indexed query returns, once each, exactly the accepted records that an index lists, and fails if and only if the filter fails on one of the asked records |
| Candidates.FullScanIff | native_engine/src/occurrence_store.rs:1508-1567 | a query that succeeds answers like a full scan if and only if the filter refuses every record that the index in use leaves out; one that fails always does |
| Candidates.QueryIsFullScan | native_engine/src/occurrence_store.rs:1519-1535 | in every state, with any identifier overlays, the query answers like a full scan unless it looks up the empty name in the name index or the empty kind in the kind index |
| Candidates.TargetsInOrder | native_engine/src/occurrence_store.rs:1519-1535 | the answer is in key order when it is read by name, and otherwise in the order of the kinds asked for and in key order within each |
| Candidates.BindingMeaning | native_engine/src/occurrence_store.rs:2482-2512 | a name stands for the label of the last identifier overlay over a record of that name in the occurrence, and reading them fails if and only if such a record is unknown or unnamed |
| Candidates.RequestedFirst | native_engine/src/occurrence_store.rs:2482-2512 | the bindings of a request come before those of the overlays |
| Candidates.EmptyIsMissed | native_engine/src/occurrence_store.rs:1519-1535 | for every query without selectors that looks up one of them there is a state with one accepted record that it misses |
| Batch.ResolveBatchRequest | native_engine/src/occurrence_store.rs:1253-1330 | resolving reads the state only, and gives the single candidate, the first of equivalent demands, or the error |
| Batch.ResolveIff | native_engine/src/occurrence_store.rs:1569-1616 | a request resolves to a record if and only if that is an accepted one that the source can fill, and is the only one, or comes first among several that all mean the same where that is allowed |
| Batch.ApplyResolvedBatchRequest | native_engine/src/occurrence_store.rs:1332-1437 | the state changes to what the request makes of it, or not at all when it fails |
| Batch.RequestGranted | native_engine/src/occurrence_store.rs:1338-1437 | a source adds one live instance of its template, named below the target's path with the target as parent, and one edge to the target in the order asked for; a demand gets one overlay of its kind with its label, and is satisfied; nothing else changes |
| Batch.ApplyRequestBatch | native_engine/src/occurrence_store.rs:1079-1107 | the batch loop leaves the state of the fold and reports its error |
| Batch.BatchSplitIff | native_engine/src/occurrence_store.rs:1079-1107 | splitting a batch in two ends in the same state with the same error if and only if the second half can be read, or the first cannot, or the first changes nothing and fails with no other error |
| Batch.SplitCanDiffer | native_engine/src/occurrence_store.rs:1197-1251 | a demand that is met and a source of an unknown template: as one batch they change nothing, as two the demand is met |
| Batch.BatchRefused | native_engine/src/occurrence_store.rs:1079-1107 | a batch that cannot be read changes nothing; otherwise, when request k is refused, the state is the one after the first k requests |
| Batch.StepExtends | native_engine/src/occurrence_store.rs:1332-1437 | one request only adds: occurrences, edges and overlays at the end, satisfied records to the set |
| Batch.FoldExtends | native_engine/src/occurrence_store.rs:1088-1101 | so does a run of requests |
| Runs.ResolvedTarget | native_engine/src/occurrence_store.rs:1253-1330 | a request resolves to a visible record of a kind that it may fill |
| Runs.KindFacts | native_engine/src/occurrence_store.rs:1448-1457 | of the hole kinds, the single additive ones are exactly those whose operation replaces an expression, and none is an unknown operation; each other kind of hole has its own operation |
| Runs.StepInvariant | native_engine/src/occurrence_store.rs:1332-1397 | a request keeps the invariants of runs |
| Runs.ComposableInvariant | native_engine/src/occurrence_store.rs:1338-1397 | so does adding a source to a hole |
| Runs.OverlayInvariant | native_engine/src/occurrence_store.rs:1398-1437 | so does an overlay on a demand that had none |
| Runs.RunInvariant | native_engine/src/occurrence_store.rs:1079-1437 | in every run every occurrence is live; if only requests make edges, every source is newer than its target, has one incoming edge, its operation is the one for the hole, and an expression hole has one edge; if only requests satisfy, the satisfied records are exactly the filled expression holes and the overlaid demands, with one overlay each |
| Runs.RunEdgesRequested | native_engine/src/occurrence_store.rs:1079-1397 | every edge of such a run is what some request of the run asked for: its order, its source's template, name, place and parent |
| RunMaterialization.NoCycles | native_engine/src/occurrence_store.rs:1332-1397 | in such a run no cycle is reachable |
| RunMaterialization.OneIncomingEdge | native_engine/src/occurrence_store.rs:1332-1397 | no two edges have one source |
| RunMaterialization.RunEdgesFit | native_engine/src/occurrence_store.rs:1658-1667 | every edge has the operation for the record it goes to |
| RunMaterialization.RunGroupsFit | native_engine/src/materialize_ir.rs:851-957 | every group of every occurrence is one the materializer can apply, with one edge to an expression |
| RunMaterialization.GraphErrorsNeverFire | native_engine/src/materialize_ir.rs:693-957 | materializing after such a run never reports a cycle, a dead occurrence, a second edge on an expression, an operation that cannot be applied, or an unknown handle |
| RunMaterialization.RequestedModule | native_engine/src/materialize_ir.rs:693-849 | from requests to module: an occurrence that materializes after such a run is its template with its sources substituted at once |
| ExternalSubst.SubstituteInExpr | native_engine/src/materialize_ir.rs:4175-4405 | the traversal rewrites the expression as the recursive substitution does and counts the places |
| ExternalSubst.SubstituteInList | native_engine/src/materialize_ir.rs:4162-4173 | so it does in a list |
| ExternalSubst.SubstituteInKeywords | native_engine/src/materialize_ir.rs:4175-4405 | and in the keywords of a call |
| ExternalSubst.SubstituteInParams | native_engine/src/materialize_ir.rs:4476-4501 | and in the defaults of parameters, outside the shadow of the parameters themselves |
| ExternalSubst.SubstituteInGenerators | native_engine/src/materialize_ir.rs:4407-4438 | and through generators, where each target shadows what follows it |
| ExternalSubst.BindingKept | native_engine/src/materialize_ir.rs:4812-4823 | substituting in a target keeps the names it binds |
| ExternalSubst.ShadowedUnchanged | native_engine/src/materialize_ir.rs:4175-4405 | under a shadow the substitution is the identity and counts nothing |
| ExternalSubst.SecondPass | native_engine/src/materialize_ir.rs:4175-4467 | a second pass replaces nothing if and only if no unshadowed reference call gets a new use from the first |
| ExternalSubst.SecondPassCanReplace | native_engine/src/materialize_ir.rs:4440-4467 | a reference call that takes its name both ways gets one |
| ExternalPlaces.WhatIsPutWhere | native_engine/src/materialize_ir.rs:4175-4467 | at every place below no other replacement: a shadowed expression stays, a use becomes the literal, a reference call gets it as its last argument and loses only its first `external` keyword, and any other expression keeps its form |
| ExternalPlaces.SubstitutedAt | native_engine/src/materialize_ir.rs:4175-4438 | what stands at a place afterwards is what stood there, substituted under the shadows on the way |
| ExternalTheorem.Preserved | native_engine/src/materialize_ir.rs:4175-4438 | in environments that agree up to the substitution, the result evaluates to the value of the original up to the substitution, closures included, for every number of steps |
| ExternalTheorem.SubstitutionPreservesMeaning | native_engine/src/materialize_ir.rs:4175-4438 | evaluating the result is evaluating the original with the name bound to the replacement; data values are equal, and failures happen in the same cases |
| Renaming.FreshScopedName | native_engine/src/materialize_ir.rs:2959-2968 | the loop ends within one more try than there are unavailable names, with the smallest unused counter |
| Renaming.FreshIsUnique | native_engine/src/materialize_ir.rs:2959-2968 | only one name is fresh in that sense |
| Renaming.BoundRenamed | native_engine/src/materialize_ir.rs:2864-2938 | renaming a statement renames the names collected from it, and no other |
| Renaming.StmtRenamedAway | native_engine/src/materialize_ir.rs:4915-5461 | after renaming, no identifier of the statement, at any depth, matches the old name |
| RenamingPlaces.RenamedAt | native_engine/src/materialize_ir.rs:5197-5365 | what stands at a place of an expression is renamed there, and every expression keeps its form but for the identifiers that match |
| RenamingPlaces.BoundaryMarked | native_engine/src/materialize_ir.rs:5468-5500 | a boundary marker for a renamed name says that it is bound, loses `outer_bind`, and keeps its other keywords in order |
| RenamingPlaces.HeadExprsRenamed | native_engine/src/materialize_ir.rs:4915-5148 | the expressions of a statement are renamed, each in its place |
| RenamingPlaces.StmtRenamedAt | native_engine/src/materialize_ir.rs:4903-5148 | statements at any depth are renamed, each in its place |
| Renaming.RenameDottedFirst | native_engine/src/materialize_ir.rs:5438-5461 | renaming a dotted name renames its first segment |
| PyImports.ImportBindsFinalNames | native_engine/src/materialize_ir.rs:2821-2854 | the import statement that a marker becomes binds exactly the names collected for the marker |
| PyImports.ImportSpelled | native_engine/src/materialize_ir.rs:3128-3178 | the import spells, segment by segment, the dotted path of the first `module` keyword; a `from` import takes the elements of the `names` tuple in order, a plain one the name of `as_` |
| PyImports.ReplacementsSeparate | native_engine/src/materialize_ir.rs:2790-2806 | replacements differ from each other, from every unavailable name, and from every name renamed, so none is renamed again |
| PyImports.CollisionsResolved | native_engine/src/materialize_ir.rs:2790-2806 | after the renaming, the collected binding names and the import names are disjoint, the import names are unchanged, each collided name became its replacement and no other changed |
| PyImports.RenamePyImportCollisions | native_engine/src/materialize_ir.rs:2790-2806 | the loop over the collisions is the renaming that the theorem is about |
| RenamingPlaces.ResolvedAt | native_engine/src/materialize_ir.rs:2970-2983 | every statement but the import markers is renamed for each collision in turn, and by nothing else |
| Lowering.LowerStatementList | native_engine/src/materialize_ir.rs:2781-2788 | lowering a suite in a loop is the recursive lowering |
| Lowering.LowerStatement | native_engine/src/materialize_ir.rs:2985-3016 | so is lowering a statement to what takes its place |
| Lowering.LowerStatementFields | native_engine/src/materialize_ir.rs:3018-3099 | and lowering its suites, with unfilled parameter holes refused |
| Lowering.LoweredIsClean | native_engine/src/materialize_ir.rs:2777-3126 | a lowered suite has, at every depth, no import, boundary or `pass` marker, no fallback `with`, and no function with a parameter hole |
| Lowering.CleanIsFixed | native_engine/src/materialize_ir.rs:2777-3126 | a suite without markers is lowered to itself, so lowering fails on none |
| Lowering.LoweringTwice | native_engine/src/materialize_ir.rs:2777-3126 | lowering a lowered suite changes nothing |
| Lowering.OrderKept | native_engine/src/materialize_ir.rs:2985-3016 | each statement leaves its own part, in order: an import marker its import, another marker nothing, a fallback its lowered body, any other statement itself with each of its suites lowered in place |
| Lowering.ImportMarkerLeaves | native_engine/src/materialize_ir.rs:2985-3016 | an import marker leaves the one import that its keywords spell |
| Lowering.ImportsApart | native_engine/src/materialize_ir.rs:2781-2806 | what an import will bind is bound by no other statement of the renamed suite, before the fallback bodies join it |
| Lowering.LoweredImportsApartIff | native_engine/src/materialize_ir.rs:2781-3016 | a lowered suite binds its import names and what its other statements leave; the two are disjoint if and only if no fallback body, lowered as it joins, binds an import name |
| Lowering.FallbackCanCollide | native_engine/src/materialize_ir.rs:2781-3016 | a fallback body that joins the suite can bind the name of an import |
| Scopes.ExtractScopes | native_engine/src/template_package_v2.rs:1267-1295 | the traversal pushes the module scope and then, in preorder, the scopes of the module |
| Scopes.VisitStmtScopes | native_engine/src/template_package_v2.rs:1297-1480 | given the path, parent and owner of a statement, its scopes are pushed with the numbers that follow |
| Scopes.VisitSuiteScopes | native_engine/src/template_package_v2.rs:1482-1500 | the scopes of a suite are pushed in order under their printed paths |
| Scopes.VisitHandlerScopes | native_engine/src/template_package_v2.rs:1441-1461 | and those of the handlers of a `try` |
| ScopeTree.ScopesNumbered | native_engine/src/template_package_v2.rs:1267-1480 | a scope's number is its position, scopes are numbered in document order, and no two are at one statement |
| ScopeTree.ParentIsInnermost | native_engine/src/template_package_v2.rs:1297-1480 | the recorded parent is the deepest recorded scope strictly around the scope, and its owner path is that of the parent and one name more |
| ScopeLookup.PrefixOfSegments | native_engine/src/template_package_v2.rs:4291-4295 | the textual test on non-empty paths is prefix on the parts between slashes |
| ScopeLookup.PrefixIsNesting | native_engine/src/template_package_v2.rs:4291-4303 | on printed paths it is nesting of statements |
| ScopeLookup.ScopeForAstPath | native_engine/src/template_package_v2.rs:4276-4289 | the lookup that takes ties returns the last of the deepest enclosing scopes |
| ScopeLookup.ScopeIdForStatementPath | native_engine/src/template_package_v2.rs:1209-1224 | the lookup that does not returns the first of them, and nothing if and only if there is none |
| ScopeLookup.EquallyDeepIsSame | native_engine/src/template_package_v2.rs:4276-4303 | two recorded scopes around a path that are equally deep are one |
| ScopeLookup.LookupsAgree | native_engine/src/template_package_v2.rs:1209-1224 | the two lookups return the same scope for every path |
| ScopeLookup.LookUp | native_engine/src/template_package_v2.rs:4276-4289 | every path has one innermost recorded scope, and the lookup over the extracted scopes returns it |
| ScopeLookup.ScopesRecorded | native_engine/src/template_package_v2.rs:1297-1480 | every recorded scope is a function or class of the module that the traversal can come to, with its kind, name and printed path |
| ScopeLookup.RecordedIff | native_engine/src/template_package_v2.rs:1297-1500 | a statement is recorded if and only if it is a function or class and the traversal enters every suite above it |
| ScopeLookup.MatchScopesMissed | native_engine/src/template_package_v2.rs:1297-1480 | a function or class in a match case is there and is not recorded |
| ScopeLookup.LookUpRightIff | native_engine/src/template_package_v2.rs:4276-4289 | the deepest recorded scope around a statement is the innermost function or class around it if and only if the traversal comes to that one |
| ScopeLookup.InnermostScope | native_engine/src/template_package_v2.rs:4276-4289 | the innermost function or class that a statement is or lies in: a prefix of its address, longer than every other such prefix |
| Parameters.GatherPayloads | native_engine/src/materialize_ir.rs:970-994 | appending payload after payload gathers them, or fails at the second variadic of a kind |
| Parameters.GatheredInOrder | native_engine/src/materialize_ir.rs:970-994 | it succeeds if and only if at most one payload has a vararg and at most one a kwarg, and then chains the parameters of each kind in edge order |
| Parameters.SplicesAgree | native_engine/src/materialize_ir.rs:2185-2315 | for a hole of a unique name among the positional parameters, the splice by name and the splice by path give the same result and the same failures |
| Parameters.SplicedSignature | native_engine/src/materialize_ir.rs:2256-2315 | the payload takes the place of the hole between what was before and behind it, the keyword-only parameters follow, and it fails if and only if both sides have a variadic of one kind |
| Parameters.SplicedParams | native_engine/src/materialize_ir.rs:2232-2315 | every parameter of both sides is kept as often as it was, but for the hole |
| Parameters.KeywordHoleDropsPositional | native_engine/src/materialize_ir.rs:2214-2225 | with the hole among the keyword-only parameters, exactly the positional parameters of the payload are lost |
| RefPaths.NormalizeRefPath | src/astichi/shell_refs.py:35-64 | the scan for leading indexes and the rotation are the normal form |
| RefPaths.NormalizeFacts | src/astichi/shell_refs.py:35-64 | normalising succeeds if and only if the path is empty or has a name, keeps the segments, is idempotent, and puts a name first |
| RefPaths.NormalizeExact | src/astichi/shell_refs.py:35-64 | the first name comes to the front, and every other segment stays where it is among the rest |
| RefPaths.RefPathToAst | src/astichi/shell_refs.py:67-123 | the loop with its pending run of indexes is the encoding |
| RefPaths.ParseRefPathLiteral | src/astichi/shell_refs.py:126-140 | both forms are read by the decoding |
| RefPaths.DecodeEncode | src/astichi/shell_refs.py:67-140 | a path is encoded if and only if it has a name, decoding gives its normal form, and the tuple form is used if and only if a name is no identifier |
| RefPaths.ReEncoding | src/astichi/shell_refs.py:257-340 | encoding what a fluent expression decodes to is a canonical expression with the same meaning, and is the expression itself if and only if that was canonical |
| RefPaths.CanonicalFolded | src/astichi/shell_refs.py:257-308 | a canonical expression is what the fold makes of its own path |
| RefPaths.SetIsRead | src/astichi/shell_refs.py:143-178 | a reference set on a call is read back in normal form if and only if the call does not repeat it, and other keywords stay |
| RefPaths.InsertCall.SetInsertRef | src/astichi/shell_refs.py:161-178 | the first reference is replaced, or one is appended; on failure the call stays as it was |
| RefPaths.InsertCall.PrefixInsertRef | src/astichi/shell_refs.py:181-192 | a reference becomes the normal form of the prefix and what it was, a call without one stays as it is, and so does a call on which it fails |
| Interning.SameNames | native_engine/src/template_package_v2.rs:4305-4312 | two name lists are sorted and reduced to one list if and only if they are equal as sets |
| Interning.PackageBuilder.constructor | native_engine/src/template_package_v2.rs:529-553 | a new builder holds the header strings and consistent tables |
| Interning.PackageBuilder.InternString | native_engine/src/template_package_v2.rs:555-563 | the id names the string, the table grows only by a string it did not have, and table and map stay inverse |
| Interning.PackageBuilder.InternPath | native_engine/src/template_package_v2.rs:565-577 | so for paths |
| Interning.PackageBuilder.InternAstPath | native_engine/src/template_package_v2.rs:579-588 | so for printed paths |
| Interning.PackageBuilder.InternBindingSet | native_engine/src/template_package_v2.rs:590-603 | the id names the sorted names, and ids given before stay what they were |
| Interning.PackageBuilder.SharedBindingSet | native_engine/src/template_package_v2.rs:590-603 | two name lists share an id if and only if they are equal as sets |
| Interning.PackageBuilder.AddLocator | native_engine/src/template_package_v2.rs:605-625 | the locators read out of the tables grow by the one added, and the records stay |
| Interning.PackageBuilder.AddRecord | native_engine/src/template_package_v2.rs:627-655 | the records read out of the tables grow by the one added, and the locators stay |
| Interning.BuildPackage | native_engine/src/template_package_v2.rs:219-256 | the tables of a built package read back as the extracted locators and records |
| Interning.FromPackage | native_engine/src/occurrence_store.rs:31-73 | the template is what the tables of the package read back as; with fewer than three strings there is none |
| Interning.RoundTrip | native_engine/src/occurrence_store.rs:31-73 | a template rebuilt from a package has every extracted record and locator, and the key and the summary if and only if the three header strings differ |
| Interning.HeaderSpoiledIff | native_engine/src/template_package_v2.rs:231-238 | as the key and the summary are made, they differ, so only the bundle signature can equal one of them |
| RebuiltTemplates.RebuiltIsExtracted | native_engine/src/occurrence_store.rs:31-73 | when the extracted records hold the statement holes of the module, the rebuilt template is one that the splice theorem applies to |
| Interning.HeaderRightIff | native_engine/src/occurrence_store.rs:31-73 | the key and summary are at their fixed positions if and only if the three header strings differ |

## Left out

- The handles, owner checks, dictionary parsing and snapshots of the Python binding, and the conversion to Python's `ast`.
- The Python parser and the hashing of template keys; a template that was registered without a parsed module.
- EdgeApplication.ApplyMaterializedEdges: the steps for expression, parameter and call-argument groups are a parameter `other`, about which nothing is assumed; `ExpressionEdges` models the first of them, and `Parameters` the parameter lists that the second edits.
- MaterializerTheorems.MaterializedModule: overlays and lowering are the parameter `finish`; `FinishedModules` says what lowering adds.
- RunMaterialization.RequestedModule: overlays, lowering and the groups that are not statements are parameters here too.
- The order among call-argument groups of one call, where two holes can move each other.
- Literal references, which are lowered after the statement markers and change expressions only.
- Lowering.ImportsApart: speaks of the suite before the fallback bodies join it; `Lowering.LoweredImportsApartIff` says what holds after.
- The walrus operator, dict, set and generator comprehensions, subscripts, f-strings and the other expression forms that the substitution treats like the modelled ones.
- External substitution in statements, with the shadows of functions, classes, `for` targets and handlers.
- ExternalTheorem.SubstitutionPreservesMeaning: `astichi_ref` calls are outside the evaluated language, because their value is only given by a later lowering; comprehension targets are names, tuples and lists, and a comprehension is evaluated in sequential scopes, as the substitution assumes.
- Renaming.StmtRenamedAway: handler names, match patterns, annotations, decorators, and the bases and keywords of a class are not part of the model.
- PyImports.CollisionsResolved: a dotted final name, which Python cannot bind, is excluded by its requires.
- Owners, surface keys, production records and expression-level records of the extraction, and its validators for marker placement.
- Extraction.ExtractRecords: models the statement holes and the markers among statements, not the markers inside expressions.
- Extraction.StmtRecords: leaves the markers inside expressions out as well.
- Scopes.ExtractScopes: the start lines and binding names of scopes are not part of the model.
- Scopes.VisitStmtScopes: neither are they here.
- The marker, import, comment, reference and unroll rows of a package.
- The rule that decides whether a production satisfies a target comes from the surface registry and is a parameter of `Batch`.
- Runs.RunInvariant: occurrences are never made dead and the dead set never grows in the source, so `live` is always true and the dead set empty; the branches that test them are modelled, but no run takes them.
- Boolean segments of reference paths, which Python counts as integers, and source locations copied onto encoded nodes.
- Error texts, perf counters, the disk cache, and the Python layers above the engine.
