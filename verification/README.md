# Verified models of rawsql-ts

These Dafny modules model four parts of the rawsql-ts repository and prove what each is for, over all inputs, all runs
and all failures. `dafny verify dfyconfig.toml` checks everything.

**Named-parameter compiler** (`NamedParameters`, `NamedParameterLexing`, `NamedParameterLaws`, `NamedParameterRescan`,
`NamedParameterMeaning`, `NamedParameterGrammar`). The scanner that turns `:name` into positional placeholders is
written as the loop it is, with its state, its run-time dollar tag, its one-character lookahead and its jumps, and
refines a recursive tokenizer. That tokenizer is proved to read a grammar given by characters alone
(`ScansByTheGrammar`), and what the tokens say carries the rest: the output restores the source, substitution by
position is substitution by name, texts compile piece by piece, and scanning the output finds the same regions. Two of
these need a condition, which is stated exactly: pg-indexed output holds the regions of its source, and with them no
parameter, exactly when no raw dollar joins a placeholder (`$:a` becomes `$$1`), and a driver reads the output by name
exactly when the source holds no plain placeholder of its own and, for numbered placeholders, no such dollar.

**Evidence diff** (`StableSort`, `Keyed`, `Json`, `StableJson`, `JsonRecords`, `LocaleJson`, `LocaleTies`,
`StableOrder`, `EvidencePreview`, `EvidenceDiff`, `EvidenceIds`, `EvidencePatch`, `EvidenceCounts`, `EvidenceLaws`,
`EvidenceSymmetry`, `EvidenceOrder`, `EvidenceMeaning`, `CaseGroups`, `CaseGroupContents`). Two previews are normalized,
keyed by id and compared by canonical fingerprints. `UpdatesAreChanges` says what is listed as updated in terms of the
previews' own fields, and `ReportShowsTheChanges` what the pull-request report then shows. The diff is a sound and
complete patch, conserves counts, reverses when its sides are swapped, and ignores order; regrouping by catalog loses
nothing. The laws need catalog ids unique on each side and case ids unique in each catalog. The preview validator does
not enforce that, and `RepeatedIdIsNoSelfDiff` shows a law failing without it; `SelfDiffEmptyIff` says exactly when that
law holds.

`localeCompare` is a parameter, any total preorder. It may tie different strings, as the real one ties composed and
decomposed letters, so what must not tie is stated on the input: a value has one fingerprint under all orders of its
keys exactly when no object in it has two different plain keys that tie (`FingerprintSettledIff`), and the laws about
sorted lists ask that the ids, fixtures and references of the list at hand do not tie. A change is never missed,
whatever ties.

**Connection provider** (`ConnectionProvider`, `InterleavedCalls`). `withConnection` and `withTransaction` are methods
over an event trace in which every awaited step may fail; a system of calls then interleaves them step by step. The laws
about order, queries, errors and results are stated on the trace and the plan of failures alone. The executor's README
(section on transactions) promises that the original error is always propagated. The code tests the error for
truthiness, so a thrown falsy value is masked by a failing disposal; `OriginalErrorPropagatesIff` gives the exact
condition.

**Paired benchmark protocol** (`PairedProtocol`, `PairedRun`, `PairedRunLaws`, `PairedVerdicts`, `PairedEvidence`,
`PairedDeclarations`, `PairedReporting`, `PairedAcceptance`, `PairedExamples`). A run executes processes in a planned
order, accumulates deltas and mismatches in a class with the source's own collections, stops early, classifies rows and
writes a record; the next stage validates that record. A process outcome is an arbitrary exit code and an arbitrary
report, so every theorem is over all runs. `PairedDeclarations` says what admission and the report checks ask for in
terms of the manifest and the reports, `PairedReporting` what the record shows of a run, and `PairedAcceptance` what the
next stage asks of any record. The record a run writes is accepted by the next stage exactly when the run was clean and
the new manifest inherits its declarations. `MismatchReportedIff` says which last report makes the status a semantic
mismatch. The runner's validation also accepts a report that names a mismatch in a phase outside the executed scope, and
such a run ends `not_measured` (`OffScopeMismatchIsNotReported`). The benchmark, whose source the P0 reference pins by
fingerprint, does not write such a report: it names a failure only in a phase it was asked to run
(`benchmarks/ast-analysis-phase-benchmark.ts:934-960`), and for such processes `ScopedFailuresAreReported` shows that no
mismatch is lost. `PairedExamples` exhibits runs that meet the conditions: for each scope a clean screen, a clean
confirmation naming it, and a full profile that the log with both admits.

The spec-only list `compared` of the run state names the pairs whose comparison completed; the source keeps no such
list.

## Model

| member | source | states |
|---|---|---|
| NamedParameters.CompileNamedParameters | packages/_shared/binder/src/compileNamedParameters.ts:83-231 | for every SQL text, parameter map and style the one-pass scanner loop returns what compiling the recursive tokenization of the text gives, or its first error |
| NamedParameters.ParseDollarTag | packages/_shared/binder/src/compileNamedParameters.ts:9-33 | the cursor loop finds exactly the dollar-quote tag that starts at the index, or none |
| NamedParameterLexing.TokensCoverSource | packages/_shared/binder/src/compileNamedParameters.ts:98-221 | the tokens of a text concatenate back to it, and are a lexing of it |
| NamedParameterGrammar.ScansByTheGrammar | packages/_shared/binder/src/compileNamedParameters.ts:98-221 | where tokens begin and end, by characters alone: a list is the scanner's tokens of a text exactly when it spells the text and follows a grammar in which a line comment runs to its first newline, a block comment to the first closing mark after its opening, a dollar quote to the next occurrence of its own tag, a quoted text has its quotes doubled, and a parameter is the longest identifier after its colon |
| NamedParameterLexing.LexedIffScanned | packages/_shared/binder/src/compileNamedParameters.ts:98-221 | a token list is what scanning its own text gives exactly when each token stands alone and may precede what follows it |
| NamedParameterLaws.RescanFindsSameTokens | packages/_shared/binder/src/compileNamedParameters.ts:184-225 | scanning compiled output finds the source's own tokens, with placeholders as plain text, exactly when the style is not pg-indexed or no raw dollar joins a placeholder |
| NamedParameterRescan.RegionsSurviveIff | packages/_shared/binder/src/compileNamedParameters.ts:184-225 | scanning compiled output finds exactly the source's quotes, comments and dollar quotes exactly when the style is not pg-indexed or no raw dollar joins a placeholder |
| NamedParameterRescan.RecompileFails | packages/_shared/binder/src/compileNamedParameters.ts:184-225 | compiled output holds the same protected regions and no parameter, so that compiling it again ends in the no-parameter error, exactly under that condition |
| NamedParameterLaws.JoinedDollarExposesText | packages/_shared/binder/src/compileNamedParameters.ts:184-218 | the input on which re-scanning pg-indexed output differs: a raw dollar before a parameter joins the placeholder into a tag, and quoted text becomes a parameter |
| NamedParameterMeaning.ScanIsCompositional | packages/_shared/binder/src/compileNamedParameters.ts:98-221 | scanning a text that ends in the normal state, white space, and a second text is scanning one after the other, placeholder numbers carrying on |
| NamedParameterMeaning.CompileIsCompositional | packages/_shared/binder/src/compileNamedParameters.ts:83-231 | compiling two such texts joined, whether or not each compiles alone, succeeds exactly when a parameter occurs in either and all have values, and then gives the outputs around the separator with the second one's numbers carrying on and concatenates values and names; otherwise it reports the first text's first missing name, or else the second's, or that there are no parameters |
| NamedParameterMeaning.OutputRestoresSource | packages/_shared/binder/src/compileNamedParameters.ts:201-218 | source and output weave the same chunks, one with colon names and one with placeholders 1 to k in order; names, values and placeholders have equal counts; values by position are values by name |
| NamedParameterMeaning.QuestionDriverReadsByName | packages/_shared/binder/src/compileNamedParameters.ts:201-218 | a driver that reads question marks by position accepts the output exactly when the source has no plain question mark, and then substitutes what the names stand for |
| NamedParameterMeaning.NumberedDriverReadsByName | packages/_shared/binder/src/compileNamedParameters.ts:201-218 | a driver that reads numbered placeholders substitutes what the names stand for, for every rendering of values, exactly when the source has no plain numbered placeholder and no raw dollar joins a placeholder |
| NamedParameterMeaning.Outcomes | packages/_shared/binder/src/compileNamedParameters.ts:207-225 | success exactly when there is a parameter and all have values; otherwise the no-parameter error, or the first name in text order without a value |
| NamedParameterMeaning.OnlyUsedParamsMatter | packages/_shared/binder/src/compileNamedParameters.ts:201-231 | values of names the text does not use never matter, and the style changes neither error nor names nor values |
| Json.PrintIsInjective | packages/test-evidence-core/src/diff.ts:13-15 | two JSON values print alike exactly when they are identical |
| StableJson.FormsIdentifyValues | packages/test-evidence-core/src/diff.ts:13-216 | under any arrangement that keeps members and forgets their order, printed forms agree exactly when the values are equal up to key order at every depth |
| StableJson.StableIsIdempotent | packages/test-evidence-core/src/diff.ts:204-216 | taking the form of a form changes nothing |
| StableJson.StableSerializeIdentifies | benchmarks/ast-analysis-paired-runner.ts:1677-1694 | the runner's serialization of two values agrees exactly when they are equal up to key order |
| LocaleJson.FingerprintIdentifies | packages/test-evidence-core/src/diff.ts:13-216 | a value no two of whose plain keys tie in the locale has another value's fingerprint exactly when the two are equal up to key order |
| LocaleTies.FingerprintSettledIff | packages/test-evidence-core/src/diff.ts:204-216 | under any total preorder, a value keeps its fingerprint under every reordering of keys at every depth exactly when no object in it has two different plain keys that tie |
| LocaleTies.TiedKeysShow | packages/test-evidence-core/src/diff.ts:207-212 | exchanging two members whose plain keys tie gives an equal object with another form |
| LocaleTies.FingerprintIsCanonicalIff | packages/test-evidence-core/src/diff.ts:204-216 | stableStringify is a complete invariant of all JSON values exactly when the locale separates any two plain keys |
| LocaleJson.EqualFingerprintsMeanEqualValues | packages/test-evidence-core/src/diff.ts:13-216 | under any locale equal fingerprints mean equal values, so no change is missed |
| LocaleJson.SortingFirstIsTheSame | packages/test-evidence-core/src/diff.ts:207-212 | sorting entries before mapping them, as the code does, gives the form the specification defines |
| StableOrder.StableValueIsOrdered | packages/test-evidence-core/src/diff.ts:204-216 | the stable value of a value is that value up to key order, and in every object at every depth index keys come first, by number, and the others sorted by the locale |
| StableOrder.SerializedInCodeUnitOrder | benchmarks/ast-analysis-paired-runner.ts:1677-1694 | what the runner serializes is the value up to key order, with the keys of every object at every depth in code-unit order |
| EvidenceDiff.BuildDiffJson | packages/test-evidence-core/src/diff.ts:20-116 | the loops over base and head catalogs compute the specified diff of the two normalized previews |
| EvidenceDiff.DiffCatalogCases | packages/test-evidence-core/src/diff.ts:148-190 | the loops over two catalogs' cases compute the specified added, removed and updated lists |
| EvidenceMeaning.NormalFormKeepsFields | packages/test-evidence-core/src/preview.ts:105-160 | each catalog of a preview is in the normal form, and nothing else is, with every field as it was: texts trimmed, references trimmed and sorted, fixtures sorted, the output of a throwing case and the error of any other left out |
| EvidenceMeaning.UpdatesAreChanges | packages/test-evidence-core/src/diff.ts:20-116 | an update is listed exactly of the cases that both previews have and that differ in input up to key order, in the output a non-throwing case shows, or, for SQL, in expected rows, fixtures or definition path, or that moved between the kinds |
| EvidenceMeaning.AdditionsAndRemovals | packages/test-evidence-core/src/diff.ts:20-116 | additions and removals are exactly the cases that one preview has and the other has not |
| EvidenceMeaning.DiffIsInOrder | packages/test-evidence-core/src/diff.ts:107-202 | every list comes out in order: SQL catalogs before function catalogs, each by id, and cases by id |
| EvidencePatch.CasesUpdatedAre | packages/test-evidence-core/src/diff.ts:173-184 | a pair is listed as updated exactly when the ids agree and the fingerprints differ |
| EvidencePatch.DiffListsExactly | packages/test-evidence-core/src/diff.ts:42-83 | with unique ids the diff lists exactly the case keys that came, went, or changed fingerprint, across whole and updated catalogs |
| EvidencePatch.DiffIsAPatch | packages/test-evidence-core/src/diff.ts:42-83 | with unique ids, deleting the removed entries from base's fingerprint map and writing the added and updated ones gives exactly head's map |
| EvidenceCounts.AddedListedOnce | packages/test-evidence-core/src/diff.ts:42-83 | no added case is listed twice |
| EvidenceCounts.RemovedListedOnce | packages/test-evidence-core/src/diff.ts:42-83 | no removed case is listed twice |
| EvidenceCounts.ChangedListedOnce | packages/test-evidence-core/src/diff.ts:53-83 | no updated case is listed twice |
| EvidenceCounts.CatalogListsExactly | packages/test-evidence-core/src/diff.ts:42-51 | whole catalogs listed as added and removed are exactly those that came and went, each once |
| EvidenceCounts.SummaryIsExact | packages/test-evidence-core/src/diff.ts:85-111 | the summary's case counts are the sizes of the sets of keys that came, went and changed, and the totals count each side |
| EvidenceCounts.DiffConserves | packages/test-evidence-core/src/diff.ts:85-111 | head minus base equals added minus removed, for tests and for catalogs |
| EvidenceLaws.FingerprintsMeanSameEvidence | packages/test-evidence-core/src/diff.ts:126-146 | a case without tied keys in its input and output has another's fingerprint exactly when kind, catalog, case id, input and output agree, and for SQL also fixtures and definition |
| EvidenceLaws.TiedCaseShows | packages/test-evidence-core/src/diff.ts:126-146 | that condition is exact: a case with tied keys has a twin with the same evidence and another fingerprint |
| EvidenceLaws.HeadersMeanSameFields | packages/test-evidence-core/src/diff.ts:58-71 | a catalog's own fields count as unchanged exactly when kind, id, title, definition and fixtures are the same, in any locale |
| EvidenceSymmetry.CaseDiffSwaps | packages/test-evidence-core/src/diff.ts:148-190 | swapping two catalogs swaps added and removed cases and reverses each update, list for list |
| EvidenceSymmetry.DiffSwaps | packages/test-evidence-core/src/diff.ts:42-116 | swapping base and head swaps added and removed catalogs, reverses every updated entry and swaps catalog counts, case counts and totals |
| EvidenceSymmetry.DiffWithItself | packages/test-evidence-core/src/diff.ts:42-116 | a side with unique ids diffed with itself gives empty lists and zero counts |
| EvidenceSymmetry.SelfDiffEmptyIff | packages/test-evidence-core/src/diff.ts:27-116 | for any list, ids repeated or not, a side diffed with itself adds and removes nothing, and shows nothing exactly when every catalog has the header fingerprint, the case ids and the case fingerprints of the last one with its id |
| EvidenceSymmetry.RepeatedIdIsNoSelfDiff | packages/test-evidence-core/src/diff.ts:27-28 | why ids must be unique: with a repeated catalog id the last-wins map makes a side differ from itself |
| EvidenceOrder.DiffForgetsListOrder | packages/test-evidence-core/src/preview.ts:105-160 | reordering catalogs, fixtures and references in both previews leaves the whole diff unchanged |
| EvidenceOrder.CaseDiffForgetsOrder | packages/test-evidence-core/src/diff.ts:148-190 | reordering the cases of two catalogs leaves every sorted case-change list unchanged |
| EvidenceOrder.DiffForgetsCaseOrder | packages/test-evidence-core/src/diff.ts:42-116 | reordering the cases inside the catalogs of both previews leaves totals, summary, catalog lists and case-change lists unchanged, up to the case order inside embedded catalogs |
| EvidenceOrder.DiffForgetsOrder | packages/test-evidence-core/src/diff.ts:20-116 | any reordering of catalogs, cases, fixtures and references in both previews together leaves the diff the same in that sense |
| EvidenceIds.UniqueIdsIff | packages/test-evidence-core/src/preview.ts:105-160 | the ids of the normal form are unique exactly when catalog ids are unique over both lists of the preview and case ids in each catalog |
| CaseGroups.BuildCatalogCaseGroups | packages/test-evidence-renderer-md/src/prDiffMarkdown.ts:193-274 | the three loops over a mutable group table compute the specified groups |
| CaseGroups.GroupHoldsItsDeltas | packages/test-evidence-renderer-md/src/prDiffMarkdown.ts:193-268 | a catalog has a group exactly when it contributes, and the group holds exactly the deltas contributed under its id, in order |
| CaseGroups.RegroupingLosesNothing | packages/test-evidence-renderer-md/src/prDiffMarkdown.ts:193-274 | over all groups of any diff the deltas of each kind number exactly what the summary says |
| CaseGroups.GroupsAreSortedAndComplete | packages/test-evidence-renderer-md/src/prDiffMarkdown.ts:268-274 | groups come out sorted with one per contributing catalog, each with its deltas sorted and complete |
| CaseGroupContents.ReportShowsTheChanges | packages/test-evidence-renderer-md/src/prDiffMarkdown.ts:193-274 | a delta stands under a catalog exactly when it is what the two sides say of that case: an update shows base's input and output before, head's after and head's title, an addition only head's, a removal only base's |
| CaseGroupContents.GroupsAreOfChangedCatalogs | packages/test-evidence-renderer-md/src/prDiffMarkdown.ts:193-292 | there is a group exactly for each catalog on one side only or with other evidence on the two, headed by head's title and definition path, or base's when head has none, and no case is in it twice |
| ConnectionProvider.Provider.RunWithConnection | packages/executor/src/createConnectionProvider.ts:37-53 | for every choice of failing steps, the events and the outcome of one withConnection call |
| ConnectionProvider.Provider.RunWithTransaction | packages/executor/src/createConnectionProvider.ts:55-80 | for every choice of failing steps, the events and the outcome of one withTransaction call |
| ConnectionProvider.DisposedOnceAndLast | packages/executor/src/createConnectionProvider.ts:37-80 | an acquired connection has exactly one disposal attempt and it is the last event; a failed acquisition does nothing else |
| ConnectionProvider.CallsAreScoped | packages/executor/src/createConnectionProvider.ts:36-81 | acquisition, BEGIN, queries, COMMIT, ROLLBACK and disposal come in that order, only queries more than once; in a transaction every query and COMMIT stands after a BEGIN that was fine and ROLLBACK after a BEGIN, and a connection-scoped call has none of the three |
| ConnectionProvider.CallbackQueries | packages/executor/src/createConnectionProvider.ts:40-61 | the callback's queries happen, all and in order, exactly when the connection was acquired and, in a transaction, BEGIN was fine |
| ConnectionProvider.CommitIffCallbackReturned | packages/executor/src/createConnectionProvider.ts:58-62 | COMMIT is attempted exactly when the callback ran in a transaction and returned |
| ConnectionProvider.FailedBeginDecides | packages/executor/src/createConnectionProvider.ts:58-77 | when BEGIN fails neither events nor outcome depend on what the callback or COMMIT would have done, and its error is thrown unless it is falsy and disposal fails |
| ConnectionProvider.CallLeavesAs | packages/executor/src/createConnectionProvider.ts:36-81 | how every call is left: with the callback's value, or with the one error that gets through among acquisition, the first of BEGIN, callback and COMMIT to throw, and disposal |
| ConnectionProvider.RollbackIffTryThrew | packages/executor/src/createConnectionProvider.ts:58-71 | ROLLBACK is attempted exactly when BEGIN, the callback or COMMIT threw on an acquired transaction connection |
| ConnectionProvider.ReturnsIffAllFine | packages/executor/src/createConnectionProvider.ts:55-80 | a call returns exactly when acquiring, the try block and disposal were fine, and then it committed and returned the callback's value |
| ConnectionProvider.CommittedButRejected | packages/executor/src/createConnectionProvider.ts:61-76 | a committed transaction rejects exactly when disposal fails, with the disposal's error |
| ConnectionProvider.OriginalErrorPropagatesIff | packages/executor/src/createConnectionProvider.ts:63-77 | the original error reaches the caller exactly when it is truthy or disposal does not fail with another error |
| ConnectionProvider.FalsyErrorIsMasked | packages/executor/src/createConnectionProvider.ts:74-77 | the call on which the documented promise fails: a thrown falsy value is replaced by the disposal's error |
| InterleavedCalls.InterleavingIsSequential | packages/executor/src/createConnectionProvider.ts:36-81 | for every interleaving of calls and failures, a finished call's own events and outcome are those it would have had alone |
| InterleavedCalls.ConnectionsAreConserved | packages/executor/src/createConnectionProvider.ts:36-81 | at every moment of every interleaving, connections acquired minus connections disposed of equals the calls in flight |
| InterleavedCalls.FinishedCallsBehave | packages/executor/src/createConnectionProvider.ts:36-81 | for every interleaving and every choice of failing steps, each finished call ran its callback inside its transaction, disposed of its connection once and last, attempted ROLLBACK exactly when its transaction threw, returned only after COMMIT and disposal succeeded, and let its own error through exactly when that error is truthy or disposal did not fail with another |
| PairedProtocol.AdmittedRowsHaveData | benchmarks/ast-analysis-paired-runner.ts:348-481 | an admitted manifest has a non-negative P0 range for all 42 rows and a threshold for exactly the declared ones |
| PairedDeclarations.ManifestAcceptedIff | benchmarks/ast-analysis-paired-runner.ts:313-445 | a manifest and a P0 reference are accepted exactly when they are proper: the earlier run that the stage and kind call for, and no other, equal commits exactly for a self comparison, one positive threshold for each declared row and no other, one reference row for each of the 42 rows with the range of its extremes |
| PairedDeclarations.AdmissionIsAsDeclared | benchmarks/ast-analysis-paired-runner.ts:486-503 | what admission derives: declared phases in their order, all six executed for a full profile, each row's own threshold and reference range, profile and sampling |
| PairedDeclarations.ReportAcceptedIff | benchmarks/ast-analysis-paired-runner.ts:1010-1088 | a raw report is accepted exactly when it is there and says what the manifest declares for its process: commit of its condition, clean, sampling, seed, phases, pair, scenarios, non-negative numbers, sinks, and without failure each executed row exactly once |
| PairedDeclarations.GoesThroughIffProper | benchmarks/ast-analysis-paired-runner.ts:1387-1455 | a run goes through exactly when every planned process exits 0 and reports as declared without failure, on the first one's machine, with its sinks up to key order, and the two of each pair measured the same policies, options, corpus and phases |
| PairedVerdicts.RunOrderAlternates | benchmarks/ast-analysis-paired-runner.ts:257-282 | the planned order has one or three pairs, numbered from 1; the first starts with the baseline and each next one the other way round |
| PairedRun.PairedRunner.RunAll | benchmarks/ast-analysis-paired-runner.ts:1387-1455 | the run loop over the mutable maps, sets and flags ends in the specified final state, for every outcome of the processes |
| PairedRun.PairedRunner.RunProcess | benchmarks/ast-analysis-paired-runner.ts:1388-1449 | one turn of the loop: validation, environment drift, failures, sinks, exit code, pair comparison |
| PairedRun.CompareReports | benchmarks/ast-analysis-paired-runner.ts:1107-1144 | the nested loops compute the deltas and mismatches of every executed row both reports have |
| PairedRunLaws.ComparisonOfRow | benchmarks/ast-analysis-paired-runner.ts:1112-1144 | for each executed row both reports have, with equal sinks, the delta carries both means and their difference, candidate minus baseline, rounded to nine decimals, and is favorable exactly when negative; with other sinks there is a mismatch showing both |
| PairedRunLaws.ExecutedIsPlannedPrefix | benchmarks/ast-analysis-paired-runner.ts:1388-1402 | the executed processes are a prefix of the planned order numbered from 1, and no turn but the last left the run stopped |
| PairedRunLaws.CleanTurn | benchmarks/ast-analysis-paired-runner.ts:1388-1449 | from a clean state a turn goes on exactly when its process is clean, and the state is again the clean one |
| PairedRunLaws.DeltaListsInOrder | benchmarks/ast-analysis-paired-runner.ts:1388-1449 | in every state of every run each row's delta list has strictly increasing pair indexes from completed comparisons, and an executed row without mismatch has one delta for each of them |
| PairedRunLaws.MismatchesAreShown | benchmarks/ast-analysis-paired-runner.ts:1417-1443 | in every state of every run exactly the mismatched rows have details; each shows two different sinks, and no finding is listed twice |
| PairedVerdicts.GoesThroughIffClean | benchmarks/ast-analysis-paired-runner.ts:1387-1455 | a run ends unstopped exactly when every process validates, exits 0 without failure, shares the first one's environment and sinks, and is measured like its partner |
| PairedVerdicts.RunsToFirstFault | benchmarks/ast-analysis-paired-runner.ts:1388-1392 | a run executes its planned order up to and including the first process that is not clean |
| PairedVerdicts.ClassifiedIff | benchmarks/ast-analysis-paired-runner.ts:284-302 | a row signals exactly when there are three deltas of one sign and at least two of their magnitudes exceed both guardrails |
| PairedVerdicts.ClassificationSymmetry | benchmarks/ast-analysis-paired-runner.ts:284-302 | negating the deltas swaps the two signals; reordering them changes nothing |
| PairedVerdicts.VerdictIff | benchmarks/ast-analysis-paired-runner.ts:1387-1462 | a row of an admitted manifest is repeatable_signal or adverse_signal exactly when the stage is confirmation, the phase is declared, the run is clean, and the three pairs' reports say so |
| PairedVerdicts.SignalMeansCompleteRun | benchmarks/ast-analysis-paired-runner.ts:1387-1462 | a signal implies confirmation of a real candidate with all six planned processes completed, exit 0, no failure, and sinks that agree with the first |
| PairedVerdicts.SignalMeansFaster | benchmarks/ast-analysis-paired-runner.ts:1112-1462 | a repeatable signal means that in every pair the candidate's mean of the row is below the baseline's, an adverse one that it is above |
| PairedVerdicts.CompleteRunsAgree | benchmarks/ast-analysis-paired-runner.ts:1415-1430 | in a complete run every executed row is in every report, with sinks equal up to key order |
| PairedVerdicts.MismatchQuarantines | benchmarks/ast-analysis-paired-runner.ts:1173-1296 | if either mismatch set is non-empty no row carries a performance verdict, and neither does the aggregate |
| PairedVerdicts.AggregateIsJoin | benchmarks/ast-analysis-paired-runner.ts:1309-1323 | the aggregate of two concatenated row lists is the join of their aggregates, and row order is irrelevant |
| PairedVerdicts.StatusIff | benchmarks/ast-analysis-paired-runner.ts:1455-1463 | a run is given a performance status exactly when it is a clean run of a real candidate, and outside confirmation only the neutral one |
| PairedVerdicts.MismatchReportedIff | benchmarks/ast-analysis-paired-runner.ts:1402-1430 | the status is semantic_mismatch exactly when the last executed process's report validates, has the first one's environment, and either names a mismatch in an executed phase or, without failure, has other sinks than the first report; any other stopped run is not_measured |
| PairedVerdicts.ScopedFailuresAreReported | benchmarks/ast-analysis-paired-runner.ts:1407-1413 | when processes name failures only in phases they were asked to run, the status is semantic_mismatch exactly when either mismatch set is non-empty |
| PairedVerdicts.OffScopeMismatchIsNotReported | benchmarks/ast-analysis-paired-runner.ts:1010-1088 | for every admission that leaves a phase out: a run whose report the validation accepts, that names a mismatch in that phase, and that ends not_measured |
| PairedReporting.RowShows | benchmarks/ast-analysis-paired-runner.ts:1163-1297 | what each row shows: mismatch and comparison by what the run has seen of it, its pairs and details, the manifest's threshold exactly for declared phases, and the reference's range |
| PairedReporting.DetailsAreReported | benchmarks/ast-analysis-paired-runner.ts:1415-1443 | in every state of every run, a mismatch detail shows two sinks that processes of the run reported for that row, the earlier or baseline one first, under the pair of the second |
| PairedReporting.DetailIsNoted | benchmarks/ast-analysis-paired-runner.ts:1325-1335 | noting a mismatch detail loses none, touches no other row, and leaves one with its pair and candidate sink, added last unless it was there |
| PairedReporting.EscalationIff | benchmarks/ast-analysis-paired-runner.ts:1501-1514 | what the record says should happen next, for every run: repair exactly when the last process failed or the runner gave up on it, reject on a mismatch, a full profile exactly on a repeatable signal, and otherwise by kind and stage |
| PairedReporting.FailuresAreRecorded | benchmarks/ast-analysis-paired-runner.ts:1516-1539 | the record's failures are exactly those of the processes that exited badly or reported a failure, and the runner's own exactly when it rejected the last report or could not compare it |
| PairedReporting.StartedForItsCondition | benchmarks/ast-analysis-paired-runner.ts:930-952 | a process is started on its own condition's checkout and told its condition, pair, candidate and profile |
| PairedReporting.PhasesAreJoined | benchmarks/ast-analysis-paired-runner.ts:947-951 | the phases a process is told are joined by commas, in order |
| PairedReporting.CommandsTellOfRuns | benchmarks/ast-analysis-paired-runner.ts:1464-1488 | the record has one command for each executed process, in order, with its place, exit code and paths, and the commit and environment of a report that could be read |
| PairedReporting.StemSays | benchmarks/ast-analysis-paired-runner.ts:942-944 | the files of a process are named by its two-digit number, its pair and its condition |
| PairedEvidence.RecordedArgsAreNormalized | benchmarks/ast-analysis-paired-runner.ts:943-952 | the arguments a process is started with, once the record has normalized them, are those a validator computes from the manifest |
| PairedEvidence.ArtifactsComplete | benchmarks/ast-analysis-paired-runner.ts:1491-1500 | the artifact index of a complete run has two entries per process and two more, all different and non-empty, and names every command's files |
| PairedEvidence.CleanRunLeaves | benchmarks/ast-analysis-paired-runner.ts:1464-1527 | a clean run of declared phases records no failure, its commands in planned order with exit 0, and a complete artifact index |
| PairedEvidence.ScreenAcceptedIff | benchmarks/ast-analysis-paired-runner.ts:635-786 | of all records the runner can write, a confirmation accepts exactly those of clean screens of a real candidate whose declarations and fingerprints it repeats |
| PairedEvidence.ConfirmationAcceptedIff | benchmarks/ast-analysis-paired-runner.ts:788-916 | of all records the runner can write, a full profile accepts exactly those of clean confirmations whose declarations and fingerprints it repeats |
| PairedEvidence.ConfirmationLinkIff | benchmarks/ast-analysis-paired-runner.ts:547-570 | with a log the runner alone writes, a confirmation is admitted exactly when the first record under its screenRunId is of a clean screen of a real candidate that it inherits from |
| PairedEvidence.FullProfileLinkIff | benchmarks/ast-analysis-paired-runner.ts:572-607 | with a log the runner alone writes, a full profile is admitted exactly when the first record under its confirmationRunId is of a clean confirmation and the first under that record's screenRunId of a clean screen, both inherited from |
| PairedEvidence.CleanScreenAdmitsConfirmation | benchmarks/ast-analysis-paired-runner.ts:547-570 | a clean screen appended under a new run id admits every confirmation that inherits from it |
| PairedEvidence.CleanCampaignAdmitsFullProfile | benchmarks/ast-analysis-paired-runner.ts:572-607 | a clean screen and a clean confirmation naming it, appended under new and different run ids, admit every full profile that names the confirmation and inherits from both |
| PairedAcceptance.ScreenProperIff | benchmarks/ast-analysis-paired-runner.ts:635-786 | of any records at all a confirmation accepts exactly the proper screens: the manifest's declarations and today's fingerprints, two good commands baseline first, six different artifacts with what each process left, each of the 42 rows once, declared ones neutral, matched, under the manifest's threshold with one pair, the others unmeasured |
| PairedAcceptance.ConfirmationProperIff | benchmarks/ast-analysis-paired-runner.ts:788-916 | of any records at all a full profile accepts exactly the proper confirmations: likewise with six good commands in alternating order, fourteen artifacts, a verdict and pairs 1, 2 and 3 in every declared row, and the status that the rows give |
| PairedAcceptance.InheritsFromIff | benchmarks/ast-analysis-paired-runner.ts:769-785 | inheriting from an earlier manifest means the same candidate, rationale, set of phases and set of thresholds, under the same fingerprints |
| PairedAcceptance.RecordRepeatsDeclarations | benchmarks/ast-analysis-paired-runner.ts:1534-1563 | the record of every run repeats the manifest's declarations, fingerprints, run ids, profile, sampling, planned order and executed phases |
| PairedExamples.CleanRunsExist | benchmarks/ast-analysis-paired-runner.ts:1387-1455 | every admission has a run that goes through |
| PairedExamples.CampaignsExist | benchmarks/ast-analysis-paired-runner.ts:547-607 | for every scope, log and two new run ids there is a whole campaign: a screen, a confirmation admitted by the log with the screen, and a full profile admitted by the log with both |

## Left out

- The SQL parser, formatter and rewriters, whose sources are not part of this model.
- Markdown, link and console output of the renderers: only the grouping of the diff is modelled.
- `ensureNamedParams` and prototype lookups: parameters are a map from names to values.
- Text is a sequence of characters; UTF-16 surrogate pairs and lone surrogates are not told apart, which no branch of the scanner looks at. The JSON printer escapes the quotation mark, the reverse solidus and the control characters.
- Numbers in JSON values are their printed numerals; NaN, infinities and negative zero, which print as other values, do not occur.
- A field that is `undefined` is an absent field, as `JSON.stringify` treats it.
- The checks of `validatePreviewJson` (`packages/test-evidence-core/src/preview.ts`): previews are typed values. Ids are assumed unique only where a law says so.
- The git references, commits and mode that a diff passes through unchanged.
- Titles, tags, focus, expectations and references of cases do not enter a case fingerprint, so a change in them alone is no update; `FingerprintsMeanSameEvidence` says so exactly.
- CaseGroups.GroupTable.GetOrCreateGroup: the source returns the shared group object for the caller to push on; here a group is an entry of a map that is replaced when it changes, and the aliasing is not modelled.
- InterleavedCalls.ConnectionsAreConserved: stated for providers that have a disposal hook or a release method; with neither, disposal does nothing and nothing is counted.
- Promises and the event loop: each awaited operation is one atomic step.
- Error messages, row reasons and signals: errors are constructors, and reasons repeat the status.
- Means, thresholds and ranges are real numbers; `Round9` rounds the exact value, not the floating-point one. Sampling statistics arrive in the reports.
- Spawning, git, hashing, reading and writing files, clocks: process outcomes, fingerprints, run ids and paths are inputs. A path relative to the root is what remains after the root; `..` is not modelled.
- The type checks the evidence validators make on parsed JSON (arrays, objects, strings, finite numbers): a record is a typed value in which they always hold. Candidates and thresholds are compared as values, which for records with fixed fields is what comparing their serializations decides.
- The phase and scenario names are enumerations; that a manifest names only known phases is therefore a typing fact.
- The admission file, `recordedAt`, the working-tree checks of `validateAdmission` and the tracked-file checks of `readCommittedRecords`: the log is a list of records.
- PairedDeclarations.GoesThroughIffProper: stated for reports in which no object has a key twice, as in every parsed JSON text.
- Benchmark drivers, demo pages, configuration and release scripts.
