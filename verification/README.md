# Registry MCP, verified

A Dafny model of the deterministic core of the homelab registry, and proofs of
what that core promises. Nothing here runs the program; every claim is a
contract that Dafny's verifier discharges.

What is modelled, by area:

- **Compose normalizer.** `Outline` reads the lines of a block-style document as
  a tree, independently of the formatter; `OutlinePaths` and `OutlineSplice` follow
  paths of keys in it. `Reorder` is `reorder_mapping` with its backward scans and
  slots; `ReorderMeaning` and `DataMeaning` show what moving the lines does to the
  tree and to what the document says. `KeyOrder`, `ApplyOrder`, `CanonicalForm` and
  `FormatOrder` compose the reorders of a file and say which are skipped, and
  `CanonicalFile` tells the outcome path by path. `Comments`
  and `ComposeText` are the comment scanner and the texts it reads. `Values` is the
  value stage and the canonical projection, `ValueStrings` what each value becomes in
  both and which values the projection tells apart, `ValueStageTwice` shows that the
  stage settles. `Pipeline` chains the guards of `normalize`, `escalate` and
  `_process_file` over arbitrary tools.
- **Registry reconciler.** `RegistryModel` (matching and merging one report),
  `RegistryStore` (the tables and the class that changes them), `RegistryRows`
  (provenance rows in closed form), `RegistryHistory` (runs against the history of
  passes), `RegistryCurated`, `RegistryReplay`, `RegistrySecondPass` and
  `RegistryConflict` (one theorem each); `RegistryReports` says what one report, one
  edit and one pass do column by column.
- **Single-shot gates.** `PatchApproval` and `DockhandGate` are the stores;
  `PatchProtocol` and `DockhandProtocol` interleave the steps of any number of
  clients with the clock; both refine `Latch`. `PatchTokens` traces every click back
  to the token it arrived with.
- **Hook coalescing.** `HookCoalescing`: the pass-complete hook between awaits.
- **Proposals.** `Proposals` is the engine, `ProposalHistory` its runs.
- **Key cache and dotenv codec.** `KeyCache`, `Dotenv`.
- `Wrappers`, `Text` and `PyDict` hold options and permutations, Python's string
  methods and insertion-ordered dictionaries.

Code that changes state step by step is a method or a class here, tied by its
`ensures` to a function of the old state; the theorems are about those functions.

Where the code and its comments differ, the code is modelled:

- The verifier's comments bound refetches, against tokens with made-up key ids; a
  fetch that fails leaves `_fetched_at` as it was, so only fetches that succeed are
  bounded (`KeyCache.AttemptsCloseOnlyAfterFailure`, `KeyCache.OutageIsUnbounded`).
- `escalate` reports a confidence below the threshold as a rejection, but NaN is
  not below anything: `float("nan")`, which `_as_float` also lets through, passes
  (`Pipeline.NaNPasses`).
- `check_dotenv_entry` promises one `.env` line but refuses only `\n` and `\r`;
  `str.splitlines` also breaks at eight other characters
  (`Dotenv.SetEntryRoundTrip`, `Dotenv.AcceptedValueLost`).
- `canonical_projection` is called safe on arbitrary YAML; on a service whose
  labels, ports or environment is a bare number, boolean, date or other scalar that
  is not a string it raises `TypeError` (`Values.ProjectionRaises`,
  `Values.BareLabelsRaise`), which escapes `normalize`, documented to return `None`
  where no safe result can be produced, and `_process_file` (`Pipeline.Normalize`,
  `Pipeline.ProcessFile`).
- The comment half of the guard counts on every line being terminated. `_dump`
  provides the last line feed; then it holds exactly of a text without a bare `\r`
  (`ComposeText.DumpedIsTerminated`, `Comments.UnterminatedLineGlued`).
- A conflict completed or cleared by hand is not judged until the next report
  (`RegistryConflict.LinkLeavesFlagDown`, `RegistryConflict.ReportRepairs`).

Verify with `dafny verify dfyconfig.toml`.

## Model

| member | source | states |
|---|---|---|
| Reorder.ReorderMapping | src/registry_mcp/normalization/formatter.py:289-351 | the whole of `reorder_mapping` after parsing, as the source's scans and loops, returns what the specification `Reordered` says: the text itself, a refusal, or the blocks in sorted slots |
| Reorder.FindTail | src/registry_mcp/normalization/formatter.py:311-320 | the end of the last block: back from the end of the mapping over loose lines, never past the last key |
| Reorder.FindStart | src/registry_mcp/normalization/formatter.py:322-332 | the start of each block: back over the comments and blank lines that lead the key, and for the first key over comments of a nested mapping only |
| Reorder.CutBlocks | src/registry_mcp/normalization/formatter.py:334-341 | the blocks are separator, comments and body, cut at exactly those rows |
| Reorder.JoinBlocks | src/registry_mcp/normalization/formatter.py:343-351 | the joined text is header, separators in their slots with the blocks put there, and the untouched tail |
| Reorder.BlockShape | src/registry_mcp/normalization/formatter.py:334-341 | a separator is blank lines only, a comment part starts with a comment, a body starts with its key, and no loose line ends a body above |
| Reorder.BlockTakesAllAbove | src/registry_mcp/normalization/formatter.py:307-341 | a later key takes with it every blank line and shallow comment above it, up to the first line that is neither |
| Reorder.FirstBlockTakes | src/registry_mcp/normalization/formatter.py:324-329 | the first key of a nested mapping takes the run of comments above it, and at the top level nothing |
| Reorder.LastBlockEnds | src/registry_mcp/normalization/formatter.py:311-320 | the last block ends with the mapping, which ends at the first shallower line with data or with the file, short of the blank lines and shallow comments there |
| Reorder.EdgesStay | src/registry_mcp/normalization/formatter.py:343-349 | the lines above the first block and below the last one stay |
| Reorder.SlotHolds | src/registry_mcp/normalization/formatter.py:343-347 | slot `j` of the output is its own separator followed by the comment and body of the key moved there, contiguous |
| Reorder.Tiles | src/registry_mcp/normalization/formatter.py:334-341 | in the input order the blocks are the lines they were cut from, with nothing lost between them |
| Reorder.MovedPermutes | src/registry_mcp/normalization/formatter.py:343-350 | the output is a permutation of the input lines, so the final length check never fails |
| OutlineSplice.SpliceReplaces | src/registry_mcp/normalization/formatter.py:343-351 | splicing rearranged lines at a path replaces the children of that node in the tree read from the text and nothing else |
| OutlinePaths.LocateKids | src/registry_mcp/normalization/formatter.py:266-272 | the rows located for a path hold exactly the children the tree has there |
| Outline.TwoLines | src/registry_mcp/normalization/formatter.py:266-272 | a deeper line is below the line above it, and so is an item in the column of a key; any other line is beside it |
| ReorderMeaning.EndIsRegionEnd | src/registry_mcp/normalization/formatter.py:311-317 | the formatter's scan for the end of a nested mapping stops exactly where the tree says the mapping ends |
| ReorderMeaning.BlockHolds | src/registry_mcp/normalization/formatter.py:334-341 | a block carries no data before its key, and its body reads as exactly that key's node |
| ReorderMeaning.AssembleReads | src/registry_mcp/normalization/formatter.py:343-347 | whatever blocks stand in the slots, the nodes read are theirs, slot by slot |
| ReorderMeaning.MoveReordersKeys | src/registry_mcp/normalization/formatter.py:275-351 | the document read from the output is the old one with the children at the path in the new order and nothing else changed, and the mapping fills the same rows |
| DataMeaning.StepKeepsData | src/registry_mcp/normalization/formatter.py:275-351 | one reorder, under any sort key, leaves what the document says unchanged when mapping order means nothing and item order does |
| DataMeaning.AllStepsKeepData | src/registry_mcp/normalization/formatter.py:368-381 | all reorders together leave it unchanged even if the guard lets everything through |
| KeyOrder.RankLeOrder | src/registry_mcp/normalization/rules.py:83-108 | the sort keys are totally ordered |
| KeyOrder.KeyRankTies | src/registry_mcp/normalization/rules.py:83-93 | among service keys and labels, which are strings here, no two different keys tie, and a listed key comes before every unlisted one |
| KeyOrder.TopRankTies | src/registry_mcp/normalization/rules.py:96-108 | at the top level only extension fields tie, so only their order is left to the input |
| KeyOrder.ServiceKeysInOrder | src/registry_mcp/normalization/rules.py:45-60 | the fourteen service keys, each strictly before the next, and the last strictly before any other key |
| KeyOrder.TopKeysInOrder | src/registry_mcp/normalization/rules.py:96-108 | `name`, then extension fields as they stand, then the five sections in turn, then the rest by name |
| KeyOrder.ListedOrder | src/registry_mcp/normalization/rules.py:83-93 | of two listed keys the one listed earlier comes strictly first; unlisted keys are ordered by name |
| KeyOrder.StringLeIs | src/registry_mcp/normalization/rules.py:83-93 | names compare at the first code point in which they differ, and a name comes before its extensions |
| KeyOrder.StableOrderSorts | src/registry_mcp/normalization/formatter.py:292-293 | the computed order is a permutation, sorted, and equal ranks keep their relative order |
| KeyOrder.SortedStays | src/registry_mcp/normalization/formatter.py:294-295 | the early return is taken exactly when the keys are already in order |
| ApplyOrder.StepSorts | src/registry_mcp/normalization/formatter.py:275-351 | a reorder that does not refuse leaves the mapping at its path in canonical order (its own order if it merges another), and the rest of the tree as it was |
| ApplyOrder.RunSteps | src/registry_mcp/normalization/formatter.py:368-381 | the loop of `_apply_order` is the chain of guarded steps, with the rules it skipped |
| ApplyOrder.ElsewhereSame | src/registry_mcp/normalization/formatter.py:368-381 | reordering one mapping leaves the keys of every other mapping, found by path, as they were |
| ApplyOrder.AllSorted | src/registry_mcp/normalization/formatter.py:354-381 | when no rule is skipped every mapping named by a step holds at the end the stable sort of the keys it had at the start: a later step undoes no earlier one |
| ApplyOrder.OthersKept | src/registry_mcp/normalization/formatter.py:368-381 | mappings that no step names keep their keys in their order |
| ApplyOrder.AppliedTwice | src/registry_mcp/normalization/formatter.py:368-381 | running the same steps on their own result changes nothing and skips nothing |
| CanonicalForm.StepsDistinct | src/registry_mcp/normalization/formatter.py:354-365 | the steps asked for name pairwise different mappings, none of them `services` |
| CanonicalForm.ApplyAllOrders | src/registry_mcp/normalization/formatter.py:368-381 | `_apply_order` on a well-keyed text: if it skips nothing the result is canonical everywhere, and applying it to the result changes nothing |
| CanonicalForm.OnePassIsCanonical | src/registry_mcp/normalization/formatter.py:354-381 | after a pass without a skipped rule the top level, every service and every labels mapping are canonical at the same time |
| CanonicalForm.StepsSame | src/registry_mcp/normalization/formatter.py:354-365 | the ordered text asks for exactly the steps the text asked for |
| CanonicalForm.SecondPassIdle | src/registry_mcp/normalization/formatter.py:368-381 | ordering an ordered file changes no line and skips no rule |
| CanonicalFile.TopLevelInOrder | src/registry_mcp/normalization/formatter.py:354-381 | unless N-005 is skipped the keys of the top level are their stable sort, unless it merges another mapping |
| CanonicalFile.ServicesInOrder | src/registry_mcp/normalization/formatter.py:358-365 | unless N-006 is skipped the keys of every service written as a mapping are their stable sort by the service order |
| CanonicalFile.LabelsInOrder | src/registry_mcp/normalization/formatter.py:363-365 | unless N-009 is skipped the labels of every such service, where they are a mapping, are sorted by name |
| CanonicalFile.OtherMappingsStay | src/registry_mcp/normalization/formatter.py:354-381 | whatever is skipped, every other mapping keeps its keys in their order, the list of services among them |
| CanonicalFile.SkippedRules | src/registry_mcp/normalization/formatter.py:354-381 | no rule but those three is ever skipped |
| CanonicalFile.SkippedWhenOutOfLine | src/registry_mcp/normalization/formatter.py:289-303 | under a guard that asks no more than the same data and comments, each of the three rules is skipped if and only if one of its own mappings is out of order with its keys in more than one column |
| FormatOrder.GivesUpExactly | src/registry_mcp/normalization/formatter.py:289-303 | `reorder_mapping` refuses if and only if the mapping has two keys or more, merges none, is out of order and has keys in different columns |
| FormatOrder.SkippedExactly | src/registry_mcp/normalization/formatter.py:368-381 | under a guard that, among the rearrangements of the text that say what it says, asks no more than the same data and the same comments, the rules skipped are exactly those of the mappings refused in the text as it was |
| FormatOrder.SkipsOnlyMisaligned | src/registry_mcp/normalization/formatter.py:354-381 | for a whole file and such a guard: no rule is skipped if and only if no mapping to be ordered is both out of order and misaligned |
| FormatOrder.AlignedIsOrdered | src/registry_mcp/normalization/formatter.py:354-381 | under such a guard an aligned file comes out with no rule skipped, canonical everywhere, saying what it said with the same comments, and ordering it again changes nothing |
| FormatOrder.AlignedUnderKept | src/registry_mcp/normalization/formatter.py:354-381 | the same for the guard that asks for the same data and the same comments, with nothing assumed of it |
| FormatOrder.ChainIsApplied | src/registry_mcp/normalization/formatter.py:368-381 | unless a check raises, the chain of guarded texts is the chain of guarded lines written out, with the same rules skipped |
| FormatOrder.ChainReturns | src/registry_mcp/normalization/formatter.py:368-381 | with a projection that is defined on the text and alike on its rearrangements that say the same, no check in the chain raises |
| FormatOrder.FormatterSkipsOnlyMisaligned | src/registry_mcp/normalization/formatter.py:368-381 | with such a projection the formatter's own guard refuses no reorder: exactly the misaligned mappings are skipped, and an aligned text comes out canonical and stays as it is when ordered again |
| FormatOrder.SaysReadsData | src/registry_mcp/normalization/rules.py:171-206 | reading all that a document says, and nothing else, is such a projection |
| FormatOrder.SaysTellsApart | src/registry_mcp/normalization/rules.py:171-206 | and it tells texts apart: any two different lines with data say different things |
| Comments.CountComments | src/registry_mcp/normalization/formatter.py:102-135 | the nested loops count exactly the comments the line scanner finds, line by line |
| Comments.FindComment | src/registry_mcp/normalization/formatter.py:113-134 | the inner loop with its quote, escape and previous-character state finds the first comment of the line |
| Comments.CommentAfterPlain | src/registry_mcp/normalization/formatter.py:115-135 | after text without quotes and `#`, a `#` that follows a blank starts the comment, which is the stripped rest of the line |
| Comments.GluedMarkIsPlain | src/registry_mcp/normalization/formatter.py:118-131 | a `#` glued to such text starts none |
| Comments.CommentAfterQuoted | src/registry_mcp/normalization/formatter.py:119-135 | in a quoted value no `#` starts a comment; the one after the closing quote does |
| Comments.ApostropheIsPlain | src/registry_mcp/normalization/formatter.py:128-129 | a quote where no scalar can start opens nothing |
| Comments.CommentsPermuted | src/registry_mcp/normalization/formatter.py:102-135 | the comment multiset depends only on the multiset of lines |
| Comments.CommentsSurviveReordering | src/registry_mcp/normalization/formatter.py:102-140 | lines that end in any boundary other than a bare `\r` can be written in any order without gaining or losing a comment |
| Comments.UnterminatedLineGlued | src/registry_mcp/normalization/formatter.py:102-135 | without a boundary the claim fails: a last line moved up is glued to its neighbour and scanned as one line |
| Comments.GluedCommentLost | src/registry_mcp/normalization/formatter.py:102-135 | so a file that ends in an unterminated comment line loses that comment when the line moves up |
| Text.BareReturnGlued | src/registry_mcp/normalization/formatter.py:305-351 | a line that ends in a bare `\r` is glued to a blank line that comes to stand after it |
| ComposeText.DumpedIsTerminated | src/registry_mcp/normalization/formatter.py:242-248 | after the line feed the dumper ends with, the lines of its text are all terminated if and only if it has no bare `\r` |
| ComposeText.LinesAre | src/registry_mcp/normalization/formatter.py:254-263 | a line that starts, after its spaces, with `#` is a comment and any other a line with data, an item if it starts with a dash of its own; its indent is the number of those spaces |
| ComposeText.BlankLinesAre | src/registry_mcp/normalization/formatter.py:254-255 | a line of white space is blank |
| ComposeText.PermutedTextReads | src/registry_mcp/normalization/formatter.py:305-351 | permuted lines are written and split back into the same lines, with the same comments |
| ComposeText.ReorderKeepsComments | src/registry_mcp/normalization/formatter.py:138-140 | every reorder that does not refuse passes the comment half of the guard |
| ComposeText.AllStepsKeepComments | src/registry_mcp/normalization/formatter.py:368-381 | and so do all of them in a row, whatever the guard lets through |
| Values.ComposeDoc.RemoveVersion | src/registry_mcp/normalization/formatter.py:146-153 | `version:` goes, unless a comment sits on it, which skips the rule |
| Values.ComposeDoc.ApplyValues | src/registry_mcp/normalization/formatter.py:230-239 | the document and the skipped rules are those of the value stage, service by service |
| Values.ApplyToFields | src/registry_mcp/normalization/formatter.py:177-239 | labels, ports and environment of one service, each by its own rule, nothing else touched |
| Values.EnvValueReadsBack | src/registry_mcp/normalization/formatter.py:204-212 | whatever the parser does with a plain value, what is written reads back as the string it was |
| Values.CommentsMove | src/registry_mcp/normalization/formatter.py:156-174 | a converted list keeps each entry's comment on the entry that replaces it, and invents none |
| Values.ValueStagePreservesProjection | src/registry_mcp/normalization/formatter.py:146-239 | the value stage leaves the canonical projection of every compose document unchanged, raising included |
| ValueStrings.LabelsStaged | src/registry_mcp/normalization/formatter.py:188-189 | labels written as a mapping keep their keys, and each value becomes the string Compose makes of it: `true`, `false`, nothing for null, a string itself |
| ValueStrings.LabelListStaged | src/registry_mcp/normalization/formatter.py:177-189 | labels written as a list become the mapping of what stands before and after the first `=`, or are left and N-007 skipped if and only if a key is repeated or a comment has nowhere to go |
| ValueStrings.VariableListStaged | src/registry_mcp/normalization/formatter.py:215-227 | variables written as a list likewise, under N-011; a name without `=` keeps no value |
| ValueStrings.PortsStaged | src/registry_mcp/normalization/formatter.py:192-201 | a port written as a number becomes its string and every other entry is left |
| ValueStrings.OthersUnstaged | src/registry_mcp/normalization/formatter.py:177-227 | labels that are neither a list nor a mapping, and ports and variables that are no list, are left, and no rule is skipped for them |
| ValueStrings.FieldStaged | src/registry_mcp/normalization/formatter.py:230-239 | each of the three fields goes through its own rule and every other field is left |
| ValueStrings.ServiceStaged | src/registry_mcp/normalization/formatter.py:233-238 | in a service that is a mapping every field goes its way in its place; any other service is left |
| ValueStrings.TopStaged | src/registry_mcp/normalization/formatter.py:230-239 | that happens to every service and to nothing else at the top level |
| ValueStrings.VersionDropped | src/registry_mcp/normalization/formatter.py:146-153 | of the top-level entries exactly `version:` is dropped |
| ValueStrings.LabelsProjected | src/registry_mcp/normalization/rules.py:122-134 | a label is projected to the string Compose makes of it, under the string Python makes of its key |
| ValueStrings.VariablesProjected | src/registry_mcp/normalization/rules.py:146-157 | a variable likewise, and one without a value to none |
| ValueStrings.KeysProjected | src/registry_mcp/normalization/rules.py:122-157 | no key is projected that none of the entries has |
| ValueStrings.NothingProjected | src/registry_mcp/normalization/rules.py:122-157 | a field without a value is projected as an empty one |
| ValueStrings.LabelListProjected | src/registry_mcp/normalization/rules.py:122-134 | labels in list form are projected by what stands before and after the first `=`, the last entry of a key counting |
| ValueStrings.VariableListProjected | src/registry_mcp/normalization/rules.py:146-157 | variables in list form likewise, and to no value without `=` |
| ValueStrings.PortsProjected | src/registry_mcp/normalization/rules.py:137-143 | ports are projected in place, long syntax as it is and the rest to their strings |
| ValueStrings.DocumentsTellLabels | src/registry_mcp/normalization/rules.py:195-206 | two documents that differ in the value of one label have the same projection if and only if Compose makes the same string of both values |
| ValueStrings.DocumentsTellVariables | src/registry_mcp/normalization/rules.py:195-206 | two documents that differ in one variable likewise, where no value is not the empty string |
| ValueStageTwice.StagedTwice | src/registry_mcp/normalization/formatter.py:146-239 | reshaping a reshaped document changes nothing more and skips the same rules again |
| Values.ProjectionIdempotent | src/registry_mcp/normalization/rules.py:171-192 | projecting a projection changes nothing |
| Values.ProjectionRaises | src/registry_mcp/normalization/rules.py:122-192 | the projection is defined on a compose document if and only if no service has a scalar other than a string or null as its labels, ports or environment |
| Values.BareLabelsRaise | src/registry_mcp/normalization/rules.py:122-134 | a service with `labels: 5` makes the projection of any compose document raise |
| Pipeline.ApplyOrder | src/registry_mcp/normalization/formatter.py:368-381 | each reorder is taken only if it keeps the meaning of the text before it; the rules refused are listed in order; a check that raises ends the loop |
| Pipeline.ChainKeepsMeaning | src/registry_mcp/normalization/formatter.py:368-381 | however many guarded steps go through, the last text means what the first did |
| Pipeline.Normalize | src/registry_mcp/normalization/formatter.py:384-431 | a result means what the input meant, keeps every comment, passes the linter and lists at least the rules the value stage skipped; an exception escapes if and only if the text and its reshaped form are YAML and the projection of one of them raises |
| Pipeline.ReturnsExactly | src/registry_mcp/normalization/formatter.py:384-431 | a result is returned if and only if the value stage keeps the meaning, the reorders return and the linter passes: the text they left, whether it differs, and all rules skipped |
| Pipeline.EquivalentIs | src/registry_mcp/normalization/formatter.py:138-140 | the guard passes if and only if both texts are YAML with defined and equal projections and the same comments, and raises exactly as stated |
| Pipeline.EscalateIsSafe | src/registry_mcp/normalization/generator.py:77-136 | only an answer equivalent to the current file, without tabs and with a confidence not below the threshold is let through; that confidence is at the threshold or above if and only if it is not NaN |
| Pipeline.EscalateAccepts | src/registry_mcp/normalization/generator.py:77-136 | an answer is let through if and only if its confidence is a number at the threshold or above, infinite or NaN, it is not blank once scrubbed, and it is equivalent; what is let through is the answer scrubbed and without tabs |
| Pipeline.EscalateRaises | src/registry_mcp/normalization/generator.py:105-126 | an exception escapes if and only if an answer passes the gates before the equivalence check and the projection of the file or of the answer raises |
| Pipeline.NaNPasses | src/registry_mcp/normalization/generator.py:105-106 | an answer whose confidence is NaN passes the confidence gate whatever the threshold |
| Pipeline.UntabbedHasNoTab | src/registry_mcp/normalization/generator.py:116-116 | replacing tabs leaves none and changes exactly the texts that had one |
| Pipeline.TabsReplaced | src/registry_mcp/normalization/generator.py:116-116 | each tab becomes two spaces and every other character stays |
| Pipeline.DirectoryOf | src/registry_mcp/normalization/engine.py:119-123 | the directory of a path is what precedes its last slash |
| Pipeline.ProcessFile | src/registry_mcp/normalization/engine.py:114-162 | case by case which content is proposed, with which confidence and under which path: as formatted with certainty if nothing was skipped, else as the reasoning layer answers if it is let through, else as formatted, and a file that does not format only as such an answer; nothing is proposed exactly if the file is not compose, does not format and is not escalated, or would stay as it is; the content is equivalent to the file's, and one the reasoning layer did not write keeps every comment |
| RegistryModel.ProvenanceUpdates | src/registry_mcp/registry/reconcile.py:48-107 | the dictionary of updates lists, in order, exactly the columns in which the service after the report differs from the service before |
| RegistryModel.MergeIsItsUpdates | src/registry_mcp/registry/store.py:380-391 | writing those updates one by one yields the merged service and touches no other column |
| RegistryModel.DedupeSame | src/registry_mcp/registry/reconcile.py:78-79 | `dict.fromkeys` keeps every URL once and adds none |
| RegistryReports.ReportNames | src/registry_mcp/registry/reconcile.py:52-59 | an absent or empty router, slug or host leaves the old one, any other replaces it, and a slug linked by hand stays |
| RegistryReports.ReportSetsModes | src/registry_mcp/registry/reconcile.py:60-94 | a report without a mode, or with `unknown`, changes no mode; any other is kept in the column of its own source, and becomes the mode of the service unless it is a bare Traefik report |
| RegistryReports.BareReportDemotes | src/registry_mcp/registry/reconcile.py:65-76 | Traefik seeing no middleware leaves the mode alone if and only if Authentik reported forward auth or an OAuth2 proxy; otherwise the mode becomes none |
| RegistryReports.ReportAddsUrls | src/registry_mcp/registry/reconcile.py:77-81 | known URLs change nothing; otherwise the list holds the old and the new URLs, each once |
| RegistryReports.NewUrlsLast | src/registry_mcp/registry/reconcile.py:78-79 | new URLs follow the old ones, in the order of the report |
| RegistryReports.ReportJudges | src/registry_mcp/registry/reconcile.py:96-105 | the verdict of one report, over the router, slug and modes then in force, with the proxy modes written out |
| RegistryStore.CollectHosts | src/registry_mcp/registry/reconcile.py:23-29 | the hosts of a list of URLs |
| RegistryStore.Store.CreateService | src/registry_mcp/registry/store.py:134-157 | refuses exactly a name in use; otherwise appends the service, its manual row and a creation event |
| RegistryStore.Store.UpdateService | src/registry_mcp/registry/store.py:184-213 | writes and logs exactly the named mutable columns whose value changes |
| RegistryReports.EditsWrite | src/registry_mcp/registry/store.py:194-208 | each column ends with the value of its last edit, a column without one keeps its own, and `stale` cannot be edited |
| RegistryReports.EditsOne | src/registry_mcp/registry/store.py:184-213 | the edits reach the one service with that id; every other service, all rows and the ids stay |
| RegistryStore.Store.DeleteService | src/registry_mcp/registry/store.py:215-234 | removes the service and all its rows, and logs the deletion |
| RegistryReports.DeletionTakesOne | src/registry_mcp/registry/store.py:215-234 | the services left are all but the one with that id |
| RegistryReports.DeletionTakesRows | src/registry_mcp/registry/store.py:215-234 | the rows left are all but its rows |
| RegistryStore.Store.UpsertSource | src/registry_mcp/registry/store.py:422-451 | the source's row for the service is created or reset to no missed pass |
| RegistryStore.Store.TakeExisting | src/registry_mcp/registry/store.py:380-406 | merges one report, logs each change, revives a stale service |
| RegistryStore.Store.Reconcile | src/registry_mcp/registry/store.py:305-419 | a whole pass leaves the tables and reports the counts of the specification |
| RegistryReports.PassCounts | src/registry_mcp/registry/store.py:331-419 | the services created are those by which the table and its ids grow, and no candidate counts both as created and as changed |
| RegistryReports.MissingCounted | src/registry_mcp/registry/store.py:462-475 | the rows that missed are exactly the rows of the source whose service was not seen |
| RegistryReports.HintDecides | src/registry_mcp/registry/store.py:334-336 | a candidate that matches nothing goes to the service that the reasoning layer names, if it names one there is, and is new otherwise |
| RegistryReports.MatchDecides | src/registry_mcp/registry/store.py:333-336 | a candidate that matches is never handed to the reasoning layer |
| RegistryReports.FirstReportHolds | src/registry_mcp/registry/store.py:337-368 | a new service holds what the report says, with the stated defaults, and starts neither stale nor in conflict |
| RegistryReports.FirstReportEnriched | src/registry_mcp/registry/store.py:337-368 | where the reasoning layer filled something in it stands, and everywhere else the report does |
| RegistryReports.FirstReportSettles | src/registry_mcp/registry/store.py:337-391 | the same report once more changes a new service exactly if the reasoning layer had named another mode |
| RegistryStore.Store.MarkStale | src/registry_mcp/registry/store.py:453-495 | the rows not seen are counted and marked one by one |
| RegistryStore.NoUpdatesNoChange | src/registry_mcp/registry/store.py:392-393 | a service counts as changed exactly when the merge changes it |
| RegistryRows.UpsertedView | src/registry_mcp/registry/store.py:422-451 | after the upsert the source has one row at zero, and every other row is as it was |
| RegistryRows.MarkFromIs | src/registry_mcp/registry/store.py:462-495 | the marking loop in closed form: which counters rise, and which services turn stale |
| RegistryRows.StaleIsLost | src/registry_mcp/registry/store.py:476-485 | after marking, a service is stale exactly when every discovery source with a row for it has missed it often enough |
| RegistryHistory.MissedSinceIs | src/registry_mcp/registry/store.py:470-474 | a counter at `n` or more is the same as `n` last passes that all missed the service |
| RegistryHistory.PerformAll | src/registry_mcp/registry/store.py:134-495 | whatever edits and passes are made on a new store, its tables are those of the run that the theorems below are about |
| RegistryHistory.CountersFollowHistory | src/registry_mcp/registry/store.py:305-495 | in every run each source's counter is the number of its passes since it last saw the service, and there is a row exactly if one of them did |
| RegistryHistory.StaleFollowsHistory | src/registry_mcp/registry/store.py:453-495 | in every run a service is stale if and only if some discovery source reported it and each that did missed it in all of its last `threshold` passes |
| RegistryHistory.TablesStayKeyed | src/registry_mcp/registry/store.py:134-157 | in every run names and ids are distinct, each service and source has at most one row, and no row outlives its service |
| RegistryCurated.PassEnriches | src/registry_mcp/registry/reconcile.py:48-79 | over a whole pass URL sets only grow, and curated columns and a slug linked by hand do not change |
| RegistryReplay.LogReplays | src/registry_mcp/registry/store.py:106-132 | in every run the events of each column replay from its value at creation, each starting where the last ended and changing it, to its present value; deleted services included |
| RegistryReplay.ReplayMerge | src/registry_mcp/registry/store.py:380-391 | the events of one report, replayed, give the merged service |
| RegistrySecondPass.MergeTwice | src/registry_mcp/registry/reconcile.py:48-107 | merging the same report twice is merging it once |
| RegistrySecondPass.MatchIsFinds | src/registry_mcp/registry/reconcile.py:32-45 | the three-level match, characterised by what holds of the services before the one found |
| RegistrySecondPass.SettledBesideKnown | src/registry_mcp/registry/reconcile.py:32-45 | a candidate merged elsewhere does not change what another candidate finds |
| RegistrySecondPass.SecondPassIdle | src/registry_mcp/registry/store.py:331-419 | an immediate second pass of candidates that are apart and hit different services finds the same services, creates and changes nothing, and logs nothing about a service it saw |
| RegistryConflict.ConflictIsExact | src/registry_mcp/registry/reconcile.py:96-105 | in every run without hand edits of the columns involved, the flag holds exactly when router, slug and both modes are known and Traefik sees none where Authentik enforces a proxy mode |
| RegistryReports.FlagMeansAtOdds | src/registry_mcp/registry/reconcile.py:96-105 | in every run without hand edits of the columns involved, the flag is up exactly for a service with a router and a slug where Traefik reported no auth and Authentik forward auth or an OAuth2 proxy |
| RegistryConflict.ReportsAddUp | src/registry_mcp/registry/reconcile.py:54-105 | any number of bare-route and proxy reports, in any order, add up to the proxy's mode, both observations and a true verdict |
| RegistryConflict.OrderDoesNotMatter | src/registry_mcp/registry/reconcile.py:54-105 | one report of each kind leaves the same auth columns in either order |
| RegistryConflict.RepeatsAreQuiet | src/registry_mcp/registry/reconcile.py:81-94 | repeating both reports, however often, changes no auth column |
| RegistryConflict.RepeatsLogNothing | src/registry_mcp/registry/reconcile.py:81-105 | and produces no update of one |
| RegistryConflict.ReportRepairs | src/registry_mcp/registry/reconcile.py:96-105 | after a hand edit the next report makes the flag right if and only if the service is then linked with both modes known, or the flag was down |
| RegistryConflict.EditLeavesConflict | src/registry_mcp/registry/store.py:194-208 | an update of a stored mode that clears the conflict leaves the flag raised |
| RegistryConflict.LinkLeavesFlagDown | src/registry_mcp/tools/linking.py:54-68 | linking an application by hand to a service whose modes already conflict leaves the flag down |
| Latch.Settled | src/registry_mcp/patching/store.py:146-183 | an abstract single-shot latch that has been resolved stays as it is |
| Latch.TakenOnce | src/registry_mcp/integrations/dockhand/gate.py:114-156 | it is taken at most once, and never after it was shut |
| PatchApproval.PatchApprovalStore.Check | src/registry_mcp/patching/store.py:124-144 | which of the four answers a token gets and for which approval: for approving the one whose approve token it is, for cancelling the one whose cancel token it is |
| PatchApproval.PatchApprovalStore.Consume | src/registry_mcp/patching/store.py:146-183 | alone, a click is valid exactly if its approval is pending and unexpired at both clock readings, and then that row alone moves, to approved or cancelled; where tokens are apart, a token used for the other action is invalid and changes nothing |
| PatchApproval.LookupFinds | src/registry_mcp/patching/store.py:128-137 | where tokens are apart a row is found by its approve token for approving, by its cancel token for cancelling, and crosswise not at all |
| PatchApproval.PatchApprovalStore.Expire | src/registry_mcp/patching/store.py:204-214 | a pending approval is marked expired; any other is left as it is |
| PatchApproval.PatchApprovalStore.RecordOutcome | src/registry_mcp/patching/store.py:185-202 | the outcome is written and the first resolution time kept |
| PatchApproval.PatchApprovalStore.PurgeExpired | src/registry_mcp/patching/store.py:216-230 | exactly the pending approvals past their expiry are marked, and counted |
| PatchProtocol.AtMostOneValid | src/registry_mcp/patching/store.py:146-183 | under any interleaving at most one click per approval is answered `valid` |
| PatchProtocol.WinnerInTime | src/registry_mcp/patching/store.py:163-176 | the winner's clock reading is strictly before the expiry, and the row is off pending |
| PatchProtocol.UsedIsResolved | src/registry_mcp/patching/store.py:177-183 | `used` is answered only for a row that is off pending |
| PatchProtocol.RunsOnce | src/registry_mcp/webhooks/approval.py:257-313 | the executor starts at most once per approval, and only if an Approve click won it |
| PatchTokens.RunsWereApproved | src/registry_mcp/webhooks/approval.py:257-313 | in every run, each executor that ran was started by a click that had arrived with the approve token of that approval |
| PatchTokens.ValidMeansOwnToken | src/registry_mcp/patching/store.py:146-183 | in every run a click answered `valid` had arrived with the token of that approval for that action |
| PatchTokens.StrangersResolveNothing | src/registry_mcp/patching/store.py:124-144 | a click that arrived with no approval's token for its action never resolves one |
| PatchTokens.ClaimSetsStatus | src/registry_mcp/patching/store.py:157-176 | the conditional update moves a pending row in time, to approved for an approve click and to cancelled for a cancel click, and no other |
| PatchTokens.LookedUp | src/registry_mcp/patching/store.py:124-137 | a token of 1 to 128 characters that opens an approval for that action goes on with it, and any other is invalid |
| PatchTokens.SecondLook | src/registry_mcp/patching/store.py:177-183 | a click whose update moved nothing finds its approval lapsed if it is still pending and used otherwise |
| PatchTokens.FirstLook | src/registry_mcp/patching/store.py:138-144 | what the first look makes of a row and the clock |
| PatchTokens.FinishRecords | src/registry_mcp/patching/store.py:185-202 | the end of an executor is recorded on its row and the time of the click stays |
| PatchProtocol.ResolvedOtherwiseNeverRuns | src/registry_mcp/webhooks/approval.py:234-313 | an approval cancelled or expired at some moment never runs after it |
| PatchProtocol.RefinesLatch | src/registry_mcp/patching/store.py:146-214 | every step of the protocol is a step of the latch, for every approval |
| PatchProtocol.RunIsLatch | src/registry_mcp/patching/store.py:146-214 | every run, seen from one approval, is a behaviour of the latch, and a click answered `valid` at any moment of it is who took it |
| DockhandGate.DockhandActionGateStore.Resolve | src/registry_mcp/integrations/dockhand/gate.py:90-112 | the conditional update moves a pending row, unexpired if asked, and says whether it did |
| DockhandGate.DockhandActionGateStore.Confirm | src/registry_mcp/integrations/dockhand/gate.py:114-156 | alone, a confirm claims exactly a pending, unexpired, correctly answered challenge; a wrong answer or an expiry closes it |
| DockhandGate.DockhandActionGateStore.RequestAction | src/registry_mcp/integrations/dockhand/gate.py:58-84 | the action is stored pending, with its challenge, and nothing else changes |
| DockhandGate.DockhandActionGateStore.Finish | src/registry_mcp/integrations/dockhand/gate.py:158-170 | an executing row gets its outcome; any other row is left as it is |
| DockhandGate.DockhandActionGateStore.PurgeExpired | src/registry_mcp/integrations/dockhand/gate.py:172-184 | exactly the pending challenges past their expiry are closed, and counted |
| DockhandProtocol.AtMostOneReturns | src/registry_mcp/integrations/dockhand/gate.py:114-156 | under any interleaving of confirms, purges and clock ticks at most one confirm of a challenge returns |
| DockhandProtocol.WinnerWasRight | src/registry_mcp/integrations/dockhand/gate.py:137-151 | the one that returns answered correctly, and claimed strictly before the expiry |
| DockhandProtocol.AnswerJudged | src/registry_mcp/integrations/dockhand/gate.py:131-140 | of a row that was pending, the sum of its two numbers in time goes on to the claim; anything else closes it as expired or wrong |
| DockhandProtocol.UpdateIsConditional | src/registry_mcp/integrations/dockhand/gate.py:90-112 | a claim moves exactly a pending row in time, and a closing exactly a pending one |
| DockhandProtocol.RunsTheStoredAction | src/registry_mcp/integrations/dockhand/actions.py:156-198 | each challenge's action runs at most once and is the one asked for in the request that made the challenge |
| DockhandProtocol.ClosedNeverRuns | src/registry_mcp/integrations/dockhand/gate.py:131-143 | a challenge closed by a wrong answer or by expiry never runs, whatever follows |
| DockhandProtocol.FinishMovesExecutingOnly | src/registry_mcp/integrations/dockhand/gate.py:158-170 | `finish` moves an executing row claimed by its caller and no other |
| DockhandProtocol.RefinesLatch | src/registry_mcp/integrations/dockhand/gate.py:90-184 | every step is a step of the same latch |
| DockhandProtocol.RunIsLatch | src/registry_mcp/integrations/dockhand/gate.py:90-184 | every run, seen from one challenge, is a behaviour of the latch, and a confirm that returned at any moment of it is who took it |
| DockhandProtocol.RequestsAreAsked | src/registry_mcp/integrations/dockhand/gate.py:58-84 | the requests on record after a run are those made in it, in order |
| HookCoalescing.PassHook.PassComplete | src/registry_mcp/discovery/engine.py:190-204 | a request sets the flag, and takes the lock and starts a run if no run is in progress |
| HookCoalescing.PassHook.EnterLoop | src/registry_mcp/discovery/engine.py:202-204 | the loop runs the hook again while a request is pending, and releases the lock when none is |
| HookCoalescing.PassHook.HookReturned | src/registry_mcp/discovery/engine.py:204-211 | when a run returns or raises, another starts if one was asked for, else the lock is released |
| HookCoalescing.OneRunAtATime | src/registry_mcp/discovery/engine.py:190-211 | at every await at most one run is in progress, the lock is held exactly then, and the flag says that a request has no run yet |
| HookCoalescing.RequestServed | src/registry_mcp/discovery/engine.py:190-211 | every request is followed by a run that starts after it, or is pending under a run in progress |
| HookCoalescing.OneFurtherRun | src/registry_mcp/discovery/engine.py:203-211 | any number of requests during a run cause exactly one further run, and none causes none |
| HookCoalescing.RunsAreApart | src/registry_mcp/discovery/engine.py:203-211 | between two starts there is an end and a request |
| Proposals.ProposalEngine.OpenProposal | src/registry_mcp/proposal/engine.py:236-348 | skips exactly while an open proposal stands, retires a finished one, and adds at most one row |
| Proposals.ProposalEngine.CreateForVulnerability | src/registry_mcp/proposal/engine.py:168-234 | with no fixed tag the finding is recorded as rejected, under the same guard |
| Proposals.ProposalEngine.RetireIfFinished | src/registry_mcp/proposal/lifecycle.py:38-73 | a closed pull request cancels, a merged one retires all but auth conflicts |
| Proposals.PullRequestEnds | src/registry_mcp/proposal/lifecycle.py:38-73 | a closed pull request cancels its proposal, a merged one merges it unless it is an auth conflict, and nothing else retires it |
| Proposals.WithoutPullRequestStays | src/registry_mcp/proposal/lifecycle.py:38-73 | a proposal without a pull request is never retired |
| Proposals.ProposalEngine.SyncPrStates | src/registry_mcp/proposal/engine.py:351-357 | every open proposal, and no other, is retired as its pull request says |
| Proposals.ProposalEngine.SweepVerifications | src/registry_mcp/proposal/engine.py:359-393 | exactly the open auth-conflict proposals of conflict-free services are verified |
| Proposals.ProposalEngine.AutoCreate | src/registry_mcp/proposal/engine.py:419-439 | service by service, proposes exactly where the conditions hold at that moment |
| Proposals.ProposedForWhen | src/registry_mcp/proposal/engine.py:419-454 | the hook proposes for a service if and only if it is in conflict and not stale, nothing is open for it, and its last proposal was neither cancelled nor rejected within a day without a change since |
| Proposals.ProposalOpens | src/registry_mcp/proposal/engine.py:236-348 | with nothing in the way the service gets an open proposal that carries the number of its new pull request |
| Proposals.ProposalFails | src/registry_mcp/proposal/engine.py:236-348 | a rejected patch is kept as such without a pull request, and any other failure or a dry run leaves no trace |
| Proposals.ProposalEngine.Cancel | src/registry_mcp/proposal/engine.py:564-574 | the proposal is cancelled, without a resolution date; an unknown one changes nothing |
| Proposals.Latest | src/registry_mcp/proposal/store.py:60-68 | a most recent proposal, or none if there is none |
| Proposals.FindOpen | src/registry_mcp/proposal/store.py:51-58 | an open proposal, or none if there is none |
| ProposalHistory.Perform | src/registry_mcp/proposal/engine.py:122-439 | each operation of the engine does what the runs below say |
| ProposalHistory.AtMostOneOpen | src/registry_mcp/proposal/engine.py:236-250 | in every run at most one proposal is open per service and finding |
| ProposalHistory.NeverReopens | src/registry_mcp/proposal/store.py:95-108 | in every run a proposal that left open never opens again; its identity and creation date never change, and its resolution date is set at most as it leaves open and always if it was merged or verified |
| ProposalHistory.ConflictEnds | src/registry_mcp/proposal/lifecycle.py:45-65 | an auth-conflict proposal leaves open only by a sweep that saw the conflict cleared, a cancel, or an unmerged close |
| ProposalHistory.RetriesAreADayApart | src/registry_mcp/proposal/engine.py:427-454 | two automatic rejections for a service with no change event and no other proposal between them are at least a day apart |
| KeyCache.TokenVerifier.KeyFor | src/registry_mcp/auth/verifier.py:118-127 | one lookup: what is fetched, kept and answered, and that a failed fetch leaves the cache alone |
| KeyCache.QuietAfterFetch | src/registry_mcp/auth/verifier.py:120-126 | after a successful fetch no call even tries before the smaller of cache lifetime and 30 seconds |
| KeyCache.FetchRate | src/registry_mcp/auth/verifier.py:118-127 | `n` successful fetches take at least `n - 1` such spacings |
| KeyCache.AnswersAreFresh | src/registry_mcp/auth/verifier.py:118-127 | every key served is the one that a set fetched by then, and younger than the lifetime, holds under that id; `unknown` is said exactly if that set lacks the id, and only of one younger than 30 seconds |
| KeyCache.UnavailableExactly | src/registry_mcp/auth/verifier.py:118-127 | a lookup fails exactly if its fetch fails and it had to fetch: nothing was fetched before, the set is too old, or it lacks the id and is 30 seconds old |
| KeyCache.FailedFetchIsRetried | src/registry_mcp/auth/verifier.py:124-126 | after a failed fetch a call goes out exactly if it would have gone out instead, so at once for the same key id and for any that is not cached |
| KeyCache.AttemptsCloseOnlyAfterFailure | src/registry_mcp/auth/verifier.py:16-20 | of any two calls closer than the spacing, of any key ids, the first of which goes out, the second goes out if and only if nothing was fetched from the first on and the cache the first found was empty, too old or without the second's key id |
| KeyCache.MadeUpKeysGoOut | src/registry_mcp/auth/verifier.py:16-20 | for the same key id, or one made up, the second goes out if and only if no fetch has succeeded from the first on |
| KeyCache.OutageIsUnbounded | src/registry_mcp/auth/verifier.py:118-127 | while no fetch succeeds every call goes out, however close together |
| Dotenv.ParseDotenv | src/registry_mcp/gitcrypt.py:183-193 | the parser's loop returns the specified dictionary, whose entries are all printable |
| Dotenv.ParsedClean | src/registry_mcp/gitcrypt.py:183-193 | whatever the text, keys are distinct and keys and values are free of line boundaries and outer space |
| Dotenv.AcceptedExactly | src/registry_mcp/gitcrypt.py:175-180 | an entry is accepted if and only if its key is a word of ASCII letters, digits and underscores that starts with no digit and its value has neither line feed nor return |
| Dotenv.EntrySets | src/registry_mcp/gitcrypt.py:183-193 | `key = value`, with white space anywhere around the two, sets that key to that value |
| Dotenv.OtherLinesSetNothing | src/registry_mcp/gitcrypt.py:183-193 | blank lines, comment lines and lines without `=` set nothing |
| Dotenv.ParseSerialize | src/registry_mcp/gitcrypt.py:183-198 | printing then parsing is the identity on such dictionaries, order included |
| Dotenv.RoundTrip | src/registry_mcp/gitcrypt.py:183-198 | parse after print after parse is parse, key order included, for every text |
| Dotenv.SetEntryRoundTrip | src/registry_mcp/gitcrypt.py:175-198 | setting an accepted entry survives printing and parsing if and only if the value has no line boundary and no outer white space |
| Dotenv.AcceptedValueLost | src/registry_mcp/gitcrypt.py:175-180 | the guard accepts a value, with a vertical tab in it, that does not survive |
| Text.SplitJoin | src/registry_mcp/gitcrypt.py:186-198 | joined lines split back into the same lines |
| Text.JoinSplit | src/registry_mcp/normalization/formatter.py:305-351 | splitting with line ends kept and joining again is the text |
| Text.BreaksAre | src/registry_mcp/gitcrypt.py:186-186 | `splitlines` ends a line at ten characters, given by code point |
| Text.SpacesAre | src/registry_mcp/gitcrypt.py:187-191 | `strip` takes those and the blanks that end no line, given by code point |

## Left out

- YAML parsing and dumping (ruamel, PyYAML), yamllint: the line model takes the key of each line, and the value model the parsed tree, as given; the two libraries are taken to agree on both.
- Flow style, block scalars, anchors and aliases, tags, multi-document files: outside the line model; there the formatter relies on the guard, which `Pipeline` models.
- CanonicalForm.OnePassIsCanonical: assumes that no reordered mapping writes a key twice, which YAML forbids and the parser refuses.
- The rows a parser reports are taken to be the rows of `splitlines`; a YAML parser does not break lines at every character that `splitlines` does.
- FormatOrder.FormatterSkipsOnlyMisaligned: that `canonical_projection` after a YAML parser is alike on rearrangements of a text that say the same is a hypothesis, since parsing is not modelled.
- Mapping keys are strings; the YAML keys `1` and `"1"`, which tie in the source's sort, are not distinguished.
- Scalars with an explicit tag whose Python value is iterable (`!!binary`, `!!set`) count as scalars that are not.
- Equality of projected values is structural; Python's `==` also equates `1`, `1.0` and `True`.
- The credential scrub, the reasoning layer and its prompts are arbitrary functions; the pull request body, renames on disk and the per-node batch are not modelled.
- RegistryStore.Store.Reconcile: `last_seen_at`, `updated_at`, `raw`, `manual` and the hardware columns are not modelled; the identity resolver and the enricher are maps fixed before the pass, as the engine passes them.
- URL parsing: the host of a URL is a parameter.
- RegistryReplay.LogReplays: events carry typed values where the source stores their `str()`.
- RegistryHistory.StaleFollowsHistory: passes are those of discovery sources; the source never runs one for `manual`, and new services are created not stale.
- `purge_old_events`: retention deletes the old end of the log, after which it no longer replays from creation.
- Rows without `ORDER BY` are read in insertion order.
- PatchProtocol.AtMostOneValid: tokens stand for their hashes, taken as injective; the purge at start-up is not interleaved with clicks.
- DockhandProtocol.AtMostOneReturns: the two clock readings inside one UPDATE are one.
- Pages, e-mail, the Ansible executor and the HTTP client: a run is one start and one outcome.
- Task cancellation inside the hook.
- ProposalHistory.AtMostOneOpen: proposals are created one at a time; the code makes no claim for concurrent creation.
- ProposalHistory.RetriesAreADayApart: ties in `created_at` are broken in favour of the earlier row.
- Legacy-adoption and normalization proposals, comment polling, snoozing: not deduplicated by service, or single branches.
- JWT verification and the fetching of the key set: only the cache policy is modelled.
- Deletion and inventory gates, config report, intake, Infisical, webhook schemas, MCP tool registration: single-branch code.
