# Verified model of SOVA's protocols

SOVA runs an issue through a pipeline of agent steps. This project models the parts of it in which
simple code carries a hard property, and proves those properties for all inputs, all interleavings or
all runs. Each module follows one source file. Code that changes state step by step is a class or a
method with loops, proved equal to a specification function; the laws are lemmas about those functions.
Protocols whose steps interleave (cache loaders, output flushes, label edits) are state machines over
their atomic steps, and their theorems range over every sequence of steps.

- **CostAttribution**: token counters with nullable parts, the buckets spend falls into, and the cost
  records written by subtraction. The records add up to the step's result.
- **WorkflowEngine**: retries inside model fallback inside a run. Bounds, switching, and what a run
  says when it ends.
- **CommandSync**: the three-way reconciliation of renderings, manifest and files; crash and rerun.
- **ConfigCache**: a cache whose lock covers only lookup and store, against every interleaving of
  loaders, invalidators and writers in other processes.
- **DagGraph, DagSort, DagValidation, DagExecution, DagOrder**: Kahn's algorithm, weak components, and a
  conditional run: when its outcome does not depend on the order chosen, and when it can.
- **StringOps, Templates**: placeholder rendering and its inverse, from strings and sentinels up.
- **YamlQuoting**: quoting a value as a double-quoted YAML scalar and back.
- **OutputWriter**: buffered lines whose inserts outlive the flush that started them.
- **SettingsTree, Settings**: nested settings, dotted rows, section-replacing saves, deep merge.
- **IssueLabels**: label edits under a per-issue lock are linearizable, and exactly which edits from
  outside the lock they tolerate.
- **DetailsCondenser**: a depth-counting loop is a structural recursion over blocks.
- **RevertGuard**: what an ok verdict rules out, and exactly which paths it protects.
- **Basics**: `Option`, distinctness, and the white space of Python's `str.strip`.

## Where the code does less than its promise

The model keeps the code as it is; for each gap a lemma names an input that shows it, and a lemma states
exactly when the promise holds.

- A crash in the middle of a forced update, followed by a rerun, restores the same files and conflicts
  but may leave a manifest entry unmanaged that an uninterrupted run would have marked managed
  (`CommandSync.RerunAfterCrash`, `CommandSync.ForgottenManagedExample`).
- Reasoning tokens, and tokens saved by compression, are lost from the records when the provider's share
  costs nothing and has no other token (`CostAttribution.RecordsConserve`, `CostAttribution.FreeReasoningIsLost`).
- A failed step's gate answer may be that of an earlier attempt (`WorkflowEngine.FailedStepPausesOnLastGate`,
  `WorkflowEngine.EarlierGatePauses`).
- A load can be served a config built from files older than when it began, because a stamp has come back:
  it never is if and only if no stamp of the files repeats (`ConfigCache.NeverStaleExactly`,
  `ConfigCache.RepeatedStampServesOtherFiles`). A returning stamp can serve newer files too, when they
  changed while the entry was being built (`ConfigCache.EditedWhileBuilt`).
- A condition on a node that may run before or after the edge's target can make the run depend on the
  order chosen: taken one by one, the conditions never do if and only if each depends only on nodes
  comparable with its target (`DagOrder.ComparableExactly`, `DagOrder.OrderMattersBetweenSiblings`).
- A placeholder that was already in the text can come back as a value: the text survives whatever the
  values of the variables are if and only if it holds no placeholder of one of their keys
  (`Templates.RoundTripExactly`, `Templates.LostUnderSomeValues`, `Templates.ExistingPlaceholderIsLost`).
  With suitable values such a text does survive (`Templates.WholeValueSurvives`).
- A seed read that fails over stored rows lets line numbers be reused, unless the insert that follows it
  fails too or is the last thing the writer does: the numbers stay distinct whatever comes after an
  insert has landed if and only if it was harmless in this sense (`OutputWriter.HarmlessExactly`,
  `OutputWriter.FailedSeedCollides`).
- Leaves whose dotted keys coincide overwrite each other, in the order of the dictionaries
  (`Settings.FlatIsDetermined`, `Settings.KeysClashExample`); a scalar saved at the top level is overridden
  by rows left below its name (`Settings.ScalarIsReadBack`, `Settings.ScalarIsLostExample`); rows of which
  one key is a prefix of the other depend on the order of replay (`Settings.OrderIsIrrelevantExactly`,
  `Settings.OrderMatters`); a row with a section's bare name keeps the leaves that no leaf of the section
  covers (`Settings.SectionBeatsBareRowExactly`, `Settings.StaleObjectExample`); and the synchronous writer, unlike the asynchronous one, keeps the stale rows of sections when there
  is no leaf at all to write (`Settings.WritersAgree`, `Settings.WritersDifferExample`).
- The label lock does not reach other writers: an edit from outside, between a swap's read and its edit,
  is overwritten unless the swap would write the same anyway (`IssueLabels.HarmlessExactly`,
  `IssueLabels.OutsidersAreOverwritten`).
- The revert guard protects a sibling's path only where the branch's new fork point has moved on from the
  old content; elsewhere a head with the old content passes (`RevertGuard.GuardedExactly`,
  `RevertGuard.StaleBranchPasses`). A missing baseline passes unverified (`RevertGuard.OkIsVerified`).

## Model

| member | source | states |
|---|---|---|
| CostAttribution.MinusUndoesPlus | sova/core/context.py:100-136 | subtracting a snapshot undoes adding it if and only if the added one reports a saving exactly when it has compressed calls; adding coherent snapshots commutes and stays coherent |
| CostAttribution.LabelStep | sova/llm/models.py:78-95 | combining cost provenances call by call gives a label that depends only on the set of provenances seen |
| CostAttribution.InterleavingIsIrrelevant | sova/core/context.py:352-431 | a bucket's share is the fold of its own calls, however other buckets' calls are interleaved |
| CostAttribution.RoutedModelsAreUsed | sova/core/context.py:405-431 | a model has a routed bucket exactly when some call was routed to it |
| CostAttribution.SharesAddUp | sova/core/context.py:352-431 | runtime, provider and routed shares add up to the whole in dollars and in every counter |
| CostAttribution.ExecutionContext.AddUsage | sova/core/context.py:352-403 | one LLM result updates totals, runtime, provider and routed fields so that they again are the shares of all calls so far |
| CostAttribution.ExecutionContext.AddRoutedSpend | sova/core/context.py:405-431 | a routed result lands in its model's bucket, opened on first use, and in no other |
| CostAttribution.ExecutionContext.AddCost | sova/core/context.py:348-350 | a flat cost counts as provider spend without tokens |
| CostAttribution.BucketsAfterRouting | sova/core/context.py:405-431 | growing one bucket by a result gives exactly the buckets of the longer list of calls |
| CostAttribution.RunStepWithTimeout | sova/core/workflow.py:588-661 | wherever a timeout or an exception cuts the calls, the result carries the usage of the calls made and the larger of their cost and the reported cost |
| CostAttribution.UpdateStepExecution | sova/core/workflow.py:1175-1250 | the records written by successive subtraction are the shares themselves: the clamps at zero never bite |
| CostAttribution.RecordsConserve | sova/core/workflow.py:1135-1250 | the written records sum to the step result in dollars, input, output, cache and turn counts; in reasoning tokens and savings if and only if the provider record is written or reported none |
| CostAttribution.FreeReasoningIsLost | sova/core/workflow.py:1225-1250 | a provider call that only reasoned, for free, is in the result and in no record |
| CostAttribution.RunAndRecord | sova/core/workflow.py:540-571 | one attempt from its calls to its records: each record holds, column by column, what the calls of its bucket themselves reported, the provider's also the cost reported beyond them, and the columns add up to what all calls reported, but for reasoning tokens and savings no record was written for |
| CostAttribution.ShareIsReported | sova/core/context.py:352-431 | a bucket's share in each column is the sum of what its calls reported, a call being in the bucket its own fields say |
| CostAttribution.BuiltIsRecordOf | sova/core/workflow.py:1135-1173 | a built record has its bucket's reported figures in each column, null exactly where none reported, the pre-compression input as input plus savings, and the label of the provenances seen |
| CostAttribution.RoutedIsApportioned | sova/core/workflow.py:1200-1225 | exactly one routed record per model routed to, with that bucket's figures and its first reason |
| CostAttribution.ProviderIsApportioned | sova/core/workflow.py:1225-1250 | a provider record exactly when there is cost, a token or a turn count to record, under the model last reported |
| CostAttribution.NullExactlyWhenUnreported | sova/core/workflow.py:1135-1173 | a nullable column of a record is null exactly when no call of its bucket reported the figure |
| WorkflowEngine.WorkflowEngine.ExecuteSingleAttempt | sova/core/workflow.py:540-571 | one attempt: row, execution, classification of a failure, gate and verification |
| WorkflowEngine.WorkflowEngine.TryStepWithRetries | sova/core/workflow.py:466-538 | the retry loop is the recursive specification; its trailing billing answer is unreachable |
| WorkflowEngine.WorkflowEngine.AdvanceFallback | sova/core/workflow.py:806-817 | the next candidate is the first in the chain, from the position on, that differs from the model in use |
| WorkflowEngine.WorkflowEngine.ExecuteWithRetries | sova/core/workflow.py:432-464 | the fallback loop is the recursive specification over models |
| WorkflowEngine.StepIsBounded | sova/core/workflow.py:432-571 | a step executes at most (max_retries + 1) times per model that can still be tried, and never more than max_step_attempts when that is set |
| WorkflowEngine.StepIsWithinBudget | sova/core/workflow.py:432-538 | the same bound from any state, as a budget that each model uses up once |
| WorkflowEngine.SwitchesAreSound | sova/core/workflow.py:787-817 | the fallback position never goes back, every switch picks another model, and without engine-owned fallback the model is never switched |
| WorkflowEngine.RecordFollowsHistory | sova/core/workflow.py:432-571 | model in use and kept gate answer are those of the last event that set them |
| WorkflowEngine.DoneMeansPassed | sova/core/workflow.py:466-571 | a step ends done exactly when its last attempt succeeded and passed both gates, and no earlier one had |
| WorkflowEngine.FailureSpendsEveryAttempt | sova/core/workflow.py:466-538 | an ordinary failure is final only after every attempt of the model, or after an error that is itself a configuration error |
| WorkflowEngine.EveryEventIsAnswered | sova/core/workflow.py:432-571 | what follows each event of a step, told from the error itself: a runaway or configuration error ends it, billing with another candidate left switches the model and nothing else does, any other failure with attempts and cap left is tried again on the model then current |
| WorkflowEngine.StepIsRecorded | sova/core/workflow.py:540-571 | when a step is over its record has counted every attempt and holds the last one's result, unless the cap stopped it and left its own |
| WorkflowEngine.RunFollowsChecks | sova/core/workflow.py:128-252 | every step is started unless its checks stop the run there, is skipped exactly when it can be, and otherwise runs with its own retries from where the steps before left the engine; the run goes on exactly after a record that lets it |
| WorkflowEngine.ExitContract | sova/core/workflow.py:128-272 | every exit persists the returned status, one of four; success iff done; records follow a prefix of the steps, counters count them, at most one failed, and the status is the one the records call for |
| WorkflowEngine.FailedStepPausesOnLastGate | sova/core/workflow.py:254-290 | a failed step pauses the run exactly when the last attempt that reached a gate was rejected there |
| WorkflowEngine.EarlierGatePauses | sova/core/workflow.py:254-290 | a run paused for a gate that its last attempt never reached |
| WorkflowEngine.WorkflowEngine.ExecuteStep | sova/core/workflow.py:177-252 | the prechecks and the handling of each outcome, as one step of the run specification |
| WorkflowEngine.WorkflowEngine.Run | sova/core/workflow.py:128-175 | the loop over steps is the run specification and meets the exit contract |
| CommandSync.OnlyPristineFilesChange | sova/commands/distribution.py:346-480 | without force an existing file changes only while it is what the manifest recorded, and then becomes the rendering or goes with its retired source |
| CommandSync.ConflictsExactly | sova/commands/distribution.py:352-466 | conflicts are exactly upstream-and-local changes, divergent uninstalled files, and modified or stuck retired managed files |
| CommandSync.ForcedConflictsExactly | sova/commands/distribution.py:352-466 | with force only a failing unlink of a retired managed file is a conflict |
| CommandSync.SecondRunChangesNothing | sova/commands/distribution.py:292-480 | a second run changes nothing and reports the same conflicts |
| CommandSync.RerunAfterCrash | sova/commands/distribution.py:346-480 | after a crash at any point before the manifest write a rerun gives the same disk and conflicts, and the same manifest if and only if no settled name has an up-to-date unmanaged entry under force |
| CommandSync.ForgottenManagedExample | sova/commands/distribution.py:352-410 | an input on which the rerun leaves an entry unmanaged |
| CommandSync.DiffAfterUpdate | sova/commands/distribution.py:574-624 | after an update a source is reported new or changed exactly when it conflicted |
| CommandSync.ForceRestoresEverything | sova/commands/distribution.py:627-693 | after a forced update every source's file is its rendering and is not reported as modified |
| CommandSync.CommandTarget.UpdateFiles | sova/commands/distribution.py:292-480 | one update settles every name, reports each name in exactly the list its outcome belongs to, writes the manifest once at the end if and only if some entry changes, and goes from disk to disk one name at a time, through states a crash may leave |
| CommandSync.UnforcedUpdateInstalls | sova/commands/distribution.py:352-418 | without force, a source that is not recorded and has no file, or whose recorded rendering is out of date while the file is missing or as recorded, is installed, recorded and reported |
| CommandSync.SourcesAreInstalled | sova/commands/distribution.py:346-418 | for every source, force or not: the file is the rendering after the update exactly when it was already or may be installed, and the entry follows |
| CommandSync.RetiredAreRemoved | sova/commands/distribution.py:420-466 | a retired managed file is removed exactly when it may be, and its entry with it |
| CommandSync.ReportedIsExact | sova/commands/distribution.py:466-480 | each list of the report holds exactly the names with that outcome |
| CommandSync.OneFileAtATime | sova/commands/distribution.py:346-480 | between two consecutive states only the file of the settled name differs |
| CommandSync.CommandTarget.UpdateOne | sova/commands/distribution.py:352-418 | the decision about one source and the write it leads to: a file is written exactly when it may be installed |
| CommandSync.CommandTarget.PruneStale | sova/commands/distribution.py:420-466 | the prune loop settles every retired entry |
| CommandSync.CommandTarget.DiffFiles | sova/commands/distribution.py:574-624 | each readable source is in the one of the new, changed and same lists that its entry and its rendering call for, the gone list holds exactly the managed entries without a source, and nothing else is in any |
| CommandSync.CommandTarget.ReverseDiffFiles | sova/commands/distribution.py:627-693 | edits, missing files and unmanaged files are reported exactly, each edit with both contents and whether upstream changed too, an unreadable source counting as removed |
| ConfigCache.InvalidationIsPerProject | sova/config/loader.py:69-93 | invalidating one project commutes with storing another's rebuild |
| ConfigCache.InvalidationDiscardsRebuild | sova/config/loader.py:74-93 | a rebuild that looked up before an invalidation of its project cannot store |
| ConfigCache.Cache.Invalidate | sova/config/loader.py:74-93 | bumps the generation it names and drops the entries it covers |
| ConfigCache.Cache.Store | sova/config/loader.py:158-162 | stores only under the captured generation |
| ConfigCache.StepKeepsInv | sova/config/loader.py:96-162 | every atomic step of loaders, invalidators, writers and the clock keeps the cache invariant |
| ConfigCache.CacheIsAlwaysSound | sova/config/loader.py:50-162 | on every interleaving a cached entry belongs to the current generation, a database layer comes from a successful read, the files read are no older than some version with the entry's stamp, and an undegraded entry is as new as its settings stamp |
| ConfigCache.InvalidatedIsNeverServed | sova/config/loader.py:96-162 | a load that starts after an invalidation never serves a config looked up before it |
| ConfigCache.WrittenIsNeverMissed | sova/config/loader.py:50-62 | a load that starts after a committed write and its stamp never accepts an older undegraded entry |
| ConfigCache.HitExactly | sova/config/loader.py:50-62 | on every run, when a lookup is answered from the cache: an undegraded entry under an unchanged fingerprint for less than a minute, a degraded one under unchanged files for 15 seconds doubled with every further failed read, up to two minutes |
| ConfigCache.RebuildEnds | sova/config/loader.py:120-162 | what a rebuild serves and stores: itself when the database was read, else the last good config while the files are unchanged, with one more failure counted; stored if and only if no invalidation came in between |
| ConfigCache.OutageServesLastGood | sova/config/loader.py:120-155 | on every interleaving in which the database cannot be read and neither files nor generation change, every load that starts is served the last good config |
| ConfigCache.FilesAreNeverStale | sova/config/loader.py:96-198 | while no stamp of the environment and TOML file repeats, a load never serves a config built from files older than when it started |
| ConfigCache.NeverStaleExactly | sova/config/loader.py:96-198 | for every history of stamps of the environment and TOML file: no run serves a load a config built from files older than its start if and only if no stamp repeats |
| ConfigCache.RepeatedStampServesOtherFiles | sova/config/loader.py:96-198 | for any two versions with one stamp, a run in which a load at the later is served a config built from the earlier |
| ConfigCache.EditedWhileBuilt | sova/config/loader.py:96-198 | an interleaving in which a repeated stamp serves a config built from files that never had it |
| DagGraph.PathsGoBack | sova/core/dag.py:313-343 | in an ordered list paths lead strictly backwards to placed nodes |
| DagGraph.StuckIsBlocked | sova/core/dag.py:313-343 | a node whose predecessors never run out is on a cycle or reachable from one |
| DagSort.InDegreeDrops | sova/core/dag.py:334-339 | placing a node takes exactly its own edges, parallel ones included, from every in-degree |
| DagSort.TopologicalSort | sova/core/dag.py:313-343 | succeeds exactly on acyclic graphs with every node once and sources before targets; otherwise names exactly the nodes on or reachable from a cycle |
| DagValidation.Component | sova/core/dag.py:288-302 | breadth-first search finds exactly the weakly connected class |
| DagValidation.Components | sova/core/dag.py:284-304 | the components partition the nodes into exactly the weakly connected classes |
| DagValidation.ManyComponents | sova/core/dag.py:306-309 | more than one component is the same as two nodes without a walk between them |
| DagValidation.LargestComponent | sova/core/dag.py:306-309 | what is reported is the complement of a largest class |
| DagValidation.ValidateDag | sova/core/dag.py:243-310 | no errors if and only if the graph is nonempty, its edge ends exist, every node has a command, and it is acyclic and in one piece; each error is reported exactly when and where it applies |
| DagExecution.ConditionMeans | sova/core/dag.py:346-360 | a condition with padded operands compares the named output with the expected text |
| DagExecution.ConditionExactly | sova/core/dag.py:346-360 | every condition: split at the first "!=", else at the first "==", else false; an unrecorded key is empty |
| DagExecution.DoneConditionMeans | sova/core/dag.py:346-357 | `id.done == true` holds exactly when that node has run |
| DagExecution.ShouldExecute | sova/core/dag.py:201-240 | true exactly for entries, and for nodes with an edge from a node not skipped all of whose such edges are done and pass |
| DagExecution.ExecutedExactly | sova/core/dag.py:201-240 | in every topological order a node runs exactly when it is an entry, or some edge leads into it from a node that runs and all edges from such nodes hold |
| DagExecution.SourcesAreSettled | sova/core/dag.py:226-234 | when a node is visited every source has run or been skipped, so the two early answers are unreachable |
| DagExecution.PredecessorRan | sova/core/dag.py:236-240 | an executed node that is not an entry has an executed predecessor |
| DagExecution.OrderIsIrrelevant | sova/core/dag.py:105-148 | if conditions depend only on nodes comparable with their target, executed and skipped sets are the same for every topological order |
| DagExecution.SuccessIsOrderIndependent | sova/core/dag.py:105-148 | under the same condition whether the run completes does not depend on the order |
| DagExecution.Execute | sova/core/dag.py:105-148 | rejects exactly the invalid graphs, and otherwise runs the nodes of a topological order up to the first failure |
| DagOrder.OrderCanMatter | sova/core/dag.py:105-148 | if one condition depends on a node incomparable with its target, then with that condition alone two topological orders execute different sets |
| DagOrder.ComparableExactly | sova/core/dag.py:105-240 | conditions depend only on comparable nodes if and only if none of them, alone, can make the order matter |
| DagOrder.OrderMattersBetweenSiblings | sova/core/dag.py:201-240 | a condition on a sibling makes the executed set depend on the order |
| StringOps.FindIsFirst | sova/commands/templates.py:124-136 | splitting looks for the leftmost occurrence |
| StringOps.SplitUndone | sova/commands/templates.py:122-138 | splitting at a text leaves no occurrence in any part, and joining undoes it |
| StringOps.ReplaceIsSplitAndJoin | sova/commands/templates.py:140-143 | replacing is splitting and joining with the replacement |
| Templates.MatchesItsShape | sova/commands/templates.py:93-93 | the placeholder expression matches every text of its shape, in one way only |
| Templates.MatchesExactly | sova/commands/templates.py:93-93 | a match is exactly two braces, spaces, a word, spaces, two braces, and its key the word |
| Templates.NothingStraddles | sova/commands/templates.py:93-93 | no match reaches from plain text into an inserted placeholder |
| Templates.ReverseRenderCommand | sova/commands/templates.py:96-142 | the loops that split, interleave and replace sentinels are the functional form |
| Templates.SortByLengthSorts | sova/commands/templates.py:121-121 | longer values come first |
| Templates.SortByLengthIsStable | sova/commands/templates.py:122-122 | values of one length keep their order |
| Templates.ReverseIsSpelled | sova/commands/templates.py:96-142 | on text without NUL the sentinel form is the marked text with its placeholders written out |
| Templates.RenderExpands | sova/commands/templates.py:78-93 | rendering a marked text puts back exactly the values |
| Templates.RenderUndoesReverse | sova/commands/templates.py:78-142 | rendering the reverse of any content without NUL and without known placeholders gives the content back |
| Templates.NoValueIsLeft | sova/commands/templates.py:96-142 | the result is the content with values spelled as placeholders of their variables, and outside those no value of a variable is left |
| Templates.RoundTripExactly | sova/commands/templates.py:78-142 | for content without NUL and given keys: the round trip holds for all values of the variables if and only if the content holds no placeholder of one of the keys |
| Templates.LostUnderSomeValues | sova/commands/templates.py:78-142 | values of the same keys under which a content with a known placeholder does not come back |
| Templates.ExistingPlaceholderIsLost | sova/commands/templates.py:78-142 | a content that is a known placeholder comes back as its value |
| Templates.WholeValueSurvives | sova/commands/templates.py:78-142 | a content that is itself the value of a variable becomes `{{ key }}` and comes back |
| YamlQuoting.UnescapeIsOneScan | sova/commands/skill_render.py:347-364 | on every well-formed body the two global replacements do what one left-to-right scan does |
| YamlQuoting.EscapeIsOneScan | sova/commands/skill_render.py:367-370 | escaping backslashes, then quotes, escapes each character once |
| YamlQuoting.BodyExactly | sova/commands/skill_render.py:344-365 | a body is exactly any number of unquoted characters and escapes of anything but a line break |
| YamlQuoting.EscapeByPiece | sova/commands/skill_render.py:367-370 | a backslash and a quote get a backslash in front, everything else stays |
| YamlQuoting.UnescapeByPiece | sova/commands/skill_render.py:364-365 | an escaped backslash or quote loses its backslash, everything else stays |
| YamlQuoting.EscapeIsWellFormed | sova/commands/skill_render.py:344-370 | the output is always one well-formed double-quoted scalar in which every backslash begins an escaped backslash or quote |
| YamlQuoting.EscapedExactly | sova/commands/skill_render.py:344-370 | such scalars are exactly the values that escaping leaves alone |
| YamlQuoting.UnwrapUndoesEscape | sova/commands/skill_render.py:347-370 | the scalar stands for the same text as the value, quoted or not |
| YamlQuoting.EscapeIsIdempotent | sova/commands/skill_render.py:367-370 | escaping twice is escaping once |
| YamlQuoting.EscapeSeparates | sova/commands/skill_render.py:347-370 | two values give the same scalar exactly when they stand for the same text |
| YamlQuoting.QuotingProseIsKept | sova/commands/skill_render.py:347-364 | prose that begins and ends with a quoted word is not unwrapped |
| OutputWriter.OutputWriter.WriteLine | sova/core/output.py:41-45 | an open writer appends the line without its trailing newlines and without anything else missing; a closed one ignores it |
| OutputWriter.OutputWriter.TakeBuffer | sova/core/output.py:72-79 | a flush takes the buffer and reserves one number per line |
| OutputWriter.OutputWriter.Flush | sova/core/output.py:50-108 | an undisturbed flush keeps or puts back its lines and numbers according to how its insert ends |
| OutputWriter.OutputWriter.Close | sova/core/output.py:151-156 | closes unless the flush is cancelled |
| OutputWriter.RunConserves | sova/core/output.py:41-141 | over every run stored, in-flight, dropped and buffered lines are the accepted ones, once each, and in order while no detached insert has failed |
| OutputWriter.StoredNumbersAreDistinct | sova/core/output.py:61-141 | over every safe run stored numbers are distinct, new rows increase, and reserved numbers lie below the next one, rewinds included |
| OutputWriter.RunOrders | sova/core/output.py:41-141 | over every run, failed seed reads included, batches reserve disjoint and increasing ranges below the next number |
| OutputWriter.AllStoredInOrder | sova/core/output.py:41-141 | once all is committed the new rows have increasing numbers and are in that order the texts written while the writer was open, one row each, stripped of exactly their trailing newlines |
| OutputWriter.TrimmedIsStripped | sova/core/output.py:45-45 | the line kept is the one prefix that ends in no newline and is followed by newlines only |
| OutputWriter.EndMoves | sova/core/output.py:79-141 | how each end of an insert moves its lines: stored, put back in front with or without their numbers, left in flight, or dropped |
| OutputWriter.FlushBegins | sova/core/output.py:50-78 | when a flush reads the seed, inserts at once or only closes, and that a seed read over stored rows numbers from one above the highest |
| OutputWriter.StoredExactly | sova/core/output.py:79-90 | stored are the rows from before and every line of a committed batch under its own number |
| OutputWriter.FailedSeedCollides | sova/core/output.py:61-70 | once an insert numbered from a failed seed read lands with a stored row above its first number, that row's number is used twice, at once or by flushing up to it |
| OutputWriter.HarmlessExactly | sova/core/output.py:61-141 | an insert's end leaves the numbers distinct in all that can follow if and only if it is harmless: above the stored rows, or below them and the last one of a closed writer |
| OutputWriter.ReadSeedsAreSafe | sova/core/output.py:61-70 | runs whose seed reads fail only over an empty table are safe |
| OutputWriter.FailedSeedIsUnseeded | sova/core/output.py:61-76 | a failed seed read over any stored rows leads to such an insert |
| SettingsTree.ReadAfterSet | sova/config/db_loader.py:93-105 | after setting one path every path reads as the new value, as nothing, or as before |
| SettingsTree.SetsCommute | sova/config/db_loader.py:93-105 | settings at incomparable paths commute |
| SettingsTree.LeavesDetermine | sova/config/db_loader.py:76-105 | two trees without empty dictionaries and with the same leaves are equal |
| SettingsTree.MergeReads | sova/config/loader.py:304-312 | for every two layers and every path the merge reads as the override where that has its say, and as the base elsewhere |
| SettingsTree.MergePrefersOverride | sova/config/loader.py:304-312 | for layers of the same kinds each leaf is the override's if present, else the base's |
| SettingsTree.DeepMerge | sova/config/loader.py:304-312 | the loop over the overrides is the merge |
| Settings.JoinSplit | sova/config/db_loader.py:99-99 | splitting a key at its dots loses nothing |
| Settings.Flatten | sova/config/db_loader.py:290-303 | an entry for every leaf's dotted key and no other; of leaves that share a key one is kept |
| Settings.FlatIsDetermined | sova/config/db_loader.py:290-303 | the entries do not depend on the order of the dictionaries if and only if leaves with one key have one value |
| Settings.PlainKeysStayApart | sova/config/db_loader.py:290-303 | with nonempty names without dots there is one entry per leaf, at the path its key splits into |
| Settings.KeysClashExample | sova/config/db_loader.py:290-303 | a dotted name clashes with a section's leaf |
| Settings.SaveConfig | sova/config/db_loader.py:145-164 | rows under saved sections are replaced, every leaf is written, all other rows stay |
| Settings.SaveConfigSync | sova/config/db_loader.py:167-273 | the same, except that nothing happens when there is no leaf |
| Settings.WritersAgree | sova/config/db_loader.py:145-273 | the two writers leave the same rows if and only if there is a leaf to write or no stale row under a section |
| Settings.WritersDifferExample | sova/config/db_loader.py:145-273 | a section without leaves over a stored row of that section |
| Settings.RowsToNested | sova/config/db_loader.py:76-90 | rows are replayed in order, internal and undecodable ones skipped |
| Settings.SkippedRowsDoNotMatter | sova/config/db_loader.py:76-90 | the settings are those of the rows without the bookkeeping key and without undecodable text, each of which counts |
| Settings.NestedReads | sova/config/db_loader.py:76-105 | the last row that touches a path decides what stands there |
| Settings.OrderIsIrrelevant | sova/config/db_loader.py:76-105 | prefix-free rows give the same settings in every order |
| Settings.OrderIsIrrelevantExactly | sova/config/db_loader.py:76-105 | for scalar rows with different keys the order is irrelevant if and only if no key is a prefix of another |
| Settings.OrderMatters | sova/config/db_loader.py:76-105 | a scalar row and a row below it give different settings in the two orders |
| Settings.SectionRoundTrip | sova/config/db_loader.py:76-164 | in any order a saved section reads back exactly its leaves, unless a row carries its bare name |
| Settings.SectionIsRebuilt | sova/config/db_loader.py:76-164 | a section without empty dictionaries is rebuilt as saved |
| Settings.ScalarIsReadBack | sova/config/db_loader.py:145-164 | a saved top-level scalar is read back from sorted rows if and only if no row is left below its name |
| Settings.ScalarIsLostExample | sova/config/db_loader.py:145-164 | a scalar saved over a stored section is not read back |
| Settings.SectionOverBareRow | sova/config/db_loader.py:76-164 | in a sorted listing a row of the section's bare name is read exactly where no leaf of the section covers the path |
| Settings.SectionBeatsBareRowExactly | sova/config/db_loader.py:76-164 | so the section reads back exactly if and only if its leaves cover every leaf of that row |
| Settings.StaleObjectExample | sova/config/db_loader.py:76-164 | an object under the bare name keeps a stale leaf |
| Settings.SectionBeatsBareRow | sova/config/db_loader.py:76-164 | from sorted rows a section reads back even over a scalar row of its bare name |
| Settings.OutsideRowsStay | sova/config/db_loader.py:145-193 | rows whose first name is not in the configuration stay as they are |
| Settings.OnlyOwnRowsMatter | sova/config/db_loader.py:76-105 | what is read under a name depends only on that name's rows |
| IssueLabels.FinalLabels | sova/adapters/github.py:787-789 | the replacement list is the labels that are not states, in order, and the new one |
| IssueLabels.NonStatesKeepOrder | sova/adapters/github.py:787-788 | the labels kept are kept in their order, each by itself |
| IssueLabels.StepKeeps | sova/adapters/github.py:255-273 | every step of adds, removals and swaps keeps mutual exclusion, current snapshots and the log |
| IssueLabels.LabelsAreLinear | sova/adapters/github.py:677-826 | at every moment of every interleaving with harmless edits from outside, the labels are those of all effective edits replayed, the adapter's own in lock order, and every reported success is among them |
| IssueLabels.LabelsExactly | sova/adapters/github.py:677-826 | after every such run a label is on an issue exactly when some effective edit brought it and no later one took it away, or it was there at the start and none did |
| IssueLabels.CallsReportExactly | sova/adapters/github.py:255-273 | on every run, edits from outside or not: the effective edits are those answered as done or lost, in that order; a call edits at most twice, the second time only after "not found" and a created label; and it reports success exactly when its last edit was done, a removal always |
| IssueLabels.HarmlessExactly | sova/adapters/github.py:87-106 | an edit from outside leaves all later moments linearizable if and only if it changes nothing for a swap between its read and its edit |
| IssueLabels.UndisturbedIsHarmless | sova/adapters/github.py:87-106 | without outside edits every run is such a run |
| IssueLabels.NoAddIsLost | sova/adapters/github.py:677-716 | in every such run an added label is there until a later edit takes it away |
| IssueLabels.NoRemovalIsUndone | sova/adapters/github.py:255-273 | in every such run a removed label stays absent until a later edit brings it |
| IssueLabels.ExactlyOneState | sova/adapters/github.py:753-794 | from the first effective swap on the only state label is that of the latest swap |
| IssueLabels.OneStateAtEveryMoment | sova/adapters/github.py:753-826 | so every reader at every moment sees exactly one state label |
| IssueLabels.OutsidersAreOverwritten | sova/adapters/github.py:87-106 | a label added by another process between a swap's read and its edit is lost |
| DetailsCondenser.CondenseBlocks | sova/adapters/external_reviews.py:425-451 | the loop over depth, cursor and output is the recursive specification, and terminates |
| DetailsCondenser.CondenseForest | sova/adapters/external_reviews.py:414-451 | on balanced tags the result is structural recursion over the blocks, whatever follows |
| DetailsCondenser.BlockRendering | sova/adapters/external_reviews.py:414-422 | a block becomes its title, a colon and a line break, followed by its finished body; without a title its finished body; and nothing when its title is noise |
| DetailsCondenser.NothingIsLost | sova/adapters/external_reviews.py:414-451 | without noise and clean-up a balanced comment is condensed to a flat pass over its tokens: tags vanish, a summary right after an opening tag becomes a title line, every other text stays in place |
| DetailsCondenser.CondensePieces | sova/adapters/external_reviews.py:425-451 | text outside blocks and stray closing tags stay, and from the outermost unclosed tag on everything is verbatim |
| DetailsCondenser.EveryCommentHasPieces | sova/adapters/external_reviews.py:425-451 | every sequence of tags is of that form |
| DetailsCondenser.NoiseIsDropped | sova/adapters/external_reviews.py:414-422 | nothing inside a noise block survives or matters, at any depth: the comment is condensed as if an empty text stood there |
| RevertGuard.CheckSilentRevert | sova/core/pr_diff_guard.py:158-267 | the verdict, with a confirmed revert before an inconclusive deletion in whatever order the paths come |
| RevertGuard.VerdictExactly | sova/core/pr_diff_guard.py:158-267 | the whole verdict from the blobs: when a missing baseline passes, when it is inconclusive, exactly which files are reported, and when a deletion is |
| RevertGuard.OkMeansRespected | sova/core/pr_diff_guard.py:86-267 | on a rebased branch the verdict is ok if and only if every sibling's change was taken over or edited anew |
| RevertGuard.GuardedExactly | sova/core/pr_diff_guard.py:86-267 | for every path a sibling changed: an ok verdict on whatever head rules out the old content there if and only if the new fork point has moved on from it |
| RevertGuard.SoundExactly | sova/core/pr_diff_guard.py:86-267 | the same for all of the siblings' paths at once |
| RevertGuard.OkIsSound | sova/core/pr_diff_guard.py:86-267 | on a rebased branch an ok verdict means that no sibling's path stands as it was before the sibling |
| RevertGuard.ReportedIsReverted | sova/core/pr_diff_guard.py:116-149 | a reported path that exists at the base has its pre-fork content at the head and another at the base |
| RevertGuard.RevertBeatsDeletion | sova/core/pr_diff_guard.py:229-257 | a confirmed revert is reported whatever else was deleted |
| RevertGuard.OkIsVerified | sova/core/pr_diff_guard.py:185-220 | an ok verdict is a verified one except for a missing baseline |
| RevertGuard.StaleBranchPasses | sova/core/pr_diff_guard.py:86-105 | an unrebased branch whose untouched old content passes |

## Left out

- Subprocesses, git, the GitHub client, databases, the event loop and file-system errors: they are
  maps, atomic transactions, or answers chosen freely step by step.
- Logging, notifications, dashboards, routers, the LDAP and Jira transports, and validation of
  configuration models.
- CostAttribution: dollars are exact reals, so decimal rounding is not modelled; identifiers,
  durations and phase columns of the records are not carried; costs reported by calls are taken as
  nonnegative where the clamps are concerned.
- WorkflowEngine: error texts are reduced to the three questions the engine asks about them; timeouts,
  worktree checks and budget checks are answers given to the run; failed status writes, output lines and
  `total_cost_usd` (which adds only final attempts) are not modelled.
- CommandSync: symbolic links, creating and removing directories, and partial writes (each write is one
  step); the content hash is injective; names in the source directory are distinct; retired entries are
  visited in an arbitrary order rather than sorted.
- ConfigCache: a build reads the TOML file, the database and the environment in one step; databases without a settings stamp, where only the time-to-live applies; the automatic
  migration inside a build; the defensive copy handed to callers.
- DagExecution: node cost, duration, summaries and the stored step rows.
- Templates: which characters are word characters is a parameter; fenced-line splitting and the
  dash rewriting are not modelled.
- YamlQuoting: how a YAML reader folds line breaks inside a scalar; the rewriting of frontmatter.
- OutputWriter: flushes that overlap; other writers of the same run; reading lines back.
- OutputWriter.StoredNumbersAreDistinct: covers only safe runs, because after any other end of an insert numbers can collide.
- Settings.Flatten: the order of dictionaries is not modelled, so which of two leaves with one key is kept is left open.
- Settings.SectionRoundTrip: section names and keys are nonempty and hold no dots, because the rows of other keys cannot be told apart.
- SettingsTree.ReadAfterSet: setting walks by recursion on values, so the in-place walk through nested dictionaries is not modelled.
- Settings: schema of the values, environment overrides, and the emptiness check of the migration.
- IssueLabels: letter case of labels, and the creation of issues.
- DetailsCondenser: cutting a comment into tags and masking code is taken as given, and the tags inside
  a block are those of the whole comment; a summary holds no block tags.
- RevertGuard: rename detection in diffs, and the dependency-pin checks.
