# Omnibase: verified model

Omnibase is an MCP server in TypeScript. It keeps database connections, a schema cache and custom SQL tools,
and talks over JSON-RPC to a Go sidecar, which talks to one driver process per database family. This project
models the parts whose correctness spans several functions or several processes, and proves what they are
meant to guarantee. Where a guarantee holds only under a condition the code does not enforce, the condition
is stated, with a concrete run or input that breaks the guarantee without it.

| file | part of the program |
|---|---|
| `Placeholders.dfy` | the sidecar's translation of `?` into the driver's own markers, and its second pass on the explain path |
| `Templates.dfy` | `{param}` substitution and `{step.column}` expansion |
| `ComposeText.dfy` | the text spliced in for a column: reading it back, and passing it through the translator |
| `Pipeline.dfy` | expansion, substitution and translation one after the other |
| `ToolConfig.dfy`, `CycleCheck.dfy` | validation of custom tools, with the search for circular references |
| `ComposeEval.dfy` | running composed tools |
| `StepChecks.dfy`, `StepsTool.dfy` | multi-step tools: checks, transaction, clean-up |
| `TransactionLock.dfy` | the per-connection lock under every interleaving of multi-step calls |
| `SidecarRpc.dfy`, `DriverRpc.dfy` | request correlation in the two RPC clients, under crashes and timeouts |
| `DriverManifest.dfy` | which driver serves a DSN scheme |
| `Tiers.dfy` | agreement of the three tables that say what is connected |
| `SchemaCache.dfy` | the schema cache against the database |
| `Paging.dfy`, `AuditLog.dfy`, `SchemaHint.dfy` | paging, the audit log, the schema hint |

Code that works by changing state is a class or a loop here, proved equal to a function on values; the theorems
are about that function. Concurrency is modelled by events: each `await`, each response, timer and exit, and
each critical section is one step, and the theorems hold for every sequence of steps.

Where the code and its description differ, the model follows the code:

- The documentation of multi-step tools says that a failing step rolls everything back
  (`docs/custom-tools.md:52`). DROP is sent after ROLLBACK, so a permanent table with the name of a
  rolled-back temporary one is dropped: `StepsTool.ThrowCanDropPermanent`, and `StepsTool.CleanupSpares` for the
  exact condition.
- The lock's release function "must be called when the transaction is done" (`src/connection-manager.ts:148-152`).
  A rejected BEGIN is outside the `try` that releases it, and every later call on that connection waits for
  ever: `TransactionLock.RejectedBeginBlocks`. A ROLLBACK that is refused has the same end one call later, since
  the error is ignored and the next BEGIN meets an open transaction: `TransactionLock.RefusedRollbackWedges`.
- The schema cache is invalidated before a single statement and after each step of a multi-step tool. In both
  cases there is a window in which an old schema is served: `SchemaCache.FetchInsideWriteGoesStale`,
  `SchemaCache.HitInsideCallIsStale`, `SchemaCache.FetchBeforeRollbackGoesStale`.
- Parameters are described as never interpolated into the text (`docs/custom-tools.md:20`). Row data can complete
  a `{` of the template into a declared parameter, even with numbers alone: `Pipeline.PlantedByNumber`.
- `LIMIT {n}` and `{a}{b}` send values without markers for them, because the translator reads the `?` as an
  operator: `Pipeline.LimitLosesMarker`, `Pipeline.PairLosesMarkers`; `Pipeline.MarkersMatchHoles` says exactly
  which templates are affected.
- `GetClient` is described as returning a running client (`sidecar/drivermanager/manager.go:102`). A driver that
  has died still counts as running: `DriverRpc.DeathUnnoticed`, `DriverRpc.DeadClientServesNothing`.
- Which driver serves a scheme that two drivers claim depends on Go's map order (`sidecar/drivermanager/manager.go:84-89`):
  `DriverManifest.OrderIrrelevantIff`.
- A limit of zero rows at offset zero returns up to 500 rows: `Paging.ServedIsWanted`.

## Model

| member | source | states |
|---|---|---|
| Placeholders.TranslatePlaceholders | sidecar/driverplugin/execute.go:79-149 | the loop with its flag, counter and skips: the output is made up, position by position, of the query's own character or, for a parameter, of text that the driver reads back as its number, counted from 1; the two early exits agree with it |
| Placeholders.NumberedMeans | sidecar/driverplugin/execute.go:92-129 | which `?` is a parameter, from the text alone: quotes before it even, an even place in its run of `?`, no `?`, `\|` or `&` after it, and no letter, digit, `_`, `)`, `'` or `]` as the last character before it that is no blank |
| Placeholders.MarkerReads | sidecar/driverplugin/execute.go:134-141 | marker n is `$`, `:` or `@p` by style and then digits whose value is n |
| Placeholders.PrevNonWhitespace | sidecar/driverplugin/execute.go:151-160 | the last non-blank byte before a position, NUL if there is none |
| Placeholders.PairStep | sidecar/driverplugin/execute.go:113-119 | neither half of a `??` the loop meets is a parameter, and the loop resumes at a position it may stop at |
| Placeholders.SingleStep | sidecar/driverplugin/execute.go:104-133 | anywhere else the loop's local tests decide the same as the definition over the whole query |
| Placeholders.ScanIsPositional | sidecar/driverplugin/execute.go:92-148 | from every position the loop can stop at, the tokenizer's rest completes the position-by-position translation |
| Placeholders.TranslateIsPositional | sidecar/driverplugin/execute.go:79-149 | the tokenizer, whose tokens do not depend on the marker style, and the position-by-position reading translate every query alike |
| Placeholders.EraseScan | sidecar/driverplugin/execute.go:92-148 | forgetting the numbers of the markers gives back the query, character for character |
| Placeholders.IndicesConsecutive | sidecar/driverplugin/execute.go:133-141 | markers are numbered upwards from left to right without a gap |
| Placeholders.IndicesCounted | sidecar/driverplugin/execute.go:133-141 | there are as many markers as positions the definition names |
| Placeholders.SecondScan | sidecar/driverplugin/handlers.go:70-74 | over text translated once, a second scan in any later position numbers nothing |
| Placeholders.TranslateTwice | sidecar/driverplugin/handlers.go:159-166 | for every query, style and prefix free of quotes and `?`, translating the prefixed translation changes nothing |
| Placeholders.ExplainTexts | sidecar/driverplugin/handlers.go:70-74 | both texts `handleExplain` has executed are the prefix and the query translated once, although the code translates twice |
| Templates.SubstituteParameters | src/custom-tools.ts:335-361 | one pass over the matches: text with a `?` for each declared parameter, values in the same order, undeclared `{name}` left alone, the leftmost bad value throwing |
| Templates.ParamMeans | src/custom-tools.ts:342 | a text starts with a parameter exactly when it is an opening brace, a word, a closing brace and the rest |
| Templates.ParameterSubstitutes | src/custom-tools.ts:342-358 | in the text itself: after plain text a declared `{name}` becomes `?` and sends its value first, an undeclared one stays, a bad argument is the error |
| Templates.ArgumentAt | src/custom-tools.ts:342-358 | the k-th value is the coerced argument, or default, of the k-th parameter |
| Templates.ArgumentMeans | src/custom-tools.ts:346-397 | what is sent for a parameter, kind by kind: when the default stands in, when a value counts as true, and that the only failures are NaN and a value not listed |
| Templates.SubstituteOkIff | src/custom-tools.ts:363-397 | substitution succeeds if and only if every mentioned parameter's argument or default can be coerced; every value sent is then of the declared kind, an enum value among the allowed ones |
| Templates.LookupMeans | src/compose-expander.ts:32-67 | a reference stands for the first column of that name of that step's result, one cell for each row; and exactly when each of the four errors stops it |
| Templates.RefMeans | src/compose-expander.ts:30 | a text starts with a reference exactly when it is an opening brace, two words with a dot between them, a closing brace and the rest |
| Templates.IndexOf | src/compose-expander.ts:40-46 | the first column of that name, if any |
| ComposeText.LexPrinted | src/compose-expander.ts:55-69 | the text spliced in for a column lexes back, by the quote-doubling rule of section 5.3 of ISO/IEC 9075-2, to exactly its values, in order |
| ComposeText.PrintInjective | src/compose-expander.ts:55-69 | two different columns never print alike |
| ComposeText.ReferenceReadsBack | src/compose-expander.ts:40-69 | the text put in the place of a reference reads back as the column of that name of that step's result |
| ComposeText.ScanList | src/compose-expander.ts:60-62 | whatever the strings contain, the translator copies the spliced text, numbers no `?` in it, and goes on outside quotes |
| ComposeText.ExtractComposeReferences | src/compose-expander.ts:8-21 | each reference of the text once, in order of first occurrence |
| ComposeText.DistinctInOrder | src/compose-expander.ts:15-18 | what is listed earlier occurred earlier |
| ComposeText.ExpandsIffResolved | src/compose-expander.ts:28-72 | expansion succeeds if and only if every reference the text makes resolves |
| ComposeText.LeftmostFailure | src/compose-expander.ts:28-72 | a failing expansion has the error of the leftmost reference that does not resolve |
| Pipeline.PartsCount | src/custom-tools.ts:342-344 | cutting a text at its matches finds as many as there are positions at which a declared parameter starts |
| Pipeline.ReferenceExpands | src/compose-expander.ts:28-72 | in the text itself: after plain text, `{step.column}` becomes a list that reads back as that column, and what follows is expanded in turn |
| Pipeline.ExpandedHoles | src/compose-expander.ts:28-72 | conservation: the expanded text has the template's parameters plus the planted ones, those its strings spell out and those a brace of the template completes with data |
| Pipeline.ExpandThenCut | src/custom-tools.ts:855-860 | looking for parameters after expansion finds exactly the template's own if and only if nothing is planted |
| Pipeline.ExpandThenSubstitute | src/custom-tools.ts:855-860 | expansion followed by substitution is simultaneous substitution when nothing is planted, and differs from it for every accepted argument list when something is |
| Pipeline.PlainPlantsNothing | src/custom-tools.ts:855-860 | nothing is planted when no string cell spells a declared parameter and no reference of the template stands right behind `{name` |
| Pipeline.PlantedByNumber | src/custom-tools.ts:855-860 | the second condition is needed: `{x{s.c}}` with the number 1 becomes the parameter `{x1}` |
| Pipeline.NumberedHoles | sidecar/driverplugin/execute.go:97-142 | the translator never numbers more markers than the template has parameters, and all of them only if each one is bindable |
| Pipeline.BindableScan | sidecar/driverplugin/execute.go:97-142 | a bindable template scans to its own pieces with its parameters numbered in order |
| Pipeline.MarkersMatchHoles | sidecar/driverplugin/execute.go:97-142 | as many markers as parameters if and only if every parameter is outside quotes, not after an operand, and not before `\|`, `&` or another parameter; then each marker stands where its parameter stood |
| Pipeline.OperandLosesMarker | sidecar/driverplugin/execute.go:120-128 | any parameter that ends a plain template right after an operand, blanks aside, sends a value and no marker |
| Pipeline.LimitLosesMarker | sidecar/driverplugin/execute.go:120-128 | `LIMIT {n}` sends one value and no marker |
| Pipeline.AdjacentLoseMarkers | sidecar/driverplugin/execute.go:113-119 | so do any two parameters side by side |
| Pipeline.PairLosesMarkers | sidecar/driverplugin/execute.go:113-119 | `{a}{b}` sends two values and no marker |
| Pipeline.BindingSurvives | src/custom-tools.ts:855-881 | from template to driver: values and parameters correspond one to one, and marker k is in the place of parameter k with value k its coerced argument, if and only if the template is bindable |
| Pipeline.PlainBindingSurvives | src/custom-tools.ts:664-696 | the same for a tool's own SQL |
| ToolConfig.ValidateComposePipeline | src/custom-tools.ts:201-272 | accepts exactly the pipelines with at least one step, valid, unique and unshadowing names, one mode a step and no unknown tool |
| ToolConfig.CheckPlaceholders | src/custom-tools.ts:156-171 | accepts exactly the texts whose every placeholder is a declared parameter |
| ToolConfig.ValidateTool | src/custom-tools.ts:76-192 | accepts exactly the tools meeting the rules on name, built-in names, description, connection, permission, mode, steps, pipeline, placeholders and parameter definitions |
| ToolConfig.ToolOkMeans | src/custom-tools.ts:76-271 | an accepted tool, rule by rule, without the helpers of the validation: names letter by letter, parameters wherever they stand in SQL, steps one by one |
| CycleCheck.RankedIsAcyclic | src/custom-tools.ts:277-329 | a graph whose nodes can be numbered downwards along every edge has no cycle |
| CycleCheck.NextIff | src/custom-tools.ts:280-294 | the edges of the graph are exactly the pairs of tools a, b with a compose step of a that names b |
| CycleCheck.CyclicIff | src/custom-tools.ts:296-329 | a cycle of the graph is a cycle of tools each of which has a step naming the next |
| CycleCheck.Search.Dfs | src/custom-tools.ts:300-322 | entered with the stack set equal to the path; returns a genuine cycle without inner repetition, or leaves the stack as it was, the node finished and all earlier finishing numbers standing; ends because each entry visits a new node |
| CycleCheck.Search.Explore | src/custom-tools.ts:314-319 | the loop over neighbours: a cycle, or every neighbour finished |
| CycleCheck.Search.Pop | src/custom-tools.ts:321 | leaving the stack finishes exactly that node, above all its neighbours |
| CycleCheck.CollectRefs | src/custom-tools.ts:284-289 | exactly the tools that some step names, each once, in order of first call |
| CycleCheck.BuildEdges | src/custom-tools.ts:280-294 | the graph of tool references: an edge exactly where a step of the one names the other, and keys only for tools with edges |
| CycleCheck.DetectComposeCircularDeps | src/custom-tools.ts:277-329 | throws if and only if some tool reaches itself through steps that name the next tool; the path reported is such a cycle, with equal ends and no other repetition; otherwise the finish order ranks every tool above what it calls |
| CycleCheck.ValidateCustomTools | src/custom-tools.ts:73-197 | accepts exactly the configurations all of whose tools are well formed and none of whose tools reaches itself; the cycle reported is one of steps that name the next tool |
| CycleCheck.AcyclicNoRepeats | src/custom-tools.ts:277-329 | in an acyclic graph no chain of calls meets a tool twice |
| ComposeEval.ChainBound | src/custom-tools.ts:727-737 | a chain of nested calls is no longer than the number of tools |
| ComposeEval.RawWithinBudget | src/custom-tools.ts:727-768 | below any chain, a nesting budget of the tools not yet on it suffices: no lookup misses, every pipeline has a result |
| ComposeEval.AcceptedToolsTerminate | src/custom-tools.ts:727-768 | in every accepted configuration each tool ends in a result or a failure of its own, nesting no deeper than the number of tools |
| ComposeEval.SelfCallNeverEnds | src/custom-tools.ts:819-888 | without the check a tool that calls itself exhausts every budget |
| ComposeEval.RawKeeps | src/custom-tools.ts:743-767 | nothing gets past the checks: whatever every admitted statement and every multi-step tool keeps, a tool call keeps, at every depth of nesting |
| ComposeEval.SqlToolMeans | src/custom-tools.ts:743-767 | a tool with SQL of its own: its text substituted, checked and executed once; a failing substitution or a refusal leaves the world as it was and is the error |
| ComposeEval.InlineStepMeans | src/custom-tools.ts:853-882 | an inline step: references expanded first, then parameters substituted, then checked and executed once; each failure leaves the world as it was |
| ComposeEval.ToolStepMeans | src/custom-tools.ts:834-852 | a step that names a tool runs it with the step's arguments, one that is exactly `{name}` standing for the caller's, undefined if there is none |
| ComposeEval.StepsToolMeans | src/custom-tools.ts:739-741 | a multi-step tool is run as one, and its error is the call's |
| ComposeEval.TraceStep | src/custom-tools.ts:831-886 | from step to step the world is handed on and the result filed under the step's name |
| ComposeEval.StepsSeeEarlier | src/custom-tools.ts:828-885 | a step sees exactly the results of the earlier steps of its own pipeline |
| ComposeEval.PipelineIsLast | src/custom-tools.ts:884-888 | a pipeline's outcome is that of its last step executed, and a failing step is the last |
| ComposeEval.ReferencesReachBack | src/compose-expander.ts:32-38 | a reference is "not found" exactly when it names no earlier step of the same pipeline |
| ComposeEval.ExecuteRawCustomTool | src/custom-tools.ts:727-768 | the recursion, ending because the chain of callers grows, computes what the evaluator defines |
| ComposeEval.ExecuteComposedToolRaw | src/custom-tools.ts:819-889 | the loop over the steps computes what the evaluator defines |
| StepChecks.PrepareSteps | src/custom-tools.ts:522-537 | before the lock and the first backend call every step has been substituted, checked and permitted; the first offender decides the error |
| StepChecks.PermitsTable | src/permission-enforcer.ts:3-7 | read is for every level, write for all but read-only, DDL for admin |
| StepsTool.ExecuteStepsRaw | src/custom-tools.ts:549-599 | over a backend changed in place, the `try`/`catch`/`finally` sends and leaves behind what the command-by-command machine does; a rejected BEGIN does not reach the release |
| StepsTool.DropTempTables | src/custom-tools.ts:588-595 | every temporary table noted gets its DROP, errors ignored |
| StepsTool.WholeCall | src/custom-tools.ts:549-599 | closed form of a call: the commands sent are BEGIN, the accepted steps, the rejected one, COMMIT and/or ROLLBACK, one DROP for each table; final tables; when it throws; what it returns |
| StepsTool.AllOrNothing | src/custom-tools.ts:549-599 | on return every step has taken effect in order, is committed, and the marked step's rows or else the last one's come back; on throw, with a working ROLLBACK, the permanent tables are as before the clean-up, and the temporary ones too where the database undoes them; with working drops no noted temporary table is left |
| StepsTool.CleanupSpares | src/custom-tools.ts:588-595 | clean-up leaves the permanent tables alone if and only if each noted name that is also a permanent table is at that point a temporary table and was noted once |
| StepsTool.CleanedName | src/custom-tools.ts:588-595 | where a name stands after any number of drops, temporary table first |
| StepsTool.CleanedOthers | src/custom-tools.ts:588-595 | tables not named are untouched |
| StepsTool.RerunStartsTheSame | src/custom-tools.ts:554-557 | with new temporary names and working drops and ROLLBACK, a call that throws leaves the session exactly as it was and one that returns leaves its temporary tables as they were |
| StepsTool.ThrowCanDropPermanent | src/custom-tools.ts:580-595 | a run in which a failing tool loses a permanent table |
| TransactionLock.Locks.TryAcquire | src/connection-manager.ts:153-163 | one turn of the wait loop: the live promise to wait for, or the lock with a new promise |
| TransactionLock.Locks.Release | src/connection-manager.ts:165-168 | the connection's entry is gone and the holder's own promise is resolved |
| TransactionLock.StepKeeps | src/connection-manager.ts:153-169 | every event keeps: one recorded holder for each connection, live tokens unresolved and distinct, waiters on a live or resolved token, the session as its released calls leave it one by one |
| TransactionLock.MutualExclusion | src/connection-manager.ts:148-169 | in every interleaving at most one call on a connection lies between acquire and release, and it holds the live promise |
| TransactionLock.NoLostWakeUp | src/connection-manager.ts:155-157 | a waiter waits for a promise already resolved or one the present holder will resolve |
| TransactionLock.Serializable | src/custom-tools.ts:544-547 | on an idle connection the session, everything sent to it and every answer are those of the released calls running alone in release order |
| TransactionLock.WholeBlocks | src/custom-tools.ts:547-597 | at any moment a session has received whole blocks, BEGIN to the last DROP, and then the beginning of the holder's |
| TransactionLock.NoDeadlock | src/connection-manager.ts:153-169 | in a reachable state in which no call of the connection is stuck, an unfinished call means some call on it can move; `StuckIff` says which calls get stuck |
| TransactionLock.RejectedBeginBlocks | src/custom-tools.ts:547-549 | after a rejected BEGIN the entry stays and no other call on the connection gets in, in any continuation |
| TransactionLock.RunsAreBounded | src/connection-manager.ts:155-157 | no interleaving goes on for ever: the re-check loop wakes in vain only as often as other calls release |
| TransactionLock.QuietMeansDone | src/custom-tools.ts:544-597 | when nothing more can happen every call has come back, or some call of its connection is stuck |
| TransactionLock.LeavesOpen | src/custom-tools.ts:580-586 | a call that comes back leaves its transaction open if and only if it threw and its ROLLBACK was refused |
| TransactionLock.WedgedIsOpen | src/custom-tools.ts:580-597 | on a connection idle at first, the session between calls is inside a transaction if and only if the last call released left it so |
| TransactionLock.StuckIff | src/custom-tools.ts:547-549 | a call past its BEGIN is stuck if and only if its own BEGIN was to be refused or the call released before it threw with its ROLLBACK refused |
| TransactionLock.HealthyCallsFinish | src/custom-tools.ts:544-597 | on a connection idle at first, whose calls' BEGINs and ROLLBACKs are not refused, every call has come back once nothing more can happen, in every interleaving |
| TransactionLock.RefusedBeginNeverFinishes | src/custom-tools.ts:547-549 | a call whose BEGIN is refused comes back in no reachable state |
| TransactionLock.WedgedForGood | src/custom-tools.ts:580-586 | after a call that threw with its ROLLBACK refused, no other call of the connection ever comes back |
| TransactionLock.RefusedBeginGetsStuck | src/custom-tools.ts:547-549 | a run from the start in which a call with a refused BEGIN gets stuck |
| TransactionLock.RefusedRollbackWedges | src/custom-tools.ts:580-586 | a run from the start in which a failing call comes back with its ROLLBACK refused and the next call, without a fault of its own, gets stuck |
| SidecarRpc.SettlesAtMostOnce | src/sidecar-client.ts:206-249 | over every run of sends, responses, timeouts, exits and respawns a request settles at most once, is pending and has an armed timer exactly while unsettled, and ids are issued once |
| SidecarRpc.SettledForGood | src/sidecar-client.ts:206-271 | a settled request keeps its outcome in every continuation |
| SidecarRpc.SettledByItsOwn | src/sidecar-client.ts:206-271 | in every run, a response a request settles with came on a line with its id, a timeout from its own timer, a crash from an exit |
| SidecarRpc.OnlyByItsOwnId | src/sidecar-client.ts:251-271 | a response settles the request with its id (section 5 of JSON-RPC 2.0) and no other; an unknown or late id changes nothing |
| SidecarRpc.ExitEmptiesPending | src/sidecar-client.ts:42-59 | an exit rejects every pending request and leaves no timer; it is reported as a crash unless asked for |
| SidecarRpc.OnlyUnaskedExitsAreCrashes | src/sidecar-client.ts:55-58 | over every run the crash handler is called once for each exit that was not asked for and for no other: asked for means that the last stop or start before it was a stop |
| SidecarRpc.EnsuresAlive | src/sidecar-client.ts:83-88 | afterwards a process is recorded whose exit code is not set: the old one untouched, or a new one |
| SidecarRpc.ExitsRejectTheirOwn | src/sidecar-client.ts:42-59 | if no process is started before the exit of the earlier one, an exit only rejects requests written to that process, and a response only settles a request written to the process it comes from |
| SidecarRpc.OverlapIsExact | src/sidecar-client.ts:31-69 | the condition is exact: an event leads to a state from which no exit can reject another process's request if and only if it does not start a process while the exit of an earlier one is still to come |
| SidecarRpc.LateExitHitsSuccessor | src/sidecar-client.ts:71-81 | stop, start, send, and then the old exit: the new process's request is rejected and the live process forgotten |
| SidecarRpc.OldReaderStaysAttached | src/sidecar-client.ts:62-80 | start, start, stop: lines of the first process still come in, those of the second do not |
| SidecarRpc.SidecarClient.StartProcess | src/sidecar-client.ts:31-69 | the new process and reader replace those recorded; an old reader stays attached |
| SidecarRpc.SidecarClient.StopProcess | src/sidecar-client.ts:71-81 | process and reader are forgotten at once; pending requests stay |
| SidecarRpc.SidecarClient.EnsureProcess | src/sidecar-client.ts:83-88 | starts a process only if none is recorded or the recorded one's exit code is set |
| SidecarRpc.SidecarClient.SendRequest | src/sidecar-client.ts:206-248 | the next id, with its timer armed, or an error without a process |
| SidecarRpc.SidecarClient.HandleResponse | src/sidecar-client.ts:251-271 | the step of a response |
| SidecarRpc.SidecarClient.HandleTimer | src/sidecar-client.ts:225-233 | the step of a timeout |
| SidecarRpc.SidecarClient.RejectAll | src/sidecar-client.ts:43-46 | the loop over the pending table, in any order, clears every timer and rejects every request once |
| SidecarRpc.SidecarClient.HandleExit | src/sidecar-client.ts:42-59 | the step of an exit, in every state, whichever process is recorded |
| DriverRpc.LifeGoesOn | sidecar/driverclient/client.go:85-149 | every event keeps each id in one of its states: waiting, held by the reader, answered, failed to be written |
| DriverRpc.AtMostOneResult | sidecar/driverclient/client.go:90-149 | each channel is sent to at most once, `Send` returns what was put there, and neither the reader nor the drain ever blocks on the one-slot buffer |
| DriverRpc.EndedIffDrained | sidecar/driverclient/client.go:122-149 | the reader is gone exactly after the drain, which comes once and after which no line is read |
| DriverRpc.ReturnsUnlessLate | sidecar/driverclient/client.go:115-149 | once the reader is gone and the channels are read, a `Send` has returned if and only if it was not registered after the drain with its write succeeding |
| DriverRpc.RegisteredBeforeDrainReturns | sidecar/driverclient/client.go:142-149 | every `Send` registered before the drain returns; a late one never does |
| DriverRpc.LateIsReachable | sidecar/driverclient/client.go:107-115 | a run that leaves a request waiting for good: registered after the drain, its bytes written |
| DriverRpc.OnlyByItsOwnLine | sidecar/driverclient/client.go:130-139 | what a `Send` returns, other than a crash, was read from a line with its id |
| DriverRpc.LateLinesIgnored | sidecar/driverclient/client.go:130-139 | a line for an unknown or answered id changes nothing |
| DriverRpc.DeathUnnoticed | sidecar/driverclient/client.go:163-165 | a client counts as running until it is stopped, whatever happens to its process |
| DriverRpc.DeadClientServesNothing | sidecar/drivermanager/manager.go:107-109 | every request to a client whose reader has ended fails to be written or never returns |
| DriverRpc.DriverClient.BeginSend | sidecar/driverclient/client.go:86-113 | the critical section of `Send`; a failed write takes the registration back |
| DriverRpc.DriverClient.LookUp | sidecar/driverclient/client.go:130-135 | the reader takes the entry out under the mutex and delivers later |
| DriverRpc.DriverClient.DeliverHeld | sidecar/driverclient/client.go:137-139 | the held result goes into its channel |
| DriverRpc.DriverClient.DrainAll | sidecar/driverclient/client.go:142-148 | the loop, in any order, gives every pending channel the crash and empties the table |
| DriverRpc.DriverClient.ReceiveResult | sidecar/driverclient/client.go:115-119 | `Send` takes the one result out of its channel |
| DriverRpc.Manager.GetClient | sidecar/drivermanager/manager.go:103-154 | one client for a binary: the known one while it counts as running, else a fresh one, or none |
| DriverManifest.Manager.LoadManifest | sidecar/drivermanager/manager.go:84-89 | the nested loops leave each scheme with the binary of the last entry that claims it, and no other scheme |
| DriverManifest.LastClaimIsAClaim | sidecar/drivermanager/manager.go:84-89 | what a scheme resolves to is a binary that claims it, and it resolves to none only if nothing claims it |
| DriverManifest.LastClaimIff | sidecar/drivermanager/manager.go:86-90 | a scheme resolves to a binary exactly when the last entry that claims the scheme has it |
| DriverManifest.OrderIrrelevantIff | sidecar/drivermanager/manager.go:84-89 | Go iterates over the manifest in arbitrary order: a scheme resolves alike in every order if and only if no two entries with different binaries claim it |
| Tiers.StepKeeps | sidecar/main.go:119-170 | every calm event keeps: routes are what TypeScript will hold connected once the answers under way arrive; every route leads to an open connection; a name has at most one connect under way |
| Tiers.ServeMeans | sidecar/main.go:85-177 | what serving a request does to routes and connections and how it is answered, case by case |
| Tiers.StatusMeans | src/connection-manager.ts:27-35 | what each event makes of a name's status: connected, broken or available, and that nothing else changes it |
| Tiers.RoutesOpenIff | sidecar/driverplugin/connections.go:115-126 | an event breaks the agreement between routes and connections if and only if it is the crash of a driver some route leads to, or a failing Close in the disconnect of a routed name |
| Tiers.CalmIff | src/connection-manager.ts:24-36 | the calm events are exactly those that keep the whole invariant |
| Tiers.OverlapLoses | src/connection-manager.ts:24-28 | an overlapping connect at once loses only that a name has at most one connect under way |
| Tiers.TimeOutLoses | src/sidecar-client.ts:225-233 | a timeout at once loses only that every answer will be listened to |
| Tiers.TiersAgree | src/connection-manager.ts:24-36 | in every calm run, crashes of the sidecar and of drivers without routes included: connected names have a route unless their disconnect is being answered, routes have an open connection in that driver, status follows connection |
| Tiers.CrashRestoresAgreement | src/connection-manager.ts:126-134 | a sidecar crash in any state whatever leaves three empty tables in agreement |
| Tiers.OpenedIsReachable | src/connection-manager.ts:24-31 | an open connection with nothing under way, from which three of the next rows start, is reached by a calm run |
| Tiers.DriverCrashHollows | sidecar/drivermanager/manager.go:107-109 | without "no driver crash" a connected, routed name has no connection |
| Tiers.FailingCloseHollows | sidecar/driverplugin/connections.go:115-126 | the same after a Close that fails, since the entry goes but the route stays |
| Tiers.OverlappingConnectsHollow | sidecar/driverplugin/connections.go:41-63 | the same when two connects of one name overlap and the second is refused |
| Tiers.TimedOutDisconnectStrands | src/connection-manager.ts:118-124 | a disconnect that times out leaves a name connected without a route |
| Tiers.TimedOutConnectStrands | src/sidecar-client.ts:225-233 | a connect that times out leaves a route without TypeScript knowing, and a refused retry leaves that route without a connection |
| Tiers.HollowForGood | src/connection-manager.ts:24-25 | a connected, routed name without a connection is never repaired by any sequence of connects and disconnects, only by the sidecar going |
| Tiers.Plugins.Open | sidecar/driverplugin/connections.go:37-91 | an existing entry goes first, and comes back only if opening and ping succeed |
| Tiers.Plugins.Close | sidecar/driverplugin/connections.go:115-126 | the entry goes even when Close fails; an unknown name is an error |
| Tiers.Sidecar.HandleConnect | sidecar/main.go:85-135 | the route is written only after the driver has agreed |
| Tiers.Sidecar.ForwardDisconnect | sidecar/main.go:137-170 | the route goes only after the driver has agreed |
| Tiers.ConnectionManager.Answered | src/connection-manager.ts:27-35 | what an answer does to `connectedIds` and `statusMap` |
| Tiers.ConnectionManager.HandleSidecarCrash | src/connection-manager.ts:129-134 | nothing is connected, every known name is available, and connects under way then end in error |
| SchemaCache.ConnectionManager.GetSchema | src/connection-manager.ts:55-86 | taken alone, a hit equals a fresh fetch, and the cache stays coherent |
| SchemaCache.ConnectionManager.ExecuteSql | src/tools/execute-sql.ts:201-212 | taken alone, a statement leaves the cache coherent with the database after it, dropping the entry exactly for writes and DDL |
| SchemaCache.ConnectionManager.ExecuteSteps | src/custom-tools.ts:560-597 | the same for a multi-step tool, however it ends |
| SchemaCache.SoundMeansNeverStale | src/connection-manager.ts:66-84 | a state is sound, fetches under way included, if and only if no continuation without a write ends in a stale cache |
| SchemaCache.CacheIsLast | src/connection-manager.ts:66-123 | what is cached, stale or not, is served until another fetch is stored, something is written or the connection is closed; after a write or a close nothing is served until a fetch is stored |
| SchemaCache.EffectKeepsSoundIff | src/custom-tools.ts:560-595 | any change of the schema, by a single statement, a step, COMMIT, ROLLBACK or DROP, keeps soundness if and only if at that moment nothing is cached and no fetch is under way |
| SchemaCache.ApartIsFresh | src/custom-tools.ts:547-597 | in every run in which no fetch overlaps a single write or a multi-step call, a hit equals a fresh fetch at every moment except between a step's effect and the invalidation after it |
| SchemaCache.OverlapIsExact | src/custom-tools.ts:547-597 | from a quiet state, an event is followed by fresh answers in every continuation that keeps fetches apart if and only if it does not itself make a fetch overlap a write or a call |
| SchemaCache.HitInsideCallIsStale | src/custom-tools.ts:562-570 | the window is real: a step has changed the schema, no fetch is under way, and the cache still answers with the old one |
| SchemaCache.FetchInsideWriteGoesStale | src/tools/execute-sql.ts:201-212 | a fetch between the early invalidation and the write leaves the old schema cached |
| SchemaCache.FetchBeforeRollbackGoesStale | src/custom-tools.ts:567-582 | a fetch between a step's invalidation and ROLLBACK caches the schema that is rolled back |
| SchemaCache.ForeignWriteRolledBack | src/custom-tools.ts:580-586 | a single statement that takes effect inside a call's transaction is rolled back with it, and nothing stale is cached |
| Paging.ExecuteRead | sidecar/driverplugin/execute.go:237-285 | the first rows up to the maximum and whether there are more; an error only if it strikes among them |
| Paging.HandleExecute | sidecar/driverplugin/handlers.go:29-45 | the same, with 500 for a count that is not positive |
| Paging.HandleExecuteSql | src/tools/execute-sql.ts:206-227 | the page asked for, its count and its `truncated` flag, for every limit and offset not both zero; errors pass through |
| Paging.ServedIsWanted | src/tools/execute-sql.ts:206-229 | across both languages, rows `offset` to `offset + limit` and `truncated` exactly when rows follow, if and only if some row was asked for or there is none |
| Paging.ZeroMeansFiveHundred | sidecar/driverplugin/handlers.go:30-33 | limit zero at offset zero serves the first 500 rows |
| Paging.NegativeOffset | src/tools/execute-sql.ts:206-227 | a negative offset shortens the page |
| Paging.SliceMeans | src/audit-logger.ts:117-119 | a slice element by element, for all bounds |
| Paging.PagesConcatenate | src/tools/execute-sql.ts:206-227 | successive pages put together are the result, for any page size |
| Paging.StopAtLastPage | src/output-formatter.ts:23-24 | the first page not truncated completes the result, and none before it does |
| AuditLog.AppendedLine | src/audit-logger.ts:49-52 | an appended line is read back as exactly one more line |
| AuditLog.JoinedLines | src/audit-logger.ts:70-74 | splitting undoes joining, so a pruned file reads back as the lines kept |
| AuditLog.AuditLogger.Record | src/audit-logger.ts:22-65 | on the text of the file: the line appended, and on every hundredth write the cut to the newest maxEntries |
| AuditLog.AuditLogger.PruneIfNeeded | src/audit-logger.ts:67-79 | the file is cut to its last maxEntries lines, or left as it is when that fails |
| AuditLog.FileIsRecent | src/audit-logger.ts:52-79 | after any run, failures included, the file is a suffix of everything written and holds at least the last maxEntries lines |
| AuditLog.FileIsBounded | src/audit-logger.ts:54-60 | while prunes work the file exceeds the larger of maxEntries and the initial file by at most 99 lines |
| AuditLog.EveryHundredth | src/audit-logger.ts:54-61 | over every run exactly each hundredth append is followed by a prune; every other one adds its line and drops none |
| AuditLog.NeverPruned | src/audit-logger.ts:55 | with maxEntries zero nothing is ever dropped |
| AuditLog.ReadEntries | src/audit-logger.ts:85-123 | the chain of parsing, reversing, filtering and slicing gives a slice of the matching entries, newest first |
| AuditLog.NewestPass | src/audit-logger.ts:108-114 | whatever is read back was parsed from a line and has the connection and the status asked for, where any are |
| AuditLog.ReadsBackHistory | src/audit-logger.ts:22-123 | over any run what is read back is a newest-first prefix of the matching history, and complete for the last maxEntries lines |
| AuditLog.PagesConcatenate | src/audit-logger.ts:116-119 | consecutive pages put together are the whole list |
| SchemaHint.BuildHint | src/schema-hint-manager.ts:36-46 | the full form if it fits, else the largest cap from 11 to 4 that fits, else the cut list of names |
| SchemaHint.TruncateHint | src/schema-hint-manager.ts:63-98 | the loop finds the largest cap that fits, if any |
| SchemaHint.HintIsShort | src/schema-hint-manager.ts:36-46 | the hint is unique and never longer than 800 characters, for every set of schemas |
| SchemaHint.HintMeans | src/schema-hint-manager.ts:3-5 | the bounds: 800 characters, caps from 12 down to 4, and 797 characters of names before the dots |
| SchemaHint.HintExample | src/schema-hint-manager.ts:38-46 | the text: one connection without its name, two with theirs |
| SchemaHint.TwentyTables | src/schema-hint-manager.ts:57-60 | of more than twenty tables the first twenty are shown and the others counted |
| SchemaHint.PutMeans | src/schema-hint-manager.ts:29 | a known connection keeps its place and gets the new schema, a new one comes last, the others stay |
| SchemaHint.OneColumnLess | src/schema-hint-manager.ts:70-74 | what one column less saves, and what the first hidden column costs |
| SchemaHint.LongerIff | src/schema-hint-manager.ts:70-74 | a smaller cap gives a longer text exactly when it hides just one column with a name of at most two characters, so the search cannot stop early |
| SchemaHint.SchemaHintManager.UpdateHints | src/schema-hint-manager.ts:27-34 | every tool's description is its own base and the one hint for all connections, at most 802 characters longer; nothing changes when disabled |

## Left out

- Processes, pipes, files, downloads, clocks and the network: they appear as events or parameters, never as calls. A write that blocks for ever on a full pipe is not an event.
- `classifyQuery`, the multi-statement test and the security checks are parameters, because the SQL parser behind them is foreign code; only that every statement passes them before it is sent is modelled.
- The backend is one session for each connection; Go's connection pool is not modelled, nor are statements of other tools that reach a connection while a transaction is open on it (`execute_sql` does not take the lock).
- A COMMIT that reports an error after taking effect is not modelled; neither are databases that commit implicitly on DDL.
- The letter-case rule of `getConnection`: the names it resolves are part of the configuration.
- Custom tool tables are maps: names that JavaScript objects inherit, such as `constructor`, are not modelled.
- Characters stand for bytes and for UTF-16 units; all characters the code looks at are ASCII. Numbers in row data are texts that begin and end in a digit or begin with a sign, as `String` prints finite ones; JSON carries no others.
- `String`, `Number` and `toLowerCase` on arguments are parameters of the substitution.
- SidecarRpc.SidecarClient.SendRequest: begins after the `await` of `ensureRunning`, which is an event of its own; a write error on the pipe is not modelled.
- SidecarRpc.SidecarClient.HandleResponse: lines still buffered in a reader that has been closed are not modelled.
- Pipeline.BindingSurvives: templates with a `?` of their own outside quotes, or a reference inside quotes, are not covered: such a `?` has no parameter to be paired with, and data spliced between quotes ends them.
- DriverRpc.DriverClient.DrainAll: channels are values in a table, not objects; a receive in the middle of the drain comes before or after it, because the drain holds the mutex and never waits.
- DriverRpc.Manager.GetClient: where the binary is found, downloaded or built is one parameter.
- DriverManifest.Manager.LoadManifest: which of the three places the manifest comes from is not modelled.
- Tiers.Sidecar.ForwardDisconnect: the other forwarded methods change none of the three tables.
- Tiers.TiersAgree: an intended stop of the sidecar, which does not clear `connectedIds`, is a shutdown and not an event.
- SchemaCache.ApartIsFresh: one connection; schema changes made by other clients of the database are not events, and a step that reports an error has changed nothing.
- Paging.ExecuteRead: the conversion of bytes and non-finite floats in a row, and the truncation of long values in the formatter, are not modelled. Limits and offsets are integers.
- `isWriteQuery` and `hasReturningClause`, which choose between executing and querying, are not modelled: fixed lists of prefixes.
- AuditLog.AuditLogger.Record: the logger is enabled; calls follow one another, lines are not blank and hold no line break, as in jsonl format, and the existing file ends in a line break. A failed append leaves no part of a line.
- SchemaHint.BuildHint: the order that `localeCompare` and `sort` give is part of the input.
- The SQL Server branch of `handleExplain`, connection settings, dialect strings, command-line screens and tool registration.
