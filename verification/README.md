# Verified models of the server's state machines

Dafny models of six parts of the server and of its collaboration and agent runtimes, with proofs over every input, every run and every interleaving. Check the whole project with `dafny verify dfyconfig.toml`.

| modules | part of the system |
|---|---|
| `SnapshotStore`, `SnapshotProtocol`, `SnapshotReader`, `SnapshotRetention` | the two-generation document snapshot: what a write and a read do, what is stored after any number of writes, what overlapping and crashing writers can do to each other, and what they can do to a reader under way |
| `WorkflowTypes`, `WorkflowGraph`, `WorkflowValidation`, `WorkflowEngine`, `WorkflowLoops` | the workflow engine: validation and its cycle check, execution order, nodes with retry, reconciliation and resume, nested workflows |
| `WorkflowAdmission`, `WorkflowInputs`, `WorkflowDocuments`, `WorkflowOutcomes` | what an accepted workflow may contain, what each node is given, what nested runs report and how attempts and nodes end, stated without the engine's own functions |
| `WorkflowEffects`, `WorkflowNestedEffects`, `WorkflowWorlds`, `WorkflowAccounting`, `WorkflowResume`, `WorkflowResumeNested`, `WorkflowExamples`, `ForEachSchedule` | effects, the account of a finished run, resume, the goroutines of for_each; two concrete runs |
| `SerialLifecycle` | the lock that serializes tool calls through their durable lifecycle |
| `ProviderBudget`, `ProviderBudgetEdges`, `ProviderBudgetObjects` | the sliding-window budget for model calls and tokens, as values and as the objects kept in place; what intervals with both ends included can hold |
| `JsonValues`, `JsonCanonical`, `JsonSizes`, `JsonScanner`, `RoutineLanguage`, `RoutineMeaning`, `RoutineWire`, `RoutineRun`, `RoutineOutcomes`, `RoutinePlan` | the routine language, its meaning and its two implementations, admission, the coordinator and agent steps and what their results say, and the plan the server makes from receipts; the canonical text of JSON values, its size and nesting, and the scanner that finds an object in free text |
| `SessionCache`, `TicketLedger` | the session cache under racing loads, and single-use tickets under sweeping |
| `OrderedStrings` | strings in order, shared by the others |

Code that changes state is a method, over a class where the source keeps an object, and each is proved equal to a function of the old state; the results below are proved about those functions, and what each of them computes is stated once more in terms of its inputs and outputs alone. Concurrent code is a machine whose steps are the critical sections or the pieces of code between two awaits; a run is any sequence of enabled steps.

## What the proofs found

* **A resumed run forgets partial results.** The engine does not restore the partial flag from `Completed`, and the query that fills it (`internal/platform/postgres/workflow_runtime.go:56`) also loads steps that completed with errors. Resuming gives the same result exactly when no checkpoint the run reaches is a partial one: among its own nodes in `WorkflowResume.ResumeEquivalentIffNoPartial`, in nested runs as well in `WorkflowResumeNested.ResumeEquivalentIffNoPartialAnywhere`. `WorkflowExamples.PartialCheckpointLosesErrors` is a run that differs.
* **Cancelling the parent of a for_each can hide items.** The goroutines that find the context done leave blank results. An item that never ran goes unreported exactly when the parent was canceled and, failing fast, no item that did run failed (`ForEachSchedule.UnreportedIff`); only a job without items is safe in every schedule (`ForEachSchedule.AlwaysReportedIffNoItems`).
* **A provider that wrongly denies an earlier effect gets a second one.** At most one effect per execution holds exactly when reconciliation never denies an effect that took place (`WorkflowEffects.AtMostOneEffectIffNeverDenies`).
* **A retrying parent repeats the effects of its nested run.** It runs the nested workflow again from the first attempt, so an identity below it applies its effects once per attempt that runs the handler (`WorkflowNestedEffects.NestedEffects`). When nothing but replies stops the attempts, there is at most one effect exactly when one run of the handler applies none, or one and its reply settles the node (`WorkflowNestedEffects.NestedAtMostOneIff`). `WorkflowExamples.RetryingParentRepeatsEffects` has three effects although every call is answered and no effect is denied. Below a nested workflow, or a for_each that fails fast, no provider is safe: there is at most one effect in every world with the same rules, schemas and reconciliation exactly when there is none in any (`WorkflowWorlds.NestedAtMostOneInAllIffUnreached`).
* **Overlapping writers can lose the fallback.** The current snapshot is always whole, but the previous manifest can come to name deleted chunks (`SnapshotProtocol.OverlapLosesFallback`). Without empty updates, the generation committed before the current one is the fallback and whole at every moment exactly when every writer commits over the generation it read (`SnapshotProtocol.FallbackKeptIffCommitsOverSeen`). An empty update commits a manifest that reads as nothing.
* **A reader can be outrun.** A read takes several storage steps, and returns nothing or version 1 data although a whole current generation exists throughout exactly when a writer deletes a chunk of the manifest it took before it has the chunks, and the previous manifest is absent or not whole when its chunks are read (`SnapshotReader.MissesIff`). If writers commit over what they read, both generations must be deleted under the reader (`SnapshotReader.UpToDateMissesIff`), which takes three commits during one read (`SnapshotReader.MissNeedsThreeCommits`); `SnapshotReader.ReaderOutrun` is such a run, with writers that never overlap.
* **A rate window is half open.** Every interval that excludes its start and includes its end keeps the limit. With both ends included it can hold up to twice the limit, and it keeps the limit in every run exactly when the other windows are tight enough: for the minute `perHour <= perMinute || perDay <= perMinute`, for the hour `perDay <= perHour || 61 * perMinute <= perHour`, for the day `1441 * perMinute <= perDay || 24 * perHour + min(perMinute, perHour) <= perDay` (`ProviderBudgetEdges.ClosedMinuteIff`, `ClosedHourIff`, `ClosedDayIff`).
* **The two routine evaluators differ on long values and on negative zero.** The server refuses an expression whose result prints longer than 1 MiB, while the coordinator bounds only what it retains; `JSON.stringify` prints negative zero as zero and `json.Marshal` does not. Within an admitted definition these are the only differences in this model, whose text has no lone surrogates (the server replaces those, the coordinator keeps them): every expression and condition of it decodes and fits the server's depth (`RoutineWire.AdmittedIsReadable`, `RoutineWire.AdmittedConditionIsReadable`), a readable condition without negative zero is answered alike exactly when no value looked at is too long (`RoutineWire.ConditionsAgree`), and two values are compared alike exactly when neither is too long and they do not differ only in the sign of some zero (`RoutineWire.ComparisonAgreesIff`). `RoutineWire.LongTextDiffers` and `RoutineWire.NegativeZeroDiffers` are the failing inputs.
* **The server's plan and the coordinator's run can part ways.** The plan made from the receipts lists the coordinator's steps and states exactly when the two account for every step alike: neither refuses it and its receipt reads as the state the coordinator confirmed, or both refuse it, or one refuses it and the other finds it failed (`RoutinePlan.PlanReportsIffTracked`). A reply lost after the call took effect breaks this: the coordinator stops, uncertain, while the plan counts the call as completed and asks for the next one (`RoutinePlan.LostReplyGoesOn`); the coordinator's limit on retained data can do the same. The plan asks for the very call the coordinator is about to make exactly when it passes every step before and finds no final receipt for that call (`RoutinePlan.NextCallIffComesTo`); with the receipts of the calls made so far, exactly when the server found no value up to that step too long (`RoutinePlan.NextCallIffNoneRefused`). A failure after a completed step is reported as failed by the coordinator and as partial by the server.
* **Tickets are single use only while retention covers them.** A ticket is claimed at most once exactly when its lifetime and the longest wait between check and claim sum to at most the retention plus one millisecond (`TicketLedger.SingleUseIffRetained`). A purge keeps that from then on exactly when no request in flight can still claim a ticket that was claimed before it (`TicketLedger.PurgeSafeIff`); `TicketLedger.PurgeForgetsClaims` is a run where one can.
* **Forgetting a session in use splits its holders** (`SessionCache.ForgetSplitsHolders`); nothing else does (`SessionCache.SharedIffNoHeldForget`).

## Model

| member | source | states |
|---|---|---|
| `SnapshotStore.DocumentStorage.Write` | apps/journal-collab/src/document-persistence.ts:39-82 | the chunk loop and the commit leave, key by key: a chunk per 96 KiB under the new generation, none of the chunks of a genuine previous manifest of another generation than the current one, every other key as it was, the new manifest as current and the old one as previous when it is genuine; an update over the limit changes nothing |
| `SnapshotStore.DocumentStorage.ReadParts` | apps/journal-collab/src/document-persistence.ts:132-153 | a manifest reads as its joined chunks exactly when it is well formed and none is missing, with the right length and digest |
| `SnapshotStore.DocumentStorage.Read` | apps/journal-collab/src/document-persistence.ts:85-98 | current, else previous, else the legacy chunks |
| `SnapshotStore.Concatenate` | apps/journal-collab/src/document-persistence.ts:174-182 | the buffer filled part by part is the parts joined in order |
| `SnapshotStore.FlattenChunks` | apps/journal-collab/src/document-persistence.ts:50-57 | the 96 KiB slices of an update joined again are the update |
| `SnapshotStore.WriteThenRead` | apps/journal-collab/src/document-persistence.ts:39-98 | a write under a new generation is what the next read returns, exactly when the update is not empty |
| `SnapshotStore.FallsBackToPreviousWrite` | apps/journal-collab/src/document-persistence.ts:84-98 | when chunks of the new generation are lost or damaged beyond its digest, the read returns what was readable before the write |
| `SnapshotRetention.TwoGenerationsStored` | apps/journal-collab/src/document-persistence.ts:39-82 | after any number of writes of non-empty updates under new generations the stored chunks are exactly those of the last two generations |
| `SnapshotRetention.ReadGives` | apps/journal-collab/src/document-persistence.ts:85-98 | a read gives the current update exactly when its manifest is well formed and its chunks are there and join to the length and digest given; else the previous one, else version 1 data within its limits, else nothing |
| `SnapshotRetention.UndisturbedIsWritten` | apps/journal-collab/src/document-persistence.ts:39-82 | among the storage steps of the protocol, an undisturbed writer leaves what the write of the storage object leaves |
| `SnapshotProtocol.RunInv` | apps/journal-collab/src/document-persistence.ts:47-80 | what every storage step of every interleaving keeps: who owns each chunk, what the manifests name, what each writer has read and retired |
| `SnapshotProtocol.CurrentNeverDeleted` | apps/journal-collab/src/document-persistence.ts:68-80 | no step of any interleaving deletes a chunk of the generation the current manifest names |
| `SnapshotProtocol.RetiredForGood` | apps/journal-collab/src/document-persistence.ts:68-80 | a generation once recorded as previous is never current again |
| `SnapshotProtocol.ReadsLastCommitted` | apps/journal-collab/src/document-persistence.ts:39-98 | at every moment, after any crashes, a read returns the update whose manifest was put last, exactly when it is not empty |
| `SnapshotProtocol.NeverAMix` | apps/journal-collab/src/document-persistence.ts:132-153 | a manifest taken at one moment and its chunks fetched at a later one give that generation's update or nothing |
| `SnapshotProtocol.FallsBackToPreviousCommit` | apps/journal-collab/src/document-persistence.ts:32-38 | when writers commit over the manifest they read, losing the current generation at any moment leaves the previously committed update readable |
| `SnapshotProtocol.FallbackKeptIffCommitsOverSeen` | apps/journal-collab/src/document-persistence.ts:47-80 | in a run without empty updates, the previous manifest names the generation committed before the current one and is whole at every moment, exactly when every commit is made over the generation its writer read |
| `SnapshotProtocol.AloneIsUpToDate` | apps/journal-collab/src/document-persistence.ts:47-76 | writers that run one at a time always commit over the manifest they read |
| `SnapshotProtocol.OverlapLosesFallback` | apps/journal-collab/src/document-persistence.ts:47-80 | a run of overlapping writers after which the previous manifest is well formed but unreadable |
| `SnapshotReader.CurrentReadIff` | apps/journal-collab/src/document-persistence.ts:87-90 | without empty updates, a current manifest taken at one moment reads at a later one as the update it was put for, unless a writer deleted a chunk of its generation in between |
| `SnapshotReader.MissesIff` | apps/journal-collab/src/document-persistence.ts:85-98 | a reader that took a current manifest returns version 1 data or nothing exactly when a chunk of that generation is deleted before it has the chunks and the previous manifest is absent or not whole when read |
| `SnapshotReader.UpToDateMissesIff` | apps/journal-collab/src/document-persistence.ts:85-98 | when writers commit over what they read, exactly when chunks of both generations are deleted under the reader |
| `SnapshotReader.MissNeedsThreeCommits` | apps/journal-collab/src/document-persistence.ts:68-98 | then at least three manifests are put during the read |
| `SnapshotReader.ReaderOutrun` | apps/journal-collab/src/document-persistence.ts:68-98 | a run of writers that never overlap, over any version 1 data, in which a reader misses |
| `WorkflowGraph.VisitedCount` | internal/workflows/validate.go:111-153 | whatever the map iteration order, the visited count is the node count exactly when the edges have no cycle |
| `WorkflowGraph.TopologicalOrder` | internal/workflows/engine_execute_for_each.go:168-198 | the queue of sorted ready nodes yields the execution order, whatever the map iteration order |
| `WorkflowGraph.OrderCompleteIffAcyclic` | internal/workflows/engine_execute_for_each.go:168-198 | the order has no repeats, respects every edge, and holds every node exactly when there is no cycle |
| `WorkflowGraph.OrderPicksLeastReady` | internal/workflows/engine_execute_for_each.go:177-197 | each place of the order holds the least node whose predecessors are placed |
| `WorkflowGraph.LeastReadyOrderUnique` | internal/workflows/engine_execute_for_each.go:177-197 | it is the only order that does so |
| `WorkflowValidation.Validate` | internal/workflows/validate.go:17-169 | the loops and the recursion over child graphs and dependencies return the error of the specification, the first one in the source's order |
| `WorkflowValidation.CheckNodes` | internal/workflows/validate.go:28-55 | the node loop finds the first unacceptable node |
| `WorkflowValidation.CollectCapabilities` | internal/workflows/validate.go:21-27 | the granted capabilities with their risks |
| `WorkflowValidation.CheckEdges` | internal/workflows/validate.go:118-132 | the edge loop accepts exactly edges with known ends and ports, no repeated identity and no port bound twice |
| `WorkflowAdmission.AcceptedIffAdmissible` | internal/workflows/validate.go:17-169 | validation accepts exactly the definitions that meet every condition on header, capabilities, nodes, nesting, bindings, edges, cycles and dependencies, written out, here and in everything nested |
| `WorkflowAdmission.AcceptedIsCovered` | internal/workflows/validate.go:43-51 | every node of an accepted definition has a provider, and the last requirement for its capability covers its risk: read covers read, write also write, destructive all |
| `WorkflowAdmission.ChainIsCovered` | internal/workflows/validate.go:43-84 | the same of every definition nested below an accepted one, by its own requirements |
| `WorkflowAdmission.FirstFaultDecides` | internal/workflows/validate.go:28-55 | the first node at fault decides the error: its shape an invalid definition, its kind a missing provider, its grant alone a denied capability |
| `WorkflowValidation.AcceptedMonotone` | internal/workflows/validate.go:17-169 | an accepted definition stays accepted under fewer ancestors and less depth |
| `WorkflowValidation.ChildAccepted` | internal/workflows/validate.go:57-83 | every nesting node of an accepted definition resolves, to a definition accepted one level down |
| `WorkflowValidation.NestedValidationAccepts` | internal/workflows/engine_errors.go:208-224 | the fresh validation at the start of a nested execution accepts the child |
| `WorkflowValidation.NestingBounded` | internal/workflows/validate.go:17-20 | a chain of nested executions has at most seventeen definitions |
| `WorkflowLoops.ResolveNodeInput` | internal/workflows/engine_resolve_node_input.go:10-78 | the loops over bindings and edges give the input, skip, partial or missing decision of the specification |
| `WorkflowInputs.ResolvedInput` | internal/workflows/engine_resolve_node_input.go:10-76 | a resolved input is an object under exactly the names of the bindings and the target ports of the edges into the node, each with the value its port, path or literal names, the edge winning; without names it is the run's input or an empty object |
| `WorkflowInputs.ResolvesIffAllGiven` | internal/workflows/engine_resolve_node_input.go:10-140 | an input resolves exactly when every binding and every edge gives a value; otherwise the error, or the skip, is that of the first one that refuses, bindings before edges |
| `WorkflowLoops.ExecuteItems` | internal/workflows/engine_execute_for_each.go:53-88 | running the items one after another gives the specified results, one per index |
| `WorkflowLoops.HandleNode` | internal/workflows/engine_errors.go:137-146 | what a nested workflow, a for_each or a provider replies |
| `WorkflowDocuments.ForEachReports` | internal/workflows/engine_execute_for_each.go:53-102 | a for_each's document has an entry per item with its index, its input and its own run's outputs, errors and error text where there are any; errors under the indices of exactly the items that went wrong; and partial exactly when one did, an error when failing fast |
| `WorkflowDocuments.ItemRequestIs` | internal/workflows/engine_execute_for_each.go:71-71 | an item's run is on the item, under the node's identity and its index in six digits |
| `WorkflowDocuments.StartsIff` | internal/workflows/engine_execute_for_each.go:12-45 | a for_each starts exactly with a child, an array to be found and limits that allow its length; the defaults and bounds are those written there, and each other case has its error |
| `WorkflowDocuments.FoundIsFirst` | internal/workflows/engine_execute_for_each.go:122-153 | the items are the array at the end of the first path through the keys items, events and value, and there are none only without such a path |
| `WorkflowDocuments.CallReports` | internal/workflows/engine_errors.go:208-224 | a nested workflow reports its run's error, or a document of exactly its state, outputs and errors |
| `WorkflowLoops.AttemptNode` | internal/workflows/engine_errors.go:109-172 | the attempt loop with cancellation, checkpoints, health, reconciliation, schemas and cooldown ends as specified |
| `WorkflowOutcomes.AttemptGives` | internal/workflows/engine_errors.go:117-156 | one attempt, case by case: input schema, health, reconciliation from the second attempt of a mutating provider, handler, output schemas |
| `WorkflowOutcomes.AttemptsEnd` | internal/workflows/engine_errors.go:109-172 | at most three attempts are made, each started and checkpointed after the one before it failed and cooled down, and the outcome is what the last one, or what stopped the next one, says |
| `WorkflowLoops.ExecuteAccepted` | internal/workflows/engine_errors.go:71-196 | the node loop over the execution order returns the specified result |
| `WorkflowOutcomes.NodeLeaves` | internal/workflows/engine_errors.go:76-190 | what a node leaves: its checkpointed output, a skip, a listed failure that ends the run unless the policy continues or collects, or its output with its partial mark and checkpoint |
| `WorkflowOutcomes.RunWalks` | internal/workflows/engine_errors.go:76-196 | a run walks the nodes in order until one ends it; at the end it is completed exactly when nothing failed |
| `WorkflowLoops.ExecuteNested` | internal/workflows/engine_errors.go:208-224 | a nested execution, validated again, returns what the specification gives at its depth |
| `WorkflowLoops.ExecuteWorkflow` | internal/workflows/engine_errors.go:67-197 | a top-level execution, rejected definitions included, returns the specified result |
| `WorkflowEffects.AtMostOneEffectIffNeverDenies` | internal/workflows/engine_errors.go:109-172 | a mutating node that can be reconciled applies at most one effect, whatever replies are lost or malformed, exactly when reconciliation never denies one that took place |
| `WorkflowEffects.EffectAtMostOnce` | internal/workflows/engine_errors.go:109-172 | from any attempt on, no second effect is applied |
| `WorkflowEffects.DenialAppliesTwice` | internal/workflows/engine_errors.go:124-146 | a wrong denial leads to two effects when every reply is lost |
| `WorkflowNestedEffects.OwnEffects` | internal/workflows/engine_errors.go:109-172 | counted over the whole run, a provider's own node applies the effects its attempts record |
| `WorkflowNestedEffects.NestedEffects` | internal/workflows/engine_errors.go:109-146 | below a nesting node an identity applies the effects of one run of the handler as often as an attempt runs it |
| `WorkflowNestedEffects.UnhinderedTimes` | internal/workflows/engine_errors.go:109-172 | when nothing but its replies stops a nesting node, its handler runs once if the reply settles the node and on every attempt left otherwise |
| `WorkflowNestedEffects.NestedAtMostOneIff` | internal/workflows/engine_errors.go:109-224 | then an identity below it applies at most one effect exactly when one run applies none, or one and its reply settles the node |
| `WorkflowWorlds.RunDepends` | internal/workflows/engine_errors.go:67-224 | a run and its effects depend only on the answers given to identities below its own prefix |
| `WorkflowWorlds.RunTurned` | internal/workflows/engine_errors.go:71-196 | where an effect takes place in one world, a world that differs below the run's prefix only has the effect and then ends the run with an error |
| `WorkflowWorlds.NestedAtMostOneInAllIffUnreached` | internal/workflows/engine_errors.go:109-224 | below a nested workflow or a for_each that fails fast, an identity applies at most one effect in every world with the same rules, schemas and reconciliation exactly when it applies none in any |
| `WorkflowExamples.RetryingParentRepeatsEffects` | internal/workflows/engine_errors.go:109-224 | a for_each whose output is refused applies three effects under one identity, with every call answered and reconciliation never denying one |
| `WorkflowEffects.AcceptedOutputValidated` | internal/workflows/engine_errors.go:124-156 | an accepted output satisfies the provider's schema and the node's |
| `WorkflowAccounting.OrderCoversDefinition` | internal/workflows/engine_errors.go:68-76 | the execution order of an accepted definition holds each of its nodes once |
| `WorkflowAccounting.EveryNodeAccounted` | internal/workflows/engine_errors.go:71-196 | an error-free run accounts for each node as output, skipped or failed; outputs and skipped are disjoint; output and failure together mean partial; fresh outputs had usable sources; completed means no failures |
| `WorkflowAccounting.ResolvedSourcesUsable` | internal/workflows/engine_resolve_node_input.go:47-69 | a node whose input resolves has every edge source and bound node in outputs, none skipped and none partial unless accepted |
| `WorkflowResume.ResumeEquivalent` | internal/workflows/engine_errors.go:76-196 | resuming from any subset of complete outputs, in nested runs too, gives the same outputs, failures, partial and skipped nodes and state |
| `WorkflowResume.NestedRunIsFreshRun` | internal/workflows/engine_errors.go:208-224 | a nested run gives what its definition gives run on its own |
| `WorkflowResume.ResumeEquivalentIffNoPartial` | internal/workflows/engine_errors.go:78-85 | when partial outputs may stand among the checkpoints of a run's own nodes, the result is the same exactly when there is none |
| `WorkflowResumeNested.ResumeEquivalentIffNoPartialAnywhere` | internal/workflows/engine_errors.go:76-85 | when partial outputs may stand among the checkpoints of nested runs too, the result is the same exactly when the run reaches none of them |
| `WorkflowExamples.PartialCheckpointLosesErrors` | internal/workflows/engine_errors.go:78-85 | a for_each over one failing item, kept as the only checkpoint: the resumed run reports another result |
| `ForEachSchedule.StepInv` | internal/workflows/engine_execute_for_each.go:53-102 | what each step of each goroutine keeps: slots, phases, the semaphore and the cause of a cancellation |
| `ForEachSchedule.ConcurrencyBounded` | internal/workflows/engine_execute_for_each.go:53-88 | at most the configured number of items run at once |
| `ForEachSchedule.CollectIsInOrder` | internal/workflows/engine_execute_for_each.go:53-102 | collecting, every schedule ends with the results of the items in index order |
| `ForEachSchedule.SuccessIsInOrder` | internal/workflows/engine_execute_for_each.go:53-102 | an undisturbed schedule of either mode that ends without error holds the results of the items in index order |
| `ForEachSchedule.FailFastIffPartial` | internal/workflows/engine_execute_for_each.go:89-102 | failing fast returns an error exactly when collecting would report a partial result |
| `ForEachSchedule.StepUsesWork` | internal/workflows/engine_execute_for_each.go:53-88 | every step uses up some of the work left, so every schedule ends |
| `ForEachSchedule.NeverStuck` | internal/workflows/engine_execute_for_each.go:53-88 | a schedule that has not ended can always go on |
| `ForEachSchedule.ScheduleRefinesHandle` | internal/workflows/engine_execute_for_each.go:12-103 | whatever the interleaving, the node's error verdict is the engine's, and without an error so is the whole reply |
| `ForEachSchedule.ParentCancelHidesEverything` | internal/workflows/engine_execute_for_each.go:58-102 | a parent cancelled first leaves blank results and neither error nor partial |
| `ForEachSchedule.UnreportedIff` | internal/workflows/engine_execute_for_each.go:58-102 | an item that never ran goes unreported exactly when the parent was canceled and, failing fast, no item that ran failed |
| `ForEachSchedule.AlwaysReportedIffNoItems` | internal/workflows/engine_execute_for_each.go:58-102 | every schedule of a job reports each item that never ran exactly when the job has no items |
| `SerialLifecycle.OneHolder` | apps/agent-runtime/src/serial-tool-lifecycle.ts:17-40 | at every moment at most one call is between passing its turn and releasing it |
| `SerialLifecycle.AdmittedInOrder` | apps/agent-runtime/src/serial-tool-lifecycle.ts:19-24 | when a call is admitted every call started before it is over |
| `SerialLifecycle.StopIsSticky` | apps/agent-runtime/src/serial-tool-lifecycle.ts:6-7 | the first stop reason stays |
| `SerialLifecycle.StoppedByFirst` | apps/agent-runtime/src/serial-tool-lifecycle.ts:6-40 | a sequence is stopped exactly when a checkpoint failed or a reason was given, and for the reason of the first such event |
| `SerialLifecycle.EventMoves` | apps/agent-runtime/src/serial-tool-lifecycle.ts:17-40 | an event moves its own call one phase on, and no other call |
| `SerialLifecycle.TakenIffUnreleased` | apps/agent-runtime/src/serial-tool-lifecycle.ts:17-40 | an identity is taken exactly while a call under it is neither rejected nor finished |
| `SerialLifecycle.NoneBeginsAfterStop` | apps/agent-runtime/src/serial-tool-lifecycle.ts:22-29 | once stopped, no waiting call ever begins its checkpoint |
| `SerialLifecycle.DuplicateRefused` | apps/agent-runtime/src/serial-tool-lifecycle.ts:18-18 | a second start under an identity in flight changes nothing |
| `SerialLifecycle.EveryCallResolved` | apps/agent-runtime/src/serial-tool-lifecycle.ts:4-42 | the calls started can move only a bounded number of times, and when none can move every one is resolved and every identity free |
| `SerialLifecycle.Lifecycle.BeginStart` | apps/agent-runtime/src/serial-tool-lifecycle.ts:17-22 | start up to its first await: the new promise is the tail, or a duplicate is refused |
| `SerialLifecycle.Lifecycle.TakeTurn` | apps/agent-runtime/src/serial-tool-lifecycle.ts:22-28 | the turn arrives: the checkpoint begins or the call is rejected and released |
| `SerialLifecycle.Lifecycle.EndStartCheckpoint` | apps/agent-runtime/src/serial-tool-lifecycle.ts:24-29 | the start checkpoint's end, releasing on failure |
| `SerialLifecycle.Lifecycle.EndFinishCheckpoint` | apps/agent-runtime/src/serial-tool-lifecycle.ts:31-40 | the finish checkpoint's end, releasing either way |
| `ProviderBudget.RefusalOnlyPrunes` | internal/agents/provider_budget_limits.go:205-240 | a refused call changes each window at most by forgetting expired events, and counts one refusal |
| `ProviderBudget.RunInv` | internal/agents/provider_budget_limits.go:93-235 | what every grant, refusal, report and release keeps, under a clock that never goes back |
| `ProviderBudget.RateBound` | internal/agents/provider_budget_limits.go:93-107 | every minute, hour and day that excludes its start and includes its end, wherever it lies, holds at most its limit of granted calls |
| `ProviderBudgetEdges.ClosedBounds` | internal/agents/provider_budget_limits.go:93-107 | with both ends included a minute, hour or day holds at most twice its limit, and at most what the other two windows allow it |
| `ProviderBudgetEdges.ClosedMinuteIff` | internal/agents/provider_budget_limits.go:93-107 | a closed minute keeps its limit in every run exactly when the hour's or the day's limit is no larger |
| `ProviderBudgetEdges.ClosedHourIff` | internal/agents/provider_budget_limits.go:93-107 | a closed hour keeps its limit in every run exactly when the day's limit is no larger or sixty-one minutes' limits fit into it |
| `ProviderBudgetEdges.ClosedDayIff` | internal/agents/provider_budget_limits.go:93-107 | a closed day keeps its limit in every run exactly when 1441 minutes' limits fit into it, or twenty-four hours' limits and one more burst |
| `ProviderBudget.TokenBound` | internal/agents/provider_budget_limits.go:126-166 | leaving out at most as many calls as may be in flight, every hour and day is under its token limit |
| `ProviderBudget.Accounting` | internal/agents/provider_budget_limits.go:131-166 | the running totals are the sums of the stored events and under the limit but for the calls in flight, the in-flight count is the number of unreleased calls, and the spent tokens are the sum of the reports |
| `ProviderBudget.GrantedIffRoom` | internal/agents/provider_budget_limits.go:205-235 | a call is granted exactly when a slot is free and every window ending now has room in the full history |
| `ProviderBudget.RefusalSays` | internal/agents/provider_budget_limits.go:205-225 | a refusal says that calls are used up exactly when a slot or a window of calls has no room, and that tokens are exactly when only a window of tokens has none |
| `ProviderBudget.AsksCounted` | internal/agents/provider_budget_limits.go:205-240 | in every run the calls granted and the refusals counted add up to the calls asked for |
| `ProviderBudget.NewBudgetIs` | internal/agents/provider_budget_limits.go:169-202 | a new budget's ceilings and windows in numbers |
| `ProviderBudgetObjects.CompactCalls` | internal/agents/provider_budget_limits.go:93-103 | compaction in place keeps the live calls, in order |
| `ProviderBudgetObjects.Compact` | internal/agents/provider_budget_limits.go:142-153 | compaction in place keeps the live token events, in order, and their sum |
| `ProviderBudgetObjects.CallWindowObject.HasRoom` | internal/agents/provider_budget_limits.go:93-103 | prunes and says whether another call fits |
| `ProviderBudgetObjects.CallWindowObject.Record` | internal/agents/provider_budget_limits.go:105-107 | appends one call, growing the backing array when full |
| `ProviderBudgetObjects.TokenWindowObject.HasRoom` | internal/agents/provider_budget_limits.go:155-158 | prunes, refreshes the total and says whether tokens are left |
| `ProviderBudgetObjects.TokenWindowObject.Record` | internal/agents/provider_budget_limits.go:160-166 | appends positive tokens and adds them to the total |
| `ProviderBudgetObjects.BudgetedProvider.constructor` | internal/agents/provider_budget_limits.go:169-202 | unset ceilings become the safe defaults |
| `ProviderBudgetObjects.BudgetedProvider.Acquire` | internal/agents/provider_budget_limits.go:205-235 | the objects end as the specification's budget, with its verdict |
| `ProviderBudgetObjects.BudgetedProvider.RecordSpend` | internal/agents/provider_budget_next.go:17-28 | tokens reported are charged to both windows and to the spent total |
| `ProviderBudgetObjects.BudgetedProvider.Release` | internal/agents/provider_budget_limits.go:228-234 | one call leaves flight, never below zero |
| `JsonCanonical.ReadAfterPrint` | apps/agent-runtime/src/routine-coordinator.ts:47-51 | reading a printed value back gives the value, up to the zeros the runtime prints alike, for any key order |
| `JsonCanonical.CanonicalInjective` | apps/agent-runtime/src/routine-coordinator.ts:47-51 | two values have the same canonical text exactly when they are the same up to key order and the sign of zero |
| `JsonCanonical.GoEqualIsIdentity` | internal/capabilities/contracts.go:444-452 | EqualJSON on printed values is equality of the values |
| `JsonCanonical.EqualitiesAgree` | internal/capabilities/contracts.go:444-452 | the two comparisons agree on two values unless they differ only in the sign of some zero |
| `JsonCanonical.AlikeIffNoNegativeZero` | apps/agent-runtime/src/routine-coordinator.ts:47-51 | the comparisons agree on a value against every value free of negative zero exactly when it is free of it too |
| `JsonScanner.ExtractFirstJSONObject` | internal/agents/adk_gemini_provider.go:208-244 | the index loop returns the text from the first brace to the one that closes it, trimmed, or nothing |
| `JsonScanner.ObjectIsExtracted` | internal/agents/adk_gemini_provider.go:208-244 | for every object in any spelling, any text after it and any text before it without a brace, exactly the object is returned |
| `JsonScanner.PrintedObjectIsExtracted` | internal/agents/adk_gemini_provider.go:208-244 | likewise for the canonical text of any object, which then reads back as the object |
| `JsonScanner.NothingExtracted` | internal/agents/adk_gemini_provider.go:208-244 | nothing is returned exactly when no brace opens or the first is never closed |
| `RoutineLanguage.Lookup` | apps/agent-runtime/src/routine-coordinator.ts:26-34 | walking a path key by key finds the value at the path or reports it missing |
| `RoutineMeaning.ValueMeans` | apps/agent-runtime/src/routine-coordinator.ts:26-46 | an expression evaluates to exactly the value it stands for: literals themselves, references the end of their path key by key, objects and lists their parts |
| `RoutineMeaning.ConditionSays` | apps/agent-runtime/src/routine-coordinator.ts:53-60 | a condition is answered yes or no exactly as its parts are, left to right, and by the values it compares |
| `RoutineWire.WalkPath` | internal/capabilities/routine_values.go:62-84 | the server's walk over an untyped path gives the value, a missing reference or a malformed one |
| `RoutineWire.ValuesAgree` | internal/capabilities/routine_values.go:27-123 | within the depth limit the server evaluates the wire form of an expression as the coordinator evaluates the expression |
| `RoutineWire.ValueAgreesIffItFits` | internal/capabilities/routine_values.go:12-30 | an expression that evaluates is evaluated alike by the server exactly when its text decodes (2 MiB, 40 levels), it nests no deeper than 32, and its value prints within 1 MiB |
| `RoutineWire.ResolvesAlike` | internal/capabilities/routine_values.go:12-26 | a readable expression evaluates on the server as in the coordinator, missing references included, but is refused when its value is too long |
| `RoutineWire.TooDeepIsRefused` | internal/capabilities/routine_values.go:27-30 | past the depth limit the server returns no value |
| `RoutineWire.ConditionsAgree` | internal/capabilities/routine_values.go:124-173 | away from negative zero a readable condition has the same truth or the same missing reference in both exactly when no value looked at, left to right until it is settled, is too long |
| `RoutineWire.ComparisonAgreesIff` | internal/capabilities/routine_values.go:137-143 | two values that evaluate are compared alike exactly when neither is too long and they do not differ only in the sign of some zero |
| `RoutineWire.NegativeZeroDiffers` | apps/agent-runtime/src/routine-coordinator.ts:55-55 | negative zero equals zero in the coordinator and not on the server |
| `RoutineWire.LongValueDiffers` | internal/capabilities/routine_values.go:20-24 | an array of three copies of a result compared with itself is true in the coordinator and refused by the server once the copies pass 1 MiB |
| `RoutineWire.LongTextDiffers` | internal/capabilities/routine_values.go:20-24 | a step's text of 400 KiB, listed three times and compared with itself, is such an input |
| `RoutineWire.AdmittedIsReadable` | internal/capabilities/routines.go:53-90 | every expression in a definition within the tree and text limits of admission decodes and fits the evaluator's depth |
| `RoutineWire.AdmittedConditionIsReadable` | internal/capabilities/routines.go:53-90 | likewise every condition, throughout |
| `RoutineWire.ValueCheck` | internal/capabilities/routines.go:129-167 | the untyped walk accepts an expression's wire form exactly when its references name steps already seen and no object has over a hundred fields |
| `RoutineWire.ConditionCheck` | internal/capabilities/routines.go:129-167 | likewise for conditions |
| `RoutineRun.ParseStep` | internal/capabilities/routines.go:96-118 | one step is accepted exactly when its identity is new and its references name earlier steps |
| `RoutineRun.ParseSteps` | internal/capabilities/routines.go:94-121 | the step loop and its final check accept exactly routines with unique identities, backward references, turns within the budget and a trigger that can be scheduled |
| `RoutineMeaning.AcceptedIff` | internal/capabilities/routines.go:94-121 | what the step loop accepts, written out by the references that occur in each step, the fields of its objects, the sum of the agents' turns and the schedule |
| `RoutineRun.ParseTrigger` | internal/capabilities/routines.go:168-208 | a schedule is accepted exactly when its time zone is known and not the machine's own and no day and no minute of the day repeats |
| `RoutineRun.DistinctTimesIff` | internal/capabilities/routines.go:199-206 | with minutes below sixty no minute of the day repeats exactly when no clock time does |
| `RoutineRun.RunAgent` | apps/agent-runtime/src/routine-agent.ts:115-149 | the turn loop ends as specified |
| `RoutineRun.AgentBounds` | apps/agent-runtime/src/routine-agent.ts:93-149 | an agent step is admitted at most its own number of turns and makes at most forty calls; nothing is called after an unconfirmed one, and completed means every call was confirmed |
| `RoutineOutcomes.AgentCompletesIff` | apps/agent-runtime/src/routine-agent.ts:93-149 | an agent step completes exactly when some turn within its limit ends in one model step with a well-formed output after turns that ended asking for tools, every call until then confirmed and at most forty in all |
| `RoutineOutcomes.AgentRunsInOrder` | apps/agent-runtime/src/routine-agent.ts:93-149 | only proposed calls are run, in order, and a step that does not complete ends failed or as its last call did |
| `RoutineRun.ExecuteRoutine` | apps/agent-runtime/src/routine-coordinator.ts:80-149 | the step loop ends as specified, report and calls included |
| `RoutineOutcomes.CallDecides` | apps/agent-runtime/src/routine-coordinator.ts:61-146 | a step that calls is completed or partial exactly when the call returned something that is not uncertain, denied, unavailable, a failure word or an unreadable success, and what is kept of it is well formed and fits the limit; failed exactly for an absent or refused result; uncertain otherwise; the run goes on, and later steps see the result, accordingly |
| `RoutineOutcomes.NoCallDecides` | apps/agent-runtime/src/routine-coordinator.ts:100-118 | a step that does not call is skipped, or failed and ends the run with the code for an unresolved input |
| `RoutineOutcomes.CallGoesTo` | apps/agent-runtime/src/routine-agent-adapter.ts:18-27 | which port a step calls, and that an agent's answer counts only when it is a well-formed outcome replayed or acknowledged by the server |
| `RoutineOutcomes.RetainedIsSum` | apps/agent-runtime/src/routine-coordinator.ts:127-131 | in an accepted routine what is retained is the size of the results so far |
| `RoutineRun.ReportShape` | apps/agent-runtime/src/routine-coordinator.ts:95-149 | every report lists every step once, in order: passed steps, at most one terminal step that gives the report its state and code, then only steps not run; nothing is called after it |
| `RoutineRun.AdmissionsWithinBudget` | internal/capabilities/routines.go:104-119 | across a run of an accepted routine, reported or aborted, the model is admitted no more often than its budget |
| `RoutineRun.MissingHasCause` | apps/agent-runtime/src/routine-coordinator.ts:35-46 | an expression fails to evaluate exactly when a reference in it does not resolve |
| `RoutineRun.UnresolvedIffSkippedOrAbsent` | apps/agent-runtime/src/routine-coordinator.ts:101-117 | in an accepted routine a due step's reference is unresolved exactly when the step it names was skipped or its path is absent |
| `RoutinePlan.EvaluatePlan` | internal/platform/httpapi/routine_runtime.go:123-229 | the loop over the steps ends with the specified plan, or none when a receipt contradicts its call |
| `RoutinePlan.ReceiptSays` | internal/platform/httpapi/routine_runtime.go:172-216 | which receipts mean that a call is under way, which contradict it, and which state and value any other confirms |
| `RoutinePlan.PlanStepNotes` | internal/platform/httpapi/routine_runtime.go:146-224 | one step of the plan, case by case |
| `RoutinePlan.Preparations` | internal/platform/httpapi/routine_runtime.go:150-157 | for a readable step the server and the coordinator take what its condition and expression say, each unless it refuses the step |
| `RoutinePlan.PlanReportsIffTracked` | internal/platform/httpapi/routine_runtime.go:108-230 | for an admitted routine that came to a report, and whatever the receipts say but for values confirmed on both sides being the same, the plan lists the coordinator's steps and states exactly when each step is accounted for alike: the receipt reads as what the coordinator confirmed, both refuse it, or one refuses what the other finds failed; then nothing is left to call and the states agree up to the softened failure |
| `RoutinePlan.LostReplyGoesOn` | apps/agent-runtime/src/routine-coordinator.ts:119-145 | a reply lost after the call was journaled: the report ends uncertain at that call, the plan lists it as completed and asks for the next |
| `RoutinePlan.NextCallIffComesTo` | internal/platform/httpapi/routine_runtime.go:150-218 | for an admitted routine about to make a call, the plan asks for that call with that input exactly when it passes every step before it and finds no final receipt for it |
| `RoutinePlan.NextCallIffNoneRefused` | internal/platform/httpapi/routine_runtime.go:164-181 | when the receipts are those of the calls made so far, exactly when the server refused no step up to it, and otherwise it asks for none |
| `SessionCache.SessionStore.Cleanup` | internal/agents/store_acquire_entry.go:81-98 | only expired entries that nobody uses leave the map |
| `SessionCache.CleanedKeeps` | internal/agents/store_acquire_entry.go:81-98 | cleaning up takes away exactly the expired entries without users and changes no count |
| `SessionCache.SessionStore.Lookup` | internal/agents/store_acquire_entry.go:10-19 | after cleanup a cached entry is counted and returned |
| `SessionCache.SessionStore.Insert` | internal/agents/store_acquire_entry.go:42-53 | a loaded session is placed unless one was placed meanwhile, which is counted instead |
| `SessionCache.SessionStore.Create` | internal/agents/store_errors.go:108-130 | a new session is placed with no user |
| `SessionCache.SessionStore.Release` | internal/agents/store_errors.go:191-195 | the entry counts one user less |
| `SessionCache.SessionStore.Forget` | internal/agents/store_errors.go:227-241 | an owned session leaves the map, its entry's count untouched |
| `SessionCache.ActiveCountsHolders` | internal/agents/store_acquire_entry.go:10-53 | in every interleaving an entry's count is the number of its holders |
| `SessionCache.SharedIffNoHeldForget` | internal/agents/store_acquire_entry.go:10-53 | throughout a run every holder shares the map's entry exactly when no Forget hits an entry in use |
| `SessionCache.HoldersAgree` | internal/agents/store_acquire_entry.go:43-53 | two holders of one session then hold one entry |
| `SessionCache.ForgetSplitsHolders` | internal/agents/store_errors.go:227-241 | a run after which one session has two holders of two entries |
| `TicketLedger.TicketRecords.Claim` | apps/journal-collab/src/room-policy.ts:73-82 | true exactly when the identity was not recorded, which it then is |
| `TicketLedger.TicketRecords.Sweep` | apps/journal-collab/src/document-room.ts:574-584 | exactly the listed records past retention are deleted |
| `TicketLedger.TicketRecords.Purge` | apps/journal-collab/src/document-room.ts:500-508 | no record is left |
| `TicketLedger.RunInv` | apps/journal-collab/src/document-room.ts:566-584 | what every step of every interleaving keeps while the terms fit retention, purges included that come when nobody can repeat a claim |
| `TicketLedger.SingleUseIffRetained` | apps/journal-collab/src/document-room.ts:560-584 | with such purges a ticket is claimed at most once in every interleaving, despite sweeping, exactly when lifetime and delay fit retention |
| `TicketLedger.PurgeSafeIff` | apps/journal-collab/src/document-room.ts:500-508 | at any moment of such a run a purge keeps tickets single use from then on exactly when no request in flight can still claim a ticket already claimed |
| `TicketLedger.NoneEntersAfterPurge` | apps/journal-collab/src/document-room.ts:120-127 | a purged room stays purged and lets no request in |
| `TicketLedger.PurgeForgetsClaims` | apps/journal-collab/src/document-room.ts:500-508 | a request let in before a purge can claim a used ticket after it |

## Left out

Left out of the models, and what stands in their place:

- Handlers, checkpoints, health checks, cooldowns and cancellation of the workflow engine are functions of the execution identity, the attempt and the input; a reconcile answer may depend on the number of effects applied. JSON Schema, token syntax, schema ports and dotted paths are parameters.
- A node's inputs are a list in a fixed order; the source iterates a map, so which of several binding errors is reported is not determined there.
- The configuration of a node is decoded once for both nesting kinds; the registry is always there and a missing resolver is an empty one.
- Cancellation during a for_each is modelled in `ForEachSchedule` only; `WorkflowEngine` takes cancellation between attempts.
- Times and tokens are unbounded integers: 64-bit overflow of token sums and Go's monotonic clock readings are not modelled.
- Snapshot chunks are put one step at a time; the source puts them with one call, which is one of the modelled interleavings. Generation identifiers are assumed new, digests are an abstract function with hexadecimal results, and a manifest's save time is always finite.
- Yjs merging, projected sizes and the document's in-memory state.
- Signatures, keys, claim decoding and the checks of a ticket other than expiry; access-list versions, the connection limit and read-only sockets. A claim is one step, since storage is serialized per room; purge and its tombstone are one step.
- The sweep's chance and its limit of 200 records: any subset of the records may be listed at any successful claim.
- Text is a sequence of Unicode scalar values: lone surrogates, byte lengths and invalid UTF-8 do not occur. Numbers are their shortest decimal texts, printed alike by both runtimes but for the sign of zero.
- The node count of a definition (20000), its defaults and its JSON Schema; a step's output schema compiles or not, and a time zone is known or not, as parameters. The server's limits on expressions and their values and the coordinator's limit on retained data are modelled.
- Identities and bindings of a routine's calls: receipts are kept by step. The plan's record of replayable calls and the authorization that compares a call with the plan are not modelled; a receipt of a finished wait reads as its fixed result.
- WorkflowResumeNested.ResumeEquivalentIffNoPartialAnywhere: a nested run that holds a partial checkpoint is one whose node took its handler's output, in a kind without reconciliation; other nested checkpoints are complete ones.
- RoutinePlan.PlanReportsIffTracked: a value that the coordinator and the receipt both confirm at a step the run passes is assumed to be one value; the trigger's data, the results and the literals of conditions hold no negative zero, the subject of `RoutineWire.ComparisonAgreesIff`.
- RoutinePlan.NextCallIffComesTo: the same two assumptions.
- WorkflowWorlds.NestedAtMostOneInAllIffUnreached: no node identifier has a dot, since with dots the identities of two nodes can coincide; the nesting node's kind has no reconciliation. A for_each that collects is not covered, since a failing item does not fail it.
- A failing field of an object expression may be any of those that fail, as the source iterates a map.
- Within an agent step the tool calls of one turn run one after another, as `SerialLifecycle` proves they do; usage totals and messages are left out.
- Session contents, persistence, event numbering and the per-entry lock; an entry whose lock is taken is simply not among the expired.
- HTTP, middleware, providers, billing, mail adapters, database code and telemetry.
