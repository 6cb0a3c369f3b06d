# A verified model of daedalus

daedalus runs tasks on coding agents: a scheduler turns a list of dependent
tasks into waves, a collector hands results to whoever waits for them, a client
talks JSON-RPC to an agent, a proxy shuts down without losing work, a registry
routes requests, and an operator rotates credentials. This project models those
parts in Dafny and proves what they promise, for every input, every run and
every interleaving.

`dafny verify dfyconfig.toml` checks the whole project.

## What is modelled

- **Scheduler** (`Graphs`, `Dags`, `Runs`, `Traces`, `Reports`, `Cancellations`,
  `Scheduling`). The
  dependency graph is a class with its in-degree ledger, stack search and
  three-colour search; `Schedule` is a method over an environment that fixes
  what the dispatcher and the collector answer for each task and from which
  inspection on the context is cancelled. Map iteration and result arrival are
  arbitrary choices, so the contracts hold for every order. The wave loop is
  proved to refine a recursive definition of each task's status, and batches to
  be longest dependency chains. What a run reports, cancelled or not, is
  determined by the request and the environment.
- **Result collector** (`Collectors`, `CollectorRuns`). The sections under the
  mutex are methods of a class, each equal to a function on the shared state; a
  step machine interleaves those functions with callers that wait, receive, give
  up and clean up, and with status handlers whose check and store are apart.
- **ACP client** (`AcpClients`, `AcpReplies`, `AcpStreams`). A step machine of
  callers, prompts and one reader over the table of pending entries. Replies are
  matched to requests as sections 4 and 5 of the JSON-RPC 2.0 specification ask.
- **Proxy shutdown** (`Shutdowns`). A step machine of the admission gate, the
  in-flight counter, the session set and the four phases of `Shutdown`.
- **Branch names** (`Branches`). Sanitizing, printing, parsing and the search for
  earlier sessions.
- **Agent registry** (`Registries`, `DynamicRegistries`). Validation, scoring,
  the watched cache, the merged view, lookup and routing.
- **ModelConfig operator** (`ModelConfigs`). One call of `Reconcile` over an API
  server whose writes may be refused, or take effect although an error comes
  back, and runs of any number of calls.

`Strings` holds the order on strings and sorting by a key, `Options` the option
type.

## Where the code differs from what it says

- `internal/scheduler/types.go` lists four statuses; the code passes every state
  an agent reports through. `Scheduling.UndocumentedStatus` is such a request, and
  `Cancellations.StatusDocumentedIff` says exactly when a status is documented.
- After a cancellation a task below a failed one may be "canceled" in batch -1
  and not "skipped": `Scheduling.CanceledBelowFailure` is such a request.
  `Cancellations.SkippedExactly` and `Cancellations.RanIff` say, in terms of the
  request and the environment, exactly when a task is skipped and when it runs.
- `storeAndNotify` speaks of the first write winning. A stored result is final
  iff it is full (`CollectorRuns.FinalIffFull`): a result message replaces any
  partial one. Handlers that run one at a time, as one subscription delivers its
  messages, never replace a partial result by another (`CollectorRuns.PartialIsKept`);
  two overlapping ones, which takes a second `Start`, can
  (`CollectorRuns.PartialMayBeReplaced`).
- `Shutdown` announces a cancel for every active session; a session that opens
  after phase 3 has listed them gets none (`Shutdowns.LateSessionIsMissed`). The
  sessions cancelled are exactly those tracked at the listing
  (`Shutdowns.CancelsTheListed`), so all sessions open later were cancelled iff
  none of them opened after it (`Shutdowns.AllCancelledIff`).
- `Score` is documented to count each unique tag once; it counts a repeated
  request tag repeatedly (`Registries.RepeatedTagCountsTwice`).
  `Registries.ScoreIsAsDocumentedIff` has the exact condition.
- `All` is documented as deduplicated by name. `DynamicRegistries.DeduplicatedIff`
  has the exact condition: no two keys cache entries of one name, and no cached
  entry has the name of an unshadowed fallback entry.
  `DynamicRegistries.ForeignKeyDuplicates` is an input where it fails. The view
  agrees with the lookup by name iff every key is its entry's card name
  (`DynamicRegistries.ViewAgreesIff`).
- `propagateHashToAgentRuntimes` speaks of the config's own namespace; it lists
  all namespaces. `ModelConfigs.OutsideRotatedIff` says exactly which runtimes
  elsewhere are rotated, and `ModelConfigs.OutsideMayBeRotated` names one.
- `Close` may stop the reader without failing the callers that wait
  (`AcpReplies.StopMayStrandCaller`); those left without an answer are exactly
  the ones pending at that moment (`AcpReplies.StrandedExactly`).

## Model

| member | source | states |
|---|---|---|
| `Scheduling.Schedule` | internal/scheduler/scheduler.go:51-247 | a request is rejected iff it is empty, has an empty or repeated ID, an unknown dependency or a cycle, and then nothing was dispatched and the reason is true of it; otherwise every task has exactly one outcome, each dispatched task was dispatched exactly once and no other at all, the run is cut short only before the wave whose inspection first finds the context cancelled and exactly there, the context error is returned iff the context is cancelled from that inspection on, and every task that ran has the status of the recursive definition |
| `Reports.StatusIsExpected` | internal/scheduler/scheduler.go:95-231 | refinement: in every run, cancelled ones included, the status of a task that ran is "skipped" if some dependency did not complete and its own status otherwise, recursively over the whole graph |
| `Cancellations.OutcomeOfDispatched` | internal/scheduler/scheduler.go:167-228 | every dispatched task reports what was answered for it: a failed dispatch "failed" with its error; a failed wait its error, "canceled" iff that is a cancelled context or an exceeded deadline and "failed" otherwise; a result its state and no error |
| `Cancellations.OutcomeOfUndispatched` | internal/scheduler/scheduler.go:102-109 | a task that is not dispatched reports "skipped" without error if it gets its turn, and "canceled" without error in batch -1 if not |
| `Cancellations.CompletedIff` | internal/scheduler/scheduler.go:95-231 | a task completes iff it gets its turn, all its dependencies completed, its dispatch succeeds and the agent reports "completed" |
| `Cancellations.SameOutcomes` | internal/scheduler/scheduler.go:95-246 | two runs over the same graph and environment, complete or cut short, report the same outcome for every task (status, error and batch) and the same execution order, whatever the arrival, task-list and map orders were |
| `Cancellations.SameExecutionOrder` | internal/scheduler/scheduler.go:135-135 | runs in which the same tasks ran have the same execution order |
| `Cancellations.SameDispatches` | internal/scheduler/scheduler.go:95-231 | two runs agree on status and error of every task that ran in both, and dispatch it in the same batch or in neither |
| `Reports.DispatchedIffExpected` | internal/scheduler/scheduler.go:98-113 | a task that ran was dispatched iff the recursive definition makes all its dependencies complete |
| `Reports.WavesAreLevels` | internal/scheduler/scheduler.go:95-135 | wave optimality: batch k of the execution order holds exactly the dispatched tasks whose longest dependency chain has k edges |
| `Reports.BatchIsCappedLevel` | internal/scheduler/scheduler.go:95-135 | every task that ran, skipped ones included, has as its batch the length of its longest chain capped by the number of batches: skip-only rounds shift nothing |
| `Reports.DependenciesBefore` | internal/scheduler/scheduler.go:167-228 | safety: every transitive dependency of a dispatched task was dispatched in a strictly earlier batch and completed |
| `Cancellations.SkippedExactly` | internal/scheduler/scheduler.go:99-127 | with the seven A2A states a task is "skipped" iff, as the request and the environment decide, it gets its turn and some dependency does not complete; a task that gets no turn is "canceled" in batch -1 |
| `Cancellations.CutShortIff` | internal/scheduler/scheduler.go:115-127 | tasks stay unrun iff the context is cancelled before wave c and some task at level c has only completing dependencies |
| `Cancellations.RanIff` | internal/scheduler/scheduler.go:95-127 | in a run cut short at c a task ran iff its level is below c, or is c and some dependency does not complete; in any other run every task ran |
| `Cancellations.DispatchedIff` | internal/scheduler/scheduler.go:95-156 | a task is dispatched iff it gets its turn and all its dependencies complete, both decided before the run |
| `Cancellations.StatusDocumentedIff` | internal/scheduler/scheduler.go:250-261 | a status is one of the four documented ones iff the task is not dispatched, its dispatch or wait fails, or the agent reports a documented state |
| `Scheduling.CanceledBelowFailure` | internal/scheduler/scheduler.go:125-127 | a request and a cancellation for which every run leaves a task below a failed one "canceled" in batch -1 |
| `Scheduling.UndocumentedStatus` | internal/scheduler/scheduler.go:258-259 | a request whose every run ends in an undocumented status |
| `Scheduling.CutRequestIsAcceptable` | internal/scheduler/scheduler.go:52-87 | that request is accepted, with the graph it is meant to have |
| `Reports.SkippedByAgent` | internal/scheduler/scheduler.go:258-259 | a dispatched task is "skipped" iff the agent itself reported that state: the pass-through of unknown states is the only other way to see it |
| `Scheduling.TaskOrderIsIrrelevant` | internal/scheduler/scheduler.go:56-83 | permuting the task list changes neither the graph nor whether the request is accepted |
| `Scheduling.IndexTasks` | internal/scheduler/scheduler.go:52-67 | accepts iff the list is non-empty and all IDs are non-empty and distinct; a refusal names a true reason |
| `Scheduling.AddDependencies` | internal/scheduler/scheduler.go:74-83 | inserts exactly the dependency edges of one task or stops with an unknown dependency or an edge that closes a cycle of the request |
| `Scheduling.BuildGraph` | internal/scheduler/scheduler.go:52-87 | succeeds iff the request is acceptable, with exactly its tasks as nodes and its dependencies as edges; the final Validate never refuses |
| `Scheduling.MarkDependents` | internal/scheduler/scheduler.go:106-108 | adds exactly the direct successors to the skip set |
| `Scheduling.Settle` | internal/scheduler/scheduler.go:173-181 | records one outcome, completes the task in the graph and marks its dependents iff it did not complete |
| `Scheduling.SkipBlocked` | internal/scheduler/scheduler.go:98-113 | splits the ready tasks into the skipped and the dispatched ones by the skip set at the start of the round |
| `Scheduling.ReadyUnmarked` | internal/scheduler/scheduler.go:101-113 | skipping a ready task never marks another ready task, so the order of the partition loop does not matter |
| `Scheduling.DispatchAll` | internal/scheduler/scheduler.go:143-156 | each task of the wave is dispatched once and its own result recorded, in any order |
| `Scheduling.RecordFailures` | internal/scheduler/scheduler.go:167-182 | the tasks whose dispatch failed are settled as failed with the error; the others are pending |
| `Scheduling.CollectResults` | internal/scheduler/scheduler.go:197-228 | in whatever order results arrive, exactly the pending tasks are settled, each with the outcome of its own result: its state without error, or its error as "canceled" or "failed" |
| `Scheduling.RunWave` | internal/scheduler/scheduler.go:135-228 | every task of a wave ends with its own outcome, and no other task is touched |
| `Scheduling.SkipPhase` | internal/scheduler/scheduler.go:96-122 | exactly the waiting tasks marked for skipping are skipped and the others are the wave; something is skipped whenever the wave is empty, so the no-progress break is never taken |
| `Scheduling.Round` | internal/scheduler/scheduler.go:95-231 | one iteration is a complete round that completes at least one more task, having found the context live if it had a wave, or stops before its wave because that inspection finds the context cancelled |
| `Scheduling.WaveLoop` | internal/scheduler/scheduler.go:95-231 | terminates; the run is a chain of complete rounds that ends with an outcome for every task, or in a round stopped before the wave whose number is that of the first cancelled inspection |
| `Scheduling.WavePhase` | internal/scheduler/scheduler.go:135-230 | the second half completes the round: every task of the wave gets its own outcome and one batch is opened |
| `Traces.TraceKeepsHistory` | internal/scheduler/scheduler.go:95-231 | after every complete round of every run the history and the frontier of levels hold and the dispatcher was called once for each dispatched task |
| `Traces.EndOfRun` | internal/scheduler/scheduler.go:95-231 | a run that ends early stops with all levels below the wave settled, of its own level exactly the blocked tasks, and a task left to dispatch |
| `Scheduling.FillCanceled` | internal/scheduler/scheduler.go:233-239 | exactly the tasks without an outcome become "canceled" with batch -1 |
| `Runs.RoundFromFresh` | internal/scheduler/scheduler.go:98-228 | what a round records for its tasks cannot change what is due to them, and the skip set is again exactly the tasks below an uncompleted dependency |
| `Runs.RoundKeepsHistory` | internal/scheduler/scheduler.go:95-231 | a round, complete or cut short by cancellation, keeps every outcome consistent, every batch sorted and equal to its level |
| `Runs.RoundKeepsFrontier` | internal/scheduler/scheduler.go:95-231 | after n complete rounds the released tasks are exactly at level n, and once a round dispatched nothing only blocked tasks are left |
| `Runs.WaveNeedsFullBatches` | internal/scheduler/scheduler.go:115-122 | no wave follows a skip-only round |
| `Runs.OutcomeStatus` | internal/scheduler/scheduler.go:250-261 | every reported state is passed through unchanged |
| `Dags.DAG.constructor` | internal/scheduler/dag.go:30-37 | a new graph is empty and valid |
| `Dags.DAG.AddNode` | internal/scheduler/dag.go:41-49 | adds the node and keeps the graph valid; a known node changes nothing |
| `Dags.DAG.AddEdge` | internal/scheduler/dag.go:56-75 | adds the edge iff both nodes are known and the graph stays acyclic, names the right error otherwise, changes nothing on refusal, and keeps the in-degree ledger iff the new predecessor is not completed |
| `Dags.DAG.Reachable` | internal/scheduler/dag.go:172-193 | the stack search returns true iff a path exists, on every edge-closed graph, cyclic ones included |
| `Dags.SearchExpand` | internal/scheduler/dag.go:172-193 | expanding a node keeps what the search knows and shrinks the unvisited nodes |
| `Dags.DAG.Ready` | internal/scheduler/dag.go:79-88 | returns, strictly sorted, exactly the uncompleted nodes without an uncompleted predecessor, and is empty iff every node is completed |
| `Dags.SomeReady` | internal/scheduler/dag.go:79-88 | in an acyclic graph every non-empty set of open nodes has a ready one |
| `Dags.DAG.Complete` | internal/scheduler/dag.go:94-108 | the ledger stays exact, with multiplicity, and the result is exactly the newly ready successors, each once, for known and unknown IDs alike |
| `Dags.DAG.Release` | internal/scheduler/dag.go:98-107 | decrements every successor as often as it is listed and returns, once each, those that reach zero |
| `Dags.CompleteEffect` | internal/scheduler/dag.go:94-108 | after completing a node the in-degrees count the edges from the remaining nodes, and the nodes that reach zero are the newly ready ones |
| `Dags.InsertLedger` | internal/scheduler/dag.go:72-73 | the ledger survives an insertion iff the new predecessor is not completed yet |
| `Dags.DAG.Remaining` | internal/scheduler/dag.go:154-156 | the number of uncompleted nodes, less one for every unknown ID that was completed |
| `Dags.DAG.Dependents` | internal/scheduler/dag.go:161-169 | lists exactly the direct successors |
| `Dags.DAG.Dfs` | internal/scheduler/dag.go:121-136 | one branch of the three-colour search: success blackens the node and everything below it, failure means the graph has a cycle |
| `Dags.DAG.Visit` | internal/scheduler/dag.go:123-133 | a grey successor is a back edge and closes a cycle; otherwise the successor ends black |
| `Dags.DAG.Validate` | internal/scheduler/dag.go:113-146 | accepts iff the graph is non-empty and acyclic, on every edge-closed graph |
| `Dags.FinishNode` | internal/scheduler/dag.go:134-135 | blackening a node whose successors are all black leaves no cycle through a black node |
| `Graphs.InsertKeepsAcyclicIff` | internal/scheduler/dag.go:67-70 | an edge keeps an acyclic graph acyclic iff its target does not reach its source |
| `Graphs.SourceBelow` | internal/scheduler/dag.go:79-88 | inside any non-empty node set of an acyclic graph there is a node without a predecessor in the set |
| `Collectors.ResultCollector.WaitOrRegister` | internal/orchestrator/collector.go:75-87 | returns the stored result and changes nothing, or registers exactly one new empty channel |
| `Collectors.ResultCollector.RemoveWaiter` | internal/orchestrator/collector.go:92-106 | removes exactly the one channel and forgets an empty list |
| `Collectors.ResultCollector.StoreAndNotify` | internal/orchestrator/collector.go:289-306 | stores unless a full result is there, sends to every waiting channel with room, forgets the waiters |
| `Collectors.ResultCollector.Notify` | internal/orchestrator/collector.go:299-304 | each listed channel with room gets the value once; every other channel is unchanged |
| `CollectorRuns.NoLostWakeUp` | internal/orchestrator/collector.go:75-109 | in every reachable state of every interleaving no task has both a result and waiters, a call waiting for a stored result has exactly one value to receive, and what a call returned is about its own task, terminal if partial and the stored result if full |
| `CollectorRuns.ResultIsStored` | internal/orchestrator/collector.go:173-229 | after a result message its task, named by the embedded ID or else by the subject, has a full result, the message's own unless a full one was there; every call that waited for one holds exactly that value and can return; no other task is touched |
| `CollectorRuns.TerminalStatusIsStored` | internal/orchestrator/collector.go:271-285 | a final status for a task without a result leaves a result there once its check and store have run, and every call waiting for the task can return |
| `CollectorRuns.IntermediateStatusIsIgnored` | internal/orchestrator/collector.go:234-286 | a status other than completed, failed, canceled and rejected changes nothing |
| `CollectorRuns.MalformedIsIgnored` | internal/orchestrator/collector.go:173-254 | a message that does not decode, or whose subject names no task, changes nothing |
| `Strings.TrimPrefixMeans` | internal/orchestrator/collector.go:308-312 | trimming takes one copy of the prefix off and nothing else, and leaves a string without it alone |
| `CollectorRuns.WaitFindsOrQueues` | internal/orchestrator/collector.go:75-87 | a call returns the stored result at once, or waits on a new empty channel queued for its task |
| `CollectorRuns.ReceiveReturnsHeld` | internal/orchestrator/collector.go:89-91 | a waiting call returns the one value its channel holds |
| `CollectorRuns.CleanUpForgets` | internal/orchestrator/collector.go:92-107 | a call that gave up is queued nowhere |
| `CollectorRuns.CallsCanMove` | internal/orchestrator/collector.go:89-107 | a waiting call can give up at any time and then clean up; messages are handled in any state |
| `CollectorRuns.StoreWakesAll` | internal/orchestrator/collector.go:289-306 | in every reachable state all channels that a store notifies are empty, so the drop branch is never taken and each gets the value stored in that step |
| `CollectorRuns.ResultsAreMonotone` | internal/orchestrator/collector.go:217-296 | each entry only moves absent, partial, full, and a full result never changes again, even when it lands between the check and the store of a status handler |
| `CollectorRuns.PartialMayBeReplaced` | internal/orchestrator/collector.go:273-284 | a run in which two overlapping status handlers replace one partial result by another |
| `CollectorRuns.FinalIffFull` | internal/orchestrator/collector.go:289-296 | a stored result stays in every continuation of the run iff it is full |
| `CollectorRuns.PartialIsKept` | internal/orchestrator/collector.go:55-57 | when status messages are handled one at a time, a partial result stays until the full one comes |
| `CollectorRuns.StepKeepsInv` | internal/orchestrator/collector.go:75-306 | every locked section keeps the invariant |
| `CollectorRuns.StoreKeepsInv` | internal/orchestrator/collector.go:289-306 | a store keeps the invariant for the calls of every task |
| `CollectorRuns.CleanUpKeepsInv` | internal/orchestrator/collector.go:92-106 | a cancelled call removes itself and nobody else |
| `AcpReplies.RepliesAreRouted` | internal/acp/client.go:182-201 | over all interleavings each reply channel gets at most one message, with the caller's own ID or the closed-connection error, and a caller still waiting has not lost it |
| `AcpReplies.ResponseIsDelivered` | internal/acp/client.go:279-303 | a response with a pending ID leaves exactly itself in its caller's channel, takes the entry, lets the caller go on and touches nobody else; one with another ID changes nothing |
| `AcpReplies.CallOpensEntry` | internal/acp/client.go:182-186 | a call or prompt gets an ID never used before, a pending entry and an empty channel |
| `AcpReplies.LeavingClearsEntry` | internal/acp/client.go:186-201 | a caller that leaves, answered or not, leaves no entry behind and touches nobody else |
| `AcpReplies.CallersCanMove` | internal/acp/client.go:135-170 | a waiting caller can always give up and can go on once it has a message; a prompt with its reply can always go on |
| `AcpReplies.CloseFailsPending` | internal/acp/client.go:249-261 | when the connection closes every caller then pending that still waits when the reader ends holds exactly the closed-connection error, code -32000 |
| `AcpReplies.ClosingOnlyFails` | internal/acp/client.go:249-261 | from the close on nothing but that error is ever sent |
| `AcpReplies.ReaderCanEnd` | internal/acp/client.go:243-261 | the reader can find the connection closed or be stopped at any time, and the broadcast can reach every entry and end |
| `AcpReplies.PendingIsWaiting` | internal/acp/client.go:182-201 | while the reader reads, the pending entries are exactly those of callers that wait and have been sent nothing: no entry leaks |
| `AcpReplies.ReaderNeverBlocks` | internal/acp/client.go:254-303 | whenever the reader sends, the one-slot channel is empty |
| `AcpReplies.ServerRequestResolvesNothing` | internal/acp/client.go:279-295 | a message with a method, or without an ID, resolves no caller |
| `AcpReplies.CloseWakesAll` | internal/acp/client.go:249-261 | when the broadcast of a closed connection ends, every caller registered at its start that still waits has a message |
| `AcpReplies.SilenceAfterStop` | internal/acp/client.go:236-276 | after the reader ended no channel ever receives anything |
| `AcpReplies.StopMayStrandCaller` | internal/acp/client.go:243-247 | a run in which a cancelled reader ends without failing a waiting caller |
| `AcpReplies.StrandedExactly` | internal/acp/client.go:243-247 | when the reader stops without failing anyone, the waiting callers never answered are exactly those pending then |
| `AcpReplies.StepKeepsInv` | internal/acp/client.go:113-303 | every step of callers, prompts and reader keeps the reply invariant |
| `AcpStreams.StreamedText` | internal/acp/client.go:113-172 | an undisturbed prompt whose result has no content returns the wire-order concatenation of its session's message chunks from registration to its end, which include every chunk before the response; an error reply is an error, content of the result comes first, and an undecodable result is an error only without chunks |
| `AcpStreams.JoinConcatenates` | internal/acp/client.go:157-168 | joining is concatenation in order |
| `AcpStreams.OnlyMessageChunksStream` | internal/acp/client.go:331-342 | thought chunks, other updates, empty texts, other notifications, requests and responses leave every prompt alone |
| `AcpStreams.ChunkIsStreamed` | internal/acp/client.go:342-351 | a message chunk goes to the end of the channel registered for its session, is dropped iff 256 wait there, and reaches no other channel |
| `AcpStreams.PromptRegisters` | internal/acp/client.go:119-128 | a prompt registers for its session with an empty channel at the current end of the wire |
| `AcpStreams.PromptKeepsStart` | internal/acp/client.go:113-172 | a prompt keeps its session and its start in every later state |
| `AcpStreams.CollectsInOrder` | internal/acp/client.go:331-356 | in every run, drops and shared sessions included, what a prompt collects is an in-order subsequence of its session's message chunks since it registered, and the text it returns is the result's content or those chunks joined, as the reply decides |
| `AcpStreams.QuietRunsAreUndisturbed` | internal/acp/client.go:125-128 | with at most one prompt per session no prompt shares its key, and with room in every channel no chunk is dropped |
| `AcpStreams.FitsGrows` | internal/acp/client.go:345-351 | a chunk that reaches the channel keeps it equal to the wire; one that does not is merely left out |
| `AcpStreams.RunKeepsAnswered` | internal/acp/client.go:143-170 | in every reachable state a finished prompt returned the text determined by the one reply sent to it and its chunks, and that reply lies on the wire before its end |
| `AcpStreams.StepKeepsInv` | internal/acp/client.go:113-356 | every step keeps what is known about each prompt and about who is registered for each session |
| `Shutdowns.GateHolds` | internal/proxy/handler.go:79-90 | once the gate is closed the set of handlers in flight never grows and the counter never rises |
| `Shutdowns.AdmittedIffOpen` | internal/proxy/handler.go:79-90 | a call is admitted and counted iff the gate is open |
| `Shutdowns.HandlerPasses` | internal/proxy/handler.go:90-164 | an admitted call opens a tracked session, drops it, and is counted out last, or at once if it fails before |
| `Shutdowns.NilReturnIsQuiet` | internal/proxy/shutdown.go:78-146 | after a nil return no handler is in flight, none ever will be, and no session is tracked |
| `Shutdowns.DrainedCanReturnNil` | internal/proxy/shutdown.go:93-108 | with no handler left Shutdown can return nil, in the second phase and in the fourth |
| `Shutdowns.PhasesFollow` | internal/proxy/shutdown.go:84-120 | the gate, the end of the grace period, the cancelled work context and the listing follow each other |
| `Shutdowns.CancellingEnds` | internal/proxy/shutdown.go:119-143 | every listed session can be cancelled, and after them the last wait ends by its timer |
| `Shutdowns.CallerMayGiveUp` | internal/proxy/shutdown.go:100-145 | a caller that gives up ends either wait with its own error |
| `Shutdowns.ReturnTells` | internal/proxy/shutdown.go:99-146 | a nil return means no handler is left, the context error that the caller gave up, a time-out that the grace period was over |
| `Shutdowns.ShutdownIsOrderly` | internal/proxy/shutdown.go:84-146 | in every reachable state tracked sessions belong to handlers in flight, the work context is cancelled only after drain, grace expiry or caller cancellation and always before return |
| `Shutdowns.CancelsTheListed` | internal/proxy/handler.go:345-359 | after phase 3 the sessions sent a cancel are exactly those tracked at the step that listed them, and with fresh session IDs exactly those open then |
| `Shutdowns.AllCancelledIff` | internal/proxy/shutdown.go:117-120 | every session open later was sent a cancel iff it was open at the listing |
| `Shutdowns.TracksAllFreshSessions` | internal/proxy/handler.go:158-164 | as long as session IDs are fresh, the tracked sessions are exactly the open ones |
| `Shutdowns.LateSessionIsMissed` | internal/proxy/handler.go:345-359 | a run in which a session opened after the listing is never sent a cancel although its handler outlives Shutdown |
| `Shutdowns.StepKeepsTracks` | internal/proxy/handler.go:320-333 | every step keeps the counter equal to the handlers in flight and the tracked sessions inside theirs |
| `Shutdowns.StepKeepsInv` | internal/proxy/shutdown.go:78-146 | every step of the handlers and of the manager keeps the shutdown invariant |
| `Branches.Sanitize` | internal/branch/naming.go:72-88 | the loop of replacements terminates and equals cleaning, a one-pass collapse of hyphen runs and a trim |
| `Branches.SanitizedIsSlug` | internal/branch/naming.go:72-102 | the result is that of one pass: forbidden characters and hyphens separate, and each gap between two kept characters is one hyphen |
| `Branches.HalvingKeepsCollapse` | internal/branch/naming.go:83-85 | one pass of "--" replacement does not change what the hyphen runs collapse to |
| `Branches.SanitizedIsClean` | internal/branch/naming.go:72-102 | the result has no forbidden character, no "--" and no hyphen at either end |
| `Branches.SanitizedIffClean` | internal/branch/naming.go:72-102 | a string is left alone iff it is already clean |
| `Branches.SanitizeIsIdempotent` | internal/branch/naming.go:72-88 | sanitizing twice is sanitizing once |
| `Branches.New` | internal/branch/naming.go:20-36 | succeeds iff all three sanitized parts are non-empty, with those parts, and the name survives printing |
| `Branches.Parse` | internal/branch/naming.go:45-68 | succeeds iff the ref, without one leading "origin/", is the printed form of a name, which it returns; otherwise the prefix is missing, or there are fewer than two slashes after it and the count says how many, or the named segment is the first empty one |
| `Branches.PrintThenParse` | internal/branch/naming.go:39-68 | parsing a printed name gives the name back iff no part is empty and neither feature nor agent holds a slash |
| `Branches.ParseThenPrint` | internal/branch/naming.go:45-68 | a ref that parses prints back to itself minus one leading "origin/" |
| `Branches.ParsesIffPrinted` | internal/branch/naming.go:39-68 | a ref parses iff, without one leading "origin/", it is the printed form of a name |
| `Branches.PrefixTestIsExact` | internal/branch/retry.go:56-66 | the string-prefix test followed by a parse selects exactly the plain refs whose parsed feature and agent match |
| `Branches.FoundIffSessionRef` | internal/branch/retry.go:56-66 | prefix test and parse together select exactly the refs of that form and yield the rest of the ref as session |
| `Branches.MatchesAreListed` | internal/branch/retry.go:54-69 | the matches are those refs, each once and in order |
| `Branches.FindRetries` | internal/branch/retry.go:48-70 | the result prints, in order and each once, exactly the listed refs of the form agent/feature/agent/session with the sanitized, non-empty feature and agent and a non-empty session; a lister error is passed on |
| `Branches.IsRetry` | internal/branch/retry.go:74-81 | the count is the number of such refs, and it is a retry iff there is one |
| `Branches.LatestSession` | internal/branch/retry.go:85-95 | the session that the last such ref prints, or none iff there is no such ref |
| `Branches.CreatedIsFound` | internal/branch/retry.go:48-70 | a branch made from raw names is found again by a retry search for the same raw names |
| `Registries.Validate` | internal/registry/registry.go:57-102 | accepts iff every entry is complete and names and queue subjects are distinct; a refusal names the entry and a true fault of it |
| `Registries.CheckEntry` | internal/registry/registry.go:61-88 | an entry passes iff name, description, version, queue subject and runtime are given, its port is positive, and it has a skill and every skill an ID and a name |
| `Registries.FindByName` | internal/registry/registry.go:140-147 | the first entry with the name, or none |
| `Registries.FirstNamedIsFirst` | internal/registry/registry.go:140-147 | the lookup finds the first entry with the name, and nothing iff there is none |
| `Registries.FindBySkill` | internal/registry/registry.go:105-116 | the entries that declare the skill, each once and in list order |
| `Registries.WithSkillIsListed` | internal/registry/registry.go:105-116 | the matches stand at an ascending sequence of exactly the indices with the skill |
| `Registries.WithSkillSelects` | internal/registry/registry.go:105-116 | the matches hold exactly the entries that declare the skill, as often as listed |
| `Registries.Score` | internal/registry/scorer.go:18-48 | 10 tenths for the skill, 5 for each requested tag the agent has, 1 for the runtime |
| `Registries.ScoreIsAsDocumentedIff` | internal/registry/scorer.go:12-17 | the score is never below the documented one, and equals it iff the request repeats no tag that the agent has |
| `Registries.RepeatedTagCountsTwice` | internal/registry/scorer.go:36-40 | a tag requested twice scores twice where the documented rule counts it once |
| `Registries.RouteByScore` | internal/registry/scorer.go:52-69 | the first entry with the highest score; none iff all scores are zero |
| `DynamicRegistries.DynamicRegistry.RunWatcher` | internal/registry/dynamic.go:154-195 | the cache is the replay of the delivered events |
| `DynamicRegistries.LastWriteWins` | internal/registry/dynamic.go:161-193 | after any events each key holds its last decodable put that no delete or purge follows, and a key no event decides keeps what it had |
| `DynamicRegistries.EventEffect` | internal/registry/dynamic.go:161-193 | a put that decodes writes its key, a delete or a purge removes it, anything else changes nothing, and no other key changes |
| `DynamicRegistries.RegistrationsAreKeyed` | internal/registry/dynamic.go:202-225 | while all puts come from registrations, every key is the name of its entry |
| `DynamicRegistries.DynamicRegistry.FindByName` | internal/registry/dynamic.go:293-304 | the cached entry, else the fallback's first match |
| `DynamicRegistries.DynamicRegistry.All` | internal/registry/dynamic.go:338-359 | sorted by name; each entry appears once for each key that caches it, and as often as the fallback has it unless a cached key shadows its name |
| `Strings.LessIsLexicographic` | internal/registry/dynamic.go:355-357 | the order of names is lexicographic: a proper prefix first, otherwise the first difference decides |
| `DynamicRegistries.ViewAgrees` | internal/registry/dynamic.go:338-359 | with keys equal to card names and a validated fallback the merged view is strictly sorted by name and lists an entry iff looking up its name finds it |
| `DynamicRegistries.ViewAgreesIff` | internal/registry/dynamic.go:293-359 | over a validated fallback the merged view and the lookup agree iff every key is its entry's card name |
| `DynamicRegistries.DeduplicatedIff` | internal/registry/dynamic.go:335-359 | over a validated fallback the names of the merged view are distinct iff no two keys cache entries of one name and no cached entry has the name of an unshadowed fallback entry |
| `DynamicRegistries.ForeignKeyDuplicates` | internal/registry/dynamic.go:343-354 | an entry cached under a foreign key is listed twice when the fallback has it |
| `DynamicRegistries.DynamicRegistry.FindBySkill` | internal/registry/dynamic.go:255-267 | the entries of the merged view with the skill, as often as listed, sorted by name |
| `DynamicRegistries.DynamicRegistry.Route` | internal/registry/dynamic.go:307-313 | the queue of a least-named agent with the skill; none iff no agent has it |
| `DynamicRegistries.DynamicRegistry.RouteByScore` | internal/registry/dynamic.go:317-333 | a least-named maximum scorer of the merged view; none iff all scores are zero |
| `ModelConfigs.Cluster.Reconcile` | operator/internal/controller/modelconfig_controller.go:72-153 | one call ends at one of its exit points with exactly that state and result, and after each single write the persisted hash is the old one until every runtime that refers to the config carries the new one |
| `ModelConfigs.Cluster.PropagateHash` | operator/internal/controller/modelconfig_controller.go:218-256 | brings the referring runtimes up to date in list order and stops at the first write that fails; no other runtime is written |
| `ModelConfigs.RotatedIff` | operator/internal/controller/modelconfig_controller.go:218-274 | a rotating call that ends well changes a runtime iff its reference has the config's name, its namespace is the config's or empty in a runtime of the config's namespace, and it carries another hash; then its annotation is the new hash and nothing else of it changes |
| `ModelConfigs.ChangesOnlyPointing` | operator/internal/controller/modelconfig_controller.go:218-274 | no call, however it ends, changes a runtime but to annotate one that refers to the config with the secret's hash |
| `ModelConfigs.RunRotates` | operator/internal/controller/modelconfig_controller.go:112-152 | over any number of calls with a fixed secret: runtimes only change to carry the new hash, those that do not refer to the config never, and the persisted hash stays old until all are up to date |
| `ModelConfigs.FailuresKeepHash` | operator/internal/controller/modelconfig_controller.go:138-150 | any number of failed calls leave the persisted hash unchanged, unless a status write took effect although an error came back |
| `ModelConfigs.SuccessRotatesAll` | operator/internal/controller/modelconfig_controller.go:138-152 | after a change of the secret, a call that reports success leaves the new hash persisted and on every runtime whose reference resolves to the config |
| `ModelConfigs.SucceedsIff` | operator/internal/controller/modelconfig_controller.go:84-152 | with config and secret readable a call succeeds iff the list and every write it still has to make are accepted |
| `ModelConfigs.StatusTellsOutcome` | operator/internal/controller/modelconfig_controller.go:72-153 | a missing config ends well and an unreadable one fails, both without a change; an unreadable secret leaves the config degraded and unavailable with hash and runtimes unchanged and is retried; success leaves it available with the hash of its secret, or the empty one if it refers to none |
| `ModelConfigs.OutsideRotatedIff` | operator/internal/controller/modelconfig_controller.go:226-274 | a rotating call changes a runtime outside the config's namespace iff it carries another hash and its reference names that namespace explicitly |
| `ModelConfigs.OutsideMayBeRotated` | operator/internal/controller/modelconfig_controller.go:260-274 | such a runtime |
| `ModelConfigs.RotatingComposes` | operator/internal/controller/modelconfig_controller.go:112-152 | the state between two calls is as safe a start as the first |

## Left out

- NATS, JetStream, TCP, JSON encoding, git and the Kubernetes API: they appear as
  oracles, event sequences, decoded messages or fallible atomic writes.
- Telemetry, logging, trace contexts and the permission auto-approval of the ACP
  client: they do not touch the modelled state.
- Wall-clock time and the watcher's backoff: a time-out is a step that may happen
  at any moment.
- Expiry of keys in the registry bucket and restarts of the watcher: what the
  server delivers again is not part of the code.
- `WaitForAll`, `FanOut`, the queue consumer's acknowledgements, `WorkerSession`,
  `FindByTag`, `DAG.Size` and the context tracker: they would only add easy members.
- The hash of a secret: an opaque string; whether two secrets share one is not
  modelled.
- AgentRuntime manifests, custom resource types and the stub reconcilers: field
  copying.
- Integer widths: request IDs and generations are unbounded, so a wrap-around of
  the 64-bit ID counter is not modelled.
- Bytes and Unicode: strings are sequences of characters and are ordered by
  character, which is Go's byte order for UTF-8.
- Floating point: scores are counted in tenths, where Go adds 1.0, 0.5 and 0.1.
- The client's and the proxy's state is a value that the steps replace, with one
  step for each locked section or channel operation; taking a pending entry and
  sending on its channel is one step, and so is registering a prompt's two
  entries. Aliasing of the Go objects is not captured.
- A second concurrent call of `Shutdown` is not modelled, and a session counts as
  sent a cancel when the attempt was made, whether or not the agent answered.
- Scheduling.Schedule: the dispatcher's and the collector's answers are fixed for
  each task before the run; an answer that depends on timing is one such choice.
- ModelConfigs.Cluster.Reconcile: reads are not stale and nobody else writes the
  runtimes while a call is running; the texts of conditions are dropped.
- Branches.LatestSession: which session is newest depends on the lister's order,
  which the model takes as given.
