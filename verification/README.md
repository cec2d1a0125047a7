# Verified model of the workflow runtime

A Dafny model of the parts of the backend where order, state and recovery matter: the adaptive
scheduler that runs a workflow's dependency graph while the graph grows, pauses and resumes; the
execution manager with its registry, locks and cancellation; and seven smaller algorithms with loops
of their own. `dafny verify dfyconfig.toml` checks the whole project.

## How it is organised

| files | what they hold |
|---|---|
| `Wrappers`, `Sequences`, `StableSort` | optional values; sequences read as sets; Python's stable sort and what pins it down |
| `Layering` | dependency maps, rounds of ready nodes, chains, and what hanging a new node changes |
| `GraphModel`, `AdaptiveGraph` | the execution graph as a value, and the class that mutates it |
| `ExecutionLayers`, `ResumePrefix` | every result the layering loop may give, and what marking a prefix of an order marks |
| `GeneratedNames`, `PostStep`, `PostStepEffects`, `Decomposition` | ids of inserted nodes, what happens after a step completes and what exactly that adds, and the start |
| `Scheduler`, `SchedulerInvariant`, `SchedulerTheorems`, `RecordedGate` | whole runs as a state machine, its invariant, the theorems about runs, and a run that records the wrong gate |
| `OpenResume`, `SharedLayer` | runs that resume from any pause, what keeps them safe, and two that go wrong |
| `BatchRunner`, `EnginePasses`, `Engine` | the imperative batch runner and scheduler loop, proved to make such runs, each pass as its environment decides it |
| `ManagerModel`, `ManagerTheorems`, `Manager` | the execution manager as interleaved atomic steps, and as classes that make them |
| `Navigation` | breadth-first planning over the UI navigation graph |
| `Patches`, `DebugLoop` | file patches with backups, rollback, and the loop that drives them |
| `ContextBudget` | fitting sections into a character budget |
| `TreeOfThought` | bounded expansion of reasoning branches |
| `UIMerge` | greedy merging of UI boxes |
| `MemoryRanking`, `RankingLaws` | deterministic ranking, duplicate removal and the tail of a retrieval; what decides a score and the order |
| `StartLimiter` | the start-rate window and the retry circuit breaker |

## How the scheduler is modelled

A run is a sequence of states. A step of a run is one pass of the loop (a safety stop, nothing ready,
a pause at a gate, a batch) or a resume from a checkpoint. What the code cannot determine is a free
choice of the step: how each agent's step ends, how many subgoals its output lists, whether a retry
is granted, in which order a Python set is iterated, when the safety guard refuses. So each theorem
about runs holds for all of these. `Engine.ExecuteNodesAdaptive` is the imperative loop over the
mutable `AdaptiveExecutionGraph`; its contract says that the states it passes through are a run of
the state machine, which carries every theorem over to the loop, and that each pass is the one its
environment decides (`EnginePasses.PassStep`): what the guard answered, how the steps ended, what was planned.
From that it follows which outcome a call has and why (`OutcomeDecided`, `EndsForAReason`, `AllGoesWell`).

The machine has two kinds of resume. In the runs of `Scheduler.IsRun` a resume happens only where the gate was
alone among the ready nodes; the code does not check this. `OpenResume.IsOpenRun` drops the condition. Theorems
about runs are about the first kind unless they say otherwise.

Retries are paid from a finite budget, which stands for the retry policy's limits. Layers are relations, not
functions, because the code collects them from sets.

Time, generated ids, the file system's success or failure, the event loop's interleavings and the
case-insensitive title match are parameters. Floating-point scores are real numbers.

## What the proofs found

Each of these is stated exactly, with the condition under which the code does what is expected.

- Resuming marks the first `current_idx` entries of a fresh order as done. These are the processed nodes and
  the gate, for every iteration order, if and only if the gate was the only ready node
  (`PauseResumeExact`, `ResumeExactIffGateAlone`).
- Approval safety fails when two gates are ready together. At a pause, every fresh order marks only gates that
  have been granted, the present one included, if and only if no other ready node is a gate
  (`OnlyGrantedMarkedIff`). With two gates and an agent below the second, approving the first one twice is enough for
  the agent to run below a gate nobody was asked about (`ApprovalBreached`). Over any run, wherever it resumes,
  completed gates are granted if and only if no resume marked one that was not (`OnlyResumesBreach`), and then every
  batch is safe (`OpenApprovalSafety`).
- With an agent beside the gate, the gate is asked about again, and the agent counts as done without having
  run (`AgentSkipped`).
- The node that `resume_workflow` records as approved is entry `current_idx - 1` of the saved order. It is the
  gate when the pause comes in the first pass after a start or a resume (`RecordedApproval`). After a batch,
  completed and ready nodes share one first layer, and the same run with another order taken after that
  batch records another node (`OtherOrderRecorded`). One agent followed by a gate is enough: the agent may be
  recorded as approved (`WrongNodeRecorded`).
- The layering loop forces a node exactly when there is a cycle or a dependency that is not a node
  (`ForcedIffUnsound`).
- `can_parallelize` looks at direct dependencies only. On a ready batch that is enough (`ReadyBatchIndependent`),
  and its only caller passes ready batches. On other batches it misses chains (`DirectTestMissesChains`). A
  batch is independent through every chain exactly when some completed set, closed under dependencies, makes
  all of it ready (`IndependentIffReady`).
- The batch runner's documentation says that results come in completion order; they come in batch order. A step that
  raises in a parallel batch has no result, and its node becomes ready again (`RaisedStepsRunAgain`). When all of
  them raise there are no results at all, and the next pass finds the same batch (`NoResultsIff`).
- A task cancelled before its first step leaves its execution lock held. The same owner is then refused for
  good, and another owner waits for good with the manager's own lock held (`RegisterOutcome`, `RunLater`).
  It happens when a cancellation is marked, its task finishes, the id is registered again, and only
  then the cancellation is sent (`DeadlockReachable`).
- The hard cap of `assemble_sections` is exceeded by exactly four characters whenever the final cut happens
  (`OverCapLength`, `CapHeldIffPartsFit`), with a section to be preserved (`PreservedOverCap`) and without
  one (`LooseOverCap`), and `truncate_section` respects its limit if and only if its
  suffix fits (`TruncateRespectsLimit`).
- A write that fails half-way is recorded without a backup, so the damage becomes what a later rollback restores
  (`OriginalRestoredIff`).
- Ranking is independent of input order if and only if no two different records share score, namespace
  priority and id (`ReplayStableIff`); which duplicates survive is independent of it if and only if the
  content key identifies the record (`DedupeReplayIff`).
- A record without a timestamp weighs more than one a week or more old, and less than any other (`RecencyOrder`).
- The rate limiter's bounded deque answers as the whole history would if and only if, for each recorded time
  that five or more are no earlier than, five such are among the last 200 recorded (`DequeExactIff`). A
  clock that never goes back is enough for that (`DequeSuffices`); one that is set back may break it (`ClockSetBack`).
- Asking for a start and recording it happen at different moments, an allowed start may be given up, and workflows are run and rerun without asking.
  With up to `p` allowed starts outstanding, a window of 60 seconds holds at most `4 + p` starts plus
  those in it that nobody asked for, and that bound is reached (`WindowBound`, `WindowBoundReached`).
  The limit of 5 holds when every start is asked for and recorded before anyone asks again
  (`LimitHolds`); starts nobody asks for are not limited at all (`UnaskedUnlimited`, `SixUnasked`).
- Merging loses elements exactly when two share an id (`AllGroupedIff`).
- A reasoning tree is full exactly when its root's score is at least 0.25 + 0.02 (D - 2) for a depth bound D
  of at least 2 (`FullTreeIff`).

## Model

| member | source | states |
|---|---|---|
| Layering.CompletesIffSound | backend/app/execution/adaptive_graph.py:83-92 | running ready nodes finishes every node exactly when dependencies are acyclic and all name nodes |
| Layering.LayerIsDepth | backend/app/execution/adaptive_graph.py:94-116 | the round in which a node becomes ready is its longest-path depth, both ways |
| Layering.HangLeaf | backend/app/execution/adaptive_graph.py:124-156 | a fresh node hung off an existing one leaves every round as it was and joins the round after its parent |
| Layering.HangLeafAfterRound | backend/app/execution/adaptive_graph.py:124-156 | if the parent ran in round k, rounds up to k are unchanged and the new node is in round k + 1 |
| Layering.HangLeafSound | backend/app/execution/adaptive_graph.py:124-156 | such an insertion keeps the graph acyclic with all dependencies naming nodes |
| Layering.DownClosedReach | backend/app/execution/adaptive_graph.py:83-92 | a completed set closed under dependencies holds everything a completed node depends on through any chain |
| GraphModel.ReadyListCorrect | backend/app/execution/adaptive_graph.py:83-92 | the ready list is the ready nodes, each once, sorted by position, with ties in insertion order |
| GraphModel.ReadyTopDown | backend/app/execution/adaptive_graph.py:206-213 | of two ready nodes the first lies higher, or as high and not further right, absent coordinates read as 0 |
| GraphModel.DependenciesAre | backend/app/execution/adaptive_graph.py:56-66 | m is a dependency of n exactly when an edge goes from m to n, neither id empty, or n lists m and m is a node |
| GraphModel.BuiltNodes | backend/app/execution/adaptive_graph.py:42-54 | the nodes of a graph are exactly those given that have an id; its edges are those given, and nothing is done |
| GraphModel.LastWins | backend/app/execution/adaptive_graph.py:47-49 | of several nodes with one id the last is kept |
| GraphModel.FirstPlaceKept | backend/app/execution/adaptive_graph.py:47-49 | ids stand in the order in which they first occur |
| GraphModel.InsertedNode | backend/app/execution/adaptive_graph.py:133-144 | an insertion puts the node, and below a known node one edge and the dependency unless listed; nothing else changes |
| GraphModel.InsertedInOrder | backend/app/execution/adaptive_graph.py:133-144 | nodes are inserted one by one in the order given |
| GraphModel.FreshNodeHangs | backend/app/execution/adaptive_graph.py:124-156 | inserting a fresh node after an existing one adds exactly that one dependency to the rebuilt map, whether or not the edge list records it |
| ExecutionLayers.LayersPartition | backend/app/execution/adaptive_graph.py:94-116 | on any graph, cyclic or not, layers are nonempty, disjoint and within the nodes laid out |
| ExecutionLayers.ForcedIffUnsound | backend/app/execution/adaptive_graph.py:94-116 | a node is forced by position exactly on a graph with a cycle or a dangling dependency |
| ExecutionLayers.ForcedIsTopmost | backend/app/execution/adaptive_graph.py:109-110 | a forced layer is one node, and no remaining node lies higher, or as high and further left |
| ExecutionLayers.DependenciesEarlierIffSound | backend/app/execution/adaptive_graph.py:94-116 | from scratch, every dependency is collected before the nodes that need it, exactly on an acyclic closed graph |
| ExecutionLayers.DependencyInEarlierLayer | backend/app/execution/adaptive_graph.py:94-116 | there, each dependency of a node of layer i lies in a layer j < i |
| ExecutionLayers.LayersAreLevels | backend/app/execution/adaptive_graph.py:94-116 | from scratch on an acyclic graph, layer i is exactly the nodes whose longest chain has i + 1 nodes |
| ExecutionLayers.LayerCountIsLongestChain | backend/app/execution/adaptive_graph.py:94-116 | ... and the number of layers is the length of the longest chain |
| ExecutionLayers.CompleteLayering | backend/app/execution/adaptive_graph.py:94-116 | every correct beginning of the loop extends to a full layering, so the loop is never stuck |
| ResumePrefix.ScratchOrderPrefix | backend/app/execution/adaptive_graph.py:68-81 | in every fresh order the first nodes are the first k rounds, and the next belongs to round k |
| ResumePrefix.ResumeExactIffGateAlone | backend/app/execution/engine.py:1539-1545 | marking the saved number of nodes marks the processed ones and the gate, for every set order, iff the gate is alone in its layer |
| ResumePrefix.RecordedApprovalIffNothingDone | backend/app/execution/engine.py:2205-2233 | with the gate alone, the saved order names it as approved in every set order iff nothing had completed |
| AdaptiveGraph.AdaptiveExecutionGraph.constructor | backend/app/execution/adaptive_graph.py:42-54 | the graph built from nodes and edges: later duplicates replace, empty ids are skipped, dependencies computed |
| AdaptiveGraph.AdaptiveExecutionGraph.RebuildDeps | backend/app/execution/adaptive_graph.py:56-66 | afterwards m is in `deps[n]` exactly when an edge goes from m to n, neither id empty, or n lists m and m is a node |
| AdaptiveGraph.AdaptiveExecutionGraph.OrderedNodes | backend/app/execution/adaptive_graph.py:68-81 | the concatenation of a layering of all nodes that starts from the completed set |
| AdaptiveGraph.AdaptiveExecutionGraph.GetReadyNodes | backend/app/execution/adaptive_graph.py:83-92 | exactly the nodes not completed and not failed whose dependencies are all completed, from the top down and left to right at one height |
| AdaptiveGraph.AdaptiveExecutionGraph.GetExecutionLayers | backend/app/execution/adaptive_graph.py:94-116 | the loop terminates on every graph and returns a layering of the remaining nodes |
| AdaptiveGraph.AdaptiveExecutionGraph.MarkCompleted | backend/app/execution/adaptive_graph.py:118-119 | adds the id to the completed set and changes nothing else |
| AdaptiveGraph.AdaptiveExecutionGraph.MarkFailed | backend/app/execution/adaptive_graph.py:121-122 | adds the id to the failed set and changes nothing else |
| AdaptiveGraph.AdaptiveExecutionGraph.InsertNodes | backend/app/execution/adaptive_graph.py:124-156 | each node in turn is put, given the dependency and the edge, with dependencies consistent afterwards |
| AdaptiveGraph.AdaptiveExecutionGraph.SpawnChildAgent | backend/app/execution/adaptive_graph.py:158-194 | the child's id, place and dependency, and its insertion below the parent |
| AdaptiveGraph.AdaptiveExecutionGraph.CanParallelize | backend/app/execution/adaptive_graph.py:196-204 | true exactly for two or more ids none of which has another in its dependency set |
| AdaptiveGraph.ReadyBatchIndependent | backend/app/execution/adaptive_graph.py:196-204 | a ready batch of two or more is never refused, and no member is reachable from another through any chain |
| AdaptiveGraph.IndependentIffReady | backend/app/execution/adaptive_graph.py:83-92 | on closed graphs, a batch is independent through every chain iff some dependency-closed completed set makes all of it ready |
| AdaptiveGraph.DirectTestMissesChains | backend/app/execution/adaptive_graph.py:196-204 | an indirectly dependent pair that the direct test accepts |
| GeneratedNames.NamesInjective | backend/app/execution/adaptive_graph.py:166 | a generated id determines the node it was generated for and the reason, for children and recoveries alike |
| PostStep.ProcessAdvances | backend/app/execution/engine.py:1346-1375 | processing one finished node of round k keeps all earlier rounds, soundness, edge agreement and the size account, and adds only agents below it |
| PostStep.TakenNameReplaces | backend/app/execution/adaptive_graph.py:124-156 | a node inserted under a taken id replaces the node there and adds none, so free names are needed |
| PostStep.ProcessAllAdvances | backend/app/execution/engine.py:1597-1622 | the same for any number of results of a batch, in any order |
| PostStepEffects.ProcessEffect | backend/app/execution/engine.py:1346-1375 | everything that processing a finished node changes: two children exactly when it is no subgoal, fewer than two were spawned and two subgoals are listed; a recovery node and the engine edge exactly for a granted, paid retry; their ids, types, flags, places and one dependency each; the two counters; nothing else |
| PostStepEffects.ChildrenIff | backend/app/execution/dynamic_planner.py:321-364 | after a batch the children of a result are there exactly when none were spawned before and it is the first that asks for them |
| PostStepEffects.RecoveryIff | backend/app/execution/reflection_service.py:204-256 | after a batch the recovery node of a result is there exactly when it was granted a retry and fewer were granted before it than the budget had |
| PostStepEffects.SpawnedAfter | backend/app/execution/dynamic_planner.py:339-364 | two children are spawned in all once some result asks for them, and never more |
| PostStepEffects.BudgetAfter | backend/app/execution/reflection_service.py:237-250 | each granted retry takes one from the budget until it is spent |
| PostStepEffects.ProcessAllMarks | backend/app/execution/engine.py:1357 | exactly the processed nodes are marked completed, and none failed |
| SchedulerInvariant.NextInv | backend/app/execution/engine.py:1547-1652 | every step of the scheduler keeps its invariant |
| SchedulerInvariant.RunInv | backend/app/execution/engine.py:1547-1652 | so every state of every run satisfies it, over any number of pauses |
| SchedulerInvariant.RebuiltSame | backend/app/execution/engine.py:2145-2150 | the graph rebuilt from saved nodes and the engine's edges has the same nodes and dependencies |
| SchedulerTheorems.BatchesAreLayers | backend/app/execution/engine.py:1547-1622 | the k-th batch is the k-th layer of the graph at any later time, laid out from scratch in any set order |
| SchedulerTheorems.BatchIsDepth | backend/app/execution/engine.py:1547-1622 | a node runs in batch b exactly when its longest chain has b + 1 nodes |
| SchedulerTheorems.ExecutionOrder | backend/app/execution/engine.py:1547-1622 | in runs that resume only with the gate alone: no node runs twice, and every dependency of a node ran or was granted before it |
| SchedulerTheorems.ApprovalSafety | backend/app/execution/engine.py:1557-1581 | in runs that resume only with the gate alone: no agent runs while a gate among its transitive dependencies has not been granted |
| SchedulerTheorems.OnlyGrantedMarkedIff | backend/app/execution/engine.py:1539-1545 | at a pause, every fresh order marks only granted gates and the present one iff no other ready node is a gate |
| OpenResume.FreshBeginning | backend/app/execution/adaptive_graph.py:68-81 | on any graph, a beginning of a fresh order no longer than what can be done in rounds is closed under dependencies |
| OpenResume.OnlyResumesBreach | backend/app/execution/engine.py:1539-1545 | in runs that resume anywhere, all completed gates are granted iff no resume marked one that was not |
| OpenResume.OpenApprovalSafety | backend/app/execution/engine.py:1557-1622 | in runs that resume anywhere, as long as no resume has marked an ungranted gate, batches execute agents whose transitive gates are granted |
| SharedLayer.ApprovalBreached | backend/app/execution/engine.py:1539-1596 | a run with two gates in which an agent runs below one nobody was asked about |
| SharedLayer.AgentSkipped | backend/app/execution/engine.py:1539-1555 | a run with a gate beside an agent that ends completed without running the agent |
| SchedulerTheorems.BatchIsSafe | backend/app/execution/engine.py:1557-1596 | a gate is never handed to the batch runner, and the batch's members are independent through every chain |
| SchedulerTheorems.NoStarvation | backend/app/execution/engine.py:1552-1555 | a run that leaves with nothing ready has finished everything exactly when the final graph is acyclic and closed |
| SchedulerTheorems.EveryNodeOnce | backend/app/execution/engine.py:1547-1652 | in runs that resume only with the gate alone, from an acyclic closed start: a completed run has run every agent once and had every gate granted, inserted nodes included |
| SchedulerTheorems.SizeBound | backend/app/execution/dynamic_planner.py:339-364 | the final size is the initial one plus 0 or 2 runtime children plus the retries spent |
| SchedulerTheorems.RankFalls | backend/app/execution/engine.py:1547-1652 | every step lowers a rank made of unfinished nodes and insertions still allowed |
| SchedulerTheorems.Termination | backend/app/execution/engine.py:1547-1652 | a run has at most 2 (nodes + 2 + budget) + 2 steps |
| SchedulerTheorems.PauseResumeExact | backend/app/execution/engine.py:1539-1545 | at every pause of every run: same rebuilt dependencies, and exact marking for every set order iff only the gate was ready |
| SchedulerTheorems.SavedOrder | backend/app/execution/engine.py:1533-1621 | in every unfinished state of every run the saved order was taken with the present marks or from scratch |
| SchedulerTheorems.RecordedApproval | backend/app/execution/engine.py:2205-2233 | the recorded entry of the saved order is the gate in the first pass after a start or a resume; for orders taken with the marks made, always so iff nothing had completed |
| SchedulerTheorems.OtherOrderRecorded | backend/app/execution/engine.py:2205-2233 | a pause after a batch has a sibling run, different only in the order taken after that batch, that records another node |
| RecordedGate.WrongNodeRecorded | backend/app/execution/engine.py:2205-2233 | a run of one agent and a gate whose recorded entry is the agent |
| SchedulerTheorems.CompletedClosed | backend/app/execution/engine.py:1547-1652 | at every moment of every run, failed and cancelled ends included, the completed set is closed under the present dependencies |
| SchedulerTheorems.ProcessKeepsClosed | backend/app/execution/engine.py:1346-1375 | processing one finished node, with all it inserts, keeps the completed set closed |
| SchedulerTheorems.MarkAndHangClosed | backend/app/execution/adaptive_graph.py:118-156 | so does marking any ready node and hanging any fresh node off an existing one |
| BatchRunner.RunSequentially | backend/app/execution/parallel_runtime.py:61-80 | each node's own status up to the first that does not complete; an exception leaves the loop |
| BatchRunner.RunTogether | backend/app/execution/parallel_runtime.py:98-141 | results in batch order without the steps that raised; exactly the steps not cancelled executed, each once |
| BatchRunner.ExecuteReadyBatch | backend/app/execution/parallel_runtime.py:25-141 | which branch runs and what it returns; when no step raises, each result is how that very step ends, all of them side by side, in turn up to the first not completed, and exactly the steps with a result that were not cancelled executed |
| BatchRunner.RaisedStepsRunAgain | backend/app/execution/parallel_runtime.py:134-139 | after a parallel batch the nodes found ready again are exactly those whose step raised |
| BatchRunner.GatheredMembers | backend/app/execution/parallel_runtime.py:134-141 | a node has a gathered result exactly when its step did not raise |
| BatchRunner.NoResultsIff | backend/app/execution/parallel_runtime.py:134-141 | a batch run side by side has no results exactly when all its steps raise |
| Decomposition.DecomposeObjective | backend/app/execution/dynamic_planner.py:120-152 | the initial decomposition: two or three children below the last agent of a short workflow |
| Decomposition.DecomposeStarts | backend/app/execution/dynamic_planner.py:120-152 | it leaves a valid start for a run: names fresh, edges agreeing, soundness kept, at most three nodes more |
| Decomposition.DecomposeAdds | backend/app/execution/dynamic_planner.py:120-152 | two or more subgoals in a workflow of fewer than four agents put children 0 and 1, and 2 when there are three, below the last agent, each with its place, flag and dependency; otherwise nothing is added |
| Decomposition.NoAgentNoChild | backend/app/execution/dynamic_planner.py:120-152 | a workflow of gates alone is left as it is |
| EnginePasses.GoesOnIff | backend/app/execution/engine.py:1547-1622 | the loop goes on exactly after a pass the guard permits, with something ready, no gate among it, and all its steps completing |
| EnginePasses.PausesIff | backend/app/execution/engine.py:1557-1578 | it pauses exactly when a permitted pass finds a gate ready, at the first one |
| EnginePasses.EndsIff | backend/app/execution/engine.py:1547-1652 | it ends with a status exactly when the guard refuses (failed), nothing is ready (completed), or the first step that does not complete ends so |
| EnginePasses.OutcomeDecided | backend/app/execution/engine.py:1547-1652 | a call stops in its first pass that cannot go on, and how it stops is decided there |
| EnginePasses.EndsForAReason | backend/app/execution/engine.py:1547-1652 | failed only for a refused pass or a step that failed, cancelled only for a step that was |
| EnginePasses.AllGoesWell | backend/app/execution/engine.py:1547-1652 | when the guard permits every pass and every step completes, a call from an acyclic closed start ends completed with every node once in its history, or pauses at a gate; without gates it never pauses |
| EnginePasses.BatchMarks | backend/app/execution/engine.py:1597-1622 | a batch marks the nodes before its first step that does not complete as completed, and that one as failed if it failed |
| EnginePasses.BatchSpawns | backend/app/execution/engine.py:1597-1622 | in a pass that goes on, the first ready node whose plan asks for subgoals gets two children, if none were spawned, and retries are granted in order while the budget lasts |
| Engine.ProcessCompletedNode | backend/app/execution/engine.py:1346-1375 | mark, spawn and recovery on the mutable graph make exactly the changes spelled out in `PostStepEffects.Processed` |
| Engine.ProcessResults | backend/app/execution/engine.py:1597-1622 | results are processed up to the first that is not completed, and a failed node is marked |
| Engine.Iterate | backend/app/execution/engine.py:1547-1650 | one pass extends the run by one state of lower rank, as the environment decides: a safety stop exactly when the guard refuses, else the end, a pause at the first gate, or the batch with the results its own steps have |
| Engine.ExecuteNodesAdaptive | backend/app/execution/engine.py:1378-1652 | the call terminates; its states extend a run, from a fresh start or from a checkpoint whose gate was alone, each pass i as the environment decides with the guard's i-th answer; outcome, counters and checkpoint are those of the last state |
| Engine.TotalSize | backend/app/execution/engine.py:1547-1652 | n nodes never become more than n + 3 + 2 + budget, over any run and any number of pauses |
| ManagerTheorems.RunInv | backend/app/execution/manager.py:218-434 | every interleaving of register, cancel, finish and cleanup stages keeps the manager's invariant |
| ManagerTheorems.OneLiveTask | backend/app/execution/manager.py:218-279 | an execution id has at most one live task, and it is the registered one |
| ManagerTheorems.LockHeldWhileRunning | backend/app/execution/manager.py:285-342 | while a body runs, its lock is held in its owner's name |
| ManagerTheorems.RegisterOutcome | backend/app/execution/manager.py:218-279 | what register answers, decided by the id's state alone: duplicate, registered, refused or waiting |
| ManagerTheorems.RunLater | backend/app/execution/manager.py:83-98 | a terminal status is never left, a set cancel event stays set, a leaked lock stays leaked |
| ManagerTheorems.NeverWoken | backend/app/execution/manager.py:131-164 | a registration that waits for an execution lock is never woken |
| ManagerTheorems.DeadlockReachable | backend/app/execution/manager.py:346-434 | a concrete run, no cleanup interrupted, that ends with the manager's lock held for good |
| Manager.ExecutionLock.Acquire | backend/app/execution/manager.py:131-164 | acquires, reports reentry by the same owner, or waits |
| Manager.ExecutionLock.Release | backend/app/execution/manager.py:166-174 | unlocks this id and forgets its owner, other ids untouched |
| Manager.ExecutionLock.Cleanup | backend/app/execution/manager.py:181-185 | forgets lock and owner, whoever holds it |
| Manager.ExecutionManager.Register | backend/app/execution/manager.py:218-279 | makes exactly the registration step of the model |
| Manager.ExecutionManager.FinishBody | backend/app/execution/manager.py:285-314 | the status becomes completed, cancelled or failed by how the body ended, and cleanup begins; nothing else changes |
| Manager.ExecutionManager.CleanupLock | backend/app/execution/manager.py:332-333 | the cleanup stage that releases the execution lock |
| Manager.ExecutionManager.CleanupRegistry | backend/app/execution/manager.py:338-340 | the last cleanup stage removes whatever the registry holds under the id |
| Manager.ExecutionManager.CancelMark | backend/app/execution/manager.py:360-382 | refuses unknown or terminal ids, otherwise marks and sets the event |
| Manager.ExecutionManager.CancelSend | backend/app/execution/manager.py:430-434 | cancels whatever task is registered by then |
| Navigation.Search | backend/app/computer_use/ui_navigation_graph.py:74-94 | breadth-first search: a shortest route when there is one, empty exactly when there is none |
| Navigation.ExpandEntry | backend/app/computer_use/ui_navigation_graph.py:85-93 | expanding an entry finds the target among its neighbours or queues each unseen one |
| Navigation.ExhaustedSeesAll | backend/app/computer_use/ui_navigation_graph.py:82-94 | with the queue empty, everything reachable has been seen |
| Navigation.StepIsTransition | backend/app/computer_use/ui_navigation_graph.py:79-82 | a step of a route is a recorded successful transition, and the other way round |
| Navigation.FirstMatchIsFirst | backend/app/computer_use/ui_navigation_graph.py:69-75 | the screen planned for is the first in order of creation whose title matches |
| Navigation.UINavigationGraph.AddState | backend/app/computer_use/ui_navigation_graph.py:36-46 | a known hash moves there and renames only with a title, an unknown one adds a screen; hashes stay unique |
| Navigation.UINavigationGraph.RecordTransition | backend/app/computer_use/ui_navigation_graph.py:48-59 | appends an edge between the screens of the two hashes and moves to the target; edges stay between known screens |
| Navigation.UINavigationGraph.FindOrCreate | backend/app/computer_use/ui_navigation_graph.py:61-65 | finds the screen of a hash without moving, or adds it |
| Navigation.UINavigationGraph.PlanPath | backend/app/computer_use/ui_navigation_graph.py:67-94 | a shortest route of successful edges to the first matching screen, empty exactly without match, current screen or route |
| Patches.UndoAllIsFirst | backend/app/coding/patch_executor.py:126-132 | undoing everything leaves each file at the backup of its first restored record |
| Patches.RollbackLastIdempotent | backend/app/coding/patch_executor.py:119-124 | a second rollback of the last patch changes nothing more |
| Patches.RollbackAllRestores | backend/app/coding/patch_executor.py:126-132 | without torn writes, existing files get their original content back and created ones keep their first patched content |
| Patches.RollbackAllExact | backend/app/coding/patch_executor.py:52-132 | whatever fails, an existing file gets back its content just before its first successful patch |
| Patches.OriginalRestoredIff | backend/app/coding/patch_executor.py:52-98 | that is the original iff no torn write came before, or the last one left the original |
| Patches.TornWriteIsNotUndone | backend/app/coding/patch_executor.py:52-98 | a concrete sequence after which rollback brings the damage back |
| Patches.CountIsBackedUp | backend/app/coding/patch_executor.py:126-132 | the count is exactly the successful patches whose file existed |
| DebugLoop.PatchExecutor.ApplyTextPatch | backend/app/coding/patch_executor.py:52-98 | backup, write and record, for every way the file operations can go |
| DebugLoop.PatchExecutor.Rollback | backend/app/coding/patch_executor.py:100-117 | restores one patch by id: true exactly when its backup was copied back |
| DebugLoop.PatchExecutor.RollbackLast | backend/app/coding/patch_executor.py:119-124 | restores the last successful patch that has a backup |
| DebugLoop.PatchExecutor.RollbackAll | backend/app/coding/patch_executor.py:126-132 | restores every such patch from the last to the first and counts them |
| DebugLoop.LastPatchUndone | backend/app/coding/debug_loop.py:126-150 | after patches on existing files, one rollback restores the last patched file to its content just before, nothing else |
| DebugLoop.ApplyHeuristicPatches | backend/app/coding/debug_loop.py:169-212 | the patches are exactly those that the first three planned edits ask for, each looked at on the disk the ones before it left: path, rewritten content, next id and outcome; the count is of those that succeed |
| DebugLoop.PlanDetermines | backend/app/coding/debug_loop.py:169-212 | the plan and the disk determine the patches of an iteration |
| DebugLoop.RolledBackRestores | backend/app/coding/debug_loop.py:103-150 | an iteration that reports a rollback leaves its last patched file as before that patch; one that reports none keeps all its patches |
| DebugLoop.RunIteration | backend/app/coding/debug_loop.py:86-150 | the planned patches, the test, and a rollback exactly after a failed test with applied patches and confidence under 0.55 |
| DebugLoop.Run | backend/app/coding/debug_loop.py:72-167 | iterations are numbered, stop at the first success or after the retries, and chain the disk states |
| ContextBudget.TruncateLength | backend/app/execution/context_budget_manager.py:158-163 | the length of a truncated section for every limit, negative slices included |
| ContextBudget.TruncateRespectsLimit | backend/app/execution/context_budget_manager.py:158-163 | the limit is respected iff nothing is cut or the suffix fits |
| ContextBudget.AssembleSections | backend/app/execution/context_budget_manager.py:166-209 | the loop over sections computes the assembled text, the truncated names and the characters removed |
| ContextBudget.OverCapLength | backend/app/execution/context_budget_manager.py:201-209 | exactly four characters over a cap of at least 20 when the final cut happens |
| ContextBudget.CapHeldIffPartsFit | backend/app/execution/context_budget_manager.py:172-209 | the documented hard cap holds iff the parts fit without the final cut |
| ContextBudget.PreservedOverCap | backend/app/execution/context_budget_manager.py:166-209 | one preserved section longer than a cap of at least 20 gives a result of cap + 4 |
| ContextBudget.LooseOverCap | backend/app/execution/context_budget_manager.py:186-209 | so do two sections that may be cut, whenever the first fills the cap |
| ContextBudget.PartsMatchSections | backend/app/execution/context_budget_manager.py:186-200 | one part per nonblank section, in order; preserved ones verbatim, every altered one listed by name |
| ContextBudget.PartIs | backend/app/execution/context_budget_manager.py:186-200 | the part of a section: itself when preserved or within its limit, otherwise its front and the note; the limit is what the loose sections before it left, and 0 once one was cut |
| ContextBudget.TruncatedAreCut | backend/app/execution/context_budget_manager.py:186-200 | the names reported as truncated are those of the sections longer than their limit, in order |
| ContextBudget.BudgetIs | backend/app/execution/context_budget_manager.py:183-184 | loose sections start with what the preserved ones leave of the cap, but at least a third of it |
| ContextBudget.JoinSplits | backend/app/execution/context_budget_manager.py:202 | parts are joined by blank lines |
| ContextBudget.AssembleIsPlainJoin | backend/app/execution/context_budget_manager.py:184-209 | when the plain blank-line join fits the cap it is the result and nothing is reported cut |
| TreeOfThought.ExpandBranch | backend/app/cognition/deliberation_engine.py:359-379 | an evidence and a risk child, scores clamped to [0, 0.95] |
| TreeOfThought.AttachChildren | backend/app/cognition/deliberation_engine.py:297-314 | children are recorded, listed by their parent in order, and kept for the next level by score |
| TreeOfThought.ExpandLevel | backend/app/cognition/deliberation_engine.py:290-319 | one level keeps the forest, what is settled about visited branches, and the account of branches made and owed |
| TreeOfThought.RunTreeOfThought | backend/app/cognition/deliberation_engine.py:261-324 | a forest with agreeing links, children in the order of their parents; children exactly by score and depth; pruned exactly below the threshold; its size is what the roots are due |
| TreeOfThought.FullTreeIff | backend/app/cognition/deliberation_engine.py:290-319 | a tree has at most 2^D - 1 branches, and exactly so many iff the root scores at least 0.25 + 0.02 (D - 2) |
| TreeOfThought.ForestSize | backend/app/cognition/deliberation_engine.py:290-324 | the same over all roots, with equality iff every root is that high |
| TreeOfThought.EdgesAreNonRoots | backend/app/cognition/deliberation_engine.py:382-396 | the graph has one edge for every branch that is not a root |
| TreeOfThought.EdgesParentToChild | backend/app/cognition/deliberation_engine.py:382-390 | edges are exactly the (parent, child) pairs, in the order of the children |
| TreeOfThought.ChildScores | backend/app/cognition/deliberation_engine.py:359-379 | children score 0.05 more and 0.02 less than their parent, within [0, 0.95] |
| TreeOfThought.SelectBestBranch | backend/app/cognition/deliberation_engine.py:399-403 | the first of the highest scored branches that are not pruned, or none |
| TreeOfThought.BestIsEvidenceChain | backend/app/cognition/deliberation_engine.py:359-403 | none is chosen iff every root is below the threshold; otherwise its score is the best root's after an evidence pass on every level |
| UIMerge.MergeNearby | backend/app/computer_use/ui_detector.py:107-141 | for any elements, the loops form the groups by used ids, each group merged |
| UIMerge.GatherGroup | backend/app/computer_use/ui_detector.py:115-123 | the inner loop takes the near elements with new ids, each id once, and marks exactly their ids |
| UIMerge.DistinctAreGreedy | backend/app/computer_use/ui_detector.py:107-141 | with distinct ids these are the plain greedy groups, without a set of used ids |
| UIMerge.EachIdOnce | backend/app/computer_use/ui_detector.py:107-141 | whatever the ids, each is in the groups exactly once |
| UIMerge.AllGroupedIff | backend/app/computer_use/ui_detector.py:107-141 | every element is in a group, once, iff no two share an id |
| UIMerge.GroupsPartition | backend/app/computer_use/ui_detector.py:107-141 | the greedy groups hold every element exactly once |
| UIMerge.JoinsFirstLeader | backend/app/computer_use/ui_detector.py:115-123 | for any elements, a member is within the threshold of its own leader and of no earlier one; so leaders are pairwise apart |
| UIMerge.GreedyJoinsFirst | backend/app/computer_use/ui_detector.py:115-123 | the same of the plain greedy groups |
| UIMerge.GroupKeepsOrder | backend/app/computer_use/ui_detector.py:111-123 | members of a group stand in the order of the list |
| UIMerge.LeadersKeepOrder | backend/app/computer_use/ui_detector.py:111-123 | and so do the leaders of the groups |
| UIMerge.MergedCaption | backend/app/computer_use/ui_detector.py:127-132 | the merged caption is the first 120 characters of the joined captions |
| UIMerge.LabelsJoined | backend/app/computer_use/ui_detector.py:127 | captions are joined by blanks in order |
| UIMerge.MergeIsLeastBox | backend/app/computer_use/ui_detector.py:127-140 | the merged box covers every member and is inside every box that does; it has the leader's type, the highest confidence, and is interactive iff a member is |
| UIMerge.MergeSize | backend/app/computer_use/ui_detector.py:127-140 | at most two thresholds wider and higher than the largest member |
| UIMerge.MergeAllAt | backend/app/computer_use/ui_detector.py:124-141 | merged element k comes from group k |
| MemoryRanking.FlagsDecide | backend/app/execution/memory_ranker.py:88-135 | of two records alike but for their flags, the one whose flags weigh more scores higher, both ways, rounding included |
| MemoryRanking.ScoreRange | backend/app/execution/memory_ranker.py:88-135 | with recency and usefulness in [0, 1] a score lies in [-0.35, 1] |
| MemoryRanking.RecencyOrder | backend/app/execution/memory_ranker.py:52-66 | later timestamps never weigh less; a missing one weighs more than exactly those a week or more old |
| RankingLaws.LeadDecides | backend/app/execution/memory_ranker.py:88-135 | three parts confidence, two parts recency, one part usefulness and the flags: a lead shows in the score as soon as rounding cannot hide it, and is never reversed |
| RankingLaws.ConfidenceClamped | backend/app/execution/memory_ranker.py:98-101 | confidence counts within [0, 1] only |
| RankingLaws.RecencyFromAge | backend/app/execution/memory_ranker.py:103-107 | a recency of one half lets the age of the record decide |
| RankingLaws.RecencyBands | backend/app/execution/memory_ranker.py:52-66 | two timestamps weigh the same exactly when the same ones of an hour, a day and a week have passed |
| RankingLaws.RoundNearest | backend/app/execution/memory_ranker.py:135 | a score is the nearest multiple of 1/10000, the even one of two |
| RankingLaws.RankedInOrder | backend/app/execution/memory_ranker.py:152-161 | a ranking goes by score, highest first, then by namespace priority, then by id |
| RankingLaws.StringLeIs | backend/app/execution/memory_ranker.py:152-156 | ids compare at the first character where they differ, a prefix first |
| RankingLaws.SameKeyIff | backend/app/execution/memory_ranker.py:177-180 | two records are duplicates exactly when their normalized contents agree in the first 200 characters |
| MemoryRanking.KeyOrder | backend/app/execution/memory_ranker.py:152-156 | the sort key is a total preorder |
| MemoryRanking.TieIff | backend/app/execution/memory_ranker.py:152-156 | two entries tie exactly when score, namespace priority and id agree |
| MemoryRanking.RankIsSortedPrefix | backend/app/execution/memory_ranker.py:138-161 | a ranking is the front of the sorted permutation of all scored records |
| MemoryRanking.DistinctIdsDistinguish | backend/app/execution/memory_ranker.py:82-86 | with distinct ids no two records tie |
| MemoryRanking.RankReplay | backend/app/execution/memory_ranker.py:138-161 | a permutation of records the key distinguishes ranks the same, for every limit |
| MemoryRanking.ReplayStableIff | backend/app/execution/memory_ranker.py:82-161 | ranking is the same in every order iff no two different records share the whole key |
| MemoryRanking.DedupeRecords | backend/app/execution/memory_ranker.py:182-197 | the loop with its seen set computes the deduplication and its count |
| MemoryRanking.DedupeKeepsFirsts | backend/app/execution/memory_ranker.py:182-197 | what is kept is exactly the first record of each key |
| MemoryRanking.DedupeDistinct | backend/app/execution/memory_ranker.py:182-197 | kept records have distinct keys |
| MemoryRanking.DedupeKeySet | backend/app/execution/memory_ranker.py:182-197 | no key is lost |
| MemoryRanking.NoDupesIff | backend/app/execution/memory_ranker.py:182-197 | the count is zero iff all keys differ, and then the list is unchanged |
| MemoryRanking.DedupeIdempotent | backend/app/execution/memory_ranker.py:182-197 | deduplicating twice is deduplicating once |
| MemoryRanking.DedupeReplayIff | backend/app/execution/memory_ranker.py:177-197 | what survives is the same in every order iff records with one key are one record |
| MemoryRanking.MemoryCoordinator.FinalizeRetrieval | backend/app/execution/memory_coordinator.py:170-199 | the result and the trace's counts of retrieved, deduplicated and ranked records |
| MemoryRanking.RetrievalOrder | backend/app/execution/memory_coordinator.py:170-199 | the result is what the ranking cut leaves of the deduplicated records, for limits of any sum, by key with retries last |
| MemoryRanking.RetrievalReplay | backend/app/execution/memory_coordinator.py:170-199 | the whole retrieval is the same in any order when the two keys tell records apart |
| StartLimiter.ProductionSafetyGuard.RecordExecutionStart | backend/app/execution/production_safety.py:42-46 | records the time, appends to the bounded deque, resets the retry count but not the spiral |
| StartLimiter.ProductionSafetyGuard.RecordRetry | backend/app/execution/production_safety.py:49-54 | raises both counts and returns the first |
| StartLimiter.ProductionSafetyGuard.ClearExecution | backend/app/execution/production_safety.py:57-60 | forgets the execution, the start times stay |
| StartLimiter.ProductionSafetyGuard.CheckRateLimit | backend/app/execution/production_safety.py:63-77 | allowed exactly with fewer than three active executions and fewer than five entries of the deque less than 60 seconds old |
| StartLimiter.RateCheckIff | backend/app/execution/production_safety.py:63-77 | a start is allowed exactly with fewer than three active and fewer than five starts in the last 60 seconds, and the reason says which |
| StartLimiter.ProductionSafetyGuard.CheckRetryCircuit | backend/app/execution/production_safety.py:80-93 | the check over the spiral count |
| StartLimiter.CircuitCountsRetries | backend/app/execution/production_safety.py:42-93 | over any history: open at eight retries since the last clear, degraded at six and seven; starting again does not close it |
| StartLimiter.RetriesCounted | backend/app/execution/production_safety.py:42-60 | the other count is of the retries since the execution was last started or cleared |
| StartLimiter.StartRecorded | backend/app/execution/production_safety.py:42-60 | the recorded time is that of the last start not followed by a clearing |
| StartLimiter.DequeHoldsLast | backend/app/execution/production_safety.py:31-46 | the deque holds the last 200 start times ever recorded |
| StartLimiter.DequeSuffices | backend/app/execution/production_safety.py:63-77 | with nondecreasing times the check over the deque equals the check over the whole history |
| StartLimiter.DequeExactIff | backend/app/execution/production_safety.py:63-77 | for any recorded times, the deque answers every question as the whole history does, iff whenever five times are no earlier than a recorded one, five such are among the last 200 |
| StartLimiter.ClockSetBack | backend/app/execution/production_safety.py:63-77 | a history with the clock set back whose answers differ |
| StartLimiter.WindowBound | backend/app/execution/production_safety.py:42-77 | in every interleaving of checks, starts, given-up and unasked starts, a 60-second window holds at most 4 starts plus the number outstanding plus the unasked ones in it |
| StartLimiter.WindowBoundReached | backend/app/execution/production_safety.py:42-77 | that bound is reached for every number outstanding and every number unasked |
| StartLimiter.LimitHolds | backend/app/execution/production_safety.py:63-77 | at most five, when every start is asked for and recorded before anyone asks again |
| StartLimiter.UnaskedUnlimited | backend/app/execution/engine.py:1718 | any number of unasked starts fits into one window with nothing outstanding |
| StartLimiter.SixUnasked | backend/app/execution/engine.py:1718 | six unasked starts exceed the limit |

## Left out

- Resume when the gate shares its layer with other nodes: no exactness, order or run-once claim is made, because the prefix rule then does not identify the gate; `OpenResume` keeps what still holds, and `SharedLayer` shows what does not.
- Engine.ExecuteNodesAdaptive: assumes that every started step returns a status; a step that raises is covered by the batch runner's contract alone.
- Engine.ExecuteNodesAdaptive: a fresh start assumes that nodes have ids and that the workflow mentions no id that may be generated for its own nodes; `TakenNameReplaces` shows what a taken name does. A resume assumes that the gate was alone.
- ManagerTheorems.NeverWoken: the approve and reject routes also take and release execution locks and are not part of this model; one that holds the lock when a registration begins to wait would wake it on release.
- Decomposition.DecomposeObjective: takes the number of subgoals as an input; splitting the objective's text is not modelled.
- DebugLoop.PatchExecutor.ApplyTextPatch: paths are already resolved, and backups are kept apart from the patched files, so a patch into the backup directory is not modelled.
- DebugLoop.ApplyHeuristicPatches: the planned edits, the test for a qualifying path and the rewriting of a content are parameters.
- MemoryRanking.MemoryCoordinator.FinalizeRetrieval: one clock reading serves all records, while the code reads the clock for each; telemetry fields of the trace and the reasons attached to a score are left out.
- MemoryRanking.RankReplay: scores are real numbers, so a tie that only floating-point rounding makes or breaks is not modelled.
- TreeOfThought.RunTreeOfThought: for a depth bound of at least 1; the text of a branch is not modelled, and scores are real numbers.
- Navigation.UINavigationGraph.PlanPath: the case-insensitive substring test on titles is a parameter.
- UIMerge.MergeNearby: the id of a merged element is a parameter.
- The retry policy, retry coordinator and quality scoring: a finite budget and free choices.
- The mutation records of the graph, node metadata, labels and goals: carried along by the code, read by nothing modelled here.
- `cancel_all` and the route-level approval locks.
- The event manager's lock is never held across an await, so its stages of a cleanup are steps without suspension.
- Database writes, events, streaming, logging, agent execution, thread pools and heartbeats.
- `context_compression.py`, `build_workflow_context` and `format_memory_sections`.
- `check_duration` and `check_memory_pressure`: one comparison each.
