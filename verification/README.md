# GeneralAI: its automation, plugin, LLM and agent protocols in Dafny

A verified model of the parts of the system where several steps interleave,
where a fast form stands for a simple one, or where a bound must hold over a
whole run. Time is always a parameter, never a clock call; an event loop is a
sequence of turns chosen by anybody, so a theorem about all sequences is a
theorem about every interleaving. Each class of the program that updates its
fields is a class here, proved against pure functions; the theorems are about
those functions.

| file | what it models |
|---|---|
| `wrappers.dfy`, `text.dfy` | options and results; splitting and joining at a separator |
| `digraph.dfy` | dependency maps, walks, cycles, dependency-first listings |
| `workflow_graph.dfy` | the workflow graph: Kahn's algorithm, ready sets, reference checks |
| `workflow_model.dfy` | steps, approvals, one attempt, and what a step comes to once its retries are played out |
| `workflow_waves.dfy` | one wave as an interleaving of the await-free sections of its tasks |
| `workflow_runs.dfy` | one executor call, restored from and finalized into the persisted run |
| `workflow_service.dfy` | the persisted run between the sections of the service, with executor calls in flight |
| `workflow_overlap.dfy` | two executor calls on one run at the same time |
| `workflow_equivalence.dfy` | every schedule that ends a run writes the records its steps come to, and finished runs coincide |
| `workflow_resume.dfy` | runs that pause and resume stay faithful to the decisions taken |
| `workflow_refinement.dfy` | parallel waves mean the same as one step at a time |
| `workflow_transparency.dfy` | pause and resume cannot be seen in the result |
| `workflow_executor.dfy` | the executor, its output store and engine state, against the model |
| `output_paths.dfy` | reading a path out of a stored output |
| `plugin_load_order.dfy` | the three depth-first load orders |
| `cron.dfy`, `cron_schedule.dfy` | cron field syntax, the search for the next match, and what the scheduler relies on in it |
| `scheduler.dfy` | the tick, fire, advance and release protocol |
| `prompt_cache.dfy` | the timestamp LRU against a recency list |
| `sliding_window.dfy`, `fixed_window.dfy` | the two rate limiters against the full history of grants |
| `circuit_breaker.dfy` | the three-state breaker and its traces |
| `analytics.dfy` | the bounded event log and its index |
| `line_splitter.dfy` | the streaming line splitter |
| `agent_sessions.dfy`, `agent_manager.dfy` | the session protocol, and the manager section by section |

`dafny verify dfyconfig.toml` checks the project.

## Where the code does not do what its text says

The model follows the code. Each of these is a lemma or an exact contract.

- `has_cycle` answers true for an acyclic graph with a dangling reference
  (`WorkflowGraphs.DanglingAnswersCyclic`, and the contract of `HasCycle`).
- The core plugin loader has no cycle check: on a closed cyclic map of up to 21
  plugins it returns an order, which is not dependency-first
  (`PluginLoadOrder.CoreLoader.Resolve`, `PluginLoadOrder.CyclicPairIsOrdered`).
- "Cancel a non-terminal run" does not last: a run that is in flight when it is
  cancelled is overwritten when the executor returns
  (`WorkflowServices.CancelledIsLeftIff`, `WorkflowServices.CancelIsOverwritten`).
  A decision is lost in the same way, exactly when a snapshot in flight does not
  hold it (`WorkflowServices.DecisionIsLostIff`,
  `WorkflowOverlaps.DecisionIsLost`). Of two calls in flight the second
  to end undoes the first (`WorkflowOverlaps.SecondCallUndoes`).
- A wrapped and a raw step output do not always read alike: they do exactly
  when the raw output has no `output` key of its own
  (`OutputPaths.WrappingIsTransparentIff`).
- A cron component such as `5/10` is the single value 5; its step is checked
  and then ignored (`Cron.Denotes`).
- A schedule can fire the same occurrence twice: if both the global cap and its
  own allow two fires at once, and a cron schedule also if its search raises or
  a restore reads an earlier clock than a fire did. Exactly when is
  `Scheduler.GuardedIff`; the inputs are `Scheduler.OverlapRefires`,
  `Scheduler.RaisingRefires` and `Scheduler.EarlierRestoreRefires`.
- A cache put at capacity evicts the head even when it only replaces an entry
  (`PromptCaching.PutKeepsOthers`); a `max_size` below one keeps the entry put
  last (`PromptCaching.NonPositiveSizeKeepsOne`).
- The server limiter calls its window sliding; it is fixed, and the tight
  bound over an interval as long as the window is twice the limit
  (`FixedWindow.FixedWindowBound`, `FixedWindow.BoundIsReached`).
- `wait_time` has no value when the limit is smaller than the request and no
  tokens are recent (`SlidingWindow.ProviderRateLimiter.WaitTime`).
- `get_events(limit=0)` returns everything, and a negative limit more than
  the limit (`Analytics.LimitHolds`).
- Uncounted failures can use up all half-open probes
  (`CircuitBreaking.ProbesCanBeLost`), and when requests are admitted again is
  `CircuitBreaking.AdmittedAgainIff`.
- A cancel during a pending pause ends in a paused session
  (`AgentSessions.PendingPauseWins`); a session whose task is killed before or
  between its attempts, or whose first save fails, stays running for ever, and
  no other does (`AgentSessions.OrphanIff`). A pause or cancel during the first
  save stops nothing (`AgentSessions.SignalStopsIff`).

## Model

| member | source | states |
|---|---|---|
| `Digraph.StuckHasCycle` | app/automation/graph.py:97-102 | in a closed graph there is a cycle among the very steps that are left over when nothing more can run |
| `Digraph.TopologicalIsAcyclic` | app/automation/graph.py:76-103 | a listing of all steps with every dependency strictly earlier exists only for a closed, acyclic graph |
| `Digraph.LeastIsAllIff` | app/automation/graph.py:83-103 | what can run at all is every step exactly when all references resolve and there is no cycle |
| `WorkflowGraphs.PendingAfter` | app/automation/graph.py:93-96 | finishing a step lowers the in-degree of a dependent by as many times as the dependent lists it, duplicates in depends_on included |
| `WorkflowGraphs.WorkflowGraph.constructor` | app/automation/graph.py:22-31 | nodes in declaration order, the last of equal ids wins in the dependency map, and every step is filed under each of its dependencies with multiplicity |
| `WorkflowGraphs.FileUnderDependencies` | app/automation/graph.py:28-31 | the dependents map files each step under each dependency exactly as often as it lists it, in declaration order |
| `WorkflowGraphs.WorkflowGraph.Emit` | app/automation/graph.py:83-96 | for unique ids Kahn's loop emits each node once, dependencies strictly earlier, in the order in which steps become free and in declaration order among those that become free together, and stops only when nothing left over could run |
| `WorkflowGraphs.WorkflowGraph.TopologicalOrder` | app/automation/graph.py:76-103 | returns iff every dependency is declared and the relation is acyclic, and then the stable topological order; otherwise reports exactly the steps outside the least fixpoint; and what it emits is what repeated waves complete |
| `WorkflowGraphs.StableIsUnique` | app/automation/graph.py:77-82 | the result is deterministic: two dependency-first stable listings of the same steps agree at every position |
| `WorkflowGraphs.EmittedIsLeast` | app/automation/graph.py:83-103 | a dependency-first listing of a saturated set lists the least fixpoint, equals the closure of the waves, and is complete iff the graph is closed and acyclic |
| `WorkflowGraphs.WorkflowGraph.HasCycle` | app/automation/graph.py:105-111 | true iff there is a cycle or a dangling reference |
| `WorkflowGraphs.DanglingAnswersCyclic` | app/automation/graph.py:105-111 | has_cycle answers true for a one-step workflow whose graph is acyclic and has a dangling reference |
| `WorkflowGraphs.WorkflowGraph.ReadySteps` | app/automation/graph.py:113-125 | the loop returns the ready list that the wave theorems speak of |
| `WorkflowGraphs.ReadyMembers` | app/automation/graph.py:113-125 | a step is ready iff declared, not completed, and all its dependencies are completed; no step is listed twice when ids are unique |
| `WorkflowGraphs.WavesReachLeast` | app/automation/executor.py:203-206 | adding ready sets until none is left reaches the least fixpoint, on cyclic and dangling graphs too |
| `WorkflowGraphs.KahnMatchesWaves` | app/automation/executor.py:203-206 | the waves complete exactly the nodes Kahn's loop emits |
| `WorkflowGraphs.WaveCountBound` | app/automation/executor.py:203-206 | the number of waves is at most the number of steps not yet completed |
| `WorkflowGraphs.WorkflowGraph.ValidateReferences` | app/automation/graph.py:127-136 | reports a pair iff the dependency is undeclared or the step itself; no report means the graph is closed |
| `WorkflowModel.SameWithin` | app/automation/context.py:106-110 | if a step reads only outputs of transitive dependencies, two stores that agree on a dependency-closed set holding its direct dependencies look the same to it |
| `WorkflowModel.JudgeFromIsTimeless` | app/automation/executor.py:723-748 | once every request is decided, what a step comes to does not depend on the clock |
| `WorkflowModel.FindsLatest` | app/automation/executor.py:1038-1043 | the request an approval step looks at is its most recent one, the first among equals, and there is none only if the step has none |
| `WorkflowModel.RequestLifecycle` | app/automation/executor.py:723-762 | the first attempt of an approval step asks and pauses; undecided, later ones pause again until the timeout has passed since the asking, and from that instant approve or fail as the step says |
| `WorkflowModel.RetriesPlayOut` | app/automation/executor.py:404-513 | the first attempt that returns counts iff it is among the first max_retries + 1, or the second under the retry policy; otherwise skip and ignore record a null output and every other policy aborts |
| `WorkflowModel.GatedIff` | app/automation/executor.py:370-391 | a step is recorded as skipped without an attempt iff its condition can be evaluated and is false |
| `WorkflowWaves.CommitSafe` | app/automation/executor.py:435-448 | committing the record of a ready step keeps: completed steps dependency-closed, one record each after its dependencies, outputs only for successes |
| `WorkflowWaves.AdvanceSafe` | app/automation/executor.py:359-513 | every await-free section of a step's task keeps that, adds at most its own step, and never meets a second output of the same step |
| `WorkflowWaves.InterleaveSafe` | app/automation/executor.py:230-245 | the same for a whole wave under every interleaving and every max_concurrency |
| `WorkflowWaves.WaveWithinCap` | app/automation/executor.py:224-245 | at most max_concurrency steps of a wave are between their first and last section at any time |
| `WorkflowWaves.WaveCanFinish` | app/automation/executor.py:224-245 | from any state of a wave some schedule finishes it: the semaphore cannot deadlock it |
| `WorkflowWaves.EffectiveTurnsEnd` | app/automation/executor.py:224-245 | no schedule has more turns that move a task than the work of the wave, and every schedule with as many ends it |
| `WorkflowWaves.FairWaveEnds` | app/automation/executor.py:224-245 | every schedule with that many rounds in which each task gets a turn ends the wave, under every max_concurrency of at least one |
| `WorkflowRuns.RestoreSafe` | app/automation/executor.py:175-183 | safe persisted records restore without an output conflict to a safe state with the same records and requests |
| `WorkflowRuns.RunWavesSafe` | app/automation/executor.py:202-272 | a run from a safe state ends safe whether it completes, aborts or parks; a completion leaves nothing that could run |
| `WorkflowRuns.RunFromSafe` | app/automation/executor.py:157-338 | one call of run keeps the persisted run safe and only appends records |
| `WorkflowRuns.StatusSays` | app/automation/executor.py:247-286 | a call ends waiting with a pending request put on record for a step that has no record, or succeeded or failed with the requests it was handed; succeeded leaves nothing that could run |
| `WorkflowRuns.DeclaredHold` | app/automation/executor.py:276-279 | the resolved outputs have exactly the declared names, and under each name what its last declaration reads |
| `WorkflowRuns.RunResolves` | app/automation/executor.py:274-286 | a call that succeeds returns outputs so resolved from an output map that shows every step the output of its record in the returned step_executions; any other end keeps the outputs there were |
| `WorkflowServices.OpsSafe` | app/automation/workflow.py:213-297 | with any number of executor calls in flight, and decisions, cancellations and further calls between hand-out and persisting, the persisted run and every snapshot have dependency-closed records, one per completed step; a success leaves nothing that could run |
| `WorkflowServices.OneAtATimeAppends` | app/automation/workflow.py:503-507 | as long as the run is not handed out while it is in flight, persisted records are only appended to |
| `WorkflowOverlaps.SecondCallUndoes` | app/automation/workflow.py:265-276 | two calls handed the same parked run: the second to end undoes the record and the success that the first had persisted |
| `WorkflowServices.TerminalAloneIsFinal` | app/automation/workflow.py:265-297 | a terminal status set while nothing is in flight is never left |
| `WorkflowServices.TerminalIsLeftIff` | app/automation/workflow.py:503-507 | some sequence of operations leaves a terminal status iff a call that was in flight when it was set can end with another one |
| `WorkflowServices.CancelledIsLeftIff` | app/automation/workflow.py:278-297 | some sequence of operations leaves CANCELLED iff a run was in flight when it was set |
| `WorkflowServices.CancelIsOverwritten` | app/automation/workflow.py:503-507 | for every definition: a new run handed out, cancelled, and then ended by the executor is no longer cancelled; without steps it is succeeded |
| `WorkflowServices.FinishRestoresRequests` | app/automation/workflow.py:503-507 | at the end of a call the persisted requests are those that were handed out, whatever was decided since, and at most one open one more |
| `WorkflowServices.DecisionIsLostIff` | app/automation/workflow.py:503-507 | a decision on record can be lost by some sequence of operations iff some snapshot in flight does not hold it |
| `WorkflowOverlaps.DecisionIsLost` | app/automation/workflow.py:532-574 | an input: hand out, park, hand out again, approve, finish leaves the request open |
| `WorkflowServices.SucceededIsComplete` | app/automation/executor.py:274-286 | a run that reached SUCCEEDED by any sequence of operations has one record for every declared step iff the graph is closed and acyclic |
| `WorkflowServices.SucceededIsResolved` | app/automation/executor.py:274-286 | whatever sequence of operations ended in SUCCEEDED, the persisted outputs are resolved from the persisted records |
| `WorkflowServices.DecideStores` | app/automation/workflow.py:532-574 | a pending request is stored with the decision that was passed, by whom and with which note, and every request with another id is where and what it was; otherwise nothing changes |
| `WorkflowServices.WorkflowService.Resume` | app/automation/workflow.py:265-276 | hands the persisted run out iff it is created or waiting for approval |
| `WorkflowServices.WorkflowService.ExecuteRun` | app/automation/workflow.py:503-516 | persists what the executor makes of the snapshot over whatever is stored by then |
| `WorkflowServices.WorkflowService.CancelRun` | app/automation/workflow.py:278-297 | cancels a run that is created or waiting for approval, changes no other, and leaves what is in flight alone |
| `WorkflowServices.WorkflowService.DecideOn` | app/automation/workflow.py:532-574 | stores exactly the decision passed on a pending request and leaves every request with another id alone; an unknown or decided one is refused and changes nothing |
| `WorkflowRuns.RunCanEnd` | app/automation/executor.py:203-245 | from every safe state some schedule brings the run to an end |
| `WorkflowRuns.FairRunEnds` | app/automation/executor.py:203-245 | from every safe state every fair schedule does, within as many waves as there are steps left |
| `WorkflowEquivalence.InterleaveFaithful` | app/automation/executor.py:230-245 | in every interleaving each record written is the one its step comes to when judged alone on the final outputs |
| `WorkflowEquivalence.SolutionsCoincide` | app/automation/executor.py:202-245 | two finished states with faithful records have the same completed set, the same records up to order and the same view of outputs |
| `WorkflowEquivalence.RunWavesFaithful` | app/automation/executor.py:202-272 | if any finished faithful state exists, every schedule that ends the run completes it, without abort or pause |
| `WorkflowRefinement.ParallelIsSequential` | app/automation/executor.py:202-253 | wave-parallel execution refines one-by-one execution in topological order: same completed steps, records, stored outputs and declared outputs, for all interleavings and concurrency limits, and in both directions |
| `WorkflowRefinement.ParallelRunsExist` | app/automation/executor.py:202-245 | on an acyclic graph, whenever running in topological order succeeds, some schedule ends the parallel run, with every step completed and the same stored outputs |
| `WorkflowResume.DecideChangesOne` | app/automation/workflow.py:532-574 | a decision changes no decision already taken |
| `WorkflowResume.CompletedIsDecided` | app/automation/executor.py:723-748 | an approval step completes at all times only on a decided request |
| `WorkflowResume.DecisionArrives` | app/automation/executor.py:723-729 | once the pending request that an approval step selects is decided, every attempt of the step, at any time, returns that decision: approved or not, by whom, with which note |
| `WorkflowResume.DecideReachesStep` | app/automation/workflow.py:299-331 | the same for the decide section of the service, which changes nothing else of the run |
| `WorkflowResume.DecisionIsRecorded` | app/automation/executor.py:723-729 | when the last open request of a run is decided and the run resumed under any schedule, the record of its step, unless its condition turned it away, holds that decision |
| `WorkflowResume.RestoredIsFaithful` | app/automation/executor.py:175-183 | finalize then restore gives back the completed set, the record list, the requests and the get view of outputs, null outputs included |
| `WorkflowResume.ParkedFaithful` | app/automation/executor.py:255-272 | a parked run has only faithful records, its new request included, and request ids stay distinct |
| `WorkflowResume.OpsFaithful` | app/automation/workflow.py:213-297 | over any sequence of hand-outs, ends, losses, decisions and cancellations in which requests are decided before the run is handed out, the persisted run and all snapshots stay faithful |
| `WorkflowTransparency.PauseResumeTransparent` | app/automation/executor.py:175-286 | whatever such sequence ends in success gives the same declared outputs and records as any uninterrupted run holding those decisions from the start, and such a run exists when a slot does |
| `WorkflowExecution.OutputStore.Put` | app/automation/context.py:59-68 | write once: stores iff the step has no output, otherwise changes nothing |
| `WorkflowExecution.EngineState.Restored` | app/automation/executor.py:175-183 | the restore loop gives the restored state, or reports a conflict |
| `WorkflowExecution.EngineState.Failure` | app/automation/executor.py:460-513 | retry, then the error policy: skip, ignore or abort, with the conflict that ignore can meet |
| `WorkflowExecution.EngineState.ExecuteSection` | app/automation/executor.py:359-513 | one section of _execute_step on the mutable state is the section the wave theorems speak of |
| `WorkflowExecution.RunWave` | app/automation/executor.py:224-245 | a wave driven turn by turn on the mutable state is the model's interleaving |
| `WorkflowExecution.Gather` | app/automation/executor.py:247-253 | the first error in launch order wins over every pause, else the last pause is taken, else all are recorded |
| `WorkflowExecution.Run` | app/automation/executor.py:157-338 | the imperative run, for every schedule, is the run the theorems are about; a success holds for each declared name what its last declaration reads off the outputs of the returned records, and any other end keeps the outputs there were |
| `OutputPaths.TraverseOutput` | app/automation/context.py:19-44 | the loop with its early exits reads what the path denotes |
| `OutputPaths.ReadsOne` | app/automation/context.py:33-43 | one name reads a field of an object, an element of a list counted from its start or with a negative index from its end, and null everywhere else |
| `OutputPaths.ResolveComposes` | app/automation/context.py:19-44 | a longer path reads on from where the shorter one led, and reads null once that is null |
| `OutputPaths.WrappingIsTransparentIff` | app/automation/context.py:20-28 | a raw output and its documented wrapping read alike along every marked path iff the raw one has no output key |
| `PluginLoadOrder.LoadOrderResolver.Visit` | app/plugins/manager.py:236-261 | a visit extends the order by the reference post-order and leaves the visiting set as it was; an error names a real defect |
| `PluginLoadOrder.LoadOrderResolver.Resolve` | app/plugins/manager.py:208-268 | terminates; a result lists each plugin once, dependencies strictly earlier; an error means an unknown dependency, a cycle or a path of more than 20 edges; every cyclic map raises; every closed shallow map succeeds |
| `PluginLoadOrder.DependencySorter.Sort` | app/plugins/manager.py:932-948 | unknown names are passed over; a result lists every plugin with its known dependencies earlier; every cyclic map, closed or not, ends in the recursion limit |
| `PluginLoadOrder.CoreLoader.Resolve` | app/core/plugins/plugin_loader.py:193-223 | a result lists every plugin once and is dependency-first iff the map is acyclic; up to 21 plugins, cyclic or not, there is always a result |
| `PluginLoadOrder.CyclicPairIsOrdered` | app/core/plugins/plugin_loader.py:193-223 | two plugins that depend on each other are given an order, which is not dependency-first |
| `PluginLoadOrder.CoreLoader.ValidateDependencies` | app/core/plugins/plugin_loader.py:182-191 | passes iff every dependency is known, else names a missing one |
| `PluginLoadOrder.ResolveAllWays` | app/plugins/manager.py:226-268 | on every closed map without a path over 20 edges the three orders are the identical sequence |
| `PluginLoadOrder.LoadOrderIsTopological` | app/plugins/manager.py:226-268 | that common sequence is dependency-first and complete |
| `PluginLoadOrder.SortedIsKept` | app/plugins/manager.py:226-268 | a listing that is already dependency-first comes back unchanged |
| `PluginLoadOrder.ShallowIsAcyclic` | app/plugins/manager.py:237-241 | the depth limit alone rules out cycles |
| `PluginLoadOrder.FuelIsEnough` | app/plugins/manager.py:932-948 | below the real height a larger depth limit changes nothing |
| `Cron.DecimalParses` | app/automation/scheduler.py:452-480 | the integer parser reads every decimal numeral back as its value |
| `Cron.SignedParses` | app/automation/scheduler.py:452-480 | a sign is read as one, and a leading zero does not count |
| `Cron.StepsFromLowEnd` | app/automation/scheduler.py:461-476 | a step counts from the low end: low, low + k, low + 2k and so on up to the high end |
| `Cron.ParseRender` | app/automation/scheduler.py:440-483 | every well-formed component is parsed back from its text |
| `Cron.RenderParse` | app/automation/scheduler.py:440-483 | every accepted text is the text of the component it is parsed to, so the syntax is unambiguous |
| `Cron.ParseCronField` | app/automation/scheduler.py:437-484 | succeeds iff the field is a comma list of well-formed components, and then holds exactly the in-range values they denote |
| `Cron.SpecFromUnique` | app/automation/scheduler.py:395-407 | an expression has one meaning |
| `Cron.WeekdayListed` | app/automation/scheduler.py:404-416 | a day passes the weekday test iff the number of its weekday, counting Monday as 1, is listed, or it is a Sunday and 0 is |
| `Cron.OneWeekday` | app/automation/scheduler.py:404-426 | with the day of the month left open and one weekday number, the matching days are the days of that weekday in the listed months |
| `Cron.PlainMeaning` | app/automation/scheduler.py:395-431 | an expression of numbers and wildcards matches exactly the minutes that its text names, field by field |
| `Cron.DayOk` | app/automation/scheduler.py:412-426 | the code's case split on wildcards is the either-day rule of the crontab utility in POSIX.1-2017 |
| `Cron.FirstOfDay` | app/automation/scheduler.py:427-431 | the nested loops return the least matching minute of the day after the given instant, or there is none |
| `Cron.Search` | app/automation/scheduler.py:409-434 | returns the least whole minute strictly later that matches all fields, and raises iff none within 1830 days does |
| `Cron.NextCronMatch` | app/automation/scheduler.py:382-434 | the same from the five fields as text, with malformed expressions refused; for fields of numbers and wildcards the result is the first later minute that the text names, and with the day of the month open it lies on the weekday the text names |
| `Scheduler.StartKeeps` | app/automation/scheduler.py:209-225 | starting a fire within the caps keeps counters, caps, spacing and one-shot history |
| `Scheduler.AdvanceKeeps` | app/automation/scheduler.py:272-305 | storing the progress of a fire keeps them |
| `Scheduler.ReleaseKeeps` | app/automation/scheduler.py:264-270 | giving the slot back keeps them, because the progress was stored first |
| `Scheduler.RestoreKeeps` | app/automation/scheduler.py:114-146 | recomputing timers keeps them, with fires in flight or not, and also when a cron search raises half-way |
| `Scheduler.ProtocolSafe` | app/automation/scheduler.py:190-305 | the invariant holds at every point of every interleaving of ticks, advances, releases and restores |
| `Scheduler.RunGuarantees` | app/automation/scheduler.py:190-305 | counters equal in-flight fires per schedule and both caps hold; where the global cap or the schedule's own is at most one, an interval schedule fires at least its interval apart, a one-shot at most once, and a cron schedule whose search never raises not before the next match after its last fire, if no restore reads a clock behind the fires |
| `Scheduler.GuardedIff` | app/automation/scheduler.py:190-305 | fires are kept apart in every run, or in every run whose clock runs forward, exactly under the condition KeptApart: one of the caps is at most one; an interval of zero needs only the forward clock; a cron schedule that can fire at all needs one cap of at most one, a search that never raises and the forward clock |
| `Scheduler.OverlapRefires` | app/automation/scheduler.py:190-207 | for all larger caps and every trigger a run of two ticks that fires the same occurrence twice: at the same instant, or for an interval of zero with a clock that runs backward |
| `Scheduler.RaisingRefires` | app/automation/scheduler.py:248-270 | a cron schedule whose search raises after a fire is fired again by the next tick, whatever the caps, if they let it fire at all |
| `Scheduler.EarlierRestoreRefires` | app/automation/scheduler.py:114-146 | a restore with a clock behind a fire makes every cron schedule fire for the same match again, whatever the caps, if they let it fire at all |
| `Scheduler.FiresInTime` | app/automation/scheduler.py:190-225 | with a forward clock fires are in time order and no later reading is behind them |
| `Scheduler.FiresAgainIff` | app/automation/scheduler.py:190-305 | over whole runs: after a fire whose progress was stored, a later tick with a free slot fires the schedule again iff its interval is over or its next match has come, and never a one-shot; for the first two kinds restores in between change nothing |
| `Scheduler.TickFiresIff` | app/automation/scheduler.py:190-225 | a tick that has a slot for a schedule fires it iff it is enabled and due |
| `Scheduler.RestoredDueIff` | app/automation/scheduler.py:128-146 | when a restored schedule is due: a one-shot at its time unless it has run, an interval one interval after its last run or, if it has none, after the restore, a cron schedule at the first match after the restore |
| `Scheduler.IntervalOnTheDot` | app/automation/scheduler.py:272-305 | an interval schedule ticked exactly one interval after its last fire fires then |
| `CronSchedules.SearchIsCronLike` | app/automation/scheduler.py:409-434 | the cron search has the two properties the scheduler theorems ask of it: matches lie ahead, and searching from later finds none earlier |
| `CronSchedules.SearchNeverRaisesIff` | app/automation/scheduler.py:409-434 | the search never raises iff every stretch of 1830 days has a match |
| `Scheduler.WorkflowScheduler.DueSchedules` | app/automation/scheduler.py:192-200 | all enabled schedules that are due, and only they, each once, by next run time and in the store's order among equals |
| `Scheduler.WorkflowScheduler.TickNow` | app/automation/scheduler.py:190-207 | a tick is a step of the protocol that serves every due schedule once, returns what it fired, in order, and keeps the invariant |
| `Scheduler.WorkflowScheduler.AdvanceFire` | app/automation/scheduler.py:272-305 | saves exactly this schedule's progress, after which it is due exactly when its interval is over, at the next match, or never; keeps the invariant |
| `Scheduler.WorkflowScheduler.ReleaseFire` | app/automation/scheduler.py:264-270 | gives back exactly one slot, dropping a counter at zero, and keeps the invariant |
| `Scheduler.WorkflowScheduler.Restore` | app/automation/scheduler.py:114-146 | recomputes timers in the store's order up to the first cron search that raises, and keeps the invariant |
| `PromptCaching.SizeBound` | app/llm/prompt_cache.py:150-161 | after any operations no hash is held twice and the size is at most max_size, or one if max_size is below one |
| `PromptCaching.NonPositiveSizeKeepsOne` | app/llm/prompt_cache.py:150-161 | with a max_size below one the cache holds exactly what was put last |
| `PromptCaching.HoldsLatestPut` | app/llm/prompt_cache.py:113-161 | whatever is held under a hash is the item of the latest put of that hash |
| `PromptCaching.HitReturnsLatestPut` | app/llm/prompt_cache.py:113-137 | a hit returns the value of the latest put of that hash |
| `PromptCaching.HitUntilExpiry` | app/llm/prompt_cache.py:113-137 | after any operations, an entry that is held is hit until its time to live is over, that instant included, and dropped by the first read after |
| `PromptCaching.OrderedByTouch` | app/llm/prompt_cache.py:133-172 | the recency list is ordered by last put or hit, so its head is the least recently used entry |
| `PromptCaching.PutKeepsOthers` | app/llm/prompt_cache.py:150-161 | another entry survives a put iff the cache was below capacity or the entry is not the head |
| `PromptCaching.HeldAfter` | app/llm/prompt_cache.py:113-200 | after any operations, exactly what the next one leaves in the cache: a get drops at most the entry it found too old, a put replaces its own hash and at capacity the head, the invalidations what they name; disabled, gets and puts do nothing |
| `PromptCaching.LeastStampIsHead` | app/llm/prompt_cache.py:163-172 | the entry with the least stamp is the head of the recency list |
| `PromptCaching.RefreshPresents` | app/llm/prompt_cache.py:133-161 | a new stamp moves an entry from its place to the end of the list and keeps stamps distinct and bounded by the clock |
| `PromptCaching.PromptCache.Get` | app/llm/prompt_cache.py:113-137 | answers and changes the cache as the recency list does; an expired entry is dropped and counted as a miss; a disabled cache counts nothing |
| `PromptCaching.PromptCache.Put` | app/llm/prompt_cache.py:139-161 | changes the cache as the recency list does, with the cache-wide time to live as default |
| `PromptCaching.PromptCache.EvictLru` | app/llm/prompt_cache.py:163-172 | the scan for the least stamp removes exactly the head of the recency list |
| `PromptCaching.PromptCache.InvalidateProvider` | app/llm/prompt_cache.py:182-193 | drops the entries of the provider, keeps the order of the others, and returns how many went |
| `PromptCaching.PromptCache.Invalidate` | app/llm/prompt_cache.py:174-180 | drops one entry and says whether it was there |
| `PromptCaching.WithoutProviderKeeps` | app/llm/prompt_cache.py:187-193 | exactly the entries of other providers stay |
| `SlidingWindow.WindowBound` | app/llm/request_queue.py:83-108 | any interval shorter than 60 s holds at most requests_per_minute grants and tokens_per_minute granted tokens, for positive limits |
| `SlidingWindow.AdmitsIff` | app/llm/request_queue.py:83-108 | a request is admitted iff granting it leaves every interval shorter than 60 s within both limits, so nothing is refused that the limits allow |
| `SlidingWindow.RecentByLists` | app/llm/request_queue.py:88-101 | the pruned lists count what the full grant history counts |
| `SlidingWindow.PruneTimes` | app/llm/request_queue.py:88-90 | pruning at a later time loses nothing that can still matter |
| `SlidingWindow.BlockedByTokens` | app/llm/request_queue.py:147-152 | a request blocked by tokens stays blocked until the oldest recent event leaves the window |
| `SlidingWindow.BlockedByRequests` | app/llm/request_queue.py:141-145 | a request blocked by the request limit stays blocked until the oldest recent grant leaves the window |
| `SlidingWindow.RoomWhenOldestLeaves` | app/llm/request_queue.py:141-145 | and at that instant there is room again |
| `SlidingWindow.ProviderRateLimiter.CanMakeRequest` | app/llm/request_queue.py:83-108 | decides as the full history would and records exactly the grants |
| `SlidingWindow.ProviderRateLimiter.WaitTime` | app/llm/request_queue.py:134-154 | undefined iff the request exceeds the token limit with nothing recent; zero iff a request is allowed now; no retry succeeds before it elapses, and when tokens do not matter one succeeds at that instant |
| `FixedWindow.FixedWindowBound` | app/server/security.py:44-64 | any interval no longer than window_s holds at most 2 * limit allowed calls of one identity |
| `FixedWindow.BoundIsReached` | app/server/security.py:44-64 | for every limit and window some log reaches that bound |
| `FixedWindow.Independent` | app/server/security.py:56-64 | calls of other identities change neither the answer nor retry_after |
| `FixedWindow.RetryAfterIsExact` | app/server/security.py:61-63 | after a denial, with no own call in between, a call is denied before retry_after elapses and allowed at that instant when the limit is at least one |
| `FixedWindow.RateLimiter.Consume` | app/server/security.py:44-64 | answers as the log of all calls determines; denied calls are counted too |
| `CircuitBreaking.CountsFailures` | app/llm/circuit_breaker.py:113-159 | consecutive_failures is the number of counted failures since the last success or reset |
| `CircuitBreaking.ClosedIsBelowThreshold` | app/llm/circuit_breaker.py:150-155 | a closed circuit has seen fewer counted failures in a row than the threshold |
| `CircuitBreaking.OpensExactlyAtThreshold` | app/llm/circuit_breaker.py:131-159 | a closed circuit opens iff a counted failure completes the threshold; an uncounted one never opens it |
| `CircuitBreaking.OpenBlocksUntilTimeout` | app/llm/circuit_breaker.py:82-111 | from the failure that opened the circuit no request is admitted before the timeout, and the first call after it is |
| `CircuitBreaking.ProbesBounded` | app/llm/circuit_breaker.py:106-110 | each half-open episode admits at most recovery_threshold requests |
| `CircuitBreaking.ProbesAdmitted` | app/llm/circuit_breaker.py:106-110 | a half-open circuit admits a request iff it has admitted fewer than recovery_threshold in this episode |
| `CircuitBreaking.ClosesExactlyAtRecovery` | app/llm/circuit_breaker.py:113-129 | apart from reset the circuit closes iff this success completes recovery_threshold of them in the current half-open episode with no counted failure since it began |
| `CircuitBreaking.UsedUpUntilEpisodeEnds` | app/llm/circuit_breaker.py:106-110 | used-up probes stay used up, and requests refused, until a success completes the recovery, a failure counts, or a reset |
| `CircuitBreaking.AdmittedAgainIff` | app/llm/circuit_breaker.py:96-159 | the request after call n is admitted again iff that call completed the recovery, was a reset, or was a counted failure whose timeout is over |
| `CircuitBreaking.ProbesCanBeLost` | app/llm/circuit_breaker.py:140-141 | for all thresholds and timeouts a run in which uncounted failures use up every probe |
| `CircuitBreaking.CircuitBreaker.AllowRequest` | app/llm/circuit_breaker.py:96-111 | admits and moves as the traced breaker does |
| `CircuitBreaking.CircuitBreaker.OnSuccess` | app/llm/circuit_breaker.py:113-129 | moves as the traced breaker does |
| `CircuitBreaking.CircuitBreaker.OnFailure` | app/llm/circuit_breaker.py:131-159 | moves as the traced breaker does; an unexpected exception only re-evaluates the state |
| `CircuitBreaking.CircuitBreaker.GetOpenUntil` | app/llm/circuit_breaker.py:161-170 | a time is returned iff the circuit is open and that time is still to come |
| `Analytics.OfProviderIsScan` | app/llm/analytics.py:133-141 | filtering the log by provider keeps exactly the events of that provider |
| `Analytics.AppendIndexes` | app/llm/analytics.py:101-102 | appending to log and index keeps the index equal to the filtered log, in order |
| `Analytics.PopIndexes` | app/llm/analytics.py:104-109 | the event popped from the log is the very object that heads its provider's list, so both are popped |
| `Analytics.KeepsNewest` | app/llm/analytics.py:104-105 | the log is the newest max_events events in order, and never longer |
| `Analytics.LimitHolds` | app/llm/analytics.py:139-140 | at most limit events are returned iff the limit is positive, or zero with nothing to return; a positive limit gives the latest ones |
| `Analytics.LLMAnalytics.Record` | app/llm/analytics.py:100-109 | after any record log and index are those of the newest max_events events since the last clear |
| `Analytics.LLMAnalytics.GetEvents` | app/llm/analytics.py:119-141 | the index answers as a scan of the newest events would |
| `Text.JoinSplit` | app/llm/transport.py:130-131 | splitting loses nothing, and no piece holds a separator |
| `Text.SplitJoin` | app/llm/transport.py:130-131 | only one list of separator-free pieces joins to a given text |
| `Text.SplitAppend` | app/llm/transport.py:129-131 | appended data only continues the last piece |
| `LineSplitter.TakeLines` | app/llm/transport.py:130-134 | the inner loop takes the complete lines in order and leaves a buffer without newline |
| `LineSplitter.IterLines` | app/llm/transport.py:118-136 | the lines are those of the concatenation, whatever the chunking, and after each chunk exactly the complete lines received so far have been yielded |
| `LineSplitter.LinesOfJoined` | app/llm/transport.py:118-136 | lines joined by newlines come back stripped, decoded and without the blank ones |
| `LineSplitter.LinesOfTexts` | app/llm/transport.py:132-136 | pieces that are texts with white space around them yield those texts decoded, in order, and blank pieces yield nothing |
| `LineSplitter.StripRemovesMargins` | app/llm/transport.py:132-136 | stripping removes white space at both ends and nothing else |
| `AgentSessions.StepKeeps` | app/agents/manager.py:112-314 | every await-free section keeps: a live task's session is running, names that task and holds its token; a session that is not running carries no token, task, pause mark or cancel reason; tokens are never shared |
| `AgentSessions.OneWriter` | app/agents/manager.py:436-545 | in every interleaving at most one task can still change a session, only while it runs, and not while one is being launched |
| `AgentSessions.TerminalIsFinal` | app/agents/models.py:32-40 | a session in a terminal status is never changed again |
| `AgentSessions.StepFollows` | app/agents/manager.py:204-314 | statuses move only from running to paused or terminal and from paused to running or cancelled; options never change |
| `AgentSessions.EndsIff` | app/agents/manager.py:451-497 | over whole runs: completed iff an attempt succeeded, timed out iff one ran out of time, failed iff one raised or was unsuccessful at an attempt number of at least max_attempts, cancelled iff one stopped with no pause pending or a paused session was cancelled |
| `AgentSessions.EndIsKept` | app/agents/manager.py:464-497 | and the session holds from then on the response or the error of that attempt |
| `AgentSessions.RetryRunsOn` | app/agents/manager.py:486-490 | an unsuccessful attempt below max_attempts leaves the session running with a live task |
| `AgentSessions.AttemptsBounded` | app/agents/manager.py:438-497 | attempts are at most max_attempts plus the number of resumes |
| `AgentSessions.AttemptsAreCounted` | app/agents/manager.py:438-445 | the attempts on a session are exactly those that were begun |
| `AgentSessions.BegunAttempt` | app/agents/manager.py:438-449 | a begun attempt runs on the token of its session, is counted, and wipes the last error |
| `AgentSessions.GivesUpAfterAll` | app/agents/manager.py:486-497 | a session that gives up has used max_attempts, and exactly as many as it may if it was never resumed |
| `AgentSessions.StepTouchesOne` | app/agents/manager.py:204-314 | no section of one session changes anything of another or stops its token |
| `AgentSessions.SignalReaches` | app/agents/manager.py:228-271 | a pause or cancel stops the token of the session's running attempt, and of no other attempt |
| `AgentSessions.SignalStopsIff` | app/agents/manager.py:228-271 | a pause or cancel of a running session stops the token of its run, inside an attempt or between two, iff the session is not still being launched |
| `AgentSessions.LaunchForgetsSignals` | app/agents/manager.py:155-162 | a launch starts a run whose token is not stopped, whatever came during the first save |
| `AgentSessions.ResumeStartsClean` | app/agents/manager.py:276-314 | a resumed run has a fresh token, one new task, no mark of an earlier pause or cancel, and neither response nor error; attempts are kept |
| `AgentSessions.StoppedEnds` | app/agents/manager.py:513-545 | a stopped attempt ends paused and without error iff a pause is pending, else cancelled with the last cancel's reason or, without one, the runtime's message; nothing pending remains |
| `AgentSessions.LastReasonWins` | app/agents/manager.py:228-235 | of several cancels the last one names the reason the session ends with |
| `AgentSessions.PendingPauseWins` | app/agents/manager.py:515-517 | a cancel that arrives during a pending pause ends in a paused session |
| `AgentSessions.OrphanStays` | app/agents/manager.py:487-490 | a running session that has lost its task and has no launch pending is never changed again |
| `AgentSessions.LosesIff` | app/agents/manager.py:155-162 | a section leaves a session running with nobody to end it iff it kills the session's waiting task or abandons its launch |
| `AgentSessions.OrphanIff` | app/agents/manager.py:436-497 | over whole runs: a running session has a live task or a pending launch iff no section before did that |
| `AgentSessions.OrphansExist` | app/agents/manager.py:155-162 | both happen from the start: a first save that fails, and a task cancelled before it began |
| `AgentManagement.AgentManager.Execute` | app/agents/manager.py:112-164 | refuses a taken id; else registers a running session and either starts its task or waits for its first save |
| `AgentManagement.AgentManager.Cancel` | app/agents/manager.py:204-235 | terminal: unchanged; paused: cancelled at once; running: reason noted and token stopped; the answer is the stored session |
| `AgentManagement.AgentManager.Pause` | app/agents/manager.py:237-274 | refused for every status but running; else marked and the token stopped |
| `AgentManagement.AgentManager.Resume` | app/agents/manager.py:276-314 | refused unless paused; else running again with a new token and task |
| `AgentManagement.AgentManager.Begin` | app/agents/manager.py:438-456 | the top of the retry loop counts the attempt and takes the session's token |
| `AgentManagement.AgentManager.AttemptEnds` | app/agents/manager.py:451-497 | every outcome ends the task with its own status: the session is completed, failed, timed out or cancelled afterwards iff the outcome says so; a failure within the budget waits or starts over |
| `AgentManagement.AgentManager.Killed` | app/agents/manager.py:457-459 | a task cancelled inside an attempt is reconciled; elsewhere it just dies |

## Left out

Of the whole repository:

- I/O, HTTP, file stores, logging, dependency wiring and field validation; locks and await-free sections are atomic steps.
- Health monitor rates, load balancing, router scores, cost estimates and registries: floating point without a law, or easy.
- Backoff delays, request priorities, server-sent event payloads, plugin lifecycle: small pure computations, or calls into other code.

Of the workflow engine:

- Steps nested in conditional, loop and parallel steps: the model is flat. Steps backed by collaborators (tools, agents, models, callbacks, sub-workflows, delays, transforms) are an arbitrary function of the outputs they read and the attempt number.
- The overall timeout: its branch breaks out of the loop into the code that sets SUCCEEDED. A step's own timeout is one of the failures its function may return.
- Bindings and conditions that read a step of the same wave: the validator allows them, the equivalence theorems assume them away (`ReadsAncestorsOnly`).
- Events, timestamps and error texts of the run. An abort waits for the rest of its wave, as the code does.
- Duplicate step ids in a run: the tasks of a wave are keyed by step id, so two equal ids are one task here, where the executor would launch two and meet an output conflict.
- Input bindings are resolved inside the step's function, which is taken not to raise: the resolver reads null where it finds nothing. A step type without an executor is not modelled.
- `WorkflowServices.OneAtATimeAppends`: no exact condition is given for when two calls in flight lose records; `WorkflowOverlaps.SecondCallUndoes` is one input.
- `OutputPaths.TraverseOutput`: the text of a list index is read by an abstract function.

Of the load orders:

- Optional and soft dependencies are resolved into the dependency map before the model starts; version checks are not modelled. The recursion limit of the sort is a parameter.

Of the scheduler:

- `Cron.NextCronMatch`: takes the expression already split at white space; white space inside a field, digits outside ASCII and the end of the calendar's range are not modelled, and the calendar is three functions of the day number.
- Time is an integer count of the clock's smallest unit. Edits of schedules from outside, event sinks that raise, event-loop cancellation of a fire task, idempotency lookups and the poll loop are not modelled.

Of the LLM layer:

- `PromptCaching.PromptCache.Get`: entries are keyed by hash; the hash function leaves out the provider, so nothing is claimed about which provider answered. Cached values are never null.
- `CircuitBreaking.OpenBlocksUntilTimeout`: thresholds are at least one and the clock does not run backwards; nothing is claimed about whether a half-open circuit ever recovers by itself.
- `LineSplitter.IterLines`: UTF-8 decoding is an arbitrary function of a line's bytes. A generator is modelled by the list it yields and how much of it is out after each chunk.
- Rankings and totals of the analytics.

Of the agent sessions:

- Deletion, shutdown, restore, memory and tools. A run's request, configuration and timestamps. The runtime is any sequence of outcomes; nothing forces it to honour a stopped token.
- `AgentManagement.AgentManager.Cancel`: covers the section up to the wait for the run task; what the caller gets after the wait is the registry's session at that time.
- `AgentManagement.AgentManager.Pause`: covers the section up to that wait in the same way.
- A save that is still going on after a session was finalized; it no longer writes the registry.
