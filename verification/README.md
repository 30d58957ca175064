# Saga engine: a verified model

This project models the run state machine of a saga orchestration engine, the
store it drives and the concurrent protocols around it, and proves what they
promise. It covers one call of `Advance` (steps, retries, `while` loops, pauses
and wake-ups, try_catch, rollback), whole histories of everything that can
happen to a run, the fan-out/join protocol between a parent and its children,
the per-run lock map, optimistic transactions and cron claims in Redis, and the
data transformations the engine relies on: dotted-key writes, flattened deep
merge, the CEL program cache and copying at the store boundary.

`dafny verify dfyconfig.toml` checks everything.

## How it is laid out

| module | what it holds |
|---|---|
| `Domain`, `DottedKeys`, `Runs` | run states, JSON-shaped values and dotted keys, runs, definitions, audit events, and what each store operation does to one run |
| `Engine` | one iteration of `Advance` as a function of the run, its log and the answers of the environment; `Loop` is the whole call |
| `Coordination` | the same call as the engine runs it: classes for the store and the coordinator, methods that update them in place, each proved to do to its run what `Engine` or `Lifecycle` says and nothing to any other run |
| `Rollback`, `RollbackLaw` | which steps a failed run undoes, in which order, and the law for whole calls |
| `Retry` | the retry budget and the length of the waits |
| `Positions`, `Termination`, `Endless`, `Settling` | positions in the graph with its catch steps and where a run can get, how long a call can go on, when it need not end, and where it leaves the run |
| `Answers` | what one iteration does for every wake-up and every answer of a handler, told field by field and without the functions of `Engine` that compute it |
| `Lifecycle`, `Endings`, `Visits`, `Attempts` | every operation on a run as one atomic step, what it leaves of the run, and what whole histories keep |
| `Waits`, `Completion` | waits for a signal, an event or an instant under every order of deliveries, and a worker's result from the report to the next step |
| `ParentChecks` | when the end of a run is told to its parent, and what that is in the protocol of `FanOut` |
| `CancelRace` | a cancel that lands between two store writes of an iteration |
| `Join`, `Parallel`, `FanOut` | the join condition, the verb that spawns, and the interleaved protocol for any number of children |
| `RunLock` | the reference-counted lock map, as classes and as an interleaved protocol |
| `TxRun`, `Cron`, `RedisIndex` | WATCH/MULTI retries, cron claims by many pods, Redis indexes against the plain scan |
| `Merge`, `MergeVerb` | deep merge, and the flatten-then-apply form the merge verb uses |
| `CelCache` | the cache of compiled CEL programs |
| `Isolation` | nested mutable maps and slices on the heap, deep copies, the in-place dotted write |
| `StoreBoundary`, `Callers` | runs and definitions with every reference field, copied in and out of the store, and a caller that keeps and changes whatever it passed or got |

The environment is arbitrary. Handlers answer through a function of the call
number and the step asked; the clock, the license gate, the delivery of
dispatches, the cancellation of the context and the state of the children are
parameters. Every theorem quantifies over them.

## What turned out conditional

Some promises hold only under a condition. Each of these is proved as an exact
equivalence or with a concrete case that fails.

- A dotted key is rebuilt byte by byte as code points, so a segment survives the
  write exactly when it is ASCII (`DottedKeys.SegmentSurvives`). The merge verb
  therefore gives the deep merge exactly for ASCII, dot-free source keys, an
  ASCII target and no empty maps (`MergeVerb.FlattenThenApplyIsDeepMerge`); the
  two bytes of an accented letter become four (`MergeVerb.AccentIsMangled`).
- A `while` step reads its counter under its ID as one key and writes it under
  the segments of its ID. One whose ID has a dot or a byte outside ASCII is
  therefore never capped (`Termination.UncountedLoopNeverEnds`), and one whose
  ID continues that of another with the segment `iter`, as `a.iter` does for
  `a`, sets the counter of that other back in every round
  (`Termination.DottedIdResets`), so that even `a` is never capped
  (`Termination.ResetLoopNeverEnds`).
- The cap of a `while` step is an ordinary error, so a try_catch around it takes
  it and may loop for ever (`Termination.CaughtLoopNeverEnds`). With countable
  `while` steps every call on a run that stands where a run can get from its
  start, or from any other given position, ends exactly when no way through the
  graph from there, catch steps included, leads back to the same step in the
  same frames without a `while` round (`Endless.EndsExactlyWhen`).
- A parent loses its wake-up exactly when its join waits for all children and
  nobody asks for it after the last of them ended: all of them were cancelled
  from outside before the parent paused, with no check under way and no message
  left, or the last one failed with no check to follow, by a worker's report
  without a compensator or at the license gate (`FanOut.WakeupLostExactlyWhen`).
- A cancel takes no run lock. One that lands inside an iteration of `Advance`
  holds exactly when no later write of that iteration replaces the state, or the
  last one cancels by itself (`CancelRace.CancelSurvivesExactlyWhen`).
- A quorum larger than the number of children, or an unknown strategy, can never
  be met; `parallel` and `join` refuse both, `foreach` and `sub_saga` do not
  validate (`Join.WakeableConfigurations`).
- A flag captured outside the `txRun` closure survives a retry. Whatever the
  closures write, it is up exactly when some attempt of the call ran a closure
  that set it (`TxRun.FlagExactly`), so its report is false exactly when some
  attempt set it and the last one did not, because it found nothing to write or
  wrote something else (`TxRun.ReportIsFalseExactlyWhen`). Of any number of
  clients, k can be told that they consumed one signal exactly when at least k
  deliver it (`TxRun.ReportsExactlyUpToDeliveries`), and one can be told so
  although nobody did exactly when a timeout runs beside it
  (`TxRun.ReportWithoutConsumptionExactlyWhen`). `Cancel` writes an ended run back
  unmarked: any number of racing cancels can all commit and all report, and each
  then closes the tasks and logs the event, against its own comment that an ended
  run gets no event (`TxRun.EveryCancelReports`); only one of them ended the run
  (`TxRun.OneCancelWins`).
- Cron fires once per window exactly when the schedule always advances past the
  pod's clock (`Cron.OncePerWindowExactlyWhen`).
- An event wait without deadline keeps the old index entry in Redis, so the
  finders agree exactly when no wakeup was pending
  (`RedisIndex.EventWaitNeedsNoWakeup`). An ended run loses its index entries and
  keeps its blob: they agree after any operation that touches it next unless
  that pauses it on a wakeup or topic the blob kept
  (`RedisIndex.RevivedExactlyWhen`). Over any history they agree throughout
  exactly when no operation pauses a run on an entry that is not there
  (`RedisIndex.AgreeThroughoutExactlyWhen`).
- A run that cancels itself keeps its open user tasks, one cancelled from outside
  does not (`Lifecycle.SelfCancelKeepsTasks`, `Lifecycle.CancelClosesTasks`).
- The memory store keeps the caller's deadline pointer for an event wait and
  copies it for a signal wait (`StoreBoundary.DeadlineShared`).
- Two different run IDs can share the text hashed into an idempotency key exactly
  when one of them, followed by a bar, is the beginning of the other
  (`Attempts.SharedExactlyWhen`). The run IDs of the engine are UUIDs, all of one
  length, so it never meets that case (`Attempts.KeyTextInjective`).
- The CEL cache key identifies names that are not empty and hold no separator;
  others share keys (`CelCache.UncleanNamesCollide`), and a second question gets
  a fresh answer from every compiler exactly when it is the first one again or
  has another key (`CelCache.FreshExactlyWhenApart`).
- Unjittered waits never shrink exactly when the initial backoff is zero, or it
  is positive and the effective multiplier is at least one or the cap negative, or it is
  negative and the multiplier at most one (`Retry.WaitsNeverShrinkExactlyWhen`);
  the engine accepts policies whose waits shrink (`Retry.WaitsMayShrink`).
- A context cancelled during a retry wait is returned as the step's error, so it
  goes down the failure path (`Retry.RetryBudget`).

## Model

| member | source | states |
|---|---|---|
| `Coordination.Coordinator.Advance` | engine/advance.go:49-326 | the loop over the shared store does to the run, its log, its tasks and the dispatch log exactly what `Engine.Loop` says, for every environment; no other run is touched; an unknown run is an error that changes nothing |
| `Coordination.Coordinator.WakePaused` | engine/advance.go:88-177 | the branch for paused runs: due wakeup, external wake, children still running, timeout routing |
| `Coordination.Coordinator.ChildrenStillRunning` | engine/advance.go:527-549 | true exactly for a fan-out step whose join the children do not meet |
| `Coordination.Coordinator.RunStep` | engine/advance.go:179-326 | the branch for runs that are not paused, from dispatch to the answer's consequences |
| `Coordination.Coordinator.SucceedStep` | engine/advance.go:294-323 | variables, event and routing after a success, with the error exits |
| `Coordination.Coordinator.OnFailure` | engine/advance.go:259-292 | a frame takes the error, else rollback and failure |
| `Coordination.Coordinator.CompleteRun` | engine/advance.go:328-340 | both events, terminal state, parent check |
| `Coordination.Coordinator.ExecuteStep` | engine/retry.go:81-125 | the retry loop over the handler equals `Engine.Attempt` |
| `Coordination.Coordinator.Compensate` | engine/compensation.go:139-183 | the run's own log decides; nothing happens when nothing completed |
| `Coordination.Coordinator.CompensateFailedStep` | engine/compensation.go:74-123 | refused for succeeded and cancelled runs; a failed run settles back to failed on its old step |
| `Coordination.Coordinator.Cancel` | engine/coordinator.go:136-158 | terminal runs are left alone, others are cancelled with their tasks and markers; a parent is checked exactly for a live child |
| `Coordination.Coordinator.CheckStep` | liveness/reporter.go:72-90 | true exactly when the run is paused on that step and attempt with the action awaited |
| `Coordination.Coordinator.CompleteStep` | liveness/reporter.go:93-112 | accepted exactly when awaited; an accepted one publishes one advance if there is a publisher; anything else changes and publishes nothing |
| `Coordination.Coordinator.ReportFailure` | liveness/reporter.go:115-134 | the same for failures, with the rollback when a compensator is set |
| `Coordination.Coordinator.Signal` | saga/saga.go:223-250 | the signal is stored in any case; exactly when the run waits for that name it is consumed with all stored ones of the name, and the run advances |
| `Coordination.Store.UpdateRunState` | store/memory/store.go:191-202 | state and current step of that run, nothing else |
| `Coordination.Store.ClearPause` | store/memory/store.go:447-461 | running, with wakeup and both await markers cleared |
| `Coordination.Store.MarkRunFailed` | store/memory/store.go:256-277 | no-op on terminal runs, keeps the old error for an empty one |
| `Coordination.Store.UpdateRunVariables` | store/memory/store.go:364-379 | the fold of the dotted writes |
| `Coordination.Store.SetPaused` | store/memory/store.go:383-443 | what each kind of pause records; a signal wait without deadline keeps the old wakeup, an event wait does not |
| `Coordination.Store.Cancel` | store/memory/store.go:208-251 | one atomic step: state, markers, dispatch, tasks and event; idempotent |
| `Coordination.Store.TryConsumeAwaitedSignal` | store/memory/store.go:496-522 | succeeds exactly for the awaited name of a paused run, clears the markers and marks the stored signals of that name consumed |
| `Coordination.Store.WakeFromExternal` | store/memory/store.go:526-542 | clears the markers and leaves the run paused |
| `Coordination.Store.MarkAwaitingAction` | store/memory/store.go:773-790 | idempotent on (attempt, dispatch) |
| `Coordination.Store.CompleteAction` | store/memory/store.go:795-818 | late deliveries change nothing |
| `Coordination.Store.FailAction` | store/memory/store.go:822-858 | late deliveries change nothing and log nothing |
| `Coordination.Store.PushTryCatch` | store/memory/store.go:608-622 | refused at depth three |
| `Coordination.Store.PopTryCatch` | store/memory/store.go:626-640 | returns and removes the top frame |
| `Engine.MaxIter` | engine/verbs/while.go:63-72 | a request from 1 to 10000 is honoured, a missing or smaller one counts as 100, a larger one as 10000 |
| `Answers.Names` | engine/verbs/while.go:74-106 | the keys under which the engine, its handlers and its definitions meet, letter by letter |
| `Answers.WakeGoes` | engine/advance.go:88-177 | for every kind of step: a due wakeup with a signal or topic still set goes to the timeout branch if that is present and leads anywhere; every other wake goes to Next, an error when there is none; the run stays exactly while something is awaited or its children do not meet the join |
| `Answers.BranchIsTaken` | engine/advance.go:302-323 | a result that names a branch, in whatever place: a wired branch is taken, an error when it leads nowhere; an unwired one is an error for decision, switch and while and goes to Next for the rest |
| `Answers.NextIsTaken` | engine/advance.go:300-323 | a result that names none goes to Next |
| `Answers.ResultIsStored` | store/memory/store.go:364-379 | a result whose keys do not hold one another is read back in full, and no other path changes |
| `Answers.ReturnRoutes` | engine/advance.go:179-323 | a handler that returns in its first attempt has its result stored and routed, with one dispatch logged, and the start of the saga exactly for a pending run |
| `Answers.NothingRoutes` | engine/advance.go:300-323 | one that has nothing to return goes to Next |
| `Answers.RoundRoutes` | engine/verbs/while.go:58-111 | a while step below its cap takes the branch of its condition, which has to be wired, and writes its counter plus one |
| `Answers.CounterIsRead` | engine/verbs/while.go:74-87 | the counter read: whole numbers as they are, others without their fraction, anything else as zero |
| `Answers.TryCatchOpens` | engine/verbs/try_catch.go:54-68 | the frame names the step and its catch step, and the run goes to the body |
| `Answers.EndSucceeds` | engine/advance.go:328-340 | an end step ends the run without asking the license gate or a handler, with both events and one parent check |
| `Answers.UnknownStops` | engine/advance.go:194-217 | a missing step and one without a handler are errors that leave the run running |
| `Answers.GateRejects` | engine/advance.go:218-240 | the gate fails the run on the step with its reason; no handler, no parent check |
| `Answers.CancelEnds` | engine/advance.go:248-258 | the run is cancelled on the step, keeps its tasks, and the parent is checked |
| `Answers.ActionPauses` | engine/verbs/action.go:92-125 | the run waits for its worker under the next attempt number, with the dispatch recorded |
| `Answers.FanOutPauses` | engine/verbs/parallel.go:174-185 | the parent waits with no marker of its own |
| `Answers.FailureIsCaught` | engine/advance.go:259-279 | the frame is popped, the run goes on from its catch step, and `_error` holds exactly the step and the message; no other variable changes |
| `Answers.FailureEnds` | engine/advance.go:280-292 | without a frame the run fails on the step with its error, logged, one parent check, and nothing else of it changes |
| `Answers.BreakFails` | engine/retry.go:81-105 | a handler that breaks in its only attempt, a while step at its cap, a try_catch without catch or at depth three, and an action without a service name fail in this way |
| `Rollback.CompletedCompensableSteps` | engine/compensation.go:190-213 | the loop with its seen map equals `Completed` |
| `Rollback.CompletedIsCompletionOrder` | engine/compensation.go:185-213 | that list is exactly the distinct steps that completed, in the order of their first completions |
| `Rollback.CompletionOrderIsUnique` | engine/compensation.go:185-189 | no other list and no other positions meet that description |
| `Rollback.CompletionOrderIds` | engine/compensation.go:202-207 | no step twice, neither the failed step nor an end step |
| `Rollback.Dispatcher.Compensate` | engine/compensation.go:163-182 | the reverse loop; compensated and failed are the delivered and undelivered dispatches it made, skipped the rest; a failed dispatch stops nothing |
| `Rollback.UndoIsReverse` | engine/compensation.go:125-183 | what is attempted is the exact reverse of the completed steps that have a compensation, each with its own action, whatever the transport does |
| `Rollback.EachHasItsDelivery` | engine/compensation.go:173-177 | a failed dispatch stops nothing and touches no other: attempt i is marked by the delivery of its own dispatch |
| `RollbackLaw.AdvanceUndoes` | engine/advance.go:259-302 | for a whole call: the run fails with exactly its completed steps undone, or is rejected by the license gate with nothing undone, or does not fail and nothing is undone |
| `RollbackLaw.FailRunUndoes` | engine/advance.go:280-291 | after an uncaught failure the run is failed on the failing step with its error, and the undo law holds of its log |
| `RollbackLaw.OutsideFailureUndoes` | engine/compensation.go:74-123 | the same law for a failure recorded outside; an already failed run is unchanged |
| `RollbackLaw.WorkerFailureUndoes` | liveness/reporter.go:115-134 | a worker's report fails the run with its message and undoes what completed before |
| `RollbackLaw.DispatchHasItsDelivery` | engine/compensation.go:173-177 | over all rollbacks of a run: compensation dispatch i is marked delivered exactly when its action is well named and the transport took dispatch i |
| `RollbackLaw.RollbackShows` | engine/compensation.go:139-155 | a rollback that has a completed step to undo sets the run compensating on the step given and logs its start; otherwise it changes nothing |
| `Retry.RetryBudget` | engine/retry.go:81-125 | the handler runs k times, k unique: first non-failure, last attempt or abandoned wait; the log gains failures 1..k-1 (k when abandoned) and nothing else; the answer is that of attempt k |
| `Retry.AttemptsAllowed` | engine/retry.go:81-90 | as many attempts as the policy says, one if it says none |
| `Retry.WaitsNeverShrinkExactlyWhen` | engine/retry.go:52-71 | unjittered waits are nondecreasing exactly under that condition on initial backoff, multiplier and cap |
| `Retry.TotalWaitBounded` | engine/retry.go:52-71 | n waits last at most n caps, a quarter more with jitter |
| `Retry.WaitsDouble` | engine/retry.go:52-71 | without a multiplier the wait after attempt n is the initial backoff times two to the n, at most the cap, or a minute without a cap |
| `Retry.WaitsGrowBy` | engine/retry.go:52-71 | with one it starts at the initial backoff and grows by that factor, under the same cap |
| `Termination.CounterPutGet` | engine/verbs/while.go:74-110 | for any two IDs: after a write of the counter of one, the reading of the other is the number written when it reads the place written, zero when it reads a place the write turned into a map, and the old one otherwise |
| `Termination.RoundReads` | engine/verbs/while.go:58-111 | the same for one round of a while step and the reading of any step |
| `Termination.RoundCounts` | engine/verbs/while.go:58-111 | one round raises the counter of its step by one exactly when the ID is ASCII and dot-free, and then no other counter |
| `Termination.DottedIdResets` | engine/verbs/while.go:74-110 | a round of a while step named after the counter of a plain one makes that one read zero |
| `Termination.AdvanceEnds` | engine/advance.go:64-326 | if no cycle of positions (step and try_catch frames) that a run can get to is free of while rounds and handlers spare the counters, a call on a run that stands there ends on its own having executed at most (rounds left + 1) times the number of positions |
| `Termination.BoundByCaps` | engine/verbs/while.go:63-72 | that bound is at most (sum of effective max_iterations + 1) times the steps times (1 + try_catch steps) cubed, the depth of the stack being three |
| `Termination.OrdinaryLoopIsBounded` | engine/verbs/while.go:45-50 | the ordinary loop, a body that leads back to its while step, meets the conditions of the bound |
| `Termination.GuardedLoopIsBounded` | engine/verbs/try_catch.go:54-68 | so does a loop whose body is guarded by a try_catch, with a catch step that leads back to that try_catch through the while step |
| `Termination.UncountedLoopNeverEnds` | engine/verbs/while.go:74-106 | without such an ID a while step that continues to itself is never capped, though every handler answers honestly |
| `Termination.ResetLoopNeverEnds` | engine/verbs/while.go:74-110 | two such while steps that continue to each other are never capped, though the ID of one is plain |
| `Termination.CaughtLoopNeverEnds` | engine/advance.go:260-278 | with a try_catch around it that catches into itself the cap ends nothing |
| `Endless.EndsExactlyWhen` | engine/advance.go:64-326 | for countable while steps and any position: every call on every run record that stands where runs from that position can get ends, whatever its handlers answer, exactly when no free cycle starts there |
| `Endless.CycleNeverEnds` | engine/advance.go:64-326 | around any cycle of successes, caught failures and rounds of one uncounted while step handlers can drive a run for ever |
| `Endless.HistoryStaysOnPath` | engine/advance.go:64-326 | over any history a run from a position has ended, or stands and wakes up where the moves of its definition lead from there, its stack of at most three frames, all pushed by try_catch steps of the definition, included |
| `Endless.EveryCallEnds` | engine/advance.go:49-326 | so, with no free cycle in reach of the start, the next call on a created run ends after any history |
| `Settling.AdvanceSettles` | engine/advance.go:49-340 | for a well-formed definition, try_catch included, a call that is not cut short leaves the run paused or terminal and fit for the next call, never running or compensating |
| `Settling.AdvanceAlwaysSettles` | engine/advance.go:49-340 | with the conditions of the bound, every call does |
| `Lifecycle.TerminalIsForever` | store/memory/store.go:208-277 | no sequence of advances, cancels, failures, signals, events, reports and compensations changes an ended run at all |
| `Lifecycle.CancelClosesTasks` | engine/coordinator.go:136-158 | a run cancelled from outside stays cancelled with no open task, no marker and its reason |
| `Lifecycle.SelfCancelKeepsTasks` | engine/advance.go:249-257 | a run that cancels itself ends with no open task exactly when it had none |
| `CancelRace.TurnIsItsWrites` | engine/advance.go:64-326 | the store writes listed for an iteration, one after the other, are what it does to the run |
| `CancelRace.CancelSurvivesExactlyWhen` | engine/coordinator.go:136-158 | a cancel after any number of them leaves the run cancelled exactly when no later write replaces the state, or the last one cancels |
| `Visits.OneSuccessPerVisit` | engine/advance.go:143-143 | over any history step.succeeded is logged at most once per dispatch of the step, a pause on the step counting as one still open |
| `Visits.HistoryIsOrderly` | engine/advance.go:88-97 | await markers and wakeup are set only while paused, never on a fan-out step, and on an action step only the wakeup |
| `Visits.FanOutWaits` | engine/advance.go:104-116 | while the children do not meet the join, no advance, signal, event or report of another step changes a parent paused on its fan-out step |
| `Visits.WakeFollowsProtocol` | engine/advance.go:104-172 | a wake-up of a fan-out parent does what the steps of the `FanOut` protocol do, with as many step.succeeded |
| `Waits.PauseRecords` | store/memory/store.go:382-443 | what each pause records over what the run had: a signal wait without deadline keeps an old wakeup, an event wait does not; nothing else changes |
| `Waits.WaitBegins` | store/memory/store.go:382-443 | a timed wait records exactly its instant, a signal or event wait its name or topic and exactly the deadline asked for; nothing else of the run changes |
| `Waits.WaitIsEntered` | engine/verbs/wait_for_event.go:54-78 | the same for a whole iteration, with the pause logged and a user task opened exactly when a signal wait asked for one |
| `Waits.OnlyItsOwnWait` | engine/verbs/wait_duration.go:50-67 | a wait verb asks for its own kind of wait or fails |
| `Waits.StraysChangeNothing` | engine/advance.go:88-97 | advances before the instant or deadline, other signals and events, and reports leave the run as it is, for all three kinds of wait |
| `Waits.CallWins` | engine/advance.go:88-172 | a signal or event that comes first routes to Next however late the next advance, and a second one finds nothing to take |
| `Waits.SignalIsConsumedOnce` | store/memory/store.go:496-522 | a signal is consumed by the wait, and once |
| `Waits.DeadlineWins` | engine/advance.go:143-160 | an instant that comes routes to Next; the deadline of a signal or event that comes first routes to the timeout branch if that leads anywhere, else to Next, and what was awaited comes too late |
| `Waits.EveryOrder` | engine/advance.go:88-177 | for any deliveries in any order to a wait for a signal, an event or an instant: they decide exactly one fate, and the run is as it was, or without its markers, or went on once, from Next exactly when the call came first and from where the deadline leads exactly when that did |
| `Completion.ResultIsTaken` | store/memory/store.go:795-818 | a report the run waits for stores every key of its result over the old value, leaves every other variable, clears the dispatch and sets the wakeup to its instant; any other report changes nothing |
| `Completion.ResultGoesOn` | liveness/reporter.go:92-112 | after any history, and for any deliveries after the report: the run waits for that instant, and the first advance that is not earlier goes on from Next with those variables, once |
| `Endings.EndIsRecorded` | store/memory/store.go:208-277 | cancels, failures and outside rollbacks record their state, step and error, an empty text keeping the old one; nothing else changes them, and none touches variables, frames or attempt number |
| `Endings.MarkersGo` | store/memory/store.go:208-251 | which operation takes which marker: a cancel all, the awaited signal, event or join the markers, a worker's failure its dispatch, nothing else any |
| `Endings.EndIsLogged` | store/memory/store.go:208-251 | what is logged by each of them, and that only a cancel closes tasks |
| `ParentChecks.IterationAsks` | engine/advance.go:228-340 | an iteration checks the parent's join once if it ends the run in any way but at the license gate, and not otherwise |
| `ParentChecks.CallAsks` | engine/advance.go:49-340 | so does a whole call |
| `ParentChecks.EndIsToldOnce` | engine/compensation.go:74-123 | over any history the operation that ends a run makes the first check, and one, unless it is a failure recorded without a rollback or the license gate |
| `ParentChecks.OverAsksForRollbacks` | engine/compensation.go:96-123 | an ended run is checked again only for each further rollback of a failed one |
| `ParentChecks.ChildFollowsProtocol` | engine/advance.go:342-420 | every operation on a child is what certain steps of the fan-out protocol are: same state, as many checks started, an unheard end being the protocol's unchecked failure |
| `Attempts.IterationTakesNext` | engine/verbs/action.go:92-125 | each visit of a valid action takes the number above the run's last, whatever its retries do; nothing else changes the number or the awaited dispatch |
| `Attempts.SettledOnce` | liveness/reporter.go:72-134 | over any history the settled attempt numbers strictly increase |
| `Attempts.KeyTextInjective` | engine/verbs/action.go:248-253 | (run, step, attempt) is determined by the hashed text for run IDs of one length, whatever the step IDs hold |
| `Attempts.KeyTextAmbiguous` | engine/verbs/action.go:248-253 | a run ID that begins with another one and a bar shares a text with it |
| `Attempts.SharedExactlyWhen` | engine/verbs/action.go:248-253 | two different run IDs can share a text exactly when one followed by a bar is the beginning of the other |
| `Join.JoinConditionMet` | engine/verbs/join_shared.go:148-208 | the loops and fall-backs decide `Met`: every child ended, or quorum_n succeeded |
| `Join.MetMeans` | engine/verbs/join_shared.go:132-208 | by the literal strategies: all ended, or that many children succeeded; an unusable number falls back to all, an unknown strategy is never met |
| `Join.MetIsMonotone` | engine/verbs/join_shared.go:132-137 | a met join stays met while ended children stay as they are |
| `Join.OnlyEndingMeets` | engine/advance.go:342-345 | only a write that ends a child can make the join true, so checking after terminal writes is enough |
| `Join.AllEndedIsFinal` | engine/verbs/join_shared.go:132-137 | once all children ended, a join not met now never will be |
| `Join.WakeableConfigurations` | engine/verbs/join_shared.go:83-124 | which configurations any outcome of the children can meet, and that validation accepts only these |
| `Parallel.ParallelVerb.Execute` | engine/verbs/parallel.go:64-194 | effects of every way the call can end: refused configurations do nothing, a bad branch or a failing store call stops after spawning those before it, a failing pause publishes nothing, a refused publish leaves the parent paused, no publisher publishes nothing |
| `Parallel.VerbFollowsProtocol` | engine/verbs/parallel.go:121-194 | a successful call is a run of the fan-out protocol from its start to the pause with every child started |
| `FanOut.WakeupLostExactlyWhen` | engine/advance.go:356-420 | for any number of children and any interleaving, the parent waits with a met join and nothing to wake it exactly when some step paused it too late or failed its last child unheard |
| `FanOut.PauseLoses` | engine/verbs/parallel.go:179-185 | the pause itself loses the wake-up exactly in that case |
| `FanOut.FailureLoses` | liveness/reporter.go:115-134 | a failure with no check loses it exactly when it ends the last child of a paused parent that waits for all, with nothing under way |
| `FanOut.OthersKeepDuty` | engine/advance.go:356-420 | every other step keeps the duty to wake the parent alive |
| `FanOut.CancelBeforePauseLosesWakeup` | engine/coordinator.go:154-156 | the first case can happen |
| `FanOut.UnheardFailureLosesWakeup` | liveness/reporter.go:64-66 | and the second |
| `FanOut.LeavesOnlyWhenMet` | engine/advance.go:104-116 | the parent leaves at most once, with one step.succeeded, after one listing of all children met the join |
| `FanOut.ListingIsReal` | engine/advance.go:527-549 | that listing was the children's state at an earlier moment |
| `FanOut.WakeupArrives` | engine/advance.go:356-420 | while the wake-up is under way the engine's own steps are bounded in number and end with the parent moved on |
| `RunLock.Locks.Enter` | engine/runlock.go:47-60 | entry and count after the increment; other runs keep theirs |
| `RunLock.Locks.Leave` | engine/runlock.go:61-70 | the count goes down and the entry goes with the last user |
| `RunLock.MutualExclusion` | engine/runlock.go:28-70 | at most one thread is inside for a run, for any threads, runs and interleaving |
| `RunLock.OneLockPerRun` | engine/runlock.go:47-70 | threads waiting or holding share a lock object exactly when they are on the same run |
| `RunLock.EntryIffCounted` | engine/runlock.go:47-70 | refs counts the threads between increment and decrement; an entry exists exactly when that is positive |
| `RunLock.SomeoneCanStep` | engine/runlock.go:47-70 | while some thread is not idle, some such thread can step |
| `TxRun.Key.TxRun` | store/redis/store.go:187-221 | commits on the latest foreign write or leaves it alone; exhausted exactly after the whole budget of conflicts |
| `TxRun.Serialisable` | store/redis/store.go:187-221 | the stored run is the fold of the committed mutations in commit order, for any clients and interleaving |
| `TxRun.EachCommitBuildsOnTheLast` | store/redis/store.go:187-221 | each commit mutated what the one before it left |
| `TxRun.FlagExactly` | store/redis/pause.go:231-294 | at every moment, for closures of any kind, a flag is up exactly when an attempt set it, by going through if it is set late and by running its closure otherwise, and no attempt begun since cleared it |
| `TxRun.ReportIsFalseExactlyWhen` | store/redis/pause.go:231-294 | a call whose marking attempt went through reports; a report is false exactly for a captured flag of a call that ended without an error after some attempt that marked and a last one that did not |
| `TxRun.ResetFlagIsTruthful` | store/redis/triggers.go:179-216 | a flag cleared in every attempt, or set late, reports exactly the marking commits of its own call |
| `TxRun.ReportsExactlyUpToDeliveries` | store/redis/pause.go:231-294 | k of the clients can be told that they consumed one signal exactly when k of them deliver it |
| `TxRun.ReportWithoutConsumptionExactlyWhen` | store/redis/pause.go:231-294 | a delivery can report although none consumed exactly when there is one, and a timeout beside it |
| `TxRun.SignalConsumedTwice` | store/redis/pause.go:231-294 | two deliveries, one commit, two reports |
| `TxRun.EveryCancelReports` | store/redis/runs.go:87-140 | any number of racing cancels of one live run can all commit and all report that they cancelled it |
| `TxRun.OneCancelWins` | store/redis/runs.go:87-140 | in no run of any number of cancels do two attempts that found the run live go through |
| `Cron.TriggerStore.ListDue` | store/memory/triggers.go:105-122 | all due triggers, oldest first; a limit keeps the oldest |
| `Cron.TriggerStore.ClaimCronFire` | store/memory/triggers.go:128-140 | wins exactly when the stored value is the expected one |
| `Cron.TriggerStore.FireDue` | engine/cron_dispatcher.go:104-165 | one pass alone moves exactly the listed triggers with a usable plan whose claim does not fail, an interval to that long after the clock and a schedule to its next instant, starts one run for each the tenant is entitled to unless its creation fails, goes on after every error and returns the first |
| `Cron.OncePerWindowExactlyWhen` | store/redis/triggers.go:179-216 | any number of pods with unrelated clocks start at most one run per window exactly when schedules advance past the clock |
| `Cron.AdvancingMeans` | engine/cron_dispatcher.go:104-165 | only calendar schedules can fail to advance: intervals always do |
| `Cron.StalledPlanFiresTwice` | engine/cron_dispatcher.go:104-165 | a schedule that does not is claimed twice for one window |
| `RedisIndex.RedisStore.Apply` | store/redis/pause.go:41-136 | blob and both indexes after each operation |
| `RedisIndex.BlobFollowsRun` | store/redis/pause.go:41-136 | the blob an operation writes is what the operation of the same name does to a run of the engine |
| `RedisIndex.RedisStore.FindRunsByDueWakeup` | store/redis/pause.go:138-185 | due paused runs, each once, all of them below the limit |
| `RedisIndex.MemoryStore.FindRunsByDueWakeup` | store/memory/store.go:465-478 | the same for the scan, which returns one run even for a limit of zero |
| `RedisIndex.IndexesAgreeWithScan` | store/redis/pause.go:138-225 | over every allowed history both stores hold the same runs and select the same ones, for every instant and topic |
| `RedisIndex.EventWaitNeedsNoWakeup` | store/redis/pause.go:81-101 | an event wait without deadline keeps the agreement exactly when no wakeup was pending |
| `RedisIndex.RevivedExactlyWhen` | store/redis/runs.go:71-84 | after a live run was ended in whatever way, any next operation on it leaves the stores in agreement exactly when it does not pause the run on a wakeup or topic the blob kept |
| `RedisIndex.StepAgreesExactlyWhen` | store/redis/pause.go:41-136 | from stores that agree, one operation of any kind leaves stores that agree exactly when the index entries it trusts were there |
| `RedisIndex.AgreeThroughoutExactlyWhen` | store/redis/pause.go:138-225 | over any history at all the finders agree at every moment exactly when each operation met that |
| `DottedKeys.SplitKey` | store/memory/store.go:1000-1010 | the splitting loop gives `Segments` of the key |
| `DottedKeys.SegmentSurvives` | store/memory/store.go:1008-1008 | a segment is written as it is exactly when it is ASCII |
| `DottedKeys.MangleInjective` | store/memory/store.go:1008-1008 | different segments stay different |
| `DottedKeys.PutGet` | store/memory/store.go:999-1025 | a write is read back |
| `DottedKeys.PutFrame` | store/memory/store.go:999-1025 | paths not comparable with it keep their values |
| `DottedKeys.PutCommutes` | store/memory/store.go:364-379 | writes to incomparable paths commute |
| `Merge.ApplyIsDeepMerge` | store/memory/store.go:364-379 | writing the leaves of a map without empty maps, in any order, is the recursive last-write-wins merge |
| `MergeVerb.DeepFlatten` | engine/verbs/merge.go:70-79 | the recursion adds exactly one entry per full key of a leaf, with the value of such a leaf |
| `MergeVerb.Execute` | engine/verbs/merge.go:44-68 | errors exactly for missing inputs or a value that is no map |
| `MergeVerb.RunVariables.UpdateRunVariables` | store/memory/store.go:364-379 | the store enumerates the result map in some order and folds the writes |
| `MergeVerb.FlattenThenApplyIsDeepMerge` | engine/verbs/merge.go:44-79 | flatten-then-apply is the documented merge for every target and every order exactly for clean inputs |
| `MergeVerb.NonAsciiKeyIsMisplaced` | store/memory/store.go:1008-1008 | a source with a non-ASCII key is never merged right |
| `CelCache.SortedUnique` | internal/cel/cache.go:76-91 | the in-place compaction gives the strictly sorted set of the names and leaves the caller's slice alone |
| `CelCache.KeyInjective` | internal/cel/cache.go:51-63 | clean names and expression are determined by the key |
| `CelCache.UncleanNamesCollide` | internal/cel/cache.go:51-63 | an empty name and names that hold a unit or record separator share keys with other listings that reach the cache |
| `CelCache.Cache.CompiledProgram` | internal/cel/cache.go:51-74 | for any names: the answer is that of compiling afresh for the sorted set, or of an entry with the same key; fresh whenever no other question asked had that key; failures are not cached |
| `CelCache.CleanAreAlone` | internal/cel/cache.go:51-63 | among clean questions none has the key of another |
| `CelCache.TwoQuestions` | internal/cel/cache.go:51-74 | the second of two answers, in terms of the two questions; order and duplicates of names make no difference |
| `CelCache.FreshExactlyWhenApart` | internal/cel/cache.go:51-63 | it is fresh for every compiler exactly when the questions are one or have different keys |
| `CelCache.SortedListingIsUnique` | internal/cel/cache.go:76-91 | a set of names has one such listing, so order and duplicates do not matter |
| `Isolation.CloneAny` | store/memory/clone.go:39-68 | for any acyclic value, nodes shared or not, the copy is a tree of new nodes that stands for the same value |
| `Isolation.CloneMap` | store/memory/clone.go:70-79 | the same for maps |
| `Isolation.ApplyPath` | store/memory/store.go:1012-1024 | the in-place walk over the stored tree is `DottedKeys.Put` on its value, and writes no node outside the tree |
| `StoreBoundary.CloneRun` | store/memory/clone.go:119-139 | the copy of a run stands for the same run in all sixteen reference fields, and everything reachable from it is new |
| `StoreBoundary.CloneStep` | store/memory/clone.go:152-169 | the same for a step: inputs, compensation with its inputs, retry, branches, extra |
| `StoreBoundary.CloneDefinition` | store/memory/clone.go:171-182 | the same for a definition: tenant, entrypoints and the array of steps |
| `StoreBoundary.StoredRun.constructor` | store/memory/store.go:172-177 | CreateRun keeps the run's value in objects of its own, the wakeup included |
| `StoreBoundary.StoredRun.Get` | store/memory/store.go:180-188 | the result stands for the stored run and is new throughout |
| `StoreBoundary.StoredRun.Update` | store/memory/store.go:364-379 | copies the argument, then writes it in place; a run without variables gets a map first |
| `StoreBoundary.StoredRun.AwaitSignal` | store/memory/store.go:399-415 | name and deadline are copied; no deadline keeps the old wakeup |
| `StoreBoundary.StoredRun.AwaitEvent` | store/memory/store.go:425-443 | topic and headers are copied, nil headers become an empty map, the deadline pointer is kept |
| `StoreBoundary.StoredDefinitions.Upsert` | store/memory/store.go:80-87 | a copy under a new storage ID, the others as they were |
| `StoreBoundary.StoredDefinitions.Get` | store/memory/store.go:91-99 | a new copy, or none |
| `Callers.Act` | store/memory/clone.go:29-34 | one action of a caller, a write to any object it can reach or a call with whatever it holds, changes the stored run and definitions exactly as the call says |
| `Callers.Session` | store/memory/store.go:172-188 | over any script of such actions, arguments reused from results included, the stored run but for its wakeup and the stored definitions are those the calls alone give |
| `Callers.Lifetime` | store/memory/store.go:172-188 | the same from CreateRun on, the caller keeping the record it passed |
| `StoreBoundary.DeadlineShared` | store/memory/store.go:399-443 | a caller's later write to its deadline reaches the store exactly for event waits |

## Left out

- HTTP, gRPC, RabbitMQ, WebSocket, PostgreSQL, telemetry, logging, configuration: plumbing; a publish is a message count.
- Store errors and missing definitions inside `Advance`: the store always answers, one definition is given per call.
- CEL evaluation, the cron parser, SHA-256 and JSON: parameters with only the facts used; for cron, that the next instant may or may not lie after the clock.
- Most verbs (log, http_request, assert, set_var, switch, map, filter and others): folded into arbitrary answers of a handler.
- The cancel verb aimed at another run: it overwrites the target's state unconditionally and is outside the terminal-state claims.
- The REST endpoint for action results: it does not go through the step check; reports are modelled through the reporter only.
- `join` and `action` pauses against early advances: the source does not protect them, nothing is claimed.
- A late sibling's wake interleaved with a later wait of the parent: the check and the wake are not atomic; nothing is claimed about later waits.
- The effect of a parent check on the parent inside `Coordination`: counted there, and modelled as a protocol in `FanOut`.
- Aggregated branch results, stream resolution of `join`, number coercions of quorum_n: the coerced number is the input.
- Submission of user tasks: a signal; the count of open tasks only changes by creation and cancel.
- Listing, pagination, statistics, header matching, timestamps of events, the `verb` entry of the caught-error map.
- Error texts composed by the engine: one constant stands for them; the handler's own message is kept.
- `Attempts.KeyTextInjective`: speaks of the hashed text, not of SHA-256.
- `Retry.TotalWaitBounded`: over reals; floating-point rounding and overflow of the power are not modelled.
- `Isolation.ApplyPath`: the source walks in a loop; here each level calls the next, with the same writes in the same order.
- `Isolation.CloneAny`: maps and slices of a fixed element type are maps and slices of values here, and nil ones are the nil value; a value with a cycle, on which the source does not return, stands for nothing.
- `Callers.Session`: one run and one list of definitions; events, signals, tasks, rules and triggers are copied by functions of the same shape, and lookup of a definition by name is left out.
- `CancelRace.CancelSurvivesExactlyWhen`: one cancel in one iteration; what the call goes on to do after an overwritten cancel is an ordinary run of `Engine`.
- Inputs of compensations: not part of `Rollback`, which names the action.
- Delivery of an event in two steps, finding the waiting runs and then waking them: here it is one, so a wake that reaches a later wait of the same run is not modelled.
- A second visit of a fan-out step: the results of `FanOut` and `Visits` are about one visit. On the second the store lists the children of the earlier one, too, so a quorum may be met too early.
- `Endless.EndsExactlyWhen`: where a run can get is by the moves of the definition; caps of while steps on the way and the counters a record may hold are not taken into account.
- `Waits.EveryOrder`: deliveries other than orders to cancel, fail or compensate the run, which end it.
- The optional expiry of ended runs in Redis (store/redis/runs.go:80): with it, the two stores do not hold the same runs for ever.
- `RedisIndex.IndexesAgreeWithScan`: scores are exact integers.
