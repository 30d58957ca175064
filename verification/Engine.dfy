/** What Advance does to one run: its iterations as functions of the run, its
    event log and the answers of the environment. */
module Engine {
  import opened Domain
  import opened DottedKeys
  import opened Runs
  import opened Rollback
  import Join

  // ------------------------------------------------- names the engine writes

  const BRANCH: Key := [98, 114, 97, 110, 99, 104]
  const CONTINUE: Key := [99, 111, 110, 116, 105, 110, 117, 101]
  const EXIT: Key := [101, 120, 105, 116]
  const TIMEOUT: Key := [116, 105, 109, 101, 111, 117, 116]
  const WHILE: Key := [95, 119, 104, 105, 108, 101]
  const ITER: Key := [105, 116, 101, 114]
  const ERROR: Key := [95, 101, 114, 114, 111, 114]
  const STEP_ID: Key := [115, 116, 101, 112, 95, 105, 100]
  const MESSAGE: Key := [109, 101, 115, 115, 97, 103, 101]
  const REASON: Msg := [33]       // stands for the fixed texts the engine composes

  // ------------------------------------------------- the environment

  datatype Pair = Pair(key: Key, value: Value)

  datatype Mark =
    | Until(at: Time)
    | ForSignal(name: Key, deadline: Option<Time>, task: bool)
    | ForEvent(topic: Key, deadline: Option<Time>)
    | NoMarker                    // state paused and nothing else, as join does

  /** A handler's answer. entries is its result map, in the order the store will
      happen to enumerate it. */
  datatype Reply =
    | Return(entries: seq<Pair>)
    | Holds(condition: bool)
    | Pauses(mark: Mark)
    | Cancels
    | Breaks(msg: Msg)

  datatype License = Granted | Rejected

  /** Everything one call of Advance may be told from outside; answers are
      indexed by the number of handler calls made before. */
  datatype Env = Env(
    now: Time,
    join: Join.JoinInputs,        // of the fan-out step the run is paused on
    children: seq<RunState>,      // that step's children
    reply: (nat, Key) -> Reply,   // by the step asked, too
    license: nat -> License,
    abandoned: nat -> bool,       // context cancelled during a retry wait
    transport: Transport)

  datatype World = World(
    run: Run,
    events: seq<Event>,
    calls: nat,                   // handler calls so far
    undo: seq<Undo>,              // compensation dispatches so far
    joinChecks: nat,              // checkParentJoin calls so far
    openTasks: nat)               // user tasks not submitted

  datatype Outcome = Done(entries: seq<Pair>) | Suspended | Cancelling | Failing(msg: Msg)

  datatype Result = Ok | Error | ContextDone

  datatype Turn = Again(w: World) | Stop(w: World, result: Result)

  function AsTurn(w: World, stopped: Option<Result>): Turn
  {
    match stopped
    case None => Again(w)
    case Some(result) => Stop(w, result)
  }

  // ------------------------------------------------- handlers

  function ApplyPairs(vars: Vars, entries: seq<Pair>): Vars
    decreases |entries|
  {
    if entries == [] then vars
    else ApplyPairs(Put(vars, Segments(entries[0].key), entries[0].value), entries[1..])
  }

  /** max_iterations in force: an allowed request is honoured, one that is
      missing or not positive counts as 100, one too large as 10000. */
  function MaxIter(step: Step): (m: int)
    ensures 1 <= m <= 10000
    ensures step.maxIterations.Some? && 1 <= step.maxIterations.value <= 10000 ==> m == step.maxIterations.value
    ensures step.maxIterations.None? || step.maxIterations.value < 1 ==> m == 100
    ensures step.maxIterations.Some? && step.maxIterations.value > 10000 ==> m == 10000
  {
    var wanted := if step.maxIterations.Some? then step.maxIterations.value else 100;
    var capped := if wanted > 10000 then 10000 else wanted;
    if capped < 1 then 100 else capped
  }

  /** Variables._while.{id}.iter; anything but a number reads as zero. */
  function Iterations(vars: Vars, id: Key): int
  {
    Counter(SubMap(vars, WHILE), id)
  }

  function Counter(counters: Vars, id: Key): int
  {
    var mine := SubMap(counters, id);
    if ITER !in mine then 0
    else match mine[ITER]
      case Int(n) => n
      case Float(r) => if r >= 0.0 then r.Floor else -((-r).Floor)
      case _ => 0
  }

  function CounterKey(id: Key): Key
  {
    WHILE + [DOT] + id + [DOT] + ITER
  }

  function WhileEntries(vars: Vars, id: Key, condition: bool): seq<Pair>
  {
    [Pair(BRANCH, Str(if condition then CONTINUE else EXIT)), Pair(CounterKey(id), Int(Iterations(vars, id) + 1))]
  }

  function Marked(r: Run, mark: Mark, id: Key): Run
  {
    match mark
    case Until(at) => PausedUntil(r, at)
    case ForSignal(name, deadline, _) => PausedForSignal(r, name, deadline)
    case ForEvent(topic, deadline) => PausedForEvent(r, topic, deadline)
    case NoMarker => SetState(r, Paused, id)
  }

  predicate Fits(kind: Kind, mark: Mark)
  {
    match kind
    case WaitForSignal => mark.ForSignal?
    case WaitForEvent => mark.ForEvent?
    case WaitForTime => mark.Until?
    case _ => true
  }

  /** One handler call: r is the stored run, snap the run as Advance read it at
      the top of the iteration. */
  function Execute(r: Run, snap: Run, step: Step, reply: Reply): (Run, Outcome)
  {
    match step.kind
    case Action =>
      if step.action == [] || !WellNamed(step.action) then (r, Failing(REASON))
      else
        var r' := AwaitingAction(r, step.action, snap.attempt + 1);
        if reply.Breaks? then (r', Failing(reply.msg)) else (r', Suspended)
    case While =>
      if reply.Breaks? then (r, Failing(reply.msg))
      else if Iterations(snap.vars, step.id) >= MaxIter(step) then (r, Failing(REASON))
      else (r, Done(WhileEntries(snap.vars, step.id, reply.Holds? && reply.condition)))
    case TryCatch =>
      if reply.Breaks? then (r, Failing(reply.msg))
      else if step.catchStep == [] || |r.frames| >= MAX_FRAMES then (r, Failing(REASON))
      else (r.(frames := r.frames + [Frame(step.id, step.catchStep)]), Done([]))
    case FanOut =>
      if reply.Breaks? then (r, Failing(reply.msg))
      else if reply.Return? then (r, Done(reply.entries))
      else (SetState(r, Paused, step.id), Suspended)
    case _ =>
      match reply
      case Return(entries) => (r, Done(entries))
      case Holds(_) => (r, Done([]))
      case Pauses(mark) => if Fits(step.kind, mark) then (Marked(r, mark, step.id), Suspended) else (r, Failing(REASON))
      case Cancels => (r, Cancelling)
      case Breaks(msg) => (r, Failing(msg))
  }

  function NewTasks(step: Step, reply: Reply): nat
  {
    if step.kind.WaitForSignal? && reply.Pauses? && reply.mark.ForSignal? && reply.mark.task then 1 else 0
  }

  function Attempts(step: Step): (n: nat)
    ensures n >= 1
  {
    if step.maxAttempts > 1 then step.maxAttempts else 1
  }

  /** One call of the handler. */
  function Once(env: Env, w: World, snap: Run, step: Step): (World, Outcome)
  {
    var reply := env.reply(w.calls, step.id);
    var (r', out) := Execute(w.run, snap, step, reply);
    (w.(run := r', calls := w.calls + 1, openTasks := w.openTasks + NewTasks(step, reply)), out)
  }

  function LogRetry(w: World, step: Step, n: nat): World
  {
    w.(events := w.events + [Event(StepRetried, step.id, n)])
  }

  /** executeStep from attempt number n (from zero) on. */
  function Attempt(env: Env, w: World, snap: Run, step: Step, n: nat): (World, Outcome)
    requires n < Attempts(step)
    decreases Attempts(step) - n
  {
    var (w1, out) := Once(env, w, snap, step);
    if !out.Failing? || n == Attempts(step) - 1 then (w1, out)
    else
      var w2 := LogRetry(w1, step, n + 1);
      if env.abandoned(w2.calls) then (w2, Failing(REASON)) else Attempt(env, w2, snap, step, n + 1)
  }

  // ------------------------------------------------- one iteration

  function Iterate(def: Definition, env: Env, w: World): Turn
  {
    if w.run.state.IsTerminal() then Stop(w, Ok)
    else if w.run.state.Paused? then WakeTurn(def, env, w)
    else StepTurn(def, env, w)
  }

  predicate WakeupDue(r: Run, now: Time)
  {
    r.wakeup.Some? && r.wakeup.value <= now
  }

  predicate NoMarkers(r: Run)
  {
    r.wakeup.None? && r.signal.None? && r.topic.None?
  }

  predicate OnFanOut(def: Definition, id: Key)
  {
    StepById(def.steps, id).Some? && StepById(def.steps, id).value.kind.FanOut?
  }

  /** On a fan-out step whose join is not met. */
  predicate ChildrenStillRunning(def: Definition, id: Key, env: Env)
  {
    OnFanOut(def, id) && !Join.Met(env.join, env.children)
  }

  function WakeTurn(def: Definition, env: Env, w: World): Turn
  {
    var r := w.run;
    if WakeupDue(r, env.now) then LeaveTurn(def, w, r.signal.Some? || r.topic.Some?)
    else if !NoMarkers(r) then Stop(w, Ok)
    else if ChildrenStillRunning(def, r.current, env) then Stop(w, Ok)
    else LeaveTurn(def, w, false)
  }

  /** Where a waking run goes: a timeout takes its branch if there is one. */
  function WakeNext(step: Step, timedOut: bool): Key
  {
    if timedOut && TIMEOUT in step.branches && step.branches[TIMEOUT] != [] then step.branches[TIMEOUT] else step.next
  }

  function LeaveTurn(def: Definition, w: World, timedOut: bool): Turn
  {
    var w1 := w.(run := ClearedPause(w.run));
    match StepById(def.steps, w.run.current)
    case None => Stop(w1, Error)
    case Some(step) =>
      var w2 := w1.(events := w1.events + [Event(StepSucceeded, step.id, 0)]);
      var next := WakeNext(step, timedOut);
      if next == [] then Stop(w2, Error) else Again(w2.(run := SetState(w2.run, Running, next)))
  }

  function Dispatched(w: World, step: Step): World
  {
    w.(events := w.events + [Event(StepDispatched, step.id, 0)], run := SetState(w.run, Running, step.id))
  }

  function Completes(w: World, step: Step): World
  {
    w.(events := w.events + [Event(StepSucceeded, step.id, 0), Event(RunSucceeded, [], 0)],
       run := SetState(w.run, Succeeded, []),
       joinChecks := w.joinChecks + 1)
  }

  function LicenseRejects(w: World, step: Step): World
  {
    w.(events := w.events + [Event(LicenseRejected, step.id, 0)], run := MarkedFailed(w.run, step.id, REASON))
  }

  /** The step an iteration runs. */
  function At(def: Definition, r: Run): Key
  {
    if r.current == [] then def.start else r.current
  }

  function Started(w: World): World
  {
    if w.run.state.Pending? then w.(events := w.events + [Event(SagaStarted, [], 0)]) else w
  }

  function StepTurn(def: Definition, env: Env, w: World): Turn
  {
    var w0 := Started(w);
    match StepById(def.steps, At(def, w.run))
    case None => Stop(w0, Error)
    case Some(step) =>
      var w1 := Dispatched(w0, step);
      if step.kind.End? then Stop(Completes(w1, step), Ok)
      else if step.kind.Unregistered? then Stop(w1, Error)
      else if env.license(w1.calls).Rejected? then Stop(LicenseRejects(w1, step), Error)
      else HandlerTurn(def, env, w1, w.run, step)
  }

  /** The handler and what follows from its answer. */
  function HandlerTurn(def: Definition, env: Env, w: World, snap: Run, step: Step): Turn
  {
    var (w', out) := Attempt(env, w, snap, step, 0);
    AfterStep(def, env, w', snap, step, out)
  }

  function AfterStep(def: Definition, env: Env, w: World, snap: Run, step: Step, out: Outcome): Turn
  {
    match out
    case Suspended => Stop(w.(events := w.events + [Event(StepPaused, step.id, 0)]), Ok)
    case Cancelling =>
      Stop(w.(events := w.events + [Event(RunCancelled, [], 0)],
              run := SetState(w.run, Cancelled, step.id),
              joinChecks := w.joinChecks + 1), Ok)
    case Failing(msg) =>
      if w.run.frames != [] then Again(Caught(Popped(w), step, msg, w.run.frames[|w.run.frames| - 1]))
      else Stop(FailRun(def, env, w, snap, step, msg), Error)
    case Done(entries) => SucceedTurn(w, step, entries)
  }

  function Popped(w: World): World
    requires w.run.frames != []
  {
    w.(run := w.run.(frames := w.run.frames[..|w.run.frames| - 1]))
  }

  /** The frame popped for a failure takes it. */
  function Caught(w: World, step: Step, msg: Msg, frame: Frame): World
  {
    var error := Map(map[STEP_ID := Str(step.id), MESSAGE := Str(msg)]);
    w.(run := SetState(w.run.(vars := Put(w.run.vars, Segments(ERROR), error)), Running, frame.catchStep),
       events := w.events + [Event(StepCaught, step.id, 0)])
  }

  /** compensate: the log of the run decides what to undo. */
  function Compensated(def: Definition, transport: Transport, w: World, current: Key, failed: Key): World
  {
    var completed := Completed(def.steps, w.events, failed);
    if completed == [] then w
    else w.(run := SetState(w.run, Compensating, current),
            events := w.events + [Event(CompensationStarted, failed, 0)],
            undo := w.undo + UndoLog(completed, |w.undo|, transport))
  }

  function FailRun(def: Definition, env: Env, w: World, snap: Run, step: Step, msg: Msg): World
  {
    var w1 := w.(events := w.events + [Event(StepFailed, step.id, 0)]);
    var w2 := Compensated(def, env.transport, w1, snap.current, step.id);
    w2.(run := MarkedFailed(w2.run, step.id, REASON + msg), joinChecks := w2.joinChecks + 1)
  }

  /** result["branch"] when it is a non-empty string. */
  function BranchOf(entries: seq<Pair>): Option<Key>
    decreases |entries|
  {
    if entries == [] then None
    else if entries[0].key == BRANCH then
      if entries[0].value.Str? && entries[0].value.s != [] then Some(entries[0].value.s) else None
    else BranchOf(entries[1..])
  }

  /** The step after a success; None when a required branch is missing. */
  function NextStep(step: Step, entries: seq<Pair>): Option<Key>
  {
    match BranchOf(entries)
    case None => Some(step.next)
    case Some(b) =>
      if b in step.branches then Some(step.branches[b])
      else if step.kind.Choice? || step.kind.While? then None
      else Some(step.next)
  }

  function SucceedTurn(w: World, step: Step, entries: seq<Pair>): Turn
  {
    var w1 := w.(run := w.run.(vars := ApplyPairs(w.run.vars, entries)),
                 events := w.events + [Event(StepSucceeded, step.id, 0)]);
    match NextStep(step, entries)
    case None => Stop(w1, Error)
    case Some(next) => if next == [] then Stop(w1, Error) else Again(w1.(run := SetState(w1.run, Running, next)))
  }

  /** Only the context ends a call with ContextDone. */
  lemma StopsForReal(def: Definition, env: Env, w: World)
    ensures Iterate(def, env, w).Stop? ==> !Iterate(def, env, w).result.ContextDone?
  {
  }

  // ------------------------------------------------- the whole call

  /** The loop over any kind of iteration; the context is cancelled after
      `budget` of them. */
  function Drive(next: World -> Turn, w: World, budget: nat): (World, Result)
    decreases budget
  {
    if budget == 0 then (w, ContextDone)
    else match next(w)
      case Stop(w', result) => (w', result)
      case Again(w') => Drive(next, w', budget - 1)
  }

  function Iteration(def: Definition, env: Env): World -> Turn
  {
    (w: World) => Iterate(def, env, w)
  }

  /** Advance. */
  function Loop(def: Definition, env: Env, w: World, budget: nat): (World, Result)
  {
    Drive(Iteration(def, env), w, budget)
  }

  /** What every iteration keeps, and turns into `end` when it stops, the whole
      call does. */
  lemma {:induction false} DriveKeeps(next: World -> Turn, inv: World -> bool, end: (World, Result) -> bool, w: World,
                                      budget: nat)
    requires inv(w)
    requires forall x :: inv(x) ==> match next(x)
                                    case Again(x') => inv(x')
                                    case Stop(x', result) => end(x', result) && !result.ContextDone?
    ensures var (w', result) := Drive(next, w, budget);
            if result.ContextDone? then inv(w') else end(w', result)
    decreases budget
  {
    if budget > 0 && next(w).Again? {
      DriveKeeps(next, inv, end, next(w).w, budget - 1);
    }
  }
}
