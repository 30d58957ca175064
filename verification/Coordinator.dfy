/** Advance as the engine runs it: a loop over a shared store that re-reads the
    run in every iteration. Each method is proved to do to the run it works on
    exactly what module Engine says, and nothing to any other run. */
module Coordination {
  import opened Domain
  import opened DottedKeys
  import opened Runs
  import opened Rollback
  import opened Engine
  import opened Lifecycle
  import Join

  datatype StoredSignal = StoredSignal(name: Key, consumed: bool)

  /** The stored signals of a run once those of one name are consumed. */
  function ConsumedAll(signals: seq<StoredSignal>, name: Key): (r: seq<StoredSignal>)
    ensures |r| == |signals|
    ensures forall i :: 0 <= i < |r| ==>
              && r[i].name == signals[i].name
              && (r[i].consumed <==> signals[i].consumed || signals[i].name == name)
  {
    seq(|signals|, i requires 0 <= i < |signals| =>
      if signals[i].name == name then signals[i].(consumed := true) else signals[i])
  }

  /** The in-memory store; its mutex makes every method atomic. */
  class Store {
    var runs: map<RunId, Run>
    var events: map<RunId, seq<Event>>
    var tasks: map<RunId, nat>           // user tasks not submitted
    var signals: map<RunId, seq<StoredSignal>>

    constructor ()
      ensures runs == map[] && events == map[] && tasks == map[] && signals == map[]
    {
      runs, events, tasks, signals := map[], map[], map[], map[];
    }

    function EventsOf(id: RunId): seq<Event>
      reads this
    {
      if id in events then events[id] else []
    }

    function TasksOf(id: RunId): nat
      reads this
    {
      if id in tasks then tasks[id] else 0
    }

    function SignalsOf(id: RunId): seq<StoredSignal>
      reads this
    {
      if id in signals then signals[id] else []
    }

    /** Everything stored about the runs other than id, but for their signals. */
    function Others(id: RunId): (map<RunId, Run>, map<RunId, seq<Event>>, map<RunId, nat>)
      reads this
    {
      (runs - {id}, events - {id}, tasks - {id})
    }

    method CreateRun(id: RunId, run: Run)
      modifies this`runs
      ensures runs == old(runs)[id := run]
      ensures Others(id) == old(Others(id))
    {
      runs := runs[id := run];
      assert runs - {id} == old(runs) - {id};
    }

    method GetRun(id: RunId) returns (run: Option<Run>)
      ensures run == if id in runs then Some(runs[id]) else None
    {
      run := if id in runs then Some(runs[id]) else None;
    }

    method UpdateRunState(id: RunId, state: RunState, current: Key) returns (found: bool)
      modifies this`runs
      ensures found == (id in old(runs))
      ensures runs == if found then old(runs)[id := SetState(old(runs)[id], state, current)] else old(runs)
      ensures Others(id) == old(Others(id))
    {
      if id !in runs {
        return false;
      }
      var r := runs[id];
      r := r.(state := state);
      r := r.(current := current);
      runs := runs[id := r];
      assert runs - {id} == old(runs) - {id};
      found := true;
    }

    method ClearPause(id: RunId) returns (found: bool)
      modifies this`runs
      ensures found == (id in old(runs))
      ensures runs == if found then old(runs)[id := ClearedPause(old(runs)[id])] else old(runs)
      ensures Others(id) == old(Others(id))
    {
      if id !in runs {
        return false;
      }
      var r := runs[id];
      r := r.(state := Running);
      r := r.(wakeup := None, signal := None, topic := None);
      runs := runs[id := r];
      assert runs - {id} == old(runs) - {id};
      found := true;
    }

    method MarkRunFailed(id: RunId, current: Key, error: Msg) returns (found: bool)
      modifies this`runs
      ensures found == (id in old(runs))
      ensures runs == if found then old(runs)[id := MarkedFailed(old(runs)[id], current, error)] else old(runs)
      ensures Others(id) == old(Others(id))
    {
      if id !in runs {
        return false;
      }
      var r := runs[id];
      if r.state.IsTerminal() {
        return true;
      }
      r := r.(state := Failed, current := current);
      if error != [] {
        r := r.(lastError := Some(error));
      }
      runs := runs[id := r];
      assert runs - {id} == old(runs) - {id};
      found := true;
    }

    method AppendEvent(id: RunId, e: Event)
      modifies this`events
      ensures events == old(events)[id := old(EventsOf(id)) + [e]]
      ensures Others(id) == old(Others(id))
    {
      events := events[id := EventsOf(id) + [e]];
      assert events - {id} == old(events) - {id};
    }

    method UpdateRunVariables(id: RunId, entries: seq<Pair>) returns (found: bool)
      modifies this`runs
      ensures found == (id in old(runs))
      ensures runs == if found
                      then old(runs)[id := old(runs)[id].(vars := ApplyPairs(old(runs)[id].vars, entries))]
                      else old(runs)
      ensures Others(id) == old(Others(id))
    {
      if id !in runs {
        return false;
      }
      var vars := runs[id].vars;
      var i := 0;
      assert entries[0..] == entries;
      while i < |entries|
        invariant 0 <= i <= |entries|
        invariant runs == old(runs)
        invariant ApplyPairs(vars, entries[i..]) == ApplyPairs(runs[id].vars, entries)
      {
        assert entries[i..][1..] == entries[i + 1..];
        var parts := SplitKey(entries[i].key);
        vars := Put(vars, parts, entries[i].value);
        i := i + 1;
      }
      runs := runs[id := runs[id].(vars := vars)];
      assert runs - {id} == old(runs) - {id};
      found := true;
    }

    /** SetPausedWithWakeup, SetPausedAwaitingSignal, SetPausedAwaitingEvent and
        the plain paused state of join and the fan-out verbs. */
    method SetPaused(id: RunId, mark: Mark, current: Key) returns (found: bool)
      modifies this`runs
      ensures found == (id in old(runs))
      ensures runs == if found then old(runs)[id := Marked(old(runs)[id], mark, current)] else old(runs)
      ensures Others(id) == old(Others(id))
    {
      if id !in runs {
        return false;
      }
      var r := runs[id];
      r := r.(state := Paused);
      match mark {
        case Until(at) => r := r.(wakeup := Some(at));
        case ForSignal(name, deadline, _) =>
          r := r.(signal := Some(name));
          if deadline.Some? {
            r := r.(wakeup := deadline);
          }
        case ForEvent(topic, deadline) => r := r.(topic := Some(topic), wakeup := deadline);
        case NoMarker => r := r.(current := current);
      }
      runs := runs[id := r];
      assert runs - {id} == old(runs) - {id};
      found := true;
    }

    method CreateUserTask(id: RunId)
      modifies this`tasks
      ensures tasks == old(tasks)[id := old(TasksOf(id)) + 1]
      ensures Others(id) == old(Others(id))
    {
      tasks := tasks[id := TasksOf(id) + 1];
      assert tasks - {id} == old(tasks) - {id};
    }

    method MarkAwaitingAction(id: RunId, action: Key, attempt: int) returns (found: bool)
      modifies this`runs
      ensures found == (id in old(runs))
      ensures runs == if found then old(runs)[id := AwaitingAction(old(runs)[id], action, attempt)] else old(runs)
      ensures Others(id) == old(Others(id))
    {
      if id !in runs {
        return false;
      }
      var r := runs[id];
      if r.attempt == attempt && r.dispatch.Some? && r.dispatch.value == action {
        return true;
      }
      runs := runs[id := r.(state := Paused, dispatch := Some(action), attempt := attempt)];
      assert runs - {id} == old(runs) - {id};
      found := true;
    }

    method PushTryCatch(id: RunId, frame: Frame) returns (pushed: bool)
      modifies this`runs
      ensures pushed == (id in old(runs) && |old(runs)[id].frames| < MAX_FRAMES)
      ensures runs == if pushed
                      then old(runs)[id := old(runs)[id].(frames := old(runs)[id].frames + [frame])]
                      else old(runs)
      ensures Others(id) == old(Others(id))
    {
      if id !in runs || |runs[id].frames| >= MAX_FRAMES {
        return false;
      }
      runs := runs[id := runs[id].(frames := runs[id].frames + [frame])];
      assert runs - {id} == old(runs) - {id};
      pushed := true;
    }

    method PopTryCatch(id: RunId) returns (top: Option<Frame>)
      modifies this`runs
      ensures top == if id in old(runs) && old(runs)[id].frames != []
                     then Some(old(runs)[id].frames[|old(runs)[id].frames| - 1]) else None
      ensures runs == if top.Some?
                      then old(runs)[id := old(runs)[id].(frames := old(runs)[id].frames[..|old(runs)[id].frames| - 1])]
                      else old(runs)
      ensures Others(id) == old(Others(id))
    {
      if id !in runs || runs[id].frames == [] {
        return None;
      }
      var frames := runs[id].frames;
      top := Some(frames[|frames| - 1]);
      runs := runs[id := runs[id].(frames := frames[..|frames| - 1])];
      assert runs - {id} == old(runs) - {id};
    }

    /** The store's part of a cancel: state, markers and open tasks at once. */
    method Cancel(id: RunId, reason: Msg) returns (found: bool)
      modifies this`runs, this`events, this`tasks
      ensures found == (id in old(runs))
      ensures runs == if found then old(runs)[id := CancelledRun(old(runs)[id], reason)] else old(runs)
      ensures var live := found && !old(runs)[id].state.IsTerminal();
              && TasksOf(id) == (if live then 0 else old(TasksOf(id)))
              && EventsOf(id)
                 == old(EventsOf(id)) + if live then [Event(RunCancelled, old(runs)[id].current, 0)] else []
      ensures Others(id) == old(Others(id))
    {
      if id !in runs {
        return false;
      }
      var r := runs[id];
      if r.state.IsTerminal() {
        return true;
      }
      r := r.(state := Cancelled);
      if reason != [] {
        r := r.(lastError := Some(reason));
      }
      r := r.(wakeup := None, signal := None, topic := None, dispatch := None);
      runs := runs[id := r];
      assert runs - {id} == old(runs) - {id};
      tasks := tasks[id := 0];
      assert tasks - {id} == old(tasks) - {id};
      AppendEvent(id, Event(RunCancelled, r.current, 0));
      found := true;
    }

    method AppendSignal(id: RunId, name: Key)
      modifies this`signals
      ensures signals == old(signals)[id := old(SignalsOf(id)) + [StoredSignal(name, false)]]
    {
      signals := signals[id := SignalsOf(id) + [StoredSignal(name, false)]];
    }

    method TryConsumeAwaitedSignal(id: RunId, name: Key) returns (ok: bool)
      modifies this`runs, this`signals
      ensures ok == (id in old(runs) && Consumes(old(runs)[id], name))
      ensures runs == if ok then old(runs)[id := Woken(old(runs)[id])] else old(runs)
      ensures signals == if ok && id in old(signals)
                         then old(signals)[id := ConsumedAll(old(signals)[id], name)] else old(signals)
      ensures Others(id) == old(Others(id))
    {
      if id !in runs || !runs[id].state.Paused? || runs[id].signal.None? || runs[id].signal.value != name {
        return false;
      }
      var r := runs[id];
      r := r.(signal := None, topic := None, wakeup := None);
      if id in signals {
        var sigs := signals[id];
        for i := 0 to |sigs|
          invariant |sigs| == |signals[id]|
          invariant forall j :: 0 <= j < i ==> sigs[j] == ConsumedAll(signals[id], name)[j]
          invariant forall j :: i <= j < |sigs| ==> sigs[j] == signals[id][j]
        {
          if sigs[i].name == name && !sigs[i].consumed {
            sigs := sigs[i := sigs[i].(consumed := true)];
          }
        }
        assert sigs == ConsumedAll(signals[id], name);
        signals := signals[id := sigs];
      }
      runs := runs[id := r];
      assert runs - {id} == old(runs) - {id};
      ok := true;
    }

    method WakeFromExternal(id: RunId) returns (found: bool)
      modifies this`runs
      ensures found == (id in old(runs))
      ensures runs == if found then old(runs)[id := Woken(old(runs)[id])] else old(runs)
      ensures Others(id) == old(Others(id))
    {
      if id !in runs {
        return false;
      }
      runs := runs[id := runs[id].(signal := None, topic := None, wakeup := None)];
      assert runs - {id} == old(runs) - {id};
      found := true;
    }

    method CompleteAction(id: RunId, attempt: int, now: Time, result: Vars) returns (found: bool)
      modifies this`runs
      ensures found == (id in old(runs))
      ensures runs == if found then old(runs)[id := CompletedAction(old(runs)[id], attempt, now, result)] else old(runs)
      ensures Others(id) == old(Others(id))
    {
      if id !in runs {
        return false;
      }
      var r := runs[id];
      if r.attempt != attempt {
        return true;
      }
      r := r.(dispatch := None, wakeup := Some(now));
      r := r.(vars := r.vars + result);
      runs := runs[id := r];
      assert runs - {id} == old(runs) - {id};
      found := true;
    }

    method FailAction(id: RunId, attempt: int, message: Msg) returns (found: bool)
      modifies this`runs, this`events
      ensures found == (id in old(runs))
      ensures runs == if found then old(runs)[id := FailedAction(old(runs)[id], attempt, message)] else old(runs)
      ensures EventsOf(id) == old(EventsOf(id))
                              + if found && old(runs)[id].attempt == attempt
                                then [Event(EventKind.StepFailed, old(runs)[id].current, attempt)] else []
      ensures Others(id) == old(Others(id))
    {
      if id !in runs {
        return false;
      }
      var r := runs[id];
      if r.attempt != attempt {
        return true;
      }
      r := r.(dispatch := None, state := Failed);
      if message != [] {
        r := r.(lastError := Some(message));
      }
      runs := runs[id := r];
      assert runs - {id} == old(runs) - {id};
      AppendEvent(id, Event(EventKind.StepFailed, r.current, attempt));
      found := true;
    }
  }

  lemma AttemptGoesOn(env: Env, w: World, snap: Run, step: Step, n: nat)
    requires n + 1 < Attempts(step) && Engine.Once(env, w, snap, step).1.Failing?
    ensures var w' := Engine.LogRetry(Engine.Once(env, w, snap, step).0, step, n + 1);
            Attempt(env, w, snap, step, n)
              == if env.abandoned(w'.calls) then (w', Failing(REASON)) else Attempt(env, w', snap, step, n + 1)
  {
  }

  class Coordinator {
    const store: Store
    const dispatcher: Dispatcher
    var calls: nat
    var joinChecks: nat
    var published: nat                   // advance messages

    constructor (store: Store)
      ensures this.store == store && fresh(dispatcher) && dispatcher.undo == []
      ensures calls == 0 && joinChecks == 0 && published == 0
    {
      this.store := store;
      dispatcher := new Dispatcher();
      calls, joinChecks, published := 0, 0, 0;
    }

    /** The run and what the coordinator has done so far, as module Engine sees them. */
    function View(id: RunId): World
      requires id in store.runs
      reads this, store, dispatcher
    {
      World(store.runs[id], store.EventsOf(id), calls, dispatcher.undo, joinChecks, store.TasksOf(id))
    }

    /** A handler: the writes each verb makes through the store. */
    method Execute(id: RunId, snap: Run, step: Step, env: Env) returns (out: Outcome)
      requires id in store.runs
      modifies this`calls, store`runs, store`events, store`tasks
      ensures calls == old(calls) + 1
      ensures var (r, o) := Engine.Execute(old(store.runs)[id], snap, step, env.reply(old(calls), step.id));
              out == o && store.runs == old(store.runs)[id := r]
      ensures store.events == old(store.events) && store.Others(id) == old(store.Others(id))
      ensures store.TasksOf(id) == old(store.TasksOf(id)) + NewTasks(step, env.reply(old(calls), step.id))
    {
      var reply := env.reply(calls, step.id);
      calls := calls + 1;
      out := Failing(REASON);
      if reply.Breaks? && !step.kind.Action? {
        out := Failing(reply.msg);
        return;
      }
      match step.kind {
        case Action =>
          if step.action != [] && WellNamed(step.action) {
            var found := store.MarkAwaitingAction(id, step.action, snap.attempt + 1);
            out := if reply.Breaks? then Failing(reply.msg) else Suspended;
          }
        case While =>
          if Iterations(snap.vars, step.id) < MaxIter(step) {
            out := Done(WhileEntries(snap.vars, step.id, reply.Holds? && reply.condition));
          }
        case TryCatch =>
          if step.catchStep != [] {
            var pushed := store.PushTryCatch(id, Frame(step.id, step.catchStep));
            out := if pushed then Done([]) else Failing(REASON);
          }
        case FanOut =>
          if reply.Return? {
            out := Done(reply.entries);
          } else {
            var found := store.UpdateRunState(id, Paused, step.id);
            out := Suspended;
          }
        case _ => out := ExecuteOther(id, step, reply);
      }
    }

    method ExecuteOther(id: RunId, step: Step, reply: Reply) returns (out: Outcome)
      requires id in store.runs
      requires !step.kind.Action? && !step.kind.While? && !step.kind.TryCatch? && !step.kind.FanOut?
      modifies store`runs, store`events, store`tasks
      ensures var (r, o) := Engine.Execute(old(store.runs)[id], old(store.runs)[id], step, reply);
              out == o && store.runs == old(store.runs)[id := r]
      ensures store.events == old(store.events) && store.Others(id) == old(store.Others(id))
      ensures store.TasksOf(id) == old(store.TasksOf(id)) + NewTasks(step, reply)
    {
      match reply {
        case Return(entries) => out := Done(entries);
        case Holds(_) => out := Done([]);
        case Cancels => out := Cancelling;
        case Breaks(msg) => out := Failing(msg);
        case Pauses(mark) =>
          if !Fits(step.kind, mark) {
            return Failing(REASON);
          }
          if NewTasks(step, reply) == 1 {
            store.CreateUserTask(id);
          }
          var found := store.SetPaused(id, mark, step.id);
          out := Suspended;
      }
    }

    /** One call of the handler, as module Engine sees it. */
    method Once(id: RunId, snap: Run, step: Step, env: Env) returns (out: Outcome)
      requires id in store.runs
      modifies this`calls, store`runs, store`events, store`tasks
      ensures id in store.runs && store.Others(id) == old(store.Others(id))
      ensures (View(id), out) == Engine.Once(env, old(View(id)), snap, step)
    {
      out := Execute(id, snap, step, env);
    }

    method LogRetry(id: RunId, step: Step, n: nat)
      requires id in store.runs
      modifies store`events
      ensures store.Others(id) == old(store.Others(id))
      ensures View(id) == Engine.LogRetry(old(View(id)), step, n)
    {
      store.AppendEvent(id, Event(StepRetried, step.id, n));
    }

    /** One round of the retry loop: the answer is final, or the loop goes on. */
    method ExecuteOnce(id: RunId, snap: Run, step: Step, env: Env, attempt: nat) returns (out: Outcome, again: bool)
      requires id in store.runs && attempt < Attempts(step)
      modifies this`calls, store`runs, store`events, store`tasks
      ensures id in store.runs && store.Others(id) == old(store.Others(id))
      ensures again ==>
                && attempt + 1 < Attempts(step)
                && Attempt(env, View(id), snap, step, attempt + 1) == Attempt(env, old(View(id)), snap, step, attempt)
      ensures !again ==> (View(id), out) == Attempt(env, old(View(id)), snap, step, attempt)
    {
      ghost var w := View(id);
      out := Once(id, snap, step, env);
      if !out.Failing? || attempt == Attempts(step) - 1 {
        return out, false;
      }
      LogRetry(id, step, attempt + 1);
      AttemptGoesOn(env, w, snap, step, attempt);
      if env.abandoned(calls) {
        return Failing(REASON), false;
      }
      again := true;
    }

    /** executeStep: the handler, retried under the step's policy. */
    method ExecuteStep(id: RunId, snap: Run, step: Step, env: Env) returns (out: Outcome)
      requires id in store.runs
      modifies this`calls, store`runs, store`events, store`tasks
      ensures id in store.runs && store.Others(id) == old(store.Others(id))
      ensures (View(id), out) == Attempt(env, old(View(id)), snap, step, 0)
    {
      var maxAttempts := 1;
      if step.maxAttempts > 1 {
        maxAttempts := step.maxAttempts;
      }
      var attempt := 0;
      while true
        invariant 0 <= attempt < maxAttempts == Attempts(step)
        invariant id in store.runs && store.Others(id) == old(store.Others(id))
        invariant Attempt(env, View(id), snap, step, attempt) == Attempt(env, old(View(id)), snap, step, 0)
        decreases maxAttempts - attempt
      {
        var again: bool;
        out, again := ExecuteOnce(id, snap, step, env, attempt);
        if !again {
          return;
        }
        attempt := attempt + 1;
      }
    }

    method ChildrenStillRunning(def: Definition, current: Key, env: Env) returns (waiting: bool)
      ensures waiting == Engine.ChildrenStillRunning(def, current, env)
    {
      var step := StepById(def.steps, current);
      if step.None? || !step.value.kind.FanOut? {
        return false;
      }
      var met := Join.JoinConditionMet(env.join, env.children);
      waiting := !met;
    }

    /** The part of Advance for a paused run; None means that the loop goes on. */
    method WakePaused(id: RunId, def: Definition, env: Env) returns (result: Option<Result>)
      requires id in store.runs && store.runs[id].state.Paused?
      modifies store`runs, store`events, store`tasks
      ensures id in store.runs && store.Others(id) == old(store.Others(id))
      ensures AsTurn(View(id), result) == WakeTurn(def, env, old(View(id)))
    {
      var run := store.runs[id];
      var wakeupDue := run.wakeup.Some? && run.wakeup.value <= env.now;
      var noPendingAwaits := run.signal.None? && run.topic.None?;
      var externalWake := noPendingAwaits && run.wakeup.None?;
      if !wakeupDue && !externalWake {
        return Some(Ok);
      }
      var timedOut := wakeupDue && (run.signal.Some? || run.topic.Some?);
      if !wakeupDue {
        var waiting := ChildrenStillRunning(def, run.current, env);
        if waiting {
          return Some(Ok);
        }
      }
      var found := store.ClearPause(id);
      var step := StepById(def.steps, run.current);
      if step.None? {
        return Some(Error);
      }
      store.AppendEvent(id, Event(StepSucceeded, step.value.id, 0));
      var next := step.value.next;
      if timedOut && TIMEOUT in step.value.branches && step.value.branches[TIMEOUT] != [] {
        next := step.value.branches[TIMEOUT];
      }
      if next == [] {
        return Some(Error);
      }
      found := store.UpdateRunState(id, Running, next);
      result := None;
    }

    /** completeRun. */
    method CompleteRun(id: RunId, step: Step)
      requires id in store.runs
      modifies this`joinChecks, store`runs, store`events, store`tasks
      ensures id in store.runs && store.Others(id) == old(store.Others(id))
      ensures View(id) == Engine.Completes(old(View(id)), step)
    {
      store.AppendEvent(id, Event(StepSucceeded, step.id, 0));
      store.AppendEvent(id, Event(RunSucceeded, [], 0));
      var found := store.UpdateRunState(id, Succeeded, []);
      joinChecks := joinChecks + 1;
    }

    /** compensate: a no-op when nothing completed. */
    method Compensate(id: RunId, def: Definition, transport: Transport, current: Key, failed: Key)
      requires id in store.runs
      modifies store`runs, store`events, store`tasks, dispatcher
      ensures id in store.runs && store.Others(id) == old(store.Others(id))
      ensures View(id) == Compensated(def, transport, old(View(id)), current, failed)
    {
      var completed := CompletedCompensableSteps(def.steps, store.EventsOf(id), failed);
      if completed == [] {
        return;
      }
      var found := store.UpdateRunState(id, Compensating, current);
      store.AppendEvent(id, Event(CompensationStarted, failed, 0));
      var compensated, skipped, broken := dispatcher.Compensate(completed, transport);
    }

    /** A try_catch frame, just popped, takes the error. */
    method Catch(id: RunId, step: Step, msg: Msg, frame: Frame)
      requires id in store.runs
      modifies store`runs, store`events, store`tasks
      ensures id in store.runs && store.Others(id) == old(store.Others(id))
      ensures View(id) == Caught(old(View(id)), step, msg, frame)
    {
      var error := Map(map[STEP_ID := Str(step.id), MESSAGE := Str(msg)]);
      var entries := [Pair(ERROR, error)];
      assert ApplyPairs(store.runs[id].vars, entries) == Put(store.runs[id].vars, Segments(ERROR), error) by {
        assert entries[1..] == [];
      }
      var found := store.UpdateRunVariables(id, entries);
      store.AppendEvent(id, Event(StepCaught, step.id, 0));
      found := store.UpdateRunState(id, Running, frame.catchStep);
    }

    /** No frame: roll back and fail. */
    method Fail(id: RunId, def: Definition, env: Env, snap: Run, step: Step, msg: Msg)
      requires id in store.runs
      modifies this`joinChecks, store`runs, store`events, store`tasks, dispatcher
      ensures id in store.runs && store.Others(id) == old(store.Others(id))
      ensures View(id) == FailRun(def, env, old(View(id)), snap, step, msg)
    {
      ghost var w := View(id);
      store.AppendEvent(id, Event(StepFailed, step.id, 0));
      assert View(id) == w.(events := w.events + [Event(StepFailed, step.id, 0)]);
      Compensate(id, def, env.transport, snap.current, step.id);
      var found := store.MarkRunFailed(id, step.id, REASON + msg);
      joinChecks := joinChecks + 1;
    }

    method OnFailure(id: RunId, def: Definition, env: Env, snap: Run, step: Step, msg: Msg)
      returns (result: Option<Result>)
      requires id in store.runs
      modifies this`joinChecks, store`runs, store`events, store`tasks, dispatcher
      ensures id in store.runs && store.Others(id) == old(store.Others(id))
      ensures AsTurn(View(id), result) == AfterStep(def, env, old(View(id)), snap, step, Failing(msg))
    {
      var frame := store.PopTryCatch(id);
      if frame.Some? {
        Catch(id, step, msg, frame.value);
        result := None;
      } else {
        Fail(id, def, env, snap, step, msg);
        result := Some(Error);
      }
    }

    /** The success path: variables, event, next step. */
    method SucceedStep(id: RunId, step: Step, entries: seq<Pair>) returns (result: Option<Result>)
      requires id in store.runs
      modifies store`runs, store`events, store`tasks
      ensures id in store.runs && store.Others(id) == old(store.Others(id))
      ensures AsTurn(View(id), result) == SucceedTurn(old(View(id)), step, entries)
    {
      if |entries| > 0 {
        var found := store.UpdateRunVariables(id, entries);
      }
      store.AppendEvent(id, Event(StepSucceeded, step.id, 0));
      var next := step.next;
      var branch := BranchOf(entries);
      if branch.Some? {
        if branch.value in step.branches {
          next := step.branches[branch.value];
        } else if step.kind.Choice? || step.kind.While? {
          return Some(Error);
        }
      }
      if next == [] {
        return Some(Error);
      }
      var found := store.UpdateRunState(id, Running, next);
      result := None;
    }

    /** What Advance does with the answer of the handler. */
    method Settle(id: RunId, def: Definition, env: Env, snap: Run, step: Step, out: Outcome)
      returns (result: Option<Result>)
      requires id in store.runs
      modifies this`joinChecks, store`runs, store`events, store`tasks, dispatcher
      ensures id in store.runs && store.Others(id) == old(store.Others(id))
      ensures AsTurn(View(id), result) == AfterStep(def, env, old(View(id)), snap, step, out)
    {
      match out {
        case Suspended =>
          store.AppendEvent(id, Event(StepPaused, step.id, 0));
          result := Some(Ok);
        case Cancelling =>
          store.AppendEvent(id, Event(RunCancelled, [], 0));
          var found := store.UpdateRunState(id, Cancelled, step.id);
          joinChecks := joinChecks + 1;
          result := Some(Ok);
        case Failing(msg) => result := OnFailure(id, def, env, snap, step, msg);
        case Done(entries) => result := SucceedStep(id, step, entries);
      }
    }

    /** Dispatch: the bookkeeping before the handler runs. */
    method Dispatch(id: RunId, step: Step)
      requires id in store.runs
      modifies store`runs, store`events, store`tasks
      ensures id in store.runs && store.Others(id) == old(store.Others(id))
      ensures View(id) == Dispatched(old(View(id)), step)
    {
      store.AppendEvent(id, Event(StepDispatched, step.id, 0));
      var found := store.UpdateRunState(id, Running, step.id);
    }

    method RejectLicense(id: RunId, step: Step)
      requires id in store.runs
      modifies store`runs, store`events, store`tasks
      ensures id in store.runs && store.Others(id) == old(store.Others(id))
      ensures View(id) == LicenseRejects(old(View(id)), step)
    {
      store.AppendEvent(id, Event(LicenseRejected, step.id, 0));
      var found := store.MarkRunFailed(id, step.id, REASON);
    }

    /** The part of Advance for a run that is not paused. */
    method RunStep(id: RunId, def: Definition, env: Env) returns (result: Option<Result>)
      requires id in store.runs
      modifies this`calls, this`joinChecks, store`runs, store`events, store`tasks, dispatcher
      ensures id in store.runs && store.Others(id) == old(store.Others(id))
      ensures AsTurn(View(id), result) == StepTurn(def, env, old(View(id)))
    {
      var run := store.runs[id];
      var stepId := run.current;
      if stepId == [] {
        stepId := def.start;
      }
      if run.state.Pending? {
        store.AppendEvent(id, Event(SagaStarted, [], 0));
      }
      var found := StepById(def.steps, stepId);
      if found.None? {
        return Some(Error);
      }
      var step := found.value;
      Dispatch(id, step);
      if step.kind.End? {
        CompleteRun(id, step);
        return Some(Ok);
      }
      if step.kind.Unregistered? {
        return Some(Error);
      }
      if env.license(calls).Rejected? {
        RejectLicense(id, step);
        return Some(Error);
      }
      var out := ExecuteStep(id, run, step, env);
      result := Settle(id, def, env, run, step, out);
    }

    /** Advance. The context is cancelled after `budget` iterations. */
    method Advance(id: RunId, def: Definition, env: Env, budget: nat) returns (result: Result)
      modifies this`calls, this`joinChecks, store`runs, store`events, store`tasks, dispatcher
      ensures store.Others(id) == old(store.Others(id))
      ensures id in store.runs <==> id in old(store.runs)
      ensures id in store.runs ==> (View(id), result) == Loop(def, env, old(View(id)), budget)
      ensures id !in store.runs ==> unchanged(store) && result == if budget == 0 then ContextDone else Error
    {
      var left := budget;
      while left > 0
        invariant store.Others(id) == old(store.Others(id))
        invariant id in store.runs <==> id in old(store.runs)
        invariant id !in store.runs ==> unchanged(store) && left == budget
        invariant id in store.runs ==> Loop(def, env, View(id), left) == Loop(def, env, old(View(id)), budget)
      {
        left := left - 1;
        var run := store.GetRun(id);
        if run.None? {
          return Error;
        }
        if run.value.state.IsTerminal() {
          return Ok;
        }
        var stop: Option<Result>;
        if run.value.state.Paused? {
          stop := WakePaused(id, def, env);
        } else {
          stop := RunStep(id, def, env);
        }
        if stop.Some? {
          return stop.value;
        }
      }
      result := ContextDone;
    }

    /** Coordinator.Cancel; only a child's parent is checked. */
    method Cancel(id: RunId, def: Definition, reason: Msg, hasParent: bool) returns (found: bool)
      modifies this`joinChecks, store`runs, store`events, store`tasks
      ensures found == (id in old(store.runs)) && store.Others(id) == old(store.Others(id))
      ensures !found ==> id !in store.runs && joinChecks == old(joinChecks)
      ensures found ==>
                var w := old(View(id));
                var checks := if hasParent && !w.run.state.IsTerminal() then 1 else 0;
                id in store.runs && View(id) == Apply(def, w, Op.Cancel(reason)).(joinChecks := w.joinChecks + checks)
    {
      var run := store.GetRun(id);
      if run.None? {
        return false;
      }
      if run.value.state.IsTerminal() {
        return true;
      }
      found := store.Cancel(id, reason);
      if hasParent {
        joinChecks := joinChecks + 1;
      }
    }

    method CompensateFailedStep(id: RunId, def: Definition, failed: Key, transport: Transport) returns (ok: bool)
      modifies this`joinChecks, store`runs, store`events, store`tasks, dispatcher
      ensures store.Others(id) == old(store.Others(id))
      ensures ok == (id in old(store.runs)
                     && !old(store.runs)[id].state.Succeeded? && !old(store.runs)[id].state.Cancelled?)
      ensures id in store.runs <==> id in old(store.runs)
      ensures id in store.runs ==> View(id) == CompensatesFailed(def, old(View(id)), failed, transport)
    {
      var run := store.GetRun(id);
      if run.None? || run.value.state.Succeeded? || run.value.state.Cancelled? {
        return false;
      }
      var wasFailed := run.value.state.Failed?;
      Compensate(id, def, transport, run.value.current, failed);
      if wasFailed {
        var now := store.GetRun(id);
        if now.value.state.Compensating? {
          var found := store.UpdateRunState(id, Failed, run.value.current);
        }
      } else {
        var found := store.MarkRunFailed(id, failed, REASON);
      }
      joinChecks := joinChecks + 1;
      ok := true;
    }

    // ----------------------------------------------- liveness.StoreReporter

    method CheckStep(id: RunId, step: Key, attempt: int) returns (waiting: bool)
      ensures waiting == (id in store.runs && Awaited(store.runs[id], step, attempt))
    {
      var run := store.GetRun(id);
      if run.None? {
        return false;
      }
      var r := run.value;
      waiting := !(!r.state.Paused? || r.dispatch.None? || r.current != step || r.attempt != attempt);
    }

    /** The advance is published only after the result is stored, and only if
        the reporter has a publisher. */
    method CompleteStep(id: RunId, def: Definition, step: Key, attempt: int, now: Time, result: Vars, publisher: bool)
      returns (ok: bool)
      modifies this`published, store`runs, store`events, store`tasks
      ensures store.Others(id) == old(store.Others(id))
      ensures ok == (id in old(store.runs) && Awaited(old(store.runs)[id], step, attempt))
      ensures id in store.runs <==> id in old(store.runs)
      ensures id in store.runs ==> View(id) == Apply(def, old(View(id)), Op.CompleteStep(step, attempt, now, result))
      ensures published == old(published) + if ok && publisher then 1 else 0
    {
      ok := CheckStep(id, step, attempt);
      if ok {
        var found := store.CompleteAction(id, attempt, now, result);
        if publisher {
          published := published + 1;
        }
      }
    }

    method ReportFailure(id: RunId, def: Definition, step: Key, attempt: int, message: Msg,
                         compensator: Option<Transport>)
      returns (ok: bool)
      modifies this`joinChecks, store`runs, store`events, store`tasks, dispatcher
      ensures store.Others(id) == old(store.Others(id))
      ensures ok == (id in old(store.runs) && Awaited(old(store.runs)[id], step, attempt))
      ensures id in store.runs <==> id in old(store.runs)
      ensures id in store.runs ==>
                View(id) == Apply(def, old(View(id)), Op.FailStep(step, attempt, message, compensator))
    {
      ok := CheckStep(id, step, attempt);
      if ok {
        var found := store.FailAction(id, attempt, message);
        if compensator.Some? {
          var done := CompensateFailedStep(id, def, step, compensator.value);
        }
      }
    }

    /** Saga.Signal: the signal is stored in any case; if the run waits for it,
        it is consumed with all of its name, and the run advances. */
    method Signal(id: RunId, def: Definition, name: Key, env: Env, budget: nat) returns (ok: bool)
      modifies this`calls, this`joinChecks, store, dispatcher
      ensures store.Others(id) == old(store.Others(id))
      ensures ok == (id in old(store.runs) && Consumes(old(store.runs)[id], name))
      ensures id in store.runs <==> id in old(store.runs)
      ensures ok ==> View(id) == Loop(def, env, Apply(def, old(View(id)), Op.Signal(name)), budget).0
      ensures !ok && id in store.runs ==> View(id) == old(View(id))
      ensures var all := old(store.SignalsOf(id)) + [StoredSignal(name, false)];
              store.signals == old(store.signals)[id := if ok then ConsumedAll(all, name) else all]
    {
      store.AppendSignal(id, name);
      ghost var all := store.SignalsOf(id);
      ok := store.TryConsumeAwaitedSignal(id, name);
      assert store.signals == old(store.signals)[id := if ok then ConsumedAll(all, name) else all];
      if ok {
        var result := Advance(id, def, env, budget);
      }
    }
  }
}
