/** Everything that can happen to a run, each as one atomic operation, and what
    whole histories of such operations keep. */
module Lifecycle {
  import opened Domain
  import opened DottedKeys
  import opened Runs
  import opened Rollback
  import opened Engine

  datatype Op =
    | Advance(env: Env, budget: nat)           // also a timer tick and a stray message
    | Cancel(reason: Msg)
    | MarkFailed(step: Key, error: Msg)
    | Signal(name: Key)
    | EventArrives(topic: Key)
    | JoinMet                                  // checkParentJoin wakes the parent
    | CompleteStep(step: Key, attempt: int, at: Time, result: Vars)
    | FailStep(step: Key, attempt: int, message: Msg, compensator: Option<Transport>)
    | CompensateFailedStep(step: Key, transport: Transport)

  // ------------------------------------------------- the operations

  /** CheckStep. */
  predicate Awaited(r: Run, step: Key, attempt: int)
  {
    r.state.Paused? && r.dispatch.Some? && r.current == step && r.attempt == attempt
  }

  function Cancelled(w: World, reason: Msg): World
  {
    if w.run.state.IsTerminal() then w
    else w.(run := CancelledRun(w.run, reason), openTasks := 0,
            events := w.events + [Event(RunCancelled, w.run.current, 0)], joinChecks := w.joinChecks + 1)
  }

  function Reported(w: World, attempt: int, message: Msg): World
  {
    w.(run := FailedAction(w.run, attempt, message),
       events := w.events + [Event(StepFailed, w.run.current, attempt)])
  }

  function CompensatesFailed(def: Definition, w: World, step: Key, transport: Transport): World
  {
    if w.run.state.Succeeded? || w.run.state.Cancelled? then w
    else
      var w1 := Compensated(def, transport, w, w.run.current, step);
      var r := if !w.run.state.Failed? then MarkedFailed(w1.run, step, REASON)
               else if w1.run.state.Compensating? then SetState(w1.run, Failed, w.run.current)
               else w1.run;
      w1.(run := r, joinChecks := w1.joinChecks + 1)
  }

  function Apply(def: Definition, w: World, op: Op): World
  {
    match op
    case Advance(env, budget) => Loop(def, env, w, budget).0
    case Cancel(reason) => Cancelled(w, reason)
    case MarkFailed(step, error) => w.(run := MarkedFailed(w.run, step, error))
    case Signal(name) => if Consumes(w.run, name) then w.(run := Woken(w.run)) else w
    case EventArrives(topic) =>
      if w.run.state.Paused? && w.run.topic == Some(topic) then w.(run := Woken(w.run)) else w
    case JoinMet => if w.run.state.Paused? && OnFanOut(def, w.run.current) then w.(run := Woken(w.run)) else w
    case CompleteStep(step, attempt, at, result) =>
      if Awaited(w.run, step, attempt) then w.(run := CompletedAction(w.run, attempt, at, result)) else w
    case FailStep(step, attempt, message, compensator) =>
      if !Awaited(w.run, step, attempt) then w
      else
        var w1 := Reported(w, attempt, message);
        if compensator.None? then w1 else CompensatesFailed(def, w1, step, compensator.value)
    case CompensateFailedStep(step, transport) => CompensatesFailed(def, w, step, transport)
  }

  function History(def: Definition, w: World, ops: seq<Op>): World
    decreases |ops|
  {
    if ops == [] then w else History(def, Apply(def, w, ops[0]), ops[1..])
  }

  // ------------------------------------------------- terminal states

  lemma TerminalStep(def: Definition, w: World, op: Op)
    requires w.run.state.IsTerminal()
    ensures Apply(def, w, op).run == w.run && Apply(def, w, op).openTasks == w.openTasks
  {
  }

  /** A run that has ended never changes again: not its state, not its error, not
      its variables, whatever still arrives. A failed run may be compensated
      again, and is failed with the same error afterwards. */
  lemma {:induction false} TerminalIsForever(def: Definition, w: World, ops: seq<Op>)
    requires w.run.state.IsTerminal()
    ensures History(def, w, ops).run == w.run && History(def, w, ops).openTasks == w.openTasks
    decreases |ops|
  {
    if ops != [] {
      TerminalStep(def, w, ops[0]);
      TerminalIsForever(def, Apply(def, w, ops[0]), ops[1..]);
    }
  }

  /** A run cancelled from outside has no open user task, then and later. */
  lemma CancelClosesTasks(def: Definition, w: World, reason: Msg, ops: seq<Op>)
    requires !w.run.state.IsTerminal()
    ensures var w' := History(def, w, [Cancel(reason)] + ops);
            && w'.run.state.Cancelled? && w'.openTasks == 0
            && NoMarkers(w'.run) && w'.run.dispatch.None?
            && (reason != [] ==> w'.run.lastError == Some(reason))
  {
    var w1 := Apply(def, w, Cancel(reason));
    var all := [Cancel(reason)] + ops;
    assert all[0] == Cancel(reason) && all[1..] == ops;
    assert History(def, w, all) == History(def, w1, ops);
    TerminalIsForever(def, w1, ops);
  }

  /** The cancel verb does not close them: a run that cancels itself ends with
      the tasks it had, so with none exactly when it had none. */
  lemma SelfCancelKeepsTasks(def: Definition, env: Env, w: World, snap: Run, step: Step, ops: seq<Op>)
    ensures var turn := AfterStep(def, env, w, snap, step, Cancelling);
            && turn.Stop? && turn.w.run.state.Cancelled?
            && (History(def, turn.w, ops).openTasks == 0 <==> w.openTasks == 0)
  {
    TerminalIsForever(def, AfterStep(def, env, w, snap, step, Cancelling).w, ops);
  }
}
