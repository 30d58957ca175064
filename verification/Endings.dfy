/** What the operations other than Advance leave of a run: which error is
    recorded, what is logged, and everything they have no business with. */
module Endings {
  import opened Domain
  import opened DottedKeys
  import opened Runs
  import opened Engine
  import opened Lifecycle
  import opened Completion

  /** An empty text keeps the error that was there. */
  function Recorded(before: Option<Msg>, text: Msg): Option<Msg>
  {
    if text == [] then before else Some(text)
  }

  /** How an operation ends a run, if it does: as what, where, and with which error. */
  datatype Ending = Ending(state: RunState, current: Key, error: Option<Msg>)

  function EndOf(w: World, op: Op): Option<Ending>
  {
    var r := w.run;
    match op
    case Cancel(reason) =>
      if r.state.IsTerminal() then None else Some(Ending(Cancelled, r.current, Recorded(r.lastError, reason)))
    case MarkFailed(step, error) =>
      if r.state.IsTerminal() then None else Some(Ending(Failed, step, Recorded(r.lastError, error)))
    case FailStep(step, attempt, message, _) =>
      if Expected(r, step, attempt) then Some(Ending(Failed, step, Recorded(r.lastError, message))) else None
    case CompensateFailedStep(step, _) =>
      if r.state.IsTerminal() then None else Some(Ending(Failed, step, Some(REASON)))
    case _ => None
  }

  predicate Ends(w: World, w': World, end: Option<Ending>)
  {
    var r, r' := w.run, w'.run;
    && r'.vars == r.vars && r'.frames == r.frames && r'.attempt == r.attempt && w'.calls == w.calls
    && match end
       case Some(e) => r'.state == e.state && r'.current == e.current && r'.lastError == e.error
       case None => r'.state == r.state && r'.current == r.current && r'.lastError == r.lastError
  }

  lemma FailureIsRecorded(def: Definition, w: World, op: Op)
    requires op.FailStep? || op.CompensateFailedStep?
    ensures Ends(w, Apply(def, w, op), EndOf(w, op))
  {
  }

  /** The operations that end a run record this state, step and error, and nothing
      but an end changes the step or the error. None touches the variables, the
      frames or the attempt number, and none asks a handler. */
  lemma EndIsRecorded(def: Definition, w: World, op: Op)
    requires !op.Advance? && !op.CompleteStep?
    ensures Ends(w, Apply(def, w, op), EndOf(w, op))
  {
    if op.FailStep? || op.CompensateFailedStep? {
      FailureIsRecorded(def, w, op);
    }
  }

  /** Markers and the awaited dispatch: a cancel takes all of them, a failure of
      the worker its dispatch, what the run waits for the markers; nothing else
      takes or sets any. */
  lemma MarkersGo(def: Definition, w: World, op: Op)
    requires !op.Advance? && !op.CompleteStep?
    ensures var r, r' := w.run, Apply(def, w, op).run;
            var cancelled := op.Cancel? && !r.state.IsTerminal();
            var reported := op.FailStep? && Expected(r, op.step, op.attempt);
            var called := || (op.Signal? && r.signal == Some(op.name))
                          || (op.EventArrives? && r.topic == Some(op.topic))
                          || (op.JoinMet? && OnFanOut(def, r.current));
            && (if cancelled || (r.state.Paused? && called) then NoMarkers(r')
                else r'.wakeup == r.wakeup && r'.signal == r.signal && r'.topic == r.topic)
            && r'.dispatch == if cancelled || reported then None else r.dispatch
  {
  }

  /** What is logged: one event for a cancel and for a worker's failure, then the
      start of a rollback if there is something to roll back; open tasks are
      closed by a cancel only. */
  lemma EndIsLogged(def: Definition, w: World, op: Op)
    requires !op.Advance?
    ensures var w' := Apply(def, w, op);
            var cancelled := op.Cancel? && !w.run.state.IsTerminal();
            && w.events <= w'.events
            && (cancelled ==> w'.events == w.events + [Event(RunCancelled, w.run.current, 0)] && w'.openTasks == 0)
            && (!cancelled ==> w'.openTasks == w.openTasks)
            && (op.FailStep? && Expected(w.run, op.step, op.attempt) ==>
                  w.events + [Event(StepFailed, op.step, op.attempt)] <= w'.events)
            && (!op.FailStep? && !op.CompensateFailedStep? && !cancelled ==> w'.events == w.events)
  {
  }
}
