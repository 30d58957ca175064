/** The saga law, end to end: a run that fails uncaught has undone exactly the
    steps its log says were completed, in reverse order. */
module RollbackLaw {
  import opened Domain
  import opened DottedKeys
  import opened Runs
  import opened Rollback
  import opened Engine
  import opened Lifecycle

  /** log attempts the compensation of exactly the distinct steps that completed
      by these events (not the failed one, not end steps, not unknown ones) and
      have a compensation, each with its own, in the reverse order of their first
      completions. */
  ghost predicate Undoes(def: Definition, events: seq<Event>, failed: Key, log: seq<Undo>)
  {
    exists out, at {:trigger CompletionOrder(out, at, def.steps, events, failed)} ::
      CompletionOrder(out, at, def.steps, events, failed) && Undone(log) == Reverse(Targets(out))
  }

  lemma UndoLogUndoes(def: Definition, events: seq<Event>, failed: Key, n: nat, transport: Transport)
    ensures Undoes(def, events, failed, UndoLog(Completed(def.steps, events, failed), n, transport))
  {
    var at := CompletedIsCompletionOrder(def.steps, events, failed);
    UndoIsReverse(Completed(def.steps, events, failed), n, transport);
  }

  /** Events other than step.succeeded change nothing about what to undo. */
  lemma CompletedIgnores(def: Definition, events: seq<Event>, e: Event, failed: Key)
    requires !e.kind.StepSucceeded?
    ensures Completed(def.steps, events + [e], failed) == Completed(def.steps, events, failed)
  {
    assert (events + [e])[..|events|] == events;
  }

  /** What was dispatched by w' beyond what w had. */
  function NewUndo(w: World, w': World): seq<Undo>
    requires w.undo <= w'.undo
  {
    w'.undo[|w.undo|..]
  }

  lemma CompensatedUndoes(def: Definition, transport: Transport, w: World, current: Key, failed: Key)
    ensures var w' := Compensated(def, transport, w, current, failed);
            w.undo <= w'.undo && Undoes(def, w'.events, failed, NewUndo(w, w'))
  {
    var completed := Completed(def.steps, w.events, failed);
    var w' := Compensated(def, transport, w, current, failed);
    UndoLogUndoes(def, w.events, failed, |w.undo|, transport);
    CompletedIgnores(def, w.events, Event(CompensationStarted, failed, 0), failed);
    UndoLogUndoes(def, w'.events, failed, |w.undo|, transport);
    assert NewUndo(w, w') == UndoLog(completed, |w.undo|, transport);
  }

  /** While it rolls back the run shows that it does, and its log says so; with
      nothing to roll back neither does. */
  lemma RollbackShows(def: Definition, transport: Transport, w: World, current: Key, failed: Key)
    ensures var w' := Compensated(def, transport, w, current, failed);
            if exists i :: 0 <= i < |w.events| && CompletesOne(w.events[i], def.steps, failed) then
              && w'.run == w.run.(state := Compensating, current := current)
              && w'.events == w.events + [Event(CompensationStarted, failed, 0)]
            else w' == w
  {
    CompletedWhen(def.steps, w.events, failed);
  }

  /** The event says that a step of the definition, not an end and not the failed
      one, succeeded. */
  predicate CompletesOne(e: Event, steps: seq<Step>, failed: Key)
  {
    && e.kind.StepSucceeded? && e.step != [] && e.step != failed
    && StepById(steps, e.step).Some? && !StepById(steps, e.step).value.kind.End?
  }

  lemma {:induction false} CompletedWhen(steps: seq<Step>, events: seq<Event>, failed: Key)
    ensures Completed(steps, events, failed) != [] <==>
              exists i :: 0 <= i < |events| && CompletesOne(events[i], steps, failed)
    decreases |events|
  {
    if events != [] {
      var n := |events| - 1;
      CompletedWhen(steps, events[..n], failed);
      assert forall i :: 0 <= i < n ==> events[..n][i] == events[i];
    }
  }

  /** Over all rollbacks of a run, dispatch number i is marked with what became of
      dispatch number i. */
  lemma DispatchHasItsDelivery(def: Definition, transport: Transport, w: World, current: Key, failed: Key, i: nat)
    requires |w.undo| <= i
    ensures var w' := Compensated(def, transport, w, current, failed);
            i < |w'.undo| ==> w'.undo[i].ok == (DOT in w'.undo[i].action && transport(i))
  {
    var completed := Completed(def.steps, w.events, failed);
    var w' := Compensated(def, transport, w, current, failed);
    if i < |w'.undo| {
      EachHasItsDelivery(completed, |w.undo|, transport, i - |w.undo|);
    }
  }

  /** How a turn ends a run as failed. */
  ghost predicate FailedProperly(def: Definition, before: seq<Undo>, w: World)
  {
    && before <= w.undo
    && if !w.run.state.Failed? then w.undo == before
       else
         || (w.undo == before && w.events != [] && w.events[|w.events| - 1] == Event(LicenseRejected, w.run.current, 0))
         || Undoes(def, w.events, w.run.current, w.undo[|before|..])
  }

  lemma {:induction false} AttemptUndoesNothing(env: Env, w: World, snap: Run, step: Step, n: nat)
    requires n < Attempts(step) && !w.run.state.IsTerminal()
    ensures var w' := Attempt(env, w, snap, step, n).0;
            w'.undo == w.undo && !w'.run.state.IsTerminal()
    decreases Attempts(step) - n
  {
    var (w1, out) := Once(env, w, snap, step);
    OnceEndsNothing(env, w, snap, step);
    if out.Failing? && n + 1 < Attempts(step) {
      AttemptUndoesNothing(env, LogRetry(w1, step, n + 1), snap, step, n + 1);
    }
  }

  lemma OnceEndsNothing(env: Env, w: World, snap: Run, step: Step)
    requires !w.run.state.IsTerminal()
    ensures var w' := Once(env, w, snap, step).0; w'.undo == w.undo && !w'.run.state.IsTerminal()
  {
    var reply := env.reply(w.calls, step.id);
    if reply.Pauses? {
      assert Marked(w.run, reply.mark, step.id).state.Paused?;
    }
  }

  lemma FailRunUndoes(def: Definition, env: Env, w: World, snap: Run, step: Step, msg: Msg)
    requires !w.run.state.IsTerminal()
    ensures var w' := FailRun(def, env, w, snap, step, msg);
            && w.undo <= w'.undo && w'.run.state.Failed? && w'.run.current == step.id
            && w'.run.lastError == Some(REASON + msg)
            && Undoes(def, w'.events, step.id, NewUndo(w, w'))
  {
    var w1 := w.(events := w.events + [Event(StepFailed, step.id, 0)]);
    CompensatedUndoes(def, env.transport, w1, snap.current, step.id);
  }

  lemma IterationFailsProperly(def: Definition, env: Env, w: World)
    requires !w.run.state.IsTerminal()
    ensures match Iterate(def, env, w)
            case Again(w') => w'.undo == w.undo && !w'.run.state.IsTerminal()
            case Stop(w', result) => FailedProperly(def, w.undo, w') && !result.ContextDone?
  {
    if w.run.state.Paused? {
      WakeFailsProperly(def, env, w);
    } else if StepById(def.steps, At(def, w.run)).Some? {
      DispatchedFailsProperly(def, env, w);
    }
  }

  lemma WakeFailsProperly(def: Definition, env: Env, w: World)
    requires w.run.state.Paused?
    ensures match WakeTurn(def, env, w)
            case Again(w') => w'.undo == w.undo && !w'.run.state.IsTerminal()
            case Stop(w', result) => FailedProperly(def, w.undo, w') && !result.ContextDone?
  {
  }

  lemma DispatchedFailsProperly(def: Definition, env: Env, w: World)
    requires !w.run.state.IsTerminal() && StepById(def.steps, At(def, w.run)).Some?
    ensures match StepTurn(def, env, w)
            case Again(w') => w'.undo == w.undo && !w'.run.state.IsTerminal()
            case Stop(w', result) => FailedProperly(def, w.undo, w') && !result.ContextDone?
  {
    var step := StepById(def.steps, At(def, w.run)).value;
    var w1 := Dispatched(Started(w), step);
    if step.kind.End? {
      assert StepTurn(def, env, w) == Stop(Completes(w1, step), Ok);
    } else if step.kind.Unregistered? {
      assert StepTurn(def, env, w) == Stop(w1, Error);
    } else if env.license(w1.calls).Rejected? {
      assert StepTurn(def, env, w) == Stop(LicenseRejects(w1, step), Error);
      RejectionUndoesNothing(def, w1, step);
    } else {
      assert StepTurn(def, env, w) == HandlerTurn(def, env, w1, w.run, step);
      HandlerFailsProperly(def, env, w1, w.run, step);
    }
  }

  lemma RejectionUndoesNothing(def: Definition, w: World, step: Step)
    requires !w.run.state.IsTerminal() && w.run.current == step.id
    ensures FailedProperly(def, w.undo, LicenseRejects(w, step))
  {
  }

  lemma HandlerFailsProperly(def: Definition, env: Env, w: World, snap: Run, step: Step)
    requires !w.run.state.IsTerminal()
    ensures match HandlerTurn(def, env, w, snap, step)
            case Again(w') => w'.undo == w.undo && !w'.run.state.IsTerminal()
            case Stop(w', result) => FailedProperly(def, w.undo, w') && !result.ContextDone?
  {
    AttemptUndoesNothing(env, w, snap, step, 0);
    var (w1, out) := Attempt(env, w, snap, step, 0);
    if out.Failing? {
      FailRunUndoes(def, env, w1, snap, step, out.msg);
    }
  }

  /** The law for a whole call of Advance: the run ends failed with exactly its
      completed steps undone (or rejected by the license gate, which undoes
      nothing), or it does not fail and nothing is undone. */
  lemma AdvanceUndoes(def: Definition, env: Env, w: World, budget: nat)
    requires !w.run.state.IsTerminal()
    ensures FailedProperly(def, w.undo, Loop(def, env, w, budget).0)
  {
    var before := w.undo;
    var inv := (x: World) => x.undo == before && !x.run.state.IsTerminal();
    var end := (x: World, r: Engine.Result) => FailedProperly(def, before, x);
    forall x | inv(x)
      ensures match Iteration(def, env)(x)
              case Again(x') => inv(x')
              case Stop(x', result) => end(x', result) && !result.ContextDone?
    {
      IterationFailsProperly(def, env, x);
    }
    DriveKeeps(Iteration(def, env), inv, end, w, budget);
  }

  /** The same rollback for a failure recorded outside Advance, and what it
      leaves of the run: failed, with the recorded error if there was one. */
  lemma OutsideFailureUndoes(def: Definition, w: World, step: Key, transport: Transport)
    requires !w.run.state.Succeeded? && !w.run.state.Cancelled?
    ensures var w' := CompensatesFailed(def, w, step, transport);
            && w.undo <= w'.undo && Undoes(def, w'.events, step, NewUndo(w, w'))
            && w'.run.state.Failed?
            && (w.run.state.Failed? ==> w'.run == w.run)
            && (!w.run.state.Failed? ==> w'.run.current == step && w'.run.lastError == Some(REASON))
  {
    CompensatedUndoes(def, transport, w, w.run.current, step);
  }

  lemma ReportThenRollback(def: Definition, w: World, step: Key, attempt: int, message: Msg, transport: Transport)
    requires Awaited(w.run, step, attempt)
    ensures var w1 := Reported(w, attempt, message);
            && Apply(def, w, FailStep(step, attempt, message, Some(transport)))
               == CompensatesFailed(def, w1, step, transport)
            && w1.undo == w.undo && w1.run.state.Failed? && w1.run.current == step
            && (message != [] ==> w1.run.lastError == Some(message))
  {
  }

  /** A worker's failure report fails the run with the worker's message and rolls
      back what completed before. */
  lemma WorkerFailureUndoes(def: Definition, w: World, step: Key, attempt: int, message: Msg, transport: Transport)
    requires Awaited(w.run, step, attempt)
    ensures var w' := Apply(def, w, FailStep(step, attempt, message, Some(transport)));
            && w'.run.state.Failed? && w'.run.current == step
            && (message != [] ==> w'.run.lastError == Some(message))
            && w.undo <= w'.undo && Undoes(def, w'.events, step, NewUndo(w, w'))
  {
    ReportThenRollback(def, w, step, attempt, message, transport);
    OutsideFailureUndoes(def, Reported(w, attempt, message), step, transport);
  }
}
