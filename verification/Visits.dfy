/** Visits of a run to its steps, over whole histories: a visit succeeds at most
    once, and a fan-out step is only left when its children allow it. */
module Visits {
  import opened Domain
  import opened DottedKeys
  import opened Runs
  import opened Rollback
  import opened Engine
  import opened Retry
  import opened Lifecycle
  import FanOut
  import Join

  // ------------------------------------------------- one success per visit

  function OfStep(kind: EventKind, id: Key): Event -> bool
  {
    (e: Event) => e.kind == kind && e.step == id
  }

  function Visited(w: World, id: Key): nat
  {
    Tally(w.events, OfStep(StepDispatched, id))
  }

  function Successes(w: World, id: Key): nat
  {
    Tally(w.events, OfStep(StepSucceeded, id))
  }

  function PausedOn(w: World, id: Key): nat
  {
    if w.run.state.Paused? && w.run.current == id then 1 else 0
  }

  /** Visits that could still succeed, counting a pause on the step as one. */
  function Open(w: World, id: Key): int
  {
    Visited(w, id) - Successes(w, id) - PausedOn(w, id)
  }

  lemma Logged(w: World, e: Event, id: Key)
    ensures var w' := w.(events := w.events + [e]);
            && Visited(w', id) == Visited(w, id) + (if e.kind.StepDispatched? && e.step == id then 1 else 0)
            && Successes(w', id) == Successes(w, id) + (if e.kind.StepSucceeded? && e.step == id then 1 else 0)
  {
    TallySnoc(w.events, e, OfStep(StepDispatched, id));
    TallySnoc(w.events, e, OfStep(StepSucceeded, id));
  }

  lemma AttemptLogsNeither(env: Env, w: World, snap: Run, step: Step, id: Key)
    ensures var w' := Attempt(env, w, snap, step, 0).0;
            Visited(w', id) == Visited(w, id) && Successes(w', id) == Successes(w, id)
  {
    var k := RetryBudget(env, w, snap, step);
    var es := Attempt(env, w, snap, step, 0).0.events;
    var more := es[|w.events|..];
    assert es == w.events + more;
    TallyNone(w.events, more, OfStep(StepDispatched, id));
    TallyNone(w.events, more, OfStep(StepSucceeded, id));
  }

  lemma {:induction false} AttemptStaysOn(env: Env, w: World, snap: Run, step: Step, n: nat)
    requires n < Attempts(step) && w.run.current == step.id && !w.run.state.Paused?
    ensures var (w', out) := Attempt(env, w, snap, step, n);
            w'.run.current == step.id && (out.Done? ==> !w'.run.state.Paused?)
    decreases Attempts(step) - n
  {
    if step.kind.Action? {
      ActionNeverDone(env, w, snap, step, n);
    } else {
      var (w1, out) := Once(env, w, snap, step);
      if out.Failing? && n + 1 < Attempts(step) {
        AttemptStaysOn(env, LogRetry(w1, step, n + 1), snap, step, n + 1);
      }
    }
  }

  lemma {:induction false} ActionNeverDone(env: Env, w: World, snap: Run, step: Step, n: nat)
    requires n < Attempts(step) && step.kind.Action? && w.run.current == step.id
    ensures var (w', out) := Attempt(env, w, snap, step, n); w'.run.current == step.id && !out.Done?
    decreases Attempts(step) - n
  {
    var (w1, out) := Once(env, w, snap, step);
    if out.Failing? && n + 1 < Attempts(step) {
      ActionNeverDone(env, LogRetry(w1, step, n + 1), snap, step, n + 1);
    }
  }

  function Result(turn: Turn): World
  {
    turn.w
  }

  lemma WakeKeepsCount(def: Definition, env: Env, w: World, id: Key)
    requires w.run.state.Paused?
    ensures Open(Result(WakeTurn(def, env, w)), id) >= Open(w, id)
  {
    var step := StepById(def.steps, w.run.current);
    if step.Some? {
      Logged(w, Event(StepSucceeded, step.value.id, 0), id);
    }
  }

  lemma AfterStepCounts(def: Definition, env: Env, w: World, snap: Run, step: Step, out: Outcome, id: Key)
    requires w.run.current == step.id && (out.Done? ==> !w.run.state.Paused?)
    requires Visited(w, id) - Successes(w, id) >= if step.id == id then 1 else 0
    ensures Open(Result(AfterStep(def, env, w, snap, step, out)), id) >= 0
  {
    match out
    case Suspended => Logged(w, Event(StepPaused, step.id, 0), id);
    case Cancelling => Logged(w, Event(RunCancelled, [], 0), id);
    case Done(entries) => Logged(w, Event(StepSucceeded, step.id, 0), id);
    case Failing(msg) =>
      if w.run.frames != [] {
        Logged(w, Event(StepCaught, step.id, 0), id);
      } else {
        FailureCounts(def, env, w, snap, step, msg, id);
      }
  }

  lemma FailureCounts(def: Definition, env: Env, w: World, snap: Run, step: Step, msg: Msg, id: Key)
    requires Visited(w, id) >= Successes(w, id)
    ensures Open(FailRun(def, env, w, snap, step, msg), id) >= 0
  {
    var w1 := w.(events := w.events + [Event(StepFailed, step.id, 0)]);
    Logged(w, Event(StepFailed, step.id, 0), id);
    Logged(w1, Event(CompensationStarted, step.id, 0), id);
  }

  lemma HandlerCounts(def: Definition, env: Env, w: World, snap: Run, step: Step, id: Key)
    requires w.run.current == step.id && !w.run.state.Paused?
    requires Visited(w, id) - Successes(w, id) >= if step.id == id then 1 else 0
    ensures Open(Result(HandlerTurn(def, env, w, snap, step)), id) >= 0
  {
    AttemptLogsNeither(env, w, snap, step, id);
    AttemptStaysOn(env, w, snap, step, 0);
    var (w', out) := Attempt(env, w, snap, step, 0);
    AfterStepCounts(def, env, w', snap, step, out, id);
  }

  lemma StepKeepsCount(def: Definition, env: Env, w: World, id: Key)
    requires !w.run.state.Paused? && Open(w, id) >= 0
    ensures Open(Result(StepTurn(def, env, w)), id) >= 0
  {
    Logged(w, Event(SagaStarted, [], 0), id);
    var w0 := Started(w);
    var found := StepById(def.steps, At(def, w.run));
    if found.Some? {
      var step := found.value;
      Logged(w0, Event(StepDispatched, step.id, 0), id);
      var w1 := Dispatched(w0, step);
      if step.kind.End? {
        CompleteCounts(w1, step, id);
      } else if !step.kind.Unregistered? && env.license(w1.calls).Rejected? {
        RejectionCounts(w1, step, id);
      } else if !step.kind.Unregistered? {
        HandlerCounts(def, env, w1, w.run, step, id);
      }
    }
  }

  lemma RejectionCounts(w: World, step: Step, id: Key)
    requires !w.run.state.Paused? && Visited(w, id) >= Successes(w, id)
    ensures Open(LicenseRejects(w, step), id) >= 0
  {
    Logged(w, Event(LicenseRejected, step.id, 0), id);
  }

  lemma CompleteCounts(w: World, step: Step, id: Key)
    requires Visited(w, id) - Successes(w, id) >= if step.id == id then 1 else 0
    ensures Open(Completes(w, step), id) >= 0
  {
    var w1 := w.(events := w.events + [Event(StepSucceeded, step.id, 0)]);
    Logged(w, Event(StepSucceeded, step.id, 0), id);
    Logged(w1, Event(RunSucceeded, [], 0), id);
    assert Completes(w, step).events == w1.events + [Event(RunSucceeded, [], 0)];
  }

  lemma AdvanceKeepsCount(def: Definition, env: Env, w: World, budget: nat, id: Key)
    requires Open(w, id) >= 0
    ensures Open(Loop(def, env, w, budget).0, id) >= 0
  {
    var inv := (x: World) => Open(x, id) >= 0;
    var end := (x: World, r: Engine.Result) => Open(x, id) >= 0;
    forall x | inv(x)
      ensures match Iteration(def, env)(x)
              case Again(x') => inv(x')
              case Stop(x', result) => end(x', result) && !result.ContextDone?
    {
      IterationKeepsCount(def, env, x, id);
    }
    DriveKeeps(Iteration(def, env), inv, end, w, budget);
  }

  lemma IterationKeepsCount(def: Definition, env: Env, w: World, id: Key)
    requires Open(w, id) >= 0
    ensures var turn := Iterate(def, env, w);
            Open(Result(turn), id) >= 0 && (turn.Stop? ==> !turn.result.ContextDone?)
  {
    if w.run.state.Paused? {
      WakeKeepsCount(def, env, w, id);
    } else if !w.run.state.IsTerminal() {
      StepKeepsCount(def, env, w, id);
    }
  }

  lemma CompensationKeepsCount(def: Definition, w: World, step: Key, transport: Transport, id: Key)
    requires Open(w, id) >= 0
    ensures Open(CompensatesFailed(def, w, step, transport), id) >= 0
  {
    Logged(w, Event(CompensationStarted, step, 0), id);
  }

  lemma ReportKeepsCount(w: World, attempt: int, message: Msg, id: Key)
    requires Open(w, id) >= 0
    ensures Open(Reported(w, attempt, message), id) >= 0
  {
    Logged(w, Event(StepFailed, w.run.current, attempt), id);
  }

  lemma FailureKeepsCount(def: Definition, w: World, op: Op, id: Key)
    requires Open(w, id) >= 0 && op.FailStep?
    ensures Open(Apply(def, w, op), id) >= 0
  {
    if Awaited(w.run, op.step, op.attempt) {
      ReportKeepsCount(w, op.attempt, op.message, id);
      if op.compensator.Some? {
        CompensationKeepsCount(def, Reported(w, op.attempt, op.message), op.step, op.compensator.value, id);
      }
    }
  }

  lemma CancelKeepsCount(w: World, reason: Msg, id: Key)
    requires Open(w, id) >= 0
    ensures Open(Lifecycle.Cancelled(w, reason), id) >= 0
  {
    Logged(w, Event(RunCancelled, w.run.current, 0), id);
  }

  /** The operations that log nothing pause no run. */
  lemma SilenceKeepsCount(def: Definition, w: World, op: Op, id: Key)
    requires Open(w, id) >= 0 && !op.Advance? && !op.Cancel? && !op.FailStep? && !op.CompensateFailedStep?
    ensures Open(Apply(def, w, op), id) >= 0
  {
    var w' := Apply(def, w, op);
    assert w'.events == w.events && (w'.run.state.Paused? ==> w.run.state.Paused?);
  }

  lemma OpKeepsCount(def: Definition, w: World, op: Op, id: Key)
    requires Open(w, id) >= 0
    ensures Open(Apply(def, w, op), id) >= 0
  {
    match op
    case Advance(env, budget) => AdvanceKeepsCount(def, env, w, budget, id);
    case Cancel(reason) => CancelKeepsCount(w, reason, id);
    case FailStep(_, _, _, _) => FailureKeepsCount(def, w, op, id);
    case CompensateFailedStep(step, transport) => CompensationKeepsCount(def, w, step, transport, id);
    case _ => SilenceKeepsCount(def, w, op, id);
  }

  /** Over any history, step.succeeded is logged at most once per visit to a
      step, and a run paused on the step has one visit not yet counted. */
  lemma {:induction false} OneSuccessPerVisit(def: Definition, w: World, ops: seq<Op>, id: Key)
    requires w.events == [] && w.run.state.Pending?
    ensures var w' := History(def, w, ops); Successes(w', id) + PausedOn(w', id) <= Visited(w', id)
  {
    HistoryKeepsCount(def, w, ops, id);
  }

  lemma {:induction false} HistoryKeepsCount(def: Definition, w: World, ops: seq<Op>, id: Key)
    requires Open(w, id) >= 0
    ensures Open(History(def, w, ops), id) >= 0
    decreases |ops|
  {
    if ops != [] {
      OpKeepsCount(def, w, ops[0], id);
      HistoryKeepsCount(def, Apply(def, w, ops[0]), ops[1..], id);
    }
  }

  // ------------------------------------------------- waiting for the children

  predicate OnAction(def: Definition, id: Key)
  {
    StepById(def.steps, id).Some? && StepById(def.steps, id).value.kind.Action?
  }

  /** Markers are only set while paused, never on a fan-out step, and on an action
      step only the wakeup is. */
  predicate Orderly(def: Definition, r: Run)
  {
    || r.state.IsTerminal() || NoMarkers(r)
    || (&& r.state.Paused? && !OnFanOut(def, r.current)
        && (OnAction(def, r.current) ==> r.signal.None? && r.topic.None?))
  }

  /** Worker reports name the action steps that were dispatched to workers. */
  predicate Honest(def: Definition, op: Op)
  {
    var named := match op
                 case CompleteStep(step, _, _, _) => Some(step)
                 case FailStep(step, _, _, _) => Some(step)
                 case _ => None;
    named.Some? ==> StepById(def.steps, named.value).Some? && StepById(def.steps, named.value).value.kind.Action?
  }

  lemma {:induction false} AttemptIsOrderly(def: Definition, env: Env, w: World, snap: Run, step: Step, n: nat)
    requires n < Attempts(step) && StepById(def.steps, step.id) == Some(step)
    requires w.run.current == step.id && NoMarkers(w.run) && !w.run.state.IsTerminal()
    ensures var (w', out) := Attempt(env, w, snap, step, n);
            && !w'.run.state.IsTerminal()
            && (if out.Suspended? then w'.run.current == step.id && Orderly(def, w'.run) else NoMarkers(w'.run))
    decreases Attempts(step) - n
  {
    OnceIsOrderly(def, env, w, snap, step);
    var (w1, out) := Once(env, w, snap, step);
    if out.Failing? && n + 1 < Attempts(step) {
      AttemptIsOrderly(def, env, LogRetry(w1, step, n + 1), snap, step, n + 1);
    }
  }

  lemma OnceIsOrderly(def: Definition, env: Env, w: World, snap: Run, step: Step)
    requires StepById(def.steps, step.id) == Some(step)
    requires w.run.current == step.id && NoMarkers(w.run) && !w.run.state.IsTerminal()
    ensures var (w', out) := Once(env, w, snap, step);
            && !w'.run.state.IsTerminal() && w'.run.current == step.id
            && (if out.Suspended? then Orderly(def, w'.run) else NoMarkers(w'.run))
  {
    var reply := env.reply(w.calls, step.id);
    if reply.Pauses? {
      assert Marked(w.run, reply.mark, step.id).state.Paused?;
    }
  }

  lemma HandlerIsOrderly(def: Definition, env: Env, w: World, snap: Run, step: Step)
    requires StepById(def.steps, step.id) == Some(step)
    requires w.run.current == step.id && NoMarkers(w.run) && !w.run.state.IsTerminal()
    ensures Orderly(def, HandlerTurn(def, env, w, snap, step).w.run)
  {
    AttemptIsOrderly(def, env, w, snap, step, 0);
  }

  lemma WakeIsOrderly(def: Definition, env: Env, w: World)
    requires w.run.state.Paused? && Orderly(def, w.run)
    ensures Orderly(def, WakeTurn(def, env, w).w.run)
  {
  }

  lemma StepIsOrderly(def: Definition, env: Env, w: World)
    requires !w.run.state.IsTerminal() && NoMarkers(w.run)
    ensures Orderly(def, StepTurn(def, env, w).w.run)
  {
    var found := StepById(def.steps, At(def, w.run));
    if found.Some? && !found.value.kind.End? {
      HandlerIsOrderly(def, env, Dispatched(Started(w), found.value), w.run, found.value);
    }
  }

  lemma IterationIsOrderly(def: Definition, env: Env, w: World)
    requires Orderly(def, w.run)
    ensures var turn := Iterate(def, env, w);
            Orderly(def, turn.w.run) && (turn.Stop? ==> !turn.result.ContextDone?)
  {
    StopsForReal(def, env, w);
    if w.run.state.IsTerminal() {
    } else if w.run.state.Paused? {
      WakeIsOrderly(def, env, w);
    } else {
      StepIsOrderly(def, env, w);
    }
  }

  lemma OpIsOrderly(def: Definition, w: World, op: Op)
    requires Orderly(def, w.run) && Honest(def, op)
    ensures Orderly(def, Apply(def, w, op).run)
  {
    if op.Advance? {
      var inv := (x: World) => Orderly(def, x.run);
      var end := (x: World, r: Engine.Result) => Orderly(def, x.run);
      forall x | inv(x)
        ensures match Iteration(def, op.env)(x)
                case Again(x') => inv(x')
                case Stop(x', result) => end(x', result) && !result.ContextDone?
      {
        IterationIsOrderly(def, op.env, x);
      }
      DriveKeeps(Iteration(def, op.env), inv, end, w, op.budget);
    }
  }

  lemma {:induction false} HistoryIsOrderly(def: Definition, w: World, ops: seq<Op>)
    requires Orderly(def, w.run) && forall i :: 0 <= i < |ops| ==> Honest(def, ops[i])
    ensures Orderly(def, History(def, w, ops).run)
    decreases |ops|
  {
    if ops != [] {
      OpIsOrderly(def, w, ops[0]);
      HistoryIsOrderly(def, Apply(def, w, ops[0]), ops[1..]);
    }
  }

  /** Operations that may end the run, and advances that find the join met. */
  predicate MayLeave(op: Op)
  {
    || op.Cancel? || op.MarkFailed? || op.CompensateFailedStep?
    || (op.Advance? && Join.Met(op.env.join, op.env.children))
  }

  /** While the children do not satisfy the join, nothing that arrives at a
      parent paused on a fan-out step changes it: no early, duplicate or timer
      advance, no signal, no event, no report of an earlier step. */
  lemma FanOutWaits(def: Definition, w: World, ops: seq<Op>, op: Op)
    requires Orderly(def, w.run) && !w.run.state.IsTerminal()
    requires forall i :: 0 <= i < |ops| ==> Honest(def, ops[i])
    requires Honest(def, op) && !MayLeave(op)
    ensures var w' := History(def, w, ops);
            w'.run.state.Paused? && OnFanOut(def, w'.run.current) ==> Apply(def, w', op) == w'
  {
    HistoryIsOrderly(def, w, ops);
    var w' := History(def, w, ops);
    if w'.run.state.Paused? && OnFanOut(def, w'.run.current) && op.Advance? {
      WaitingStops(def, op.env, w', op.budget);
    }
  }

  lemma WaitingStops(def: Definition, env: Env, w: World, budget: nat)
    requires w.run.state.Paused? && OnFanOut(def, w.run.current) && NoMarkers(w.run)
    requires !Join.Met(env.join, env.children)
    ensures Loop(def, env, w, budget).0 == w
  {
    if budget > 0 {
      assert Iteration(def, env)(w) == Stop(w, Ok);
    }
  }

  // ------------------------------------------------- as steps of the protocol

  /** The protocol from the parent's read on: where it stands after the listing. */
  function Listed(s: FanOut.State): FanOut.State
    requires s.pc.Reading? && s.parent.OnPause?
  {
    FanOut.Next(FanOut.Next(s, FanOut.ParentRead), FanOut.ParentLists)
  }

  /** And after it let the parent go. */
  function LeftStep(s: FanOut.State): FanOut.State
    requires s.pc.Clearing?
  {
    FanOut.Next(FanOut.Next(s, FanOut.ParentClears), FanOut.ParentLeaves)
  }

  lemma ProtocolLists(s: FanOut.State)
    requires s.pc.Reading? && s.parent.OnPause?
    ensures if Join.Met(s.inputs, s.children)
            then
              var left := LeftStep(Listed(s));
              left.parent.MovedOn? && left.succeededEvents == s.succeededEvents + 1
            else Listed(s) == s.(pc := FanOut.Unlocked)
  {
  }

  lemma EngineLists(def: Definition, env: Env, w: World)
    requires w.run.state.Paused? && OnFanOut(def, w.run.current) && NoMarkers(w.run)
    requires WakeNext(StepById(def.steps, w.run.current).value, false) != []
    ensures var turn := WakeTurn(def, env, w);
            if Join.Met(env.join, env.children)
            then turn.Again? && Successes(turn.w, w.run.current) == Successes(w, w.run.current) + 1
            else turn == Stop(w, Ok)
  {
    Logged(w, Event(StepSucceeded, w.run.current, 0), w.run.current);
  }

  /** What a wake-up does to a parent on its fan-out step is what the protocol's
      steps do, the children being those of the protocol: it goes on exactly when
      they do, and logs step.succeeded as often. */
  lemma WakeFollowsProtocol(def: Definition, env: Env, w: World, s: FanOut.State)
    requires w.run.state.Paused? && OnFanOut(def, w.run.current) && NoMarkers(w.run)
    requires WakeNext(StepById(def.steps, w.run.current).value, false) != []
    requires s.pc.Reading? && s.parent.OnPause? && env.join == s.inputs && env.children == s.children
    ensures var turn := WakeTurn(def, env, w);
            if Listed(s).pc.Clearing?
            then
              var left := LeftStep(Listed(s));
              && turn.Again? && left.parent.MovedOn?
              && Successes(turn.w, w.run.current) - Successes(w, w.run.current)
                 == left.succeededEvents - s.succeededEvents
            else turn == Stop(w, Ok) && Listed(s) == s.(pc := FanOut.Unlocked)
  {
    ProtocolLists(s);
    EngineLists(def, env, w);
  }
}
