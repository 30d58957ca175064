/** Runs, workflow definitions and audit events, and what each operation of the
    in-memory store does to one stored run. */
module Runs {
  import opened Domain
  import opened DottedKeys

  type Msg = Key

  // ------------------------------------------------- definitions

  /** Step types, grouped by what Advance and its handlers distinguish. */
  datatype Kind =
    | End
    | Action
    | FanOut                // parallel, foreach, sub_saga
    | While
    | Choice                // decision, switch: a missing branch is an error
    | TryCatch
    | WaitForSignal
    | WaitForEvent
    | WaitForTime
    | Other
    | Unregistered          // no handler

  datatype Compensation = Compensation(action: Key)

  datatype Step = Step(
    id: Key,
    kind: Kind,
    next: Key,                            // [] when absent
    branches: map<Key, Key>,
    action: Key,
    compensation: Option<Compensation>,
    maxAttempts: int,                     // retry policy; 0 when absent
    maxIterations: Option<int>,           // while
    catchStep: Key)                       // try_catch

  datatype Definition = Definition(start: Key, steps: seq<Step>)

  function StepById(steps: seq<Step>, id: Key): (s: Option<Step>)
    ensures s.Some? ==> s.value in steps && s.value.id == id
    ensures s.None? ==> forall x :: x in steps ==> x.id != id
  {
    if steps == [] then None
    else if steps[0].id == id then Some(steps[0])
    else StepById(steps[1..], id)
  }

  /** Action names are service.name. */
  predicate WellNamed(action: Key)
  {
    DOT in action
  }

  // ------------------------------------------------- events and runs

  datatype EventKind =
    | SagaStarted
    | StepDispatched
    | StepSucceeded
    | StepFailed
    | StepRetried           // step.failed logged by the retry loop
    | StepCaught            // step.failed logged when a try_catch frame takes it
    | StepPaused
    | LicenseRejected
    | CompensationStarted
    | RunSucceeded
    | RunCancelled

  datatype Event = Event(kind: EventKind, step: Key, attempt: int)

  /** How many events of a log satisfy p. */
  function Tally(es: seq<Event>, p: Event -> bool): nat
  {
    if es == [] then 0
    else Tally(es[..|es| - 1], p) + if p(es[|es| - 1]) then 1 else 0
  }

  lemma TallySnoc(es: seq<Event>, e: Event, p: Event -> bool)
    ensures Tally(es + [e], p) == Tally(es, p) + if p(e) then 1 else 0
  {
    assert (es + [e])[..|es|] == es;
  }

  lemma {:induction false} TallyNone(es: seq<Event>, more: seq<Event>, p: Event -> bool)
    requires forall i :: 0 <= i < |more| ==> !p(more[i])
    ensures Tally(es + more, p) == Tally(es, p)
    decreases |more|
  {
    if more == [] {
      assert es + more == es;
    } else {
      var n := |more| - 1;
      TallyNone(es, more[..n], p);
      TallySnoc(es + more[..n], more[n], p);
      assert es + more == es + more[..n] + [more[n]];
    }
  }

  datatype Frame = Frame(tryStep: Key, catchStep: Key)

  datatype Run = Run(
    state: RunState,
    current: Key,
    vars: Vars,
    wakeup: Option<Time>,
    signal: Option<Key>,
    topic: Option<Key>,
    dispatch: Option<Key>,
    attempt: int,
    frames: seq<Frame>,
    lastError: Option<Msg>)

  const MAX_FRAMES: nat := 3

  // ------------------------------------------------- store operations on a run

  function SetState(r: Run, state: RunState, current: Key): Run
  {
    r.(state := state, current := current)
  }

  function ClearedPause(r: Run): Run
  {
    r.(state := Running, wakeup := None, signal := None, topic := None)
  }

  function Woken(r: Run): Run
  {
    r.(wakeup := None, signal := None, topic := None)
  }

  predicate Consumes(r: Run, name: Key)
  {
    r.state.Paused? && r.signal == Some(name)
  }

  function PausedUntil(r: Run, at: Time): Run
  {
    r.(state := Paused, wakeup := Some(at))
  }

  function PausedForSignal(r: Run, name: Key, deadline: Option<Time>): Run
  {
    r.(state := Paused, signal := Some(name), wakeup := if deadline.Some? then deadline else r.wakeup)
  }

  function PausedForEvent(r: Run, topic: Key, deadline: Option<Time>): Run
  {
    r.(state := Paused, topic := Some(topic), wakeup := deadline)
  }

  function AwaitingAction(r: Run, action: Key, attempt: int): Run
  {
    if r.attempt == attempt && r.dispatch == Some(action) then r
    else r.(state := Paused, dispatch := Some(action), attempt := attempt)
  }

  function MarkedFailed(r: Run, current: Key, error: Msg): Run
  {
    if r.state.IsTerminal() then r
    else r.(state := Failed, current := current, lastError := if error == [] then r.lastError else Some(error))
  }

  function CancelledRun(r: Run, reason: Msg): Run
  {
    if r.state.IsTerminal() then r
    else r.(state := Cancelled, wakeup := None, signal := None, topic := None, dispatch := None,
            lastError := if reason == [] then r.lastError else Some(reason))
  }

  function CompletedAction(r: Run, attempt: int, now: Time, result: Vars): Run
  {
    if r.attempt != attempt then r
    else r.(dispatch := None, wakeup := Some(now), vars := r.vars + result)
  }

  function FailedAction(r: Run, attempt: int, message: Msg): Run
  {
    if r.attempt != attempt then r
    else r.(dispatch := None, state := Failed, lastError := if message == [] then r.lastError else Some(message))
  }
}
