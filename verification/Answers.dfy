/** What one iteration of Advance does to a run and its log, for every wake-up
    and every answer of a handler, told field by field. */
module Answers {
  import opened Domain
  import opened DottedKeys
  import opened Runs
  import opened Rollback
  import opened Engine
  import Join
  import Termination

  // ------------------------------------------------- the names on the wire

  predicate Spells(k: Key, s: string)
  {
    |k| == |s| && forall i :: 0 <= i < |k| ==> k[i] == s[i] as int
  }

  /** The keys under which the engine, its handlers and its definitions meet. */
  lemma Names()
    ensures Spells(BRANCH, "branch") && Spells(CONTINUE, "continue") && Spells(EXIT, "exit")
    ensures Spells(TIMEOUT, "timeout") && Spells(WHILE, "_while") && Spells(ITER, "iter")
    ensures Spells(ERROR, "_error") && Spells(STEP_ID, "step_id") && Spells(MESSAGE, "message")
  {
  }

  // ------------------------------------------------- leaving a step

  /** The turn that goes on at `target`; without one it is an error that leaves
      the run where it is. */
  function Towards(w: World, target: Key): Turn
  {
    if target == [] then Stop(w, Error) else Again(w.(run := w.run.(state := Running, current := target)))
  }

  predicate Due(r: Run, now: Time)
  {
    r.wakeup.Some? && r.wakeup.value <= now
  }

  /** A signal or an event has not come yet. */
  predicate Awaits(r: Run)
  {
    r.signal.Some? || r.topic.Some?
  }

  /** The run after it left its pause, still on its step. */
  function Unpaused(w: World, step: Step): World
  {
    w.(run := w.run.(state := Running, wakeup := None, signal := None, topic := None),
       events := w.events + [Event(StepSucceeded, step.id, 0)])
  }

  /** Where a paused run goes, whatever the kind of its step. It stays while its
      time has not come and something is still awaited, the children included.
      The time of a signal or an event that did not come leads to the timeout
      branch, if that leads anywhere; a timer, a worker's result, a met join, a
      signal or an event that came lead to Next. */
  lemma WakeGoes(def: Definition, env: Env, w: World, step: Step)
    requires w.run.state.Paused? && StepById(def.steps, w.run.current) == Some(step)
    ensures var turn := Iterate(def, env, w);
            var late := TIMEOUT in step.branches && step.branches[TIMEOUT] != [];
            && (Due(w.run, env.now) && Awaits(w.run) && late ==>
                  turn == Towards(Unpaused(w, step), step.branches[TIMEOUT]))
            && (Due(w.run, env.now) && !(Awaits(w.run) && late) ==> turn == Towards(Unpaused(w, step), step.next))
            && (!Due(w.run, env.now) && (Awaits(w.run) || w.run.wakeup.Some?) ==> turn == Stop(w, Ok))
            && (!Awaits(w.run) && w.run.wakeup.None? ==>
                  turn == if step.kind.FanOut? && !Join.Met(env.join, env.children) then Stop(w, Ok)
                          else Towards(Unpaused(w, step), step.next))
  {
  }

  // ------------------------------------------------- routing a success

  predicate DistinctKeys(entries: seq<Pair>)
  {
    forall i, j :: 0 <= i < j < |entries| ==> entries[i].key != entries[j].key
  }

  /** Entry i of the result names a branch. */
  predicate Chooses(entries: seq<Pair>, i: nat, b: Key)
  {
    i < |entries| && entries[i] == Pair(BRANCH, Str(b)) && b != []
  }

  ghost predicate ChoosesNone(entries: seq<Pair>)
  {
    forall i: nat, b: Key :: !Chooses(entries, i, b)
  }

  /** The run with the result stored and the success logged, still on its step. */
  function Stored(w: World, step: Step, entries: seq<Pair>): World
  {
    w.(run := w.run.(vars := ApplyPairs(w.run.vars, entries)), events := w.events + [Event(StepSucceeded, step.id, 0)])
  }

  lemma {:induction false} FindsBranch(entries: seq<Pair>, i: nat, b: Key)
    requires DistinctKeys(entries) && Chooses(entries, i, b)
    ensures BranchOf(entries) == Some(b)
    decreases |entries|
  {
    if i > 0 {
      assert entries[0].key != entries[i].key;
      assert Chooses(entries[1..], i - 1, b);
      FindsBranch(entries[1..], i - 1, b);
    }
  }

  lemma {:induction false} FindsNone(entries: seq<Pair>)
    requires ChoosesNone(entries)
    ensures BranchOf(entries) == None
    decreases |entries|
  {
    if entries != [] {
      var e := entries[0];
      assert e.value.Str? ==> !Chooses(entries, 0, e.value.s);
      forall i: nat, b: Key ensures !Chooses(entries[1..], i, b) {
        assert !Chooses(entries, i + 1, b);
      }
      FindsNone(entries[1..]);
    }
  }

  /** A success whose result names a branch, in whatever place of the result: a
      wired one is taken; an unwired one is an error for decision, switch and
      while and means Next for the rest. */
  lemma BranchIsTaken(w: World, step: Step, entries: seq<Pair>, i: nat, b: Key)
    requires DistinctKeys(entries) && Chooses(entries, i, b)
    ensures var turn := SucceedTurn(w, step, entries);
            var left := Stored(w, step, entries);
            turn == if b in step.branches then Towards(left, step.branches[b])
                    else if step.kind.Choice? || step.kind.While? then Stop(left, Error)
                    else Towards(left, step.next)
  {
    FindsBranch(entries, i, b);
  }

  /** One that names none goes to Next. */
  lemma NextIsTaken(w: World, step: Step, entries: seq<Pair>)
    requires ChoosesNone(entries)
    ensures SucceedTurn(w, step, entries) == Towards(Stored(w, step, entries), step.next)
  {
    FindsNone(entries);
  }

  /** No two entries write to places one of which holds the other. */
  predicate Apart(entries: seq<Pair>)
  {
    forall i, j :: 0 <= i < j < |entries| ==> !Comparable(Segments(entries[i].key), Segments(entries[j].key))
  }

  /** Such a result is stored in full, in whatever order, and nothing else changes. */
  lemma {:induction false} ResultIsStored(vars: Vars, entries: seq<Pair>, i: nat, path: seq<Key>)
    requires Apart(entries)
    ensures i < |entries| ==> Get(ApplyPairs(vars, entries), Segments(entries[i].key)) == entries[i].value
    ensures path != [] && (forall j :: 0 <= j < |entries| ==> !Comparable(Segments(entries[j].key), path)) ==>
              Get(ApplyPairs(vars, entries), path) == Get(vars, path)
    decreases |entries|
  {
    if entries != [] {
      var at := Segments(entries[0].key);
      var after := Put(vars, at, entries[0].value);
      PutGet(vars, at, entries[0].value);
      forall j | 0 <= j < |entries[1..]| ensures !Comparable(Segments(entries[1..][j].key), at) {
        assert entries[1..][j] == entries[j + 1];
      }
      if i == 0 {
        ResultIsStored(after, entries[1..], 0, at);
      } else {
        ResultIsStored(after, entries[1..], i - 1, at);
      }
      if path != [] && forall j :: 0 <= j < |entries| ==> !Comparable(Segments(entries[j].key), path) {
        PutFrame(vars, at, entries[0].value, path);
        ResultIsStored(after, entries[1..], 0, path);
      }
    }
  }

  // ------------------------------------------------- entering a step

  /** The run stands at this step and is neither paused nor over. */
  predicate StandsAt(def: Definition, w: World, step: Step)
  {
    && !w.run.state.IsTerminal() && !w.run.state.Paused?
    && StepById(def.steps, if w.run.current == [] then def.start else w.run.current) == Some(step)
  }

  /** The run let into the step: the start of the saga is logged once, with the
      first dispatch. */
  function Entered(w: World, step: Step): World
  {
    w.(run := w.run.(state := Running, current := step.id),
       events := w.events + (if w.run.state.Pending? then [Event(SagaStarted, [], 0)] else [])
                 + [Event(StepDispatched, step.id, 0)])
  }

  /** An end step needs no license and no handler. */
  lemma EndSucceeds(def: Definition, env: Env, w: World, step: Step)
    requires StandsAt(def, w, step) && step.kind.End?
    ensures var w1 := Entered(w, step);
            Iterate(def, env, w) ==
              Stop(w1.(run := w1.run.(state := Succeeded, current := []),
                     events := w1.events + [Event(StepSucceeded, step.id, 0), Event(RunSucceeded, [], 0)],
                     joinChecks := w.joinChecks + 1), Ok)
  {
  }

  /** A step without handler, and one that is not there, are errors that leave the
      run running. */
  lemma UnknownStops(def: Definition, env: Env, w: World)
    requires !w.run.state.IsTerminal() && !w.run.state.Paused?
    ensures var found := StepById(def.steps, if w.run.current == [] then def.start else w.run.current);
            && (found.Some? && found.value.kind.Unregistered? ==>
                  Iterate(def, env, w) == Stop(Entered(w, found.value), Error))
            && (found.None? ==>
                  var turn := Iterate(def, env, w);
                  turn.Stop? && turn.result.Error? && turn.w.run == w.run)
  {
  }

  /** The license gate fails the run on the step, asks no handler and no parent. */
  lemma GateRejects(def: Definition, env: Env, w: World, step: Step)
    requires StandsAt(def, w, step) && !step.kind.End? && !step.kind.Unregistered? && env.license(w.calls).Rejected?
    ensures var w1 := Entered(w, step);
            Iterate(def, env, w) ==
              Stop(w1.(run := w1.run.(state := Failed, lastError := Some(REASON)),
                     events := w1.events + [Event(LicenseRejected, step.id, 0)]), Error)
  {
  }

  /** The step has a handler, the gate lets it through, and this is its first answer. */
  predicate Replies(def: Definition, env: Env, w: World, step: Step, reply: Reply)
  {
    && StandsAt(def, w, step) && !step.kind.End? && !step.kind.Unregistered?
    && env.license(w.calls).Granted? && env.reply(w.calls, step.id) == reply
  }

  /** Kinds whose handlers the engine knows nothing about but their answers. */
  predicate Plain(kind: Kind)
  {
    !kind.Action? && !kind.While? && !kind.TryCatch? && !kind.FanOut?
  }

  /** One call of the handler. */
  function Called(w: World, step: Step): World
  {
    Entered(w, step).(calls := w.calls + 1)
  }

  lemma AsksHandler(def: Definition, env: Env, w: World, step: Step, reply: Reply)
    requires Replies(def, env, w, step, reply)
    ensures Iterate(def, env, w) == HandlerTurn(def, env, Entered(w, step), w.run, step)
  {
    var w1 := Dispatched(Started(w), step);
    IsEntered(w, step);
    assert w1.calls == w.calls;
    assert StepTurn(def, env, w) == HandlerTurn(def, env, w1, w.run, step);
  }

  lemma IsEntered(w: World, step: Step)
    ensures Dispatched(Started(w), step) == Entered(w, step)
  {
    assert w.events + [] == w.events;
  }

  lemma EndsAtOnce(def: Definition, env: Env, w: World, snap: Run, step: Step)
    requires !Once(env, w, snap, step).1.Failing? || step.maxAttempts <= 1
    ensures var (w', out) := Once(env, w, snap, step);
            HandlerTurn(def, env, w, snap, step) == AfterStep(def, env, w', snap, step, out)
  {
  }

  lemma SettlesAtOnce(def: Definition, env: Env, w: World, step: Step, reply: Reply, w': World, out: Outcome)
    requires Replies(def, env, w, step, reply) && (!out.Failing? || step.maxAttempts <= 1)
    requires Once(env, Entered(w, step), w.run, step) == (w', out)
    ensures Iterate(def, env, w) == AfterStep(def, env, w', w.run, step, out)
  {
    AsksHandler(def, env, w, step, reply);
    EndsAtOnce(def, env, Entered(w, step), w.run, step);
  }

  /** A result is stored and routed at once. */
  lemma ReturnRoutes(def: Definition, env: Env, w: World, step: Step, entries: seq<Pair>)
    requires Replies(def, env, w, step, Return(entries)) && (Plain(step.kind) || step.kind.FanOut?)
    ensures Iterate(def, env, w) == SucceedTurn(Called(w, step), step, entries)
  {
    SettlesAtOnce(def, env, w, step, Return(entries), Called(w, step), Done(entries));
  }

  /** A handler that has nothing to return goes to Next. */
  lemma NothingRoutes(def: Definition, env: Env, w: World, step: Step, condition: bool)
    requires Replies(def, env, w, step, Holds(condition)) && Plain(step.kind)
    ensures Iterate(def, env, w) == Towards(Stored(Called(w, step), step, []), step.next)
  {
    SettlesAtOnce(def, env, w, step, Holds(condition), Called(w, step), Done([]));
    NextIsTaken(Called(w, step), step, []);
  }

  /** A while step below its cap takes the branch its condition names, which has
      to be wired. */
  lemma RoundRoutes(def: Definition, env: Env, w: World, step: Step, reply: Reply)
    requires Replies(def, env, w, step, reply) && step.kind.While? && !reply.Breaks?
    requires Iterations(w.run.vars, step.id) < MaxIter(step)
    ensures var b := if reply == Holds(true) then CONTINUE else EXIT;
            var left := Stored(Called(w, step), step, Round(w.run.vars, step.id, b));
            Iterate(def, env, w) == if b in step.branches then Towards(left, step.branches[b]) else Stop(left, Error)
  {
    var b := if reply == Holds(true) then CONTINUE else EXIT;
    RoundIsDone(env, Entered(w, step), w.run, step, reply);
    SettlesAtOnce(def, env, w, step, reply, Called(w, step), Done(Round(w.run.vars, step.id, b)));
    RoundFollows(Called(w, step), step, Round(w.run.vars, step.id, b), b);
  }

  /** The branch, and the counter raised by one. */
  function Round(vars: Vars, id: Key, b: Key): seq<Pair>
  {
    [Pair(BRANCH, Str(b)), Pair(CounterKey(id), Int(Iterations(vars, id) + 1))]
  }

  lemma RoundIsDone(env: Env, w: World, snap: Run, step: Step, reply: Reply)
    requires env.reply(w.calls, step.id) == reply && step.kind.While? && !reply.Breaks?
    requires Iterations(snap.vars, step.id) < MaxIter(step)
    ensures var b := if reply == Holds(true) then CONTINUE else EXIT;
            Once(env, w, snap, step) == (w.(calls := w.calls + 1), Done(Round(snap.vars, step.id, b)))
  {
  }

  lemma RoundFollows(w: World, step: Step, entries: seq<Pair>, b: Key)
    requires step.kind.While? && entries != [] && entries[0] == Pair(BRANCH, Str(b)) && b != []
    ensures var left := Stored(w, step, entries);
            SucceedTurn(w, step, entries)
              == if b in step.branches then Towards(left, step.branches[b]) else Stop(left, Error)
  {
    assert BranchOf(entries) == Some(b);
  }

  /** A try_catch opens its frame and goes to its body. */
  lemma TryCatchOpens(def: Definition, env: Env, w: World, step: Step, reply: Reply)
    requires Replies(def, env, w, step, reply) && step.kind.TryCatch? && !reply.Breaks?
    requires step.catchStep != [] && |w.run.frames| < 3
    ensures var w1 := Called(w, step);
            Iterate(def, env, w) ==
              Towards(w1.(run := w1.run.(frames := w.run.frames + [Frame(step.id, step.catchStep)]),
                          events := w1.events + [Event(StepSucceeded, step.id, 0)]), step.next)
  {
    var w2 := Called(w, step);
    var w3 := w2.(run := w2.run.(frames := w.run.frames + [Frame(step.id, step.catchStep)]));
    SettlesAtOnce(def, env, w, step, reply, w3, Done([]));
    NextIsTaken(w3, step, []);
  }

  /** The cancel verb ends the run, keeps its tasks and asks the parent. */
  lemma CancelEnds(def: Definition, env: Env, w: World, step: Step)
    requires Replies(def, env, w, step, Cancels) && Plain(step.kind)
    ensures var w1 := Called(w, step);
            Iterate(def, env, w) ==
              Stop(w1.(run := w1.run.(state := Cancelled), events := w1.events + [Event(RunCancelled, [], 0)],
                       joinChecks := w.joinChecks + 1), Ok)
  {
    SettlesAtOnce(def, env, w, step, Cancels, Called(w, step), Cancelling);
  }

  // ------------------------------------------------- pauses

  /** A pause is logged and ends the call. */
  function PausedAs(w: World, step: Step, r: Run, tasks: nat): Turn
  {
    var w1 := Called(w, step);
    Stop(w1.(run := r, events := w1.events + [Event(StepPaused, step.id, 0)], openTasks := w.openTasks + tasks), Ok)
  }

  lemma Suspends(def: Definition, env: Env, w: World, step: Step, reply: Reply, r: Run, tasks: nat)
    requires Replies(def, env, w, step, reply)
    requires Once(env, Entered(w, step), w.run, step)
          == (Called(w, step).(run := r, openTasks := w.openTasks + tasks), Suspended)
    ensures Iterate(def, env, w) == PausedAs(w, step, r, tasks)
  {
    SettlesAtOnce(def, env, w, step, reply, Called(w, step).(run := r, openTasks := w.openTasks + tasks), Suspended);
  }

  /** An action waits for its worker under the next attempt number. */
  lemma ActionPauses(def: Definition, env: Env, w: World, step: Step, reply: Reply)
    requires Replies(def, env, w, step, reply) && step.kind.Action? && !reply.Breaks?
    requires step.action != [] && DOT in step.action
    ensures Iterate(def, env, w)
         == PausedAs(w, step, Entered(w, step).run.(state := Paused, dispatch := Some(step.action),
                                                    attempt := w.run.attempt + 1), 0)
  {
    Suspends(def, env, w, step, reply, Entered(w, step).run.(state := Paused, dispatch := Some(step.action),
                                                             attempt := w.run.attempt + 1), 0);
  }

  /** A fan-out verb that does not finish at once waits for its children, with no
      marker of its own. */
  lemma FanOutPauses(def: Definition, env: Env, w: World, step: Step, reply: Reply)
    requires Replies(def, env, w, step, reply) && step.kind.FanOut? && !reply.Breaks? && !reply.Return?
    ensures Iterate(def, env, w) == PausedAs(w, step, Entered(w, step).run.(state := Paused), 0)
  {
    Suspends(def, env, w, step, reply, Entered(w, step).run.(state := Paused), 0);
  }

  // ------------------------------------------------- failures

  /** A frame takes a failure: the run goes on from its catch step with the frame
      gone and the step and the message in _error; no other variable changes. */
  lemma FailureIsCaught(def: Definition, env: Env, w: World, snap: Run, step: Step, msg: Msg)
    requires w.run.frames != []
    ensures var n := |w.run.frames| - 1;
            var turn := AfterStep(def, env, w, snap, step, Failing(msg));
            var vars := turn.w.run.vars;
            && turn == Again(w.(run := w.run.(state := Running, current := w.run.frames[n].catchStep,
                                              frames := w.run.frames[..n], vars := vars),
                                events := w.events + [Event(StepCaught, step.id, 0)]))
            && vars == w.run.vars[ERROR := Map(map[STEP_ID := Str(step.id), MESSAGE := Str(msg)])]
            && Get(vars, [ERROR, STEP_ID]) == Str(step.id) && Get(vars, [ERROR, MESSAGE]) == Str(msg)
  {
    Termination.SegmentsPlain(ERROR);
  }

  /** Without a frame it fails the run: on the step, with its message, logged, and
      told to the parent once; nothing else of the run changes. What is undone is
      the business of module RollbackLaw. */
  lemma FailureEnds(def: Definition, env: Env, w: World, snap: Run, step: Step, msg: Msg)
    requires w.run.frames == [] && !w.run.state.IsTerminal()
    ensures var turn := AfterStep(def, env, w, snap, step, Failing(msg));
            var undoes := Completed(def.steps, w.events + [Event(StepFailed, step.id, 0)], step.id) != [];
            turn == Stop(w.(run := w.run.(state := Failed, current := step.id, lastError := Some(REASON + msg)),
                            events := w.events + [Event(StepFailed, step.id, 0)]
                                      + (if undoes then [Event(CompensationStarted, step.id, 0)] else []),
                            undo := turn.w.undo, joinChecks := w.joinChecks + 1), Error)
  {
    assert w.events + [Event(StepFailed, step.id, 0)] + [] == w.events + [Event(StepFailed, step.id, 0)];
  }

  /** A handler that breaks; a while step at its cap; a try_catch without a catch
      step or at depth three; an action whose name is not of the form
      service.name. */
  function Failure(r: Run, step: Step, reply: Reply): Option<Msg>
  {
    match step.kind
    case Action => if step.action == [] || DOT !in step.action then Some(REASON) else None
    case _ =>
      if reply.Breaks? then Some(reply.msg)
      else if step.kind.While? && Iterations(r.vars, step.id) >= MaxIter(step) then Some(REASON)
      else if step.kind.TryCatch? && (step.catchStep == [] || |r.frames| >= 3) then Some(REASON)
      else None
  }

  /** Each of them, in the only attempt the step has, is a failure of the step. */
  lemma BreakFails(def: Definition, env: Env, w: World, step: Step, reply: Reply, msg: Msg)
    requires Replies(def, env, w, step, reply) && step.maxAttempts <= 1
    requires Failure(w.run, step, reply) == Some(msg)
    ensures Iterate(def, env, w) == AfterStep(def, env, Called(w, step), w.run, step, Failing(msg))
  {
    BreaksOnce(env, Entered(w, step), w.run, step, reply, msg);
    SettlesAtOnce(def, env, w, step, reply, Called(w, step), Failing(msg));
  }

  lemma BreaksOnce(env: Env, w: World, snap: Run, step: Step, reply: Reply, msg: Msg)
    requires env.reply(w.calls, step.id) == reply && snap.frames == w.run.frames
    requires Failure(snap, step, reply) == Some(msg)
    ensures Once(env, w, snap, step) == (w.(calls := w.calls + 1), Failing(msg))
  {
  }

  // ------------------------------------------------- reading the counter of a while step

  predicate CountsAs(v: Value, n: int)
  {
    match v
    case Int(k) => n == k
    case Float(r) =>
      if r >= 0.0 then 0 <= n && n as real <= r < (n + 1) as real else n <= 0 && (n - 1) as real < r <= n as real
    case _ => n == 0
  }

  /** A whole number counts as it is, any other number without its fraction, and
      what is no number as zero. */
  lemma CounterIsRead(vars: Vars, id: Key)
    ensures CountsAs(Get(vars, [WHILE, id, ITER]), Iterations(vars, id))
  {
    GetBelow(vars, WHILE, [id, ITER]);
    GetBelow(SubMap(vars, WHILE), id, [ITER]);
    assert [WHILE] + [id, ITER] == [WHILE, id, ITER] && [id] + [ITER] == [id, ITER];
    var mine := SubMap(SubMap(vars, WHILE), id);
    assert Get(mine, [ITER]) == if ITER in mine then mine[ITER] else Null;
  }

  /** A path is read step by step; what is no map holds nothing. */
  lemma GetBelow(t: Vars, head: Key, path: seq<Key>)
    requires path != []
    ensures Get(t, [head] + path) == Get(SubMap(t, head), path)
  {
    assert ([head] + path)[1..] == path;
  }
}
