/** When the end of a run is told to its parent: which operations ask for the
    parent's join, and what they are in the fan-out protocol. */
module ParentChecks {
  import opened Domain
  import opened DottedKeys
  import opened Runs
  import opened Engine
  import opened Lifecycle
  import opened Completion
  import opened Waits
  import FanOut

  // ------------------------------------------------- one call

  /** The last thing logged is that the license gate rejected the run. */
  predicate GateClosed(w: World)
  {
    w.events != [] && w.events[|w.events| - 1].kind.LicenseRejected?
  }

  /** How often the end that a live run came to, if it did, is told by an advance. */
  function Told(w: World): nat
  {
    if w.run.state.IsTerminal() && !GateClosed(w) then 1 else 0
  }

  /** The parent was asked that often, and a run rejected by the gate has failed. */
  predicate AskedOnce(before: nat, w: World)
  {
    w.joinChecks == before + Told(w) && (w.run.state.IsTerminal() && GateClosed(w) ==> w.run.state.Failed?)
  }

  lemma {:induction false} AttemptAsksNobody(env: Env, w: World, snap: Run, step: Step, n: nat)
    requires n < Attempts(step) && !w.run.state.IsTerminal()
    ensures var w' := Attempt(env, w, snap, step, n).0;
            w'.joinChecks == w.joinChecks && !w'.run.state.IsTerminal()
    decreases Attempts(step) - n
  {
    var (w1, out) := Once(env, w, snap, step);
    OnceAsksNobody(env, w, snap, step);
    if out.Failing? && n + 1 < Attempts(step) {
      AttemptAsksNobody(env, LogRetry(w1, step, n + 1), snap, step, n + 1);
    }
  }

  lemma OnceAsksNobody(env: Env, w: World, snap: Run, step: Step)
    requires !w.run.state.IsTerminal()
    ensures var w' := Once(env, w, snap, step).0; w'.joinChecks == w.joinChecks && !w'.run.state.IsTerminal()
  {
    var reply := env.reply(w.calls, step.id);
    if reply.Pauses? {
      assert Marked(w.run, reply.mark, step.id).state.Paused?;
    }
  }

  lemma AfterStepAsks(def: Definition, env: Env, w: World, snap: Run, step: Step, out: Outcome)
    requires !w.run.state.IsTerminal()
    ensures AskedOnce(w.joinChecks, AfterStep(def, env, w, snap, step, out).w)
  {
  }

  lemma StepAsks(def: Definition, env: Env, w: World)
    requires !w.run.state.IsTerminal() && !w.run.state.Paused?
    ensures AskedOnce(w.joinChecks, StepTurn(def, env, w).w)
  {
    var found := StepById(def.steps, At(def, w.run));
    if found.Some? {
      var step := found.value;
      var w1 := Dispatched(Started(w), step);
      if !step.kind.End? && !step.kind.Unregistered? && env.license(w1.calls).Granted? {
        AttemptAsksNobody(env, w1, w.run, step, 0);
        var (w2, out) := Attempt(env, w1, w.run, step, 0);
        AfterStepAsks(def, env, w2, w.run, step, out);
      }
    }
  }

  /** An iteration asks for the parent once if it ends the run, in whatever way but
      at the license gate, and not otherwise. */
  lemma IterationAsks(def: Definition, env: Env, w: World)
    requires !w.run.state.IsTerminal()
    ensures AskedOnce(w.joinChecks, Iterate(def, env, w).w)
  {
    if !w.run.state.Paused? {
      StepAsks(def, env, w);
    }
  }

  /** So does a whole call; on a run that is over it asks nothing. */
  lemma CallAsks(def: Definition, env: Env, w: World, budget: nat)
    ensures var w' := Loop(def, env, w, budget).0;
            w'.joinChecks == w.joinChecks + if w.run.state.IsTerminal() then 0 else Told(w')
  {
    if !w.run.state.IsTerminal() {
      LiveCallAsks(def, env, w, budget);
    }
  }

  lemma LiveCallAsks(def: Definition, env: Env, w: World, budget: nat)
    requires !w.run.state.IsTerminal()
    ensures AskedOnce(w.joinChecks, Loop(def, env, w, budget).0)
  {
    var n := w.joinChecks;
    var inv := (x: World) => !x.run.state.IsTerminal() && x.joinChecks == n;
    var end := (x: World, r: Engine.Result) => AskedOnce(n, x);
    forall x | inv(x)
      ensures match Iteration(def, env)(x)
              case Again(x') => inv(x')
              case Stop(x', result) => end(x', result) && !result.ContextDone?
    {
      IterationAsks(def, env, x);
      StopsForReal(def, env, x);
      GoesOnLive(def, env, x);
    }
    DriveKeeps(Iteration(def, env), inv, end, w, budget);
  }

  lemma GoesOnLive(def: Definition, env: Env, w: World)
    ensures Iterate(def, env, w).Again? ==> !Iterate(def, env, w).w.run.state.IsTerminal()
  {
  }

  // ------------------------------------------------- whole histories

  /** Whether an operation asks for the parent of the run. */
  predicate AsksParent(def: Definition, w: World, op: Op)
  {
    match op
    case Advance(_, _) => !w.run.state.IsTerminal() && Told(Apply(def, w, op)) == 1
    case Cancel(_) => !w.run.state.IsTerminal()
    case FailStep(step, attempt, _, compensator) => Expected(w.run, step, attempt) && compensator.Some?
    case CompensateFailedStep(_, _) => !w.run.state.Succeeded? && !w.run.state.Cancelled?
    case _ => false
  }

  lemma OpAsks(def: Definition, w: World, op: Op)
    ensures Apply(def, w, op).joinChecks == w.joinChecks + if AsksParent(def, w, op) then 1 else 0
  {
    if op.Advance? {
      CallAsks(def, op.env, w, op.budget);
    }
  }

  /** What ends a run without a word to its parent. */
  predicate Unheard(op: Op, after: World)
  {
    op.MarkFailed? || (op.FailStep? && op.compensator.None?) || (op.Advance? && GateClosed(after))
  }

  /** An operation on a live run asks for the parent exactly when it ends the run,
      and not in one of these ways. */
  lemma LiveAsksAtItsEnd(def: Definition, w: World, op: Op)
    requires !w.run.state.IsTerminal()
    ensures var w' := Apply(def, w, op);
            AsksParent(def, w, op) <==> w'.run.state.IsTerminal() && !Unheard(op, w')
  {
    if op.FailStep? || op.CompensateFailedStep? {
      FailureIsEnd(def, w, op);
    }
  }

  lemma FailureIsEnd(def: Definition, w: World, op: Op)
    requires !w.run.state.IsTerminal() && (op.FailStep? || op.CompensateFailedStep?)
    ensures Apply(def, w, op).run.state.IsTerminal() <==>
              op.CompensateFailedStep? || Expected(w.run, op.step, op.attempt)
  {
  }

  /** While a run lives nobody asks for its parent. */
  lemma {:induction false} LiveAsksNothing(def: Definition, w: World, ops: seq<Op>)
    requires !History(def, w, ops).run.state.IsTerminal()
    ensures !w.run.state.IsTerminal() && History(def, w, ops).joinChecks == w.joinChecks
    decreases |ops|
  {
    if w.run.state.IsTerminal() {
      TerminalIsForever(def, w, ops);
    }
    if ops != [] {
      LiveAsksNothing(def, Apply(def, w, ops[0]), ops[1..]);
      OpAsks(def, w, ops[0]);
      LiveAsksAtItsEnd(def, w, ops[0]);
    }
  }

  /** Whatever happens to a run, the operation that ends it is the first to ask for
      its parent and does so once; unless it is a failure recorded without a
      rollback, or the license gate: then nobody has. */
  lemma EndIsToldOnce(def: Definition, w: World, ops: seq<Op>, last: Op)
    requires !History(def, w, ops).run.state.IsTerminal()
    requires History(def, w, ops + [last]).run.state.IsTerminal()
    ensures var w' := History(def, w, ops + [last]);
            w'.joinChecks == w.joinChecks + if Unheard(last, w') then 0 else 1
  {
    HistorySnoc(def, w, ops, last);
    LiveAsksNothing(def, w, ops);
    OpAsks(def, History(def, w, ops), last);
    LiveAsksAtItsEnd(def, History(def, w, ops), last);
  }

  function Rollbacks(ops: seq<Op>): nat
  {
    if ops == [] then 0 else (if ops[0].CompensateFailedStep? then 1 else 0) + Rollbacks(ops[1..])
  }

  /** After its end only another rollback of a failed run asks again. */
  lemma {:induction false} OverAsksForRollbacks(def: Definition, w: World, ops: seq<Op>)
    requires w.run.state.IsTerminal()
    ensures History(def, w, ops).joinChecks == w.joinChecks + if w.run.state.Failed? then Rollbacks(ops) else 0
    decreases |ops|
  {
    if ops != [] {
      OpAsks(def, w, ops[0]);
      TerminalStep(def, w, ops[0]);
      OverAsksForRollbacks(def, Apply(def, w, ops[0]), ops[1..]);
    }
  }

  // ------------------------------------------------- as steps of the fan-out protocol

  /** The steps of the protocol that an operation on its i-th child is. */
  function ChildSteps(op: Op, before: RunState, after: World, i: nat): seq<FanOut.Step>
  {
    if op.CompensateFailedStep? && before.Failed? then [FanOut.ChildWrite(i, Failed)]
    else if before == after.run.state then []
    else if op.FailStep? && op.compensator.Some? then [FanOut.WorkerFails(i), FanOut.RollbackSettles(i)]
    else if after.run.state.IsTerminal() && Unheard(op, after) then [FanOut.FailsUnchecked(i)]
    else [FanOut.ChildWrite(i, after.run.state)]
  }

  predicate CanTake(s: FanOut.State, steps: seq<FanOut.Step>)
    decreases |steps|
  {
    steps == [] || (FanOut.Enabled(s, steps[0]) && CanTake(FanOut.Next(s, steps[0]), steps[1..]))
  }

  function Taken(s: FanOut.State, steps: seq<FanOut.Step>): FanOut.State
    requires CanTake(s, steps)
    decreases |steps|
  {
    if steps == [] then s else Taken(FanOut.Next(s, steps[0]), steps[1..])
  }

  lemma TakesOne(s: FanOut.State, step: FanOut.Step)
    requires FanOut.Enabled(s, step)
    ensures CanTake(s, [step]) && Taken(s, [step]) == FanOut.Next(s, step)
  {
    assert [step][1..] == [];
  }

  lemma TakesTwo(s: FanOut.State, a: FanOut.Step, b: FanOut.Step)
    requires FanOut.Enabled(s, a) && FanOut.Enabled(FanOut.Next(s, a), b)
    ensures CanTake(s, [a, b]) && Taken(s, [a, b]) == FanOut.Next(FanOut.Next(s, a), b)
  {
    assert [a, b][1..] == [b];
    TakesOne(FanOut.Next(s, a), b);
  }

  lemma OverAsks(def: Definition, w: World, op: Op)
    requires w.run.state.IsTerminal()
    ensures Apply(def, w, op).run.state == w.run.state
    ensures AsksParent(def, w, op) <==> op.CompensateFailedStep? && w.run.state.Failed?
  {
    TerminalStep(def, w, op);
  }

  lemma OverSteps(op: Op, before: RunState, after: World, s: FanOut.State, i: nat)
    requires i < |s.children| && s.children[i] == before && (i < s.published || op.Cancel?)
    requires before.IsTerminal() && after.run.state == before
    ensures var steps := ChildSteps(op, before, after, i);
            && CanTake(s, steps)
            && Taken(s, steps) == s.(children := s.children[i := before],
                                     toRead := s.toRead + if op.CompensateFailedStep? && before.Failed? then 1 else 0)
  {
    assert s.children[i := before] == s.children;
    if op.CompensateFailedStep? && before.Failed? {
      TakesOne(s, FanOut.ChildWrite(i, Failed));
    }
  }

  /** Unheard ends are failures, and so is a worker's failure with a rollback. */
  predicate EndsKnown(op: Op, before: RunState, after: World)
  {
    var st := after.run.state;
    && (st.IsTerminal() && Unheard(op, after) ==> st.Failed?)
    && (op.FailStep? && op.compensator.Some? && st != before ==> st.Failed?)
    && (op.Cancel? ==> st.Cancelled?)
  }

  lemma LiveSteps(op: Op, before: RunState, after: World, s: FanOut.State, i: nat)
    requires i < |s.children| && s.children[i] == before && (i < s.published || op.Cancel?)
    requires !before.IsTerminal() && EndsKnown(op, before, after)
    ensures var st := after.run.state;
            var steps := ChildSteps(op, before, after, i);
            && CanTake(s, steps)
            && Taken(s, steps) == s.(children := s.children[i := st],
                                     toRead := s.toRead + if st.IsTerminal() && !Unheard(op, after) then 1 else 0)
  {
    var st := after.run.state;
    if st == before {
      assert s.children[i := st] == s.children;
    } else if op.FailStep? && op.compensator.Some? {
      TakesTwo(s, FanOut.WorkerFails(i), FanOut.RollbackSettles(i));
      assert s.children[i := Failed][i := Failed] == s.children[i := Failed];
    } else if st.IsTerminal() && Unheard(op, after) {
      TakesOne(s, FanOut.FailsUnchecked(i));
    } else {
      TakesOne(s, FanOut.ChildWrite(i, st));
    }
  }

  lemma UnheardIsFailure(def: Definition, w: World, op: Op)
    requires !w.run.state.IsTerminal()
    ensures EndsKnown(op, w.run.state, Apply(def, w, op))
  {
    if op.Advance? {
      LiveCallAsks(def, op.env, w, op.budget);
    }
  }

  /** Every operation on a child is what these steps of the protocol are: they can
      be taken, they leave the child in the state the engine leaves it in, and
      they start exactly as many checks of the parent as the engine makes. So an
      end that the engine tells is a step with a check, and one that it does not
      tell is the protocol's unchecked failure. */
  lemma ChildFollowsProtocol(def: Definition, w: World, op: Op, s: FanOut.State, i: nat)
    requires i < |s.children| && s.children[i] == w.run.state && (i < s.published || op.Cancel?)
    ensures var w' := Apply(def, w, op);
            var steps := ChildSteps(op, w.run.state, w', i);
            && w'.joinChecks >= w.joinChecks && CanTake(s, steps)
            && Taken(s, steps) == s.(children := s.children[i := w'.run.state],
                                     toRead := s.toRead + (w'.joinChecks - w.joinChecks))
  {
    var w' := Apply(def, w, op);
    OpAsks(def, w, op);
    if w.run.state.IsTerminal() {
      OverAsks(def, w, op);
      OverSteps(op, w.run.state, w', s, i);
    } else {
      LiveAsksAtItsEnd(def, w, op);
      UnheardIsFailure(def, w, op);
      LiveSteps(op, w.run.state, w', s, i);
    }
  }
}
