/** Where a call of Advance leaves the run of a well-formed definition. */
module Settling {
  import opened Domain
  import opened DottedKeys
  import opened Runs
  import opened Engine
  import opened Positions
  import opened Termination

  // ------------------------------------------------- well-formed definitions

  predicate Known(def: Definition, id: Key)
  {
    id != [] && StepById(def.steps, id).Some?
  }

  /** Targets exist, steps other than end have a next, every type has a handler. */
  predicate WellFormed(def: Definition)
  {
    && Known(def, def.start)
    && forall s :: s in def.steps ==> WellFormedStep(def, s)
  }

  predicate WellFormedStep(def: Definition, s: Step)
  {
    && !s.kind.Unregistered?
    && (!s.kind.End? ==> Known(def, s.next))
    && (forall b :: b in s.branches ==> Known(def, s.branches[b]))
    && (s.kind.While? ==> CONTINUE in s.branches && EXIT in s.branches)
    && (s.kind.TryCatch? ==> Known(def, s.catchStep))
  }

  /** Decisions and switches only answer with branches that are wired. */
  ghost predicate AnswersWiredBranches(def: Definition, env: Env)
  {
    forall s, n: nat :: s in def.steps && s.kind.Choice? && env.reply(n, s.id).Return? ==>
                     var b := BranchOf(env.reply(n, s.id).entries);
                     b.Some? ==> b.value in s.branches
  }

  predicate FramesKnown(def: Definition, r: Run)
  {
    forall f :: f in r.frames ==> Known(def, f.catchStep)
  }

  /** A run that Advance can work on. */
  predicate OnTrack(def: Definition, r: Run)
  {
    && FramesKnown(def, r)
    && (if r.state.Paused? then Known(def, r.current) && !StepById(def.steps, r.current).value.kind.End?
        else r.current == [] || Known(def, r.current))
  }

  predicate Settled(def: Definition, r: Run)
  {
    r.state.IsTerminal() || (r.state.Paused? && OnTrack(def, r))
  }

  // ------------------------------------------------- one handler visit

  /** The action attempt is the one this visit took, or not taken yet. */
  predicate Visiting(r: Run, snap: Run, step: Step)
  {
    && r.current == step.id && !r.state.IsTerminal()
    && (r.attempt == snap.attempt || (r.attempt == snap.attempt + 1 && r.state.Paused?))
  }

  lemma OnceSettles(def: Definition, env: Env, w: World, snap: Run, step: Step)
    requires WellFormedStep(def, step) && Visiting(w.run, snap, step) && FramesKnown(def, w.run)
    ensures var (w', out) := Once(env, w, snap, step);
            && Visiting(w'.run, snap, step) && FramesKnown(def, w'.run)
            && (out.Suspended? ==> w'.run.state.Paused?)
            && (out.Done? && !step.kind.TryCatch? ==> DoneBy(env, snap, step, out.entries))
            && (out.Done? && step.kind.TryCatch? ==> out.entries == [])
  {
    var reply := env.reply(w.calls, step.id);
    if reply.Pauses? {
      assert Marked(w.run, reply.mark, step.id).attempt == w.run.attempt;
    }
  }

  lemma {:induction false} AttemptSettles(def: Definition, env: Env, w: World, snap: Run, step: Step, n: nat)
    requires n < Attempts(step)
    requires WellFormedStep(def, step) && Visiting(w.run, snap, step) && FramesKnown(def, w.run)
    ensures var (w', out) := Attempt(env, w, snap, step, n);
            && Visiting(w'.run, snap, step) && FramesKnown(def, w'.run)
            && (out.Suspended? ==> w'.run.state.Paused?)
            && (out.Done? && !step.kind.TryCatch? ==> DoneBy(env, snap, step, out.entries))
            && (out.Done? && step.kind.TryCatch? ==> out.entries == [])
    decreases Attempts(step) - n
  {
    OnceSettles(def, env, w, snap, step);
    var (w1, out) := Once(env, w, snap, step);
    if out.Failing? && n + 1 < Attempts(step) {
      AttemptSettles(def, env, LogRetry(w1, step, n + 1), snap, step, n + 1);
    }
  }

  // ------------------------------------------------- one iteration

  ghost predicate KeepsTrack(def: Definition, turn: Turn)
  {
    match turn
    case Again(w') => OnTrack(def, w'.run) && w'.run.state.Running?
    case Stop(w', result) => Settled(def, w'.run) && !result.ContextDone?
  }

  lemma BranchesOfDone(def: Definition, env: Env, snap: Run, step: Step, entries: seq<Pair>)
    requires step in def.steps && WellFormedStep(def, step) && !step.kind.End? && AnswersWiredBranches(def, env)
    requires if step.kind.TryCatch? then entries == [] else DoneBy(env, snap, step, entries)
    ensures NextStep(step, entries).Some? && Known(def, NextStep(step, entries).value)
  {
  }

  lemma AfterStepSettles(def: Definition, env: Env, w: World, snap: Run, step: Step, out: Outcome)
    requires step in def.steps && WellFormedStep(def, step) && !step.kind.End? && AnswersWiredBranches(def, env)
    requires StepById(def.steps, step.id) == Some(step) && step.id != []
    requires Visiting(w.run, snap, step) && FramesKnown(def, w.run)
    requires out.Suspended? ==> w.run.state.Paused?
    requires out.Done? ==> if step.kind.TryCatch? then out.entries == [] else DoneBy(env, snap, step, out.entries)
    ensures KeepsTrack(def, AfterStep(def, env, w, snap, step, out))
  {
    if out.Done? {
      BranchesOfDone(def, env, snap, step, out.entries);
    }
  }

  lemma StepSettles(def: Definition, env: Env, w: World)
    requires WellFormed(def) && AnswersWiredBranches(def, env)
    requires OnTrack(def, w.run) && !w.run.state.IsTerminal() && !w.run.state.Paused?
    ensures KeepsTrack(def, StepTurn(def, env, w))
  {
    var w0 := Started(w);
    var step := StepById(def.steps, At(def, w.run)).value;
    var w1 := Dispatched(w0, step);
    if !step.kind.End? && env.license(w1.calls).Granted? {
      AttemptSettles(def, env, w1, w.run, step, 0);
      var (w2, out) := Attempt(env, w1, w.run, step, 0);
      AfterStepSettles(def, env, w2, w.run, step, out);
    }
  }

  lemma WakeSettles(def: Definition, env: Env, w: World)
    requires WellFormed(def) && OnTrack(def, w.run) && w.run.state.Paused?
    ensures KeepsTrack(def, WakeTurn(def, env, w))
  {
  }

  // ------------------------------------------------- the whole call

  /** A call that was not cut short leaves the run paused or terminal, ready for
      the next call: retries, try_catch, license rejection and rollback included. */
  lemma AdvanceSettles(def: Definition, env: Env, w: World, budget: nat)
    requires WellFormed(def) && AnswersWiredBranches(def, env) && OnTrack(def, w.run)
    ensures var (w', result) := Loop(def, env, w, budget);
            if result.ContextDone? then OnTrack(def, w'.run) else Settled(def, w'.run)
  {
    var inv := (x: World) => OnTrack(def, x.run);
    var end := (x: World, r: Result) => Settled(def, x.run);
    forall x | inv(x)
      ensures match Iteration(def, env)(x)
              case Again(x') => inv(x')
              case Stop(x', result) => end(x', result) && !result.ContextDone?
    {
      if x.run.state.Paused? {
        WakeSettles(def, env, x);
      } else if !x.run.state.IsTerminal() {
        StepSettles(def, env, x);
      }
    }
    DriveKeeps(Iteration(def, env), inv, end, w, budget);
  }

  /** With the conditions that bound a call, nothing cuts it short. */
  lemma AdvanceAlwaysSettles(def: Definition, from: Position, env: Env, w: World, budget: nat)
    requires WellFormed(def) && AnswersWiredBranches(def, env) && OnTrack(def, w.run)
    requires Bounded(def, from, env) && OnPath(def, from, w.run)
    requires budget >= Bound(def, w.run.vars) + 2
    ensures Settled(def, Loop(def, env, w, budget).0.run)
  {
    AdvanceSettles(def, env, w, budget);
    AdvanceEnds(def, from, env, w, budget);
  }
}
