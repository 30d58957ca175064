/** Where histories leave a run, and what a call of Advance does that meets a
    cycle there: the conditions of the bound in module Termination are the
    weakest ones. */
module Endless {
  import opened Domain
  import opened DottedKeys
  import opened Runs
  import opened Engine
  import opened Lifecycle
  import opened Positions
  import opened Termination
  import Join

  // ------------------------------------------------- where any history leaves a run

  ghost predicate Stays(def: Definition, from: Position, r: Run)
  {
    r.state.IsTerminal() || OnPath(def, from, r)
  }

  lemma StaysHere(def: Definition, from: Position, r: Run, r': Run)
    requires Stands(def, from, Here(def, r)) && Here(def, r') == Here(def, r) && !r'.state.Paused?
    ensures Stays(def, from, r')
  {
  }

  /** A pause leaves the run where the wake-up finds it. */
  lemma PauseStays(def: Definition, from: Position, r: Run, step: Step)
    requires Stands(def, from, Here(def, r)) && CanPause(step.kind)
    requires StepById(def.steps, step.id) == Some(step) && r.current == step.id == At(def, r)
    ensures OnPath(def, from, r)
  {
    forall timedOut | WakeNext(step, timedOut) != []
      ensures Stands(def, from, Position(WakeNext(step, timedOut), r.frames))
    {
      StandsOn(def, from, Here(def, r), Position(WakeNext(step, timedOut), r.frames));
    }
  }

  /** A success whose next step is missing is an error; the frame of a try_catch
      stays behind. */
  lemma MissingNextStays(def: Definition, from: Position, w: World, snap: Run, step: Step, entries: seq<Pair>)
    requires Stands(def, from, Here(def, snap)) && StepById(def.steps, step.id) == Some(step)
    requires w.run.current == step.id == At(def, snap) && w.run.state.Running?
    requires w.run.frames == FramesAfter(step, snap.frames) && CanPush(step, snap.frames)
    requires step.kind.TryCatch? ==> entries == []
    ensures SucceedTurn(w, step, entries).Stop? ==> Stays(def, from, SucceedTurn(w, step, entries).w.run)
  {
    var turn := SucceedTurn(w, step, entries);
    if turn.Stop? {
      if step.kind.TryCatch? {
        assert step.next == [];
        StandsOn(def, from, Here(def, snap), Here(def, turn.w.run));
      } else {
        StaysHere(def, from, snap, turn.w.run);
      }
    }
  }

  lemma HandlerStays(def: Definition, from: Position, env: Env, w: World, snap: Run, step: Step)
    requires Stands(def, from, Here(def, snap)) && StepById(def.steps, step.id) == Some(step)
    requires !step.kind.End? && !step.kind.Unregistered?
    requires w.run.current == step.id == At(def, snap) && w.run.frames == snap.frames && w.run.state.Running?
    ensures Stays(def, from, HandlerTurn(def, env, w, snap, step).w.run)
  {
    var (w1, out) := Attempt(env, w, snap, step, 0);
    AttemptKeeps(env, w, snap, step, 0);
    match out
    case Suspended => PauseStays(def, from, w1.run, step);
    case Done(entries) =>
      DoneLeads(def, env, w1, snap, step, entries);
      MissingNextStays(def, from, w1, snap, step, entries);
      if SucceedTurn(w1, step, entries).Again? {
        StandsOn(def, from, Here(def, snap), Here(def, SucceedTurn(w1, step, entries).w.run));
      }
    case Failing(msg) =>
      if w1.run.frames != [] {
        CatchLeads(def, w1, snap, step, msg);
        StandsOn(def, from, Here(def, snap), Here(def, AfterStep(def, env, w1, snap, step, out).w.run));
      } else {
        assert FailRun(def, env, w1, snap, step, msg).run.state.IsTerminal();
      }
    case Cancelling =>
  }

  lemma StepStays(def: Definition, from: Position, env: Env, w: World)
    requires OnPath(def, from, w.run) && !w.run.state.Paused?
    ensures Stays(def, from, StepTurn(def, env, w).w.run)
  {
    var found := StepById(def.steps, At(def, w.run));
    if found.Some? {
      var step := found.value;
      var w1 := Dispatched(Started(w), step);
      StaysHere(def, from, w.run, w1.run);
      if !step.kind.End? && !step.kind.Unregistered? && env.license(w1.calls).Granted? {
        HandlerStays(def, from, env, w1, w.run, step);
      }
    }
  }

  lemma WakeStays(def: Definition, from: Position, env: Env, w: World)
    requires OnPath(def, from, w.run) && w.run.state.Paused?
    ensures Stays(def, from, WakeTurn(def, env, w).w.run)
  {
    var turn := WakeTurn(def, env, w);
    if turn.Again? {
      WakeStands(def, from, env, w);
    } else if turn.w.run != w.run {
      StaysHere(def, from, w.run, turn.w.run);
    }
  }

  lemma IterationStays(def: Definition, from: Position, env: Env, w: World)
    requires Stays(def, from, w.run)
    ensures Stays(def, from, Iterate(def, env, w).w.run)
  {
    if !w.run.state.IsTerminal() {
      if w.run.state.Paused? {
        WakeStays(def, from, env, w);
      } else {
        StepStays(def, from, env, w);
      }
    }
  }

  lemma CallStays(def: Definition, from: Position, env: Env, w: World, budget: nat)
    requires Stays(def, from, w.run)
    ensures Stays(def, from, Loop(def, env, w, budget).0.run)
  {
    var inv := (x: World) => Stays(def, from, x.run);
    var end := (x: World, r: Engine.Result) => Stays(def, from, x.run);
    forall x | inv(x)
      ensures match Iteration(def, env)(x)
              case Again(x') => inv(x')
              case Stop(x', result) => end(x', result) && !result.ContextDone?
    {
      IterationStays(def, from, env, x);
      StopsForReal(def, env, x);
    }
    DriveKeeps(Iteration(def, env), inv, end, w, budget);
  }

  lemma OpStays(def: Definition, from: Position, w: World, op: Op)
    requires Stays(def, from, w.run)
    ensures Stays(def, from, Apply(def, w, op).run)
  {
    if op.Advance? {
      CallStays(def, from, op.env, w, op.budget);
    } else if !w.run.state.IsTerminal() {
      DeliveryStays(def, from, w, op);
    }
  }

  /** The other operations end the run or leave it where it is. */
  lemma DeliveryStays(def: Definition, from: Position, w: World, op: Op)
    requires OnPath(def, from, w.run) && !op.Advance?
    ensures Stays(def, from, Apply(def, w, op).run)
  {
    var r := Apply(def, w, op).run;
    if op.FailStep? || op.CompensateFailedStep? {
      FailureEnds(def, w, op);
    }
    if !r.state.IsTerminal() {
      SamePlace(def, from, w.run, r);
    }
  }

  lemma FailureEnds(def: Definition, w: World, op: Op)
    requires op.FailStep? || op.CompensateFailedStep?
    ensures Apply(def, w, op) == w || Apply(def, w, op).run.state.IsTerminal()
  {
  }

  lemma SamePlace(def: Definition, from: Position, r: Run, r': Run)
    requires OnPath(def, from, r) && r'.state == r.state && r'.current == r.current && r'.frames == r.frames
    ensures OnPath(def, from, r')
  {
  }

  /** Over any history a run that stands where runs from `from` can get has ended
      or stands, and wakes up, where they can get: at most three frames, each of
      a try_catch of the definition, included. */
  lemma {:induction false} HistoryStaysOnPath(def: Definition, from: Position, w: World, ops: seq<Op>)
    requires Stays(def, from, w.run)
    ensures Stays(def, from, History(def, w, ops).run)
    decreases |ops|
  {
    if ops != [] {
      OpStays(def, from, w, ops[0]);
      HistoryStaysOnPath(def, from, Apply(def, w, ops[0]), ops[1..]);
    }
  }

  // ------------------------------------------------- cycles

  /** A round of the while step `loop` that is never counted. */
  ghost predicate UncountedRound(def: Definition, loop: Option<Key>, p: Position, q: Position)
  {
    && loop == Some(p.id) && IsWhile(def, p.id) && !Plain(p.id) && q.frames == p.frames
    && exists c :: RoundLeads(StepById(def.steps, p.id).value, c, q.id)
  }

  ghost predicate Move(def: Definition, loop: Option<Key>, p: Position, q: Position)
  {
    FreeMove(def, p, q) || UncountedRound(def, loop, p, q)
  }

  ghost predicate Cycle(def: Definition, loop: Option<Key>, ps: seq<Position>)
  {
    && |ps| >= 2 && ps[0] == ps[|ps| - 1]
    && (forall i :: 0 <= i < |ps| ==> ps[i].id != [])
    && (forall i :: 0 <= i < |ps| - 1 ==> Move(def, loop, ps[i], ps[i + 1]))
  }

  // ------------------------------------------------- handlers that drive a run around it

  ghost function Answer(s: Step, next: Key): (entries: seq<Pair>)
    requires Leads(s, next)
    ensures NextStep(s, entries) == Some(next)
    ensures entries == [] || (!s.kind.TryCatch? && exists v :: entries == [Pair(BRANCH, v)])
  {
    if next == s.next then []
    else
      var b :| b in s.branches && b != [] && s.branches[b] == next;
      [Pair(BRANCH, Str(b))]
  }

  /** The answers that make a run move from p to q. */
  ghost function Replies(def: Definition, loop: Option<Key>, p: Position, q: Position): (rs: seq<Reply>)
    requires Move(def, loop, p, q)
    ensures rs != []
  {
    var s := StepById(def.steps, p.id).value;
    if Succeeds(def, p, q) then [Return(Answer(s, q.id))]
    else if Fails(def, p, q) then seq(Attempts(s), _ => Breaks(REASON))
    else
      var c :| RoundLeads(s, c, q.id);
      [Holds(c)]
  }

  /** The answers for the moves from i on. */
  ghost function Script(def: Definition, loop: Option<Key>, ps: seq<Position>, i: nat): seq<Reply>
    requires Cycle(def, loop, ps) && i < |ps|
    decreases |ps| - i
  {
    if i == |ps| - 1 then [] else Replies(def, loop, ps[i], ps[i + 1]) + Script(def, loop, ps, i + 1)
  }

  /** The n-th answer of a script that starts again at its end. */
  function Nth(script: seq<Reply>, n: int): Reply
    decreases n
  {
    if script == [] || n < 0 then Cancels else if n < |script| then script[n] else Nth(script, n - |script|)
  }

  ghost function CycleEnv(def: Definition, loop: Option<Key>, ps: seq<Position>): Env
    requires Cycle(def, loop, ps)
  {
    var script := Script(def, loop, ps, 0);
    Env(0, Join.JoinInputs("", Join.Unusable), [], (n, id) => Nth(script, n), n => Granted, n => false, n => true)
  }

  predicate FollowsAt(script: seq<Reply>, n: nat, rest: seq<Reply>, k: nat)
  {
    Nth(script, n + k) == if k < |rest| then rest[k] else Nth(script, k - |rest|)
  }

  /** From call number n on, first these answers, then the script from its start. */
  ghost predicate Follows(script: seq<Reply>, n: nat, rest: seq<Reply>)
  {
    forall k: nat :: FollowsAt(script, n, rest, k)
  }

  lemma FollowsFirst(script: seq<Reply>, n: nat, first: seq<Reply>, rest: seq<Reply>)
    requires Follows(script, n, first + rest)
    ensures forall m: nat :: n <= m < n + |first| ==> Nth(script, m) == first[m - n]
  {
    forall m: nat | n <= m < n + |first| ensures Nth(script, m) == first[m - n] {
      assert FollowsAt(script, n, first + rest, m - n);
    }
  }

  lemma FollowsRest(script: seq<Reply>, n: nat, first: seq<Reply>, rest: seq<Reply>, n': nat)
    requires Follows(script, n, first + rest) && n' == n + |first|
    ensures Follows(script, n', rest)
  {
    forall k: nat ensures FollowsAt(script, n', rest, k) {
      assert FollowsAt(script, n, first + rest, |first| + k);
      assert n' + k == n + (|first| + k);
    }
  }

  lemma FollowsAgain(script: seq<Reply>, n: nat)
    requires Follows(script, n, []) && script != []
    ensures Follows(script, n, script)
  {
    forall k: nat ensures FollowsAt(script, n, script, k) {
      assert FollowsAt(script, n, [], k);
    }
  }

  // ------------------------------------------------- one move

  lemma FinishesAtOnce(env: Env, w: World, snap: Run, step: Step, entries: seq<Pair>)
    requires !step.kind.End? && !step.kind.Unregistered? && !step.kind.Action? && !step.kind.While?
    requires CanPush(step, w.run.frames) && (step.kind.TryCatch? ==> entries == [])
    requires env.reply(w.calls, step.id) == Return(entries)
    ensures var (w', out) := Attempt(env, w, snap, step, 0);
            && out == Done(entries) && w'.calls == w.calls + 1
            && w'.run == w.run.(frames := FramesAfter(step, w.run.frames))
  {
  }

  lemma AsksHandler(def: Definition, env: Env, w: World)
    requires w.run.state.Running? && w.run.current != [] && env.license(w.calls).Granted?
    requires var s := StepById(def.steps, w.run.current); s.Some? && !s.value.kind.End? && !s.value.kind.Unregistered?
    ensures var s := StepById(def.steps, w.run.current).value;
            Iterate(def, env, w) == HandlerTurn(def, env, Dispatched(w, s), w.run, s)
  {
  }

  lemma SuccessMove(def: Definition, env: Env, w: World, q: Position)
    requires w.run.state.Running? && w.run.current != [] && env.license(w.calls).Granted?
    requires Succeeds(def, Here(def, w.run), q)
    requires env.reply(w.calls, w.run.current) == Return(Answer(StepById(def.steps, w.run.current).value, q.id))
    ensures var entries := Answer(StepById(def.steps, w.run.current).value, q.id);
            var turn := Iterate(def, env, w);
            && turn.Again? && turn.w.run.state.Running? && turn.w.calls == w.calls + 1
            && turn.w.run.current == q.id && turn.w.run.frames == q.frames
            && turn.w.run.vars == ApplyPairs(w.run.vars, entries)
  {
    var step := StepById(def.steps, w.run.current).value;
    var entries := Answer(step, q.id);
    var w1 := Dispatched(w, step);
    AsksHandler(def, env, w);
    FinishesAtOnce(env, w1, w.run, step, entries);
    assert Iterate(def, env, w) == SucceedTurn(Attempt(env, w1, w.run, step, 0).0, step, entries);
  }

  lemma {:induction false} AllAttemptsFail(env: Env, w: World, snap: Run, step: Step, n: nat)
    requires n < Attempts(step) && !step.kind.End? && !step.kind.Unregistered?
    requires forall j: nat :: w.calls <= j < w.calls + Attempts(step) - n ==> env.reply(j, step.id) == Breaks(REASON)
    requires forall k: nat :: !env.abandoned(k)
    ensures var (w', out) := Attempt(env, w, snap, step, n);
            && out.Failing? && w'.calls == w.calls + Attempts(step) - n
            && w'.run.frames == w.run.frames && w'.run.vars == w.run.vars
    decreases Attempts(step) - n
  {
    assert env.reply(w.calls, step.id) == Breaks(REASON);
    if n + 1 < Attempts(step) {
      AllAttemptsFail(env, LogRetry(Once(env, w, snap, step).0, step, n + 1), snap, step, n + 1);
    }
  }

  lemma FailMove(def: Definition, env: Env, w: World, q: Position)
    requires w.run.state.Running? && w.run.current != [] && env.license(w.calls).Granted?
    requires Fails(def, Here(def, w.run), q)
    requires forall j: nat :: w.calls <= j < w.calls + Attempts(StepById(def.steps, w.run.current).value) ==>
               env.reply(j, w.run.current) == Breaks(REASON)
    requires forall k: nat :: !env.abandoned(k)
    ensures var step := StepById(def.steps, w.run.current).value;
            var turn := Iterate(def, env, w);
            && turn.Again? && turn.w.run.state.Running? && turn.w.calls == w.calls + Attempts(step)
            && turn.w.run.current == q.id && turn.w.run.frames == q.frames
            && exists v :: turn.w.run.vars == Put(w.run.vars, Segments(ERROR), v)
  {
    var step := StepById(def.steps, w.run.current).value;
    var w1 := Dispatched(w, step);
    AsksHandler(def, env, w);
    AllAttemptsFail(env, w1, w.run, step, 0);
    var (w2, out) := Attempt(env, w1, w.run, step, 0);
    CaughtMove(def, env, w2, w.run, step, out.msg);
  }

  lemma CaughtMove(def: Definition, env: Env, w: World, snap: Run, step: Step, msg: Msg)
    requires w.run.frames != []
    ensures var turn := AfterStep(def, env, w, snap, step, Failing(msg));
            var n := |w.run.frames| - 1;
            && turn.Again? && turn.w.run.state.Running? && turn.w.calls == w.calls
            && turn.w.run.current == w.run.frames[n].catchStep && turn.w.run.frames == w.run.frames[..n]
            && exists v :: turn.w.run.vars == Put(w.run.vars, Segments(ERROR), v)
  {
    var error := Map(map[STEP_ID := Str(step.id), MESSAGE := Str(msg)]);
    var turn := AfterStep(def, env, w, snap, step, Failing(msg));
    assert turn.w.run.vars == Put(w.run.vars, Segments(ERROR), error);
  }

  lemma RoundTaken(def: Definition, env: Env, w: World, c: bool, q: Position)
    requires w.run.state.Running? && w.run.current != [] && env.license(w.calls).Granted?
    requires IsWhile(def, w.run.current) && RoundLeft(StepById(def.steps, w.run.current).value, w.run.vars)
    requires q.id != [] && q.frames == w.run.frames && RoundLeads(StepById(def.steps, w.run.current).value, c, q.id)
    requires env.reply(w.calls, w.run.current) == Holds(c)
    ensures var turn := Iterate(def, env, w);
            && turn.Again? && turn.w.run.state.Running? && turn.w.calls == w.calls + 1
            && turn.w.run.current == q.id && turn.w.run.frames == q.frames
            && turn.w.run.vars == ApplyPairs(w.run.vars, WhileEntries(w.run.vars, w.run.current, c))
  {
    var step := StepById(def.steps, w.run.current).value;
    AsksHandler(def, env, w);
    AnswersRound(env, Dispatched(w, step), w.run, step, c);
    RoundFollows(Once(env, Dispatched(w, step), w.run, step).0, step, w.run.vars, c, q.id);
  }

  lemma AnswersRound(env: Env, w: World, snap: Run, step: Step, c: bool)
    requires step.kind.While? && RoundLeft(step, snap.vars) && env.reply(w.calls, step.id) == Holds(c)
    ensures Attempt(env, w, snap, step, 0) == (Once(env, w, snap, step).0, Done(WhileEntries(snap.vars, step.id, c)))
    ensures var w' := Once(env, w, snap, step).0; w'.run == w.run && w'.calls == w.calls + 1
  {
  }

  lemma RoundFollows(w: World, step: Step, vars: Vars, c: bool, next: Key)
    requires RoundLeads(step, c, next) && next != []
    ensures var entries := WhileEntries(vars, step.id, c);
            var turn := SucceedTurn(w, step, entries);
            && turn.Again? && turn.w.calls == w.calls
            && turn.w.run == SetState(w.run.(vars := ApplyPairs(w.run.vars, entries)), Running, next)
  {
    assert BranchOf(WhileEntries(vars, step.id, c)) == Some(if c then CONTINUE else EXIT);
  }


  // ------------------------------------------------- round and round

  /** The run stands at position i, and the handlers are about to answer so that
      it goes on from there. */
  ghost predicate OnCycle(def: Definition, loop: Option<Key>, ps: seq<Position>, i: nat, w: World)
    requires Cycle(def, loop, ps)
  {
    && i < |ps| - 1 && w.run.state.Running? && w.run.current == ps[i].id && w.run.frames == ps[i].frames
    && (loop.Some? ==> Counts(def, loop.value, w.run.vars))
    && Follows(Script(def, loop, ps, 0), w.calls, Script(def, loop, ps, i))
  }

  /** The while step has a round left by what it reads. */
  predicate Counts(def: Definition, id: Key, vars: Vars)
  {
    IsWhile(def, id) && RoundLeft(StepById(def.steps, id).value, vars)
  }

  /** What one move writes leaves the reading of an uncounted step as it is. */
  ghost predicate Harmless(loop: Option<Key>, vars: Vars, vars': Vars)
  {
    loop.Some? && !Plain(loop.value) ==> Iterations(vars', loop.value) == Iterations(vars, loop.value)
  }

  lemma AnswerIsHarmless(loop: Option<Key>, vars: Vars, s: Step, next: Key)
    requires Leads(s, next)
    ensures Harmless(loop, vars, ApplyPairs(vars, Answer(s, next)))
  {
    var entries := Answer(s, next);
    if entries != [] && loop.Some? {
      var v :| entries == [Pair(BRANCH, v)];
      assert entries[1..] == [];
      BranchSparesCounters(vars, v, loop.value);
    }
  }

  lemma ErrorIsHarmless(loop: Option<Key>, vars: Vars, v: Value)
    ensures Harmless(loop, vars, Put(vars, Segments(ERROR), v))
  {
    if loop.Some? {
      SegmentsPlain(ERROR);
      CounterFrame(vars, Segments(ERROR), v, loop.value);
    }
  }

  /** The answers for the move from i. */
  lemma AnswersNow(def: Definition, loop: Option<Key>, ps: seq<Position>, i: nat, n: nat)
    requires Cycle(def, loop, ps) && i < |ps| - 1
    requires Follows(Script(def, loop, ps, 0), n, Script(def, loop, ps, i))
    ensures var rs := Replies(def, loop, ps[i], ps[i + 1]);
            forall m: nat :: n <= m < n + |rs| ==> Nth(Script(def, loop, ps, 0), m) == rs[m - n]
  {
    FollowsFirst(Script(def, loop, ps, 0), n, Replies(def, loop, ps[i], ps[i + 1]), Script(def, loop, ps, i + 1));
  }

  /** And then those from the next position on. */
  lemma AnswersNext(def: Definition, loop: Option<Key>, ps: seq<Position>, i: nat, n: nat, n': nat) returns (j: nat)
    requires Cycle(def, loop, ps) && i < |ps| - 1
    requires Follows(Script(def, loop, ps, 0), n, Script(def, loop, ps, i))
    requires n' == n + |Replies(def, loop, ps[i], ps[i + 1])|
    ensures j < |ps| - 1 && ps[j] == ps[i + 1]
    ensures Follows(Script(def, loop, ps, 0), n', Script(def, loop, ps, j))
  {
    var script := Script(def, loop, ps, 0);
    FollowsRest(script, n, Replies(def, loop, ps[i], ps[i + 1]), Script(def, loop, ps, i + 1), n');
    j := i + 1;
    if j == |ps| - 1 {
      FollowsAgain(script, n');
      j := 0;
    }
  }

  /** One iteration goes from one position of the cycle to the next. */
  lemma CycleStep(def: Definition, loop: Option<Key>, ps: seq<Position>, i: nat, w: World) returns (j: nat)
    requires Cycle(def, loop, ps) && OnCycle(def, loop, ps, i, w) && (loop.Some? ==> !Plain(loop.value))
    ensures var turn := Iterate(def, CycleEnv(def, loop, ps), w); turn.Again? && OnCycle(def, loop, ps, j, turn.w)
  {
    assert Here(def, w.run) == ps[i];
    var w' := CycleMove(def, loop, ps, i, w);
    j := AnswersNext(def, loop, ps, i, w.calls, w'.calls);
  }

  lemma CycleMove(def: Definition, loop: Option<Key>, ps: seq<Position>, i: nat, w: World) returns (w': World)
    requires Cycle(def, loop, ps) && OnCycle(def, loop, ps, i, w) && (loop.Some? ==> !Plain(loop.value))
    ensures Iterate(def, CycleEnv(def, loop, ps), w) == Again(w') && w'.run.state.Running?
    ensures w'.calls == w.calls + |Replies(def, loop, ps[i], ps[i + 1])|
    ensures w'.run.current == ps[i + 1].id && w'.run.frames == ps[i + 1].frames
    ensures loop.Some? ==> Counts(def, loop.value, w'.run.vars)
  {
    assert Here(def, w.run) == ps[i];
    AnswersNow(def, loop, ps, i, w.calls);
    w' := Moves(def, CycleEnv(def, loop, ps), loop, w, ps[i + 1], Replies(def, loop, ps[i], ps[i + 1]));
  }

  lemma Moves(def: Definition, env: Env, loop: Option<Key>, w: World, q: Position, rs: seq<Reply>) returns (w': World)
    requires w.run.state.Running? && w.run.current != [] && q.id != [] && (loop.Some? ==> !Plain(loop.value))
    requires (forall n: nat :: env.license(n).Granted?) && forall n: nat :: !env.abandoned(n)
    requires Move(def, loop, Here(def, w.run), q) && rs == Replies(def, loop, Here(def, w.run), q)
    requires forall n: nat :: w.calls <= n < w.calls + |rs| ==> env.reply(n, w.run.current) == rs[n - w.calls]
    requires loop.Some? ==> Counts(def, loop.value, w.run.vars)
    ensures Iterate(def, env, w) == Again(w') && w'.run.state.Running? && w'.calls == w.calls + |rs|
    ensures w'.run.current == q.id && w'.run.frames == q.frames
    ensures loop.Some? ==> Counts(def, loop.value, w'.run.vars)
  {
    var p, s := Here(def, w.run), StepById(def.steps, w.run.current).value;
    assert env.reply(w.calls, w.run.current) == rs[0];
    if Succeeds(def, p, q) {
      SuccessMove(def, env, w, q);
      AnswerIsHarmless(loop, w.run.vars, s, q.id);
    } else if Fails(def, p, q) {
      FailMove(def, env, w, q);
      var v :| Iterate(def, env, w).w.run.vars == Put(w.run.vars, Segments(ERROR), v);
      ErrorIsHarmless(loop, w.run.vars, v);
    } else {
      var c :| RoundLeads(s, c, q.id) && rs == [Holds(c)];
      RoundTaken(def, env, w, c, q);
      RoundCounts(w.run.vars, s.id, c, s.id);
    }
    w' := Iterate(def, env, w).w;
  }

  lemma CycleSparesCounters(def: Definition, loop: Option<Key>, ps: seq<Position>)
    requires Cycle(def, loop, ps)
    ensures SparesCounters(CycleEnv(def, loop, ps))
  {
    var script := Script(def, loop, ps, 0);
    ScriptSpares(def, loop, ps, 0);
    forall n: nat | Nth(script, n).Return? ensures Spares(Nth(script, n).entries) {
      NthIn(script, n);
    }
  }

  lemma {:induction false} NthIn(script: seq<Reply>, n: nat)
    ensures Nth(script, n) in script || Nth(script, n).Cancels?
    decreases n
  {
    if script != [] && n >= |script| {
      NthIn(script, n - |script|);
    }
  }

  lemma {:induction false} ScriptSpares(def: Definition, loop: Option<Key>, ps: seq<Position>, i: nat)
    requires Cycle(def, loop, ps) && i < |ps|
    ensures forall r :: r in Script(def, loop, ps, i) && r.Return? ==> Spares(r.entries)
    decreases |ps| - i
  {
    if i < |ps| - 1 {
      RepliesSpare(def, loop, ps[i], ps[i + 1]);
      ScriptSpares(def, loop, ps, i + 1);
    }
  }

  lemma RepliesSpare(def: Definition, loop: Option<Key>, p: Position, q: Position)
    requires Move(def, loop, p, q)
    ensures forall r :: r in Replies(def, loop, p, q) && r.Return? ==> Spares(r.entries)
  {
    SegmentsPlain(BRANCH);
  }

  /** A cycle of free moves and rounds of one uncounted while step: handlers can
      drive a run around it for ever, writing nothing under _while. */
  lemma CycleNeverEnds(def: Definition, loop: Option<Key>, ps: seq<Position>, w: World, budget: nat)
    requires Cycle(def, loop, ps)
    requires w.run.state.Running? && w.run.current == ps[0].id && w.run.frames == ps[0].frames && w.calls == 0
    requires loop.Some? ==> !Plain(loop.value) && Counts(def, loop.value, w.run.vars)
    ensures SparesCounters(CycleEnv(def, loop, ps))
    ensures Loop(def, CycleEnv(def, loop, ps), w, budget).1.ContextDone?
  {
    var env := CycleEnv(def, loop, ps);
    CycleSparesCounters(def, loop, ps);
    var inv := (x: World) => exists i: nat :: OnCycle(def, loop, ps, i, x);
    assert OnCycle(def, loop, ps, 0, w);
    forall x | inv(x) ensures Iteration(def, env)(x).Again? && inv(Iteration(def, env)(x).w) {
      var i: nat :| OnCycle(def, loop, ps, i, x);
      var j := CycleStep(def, loop, ps, i, x);
    }
    NeverStops(Iteration(def, env), inv, w, budget);
  }

  // ------------------------------------------------- the exact condition

  /** Every call on a run that stands where runs from `from` can get ends on its
      own, given the time of its bound, whatever the handlers answer that spare
      the counters. */
  ghost predicate AlwaysEnds(def: Definition, from: Position)
  {
    forall env: Env, w: World, budget: nat ::
      SparesCounters(env) && OnPath(def, from, w.run) && budget >= Bound(def, w.run.vars) + 2 ==>
        !Loop(def, env, w, budget).1.ContextDone?
  }

  /** With countable while steps that is so exactly when no way through the
      graph that starts where a run from `from` can get, catch steps included,
      leads back to the same step in the same frames without a while round. */
  lemma EndsExactlyWhen(def: Definition, from: Position)
    requires WhilesArePlain(def)
    ensures AlwaysEnds(def, from) <==> NoFreeCycle(def, from)
  {
    if NoFreeCycle(def, from) {
      forall env: Env, w: World, budget: nat |
        SparesCounters(env) && OnPath(def, from, w.run) && budget >= Bound(def, w.run.vars) + 2
        ensures !Loop(def, env, w, budget).1.ContextDone?
      {
        AdvanceEnds(def, from, env, w, budget);
      }
    } else {
      var ps: seq<Position> :| FreeCycle(def, ps) && Stands(def, from, ps[0]);
      FreeCycleIsEndless(def, from, ps);
    }
  }

  lemma FreeCycleIsEndless(def: Definition, from: Position, ps: seq<Position>)
    requires FreeCycle(def, ps) && Stands(def, from, ps[0])
    ensures !AlwaysEnds(def, from)
  {
    FreeCycleIsCycle(def, ps);
    var w := World(Run(Running, ps[0].id, map[], None, None, None, None, 0, ps[0].frames, None), [], 0, [], 0, 0);
    assert Here(def, w.run) == ps[0];
    CycleNeverEnds(def, None, ps, w, Bound(def, map[]) + 2);
    NotEnded(def, from, CycleEnv(def, None, ps), w, Bound(def, map[]) + 2);
  }

  lemma NotEnded(def: Definition, from: Position, env: Env, w: World, budget: nat)
    requires SparesCounters(env) && OnPath(def, from, w.run) && budget >= Bound(def, w.run.vars) + 2
    requires Loop(def, env, w, budget).1.ContextDone?
    ensures !AlwaysEnds(def, from)
  {
  }

  lemma FreeCycleIsCycle(def: Definition, ps: seq<Position>)
    requires FreeCycle(def, ps) && Framed(def, ps[0].frames)
    ensures Cycle(def, None, ps)
  {
    forall i | 0 < i < |ps| ensures ps[i].id != [] {
      WalkIsFramed(def, ps, i - 1);
      assert FreeMove(def, ps[i - 1], ps[i]);
      MoveKeepsFramed(def, ps[i - 1], ps[i]);
    }
  }

  lemma {:induction false} WalkIsFramed(def: Definition, ps: seq<Position>, n: nat)
    requires n < |ps| && Walk(def, ps) && Framed(def, ps[0].frames)
    ensures Framed(def, ps[n].frames)
  {
    if n > 0 {
      WalkIsFramed(def, ps, n - 1);
      assert FreeMove(def, ps[n - 1], ps[n]);
      MoveKeepsFramed(def, ps[n - 1], ps[n]);
    }
  }

  // ------------------------------------------------- the runs of a definition

  function Start(def: Definition): Position
  {
    Position(def.start, [])
  }

  /** A run as it is created. */
  predicate Fresh(r: Run)
  {
    r.state.Pending? && r.current == [] && r.frames == []
  }

  /** Whatever a run has been through since it was created, the next call of
      Advance on it ends on its own, within its bound. */
  lemma EveryCallEnds(def: Definition, env: Env, w: World, ops: seq<Op>, budget: nat)
    requires Fresh(w.run) && Bounded(def, Start(def), env)
    requires budget >= Bound(def, History(def, w, ops).run.vars) + 2
    ensures !Loop(def, env, History(def, w, ops), budget).1.ContextDone?
  {
    StandsAtStart(def, Start(def));
    HistoryStaysOnPath(def, Start(def), w, ops);
    var w' := History(def, w, ops);
    if !w'.run.state.IsTerminal() {
      AdvanceEnds(def, Start(def), env, w', budget);
    }
  }
}
