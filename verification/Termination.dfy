/** How long one call of Advance can go on, and where it leaves the run. */
module Termination {
  import opened Domain
  import opened DottedKeys
  import opened Runs
  import opened Engine
  import opened Positions
  import Retry

  // ------------------------------------------------- the while counter

  predicate Plain(id: Key)
  {
    Ascii(id) && DotFree(id)
  }

  lemma {:induction false} SegmentsPlain(id: Key)
    ensures Segments(id) == [id] <==> Plain(id)
    ensures !Plain(id) ==> Segments(id)[0] != id
  {
    if DotFree(id) {
      SplitDotFree(id);
      SegmentSurvives(id);
    } else {
      SegmentsDotFree(id);
    }
  }

  lemma ThreeSegments(a: Key, b: Key, c: Key)
    requires Segments(a) == [a] && Segments(c) == [c]
    ensures Segments(a + [DOT] + b + [DOT] + c) == [a] + (Segments(b) + [c])
  {
    SegmentsAppend(a + [DOT] + b, c);
    SegmentsAppend(a, b);
  }

  lemma CounterPath(id: Key)
    ensures Segments(CounterKey(id)) == [WHILE] + (Segments(id) + [ITER])
  {
    SegmentsPlain(WHILE);
    SegmentsPlain(ITER);
    ThreeSegments(WHILE, id, ITER);
  }

  lemma {:induction false} PutNested(t: Vars, head: Key, path: seq<Key>, v: Value)
    requires path != []
    ensures SubMap(Put(t, [head] + path, v), head) == Put(SubMap(t, head), path, v)
    ensures forall k :: k != head ==> SubMap(Put(t, [head] + path, v), k) == SubMap(t, k)
  {
    assert ([head] + path)[1..] == path;
  }

  /** Where the counter of a while step is read; it is written to the segments
      of CounterKey. */
  function ReadPath(id: Key): seq<Key>
  {
    [WHILE, id, ITER]
  }

  /** What is read for a step after n was written at a path: n when that is the
      path of the step; zero, for a map is no number, when the write made a map
      of the place that is read; and what was read before otherwise. */
  function Reading(at: seq<Key>, n: int, id: Key, before: int): int
  {
    if at == ReadPath(id) then n else if ReadPath(id) <= at then 0 else before
  }

  /** The counter of any ID after the counter of any ID was written. */
  lemma CounterPutGet(vars: Vars, id: Key, n: int, other: Key)
    ensures Iterations(Put(vars, Segments(CounterKey(id)), Int(n)), other)
         == Reading(Segments(CounterKey(id)), n, other, Iterations(vars, other))
  {
    CounterPath(id);
    PutNested(vars, WHILE, Segments(id) + [ITER], Int(n));
    CounterBelow(SubMap(vars, WHILE), Segments(id) + [ITER], n, other);
  }

  lemma CounterBelow(counters: Vars, path: seq<Key>, n: int, other: Key)
    requires |path| > 1
    ensures Counter(Put(counters, path, Int(n)), other) == Reading([WHILE] + path, n, other, Counter(counters, other))
  {
    var head, tail := path[0], path[1..];
    assert path == [head] + tail;
    OnReadPath(path, other);
    PutNested(counters, head, tail, Int(n));
    if head == other {
      MineBelow(SubMap(counters, other), tail, n);
    }
  }

  lemma OnReadPath(path: seq<Key>, id: Key)
    requires |path| > 1
    ensures ReadPath(id) <= [WHILE] + path <==> path[0] == id && path[1] == ITER
    ensures [WHILE] + path == ReadPath(id) <==> path[0] == id && path[1] == ITER && |path| == 2
  {
    var at := [WHILE] + path;
    assert at[0] == WHILE && at[1] == path[0] && at[2] == path[1];
  }

  /** The same inside the map of one step. */
  lemma MineBelow(mine: Vars, path: seq<Key>, n: int)
    requires path != []
    ensures var after := Put(mine, path, Int(n));
            if path[0] != ITER then ITER !in after <==> ITER !in mine
            else ITER in after && if |path| == 1 then after[ITER] == Int(n) else after[ITER].Map?
    ensures path[0] != ITER && ITER in mine ==> Put(mine, path, Int(n))[ITER] == mine[ITER]
  {
  }

  /** For an ID that is ASCII and dot-free both paths are one, and that of any
      other such ID has nothing to do with them. */
  lemma PlainPaths(id: Key, other: Key)
    ensures Segments(CounterKey(id)) == ReadPath(id) <==> Plain(id)
    ensures !Plain(id) ==> !(ReadPath(id) <= Segments(CounterKey(id)))
    ensures Plain(id) && other != id ==> !(ReadPath(other) <= Segments(CounterKey(id)))
  {
    CounterPath(id);
    SegmentsPlain(id);
    var path := Segments(id) + [ITER];
    OnReadPath(path, id);
    OnReadPath(path, other);
    if Plain(id) {
      assert path == [id, ITER];
    } else {
      assert path[0] == Segments(id)[0];
    }
  }

  /** Writing anywhere outside _while leaves every counter alone. */
  lemma CounterFrame(vars: Vars, path: seq<Key>, v: Value, id: Key)
    requires path != [] && path[0] != WHILE
    ensures Iterations(Put(vars, path, v), id) == Iterations(vars, id)
  {
    assert SubMap(Put(vars, path, v), WHILE) == SubMap(vars, WHILE);
  }

  /** One round of the while step id, read by any step: its own counter and that
      of a step whose reading path its ID happens to spell is raised, one above
      which it writes is lost, and no other changes. */
  lemma RoundReads(vars: Vars, id: Key, condition: bool, other: Key)
    ensures Iterations(ApplyPairs(vars, WhileEntries(vars, id, condition)), other)
         == Reading(Segments(CounterKey(id)), Iterations(vars, id) + 1, other, Iterations(vars, other))
  {
    var branch := Str(if condition then CONTINUE else EXIT);
    var n := Iterations(vars, id) + 1;
    ApplyTwo(vars, Pair(BRANCH, branch), Pair(CounterKey(id), Int(n)));
    BranchSparesCounters(vars, branch, id);
    BranchSparesCounters(vars, branch, other);
    CounterPutGet(Put(vars, Segments(BRANCH), branch), id, n, other);
  }

  /** A round counts exactly when the ID is ASCII and free of dots, and then it
      touches no other counter. */
  lemma RoundCounts(vars: Vars, id: Key, condition: bool, other: Key)
    requires other == id || Plain(id)
    ensures Iterations(ApplyPairs(vars, WhileEntries(vars, id, condition)), other)
         == Iterations(vars, other) + if other == id && Plain(id) then 1 else 0
  {
    RoundReads(vars, id, condition, other);
    PlainPaths(id, other);
  }

  /** A while step whose ID continues that of the plain step a with the segment
      "iter", such as "a.iter", takes the counter of a away in every round. */
  lemma DottedIdResets(vars: Vars, a: Key, rest: Key, condition: bool)
    requires Plain(a) && Segments(rest)[0] == ITER
    ensures Iterations(ApplyPairs(vars, WhileEntries(vars, a + [DOT] + rest, condition)), a) == 0
  {
    RoundReads(vars, a + [DOT] + rest, condition, a);
    DottedPath(a, rest);
  }

  lemma DottedPath(a: Key, rest: Key)
    requires Plain(a) && Segments(rest)[0] == ITER
    ensures var at := Segments(CounterKey(a + [DOT] + rest)); ReadPath(a) <= at && at != ReadPath(a)
  {
    var id := a + [DOT] + rest;
    CounterPath(id);
    SegmentsAppend(a, rest);
    SegmentsPlain(a);
    var path := Segments(id) + [ITER];
    assert Segments(id) == [a] + Segments(rest);
    OnReadPath(path, a);
  }

  lemma BranchSparesCounters(vars: Vars, branch: Value, id: Key)
    ensures Iterations(Put(vars, Segments(BRANCH), branch), id) == Iterations(vars, id)
  {
    SegmentsPlain(BRANCH);
    CounterFrame(vars, Segments(BRANCH), branch, id);
  }

  lemma ApplyTwo(vars: Vars, a: Pair, b: Pair)
    ensures ApplyPairs(vars, [a, b]) == Put(Put(vars, Segments(a.key), a.value), Segments(b.key), b.value)
  {
    var v1 := Put(vars, Segments(a.key), a.value);
    assert [a, b][1..] == [b] && [b][1..] == [];
    assert ApplyPairs(vars, [a, b]) == ApplyPairs(v1, [b]);
    assert ApplyPairs(v1, [b]) == ApplyPairs(Put(v1, Segments(b.key), b.value), []);
  }

  /** A handler result that writes nothing under _while. */
  predicate Spares(entries: seq<Pair>)
  {
    forall i :: 0 <= i < |entries| ==> Segments(entries[i].key)[0] != WHILE
  }

  lemma {:induction false} SparedCounters(vars: Vars, entries: seq<Pair>, id: Key)
    requires Spares(entries)
    ensures Iterations(ApplyPairs(vars, entries), id) == Iterations(vars, id)
    decreases |entries|
  {
    if entries != [] {
      CounterFrame(vars, Segments(entries[0].key), entries[0].value, id);
      SparedCounters(Put(vars, Segments(entries[0].key), entries[0].value), entries[1..], id);
    }
  }

  // ------------------------------------------------- the loop budget

  predicate RoundLeft(step: Step, vars: Vars)
  {
    step.kind.While? && Iterations(vars, step.id) < MaxIter(step)
  }

  /** Rounds a while step has left. */
  function Left(step: Step, vars: Vars): nat
  {
    if RoundLeft(step, vars) then MaxIter(step) - Iterations(vars, step.id) else 0
  }

  function Budget(steps: seq<Step>, vars: Vars): nat
  {
    if steps == [] then 0 else Left(steps[0], vars) + Budget(steps[1..], vars)
  }

  function Caps(steps: seq<Step>): nat
  {
    if steps == [] then 0 else (if steps[0].kind.While? then MaxIter(steps[0]) else 0) + Caps(steps[1..])
  }

  lemma {:induction false} BudgetWithinCaps(steps: seq<Step>, vars: Vars)
    requires forall s :: s in steps && s.kind.While? ==> Iterations(vars, s.id) >= 0
    ensures Budget(steps, vars) <= Caps(steps)
  {
    if steps != [] {
      assert steps[0] in steps;
      BudgetWithinCaps(steps[1..], vars);
    }
  }

  lemma {:induction false} BudgetFrame(steps: seq<Step>, vars: Vars, vars': Vars)
    requires forall s :: s in steps && s.kind.While? ==> Iterations(vars', s.id) == Iterations(vars, s.id)
    ensures Budget(steps, vars') == Budget(steps, vars)
  {
    if steps != [] {
      assert steps[0] in steps;
      BudgetFrame(steps[1..], vars, vars');
    }
  }

  lemma {:induction false} BudgetDrops(steps: seq<Step>, vars: Vars, vars': Vars, step: Step)
    requires forall s :: s in steps && s.kind.While? ==>
               Iterations(vars', s.id) == Iterations(vars, s.id) + if s.id == step.id then 1 else 0
    ensures Budget(steps, vars') <= Budget(steps, vars)
    ensures step in steps && Left(step, vars) > 0 ==> Budget(steps, vars') < Budget(steps, vars)
  {
    if steps != [] {
      assert steps[0] in steps;
      BudgetDrops(steps[1..], vars, vars', step);
    }
  }

  // ------------------------------------------------- one iteration

  predicate IsDispatch(e: Event)
  {
    e.kind.StepDispatched?
  }

  /** Steps executed so far, by the log. */
  function Dispatches(w: World): nat
  {
    Tally(w.events, IsDispatch)
  }

  /** No handler writes under _while, whatever it is asked. */
  ghost predicate SparesCounters(env: Env)
  {
    forall n: nat, id: Key :: env.reply(n, id).Return? ==> Spares(env.reply(n, id).entries)
  }

  ghost predicate RoundOf(step: Step, vars: Vars, entries: seq<Pair>)
  {
    RoundLeft(step, vars) && exists c :: entries == WhileEntries(vars, step.id, c)
  }

  /** Where the result of a finished step came from. */
  ghost predicate DoneBy(env: Env, snap: Run, step: Step, entries: seq<Pair>)
  {
    if step.kind.While? then RoundOf(step, snap.vars, entries)
    else entries == [] || exists n: nat :: env.reply(n, step.id) == Return(entries)
  }

  lemma {:induction false} AttemptKeeps(env: Env, w: World, snap: Run, step: Step, n: nat)
    requires n < Attempts(step) && w.run.current == step.id && !step.kind.End? && !step.kind.Unregistered?
    ensures var (w', out) := Attempt(env, w, snap, step, n);
            && w'.run.vars == w.run.vars && w'.run.current == w.run.current
            && w'.run.frames == (if out.Done? then FramesAfter(step, w.run.frames) else w.run.frames)
            && (out.Done? ==> !step.kind.Action? && CanPush(step, w.run.frames) && DoneBy(env, snap, step, out.entries))
            && (out.Done? && step.kind.TryCatch? ==> out.entries == []) && (out.Suspended? ==> CanPause(step.kind))
            && (!step.kind.Action? && !out.Suspended? ==> w'.run.state == w.run.state)
    decreases Attempts(step) - n
  {
    var (w1, out) := Once(env, w, snap, step);
    OnceKeeps(env, w, snap, step);
    if out.Failing? && n + 1 < Attempts(step) {
      AttemptKeeps(env, LogRetry(w1, step, n + 1), snap, step, n + 1);
    }
  }

  lemma OnceKeeps(env: Env, w: World, snap: Run, step: Step)
    requires w.run.current == step.id && !step.kind.End? && !step.kind.Unregistered?
    ensures var (w', out) := Once(env, w, snap, step);
            && w'.run.vars == w.run.vars && w'.run.current == w.run.current
            && w'.run.frames == (if out.Done? then FramesAfter(step, w.run.frames) else w.run.frames)
            && (out.Done? ==> !step.kind.Action? && CanPush(step, w.run.frames) && DoneBy(env, snap, step, out.entries))
            && (out.Done? && step.kind.TryCatch? ==> out.entries == []) && (out.Suspended? ==> CanPause(step.kind))
            && (!step.kind.Action? && !out.Suspended? ==> w'.run.state == w.run.state)
  {
    var reply := env.reply(w.calls, step.id);
    if reply.Pauses? {
      assert Marked(w.run, reply.mark, step.id).vars == w.run.vars;
    }
  }

  // ------------------------------------------------- one iteration as a move

  /** An iteration that goes on made a free move, writing nothing under _while,
      or one round of a while step. */
  ghost predicate MovedBy(def: Definition, r: Run, r': Run, entries: seq<Pair>)
  {
    && r'.vars == ApplyPairs(r.vars, entries)
    && (|| (FreeMove(def, Here(def, r), Here(def, r')) && Spares(entries))
        || (&& RoundMove(def, Here(def, r), Here(def, r'))
            && RoundOf(StepById(def.steps, At(def, r)).value, r.vars, entries)))
  }

  ghost predicate Moved(def: Definition, w: World, w': World)
  {
    && w'.run.state.Running? && w'.run.current != [] && Dispatches(w') == Dispatches(w) + 1
    && exists entries :: MovedBy(def, w.run, w'.run, entries)
  }

  lemma StepMoves(def: Definition, env: Env, w: World)
    requires SparesCounters(env) && Framed(def, w.run.frames) && !w.run.state.Paused? && !w.run.state.IsTerminal()
    ensures match Iterate(def, env, w)
            case Again(w') => Moved(def, w, w')
            case Stop(w', _) =>
              Dispatches(w') <= Dispatches(w) + if StepById(def.steps, At(def, w.run)).Some? then 1 else 0
  {
    StartCounts(w);
    var found := StepById(def.steps, At(def, w.run));
    if found.Some? {
      var step := found.value;
      var w1 := Dispatched(Started(w), step);
      DispatchCounts(Started(w), step);
      if step.kind.End? || step.kind.Unregistered? || env.license(w1.calls).Rejected? {
        EarlyEndCounts(w1, step);
      } else {
        HandlerMoves(def, env, w1, w.run, step);
      }
    }
  }

  lemma StartCounts(w: World)
    ensures Dispatches(Started(w)) == Dispatches(w)
  {
    TallySnoc(w.events, Event(SagaStarted, [], 0), IsDispatch);
  }

  lemma DispatchCounts(w: World, step: Step)
    ensures Dispatches(Dispatched(w, step)) == Dispatches(w) + 1
  {
    TallySnoc(w.events, Event(StepDispatched, step.id, 0), IsDispatch);
  }

  lemma EarlyEndCounts(w: World, step: Step)
    ensures Dispatches(Completes(w, step)) == Dispatches(w) == Dispatches(LicenseRejects(w, step))
  {
    TallyNone(w.events, [Event(StepSucceeded, step.id, 0), Event(RunSucceeded, [], 0)], IsDispatch);
    TallySnoc(w.events, Event(LicenseRejected, step.id, 0), IsDispatch);
  }

  lemma AttemptDispatchesNothing(env: Env, w: World, snap: Run, step: Step)
    ensures Dispatches(Attempt(env, w, snap, step, 0).0) == Dispatches(w)
  {
    var k := Retry.RetryBudget(env, w, snap, step);
    var more := Attempt(env, w, snap, step, 0).0.events[|w.events|..];
    assert Attempt(env, w, snap, step, 0).0.events == w.events + more;
    TallyNone(w.events, more, IsDispatch);
  }

  lemma HandlerMoves(def: Definition, env: Env, w: World, snap: Run, step: Step)
    requires SparesCounters(env) && Framed(def, w.run.frames)
    requires StepById(def.steps, step.id) == Some(step) && !step.kind.End? && !step.kind.Unregistered?
    requires w.run.current == step.id == At(def, snap) && w.run.vars == snap.vars && w.run.frames == snap.frames
    ensures match HandlerTurn(def, env, w, snap, step)
            case Again(w') =>
              && Dispatches(w') == Dispatches(w) && w'.run.state.Running? && w'.run.current != []
              && exists entries :: MovedBy(def, snap, w'.run, entries)
            case Stop(w', _) => Dispatches(w') == Dispatches(w)
  {
    var (w1, out) := Attempt(env, w, snap, step, 0);
    AttemptKeeps(env, w, snap, step, 0);
    AttemptDispatchesNothing(env, w, snap, step);
    AfterStepCounts(def, env, w1, snap, step, out);
    match out
    case Done(entries) => DoneMoves(def, env, w1, snap, step, entries);
    case Failing(msg) =>
      if w1.run.frames != [] {
        CatchMoves(def, w1, snap, step, msg);
      }
    case _ =>
  }

  /** Neither end of a step is a dispatch. */
  lemma AfterStepCounts(def: Definition, env: Env, w: World, snap: Run, step: Step, out: Outcome)
    ensures Dispatches(AfterStep(def, env, w, snap, step, out).w) == Dispatches(w)
  {
    match out
    case Suspended => TallySnoc(w.events, Event(StepPaused, step.id, 0), IsDispatch);
    case Cancelling => TallySnoc(w.events, Event(RunCancelled, [], 0), IsDispatch);
    case Done(_) => TallySnoc(w.events, Event(StepSucceeded, step.id, 0), IsDispatch);
    case Failing(msg) =>
      if w.run.frames != [] {
        TallySnoc(w.events, Event(StepCaught, step.id, 0), IsDispatch);
      } else {
        FailRunCounts(def, env, w, snap, step, msg);
      }
  }

  lemma FailRunCounts(def: Definition, env: Env, w: World, snap: Run, step: Step, msg: Msg)
    ensures Dispatches(FailRun(def, env, w, snap, step, msg)) == Dispatches(w)
  {
    var failed := w.events + [Event(StepFailed, step.id, 0)];
    TallySnoc(w.events, Event(StepFailed, step.id, 0), IsDispatch);
    TallySnoc(failed, Event(CompensationStarted, step.id, 0), IsDispatch);
  }

  lemma NextLeads(step: Step, entries: seq<Pair>, next: Key)
    requires !step.kind.End? && !step.kind.Unregistered? && !step.kind.Action? && !step.kind.While?
    requires NextStep(step, entries) == Some(next) && next != [] && (step.kind.TryCatch? ==> entries == [])
    ensures Leads(step, next)
  {
    var branch := BranchOf(entries);
    if branch.Some? && branch.value in step.branches {
      BranchNamed(entries);
    }
  }

  lemma {:induction false} BranchNamed(entries: seq<Pair>)
    ensures BranchOf(entries).Some? ==> BranchOf(entries).value != []
  {
    if entries != [] && entries[0].key != BRANCH {
      BranchNamed(entries[1..]);
    }
  }

  /** Where a success leads. */
  lemma DoneLeads(def: Definition, env: Env, w: World, snap: Run, step: Step, entries: seq<Pair>)
    requires StepById(def.steps, step.id) == Some(step) && step.id == At(def, snap)
    requires !step.kind.End? && !step.kind.Unregistered? && !step.kind.Action?
    requires w.run.frames == FramesAfter(step, snap.frames) && CanPush(step, snap.frames)
    requires DoneBy(env, snap, step, entries) && (step.kind.TryCatch? ==> entries == [])
    ensures var turn := SucceedTurn(w, step, entries);
            turn.Again? ==>
              && turn.w.run.state.Running? && turn.w.run.current != []
              && if step.kind.While? then RoundMove(def, Here(def, snap), Here(def, turn.w.run))
                 else FreeMove(def, Here(def, snap), Here(def, turn.w.run))
  {
    var next := NextStep(step, entries);
    if next.Some? && next.value != [] {
      if step.kind.While? {
        var c :| entries == WhileEntries(snap.vars, step.id, c);
        assert BranchOf(entries) == Some(if c then CONTINUE else EXIT);
        assert RoundLeads(step, c, next.value);
      } else {
        NextLeads(step, entries, next.value);
      }
    }
  }

  lemma DoneMoves(def: Definition, env: Env, w: World, snap: Run, step: Step, entries: seq<Pair>)
    requires SparesCounters(env) && StepById(def.steps, step.id) == Some(step) && step.id == At(def, snap)
    requires !step.kind.End? && !step.kind.Unregistered? && !step.kind.Action?
    requires w.run.vars == snap.vars && w.run.frames == FramesAfter(step, snap.frames) && CanPush(step, snap.frames)
    requires DoneBy(env, snap, step, entries) && (step.kind.TryCatch? ==> entries == [])
    ensures var turn := SucceedTurn(w, step, entries);
            turn.Again? ==>
              turn.w.run.state.Running? && turn.w.run.current != [] && MovedBy(def, snap, turn.w.run, entries)
  {
    DoneLeads(def, env, w, snap, step, entries);
    if !step.kind.While? && entries != [] {
      var n: nat :| env.reply(n, step.id) == Return(entries);
      assert Spares(env.reply(n, step.id).entries);
    }
  }

  /** What a frame adds to the variables. */
  function ErrorEntry(step: Step, msg: Msg): Pair
  {
    Pair(ERROR, Map(map[STEP_ID := Str(step.id), MESSAGE := Str(msg)]))
  }

  /** Where a caught failure leads. */
  lemma CatchLeads(def: Definition, w: World, snap: Run, step: Step, msg: Msg)
    requires Framed(def, snap.frames) && StepById(def.steps, step.id) == Some(step) && step.id == At(def, snap)
    requires !step.kind.End? && !step.kind.Unregistered? && w.run.frames == snap.frames != []
    ensures var w' := Caught(Popped(w), step, msg, w.run.frames[|w.run.frames| - 1]);
            w'.run.current != [] && FreeMove(def, Here(def, snap), Here(def, w'.run))
  {
    assert FrameOf(def, snap.frames[|snap.frames| - 1]);
  }

  lemma CatchMoves(def: Definition, w: World, snap: Run, step: Step, msg: Msg)
    requires Framed(def, snap.frames) && StepById(def.steps, step.id) == Some(step) && step.id == At(def, snap)
    requires !step.kind.End? && !step.kind.Unregistered?
    requires w.run.vars == snap.vars && w.run.frames == snap.frames != []
    ensures var w' := Caught(Popped(w), step, msg, w.run.frames[|w.run.frames| - 1]);
            w'.run.current != [] && MovedBy(def, snap, w'.run, [ErrorEntry(step, msg)])
  {
    CatchLeads(def, w, snap, step, msg);
    ApplyOne(snap.vars, ErrorEntry(step, msg));
    ErrorSpares(step, msg);
  }

  lemma ApplyOne(vars: Vars, e: Pair)
    ensures ApplyPairs(vars, [e]) == Put(vars, Segments(e.key), e.value)
  {
    assert [e][1..] == [];
  }

  lemma ErrorSpares(step: Step, msg: Msg)
    ensures Spares([ErrorEntry(step, msg)])
  {
    SegmentsPlain(ERROR);
  }

  // ------------------------------------------------- the bound

  predicate WhilesArePlain(def: Definition)
  {
    forall s :: s in def.steps && s.kind.While? ==> Plain(s.id)
  }

  /** What the bound asks of a definition and its handlers. */
  ghost predicate Bounded(def: Definition, from: Position, env: Env)
  {
    NoFreeCycle(def, from) && WhilesArePlain(def) && SparesCounters(env)
  }

  /** A free move leaves the loop budget as it was, a round of a while step uses it up. */
  lemma MoveSpends(def: Definition, w: World, w': World)
    requires WhilesArePlain(def) && Moved(def, w, w')
    ensures || (FreeMove(def, Here(def, w.run), Here(def, w'.run))
                && Budget(def.steps, w'.run.vars) == Budget(def.steps, w.run.vars))
            || (RoundMove(def, Here(def, w.run), Here(def, w'.run))
                && Budget(def.steps, w'.run.vars) < Budget(def.steps, w.run.vars))
  {
    var entries :| MovedBy(def, w.run, w'.run, entries);
    if FreeMove(def, Here(def, w.run), Here(def, w'.run)) && Spares(entries) {
      OthersSpendNothing(def, w.run.vars, entries);
    } else {
      var step := StepById(def.steps, At(def, w.run)).value;
      var c :| entries == WhileEntries(w.run.vars, step.id, c);
      RoundSpends(def, w.run.vars, step, c);
    }
  }

  lemma RoundSpends(def: Definition, vars: Vars, step: Step, condition: bool)
    requires step in def.steps && step.kind.While? && Iterations(vars, step.id) < MaxIter(step)
    requires forall s :: s in def.steps && s.kind.While? ==> Plain(s.id)
    ensures Budget(def.steps, ApplyPairs(vars, WhileEntries(vars, step.id, condition))) < Budget(def.steps, vars)
  {
    var vars' := ApplyPairs(vars, WhileEntries(vars, step.id, condition));
    forall s | s in def.steps && s.kind.While?
      ensures Iterations(vars', s.id) == Iterations(vars, s.id) + if s.id == step.id then 1 else 0
    {
      RoundCounts(vars, step.id, condition, s.id);
    }
    BudgetDrops(def.steps, vars, vars', step);
  }

  lemma OthersSpendNothing(def: Definition, vars: Vars, entries: seq<Pair>)
    requires Spares(entries)
    ensures Budget(def.steps, ApplyPairs(vars, entries)) == Budget(def.steps, vars)
  {
    var vars' := ApplyPairs(vars, entries);
    forall s | s in def.steps && s.kind.While? ensures Iterations(vars', s.id) == Iterations(vars, s.id) {
      SparedCounters(vars, entries, s.id);
    }
    BudgetFrame(def.steps, vars, vars');
  }

  lemma {:induction false} MoreRounds(r': nat, r: nat, n: nat)
    requires r' <= r
    ensures Rounds(r', n) + (if r' < r then n else 0) <= Rounds(r, n)
    decreases r
  {
    if r' < r {
      MoreRounds(r', r - 1, n);
    }
  }

  /** Steps that can still run, `used` of them since the last while round. */
  function Cost(def: Definition, vars: Vars, used: nat): int
  {
    Rounds(Budget(def.steps, vars), Room(def)) + Room(def) - used
  }

  /** Every move lowers the cost. */
  lemma MoveCosts(def: Definition, from: Position, w: World, w': World, trail: seq<Position>)
    returns (trail': seq<Position>)
    requires NoFreeCycle(def, from) && WhilesArePlain(def) && Moved(def, w, w')
    requires Trail(def, from, trail, Here(def, w.run))
    requires StepById(def.steps, At(def, w.run)).Some?
    ensures Trail(def, from, trail', Here(def, w'.run)) && |trail'| <= Room(def)
    ensures 0 <= Cost(def, w'.run.vars, |trail'|) < Cost(def, w.run.vars, |trail|)
  {
    var here := Here(def, w.run);
    MoveSpends(def, w, w');
    TrailIsShort(def, from, trail, here);
    MoreRounds(Budget(def.steps, w'.run.vars), Budget(def.steps, w.run.vars), Room(def));
    if FreeMove(def, here, Here(def, w'.run)) && Budget(def.steps, w'.run.vars) == Budget(def.steps, w.run.vars) {
      TrailGrows(def, from, trail, here, Here(def, w'.run));
      trail' := trail + [here];
    } else {
      StandsOn(def, from, here, Here(def, w'.run));
      trail' := [];
    }
  }

  /** The steps one call can execute: one more round than the while steps have
      left, each through every position. */
  function Bound(def: Definition, vars: Vars): nat
  {
    Rounds(Budget(def.steps, vars) + 1, Room(def))
  }

  /** The run can go on for at most c more steps, `total` in all. */
  ghost predicate Affords(def: Definition, from: Position, w: World, trail: seq<Position>, c: nat, total: int)
  {
    && !w.run.state.Paused?
    && Trail(def, from, trail, Here(def, w.run)) && |trail| <= Room(def)
    && Cost(def, w.run.vars, |trail|) <= c && Dispatches(w) + c <= total
  }

  ghost predicate Within(def: Definition, from: Position, w: World, c: nat, total: int)
  {
    exists trail :: Affords(def, from, w, trail, c, total)
  }

  predicate EndedWithin(w: World, result: Result, total: int)
  {
    !result.ContextDone? && Dispatches(w) <= total
  }

  /** The same, counting the wake-up of a paused run as one more iteration. */
  ghost predicate Ready(def: Definition, from: Position, w: World, c: nat, total: int)
  {
    if w.run.state.Paused? then
      OnPath(def, from, w.run) && c == Bound(def, w.run.vars) + 1 && Dispatches(w) + Bound(def, w.run.vars) <= total
    else Within(def, from, w, c, total)
  }

  /** One iteration lowers the cost. */
  ghost predicate Ranks(def: Definition, from: Position, turn: Turn, c: nat, total: int)
  {
    match turn
    case Again(w') => c > 0 && Ready(def, from, w', c - 1, total)
    case Stop(w', result) => EndedWithin(w', result, total)
  }

  lemma OneIteration(def: Definition, from: Position, env: Env, w: World, c: nat, total: int)
    requires Bounded(def, from, env) && Ready(def, from, w, c, total)
    ensures Ranks(def, from, Iterate(def, env, w), c, total)
  {
    if w.run.state.Paused? {
      WakeRanks(def, from, env, w, c, total);
    } else if !w.run.state.IsTerminal() {
      StepRanks(def, from, env, w, c, total);
    }
  }

  lemma StepRanks(def: Definition, from: Position, env: Env, w: World, c: nat, total: int)
    requires Bounded(def, from, env) && Within(def, from, w, c, total) && !w.run.state.IsTerminal()
    ensures Ranks(def, from, Iterate(def, env, w), c, total)
  {
    var trail :| Affords(def, from, w, trail, c, total);
    StepMoves(def, env, w);
    StopsForReal(def, env, w);
    LastStepCosts(def, from, w, trail);
    var turn := Iterate(def, env, w);
    if turn.Again? {
      var trail' := MoveCosts(def, from, w, turn.w, trail);
      assert Affords(def, from, turn.w, trail', c - 1, total);
    }
  }

  lemma WakeRanks(def: Definition, from: Position, env: Env, w: World, c: nat, total: int)
    requires w.run.state.Paused? && Ready(def, from, w, c, total)
    ensures Ranks(def, from, WakeTurn(def, env, w), c, total)
  {
    WakeDispatchesNothing(def, env, w);
    if WakeTurn(def, env, w).Again? {
      WakeGoesOn(def, from, env, w, c, total);
    }
  }

  lemma WakeDispatchesNothing(def: Definition, env: Env, w: World)
    ensures var turn := WakeTurn(def, env, w);
            Dispatches(turn.w) == Dispatches(w) && (turn.Stop? ==> !turn.result.ContextDone?)
  {
    var step := StepById(def.steps, w.run.current);
    if step.Some? {
      TallySnoc(w.events, Event(StepSucceeded, step.value.id, 0), IsDispatch);
    }
  }

  /** A waking run stands where it was seen to go. */
  lemma WakeGoesOn(def: Definition, from: Position, env: Env, w: World, c: nat, total: int)
    requires w.run.state.Paused? && Ready(def, from, w, c, total) && WakeTurn(def, env, w).Again?
    ensures c > 0 && Ready(def, from, WakeTurn(def, env, w).w, c - 1, total)
  {
    var w' := WakeTurn(def, env, w).w;
    WakeDispatchesNothing(def, env, w);
    WakeStands(def, from, env, w);
    assert Affords(def, from, w', [], c - 1, total);
  }

  lemma WakeStands(def: Definition, from: Position, env: Env, w: World)
    requires w.run.state.Paused? && OnPath(def, from, w.run) && WakeTurn(def, env, w).Again?
    ensures var r := WakeTurn(def, env, w).w.run;
            r.state.Running? && r.vars == w.run.vars && Stands(def, from, Here(def, r))
  {
    var timedOut :| WakeTurn(def, env, w) == LeaveTurn(def, w, timedOut);
    var step := StepById(def.steps, w.run.current).value;
    assert LeaveTurn(def, w, timedOut).Again?;
    assert LeaveTurn(def, w, timedOut).w.run.current == WakeNext(step, timedOut);
  }

  predicate Descends(turn: Turn, ready: (World, nat) -> bool, end: (World, Result) -> bool, k: nat)
  {
    match turn
    case Again(w) => k > 0 && ready(w, k - 1)
    case Stop(w, result) => end(w, result)
  }

  /** Any loop whose iterations each use up one of c ends before more than c. */
  lemma {:induction false} RankedEnds(next: World -> Turn, ready: (World, nat) -> bool, end: (World, Result) -> bool,
                                      w: World, budget: nat, c: nat)
    requires ready(w, c) && budget > c
    requires forall x: World, k: nat :: ready(x, k) ==> Descends(next(x), ready, end, k)
    ensures var (w', result) := Drive(next, w, budget); end(w', result)
    decreases budget
  {
    if next(w).Again? {
      RankedEnds(next, ready, end, next(w).w, budget - 1, c - 1);
    }
  }

  lemma LastStepCosts(def: Definition, from: Position, w: World, trail: seq<Position>)
    requires NoFreeCycle(def, from) && Trail(def, from, trail, Here(def, w.run)) && |trail| <= Room(def)
    ensures Cost(def, w.run.vars, |trail|) >= if StepById(def.steps, At(def, w.run)).Some? then 1 else 0
  {
    if StepById(def.steps, At(def, w.run)).Some? {
      TrailIsShort(def, from, trail, Here(def, w.run));
    }
  }

  lemma StartsReady(def: Definition, from: Position, w: World) returns (c: nat, total: int)
    requires OnPath(def, from, w.run)
    ensures Ready(def, from, w, c, total)
    ensures c <= Bound(def, w.run.vars) + 1 && total == Dispatches(w) + Bound(def, w.run.vars)
  {
    var bound := Bound(def, w.run.vars);
    total := Dispatches(w) + bound;
    if w.run.state.Paused? {
      c := bound + 1;
    } else {
      c := bound;
      assert Affords(def, from, w, [], c, total);
    }
  }

  ghost function Readiness(def: Definition, from: Position, total: int): (World, nat) -> bool
  {
    (w: World, c: nat) => Ready(def, from, w, c, total)
  }

  function Ending(total: int): (World, Result) -> bool
  {
    (w: World, result: Result) => EndedWithin(w, result, total)
  }

  lemma IterationDescends(def: Definition, from: Position, env: Env, w: World, c: nat, total: int)
    requires Bounded(def, from, env) && Ready(def, from, w, c, total)
    ensures Descends(Iteration(def, env)(w), Readiness(def, from, total), Ending(total), c)
  {
    OneIteration(def, from, env, w, c, total);
    RanksDescend(def, from, Iterate(def, env, w), c, total);
    assert Iteration(def, env)(w) == Iterate(def, env, w);
  }

  lemma RanksDescend(def: Definition, from: Position, turn: Turn, c: nat, total: int)
    requires Ranks(def, from, turn, c, total)
    ensures Descends(turn, Readiness(def, from, total), Ending(total), c)
  {
    match turn
    case Again(w) => assert Readiness(def, from, total)(w, c - 1) == Ready(def, from, w, c - 1, total);
    case Stop(w, result) => assert Ending(total)(w, result) == EndedWithin(w, result, total);
  }

  lemma EndsInTime(def: Definition, from: Position, env: Env, w: World, budget: nat, c: nat, total: int)
    requires Bounded(def, from, env) && Ready(def, from, w, c, total) && budget > c
    ensures var (w', result) := Loop(def, env, w, budget); EndedWithin(w', result, total)
  {
    var ready, end := Readiness(def, from, total), Ending(total);
    forall x: World, k: nat | ready(x, k) ensures Descends(Iteration(def, env)(x), ready, end, k) {
      IterationDescends(def, from, env, x, k, total);
    }
    RankedEnds(Iteration(def, env), ready, end, w, budget, c);
  }

  /** A call of Advance ends on its own, whatever the handlers answer, having
      executed at most Bound steps. */
  lemma AdvanceEnds(def: Definition, from: Position, env: Env, w: World, budget: nat)
    requires Bounded(def, from, env) && OnPath(def, from, w.run)
    requires budget >= Bound(def, w.run.vars) + 2
    ensures var (w', result) := Loop(def, env, w, budget);
            !result.ContextDone? && Dispatches(w') <= Dispatches(w) + Bound(def, w.run.vars)
  {
    var c, total := StartsReady(def, from, w);
    EndsInTime(def, from, env, w, budget, c, total);
  }

  lemma RoomIsProduct(def: Definition)
    ensures var n := 1 + TryCatches(def.steps); Room(def) == |def.steps| * (n * (n * n))
  {
    var n := 1 + TryCatches(def.steps);
    Cube(n);
    RoundsIsProduct(|def.steps|, n * (n * n));
  }

  lemma Cube(n: nat)
    ensures Power(n, 3) == n * (n * n)
  {
    RoundsIsProduct(n, 1);
    RoundsIsProduct(n, n);
    RoundsIsProduct(n, n * n);
    assert Power(n, 1) == Rounds(n, Power(n, 0)) == n;
    assert Power(n, 2) == Rounds(n, Power(n, 1)) == n * n;
  }

  /** The bound in the terms of the definition alone, for runs whose counters
      were written by while steps. */
  lemma BoundByCaps(def: Definition, vars: Vars)
    requires forall s :: s in def.steps && s.kind.While? ==> Iterations(vars, s.id) >= 0
    ensures Bound(def, vars) <= (Caps(def.steps) + 1) * Room(def)
    ensures var n := 1 + TryCatches(def.steps); Room(def) == |def.steps| * (n * (n * n))
  {
    RoomIsProduct(def);
    BudgetWithinCaps(def.steps, vars);
    MoreRounds(Budget(def.steps, vars) + 1, Caps(def.steps) + 1, Room(def));
    RoundsIsProduct(Caps(def.steps) + 1, Room(def));
  }

  // ------------------------------------------------- what the conditions exclude

  lemma {:induction false} NeverStops(next: World -> Turn, inv: World -> bool, w: World, budget: nat)
    requires inv(w)
    requires forall x :: inv(x) ==> next(x).Again? && inv(next(x).w)
    ensures Drive(next, w, budget).1.ContextDone?
    decreases budget
  {
    if budget > 0 {
      NeverStops(next, inv, next(w).w, budget - 1);
    }
  }

  ghost predicate AlwaysHolds(env: Env)
  {
    && (forall n: nat, id: Key {:trigger env.reply(n, id)} :: env.reply(n, id) == Holds(true))
    && (forall n: nat {:trigger env.license(n)} :: env.license(n).Granted?)
  }

  lemma RunsHandler(def: Definition, env: Env, w: World, step: Step)
    requires w.run.state.Running? && w.run.current == step.id != [] && StepById(def.steps, step.id) == Some(step)
    requires !step.kind.End? && !step.kind.Unregistered? && AlwaysHolds(env)
    ensures Iterate(def, env, w) == HandlerTurn(def, env, Dispatched(w, step), w.run, step)
  {
  }

  lemma LoopCounts(env: Env, w: World, snap: Run, step: Step)
    requires step.kind.While? && AlwaysHolds(env) && Iterations(snap.vars, step.id) < MaxIter(step)
    ensures Attempt(env, w, snap, step, 0) == (Once(env, w, snap, step).0, Done(WhileEntries(snap.vars, step.id, true)))
    ensures Once(env, w, snap, step).0.run == w.run
  {
  }

  lemma RoundGoesOn(def: Definition, env: Env, w: World, step: Step, next: Key)
    requires StepById(def.steps, step.id) == Some(step) && step.kind.While? && step.id != []
    requires RoundLeads(step, true, next) && next != [] && AlwaysHolds(env)
    requires w.run.state.Running? && w.run.current == step.id && Iterations(w.run.vars, step.id) < MaxIter(step)
    ensures var turn := Iterate(def, env, w);
            && turn.Again? && turn.w.run.state.Running? && turn.w.run.current == next
            && turn.w.run.vars == ApplyPairs(w.run.vars, WhileEntries(w.run.vars, step.id, true))
  {
    var entries := WhileEntries(w.run.vars, step.id, true);
    assert BranchOf(entries) == Some(CONTINUE);
    RunsHandler(def, env, w, step);
    LoopCounts(env, Dispatched(w, step), w.run, step);
  }

  predicate Spins(step: Step, w: World)
  {
    w.run.state.Running? && w.run.current == step.id && Iterations(w.run.vars, step.id) < MaxIter(step)
  }

  lemma SpinsOn(def: Definition, env: Env, step: Step, w: World)
    requires StepById(def.steps, step.id) == Some(step) && step.kind.While? && step.id != [] && !Plain(step.id)
    requires CONTINUE in step.branches && step.branches[CONTINUE] == step.id
    requires AlwaysHolds(env) && Spins(step, w)
    ensures Iterate(def, env, w).Again? && Spins(step, Iterate(def, env, w).w)
  {
    RoundCounts(w.run.vars, step.id, true, step.id);
    RoundGoesOn(def, env, w, step, step.id);
  }

  /** max_iterations does not cap a loop whose while step has an ID with a dot
      or a byte outside ASCII: the counter is written to one place and read from
      another. */
  lemma UncountedLoopNeverEnds(def: Definition, env: Env, step: Step, w: World, budget: nat)
    requires StepById(def.steps, step.id) == Some(step) && step.kind.While? && step.id != [] && !Plain(step.id)
    requires CONTINUE in step.branches && step.branches[CONTINUE] == step.id
    requires AlwaysHolds(env) && Spins(step, w)
    ensures Loop(def, env, w, budget).1.ContextDone?
  {
    var inv := (x: World) => Spins(step, x);
    forall x | inv(x) ensures Iteration(def, env)(x).Again? && inv(Iteration(def, env)(x).w) {
      SpinsOn(def, env, step, x);
    }
    NeverStops(Iteration(def, env), inv, w, budget);
  }

  /** Two while steps that lead to each other, `inner` named after the counter of
      `outer`. */
  ghost predicate Resets(def: Definition, outer: Step, inner: Step, rest: Key)
  {
    && StepById(def.steps, outer.id) == Some(outer) && StepById(def.steps, inner.id) == Some(inner)
    && outer.kind.While? && inner.kind.While? && Plain(outer.id) && outer.id != []
    && inner.id == outer.id + [DOT] + rest && Segments(rest)[0] == ITER
    && RoundLeads(outer, true, inner.id) && RoundLeads(inner, true, outer.id)
  }

  /** On one of the two, neither at its cap by what it reads. */
  predicate Turns(outer: Step, inner: Step, w: World)
  {
    && w.run.state.Running? && Iterations(w.run.vars, inner.id) < MaxIter(inner)
    && (w.run.current == inner.id || (w.run.current == outer.id && Iterations(w.run.vars, outer.id) == 0))
  }

  lemma TurnsOn(def: Definition, env: Env, outer: Step, inner: Step, rest: Key, w: World)
    requires Resets(def, outer, inner, rest) && AlwaysHolds(env) && Turns(outer, inner, w)
    ensures Iterate(def, env, w).Again? && Turns(outer, inner, Iterate(def, env, w).w)
  {
    SegmentsAppend(outer.id, rest);
    SegmentsPlain(inner.id);
    SegmentsPlain(outer.id);
    if w.run.current == inner.id {
      RoundGoesOn(def, env, w, inner, outer.id);
      DottedIdResets(w.run.vars, outer.id, rest, true);
      RoundCounts(w.run.vars, inner.id, true, inner.id);
    } else {
      RoundGoesOn(def, env, w, outer, inner.id);
      RoundCounts(w.run.vars, outer.id, true, inner.id);
    }
  }

  /** So a while step with a plain ID is not capped either when another while
      step of its loop has such an ID: each round of that one sets its counter
      back. */
  lemma ResetLoopNeverEnds(def: Definition, env: Env, outer: Step, inner: Step, rest: Key, w: World, budget: nat)
    requires Resets(def, outer, inner, rest) && AlwaysHolds(env) && Turns(outer, inner, w)
    ensures Loop(def, env, w, budget).1.ContextDone?
  {
    var inv := (x: World) => Turns(outer, inner, x);
    forall x | inv(x) ensures Iteration(def, env)(x).Again? && inv(Iteration(def, env)(x).w) {
      TurnsOn(def, env, outer, inner, rest, x);
    }
    NeverStops(Iteration(def, env), inv, w, budget);
  }

  /** Alternating between a try_catch and the exhausted while step it guards. */
  predicate Bounces(guard: Step, loop: Step, w: World)
  {
    && w.run.state.Running? && Iterations(w.run.vars, loop.id) >= MaxIter(loop)
    && ((w.run.current == guard.id && w.run.frames == [])
        || (w.run.current == loop.id && w.run.frames == [Frame(guard.id, guard.catchStep)]))
  }

  ghost predicate Guarded(def: Definition, guard: Step, loop: Step)
  {
    && StepById(def.steps, guard.id) == Some(guard) && StepById(def.steps, loop.id) == Some(loop)
    && guard.kind.TryCatch? && guard.catchStep == guard.id != [] && guard.next == loop.id != []
    && loop.kind.While? && loop.maxAttempts <= 1
  }

  lemma EntersGuard(def: Definition, env: Env, guard: Step, loop: Step, w: World)
    requires Guarded(def, guard, loop) && AlwaysHolds(env) && Bounces(guard, loop, w) && w.run.frames == []
    ensures Iterate(def, env, w).Again? && Bounces(guard, loop, Iterate(def, env, w).w)
  {
    var none: seq<Pair> := [];
    RunsHandler(def, env, w, guard);
    GuardPushes(env, Dispatched(w, guard), w.run, guard);
    assert BranchOf(none) == None && ApplyPairs(w.run.vars, none) == w.run.vars;
  }

  lemma GuardPushes(env: Env, w: World, snap: Run, guard: Step)
    requires guard.kind.TryCatch? && guard.catchStep != [] && AlwaysHolds(env) && w.run.frames == []
    ensures Attempt(env, w, snap, guard, 0) == (Once(env, w, snap, guard).0, Done([]))
    ensures Once(env, w, snap, guard).0.run == w.run.(frames := [Frame(guard.id, guard.catchStep)])
  {
  }

  lemma LeavesLoop(def: Definition, env: Env, guard: Step, loop: Step, w: World)
    requires Guarded(def, guard, loop) && AlwaysHolds(env) && Bounces(guard, loop, w) && w.run.frames != []
    ensures Iterate(def, env, w).Again? && Bounces(guard, loop, Iterate(def, env, w).w)
  {
    var w2 := Once(env, Dispatched(w, loop), w.run, loop).0;
    var w3 := Caught(Popped(w2), loop, REASON, w2.run.frames[0]);
    LoopFails(def, env, guard, loop, w);
    ErrorSparesCounters(w.run.vars, loop, REASON);
    assert w3.run.frames == [];
  }

  lemma LoopFails(def: Definition, env: Env, guard: Step, loop: Step, w: World)
    requires Guarded(def, guard, loop) && AlwaysHolds(env) && Bounces(guard, loop, w) && w.run.frames != []
    ensures var w2 := Once(env, Dispatched(w, loop), w.run, loop).0;
            && w2.run == SetState(w.run, Running, loop.id)
            && Iterate(def, env, w) == Again(Caught(Popped(w2), loop, REASON, w2.run.frames[0]))
  {
    var w1 := Dispatched(w, loop);
    CapIsAnError(env, w1, w.run, loop);
    RunsHandler(def, env, w, loop);
    FrameTakesError(def, env, w1, w.run, loop, Once(env, w1, w.run, loop).0);
  }

  lemma FrameTakesError(def: Definition, env: Env, w: World, snap: Run, step: Step, w': World)
    requires Attempt(env, w, snap, step, 0) == (w', Failing(REASON)) && |w'.run.frames| == 1
    ensures HandlerTurn(def, env, w, snap, step) == Again(Caught(Popped(w'), step, REASON, w'.run.frames[0]))
  {
  }

  lemma CapIsAnError(env: Env, w: World, snap: Run, loop: Step)
    requires loop.kind.While? && loop.maxAttempts <= 1 && AlwaysHolds(env)
    requires Iterations(snap.vars, loop.id) >= MaxIter(loop)
    ensures Attempt(env, w, snap, loop, 0) == (Once(env, w, snap, loop).0, Failing(REASON))
    ensures Once(env, w, snap, loop).0.run == w.run
  {
  }

  lemma ErrorSparesCounters(vars: Vars, step: Step, msg: Msg)
    ensures var error := Map(map[STEP_ID := Str(step.id), MESSAGE := Str(msg)]);
            Iterations(Put(vars, Segments(ERROR), error), step.id) == Iterations(vars, step.id)
  {
    SegmentsPlain(ERROR);
    CounterFrame(vars, Segments(ERROR), Map(map[STEP_ID := Str(step.id), MESSAGE := Str(msg)]), step.id);
  }

  /** Nor does it end a loop through a try_catch: the cap is an error, the frame
      takes it, and the catch step pushes the frame again. */
  lemma CaughtLoopNeverEnds(def: Definition, env: Env, guard: Step, loop: Step, w: World, budget: nat)
    requires Guarded(def, guard, loop) && AlwaysHolds(env) && Bounces(guard, loop, w)
    ensures Loop(def, env, w, budget).1.ContextDone?
  {
    var inv := (x: World) => Bounces(guard, loop, x);
    forall x | inv(x) ensures Iteration(def, env)(x).Again? && inv(Iteration(def, env)(x).w) {
      if x.run.frames == [] {
        EntersGuard(def, env, guard, loop, x);
      } else {
        LeavesLoop(def, env, guard, loop, x);
      }
    }
    NeverStops(Iteration(def, env), inv, w, budget);
  }

  // ------------------------------------------------- what they include

  function Plainly(id: Key, kind: Kind, next: Key, branches: map<Key, Key>): Step
  {
    Step(id, kind, next, branches, [], None, 0, None, [])
  }

  /** while a { b } c: the ordinary loop. */
  function OneLoop(a: Key, b: Key, c: Key): Definition
  {
    Definition(a, [Plainly(a, While, c, map[CONTINUE := b, EXIT := c]), Plainly(b, Other, a, map[]),
                   Plainly(c, End, [], map[])])
  }

  /** The ordinary loop meets the conditions of the bound. */
  lemma OrdinaryLoopIsBounded(a: Key, b: Key, c: Key, from: Position, env: Env)
    requires a != b && b != c && a != c
    requires Plain(a) && SparesCounters(env)
    ensures Bounded(OneLoop(a, b, c), from, env)
  {
    var def := OneLoop(a, b, c);
    ThreeSteps(def.steps[0], def.steps[1], def.steps[2]);
    var rank := (p: Position) => if p.id == b then 1 as nat else 0;
    forall p: Position, q: Position | Framed(def, p.frames) && FreeMove(def, p, q) ensures rank(q) < rank(p) {
      NoFrames(def, p.frames);
      assert p.id == b && q.id == a;
    }
    RankLeavesNoCycle(def, from, rank);
  }

  lemma NoFrames(def: Definition, frames: seq<Frame>)
    requires Framed(def, frames) && forall s :: s in def.steps ==> !s.kind.TryCatch?
    ensures frames == []
  {
    assert frames != [] ==> FrameOf(def, frames[0]);
  }

  function OneOf(x: Step, y: Step, z: Step, id: Key): Option<Step>
  {
    if x.id == id then Some(x) else if y.id == id then Some(y) else if z.id == id then Some(z) else None
  }

  lemma ThreeSteps(x: Step, y: Step, z: Step)
    ensures forall id :: StepById([x, y, z], id) == OneOf(x, y, z, id)
  {
    var all := [x, y, z];
    assert all[1..] == [y, z] && all[1..][1..] == [z] && all[1..][1..][1..] == [];
    forall id ensures StepById(all, id) == OneOf(x, y, z, id) {
      assert StepById([z], id) == if z.id == id then Some(z) else None;
      assert StepById([y, z], id) == if y.id == id then Some(y) else StepById([z], id);
    }
  }

  /** while a { try_catch t { b } catch c }: the catch step leads back to its own
      try_catch, but through the while step. */
  function GuardedLoop(a: Key, t: Key, b: Key, c: Key): Definition
  {
    Definition(a, [Plainly(a, While, a, map[CONTINUE := t]), Plainly(t, TryCatch, b, map[]).(catchStep := c),
                   Plainly(b, Other, a, map[]), Plainly(c, Other, a, map[])])
  }

  function GuardedRank(t: Key, b: Key, c: Key, p: Position): nat
  {
    2 * |p.frames| + if p.id == t then 4 else if p.id == b || p.id == c then 1 else 0
  }

  lemma GuardedSteps(a: Key, t: Key, b: Key, c: Key, id: Key)
    requires a != t && a != b && a != c && t != b && t != c && b != c
    ensures var s := GuardedLoop(a, t, b, c).steps;
            StepById(s, id) == if id == a then Some(s[0]) else OneOf(s[1], s[2], s[3], id)
  {
    var s := GuardedLoop(a, t, b, c).steps;
    assert s[1..] == [s[1], s[2], s[3]];
    ThreeSteps(s[1], s[2], s[3]);
  }

  lemma GuardedDescends(a: Key, t: Key, b: Key, c: Key, p: Position, q: Position)
    requires a != t && a != b && a != c && t != b && t != c && b != c
    requires var def := GuardedLoop(a, t, b, c); Framed(def, p.frames) && FreeMove(def, p, q)
    ensures GuardedRank(t, b, c, q) < GuardedRank(t, b, c, p)
  {
    if Fails(GuardedLoop(a, t, b, c), p, q) {
      GuardedFails(a, t, b, c, p, q);
    } else {
      GuardedSucceeds(a, t, b, c, p, q);
    }
  }

  lemma TopFrame(def: Definition, frames: seq<Frame>, f: Frame)
    requires Framed(def, frames) && frames != []
    requires forall s :: s in def.steps && s.kind.TryCatch? ==> Frame(s.id, s.catchStep) == f
    ensures frames[|frames| - 1] == f
  {
    assert FrameOf(def, frames[|frames| - 1]);
  }

  lemma GuardedFails(a: Key, t: Key, b: Key, c: Key, p: Position, q: Position)
    requires a != t && a != b && a != c && t != b && t != c && b != c
    requires var def := GuardedLoop(a, t, b, c); Framed(def, p.frames) && Fails(def, p, q)
    ensures GuardedRank(t, b, c, q) < GuardedRank(t, b, c, p)
  {
    TopFrame(GuardedLoop(a, t, b, c), p.frames, Frame(t, c));
  }

  lemma GuardedSucceeds(a: Key, t: Key, b: Key, c: Key, p: Position, q: Position)
    requires a != t && a != b && a != c && t != b && t != c && b != c
    requires Succeeds(GuardedLoop(a, t, b, c), p, q)
    ensures GuardedRank(t, b, c, q) < GuardedRank(t, b, c, p)
  {
    GuardedSteps(a, t, b, c, p.id);
    if p.id == t {
      assert q.id == b && |q.frames| == |p.frames| + 1;
    } else {
      assert (p.id == b || p.id == c) && q.id == a && q.frames == p.frames;
    }
  }

  /** That meets them, too. */
  lemma GuardedLoopIsBounded(a: Key, t: Key, b: Key, c: Key, from: Position, env: Env)
    requires a != t && a != b && a != c && t != b && t != c && b != c
    requires Plain(a) && SparesCounters(env)
    ensures Bounded(GuardedLoop(a, t, b, c), from, env)
  {
    var def := GuardedLoop(a, t, b, c);
    var rank := (p: Position) => GuardedRank(t, b, c, p);
    forall p: Position, q: Position | Framed(def, p.frames) && FreeMove(def, p, q) ensures rank(q) < rank(p) {
      GuardedDescends(a, t, b, c, p, q);
    }
    RankLeavesNoCycle(def, from, rank);
  }
}
