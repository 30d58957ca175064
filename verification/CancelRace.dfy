/** A cancel takes no run lock, so it can land between two store writes of an
    iteration of Advance. Which of them outlive it decides whether it holds. */
module CancelRace {
  import opened Domain
  import opened DottedKeys
  import opened Runs
  import opened Rollback
  import opened Engine

  /** A store write to the run; each is atomic. */
  datatype Write =
    | SetsState(state: RunState, current: Key)
    | Clears
    | Marks(mark: Mark, id: Key)
    | Awaits(action: Key, attempt: int)
    | Fails(step: Key, error: Msg)
    | Merges(entries: seq<Pair>)
    | Pushes(frame: Frame)
    | Pops

  function Do(r: Run, x: Write): Run
  {
    match x
    case SetsState(state, current) => SetState(r, state, current)
    case Clears => ClearedPause(r)
    case Marks(mark, id) => Marked(r, mark, id)
    case Awaits(action, attempt) => AwaitingAction(r, action, attempt)
    case Fails(step, error) => MarkedFailed(r, step, error)
    case Merges(entries) => r.(vars := ApplyPairs(r.vars, entries))
    case Pushes(frame) => r.(frames := r.frames + [frame])
    case Pops => if r.frames == [] then r else r.(frames := r.frames[..|r.frames| - 1])
  }

  function DoAll(r: Run, xs: seq<Write>): Run
    decreases |xs|
  {
    if xs == [] then r else DoAll(Do(r, xs[0]), xs[1..])
  }

  lemma {:induction false} DoAllAppend(r: Run, xs: seq<Write>, ys: seq<Write>)
    ensures DoAll(r, xs + ys) == DoAll(DoAll(r, xs), ys)
    decreases |xs|
  {
    if xs == [] {
      assert xs + ys == ys;
    } else {
      assert (xs + ys)[1..] == xs[1..] + ys;
      DoAllAppend(Do(r, xs[0]), xs[1..], ys);
    }
  }

  // ------------------------------------------------- the writes of an iteration

  function GoOn(next: Key): seq<Write>
  {
    if next == [] then [] else [SetsState(Running, next)]
  }

  function LeaveWrites(def: Definition, r: Run, timedOut: bool): seq<Write>
  {
    var step := StepById(def.steps, r.current);
    [Clears] + if step.None? then [] else GoOn(WakeNext(step.value, timedOut))
  }

  function WakeWrites(def: Definition, env: Env, r: Run): seq<Write>
  {
    if WakeupDue(r, env.now) then LeaveWrites(def, r, r.signal.Some? || r.topic.Some?)
    else if !NoMarkers(r) || ChildrenStillRunning(def, r.current, env) then []
    else LeaveWrites(def, r, false)
  }

  predicate Cancels(x: Write)
  {
    x.SetsState? && x.state.Cancelled?
  }

  predicate NoneCancels(xs: seq<Write>)
  {
    forall i :: 0 <= i < |xs| ==> !Cancels(xs[i])
  }

  /** What one call of a handler writes; frames are those of the run. */
  function HandlerWrites(step: Step, snap: Run, frames: seq<Frame>, reply: Reply): (xs: seq<Write>)
    ensures NoneCancels(xs)
  {
    match step.kind
    case Action => if step.action == [] || !WellNamed(step.action) then [] else [Awaits(step.action, snap.attempt + 1)]
    case While => []
    case TryCatch =>
      if reply.Breaks? || step.catchStep == [] || |frames| >= MAX_FRAMES then []
      else [Pushes(Frame(step.id, step.catchStep))]
    case FanOut => if reply.Breaks? || reply.Return? then [] else [SetsState(Paused, step.id)]
    case _ => if reply.Pauses? && Fits(step.kind, reply.mark) then [Marks(reply.mark, step.id)] else []
  }

  function AttemptWrites(env: Env, w: World, snap: Run, step: Step, n: nat): (xs: seq<Write>)
    requires n < Attempts(step)
    ensures NoneCancels(xs)
    decreases Attempts(step) - n
  {
    var (w1, out) := Once(env, w, snap, step);
    HandlerWrites(step, snap, w.run.frames, env.reply(w.calls, step.id))
    + if !out.Failing? || n == Attempts(step) - 1 then []
      else
        var w2 := LogRetry(w1, step, n + 1);
        if env.abandoned(w2.calls) then [] else AttemptWrites(env, w2, snap, step, n + 1)
  }

  function CatchWrites(step: Step, msg: Msg, frame: Frame): seq<Write>
  {
    var error := Map(map[STEP_ID := Str(step.id), MESSAGE := Str(msg)]);
    [Pops, Merges([Pair(ERROR, error)]), SetsState(Running, frame.catchStep)]
  }

  function AfterWrites(def: Definition, w: World, snap: Run, step: Step, out: Outcome): seq<Write>
  {
    match out
    case Suspended => []
    case Cancelling => [SetsState(Cancelled, step.id)]
    case Failing(msg) =>
      if w.run.frames != [] then
        CatchWrites(step, msg, w.run.frames[|w.run.frames| - 1])
      else
        var log := w.events + [Event(StepFailed, step.id, 0)];
        (if Completed(def.steps, log, step.id) == [] then [] else [SetsState(Compensating, snap.current)])
        + [Fails(step.id, REASON + msg)]
    case Done(entries) =>
      var next := NextStep(step, entries);
      [Merges(entries)] + if next.None? then [] else GoOn(next.value)
  }

  function StepWrites(def: Definition, env: Env, w: World): seq<Write>
  {
    match StepById(def.steps, At(def, w.run))
    case None => []
    case Some(step) =>
      var w1 := Dispatched(Started(w), step);
      [SetsState(Running, step.id)]
      + if step.kind.End? then [SetsState(Succeeded, [])]
        else if step.kind.Unregistered? then []
        else if env.license(w1.calls).Rejected? then [Fails(step.id, REASON)]
        else
          var (w2, out) := Attempt(env, w1, w.run, step, 0);
          AttemptWrites(env, w1, w.run, step, 0) + AfterWrites(def, w2, w.run, step, out)
  }

  function Writes(def: Definition, env: Env, w: World): seq<Write>
  {
    if w.run.state.IsTerminal() then []
    else if w.run.state.Paused? then WakeWrites(def, env, w.run)
    else StepWrites(def, env, w)
  }

  // ------------------------------------------------- they are the iteration

  lemma HandlerIsItsWrites(r: Run, snap: Run, step: Step, reply: Reply)
    ensures DoAll(r, HandlerWrites(step, snap, r.frames, reply)) == Execute(r, snap, step, reply).0
  {
    match step.kind
    case Action => DoOne(r, Awaits(step.action, snap.attempt + 1));
    case While =>
    case TryCatch => DoOne(r, Pushes(Frame(step.id, step.catchStep)));
    case FanOut => DoOne(r, SetsState(Paused, step.id));
    case _ =>
      if reply.Pauses? {
        DoOne(r, Marks(reply.mark, step.id));
      }
  }

  lemma {:induction false} AttemptIsItsWrites(env: Env, w: World, snap: Run, step: Step, n: nat)
    requires n < Attempts(step)
    ensures DoAll(w.run, AttemptWrites(env, w, snap, step, n)) == Attempt(env, w, snap, step, n).0.run
    decreases Attempts(step) - n
  {
    var (w1, out) := Once(env, w, snap, step);
    var first := HandlerWrites(step, snap, w.run.frames, env.reply(w.calls, step.id));
    HandlerIsItsWrites(w.run, snap, step, env.reply(w.calls, step.id));
    assert DoAll(w.run, first) == w1.run;
    if out.Failing? && n < Attempts(step) - 1 && !env.abandoned(w1.calls) {
      var w2 := LogRetry(w1, step, n + 1);
      AttemptIsItsWrites(env, w2, snap, step, n + 1);
      DoAllAppend(w.run, first, AttemptWrites(env, w2, snap, step, n + 1));
    } else {
      assert first + [] == first;
    }
  }

  lemma DoOne(r: Run, x: Write)
    ensures DoAll(r, [x]) == Do(r, x)
  {
    assert [x][1..] == [];
  }

  lemma DoTwo(r: Run, x: Write, y: Write)
    ensures DoAll(r, [x]) == Do(r, x) && DoAll(r, [x, y]) == Do(Do(r, x), y)
  {
    DoOne(r, x);
    DoOne(Do(r, x), y);
    assert [x, y][1..] == [y];
  }

  lemma DoThree(r: Run, x: Write, y: Write, z: Write)
    ensures DoAll(r, [x, y, z]) == Do(Do(Do(r, x), y), z)
  {
    assert [x, y, z][1..] == [y, z];
    DoTwo(Do(r, x), y, z);
  }

  lemma CaughtIsItsWrites(w: World, step: Step, msg: Msg)
    requires w.run.frames != []
    ensures var frame := w.run.frames[|w.run.frames| - 1];
            DoAll(w.run, CatchWrites(step, msg, frame)) == Caught(Popped(w), step, msg, frame).run
  {
    var error := Map(map[STEP_ID := Str(step.id), MESSAGE := Str(msg)]);
    var entries := [Pair(ERROR, error)];
    var vars := w.run.vars;
    assert ApplyPairs(vars, entries) == Put(vars, Segments(ERROR), error) by {
      assert entries[1..] == [];
    }
    DoThree(w.run, Pops, Merges(entries), SetsState(Running, w.run.frames[|w.run.frames| - 1].catchStep));
  }

  lemma FailureIsItsWrites(def: Definition, env: Env, w: World, snap: Run, step: Step, msg: Msg)
    requires w.run.frames == []
    ensures DoAll(w.run, AfterWrites(def, w, snap, step, Failing(msg))) == FailRun(def, env, w, snap, step, msg).run
  {
    var fails := Fails(step.id, REASON + msg);
    DoOne(w.run, fails);
    DoTwo(w.run, SetsState(Compensating, snap.current), fails);
    assert [SetsState(Compensating, snap.current)] + [fails] == [SetsState(Compensating, snap.current), fails];
    assert [] + [fails] == [fails];
  }

  lemma SuccessIsItsWrites(def: Definition, w: World, snap: Run, step: Step, entries: seq<Pair>)
    ensures DoAll(w.run, AfterWrites(def, w, snap, step, Done(entries))) == SucceedTurn(w, step, entries).w.run
  {
    var next := NextStep(step, entries);
    DoOne(w.run, Merges(entries));
    if next.Some? && next.value != [] {
      DoTwo(w.run, Merges(entries), SetsState(Running, next.value));
      assert [Merges(entries)] + GoOn(next.value) == [Merges(entries), SetsState(Running, next.value)];
    } else {
      assert [Merges(entries)] + [] == [Merges(entries)];
    }
  }

  lemma AfterIsItsWrites(def: Definition, env: Env, w: World, snap: Run, step: Step, out: Outcome)
    ensures DoAll(w.run, AfterWrites(def, w, snap, step, out)) == AfterStep(def, env, w, snap, step, out).w.run
  {
    match out
    case Suspended =>
    case Cancelling => DoOne(w.run, SetsState(Cancelled, step.id));
    case Failing(msg) =>
      if w.run.frames != [] {
        CaughtIsItsWrites(w, step, msg);
      } else {
        FailureIsItsWrites(def, env, w, snap, step, msg);
      }
    case Done(entries) => SuccessIsItsWrites(def, w, snap, step, entries);
  }

  lemma GoOnIsOne(r: Run, next: Key)
    ensures DoAll(r, [Clears] + GoOn(next))
         == if next == [] then ClearedPause(r) else SetState(ClearedPause(r), Running, next)
  {
    DoTwo(r, Clears, SetsState(Running, next));
    assert [Clears] + [] == [Clears];
    assert [Clears] + [SetsState(Running, next)] == [Clears, SetsState(Running, next)];
  }

  lemma WakeIsItsWrites(def: Definition, env: Env, w: World)
    ensures DoAll(w.run, WakeWrites(def, env, w.run)) == WakeTurn(def, env, w).w.run
  {
    var step := StepById(def.steps, w.run.current);
    DoOne(w.run, Clears);
    assert [Clears] + [] == [Clears];
    if step.Some? {
      GoOnIsOne(w.run, WakeNext(step.value, true));
      GoOnIsOne(w.run, WakeNext(step.value, false));
    }
  }

  /** A step that ends before a handler is asked. */
  lemma EarlyIsItsWrites(w: World, step: Step, x: Write)
    ensures DoAll(w.run, [SetsState(Running, step.id)]) == Dispatched(w, step).run
    ensures DoAll(w.run, [SetsState(Running, step.id)] + [x]) == Do(Dispatched(w, step).run, x)
  {
    DoTwo(w.run, SetsState(Running, step.id), x);
    assert [SetsState(Running, step.id)] + [x] == [SetsState(Running, step.id), x];
  }

  /** The writes of an iteration, one after the other, are what it does to the run. */
  lemma TurnIsItsWrites(def: Definition, env: Env, w: World)
    ensures DoAll(w.run, Writes(def, env, w)) == Iterate(def, env, w).w.run
  {
    if w.run.state.IsTerminal() {
    } else if w.run.state.Paused? {
      WakeIsItsWrites(def, env, w);
    } else {
      StepIsItsWrites(def, env, w);
    }
  }

  lemma StepIsItsWrites(def: Definition, env: Env, w: World)
    ensures DoAll(w.run, StepWrites(def, env, w)) == StepTurn(def, env, w).w.run
  {
    var found := StepById(def.steps, At(def, w.run));
    if found.Some? {
      var step := found.value;
      var w1 := Dispatched(Started(w), step);
      var head := [SetsState(Running, step.id)];
      EarlyIsItsWrites(Started(w), step, SetsState(Succeeded, []));
      EarlyIsItsWrites(Started(w), step, Fails(step.id, REASON));
      if step.kind.Unregistered? {
        assert head + [] == head;
      } else if !step.kind.End? && env.license(w1.calls).Granted? {
        var (w2, out) := Attempt(env, w1, w.run, step, 0);
        var handled, after := AttemptWrites(env, w1, w.run, step, 0), AfterWrites(def, w2, w.run, step, out);
        AttemptIsItsWrites(env, w1, w.run, step, 0);
        AfterIsItsWrites(def, env, w2, w.run, step, out);
        DoAllAppend(w1.run, handled, after);
        DoAllAppend(w.run, head, handled + after);
      }
    }
  }

  // ------------------------------------------------- a cancel in between

  /** Writes that do not look at the state they replace. */
  predicate Overwrites(x: Write)
  {
    x.SetsState? || x.Clears? || x.Marks? || x.Awaits?
  }

  /** Only the last of them may be a cancel of the run's own. */
  predicate OnlyLastCancels(xs: seq<Write>)
  {
    forall i :: 0 <= i < |xs| - 1 ==> !Cancels(xs[i])
  }

  lemma TurnCancelsLast(def: Definition, env: Env, w: World)
    ensures OnlyLastCancels(Writes(def, env, w))
  {
    var found := StepById(def.steps, At(def, w.run));
    if !w.run.state.IsTerminal() && !w.run.state.Paused? && found.Some? {
      var step := found.value;
      var w1 := Dispatched(Started(w), step);
      var (w2, out) := Attempt(env, w1, w.run, step, 0);
      assert OnlyLastCancels(AfterWrites(def, w2, w.run, step, out));
    }
  }

  predicate StillCancelled(rest: seq<Write>)
  {
    (rest != [] && Cancels(rest[|rest| - 1])) || forall x :: x in rest ==> !Overwrites(x)
  }

  /** Once overwritten, a cancel is not restored. */
  lemma {:induction false} NotRestored(r: Run, rest: seq<Write>)
    requires !r.state.Cancelled? && forall x :: x in rest ==> !Cancels(x)
    ensures !DoAll(r, rest).state.Cancelled?
    decreases |rest|
  {
    if rest != [] {
      assert rest[0] in rest;
      NotRestored(Do(r, rest[0]), rest[1..]);
    }
  }

  lemma {:induction false} RestDecides(r: Run, rest: seq<Write>)
    requires r.state.Cancelled? && r.dispatch.None? && OnlyLastCancels(rest)
    ensures DoAll(r, rest).state.Cancelled? <==> StillCancelled(rest)
    decreases |rest|
  {
    if rest == [] {
    } else if Cancels(rest[|rest| - 1]) {
      var n := |rest| - 1;
      DoAllAppend(r, rest[..n], [rest[n]]);
      assert rest == rest[..n] + [rest[n]];
      DoOne(DoAll(r, rest[..n]), rest[n]);
    } else {
      var x, more := rest[0], rest[1..];
      assert x in rest && forall y :: y in rest <==> y == x || y in more;
      assert !Cancels(x) && forall y :: y in more ==> !Cancels(y);
      if Overwrites(x) {
        NotRestored(Do(r, x), more);
      } else {
        RestDecides(Do(r, x), more);
      }
    }
  }

  /** A cancel that lands between two writes of an iteration holds exactly when
      no write after it replaces the state, or the last one cancels by itself.
      Before it the iteration has made k writes. */
  lemma CancelSurvivesExactlyWhen(def: Definition, env: Env, w: World, k: nat, reason: Msg)
    requires k <= |Writes(def, env, w)|
    ensures var xs := Writes(def, env, w);
            var r := DoAll(w.run, xs[..k]);
            !r.state.IsTerminal() ==>
              (DoAll(CancelledRun(r, reason), xs[k..]).state.Cancelled? <==> StillCancelled(xs[k..]))
  {
    TurnCancelsLast(def, env, w);
    var xs := Writes(def, env, w);
    var r := DoAll(w.run, xs[..k]);
    if !r.state.IsTerminal() {
      RestDecides(CancelledRun(r, reason), xs[k..]);
    }
  }
}
