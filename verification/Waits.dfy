/** Waits for a signal, an event or an instant: what the pause records, and what
    becomes of it in every order of deliveries. */
module Waits {
  import opened Domain
  import opened DottedKeys
  import opened Runs
  import opened Engine
  import opened Lifecycle
  import opened Visits
  import opened Answers

  lemma {:induction false} HistoryAppend(def: Definition, w: World, a: seq<Op>, b: seq<Op>)
    ensures History(def, w, a + b) == History(def, History(def, w, a), b)
    decreases |a|
  {
    if a == [] {
      assert a + b == b;
    } else {
      assert (a + b)[0] == a[0] && (a + b)[1..] == a[1..] + b;
      HistoryAppend(def, Apply(def, w, a[0]), a[1..], b);
    }
  }

  lemma HistorySnoc(def: Definition, w: World, a: seq<Op>, op: Op)
    ensures History(def, w, a + [op]) == Apply(def, History(def, w, a), op)
  {
    HistoryAppend(def, w, a, [op]);
    var w' := History(def, w, a);
    assert [op][1..] == [];
    assert History(def, w', [op]) == History(def, Apply(def, w', op), []);
  }

  // ------------------------------------------------- what is waited for

  datatype Wait =
    | OfSignal(name: Key, deadline: Option<Time>)
    | OfEvent(topic: Key, deadline: Option<Time>)
    | OfTime(at: Time)
  {
    /** When the wait is over in any case. */
    function Deadline(): Option<Time>
    {
      if OfTime? then Some(at) else deadline
    }
  }

  /** Paused on a step that waits neither for children nor for a worker. */
  predicate OnStep(def: Definition, r: Run, step: Step)
  {
    && r.state.Paused? && r.current == step.id && StepById(def.steps, step.id) == Some(step)
    && !step.kind.FanOut? && (step.kind.Action? ==> r.dispatch.None?)
  }

  /** The markers of the wait and no others. */
  predicate Holds(r: Run, wait: Wait)
  {
    match wait
    case OfSignal(name, deadline) => r.signal == Some(name) && r.topic.None? && r.wakeup == deadline
    case OfEvent(topic, deadline) => r.signal.None? && r.topic == Some(topic) && r.wakeup == deadline
    case OfTime(at) => r.signal.None? && r.topic.None? && r.wakeup == Some(at)
  }

  /** Neither what is waited for nor the deadline has come. */
  predicate IsWaiting(def: Definition, r: Run, step: Step, wait: Wait)
  {
    OnStep(def, r, step) && Holds(r, wait)
  }

  /** It came; the next advance resumes the run. */
  predicate Awake(def: Definition, r: Run, step: Step)
  {
    OnStep(def, r, step) && NoMarkers(r)
  }

  /** What the run is told to wait for. */
  predicate Asks(mark: Mark, wait: Wait)
  {
    match mark
    case Until(at) => wait == OfTime(at)
    case ForSignal(name, deadline, _) => wait == OfSignal(name, deadline)
    case ForEvent(topic, deadline) => wait == OfEvent(topic, deadline)
    case NoMarker => false
  }

  /** The wait verbs ask for their own kind of wait, others for any. */
  predicate MayAsk(kind: Kind, mark: Mark)
  {
    && Plain(kind) && (kind.WaitForSignal? ==> mark.ForSignal?) && (kind.WaitForEvent? ==> mark.ForEvent?)
    && (kind.WaitForTime? ==> mark.Until?)
  }

  /** What a pause records over what the run had: a signal wait without a deadline
      keeps a wakeup that was there, an event wait does not. */
  predicate Records(r: Run, r': Run, mark: Mark)
  {
    && r'.(wakeup := r.wakeup, signal := r.signal, topic := r.topic) == r.(state := Paused)
    && match mark
       case Until(at) => r'.wakeup == Some(at) && r'.signal == r.signal && r'.topic == r.topic
       case ForSignal(name, deadline, _) =>
         && r'.signal == Some(name) && r'.topic == r.topic
         && r'.wakeup == if deadline.None? then r.wakeup else deadline
       case ForEvent(topic, deadline) => r'.topic == Some(topic) && r'.signal == r.signal && r'.wakeup == deadline
       case NoMarker => r'.wakeup == r.wakeup && r'.signal == r.signal && r'.topic == r.topic
  }

  lemma PauseRecords(env: Env, w: World, snap: Run, step: Step, mark: Mark)
    requires w.run.current == step.id && env.reply(w.calls, step.id) == Pauses(mark) && MayAsk(step.kind, mark)
    ensures var (w', out) := Once(env, w, snap, step); out.Suspended? && Records(w.run, w'.run, mark)
  {
  }

  /** A verb that pauses puts the run there, with the deadline it asked for and
      none if it asked for none, and changes nothing else of it. */
  lemma WaitBegins(def: Definition, env: Env, w: World, snap: Run, step: Step, mark: Mark, wait: Wait)
    requires StepById(def.steps, step.id) == Some(step) && MayAsk(step.kind, mark)
    requires w.run.current == step.id && NoMarkers(w.run)
    requires env.reply(w.calls, step.id) == Pauses(mark) && Asks(mark, wait)
    ensures var (w', out) := Once(env, w, snap, step);
            && out.Suspended? && IsWaiting(def, w'.run, step, wait)
            && w'.run.(wakeup := None, signal := None, topic := None) == w.run.(state := Paused)
  {
    PauseRecords(env, w, snap, step, mark);
  }

  /** A wait verb that asks for another fails. */
  lemma OnlyItsOwnWait(env: Env, w: World, snap: Run, step: Step, mark: Mark)
    requires env.reply(w.calls, step.id) == Pauses(mark) && Plain(step.kind) && !MayAsk(step.kind, mark)
    ensures Once(env, w, snap, step).1.Failing? && Once(env, w, snap, step).0.run == w.run
  {
  }

  /** In one iteration: the run waits, and a user task is open exactly when a
      wait for a signal asked for one. */
  lemma WaitIsEntered(def: Definition, env: Env, w: World, step: Step, mark: Mark, wait: Wait)
    requires Replies(def, env, w, step, Pauses(mark)) && MayAsk(step.kind, mark)
    requires NoMarkers(w.run) && Asks(mark, wait)
    ensures var turn := Iterate(def, env, w);
            var task := step.kind.WaitForSignal? && mark.ForSignal? && mark.task;
            && turn == PausedAs(w, step, turn.w.run, if task then 1 else 0)
            && IsWaiting(def, turn.w.run, step, wait)
            && turn.w.run.(wakeup := None, signal := None, topic := None) == Entered(w, step).run.(state := Paused)
  {
    var w1 := Entered(w, step);
    var r := Once(env, w1, w.run, step).0.run;
    WaitBegins(def, env, w1, w.run, step, mark, wait);
    Suspends(def, env, w, step, Pauses(mark), r, NewTasks(step, Pauses(mark)));
  }

  // ------------------------------------------------- where a wait leads

  /** From a deadline: an instant leads to Next, a signal or an event that did not
      come to the timeout branch, if that leads anywhere. */
  function LateTarget(step: Step, wait: Wait): Key
  {
    if !wait.OfTime? && TIMEOUT in step.branches && step.branches[TIMEOUT] != [] then step.branches[TIMEOUT]
    else step.next
  }

  /** The advance that leaves the wait for `target`, and goes on from there if
      there is such a step. */
  function Resumed(def: Definition, env: Env, w: World, step: Step, target: Key, budget: nat): World
    requires budget > 0
  {
    match Towards(Unpaused(w, step), target)
    case Stop(w', _) => w'
    case Again(w') => Loop(def, env, w', budget - 1).0
  }

  lemma Leaves(def: Definition, env: Env, w: World, step: Step, target: Key, budget: nat)
    requires Iterate(def, env, w) == Towards(Unpaused(w, step), target) && budget > 0
    ensures Apply(def, w, Advance(env, budget)) == Resumed(def, env, w, step, target, budget)
  {
    assert Iteration(def, env)(w) == Iterate(def, env, w);
  }

  // ------------------------------------------------- what decides nothing

  /** What is waited for. */
  predicate Answered(op: Op, wait: Wait)
  {
    match wait
    case OfSignal(name, _) => op == Signal(name)
    case OfEvent(topic, _) => op == EventArrives(topic)
    case OfTime(_) => false
  }

  /** Anything that can be delivered to a waiting run and is not an order to end it. */
  predicate Delivery(def: Definition, op: Op)
  {
    match op
    case Advance(_, _) => true
    case Signal(_) => true
    case EventArrives(_) => true
    case JoinMet => true
    case CompleteStep(_, _, _, _) => Honest(def, op)
    case FailStep(_, _, _, _) => Honest(def, op)
    case _ => false
  }

  predicate Moves(op: Op)
  {
    op.Advance? && op.budget > 0
  }

  predicate Late(op: Op, wait: Wait)
  {
    Moves(op) && wait.Deadline().Some? && op.env.now >= wait.Deadline().value
  }

  /** Deliveries that neither are what is waited for nor find the deadline passed. */
  predicate Stray(def: Definition, op: Op, wait: Wait)
  {
    Delivery(def, op) && !Answered(op, wait) && !Late(op, wait)
  }

  predicate Strays(def: Definition, ops: seq<Op>, wait: Wait)
  {
    forall i :: 0 <= i < |ops| ==> Stray(def, ops[i], wait)
  }

  lemma EarlyAdvanceStops(def: Definition, env: Env, w: World, step: Step, wait: Wait, budget: nat)
    requires IsWaiting(def, w.run, step, wait) && Stray(def, Advance(env, budget), wait)
    ensures Apply(def, w, Advance(env, budget)) == w
  {
    if budget > 0 {
      WakeGoes(def, env, w, step);
      assert Iteration(def, env)(w) == Stop(w, Ok);
    }
  }

  lemma StrayChangesNothing(def: Definition, w: World, step: Step, wait: Wait, op: Op)
    requires IsWaiting(def, w.run, step, wait) && Stray(def, op, wait)
    ensures Apply(def, w, op) == w
  {
    if op.Advance? {
      EarlyAdvanceStops(def, op.env, w, step, wait, op.budget);
    }
  }

  lemma {:induction false} StraysChangeNothing(def: Definition, w: World, step: Step, wait: Wait, ops: seq<Op>)
    requires IsWaiting(def, w.run, step, wait) && Strays(def, ops, wait)
    ensures History(def, w, ops) == w
    decreases |ops|
  {
    if ops != [] {
      StrayChangesNothing(def, w, step, wait, ops[0]);
      StraysChangeNothing(def, w, step, wait, ops[1..]);
    }
  }

  /** Deliveries that find an awake run before the advance does. */
  predicate Idle(def: Definition, op: Op)
  {
    Delivery(def, op) && !Moves(op)
  }

  predicate Idles(def: Definition, ops: seq<Op>)
  {
    forall i :: 0 <= i < |ops| ==> Idle(def, ops[i])
  }

  lemma {:induction false} IdleChangesNothing(def: Definition, w: World, step: Step, ops: seq<Op>)
    requires Awake(def, w.run, step) && Idles(def, ops)
    ensures History(def, w, ops) == w
    decreases |ops|
  {
    if ops != [] {
      assert Apply(def, w, ops[0]) == w;
      IdleChangesNothing(def, w, step, ops[1..]);
    }
  }

  // ------------------------------------------------- who wins

  /** The run without its markers. */
  function Freed(w: World): World
  {
    w.(run := w.run.(wakeup := None, signal := None, topic := None))
  }

  /** What is waited for takes the markers, and nothing that comes before the next
      advance does more. */
  lemma CallTaken(def: Definition, w: World, step: Step, wait: Wait, before: seq<Op>, call: Op, between: seq<Op>)
    requires IsWaiting(def, w.run, step, wait) && Answered(call, wait)
    requires Strays(def, before, wait) && Idles(def, between)
    ensures History(def, w, before) == w
    ensures History(def, w, before + [call] + between) == Freed(w)
  {
    StraysChangeNothing(def, w, step, wait, before);
    HistorySnoc(def, w, before, call);
    HistoryAppend(def, w, before + [call], between);
    IdleChangesNothing(def, Freed(w), step, between);
  }

  lemma ResumesAtNext(def: Definition, w: World, step: Step, env: Env, budget: nat)
    requires OnStep(def, w.run, step) && budget > 0
    ensures Apply(def, Freed(w), Advance(env, budget)) == Resumed(def, env, w, step, step.next, budget)
  {
    WakeGoes(def, env, Freed(w), step);
    Leaves(def, env, Freed(w), step, step.next, budget);
    assert Unpaused(Freed(w), step) == Unpaused(w, step);
  }

  /** The signal or the event first: however late the advance that follows, it
      takes Next, and a second delivery finds nothing to take. */
  lemma CallWins(def: Definition, w: World, step: Step, wait: Wait, before: seq<Op>, call: Op, between: seq<Op>,
                 env: Env, budget: nat)
    requires IsWaiting(def, w.run, step, wait) && Answered(call, wait)
    requires Strays(def, before, wait) && Idles(def, between) && budget > 0
    ensures var w1 := History(def, w, before + [call] + between);
            && Awake(def, w1.run, step) && Apply(def, w1, call) == w1
            && Apply(def, w1, Advance(env, budget)) == Resumed(def, env, w, step, step.next, budget)
  {
    CallTaken(def, w, step, wait, before, call, between);
    ResumesAtNext(def, w, step, env, budget);
  }

  /** Of a signal: it is consumed, and once. */
  lemma SignalIsConsumedOnce(def: Definition, w: World, step: Step, name: Key, deadline: Option<Time>,
                             before: seq<Op>, between: seq<Op>)
    requires IsWaiting(def, w.run, step, OfSignal(name, deadline))
    requires Strays(def, before, OfSignal(name, deadline)) && Idles(def, between)
    ensures Consumes(History(def, w, before).run, name)
    ensures !Consumes(History(def, w, before + [Signal(name)] + between).run, name)
    ensures !Consumes(Unpaused(w, step).run, name)
  {
    CallTaken(def, w, step, OfSignal(name, deadline), before, Signal(name), between);
  }

  /** The deadline first: an instant leads to Next, another deadline to the timeout
      branch when there is one and to Next otherwise, and what was waited for
      comes too late. */
  lemma DeadlineWins(def: Definition, w: World, step: Step, wait: Wait, before: seq<Op>, env: Env, budget: nat)
    requires IsWaiting(def, w.run, step, wait) && Strays(def, before, wait) && Late(Advance(env, budget), wait)
    ensures Apply(def, History(def, w, before), Advance(env, budget))
         == Resumed(def, env, w, step, LateTarget(step, wait), budget)
    ensures NoMarkers(Unpaused(w, step).run)
  {
    StraysChangeNothing(def, w, step, wait, before);
    WakeGoes(def, env, w, step);
    Leaves(def, env, w, step, LateTarget(step, wait), budget);
  }

  // ------------------------------------------------- every order

  /** What became of the wait: neither call nor deadline so far; the call came as
      delivery `at` and no advance has run since; advance `turn` then resumed the
      run; or advance `turn` found the deadline passed first. */
  datatype Fate = Waiting | Came(at: nat) | WentOn(at: nat, turn: nat) | TimedOut(turn: nat)

  /** The deliveries alone decide the fate. */
  predicate Is(def: Definition, ops: seq<Op>, wait: Wait, fate: Fate)
  {
    match fate
    case Waiting => Strays(def, ops, wait)
    case Came(j) => CalledAt(def, ops, wait, j) && Idles(def, ops[j + 1..])
    case WentOn(j, k) => CalledAt(def, ops, wait, j) && j < k < |ops| && Idles(def, ops[j + 1..k]) && Moves(ops[k])
    case TimedOut(k) => k < |ops| && Strays(def, ops[..k], wait) && Late(ops[k], wait)
  }

  predicate CalledAt(def: Definition, ops: seq<Op>, wait: Wait, j: nat)
  {
    j < |ops| && Strays(def, ops[..j], wait) && Answered(ops[j], wait)
  }

  /** Where each fate leaves the run: untouched, without its markers, or gone on
      from Next or from where the deadline leads. */
  function After(def: Definition, w: World, step: Step, wait: Wait, ops: seq<Op>, fate: Fate): World
    requires (fate.WentOn? || fate.TimedOut?) ==> fate.turn < |ops| && Moves(ops[fate.turn])
  {
    match fate
    case Waiting => w
    case Came(_) => Freed(w)
    case WentOn(_, k) => GoesOn(def, w, step, step.next, ops, k)
    case TimedOut(k) => GoesOn(def, w, step, LateTarget(step, wait), ops, k)
  }

  /** Advance k leaves the wait; the rest of the history follows. */
  function GoesOn(def: Definition, w: World, step: Step, target: Key, ops: seq<Op>, k: nat): World
    requires k < |ops| && Moves(ops[k])
  {
    History(def, Resumed(def, ops[k].env, w, step, target, ops[k].budget), ops[k + 1..])
  }

  lemma FirstOther(ops: seq<Op>, p: Op -> bool) returns (k: nat)
    ensures k <= |ops| && (forall i :: 0 <= i < k ==> p(ops[i])) && (k < |ops| ==> !p(ops[k]))
  {
    k := 0;
    while k < |ops| && p(ops[k])
      invariant k <= |ops| && forall i :: 0 <= i < k ==> p(ops[i])
    {
      k := k + 1;
    }
  }

  lemma SomeFate(def: Definition, ops: seq<Op>, wait: Wait) returns (fate: Fate)
    requires forall i :: 0 <= i < |ops| ==> Delivery(def, ops[i])
    ensures Is(def, ops, wait, fate)
  {
    var j := FirstOther(ops, op => Stray(def, op, wait));
    if j == |ops| {
      fate := Waiting;
    } else if Late(ops[j], wait) {
      fate := TimedOut(j);
    } else {
      var n := FirstOther(ops[j + 1..], op => Idle(def, op));
      if j + 1 + n == |ops| {
        fate := Came(j);
      } else {
        assert ops[j + 1..][n] == ops[j + 1 + n];
        fate := WentOn(j, j + 1 + n);
      }
    }
  }

  /** The first delivery that is not a stray one. */
  lemma OneFirst(def: Definition, ops: seq<Op>, wait: Wait, j: nat, k: nat)
    requires j < |ops| && Strays(def, ops[..j], wait) && !Stray(def, ops[j], wait)
    requires k < |ops| && Strays(def, ops[..k], wait)
    ensures k <= j
  {
  }

  lemma FirstAdvance(def: Definition, ops: seq<Op>, from: nat, j: nat, k: nat)
    requires from <= j < |ops| && Moves(ops[j]) && from <= k <= |ops| && Idles(def, ops[from..k])
    ensures k <= j
  {
  }

  lemma OneFate(def: Definition, ops: seq<Op>, wait: Wait, f: Fate, g: Fate)
    requires Is(def, ops, wait, f) && Is(def, ops, wait, g)
    ensures f == g
  {
    if !f.Waiting? && !g.Waiting? {
      var j, k := if f.TimedOut? then f.turn else f.at, if g.TimedOut? then g.turn else g.at;
      OneFirst(def, ops, wait, j, k);
      OneFirst(def, ops, wait, k, j);
      if f.WentOn? {
        FirstAdvance(def, ops, j + 1, f.turn, if g.WentOn? then g.turn else |ops|);
      }
      if g.WentOn? {
        FirstAdvance(def, ops, j + 1, g.turn, if f.WentOn? then f.turn else |ops|);
      }
    }
  }

  lemma CameOutcome(def: Definition, w: World, step: Step, wait: Wait, ops: seq<Op>, j: nat)
    requires IsWaiting(def, w.run, step, wait) && CalledAt(def, ops, wait, j) && Idles(def, ops[j + 1..])
    ensures History(def, w, ops) == Freed(w)
  {
    assert ops == ops[..j] + [ops[j]] + ops[j + 1..];
    CallTaken(def, w, step, wait, ops[..j], ops[j], ops[j + 1..]);
  }

  /** The history of all deliveries from one point on. */
  lemma HistorySplit(def: Definition, w: World, ops: seq<Op>, k: nat)
    requires k < |ops|
    ensures History(def, w, ops) == History(def, Apply(def, History(def, w, ops[..k]), ops[k]), ops[k + 1..])
  {
    assert ops == ops[..k] + [ops[k]] + ops[k + 1..];
    HistorySnoc(def, w, ops[..k], ops[k]);
    HistoryAppend(def, w, ops[..k] + [ops[k]], ops[k + 1..]);
  }

  lemma WentOnOutcome(def: Definition, w: World, step: Step, wait: Wait, ops: seq<Op>, j: nat, k: nat)
    requires IsWaiting(def, w.run, step, wait) && Is(def, ops, wait, WentOn(j, k))
    ensures History(def, w, ops) == GoesOn(def, w, step, step.next, ops, k)
  {
    var some := ops[..k];
    assert some[..j] == ops[..j] && some[j + 1..] == ops[j + 1..k];
    CameOutcome(def, w, step, wait, some, j);
    ResumesAtNext(def, w, step, ops[k].env, ops[k].budget);
    HistorySplit(def, w, ops, k);
  }

  lemma TimedOutOutcome(def: Definition, w: World, step: Step, wait: Wait, ops: seq<Op>, k: nat)
    requires IsWaiting(def, w.run, step, wait) && Is(def, ops, wait, TimedOut(k))
    ensures History(def, w, ops) == GoesOn(def, w, step, LateTarget(step, wait), ops, k)
  {
    DeadlineWins(def, w, step, wait, ops[..k], ops[k].env, ops[k].budget);
    HistorySplit(def, w, ops, k);
  }

  /** Whatever is delivered to the wait, in whatever order: the deliveries decide
      one fate and no other. The run is left as it was, or is awake, or goes on
      from Next because the call came first, or from where the deadline leads
      because that did; and it goes on once. */
  lemma EveryOrder(def: Definition, w: World, step: Step, wait: Wait, ops: seq<Op>) returns (fate: Fate)
    requires IsWaiting(def, w.run, step, wait)
    requires forall i :: 0 <= i < |ops| ==> Delivery(def, ops[i])
    ensures Is(def, ops, wait, fate) && forall f :: Is(def, ops, wait, f) ==> f == fate
    ensures History(def, w, ops) == After(def, w, step, wait, ops, fate)
  {
    fate := SomeFate(def, ops, wait);
    forall f | Is(def, ops, wait, f) ensures f == fate {
      OneFate(def, ops, wait, f, fate);
    }
    match fate
    case Waiting => StraysChangeNothing(def, w, step, wait, ops);
    case Came(j) => CameOutcome(def, w, step, wait, ops, j);
    case WentOn(j, k) => WentOnOutcome(def, w, step, wait, ops, j, k);
    case TimedOut(k) => TimedOutOutcome(def, w, step, wait, ops, k);
  }
}
