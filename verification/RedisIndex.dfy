/** The Redis store's wakeup and awaited-event indexes against the plain scan of
    the in-memory store, which the source names as their oracle. */
module RedisIndex {
  import opened Domain
  import opened DottedKeys
  import Runs

  type Topic = Key

  /** The fields of a stored run that the wait machinery uses. */
  datatype Run = Run(
    state: RunState,
    wakeup: Option<Time>,
    signal: Option<Key>,
    topic: Option<Topic>,
    dispatch: Option<Key>,
    attempt: int)

  /** Run blobs, idx:wakeup (a ZSET; scores as exact instants) and the
      idx:awaitevent sets. */
  datatype State = State(runs: map<RunId, Run>, wakeup: map<RunId, Time>, awaiting: map<Topic, set<RunId>>)

  datatype Op =
    | CreateRun(id: RunId, run: Run)
    | SetPausedWithWakeup(id: RunId, at: Time)
    | SetPausedAwaitingSignal(id: RunId, name: Key, deadline: Option<Time>)
    | SetPausedAwaitingEvent(id: RunId, eventTopic: Topic, deadline: Option<Time>)
    | ClearPause(id: RunId)
    | WakeFromExternal(id: RunId)
    | TryConsumeAwaitedSignal(id: RunId, name: Key)
    | UpdateRunState(id: RunId, state: RunState)
    | Cancel(id: RunId)
    | MarkRunFailed(id: RunId)
    | MarkAwaitingAction(id: RunId, action: Key, number: int)
    | CompleteAction(id: RunId, number: int, now: Time)
    | FailAction(id: RunId, number: int)

  function Members(awaiting: map<Topic, set<RunId>>, t: Topic): set<RunId>
  {
    if t in awaiting then awaiting[t] else {}
  }

  /** SREM of the run from the set of the topic it awaits, if any. */
  function Unawait(awaiting: map<Topic, set<RunId>>, topic: Option<Topic>, id: RunId): map<Topic, set<RunId>>
  {
    if topic.None? then awaiting else awaiting[topic.value := Members(awaiting, topic.value) - {id}]
  }

  /** The run blob an operation writes; both stores write the same one. */
  function Blob(r: Run, op: Op): Run
  {
    match op
    case CreateRun(_, run) => run
    case SetPausedWithWakeup(_, at) => r.(state := Paused, wakeup := Some(at))
    case SetPausedAwaitingSignal(_, name, deadline) =>
      r.(state := Paused, signal := Some(name), wakeup := if deadline.Some? then deadline else r.wakeup)
    case SetPausedAwaitingEvent(_, t, deadline) => r.(state := Paused, topic := Some(t), wakeup := deadline)
    case ClearPause(_) => r.(state := Running, wakeup := None, signal := None, topic := None)
    case WakeFromExternal(_) => r.(wakeup := None, signal := None, topic := None)
    case TryConsumeAwaitedSignal(_, name) =>
      if r.state.Paused? && r.signal == Some(name) then r.(wakeup := None, signal := None, topic := None) else r
    case UpdateRunState(_, state) => r.(state := state)
    case Cancel(_) =>
      if r.state.IsTerminal() then r
      else r.(state := Cancelled, wakeup := None, signal := None, topic := None, dispatch := None)
    case MarkRunFailed(_) => if r.state.IsTerminal() then r else r.(state := Failed)
    case MarkAwaitingAction(_, action, number) =>
      if r.attempt == number && r.dispatch == Some(action) then r
      else r.(state := Paused, dispatch := Some(action), attempt := number)
    case CompleteAction(_, number, now) =>
      if r.attempt != number then r else r.(dispatch := None, wakeup := Some(now))
    case FailAction(_, number) =>
      if r.attempt != number then r else r.(dispatch := None, state := Failed)
  }

  /** The fields above of a run of the engine. */
  function Fields(r: Runs.Run): Run
  {
    Run(r.state, r.wakeup, r.signal, r.topic, r.dispatch, r.attempt)
  }

  /** What the operations of the store do to a run of the engine. */
  function OnRun(r: Runs.Run, op: Op): Runs.Run
    requires !op.CreateRun?
  {
    match op
    case SetPausedWithWakeup(_, at) => Runs.PausedUntil(r, at)
    case SetPausedAwaitingSignal(_, name, deadline) => Runs.PausedForSignal(r, name, deadline)
    case SetPausedAwaitingEvent(_, t, deadline) => Runs.PausedForEvent(r, t, deadline)
    case ClearPause(_) => Runs.ClearedPause(r)
    case WakeFromExternal(_) => Runs.Woken(r)
    case TryConsumeAwaitedSignal(_, name) => if Runs.Consumes(r, name) then Runs.Woken(r) else r
    case UpdateRunState(_, state) => Runs.SetState(r, state, r.current)
    case Cancel(_) => Runs.CancelledRun(r, [])
    case MarkRunFailed(_) => Runs.MarkedFailed(r, r.current, [])
    case MarkAwaitingAction(_, action, number) => Runs.AwaitingAction(r, action, number)
    case CompleteAction(_, number, now) => Runs.CompletedAction(r, number, now, map[])
    case FailAction(_, number) => Runs.FailedAction(r, number, [])
  }

  /** The blob is the run of the engine, as far as these fields go. */
  lemma BlobFollowsRun(r: Runs.Run, op: Op)
    requires !op.CreateRun?
    ensures Blob(Fields(r), op) == Fields(OnRun(r, op))
  {
  }

  function MemoryStep(runs: map<RunId, Run>, op: Op): map<RunId, Run>
  {
    if op.CreateRun? then runs[op.id := op.run]
    else if op.id !in runs then runs
    else runs[op.id := Blob(runs[op.id], op)]
  }

  // ------------------------------------------------- the Redis operations

  class RedisStore {
    var runs: map<RunId, Run>
    var wakeup: map<RunId, Time>
    var awaiting: map<Topic, set<RunId>>

    constructor ()
      ensures Value() == State(map[], map[], map[])
    {
      runs, wakeup, awaiting := map[], map[], map[];
    }

    function Value(): State
      reads this
    {
      State(runs, wakeup, awaiting)
    }

    /** One operation: the new blob and the queued index commands, committed
        together. A missing run is an error and writes nothing. */
    method Apply(op: Op) returns (ok: bool)
      modifies this
      ensures ok <==> op.CreateRun? || op.id in old(runs)
      ensures Value() == Step(old(Value()), op)
    {
      var id := op.id;
      if op.CreateRun? {
        runs := runs[id := op.run];
        return true;
      }
      if id !in runs {
        return false;
      }
      var r := runs[id];
      var r' := Blob(r, op);
      match op {
        case SetPausedWithWakeup(_, at) =>
          wakeup := wakeup[id := at];
        case SetPausedAwaitingSignal(_, _, deadline) =>
          if deadline.Some? {
            wakeup := wakeup[id := deadline.value];
          }
        case SetPausedAwaitingEvent(_, t, deadline) =>
          awaiting := awaiting[t := Members(awaiting, t) + {id}];
          if deadline.Some? {
            wakeup := wakeup[id := deadline.value];
          }
        case ClearPause(_) =>
          awaiting, wakeup := Unawait(awaiting, r.topic, id), wakeup - {id};
        case WakeFromExternal(_) =>
          awaiting, wakeup := Unawait(awaiting, r.topic, id), wakeup - {id};
        case TryConsumeAwaitedSignal(_, name) =>
          if r.state.Paused? && r.signal == Some(name) {
            awaiting, wakeup := Unawait(awaiting, r.topic, id), wakeup - {id};
          }
        case UpdateRunState(_, state) =>
          if state.IsTerminal() {
            awaiting, wakeup := Unawait(awaiting, r.topic, id), wakeup - {id};
          }
        case Cancel(_) =>
          if !r.state.IsTerminal() {
            awaiting, wakeup := Unawait(awaiting, r.topic, id), wakeup - {id};
          }
        case MarkRunFailed(_) =>
          if !r.state.IsTerminal() {
            awaiting, wakeup := Unawait(awaiting, r.topic, id), wakeup - {id};
          }
        case CompleteAction(_, number, now) =>
          if r.attempt == number {
            wakeup := wakeup[id := now];
          }
        case FailAction(_, number) =>
          if r.attempt == number {
            awaiting, wakeup := Unawait(awaiting, r.topic, id), wakeup - {id};
          }
        case _ =>
      }
      runs := runs[id := r'];
      ok := true;
    }

    /** Candidates by score, then the state filter, up to limit results. */
    method FindRunsByDueWakeup(now: Time, limit: nat) returns (ids: seq<RunId>)
      ensures |ids| <= limit
      ensures forall i, j :: 0 <= i < j < |ids| ==> ids[i] != ids[j]
      ensures forall id :: id in ids ==> id in RedisDue(Value(), now)
      ensures |ids| < limit ==> forall id :: id in RedisDue(Value(), now) ==> id in ids
    {
      var members := set id | id in wakeup && wakeup[id] <= now;
      ids := [];
      while members != {} && |ids| < limit
        invariant |ids| <= limit
        invariant forall id :: id in members ==> id in wakeup && wakeup[id] <= now && id !in ids
        invariant forall i, j :: 0 <= i < j < |ids| ==> ids[i] != ids[j]
        invariant forall id :: id in ids ==> id in RedisDue(Value(), now)
        invariant forall id :: id in RedisDue(Value(), now) ==> id in ids || id in members
        decreases |members|
      {
        var id :| id in members;
        members := members - {id};
        if id in runs && runs[id].state.Paused? {
          ids := ids + [id];
        }
      }
    }
  }

  class MemoryStore {
    var runs: map<RunId, Run>

    constructor ()
      ensures runs == map[]
    {
      runs := map[];
    }

    method Apply(op: Op)
      modifies this
      ensures runs == MemoryStep(old(runs), op)
    {
      if op.CreateRun? {
        runs := runs[op.id := op.run];
      } else if op.id in runs {
        runs := runs[op.id := Blob(runs[op.id], op)];
      }
    }

    /** The scan appends before it compares with the limit, so a limit of zero
        or less still yields one run, unlike Redis. */
    method FindRunsByDueWakeup(now: Time, limit: int) returns (ids: seq<RunId>)
      ensures |ids| <= if limit <= 0 then 1 else limit
      ensures forall i, j :: 0 <= i < j < |ids| ==> ids[i] != ids[j]
      ensures forall id :: id in ids ==> id in MemoryDue(runs, now)
      ensures |ids| < (if limit <= 0 then 1 else limit) ==> forall id :: id in MemoryDue(runs, now) ==> id in ids
    {
      ids := [];
      var todo := runs.Keys;
      while todo != {}
        invariant todo <= runs.Keys
        invariant |ids| == 0 || |ids| < limit
        invariant forall i, j :: 0 <= i < j < |ids| ==> ids[i] != ids[j]
        invariant forall id :: id in ids ==> id in MemoryDue(runs, now) && id !in todo
        invariant forall id :: id in MemoryDue(runs, now) ==> id in ids || id in todo
        decreases |todo|
      {
        var id :| id in todo;
        todo := todo - {id};
        if runs[id].state.Paused? && runs[id].wakeup.Some? && runs[id].wakeup.value <= now {
          ids := ids + [id];
          if |ids| >= limit {
            return;
          }
        }
      }
    }
  }

  function Step(s: State, op: Op): State
  {
    if op.CreateRun? then s.(runs := s.runs[op.id := op.run])
    else if op.id !in s.runs then s
    else
      var r := s.runs[op.id];
      s.(runs := s.runs[op.id := Blob(r, op)],
         wakeup := WakeupAfter(s.wakeup, r, op),
         awaiting := AwaitingAfter(s.awaiting, r, op))
  }

  /** Does the operation drop the run from both indexes? */
  predicate Drops(r: Run, op: Op)
  {
    match op
    case ClearPause(_) => true
    case WakeFromExternal(_) => true
    case TryConsumeAwaitedSignal(_, name) => r.state.Paused? && r.signal == Some(name)
    case UpdateRunState(_, state) => state.IsTerminal()
    case Cancel(_) => !r.state.IsTerminal()
    case MarkRunFailed(_) => !r.state.IsTerminal()
    case FailAction(_, number) => r.attempt == number
    case _ => false
  }

  /** The instant the operation adds to idx:wakeup, if any. */
  function Schedules(r: Run, op: Op): Option<Time>
  {
    match op
    case SetPausedWithWakeup(_, at) => Some(at)
    case SetPausedAwaitingSignal(_, _, deadline) => deadline
    case SetPausedAwaitingEvent(_, _, deadline) => deadline
    case CompleteAction(_, number, now) => if r.attempt == number then Some(now) else None
    case _ => None
  }

  function WakeupAfter(wakeup: map<RunId, Time>, r: Run, op: Op): map<RunId, Time>
  {
    if Drops(r, op) then wakeup - {op.id}
    else if Schedules(r, op).Some? then wakeup[op.id := Schedules(r, op).value]
    else wakeup
  }

  function AwaitingAfter(awaiting: map<Topic, set<RunId>>, r: Run, op: Op): map<Topic, set<RunId>>
  {
    if Drops(r, op) then Unawait(awaiting, r.topic, op.id)
    else if op.SetPausedAwaitingEvent? then awaiting[op.eventTopic := Members(awaiting, op.eventTopic) + {op.id}]
    else awaiting
  }

  // ------------------------------------------------- the finders' answers

  function RedisDue(s: State, now: Time): set<RunId>
  {
    set id | id in s.wakeup && s.wakeup[id] <= now && id in s.runs && s.runs[id].state.Paused?
  }

  function MemoryDue(runs: map<RunId, Run>, now: Time): set<RunId>
  {
    set id | id in runs && runs[id].state.Paused? && runs[id].wakeup.Some? && runs[id].wakeup.value <= now
  }

  function RedisAwaiting(s: State, t: Topic): set<RunId>
  {
    set id | id in Members(s.awaiting, t) && id in s.runs && s.runs[id].state.Paused? && s.runs[id].topic == Some(t)
  }

  function MemoryAwaiting(runs: map<RunId, Run>, t: Topic): set<RunId>
  {
    set id | id in runs && runs[id].state.Paused? && runs[id].topic == Some(t)
  }

  ghost predicate Agrees(s: State)
  {
    && (forall now :: RedisDue(s, now) == MemoryDue(s.runs, now))
    && (forall t :: RedisAwaiting(s, t) == MemoryAwaiting(s.runs, t))
  }

  // ------------------------------------------------- agreement over histories

  predicate Live(r: Run)
  {
    r.state in {Pending, Running, Paused}
  }

  function Indexed(s: State, id: RunId): Option<Time>
  {
    if id in s.wakeup then Some(s.wakeup[id]) else None
  }

  predicate TopicIndexed(s: State, id: RunId, topic: Option<Topic>)
  {
    topic.Some? ==> id in Members(s.awaiting, topic.value)
  }

  /** Both indexes say of the run what its blob would say. */
  predicate Exact(s: State, id: RunId, r: Run)
  {
    r.wakeup == Indexed(s, id) && TopicIndexed(s, id, r.topic)
  }

  /** The indexes are exact for every run that has not ended. */
  ghost predicate Inv(s: State)
  {
    forall id :: id in s.runs && Live(s.runs[id]) ==> Exact(s, id, s.runs[id])
  }

  /** What the engine respects: run IDs are new, an ended (or compensating) run is
      not made live again, an open-ended event wait starts with no wakeup. */
  predicate Allowed(s: State, op: Op)
  {
    if op.CreateRun? then
      op.id !in s.runs && op.id !in s.wakeup && op.run.wakeup.None? && op.run.topic.None?
    else if op.id !in s.runs then true
    else
      var r := s.runs[op.id];
      && (Live(Blob(r, op)) ==> Live(r))
      && (op.SetPausedAwaitingEvent? && op.deadline.None? ==> r.wakeup.None?)
  }

  lemma InvStep(s: State, op: Op)
    requires Inv(s) && Allowed(s, op)
    ensures Inv(Step(s, op))
  {
    if !op.CreateRun? && op.id in s.runs {
      var s', r := Step(s, op), s.runs[op.id];
      forall id | id in s'.runs && Live(s'.runs[id]) ensures Exact(s', id, s'.runs[id]) {
        if id == op.id {
          assert Live(r);
          assert Drops(r, op) ==> s'.runs[id].topic.None?;
        }
      }
    }
  }

  lemma InvMeansAgrees(s: State)
    requires Inv(s)
    ensures Agrees(s)
  {
  }

  function Steps(s: State, ops: seq<Op>): State
  {
    if ops == [] then s else Step(Steps(s, ops[..|ops| - 1]), ops[|ops| - 1])
  }

  function MemorySteps(ops: seq<Op>): map<RunId, Run>
  {
    if ops == [] then map[] else MemoryStep(MemorySteps(ops[..|ops| - 1]), ops[|ops| - 1])
  }

  const EMPTY: State := State(map[], map[], map[])

  ghost predicate AllAllowed(ops: seq<Op>)
  {
    forall i :: 0 <= i < |ops| ==> Allowed(Steps(EMPTY, ops[..i]), ops[i])
  }

  /** Over every history of operations, both stores hold the same runs and their
      finders select the same ones, for every instant and every topic. */
  lemma {:induction false} IndexesAgreeWithScan(ops: seq<Op>)
    requires AllAllowed(ops)
    ensures Steps(EMPTY, ops).runs == MemorySteps(ops)
    ensures Inv(Steps(EMPTY, ops)) && Agrees(Steps(EMPTY, ops))
  {
    if ops != [] {
      var before := ops[..|ops| - 1];
      assert forall i :: 0 <= i < |before| ==> before[..i] == ops[..i];
      IndexesAgreeWithScan(before);
      InvStep(Steps(EMPTY, before), ops[|ops| - 1]);
    }
    InvMeansAgrees(Steps(EMPTY, ops));
  }

  // ------------------------------------------------- exactly when they agree

  predicate ExactIfPaused(s: State, id: RunId)
  {
    id in s.runs && s.runs[id].state.Paused? ==> Exact(s, id, s.runs[id])
  }

  ghost predicate PausedAreExact(s: State)
  {
    forall id :: ExactIfPaused(s, id)
  }

  /** The finders agree exactly when the indexes are exact for every paused run. */
  lemma AgreesMeans(s: State)
    ensures Agrees(s) <==> PausedAreExact(s)
  {
    if Agrees(s) {
      forall id ensures ExactIfPaused(s, id) {
        AgreementIsExact(s, id);
      }
    } else if PausedAreExact(s) {
      assert forall id :: id in s.runs && s.runs[id].state.Paused? ==> ExactIfPaused(s, id);
    }
  }

  lemma AgreementIsExact(s: State, id: RunId)
    requires Agrees(s)
    ensures ExactIfPaused(s, id)
  {
    if id in s.runs && s.runs[id].state.Paused? {
      var r := s.runs[id];
      if r.topic.Some? {
        assert id in MemoryAwaiting(s.runs, r.topic.value);
      }
      if r.wakeup.Some? {
        assert id in MemoryDue(s.runs, r.wakeup.value);
        assert id in RedisDue(s, r.wakeup.value);
      }
      if id in s.wakeup {
        assert id in RedisDue(s, s.wakeup[id]);
        assert id in MemoryDue(s.runs, s.wakeup[id]);
      }
    }
  }

  /** What the indexes must say of the run before the operation: those that pause
      a run trust the entries they do not write. */
  predicate Safe(s: State, op: Op)
  {
    if op.CreateRun? then op.run.state.Paused? ==> Exact(s, op.id, op.run)
    else if op.id !in s.runs then true
    else
      var r := s.runs[op.id];
      match op
      case SetPausedWithWakeup(id, _) => TopicIndexed(s, id, r.topic)
      case SetPausedAwaitingSignal(id, _, deadline) =>
        (deadline.Some? || r.wakeup == Indexed(s, id)) && TopicIndexed(s, id, r.topic)
      case SetPausedAwaitingEvent(id, _, deadline) => deadline.Some? || id !in s.wakeup
      case UpdateRunState(id, state) => state.Paused? ==> Exact(s, id, r)
      case MarkAwaitingAction(id, action, number) =>
        (r.attempt == number && r.dispatch == Some(action)) || Exact(s, id, r)
      case _ => true
  }

  lemma OthersStayExact(s: State, op: Op, id: RunId)
    requires id != op.id
    ensures ExactIfPaused(Step(s, op), id) <==> ExactIfPaused(s, id)
  {
    SameBlob(s, op, id);
    if id in s.runs && s.runs[id].topic.Some? {
      SameMembers(s, op, id, s.runs[id].topic.value);
    }
  }

  lemma SameBlob(s: State, op: Op, id: RunId)
    requires id != op.id
    ensures var s' := Step(s, op);
            && (id in s'.runs <==> id in s.runs) && (id in s.runs ==> s'.runs[id] == s.runs[id])
            && Indexed(s', id) == Indexed(s, id)
  {
  }

  lemma SameMembers(s: State, op: Op, id: RunId, t: Topic)
    requires id != op.id
    ensures id in Members(Step(s, op).awaiting, t) <==> id in Members(s.awaiting, t)
  {
  }

  lemma OwnStaysExact(s: State, op: Op)
    requires ExactIfPaused(s, op.id)
    ensures ExactIfPaused(Step(s, op), op.id) <==> Safe(s, op)
  {
  }

  /** From two stores that agree, one operation of any kind leaves two that agree
      exactly when it was safe. */
  lemma StepAgreesExactlyWhen(s: State, op: Op)
    requires Agrees(s)
    ensures Agrees(Step(s, op)) <==> Safe(s, op)
  {
    var s' := Step(s, op);
    AgreesMeans(s);
    AgreesMeans(s');
    OwnStaysExact(s, op);
    forall id | id != op.id ensures ExactIfPaused(s', id) {
      assert ExactIfPaused(s, id);
      OthersStayExact(s, op, id);
    }
  }

  ghost predicate AgreesAt(ops: seq<Op>, i: nat)
    requires i <= |ops|
  {
    Agrees(Steps(EMPTY, ops[..i]))
  }

  predicate SafeAt(ops: seq<Op>, i: nat)
    requires i < |ops|
  {
    Safe(Steps(EMPTY, ops[..i]), ops[i])
  }

  lemma NextAgrees(ops: seq<Op>, i: nat)
    requires i < |ops| && AgreesAt(ops, i)
    ensures AgreesAt(ops, i + 1) <==> SafeAt(ops, i)
  {
    var some := ops[..i + 1];
    assert some[..i] == ops[..i];
    assert Steps(EMPTY, some) == Step(Steps(EMPTY, ops[..i]), ops[i]);
    StepAgreesExactlyWhen(Steps(EMPTY, ops[..i]), ops[i]);
  }

  lemma {:induction false} AgreeUpTo(ops: seq<Op>, n: nat)
    requires n <= |ops|
    ensures (forall i :: 0 <= i <= n ==> AgreesAt(ops, i)) <==> forall i :: 0 <= i < n ==> SafeAt(ops, i)
  {
    if n == 0 {
      InvMeansAgrees(EMPTY);
      assert AgreesAt(ops, 0);
    } else {
      AgreeUpTo(ops, n - 1);
      if AgreesAt(ops, n - 1) {
        NextAgrees(ops, n - 1);
      }
    }
  }

  /** Over any history whatever the stores agree at every moment exactly when each
      operation was safe at its time. */
  lemma AgreeThroughoutExactlyWhen(ops: seq<Op>)
    ensures (forall i :: 0 <= i <= |ops| ==> AgreesAt(ops, i)) <==> forall i :: 0 <= i < |ops| ==> SafeAt(ops, i)
  {
    AgreeUpTo(ops, |ops|);
  }

  // ------------------------------------------------- where the guards are needed

  /** An event wait without deadline clears the stored wakeup but not its index
      entry: the stores agree afterwards exactly when none was pending. */
  lemma EventWaitNeedsNoWakeup(s: State, id: RunId, t: Topic)
    requires Inv(s) && id in s.runs && Live(s.runs[id])
    ensures Agrees(Step(s, SetPausedAwaitingEvent(id, t, None))) <==> s.runs[id].wakeup.None?
  {
    InvMeansAgrees(s);
    StepAgreesExactlyWhen(s, SetPausedAwaitingEvent(id, t, None));
  }

  /** It pauses the run and leaves what the blob says of the wakeup, */
  predicate KeepsWakeup(r: Run, op: Op)
  {
    || (op.SetPausedAwaitingSignal? && op.deadline.None?) || (op.UpdateRunState? && op.state.Paused?)
    || (op.MarkAwaitingAction? && !(r.attempt == op.number && r.dispatch == Some(op.action)))
  }

  /** or of the topic, as it is. */
  predicate KeepsTopic(r: Run, op: Op)
  {
    op.SetPausedWithWakeup? || op.SetPausedAwaitingSignal? || KeepsWakeup(r, op)
  }

  /** Ending a live run removes its index entries, whereas its blob may keep the
      wakeup and the topic. Whatever operation touches it next, the stores agree
      afterwards unless that pauses the run again on what the blob kept. */
  lemma RevivedExactlyWhen(s: State, ending: Op, op: Op)
    requires Inv(s) && ending.id == op.id && op.id in s.runs && Live(s.runs[op.id])
    requires !ending.CreateRun? && !op.CreateRun? && Blob(s.runs[op.id], ending).state.IsTerminal()
    ensures var r := Blob(s.runs[op.id], ending);
            Agrees(Step(Step(s, ending), op)) <==>
              !(r.wakeup.Some? && KeepsWakeup(r, op)) && !(r.topic.Some? && KeepsTopic(r, op))
  {
    InvStep(s, ending);
    InvMeansAgrees(Step(s, ending));
    StepAgreesExactlyWhen(Step(s, ending), op);
    EndingUnindexes(s, ending);
    SafeUnindexed(Step(s, ending), op);
  }

  lemma EndingUnindexes(s: State, ending: Op)
    requires ending.id in s.runs && Live(s.runs[ending.id])
    requires !ending.CreateRun? && Blob(s.runs[ending.id], ending).state.IsTerminal()
    ensures var s', r := Step(s, ending), Blob(s.runs[ending.id], ending);
            && ending.id in s'.runs && s'.runs[ending.id] == r && ending.id !in s'.wakeup
            && (r.topic.Some? ==> !TopicIndexed(s', ending.id, r.topic))
  {
    assert Drops(s.runs[ending.id], ending);
  }

  lemma SafeUnindexed(s: State, op: Op)
    requires !op.CreateRun? && op.id in s.runs && op.id !in s.wakeup
    requires var r := s.runs[op.id]; r.topic.Some? ==> !TopicIndexed(s, op.id, r.topic)
    ensures var r := s.runs[op.id];
            Safe(s, op) <==> !(r.wakeup.Some? && KeepsWakeup(r, op)) && !(r.topic.Some? && KeepsTopic(r, op))
  {
  }
}
