/** The fan-out / join protocol of parallel, foreach and sub_saga as interleaved
    atomic steps: the parent's Advance (which holds the parent's run lock), any
    number of concurrent checkParentJoin calls, worker failure reports, external
    cancels, and a counter of outstanding advance messages for the parent. */
module FanOut {
  import opened Domain
  import opened Join

  /** Where the parent run stands with respect to its fan-out step. */
  datatype Parent = InStep | OnPause | Cleared | MovedOn | Ended

  /** Program counter of the Advance that holds the parent's run lock. */
  datatype Pc =
    | Unlocked
    | Spawning
    | Publishing
    | Reading        // message taken, about to read the run
    | Listing        // saw the pause, about to list the children
    | Clearing       // join met, about to ClearPause
    | Leaving        // about to append step.succeeded and write the next step

  datatype State = State(
    inputs: JoinInputs,
    branches: nat,                  // children the step will spawn
    children: seq<RunState>,        // those spawned so far
    published: nat,                 // of which this many were started
    parent: Parent,
    pc: Pc,
    messages: nat,                  // advance messages for the parent not yet taken
    toRead: nat,                     // checks about to read the parent
    toList: nat,                     // checks that saw the pause, about to list
    toWake: nat,                     // checks about to aggregate and wake
    toPublish: nat,                 // checks about to publish an advance
    reports: nat,                   // failures recorded, rollback not yet settled
    letThrough: Option<seq<RunState>>,  // the listing that released the parent
    succeededEvents: nat)

  datatype Step =
    | Spawn
    | Pause
    | StartChild
    | VerbReturns
    | ChildWrite(i: nat, st: RunState)
    | WorkerFails(i: nat)
    | RollbackSettles(i: nat)
    | FailsUnchecked(i: nat)
    | CheckReads
    | CheckLists
    | CheckWakes
    | CheckPublishes
    | Stray
    | ParentEnds
    | Take
    | ParentRead
    | ParentLists
    | ParentClears
    | ParentLeaves

  predicate Enabled(s: State, step: Step)
  {
    match step
    case Spawn => s.pc.Spawning? && |s.children| < s.branches
    case Pause => s.pc.Spawning? && |s.children| == s.branches
    case StartChild => s.pc.Publishing? && s.published < |s.children|
    case VerbReturns => s.pc.Publishing? && s.published == |s.children|
    // A child runs once it was published; an external cancel needs no start.
    case ChildWrite(i, st) => i < |s.children| && (i < s.published || st.Cancelled?)
    case WorkerFails(i) => i < |s.children| && i < s.published
    case RollbackSettles(i) => s.reports > 0 && i < |s.children| && i < s.published
    case FailsUnchecked(i) => i < |s.children| && i < s.published
    case CheckReads => s.toRead > 0
    case CheckLists => s.toList > 0
    case CheckWakes => s.toWake > 0
    case CheckPublishes => s.toPublish > 0
    case Stray => true
    case ParentEnds => !s.parent.MovedOn?
    case Take => s.pc.Unlocked? && s.messages > 0
    case ParentRead => s.pc.Reading?
    case ParentLists => s.pc.Listing?
    case ParentClears => s.pc.Clearing?
    case ParentLeaves => s.pc.Leaving?
  }

  function Next(s: State, step: Step): State
    requires Enabled(s, step)
  {
    match step
    case Spawn => s.(children := s.children + [Pending])
    case Pause => s.(parent := OnPause, pc := Publishing)
    case StartChild => s.(published := s.published + 1)
    case VerbReturns => s.(pc := Unlocked)
    // These terminal writes are followed by a check of the parent's join.
    case ChildWrite(i, st) =>
      s.(children := s.children[i := st], toRead := s.toRead + if st.IsTerminal() then 1 else 0)
    // FailAction: terminal, but the check comes with the rollback.
    case WorkerFails(i) => s.(children := s.children[i := Failed], reports := s.reports + 1)
    case RollbackSettles(i) =>
      s.(children := s.children[i := Failed], reports := s.reports - 1, toRead := s.toRead + 1)
    // A worker's failure without a compensator, or a child the license gate
    // rejects: failed, and nobody asks for the parent.
    case FailsUnchecked(i) => s.(children := s.children[i := Failed])
    case CheckReads =>
      s.(toRead := s.toRead - 1, toList := s.toList + if s.parent.OnPause? then 1 else 0)
    case CheckLists =>
      s.(toList := s.toList - 1, toWake := s.toWake + if Met(s.inputs, s.children) then 1 else 0)
    case CheckWakes => s.(toWake := s.toWake - 1, toPublish := s.toPublish + 1)
    case CheckPublishes => s.(toPublish := s.toPublish - 1, messages := s.messages + 1)
    case Stray => s.(messages := s.messages + 1)
    case ParentEnds => s.(parent := Ended)
    case Take => s.(messages := s.messages - 1, pc := Reading)
    case ParentRead => s.(pc := if s.parent.OnPause? then Listing else Unlocked)
    case ParentLists =>
      if Met(s.inputs, s.children) then s.(pc := Clearing, letThrough := Some(s.children))
      else s.(pc := Unlocked)
    case ParentClears => s.(parent := Cleared, pc := Leaving)
    case ParentLeaves =>
      s.(parent := MovedOn, pc := Unlocked, succeededEvents := s.succeededEvents + 1)
  }

  predicate Init(s: State)
  {
    && s.branches > 0
    && s.children == [] && s.published == 0
    && s.parent.InStep? && s.pc.Spawning?
    && s.messages == s.toRead == s.toList == s.toWake == s.toPublish == s.reports == 0
    && s.letThrough.None? && s.succeededEvents == 0
  }

  /** A run of the protocol: |states| == |steps| + 1. */
  ghost predicate Run(states: seq<State>, steps: seq<Step>)
  {
    && |states| == |steps| + 1
    && Init(states[0])
    && forall i :: 0 <= i < |steps| ==> Enabled(states[i], steps[i]) && states[i + 1] == Next(states[i], steps[i])
  }

  // ------------------------------------------------- the invariant

  predicate NoCheckPending(s: State)
  {
    s.toRead == 0 && s.toList == 0 && s.toWake == 0 && s.toPublish == 0 && s.reports == 0
  }

  predicate NoAdvance(s: State)
  {
    s.messages == 0 && !s.pc.Reading? && !s.pc.Listing? && !s.pc.Clearing?
  }

  /** The parent is paused, its join is met, and nothing is left to wake it. */
  predicate Lost(s: State)
  {
    s.parent.OnPause? && Met(s.inputs, s.children) && NoCheckPending(s) && NoAdvance(s)
  }

  /** One listing of all the children met the join. */
  predicate Released(s: State)
  {
    s.letThrough.Some? && |s.letThrough.value| == s.branches && Met(s.inputs, s.letThrough.value)
  }

  /** A child that was not started can only have been cancelled. */
  predicate Unstarted(s: State)
  {
    forall i :: 0 <= i < |s.children| && s.published <= i ==> s.children[i] in {Pending, Cancelled}
  }

  predicate Inv(s: State)
  {
    && s.branches > 0
    && s.published <= |s.children| <= s.branches
    && (s.pc.Spawning? ==> s.published == 0 && !s.parent.OnPause? && !s.parent.Cleared?)
    && (!s.pc.Spawning? ==> |s.children| == s.branches)
    && Unstarted(s)
    && (s.parent.OnPause? ==> s.succeededEvents == 0)
    && (!s.pc.Unlocked? && !s.pc.Reading? ==> s.succeededEvents == 0)
    && (s.pc.Clearing? || s.pc.Leaving? || s.succeededEvents > 0 ==> Released(s))
    && (s.parent.InStep? ==> s.pc.Spawning?)
    && (s.parent.Cleared? ==> s.pc.Leaving?)
    && (s.parent.MovedOn? ==> s.succeededEvents == 1)
    && s.succeededEvents <= 1
  }

  lemma InvInit(s: State)
    requires Init(s)
    ensures Inv(s)
  {
  }

  lemma InvNext(s: State, step: Step)
    requires Inv(s) && Enabled(s, step)
    ensures Inv(Next(s, step))
  {
    UnstartedKept(s, step);
  }

  lemma UnstartedKept(s: State, step: Step)
    requires s.published <= |s.children| && Unstarted(s) && Enabled(s, step)
    requires s.pc.Spawning? ==> s.published == 0
    ensures Unstarted(Next(s, step))
  {
    match step
    case ChildWrite(i, st) =>
      assert forall j :: 0 <= j < |s.children| && j != i ==> s.children[i := st][j] == s.children[j];
    case _ =>
  }

  lemma {:induction false} InvAlways(states: seq<State>, steps: seq<Step>, i: nat)
    requires Run(states, steps) && i < |states|
    ensures Inv(states[i])
  {
    if i == 0 {
      InvInit(states[0]);
    } else {
      InvAlways(states, steps, i - 1);
      InvNext(states[i - 1], steps[i - 1]);
    }
  }

  // ------------------------------------------------- no lost wakeup

  /** The join was already met when the verb paused the parent: only possible
      when every child had been cancelled from outside before any was started. */
  predicate PausesTooLate(s: State, step: Step)
  {
    && step.Pause?
    && NeedsAll(s.inputs)
    && (forall i :: 0 <= i < |s.children| ==> s.children[i].Cancelled?)
    && NoCheckPending(s)
    && s.messages == 0
  }

  lemma {:induction false} NoSuccesses(group: seq<RunState>)
    requires forall i :: 0 <= i < |group| ==> group[i] in {Pending, Cancelled}
    ensures Successes(group) == 0
  {
    if group != [] {
      NoSuccesses(group[1..]);
    }
  }

  lemma PauseLoses(s: State, step: Step)
    requires Inv(s) && Enabled(s, step) && step.Pause?
    ensures Lost(Next(s, step)) <==> PausesTooLate(s, step)
  {
    NoSuccesses(s.children);
    if AllTerminal(s.children) {
      forall i | 0 <= i < |s.children| ensures s.children[i].Cancelled? { assert s.children[i].IsTerminal(); }
    }
  }

  /** The last child to end, of a parent already paused, fails with no check to
      follow and none under way. */
  predicate FailsUnheard(s: State, step: Step)
  {
    && step.FailsUnchecked? && step.i < |s.children|
    && NeedsAll(s.inputs)
    && !s.children[step.i].IsTerminal()
    && (forall i :: 0 <= i < |s.children| && i != step.i ==> s.children[i].IsTerminal())
    && s.parent.OnPause? && NoCheckPending(s) && NoAdvance(s)
  }

  lemma FailureLoses(s: State, step: Step)
    requires Inv(s) && Enabled(s, step) && step.FailsUnchecked? && !Lost(s)
    ensures Lost(Next(s, step)) <==> FailsUnheard(s, step)
  {
    var after := s.children[step.i := Failed];
    SuccessesUpdate(s.children, step.i, Failed);
    if AllTerminal(after) {
      forall i | 0 <= i < |s.children| && i != step.i ensures s.children[i].IsTerminal() {
        assert after[i].IsTerminal();
      }
    }
    if AllTerminal(s.children) {
      assert s.children[step.i].IsTerminal();
    }
  }

  /** Every other step keeps the duty to wake the parent alive. */
  lemma OthersKeepDuty(s: State, step: Step)
    requires Inv(s) && Enabled(s, step) && !step.Pause? && !step.FailsUnchecked? && !Lost(s)
    ensures !Lost(Next(s, step))
  {
    if step.ChildWrite? && !step.st.IsTerminal() {
      OnlyEndingMeets(s.inputs, s.children, step.i, step.st);
    }
  }

  predicate Loses(s: State, step: Step)
  {
    PausesTooLate(s, step) || FailsUnheard(s, step)
  }

  /** For any number of children and any interleaving, the parent is left paused
      with a met join and nothing to wake it exactly when the pause itself came
      after the cancellation of all children, or the last child to end failed
      with no check. */
  lemma {:induction false} WakeupLostExactlyWhen(states: seq<State>, steps: seq<Step>)
    requires Run(states, steps)
    ensures (exists i :: 0 <= i < |states| && Lost(states[i]))
       <==> (exists i :: 0 <= i < |steps| && Loses(states[i], steps[i]))
  {
    if i :| 0 <= i < |steps| && Loses(states[i], steps[i]) {
      InvAlways(states, steps, i);
      LosingStep(states[i], steps[i]);
      assert Lost(states[i + 1]);
    }
    if i :| 0 <= i < |states| && Lost(states[i]) {
      var j := FirstLost(states, steps, i);
    }
  }

  lemma LosingStep(s: State, step: Step)
    requires Inv(s) && Enabled(s, step) && Loses(s, step)
    ensures Lost(Next(s, step))
  {
    if step.Pause? {
      PauseLoses(s, step);
    } else {
      assert !AllTerminal(s.children);
      FailureLoses(s, step);
    }
  }

  lemma {:induction false} FirstLost(states: seq<State>, steps: seq<Step>, i: nat) returns (j: nat)
    requires Run(states, steps) && i < |states| && Lost(states[i])
    ensures j < |steps| && Loses(states[j], steps[j])
  {
    InvAlways(states, steps, i - 1);
    if Lost(states[i - 1]) {
      j := FirstLost(states, steps, i - 1);
    } else {
      j := i - 1;
      if steps[j].Pause? {
        PauseLoses(states[j], steps[j]);
      } else if steps[j].FailsUnchecked? {
        FailureLoses(states[j], steps[j]);
      } else {
        OthersKeepDuty(states[j], steps[j]);
      }
    }
  }

  /** The losing run exists: one branch, cancelled between its creation and the
      pause; its later start finds a terminal run and checks nothing. */
  lemma CancelBeforePauseLosesWakeup()
    ensures exists states, steps :: Run(states, steps) && exists i :: 0 <= i < |states| && Lost(states[i])
  {
    var s0 := State(JoinInputs("all", Unusable), 1, [], 0, InStep, Spawning, 0, 0, 0, 0, 0, 0, None, 0);
    var steps := [Spawn, ChildWrite(0, Cancelled), CheckReads, Pause];
    var s1 := Next(s0, steps[0]);
    var s2 := Next(s1, steps[1]);
    var s3 := Next(s2, steps[2]);
    var s4 := Next(s3, steps[3]);
    var states := [s0, s1, s2, s3, s4];
    assert Run(states, steps);
    assert Lost(states[4]);
  }

  /** The other way: one branch, whose worker reports a failure that nothing
      rolls back. */
  lemma UnheardFailureLosesWakeup()
    ensures exists states, steps ::
              Run(states, steps) && exists i :: 0 <= i < |steps| && FailsUnheard(states[i], steps[i])
  {
    var s0 := State(JoinInputs("all", Unusable), 1, [], 0, InStep, Spawning, 0, 0, 0, 0, 0, 0, None, 0);
    var steps := [Spawn, Pause, StartChild, VerbReturns, FailsUnchecked(0)];
    var s1 := Next(s0, steps[0]);
    var s2 := Next(s1, steps[1]);
    var s3 := Next(s2, steps[2]);
    var s4 := Next(s3, steps[3]);
    var s5 := Next(s4, steps[4]);
    var states := [s0, s1, s2, s3, s4, s5];
    assert Run(states, steps);
    assert FailsUnheard(states[4], steps[4]);
  }

  // ------------------------------------------------- fan-out safety

  /** The parent leaves the step at most once, and only after one listing of
      all its children met the join; step.succeeded is appended just then. */
  lemma LeavesOnlyWhenMet(states: seq<State>, steps: seq<Step>, i: nat)
    requires Run(states, steps) && i < |states|
    ensures states[i].succeededEvents <= 1
    ensures states[i].parent.MovedOn? ==> states[i].succeededEvents == 1
    ensures states[i].succeededEvents == 1 ==> Released(states[i])
  {
    InvAlways(states, steps, i);
  }

  /** That listing was the children's state at an earlier moment of the run. */
  lemma {:induction false} ListingIsReal(states: seq<State>, steps: seq<Step>, i: nat)
    requires Run(states, steps) && i < |states| && states[i].letThrough.Some?
    ensures exists j :: 0 <= j < i && steps[j].ParentLists? && states[j].children == states[i].letThrough.value
  {
    if states[i - 1].letThrough == states[i].letThrough {
      ListingIsReal(states, steps, i - 1);
    } else {
      assert steps[i - 1].ParentLists?;
    }
  }

  // ------------------------------------------------- progress

  /** Steps the engine takes on its own, with no child or outside event. */
  predicate EngineStep(step: Step)
  {
    step.StartChild? || step.VerbReturns? || step.CheckReads? || step.CheckLists? || step.CheckWakes?
    || step.CheckPublishes? || step.Take? || step.ParentRead? || step.ParentLists? || step.ParentClears?
    || step.ParentLeaves?
  }

  function Work(s: State): nat
    requires s.published <= |s.children|
  {
    9 * s.toRead + 8 * s.toList + 7 * s.toWake + 6 * s.toPublish + 5 * s.messages
    + match s.pc
      case Unlocked => 0
      case Spawning => 0
      case Publishing => 1 + |s.children| - s.published
      case Reading => 4
      case Listing => 3
      case Clearing => 2
      case Leaving => 1
  }

  lemma EngineStepWorks(s: State, step: Step)
    requires Inv(s) && Enabled(s, step) && EngineStep(step)
    ensures Work(Next(s, step)) < Work(s)
  {
  }

  /** The parent still has to be released, and something will do it. */
  predicate OnTheWay(s: State)
  {
    && Inv(s) && s.reports == 0 && Met(s.inputs, s.children)
    && (s.parent.OnPause? ==> !Lost(s))
    && (s.parent.OnPause? || s.parent.Cleared? || s.parent.MovedOn?)
    && !s.pc.Spawning?
  }

  lemma EngineKeepsOnTheWay(s: State, step: Step)
    requires OnTheWay(s) && Enabled(s, step) && EngineStep(step)
    ensures OnTheWay(Next(s, step))
  {
    InvNext(s, step);
    OthersKeepDuty(s, step);
  }

  lemma WorkLeft(s: State) returns (step: Step)
    requires OnTheWay(s) && !s.parent.MovedOn?
    ensures EngineStep(step) && Enabled(s, step)
  {
    step := match s.pc
      case Publishing => if s.published < |s.children| then StartChild else VerbReturns
      case Reading => ParentRead
      case Listing => ParentLists
      case Clearing => ParentClears
      case Leaving => ParentLeaves
      case _ =>
        if s.messages > 0 then Take
        else if s.toRead > 0 then CheckReads
        else if s.toList > 0 then CheckLists
        else if s.toWake > 0 then CheckWakes
        else CheckPublishes;
  }

  /** While the parent waits with a met join and is not lost, some engine step
      is enabled; such steps cannot go on for more than Work(s) of them, and
      when none is left the parent has moved on. */
  lemma {:induction false} WakeupArrives(states: seq<State>, steps: seq<Step>)
    requires |states| == |steps| + 1 && OnTheWay(states[0])
    requires forall i :: 0 <= i < |steps| ==>
               EngineStep(steps[i]) && Enabled(states[i], steps[i]) && states[i + 1] == Next(states[i], steps[i])
    ensures |steps| <= Work(states[0])
    ensures (forall step :: EngineStep(step) ==> !Enabled(states[|steps|], step)) ==>
              states[|steps|].parent.MovedOn?
    decreases |steps|
  {
    if steps == [] {
      if states[0].parent != MovedOn {
        var step := WorkLeft(states[0]);
      }
    } else {
      EngineStepWorks(states[0], steps[0]);
      EngineKeepsOnTheWay(states[0], steps[0]);
      WakeupArrives(states[1..], steps[1..]);
    }
  }
}
