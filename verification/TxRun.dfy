/** Optimistic WATCH / GET / MULTI / EXEC updates of one stored run, by any
    number of clients, with a bounded number of retries. */
module TxRun {
  import opened Domain

  const BUDGET: nat := 50

  /** What a mutate closure does with the run it read. `marks` is the value it
      leaves in a variable captured outside the retry loop. */
  datatype Answer<V> = Write(value: V, marks: bool) | Abort | Fail

  datatype Outcome = Committed | NoWrite | Missing | Refused | Exhausted

  // ------------------------------------------------- one call, as a loop

  /** The stored value after the listed foreign writes (None: no write). */
  function After<V>(cur: Option<V>, others: seq<Option<V>>): Option<V>
  {
    if others == [] then cur
    else if others[|others| - 1].Some? then others[|others| - 1]
    else After(cur, others[..|others| - 1])
  }

  /** Attempt i read a value, had something to write, and found it outdated. */
  predicate Conflicts<V>(mutate: V -> Answer<V>, cur: Option<V>, others: seq<Option<V>>, i: nat)
    requires i < |others|
  {
    others[i].Some? && After(cur, others[..i]).Some? && mutate(After(cur, others[..i]).value).Write?
  }

  class Key<V> {
    var stored: Option<V>
    var version: nat

    /** others[i] is what another client stores between the read and the EXEC of
        attempt i, if anything. The call commits on top of the latest foreign
        write or leaves it alone; it never overwrites one it has not read. */
    method TxRun(mutate: V -> Answer<V>, others: seq<Option<V>>) returns (r: Outcome, attempts: nat)
      requires |others| == BUDGET
      modifies this
      ensures 0 < attempts <= BUDGET
      ensures forall i :: 0 <= i < attempts - 1 ==> Conflicts(mutate, old(stored), others, i)
      ensures r.Exhausted? <==> attempts == BUDGET && Conflicts(mutate, old(stored), others, BUDGET - 1)
      ensures r.Committed? ==> others[attempts - 1].None?
      ensures r.Committed? ==>
        var seen := After(old(stored), others[..attempts]);
        seen.Some? && mutate(seen.value).Write? && stored == Some(mutate(seen.value).value)
      ensures !r.Committed? ==> stored == After(old(stored), others[..attempts])
    {
      attempts := 0;
      while attempts < BUDGET
        invariant attempts <= BUDGET
        invariant stored == After(old(stored), others[..attempts])
        invariant forall i :: 0 <= i < attempts ==> Conflicts(mutate, old(stored), others, i)
      {
        var watched, seen := version, stored;
        if others[attempts].Some? {
          stored, version := others[attempts], version + 1;
        }
        ghost var i := attempts;
        attempts := attempts + 1;
        assert others[..attempts][..i] == others[..i];
        assert seen == After(old(stored), others[..i]);
        if seen.None? {
          return Missing, attempts;
        }
        match mutate(seen.value) {
          case Abort => return NoWrite, attempts;
          case Fail => return Refused, attempts;
          case Write(value, _) =>
            if version == watched {
              stored, version := Some(value), version + 1;
              return Committed, attempts;
            }
        }
      }
      r := Exhausted;
    }
  }

  // ------------------------------------------------- all clients, interleaved

  type Op = nat

  datatype Pc<V> =
    | Start
    | Watched(ver: nat)
    | Read(ver: nat, seen: Option<V>)
    | Done(outcome: Outcome)

  datatype Call<V> = Call(pc: Pc<V>, tries: nat, flag: bool)

  datatype State<V> = State(
    stored: Option<V>,
    version: nat,
    log: seq<Op>,               // committed calls, in commit order
    calls: map<Op, Call<V>>)

  /** How a call keeps its flag: cleared at the start of every attempt or only
      before the first, and set once the EXEC went through or already by the
      closure. txRun closures do neither, ClaimCronFire does both. */
  datatype Flag = Flag(clears: bool, late: bool)

  /** The calls made: what each mutates, and how it keeps its flag. */
  datatype System<!V> = System(init: Option<V>, mutate: Op -> V -> Answer<V>, flag: Op -> Flag)

  predicate Init<V(==)>(sys: System<V>, s: State<V>)
  {
    && s.stored == sys.init && s.version == 0 && s.log == []
    && forall op :: op in s.calls ==> s.calls[op] == Call(Start, 0, false)
  }

  predicate Enabled<V>(s: State<V>, op: Op)
  {
    op in s.calls && !s.calls[op].pc.Done?
  }

  function Next<V>(sys: System<V>, s: State<V>, op: Op): State<V>
    requires Enabled(s, op)
  {
    var c := s.calls[op];
    match c.pc
    case Start => s.(calls := s.calls[op := c.(pc := Watched(s.version), flag := c.flag && !sys.flag(op).clears)])
    case Watched(ver) => s.(calls := s.calls[op := c.(pc := Read(ver, s.stored))])
    case Read(ver, seen) =>
      if seen.None? then s.(calls := s.calls[op := c.(pc := Done(Missing))])
      else
        match sys.mutate(op)(seen.value)
        case Abort => s.(calls := s.calls[op := c.(pc := Done(NoWrite))])
        case Fail => s.(calls := s.calls[op := c.(pc := Done(Refused))])
        case Write(value, marks) =>
          if ver == s.version then
            s.(stored := Some(value), version := s.version + 1, log := s.log + [op],
               calls := s.calls[op := Call(Done(Committed), c.tries, c.flag || marks)])
          else
            // the closure ran, the EXEC failed
            var flag := c.flag || (marks && !sys.flag(op).late);
            s.(calls := s.calls[op := Call(if c.tries + 1 < BUDGET then Start else Done(Exhausted), c.tries + 1, flag)])
  }

  /** Running the committed mutations one after the other, alone. */
  function Serial<V>(sys: System<V>, log: seq<Op>): Option<V>
  {
    if log == [] then sys.init
    else
      var before := Serial(sys, log[..|log| - 1]);
      if before.None? then None
      else
        match sys.mutate(log[|log| - 1])(before.value)
        case Write(value, _) => Some(value)
        case _ => before
  }

  ghost predicate Inv<V>(sys: System<V>, s: State<V>)
  {
    && s.stored == Serial(sys, s.log)
    && s.version == |s.log|
    && (forall op :: op in s.calls && s.calls[op].pc.Watched? ==> s.calls[op].pc.ver <= s.version)
    && (forall op :: op in s.calls && s.calls[op].pc.Read? ==>
          && s.calls[op].pc.ver <= s.version
          && (s.calls[op].pc.ver == s.version ==> s.calls[op].pc.seen == s.stored))
    && (forall op :: op in s.log <==> op in s.calls && s.calls[op].pc == Done(Committed))
    && (forall i, j :: 0 <= i < j < |s.log| ==> s.log[i] != s.log[j])
    && (forall op :: op in s.calls ==> s.calls[op].tries < BUDGET || s.calls[op].pc == Done(Exhausted))
  }

  /** A step that only moves one call, without committing. */
  lemma MoveKeeps<V>(sys: System<V>, s: State<V>, op: Op, c: Call<V>)
    requires Inv(sys, s) && Enabled(s, op)
    requires c.pc != Done(Committed)
    requires c.pc.Watched? ==> c.pc.ver <= s.version
    requires c.pc.Read? ==> c.pc.ver <= s.version && (c.pc.ver == s.version ==> c.pc.seen == s.stored)
    requires c.tries < BUDGET || c.pc == Done(Exhausted)
    ensures Inv(sys, s.(calls := s.calls[op := c]))
  {
  }

  lemma CommitKeeps<V>(sys: System<V>, s: State<V>, op: Op, v: V, c: Call<V>)
    requires Inv(sys, s) && Enabled(s, op)
    requires c.pc == Done(Committed) && c.tries < BUDGET
    requires s.stored.Some? && sys.mutate(op)(s.stored.value).Write? && sys.mutate(op)(s.stored.value).value == v
    ensures Inv(sys, s.(stored := Some(v), version := s.version + 1, log := s.log + [op], calls := s.calls[op := c]))
  {
    var log := s.log + [op];
    assert log[..|log| - 1] == s.log;
    assert op !in s.log;
  }

  lemma InvNext<V>(sys: System<V>, s: State<V>, op: Op)
    requires Inv(sys, s) && Enabled(s, op)
    ensures Inv(sys, Next(sys, s, op))
  {
    var c := s.calls[op];
    if c.pc.Read? && c.pc.seen.Some? && sys.mutate(op)(c.pc.seen.value).Write? && c.pc.ver == s.version {
      var w := sys.mutate(op)(c.pc.seen.value);
      CommitKeeps(sys, s, op, w.value, Call(Done(Committed), c.tries, c.flag || w.marks));
    } else {
      MoveKeeps(sys, s, op, Next(sys, s, op).calls[op]);
    }
  }

  ghost predicate Run<V>(sys: System<V>, states: seq<State<V>>, ops: seq<Op>)
  {
    && |states| == |ops| + 1
    && Init(sys, states[0])
    && forall i :: 0 <= i < |ops| ==> Enabled(states[i], ops[i]) && states[i + 1] == Next(sys, states[i], ops[i])
  }

  /** At every moment the stored run is what the committed mutations give when
      run alone in commit order; every call that reported a commit is in that
      order exactly once, and no other call has left a trace. */
  lemma {:induction false} Serialisable<V>(sys: System<V>, states: seq<State<V>>, ops: seq<Op>, i: nat)
    requires Run(sys, states, ops) && i < |states|
    ensures states[i].stored == Serial(sys, states[i].log)
    ensures forall op :: op in states[i].log <==> op in states[i].calls && states[i].calls[op].pc == Done(Committed)
    ensures forall a, b :: 0 <= a < b < |states[i].log| ==> states[i].log[a] != states[i].log[b]
    ensures Inv(sys, states[i])
  {
    if i > 0 {
      Serialisable(sys, states, ops, i - 1);
      InvNext(sys, states[i - 1], ops[i - 1]);
    }
  }

  /** Every commit in the log really was a write of its mutation on the value
      left by the commit before it: no update is lost. */
  lemma {:induction false} EachCommitBuildsOnTheLast<V>(sys: System<V>, states: seq<State<V>>, ops: seq<Op>, i: nat,
                                                        k: nat)
    requires Run(sys, states, ops) && i < |states| && k < |states[i].log|
    ensures Builds(sys, states[i].log, k)
  {
    if k < |states[i - 1].log| {
      EachCommitBuildsOnTheLast(sys, states, ops, i - 1, k);
      BuildsOn(sys, states[i - 1].log, states[i].log[|states[i].log| - 1], k);
    } else {
      Serialisable(sys, states, ops, i - 1);
      CommitBuilds(sys, states[i - 1], ops[i - 1]);
    }
  }

  /** Commit k wrote what its mutation makes of the value before it. */
  ghost predicate Builds<V>(sys: System<V>, log: seq<Op>, k: nat)
    requires k < |log|
  {
    var before := Serial(sys, log[..k]);
    && before.Some? && sys.mutate(log[k])(before.value).Write?
    && Serial(sys, log[..k + 1]) == Some(sys.mutate(log[k])(before.value).value)
  }

  lemma BuildsOn<V>(sys: System<V>, log: seq<Op>, op: Op, k: nat)
    requires k < |log|
    ensures Builds(sys, log + [op], k) <==> Builds(sys, log, k)
  {
    assert (log + [op])[..k] == log[..k] && (log + [op])[..k + 1] == log[..k + 1];
  }

  lemma CommitBuilds<V>(sys: System<V>, s: State<V>, op: Op)
    requires Inv(sys, s) && Enabled(s, op) && Next(sys, s, op).log != s.log
    ensures Next(sys, s, op).log == s.log + [op] && Builds(sys, s.log + [op], |s.log|)
  {
    var log := s.log + [op];
    assert log[..|s.log|] == s.log && log[..|log| - 1] == s.log && log[..|log|] == log;
  }

  // ------------------------------------------------- flags captured outside

  /** The attempt that is about to EXEC runs a closure that sets the flag. */
  predicate Marks<V>(sys: System<V>, s: State<V>, op: Op)
  {
    && op in s.calls && s.calls[op].pc.Read? && s.calls[op].pc.seen.Some?
    && var answer := sys.mutate(op)(s.calls[op].pc.seen.value); answer.Write? && answer.marks
  }

  /** And its EXEC goes through. */
  predicate Wins<V>(sys: System<V>, s: State<V>, op: Op)
  {
    Marks(sys, s, op) && s.calls[op].pc.ver == s.version
  }

  predicate Sets<V>(sys: System<V>, s: State<V>, moved: Op, op: Op)
  {
    moved == op && if sys.flag(op).late then Wins(sys, s, op) else Marks(sys, s, op)
  }

  predicate Clears<V>(sys: System<V>, s: State<V>, moved: Op, op: Op)
  {
    moved == op && sys.flag(op).clears && op in s.calls && s.calls[op].pc.Start?
  }

  /** Step j of the first i set the flag of the call, and none after it cleared it. */
  ghost predicate SetAt<V>(sys: System<V>, states: seq<State<V>>, ops: seq<Op>, i: nat, op: Op, j: nat)
    requires i <= |ops| <= |states|
  {
    j < i && Sets(sys, states[j], ops[j], op) && forall k :: j < k < i ==> !Clears(sys, states[k], ops[k], op)
  }

  ghost predicate FlagUp<V>(sys: System<V>, states: seq<State<V>>, ops: seq<Op>, i: nat, op: Op)
    requires i <= |ops| <= |states|
  {
    exists j: nat :: SetAt(sys, states, ops, i, op, j)
  }

  lemma FlagUpStep<V>(sys: System<V>, states: seq<State<V>>, ops: seq<Op>, i: nat, op: Op)
    requires i < |ops| <= |states|
    ensures FlagUp(sys, states, ops, i + 1, op) <==>
              Sets(sys, states[i], ops[i], op)
              || (FlagUp(sys, states, ops, i, op) && !Clears(sys, states[i], ops[i], op))
  {
    var n := i + 1;
    if Sets(sys, states[i], ops[i], op) {
      assert SetAt(sys, states, ops, n, op, i);
    } else if FlagUp(sys, states, ops, i, op) && !Clears(sys, states[i], ops[i], op) {
      var j: nat :| SetAt(sys, states, ops, i, op, j);
      assert SetAt(sys, states, ops, n, op, j);
    } else if j: nat :| SetAt(sys, states, ops, n, op, j) {
      assert SetAt(sys, states, ops, i, op, j);
    }
  }

  /** At every moment of every run, for every closure and every way to keep a
      flag: it is up exactly when an attempt of the call has set it, by the EXEC
      going through if it is set late and by the closure otherwise, and no
      attempt begun since then has cleared it. */
  lemma {:induction false} FlagExactly<V>(sys: System<V>, states: seq<State<V>>, ops: seq<Op>, i: nat, op: Op)
    requires Run(sys, states, ops) && i < |states|
    ensures op in states[i].calls ==> (states[i].calls[op].flag <==> FlagUp(sys, states, ops, i, op))
  {
    if i > 0 {
      FlagExactly(sys, states, ops, i - 1, op);
      FlagUpStep(sys, states, ops, i - 1, op);
    }
  }

  // ------------------------------------------------- what the caller is told

  /** An error hides the flag. */
  predicate Finished<V(==)>(c: Call<V>)
  {
    c.pc == Done(Committed) || c.pc == Done(NoWrite)
  }

  predicate Reports<V(==)>(c: Call<V>)
  {
    c.flag && Finished(c)
  }

  predicate EverAt<V>(states: seq<State<V>>, ops: seq<Op>, i: nat, p: (State<V>, Op) -> bool, j: nat)
    requires i <= |ops| <= |states|
  {
    j < i && p(states[j], ops[j])
  }

  /** Some step of the first i was like that. */
  ghost predicate Ever<V>(states: seq<State<V>>, ops: seq<Op>, i: nat, p: (State<V>, Op) -> bool)
    requires i <= |ops| <= |states|
  {
    exists j: nat :: EverAt(states, ops, i, p, j)
  }

  /** An attempt of the call that set the flag, */
  function Marking<V>(sys: System<V>, op: Op): (State<V>, Op) -> bool
  {
    (s, moved) => moved == op && Marks(sys, s, op)
  }

  /** one that did and went through, */
  function Winning<V>(sys: System<V>, op: Op): (State<V>, Op) -> bool
  {
    (s, moved) => moved == op && Wins(sys, s, op)
  }

  /** and one that did and was the last. */
  function Closing<V>(sys: System<V>, op: Op): (State<V>, Op) -> bool
  {
    (s, moved) => moved == op && Marks(sys, s, op) && Next(sys, s, op).calls[op].pc.Done?
  }

  /** What is known of a call in the terms of its attempts. */
  ghost predicate Told<V>(sys: System<V>, states: seq<State<V>>, ops: seq<Op>, i: nat, op: Op)
    requires i <= |ops| <= |states| && i < |states| && op in states[i].calls
  {
    var c := states[i].calls[op];
    var won := Ever(states, ops, i, Winning(sys, op));
    && (won ==> c.pc == Done(Committed) && Ever(states, ops, i, Closing(sys, op)))
    && (Ever(states, ops, i, Closing(sys, op)) ==> won || c.pc == Done(Exhausted))
    && if sys.flag(op).late then c.flag <==> won
       else if sys.flag(op).clears then c.pc.Start? || c.pc == Done(Exhausted) || (c.flag <==> won)
       else c.flag <==> Ever(states, ops, i, Marking(sys, op))
  }

  lemma ToldStep<V>(sys: System<V>, states: seq<State<V>>, ops: seq<Op>, i: nat, op: Op)
    requires Run(sys, states, ops) && i < |ops| && op in states[i].calls && Told(sys, states, ops, i, op)
    ensures op in states[i + 1].calls && Told(sys, states, ops, i + 1, op)
  {
    EverStep(states, ops, i, Marking(sys, op));
    EverStep(states, ops, i, Winning(sys, op));
    EverStep(states, ops, i, Closing(sys, op));
    assert states[i + 1] == Next(sys, states[i], ops[i]);
    if ops[i] == op {
      AttemptStep(sys, states[i], op);
      assert Wins(sys, states[i], op) ==> Marks(sys, states[i], op);
    } else {
      assert states[i + 1].calls[op] == states[i].calls[op];
    }
  }

  /** What one step does to the call that makes it. */
  lemma AttemptStep<V>(sys: System<V>, s: State<V>, op: Op)
    requires Enabled(s, op)
    ensures var c, c' := s.calls[op], Next(sys, s, op).calls[op];
            if Wins(sys, s, op) then c' == Call(Done(Committed), c.tries, true)
            else if Marks(sys, s, op) then
              (c'.pc.Start? || c'.pc == Done(Exhausted)) && (c'.flag <==> c.flag || !sys.flag(op).late)
            else c'.flag <==> c.flag && (c.pc.Start? ==> !sys.flag(op).clears)
  {
  }

  lemma EverStep<V>(states: seq<State<V>>, ops: seq<Op>, i: nat, p: (State<V>, Op) -> bool)
    requires i < |ops| <= |states|
    ensures Ever(states, ops, i + 1, p) <==> Ever(states, ops, i, p) || p(states[i], ops[i])
  {
    var n := i + 1;
    if j: nat :| EverAt(states, ops, i, p, j) {
      assert EverAt(states, ops, n, p, j);
    } else if j: nat :| EverAt(states, ops, n, p, j) {
      assert j == i || EverAt(states, ops, i, p, j);
    }
    assert EverAt(states, ops, n, p, i) <==> p(states[i], ops[i]);
  }

  lemma {:induction false} AlwaysTold<V>(sys: System<V>, states: seq<State<V>>, ops: seq<Op>, i: nat, op: Op)
    requires Run(sys, states, ops) && i < |states| && op in states[i].calls
    ensures Told(sys, states, ops, i, op)
  {
    if i > 0 {
      AlwaysTold(sys, states, ops, i - 1, op);
      ToldStep(sys, states, ops, i - 1, op);
    }
  }

  /** A call that reports did what it reports when one of its marking attempts
      went through. The report is false exactly for a captured flag of a call
      that ended without an error, with some attempt that marked and a last one
      that did not, whether that found nothing to write or wrote something else. */
  lemma ReportIsFalseExactlyWhen<V>(sys: System<V>, states: seq<State<V>>, ops: seq<Op>, i: nat, op: Op)
    requires Run(sys, states, ops) && i < |states| && op in states[i].calls
    ensures var c := states[i].calls[op];
            var earned := Ever(states, ops, i, Winning(sys, op));
            && (earned ==> Reports(c) && op in states[i].log)
            && (Reports(c) && !earned <==>
                && sys.flag(op) == Flag(false, false) && Finished(c)
                && Ever(states, ops, i, Marking(sys, op)) && !Ever(states, ops, i, Closing(sys, op)))
  {
    AlwaysTold(sys, states, ops, i, op);
    Serialisable(sys, states, ops, i);
    WonMarked(sys, states, ops, i, op);
  }

  lemma WonMarked<V>(sys: System<V>, states: seq<State<V>>, ops: seq<Op>, i: nat, op: Op)
    requires i <= |ops| <= |states|
    ensures Ever(states, ops, i, Winning(sys, op)) ==> Ever(states, ops, i, Marking(sys, op))
  {
    if j: nat :| EverAt(states, ops, i, Winning(sys, op), j) {
      assert EverAt(states, ops, i, Marking(sys, op), j);
    }
  }

  /** So a flag that is cleared in every attempt, or set late, reports exactly
      the marking commits of its own call. */
  lemma ResetFlagIsTruthful<V>(sys: System<V>, states: seq<State<V>>, ops: seq<Op>, i: nat, op: Op)
    requires Run(sys, states, ops) && i < |states| && op in states[i].calls
    requires sys.flag(op).clears || sys.flag(op).late
    ensures Reports(states[i].calls[op]) <==> Ever(states, ops, i, Winning(sys, op))
    ensures Reports(states[i].calls[op]) ==> op in states[i].log
  {
    ReportIsFalseExactlyWhen(sys, states, ops, i, op);
  }

  // ------------------------------------------------- deliveries of one signal

  ghost predicate Reachable<V(!new)>(sys: System<V>, s: State<V>)
  {
    exists states: seq<State<V>>, ops: seq<Op> :: Run(sys, states, ops) && states[|ops|] == s
  }

  lemma Reach<V(!new)>(sys: System<V>, s: State<V>, op: Op, s': State<V>)
    requires Reachable(sys, s) && Enabled(s, op) && s' == Next(sys, s, op)
    ensures Reachable(sys, s')
  {
    var states: seq<State<V>>, ops: seq<Op> :| Run(sys, states, ops) && states[|ops|] == s;
    assert Run(sys, states + [s'], ops + [op]);
    assert (states + [s'])[|ops + [op]|] == s';
  }

  /** The stored value is "still awaited". Delivering takes it away and sets the
      flag; a timeout takes it away and has no flag. */
  function Deliver(awaited: bool): Answer<bool>
  {
    if awaited then Write(false, true) else Abort
  }

  function TimeOut(awaited: bool): Answer<bool>
  {
    Write(false, false)
  }

  /** Clients below `deliveries` deliver the signal, the others time it out. */
  function Race(deliveries: nat): System<bool>
  {
    System(Some(true), (op: Op) => if op < deliveries then Deliver else TimeOut, (op: Op) => Flag(false, false))
  }

  function Below(n: nat): (ids: set<Op>)
    ensures forall op: Op :: op in ids <==> op < n
  {
    if n == 0 then {}
    else
      var last: Op := n - 1;
      Below(last) + {last}
  }

  lemma OneMore(s: set<Op>, op: Op, t: set<Op>)
    requires op !in s && t == s + {op}
    ensures |t| == |s| + 1
  {
  }

  lemma {:induction false} BelowSize(n: nat)
    ensures |Below(n)| == n
  {
    if n > 0 {
      BelowSize(n - 1);
      OneMore(Below(n - 1), n - 1, Below(n));
    }
  }

  function Reporters(s: State<bool>): (ops: set<Op>)
    ensures forall op :: op in ops <==> op in s.calls && Reports(s.calls[op])
  {
    set op | op in s.calls && Reports(s.calls[op])
  }

  /** n clients can leave k of them told that they consumed the signal. */
  ghost predicate CanReport(deliveries: nat, clients: nat, k: nat)
  {
    exists s: State<bool> :: Reachable(Race(deliveries), s) && s.calls.Keys == Below(clients) && |Reporters(s)| == k
  }

  const FRESH: Call<bool> := Call(Start, 0, false)
  const WATCHING: Call<bool> := Call(Watched(0), 0, false)
  const HAS_READ: Call<bool> := Call(Read(0, Some(true)), 0, false)
  const WON: Call<bool> := Call(Done(Committed), 0, true)
  const AGAIN: Call<bool> := Call(Start, 1, true)
  const REWATCHING: Call<bool> := Call(Watched(1), 1, true)
  const REREAD: Call<bool> := Call(Read(1, Some(false)), 1, true)
  const MISLED: Call<bool> := Call(Done(NoWrite), 1, true)

  lemma MoveOn(sys: System<bool>, s: State<bool>, op: Op, c: Call<bool>, d: Call<bool>)
    requires Reachable(sys, s.(calls := s.calls[op := c])) && !c.pc.Done?
    requires Next(sys, s.(calls := s.calls[op := c]), op) == s.(calls := s.calls[op := c][op := d])
    ensures Reachable(sys, s.(calls := s.calls[op := d]))
  {
    assert s.calls[op := c][op := d] == s.calls[op := d];
    Reach(sys, s.(calls := s.calls[op := c]), op, s.(calls := s.calls[op := d]));
  }

  /** A client reads before anything was written. */
  lemma Reads(sys: System<bool>, s: State<bool>, op: Op)
    requires Reachable(sys, s) && s.stored == Some(true) && s.version == 0
    requires op in s.calls && s.calls[op] == FRESH
    ensures Reachable(sys, s.(calls := s.calls[op := HAS_READ]))
  {
    assert s == s.(calls := s.calls[op := FRESH]);
    MoveOn(sys, s, op, FRESH, WATCHING);
    MoveOn(sys, s, op, WATCHING, HAS_READ);
  }

  /** The first EXEC after that commits. */
  lemma Commits(deliveries: nat, s: State<bool>, op: Op)
    requires Reachable(Race(deliveries), s) && s.stored == Some(true) && s.version == 0 && s.log == []
    requires op in s.calls && s.calls[op] == HAS_READ
    ensures var calls := s.calls[op := Call(Done(Committed), 0, op < deliveries)];
            Reachable(Race(deliveries), State(Some(false), 1, [op], calls))
  {
    assert s.log + [op] == [op];
    var calls := s.calls[op := Call(Done(Committed), 0, op < deliveries)];
    Reach(Race(deliveries), s, op, State(Some(false), 1, [op], calls));
  }

  /** A client that read too early loses its EXEC, tries again, finds nothing to
      do, and reports all the same. */
  lemma Mislead(deliveries: nat, log: seq<Op>, calls: map<Op, Call<bool>>, op: Op)
    requires op < deliveries && op in calls && calls[op] == HAS_READ
    requires Reachable(Race(deliveries), State(Some(false), 1, log, calls))
    ensures Reachable(Race(deliveries), State(Some(false), 1, log, calls[op := MISLED]))
  {
    var sys := Race(deliveries);
    var s0 := State(Some(false), 1, log, calls);
    Reach(sys, s0, op, s0.(calls := calls[op := AGAIN]));
    MoveOn(sys, s0, op, AGAIN, REWATCHING);
    MoveOn(sys, s0, op, REWATCHING, REREAD);
    MoveOn(sys, s0, op, REREAD, MISLED);
  }

  /** The calls of n clients of which the first k have read. */
  function Reading(n: nat, k: nat): map<Op, Call<bool>>
  {
    map op: Op | op in Below(n) :: if op < k then HAS_READ else FRESH
  }

  /** All clients up to k read before anyone writes. */
  lemma {:induction false} AllRead(sys: System<bool>, n: nat, k: nat)
    requires k <= n && sys.init == Some(true)
    ensures Reachable(sys, State(Some(true), 0, [], Reading(n, k)))
  {
    if k == 0 {
      NothingYet(sys, n);
    } else {
      AllRead(sys, n, k - 1);
      Reads(sys, State(Some(true), 0, [], Reading(n, k - 1)), k - 1);
      NextReads(n, k);
    }
  }

  lemma NextReads(n: nat, k: nat)
    requires 0 < k <= n
    ensures k - 1 in Reading(n, k - 1) && Reading(n, k - 1)[k - 1] == FRESH
    ensures Reading(n, k - 1)[k - 1 := HAS_READ] == Reading(n, k)
  {
  }

  lemma NothingYet(sys: System<bool>, n: nat)
    requires sys.init == Some(true)
    ensures Reachable(sys, State(Some(true), 0, [], Reading(n, 0)))
  {
    var s := State(Some(true), 0, [], Reading(n, 0));
    var none: seq<Op> := [];
    assert Run(sys, [s], none) && [s][|none|] == s;
  }

  /** The first client has won, the next ones up to j were misled by a lost EXEC,
      those up to k still hold what they read. */
  function AfterWin(n: nat, k: nat, j: nat): map<Op, Call<bool>>
  {
    map op: Op | op in Below(n) ::
      if op == 0 then WON else if op < j then MISLED else if op < k then HAS_READ else FRESH
  }

  lemma {:induction false} AllMisled(deliveries: nat, n: nat, k: nat, j: nat)
    requires 1 <= j <= k <= n && k <= deliveries
    ensures Reachable(Race(deliveries), State(Some(false), 1, [0], AfterWin(n, k, j)))
  {
    if j == 1 {
      FirstWins(deliveries, n, k);
    } else {
      AllMisled(deliveries, n, k, j - 1);
      NextMisled(n, k, j);
      Mislead(deliveries, [0], AfterWin(n, k, j - 1), j - 1);
    }
  }

  lemma FirstWins(deliveries: nat, n: nat, k: nat)
    requires 1 <= k <= n && k <= deliveries
    ensures Reachable(Race(deliveries), State(Some(false), 1, [0], AfterWin(n, k, 1)))
  {
    AllRead(Race(deliveries), n, k);
    Commits(deliveries, State(Some(true), 0, [], Reading(n, k)), 0);
    assert Reading(n, k)[0 := WON] == AfterWin(n, k, 1);
  }

  lemma NextMisled(n: nat, k: nat, j: nat)
    requires 1 < j <= k <= n
    ensures j - 1 in AfterWin(n, k, j - 1) && AfterWin(n, k, j - 1)[j - 1] == HAS_READ
    ensures AfterWin(n, k, j - 1)[j - 1 := MISLED] == AfterWin(n, k, j)
  {
  }

  /** Only deliveries report. */
  lemma OnlyDeliveriesReport(deliveries: nat, s: State<bool>)
    requires Reachable(Race(deliveries), s)
    ensures Reporters(s) <= Below(deliveries)
  {
    var sys := Race(deliveries);
    var states: seq<State<bool>>, ops: seq<Op> :| Run(sys, states, ops) && states[|ops|] == s;
    forall op | op in Reporters(s) ensures op < deliveries {
      if op >= deliveries {
        FlagExactly(sys, states, ops, |ops|, op);
      }
    }
  }

  lemma SubsetSize(a: set<Op>, b: set<Op>)
    requires a <= b
    ensures |a| <= |b|
  {
    assert b == a + (b - a);
  }

  /** One signal, any number of clients: k of them can be told that they consumed
      it exactly when at least k of them deliver. Two reports are possible
      exactly from two deliveries on. */
  lemma ReportsExactlyUpToDeliveries(deliveries: nat, clients: nat, k: nat)
    requires deliveries <= clients
    ensures CanReport(deliveries, clients, k) <==> k <= deliveries
  {
    var sys := Race(deliveries);
    if CanReport(deliveries, clients, k) {
      var s: State<bool> :| Reachable(sys, s) && s.calls.Keys == Below(clients) && |Reporters(s)| == k;
      OnlyDeliveriesReport(deliveries, s);
      SubsetSize(Reporters(s), Below(deliveries));
      BelowSize(deliveries);
    }
    if k <= deliveries {
      var s: State<bool>;
      if k == 0 {
        AllRead(sys, clients, 0);
        s := State(Some(true), 0, [], Reading(clients, 0));
      } else {
        AllMisled(deliveries, clients, k, k);
        s := State(Some(false), 1, [0], AfterWin(clients, k, k));
      }
      assert Reporters(s) == Below(k);
      BelowSize(k);
    }
  }

  /** Two deliveries, one commit, two reports. */
  lemma SignalConsumedTwice()
    ensures exists s: State<bool> :: Reachable(Race(2), s) && s.log == [0] && Reporters(s) == {0, 1}
  {
    AllMisled(2, 2, 2, 2);
    assert Reporters(State(Some(false), 1, [0], AfterWin(2, 2, 2))) == {0, 1};
  }

  /** Commits are never taken back. */
  lemma {:induction false} LogGrows<V>(sys: System<V>, states: seq<State<V>>, ops: seq<Op>, i: nat, j: nat)
    requires Run(sys, states, ops) && i <= j < |states|
    ensures states[i].log <= states[j].log
    decreases j
  {
    if i < j {
      LogGrows(sys, states, ops, i, j - 1);
    }
  }

  ghost predicate ReportsUnconsumed(deliveries: nat, clients: nat, s: State<bool>)
  {
    && Reachable(Race(deliveries), s) && s.calls.Keys == Below(clients)
    && Reporters(s) != {} && forall op :: op in s.log ==> op >= deliveries
  }

  /** A delivery can report although none ever consumed the signal exactly when
      there is one, and a timeout that may come between its read and its EXEC. */
  lemma ReportWithoutConsumptionExactlyWhen(deliveries: nat, clients: nat)
    requires deliveries <= clients
    ensures (exists s: State<bool> :: ReportsUnconsumed(deliveries, clients, s)) <==> 0 < deliveries < clients
  {
    if s: State<bool> :| ReportsUnconsumed(deliveries, clients, s) {
      UnconsumedNeedsTimeout(deliveries, clients, s);
    }
    if 0 < deliveries < clients {
      var s := TimeoutFirst(deliveries, clients);
    }
  }

  lemma UnconsumedNeedsTimeout(deliveries: nat, clients: nat, s: State<bool>)
    requires ReportsUnconsumed(deliveries, clients, s)
    ensures 0 < deliveries < clients
  {
    OnlyDeliveriesReport(deliveries, s);
    var op :| op in Reporters(s);
    var first := SomeoneCommitted(deliveries, s, op);
    assert first in Below(clients);
  }

  /** A marking attempt went through or was lost to a commit. */
  lemma SomeoneCommitted(deliveries: nat, s: State<bool>, op: Op) returns (first: Op)
    requires Reachable(Race(deliveries), s) && op in Reporters(s)
    ensures first in s.log && first in s.calls
  {
    var sys := Race(deliveries);
    var states: seq<State<bool>>, ops: seq<Op> :| Run(sys, states, ops) && states[|ops|] == s;
    FlagExactly(sys, states, ops, |ops|, op);
    var j: nat :| SetAt(sys, states, ops, |ops|, op, j);
    Serialisable(sys, states, ops, j);
    Serialisable(sys, states, ops, |ops|);
    assert states[j + 1] == Next(sys, states[j], ops[j]) && states[j + 1].log != [];
    LogGrows(sys, states, ops, j + 1, |ops|);
    first := s.log[0];
  }

  lemma TimeoutFirst(deliveries: nat, clients: nat) returns (s: State<bool>)
    requires 0 < deliveries < clients
    ensures ReportsUnconsumed(deliveries, clients, s)
  {
    AllRead(Race(deliveries), clients, 1);
    var s0 := State(Some(true), 0, [], Reading(clients, 1));
    Reads(Race(deliveries), s0, deliveries);
    var s1 := s0.(calls := s0.calls[deliveries := HAS_READ]);
    Commits(deliveries, s1, deliveries);
    var s2 := State(Some(false), 1, [deliveries], s1.calls[deliveries := Call(Done(Committed), 0, false)]);
    Mislead(deliveries, [deliveries], s2.calls, 0);
    s := s2.(calls := s2.calls[0 := MISLED]);
    assert 0 in Reporters(s);
    assert s.calls.Keys == Below(clients);
  }

  // ------------------------------------------------- cancels of one run

  /** The stored value is "still live". Cancelling ends the run and sets the
      flag; a run that has ended is written back as it is, without setting it. */
  function CancelOnce(live: bool): Answer<bool>
  {
    Write(false, live)
  }

  function Cancels(): System<bool>
  {
    System(Some(true), (op: Op) => CancelOnce, (op: Op) => Flag(false, false))
  }

  function UpTo(n: nat): (ops: seq<Op>)
    ensures |ops| == n && forall i :: 0 <= i < n ==> ops[i] == i
  {
    seq(n, (i: nat) => i)
  }

  /** The first client has cancelled the run, the next ones up to j have written
      it back after a lost EXEC, the others still hold what they read. */
  function AfterCancels(n: nat, j: nat): map<Op, Call<bool>>
  {
    map op: Op | op in Below(n) ::
      if op == 0 then WON else if op < j then Call(Done(Committed), 1, true) else HAS_READ
  }

  lemma CancelWins(n: nat)
    requires n > 0
    ensures Reachable(Cancels(), State(Some(false), 1, UpTo(1), AfterCancels(n, 1)))
  {
    var s := State(Some(true), 0, [], Reading(n, n));
    AllRead(Cancels(), n, n);
    assert s.calls[0 := WON] == AfterCancels(n, 1) && s.log + [0] == UpTo(1);
    Reach(Cancels(), s, 0, State(Some(false), 1, UpTo(1), AfterCancels(n, 1)));
  }

  /** A cancel that read the live run loses its EXEC and reads the ended run. */
  lemma CancelsAgain(s: State<bool>, op: Op)
    requires Reachable(Cancels(), s) && op in s.calls && s.calls[op] == HAS_READ
    requires s.stored == Some(false) && s.version > 0
    ensures Reachable(Cancels(), s.(calls := s.calls[op := Call(Read(s.version, Some(false)), 1, true)]))
  {
    var sys := Cancels();
    Reach(sys, s, op, s.(calls := s.calls[op := AGAIN]));
    MoveOn(sys, s, op, AGAIN, Call(Watched(s.version), 1, true));
    MoveOn(sys, s, op, Call(Watched(s.version), 1, true), Call(Read(s.version, Some(false)), 1, true));
  }

  /** And writes it back. */
  lemma WritesBack(s: State<bool>, op: Op)
    requires Reachable(Cancels(), s) && s.stored == Some(false)
    requires op in s.calls && s.calls[op] == Call(Read(s.version, Some(false)), 1, true)
    ensures Reachable(Cancels(), State(Some(false), s.version + 1, s.log + [op],
                                       s.calls[op := Call(Done(Committed), 1, true)]))
  {
    Reach(Cancels(), s, op, Next(Cancels(), s, op));
  }

  lemma NextCancels(n: nat, j: nat)
    requires 1 <= j < n && Reachable(Cancels(), State(Some(false), j, UpTo(j), AfterCancels(n, j)))
    ensures Reachable(Cancels(), State(Some(false), j + 1, UpTo(j + 1), AfterCancels(n, j + 1)))
  {
    var calls := AfterCancels(n, j);
    var s := State(Some(false), j, UpTo(j), calls);
    var reread: map<Op, Call<bool>> := calls[j := Call(Read(j, Some(false)), 1, true)];
    CancelsAgain(s, j);
    WritesBack(s.(calls := reread), j);
    NextCancelled(n, j, reread[j]);
  }

  lemma NextCancelled(n: nat, j: nat, c: Call<bool>)
    requires 1 <= j < n
    ensures AfterCancels(n, j)[j := c][j := Call(Done(Committed), 1, true)] == AfterCancels(n, j + 1)
    ensures UpTo(j) + [j] == UpTo(j + 1)
  {
  }

  lemma {:induction false} AllCancel(n: nat, j: nat)
    requires 1 <= j <= n
    ensures Reachable(Cancels(), State(Some(false), j, UpTo(j), AfterCancels(n, j)))
  {
    if j == 1 {
      CancelWins(n);
    } else {
      AllCancel(n, j - 1);
      NextCancels(n, j - 1);
    }
  }

  /** Once a run is cancelled it stays so. */
  lemma {:induction false} StaysCancelled(states: seq<State<bool>>, ops: seq<Op>, j: nat, k: nat)
    requires Run(Cancels(), states, ops) && j <= k < |states| && states[j].stored == Some(false)
    ensures states[k].stored == Some(false)
    decreases k
  {
    if j < k {
      StaysCancelled(states, ops, j, k - 1);
    }
  }

  /** At most one cancel ends the run: no two attempts that found it live go
      through. */
  lemma OneCancelWins(states: seq<State<bool>>, ops: seq<Op>, j: nat, k: nat)
    requires Run(Cancels(), states, ops) && j < k < |ops|
    requires Wins(Cancels(), states[j], ops[j])
    ensures !Wins(Cancels(), states[k], ops[k])
  {
    assert states[j + 1] == Next(Cancels(), states[j], ops[j]);
    StaysCancelled(states, ops, j + 1, k);
    Serialisable(Cancels(), states, ops, k);
  }

  /** Any number of racing cancels of one live run can all commit and all report
      that they cancelled it, so that each closes its tasks and logs the event:
      the first ended it, the others wrote the ended run back. */
  lemma EveryCancelReports(n: nat)
    requires n > 0
    ensures exists s: State<bool> ::
              && Reachable(Cancels(), s) && s.calls.Keys == Below(n)
              && s.stored == Some(false) && s.log == UpTo(n) && Reporters(s) == Below(n)
  {
    AllCancel(n, n);
    var s := State(Some(false), n, UpTo(n), AfterCancels(n, n));
    assert Reporters(s) == Below(n) && s.calls.Keys == Below(n);
  }
}
