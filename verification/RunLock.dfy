/** The reference-counted per-run lock map: its two critical sections as code,
    and the whole locking protocol as interleaved atomic steps of any number of
    threads over any number of runs. */
module RunLock {
  import opened Domain

  // ------------------------------------------------- the critical sections

  class Lock {
    var refs: nat

    constructor ()
      ensures refs == 0
    {
      refs := 0;
    }
  }

  class Locks {
    var locks: map<string, Lock>

    ghost predicate Valid()
      reads this, locks.Values
    {
      && (forall r :: r in locks ==> locks[r].refs > 0)
      && (forall r, q :: r in locks && q in locks && locks[r] == locks[q] ==> r == q)
    }

    /** The map as run ID to reference count. */
    ghost function Counts(): map<string, nat>
      reads this, locks.Values
    {
      map r | r in locks :: locks[r].refs
    }

    constructor ()
      ensures Valid() && Counts() == map[]
    {
      locks := map[];
    }

    /** lock, up to the release of the map's mutex. */
    method Enter(runID: string) returns (rl: Lock)
      requires Valid()
      modifies this, locks.Values
      ensures Valid()
      ensures runID in locks && locks[runID] == rl
      ensures runID in old(locks) ==> locks == old(locks)
      ensures Counts() == old(Counts())[runID := if runID in old(Counts()) then old(Counts())[runID] + 1 else 1]
    {
      if runID in locks {
        rl := locks[runID];
      } else {
        rl := new Lock();
        locks := locks[runID := rl];
      }
      rl.refs := rl.refs + 1;
    }

    /** The unlock closure, after it released the run's own mutex. */
    method Leave(runID: string, rl: Lock)
      requires Valid() && runID in locks && locks[runID] == rl
      modifies this, locks.Values
      ensures Valid()
      ensures Counts() == if old(Counts())[runID] == 1 then old(Counts()) - {runID}
                          else old(Counts())[runID := old(Counts())[runID] - 1]
    {
      rl.refs := rl.refs - 1;
      if rl.refs == 0 {
        locks := locks - {runID};
      }
    }
  }

  // ------------------------------------------------- the protocol

  type Thread = nat
  type Obj = nat

  datatype Pc =
    | Idle
    | Calling(run: RunId)              // wants the map's mutex
    | Looking(run: RunId)              // holds it, entry not looked up yet
    | Found(run: RunId, obj: Obj)      // entry found or made, not yet counted
    | Counted(run: RunId, obj: Obj)    // refs++ done, mutex still held
    | Waiting(run: RunId, obj: Obj)    // mutex released, wants the run's lock
    | Holding(run: RunId, obj: Obj)    // inside Advance
    | Unlocked(run: RunId, obj: Obj)   // run's lock released, wants the mutex
    | Dropping(run: RunId, obj: Obj)   // mutex held again, refs-- to come
    | Dropped(run: RunId, obj: Obj)    // refs-- done, delete to come
    | Finishing                        // only the mutex left to release

  datatype LockObj = LockObj(refs: int, holder: Option<Thread>)

  datatype State = State(
    pcs: map<Thread, Pc>,
    mutex: Option<Thread>,
    locks: map<RunId, Obj>,
    objs: map<Obj, LockObj>)

  predicate HoldsMutex(pc: Pc)
  {
    pc.Looking? || pc.Found? || pc.Counted? || pc.Dropping? || pc.Dropped? || pc.Finishing?
  }

  /** Between the increment and the decrement. */
  predicate Counts(pc: Pc, o: Obj)
  {
    (pc.Counted? || pc.Waiting? || pc.Holding? || pc.Unlocked? || pc.Dropping?) && pc.obj == o
  }

  function Users(s: State, o: Obj): set<Thread>
  {
    set t | t in s.pcs && Counts(s.pcs[t], o)
  }

  predicate Init(s: State)
  {
    && (forall t :: t in s.pcs ==> s.pcs[t].Idle?)
    && s.mutex.None? && s.locks == map[] && s.objs == map[]
  }

  predicate CanStep(s: State, t: Thread)
    requires t in s.pcs
  {
    match s.pcs[t]
    case Calling(_) => s.mutex.None?
    case Unlocked(_, _) => s.mutex.None?
    case Waiting(_, o) => o in s.objs && s.objs[o].holder.None?
    case _ => true
  }

  /** One atomic step of thread t; run is the run an idle thread asks for, newObj
      the identity of a new lock object. */
  ghost predicate Next(s: State, s': State, t: Thread, run: RunId, newObj: Obj)
  {
    && t in s.pcs
    && CanStep(s, t)
    && match s.pcs[t]
       case Idle => s' == s.(pcs := s.pcs[t := Calling(run)])
       case Calling(r) => s' == s.(pcs := s.pcs[t := Looking(r)], mutex := Some(t))
       case Looking(r) =>
         if r in s.locks then s' == s.(pcs := s.pcs[t := Found(r, s.locks[r])])
         else
           && newObj !in s.objs
           && s' == s.(pcs := s.pcs[t := Found(r, newObj)],
                       locks := s.locks[r := newObj],
                       objs := s.objs[newObj := LockObj(0, None)])
       case Found(r, o) =>
         && o in s.objs
         && s' == s.(pcs := s.pcs[t := Counted(r, o)],
                     objs := s.objs[o := s.objs[o].(refs := s.objs[o].refs + 1)])
       case Counted(r, o) => s' == s.(pcs := s.pcs[t := Waiting(r, o)], mutex := None)
       case Waiting(r, o) =>
         s' == s.(pcs := s.pcs[t := Holding(r, o)], objs := s.objs[o := s.objs[o].(holder := Some(t))])
       case Holding(r, o) =>
         && o in s.objs
         && s' == s.(pcs := s.pcs[t := Unlocked(r, o)], objs := s.objs[o := s.objs[o].(holder := None)])
       case Unlocked(r, o) => s' == s.(pcs := s.pcs[t := Dropping(r, o)], mutex := Some(t))
       case Dropping(r, o) =>
         && o in s.objs
         && s' == s.(pcs := s.pcs[t := Dropped(r, o)],
                     objs := s.objs[o := s.objs[o].(refs := s.objs[o].refs - 1)])
       case Dropped(r, o) =>
         && o in s.objs
         && s' == s.(pcs := s.pcs[t := Finishing],
                     locks := if s.objs[o].refs == 0 then s.locks - {r} else s.locks)
       case Finishing => s' == s.(pcs := s.pcs[t := Idle], mutex := None)
  }

  // ------------------------------------------------- the invariant

  predicate Has(pc: Pc, r: RunId, o: Obj)
  {
    (pc.Found? || pc.Counted? || pc.Waiting? || pc.Holding? || pc.Unlocked? || pc.Dropping? || pc.Dropped?)
    && pc.run == r && pc.obj == o
  }

  ghost predicate Inv(s: State)
  {
    // the mutex is held exactly by the thread inside a critical section
    && (forall t :: t in s.pcs && HoldsMutex(s.pcs[t]) ==> s.mutex == Some(t))
    && (s.mutex.Some? ==> s.mutex.value in s.pcs && HoldsMutex(s.pcs[s.mutex.value]))
    // every entry names a live object of its own
    && (forall r :: r in s.locks ==> s.locks[r] in s.objs)
    && (forall r, q :: r in s.locks && q in s.locks && s.locks[r] == s.locks[q] ==> r == q)
    // a thread that has an object has the one in the map
    && (forall t, r, o :: t in s.pcs && Has(s.pcs[t], r, o) ==> r in s.locks && s.locks[r] == o)
    // counts and holders
    && (forall o :: o in s.objs ==> s.objs[o].refs == |Users(s, o)|)
    && (forall t, r, o :: t in s.pcs && s.pcs[t] == Holding(r, o) ==> o in s.objs && s.objs[o].holder == Some(t))
    && (forall o :: o in s.objs && s.objs[o].holder.Some? ==>
          s.objs[o].holder.value in s.pcs && s.pcs[s.objs[o].holder.value].Holding?
          && s.pcs[s.objs[o].holder.value].obj == o)
    // an entry nobody counts is about to be counted, or about to be deleted
    && (forall r :: r in s.locks && s.objs[s.locks[r]].refs == 0 ==>
          && s.mutex.Some?
          && (s.pcs[s.mutex.value] == Found(r, s.locks[r]) || s.pcs[s.mutex.value] == Dropped(r, s.locks[r])))
  }

  lemma InvInit(s: State)
    requires Init(s)
    ensures Inv(s)
  {
  }

  /** When one thread moves, an object gains or loses at most that thread. */
  lemma UsersMove(s: State, s': State, t: Thread, o: Obj)
    requires t in s.pcs && t in s'.pcs && s'.pcs == s.pcs[t := s'.pcs[t]]
    ensures |Users(s', o)| == |Users(s, o)| - (if Counts(s.pcs[t], o) then 1 else 0)
                            + (if Counts(s'.pcs[t], o) then 1 else 0)
  {
    var rest := set x | x in s.pcs && x != t && Counts(s.pcs[x], o);
    assert Users(s, o) == if Counts(s.pcs[t], o) then rest + {t} else rest;
    assert Users(s', o) == if Counts(s'.pcs[t], o) then rest + {t} else rest;
  }

  lemma InvNext(s: State, s': State, t: Thread, run: RunId, newObj: Obj)
    requires Inv(s) && Next(s, s', t, run, newObj)
    ensures Inv(s')
  {
    CountsKept(s, s', t, run, newObj);
    MutexKept(s, s', t, run, newObj);
    EntriesKept(s, s', t, run, newObj);
    HoldersKept(s, s', t, run, newObj);
    FreshlyUncounted(s, s', t, run, newObj);
  }

  lemma CountsKept(s: State, s': State, t: Thread, run: RunId, newObj: Obj)
    requires Inv(s) && Next(s, s', t, run, newObj)
    ensures forall o :: o in s'.objs ==> s'.objs[o].refs == |Users(s', o)|
  {
    forall o | o in s'.objs ensures s'.objs[o].refs == |Users(s', o)| {
      UsersMove(s, s', t, o);
      if o !in s.objs {
        forall x | x in Users(s, o) ensures false {
          assert Has(s.pcs[x], s.pcs[x].run, o);
        }
        assert Users(s, o) == {};
      }
    }
  }

  lemma MutexKept(s: State, s': State, t: Thread, run: RunId, newObj: Obj)
    requires Inv(s) && Next(s, s', t, run, newObj)
    ensures forall x :: x in s'.pcs && HoldsMutex(s'.pcs[x]) ==> s'.mutex == Some(x)
    ensures s'.mutex.Some? ==> s'.mutex.value in s'.pcs && HoldsMutex(s'.pcs[s'.mutex.value])
  {
  }

  lemma EntriesKept(s: State, s': State, t: Thread, run: RunId, newObj: Obj)
    requires Inv(s) && Next(s, s', t, run, newObj)
    ensures forall r :: r in s'.locks ==> s'.locks[r] in s'.objs
    ensures forall r, q :: r in s'.locks && q in s'.locks && s'.locks[r] == s'.locks[q] ==> r == q
    ensures forall x, r, o :: x in s'.pcs && Has(s'.pcs[x], r, o) ==> r in s'.locks && s'.locks[r] == o
  {
    var pc := s.pcs[t];
    forall x, r, o | x in s'.pcs && Has(s'.pcs[x], r, o) ensures r in s'.locks && s'.locks[r] == o {
      if x != t {
        assert Has(s.pcs[x], r, o);
        if pc.Dropped? && s.objs[pc.obj].refs == 0 {
          assert Has(pc, pc.run, pc.obj);
          assert Users(s, pc.obj) == {};
          assert x !in Users(s, pc.obj);
        }
      } else if !pc.Looking? {
        assert Has(pc, r, o);
      }
    }
  }

  lemma HoldingKept(s: State, s': State, t: Thread, run: RunId, newObj: Obj)
    requires Inv(s) && Next(s, s', t, run, newObj)
    ensures forall x, r, o :: x in s'.pcs && s'.pcs[x] == Holding(r, o) ==> o in s'.objs && s'.objs[o].holder == Some(x)
  {
    forall x, r, o | x in s'.pcs && s'.pcs[x] == Holding(r, o) ensures o in s'.objs && s'.objs[o].holder == Some(x) {
      if x != t {
        assert s.pcs[x] == Holding(r, o);
      }
    }
  }

  lemma HoldersKept(s: State, s': State, t: Thread, run: RunId, newObj: Obj)
    requires Inv(s) && Next(s, s', t, run, newObj)
    ensures forall x, r, o :: x in s'.pcs && s'.pcs[x] == Holding(r, o) ==> o in s'.objs && s'.objs[o].holder == Some(x)
    ensures forall o :: o in s'.objs && s'.objs[o].holder.Some? ==>
              s'.objs[o].holder.value in s'.pcs && s'.pcs[s'.objs[o].holder.value].Holding?
              && s'.pcs[s'.objs[o].holder.value].obj == o
  {
    HoldingKept(s, s', t, run, newObj);
    forall o | o in s'.objs && s'.objs[o].holder.Some?
      ensures s'.objs[o].holder.value in s'.pcs && s'.pcs[s'.objs[o].holder.value].Holding?
      ensures s'.pcs[s'.objs[o].holder.value].obj == o
    {
      if o in s.objs && s.objs[o].holder == s'.objs[o].holder {
        assert s.objs[o].holder.value in s.pcs;
      }
    }
  }

  lemma FreshlyUncounted(s: State, s': State, t: Thread, run: RunId, newObj: Obj)
    requires Inv(s) && Next(s, s', t, run, newObj)
    requires forall r :: r in s'.locks ==> s'.locks[r] in s'.objs
    ensures forall r :: r in s'.locks && s'.objs[s'.locks[r]].refs == 0 ==>
              s'.mutex.Some? && s'.mutex.value in s'.pcs
              && (s'.pcs[s'.mutex.value] == Found(r, s'.locks[r]) || s'.pcs[s'.mutex.value] == Dropped(r, s'.locks[r]))
  {
    var pc := s.pcs[t];
    forall r | r in s'.locks && s'.objs[s'.locks[r]].refs == 0
      ensures s'.mutex.Some? && s'.mutex.value in s'.pcs
      ensures s'.pcs[s'.mutex.value] == Found(r, s'.locks[r]) || s'.pcs[s'.mutex.value] == Dropped(r, s'.locks[r])
    {
      if pc.Found? || pc.Dropping? || pc.Dropped? {
        assert Has(pc, pc.run, pc.obj);
      }
    }
  }

  // ------------------------------------------------- what every run of it keeps

  datatype Choice = Choice(t: Thread, run: RunId, newObj: Obj)

  ghost predicate Run(states: seq<State>, choices: seq<Choice>)
  {
    && |states| == |choices| + 1
    && Init(states[0])
    && forall i :: 0 <= i < |choices| ==>
         Next(states[i], states[i + 1], choices[i].t, choices[i].run, choices[i].newObj)
  }

  lemma {:induction false} InvAlways(states: seq<State>, choices: seq<Choice>, i: nat)
    requires Run(states, choices) && i < |states|
    ensures Inv(states[i])
  {
    if i == 0 {
      InvInit(states[0]);
    } else {
      InvAlways(states, choices, i - 1);
      var c := choices[i - 1];
      InvNext(states[i - 1], states[i], c.t, c.run, c.newObj);
    }
  }

  /** At most one thread is inside Advance for a given run. */
  lemma MutualExclusion(states: seq<State>, choices: seq<Choice>, i: nat, t: Thread, u: Thread)
    requires Run(states, choices) && i < |states|
    requires t in states[i].pcs && u in states[i].pcs
    requires states[i].pcs[t].Holding? && states[i].pcs[u].Holding?
    requires states[i].pcs[t].run == states[i].pcs[u].run
    ensures t == u
  {
    InvAlways(states, choices, i);
    OneLockPerRun(states, choices, i, t, u);
  }

  /** All threads waiting for or holding a run's lock share one lock object. */
  lemma OneLockPerRun(states: seq<State>, choices: seq<Choice>, i: nat, t: Thread, u: Thread)
    requires Run(states, choices) && i < |states|
    requires t in states[i].pcs && u in states[i].pcs
    requires states[i].pcs[t].Holding? || states[i].pcs[t].Waiting?
    requires states[i].pcs[u].Holding? || states[i].pcs[u].Waiting?
    ensures states[i].pcs[t].run == states[i].pcs[u].run <==> states[i].pcs[t].obj == states[i].pcs[u].obj
  {
    InvAlways(states, choices, i);
    var p, q := states[i].pcs[t], states[i].pcs[u];
    assert Has(p, p.run, p.obj) && Has(q, q.run, q.obj);
  }

  function UsersOfRun(s: State, r: RunId): set<Thread>
  {
    set t | t in s.pcs
            && (s.pcs[t].Counted? || s.pcs[t].Waiting? || s.pcs[t].Holding? || s.pcs[t].Unlocked?
                || s.pcs[t].Dropping?)
            && s.pcs[t].run == r
  }

  /** refs is the number of threads between the increment and the decrement of
      the run; outside the critical sections an entry exists exactly when that
      number is positive, so the map never outgrows the runs in use. */
  lemma EntryIffCounted(states: seq<State>, choices: seq<Choice>, i: nat, r: RunId)
    requires Run(states, choices) && i < |states|
    ensures r in states[i].locks ==> states[i].locks[r] in states[i].objs
    ensures r in states[i].locks ==> states[i].objs[states[i].locks[r]].refs == |UsersOfRun(states[i], r)|
    ensures UsersOfRun(states[i], r) != {} ==> r in states[i].locks
    ensures states[i].mutex.None? ==> (r in states[i].locks <==> UsersOfRun(states[i], r) != {})
  {
    InvAlways(states, choices, i);
    var s := states[i];
    forall t | t in UsersOfRun(s, r) ensures r in s.locks && t in Users(s, s.locks[r]) {
      assert Has(s.pcs[t], r, s.pcs[t].obj);
    }
    if r in s.locks {
      var o := s.locks[r];
      forall t | t in Users(s, o) ensures t in UsersOfRun(s, r) {
        assert Has(s.pcs[t], s.pcs[t].run, o);
      }
      assert Users(s, o) == UsersOfRun(s, r);
    }
  }

  /** No deadlock: while some thread is not idle, some such thread can step. */
  lemma SomeoneCanStep(states: seq<State>, choices: seq<Choice>, i: nat, t: Thread) returns (u: Thread)
    requires Run(states, choices) && i < |states|
    requires t in states[i].pcs && !states[i].pcs[t].Idle?
    ensures u in states[i].pcs && !states[i].pcs[u].Idle? && CanStep(states[i], u)
  {
    InvAlways(states, choices, i);
    var s := states[i];
    if s.mutex.Some? {
      u := s.mutex.value;
    } else if s.pcs[t].Waiting? {
      var o := s.pcs[t].obj;
      assert Has(s.pcs[t], s.pcs[t].run, o);
      u := if s.objs[o].holder.Some? then s.objs[o].holder.value else t;
    } else {
      u := t;
    }
  }
}
