/** Cron triggers: the due list, the compare-and-swap claim, one polling pass,
    and the protocol of any number of dispatchers with unsynchronised clocks. */
module Cron {
  import opened Domain

  type Id = nat
  type Pod = nat

  /** What a trigger's config says: a duration, a parsed schedule, or neither. */
  datatype Plan = Every(d: int) | At(schedule: nat) | Unparsable

  datatype Trigger = Trigger(cron: bool, enabled: bool, plan: Plan, nextFire: Option<Time>, lastFired: Option<Time>)

  /** The cron library: the first instant a schedule fires after a given one. */
  type Library = (nat, Time) -> Time

  /** An interval counts from the clock of the pass. */
  function NextFire(lib: Library, plan: Plan, now: Time): (next: Option<Time>)
    ensures plan.Every? && plan.d > 0 ==> next == Some(now + plan.d)
    ensures plan.At? ==> next == Some(lib(plan.schedule, now))
    ensures plan.Unparsable? || (plan.Every? && plan.d <= 0) ==> next.None?
  {
    match plan
    case Every(d) => if d > 0 then Some(now + d) else None
    case At(schedule) => Some(lib(schedule, now))
    case Unparsable => None
  }

  predicate Due(t: Trigger, now: Time)
  {
    t.cron && t.enabled && t.nextFire.Some? && t.nextFire.value <= now
  }

  // ------------------------------------------------- the store and one pass

  datatype Listed = Listed(id: Id, at: Time, plan: Plan)

  predicate IsDue(l: Listed, triggers: map<Id, Trigger>, now: Time)
  {
    && l.id in triggers && Due(triggers[l.id], now)
    && l == Listed(l.id, triggers[l.id].nextFire.value, triggers[l.id].plan)
  }

  predicate Sorted(s: seq<Listed>)
  {
    forall i, j :: 0 <= i < j < |s| ==> s[i].at <= s[j].at
  }

  predicate Distinct(s: seq<Listed>)
  {
    forall i, j :: 0 <= i < j < |s| ==> s[i].id != s[j].id
  }

  function Insert(l: Listed, s: seq<Listed>): (r: seq<Listed>)
    ensures |r| == |s| + 1
    ensures forall x :: x in r <==> x in s || x == l
  {
    if s == [] || l.at <= s[0].at then [l] + s else [s[0]] + Insert(l, s[1..])
  }

  lemma {:induction false} InsertSorted(l: Listed, s: seq<Listed>)
    requires Sorted(s)
    ensures Sorted(Insert(l, s))
  {
    if s != [] && l.at > s[0].at {
      InsertSorted(l, s[1..]);
      var rest := Insert(l, s[1..]);
      forall i | 0 <= i < |rest| ensures s[0].at <= rest[i].at {
        assert rest[i] in rest;
      }
    }
  }

  lemma {:induction false} InsertDistinct(l: Listed, s: seq<Listed>)
    requires Distinct(s) && forall x :: x in s ==> x.id != l.id
    ensures Distinct(Insert(l, s))
  {
    if s != [] && l.at > s[0].at {
      assert forall x :: x in s[1..] ==> x in s;
      InsertDistinct(l, s[1..]);
      var rest := Insert(l, s[1..]);
      forall i | 0 <= i < |rest| ensures s[0].id != rest[i].id {
        assert rest[i] in rest;
      }
    }
  }

  /** The library sort by next_fire_at. */
  function SortByTime(s: seq<Listed>): (r: seq<Listed>)
    ensures |r| == |s|
    ensures forall x :: x in r <==> x in s
  {
    if s == [] then [] else Insert(s[0], SortByTime(s[1..]))
  }

  lemma {:induction false} SortByTimeSorts(s: seq<Listed>)
    ensures Sorted(SortByTime(s))
    ensures Distinct(s) ==> Distinct(SortByTime(s))
  {
    if s != [] {
      SortByTimeSorts(s[1..]);
      InsertSorted(s[0], SortByTime(s[1..]));
      if Distinct(s) {
        InsertDistinct(s[0], SortByTime(s[1..]));
      }
    }
  }

  class TriggerStore {
    var triggers: map<Id, Trigger>
    var runs: seq<Id>               // runs started, by trigger

    constructor (triggers: map<Id, Trigger>)
      ensures this.triggers == triggers && runs == []
    {
      this.triggers, runs := triggers, [];
    }

    /** The due triggers, oldest first; a positive limit keeps the oldest ones. */
    method ListDue(now: Time, limit: int) returns (out: seq<Listed>)
      ensures Sorted(out) && Distinct(out)
      ensures forall l :: l in out ==> IsDue(l, triggers, now)
      ensures limit > 0 ==> |out| <= limit
      ensures forall l :: IsDue(l, triggers, now) ==>
                l in out || (|out| == limit && forall x :: x in out ==> x.at <= l.at)
    {
      var found := [];
      var todo := triggers.Keys;
      while todo != {}
        invariant todo <= triggers.Keys
        invariant Distinct(found)
        invariant forall l :: l in found <==> IsDue(l, triggers, now) && l.id !in todo
        decreases |todo|
      {
        var id :| id in todo;
        todo := todo - {id};
        var t := triggers[id];
        if Due(t, now) {
          found := found + [Listed(id, t.nextFire.value, t.plan)];
        }
      }
      SortByTimeSorts(found);
      var sorted := SortByTime(found);
      out := sorted;
      if limit > 0 && |out| > limit {
        out := out[..limit];
        forall l | IsDue(l, triggers, now) && l !in out ensures forall x :: x in out ==> x.at <= l.at {
          assert l in sorted;
          var i :| 0 <= i < |sorted| && sorted[i] == l;
          assert i >= limit;
        }
      }
    }

    /** The compare-and-swap; it loses, without error, when the value moved. */
    method ClaimCronFire(id: Id, expected: Time, next: Time) returns (won: bool)
      modifies this`triggers
      ensures won <==> id in old(triggers) && old(triggers)[id].nextFire == Some(expected)
      ensures triggers == if won
                then old(triggers)[id := old(triggers)[id].(nextFire := Some(next), lastFired := Some(next))]
                else old(triggers)
    {
      won := false;
      if id in triggers && triggers[id].nextFire == Some(expected) {
        triggers := triggers[id := triggers[id].(nextFire := Some(next), lastFired := Some(next))];
        won := true;
      }
    }

    /** One polling pass over a due list. Alone, it moves every listed trigger
        with a usable plan from its listed window to the next one, unless the
        claim fails; it starts one run for each of these the tenant is entitled
        to, and touches nothing else. No error keeps it from the triggers after
        it, and the first one is returned. */
    method FireDue(lib: Library, now: Time, due: seq<Listed>, out: Outside) returns (firstErr: Option<Id>)
      requires forall l :: l in due ==> l.id in triggers && triggers[l.id].nextFire == Some(l.at)
      requires Distinct(due)
      modifies this
      ensures triggers.Keys == old(triggers).Keys
      ensures forall l :: l in due && Claims(lib, now, l, out) ==>
                triggers[l.id].nextFire == NextFire(lib, l.plan, now)
      ensures forall id :: id in triggers && !Moves(lib, now, due, id, out) ==> triggers[id] == old(triggers)[id]
      ensures runs == old(runs) + Fired(lib, now, due, out)
      ensures IsFirst(firstErr, lib, now, due, out)
    {
      firstErr := FireAll(lib, now, due, out);
      PassDone(lib, now, due, out, old(triggers), triggers);
      FirstErrorIsFirst(lib, now, due, out);
    }

    /** The loop of the pass. */
    method FireAll(lib: Library, now: Time, due: seq<Listed>, out: Outside) returns (firstErr: Option<Id>)
      requires forall l :: l in due ==> l.id in triggers && triggers[l.id].nextFire == Some(l.at)
      requires Distinct(due)
      modifies this
      ensures Passed(lib, now, due, out, old(triggers), triggers, |due|)
      ensures runs == old(runs) + Fired(lib, now, due, out)
      ensures firstErr == FirstError(lib, now, due, out)
    {
      firstErr := None;
      for i := 0 to |due|
        invariant Passed(lib, now, due, out, old(triggers), triggers, i)
        invariant runs == old(runs) + Fired(lib, now, due[..i], out)
        invariant firstErr == FirstError(lib, now, due[..i], out)
      {
        var l := due[i];
        PassNext(lib, now, due, i, out);
        ghost var before := triggers;
        var failed := FireOne(lib, now, l, out);
        PassOne(lib, now, due, out, old(triggers), before, triggers, i);
        if failed && firstErr.None? {
          firstErr := Some(l.id);
        }
      }
      assert due[..|due|] == due;
    }

    method FireOne(lib: Library, now: Time, l: Listed, out: Outside) returns (failed: bool)
      requires l.id in triggers && triggers[l.id].nextFire == Some(l.at)
      modifies this
      ensures triggers.Keys == old(triggers).Keys
      ensures forall id :: id in triggers && id != l.id ==> triggers[id] == old(triggers)[id]
      ensures if Claims(lib, now, l, out) then triggers[l.id].nextFire == NextFire(lib, l.plan, now)
              else triggers == old(triggers)
      ensures runs == old(runs) + if Fires(lib, now, l, out) then [l.id] else []
      ensures failed == Errs(lib, now, l, out)
    {
      failed := false;
      var next := NextFire(lib, l.plan, now);
      if next.None? {
        return;
      }
      if out.claimFails(l.id) {
        return true;
      }
      var won := ClaimCronFire(l.id, l.at, next.value);
      if won && out.entitled(l.id) {
        var launch := out.launch(l.id);
        if !launch.NotCreated? {
          runs := runs + [l.id];
        }
        failed := !launch.Started?;
      }
    }
  }

  /** Starting a run can fail before the run is created, or after it, when the
      first advance is not published. */
  datatype Launch = NotCreated | Unpublished | Started

  /** What the store, the license gate and the publisher answer in a pass. */
  datatype Outside = Outside(claimFails: Id -> bool, entitled: Id -> bool, launch: Id -> Launch)

  predicate Claims(lib: Library, now: Time, l: Listed, out: Outside)
  {
    NextFire(lib, l.plan, now).Some? && !out.claimFails(l.id)
  }

  predicate Fires(lib: Library, now: Time, l: Listed, out: Outside)
  {
    Claims(lib, now, l, out) && out.entitled(l.id) && !out.launch(l.id).NotCreated?
  }

  predicate Errs(lib: Library, now: Time, l: Listed, out: Outside)
  {
    NextFire(lib, l.plan, now).Some?
    && (out.claimFails(l.id) || (out.entitled(l.id) && !out.launch(l.id).Started?))
  }

  ghost predicate Moves(lib: Library, now: Time, due: seq<Listed>, id: Id, out: Outside)
  {
    exists l :: l in due && l.id == id && Claims(lib, now, l, out)
  }

  /** What the pass has done to the triggers after the first i of the list. */
  ghost predicate Passed(lib: Library, now: Time, due: seq<Listed>, out: Outside, before: map<Id, Trigger>,
                         after: map<Id, Trigger>, i: nat)
    requires i <= |due| && forall l :: l in due ==> l.id in before
  {
    && after.Keys == before.Keys
    && (forall k :: i <= k < |due| ==> after[due[k].id] == before[due[k].id])
    && (forall k :: 0 <= k < i && Claims(lib, now, due[k], out) ==>
          after[due[k].id].nextFire == NextFire(lib, due[k].plan, now))
    && (forall id :: id in after && !Moves(lib, now, due, id, out) ==> after[id] == before[id])
  }

  lemma PassOne(lib: Library, now: Time, due: seq<Listed>, out: Outside, before: map<Id, Trigger>,
                mid: map<Id, Trigger>, after: map<Id, Trigger>, i: nat)
    requires i < |due| && Distinct(due) && forall l :: l in due ==> l.id in before
    requires Passed(lib, now, due, out, before, mid, i)
    requires after.Keys == mid.Keys && forall id :: id in after && id != due[i].id ==> after[id] == mid[id]
    requires if Claims(lib, now, due[i], out) then after[due[i].id].nextFire == NextFire(lib, due[i].plan, now)
             else after == mid
    ensures Passed(lib, now, due, out, before, after, i + 1)
  {
    assert due[i] in due;
  }

  lemma PassDone(lib: Library, now: Time, due: seq<Listed>, out: Outside, before: map<Id, Trigger>,
                 after: map<Id, Trigger>)
    requires (forall l :: l in due ==> l.id in before) && Passed(lib, now, due, out, before, after, |due|)
    ensures after.Keys == before.Keys
    ensures forall l :: l in due && Claims(lib, now, l, out) ==> after[l.id].nextFire == NextFire(lib, l.plan, now)
    ensures forall id :: id in after && !Moves(lib, now, due, id, out) ==> after[id] == before[id]
  {
  }

  function Fired(lib: Library, now: Time, due: seq<Listed>, out: Outside): seq<Id>
  {
    if due == [] then []
    else (if Fires(lib, now, due[0], out) then [due[0].id] else []) + Fired(lib, now, due[1..], out)
  }

  /** The error returned is that of the first trigger that had one. */
  ghost predicate IsFirst(firstErr: Option<Id>, lib: Library, now: Time, due: seq<Listed>, out: Outside)
  {
    match firstErr
    case None => forall i :: 0 <= i < |due| ==> !Errs(lib, now, due[i], out)
    case Some(id) =>
      exists i :: 0 <= i < |due| && due[i].id == id && Errs(lib, now, due[i], out)
                  && forall j :: 0 <= j < i ==> !Errs(lib, now, due[j], out)
  }

  function ErrorOf(lib: Library, now: Time, l: Listed, out: Outside): Option<Id>
  {
    if Errs(lib, now, l, out) then Some(l.id) else None
  }

  function FirstError(lib: Library, now: Time, due: seq<Listed>, out: Outside): Option<Id>
  {
    if due == [] then None
    else if Errs(lib, now, due[0], out) then Some(due[0].id)
    else FirstError(lib, now, due[1..], out)
  }

  lemma {:induction false} FirstErrorIsFirst(lib: Library, now: Time, due: seq<Listed>, out: Outside)
    ensures IsFirst(FirstError(lib, now, due, out), lib, now, due, out)
  {
    if due != [] && !Errs(lib, now, due[0], out) {
      FirstErrorIsFirst(lib, now, due[1..], out);
      var first, rest := FirstError(lib, now, due[1..], out), due[1..];
      if first.Some? {
        var i :| 0 <= i < |rest| && rest[i].id == first.value && Errs(lib, now, rest[i], out)
                 && forall j :: 0 <= j < i ==> !Errs(lib, now, rest[j], out);
        assert due[i + 1] == rest[i];
        assert forall j :: 0 < j <= i ==> due[j] == rest[j - 1];
      } else {
        assert forall j :: 0 < j < |due| ==> due[j] == rest[j - 1];
      }
    }
  }

  lemma {:induction false} PassSnoc(lib: Library, now: Time, due: seq<Listed>, l: Listed, out: Outside)
    ensures Fired(lib, now, due + [l], out)
         == Fired(lib, now, due, out) + if Fires(lib, now, l, out) then [l.id] else []
    ensures FirstError(lib, now, due + [l], out)
         == var earlier := FirstError(lib, now, due, out); if earlier.Some? then earlier else ErrorOf(lib, now, l, out)
  {
    if due == [] {
      assert due + [l] == [l];
      assert [l][1..] == [];
    } else {
      assert (due + [l])[1..] == due[1..] + [l];
      PassSnoc(lib, now, due[1..], l, out);
    }
  }

  lemma PassNext(lib: Library, now: Time, due: seq<Listed>, i: nat, out: Outside)
    requires i < |due|
    ensures due[i] in due
    ensures Fired(lib, now, due[..i + 1], out)
         == Fired(lib, now, due[..i], out) + if Fires(lib, now, due[i], out) then [due[i].id] else []
    ensures FirstError(lib, now, due[..i + 1], out)
         == var earlier := FirstError(lib, now, due[..i], out);
            if earlier.Some? then earlier else ErrorOf(lib, now, due[i], out)
  {
    assert due[..i + 1] == due[..i] + [due[i]];
    PassSnoc(lib, now, due[..i], due[i], out);
  }

  // ------------------------------------------------- many dispatchers

  datatype Claim = Claim(id: Id, window: Time, next: Time)

  datatype Pc =
    | Idle
    | Polling(now: Time, todo: seq<Listed>)
    | Won(now: Time, todo: seq<Listed>, claim: nat)   // index into claims; run not started yet

  datatype State = State(nextFire: map<Id, Time>, pods: map<Pod, Pc>, claims: seq<Claim>, started: seq<nat>)

  datatype System = System(lib: Library, plans: map<Id, Plan>)

  datatype Step =
    | Poll(pod: Pod, now: Time, due: seq<Listed>)
    | TryClaim(pod: Pod)
    | Start(pod: Pod, entitled: bool)
    | Finish(pod: Pod)

  predicate Init(sys: System, s: State)
  {
    && s.nextFire.Keys <= sys.plans.Keys
    && (forall p :: p in s.pods ==> s.pods[p].Idle?)
    && s.claims == [] && s.started == []
  }

  /** Each pod polls by its own clock, which may be anything; the list it gets is
      any choice among the triggers due by that clock. */
  predicate Enabled(sys: System, s: State, step: Step)
  {
    && step.pod in s.pods
    && match step
       case Poll(pod, now, due) =>
         s.pods[pod].Idle? && forall l :: l in due ==>
           && l.id in s.nextFire && l.id in sys.plans && l.at <= now
           && l == Listed(l.id, s.nextFire[l.id], sys.plans[l.id])
       case TryClaim(pod) => s.pods[pod].Polling? && s.pods[pod].todo != []
       case Start(pod, _) => s.pods[pod].Won?
       case Finish(pod) => s.pods[pod].Polling? && s.pods[pod].todo == []
  }

  function Next(sys: System, s: State, step: Step): State
    requires Enabled(sys, s, step)
  {
    match step
    case Poll(pod, now, due) => s.(pods := s.pods[pod := Polling(now, due)])
    case TryClaim(pod) =>
      var now, l, rest := s.pods[pod].now, s.pods[pod].todo[0], s.pods[pod].todo[1..];
      var next := NextFire(sys.lib, l.plan, now);
      if next.Some? && l.id in s.nextFire && s.nextFire[l.id] == l.at then
        s.(nextFire := s.nextFire[l.id := next.value],
           claims := s.claims + [Claim(l.id, l.at, next.value)],
           pods := s.pods[pod := Won(now, rest, |s.claims|)])
      else s.(pods := s.pods[pod := Polling(now, rest)])
    case Start(pod, entitled) =>
      s.(started := if entitled then s.started + [s.pods[pod].claim] else s.started,
         pods := s.pods[pod := Polling(s.pods[pod].now, s.pods[pod].todo)])
    case Finish(pod) => s.(pods := s.pods[pod := Idle])
  }

  ghost predicate Run(sys: System, states: seq<State>, steps: seq<Step>)
  {
    && |states| == |steps| + 1
    && Init(sys, states[0])
    && forall i :: 0 <= i < |steps| ==>
         Enabled(sys, states[i], steps[i]) && states[i + 1] == Next(sys, states[i], steps[i])
  }

  /** Every plan's next instant lies after the clock it is computed from. */
  ghost predicate Advancing(sys: System)
  {
    forall id: Id, now: Time :: id in sys.plans ==>
      var n := NextFire(sys.lib, sys.plans[id], now); n.Some? ==> n.value > now
  }

  /** A trigger with an interval always does, and one whose config says nothing
      has no next instant: only calendar schedules can fail to. */
  lemma AdvancingMeans(sys: System)
    ensures Advancing(sys) <==>
              forall id: Id, now: Time :: id in sys.plans && sys.plans[id].At? ==>
                sys.lib(sys.plans[id].schedule, now) > now
  {
    if Advancing(sys) {
      forall id: Id, now: Time | id in sys.plans && sys.plans[id].At?
        ensures sys.lib(sys.plans[id].schedule, now) > now
      {
        assert NextFire(sys.lib, sys.plans[id], now).Some?;
      }
    }
  }

  ghost predicate Inv(sys: System, s: State)
  {
    s.nextFire.Keys <= sys.plans.Keys && ListingsReal(sys, s) && ClaimsOrdered(s) && ClaimsHeldOnce(s)
  }

  ghost predicate ListingsReal(sys: System, s: State)
  {
    forall p, l :: p in s.pods && !s.pods[p].Idle? && l in s.pods[p].todo ==>
      l.at <= s.pods[p].now && l.id in sys.plans && l.plan == sys.plans[l.id]
  }

  /** Windows of one trigger are claimed in strictly increasing order. */
  ghost predicate ClaimsOrdered(s: State)
  {
    && (forall i, j :: 0 <= i < j < |s.claims| && s.claims[i].id == s.claims[j].id ==>
          s.claims[i].next <= s.claims[j].window)
    && (forall i :: 0 <= i < |s.claims| ==> s.claims[i].window < s.claims[i].next)
    && (forall i :: 0 <= i < |s.claims| ==>
          s.claims[i].id in s.nextFire && s.claims[i].next <= s.nextFire[s.claims[i].id])
  }

  /** A claim is held by one pod until it is started, and started once. */
  ghost predicate ClaimsHeldOnce(s: State)
  {
    && (forall p :: p in s.pods && s.pods[p].Won? ==> s.pods[p].claim < |s.claims| && s.pods[p].claim !in s.started)
    && (forall p, q :: p in s.pods && q in s.pods && p != q && s.pods[p].Won? && s.pods[q].Won? ==>
          s.pods[p].claim != s.pods[q].claim)
    && (forall i :: 0 <= i < |s.started| ==> s.started[i] < |s.claims|)
    && (forall i, j :: 0 <= i < j < |s.started| ==> s.started[i] != s.started[j])
  }

  lemma PollKeeps(sys: System, s: State, pod: Pod, now: Time, due: seq<Listed>)
    requires Inv(sys, s) && Enabled(sys, s, Poll(pod, now, due))
    ensures Inv(sys, Next(sys, s, Poll(pod, now, due)))
  {
  }

  lemma ClaimKeeps(sys: System, s: State, pod: Pod)
    requires Advancing(sys) && Inv(sys, s) && Enabled(sys, s, TryClaim(pod))
    ensures Inv(sys, Next(sys, s, TryClaim(pod)))
  {
    ClaimKeepsOrder(sys, s, pod);
    ClaimHeldOnce(sys, s, pod);
    var s' := Next(sys, s, TryClaim(pod));
    forall p, x | p in s'.pods && !s'.pods[p].Idle? && x in s'.pods[p].todo
      ensures x.at <= s'.pods[p].now && x.id in sys.plans && x.plan == sys.plans[x.id]
    {
      assert x in s.pods[p].todo;
    }
  }

  lemma ClaimKeepsOrder(sys: System, s: State, pod: Pod)
    requires Advancing(sys) && Inv(sys, s) && Enabled(sys, s, TryClaim(pod))
    ensures Next(sys, s, TryClaim(pod)).nextFire.Keys == s.nextFire.Keys
    ensures ClaimsOrdered(Next(sys, s, TryClaim(pod)))
  {
    var s' := Next(sys, s, TryClaim(pod));
    var l := s.pods[pod].todo[0];
    assert l in s.pods[pod].todo && l.id in sys.plans;
    if s'.claims != s.claims {
      assert s'.claims[|s.claims|].window < s'.claims[|s.claims|].next;
      assert forall i :: 0 <= i < |s.claims| ==> s'.claims[i] == s.claims[i];
    }
  }

  lemma ClaimHeldOnce(sys: System, s: State, pod: Pod)
    requires Inv(sys, s) && Enabled(sys, s, TryClaim(pod))
    ensures ClaimsHeldOnce(Next(sys, s, TryClaim(pod)))
  {
    assert |s.claims| !in s.started;
  }

  lemma StartKeeps(sys: System, s: State, pod: Pod, entitled: bool)
    requires Inv(sys, s) && Enabled(sys, s, Start(pod, entitled))
    ensures Inv(sys, Next(sys, s, Start(pod, entitled)))
  {
    StartHeldOnce(sys, s, pod, entitled);
  }

  lemma StartHeldOnce(sys: System, s: State, pod: Pod, entitled: bool)
    requires Inv(sys, s) && Enabled(sys, s, Start(pod, entitled))
    ensures ClaimsHeldOnce(Next(sys, s, Start(pod, entitled)))
  {
    var s' := Next(sys, s, Start(pod, entitled));
    forall p | p in s'.pods && s'.pods[p].Won?
      ensures s'.pods[p].claim < |s'.claims| && s'.pods[p].claim !in s'.started
    {
      assert p != pod && s'.pods[p] == s.pods[p];
    }
  }

  lemma InvNext(sys: System, s: State, step: Step)
    requires Advancing(sys) && Inv(sys, s) && Enabled(sys, s, step)
    ensures Inv(sys, Next(sys, s, step))
  {
    match step
    case Poll(pod, now, due) => PollKeeps(sys, s, pod, now, due);
    case TryClaim(pod) => ClaimKeeps(sys, s, pod);
    case Start(pod, entitled) => StartKeeps(sys, s, pod, entitled);
    case Finish(pod) =>
  }

  lemma {:induction false} InvAlways(sys: System, states: seq<State>, steps: seq<Step>, i: nat)
    requires Advancing(sys) && Run(sys, states, steps) && i < |states|
    ensures Inv(sys, states[i])
  {
    if i > 0 {
      InvAlways(sys, states, steps, i - 1);
      InvNext(sys, states[i - 1], steps[i - 1]);
    }
  }

  /** No window of a trigger has two claims, and none has two runs. */
  ghost predicate EachWindowOnce(s: State)
  {
    && (forall i, j :: 0 <= i < j < |s.claims| ==>
          s.claims[i].id != s.claims[j].id || s.claims[i].window != s.claims[j].window)
    && (forall i :: 0 <= i < |s.started| ==> s.started[i] < |s.claims|)
    && (forall i, j :: 0 <= i < j < |s.started| ==>
          s.claims[s.started[i]].id != s.claims[s.started[j]].id
          || s.claims[s.started[i]].window != s.claims[s.started[j]].window)
  }

  ghost predicate FiresOncePerWindow(sys: System)
  {
    forall states: seq<State>, steps: seq<Step>, i: nat ::
      Run(sys, states, steps) && i < |states| ==> EachWindowOnce(states[i])
  }

  /** Across any number of pods with unrelated clocks, each window starts at most
      one run exactly when every plan's next instant lies after the clock. */
  lemma OncePerWindowExactlyWhen(sys: System)
    ensures FiresOncePerWindow(sys) <==> Advancing(sys)
  {
    if Advancing(sys) {
      forall states: seq<State>, steps: seq<Step>, i: nat | Run(sys, states, steps) && i < |states|
        ensures EachWindowOnce(states[i])
      {
        InvAlways(sys, states, steps, i);
        InvMeansOnce(sys, states[i]);
      }
    } else {
      var id: Id, now: Time :| id in sys.plans
        && NextFire(sys.lib, sys.plans[id], now).Some? && NextFire(sys.lib, sys.plans[id], now).value <= now;
      StalledPlanFiresTwice(sys, id, now);
    }
  }

  lemma InvMeansOnce(sys: System, s: State)
    requires Inv(sys, s)
    ensures EachWindowOnce(s)
  {
  }

  /** A schedule that yields an instant not after the clock keeps its trigger
      due, and the same window is claimed again on the next pass. */
  lemma StalledPlanFiresTwice(sys: System, id: Id, now: Time)
    requires id in sys.plans && NextFire(sys.lib, sys.plans[id], now).Some?
    requires NextFire(sys.lib, sys.plans[id], now).value <= now
    ensures !FiresOncePerWindow(sys)
  {
    var v := NextFire(sys.lib, sys.plans[id], now).value;
    var l := Listed(id, v, sys.plans[id]);
    var s0 := One(id, v, Idle, [], []);
    assert Run(sys, [s0], []);
    var states, steps := StalledPass(sys, id, now, v, [], [], [s0], []);
    var c := Claim(id, v, v);
    states, steps := StalledPass(sys, id, now, v, [c], [0], states, steps);
    var s := states[|steps|];
    assert s.claims == [c] + [c];
    assert s.claims[0] == s.claims[1] == c;
    assert !EachWindowOnce(s);
  }

  function One(id: Id, v: Time, pc: Pc, claims: seq<Claim>, started: seq<nat>): State
  {
    State(map[id := v], map[0 := pc], claims, started)
  }

  lemma Extend(sys: System, states: seq<State>, steps: seq<Step>, step: Step, s: State)
    requires Run(sys, states, steps) && Enabled(sys, states[|steps|], step) && s == Next(sys, states[|steps|], step)
    ensures Run(sys, states + [s], steps + [step])
  {
  }

  /** One whole pass of a single pod over a trigger whose window does not move. */
  lemma StalledPass(sys: System, id: Id, now: Time, v: Time, claims: seq<Claim>, started: seq<nat>,
                    states: seq<State>, steps: seq<Step>)
    returns (states': seq<State>, steps': seq<Step>)
    requires id in sys.plans && NextFire(sys.lib, sys.plans[id], now) == Some(v) && v <= now
    requires Run(sys, states, steps) && states[|steps|] == One(id, v, Idle, claims, started)
    ensures Run(sys, states', steps')
    ensures states'[|steps'|] == One(id, v, Idle, claims + [Claim(id, v, v)], started + [|claims|])
  {
    var l := Listed(id, v, sys.plans[id]);
    var polling := One(id, v, Polling(now, [l]), claims, started);
    var won := One(id, v, Won(now, [], |claims|), claims + [Claim(id, v, v)], started);
    var begun := One(id, v, Polling(now, []), claims + [Claim(id, v, v)], started + [|claims|]);
    var idle := One(id, v, Idle, claims + [Claim(id, v, v)], started + [|claims|]);
    Extend(sys, states, steps, Poll(0, now, [l]), polling);
    states', steps' := states + [polling], steps + [Poll(0, now, [l])];
    assert map[id := v][id := v] == map[id := v] && [l][1..] == [];
    Extend(sys, states', steps', TryClaim(0), won);
    states', steps' := states' + [won], steps' + [TryClaim(0)];
    Extend(sys, states', steps', Start(0, true), begun);
    states', steps' := states' + [begun], steps' + [Start(0, true)];
    Extend(sys, states', steps', Finish(0), idle);
    states', steps' := states' + [idle], steps' + [Finish(0)];
  }
}
