/** Saga rollback: which steps a failed run undoes, and in which order. */
module Rollback {
  import opened Domain
  import opened DottedKeys
  import opened Runs

  // ------------------------------------------------- the completed steps

  /** A step.succeeded event that puts its step among those to undo. */
  predicate Counts(steps: seq<Step>, e: Event, exclude: Key)
  {
    && e.kind.StepSucceeded? && e.step != [] && e.step != exclude
    && StepById(steps, e.step).Some? && !StepById(steps, e.step).value.kind.End?
  }

  function Ids(s: seq<Step>): (ids: seq<Key>)
    ensures |ids| == |s|
    ensures forall i :: 0 <= i < |s| ==> ids[i] == s[i].id
  {
    if s == [] then [] else [s[0].id] + Ids(s[1..])
  }

  function Completed(steps: seq<Step>, events: seq<Event>, exclude: Key): (out: seq<Step>)
    ensures forall s :: s in out ==> StepById(steps, s.id) == Some(s)
  {
    if events == [] then []
    else
      var out := Completed(steps, events[..|events| - 1], exclude);
      var e := events[|events| - 1];
      if Counts(steps, e, exclude) && e.step !in Ids(out) then out + [StepById(steps, e.step).value] else out
  }

  /** Event n is the first to complete its step. */
  predicate FirstAt(steps: seq<Step>, events: seq<Event>, exclude: Key, n: nat)
    requires n < |events|
  {
    && Counts(steps, events[n], exclude)
    && forall m :: 0 <= m < n ==> !(Counts(steps, events[m], exclude) && events[m].step == events[n].step)
  }

  /** out lists exactly the steps that completed, each once, in the order of
      their first completions; `at` are the positions of these in the log. */
  ghost predicate CompletionOrder(out: seq<Step>, at: seq<nat>, steps: seq<Step>, events: seq<Event>, exclude: Key)
  {
    && |at| == |out|
    && (forall i, j :: 0 <= i < j < |at| ==> at[i] < at[j])
    && (forall n: nat :: n in at <==> n < |events| && FirstAt(steps, events, exclude, n))
    && (forall i :: 0 <= i < |at| && at[i] < |events| ==> StepById(steps, events[at[i]].step) == Some(out[i]))
  }

  lemma {:induction false} CompletedIsCompletionOrder(steps: seq<Step>, events: seq<Event>, exclude: Key)
    returns (at: seq<nat>)
    ensures CompletionOrder(Completed(steps, events, exclude), at, steps, events, exclude)
  {
    at := [];
    if events != [] {
      var n := |events| - 1;
      var before := events[..n];
      at := CompletedIsCompletionOrder(steps, before, exclude);
      LastIsFirst(steps, events, exclude);
      OrderSnoc(Completed(steps, before, exclude), at, steps, events, exclude);
      if FirstAt(steps, events, exclude, n) {
        at := at + [n];
      }
    }
  }

  lemma OrderSnoc(out: seq<Step>, at: seq<nat>, steps: seq<Step>, events: seq<Event>, exclude: Key)
    requires events != [] && CompletionOrder(out, at, steps, events[..|events| - 1], exclude)
    ensures var n := |events| - 1;
            if FirstAt(steps, events, exclude, n)
            then CompletionOrder(out + [StepById(steps, events[n].step).value], at + [n], steps, events, exclude)
            else CompletionOrder(out, at, steps, events, exclude)
  {
    EarlierUnchanged(steps, events, exclude);
    var n := |events| - 1;
    forall i | 0 <= i < |at| ensures at[i] < n && events[..n][at[i]] == events[at[i]] {
      assert at[i] in at;
    }
  }

  lemma EarlierUnchanged(steps: seq<Step>, events: seq<Event>, exclude: Key)
    requires events != []
    ensures forall m :: 0 <= m < |events| - 1 ==>
              (FirstAt(steps, events, exclude, m) <==> FirstAt(steps, events[..|events| - 1], exclude, m))
  {
  }

  /** Some event of the log completes the step. */
  ghost predicate CompletedIn(steps: seq<Step>, events: seq<Event>, exclude: Key, id: Key)
  {
    exists m :: 0 <= m < |events| && Counts(steps, events[m], exclude) && events[m].step == id
  }

  lemma CompletedInSnoc(steps: seq<Step>, events: seq<Event>, exclude: Key, id: Key)
    requires events != []
    ensures var n := |events| - 1;
            (CompletedIn(steps, events, exclude, id) <==>
             || CompletedIn(steps, events[..n], exclude, id)
             || (Counts(steps, events[n], exclude) && events[n].step == id))
  {
    var n := |events| - 1;
    assert forall m :: 0 <= m < n ==> events[..n][m] == events[m];
  }

  lemma LastIsFirst(steps: seq<Step>, events: seq<Event>, exclude: Key)
    requires events != []
    ensures var n := |events| - 1;
            var prev := Completed(steps, events[..n], exclude);
            FirstAt(steps, events, exclude, n) <==> Counts(steps, events[n], exclude) && events[n].step !in Ids(prev)
  {
    var n := |events| - 1;
    CompletedBefore(steps, events[..n], exclude, events[n].step);
    assert forall m :: 0 <= m < n ==> events[..n][m] == events[m];
  }

  /** A step is among the completed ones exactly when some event completes it. */
  lemma {:induction false} CompletedBefore(steps: seq<Step>, events: seq<Event>, exclude: Key, id: Key)
    ensures id in Ids(Completed(steps, events, exclude)) <==> CompletedIn(steps, events, exclude, id)
  {
    if events != [] {
      var n := |events| - 1;
      var prev := Completed(steps, events[..n], exclude);
      CompletedBefore(steps, events[..n], exclude, id);
      CompletedInSnoc(steps, events, exclude, id);
      var e := events[n];
      if Counts(steps, e, exclude) {
        IdsSnoc(prev, StepById(steps, e.step).value);
      }
    }
  }

  lemma {:induction false} IdsSnoc(s: seq<Step>, x: Step)
    ensures Ids(s + [x]) == Ids(s) + [x.id]
  {
  }

  /** No step is listed twice, and neither the failed step nor an end step is. */
  lemma CompletionOrderIds(out: seq<Step>, at: seq<nat>, steps: seq<Step>, events: seq<Event>, exclude: Key)
    requires CompletionOrder(out, at, steps, events, exclude)
    ensures forall i, j :: 0 <= i < j < |out| ==> out[i].id != out[j].id
    ensures forall i :: 0 <= i < |out| ==> out[i].id != exclude && out[i].id != [] && !out[i].kind.End?
  {
    forall i | 0 <= i < |out| ensures at[i] < |events| && FirstAt(steps, events, exclude, at[i]) {
      assert at[i] in at;
    }
  }

  /** The declarative reading leaves no choice. */
  lemma CompletionOrderIsUnique(out: seq<Step>, at: seq<nat>, out': seq<Step>, at': seq<nat>,
                                steps: seq<Step>, events: seq<Event>, exclude: Key)
    requires CompletionOrder(out, at, steps, events, exclude)
    requires CompletionOrder(out', at', steps, events, exclude)
    ensures out == out' && at == at'
  {
    IncreasingUnique(at, at');
    forall i | 0 <= i < |at| ensures at[i] < |events| { assert at[i] in at; }
    forall i | 0 <= i < |out| ensures out[i] == out'[i] {
      assert StepById(steps, events[at[i]].step) == Some(out[i]);
    }
  }

  lemma {:induction false} IncreasingUnique(s: seq<nat>, t: seq<nat>)
    requires forall i, j :: 0 <= i < j < |s| ==> s[i] < s[j]
    requires forall i, j :: 0 <= i < j < |t| ==> t[i] < t[j]
    requires forall n: nat :: n in s <==> n in t
    ensures s == t
    decreases |s|
  {
    assert s != [] ==> s[|s| - 1] in t;
    assert t != [] ==> t[|t| - 1] in s;
    if s != [] {
      var a, b := s[..|s| - 1], t[..|t| - 1];
      assert s[|s| - 1] == t[|t| - 1];
      assert s == a + [s[|s| - 1]] && t == b + [t[|t| - 1]];
      forall n ensures n in a <==> n in b {
        assert n in a ==> n in s && n < s[|s| - 1];
        assert n in b ==> n in t && n < t[|t| - 1];
      }
      IncreasingUnique(a, b);
    }
  }

  /** The loop that builds the list, with its `seen` map. */
  method CompletedCompensableSteps(steps: seq<Step>, events: seq<Event>, exclude: Key) returns (out: seq<Step>)
    ensures out == Completed(steps, events, exclude)
  {
    out := [];
    var seen: set<Key> := {};
    for i := 0 to |events|
      invariant out == Completed(steps, events[..i], exclude)
      invariant forall id :: id in seen <==> id in Ids(out)
    {
      assert events[..i + 1][..i] == events[..i];
      var e := events[i];
      if !e.kind.StepSucceeded? {
        continue;
      }
      if e.step == [] || e.step == exclude || e.step in seen {
        continue;
      }
      var step := StepById(steps, e.step);
      if step.None? || step.value.kind.End? {
        continue;
      }
      seen := seen + {e.step};
      IdsSnoc(out, step.value);
      out := out + [step.value];
    }
    assert events[..|events|] == events;
  }

  // ------------------------------------------------- the rollback itself

  /** A compensation the engine tried to dispatch, and whether that worked. */
  datatype Undo = Undo(step: Key, action: Key, ok: bool)

  /** Delivery of the n-th dispatch of the engine, as the transport has it. */
  type Transport = nat -> bool

  predicate Delivered(action: Key, n: nat, transport: Transport)
  {
    WellNamed(action) && transport(n)
  }

  /** Newest first, skipping steps without a compensation; n dispatches precede. */
  function UndoLog(completed: seq<Step>, n: nat, transport: Transport): seq<Undo>
  {
    if completed == [] then []
    else
      var s, rest := completed[|completed| - 1], completed[..|completed| - 1];
      if s.compensation.None? then UndoLog(rest, n, transport)
      else
        var action := s.compensation.value.action;
        [Undo(s.id, action, Delivered(action, n, transport))] + UndoLog(rest, n + 1, transport)
  }

  /** How many attempts ended that way. */
  function Ended(log: seq<Undo>, ok: bool): nat
  {
    if log == [] then 0
    else Ended(log[..|log| - 1], ok) + if log[|log| - 1].ok == ok then 1 else 0
  }

  lemma EndedSnoc(log: seq<Undo>, from: nat, u: Undo)
    requires from <= |log|
    ensures Ended((log + [u])[from..], true) == Ended(log[from..], true) + if u.ok then 1 else 0
    ensures Ended((log + [u])[from..], false) == Ended(log[from..], false) + if u.ok then 0 else 1
  {
    var some := log[from..];
    assert (log + [u])[from..] == some + [u] && (some + [u])[..|some|] == some;
  }

  lemma UndoLogFirst(log: seq<Undo>, u: Undo, rest: seq<Undo>)
    ensures log + ([u] + rest) == (log + [u]) + rest
  {
  }

  /** The part of the coordinator that dispatches compensations. */
  class Dispatcher {
    var undo: seq<Undo>

    constructor ()
      ensures undo == []
    {
      undo := [];
    }

    /** The reverse loop of compensate. A failed dispatch is counted and passed
        over: what is counted as compensated was delivered, what is counted as
        failed was not, and the rest had nothing to compensate. */
    method Compensate(completed: seq<Step>, transport: Transport) returns (compensated: nat, skipped: nat, failed: nat)
      modifies this`undo
      ensures undo == old(undo) + UndoLog(completed, |old(undo)|, transport)
      ensures compensated + skipped + failed == |completed|
      ensures compensated == Ended(undo[|old(undo)|..], true) && failed == Ended(undo[|old(undo)|..], false)
      ensures compensated + failed == |undo| - |old(undo)|
    {
      compensated, skipped, failed := 0, 0, 0;
      var i := |completed|;
      assert completed[..|completed|] == completed;
      while i > 0
        invariant 0 <= i <= |completed|
        invariant |undo| >= |old(undo)|
        invariant undo + UndoLog(completed[..i], |undo|, transport)
               == old(undo) + UndoLog(completed, |old(undo)|, transport)
        invariant compensated + skipped + failed == |completed| - i
        invariant compensated + failed == |undo| - |old(undo)|
        invariant compensated == Ended(undo[|old(undo)|..], true) && failed == Ended(undo[|old(undo)|..], false)
      {
        i := i - 1;
        var step := completed[i];
        assert completed[..i + 1][..i] == completed[..i];
        if step.compensation.None? {
          skipped := skipped + 1;
          continue;
        }
        var action := step.compensation.value.action;
        var ok := WellNamed(action) && transport(|undo|);
        ghost var rest := UndoLog(completed[..i], |undo| + 1, transport);
        UndoLogFirst(undo, Undo(step.id, action, ok), rest);
        EndedSnoc(undo, |old(undo)|, Undo(step.id, action, ok));
        undo := undo + [Undo(step.id, action, ok)];
        if ok {
          compensated := compensated + 1;
        } else {
          failed := failed + 1;
        }
      }
      assert completed[..0] == [];
    }
  }

  /** A step to undo, and its own compensation. */
  datatype Target = Target(step: Key, action: Key)

  /** What a log attempted. */
  function Undone(log: seq<Undo>): (ts: seq<Target>)
    ensures |ts| == |log|
    ensures forall i :: 0 <= i < |log| ==> ts[i] == Target(log[i].step, log[i].action)
  {
    if log == [] then [] else [Target(log[0].step, log[0].action)] + Undone(log[1..])
  }

  /** Those of the completed steps that have a compensation. */
  function Targets(completed: seq<Step>): seq<Target>
  {
    if completed == [] then []
    else TargetOf(completed[0]) + Targets(completed[1..])
  }

  function TargetOf(s: Step): seq<Target>
  {
    if s.compensation.Some? then [Target(s.id, s.compensation.value.action)] else []
  }

  function Reverse<T>(s: seq<T>): (r: seq<T>)
    ensures |r| == |s|
    ensures forall i :: 0 <= i < |s| ==> r[i] == s[|s| - 1 - i]
  {
    if s == [] then [] else Reverse(s[1..]) + [s[0]]
  }

  lemma {:induction false} TargetsSnoc(completed: seq<Step>, s: Step)
    ensures Targets(completed + [s]) == Targets(completed) + TargetOf(s)
  {
    if completed == [] {
      assert completed + [s] == [s] && [s][1..] == [];
    } else {
      assert (completed + [s])[1..] == completed[1..] + [s];
      TargetsSnoc(completed[1..], s);
    }
  }

  lemma UndoLogSnoc(rest: seq<Step>, s: Step, n: nat, transport: Transport)
    ensures UndoLog(rest + [s], n, transport)
         == if s.compensation.None? then UndoLog(rest, n, transport)
            else
              var action := s.compensation.value.action;
              [Undo(s.id, action, Delivered(action, n, transport))] + UndoLog(rest, n + 1, transport)
  {
    var all := rest + [s];
    assert all[|all| - 1] == s && all[..|all| - 1] == rest;
  }

  /** The undo law: what is attempted is exactly the completed steps that have a
      compensation, each with its own, in exact reverse order, whatever the
      transport does. */
  lemma {:induction false} UndoIsReverse(completed: seq<Step>, n: nat, transport: Transport)
    ensures Undone(UndoLog(completed, n, transport)) == Reverse(Targets(completed))
    decreases |completed|, 1
  {
    if completed != [] {
      var rest, s := completed[..|completed| - 1], completed[|completed| - 1];
      assert completed == rest + [s];
      UndoLastFirst(rest, s, n, transport);
    }
  }

  lemma UndoLastFirst(rest: seq<Step>, s: Step, n: nat, transport: Transport)
    ensures Undone(UndoLog(rest + [s], n, transport)) == Reverse(Targets(rest + [s]))
    decreases |rest|, 2
  {
    UndoLogSnoc(rest, s, n, transport);
    TargetsSnoc(rest, s);
    if s.compensation.Some? {
      var action := s.compensation.value.action;
      UndoIsReverse(rest, n + 1, transport);
      UndoneCons(Undo(s.id, action, Delivered(action, n, transport)), UndoLog(rest, n + 1, transport));
      ReverseSnoc(Targets(rest), Target(s.id, action));
    } else {
      UndoIsReverse(rest, n, transport);
      assert Targets(rest) + [] == Targets(rest);
    }
  }

  /** A dispatch that fails stops nothing: attempt i is marked with what became
      of the dispatch with its own number. */
  lemma {:induction false} EachHasItsDelivery(completed: seq<Step>, n: nat, transport: Transport, i: nat)
    requires i < |UndoLog(completed, n, transport)|
    ensures var u := UndoLog(completed, n, transport)[i]; u.ok == Delivered(u.action, n + i, transport)
    decreases |completed|
  {
    var rest, s := completed[..|completed| - 1], completed[|completed| - 1];
    if s.compensation.None? {
      EachHasItsDelivery(rest, n, transport, i);
    } else if i > 0 {
      EachHasItsDelivery(rest, n + 1, transport, i - 1);
    }
  }

  lemma UndoneCons(u: Undo, log: seq<Undo>)
    ensures Undone([u] + log) == [Target(u.step, u.action)] + Undone(log)
  {
    assert ([u] + log)[1..] == log;
  }

  lemma ReverseSnoc<T>(s: seq<T>, x: T)
    ensures Reverse(s + [x]) == [x] + Reverse(s)
  {
  }
}
