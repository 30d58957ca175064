/** Action attempts: each visit of an action step takes the next number, and
    worker reports settle each number at most once. */
module Attempts {
  import opened Domain
  import opened DottedKeys
  import opened Runs
  import opened Engine
  import opened Lifecycle

  // ------------------------------------------------- numbers are taken in order

  /** The action step of this visit has taken its number, or not yet. */
  predicate Taken(r: Run, snap: Run, step: Step)
  {
    r.attempt == snap.attempt + 1 && r.dispatch == Some(step.action) && r.state.Paused?
  }

  predicate Callable(step: Step)
  {
    step.kind.Action? && step.action != [] && WellNamed(step.action)
  }

  /** All the retries of one visit use the number above the last one. */
  lemma {:induction false} VisitTakesOneNumber(env: Env, w: World, snap: Run, step: Step, n: nat)
    requires n < Attempts(step) && Callable(step)
    requires w.run.attempt == snap.attempt || Taken(w.run, snap, step)
    ensures Taken(Attempt(env, w, snap, step, n).0.run, snap, step)
    decreases Attempts(step) - n
  {
    var (w1, out) := Once(env, w, snap, step);
    assert Taken(w1.run, snap, step);
    if out.Failing? && n + 1 < Attempts(step) {
      VisitTakesOneNumber(env, LogRetry(w1, step, n + 1), snap, step, n + 1);
    }
  }

  /** Other steps take none. */
  lemma {:induction false} OthersTakeNone(env: Env, w: World, snap: Run, step: Step, n: nat)
    requires n < Attempts(step) && !Callable(step)
    ensures var r := Attempt(env, w, snap, step, n).0.run;
            r.attempt == w.run.attempt && r.dispatch == w.run.dispatch
    decreases Attempts(step) - n
  {
    var (w1, out) := Once(env, w, snap, step);
    OnceTakesNone(env, w, snap, step);
    if out.Failing? && n + 1 < Attempts(step) {
      OthersTakeNone(env, LogRetry(w1, step, n + 1), snap, step, n + 1);
    }
  }

  lemma OnceTakesNone(env: Env, w: World, snap: Run, step: Step)
    requires !Callable(step)
    ensures var r := Once(env, w, snap, step).0.run;
            r.attempt == w.run.attempt && r.dispatch == w.run.dispatch
  {
    var reply := env.reply(w.calls, step.id);
    if reply.Pauses? {
      assert Marked(w.run, reply.mark, step.id).attempt == w.run.attempt;
    }
  }

  /** What an iteration does to the attempt number and the awaited dispatch: a
      callable action that is let through takes the next number, and nothing
      else touches either. */
  predicate NumbersMove(def: Definition, env: Env, r: Run, calls: nat, r': Run)
  {
    var found := StepById(def.steps, At(def, r));
    if !r.state.IsTerminal() && !r.state.Paused? && found.Some? && Callable(found.value)
        && env.license(calls).Granted? then
      r'.attempt == r.attempt + 1 && r'.dispatch == Some(found.value.action)
    else
      r'.attempt == r.attempt && r'.dispatch == r.dispatch
  }

  lemma AfterStepTakesNone(def: Definition, env: Env, w: World, snap: Run, step: Step, out: Outcome)
    ensures var r := AfterStep(def, env, w, snap, step, out).w.run;
            r.attempt == w.run.attempt && r.dispatch == w.run.dispatch
  {
  }

  lemma HandlerTakesNext(def: Definition, env: Env, w: World, snap: Run, step: Step)
    requires w.run.attempt == snap.attempt && w.run.dispatch == snap.dispatch
    ensures var r := HandlerTurn(def, env, w, snap, step).w.run;
            if Callable(step) then r.attempt == snap.attempt + 1 && r.dispatch == Some(step.action)
            else r.attempt == snap.attempt && r.dispatch == snap.dispatch
  {
    if Callable(step) {
      VisitTakesOneNumber(env, w, snap, step, 0);
    } else {
      OthersTakeNone(env, w, snap, step, 0);
    }
    var (w', out) := Attempt(env, w, snap, step, 0);
    AfterStepTakesNone(def, env, w', snap, step, out);
  }

  lemma IterationTakesNext(def: Definition, env: Env, w: World)
    ensures NumbersMove(def, env, w.run, w.calls, Iterate(def, env, w).w.run)
  {
    var found := StepById(def.steps, At(def, w.run));
    if !w.run.state.IsTerminal() && !w.run.state.Paused? && found.Some? {
      HandlerTakesNext(def, env, Dispatched(Started(w), found.value), w.run, found.value);
    }
  }

  // ------------------------------------------------- numbers are settled once

  /** Every number up to here is settled or was abandoned. */
  function Bar(r: Run): int
  {
    if r.dispatch.Some? then r.attempt - 1 else r.attempt
  }

  /** The number a report settles, if the run accepts it. */
  function Settles(w: World, op: Op): Option<int>
  {
    match op
    case CompleteStep(step, attempt, _, _) => if Awaited(w.run, step, attempt) then Some(attempt) else None
    case FailStep(step, attempt, _, _) => if Awaited(w.run, step, attempt) then Some(attempt) else None
    case _ => None
  }

  lemma AdvanceRaisesBar(def: Definition, env: Env, w: World, budget: nat)
    ensures Bar(Loop(def, env, w, budget).0.run) >= Bar(w.run)
  {
    var low := Bar(w.run);
    var inv := (x: World) => Bar(x.run) >= low;
    var end := (x: World, r: Engine.Result) => Bar(x.run) >= low;
    forall x | inv(x)
      ensures match Iteration(def, env)(x)
              case Again(x') => inv(x')
              case Stop(x', result) => end(x', result) && !result.ContextDone?
    {
      IterationTakesNext(def, env, x);
      NeverContextDone(def, env, x);
    }
    DriveKeeps(Iteration(def, env), inv, end, w, budget);
  }

  lemma NeverContextDone(def: Definition, env: Env, w: World)
    ensures Iterate(def, env, w).Stop? ==> !Iterate(def, env, w).result.ContextDone?
  {
  }

  lemma OpRaisesBar(def: Definition, w: World, op: Op)
    ensures Bar(Apply(def, w, op).run) >= Bar(w.run)
    ensures Settles(w, op).Some? ==> Bar(w.run) < Settles(w, op).value <= Bar(Apply(def, w, op).run)
  {
    if op.Advance? {
      AdvanceRaisesBar(def, op.env, w, op.budget);
    }
  }

  /** The numbers settled over a history, in order. */
  function Settled(def: Definition, w: World, ops: seq<Op>): seq<int>
    decreases |ops|
  {
    if ops == [] then []
    else
      var rest := Settled(def, Apply(def, w, ops[0]), ops[1..]);
      if Settles(w, ops[0]).Some? then [Settles(w, ops[0]).value] + rest else rest
  }

  predicate IncreasingAbove(low: int, s: seq<int>)
  {
    && (forall i :: 0 <= i < |s| ==> low < s[i])
    && (forall i, j :: 0 <= i < j < |s| ==> s[i] < s[j])
  }

  lemma IncreasingCons(low: int, x: int, mid: int, s: seq<int>)
    requires low < x <= mid && IncreasingAbove(mid, s)
    ensures IncreasingAbove(low, [x] + s)
  {
  }

  /** Over any history with reports in any order, duplicated, late or made up,
      the settled attempt numbers strictly increase: no attempt is settled
      twice, whichever step the reports name. */
  lemma {:induction false} SettledOnce(def: Definition, w: World, ops: seq<Op>)
    ensures IncreasingAbove(Bar(w.run), Settled(def, w, ops))
    decreases |ops|
  {
    if ops != [] {
      var w1 := Apply(def, w, ops[0]);
      OpRaisesBar(def, w, ops[0]);
      SettledOnce(def, w1, ops[1..]);
      if Settles(w, ops[0]).Some? {
        IncreasingCons(Bar(w.run), Settles(w, ops[0]).value, Bar(w1.run), Settled(def, w1, ops[1..]));
      }
    }
  }

  // ------------------------------------------------- the idempotency key

  const BAR: Byte := 124

  function Decimal(n: nat): (s: Key)
    ensures s != [] && (|s| == 1 <==> n < 10)
    ensures forall i :: 0 <= i < |s| ==> 48 <= s[i] < 58
  {
    if n < 10 then [48 + n] else Decimal(n / 10) + [48 + n % 10]
  }

  lemma {:induction false} DecimalInjective(m: nat, n: nat)
    requires Decimal(m) == Decimal(n)
    ensures m == n
    decreases m
  {
    var a, b := Decimal(m), Decimal(n);
    assert m % 10 == a[|a| - 1] - 48;
    assert n % 10 == b[|b| - 1] - 48;
    if m >= 10 {
      assert Decimal(m / 10) == a[..|a| - 1] == b[..|b| - 1] == Decimal(n / 10);
      DecimalInjective(m / 10, n / 10);
    }
  }

  /** The text that is hashed. */
  function KeyText(run: Key, step: Key, attempt: nat): Key
  {
    run + [BAR] + step + [BAR] + Decimal(attempt)
  }

  /** The digits after the last bar hold none. */
  lemma LastBar(a: Key, m: nat, i: nat)
    requires i < |a + [BAR] + Decimal(m)| && (a + [BAR] + Decimal(m))[i] == BAR
    ensures i <= |a|
  {
  }

  lemma SameTail(a: Key, b: Key, m: nat, n: nat)
    requires a + [BAR] + Decimal(m) == b + [BAR] + Decimal(n)
    ensures a == b && m == n
  {
    var s := a + [BAR] + Decimal(m);
    LastBar(a, m, |b|);
    LastBar(b, n, |a|);
    assert a == s[..|a|] == b;
    assert Decimal(m) == s[|a| + 1..] == Decimal(n);
    DecimalInjective(m, n);
  }

  /** Run IDs of one length (UUIDs) make the text unambiguous, whatever the step
      IDs contain. */
  lemma KeyTextInjective(run: Key, step: Key, attempt: nat, run': Key, step': Key, attempt': nat)
    requires |run| == |run'|
    requires KeyText(run, step, attempt) == KeyText(run', step', attempt')
    ensures run == run' && step == step' && attempt == attempt'
  {
    var a, b := run + [BAR] + step, run' + [BAR] + step';
    SameTail(a, b, attempt, attempt');
    assert run == a[..|run|] && run' == b[..|run'|];
    assert step == a[|run| + 1..] && step' == b[|run'| + 1..];
  }

  /** A run ID that begins with another one and a bar shares texts with it. */
  lemma KeyTextAmbiguous(a: Key, b: Key, c: Key, attempt: nat)
    ensures KeyText(a, b + [BAR] + c, attempt) == KeyText(a + [BAR] + b, c, attempt)
  {
    assert a + [BAR] + (b + [BAR] + c) == a + [BAR] + b + [BAR] + c;
  }

  /** Some step and attempt of one run share a text with some of the other. */
  ghost predicate ShareText(a: Key, b: Key)
  {
    exists step: Key, n: nat, step': Key, n': nat :: KeyText(a, step, n) == KeyText(b, step', n')
  }

  /** Two different run IDs can share a text exactly when one of them, with a bar
      after it, begins the other. */
  lemma SharedExactlyWhen(a: Key, b: Key)
    requires a != b
    ensures ShareText(a, b) <==> a + [BAR] <= b || b + [BAR] <= a
  {
    if ShareText(a, b) {
      var step: Key, n: nat, step': Key, n': nat :| KeyText(a, step, n) == KeyText(b, step', n');
      SharedBegins(a, step, n, b, step', n');
    }
    if a + [BAR] <= b {
      PrefixShares(a, b);
    } else if b + [BAR] <= a {
      PrefixShares(b, a);
    }
  }

  lemma SharedBegins(a: Key, step: Key, n: nat, b: Key, step': Key, n': nat)
    requires a != b && KeyText(a, step, n) == KeyText(b, step', n')
    ensures a + [BAR] <= b || b + [BAR] <= a
  {
    var s, t := a + [BAR] + step, b + [BAR] + step';
    SameTail(s, t, n, n');
    if |a| == |b| {
      KeyTextInjective(a, step, n, b, step', n');
    } else if |a| < |b| {
      assert a + [BAR] == s[..|a| + 1] == b[..|a| + 1];
    } else {
      assert b + [BAR] == t[..|b| + 1] == a[..|b| + 1];
    }
  }

  lemma PrefixShares(a: Key, b: Key)
    requires a + [BAR] <= b
    ensures ShareText(a, b) && ShareText(b, a)
  {
    var rest: Key := b[|a| + 1..];
    assert b == a + [BAR] + rest;
    KeyTextAmbiguous(a, rest, [], 0);
    assert KeyText(a, rest + [BAR] + [], 0) == KeyText(b, [], 0);
    assert KeyText(b, [], 0) == KeyText(a, rest + [BAR] + [], 0);
  }
}
