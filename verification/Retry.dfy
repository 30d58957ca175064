/** The retry loop around a handler, and how long it may wait. */
module Retry {
  import opened DottedKeys
  import opened Runs
  import opened Engine

  // ------------------------------------------------- how often the handler runs

  /** The world before attempt n when every earlier attempt failed and was retried. */
  function Before(env: Env, w: World, snap: Run, step: Step, n: nat): World
  {
    if n == 0 then w else LogRetry(Once(env, Before(env, w, snap, step, n - 1), snap, step).0, step, n)
  }

  predicate Fails(env: Env, w: World, snap: Run, step: Step, n: nat)
  {
    Once(env, Before(env, w, snap, step, n), snap, step).1.Failing?
  }

  /** The context was cancelled while waiting after the n-th attempt (from zero). */
  predicate Abandons(env: Env, w: World, n: nat)
  {
    env.abandoned(w.calls + n + 1)
  }

  /** step.failed numbers first..last of the retry loop. */
  function RetryEvents(id: Key, first: nat, count: nat): (es: seq<Event>)
    ensures |es| == count
    ensures forall i :: 0 <= i < count ==> es[i] == Event(StepRetried, id, first + i)
    decreases count
  {
    if count == 0 then [] else [Event(StepRetried, id, first)] + RetryEvents(id, first + 1, count - 1)
  }

  /** Every attempt before the n-th (from zero) failed and was retried. */
  predicate AllRetried(env: Env, w: World, snap: Run, step: Step, n: nat)
  {
    forall j :: 0 <= j < n ==> Fails(env, w, snap, step, j) && !Abandons(env, w, j)
  }

  /** Attempt k (from one) ends the loop and none before it does. */
  predicate EndsAt(env: Env, w: World, snap: Run, step: Step, k: nat)
  {
    && 1 <= k <= Attempts(step)
    && AllRetried(env, w, snap, step, k - 1)
    && (Fails(env, w, snap, step, k - 1) && k < Attempts(step) ==> Abandons(env, w, k - 1))
  }

  lemma {:induction false} BeforeCounts(env: Env, w: World, snap: Run, step: Step, n: nat)
    ensures Before(env, w, snap, step, n).calls == w.calls + n
    ensures Before(env, w, snap, step, n).events == w.events + RetryEvents(step.id, 1, n)
  {
    if n > 0 {
      BeforeCounts(env, w, snap, step, n - 1);
      RetryEventsSnoc(step.id, 1, n - 1);
    } else {
      assert w.events + RetryEvents(step.id, 1, 0) == w.events;
    }
  }

  lemma RetryEventsSnoc(id: Key, first: nat, count: nat)
    ensures RetryEvents(id, first, count + 1) == RetryEvents(id, first, count) + [Event(StepRetried, id, first + count)]
  {
  }

  /** What the loop leaves behind when it ends at attempt k: k handler calls;
      the failures 1..k-1 in the log (k too when the wait after it was
      abandoned) and nothing else; the answer of attempt k, unless abandoned. */
  predicate EndedWith(env: Env, w: World, snap: Run, step: Step, k: nat, w': World, out: Outcome)
    requires k >= 1
  {
    var gaveUp := Fails(env, w, snap, step, k - 1) && k < Attempts(step);
    && w'.calls == w.calls + k
    && w'.events == w.events + RetryEvents(step.id, 1, if gaveUp then k else k - 1)
    && out == (if gaveUp then Failing(REASON) else Once(env, Before(env, w, snap, step, k - 1), snap, step).1)
  }

  lemma LastAttempt(env: Env, w: World, snap: Run, step: Step, n: nat)
    requires n < Attempts(step)
    requires !Fails(env, w, snap, step, n) || n == Attempts(step) - 1 || Abandons(env, w, n)
    ensures var (w', out) := Attempt(env, Before(env, w, snap, step, n), snap, step, n);
            EndedWith(env, w, snap, step, n + 1, w', out)
  {
    BeforeCounts(env, w, snap, step, n);
    BeforeCounts(env, w, snap, step, n + 1);
    if Fails(env, w, snap, step, n) && n + 1 < Attempts(step) {
      GivesUp(env, w, snap, step, n);
    }
  }

  lemma GivesUp(env: Env, w: World, snap: Run, step: Step, n: nat)
    requires n + 1 < Attempts(step) && Fails(env, w, snap, step, n) && Abandons(env, w, n)
    ensures Attempt(env, Before(env, w, snap, step, n), snap, step, n)
         == (Before(env, w, snap, step, n + 1), Failing(REASON))
  {
    BeforeCounts(env, w, snap, step, n + 1);
  }

  lemma NextAttempt(env: Env, w: World, snap: Run, step: Step, n: nat)
    requires n + 1 < Attempts(step) && Fails(env, w, snap, step, n) && !Abandons(env, w, n)
    ensures Attempt(env, Before(env, w, snap, step, n), snap, step, n)
         == Attempt(env, Before(env, w, snap, step, n + 1), snap, step, n + 1)
  {
    BeforeCounts(env, w, snap, step, n + 1);
  }

  /** Attempt n (from zero) is the last one made. */
  predicate Stops(env: Env, w: World, snap: Run, step: Step, n: nat)
  {
    !Fails(env, w, snap, step, n) || n == Attempts(step) - 1 || Abandons(env, w, n)
  }

  lemma EndsHere(env: Env, w: World, snap: Run, step: Step, n: nat)
    requires n < Attempts(step) && AllRetried(env, w, snap, step, n)
    ensures Stops(env, w, snap, step, n) ==> EndsAt(env, w, snap, step, n + 1)
    ensures !Stops(env, w, snap, step, n) ==> AllRetried(env, w, snap, step, n + 1)
  {
  }

  /** The loop from attempt n on ends with attempt k. */
  predicate LoopsTo(env: Env, w: World, snap: Run, step: Step, n: nat, k: nat)
    requires n < Attempts(step) && k >= 1
  {
    var (w', out) := Attempt(env, Before(env, w, snap, step, n), snap, step, n);
    EndedWith(env, w, snap, step, k, w', out)
  }

  lemma LoopStops(env: Env, w: World, snap: Run, step: Step, n: nat)
    requires n < Attempts(step) && Stops(env, w, snap, step, n)
    ensures LoopsTo(env, w, snap, step, n, n + 1)
  {
    LastAttempt(env, w, snap, step, n);
  }

  lemma LoopGoesOn(env: Env, w: World, snap: Run, step: Step, n: nat, k: nat)
    requires n + 1 < Attempts(step) && k >= 1 && !Stops(env, w, snap, step, n)
    requires LoopsTo(env, w, snap, step, n + 1, k)
    ensures LoopsTo(env, w, snap, step, n, k)
  {
    NextAttempt(env, w, snap, step, n);
  }

  lemma {:induction false} RetryFrom(env: Env, w: World, snap: Run, step: Step, n: nat) returns (k: nat)
    requires n < Attempts(step) && AllRetried(env, w, snap, step, n)
    ensures n < k && EndsAt(env, w, snap, step, k) && LoopsTo(env, w, snap, step, n, k)
    decreases Attempts(step) - n
  {
    EndsHere(env, w, snap, step, n);
    if Stops(env, w, snap, step, n) {
      LoopStops(env, w, snap, step, n);
      k := n + 1;
    } else {
      k := RetryFrom(env, w, snap, step, n + 1);
      LoopGoesOn(env, w, snap, step, n, k);
    }
  }

  /** As many attempts as the policy says, and one without a policy that says so. */
  lemma AttemptsAllowed(step: Step)
    ensures step.maxAttempts >= 1 ==> Attempts(step) == step.maxAttempts
    ensures step.maxAttempts < 1 ==> Attempts(step) == 1
  {
  }

  /** The handler runs k times, k being the first attempt that succeeds, is a
      control signal, is the last one allowed, or is followed by an abandoned
      wait. */
  lemma RetryBudget(env: Env, w: World, snap: Run, step: Step) returns (k: nat)
    ensures EndsAt(env, w, snap, step, k)
    ensures forall k' :: EndsAt(env, w, snap, step, k') ==> k' == k
    ensures var (w', out) := Attempt(env, w, snap, step, 0); EndedWith(env, w, snap, step, k, w', out)
  {
    k := RetryFrom(env, w, snap, step, 0);
    forall k' | EndsAt(env, w, snap, step, k') ensures k' == k {
      EndsOnce(env, w, snap, step, k, k');
      EndsOnce(env, w, snap, step, k', k);
    }
  }

  lemma EndsOnce(env: Env, w: World, snap: Run, step: Step, k: nat, k': nat)
    requires EndsAt(env, w, snap, step, k) && EndsAt(env, w, snap, step, k')
    ensures k' <= k
  {
  }

  // ------------------------------------------------- how long it waits

  /** Times are in milliseconds. */
  datatype Policy = Policy(initial: int, cap: int, multiplier: real)

  function Power(m: real, n: nat): real
  {
    if n == 0 then 1.0 else m * Power(m, n - 1)
  }

  /** What is missing, or makes no sense, counts as two. */
  function Multiplier(p: Policy): (m: real)
    ensures m > 0.0 && (p.multiplier > 0.0 ==> m == p.multiplier) && (p.multiplier <= 0.0 ==> m == 2.0)
  {
    if p.multiplier <= 0.0 then 2.0 else p.multiplier
  }

  /** A missing cap is a minute. */
  function Cap(p: Policy): (c: int)
    ensures c != 0 && (p.cap != 0 ==> c == p.cap) && (p.cap == 0 ==> c == 60000)
  {
    if p.cap == 0 then 60000 else p.cap
  }

  /** The conversion to a whole number of milliseconds truncates. */
  function Truncate(x: real): (n: int)
    ensures x >= 0.0 ==> 0 <= n && n as real <= x < (n + 1) as real
    ensures x <= 0.0 ==> n <= 0 && (n - 1) as real < x <= n as real
  {
    if x >= 0.0 then x.Floor else -((-x).Floor)
  }

  function Capped(x: real, cap: real): real
  {
    if x > cap then cap else x
  }

  function Scaled(x: real, y: real): real
  {
    x * y
  }

  /** Before the cap and the jitter. */
  function Grown(p: Policy, attempt: nat): real
  {
    Scaled(p.initial as real, Power(Multiplier(p), attempt))
  }

  function Base(p: Policy, attempt: nat): real
  {
    Capped(Grown(p, attempt), Cap(p) as real)
  }

  /** noise is zero without jitter, else the draw from [-1/4, 1/4). */
  function Backoff(p: Policy, attempt: nat, noise: real): int
  {
    Truncate(Jittered(Base(p, attempt), noise))
  }

  function Jittered(base: real, noise: real): real
  {
    base * (1.0 + noise)
  }

  predicate Noise(x: real)
  {
    -0.25 <= x < 0.25
  }

  function TotalWait(p: Policy, noise: nat -> real, n: nat): int
  {
    if n == 0 then 0 else TotalWait(p, noise, n - 1) + Backoff(p, n - 1, noise(n - 1))
  }

  lemma TruncateMonotone(x: real, y: real)
    requires x <= y
    ensures Truncate(x) <= Truncate(y)
  {
  }

  lemma ScaleMonotone(x: real, y: real, z: real)
    requires x <= y && z >= 0.0
    ensures x * z <= y * z
  {
  }

  lemma {:induction false} PowerGrows(m: real, n: nat)
    requires m >= 1.0
    ensures 1.0 <= Power(m, n) <= Power(m, n + 1)
  {
    if n > 0 {
      PowerGrows(m, n - 1);
      ScaleMonotone(Power(m, n - 1), Power(m, n), m);
    }
    ScaleMonotone(1.0, m, Power(m, n));
  }

  // Bernoulli's inequality, and what it says of a power for a large exponent.

  lemma {:induction false} Bernoulli(h: real, n: nat)
    requires h >= 0.0
    ensures Power(1.0 + h, n) >= 1.0 + n as real * h
  {
    if n > 0 {
      Bernoulli(h, n - 1);
      var k := (n - 1) as real;
      ScaleMonotone(1.0 + k * h, Power(1.0 + h, n - 1), 1.0 + h);
      assert (1.0 + k * h) * (1.0 + h) == 1.0 + (k + 1.0) * h + k * (h * h);
      ScaleMonotone(0.0, h * h, k);
    }
  }

  /** Some multiple of h exceeds x. */
  lemma Multiple(h: real, x: real) returns (n: nat)
    requires h > 0.0 && x >= 0.0
    ensures n as real * h > x
  {
    n := (x / h).Floor + 1;
    assert x / h >= 0.0;
    ScaleStrictly(x / h, n as real, h);
    assert x / h * h == x;
  }

  lemma ScaleStrictly(x: real, y: real, z: real)
    requires x < y && z > 0.0
    ensures x * z < y * z
  {
  }

  /** Powers of a multiplier above one pass every bound. */
  lemma PowerPasses(m: real, x: real) returns (n: nat)
    requires m > 1.0 && x >= 0.0
    ensures Power(m, n) > x
  {
    n := Multiple(m - 1.0, x);
    Bernoulli(m - 1.0, n);
  }

  lemma {:induction false} PowerInverse(m: real, w: real, n: nat)
    requires m > 0.0 && m * w == 1.0
    ensures Power(m, n) > 0.0 && Power(m, n) * Power(w, n) == 1.0
  {
    if n > 0 {
      PowerInverse(m, w, n - 1);
      ScaleStrictly(0.0, m, Power(m, n - 1));
      InverseStep(m, w, Power(m, n - 1), Power(w, n - 1));
    }
  }

  lemma InverseStep(m: real, w: real, p: real, q: real)
    requires m * w == 1.0 && p * q == 1.0
    ensures (m * p) * (w * q) == 1.0
  {
    assert (m * p) * (w * q) == (m * w) * (p * q);
  }

  lemma InverseOfFraction(m: real) returns (w: real)
    requires 0.0 < m < 1.0
    ensures m * w == 1.0 && w > 1.0
  {
    w := 1.0 / m;
    assert w * m == 1.0;
    Commutes(w, m);
    if w <= 1.0 {
      ScaleMonotone(w, 1.0, m);
    }
  }

  /** Powers of a multiplier below one come down below every fraction. */
  lemma PowerVanishes(m: real, x: real) returns (n: nat)
    requires 0.0 < m < 1.0 && x >= 0.0
    ensures Power(m, n) > 0.0 && Small(x, Power(m, n))
  {
    var w := InverseOfFraction(m);
    n := PowerPasses(w, x);
    PowerInverse(m, w, n);
    ProductBelowOne(x, Power(w, n), Power(m, n));
  }

  predicate Small(x: real, y: real)
  {
    Scaled(x, y) < 1.0
  }

  lemma ProductBelowOne(x: real, y: real, z: real)
    requires x < y && z > 0.0 && z * y == 1.0
    ensures Small(x, z)
  {
    var product, bound := x * z, y * z;
    assert product < bound by {
      ScaleStrictly(x, y, z);
    }
    assert bound == 1.0 by {
      Commutes(y, z);
    }
  }

  lemma Commutes(x: real, y: real)
    ensures x * y == y * x
  {
  }

  lemma {:induction false} PowerShrinks(m: real, n: nat)
    requires 0.0 < m <= 1.0
    ensures 0.0 < Power(m, n + 1) <= Power(m, n)
  {
    if n > 0 {
      PowerShrinks(m, n - 1);
    }
    ScaleStrictly(0.0, m, Power(m, n));
    ScaleMonotone(m, 1.0, Power(m, n));
  }

  // When the waits never shrink.

  /** What a caller can read off the policy. */
  predicate Steady(p: Policy)
  {
    || p.initial == 0
    || (p.initial > 0 && (Multiplier(p) >= 1.0 || Cap(p) < 0))
    || (p.initial < 0 && Multiplier(p) <= 1.0)
  }

  ghost predicate NeverShrinks(p: Policy)
  {
    forall attempt: nat :: Backoff(p, attempt, 0.0) <= Backoff(p, attempt + 1, 0.0)
  }

  lemma BaseMonotone(p: Policy, attempt: nat)
    requires Steady(p)
    ensures Base(p, attempt) <= Base(p, attempt + 1)
  {
    if Multiplier(p) >= 1.0 && p.initial >= 0 {
      GrownMonotone(p, attempt);
    } else if p.initial > 0 {
      AtNegativeCap(p, attempt);
      AtNegativeCap(p, attempt + 1);
    } else if Multiplier(p) <= 1.0 {
      PowerShrinks(Multiplier(p), attempt);
      ScaleMonotone(Power(Multiplier(p), attempt + 1), Power(Multiplier(p), attempt), -(p.initial as real));
    }
  }

  lemma GrownMonotone(p: Policy, attempt: nat)
    requires Multiplier(p) >= 1.0 && p.initial >= 0
    ensures Grown(p, attempt) <= Grown(p, attempt + 1)
  {
    PowerGrows(Multiplier(p), attempt);
    ScaleMonotone(Power(Multiplier(p), attempt), Power(Multiplier(p), attempt + 1), p.initial as real);
  }

  lemma {:induction false} PowerPositive(m: real, n: nat)
    requires m > 0.0
    ensures Power(m, n) > 0.0
  {
    if n > 0 {
      PowerPositive(m, n - 1);
      ScaleStrictly(0.0, m, Power(m, n - 1));
    }
  }

  lemma AtNegativeCap(p: Policy, attempt: nat)
    requires p.initial > 0 && Cap(p) < 0
    ensures Base(p, attempt) == Cap(p) as real
  {
    PowerPositive(Multiplier(p), attempt);
    ScaleStrictly(0.0, p.initial as real, Power(Multiplier(p), attempt));
  }

  lemma {:induction false} GrowsBetween(p: Policy, n: nat)
    requires NeverShrinks(p)
    ensures Backoff(p, 0, 0.0) <= Backoff(p, n, 0.0)
  {
    if n > 0 {
      GrowsBetween(p, n - 1);
      assert Backoff(p, n - 1, 0.0) <= Backoff(p, n - 1 + 1, 0.0);
    }
  }

  lemma Unjittered(p: Policy, attempt: nat)
    ensures Backoff(p, attempt, 0.0) == Truncate(Base(p, attempt))
  {
    assert Jittered(Base(p, attempt), 0.0) == Base(p, attempt);
  }

  lemma WaitOf(p: Policy, attempt: nat, base: real)
    requires Base(p, attempt) == base
    ensures Backoff(p, attempt, 0.0) == Truncate(base)
  {
    Unjittered(p, attempt);
  }

  lemma GrownVanishes(p: Policy) returns (n: nat)
    requires p.initial > 0 && Multiplier(p) < 1.0
    ensures 0.0 < Grown(p, n) < 1.0
  {
    n := PowerVanishes(Multiplier(p), p.initial as real);
    GrownWithin(p, n, Power(Multiplier(p), n));
  }

  lemma GrownWithin(p: Policy, n: nat, power: real)
    requires p.initial > 0 && power > 0.0 && Small(p.initial as real, power) && power == Power(Multiplier(p), n)
    ensures 0.0 < Grown(p, n) < 1.0
  {
    PositiveProduct(p.initial as real, power);
  }

  lemma PositiveProduct(x: real, y: real)
    requires x > 0.0 && y > 0.0
    ensures Scaled(x, y) > 0.0
  {
  }

  lemma GrownPasses(p: Policy, x: real) returns (n: nat)
    requires p.initial < 0 && Multiplier(p) > 1.0 && x >= 0.0
    ensures Grown(p, n) < -x
  {
    n := PowerPasses(Multiplier(p), x);
    ScaleMonotone(p.initial as real, -1.0, Power(Multiplier(p), n));
  }

  lemma FirstBase(p: Policy)
    ensures Base(p, 0) == Capped(p.initial as real, Cap(p) as real)
  {
  }

  /** Positive waits that a multiplier below one brings down to nothing. */
  lemma FadesAway(p: Policy) returns (n: nat)
    requires p.initial > 0 && Multiplier(p) < 1.0 && Cap(p) > 0
    ensures Backoff(p, n, 0.0) < Backoff(p, 0, 0.0)
  {
    n := GrownVanishes(p);
    FirstBase(p);
    var first, last := Base(p, 0), Base(p, n);
    WaitOf(p, 0, first);
    WaitOf(p, n, last);
    Fades(first, last);
  }

  lemma Fades(first: real, last: real)
    requires first >= 1.0 && 0.0 <= last < 1.0
    ensures Truncate(last) < Truncate(first)
  {
  }

  /** Negative waits that a multiplier above one drives down without end. */
  lemma RunsDown(p: Policy) returns (n: nat)
    requires p.initial < 0 && Multiplier(p) > 1.0
    ensures Backoff(p, n, 0.0) < Backoff(p, 0, 0.0)
  {
    FirstBase(p);
    n := GrownPasses(p, 1.0 - Base(p, 0));
    var first, last := Base(p, 0), Base(p, n);
    WaitOf(p, 0, first);
    WaitOf(p, n, last);
    Falls(first, last);
  }

  lemma Falls(first: real, last: real)
    requires last < first - 1.0 && first < 0.0
    ensures Truncate(last) < Truncate(first)
  {
  }

  /** Without jitter no wait is shorter than the one before exactly when the
      policy is steady. */
  lemma WaitsNeverShrinkExactlyWhen(p: Policy)
    ensures NeverShrinks(p) <==> Steady(p)
  {
    if Steady(p) {
      forall attempt: nat ensures Backoff(p, attempt, 0.0) <= Backoff(p, attempt + 1, 0.0) {
        BaseMonotone(p, attempt);
        Unjittered(p, attempt);
        Unjittered(p, attempt + 1);
        TruncateMonotone(Base(p, attempt), Base(p, attempt + 1));
      }
    } else {
      var n: nat;
      if p.initial > 0 {
        n := FadesAway(p);
      } else {
        n := RunsDown(p);
      }
      if NeverShrinks(p) {
        GrowsBetween(p, n);
      }
    }
  }

  /** A negative start doubled, and a positive one halved. */
  lemma WaitsMayShrink()
    ensures !NeverShrinks(Policy(-1000, 60000, 2.0))
    ensures !NeverShrinks(Policy(1000, 60000, 0.5))
  {
    WaitsNeverShrinkExactlyWhen(Policy(-1000, 60000, 2.0));
    WaitsNeverShrinkExactlyWhen(Policy(1000, 60000, 0.5));
  }

  function PowerOfTwo(n: nat): nat
  {
    if n == 0 then 1 else 2 * PowerOfTwo(n - 1)
  }

  lemma {:induction false} PowersAgree(n: nat)
    ensures Power(2.0, n) == PowerOfTwo(n) as real
  {
    if n > 0 {
      PowersAgree(n - 1);
    }
  }

  function Lesser(a: int, b: int): int
  {
    if a < b then a else b
  }

  lemma ScaledIsWhole(a: int, b: int)
    ensures Scaled(a as real, b as real) == (a * b) as real
  {
  }

  lemma WholeIsKept(n: int)
    ensures Truncate(n as real) == n
  {
  }

  /** Without a multiplier the waits double, up to the cap or, without a cap, to a
      minute. */
  lemma WaitsDouble(p: Policy, attempt: nat)
    requires p.multiplier <= 0.0
    ensures Backoff(p, attempt, 0.0) == Lesser(p.initial * PowerOfTwo(attempt), if p.cap == 0 then 60000 else p.cap)
  {
    var whole := Lesser(p.initial * PowerOfTwo(attempt), Cap(p));
    PowersAgree(attempt);
    ScaledIsWhole(p.initial, PowerOfTwo(attempt));
    Unjittered(p, attempt);
    assert Base(p, attempt) == whole as real;
    WholeIsKept(whole);
  }

  /** With one, the first wait is the initial backoff, and each of the next is that
      times the multiplier, up to the cap. */
  lemma WaitsGrowBy(p: Policy, attempt: nat)
    requires p.multiplier > 0.0
    ensures Grown(p, 0) == p.initial as real && Grown(p, attempt + 1) == p.multiplier * Grown(p, attempt)
    ensures var cap := if p.cap == 0 then 60000.0 else p.cap as real;
            Backoff(p, attempt, 0.0) == Truncate(Capped(Grown(p, attempt), cap))
  {
    Unjittered(p, attempt);
    var a, m, x := p.initial as real, p.multiplier, Power(p.multiplier, attempt);
    Regroup(a, m, x);
  }

  lemma Regroup(a: real, m: real, x: real)
    ensures a * (m * x) == m * (a * x)
  {
  }

  function Positive(n: int): int
  {
    if n > 0 then n else 0
  }

  lemma JitterBounded(base: real, cap: int, noise: real)
    requires base <= cap as real && cap >= 0 && -0.25 <= noise <= 0.25
    ensures 4 * Truncate(Jittered(base, noise)) <= 5 * cap
  {
    var c := cap as real;
    ScaleMonotone(base, c, 1.0 + noise);
    ScaleMonotone(1.0 + noise, 1.25, c);
    assert Jittered(base, noise) <= c * (1.0 + noise) == (1.0 + noise) * c;
    TruncateMonotone(Jittered(base, noise), 1.25 * c);
    QuarterMore(cap);
  }

  lemma QuarterMore(cap: int)
    requires cap >= 0
    ensures 4 * Truncate(1.25 * cap as real) <= 5 * cap
  {
    var n := Truncate(1.25 * cap as real);
    assert n as real <= 1.25 * cap as real;
    assert (4 * n) as real == 4.0 * n as real && (5 * cap) as real == 5.0 * cap as real;
  }

  lemma BaseBounded(p: Policy, attempt: nat)
    ensures Base(p, attempt) <= Positive(Cap(p)) as real
  {
  }

  lemma OneWait(p: Policy, attempt: nat, noise: real)
    requires Noise(noise)
    ensures Backoff(p, attempt, 0.0) <= Positive(Cap(p))
    ensures 4 * Backoff(p, attempt, noise) <= 5 * Positive(Cap(p))
  {
    var base := Base(p, attempt);
    BaseBounded(p, attempt);
    JitterBounded(base, Positive(Cap(p)), noise);
    assert Jittered(base, 0.0) == base;
    TruncateMonotone(base, Positive(Cap(p)) as real);
  }

  predicate NoisyUpTo(noise: nat -> real, n: nat)
  {
    forall i: nat :: i < n ==> Noise(noise(i))
  }

  predicate SilentUpTo(noise: nat -> real, n: nat)
  {
    forall i: nat :: i < n ==> noise(i) == 0.0
  }

  /** n waits (k attempts make n = k - 1) last at most n caps in all, a quarter
      more with jitter. */
  lemma {:induction false} TotalWaitBounded(p: Policy, noise: nat -> real, n: nat)
    requires NoisyUpTo(noise, n)
    ensures SilentUpTo(noise, n) ==> TotalWait(p, noise, n) <= n * Positive(Cap(p))
    ensures 4 * TotalWait(p, noise, n) <= 5 * (n * Positive(Cap(p)))
  {
    if n > 0 {
      TotalWaitBounded(p, noise, n - 1);
      OneWait(p, n - 1, noise(n - 1));
      OneMore(n, Positive(Cap(p)));
    }
  }

  lemma OneMore(n: nat, c: int)
    ensures n * c == (n - 1) * c + c
  {
  }
}
