/** The parallel verb: spawn every branch, pause the parent, then publish. */
module Parallel {
  import opened Domain
  import opened Join
  import FanOut

  /** A branch of the step's inputs after normalizeBranch, by what the verb checks. */
  datatype Branch = Branch(isObject: bool, hasStart: bool, hasSteps: bool, parses: bool)
  {
    predicate Valid()
    {
      isObject && hasStart && hasSteps && parses
    }
  }

  /** None: neither a list nor an expression that gives one. */
  datatype Inputs = Inputs(branches: Option<seq<Branch>>, join: JoinInputs)

  datatype Effect = Spawned(child: RunId) | ParentPaused | Published(child: RunId)

  datatype Answer = SagaPaused | Error

  predicate Accepts(inputs: Inputs)
  {
    inputs.branches.Some? && inputs.branches.value != [] && Validate(inputs.join, |inputs.branches.value|).Accepted?
  }

  /** How the calls the verb makes end: storing the definition of branch i,
      spawning its child, pausing the parent, and, if there is a publisher,
      publishing a child's advance. */
  datatype Calls = Calls(stores: nat -> bool, spawns: nat -> bool, pauses: bool, publisher: Option<RunId -> bool>)

  predicate Works(branches: seq<Branch>, calls: Calls, i: nat)
    requires i < |branches|
  {
    branches[i].Valid() && calls.stores(i) && calls.spawns(i)
  }

  /** How many branches are spawned: all, or those before the first that fails. */
  function Spawnable(branches: seq<Branch>, calls: Calls, i: nat): (n: nat)
    requires i <= |branches|
    ensures i <= n <= |branches|
    ensures forall j :: i <= j < n ==> Works(branches, calls, j)
    ensures n < |branches| ==> !Works(branches, calls, n)
    decreases |branches| - i
  {
    if i == |branches| || !Works(branches, calls, i) then i else Spawnable(branches, calls, i + 1)
  }

  function Spawns(first: RunId, n: nat): (es: seq<Effect>)
    ensures |es| == n
    ensures forall i :: 0 <= i < n ==> es[i] == Spawned(first + i)
  {
    if n == 0 then [] else Spawns(first, n - 1) + [Spawned(first + n - 1)]
  }

  function Publishes(first: RunId, n: nat): (es: seq<Effect>)
    ensures |es| == n
    ensures forall i :: 0 <= i < n ==> es[i] == Published(first + i)
  {
    if n == 0 then [] else Publishes(first, n - 1) + [Published(first + n - 1)]
  }

  /** The first of the n children that the publisher refuses, or the one after
      the last. */
  function Taken(delivered: RunId -> bool, first: RunId, n: nat): (k: RunId)
    ensures first <= k <= first + n
    ensures forall child: RunId :: first <= child < k ==> delivered(child)
    ensures k < first + n ==> !delivered(k)
    decreases n
  {
    if n == 0 || !delivered(first) then first else Taken(delivered, first + 1, n - 1)
  }

  class ParallelVerb {
    var effects: seq<Effect>
    var nextId: RunId

    constructor ()
      ensures effects == [] && nextId == 0
    {
      effects, nextId := [], 0;
    }

    method Execute(inputs: Inputs, calls: Calls) returns (answer: Answer)
      modifies this
      ensures !Accepts(inputs) ==> answer.Error? && effects == old(effects)
      ensures Accepts(inputs) ==>
                var n, first := |inputs.branches.value|, old(nextId);
                var m := Spawnable(inputs.branches.value, calls, 0);
                var k := if calls.publisher.None? then 0 else Taken(calls.publisher.value, first, n) - first;
                && effects == old(effects) + Spawns(first, m)
                              + (if m < n || !calls.pauses then [] else [ParentPaused] + Publishes(first, k))
                && (answer.SagaPaused? <==> m == n && calls.pauses && (calls.publisher.Some? ==> k == n))
    {
      if inputs.branches.None? || inputs.branches.value == [] {
        return Error;
      }
      var branches := inputs.branches.value;
      if Validate(inputs.join, |branches|).Rejected? {
        return Error;
      }
      var first := nextId;
      var i := 0;
      while i < |branches|
        invariant 0 <= i <= Spawnable(branches, calls, 0) && nextId == first + i
        invariant effects == old(effects) + Spawns(first, i)
      {
        if !branches[i].Valid() || !calls.stores(i) || !calls.spawns(i) {
          assert !Works(branches, calls, i);
          return Error;
        }
        effects := effects + [Spawned(nextId)];
        nextId := nextId + 1;
        i := i + 1;
      }
      if !calls.pauses {
        return Error;
      }
      effects := effects + [ParentPaused];
      if calls.publisher.Some? {
        answer := Publish(calls.publisher.value, first, |branches|);
      } else {
        answer := SagaPaused;
      }
    }

    method Publish(delivered: RunId -> bool, first: RunId, n: nat) returns (answer: Answer)
      modifies this`effects
      ensures effects == old(effects) + Publishes(first, Taken(delivered, first, n) - first)
      ensures answer.SagaPaused? <==> Taken(delivered, first, n) == first + n
    {
      for child := first to first + n
        invariant child <= Taken(delivered, first, n)
        invariant effects == old(effects) + Publishes(first, child - first)
      {
        if !delivered(child) {
          return Error;
        }
        effects := effects + [Published(child)];
      }
      answer := SagaPaused;
    }
  }

  // ------------------------------------------------- as steps of the protocol

  function ProtocolStep(e: Effect): FanOut.Step
  {
    match e
    case Spawned(_) => FanOut.Spawn
    case ParentPaused => FanOut.Pause
    case Published(_) => FanOut.StartChild
  }

  ghost predicate Leads(s: FanOut.State, es: seq<Effect>, t: FanOut.State)
    decreases |es|
  {
    if es == [] then s == t
    else FanOut.Enabled(s, ProtocolStep(es[0])) && Leads(FanOut.Next(s, ProtocolStep(es[0])), es[1..], t)
  }

  lemma {:induction false} LeadsSnoc(s: FanOut.State, es: seq<Effect>, t: FanOut.State, e: Effect)
    requires Leads(s, es, t) && FanOut.Enabled(t, ProtocolStep(e))
    ensures Leads(s, es + [e], FanOut.Next(t, ProtocolStep(e)))
    decreases |es|
  {
    if es == [] {
      assert [e][1..] == [];
    } else {
      assert (es + [e])[0] == es[0] && (es + [e])[1..] == es[1..] + [e];
      LeadsSnoc(FanOut.Next(s, ProtocolStep(es[0])), es[1..], t, e);
    }
  }

  function Pendings(n: nat): (g: seq<RunState>)
    ensures |g| == n
  {
    if n == 0 then [] else Pendings(n - 1) + [Pending]
  }

  lemma {:induction false} SpawnsLead(s: FanOut.State, first: RunId, n: nat)
    requires FanOut.Init(s) && n <= s.branches
    ensures Leads(s, Spawns(first, n), s.(children := Pendings(n)))
  {
    if n > 0 {
      SpawnsLead(s, first, n - 1);
      LeadsSnoc(s, Spawns(first, n - 1), s.(children := Pendings(n - 1)), Spawned(first + n - 1));
    }
  }

  lemma {:induction false} PublishesLead(s: FanOut.State, first: RunId, k: nat)
    requires FanOut.Init(s) && k <= s.branches
    ensures Leads(s, Spawns(first, s.branches) + [ParentPaused] + Publishes(first, k),
                  s.(children := Pendings(s.branches), parent := FanOut.OnPause, pc := FanOut.Publishing,
                     published := k))
  {
    var n := s.branches;
    var es := Spawns(first, n) + [ParentPaused];
    var paused := s.(children := Pendings(n), parent := FanOut.OnPause, pc := FanOut.Publishing);
    SpawnsLead(s, first, n);
    LeadsSnoc(s, Spawns(first, n), s.(children := Pendings(n)), ParentPaused);
    if k == 0 {
      assert es + Publishes(first, 0) == es;
    } else {
      PublishesLead(s, first, k - 1);
      LeadsSnoc(s, es + Publishes(first, k - 1), paused.(published := k - 1), Published(first + k - 1));
      assert es + Publishes(first, k) == es + Publishes(first, k - 1) + [Published(first + k - 1)];
    }
  }

  /** What a successful call does is a run of the fan-out protocol from its start
      to the parent paused, every child started and the lock about to be freed. */
  lemma VerbFollowsProtocol(s: FanOut.State, first: RunId)
    requires FanOut.Init(s)
    ensures var n := s.branches;
            var t := s.(children := Pendings(n), parent := FanOut.OnPause, pc := FanOut.Publishing, published := n);
            && Leads(s, Spawns(first, n) + [ParentPaused] + Publishes(first, n), t)
            && FanOut.Enabled(t, FanOut.VerbReturns)
  {
    PublishesLead(s, first, s.branches);
  }
}
