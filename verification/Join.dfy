/** The join condition shared by parallel, foreach, sub_saga and join steps. */
module Join {
  import opened Domain

  /** quorum_n after the source's coercions: a number, a CEL string that gives
      one, or anything else. */
  datatype QuorumInput =
    | Unusable
    | Number(n: int)
    | CelError
    | CelNotNumeric
    | CelNumber(n: int)

  datatype JoinInputs = JoinInputs(strategy: string, quorum: QuorumInput)

  function Strategy(inputs: JoinInputs): string
  {
    if inputs.strategy == "" then "all" else inputs.strategy
  }

  /** The quorum in force; None is the fall-back to "all". */
  function Quorum(inputs: JoinInputs): (q: Option<nat>)
    ensures q.Some? ==> q.value > 0
  {
    match inputs.quorum
    case Number(n) => if n > 0 then Some(n) else None
    case CelNumber(n) => if n > 0 then Some(n) else None
    case _ => None
  }

  function Successes(group: seq<RunState>): (n: nat)
    ensures n <= |group|
  {
    if group == [] then 0 else Successes(group[1..]) + if group[0].Succeeded? then 1 else 0
  }

  predicate AllTerminal(group: seq<RunState>)
  {
    forall i :: 0 <= i < |group| ==> group[i].IsTerminal()
  }

  predicate NeedsAll(inputs: JoinInputs)
  {
    Strategy(inputs) == "all" || (Strategy(inputs) == "quorum" && Quorum(inputs).None?)
  }

  predicate NeedsQuorum(inputs: JoinInputs)
  {
    Strategy(inputs) == "quorum" && Quorum(inputs).Some?
  }

  /** What parallel promises: every branch ended, or quorum_n succeeded. */
  predicate Met(inputs: JoinInputs, group: seq<RunState>)
  {
    && group != []
    && (|| (NeedsAll(inputs) && AllTerminal(group))
        || (NeedsQuorum(inputs) && Successes(group) >= Quorum(inputs).value))
  }

  /** The children that succeeded. */
  function Winners(group: seq<RunState>): set<nat>
  {
    set i: nat | i < |group| && group[i].Succeeded?
  }

  lemma {:induction false} SuccessesCount(group: seq<RunState>)
    ensures Successes(group) == |Winners(group)|
  {
    if group != [] {
      var n := |group| - 1;
      assert group == group[..n] + [group[n]];
      SuccessesAppend(group[..n], [group[n]]);
      SuccessesCount(group[..n]);
      assert Winners(group) == Winners(group[..n]) + if group[n].Succeeded? then {n} else {};
    }
  }

  /** In the words of the documentation: no strategy means all; "all" waits for the
      end of every child; "quorum" waits for that many successes, and for every
      child when its number is missing, unusable or not positive; any other
      strategy and an empty group are never met. */
  lemma MetMeans(inputs: JoinInputs, group: seq<RunState>)
    ensures var ended := group != [] && forall i :: 0 <= i < |group| ==> group[i] in {Succeeded, Failed, Cancelled};
            var usable := (inputs.quorum.Number? || inputs.quorum.CelNumber?) && inputs.quorum.n > 0;
            && (inputs.strategy in {"", "all"} ==> (Met(inputs, group) <==> ended))
            && (inputs.strategy == "quorum" && !usable ==> (Met(inputs, group) <==> ended))
            && (inputs.strategy == "quorum" && usable ==>
                  (Met(inputs, group) <==> group != [] && |Winners(group)| >= inputs.quorum.n))
            && (inputs.strategy !in {"", "all", "quorum"} ==> !Met(inputs, group))
  {
    SuccessesCount(group);
  }

  method JoinConditionMet(inputs: JoinInputs, group: seq<RunState>) returns (met: bool)
    ensures met == Met(inputs, group)
  {
    if |group| == 0 {
      return false;
    }
    var terminal := true;
    for i := 0 to |group|
      invariant terminal == AllTerminal(group[..i])
    {
      assert group[..i + 1] == group[..i] + [group[i]];
      terminal := terminal && group[i].IsTerminal();
    }
    assert group[..|group|] == group;
    var strategy := inputs.strategy;
    if strategy == "" {
      strategy := "all";
    }
    if strategy == "all" {
      return terminal;
    }
    if strategy != "quorum" {
      return false;
    }
    var quorum := 0;
    match inputs.quorum {
      case Number(n) => quorum := n;
      case CelNumber(n) => quorum := n;
      case _ =>
    }
    if quorum <= 0 {
      return terminal;
    }
    var succeeded := 0;
    for i := 0 to |group|
      invariant succeeded == Successes(group[..i])
    {
      assert group[..i + 1] == group[..i] + [group[i]];
      SuccessesAppend(group[..i], [group[i]]);
      if group[i].Succeeded? {
        succeeded := succeeded + 1;
      }
    }
    assert group[..|group|] == group;
    met := succeeded >= quorum;
  }

  lemma {:induction false} SuccessesAppend(a: seq<RunState>, b: seq<RunState>)
    ensures Successes(a + b) == Successes(a) + Successes(b)
  {
    if a == [] {
      assert a + b == b;
    } else {
      assert (a + b)[1..] == a[1..] + b;
      SuccessesAppend(a[1..], b);
    }
  }

  lemma {:induction false} SuccessesUpdate(group: seq<RunState>, i: nat, st: RunState)
    requires i < |group|
    ensures Successes(group[i := st])
         == Successes(group) - (if group[i].Succeeded? then 1 else 0) + (if st.Succeeded? then 1 else 0)
  {
    if i == 0 {
      assert group[i := st][1..] == group[1..];
    } else {
      assert group[i := st][1..] == group[1..][i - 1 := st];
      SuccessesUpdate(group[1..], i - 1, st);
    }
  }

  /** Only a write that ends a child can make the join true. */
  lemma OnlyEndingMeets(inputs: JoinInputs, group: seq<RunState>, i: nat, st: RunState)
    requires i < |group| && !st.IsTerminal()
    ensures Met(inputs, group[i := st]) ==> Met(inputs, group)
  {
    SuccessesUpdate(group, i, st);
    assert group[i := st][i] == st;
  }

  /** later is group after more child writes, none of which touched an ended child. */
  ghost predicate Extends(group: seq<RunState>, later: seq<RunState>)
  {
    |later| == |group| && forall i :: 0 <= i < |group| && group[i].IsTerminal() ==> later[i] == group[i]
  }

  /** As long as ended children stay as they are, a met join stays met. */
  lemma MetIsMonotone(inputs: JoinInputs, group: seq<RunState>, later: seq<RunState>)
    requires Extends(group, later) && Met(inputs, group)
    ensures Met(inputs, later)
  {
    SuccessesMonotone(group, later);
  }

  lemma {:induction false} SuccessesMonotone(group: seq<RunState>, later: seq<RunState>)
    requires Extends(group, later)
    ensures Successes(later) >= Successes(group)
  {
    if group != [] {
      SuccessesMonotone(group[1..], later[1..]);
    }
  }

  /** Once every child has ended, the verdict is final: the parent can be woken
      now exactly when it can ever be. A quorum with too many failed children
      leaves it paused for good. */
  lemma AllEndedIsFinal(inputs: JoinInputs, group: seq<RunState>)
    requires group != [] && AllTerminal(group)
    ensures Met(inputs, group) <==>
              NeedsAll(inputs) || (NeedsQuorum(inputs) && Successes(group) >= Quorum(inputs).value)
    ensures Met(inputs, group) <==> exists later :: Extends(group, later) && Met(inputs, later)
  {
    assert Extends(group, group);
    forall later | Extends(group, later) ensures later == group {}
  }

  datatype Validation = Accepted | Rejected

  /** validateJoinStrategy, and the same checks inside parallel. */
  function Validate(inputs: JoinInputs, count: nat): Validation
  {
    if Strategy(inputs) == "all" then Accepted
    else if Strategy(inputs) != "quorum" then Rejected
    else match inputs.quorum
      case Number(n) => if 0 < n <= count then Accepted else Rejected
      case CelNumber(n) => if 0 < n <= count then Accepted else Rejected
      case _ => Rejected
  }

  ghost predicate Reachable(inputs: JoinInputs, count: nat)
  {
    exists group: seq<RunState> :: |group| == count && Met(inputs, group)
  }

  lemma {:induction false} AllSucceeded(count: nat) returns (group: seq<RunState>)
    ensures |group| == count && AllTerminal(group) && Successes(group) == count
  {
    if count == 0 {
      group := [];
    } else {
      group := AllSucceeded(count - 1);
      group := [Succeeded] + group;
      assert group[1..] == group[1..];
    }
  }

  /** A configuration has no outcome at all that wakes the parent exactly when
      there are no children, the strategy is unknown, or the quorum exceeds the
      number of children; validation refuses each of the last two, and besides
      them only a quorum whose number falls back to all. foreach and sub_saga
      never validate, so they can pause for good. */
  lemma WakeableConfigurations(inputs: JoinInputs, count: nat)
    ensures Reachable(inputs, count) <==>
              count > 0 && (NeedsAll(inputs) || (NeedsQuorum(inputs) && Quorum(inputs).value <= count))
    ensures count > 0 ==> (Validate(inputs, count).Accepted? <==>
                             Reachable(inputs, count) && (inputs.strategy == "quorum" ==> Quorum(inputs).Some?))
  {
    var group := AllSucceeded(count);
    if count > 0 && (NeedsAll(inputs) || (NeedsQuorum(inputs) && Quorum(inputs).value <= count)) {
      assert Met(inputs, group);
    }
  }
}
