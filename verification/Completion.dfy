/** A worker's result, from the report that is accepted to the step that follows. */
module Completion {
  import opened Domain
  import opened DottedKeys
  import opened Runs
  import opened Engine
  import opened Lifecycle
  import opened Visits
  import opened Waits

  // ------------------------------------------------- what a report stores

  /** The variables with every key of the result, and the others as they were. */
  ghost predicate Merged(before: Vars, result: Vars, after: Vars)
  {
    && (forall k :: k in result ==> k in after && after[k] == result[k])
    && (forall k :: k !in result ==> (k in after <==> k in before) && (k in before ==> after[k] == before[k]))
  }

  /** A report is taken exactly when the run is paused on that step and attempt and
      still waits for its worker. */
  predicate Expected(r: Run, step: Key, attempt: int)
  {
    r.state.Paused? && r.current == step && r.attempt == attempt && r.dispatch.Some?
  }

  /** A report that is taken stores the result, key by key, settles the dispatch
      and makes the run due at the instant of the report; any other changes
      nothing, and neither touches anything else. */
  lemma ResultIsTaken(def: Definition, w: World, step: Key, attempt: int, at: Time, result: Vars)
    ensures var w' := Apply(def, w, CompleteStep(step, attempt, at, result));
            if Expected(w.run, step, attempt) then
              && Merged(w.run.vars, result, w'.run.vars)
              && w' == w.(run := w.run.(vars := w'.run.vars, dispatch := None, wakeup := Some(at)))
            else w' == w
  {
  }

  // ------------------------------------------------- what the run does with it

  /** Over any history up to the report, and for any deliveries after it, early
      and duplicate ones included: with the result stored the run waits for the
      instant of the report, and the first advance that is not earlier goes on
      from Next, with those variables. */
  lemma ResultGoesOn(def: Definition, w: World, before: seq<Op>, step: Step, attempt: int, at: Time, result: Vars,
                     after: seq<Op>) returns (fate: Fate)
    requires Orderly(def, w.run)
    requires forall i :: 0 <= i < |before| ==> Honest(def, before[i])
    requires forall i :: 0 <= i < |after| ==> Delivery(def, after[i])
    requires StepById(def.steps, step.id) == Some(step) && step.kind.Action?
    requires Expected(History(def, w, before).run, step.id, attempt)
    ensures var w1 := History(def, w, before);
            var w2 := Apply(def, w1, CompleteStep(step.id, attempt, at, result));
            && Merged(w1.run.vars, result, w2.run.vars)
            && IsWaiting(def, w2.run, step, OfTime(at)) && Is(def, after, OfTime(at), fate)
            && (fate.Waiting? || fate.TimedOut?)
            && History(def, w2, after)
               == if fate.Waiting? then w2 else GoesOn(def, w2, step, step.next, after, fate.turn)
  {
    var w1 := History(def, w, before);
    var w2 := Apply(def, w1, CompleteStep(step.id, attempt, at, result));
    ResultIsTaken(def, w1, step.id, attempt, at, result);
    HistoryIsOrderly(def, w, before);
    fate := EveryOrder(def, w2, step, OfTime(at), after);
  }
}
