/** The boundary of the memory store: everything that goes in or comes out is
    copied field by field, so callers and store share nothing they can write. */
module StoreBoundary {
  import opened Domain
  import opened DottedKeys
  import opened Isolation

  // ------------------------------------------------- pointers and records

  /** What a pointer to a scalar points to. */
  class Cell {
    var v: Value

    constructor (v: Value)
      ensures this.v == v
    {
      this.v := v;
    }
  }

  /** The reference fields of a run; the others are plain values. */
  datatype RunRecord = RunRecord(
    tenantId: Cell?,
    inputs: Any,
    variables: Any,
    terminalAt: Cell?,
    triggerId: Cell?,
    parentRunId: Cell?,
    parentStepId: Cell?,
    parentBranchId: Cell?,
    tryCatchStack: Any,
    wakeupAt: Cell?,
    awaitedSignal: Cell?,
    awaitedEventTopic: Cell?,
    awaitedEventHeaders: Any,
    featureOverrides: Any,
    awaitedActionDispatch: Cell?,
    lastError: Cell?)

  class Compensation {
    var action: Key
    var inputs: Any

    constructor (action: Key, inputs: Any)
      ensures this.action == action && this.inputs == inputs
    {
      this.action, this.inputs := action, inputs;
    }
  }

  datatype StepRecord = StepRecord(
    id: Key,
    inputs: Any,
    compensation: Compensation?,
    retry: Cell?,
    branches: Any,
    extra: Any)

  /** The backing array of a definition's steps. */
  class Steps {
    var all: seq<StepRecord>

    constructor (all: seq<StepRecord>)
      ensures this.all == all
    {
      this.all := all;
    }
  }

  datatype DefinitionRecord = DefinitionRecord(
    id: Key,
    tenantId: Cell?,
    entrypoints: Any,
    steps: Steps?)

  // ------------------------------------------------- what they stand for

  datatype RunValue = RunValue(
    tenantId: Option<Value>,
    inputs: Value,
    variables: Value,
    terminalAt: Option<Value>,
    triggerId: Option<Value>,
    parentRunId: Option<Value>,
    parentStepId: Option<Value>,
    parentBranchId: Option<Value>,
    tryCatchStack: Value,
    wakeupAt: Option<Value>,
    awaitedSignal: Option<Value>,
    awaitedEventTopic: Option<Value>,
    awaitedEventHeaders: Value,
    featureOverrides: Value,
    awaitedActionDispatch: Option<Value>,
    lastError: Option<Value>)

  datatype CompensationValue = CompensationValue(action: Key, inputs: Value)

  datatype StepValue = StepValue(
    id: Key,
    inputs: Value,
    compensation: Option<CompensationValue>,
    retry: Option<Value>,
    branches: Value,
    extra: Value)

  datatype DefinitionValue = DefinitionValue(
    id: Key,
    tenantId: Option<Value>,
    entrypoints: Value,
    steps: Option<seq<StepValue>>)

  ghost predicate Points(c: Cell?, v: Option<Value>, s: set<object>)
    reads s
  {
    if c == null then v.None? else c in s && v == Some(c.v)
  }

  ghost predicate AllPoint(cs: seq<Cell?>, vs: seq<Option<Value>>, s: set<object>)
    reads s
  {
    |cs| == |vs| && forall i :: 0 <= i < |cs| ==> Points(cs[i], vs[i], s)
  }

  /** Several maps and slices, their first nodes included. */
  ghost predicate AllRepresent(fs: seq<Any>, vs: seq<Value>, s: set<object>)
    reads s
  {
    |fs| == |vs| && forall i :: 0 <= i < |fs| ==> Represents(fs[i], vs[i], s) && PointsInto(fs[i], s)
  }

  /** The pointer fields of a run but for the wakeup, in the order of the record. */
  function Pointers(r: RunRecord): seq<Cell?>
  {
    [r.tenantId, r.terminalAt, r.triggerId, r.parentRunId, r.parentStepId, r.parentBranchId,
     r.awaitedSignal, r.awaitedEventTopic, r.awaitedActionDispatch, r.lastError]
  }

  function PointerValues(v: RunValue): seq<Option<Value>>
  {
    [v.tenantId, v.terminalAt, v.triggerId, v.parentRunId, v.parentStepId, v.parentBranchId,
     v.awaitedSignal, v.awaitedEventTopic, v.awaitedActionDispatch, v.lastError]
  }

  /** Its maps and slices but for the variables. */
  function Maps(r: RunRecord): seq<Any>
  {
    [r.inputs, r.tryCatchStack, r.awaitedEventHeaders, r.featureOverrides]
  }

  function MapValues(v: RunValue): seq<Value>
  {
    [v.inputs, v.tryCatchStack, v.awaitedEventHeaders, v.featureOverrides]
  }

  /** All of a run but its variables and its wakeup. */
  ghost predicate RestIs(r: RunRecord, v: RunValue, s: set<object>)
    reads s
  {
    AllPoint(Pointers(r), PointerValues(v), s) && AllRepresent(Maps(r), MapValues(v), s)
  }

  ghost predicate RunIs(r: RunRecord, v: RunValue, s: set<object>)
    reads s
  {
    && RestIs(r, v, s) && Represents(r.variables, v.variables, s) && Points(r.wakeupAt, v.wakeupAt, s)
  }

  ghost predicate CompensationIs(c: Compensation?, v: Option<CompensationValue>, s: set<object>)
    reads s
  {
    if c == null then v.None?
    else c in s && v.Some? && v.value.action == c.action && Represents(c.inputs, v.value.inputs, s)
  }

  ghost predicate StepIs(st: StepRecord, v: StepValue, s: set<object>)
    reads s
  {
    && st.id == v.id && CompensationIs(st.compensation, v.compensation, s) && Points(st.retry, v.retry, s)
    && AllRepresent([st.inputs, st.branches, st.extra], [v.inputs, v.branches, v.extra], s)
  }

  ghost predicate AllStepsAre(all: seq<StepRecord>, vs: seq<StepValue>, s: set<object>)
    reads s
  {
    |all| == |vs| && forall i :: 0 <= i < |all| ==> StepIs(all[i], vs[i], s)
  }

  ghost predicate DefinitionIs(d: DefinitionRecord, v: DefinitionValue, s: set<object>)
    reads s
  {
    && d.id == v.id && Points(d.tenantId, v.tenantId, s) && Represents(d.entrypoints, v.entrypoints, s)
    && if d.steps == null then v.steps.None?
       else d.steps in s && v.steps.Some? && AllStepsAre(d.steps.all, v.steps.value, s)
  }

  // ------------------------------------------------- what a caller can reach

  ghost predicate Reaches(c: Cell?, s: set<object>)
  {
    c != null ==> c in s
  }

  ghost predicate StepWithin(st: StepRecord, s: set<object>)
  {
    && PointsInto(st.inputs, s) && (st.compensation != null ==> st.compensation in s) && Reaches(st.retry, s)
    && PointsInto(st.branches, s) && PointsInto(st.extra, s)
  }

  ghost predicate AllWithin(all: seq<StepRecord>, s: set<object>)
  {
    forall i :: 0 <= i < |all| ==> StepWithin(all[i], s)
  }

  /** Nothing outside is reachable from these objects. */
  ghost predicate Sealed(s: set<object>)
    reads s
  {
    && (forall n: Node :: n in s ==>
          && (forall k :: k in n.fields ==> PointsInto(n.fields[k], s))
          && (forall i :: 0 <= i < |n.items| ==> PointsInto(n.items[i], s)))
    && (forall c: Compensation :: c in s ==> PointsInto(c.inputs, s))
    && (forall a: Steps :: a in s ==> AllWithin(a.all, s))
  }

  // ------------------------------------------------- copies, field by field

  lemma SealedTogether(s: set<object>, t: set<object>)
    requires Sealed(s) && Sealed(t)
    ensures Sealed(s + t)
  {
  }

  method ClonePtr(c: Cell?, ghost v: Option<Value>, ghost s: set<object>) returns (out: Cell?, ghost t: set<object>)
    requires Points(c, v, s)
    ensures Points(out, v, t) && fresh(t) && Sealed(t)
  {
    out, t := null, {};
    if c != null {
      out := new Cell(c.v);
      t := {out};
    }
  }

  method CloneField(a: Any, ghost v: Value, ghost s: set<object>) returns (out: Any, ghost t: set<object>)
    requires Represents(a, v, s)
    ensures Represents(out, v, t) && fresh(t) && Sealed(t) && PointsInto(out, t)
  {
    out := CloneAny(a, v, s);
    t := ReprOf(out);
    if out.Ref? {
      TreeRepresents(out.n);
    }
  }

  method CloneCompensation(c: Compensation?, ghost v: Option<CompensationValue>, ghost s: set<object>)
    returns (out: Compensation?, ghost t: set<object>)
    requires CompensationIs(c, v, s)
    ensures CompensationIs(out, v, t) && fresh(t) && Sealed(t)
  {
    out, t := null, {};
    if c != null {
      ghost var below: set<object>;
      var inputs: Any;
      inputs, below := CloneField(c.inputs, v.value.inputs, s);
      out := new Compensation(c.action, inputs);
      t := below + {out};
      RepresentsMore(inputs, v.value.inputs, below, t);
    }
  }

  /** clonePtr, for several fields. */
  method ClonePtrs(cs: seq<Cell?>, ghost vs: seq<Option<Value>>, ghost s: set<object>)
    returns (out: seq<Cell?>, ghost t: set<object>)
    requires AllPoint(cs, vs, s)
    ensures AllPoint(out, vs, t) && fresh(t) && Sealed(t)
  {
    out, t := [], {};
    for i := 0 to |cs|
      invariant AllPoint(cs, vs, s) && AllPoint(out, vs[..i], t) && fresh(t) && Sealed(t)
    {
      ghost var added: set<object>;
      var c;
      c, added := ClonePtr(cs[i], vs[i], s);
      SealedTogether(t, added);
      out, t := out + [c], t + added;
    }
    assert vs[..|cs|] == vs;
  }

  lemma AllRepresentMore(fs: seq<Any>, vs: seq<Value>, s: set<object>, t: set<object>)
    requires AllRepresent(fs, vs, s) && s <= t
    ensures AllRepresent(fs, vs, t)
  {
    forall i | 0 <= i < |fs| ensures Represents(fs[i], vs[i], t) && PointsInto(fs[i], t) {
      RepresentsMore(fs[i], vs[i], s, t);
    }
  }

  /** cloneMap and the like, for several fields. */
  method CloneFields(fs: seq<Any>, ghost vs: seq<Value>, ghost s: set<object>)
    returns (out: seq<Any>, ghost t: set<object>)
    requires AllRepresent(fs, vs, s)
    ensures AllRepresent(out, vs, t) && fresh(t) && Sealed(t)
  {
    out, t := [], {};
    for i := 0 to |fs|
      invariant AllRepresent(fs, vs, s)
      invariant AllRepresent(out, vs[..i], t) && fresh(t) && Sealed(t)
    {
      out, t := CloneOneMore(fs[i], vs[i], s, out, vs[..i], t);
      assert vs[..i + 1] == vs[..i] + [vs[i]];
    }
    assert vs[..|fs|] == vs;
  }

  method CloneOneMore(f: Any, ghost v: Value, ghost s: set<object>, done: seq<Any>, ghost vs: seq<Value>,
                      ghost t: set<object>)
    returns (out: seq<Any>, ghost t': set<object>)
    requires Represents(f, v, s) && AllRepresent(done, vs, t) && Sealed(t)
    ensures AllRepresent(out, vs + [v], t') && fresh(t' - t) && Sealed(t')
  {
    ghost var added: set<object>;
    var copy;
    copy, added := CloneField(f, v, s);
    out, t' := done + [copy], t + added;
    AllRepresentMore(done, vs, t, t');
    RepresentsMore(copy, v, added, t');
    SealedTogether(t, added);
  }

  /** cloneStep. */
  method CloneStep(st: StepRecord, ghost v: StepValue, ghost s: set<object>)
    returns (out: StepRecord, ghost t: set<object>)
    requires StepIs(st, v, s)
    ensures StepIs(out, v, t) && StepWithin(out, t) && fresh(t) && Sealed(t)
  {
    ghost var t1, t2, t3: set<object>;
    var maps, compensation, retry;
    retry, t3 := ClonePtr(st.retry, v.retry, s);
    compensation, t2 := CloneCompensation(st.compensation, v.compensation, s);
    maps, t1 := CloneFields([st.inputs, st.branches, st.extra], [v.inputs, v.branches, v.extra], s);
    out := st.(inputs := maps[0], compensation := compensation, retry := retry, branches := maps[1], extra := maps[2]);
    t := t1 + t2 + t3;
    assert [out.inputs, out.branches, out.extra] == maps;
    StepFields(out, v, t1, t2, t3);
  }

  lemma StepFields(st: StepRecord, v: StepValue, t1: set<object>, t2: set<object>, t3: set<object>)
    requires st.id == v.id
    requires AllRepresent([st.inputs, st.branches, st.extra], [v.inputs, v.branches, v.extra], t1) && Sealed(t1)
    requires CompensationIs(st.compensation, v.compensation, t2) && Sealed(t2)
    requires Points(st.retry, v.retry, t3) && Sealed(t3)
    ensures var t := t1 + t2 + t3; StepIs(st, v, t) && StepWithin(st, t) && Sealed(t)
  {
    var t := t1 + t2 + t3;
    var fs := [st.inputs, st.branches, st.extra];
    AllRepresentMore(fs, [v.inputs, v.branches, v.extra], t1, t);
    assert PointsInto(fs[0], t) && PointsInto(fs[1], t) && PointsInto(fs[2], t);
    CompensationMore(st.compensation, v.compensation, t2, t);
    SealedTogether(t1, t2);
    SealedTogether(t1 + t2, t3);
  }

  lemma CompensationMore(c: Compensation?, v: Option<CompensationValue>, s: set<object>, t: set<object>)
    requires CompensationIs(c, v, s) && s <= t
    ensures CompensationIs(c, v, t)
  {
    if c != null {
      RepresentsMore(c.inputs, v.value.inputs, s, t);
    }
  }

  lemma StepMore(st: StepRecord, v: StepValue, s: set<object>, t: set<object>)
    requires StepIs(st, v, s) && s <= t
    ensures StepIs(st, v, t)
  {
    AllRepresentMore([st.inputs, st.branches, st.extra], [v.inputs, v.branches, v.extra], s, t);
    CompensationMore(st.compensation, v.compensation, s, t);
  }

  lemma AllStepsMore(all: seq<StepRecord>, vs: seq<StepValue>, s: set<object>, t: set<object>)
    requires AllStepsAre(all, vs, s) && s <= t
    ensures AllStepsAre(all, vs, t)
  {
    forall i | 0 <= i < |all| ensures StepIs(all[i], vs[i], t) {
      StepMore(all[i], vs[i], s, t);
    }
  }

  lemma DefinitionMore(d: DefinitionRecord, v: DefinitionValue, s: set<object>, t: set<object>)
    requires DefinitionIs(d, v, s) && s <= t
    ensures DefinitionIs(d, v, t)
  {
    RepresentsMore(d.entrypoints, v.entrypoints, s, t);
    if d.steps != null {
      AllStepsMore(d.steps.all, v.steps.value, s, t);
    }
  }

  method CloneSteps(all: seq<StepRecord>, ghost vs: seq<StepValue>, ghost s: set<object>)
    returns (out: seq<StepRecord>, ghost t: set<object>)
    requires AllStepsAre(all, vs, s)
    ensures AllStepsAre(out, vs, t) && AllWithin(out, t) && fresh(t) && Sealed(t)
  {
    out, t := [], {};
    for i := 0 to |all|
      invariant AllStepsAre(all, vs, s)
      invariant AllStepsAre(out, vs[..i], t) && AllWithin(out, t) && fresh(t) && Sealed(t)
    {
      out, t := CloneNext(all[i], vs[i], s, out, vs[..i], t);
      assert vs[..i + 1] == vs[..i] + [vs[i]];
    }
    assert vs[..|all|] == vs;
  }

  method CloneNext(st: StepRecord, ghost v: StepValue, ghost s: set<object>, done: seq<StepRecord>,
                   ghost vs: seq<StepValue>, ghost t: set<object>)
    returns (out: seq<StepRecord>, ghost t': set<object>)
    requires StepIs(st, v, s) && AllStepsAre(done, vs, t) && AllWithin(done, t) && Sealed(t)
    ensures AllStepsAre(out, vs + [v], t') && AllWithin(out, t') && fresh(t' - t) && Sealed(t')
  {
    ghost var added: set<object>;
    var copy;
    copy, added := CloneStep(st, v, s);
    out, t' := done + [copy], t + added;
    AllStepsMore(done, vs, t, t');
    StepMore(copy, v, added, t');
    SealedTogether(t, added);
  }

  method CloneDefinition(d: DefinitionRecord, ghost v: DefinitionValue, ghost s: set<object>)
    returns (out: DefinitionRecord, ghost t: set<object>)
    requires DefinitionIs(d, v, s)
    ensures DefinitionIs(out, v, t) && fresh(t) && Sealed(t)
    ensures PointsInto(out.entrypoints, t)
  {
    ghost var t1, t2, t3: set<object>;
    var tenantId, entrypoints;
    tenantId, t1 := ClonePtr(d.tenantId, v.tenantId, s);
    entrypoints, t2 := CloneField(d.entrypoints, v.entrypoints, s);
    var steps: Steps? := null;
    t3 := {};
    if d.steps != null {
      steps, t3 := CloneArray(d.steps, v.steps.value, s);
    }
    out := DefinitionRecord(d.id, tenantId, entrypoints, steps);
    t := t1 + t2 + t3;
    DefinitionFields(out, v, t1, t2, t3);
  }

  method CloneArray(steps: Steps, ghost vs: seq<StepValue>, ghost s: set<object>)
    returns (out: Steps, ghost t: set<object>)
    requires AllStepsAre(steps.all, vs, s)
    ensures out in t && AllStepsAre(out.all, vs, t) && fresh(t) && Sealed(t)
  {
    ghost var below: set<object>;
    var all;
    all, below := CloneSteps(steps.all, vs, s);
    out := new Steps(all);
    t := below + {out};
    AllStepsMore(all, vs, below, t);
  }

  lemma DefinitionFields(d: DefinitionRecord, v: DefinitionValue, t1: set<object>, t2: set<object>, t3: set<object>)
    requires d.id == v.id && Points(d.tenantId, v.tenantId, t1) && Sealed(t1)
    requires Represents(d.entrypoints, v.entrypoints, t2) && Sealed(t2) && Sealed(t3)
    requires if d.steps == null then v.steps.None?
             else d.steps in t3 && v.steps.Some? && AllStepsAre(d.steps.all, v.steps.value, t3)
    ensures DefinitionIs(d, v, t1 + t2 + t3) && Sealed(t1 + t2 + t3)
  {
    var t := t1 + t2 + t3;
    RepresentsMore(d.entrypoints, v.entrypoints, t2, t);
    if d.steps != null {
      AllStepsMore(d.steps.all, v.steps.value, t3, t);
    }
    SealedTogether(t1, t2);
    SealedTogether(t1 + t2, t3);
  }


  lemma PointersKept(cs: seq<Cell?>, r: RunRecord)
    requires |cs| == 10
    ensures var out := WithPointers(r, cs); Pointers(out) == cs && Maps(out) == Maps(r)
    ensures WithPointers(r, cs).variables == r.variables && WithPointers(r, cs).wakeupAt == r.wakeupAt
  {
  }

  function WithPointers(r: RunRecord, cs: seq<Cell?>): RunRecord
    requires |cs| == 10
  {
    r.(tenantId := cs[0], terminalAt := cs[1], triggerId := cs[2], parentRunId := cs[3], parentStepId := cs[4],
       parentBranchId := cs[5], awaitedSignal := cs[6], awaitedEventTopic := cs[7], awaitedActionDispatch := cs[8],
       lastError := cs[9])
  }

  function WithMaps(r: RunRecord, ms: seq<Any>): RunRecord
    requires |ms| == 4
  {
    r.(inputs := ms[0], tryCatchStack := ms[1], awaitedEventHeaders := ms[2], featureOverrides := ms[3])
  }

  /** cloneRun, all but the variables. */
  method CloneRest(r: RunRecord, ghost v: RunValue, ghost s: set<object>) returns (out: RunRecord, ghost t: set<object>)
    requires RestIs(r, v, s)
    ensures RestIs(out, v, t) && fresh(t) && Sealed(t)
    ensures out.variables == r.variables && out.wakeupAt == r.wakeupAt
  {
    ghost var t1, t2: set<object>;
    var cs, ms;
    cs, t1 := ClonePtrs(Pointers(r), PointerValues(v), s);
    ms, t2 := CloneFields(Maps(r), MapValues(v), s);
    out := WithMaps(WithPointers(r, cs), ms);
    t := t1 + t2;
    PointersKept(cs, r);
    assert Pointers(out) == Pointers(WithPointers(r, cs)) && Maps(out) == ms;
    AllRepresentMore(ms, MapValues(v), t2, t);
    SealedTogether(t1, t2);
  }

  /** cloneRun. The copy of the variables is a tree apart from the rest. */
  method CloneRun(r: RunRecord, ghost v: RunValue, ghost s: set<object>) returns (out: RunRecord, ghost t: set<object>)
    requires RunIs(r, v, s)
    ensures RestIs(out, v, t) && Points(out.wakeupAt, v.wakeupAt, t) && fresh(t) && Sealed(t)
    ensures ValidAny(out.variables) && ValueOf(out.variables) == v.variables
    ensures fresh(ReprOf(out.variables)) && ReprOf(out.variables) !! t && Closed(ReprOf(out.variables))
  {
    ghost var t1, t2: set<object>;
    out, t1 := CloneRest(r, v, s);
    var wakeup;
    wakeup, t2 := ClonePtr(r.wakeupAt, v.wakeupAt, s);
    t := t1 + t2;
    SealedTogether(t1, t2);
    RestMore(out, v, t1, t);
    var variables := CloneAny(r.variables, v.variables, s);
    out := out.(variables := variables, wakeupAt := wakeup);
  }

  lemma RestMore(r: RunRecord, v: RunValue, s: set<object>, t: set<object>)
    requires RestIs(r, v, s) && s <= t
    ensures RestIs(r, v, t)
  {
    AllRepresentMore(Maps(r), MapValues(v), s, t);
  }

  /** A nil map reads as an empty one. */
  function VarsOf(v: Value): Vars
    requires v.Map? || v.Null?
  {
    if v.Map? then v.m else map[]
  }

  /** Write in place into the tree of the variables; a run without variables
      gets an empty map first. */
  method WriteVariables(variables: Any, key: Key, v: Any) returns (out: Any)
    requires ValidAny(variables) && (ValueOf(variables).Map? || ValueOf(variables).Null?)
    requires ValidAny(v) && ReprOf(v) !! ReprOf(variables)
    modifies ReprOf(variables)
    ensures ValidAny(out) && fresh(ReprOf(out) - old(ReprOf(variables)) - old(ReprOf(v)))
    ensures ValueOf(out) == Map(DottedKeys.Put(VarsOf(old(ValueOf(variables))), Segments(key), old(ValueOf(v))))
  {
    var path := SplitKey(key);
    if variables.Ref? {
      ApplyPath(variables.n, path, v);
      out := variables;
    } else {
      var nested := Chain(path, v);
      out := Ref(nested);
    }
  }

  // ------------------------------------------------- the store

  /** One run of the store. */
  class StoredRun {
    var record: RunRecord
    ghost var value: RunValue          // what the record stands for, but for the wakeup
    ghost var owned: set<object>       // what the store allocated for it, but for the variables

    ghost predicate Valid()
      reads this, owned
      reads if record.variables.Ref? then {record.variables.n} else {}
      reads ReprOf(record.variables)
    {
      && this !in owned && RestIs(record, value, owned) && (value.variables.Map? || value.variables.Null?)
      && ValidAny(record.variables) && ValueOf(record.variables) == value.variables
      && ReprOf(record.variables) !! owned
    }

    /** Everything the store may write or read for this run, but for the wakeup. */
    ghost function Footprint(): set<object>
      reads this
      reads if record.variables.Ref? then {record.variables.n} else {}
    {
      {this} + owned + ReprOf(record.variables)
    }

    ghost function Wakeup(): Option<Value>
      reads this, if record.wakeupAt != null then {record.wakeupAt} else {}
    {
      if record.wakeupAt == null then None else Some(record.wakeupAt.v)
    }

    /** CreateRun. */
    constructor (r: RunRecord, ghost v: RunValue, ghost s: set<object>)
      requires RunIs(r, v, s) && (v.variables.Map? || v.variables.Null?)
      ensures Valid() && fresh(Footprint()) && value == v && Wakeup() == v.wakeupAt
      ensures record.wakeupAt != null ==> fresh(record.wakeupAt)
    {
      ghost var t: set<object>;
      var copy;
      copy, t := CloneRun(r, v, s);
      record, value, owned := copy, v, t;
    }

    /** GetRun. */
    method Get() returns (r: RunRecord, ghost t: set<object>)
      requires Valid()
      ensures RunIs(r, value.(wakeupAt := Wakeup()), t) && fresh(t) && Sealed(t)
    {
      ghost var v := value.(wakeupAt := Wakeup());
      ghost var s := Footprint() + if record.wakeupAt != null then {record.wakeupAt} else {};
      RestMore(record, value, owned, s);
      VariablesIn(record.variables, s);
      ghost var rest: set<object>;
      r, rest := CloneRun(record, v, s);
      t := rest + ReprOf(r.variables);
      RestMore(r, v, rest, t);
      VariablesIn(r.variables, t);
      ghost var tree: set<object> := ReprOf(r.variables);
      assert Sealed(tree);
      SealedTogether(rest, tree);
    }

    /** The run with this tree for its variables. */
    method Attach(variables: Any)
      requires this !in owned && RestIs(record, value, owned)
      requires ValidAny(variables) && ValueOf(variables).Map? && ReprOf(variables) !! owned
      modifies this`record, this`value
      ensures Valid() && owned == old(owned) && record.variables == variables
      ensures ReprOf(variables) == old(ReprOf(variables))
      ensures value == old(value).(variables := old(ValueOf(variables))) && record.wakeupAt == old(record.wakeupAt)
    {
      RestIgnores(record, value, owned, variables, ValueOf(variables), record.wakeupAt);
      record, value := record.(variables := variables), value.(variables := ValueOf(variables));
    }

    /** The copied value is written into the stored tree, in place. */
    method WriteInPlace(key: Key, v: Any)
      requires Valid() && ValidAny(v) && ReprOf(v) !! Footprint()
      modifies this`record, this`value, ReprOf(record.variables)
      ensures Valid() && fresh(Footprint() - old(Footprint()) - old(ReprOf(v)))
      ensures value == Updated(old(value), key, old(ValueOf(v))) && record.wakeupAt == old(record.wakeupAt)
    {
      ghost var maps, values := Maps(record), MapValues(value);
      assert AllRepresent(maps, values, owned);
      var variables := WriteVariables(record.variables, key, v);
      assert maps == Maps(record) && values == MapValues(value) && owned == old(owned);
      Attach(variables);
    }

    /** One entry of UpdateRunVariables: the argument is copied, then written. */
    method Update(key: Key, a: Any, ghost v: Value, ghost s: set<object>)
      requires Valid() && Represents(a, v, s)
      modifies this`record, this`value, ReprOf(record.variables)
      ensures Valid() && fresh(Footprint() - old(Footprint())) && value == Updated(old(value), key, v)
      ensures record.wakeupAt == old(record.wakeupAt)
    {
      var copy := CloneAny(a, v, s);
      WriteInPlace(key, copy);
    }

    /** SetPausedAwaitingSignal: the name and a deadline are copied. */
    method AwaitSignal(name: Value, deadline: Cell?)
      requires Valid()
      modifies this
      ensures Valid() && fresh(Footprint() - old(Footprint()))
      ensures value == old(value).(awaitedSignal := Some(name))
      ensures if deadline == null then record.wakeupAt == old(record.wakeupAt)
              else record.wakeupAt != null && fresh(record.wakeupAt) && record.wakeupAt.v == old(deadline.v)
    {
      var at := record.wakeupAt;
      if deadline != null {
        at := new Cell(deadline.v);
      }
      AwaitUntil(name, at);
    }

    method AwaitUntil(name: Value, at: Cell?)
      requires Valid()
      modifies this
      ensures Valid() && fresh(Footprint() - old(Footprint()))
      ensures value == old(value).(awaitedSignal := Some(name)) && record.wakeupAt == at
    {
      var signal := new Cell(name);
      RestAwaitsSignal(record, value, owned, signal, at);
      record, value := record.(awaitedSignal := signal, wakeupAt := at), value.(awaitedSignal := Some(name));
      owned := owned + {signal};
    }

    /** SetPausedAwaitingEventWithDeadline: topic and headers are copied, nil
        headers become an empty map, and the caller's deadline is kept. */
    method AwaitEvent(topic: Value, headers: Any, deadline: Cell?, ghost v: Value, ghost s: set<object>)
      requires Valid() && Represents(headers, v, s) && (v.Map? || v.Null?)
      modifies this
      ensures Valid() && fresh(Footprint() - old(Footprint()))
      ensures value == old(value).(awaitedEventTopic := Some(topic), awaitedEventHeaders := Map(VarsOf(v)))
      ensures record.wakeupAt == deadline
    {
      var copy, below := CloneHeaders(headers, v, s);
      Await(topic, copy, Map(VarsOf(v)), below, deadline);
    }

    method Await(topic: Value, headers: Any, ghost w: Value, ghost below: set<object>, deadline: Cell?)
      requires Valid() && Represents(headers, w, below) && PointsInto(headers, below) && below !! Footprint()
      modifies this
      ensures Valid() && fresh(Footprint() - old(Footprint()) - below)
      ensures value == old(value).(awaitedEventTopic := Some(topic), awaitedEventHeaders := w)
      ensures record.wakeupAt == deadline
    {
      var cell := new Cell(topic);
      RestAwaitsEvent(record, value, owned, cell, headers, w, below, deadline);
      record := record.(awaitedEventTopic := cell, awaitedEventHeaders := headers, wakeupAt := deadline);
      value := value.(awaitedEventTopic := Some(topic), awaitedEventHeaders := w);
      owned := owned + {cell} + below;
    }
  }

  function Updated(v: RunValue, key: Key, w: Value): RunValue
    requires v.variables.Map? || v.variables.Null?
  {
    v.(variables := Map(DottedKeys.Put(VarsOf(v.variables), Segments(key), w)))
  }

  method CloneHeaders(a: Any, ghost v: Value, ghost s: set<object>) returns (out: Any, ghost t: set<object>)
    requires Represents(a, v, s) && (v.Map? || v.Null?)
    ensures Represents(out, Map(VarsOf(v)), t) && PointsInto(out, t) && fresh(t)
  {
    if a.Atom? {
      var empty := new Node(false);
      out, t := Ref(empty), {empty};
    } else {
      out, t := CloneField(a, v, s);
    }
  }

  lemma RestIgnores(r: RunRecord, v: RunValue, s: set<object>, a: Any, w: Value, c: Cell?)
    requires RestIs(r, v, s)
    ensures RestIs(r.(variables := a, wakeupAt := c), v.(variables := w), s)
  {
    var r' := r.(variables := a, wakeupAt := c);
    assert Pointers(r') == Pointers(r) && Maps(r') == Maps(r);
  }

  lemma RestAwaitsSignal(r: RunRecord, v: RunValue, s: set<object>, signal: Cell, at: Cell?)
    requires RestIs(r, v, s)
    ensures RestIs(r.(awaitedSignal := signal, wakeupAt := at), v.(awaitedSignal := Some(signal.v)), s + {signal})
  {
    var r', v' := r.(awaitedSignal := signal, wakeupAt := at), v.(awaitedSignal := Some(signal.v));
    RestMore(r, v, s, s + {signal});
    assert Pointers(r') == Pointers(r)[6 := signal] && Maps(r') == Maps(r);
    assert PointerValues(v') == PointerValues(v)[6 := Some(signal.v)] && MapValues(v') == MapValues(v);
  }

  lemma RestAwaitsEvent(r: RunRecord, v: RunValue, s: set<object>, topic: Cell, headers: Any, w: Value,
                        below: set<object>, at: Cell?)
    requires RestIs(r, v, s) && Represents(headers, w, below) && PointsInto(headers, below)
    ensures RestIs(r.(awaitedEventTopic := topic, awaitedEventHeaders := headers, wakeupAt := at),
                   v.(awaitedEventTopic := Some(topic.v), awaitedEventHeaders := w), s + {topic} + below)
  {
    var t := s + {topic} + below;
    var r' := r.(awaitedEventTopic := topic, awaitedEventHeaders := headers, wakeupAt := at);
    var v' := v.(awaitedEventTopic := Some(topic.v), awaitedEventHeaders := w);
    RestMore(r, v, s, t);
    RepresentsMore(headers, w, below, t);
    assert Pointers(r') == Pointers(r)[7 := topic] && Maps(r') == Maps(r)[2 := headers];
    assert PointerValues(v') == PointerValues(v)[7 := Some(topic.v)] && MapValues(v') == MapValues(v)[2 := w];
  }

  lemma VariablesIn(a: Any, s: set<object>)
    requires ValidAny(a) && ReprOf(a) <= s
    ensures Represents(a, ValueOf(a), s)
  {
    if a.Ref? {
      TreeRepresents(a.n);
      RepresentsMore(a, a.n.value, a.n.repr, s);
    }
  }

  /** The definitions of the store, by storage ID. */
  class StoredDefinitions {
    var defs: seq<DefinitionRecord>
    ghost var values: seq<DefinitionValue>
    ghost var owned: set<object>

    ghost predicate Valid()
      reads this, owned
    {
      && this !in owned && |defs| == |values|
      && forall i :: 0 <= i < |defs| ==> DefinitionIs(defs[i], values[i], owned)
    }

    ghost function Footprint(): set<object>
      reads this
    {
      {this} + owned
    }

    constructor ()
      ensures Valid() && fresh(Footprint()) && values == []
    {
      defs, values, owned := [], [], {};
    }

    /** UpsertWorkflowDefinition: a copy under a new storage ID. */
    method Upsert(d: DefinitionRecord, ghost v: DefinitionValue, ghost s: set<object>) returns (id: nat)
      requires Valid() && DefinitionIs(d, v, s)
      modifies this
      ensures Valid() && fresh(Footprint() - old(Footprint()))
      ensures id == |old(values)| && values == old(values) + [v]
    {
      ghost var t: set<object>;
      var copy;
      copy, t := CloneDefinition(d, v, s);
      ghost var all := owned + t;
      forall i | 0 <= i < |defs| ensures DefinitionIs(defs[i], values[i], all) {
        DefinitionMore(defs[i], values[i], owned, all);
      }
      DefinitionMore(copy, v, t, all);
      id := |defs|;
      defs, values, owned := defs + [copy], values + [v], all;
    }

    /** GetWorkflowDefinition: a copy, or none under that ID. */
    method Get(id: nat) returns (d: Option<DefinitionRecord>, ghost t: set<object>)
      requires Valid()
      ensures d.Some? <==> id < |values|
      ensures d.Some? ==> DefinitionIs(d.value, values[id], t) && PointsInto(d.value.entrypoints, t)
      ensures fresh(t) && Sealed(t)
    {
      d, t := None, {};
      if id < |defs| {
        var copy;
        copy, t := CloneDefinition(defs[id], values[id], owned);
        d := Some(copy);
      }
    }
  }

  /** Wakeup times are not isolated in the same way: a caller's later write to
      the deadline it passed reaches the store exactly when the run was paused
      for an event. */
  method DeadlineShared(run: StoredRun, deadline: Cell, name: Value, forEvent: bool, later: Value)
    returns (stored: Value)
    requires run.Valid() && deadline !in run.Footprint()
    modifies run, deadline
    ensures stored == if forEvent then later else old(deadline.v)
  {
    if forEvent {
      run.AwaitEvent(name, Atom(Null), deadline, Null, {});
    } else {
      run.AwaitSignal(name, deadline);
    }
    deadline.v := later;
    stored := run.record.wakeupAt.v;
  }
}
