/** A caller of the memory store: it keeps every argument it passed and every
    result it got, and goes on reading, writing and passing them. */
module Callers {
  import opened Domain
  import opened DottedKeys
  import opened Isolation
  import opened StoreBoundary

  // ------------------------------------------------- what a caller holds

  datatype Handle =
    | Val(a: Any)
    | Ptr(c: Cell?)
    | Undo(u: Compensation?)
    | Arr(steps: Steps?)
    | Def(d: DefinitionRecord)

  ghost predicate Within(h: Handle, s: set<object>)
  {
    match h
    case Val(a) => PointsInto(a, s)
    case Ptr(c) => Reaches(c, s)
    case Undo(u) => u != null ==> u in s
    case Arr(steps) => steps != null ==> steps in s
    case Def(d) => Reaches(d.tenantId, s) && PointsInto(d.entrypoints, s) && (d.steps != null ==> d.steps in s)
  }

  /** Whatever the caller can reach is in mine. */
  ghost predicate Holds(held: seq<Handle>, mine: set<object>)
    reads mine
  {
    Sealed(mine) && forall i :: 0 <= i < |held| ==> Within(held[i], mine)
  }

  // What is held under a number, with nil for the wrong kind or none.

  function ValueAt(held: seq<Handle>, i: nat): Any
  {
    if i < |held| && held[i].Val? then held[i].a else Atom(Null)
  }

  function PtrAt(held: seq<Handle>, i: nat): Cell?
  {
    if i < |held| && held[i].Ptr? then held[i].c else null
  }

  function UndoAt(held: seq<Handle>, i: nat): Compensation?
  {
    if i < |held| && held[i].Undo? then held[i].u else null
  }

  function ArrAt(held: seq<Handle>, i: nat): Steps?
  {
    if i < |held| && held[i].Arr? then held[i].steps else null
  }

  function DefAt(held: seq<Handle>, i: nat): Option<DefinitionRecord>
  {
    if i < |held| && held[i].Def? then Some(held[i].d) else None
  }

  // ------------------------------------------------- what it does by itself

  /** A step put together from what is held. */
  datatype StepParts = StepParts(id: Key, inputs: nat, compensation: nat, retry: nat, branches: nat, extra: nat)

  datatype Creation =
    | NewScalar(v: Value)
    | NewMap
    | NewList
    | NewPtr(v: Value)
    | NewUndo(action: Key, inputs: nat)
    | NewSteps
    | NewDefinition(id: Key, tenantId: nat, entrypoints: nat, steps: nat)

  datatype Load =
    | Field(i: nat, key: Key)
    | Item(i: nat, n: nat)
    | UndoInputs(i: nat)
    | StepAt(i: nat, n: nat)
    | Parts(i: nat)

  datatype Write =
    | SetField(i: nat, key: Key, j: nat)
    | AddItem(i: nat, j: nat)
    | SetItem(i: nat, n: nat, j: nat)
    | SetPtr(i: nat, v: Value)
    | SetUndo(i: nat, action: Key, j: nat)
    | AddStep(i: nat, parts: StepParts)
    | SetStep(i: nat, n: nat, parts: StepParts)

  method Create(held: seq<Handle>, ghost mine: set<object>, c: Creation) returns (h: Handle, ghost mine': set<object>)
    requires Holds(held, mine)
    ensures mine <= mine' && fresh(mine' - mine) && Sealed(mine') && Within(h, mine')
  {
    mine' := mine;
    match c {
      case NewScalar(v) => h := Val(Atom(v));
      case NewMap =>
        var n := new Node(false);
        h, mine' := Val(Ref(n)), mine + {n};
      case NewList =>
        var n := new Node(true);
        h, mine' := Val(Ref(n)), mine + {n};
      case NewPtr(v) =>
        var p := new Cell(v);
        h, mine' := Ptr(p), mine + {p};
      case NewUndo(action, i) =>
        var u := new Compensation(action, ValueAt(held, i));
        h, mine' := Undo(u), mine + {u};
      case NewSteps =>
        var a := new Steps([]);
        h, mine' := Arr(a), mine + {a};
      case NewDefinition(id, t, e, s) =>
        h := Def(DefinitionRecord(id, PtrAt(held, t), ValueAt(held, e), ArrAt(held, s)));
    }
  }

  function StepHandles(st: StepRecord): seq<Handle>
  {
    [Val(st.inputs), Undo(st.compensation), Ptr(st.retry), Val(st.branches), Val(st.extra)]
  }

  function DefinitionHandles(d: DefinitionRecord): seq<Handle>
  {
    [Ptr(d.tenantId), Val(d.entrypoints), Arr(d.steps)]
  }

  method Follow(held: seq<Handle>, ghost mine: set<object>, l: Load) returns (more: seq<Handle>)
    requires Holds(held, mine)
    ensures Holds(held + more, mine)
  {
    more := [];
    match l {
      case Field(i, key) =>
        var a := ValueAt(held, i);
        if a.Ref? && key in a.n.fields {
          more := [Val(a.n.fields[key])];
        }
      case Item(i, n) =>
        var a := ValueAt(held, i);
        if a.Ref? && n < |a.n.items| {
          more := [Val(a.n.items[n])];
        }
      case UndoInputs(i) =>
        var u := UndoAt(held, i);
        if u != null {
          more := [Val(u.inputs)];
        }
      case StepAt(i, n) =>
        var a := ArrAt(held, i);
        if a != null && n < |a.all| {
          more := StepHandles(a.all[n]);
        }
      case Parts(i) =>
        var d := DefAt(held, i);
        if d.Some? {
          more := DefinitionHandles(d.value);
        }
    }
  }

  function Assemble(held: seq<Handle>, p: StepParts): (st: StepRecord)
  {
    StepRecord(p.id, ValueAt(held, p.inputs), UndoAt(held, p.compensation), PtrAt(held, p.retry),
               ValueAt(held, p.branches), ValueAt(held, p.extra))
  }

  method Overwrite(held: seq<Handle>, ghost mine: set<object>, w: Write)
    requires Holds(held, mine)
    modifies mine
    ensures Holds(held, mine)
  {
    match w {
      case SetField(i, key, j) =>
        var a := ValueAt(held, i);
        if a.Ref? {
          a.n.fields := a.n.fields[key := ValueAt(held, j)];
        }
      case AddItem(i, j) =>
        var a := ValueAt(held, i);
        if a.Ref? {
          a.n.items := a.n.items + [ValueAt(held, j)];
        }
      case SetItem(i, n, j) =>
        var a := ValueAt(held, i);
        if a.Ref? && n < |a.n.items| {
          a.n.items := a.n.items[n := ValueAt(held, j)];
        }
      case SetPtr(i, v) =>
        var c := PtrAt(held, i);
        if c != null {
          c.v := v;
        }
      case SetUndo(i, action, j) =>
        var u := UndoAt(held, i);
        if u != null {
          u.action, u.inputs := action, ValueAt(held, j);
        }
      case AddStep(i, parts) =>
        var a := ArrAt(held, i);
        if a != null {
          a.all := a.all + [Assemble(held, parts)];
        }
      case SetStep(i, n, parts) =>
        var a := ArrAt(held, i);
        if a != null && n < |a.all| {
          a.all := a.all[n := Assemble(held, parts)];
        }
    }
  }

  // ------------------------------------------------- what it passes

  /** Does what is held stand for v just now? */
  predicate Matches(a: Any, v: Value, ghost s: set<object>)
    requires Sealed(s) && PointsInto(a, s)
    reads s
    ensures Matches(a, v, s) <==> Represents(a, v, s)
    decreases v
  {
    match v
    case Map(m) =>
      && a.Ref? && !a.n.list && a.n.fields.Keys == m.Keys
      && forall k | k in m :: Matches(a.n.fields[k], m[k], s)
    case List(items) =>
      && a.Ref? && a.n.list && |a.n.items| == |items|
      && forall i | 0 <= i < |items| :: Matches(a.n.items[i], items[i], s)
    case _ => a == Atom(v)
  }

  predicate PtrMatches(c: Cell?, v: Option<Value>, ghost s: set<object>)
    requires Reaches(c, s)
    reads s
    ensures PtrMatches(c, v, s) <==> Points(c, v, s)
  {
    if c == null then v.None? else v == Some(c.v)
  }

  predicate UndoMatches(u: Compensation?, v: Option<CompensationValue>, ghost s: set<object>)
    requires Sealed(s) && (u != null ==> u in s)
    reads s
    ensures UndoMatches(u, v, s) <==> CompensationIs(u, v, s)
  {
    if u == null then v.None? else v.Some? && v.value.action == u.action && Matches(u.inputs, v.value.inputs, s)
  }

  predicate StepMatches(st: StepRecord, v: StepValue, ghost s: set<object>)
    requires Sealed(s) && StepWithin(st, s)
    reads s
    ensures StepMatches(st, v, s) <==> StepIs(st, v, s)
  {
    var fs, vs := [st.inputs, st.branches, st.extra], [v.inputs, v.branches, v.extra];
    && st.id == v.id && UndoMatches(st.compensation, v.compensation, s) && PtrMatches(st.retry, v.retry, s)
    && forall i | 0 <= i < 3 :: Matches(fs[i], vs[i], s)
  }

  predicate DefinitionMatches(d: DefinitionRecord, v: DefinitionValue, ghost s: set<object>)
    requires Sealed(s) && Within(Def(d), s)
    reads s
    ensures DefinitionMatches(d, v, s) <==> DefinitionIs(d, v, s)
  {
    && d.id == v.id && PtrMatches(d.tenantId, v.tenantId, s) && Matches(d.entrypoints, v.entrypoints, s)
    && if d.steps == null then v.steps.None?
       else v.steps.Some? && |d.steps.all| == |v.steps.value|
            && forall i | 0 <= i < |d.steps.all| :: StepMatches(d.steps.all[i], v.steps.value[i], s)
  }

  // ------------------------------------------------- calls to the store

  /** A call passes what is held; the values written here are what the held
      arguments stand for when the call is made. */
  datatype Call =
    | Update(key: Key, i: nat, v: Value)
    | Upsert(i: nat, d: DefinitionValue)
    | ReadRun
    | ReadDefinition(id: nat)
    | AwaitSignal(name: Value, deadline: nat)
    | AwaitEvent(topic: Value, headers: nat, v: Value, deadline: nat)

  datatype Action = Make(creation: Creation) | Get(load: Load) | Put(write: Write) | Use(call: Call)

  /** What is stored: the run but for its wakeup, and the definitions. */
  datatype Contents = Contents(run: RunValue, definitions: seq<DefinitionValue>)

  predicate Typed(c: Contents)
  {
    c.run.variables.Map? || c.run.variables.Null?
  }

  function WaitsForEvent(r: RunValue, topic: Value, headers: Value): RunValue
    requires headers.Map? || headers.Null?
  {
    r.(awaitedEventTopic := Some(topic), awaitedEventHeaders := Map(VarsOf(headers)))
  }

  /** The calls alone decide what is stored. */
  function Effect(c: Contents, a: Action): (c': Contents)
    requires Typed(c)
    ensures Typed(c')
  {
    if !a.Use? then c
    else match a.call
      case Update(key, _, v) => c.(run := Updated(c.run, key, v))
      case Upsert(_, d) => c.(definitions := c.definitions + [d])
      case ReadRun => c
      case ReadDefinition(_) => c
      case AwaitSignal(name, _) => c.(run := c.run.(awaitedSignal := Some(name)))
      case AwaitEvent(topic, _, v, _) =>
        if v.Map? || v.Null? then
          c.(run := WaitsForEvent(c.run, topic, v))
        else c
  }

  /** What a script stores, given which of its actions took place. */
  function Replay(c: Contents, script: seq<Action>, done: seq<bool>): Contents
    requires Typed(c) && |done| == |script|
    decreases |script|
  {
    if script == [] then c
    else Replay(if done[0] then Effect(c, script[0]) else c, script[1..], done[1..])
  }

  /** Both parts of the store, and a caller that reaches into neither. */
  ghost predicate Apart(run: StoredRun, defs: StoredDefinitions, held: seq<Handle>, mine: set<object>)
    reads run, defs, mine
    reads if run.record.variables.Ref? then {run.record.variables.n} else {}
  {
    && Holds(held, mine) && mine !! run.Footprint() && mine !! defs.Footprint()
    && run.Footprint() !! defs.Footprint()
  }

  ghost function Stored(run: StoredRun, defs: StoredDefinitions): Contents
    reads run, defs
  {
    Contents(run.value, defs.values)
  }

  /** The store, and a caller that reaches into no part of it. */
  ghost predicate Ready(run: StoredRun, defs: StoredDefinitions, held: seq<Handle>, mine: set<object>)
    reads run, defs, mine, run.owned, defs.owned
    reads if run.record.variables.Ref? then {run.record.variables.n} else {}
    reads ReprOf(run.record.variables)
  {
    run.Valid() && defs.Valid() && Apart(run, defs, held, mine)
  }

  /** The arguments of a call stand for the values it is written with. */
  ghost predicate Passes(held: seq<Handle>, mine: set<object>, c: Call)
    reads mine
  {
    match c
    case Update(_, i, v) => Represents(ValueAt(held, i), v, mine)
    case Upsert(i, d) => DefAt(held, i).Some? && DefinitionIs(DefAt(held, i).value, d, mine)
    case AwaitEvent(_, i, v, _) => (v.Map? || v.Null?) && Represents(ValueAt(held, i), v, mine)
    case _ => true
  }

  method CallUpdate(run: StoredRun, defs: StoredDefinitions, held: seq<Handle>, ghost mine: set<object>, key: Key,
                    i: nat, v: Value)
    returns (done: bool)
    requires Ready(run, defs, held, mine)
    modifies run, ReprOf(run.record.variables)
    ensures Ready(run, defs, held, mine) && fresh(run.Footprint() - old(run.Footprint()))
    ensures done == old(Represents(ValueAt(held, i), v, mine))
    ensures run.value == if done then Updated(old(run.value), key, v) else old(run.value)
  {
    done := Matches(ValueAt(held, i), v, mine);
    if done {
      run.Update(key, ValueAt(held, i), v, mine);
    }
  }

  method CallUpsert(run: StoredRun, defs: StoredDefinitions, held: seq<Handle>, ghost mine: set<object>, i: nat,
                    v: DefinitionValue)
    returns (done: bool)
    requires Ready(run, defs, held, mine)
    modifies defs
    ensures Ready(run, defs, held, mine) && fresh(defs.Footprint() - old(defs.Footprint()))
    ensures done == old(Passes(held, mine, Upsert(i, v)))
    ensures defs.values == if done then old(defs.values) + [v] else old(defs.values)
  {
    var d := DefAt(held, i);
    done := d.Some? && DefinitionMatches(d.value, v, mine);
    if done {
      var id := defs.Upsert(d.value, v, mine);
    }
  }

  /** The references in a run that was read. */
  function RunHandles(r: RunRecord): seq<Handle>
  {
    var cs, fs := Pointers(r), Maps(r);
    seq(|cs|, i requires 0 <= i < |cs| => Ptr(cs[i])) + seq(|fs|, i requires 0 <= i < |fs| => Val(fs[i]))
    + [Ptr(r.wakeupAt), Val(r.variables)]
  }

  lemma RunHandlesWithin(r: RunRecord, v: RunValue, s: set<object>)
    requires RunIs(r, v, s)
    ensures forall i :: 0 <= i < |RunHandles(r)| ==> Within(RunHandles(r)[i], s)
  {
    var cs, fs := Pointers(r), Maps(r);
    assert forall i :: 0 <= i < |cs| ==> Points(cs[i], PointerValues(v)[i], s);
    assert forall i :: 0 <= i < |fs| ==> PointsInto(fs[i], s);
  }

  lemma HoldMore(held: seq<Handle>, mine: set<object>, more: seq<Handle>, t: set<object>)
    requires Holds(held, mine) && Holds(more, t)
    ensures Holds(held + more, mine + t)
  {
    SealedTogether(mine, t);
  }

  method CallRead(run: StoredRun, defs: StoredDefinitions, held: seq<Handle>, ghost mine: set<object>)
    returns (held': seq<Handle>, ghost mine': set<object>)
    requires Ready(run, defs, held, mine)
    ensures Ready(run, defs, held', mine') && mine <= mine' && fresh(mine' - mine)
  {
    ghost var t: set<object>;
    var r;
    r, t := run.Get();
    RunHandlesWithin(r, run.value.(wakeupAt := run.Wakeup()), t);
    held', mine' := held + RunHandles(r), mine + t;
    HoldMore(held, mine, RunHandles(r), t);
  }

  method CallReadDefinition(run: StoredRun, defs: StoredDefinitions, held: seq<Handle>, ghost mine: set<object>,
                            id: nat)
    returns (held': seq<Handle>, ghost mine': set<object>)
    requires Ready(run, defs, held, mine)
    ensures Ready(run, defs, held', mine') && mine <= mine' && fresh(mine' - mine)
  {
    ghost var t: set<object>;
    var d;
    d, t := defs.Get(id);
    held', mine' := held, mine;
    if d.Some? {
      held', mine' := held + [Def(d.value)], mine + t;
      HoldMore(held, mine, [Def(d.value)], t);
    }
  }

  method CallAwaitSignal(run: StoredRun, defs: StoredDefinitions, held: seq<Handle>, ghost mine: set<object>,
                         name: Value, i: nat)
    requires Ready(run, defs, held, mine)
    modifies run
    ensures Ready(run, defs, held, mine) && fresh(run.Footprint() - old(run.Footprint()))
    ensures run.value == old(run.value).(awaitedSignal := Some(name))
  {
    run.AwaitSignal(name, PtrAt(held, i));
  }

  method CallAwaitEvent(run: StoredRun, defs: StoredDefinitions, held: seq<Handle>, ghost mine: set<object>, c: Call)
    returns (done: bool)
    requires Ready(run, defs, held, mine) && c.AwaitEvent?
    modifies run
    ensures Ready(run, defs, held, mine) && fresh(run.Footprint() - old(run.Footprint()))
    ensures done == old(Passes(held, mine, c))
    ensures run.value == if done then WaitsForEvent(old(run.value), c.topic, c.v) else old(run.value)
  {
    done := (c.v.Map? || c.v.Null?) && Matches(ValueAt(held, c.headers), c.v, mine);
    if done {
      run.AwaitEvent(c.topic, ValueAt(held, c.headers), PtrAt(held, c.deadline), c.v, mine);
    }
  }

  method Invoke(run: StoredRun, defs: StoredDefinitions, held: seq<Handle>, ghost mine: set<object>, c: Call)
    returns (held': seq<Handle>, ghost mine': set<object>, done: bool)
    requires Ready(run, defs, held, mine)
    modifies run, defs, ReprOf(run.record.variables)
    ensures Ready(run, defs, held', mine') && fresh(mine' - mine)
    ensures fresh(run.Footprint() - old(run.Footprint())) && fresh(defs.Footprint() - old(defs.Footprint()))
    ensures done == old(Passes(held, mine, c))
    ensures Stored(run, defs) == if done then Effect(old(Stored(run, defs)), Use(c)) else old(Stored(run, defs))
  {
    held', mine', done := held, mine, true;
    match c {
      case Update(key, i, v) => done := CallUpdate(run, defs, held, mine, key, i, v);
      case Upsert(i, v) => done := CallUpsert(run, defs, held, mine, i, v);
      case ReadRun => held', mine' := CallRead(run, defs, held, mine);
      case ReadDefinition(id) => held', mine' := CallReadDefinition(run, defs, held, mine, id);
      case AwaitSignal(name, i) => CallAwaitSignal(run, defs, held, mine, name, i);
      case AwaitEvent(_, _, _, _) => done := CallAwaitEvent(run, defs, held, mine, c);
    }
  }

  /** One action of the caller, on its own or by a call. */
  method Act(run: StoredRun, defs: StoredDefinitions, held: seq<Handle>, ghost mine: set<object>, a: Action)
    returns (held': seq<Handle>, ghost mine': set<object>, done: bool)
    requires Ready(run, defs, held, mine)
    modifies mine, run, defs, ReprOf(run.record.variables)
    ensures Ready(run, defs, held', mine') && fresh(mine' - mine)
    ensures fresh(run.Footprint() - old(run.Footprint())) && fresh(defs.Footprint() - old(defs.Footprint()))
    ensures done == (a.Use? ==> old(Passes(held, mine, a.call)))
    ensures Stored(run, defs) == if done then Effect(old(Stored(run, defs)), a) else old(Stored(run, defs))
  {
    held', mine', done := held, mine, true;
    match a {
      case Make(c) =>
        var h;
        h, mine' := Create(held, mine, c);
        held' := held + [h];
      case Get(l) =>
        var more := Follow(held, mine, l);
        held' := held + more;
      case Put(w) => Overwrite(held, mine, w);
      case Use(c) => held', mine', done := Invoke(run, defs, held, mine, c);
    }
  }

  /** Isolation over any history: whatever a caller does, at any depth, to the
      arguments it passed and to the results it got, the run and the definitions
      in the store are those its calls alone would give. */
  method Session(run: StoredRun, defs: StoredDefinitions, held: seq<Handle>, ghost mine: set<object>,
                 script: seq<Action>)
    returns (done: seq<bool>)
    requires Ready(run, defs, held, mine)
    modifies mine, run.Footprint(), defs
    ensures run.Valid() && defs.Valid() && |done| == |script|
    ensures Stored(run, defs) == Replay(old(Stored(run, defs)), script, done)
    decreases |script|
  {
    if script == [] {
      done := [];
    } else {
      var next, took;
      ghost var own;
      next, own, took := Act(run, defs, held, mine, script[0]);
      var rest := Session(run, defs, next, own, script[1..]);
      done := [took] + rest;
      assert done[1..] == rest;
    }
  }

  /** From CreateRun on: the record the caller passed, and all it still holds
      of it, are no part of what is stored. */
  method Lifetime(r: RunRecord, ghost v: RunValue, held: seq<Handle>, ghost mine: set<object>, script: seq<Action>)
    returns (run: StoredRun, defs: StoredDefinitions, done: seq<bool>)
    requires RunIs(r, v, mine) && (v.variables.Map? || v.variables.Null?) && Holds(held, mine)
    modifies mine
    ensures run.Valid() && defs.Valid() && |done| == |script|
    ensures Stored(run, defs) == Replay(Contents(v, []), script, done)
  {
    run := new StoredRun(r, v, mine);
    defs := new StoredDefinitions();
    done := Session(run, defs, held, mine, script);
  }
}
