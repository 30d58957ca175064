/** Where a run can stand in its definition: the step it is at and the try_catch
    frames around it, the moves between such positions, and cycles of moves that
    use up no round of a while step. */
module Positions {
  import opened Domain
  import opened DottedKeys
  import opened Runs
  import opened Engine

  // ------------------------------------------------- positions and moves

  /** Where a run stands: its step, and the try_catch frames around it. */
  datatype Position = Position(id: Key, frames: seq<Frame>)

  function Here(def: Definition, r: Run): Position
  {
    Position(At(def, r), r.frames)
  }

  function FramesAfter(step: Step, frames: seq<Frame>): seq<Frame>
  {
    if step.kind.TryCatch? then frames + [Frame(step.id, step.catchStep)] else frames
  }

  predicate CanPush(step: Step, frames: seq<Frame>)
  {
    step.kind.TryCatch? ==> step.catchStep != [] && |frames| < MAX_FRAMES
  }

  /** A step other than while can finish and lead to next. */
  ghost predicate Leads(s: Step, next: Key)
  {
    && !s.kind.End? && !s.kind.Unregistered? && !s.kind.Action? && !s.kind.While? && next != []
    && (next == s.next || (!s.kind.TryCatch? && exists b :: b in s.branches && b != [] && s.branches[b] == next))
  }

  ghost predicate Succeeds(def: Definition, p: Position, q: Position)
  {
    var s := StepById(def.steps, p.id);
    s.Some? && Leads(s.value, q.id) && CanPush(s.value, p.frames) && q.frames == FramesAfter(s.value, p.frames)
  }

  /** Any step with a handler can fail; the innermost frame takes it. */
  predicate Fails(def: Definition, p: Position, q: Position)
  {
    var s := StepById(def.steps, p.id);
    && s.Some? && !s.value.kind.End? && !s.value.kind.Unregistered? && p.frames != []
    && q == Position(p.frames[|p.frames| - 1].catchStep, p.frames[..|p.frames| - 1])
  }

  /** A move that uses up no round of a while step. */
  ghost predicate FreeMove(def: Definition, p: Position, q: Position)
  {
    Succeeds(def, p, q) || Fails(def, p, q)
  }

  /** A frame that some try_catch of the definition pushes. */
  ghost predicate FrameOf(def: Definition, f: Frame)
  {
    f.catchStep != [] && exists s :: s in def.steps && s.kind.TryCatch? && f == Frame(s.id, s.catchStep)
  }

  /** A stack that steps of the definition can build. */
  ghost predicate Framed(def: Definition, frames: seq<Frame>)
  {
    |frames| <= MAX_FRAMES && forall i :: 0 <= i < |frames| ==> FrameOf(def, frames[i])
  }

  predicate IsWhile(def: Definition, id: Key)
  {
    var s := StepById(def.steps, id);
    s.Some? && s.value.kind.While?
  }

  predicate RoundLeads(s: Step, condition: bool, next: Key)
  {
    var b := if condition then CONTINUE else EXIT;
    b in s.branches && s.branches[b] == next
  }

  /** One round of a while step. */
  ghost predicate RoundMove(def: Definition, p: Position, q: Position)
  {
    && IsWhile(def, p.id) && q.id != [] && q.frames == p.frames
    && exists c :: RoundLeads(StepById(def.steps, p.id).value, c, q.id)
  }

  predicate CanPause(kind: Kind)
  {
    !kind.End? && !kind.Unregistered? && !kind.While? && !kind.TryCatch?
  }

  /** A step that paused, left when the run wakes. */
  ghost predicate WakeMove(def: Definition, p: Position, q: Position)
  {
    var s := StepById(def.steps, p.id);
    && s.Some? && CanPause(s.value.kind) && q.id != [] && q.frames == p.frames
    && exists timedOut :: WakeNext(s.value, timedOut) == q.id
  }

  /** A try_catch without a next is an error that leaves its frame behind; the
      next call runs it again. */
  ghost predicate PushMove(def: Definition, p: Position, q: Position)
  {
    var s := StepById(def.steps, p.id);
    && s.Some? && s.value.kind.TryCatch? && s.value.next == [] && CanPush(s.value, p.frames)
    && q == Position(p.id, FramesAfter(s.value, p.frames))
  }

  ghost predicate AnyMove(def: Definition, p: Position, q: Position)
  {
    FreeMove(def, p, q) || RoundMove(def, p, q) || WakeMove(def, p, q) || PushMove(def, p, q)
  }

  lemma MoveKeepsFramed(def: Definition, p: Position, q: Position)
    requires Framed(def, p.frames) && AnyMove(def, p, q)
    ensures Framed(def, q.frames) && (FreeMove(def, p, q) ==> q.id != [])
  {
    var s := StepById(def.steps, p.id).value;
    assert s.kind.TryCatch? && s.catchStep != [] ==> FrameOf(def, Frame(s.id, s.catchStep));
    assert p.frames != [] ==> FrameOf(def, p.frames[|p.frames| - 1]);
  }

  // ------------------------------------------------- where a run can get

  ghost predicate Path(def: Definition, ps: seq<Position>)
  {
    ps != [] && forall i :: 0 <= i < |ps| - 1 ==> AnyMove(def, ps[i], ps[i + 1])
  }

  ghost predicate Reaches(def: Definition, from: Position, p: Position)
  {
    exists ps :: Path(def, ps) && ps[0] == from && ps[|ps| - 1] == p
  }

  /** A position with a possible stack that can be reached from `from`. */
  ghost predicate Stands(def: Definition, from: Position, p: Position)
  {
    Framed(def, p.frames) && Reaches(def, from, p)
  }

  lemma StandsAtStart(def: Definition, from: Position)
    requires Framed(def, from.frames)
    ensures Stands(def, from, from)
  {
    assert Path(def, [from]) && [from][0] == from;
  }

  lemma StandsOn(def: Definition, from: Position, p: Position, q: Position)
    requires Stands(def, from, p) && AnyMove(def, p, q)
    ensures Stands(def, from, q)
  {
    MoveKeepsFramed(def, p, q);
    var ps :| Path(def, ps) && ps[0] == from && ps[|ps| - 1] == p;
    var qs := ps + [q];
    forall i | 0 <= i < |qs| - 1 ensures AnyMove(def, qs[i], qs[i + 1]) {
      if i < |ps| - 1 {
        assert AnyMove(def, ps[i], ps[i + 1]);
      }
    }
    assert Path(def, qs) && qs[0] == from && qs[|qs| - 1] == q;
  }

  ghost predicate Walk(def: Definition, ps: seq<Position>)
  {
    forall i :: 0 <= i < |ps| - 1 ==> FreeMove(def, ps[i], ps[i + 1])
  }

  /** A way back to the same step, in the same frames, without a while round. */
  ghost predicate FreeCycle(def: Definition, ps: seq<Position>)
  {
    |ps| >= 2 && Walk(def, ps) && ps[0] == ps[|ps| - 1]
  }

  /** There is none where a run from `from` can get. */
  ghost predicate NoFreeCycle(def: Definition, from: Position)
  {
    forall ps: seq<Position> :: FreeCycle(def, ps) ==> !Stands(def, from, ps[0])
  }

  /** Wherever the run is, or wakes up, is where a run from `from` can get. */
  ghost predicate OnPath(def: Definition, from: Position, r: Run)
  {
    && Stands(def, from, Here(def, r))
    && (r.state.Paused? ==>
          var s := StepById(def.steps, r.current);
          s.Some? ==> forall timedOut :: WakeNext(s.value, timedOut) != [] ==>
                        Stands(def, from, Position(WakeNext(s.value, timedOut), r.frames)))
  }

  // ------------------------------------------------- how many positions there are

  /** r times n, by addition. */
  function Rounds(r: nat, n: nat): nat
  {
    if r == 0 then 0 else n + Rounds(r - 1, n)
  }

  lemma {:induction false} RoundsIsProduct(r: nat, n: nat)
    ensures Rounds(r, n) == r * n
  {
    if r > 0 {
      RoundsIsProduct(r - 1, n);
    }
  }

  /** b to the d-th, by addition. */
  function Power(b: nat, d: nat): nat
  {
    if d == 0 then 1 else Rounds(b, Power(b, d - 1))
  }

  function TryCatches(steps: seq<Step>): nat
  {
    if steps == [] then 0 else (if steps[0].kind.TryCatch? then 1 else 0) + TryCatches(steps[1..])
  }

  function FramesOf(steps: seq<Step>): (fs: seq<Frame>)
    ensures |fs| == TryCatches(steps)
    ensures forall s :: s in steps && s.kind.TryCatch? ==> Frame(s.id, s.catchStep) in fs
  {
    if steps == [] then []
    else (if steps[0].kind.TryCatch? then [Frame(steps[0].id, steps[0].catchStep)] else []) + FramesOf(steps[1..])
  }

  function Push(stacks: seq<seq<Frame>>, f: Frame): (r: seq<seq<Frame>>)
    ensures |r| == |stacks|
  {
    if stacks == [] then [] else [stacks[0] + [f]] + Push(stacks[1..], f)
  }

  function PushEach(stacks: seq<seq<Frame>>, fs: seq<Frame>): seq<seq<Frame>>
  {
    if fs == [] then [] else Push(stacks, fs[0]) + PushEach(stacks, fs[1..])
  }

  lemma {:induction false} PushEachSize(stacks: seq<seq<Frame>>, fs: seq<Frame>)
    ensures |PushEach(stacks, fs)| == Rounds(|fs|, |stacks|)
  {
    if fs != [] {
      PushEachSize(stacks, fs[1..]);
    }
  }

  /** The stacks of at most depth frames. */
  function Stacks(fs: seq<Frame>, depth: nat): seq<seq<Frame>>
  {
    if depth == 0 then [[]]
    else var below := Stacks(fs, depth - 1); below + PushEach(below, fs)
  }

  lemma {:induction false} StacksSize(fs: seq<Frame>, depth: nat)
    ensures |Stacks(fs, depth)| == Power(1 + |fs|, depth)
    decreases depth
  {
    if depth > 0 {
      var below := Stacks(fs, depth - 1);
      StacksSize(fs, depth - 1);
      PushEachSize(below, fs);
    }
  }

  lemma {:induction false} PushIn(stacks: seq<seq<Frame>>, f: Frame, i: nat)
    requires i < |stacks|
    ensures Push(stacks, f)[i] == stacks[i] + [f]
  {
    if i > 0 {
      PushIn(stacks[1..], f, i - 1);
    }
  }

  lemma {:induction false} PushEachIn(stacks: seq<seq<Frame>>, fs: seq<Frame>, i: nat, j: nat)
    requires i < |stacks| && j < |fs|
    ensures stacks[i] + [fs[j]] in PushEach(stacks, fs)
    decreases j
  {
    if j == 0 {
      PushIn(stacks, fs[0], i);
      assert Push(stacks, fs[0])[i] in Push(stacks, fs[0]);
    } else {
      PushEachIn(stacks, fs[1..], i, j - 1);
    }
  }

  lemma PushedIn(stacks: seq<seq<Frame>>, fs: seq<Frame>, st: seq<Frame>, f: Frame)
    requires st in stacks && f in fs
    ensures st + [f] in PushEach(stacks, fs)
  {
    var i :| 0 <= i < |stacks| && stacks[i] == st;
    var j :| 0 <= j < |fs| && fs[j] == f;
    PushEachIn(stacks, fs, i, j);
  }

  lemma {:induction false} StackIn(fs: seq<Frame>, depth: nat, st: seq<Frame>)
    requires |st| <= depth && forall f :: f in st ==> f in fs
    ensures st in Stacks(fs, depth)
    decreases depth
  {
    if depth == 0 {
      assert st == [];
    } else if st == [] {
      StackIn(fs, depth - 1, st);
      OneDeeper(fs, depth, st);
    } else {
      var rest, top := st[..|st| - 1], st[|st| - 1];
      assert st == rest + [top];
      StackIn(fs, depth - 1, rest);
      PushedIn(Stacks(fs, depth - 1), fs, rest, top);
      OneDeeper(fs, depth, st);
    }
  }

  lemma OneDeeper(fs: seq<Frame>, depth: nat, st: seq<Frame>)
    requires depth > 0
    requires st in Stacks(fs, depth - 1) || st in PushEach(Stacks(fs, depth - 1), fs)
    ensures st in Stacks(fs, depth)
  {
  }

  function Standing(id: Key, stacks: seq<seq<Frame>>): (r: seq<Position>)
    ensures |r| == |stacks| && forall st :: st in stacks ==> Position(id, st) in r
  {
    if stacks == [] then [] else [Position(id, stacks[0])] + Standing(id, stacks[1..])
  }

  /** Every step in every stack. */
  function Positions(steps: seq<Step>, stacks: seq<seq<Frame>>): (r: seq<Position>)
    ensures |r| == Rounds(|steps|, |stacks|)
    ensures forall s, st :: s in steps && st in stacks ==> Position(s.id, st) in r
  {
    if steps == [] then [] else Standing(steps[0].id, stacks) + Positions(steps[1..], stacks)
  }

  /** Steps times stacks of try_catch frames; without try_catch the steps. */
  function Room(def: Definition): nat
  {
    Rounds(|def.steps|, Power(1 + TryCatches(def.steps), MAX_FRAMES))
  }

  /** As many positions as there is room, and any a run can be in. */
  lemma PositionIn(def: Definition, p: Position)
    requires StepById(def.steps, p.id).Some? && Framed(def, p.frames)
    ensures p in Everywhere(def)
  {
    forall f | f in p.frames ensures f in FramesOf(def.steps) {
      assert FrameOf(def, f);
    }
    StackIn(FramesOf(def.steps), MAX_FRAMES, p.frames);
  }

  function Everywhere(def: Definition): seq<Position>
  {
    Positions(def.steps, Stacks(FramesOf(def.steps), MAX_FRAMES))
  }

  lemma EverywhereSize(def: Definition)
    ensures |Everywhere(def)| == Room(def)
  {
    StacksSize(FramesOf(def.steps), MAX_FRAMES);
  }

  // ------------------------------------------------- the trail

  /** The positions since the last while round, none of them twice. */
  ghost predicate Trail(def: Definition, from: Position, trail: seq<Position>, here: Position)
  {
    && Walk(def, trail + [here]) && Stands(def, from, here)
    && (forall i :: 0 <= i < |trail| ==> StepById(def.steps, trail[i].id).Some? && Stands(def, from, trail[i]))
    && (forall i, j :: 0 <= i < j < |trail| ==> trail[i] != trail[j])
  }

  /** Coming back to a position of the trail closes a free cycle. */
  lemma TrailIsFresh(def: Definition, from: Position, trail: seq<Position>, here: Position)
    requires Trail(def, from, trail, here) && NoFreeCycle(def, from)
    ensures here !in trail
  {
    var q := trail + [here];
    forall i | 0 <= i < |trail| ensures trail[i] != here {
      var p := q[i..];
      forall k | 0 <= k < |p| - 1 ensures FreeMove(def, p[k], p[k + 1]) {
        assert FreeMove(def, q[i + k], q[i + k + 1]);
      }
      assert Walk(def, p) && p[0] == trail[i] && p[|p| - 1] == here;
      assert trail[i] == here ==> FreeCycle(def, p);
    }
  }

  lemma TrailGrows(def: Definition, from: Position, trail: seq<Position>, here: Position, there: Position)
    requires Trail(def, from, trail, here) && FreeMove(def, here, there) && here !in trail
    ensures Trail(def, from, trail + [here], there)
  {
    var q, q' := trail + [here], trail + [here] + [there];
    StandsOn(def, from, here, there);
    forall i | 0 <= i < |q'| - 1 ensures FreeMove(def, q'[i], q'[i + 1]) {
      if i < |q| - 1 {
        assert q'[i] == q[i] && q'[i + 1] == q[i + 1];
      }
    }
  }

  function Elements<T(!new)>(s: seq<T>): (t: set<T>)
    ensures forall x :: x in t <==> x in s
  {
    if s == [] then {} else {s[0]} + Elements(s[1..])
  }

  lemma {:induction false} ElementsSize<T(!new)>(s: seq<T>)
    requires forall i, j :: 0 <= i < j < |s| ==> s[i] != s[j]
    ensures |Elements(s)| == |s|
  {
    if s != [] {
      ElementsSize(s[1..]);
      assert s[0] !in s[1..];
    }
  }

  lemma {:induction false} ElementsFew<T(!new)>(s: seq<T>)
    ensures |Elements(s)| <= |s|
  {
    if s != [] {
      ElementsFew(s[1..]);
    }
  }

  lemma SubsetSize<T>(a: set<T>, b: set<T>)
    requires a <= b
    ensures |a| <= |b|
  {
    assert b == a + (b - a);
  }

  /** Distinct positions are at most as many as there are. */
  lemma TrailIsShort(def: Definition, from: Position, trail: seq<Position>, here: Position)
    requires Trail(def, from, trail, here) && NoFreeCycle(def, from) && StepById(def.steps, here.id).Some?
    ensures here !in trail && |trail| < Room(def)
  {
    TrailIsFresh(def, from, trail, here);
    var all := trail + [here];
    ElementsSize(all);
    forall p | p in all ensures p in Everywhere(def) {
      PositionIn(def, p);
    }
    EverywhereSize(def);
    ElementsFew(Everywhere(def));
    SubsetSize(Elements(all), Elements(Everywhere(def)));
  }

  // ------------------------------------------------- a way to rule out free cycles

  /** A rank that every free move lowers leaves no free cycle. */
  lemma RankLeavesNoCycle(def: Definition, from: Position, rank: Position -> nat)
    requires forall p: Position, q: Position :: Framed(def, p.frames) && FreeMove(def, p, q) ==> rank(q) < rank(p)
    ensures NoFreeCycle(def, from)
  {
    forall ps: seq<Position> | FreeCycle(def, ps) ensures !Stands(def, from, ps[0]) {
      if Framed(def, ps[0].frames) {
        WalkDescends(def, rank, ps, |ps| - 1);
      }
    }
  }

  lemma {:induction false} WalkDescends(def: Definition, rank: Position -> nat, ps: seq<Position>, n: nat)
    requires forall p: Position, q: Position :: Framed(def, p.frames) && FreeMove(def, p, q) ==> rank(q) < rank(p)
    requires n < |ps| && Walk(def, ps) && Framed(def, ps[0].frames)
    ensures Framed(def, ps[n].frames) && (n > 0 ==> rank(ps[n]) < rank(ps[0]))
  {
    if n > 0 {
      WalkDescends(def, rank, ps, n - 1);
      assert FreeMove(def, ps[n - 1], ps[n]);
      MoveKeepsFramed(def, ps[n - 1], ps[n]);
    }
  }
}
