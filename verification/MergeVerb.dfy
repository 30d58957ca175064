/** The merge verb and UpdateRunVariables, down to the dotted key strings. */
module MergeVerb {
  import opened DottedKeys
  import opened Merge

  datatype Result<+T> = Ok(value: T) | Err

  // ------------------------------------------------- flattening

  /** The dotted key deepFlatten builds for a leaf path below prefix. */
  function FullKey(prefix: Key, p: Path): Key
    decreases |p|
  {
    if p == [] then prefix else FullKey(prefix + [DOT] + p[0], p[1..])
  }

  /** out is base overwritten, for each leaf path of S, with some leaf value
      having that full key. Two leaves share a key only if a source key holds
      a dot; then Go's map order decides which one stays. */
  ghost predicate Flattened(prefix: Key, src: Value, S: set<Path>, base: Vars, out: Vars)
    requires S <= LeafPaths(src)
  {
    && (forall p :: p in S ==> FullKey(prefix, p) in out)
    && (forall key :: key in base ==> key in out)
    && (forall key :: key in out ==>
          || (exists p :: p in S && FullKey(prefix, p) == key && At(src, p) == out[key])
          || ((forall p :: p in S ==> FullKey(prefix, p) != key) && key in base && base[key] == out[key]))
  }

  class OutMap {
    var m: Vars

    constructor ()
      ensures m == map[]
    {
      m := map[];
    }
  }

  method DeepFlatten(prefix: Key, src: Value, out: OutMap)
    requires src.Map?
    modifies out
    ensures Flattened(prefix, src, LeafPaths(src), old(out.m), out.m)
    decreases src
  {
    var todo := src.m.Keys;
    while todo != {}
      invariant todo <= src.m.Keys
      invariant Flattened(prefix, src, LeavesOutside(src, todo), old(out.m), out.m)
      decreases |todo|
    {
      var k :| k in todo;
      ghost var before := out.m;
      var fullKey := prefix + [DOT] + k;
      if src.m[k].Map? {
        DeepFlatten(fullKey, src.m[k], out);
        FlattenedBelow(prefix, src, k, before, out.m);
      } else {
        out.m := out.m[fullKey := src.m[k]];
        FlattenedLeaf(prefix, src, k, before);
      }
      LeavesSplit(src, todo, k);
      FlattenedThen(prefix, src, LeavesOutside(src, todo), LeavesAt(src, k), old(out.m), before, out.m);
      todo := todo - {k};
    }
    assert LeavesOutside(src, {}) == LeafPaths(src) by {
      forall p | p in LeafPaths(src) ensures p in LeavesOutside(src, {}) { LeafHead(src, p); }
    }
  }

  function LeavesOutside(src: Value, todo: set<Key>): (s: set<Path>)
    requires src.Map?
    ensures s <= LeafPaths(src)
  {
    set p | p in LeafPaths(src) && p != [] && p[0] !in todo
  }

  function LeavesAt(src: Value, k: Key): (s: set<Path>)
    requires src.Map?
    ensures s <= LeafPaths(src)
  {
    set p | p in LeafPaths(src) && p != [] && p[0] == k
  }

  lemma LeavesSplit(src: Value, todo: set<Key>, k: Key)
    requires src.Map? && k in todo
    ensures LeavesOutside(src, todo - {k}) == LeavesOutside(src, todo) + LeavesAt(src, k)
  {
  }

  lemma FlattenedThen(prefix: Key, src: Value, S: set<Path>, T: set<Path>, a: Vars, b: Vars, c: Vars)
    requires S <= LeafPaths(src) && T <= LeafPaths(src)
    requires Flattened(prefix, src, S, a, b) && Flattened(prefix, src, T, b, c)
    ensures Flattened(prefix, src, S + T, a, c)
  {
    forall key | key in c && forall p :: p in S + T ==> FullKey(prefix, p) != key
      ensures key in a && a[key] == c[key]
    {
      FlattenedAside(prefix, src, S, T, a, b, c, key);
    }
    forall key | key in c && exists p :: p in S + T && FullKey(prefix, p) == key
      ensures exists p :: p in S + T && FullKey(prefix, p) == key && At(src, p) == c[key]
    {
      var p := FlattenedOrigin(prefix, src, S, T, a, b, c, key);
    }
  }

  lemma FlattenedAside(prefix: Key, src: Value, S: set<Path>, T: set<Path>, a: Vars, b: Vars, c: Vars, key: Key)
    requires S <= LeafPaths(src) && T <= LeafPaths(src)
    requires Flattened(prefix, src, S, a, b) && Flattened(prefix, src, T, b, c)
    requires key in c && forall p :: p in S + T ==> FullKey(prefix, p) != key
    ensures key in a && a[key] == c[key]
  {
    assert forall p :: p in T ==> p in S + T;
    assert key in b && b[key] == c[key];
    assert forall p :: p in S ==> p in S + T;
  }

  lemma FlattenedOrigin(prefix: Key, src: Value, S: set<Path>, T: set<Path>, a: Vars, b: Vars, c: Vars, key: Key)
    returns (p: Path)
    requires S <= LeafPaths(src) && T <= LeafPaths(src)
    requires Flattened(prefix, src, S, a, b) && Flattened(prefix, src, T, b, c)
    requires key in c && exists p :: p in S + T && FullKey(prefix, p) == key
    ensures p in S + T && FullKey(prefix, p) == key && At(src, p) == c[key]
  {
    if q :| q in T && FullKey(prefix, q) == key {
      p :| p in T && FullKey(prefix, p) == key && At(src, p) == c[key];
    } else {
      assert key in b && b[key] == c[key];
      p :| p in S && FullKey(prefix, p) == key && At(src, p) == b[key];
    }
  }

  lemma FlattenedLeaf(prefix: Key, src: Value, k: Key, base: Vars)
    requires src.Map? && k in src.m && !src.m[k].Map?
    ensures Flattened(prefix, src, LeavesAt(src, k), base, base[prefix + [DOT] + k := src.m[k]])
  {
    LeafStep(src, k, []);
    assert [k] + [] == [k];
    forall p | p in LeavesAt(src, k) ensures p == [k] { LeafHead(src, p); }
    assert [k] in LeavesAt(src, k);
    assert FullKey(prefix, [k]) == prefix + [DOT] + k;
    assert At(src, [k]) == src.m[k];
  }

  lemma FlattenedBelow(prefix: Key, src: Value, k: Key, base: Vars, out: Vars)
    requires src.Map? && k in src.m && src.m[k].Map?
    requires Flattened(prefix + [DOT] + k, src.m[k], LeafPaths(src.m[k]), base, out)
    ensures Flattened(prefix, src, LeavesAt(src, k), base, out)
  {
    var sub, pre := src.m[k], prefix + [DOT] + k;
    forall p | p in LeavesAt(src, k)
      ensures p[1..] in LeafPaths(sub) && FullKey(prefix, p) == FullKey(pre, p[1..])
    {
      LeafHead(src, p);
    }
    forall q | q in LeafPaths(sub)
      ensures [k] + q in LeavesAt(src, k) && At(src, [k] + q) == At(sub, q)
      ensures FullKey(prefix, [k] + q) == FullKey(pre, q)
    {
      LeafStep(src, k, q);
      assert ([k] + q)[1..] == q;
    }
  }

  /** The verb: both inputs are required and `from` must evaluate to a map. */
  method Execute(from: Key, into: Key, evaluated: Result<Value>) returns (r: Result<Vars>)
    ensures r.Ok? <==> from != [] && into != [] && evaluated.Ok? && evaluated.value.Map?
    ensures r.Ok? ==> IsOutput(into, evaluated.value, r.value)
  {
    if from == [] || into == [] || evaluated.Err? || !evaluated.value.Map? {
      return Err;
    }
    var out := new OutMap();
    DeepFlatten(into, evaluated.value, out);
    r := Ok(out.m);
  }

  ghost predicate IsOutput(into: Key, src: Value, out: Vars)
  {
    Flattened(into, src, LeafPaths(src), map[], out)
  }

  // ------------------------------------------------- applying

  /** order enumerates the keys of out. */
  ghost predicate Orders(order: seq<Key>, out: Vars)
  {
    forall k :: k in order <==> k in out
  }

  function Entries(order: seq<Key>, out: Vars): (es: seq<Entry>)
    requires forall k :: k in order ==> k in out
    ensures |es| == |order|
    ensures forall i :: 0 <= i < |es| ==> es[i] == Entry(Segments(order[i]), out[order[i]])
  {
    if order == [] then [] else [Entry(Segments(order[0]), out[order[0]])] + Entries(order[1..], out)
  }

  class RunVariables {
    var vars: Vars

    /** UpdateRunVariables: one dotted write per entry, in an order Go leaves
        open; the order taken is returned for the proofs. */
    method UpdateRunVariables(merge: Vars) returns (ghost order: seq<Key>)
      modifies this
      ensures Orders(order, merge)
      ensures vars == ApplyAll(old(vars), Entries(order, merge))
    {
      order := [];
      var todo := merge.Keys;
      while todo != {}
        invariant todo <= merge.Keys
        invariant forall k :: k in order <==> k in merge && k !in todo
        invariant vars == ApplyAll(old(vars), Entries(order, merge))
        decreases |todo|
      {
        var k :| k in todo;
        var parts := SplitKey(k);
        EntriesSnoc(order, k, merge);
        ApplySnoc(old(vars), Entries(order, merge), Entry(parts, merge[k]));
        vars := Put(vars, parts, merge[k]);
        order := order + [k];
        todo := todo - {k};
      }
    }
  }

  lemma {:induction false} EntriesSnoc(order: seq<Key>, k: Key, out: Vars)
    requires k in out && forall x :: x in order ==> x in out
    ensures Entries(order + [k], out) == Entries(order, out) + [Entry(Segments(k), out[k])]
  {
  }

  lemma {:induction false} ApplySnoc(t: Vars, es: seq<Entry>, e: Entry)
    requires e.path != [] && forall x :: x in es ==> x.path != []
    ensures ApplyAll(t, es + [e]) == Put(ApplyAll(t, es), e.path, e.value)
    decreases |es|
  {
    if es == [] {
      assert [] + [e] == [e];
      assert ApplyAll(t, [e]) == ApplyAll(Put(t, e.path, e.value), []);
    } else {
      assert (es + [e])[1..] == es[1..] + [e];
      ApplySnoc(Put(t, es[0].path, es[0].value), es[1..], e);
    }
  }

  // ------------------------------------------------- the code's exact result

  predicate Holds(w: Value, m: Key)
    requires w.Map?
  {
    m in w.m
  }

  /** w is v with every key as the store will really write it. */
  ghost predicate MangledTo(v: Value, w: Value)
    decreases v
  {
    && (v.Map? <==> w.Map?)
    && (!v.Map? ==> w == v)
    && (v.Map? ==>
          && (forall k {:trigger Mangle(k)} :: k in v.m ==>
                Mangle(k) in w.m && MangledTo(v.m[k], w.m[Mangle(k)]))
          && (forall m {:trigger Holds(w, m)} :: Holds(w, m) ==> exists k :: k in v.m && Mangle(k) == m))
  }

  /** The mangled form exists: different keys stay different. */
  lemma {:induction false} MangledMap(v: Value, todo: set<Key>) returns (w: Value)
    requires v.Map? && todo <= v.m.Keys
    ensures w.Map?
    ensures forall k {:trigger Mangle(k)} :: k in todo ==> Mangle(k) in w.m && MangledTo(v.m[k], w.m[Mangle(k)])
    ensures forall m {:trigger Holds(w, m)} :: Holds(w, m) ==> exists k :: k in todo && Mangle(k) == m
    decreases v, 0, |todo|
  {
    if todo == {} {
      w := Map(map[]);
    } else {
      var k0 :| k0 in todo;
      var rest := MangledMap(v, todo - {k0});
      var sub := Mangled(v.m[k0]);
      w := Map(rest.m[Mangle(k0) := sub]);
      forall k | k in todo ensures Mangle(k) in w.m && MangledTo(v.m[k], w.m[Mangle(k)]) {
        if Mangle(k) == Mangle(k0) {
          MangleInjective(k, k0);
        }
      }
      forall m | Holds(w, m) ensures exists k :: k in todo && Mangle(k) == m {
        if m != Mangle(k0) {
          assert Holds(rest, m);
        }
      }
    }
  }

  lemma {:induction false} Mangled(v: Value) returns (w: Value)
    ensures MangledTo(v, w)
    decreases v, 1
  {
    if v.Map? {
      w := MangledMap(v, v.m.Keys);
    } else {
      w := v;
    }
  }

  lemma {:induction false} LeafMangled(v: Value, w: Value, p: Path)
    requires MangledTo(v, w) && p in LeafPaths(v)
    ensures MangleAll(p) in LeafPaths(w) && At(w, MangleAll(p)) == At(v, p)
    decreases p
  {
    if v.Map? {
      LeafHead(v, p);
      var m := Mangle(p[0]);
      LeafMangled(v.m[p[0]], w.m[m], p[1..]);
      LeafStep(w, m, MangleAll(p[1..]));
    }
  }

  lemma {:induction false} LeafUnmangled(v: Value, w: Value, q: Path) returns (p: Path)
    requires MangledTo(v, w) && q in LeafPaths(w)
    ensures p in LeafPaths(v) && MangleAll(p) == q
    decreases q
  {
    p := [];
    if v.Map? {
      LeafHead(w, q);
      assert Holds(w, q[0]);
      var k :| k in v.m && Mangle(k) == q[0];
      var rest := LeafUnmangled(v.m[k], w.m[q[0]], q[1..]);
      LeafStep(v, k, rest);
      p := [k] + rest;
      assert p[1..] == rest;
    }
  }

  lemma {:induction false} MangledNoEmpty(v: Value, w: Value)
    requires MangledTo(v, w) && NoEmpty(v)
    ensures NoEmpty(w)
    decreases v
  {
    if v.Map? {
      var k0 :| k0 in v.m;
      assert Mangle(k0) in w.m;
      forall m | m in w.m ensures NoEmpty(w.m[m]) {
        assert Holds(w, m);
        var k :| k in v.m && Mangle(k) == m;
        MangledNoEmpty(v.m[k], w.m[m]);
      }
    }
  }

  predicate PathDotFree(p: Path)
  {
    forall i :: 0 <= i < |p| ==> DotFree(p[i])
  }

  lemma {:induction false} LeafDotFree(v: Value, p: Path)
    requires KeysDotFree(v) && p in LeafPaths(v)
    ensures PathDotFree(p)
    decreases p
  {
    if v.Map? {
      LeafHead(v, p);
      LeafDotFree(v.m[p[0]], p[1..]);
      assert forall i :: 0 < i < |p| ==> p[i] == p[1..][i - 1];
    }
  }

  lemma {:induction false} SegmentsFullKey(into: Key, p: Path)
    requires PathDotFree(p)
    ensures Segments(FullKey(into, p)) == Segments(into) + MangleAll(p)
    decreases |p|
  {
    if p != [] {
      SegmentsFullKey(into + [DOT] + p[0], p[1..]);
      SegmentsStep(into, p[0], MangleAll(p[1..]));
    }
  }

  lemma SegmentsStep(into: Key, k: Key, rest: Path)
    requires DotFree(k)
    ensures Segments(into + [DOT] + k) + rest == Segments(into) + ([Mangle(k)] + rest)
  {
    SegmentsAppend(into, k);
    SegmentsOne(k);
  }

  lemma SegmentsOne(k: Key)
    requires DotFree(k)
    ensures Segments(k) == [Mangle(k)]
  {
    SplitDotFree(k);
  }

  /** Whatever the keys hold, a full key begins with the segments of into. */
  lemma {:induction false} FullKeyBelow(into: Key, p: Path)
    ensures Segments(into) <= Segments(FullKey(into, p))
    ensures p != [] ==> |Segments(into)| < |Segments(FullKey(into, p))|
    decreases |p|
  {
    if p != [] {
      FullKeyBelow(into + [DOT] + p[0], p[1..]);
      SegmentsAppend(into, p[0]);
    }
  }

  /** The entries with the segments of into cut off. */
  function Cut(n: nat, es: seq<Entry>): (r: seq<Entry>)
    requires forall e :: e in es ==> |e.path| > n
    ensures |r| == |es|
    ensures forall i :: 0 <= i < |es| ==> r[i] == Entry(es[i].path[n..], es[i].value)
  {
    if es == [] then [] else [Entry(es[0].path[n..], es[0].value)] + Cut(n, es[1..])
  }

  lemma CutPrefixed(into: Key, src: Value, out: Vars, order: seq<Key>)
    requires src.Map? && IsOutput(into, src, out) && Orders(order, out)
    ensures forall e :: e in Entries(order, out) ==> |e.path| > |Segments(into)|
    ensures Entries(order, out) == Prefixed(Segments(into), Cut(|Segments(into)|, Entries(order, out)))
  {
    var es, at := Entries(order, out), Segments(into);
    forall i | 0 <= i < |es| ensures at < es[i].path {
      EntryBelow(into, src, out, order, i);
    }
    CutThenPrefix(at, es);
  }

  lemma {:induction false} CutThenPrefix(at: Path, es: seq<Entry>)
    requires forall e :: e in es ==> at < e.path
    ensures Prefixed(at, Cut(|at|, es)) == es
    decreases |es|
  {
    if es != [] {
      CutThenPrefix(at, es[1..]);
      assert at + es[0].path[|at|..] == es[0].path;
    }
  }

  lemma EntryBelow(into: Key, src: Value, out: Vars, order: seq<Key>, i: nat)
    requires src.Map? && IsOutput(into, src, out) && Orders(order, out) && i < |order|
    ensures Segments(into) < Entries(order, out)[i].path
  {
    assert order[i] in order;
    var p :| p in LeafPaths(src) && FullKey(into, p) == order[i] && At(src, p) == out[order[i]];
    LeafHead(src, p);
    FullKeyBelow(into, p);
  }

  lemma CutLists(into: Key, src: Value, want: Value, out: Vars, order: seq<Key>)
    requires src.Map? && KeysDotFree(src) && MangledTo(src, want) && IsOutput(into, src, out) && Orders(order, out)
    requires forall e :: e in Entries(order, out) ==> |e.path| > |Segments(into)|
    ensures Lists(Cut(|Segments(into)|, Entries(order, out)), want)
  {
    var n := |Segments(into)|;
    var es := Entries(order, out);
    var cut := Cut(n, es);
    forall i | 0 <= i < |cut| ensures cut[i].path in LeafPaths(want) && cut[i].value == At(want, cut[i].path) {
      EntryIsLeaf(into, src, want, out, order, i);
    }
    forall q | q in LeafPaths(want) ensures Entry(q, At(want, q)) in cut {
      LeafHead(want, q);
      var i := LeafHasEntry(into, src, want, out, order, q);
      assert cut[i] == Entry(q, At(want, q));
    }
  }

  /** Entry i of the output writes a leaf of the mangled source below `into`. */
  lemma EntryIsLeaf(into: Key, src: Value, want: Value, out: Vars, order: seq<Key>, i: nat)
    requires src.Map? && KeysDotFree(src) && MangledTo(src, want) && IsOutput(into, src, out) && Orders(order, out)
    requires i < |order| && |Entries(order, out)[i].path| > |Segments(into)|
    ensures var q := Entries(order, out)[i].path[|Segments(into)|..];
            q in LeafPaths(want) && Entries(order, out)[i].value == At(want, q)
  {
    assert order[i] in order;
    var p :| p in LeafPaths(src) && FullKey(into, p) == order[i] && At(src, p) == out[order[i]];
    LeafDotFree(src, p);
    SegmentsFullKey(into, p);
    assert Entries(order, out)[i].path[|Segments(into)|..] == MangleAll(p);
    LeafMangled(src, want, p);
  }

  /** Every leaf of the mangled source has such an entry. */
  lemma LeafHasEntry(into: Key, src: Value, want: Value, out: Vars, order: seq<Key>, q: Path) returns (i: nat)
    requires src.Map? && KeysDotFree(src) && MangledTo(src, want) && IsOutput(into, src, out) && Orders(order, out)
    requires q in LeafPaths(want) && q != []
    ensures i < |order| && Entries(order, out)[i] == Entry(Segments(into) + q, At(want, q))
  {
    var p := LeafUnmangled(src, want, q);
    i := LeafInOrder(into, src, out, order, p);
    LeafDotFree(src, p);
    SegmentsFullKey(into, p);
    assert Entries(order, out)[i].path == Segments(into) + q;
    EntryIsLeaf(into, src, want, out, order, i);
  }

  lemma LeafInOrder(into: Key, src: Value, out: Vars, order: seq<Key>, p: Path) returns (i: nat)
    requires src.Map? && IsOutput(into, src, out) && Orders(order, out) && p in LeafPaths(src)
    ensures i < |order| && order[i] == FullKey(into, p)
  {
    assert FullKey(into, p) in order;
    i :| 0 <= i < |order| && order[i] == FullKey(into, p);
  }

  /** For dot-free keys and no empty map, the code merges the mangled source at
      the mangled path, for every target and every enumeration order. */
  lemma ApplyIsMangledMerge(t: Vars, into: Key, src: Value, want: Value, out: Vars, order: seq<Key>)
    requires src.Map? && MangledTo(src, want) && KeysDotFree(src) && NoEmpty(src)
    requires IsOutput(into, src, out) && Orders(order, out)
    ensures ApplyAll(t, Entries(order, out)) == MergeInto(t, Segments(into), want)
  {
    var at, es := Segments(into), Entries(order, out);
    CutPrefixed(into, src, out, order);
    var cut := Cut(|at|, es);
    CutLists(into, src, want, out, order);
    MangledNoEmpty(src, want);
    var q := HasLeaf(want);
    assert Entry(q, At(want, q)) in cut;
    forall e | e in cut ensures e.path != [] { LeafHead(want, e.path); }
    ApplyPrefixed(t, at, cut);
    IntoIsMerge(t, at, cut, want);
  }

  // ------------------------------------------------- when it is the deep merge

  /** Writing the flattened source gives the documented merge for every target,
      every map-iteration order of the verb and of the store. */
  ghost predicate Faithful(into: Key, src: Value)
    requires src.Map?
  {
    forall t: Vars, out: Vars, order: seq<Key> ::
      IsOutput(into, src, out) && Orders(order, out) ==>
        ApplyAll(t, Entries(order, out)) == MergeInto(t, Split(into), src)
  }

  /** What a caller can check before the call. */
  predicate Clean(into: Key, src: Value)
  {
    Ascii(into) && KeysDotFree(src) && KeysAscii(src) && NoEmpty(src)
  }

  lemma {:induction false} AsciiDeep(v: Value, w: Value)
    requires MangledTo(v, w) && KeysAscii(v)
    ensures w == v
    decreases v
  {
    if v.Map? {
      forall k | k in v.m ensures k in w.m && w.m[k] == v.m[k] {
        SegmentSurvives(k);
        AsciiDeep(v.m[k], w.m[Mangle(k)]);
      }
      forall m | m in w.m ensures m in v.m {
        assert Holds(w, m);
        var k :| k in v.m && Mangle(k) == m;
        SegmentSurvives(k);
      }
    }
  }

  predicate AllAscii(p: seq<Key>)
  {
    forall i :: 0 <= i < |p| ==> Ascii(p[i])
  }

  lemma AsciiCons(b: Byte, s: Key)
    ensures Ascii([b] + s) <==> b < 128 && Ascii(s)
  {
    assert ([b] + s)[0] == b;
    forall i | 0 <= i < |s| ensures ([b] + s)[i + 1] == s[i] {}
    if Ascii([b] + s) {
      forall i | 0 <= i < |s| ensures s[i] < 128 { assert ([b] + s)[i + 1] < 128; }
    }
  }

  lemma AllAsciiStep(b: Byte, p: seq<Key>)
    requires |p| >= 1
    ensures AllAscii(SplitStep(b, p)) <==> b < 128 && AllAscii(p)
  {
    var q := SplitStep(b, p);
    if b == DOT {
      assert q == [[]] + p;
      assert forall i :: 0 <= i < |p| ==> q[i + 1] == p[i];
      if AllAscii(q) {
        forall i | 0 <= i < |p| ensures Ascii(p[i]) { assert Ascii(q[i + 1]); }
      }
    } else {
      AsciiCons(b, p[0]);
      assert q[0] == [b] + p[0];
      assert forall i :: 1 <= i < |p| ==> q[i] == p[i];
    }
  }

  lemma {:induction false} SplitAscii(key: Key)
    ensures Ascii(key) <==> AllAscii(Split(key))
  {
    if key != [] {
      SplitAscii(key[1..]);
      assert key == [key[0]] + key[1..];
      AsciiCons(key[0], key[1..]);
      AllAsciiStep(key[0], Split(key[1..]));
    }
  }

  lemma AsciiSegments(key: Key)
    ensures Segments(key) == Split(key) <==> Ascii(key)
  {
    SplitAscii(key);
    var p := Split(key);
    forall i | 0 <= i < |p| ensures Segments(key)[i] == p[i] <==> Ascii(p[i]) { SegmentSurvives(p[i]); }
  }

  /** A map equal to its mangled self is ASCII: otherwise each non-ASCII key
      would have an even longer image among the keys. */
  lemma {:induction false} DeepAscii(v: Value)
    requires MangledTo(v, v)
    ensures KeysAscii(v)
  {
    if v.Map? {
      var n := LenBound(v.m.Keys);
      forall k | k in v.m ensures Ascii(k) && KeysAscii(v.m[k]) {
        KeyAscii(v, k, n);
        SegmentSurvives(k);
        assert MangledTo(v.m[k], v.m[Mangle(k)]);
        DeepAscii(v.m[k]);
      }
    }
  }

  lemma {:induction false} KeyAscii(v: Value, k: Key, n: nat)
    requires v.Map? && MangledTo(v, v) && k in v.m
    requires forall x :: x in v.m ==> |x| <= n
    ensures Ascii(k)
    decreases n - |k|
  {
    if !Ascii(k) {
      MangleGrows(k);
      assert Mangle(k) in v.m;
      KeyAscii(v, Mangle(k), n);
    }
  }

  lemma {:induction false} LenBound(s: set<Key>) returns (n: nat)
    ensures forall k :: k in s ==> |k| <= n
  {
    n := 0;
    if s != {} {
      var k :| k in s;
      n := LenBound(s - {k});
      if n < |k| {
        n := |k|;
      }
    }
  }

  lemma {:induction false} MergeFromNothing(src: Value)
    requires src.Map?
    ensures DeepMerge(map[], src) == src.m
    decreases src
  {
    forall k | k in src.m && src.m[k].Map? { MergeFromNothing(src.m[k]); }
  }

  /** Only dot-free keys, and no empty map below the root. */
  predicate Shaped(t: Vars)
  {
    forall k :: k in t ==> DotFree(k) && KeysDotFree(t[k]) && NoEmpty(t[k])
  }

  lemma {:induction false} PutShaped(t: Vars, path: Path, v: Value)
    requires Shaped(t) && path != [] && PathDotFree(path) && !v.Map?
    ensures Shaped(Put(t, path, v)) && Put(t, path, v) != map[]
    decreases path
  {
    assert DotFree(path[0]);
    if |path| > 1 {
      assert PathDotFree(path[1..]);
      PutShaped(SubMap(t, path[0]), path[1..], v);
    }
    assert path[0] in Put(t, path, v);
  }

  lemma {:induction false} ApplyShaped(t: Vars, es: seq<Entry>)
    requires Shaped(t)
    requires forall e :: e in es ==> e.path != [] && PathDotFree(e.path) && !e.value.Map?
    ensures Shaped(ApplyAll(t, es)) && (es != [] ==> ApplyAll(t, es) != map[])
    decreases |es|
  {
    if es != [] {
      PutShaped(t, es[0].path, es[0].value);
      ApplyShaped(Put(t, es[0].path, es[0].value), es[1..]);
      if |es| == 1 {
        assert es[1..] == [];
      }
    }
  }

  lemma {:induction false} ChainsEqual(p: Path, q: Path, es: seq<Entry>, src: Value)
    requires src.Map? && |p| == |q| && forall e :: e in es ==> e.path != []
    requires ApplyInto(map[], p, es) == MergeInto(map[], q, src)
    ensures p == q && ApplyAll(map[], es) == DeepMerge(map[], src)
    decreases |p|
  {
    if p != [] {
      var a, b := ApplyInto(map[], p, es), MergeInto(map[], q, src);
      assert p[0] in a && a.Keys == {p[0]} && b.Keys == {q[0]};
      assert p[0] == q[0];
      assert a[p[0]] == b[q[0]];
      ChainsEqual(p[1..], q[1..], es, src);
    }
  }

  /** Some outcome of the verb, and some order over it. */
  lemma {:induction false} SomeOutput(into: Key, src: Value, todo: set<Path>) returns (out: Vars)
    requires todo <= LeafPaths(src)
    ensures Flattened(into, src, todo, map[], out)
    decreases |todo|
  {
    if todo == {} {
      out := map[];
    } else {
      var p :| p in todo;
      out := SomeOutput(into, src, todo - {p});
      out := out[FullKey(into, p) := At(src, p)];
    }
  }

  lemma {:induction false} SomeOrder(keys: set<Key>) returns (order: seq<Key>)
    ensures forall k :: k in order <==> k in keys
  {
    order := [];
    if keys != {} {
      var k :| k in keys;
      order := SomeOrder(keys - {k});
      order := [k] + order;
    }
  }

  predicate Cleanly(e: Entry)
  {
    e.path != [] && PathDotFree(e.path) && !e.value.Map?
  }

  lemma CutDotFree(into: Key, src: Value, out: Vars, order: seq<Key>)
    requires src.Map? && IsOutput(into, src, out) && Orders(order, out)
    requires forall e :: e in Entries(order, out) ==> |e.path| > |Segments(into)|
    ensures forall e :: e in Cut(|Segments(into)|, Entries(order, out)) ==> Cleanly(e)
  {
    var cut := Cut(|Segments(into)|, Entries(order, out));
    forall i | 0 <= i < |cut| ensures Cleanly(cut[i]) {
      CutEntryDotFree(into, src, out, order, i);
    }
  }

  lemma CutEntryDotFree(into: Key, src: Value, out: Vars, order: seq<Key>, i: nat)
    requires src.Map? && IsOutput(into, src, out) && Orders(order, out) && i < |order|
    requires forall e :: e in Entries(order, out) ==> |e.path| > |Segments(into)|
    ensures Cleanly(Cut(|Segments(into)|, Entries(order, out))[i])
  {
    EntryDotFree(into, src, out, order, i);
    CutCleanly(|Segments(into)|, Entries(order, out), i);
  }

  lemma CutCleanly(n: nat, es: seq<Entry>, i: nat)
    requires i < |es| && (forall e :: e in es ==> |e.path| > n)
    requires PathDotFree(es[i].path) && !es[i].value.Map?
    ensures Cleanly(Cut(n, es)[i])
  {
    assert es[i] in es;
    assert Cut(n, es)[i].path == es[i].path[n..];
  }

  lemma EntryDotFree(into: Key, src: Value, out: Vars, order: seq<Key>, i: nat)
    requires src.Map? && IsOutput(into, src, out) && Orders(order, out) && i < |order|
    ensures PathDotFree(Entries(order, out)[i].path) && !Entries(order, out)[i].value.Map?
  {
    assert order[i] in order;
    SegmentsDotFree(order[i]);
    var p :| p in LeafPaths(src) && FullKey(into, p) == order[i] && At(src, p) == out[order[i]];
    LeafIsNoMap(src, p);
  }

  /** Taking the empty target, the result has only dot-free keys and no empty
      map, and it is the mangled source; so the source itself was clean. */
  lemma FaithfulMeansClean(into: Key, src: Value)
    requires src.Map? && Faithful(into, src)
    ensures Clean(into, src)
  {
    var out, order, cut := FaithfulCut(into, src);
    AsciiSegments(into);
    ApplyShaped(map[], cut);
    var want := Mangled(src);
    CutLists(into, src, want, out, order);
    MangledNoEmpty(src, want);
    ApplyIsDeepMerge(map[], cut, want);
    MergeFromNothing(want);
    DeepAscii(src);
  }

  predicate IsCut(n: nat, es: seq<Entry>, cut: seq<Entry>)
  {
    (forall e :: e in es ==> |e.path| > n) && cut == Cut(n, es)
  }

  lemma FaithfulCut(into: Key, src: Value) returns (out: Vars, order: seq<Key>, cut: seq<Entry>)
    requires src.Map? && Faithful(into, src)
    ensures IsOutput(into, src, out) && Orders(order, out) && IsCut(|Segments(into)|, Entries(order, out), cut)
    ensures Segments(into) == Split(into) && cut != [] && ApplyAll(map[], cut) == src.m
    ensures forall e :: e in cut ==> Cleanly(e)
  {
    out := SomeOutput(into, src, LeafPaths(src));
    order := SomeOrder(out.Keys);
    CutPrefixed(into, src, out, order);
    CutDotFree(into, src, out, order);
    cut := Cut(|Segments(into)|, Entries(order, out));
    SameAsPrefixed(into, src, cut);
  }

  lemma SameAsPrefixed(into: Key, src: Value, cut: seq<Entry>)
    requires src.Map? && forall e :: e in cut ==> e.path != []
    requires forall e :: e in Prefixed(Segments(into), cut) ==> e.path != []
    requires ApplyAll(map[], Prefixed(Segments(into), cut)) == MergeInto(map[], Split(into), src)
    ensures Segments(into) == Split(into) && cut != [] && ApplyAll(map[], cut) == src.m
  {
    var at := Segments(into);
    assert Split(into)[0] in MergeInto(map[], Split(into), src);
    assert cut == [] ==> Prefixed(at, cut) == [];
    ApplyPrefixed(map[], at, cut);
    ChainsEqual(at, Split(into), cut, src);
    MergeFromNothing(src);
  }

  /** Flatten-then-apply is the documented deep merge, for every target and
      every iteration order, exactly when `into` is ASCII, the source keys are
      ASCII and free of dots, and the source holds no empty map. */
  lemma FlattenThenApplyIsDeepMerge(into: Key, src: Value)
    requires src.Map?
    ensures Faithful(into, src) <==> Clean(into, src)
  {
    if Clean(into, src) {
      AsciiSegments(into);
      var want := Mangled(src);
      AsciiDeep(src, want);
      forall t: Vars, out: Vars, order: seq<Key> | IsOutput(into, src, out) && Orders(order, out)
        ensures ApplyAll(t, Entries(order, out)) == MergeInto(t, Split(into), src)
      {
        ApplyIsMangledMerge(t, into, src, want, out, order);
      }
    }
    if Faithful(into, src) {
      FaithfulMeansClean(into, src);
    }
  }

  /** A source with a non-ASCII key is never merged right, whatever `into` is... */
  lemma NonAsciiKeyIsMisplaced(into: Key, src: Value, e: Key)
    requires src.Map? && e in src.m && !Ascii(e)
    ensures !Faithful(into, src)
  {
    FlattenThenApplyIsDeepMerge(into, src);
  }

  /** ... for instance "é" is written under "Ã©". */
  lemma AccentIsMangled()
    ensures Mangle([195, 169]) == [195, 131, 194, 169]
  {
    MangleTwo(195, 169);
  }

  lemma MangleTwo(a: Byte, b: Byte)
    ensures Mangle([a, b]) == Rune(a) + Rune(b)
  {
    assert [a, b] == [a] + [b];
    MangleAppend([a], [b]);
    assert Mangle([a]) == Rune(a) && Mangle([b]) == Rune(b);
  }
}
