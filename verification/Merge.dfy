/** The merge verb: flatten a map into dotted keys, then write the keys in the
    order Go happens to enumerate them. Proved to be the recursive
    last-write-wins merge exactly when the source is clean. */
module Merge {
  import opened DottedKeys

  type Path = seq<Key>

  datatype Entry = Entry(path: Path, value: Value)

  // ------------------------------------------------- the documented result

  /** Recursive last-write-wins merge of src into t. */
  function DeepMerge(t: Vars, src: Value): Vars
    requires src.Map?
    decreases src
  {
    map k | k in t.Keys + src.m.Keys :: MergeKey(t, src, k)
  }

  function MergeKey(t: Vars, src: Value, k: Key): Value
    requires src.Map? && (k in t || k in src.m)
    decreases src, 0
  {
    if k !in src.m then t[k]
    else if src.m[k].Map? then Map(DeepMerge(SubMap(t, k), src.m[k]))
    else src.m[k]
  }

  /** DeepMerge at a path; ancestors on the way become maps. */
  function MergeInto(t: Vars, at: Path, src: Value): Vars
    requires src.Map?
    decreases at
  {
    if at == [] then DeepMerge(t, src)
    else t[at[0] := Map(MergeInto(SubMap(t, at[0]), at[1..], src))]
  }

  // ------------------------------------------------- leaves of a source map

  function LeafPaths(v: Value): set<Path>
  {
    if v.Map? then set k, p | k in v.m && p in LeafPaths(v.m[k]) :: [k] + p else {[]}
  }

  function At(v: Value, p: Path): Value
    requires p in LeafPaths(v)
    decreases p
  {
    if v.Map? then
      var k, q :| k in v.m && q in LeafPaths(v.m[k]) && p == [k] + q;
      assert k == p[0] && q == p[1..];
      At(v.m[p[0]], p[1..])
    else v
  }

  lemma LeafStep(v: Value, k: Key, p: Path)
    requires v.Map?
    ensures [k] + p in LeafPaths(v) <==> k in v.m && p in LeafPaths(v.m[k])
    ensures [k] + p in LeafPaths(v) ==> At(v, [k] + p) == At(v.m[k], p)
  {
    if [k] + p in LeafPaths(v) {
      var k', q :| k' in v.m && q in LeafPaths(v.m[k']) && [k] + p == [k'] + q;
      assert k' == ([k] + p)[0] == k && q == ([k] + p)[1..] == p;
      assert ([k] + p)[1..] == p;
    }
  }

  lemma LeafHead(v: Value, p: Path)
    requires v.Map? && p in LeafPaths(v)
    ensures p != [] && p[0] in v.m && p[1..] in LeafPaths(v.m[p[0]])
    ensures At(v, p) == At(v.m[p[0]], p[1..])
  {
    var k, q :| k in v.m && q in LeafPaths(v.m[k]) && p == [k] + q;
    assert p[0] == k && p[1..] == q;
  }

  lemma {:induction false} LeafIsNoMap(v: Value, p: Path)
    requires p in LeafPaths(v)
    ensures !At(v, p).Map?
    decreases p
  {
    if v.Map? {
      LeafHead(v, p);
      LeafIsNoMap(v.m[p[0]], p[1..]);
    }
  }

  /** No empty map anywhere, the root included. */
  predicate NoEmpty(v: Value)
  {
    v.Map? ==> v.m != map[] && forall k :: k in v.m ==> NoEmpty(v.m[k])
  }

  predicate KeysDotFree(v: Value)
  {
    v.Map? ==> forall k :: k in v.m ==> DotFree(k) && KeysDotFree(v.m[k])
  }

  predicate KeysAscii(v: Value)
  {
    v.Map? ==> forall k :: k in v.m ==> Ascii(k) && KeysAscii(v.m[k])
  }

  lemma {:induction false} HasLeaf(v: Value) returns (p: Path)
    requires NoEmpty(v)
    ensures p in LeafPaths(v)
  {
    if v.Map? {
      var k :| k in v.m;
      p := HasLeaf(v.m[k]);
      p := [k] + p;
    } else {
      p := [];
    }
  }

  // ------------------------------------------------- writing entries in order

  function ApplyAll(t: Vars, es: seq<Entry>): Vars
    requires forall e :: e in es ==> e.path != []
    decreases |es|
  {
    if es == [] then t else ApplyAll(Put(t, es[0].path, es[0].value), es[1..])
  }

  /** The entries below key k, with k removed from their paths. */
  function Strip(es: seq<Entry>, k: Key): (r: seq<Entry>)
    ensures forall e :: e in r <==> e.path != [] && Entry([k] + e.path, e.value) in es
  {
    if es == [] then []
    else
      var rest := Strip(es[1..], k);
      if |es[0].path| > 1 && es[0].path[0] == k then
        assert [k] + es[0].path[1..] == es[0].path;
        var r := [Entry(es[0].path[1..], es[0].value)] + rest;
        assert forall e :: e in r <==> e.path != [] && Entry([k] + e.path, e.value) in es by {
          forall e ensures e in r <==> e.path != [] && Entry([k] + e.path, e.value) in es {
            assert ([k] + e.path)[1..] == e.path;
          }
        }
        r
      else
        assert forall e: Entry :: e.path != [] ==> Entry([k] + e.path, e.value) != es[0];
        rest
  }

  /** r holds under k what t holds there after the writes s below k. */
  predicate BelowIs(t: Vars, r: Vars, k: Key, s: seq<Entry>)
    requires forall e :: e in s ==> e.path != []
  {
    if s == [] then (k in r <==> k in t) && (k in t ==> r[k] == t[k])
    else k in r && r[k] == Map(ApplyAll(SubMap(t, k), s))
  }

  /** Below key k, writing all entries is writing the entries of k only. */
  lemma {:induction false} ApplyBelow(t: Vars, es: seq<Entry>, k: Key)
    requires forall e :: e in es ==> e.path != []
    requires forall e :: e in es && e.path[0] == k ==> |e.path| > 1
    ensures BelowIs(t, ApplyAll(t, es), k, Strip(es, k))
    decreases |es|
  {
    if es != [] {
      var e := es[0];
      var t' := Put(t, e.path, e.value);
      ApplyBelow(t', es[1..], k);
      if e.path[0] == k {
        StripCons(es, k);
        BelowCons(t, e, ApplyAll(t, es), k, Strip(es[1..], k));
      } else {
        assert Strip(es, k) == Strip(es[1..], k);
        assert k in t' <==> k in t;
        assert k in t ==> t'[k] == t[k];
      }
    }
  }

  lemma BelowCons(t: Vars, e: Entry, r: Vars, k: Key, s: seq<Entry>)
    requires |e.path| > 1 && e.path[0] == k && forall x :: x in s ==> x.path != []
    requires BelowIs(Put(t, e.path, e.value), r, k, s)
    ensures BelowIs(t, r, k, [Entry(e.path[1..], e.value)] + s)
  {
    var u := Put(SubMap(t, k), e.path[1..], e.value);
    assert Put(t, e.path, e.value) == t[k := Map(u)];
    ApplyCons(SubMap(t, k), Entry(e.path[1..], e.value), s);
    assert SubMap(t[k := Map(u)], k) == u;
    assert r[k] == Map(ApplyAll(u, s));
  }

  lemma StripCons(es: seq<Entry>, k: Key)
    requires es != [] && |es[0].path| > 1 && es[0].path[0] == k
    ensures Strip(es, k) == [Entry(es[0].path[1..], es[0].value)] + Strip(es[1..], k)
  {
  }

  lemma ApplyCons(t: Vars, e: Entry, es: seq<Entry>)
    requires e.path != [] && forall x :: x in es ==> x.path != []
    ensures ApplyAll(t, [e] + es) == ApplyAll(Put(t, e.path, e.value), es)
  {
    assert ([e] + es)[1..] == es;
  }

  /** A key that is itself a leaf gets its value; other heads leave it alone. */
  lemma {:induction false} ApplyLeaf(t: Vars, es: seq<Entry>, k: Key, v: Value)
    requires forall e :: e in es ==> e.path != []
    requires forall e :: e in es && e.path[0] == k ==> e == Entry([k], v)
    ensures var r := ApplyAll(t, es);
            if Entry([k], v) in es then k in r && r[k] == v
            else (k in r <==> k in t) && (k in t ==> r[k] == t[k])
    decreases |es|
  {
    if es != [] {
      ApplyLeaf(Put(t, es[0].path, es[0].value), es[1..], k, v);
    }
  }

  /** es lists exactly the leaves of src, in any order. */
  ghost predicate Lists(es: seq<Entry>, src: Value)
  {
    && (forall e :: e in es ==> e.path in LeafPaths(src) && e.value == At(src, e.path))
    && (forall p :: p in LeafPaths(src) ==> Entry(p, At(src, p)) in es)
  }

  /** Writing the leaves of src in any order is the deep merge of src. */
  lemma {:induction false} ApplyIsDeepMerge(t: Vars, es: seq<Entry>, src: Value)
    requires src.Map? && NoEmpty(src) && Lists(es, src)
    ensures forall e :: e in es ==> e.path != []
    ensures ApplyAll(t, es) == DeepMerge(t, src)
    decreases src
  {
    forall e | e in es ensures e.path != [] { LeafHead(src, e.path); }
    var r := ApplyAll(t, es);
    forall k ensures k in r <==> k in t || k in src.m
             ensures k in r ==> r[k] == MergeKey(t, src, k)
    {
      ApplyAtKey(t, es, src, k);
    }
  }

  lemma {:induction false} ApplyAtKey(t: Vars, es: seq<Entry>, src: Value, k: Key)
    requires src.Map? && NoEmpty(src) && Lists(es, src)
    requires forall e :: e in es ==> e.path != []
    ensures k in ApplyAll(t, es) <==> k in t || k in src.m
    ensures k in ApplyAll(t, es) ==> ApplyAll(t, es)[k] == MergeKey(t, src, k)
    decreases src, 0
  {
    forall e | e in es && e.path[0] == k
      ensures k in src.m && (src.m[k].Map? ==> |e.path| > 1)
      ensures !src.m[k].Map? ==> e == Entry([k], src.m[k])
    {
      LeafHead(src, e.path);
      if src.m[k].Map? {
        LeafHead(src.m[k], e.path[1..]);
      } else {
        assert e.path[1..] == [];
        assert e.path == [k];
      }
    }
    if k in src.m && src.m[k].Map? {
      var sub := src.m[k];
      ApplyBelow(t, es, k);
      StripLists(es, src, k);
      var p := HasLeaf(sub);
      assert Entry(p, At(sub, p)) in Strip(es, k);
      ApplyIsDeepMerge(SubMap(t, k), Strip(es, k), sub);
    } else if k in src.m {
      LeafStep(src, k, []);
      assert [k] + [] == [k];
      assert Entry([k], src.m[k]) in es;
      ApplyLeaf(t, es, k, src.m[k]);
    } else {
      assert Entry([k], Null) !in es by {
        assert [k][0] == k;
      }
      ApplyLeaf(t, es, k, Null);
    }
  }

  lemma StripLists(es: seq<Entry>, src: Value, k: Key)
    requires src.Map? && Lists(es, src) && k in src.m && src.m[k].Map?
    ensures Lists(Strip(es, k), src.m[k])
  {
    var s := Strip(es, k);
    forall e | e in s ensures e.path in LeafPaths(src.m[k]) && e.value == At(src.m[k], e.path) {
      LeafStep(src, k, e.path);
    }
    forall p | p in LeafPaths(src.m[k]) ensures Entry(p, At(src.m[k], p)) in s {
      LeafStep(src, k, p);
      LeafHead(src.m[k], p);
      assert Entry([k] + p, At(src, [k] + p)) in es;
    }
  }

  function Prefixed(at: Path, es: seq<Entry>): (r: seq<Entry>)
    ensures |r| == |es|
    ensures forall i :: 0 <= i < |es| ==> r[i] == Entry(at + es[i].path, es[i].value)
  {
    if es == [] then [] else [Entry(at + es[0].path, es[0].value)] + Prefixed(at, es[1..])
  }

  /** ApplyAll under a common prefix, written with the nested target. */
  function ApplyInto(t: Vars, at: Path, es: seq<Entry>): Vars
    requires forall e :: e in es ==> e.path != []
    decreases at
  {
    if at == [] then ApplyAll(t, es)
    else t[at[0] := Map(ApplyInto(SubMap(t, at[0]), at[1..], es))]
  }

  lemma PrefixedPaths(at: Path, es: seq<Entry>)
    requires forall e :: e in es ==> e.path != []
    ensures at == [] ==> Prefixed(at, es) == es
    ensures forall e :: e in Prefixed(at, es) ==> |e.path| > |at| && (at != [] ==> e.path[0] == at[0])
  {
    var ps := Prefixed(at, es);
    forall i | 0 <= i < |es|
      ensures |ps[i].path| > |at| && (at != [] ==> ps[i].path[0] == at[0])
      ensures at == [] ==> ps[i] == es[i]
    {
      assert es[i] in es;
      assert at == [] ==> at + es[i].path == es[i].path;
    }
  }

  lemma {:induction false} ApplyPrefixed(t: Vars, at: Path, es: seq<Entry>)
    requires es != [] && forall e :: e in es ==> e.path != []
    ensures forall e :: e in Prefixed(at, es) ==> e.path != []
    ensures ApplyAll(t, Prefixed(at, es)) == ApplyInto(t, at, es)
    decreases at
  {
    PrefixedPaths(at, es);
    if at != [] {
      ApplyPrefixed(SubMap(t, at[0]), at[1..], es);
      PrefixedPaths(at[1..], es);
      StripPrefixed(at, es);
      ApplyBelow(t, Prefixed(at, es), at[0]);
      ApplyElsewhere(t, Prefixed(at, es), at[0]);
    }
  }

  lemma ApplyElsewhere(t: Vars, es: seq<Entry>, h: Key)
    requires forall e :: e in es ==> e.path != [] && e.path[0] == h
    requires h in ApplyAll(t, es)
    ensures ApplyAll(t, es) == t[h := ApplyAll(t, es)[h]]
  {
    var r := ApplyAll(t, es);
    forall k | k != h ensures k in r <==> k in t
                      ensures k in t ==> r[k] == t[k]
    {
      assert Entry([k], Null).path[0] == k;
      ApplyLeaf(t, es, k, Null);
    }
  }

  lemma {:induction false} StripPrefixed(at: Path, es: seq<Entry>)
    requires at != [] && forall e :: e in es ==> e.path != []
    ensures Strip(Prefixed(at, es), at[0]) == Prefixed(at[1..], es)
    decreases |es|
  {
    if es != [] {
      var ps := Prefixed(at, es);
      assert ps[1..] == Prefixed(at, es[1..]);
      StripPrefixed(at, es[1..]);
      assert (at + es[0].path)[1..] == at[1..] + es[0].path;
    }
  }

  lemma {:induction false} IntoIsMerge(t: Vars, at: Path, es: seq<Entry>, src: Value)
    requires src.Map? && NoEmpty(src) && Lists(es, src)
    requires forall e :: e in es ==> e.path != []
    ensures ApplyInto(t, at, es) == MergeInto(t, at, src)
    decreases at
  {
    if at == [] {
      ApplyIsDeepMerge(t, es, src);
    } else {
      IntoIsMerge(SubMap(t, at[0]), at[1..], es, src);
    }
  }
}
