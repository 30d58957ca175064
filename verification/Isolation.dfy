/** The memory store on the heap: variables are nested mutable maps and slices,
    and every value that crosses the store's boundary is copied. */
module Isolation {
  import opened DottedKeys

  /** An interface value: a scalar, or a reference to a mutable map or slice. */
  datatype Any = Atom(v: Value) | Ref(n: Node)

  predicate Scalar(v: Value)
  {
    !v.Map? && !v.List?
  }

  ghost function ReprOf(a: Any): set<Node>
    reads if a.Ref? then {a.n} else {}
  {
    if a.Ref? then a.n.repr else {}
  }

  ghost predicate ValidAny(a: Any)
    reads if a.Ref? then {a.n} else {}
    reads ReprOf(a)
  {
    if a.Ref? then a.n.Valid() else Scalar(a.v)
  }

  /** The value a stands for. */
  ghost function ValueOf(a: Any): Value
    reads if a.Ref? then {a.n} else {}
  {
    if a.Ref? then a.n.value else a.v
  }

  class Node {
    const list: bool
    var fields: map<Key, Any>
    var items: seq<Any>
    ghost var repr: set<Node>      // the nodes of the tree
    ghost var value: Value         // what the tree stands for

    constructor (list: bool)
      ensures this.list == list && fields == map[] && items == [] && repr == {this}
      ensures value == if list then List([]) else Map(map[])
    {
      this.list := list;
      fields, items, repr := map[], [], {this};
      value := if list then List([]) else Map(map[]);
    }

    /** The value a under this node: a scalar, or a tree of its own. */
    ghost predicate Holds(a: Any)
      requires this in repr
      reads this, repr
      decreases repr, 0
    {
      if a.Ref? then a.n in repr && a.n.repr <= repr - {this} && a.n.Valid() else Scalar(a.v)
    }

    /** A tree: no node is reached twice, so JSON-shaped. */
    ghost predicate Valid()
      reads this, repr
      decreases repr, 1
    {
      && this in repr
      && (forall k :: k in fields ==> Holds(fields[k]))
      && (forall i :: 0 <= i < |items| ==> Holds(items[i]))
      && (forall k, l {:trigger ReprOf(fields[k]), ReprOf(fields[l])} ::
            k in fields && l in fields && k != l ==> ReprOf(fields[k]) !! ReprOf(fields[l]))
      && (forall i, j {:trigger ReprOf(items[i]), ReprOf(items[j])} ::
            0 <= i < j < |items| ==> ReprOf(items[i]) !! ReprOf(items[j]))
      && (if list then
            && fields == map[] && value.List? && |value.items| == |items|
            && forall i :: 0 <= i < |items| ==> value.items[i] == ValueOf(items[i])
          else
            && items == [] && value.Map?
            && (forall k :: k in fields <==> k in value.m)
            && forall k :: k in fields ==> value.m[k] == ValueOf(fields[k]))
    }

    /** m[k] = v for a value that shares nothing with this tree. */
    method Put(k: Key, v: Any)
      requires Valid() && !list && ValidAny(v) && ReprOf(v) !! repr
      modifies this
      ensures Valid() && repr == old(repr) + ReprOf(v)
      ensures value == Map(old(value.m)[k := old(ValueOf(v))])
    {
      assert forall l :: l in fields ==> Holds(fields[l]);
      fields, repr, value := fields[k := v], repr + ReprOf(v), Map(value.m[k := ValueOf(v)]);
      var all := fields;
      forall l | l in all ensures Holds(all[l]) && ReprOf(all[l]) == old(ReprOf(all[l])) {
        var a := all[l];
        if a.Ref? {
          assert old(a.n.Valid()) && this !in old(a.n.repr);
        }
      }
    }

    /** append. */
    method Append(v: Any)
      requires Valid() && list && ValidAny(v) && ReprOf(v) !! repr
      modifies this
      ensures Valid() && repr == old(repr) + ReprOf(v)
      ensures value == List(old(value.items) + [old(ValueOf(v))])
    {
      assert forall i :: 0 <= i < |items| ==> Holds(items[i]);
      items, repr, value := items + [v], repr + ReprOf(v), List(value.items + [ValueOf(v)]);
      assert forall i :: 0 <= i < |items| ==> Holds(items[i]);
    }
  }

  // ------------------------------------------------- values on the heap

  /** a stands for v, all its nodes being in s. What a caller passes may share
      nodes; v being finite, it has no cycle. */
  ghost predicate Represents(a: Any, v: Value, s: set<object>)
    reads s
    decreases v
  {
    match v
    case Map(m) =>
      && a.Ref? && a.n in s && !a.n.list && a.n.fields.Keys == m.Keys
      && forall k :: k in m ==> Represents(a.n.fields[k], m[k], s)
    case List(items) =>
      && a.Ref? && a.n in s && a.n.list && |a.n.items| == |items|
      && forall i :: 0 <= i < |items| ==> Represents(a.n.items[i], items[i], s)
    case _ => a == Atom(v)
  }

  lemma {:induction false} RepresentsMore(a: Any, v: Value, s: set<object>, t: set<object>)
    requires Represents(a, v, s) && s <= t
    ensures Represents(a, v, t)
    decreases v
  {
    match v
    case Map(m) =>
      forall k | k in m ensures Represents(a.n.fields[k], m[k], t) {
        RepresentsMore(a.n.fields[k], m[k], s, t);
      }
    case List(items) =>
      forall i | 0 <= i < |items| ensures Represents(a.n.items[i], items[i], t) {
        RepresentsMore(a.n.items[i], items[i], s, t);
      }
    case _ =>
  }

  /** A tree of the store stands for its value. */
  lemma {:induction false} TreeRepresents(n: Node)
    requires n.Valid()
    ensures Represents(Ref(n), n.value, n.repr)
    decreases n.repr
  {
    if n.list {
      forall i | 0 <= i < |n.items| ensures Represents(n.items[i], n.value.items[i], n.repr) {
        assert n.Holds(n.items[i]);
        ChildRepresents(n, n.items[i]);
      }
    } else {
      forall k | k in n.fields ensures Represents(n.fields[k], n.value.m[k], n.repr) {
        assert n.Holds(n.fields[k]);
        ChildRepresents(n, n.fields[k]);
      }
    }
  }

  lemma ChildRepresents(n: Node, a: Any)
    requires n in n.repr && n.Holds(a)
    ensures Represents(a, ValueOf(a), n.repr)
    decreases n.repr, 0
  {
    if a.Ref? {
      TreeRepresents(a.n);
      RepresentsMore(a, a.n.value, a.n.repr, n.repr);
    }
  }

  ghost predicate PointsInto(a: Any, s: set<object>)
  {
    a.Ref? ==> a.n in s
  }

  /** Nothing outside is reachable from these nodes. */
  ghost predicate Closed(s: set<Node>)
    reads s
  {
    forall n :: n in s ==>
      && (forall k :: k in n.fields ==> PointsInto(n.fields[k], s))
      && (forall i :: 0 <= i < |n.items| ==> PointsInto(n.items[i], s))
  }

  // ------------------------------------------------- copies

  /** A map being filled. */
  ghost predicate Copy(out: Node)
    reads out, out.repr
  {
    out.Valid() && !out.list && Closed(out.repr)
  }

  /** The copy is a tree of new nodes for the same value. */
  method CloneAny(a: Any, ghost v: Value, ghost s: set<object>) returns (b: Any)
    requires Represents(a, v, s)
    ensures ValidAny(b) && fresh(ReprOf(b)) && ValueOf(b) == v && Closed(ReprOf(b))
    decreases v, 4
  {
    match a {
      case Atom(_) => b := a;
      case Ref(n) =>
        var c: Node;
        if n.list {
          c := CloneList(n, v.items, v, s);
        } else {
          c := CloneMap(n, v.m, v, s);
        }
        b := Ref(c);
    }
  }

  /** m is want without the keys still to copy. */
  ghost predicate Lacks(m: Vars, want: Vars, keys: set<Key>)
  {
    forall k :: (k in m <==> k in want && k !in keys) && (k in m ==> m[k] == want[k])
  }

  lemma LacksNothing(m: Vars, want: Vars)
    requires Lacks(m, want, {})
    ensures m == want
  {
    assert forall k :: k in m <==> k in want;
  }

  method CloneMap(n: Node, ghost m: Vars, ghost v: Value, ghost s: set<object>) returns (out: Node)
    requires v == Map(m) && Represents(Ref(n), v, s)
    ensures Copy(out) && fresh(out.repr) && out.value == v
    decreases v, 3
  {
    out := new Node(false);
    CopyFields(n, m, v, s, out);
    LacksNothing(out.value.m, m);
  }

  method CopyFields(n: Node, ghost m: Vars, ghost v: Value, ghost s: set<object>, out: Node)
    requires v == Map(m) && Represents(Ref(n), v, s) && Copy(out) && out !in s && out.value == Map(map[])
    modifies out
    ensures Copy(out) && fresh(out.repr - old(out.repr)) && Lacks(out.value.m, m, {})
    decreases v, 2
  {
    var keys := n.fields.Keys;
    while keys != {}
      invariant keys <= m.Keys && Represents(Ref(n), v, s)
      invariant Copy(out) && fresh(out.repr - old(out.repr))
      invariant Lacks(out.value.m, m, keys)
      decreases |keys|
    {
      var k :| k in keys;
      CopyField(n, m, v, s, k, out);
      keys := keys - {k};
    }
  }

  method CopyField(n: Node, ghost m: Vars, ghost v: Value, ghost s: set<object>, k: Key, out: Node)
    requires v == Map(m) && Represents(Ref(n), v, s) && k in m && Copy(out) && out !in s
    modifies out
    ensures Copy(out) && fresh(out.repr - old(out.repr))
    ensures out.value == Map(old(out.value.m)[k := m[k]])
    decreases v, 1
  {
    var b := CloneAny(n.fields[k], m[k], s);
    out.Put(k, b);
  }

  method CloneList(n: Node, ghost items: seq<Value>, ghost v: Value, ghost s: set<object>) returns (out: Node)
    requires v == List(items) && Represents(Ref(n), v, s)
    ensures out.Valid() && out.list && fresh(out.repr) && Closed(out.repr) && out.value == v
    decreases v, 3
  {
    out := new Node(true);
    for i := 0 to |n.items|
      invariant Represents(Ref(n), v, s)
      invariant out.Valid() && out.list && fresh(out.repr) && Closed(out.repr)
      invariant out.value == List(items[..i])
    {
      CopyItem(n, items, v, s, i, out);
    }
  }

  method CopyItem(n: Node, ghost items: seq<Value>, ghost v: Value, ghost s: set<object>, i: nat, out: Node)
    requires v == List(items) && Represents(Ref(n), v, s) && i < |items|
    requires out.Valid() && out.list && Closed(out.repr) && out !in s
    modifies out
    ensures out.Valid() && fresh(out.repr - old(out.repr)) && Closed(out.repr)
    ensures out.value == List(old(out.value.items) + [items[i]])
    decreases v, 1
  {
    var b := CloneAny(n.items[i], items[i], s);
    out.Append(b);
  }

  // ------------------------------------------------- the in-place dotted write

  /** applyDottedKey from the node t down: walk to, or create, the nested map of
      the first segment, then go on with the rest. */
  method ApplyPath(t: Node, path: seq<Key>, v: Any)
    requires path != [] && t.Valid() && !t.list && ValidAny(v) && ReprOf(v) !! t.repr
    modifies t.repr
    ensures t.Valid() && fresh(t.repr - old(t.repr) - old(ReprOf(v)))
    ensures t.value == Map(DottedKeys.Put(old(t.value.m), path, old(ValueOf(v))))
    decreases |path|, 1
  {
    if |path| == 1 {
      t.Put(path[0], v);
    } else if path[0] in t.fields && t.fields[path[0]].Ref? && !t.fields[path[0]].n.list {
      Descend(t, path, v);
    } else {
      Create(t, path, v);
    }
  }

  lemma NoMapThere(t: Node, p: Key)
    requires t.Valid() && !t.list
    requires !(p in t.fields && t.fields[p].Ref? && !t.fields[p].n.list)
    ensures SubMap(t.value.m, p) == map[]
  {
    if p in t.fields {
      assert t.Holds(t.fields[p]);
      if t.fields[p].Ref? {
        var c := t.fields[p].n;
        assert c.Valid();
        assert c.value.List?;
      }
    }
  }

  method Create(t: Node, path: seq<Key>, v: Any)
    requires |path| > 1 && t.Valid() && !t.list && ValidAny(v) && ReprOf(v) !! t.repr
    requires !(path[0] in t.fields && t.fields[path[0]].Ref? && !t.fields[path[0]].n.list)
    modifies t
    ensures t.Valid() && fresh(t.repr - old(t.repr) - old(ReprOf(v)))
    ensures t.value == Map(DottedKeys.Put(old(t.value.m), path, old(ValueOf(v))))
    decreases |path|, 0
  {
    NoMapThere(t, path[0]);
    var nested := Chain(path[1..], v);
    t.Put(path[0], Ref(nested));
  }

  /** The new maps below a segment that had none. */
  method Chain(path: seq<Key>, v: Any) returns (nested: Node)
    requires path != [] && ValidAny(v)
    ensures nested.Valid() && !nested.list && fresh(nested.repr - ReprOf(v))
    ensures nested.value == Map(DottedKeys.Put(map[], path, ValueOf(v)))
    decreases |path|, 2
  {
    nested := new Node(false);
    ApplyPath(nested, path, v);
  }

  ghost predicate Parent(t: Node, p: Key)
    reads t, t.repr
  {
    t.Valid() && !t.list && p in t.fields && t.fields[p].Ref? && !t.fields[p].n.list
  }

  /** A write in the tree under p leaves the other fields alone. */
  method WriteBelow(t: Node, p: Key, path: seq<Key>, v: Any)
    requires Parent(t, p) && path != [] && ValidAny(v) && ReprOf(v) !! t.repr
    modifies t.fields[p].n.repr
    ensures t.fields == old(t.fields) && t.repr == old(t.repr) && t.items == old(t.items) && t.value == old(t.value)
    ensures ValidAny(t.fields[p]) && fresh(ReprOf(t.fields[p]) - old(ReprOf(t.fields[p])) - old(ReprOf(v)))
    ensures ValueOf(t.fields[p]) == Map(DottedKeys.Put(SubMap(old(t.value.m), p), path, old(ValueOf(v))))
    ensures forall k :: k in t.fields && k != p ==>
              && ValidAny(t.fields[k]) && ValueOf(t.fields[k]) == t.value.m[k]
              && ReprOf(t.fields[k]) == old(ReprOf(t.fields[k]))
    decreases |path|, 2
  {
    assert t.Holds(t.fields[p]);
    ApplyPath(t.fields[p].n, path, v);
    forall k | k in t.fields && k != p
      ensures ValidAny(t.fields[k]) && ValueOf(t.fields[k]) == t.value.m[k]
      ensures ReprOf(t.fields[k]) == old(ReprOf(t.fields[k]))
    {
      assert old(t.Holds(t.fields[k]) && ReprOf(t.fields[k]) !! ReprOf(t.fields[p]));
      var a := t.fields[k];
      if a.Ref? {
        assert old(a.n.Valid());
        assert old(a.n.repr) <= old(t.repr - ReprOf(t.fields[p]));
      }
    }
  }

  method Descend(t: Node, path: seq<Key>, v: Any)
    requires |path| > 1 && Parent(t, path[0]) && ValidAny(v) && ReprOf(v) !! t.repr
    modifies t.repr
    ensures t.Valid() && fresh(t.repr - old(t.repr) - old(ReprOf(v)))
    ensures t.value == Map(DottedKeys.Put(old(t.value.m), path, old(ValueOf(v))))
    decreases |path|, 0
  {
    assert forall k :: k in t.fields ==> t.Holds(t.fields[k]);
    assert t.value.m[path[0]] == ValueOf(t.fields[path[0]]);
    WriteBelow(t, path[0], path[1..], v);
    Reattach(t, path[0]);
  }

  /** The field p again holds a tree, perhaps with new nodes in it. */
  method Reattach(t: Node, p: Key)
    requires t in t.repr && !t.list && t.items == []
    requires p in t.fields && t.fields[p].Ref?
    requires t.value.Map? && t.value.m.Keys == t.fields.Keys
    requires forall k :: k in t.fields ==> ValidAny(t.fields[k]) && t !in ReprOf(t.fields[k])
    requires forall k :: k in t.fields && k != p ==>
               ReprOf(t.fields[k]) <= t.repr && t.value.m[k] == ValueOf(t.fields[k])
    requires forall k, l {:trigger ReprOf(t.fields[k]), ReprOf(t.fields[l])} ::
               k in t.fields && l in t.fields && k != l ==> ReprOf(t.fields[k]) !! ReprOf(t.fields[l])
    modifies t`repr, t`value
    ensures t.Valid() && t.repr == old(t.repr) + ReprOf(t.fields[p])
    ensures t.value == Map(old(t.value.m)[p := ValueOf(t.fields[p])])
  {
    t.repr, t.value := t.repr + t.fields[p].n.repr, Map(t.value.m[p := t.fields[p].n.value]);
    forall k | k in t.fields ensures t.Holds(t.fields[k]) && ReprOf(t.fields[k]) == old(ReprOf(t.fields[k])) {
      var a := t.fields[k];
      if a.Ref? {
        assert old(a.n.Valid()) && t !in old(a.n.repr);
      }
    }
  }
}
