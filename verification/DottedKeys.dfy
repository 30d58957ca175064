/** Run variables as JSON-shaped values, and the dotted-key write of the stores.
    Go strings are byte sequences, so keys are sequences of bytes. */
module DottedKeys {

  type Byte = x: int | 0 <= x < 256

  type Key = seq<Byte>

  const DOT: Byte := 46

  /** A value stored in a run's variables. */
  datatype Value =
    | Null
    | Bool(b: bool)
    | Int(n: int)
    | Float(r: real)
    | Str(s: Key)
    | List(items: seq<Value>)
    | Map(m: map<Key, Value>)

  type Vars = map<Key, Value>

  // ---------------------------------------------------------------- keys

  /** The source appends `string(key[i])`: the byte is read as a code point and
      re-encoded as UTF-8, so bytes from 0x80 up become two bytes. */
  function Rune(b: Byte): (r: Key)
  {
    if b < 128 then [b] else [192 + b / 64, 128 + b % 64]
  }

  function Mangle(s: Key): Key
  {
    if s == [] then [] else Rune(s[0]) + Mangle(s[1..])
  }

  function MangleAll(p: seq<Key>): (q: seq<Key>)
    ensures |q| == |p|
    ensures forall i :: 0 <= i < |p| ==> q[i] == Mangle(p[i])
  {
    if p == [] then [] else [Mangle(p[0])] + MangleAll(p[1..])
  }

  predicate Ascii(s: Key)
  {
    forall i :: 0 <= i < |s| ==> s[i] < 128
  }

  predicate DotFree(s: Key)
  {
    forall i :: 0 <= i < |s| ==> s[i] != DOT
  }

  /** The documented reading of a dotted key: cut at every dot. */
  function Split(key: Key): (p: seq<Key>)
    ensures |p| >= 1
  {
    if key == [] then [[]] else SplitStep(key[0], Split(key[1..]))
  }

  function SplitStep(b: Byte, p: seq<Key>): (q: seq<Key>)
    requires |p| >= 1
    ensures |q| >= 1
  {
    if b == DOT then [[]] + p else [[b] + p[0]] + p[1..]
  }

  lemma {:induction false} SplitIsDotFree(key: Key)
    ensures forall i :: 0 <= i < |Split(key)| ==> DotFree(Split(key)[i])
  {
    if key != [] {
      SplitIsDotFree(key[1..]);
    }
  }

  /** The path the code really walks. */
  function Segments(key: Key): (p: seq<Key>)
    ensures |p| >= 1
  {
    MangleAll(Split(key))
  }

  lemma {:induction false} MangleAppend(s: Key, t: Key)
    ensures Mangle(s + t) == Mangle(s) + Mangle(t)
  {
    if s == [] {
      assert s + t == t;
    } else {
      assert (s + t)[1..] == s[1..] + t;
      MangleAppend(s[1..], t);
    }
  }

  lemma {:induction false} MangleGrows(s: Key)
    ensures |Mangle(s)| >= |s|
    ensures Ascii(s) ==> Mangle(s) == s
    ensures !Ascii(s) ==> |Mangle(s)| > |s| && !Ascii(Mangle(s))
  {
    if s != [] {
      MangleGrows(s[1..]);
      var r, t := Rune(s[0]), Mangle(s[1..]);
      assert Ascii(s) <==> s[0] < 128 && Ascii(s[1..]);
      if !Ascii(s) {
        if s[0] >= 128 {
          assert (r + t)[0] == r[0];
        } else {
          var i :| 0 <= i < |t| && t[i] >= 128;
          assert (r + t)[|r| + i] == t[i];
        }
      }
    }
  }

  lemma {:induction false} MangleInjective(s: Key, t: Key)
    requires Mangle(s) == Mangle(t)
    ensures s == t
  {
    if s == [] {
      MangleGrows(t);
    } else if t == [] {
      MangleGrows(s);
    } else {
      var m := Mangle(s);
      assert m[0] == Rune(s[0])[0] == Rune(t[0])[0];
      if s[0] >= 128 {
        assert m[1] == Rune(s[0])[1] == Rune(t[0])[1];
      }
      assert s[0] == t[0];
      assert Mangle(s[1..]) == m[|Rune(s[0])|..] == Mangle(t[1..]);
      MangleInjective(s[1..], t[1..]);
    }
  }

  lemma {:induction false} MangleKeepsDotFree(s: Key)
    ensures DotFree(s) ==> DotFree(Mangle(s))
  {
    if s != [] && DotFree(s) {
      assert s[0] != DOT;
      assert forall i :: 0 <= i < |s[1..]| ==> s[1..][i] == s[i + 1];
      MangleKeepsDotFree(s[1..]);
    }
  }

  /** A key segment survives the write exactly when it is pure ASCII. */
  lemma SegmentSurvives(s: Key)
    ensures Mangle(s) == s <==> Ascii(s)
  {
    MangleGrows(s);
  }

  lemma {:induction false} SplitAppend(a: Key, b: Key)
    ensures Split(a + [DOT] + b) == Split(a) + Split(b)
  {
    var k := a + [DOT] + b;
    if a == [] {
      assert k[0] == DOT && k[1..] == b;
    } else {
      assert k[0] == a[0] && k[1..] == a[1..] + [DOT] + b;
      SplitAppend(a[1..], b);
      SplitStepAppend(a[0], Split(a[1..]), Split(b));
    }
  }

  lemma SplitStepAppend(b: Byte, p: seq<Key>, q: seq<Key>)
    requires |p| >= 1
    ensures SplitStep(b, p + q) == SplitStep(b, p) + q
  {
    assert (p + q)[0] == p[0] && (p + q)[1..] == p[1..] + q;
  }

  lemma {:induction false} SplitDotFree(a: Key)
    requires DotFree(a)
    ensures Split(a) == [a]
  {
    if a != [] {
      SplitDotFree(a[1..]);
      assert [a[0]] + a[1..] == a;
    }
  }

  lemma {:induction false} MangleAllAppend(p: seq<Key>, q: seq<Key>)
    ensures MangleAll(p + q) == MangleAll(p) + MangleAll(q)
  {
  }

  lemma SegmentsAppend(a: Key, b: Key)
    ensures Segments(a + [DOT] + b) == Segments(a) + Segments(b)
  {
    SplitAppend(a, b);
    MangleAllAppend(Split(a), Split(b));
  }

  lemma SegmentsDotFree(p: Key)
    ensures forall i :: 0 <= i < |Segments(p)| ==> DotFree(Segments(p)[i])
  {
    SplitIsDotFree(p);
    forall i | 0 <= i < |Segments(p)| ensures DotFree(Segments(p)[i]) {
      MangleKeepsDotFree(Split(p)[i]);
    }
  }

  /** A byte other than the dot only lengthens the last piece. */
  lemma {:induction false} SplitSnoc(k: Key, b: Byte)
    requires b != DOT
    ensures var p := Split(k); Split(k + [b]) == p[..|p| - 1] + [p[|p| - 1] + [b]]
  {
    if k == [] {
      assert k + [b] == [b];
      SplitDotFree([b]);
    } else {
      assert (k + [b])[0] == k[0] && (k + [b])[1..] == k[1..] + [b];
      SplitSnoc(k[1..], b);
      var p := Split(k[1..]);
      if k[0] != DOT && |p| == 1 {
        assert [k[0]] + (p[0] + [b]) == ([k[0]] + p[0]) + [b];
      }
    }
  }

  lemma SegmentsSnoc(k: Key, b: Byte)
    ensures var p := Segments(k);
            Segments(k + [b]) == if b == DOT then p + [[]] else p[..|p| - 1] + [p[|p| - 1] + Rune(b)]
  {
    if b == DOT {
      assert k + [b] == k + [DOT] + [];
      SegmentsAppend(k, []);
    } else {
      var p := Split(k);
      SplitSnoc(k, b);
      assert p == p[..|p| - 1] + [p[|p| - 1]];
      MangleLonger(p[..|p| - 1], p[|p| - 1], b);
    }
  }

  lemma MangleLonger(a: seq<Key>, c: Key, b: Byte)
    ensures MangleAll(a + [c]) == MangleAll(a) + [Mangle(c)]
    ensures MangleAll(a + [c + [b]]) == MangleAll(a) + [Mangle(c) + Rune(b)]
  {
    MangleAllSnoc(a, c);
    MangleAllSnoc(a, c + [b]);
    MangleAppend(c, [b]);
    assert Mangle([b]) == Rune(b);
  }

  lemma MangleAllSnoc(a: seq<Key>, c: Key)
    ensures MangleAll(a + [c]) == MangleAll(a) + [Mangle(c)]
  {
    MangleAllAppend(a, [c]);
  }

  /** The key-splitting loop at the head of applyDottedKey. */
  method SplitKey(key: Key) returns (parts: seq<Key>)
    ensures parts == Segments(key)
  {
    parts := [];
    var cur: Key := [];
    for i := 0 to |key|
      invariant parts + [cur] == Segments(key[..i])
    {
      assert key[..i + 1] == key[..i] + [key[i]];
      SegmentsSnoc(key[..i], key[i]);
      if key[i] == DOT {
        parts := parts + [cur];
        cur := [];
      } else {
        cur := cur + Rune(key[i]);
      }
    }
    assert key[..|key|] == key;
    parts := parts + [cur];
  }

  // ---------------------------------------------------------------- writes

  /** The nested map under k, or a fresh empty one when k holds none. */
  function SubMap(t: Vars, k: Key): Vars
  {
    if k in t && t[k].Map? then t[k].m else map[]
  }

  /** applyDottedKey on a path: create or replace non-map ancestors, then assign. */
  function Put(t: Vars, path: seq<Key>, v: Value): Vars
    requires path != []
    decreases path
  {
    if |path| == 1 then t[path[0] := v]
    else t[path[0] := Map(Put(SubMap(t, path[0]), path[1..], v))]
  }

  function Get(t: Vars, path: seq<Key>): (v: Value)
    requires path != []
    decreases path
  {
    if path[0] !in t then Null
    else if |path| == 1 then t[path[0]]
    else if t[path[0]].Map? then Get(t[path[0]].m, path[1..])
    else Null
  }

  predicate Comparable(p: seq<Key>, q: seq<Key>)
  {
    p <= q || q <= p
  }

  lemma {:induction false} PutGet(t: Vars, path: seq<Key>, v: Value)
    requires path != []
    ensures Get(Put(t, path, v), path) == v
    decreases path
  {
    if |path| > 1 {
      PutGet(SubMap(t, path[0]), path[1..], v);
    }
  }

  /** A write leaves every path it is not comparable with as it was. */
  lemma {:induction false} PutFrame(t: Vars, path: seq<Key>, v: Value, other: seq<Key>)
    requires path != [] && other != [] && !Comparable(path, other)
    ensures Get(Put(t, path, v), other) == Get(t, other)
    decreases path
  {
    if path[0] == other[0] {
      assert path == [path[0]] + path[1..] && other == [other[0]] + other[1..];
      if |path| > 1 && |other| > 1 {
        assert !Comparable(path[1..], other[1..]);
        PutFrame(SubMap(t, path[0]), path[1..], v, other[1..]);
      }
    }
  }

  /** Writes to incomparable paths commute, so their order does not matter. */
  lemma {:induction false} PutCommutes(t: Vars, p: seq<Key>, v: Value, q: seq<Key>, w: Value)
    requires p != [] && q != [] && !Comparable(p, q)
    ensures Put(Put(t, p, v), q, w) == Put(Put(t, q, w), p, v)
    decreases p
  {
    if p[0] == q[0] {
      TailsIncomparable(p, q);
      PutCommutes(SubMap(t, p[0]), p[1..], v, q[1..], w);
      PutTwice(t, p, v, q, w);
      PutTwice(t, q, w, p, v);
    } else {
      PutApartCommutes(t, p, v, q, w);
    }
  }

  lemma PutApartCommutes(t: Vars, p: seq<Key>, v: Value, q: seq<Key>, w: Value)
    requires p != [] && q != [] && p[0] != q[0]
    ensures Put(Put(t, p, v), q, w) == Put(Put(t, q, w), p, v)
  {
    PutApart(t, p, v, q, w);
    PutApart(t, q, w, p, v);
    UpdatesCommute(t, p[0], Put(t, p, v)[p[0]], q[0], Put(t, q, w)[q[0]]);
  }

  lemma UpdatesCommute(t: Vars, a: Key, x: Value, b: Key, y: Value)
    requires a != b
    ensures t[a := x][b := y] == t[b := y][a := x]
  {
  }

  lemma TailsIncomparable(p: seq<Key>, q: seq<Key>)
    requires p != [] && q != [] && p[0] == q[0] && !Comparable(p, q)
    ensures |p| > 1 && |q| > 1 && !Comparable(p[1..], q[1..])
  {
    assert p == [p[0]] + p[1..] && q == [q[0]] + q[1..];
  }

  lemma PutApart(t: Vars, p: seq<Key>, v: Value, q: seq<Key>, w: Value)
    requires p != [] && q != [] && p[0] != q[0]
    ensures Put(Put(t, p, v), q, w) == t[p[0] := Put(t, p, v)[p[0]]][q[0] := Put(t, q, w)[q[0]]]
  {
    assert SubMap(Put(t, p, v), q[0]) == SubMap(t, q[0]);
  }

  lemma PutTwice(t: Vars, p: seq<Key>, v: Value, q: seq<Key>, w: Value)
    requires |p| > 1 && |q| > 1 && p[0] == q[0]
    ensures Put(Put(t, p, v), q, w) == t[p[0] := Map(Put(Put(SubMap(t, p[0]), p[1..], v), q[1..], w))]
  {
    var a := Put(t, p, v);
    assert SubMap(a, q[0]) == Put(SubMap(t, p[0]), p[1..], v);
  }
}
