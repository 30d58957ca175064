/** The compiled-program cache: sorted unique variable names, the cache key, and
    the proof that caching cannot be observed. */
module CelCache {
  import opened Domain

  type Name = string

  const UNIT: char := 31 as char      // separates names
  const RECORD: char := 30 as char    // separates the names from the expression

  // ------------------------------------------------- string order

  predicate Below(a: Name, b: Name)
  {
    if b == [] then false
    else if a == [] then true
    else if a[0] != b[0] then a[0] < b[0]
    else Below(a[1..], b[1..])
  }

  lemma {:induction false} BelowTotal(a: Name, b: Name)
    ensures Below(a, b) || a == b || Below(b, a)
    ensures !(Below(a, b) && Below(b, a))
    ensures !Below(a, a)
  {
    if a != [] && b != [] {
      BelowTotal(a[1..], b[1..]);
      assert a == [a[0]] + a[1..] && b == [b[0]] + b[1..];
    }
    if a != [] {
      BelowTotal(a[1..], a[1..]);
    }
  }

  lemma {:induction false} BelowTransitive(a: Name, b: Name, c: Name)
    requires Below(a, b) && Below(b, c)
    ensures Below(a, c)
  {
    if a != [] && a[0] == b[0] == c[0] {
      BelowTransitive(a[1..], b[1..], c[1..]);
    }
  }

  predicate StrictlySorted(s: seq<Name>)
  {
    forall i, j :: 0 <= i < j < |s| ==> Below(s[i], s[j])
  }

  predicate Sorted(s: seq<Name>)
  {
    forall i, j :: 0 <= i < j < |s| ==> !Below(s[j], s[i])
  }

  function Elems(s: seq<Name>): set<Name>
  {
    set x | x in s
  }

  /** A set of names has one strictly sorted listing. */
  lemma {:induction false} SortedListingIsUnique(s: seq<Name>, t: seq<Name>)
    requires StrictlySorted(s) && StrictlySorted(t) && Elems(s) == Elems(t)
    ensures s == t
  {
    assert s != [] ==> s[0] in Elems(s);
    assert t != [] ==> t[0] in Elems(t);
    if s != [] {
      assert t != [] && s[0] in t && t[0] in s;
      HeadIsLeast(s, t[0]);
      HeadIsLeast(t, s[0]);
      BelowTotal(s[0], t[0]);
      TailElems(s);
      TailElems(t);
      SortedListingIsUnique(s[1..], t[1..]);
    }
  }

  lemma HeadIsLeast(s: seq<Name>, x: Name)
    requires StrictlySorted(s) && x in s
    ensures x == s[0] || Below(s[0], x)
  {
  }

  lemma TailElems(s: seq<Name>)
    requires StrictlySorted(s) && s != []
    ensures Elems(s[1..]) == Elems(s) - {s[0]}
  {
    forall x | x in s[1..] ensures x != s[0] {
      var i :| 0 <= i < |s[1..]| && s[1..][i] == x;
      assert Below(s[0], s[i + 1]);
      BelowTotal(x, x);
    }
    assert s == [s[0]] + s[1..];
  }

  // ------------------------------------------------- sortedUnique

  /** The library sort, in place. */
  method SortStrings(a: array<Name>)
    modifies a
    ensures Sorted(a[..]) && Elems(a[..]) == Elems(old(a[..]))
  {
    for i := 0 to a.Length
      invariant Sorted(a[..i])
      invariant Elems(a[..]) == Elems(old(a[..]))
    {
      InsertInto(a, i);
    }
    assert a[..a.Length] == a[..];
  }

  method InsertInto(a: array<Name>, n: nat)
    requires n < a.Length && Sorted(a[..n])
    modifies a
    ensures Sorted(a[..n + 1]) && Elems(a[..]) == Elems(old(a[..]))
  {
    var j := n;
    assert forall p :: 0 <= p < n ==> a[..n + 1][p] == a[..n][p];
    while j > 0 && Below(a[j], a[j - 1])
      invariant 0 <= j <= n
      invariant Around(a[..n + 1], j)
      invariant multiset(a[..]) == multiset(old(a[..]))
    {
      StillAround(a[..n + 1], j);
      ghost var before := a[..n + 1];
      a[j], a[j - 1] := a[j - 1], a[j];
      assert a[..n + 1] == before[j := before[j - 1]][j - 1 := before[j]];
      j := j - 1;
    }
    InPlace(a[..n + 1], j);
    SameElems(a[..], old(a[..]));
  }

  /** All but s[j] in order, and that one before those after it. */
  predicate Around(s: seq<Name>, j: nat)
  {
    && (forall p, q :: 0 <= p < q < |s| && q != j ==> !Below(s[q], s[p]))
    && (forall q :: j < q < |s| ==> Below(s[j], s[q]))
  }

  lemma StillAround(s: seq<Name>, j: nat)
    requires 0 < j < |s| && Around(s, j) && Below(s[j], s[j - 1])
    ensures Around(s[j := s[j - 1]][j - 1 := s[j]], j - 1)
  {
    BelowTotal(s[j], s[j - 1]);
  }

  lemma InPlace(s: seq<Name>, j: nat)
    requires Around(s, j) && (0 < j < |s| ==> !Below(s[j], s[j - 1]))
    ensures Sorted(s)
  {
    forall p | 0 <= p < j < |s| ensures !Below(s[j], s[p]) {
      if p < j - 1 && Below(s[j], s[p]) {
        BelowTotal(s[p], s[j - 1]);
        if Below(s[p], s[j - 1]) {
          BelowTransitive(s[j], s[p], s[j - 1]);
        }
      }
    }
  }

  lemma SameElems(s: seq<Name>, t: seq<Name>)
    requires multiset(s) == multiset(t)
    ensures Elems(s) == Elems(t)
  {
    forall x ensures x in s <==> x in t {
      assert x in multiset(s) <==> x in multiset(t);
    }
  }

  method Copy(names: array<Name>) returns (a: array<Name>)
    ensures fresh(a) && a[..] == names[..]
  {
    a := new Name[names.Length];
    for i := 0 to names.Length
      invariant a[..i] == names[..i]
    {
      a[i] := names[i];
    }
    assert a[..] == a[..names.Length] && names[..] == names[..names.Length];
  }

  /** Drops the duplicates of a sorted slice, writing into the array it reads. */
  method Compact(a: array<Name>) returns (w: nat)
    requires a.Length > 0 && Sorted(a[..])
    modifies a
    ensures w <= a.Length && StrictlySorted(a[..w]) && Elems(a[..w]) == Elems(old(a[..]))
  {
    ghost var sorted := a[..];
    w := 1;
    for r := 1 to a.Length
      invariant 1 <= w <= r
      invariant forall k :: r <= k < a.Length ==> a[k] == sorted[k]
      invariant Compacted(a[..w], sorted[..r])
    {
      Extends(a[..w], sorted, r);
      if a[r] != a[w - 1] {
        ghost var kept := a[..w];
        a[w] := a[r];
        w := w + 1;
        assert a[..w] == kept + [sorted[r]];
      }
    }
    assert sorted[..a.Length] == sorted;
  }

  /** kept lists the names of a sorted part once each. */
  predicate Compacted(kept: seq<Name>, part: seq<Name>)
  {
    && kept != [] && part != [] && kept[|kept| - 1] == part[|part| - 1]
    && StrictlySorted(kept) && Elems(kept) == Elems(part)
  }

  lemma Extends(kept: seq<Name>, sorted: seq<Name>, r: nat)
    requires 0 < r < |sorted| && Sorted(sorted) && Compacted(kept, sorted[..r])
    ensures Compacted(if sorted[r] != kept[|kept| - 1] then kept + [sorted[r]] else kept, sorted[..r + 1])
  {
    assert !Below(sorted[r], sorted[r - 1]);
    BelowTotal(sorted[r], sorted[r - 1]);
    assert sorted[..r + 1] == sorted[..r] + [sorted[r]];
    SnocElems(sorted[..r], sorted[r]);
    if sorted[r] != kept[|kept| - 1] {
      SnocSorted(kept, sorted[r]);
      SnocElems(kept, sorted[r]);
    }
  }

  /** Sorted copy without duplicates; the caller's slice is left alone. */
  method SortedUnique(names: array<Name>) returns (out: seq<Name>)
    ensures StrictlySorted(out) && Elems(out) == Elems(names[..])
    ensures names[..] == old(names[..])
  {
    if names.Length == 0 {
      return [];
    }
    var a := Copy(names);
    SortStrings(a);
    var w := Compact(a);
    out := a[..w];
  }

  lemma SnocElems(s: seq<Name>, x: Name)
    ensures Elems(s + [x]) == Elems(s) + {x}
  {
  }

  lemma SnocSorted(s: seq<Name>, x: Name)
    requires StrictlySorted(s) && s != [] && Below(s[|s| - 1], x)
    ensures StrictlySorted(s + [x])
  {
    forall i | 0 <= i < |s| ensures Below(s[i], x) {
      if i < |s| - 1 {
        BelowTransitive(s[i], s[|s| - 1], x);
      }
    }
  }

  // ------------------------------------------------- the key

  function Join(names: seq<Name>): string
  {
    if names == [] then []
    else if |names| == 1 then names[0]
    else names[0] + [UNIT] + Join(names[1..])
  }

  function CacheKey(names: seq<Name>, expr: string): string
  {
    Join(names) + [RECORD] + expr
  }

  /** What the source relies on for names: no separator, and not empty. */
  predicate CleanName(n: Name)
  {
    n != [] && UNIT !in n && RECORD !in n
  }

  predicate Clean(names: seq<Name>)
  {
    forall i :: 0 <= i < |names| ==> CleanName(names[i])
  }

  /** Two strings cut at their first c agree on both sides. */
  lemma {:induction false} CutAtFirst(c: char, a: string, x: string, b: string, y: string)
    requires c !in a && c !in b && a + [c] + x == b + [c] + y
    ensures a == b && x == y
  {
    var l, r := a + [c] + x, b + [c] + y;
    assert l[0] == if a == [] then c else a[0];
    assert r[0] == if b == [] then c else b[0];
    assert a != [] ==> a[0] in a;
    assert b != [] ==> b[0] in b;
    if a == [] {
      assert l[1..] == x && r[1..] == y;
    } else {
      assert l[1..] == a[1..] + [c] + x && r[1..] == b[1..] + [c] + y;
      CutAtFirst(c, a[1..], x, b[1..], y);
    }
  }

  lemma {:induction false} JoinFreeOfRecord(names: seq<Name>)
    requires Clean(names)
    ensures RECORD !in Join(names)
    ensures names != [] ==> Join(names) != []
  {
    if |names| > 1 {
      JoinFreeOfRecord(names[1..]);
    }
  }

  lemma {:induction false} JoinInjective(p: seq<Name>, q: seq<Name>)
    requires Clean(p) && Clean(q) && Join(p) == Join(q)
    ensures p == q
  {
    JoinFreeOfRecord(p);
    JoinFreeOfRecord(q);
    JoinHasUnit(p);
    JoinHasUnit(q);
    if |p| > 1 {
      CutAtFirst(UNIT, p[0], Join(p[1..]), q[0], Join(q[1..]));
      JoinInjective(p[1..], q[1..]);
    }
  }

  lemma JoinHasUnit(p: seq<Name>)
    requires Clean(p)
    ensures UNIT in Join(p) <==> |p| > 1
    ensures p != [] ==> UNIT !in p[0]
  {
    assert p != [] ==> CleanName(p[0]);
    assert |p| > 1 ==> Join(p)[|p[0]|] == UNIT;
  }

  /** For clean names, distinct (names, expression) pairs have distinct keys. */
  lemma KeyInjective(p: seq<Name>, e: string, q: seq<Name>, f: string)
    requires Clean(p) && Clean(q) && CacheKey(p, e) == CacheKey(q, f)
    ensures p == q && e == f
  {
    JoinFreeOfRecord(p);
    JoinFreeOfRecord(q);
    CutAtFirst(RECORD, Join(p), e, Join(q), f);
    JoinInjective(p, q);
  }

  /** Names that hold a separator, or are empty, share keys with others that
      reach the cache too; run variables may be named like that. */
  lemma UncleanNamesCollide(a: Name, b: Name, e: string)
    requires Below(a, b)
    ensures StrictlySorted([a + [UNIT] + b]) && StrictlySorted([a, b]) && StrictlySorted([a + [RECORD] + b])
    ensures CacheKey([a + [UNIT] + b], e) == CacheKey([a, b], e)
    ensures CacheKey([a + [RECORD] + b], e) == CacheKey([a], b + [RECORD] + e)
    ensures CacheKey([[]], e) == CacheKey([], e)
  {
    var two := [a, b];
    assert two[1..] == [b];
    assert Join(two) == a + [UNIT] + b;
    assert Join([a + [UNIT] + b]) == a + [UNIT] + b;
    assert Join([a + [RECORD] + b]) == a + [RECORD] + b;
    assert (a + [RECORD] + b) + [RECORD] + e == a + [RECORD] + (b + [RECORD] + e);
    var blank: seq<Name> := [[]];
    assert Join(blank) == Join([]);
  }

  // ------------------------------------------------- the cache

  type Program = nat

  /** NewEnv then Compile: what a compilation from scratch gives, or its error. */
  type Compiler = (seq<Name>, string) -> Option<Program>

  datatype Question = Question(names: seq<Name>, expr: string)
  {
    function Key(): string
    {
      CacheKey(names, expr)
    }
  }

  /** No other question asked so far has the key of q. */
  ghost predicate Alone(q: Question, asked: set<Question>)
  {
    forall p :: p in asked && p.Key() == q.Key() ==> p == q
  }

  /** Clean questions never stand in each other's way. */
  lemma CleanAreAlone(q: Question, asked: set<Question>)
    requires Clean(q.names) && forall p :: p in asked ==> Clean(p.names)
    ensures Alone(q, asked)
  {
    forall p | p in asked && p.Key() == q.Key() ensures p == q {
      KeyInjective(p.names, p.expr, q.names, q.expr);
    }
  }

  class Cache {
    const compile: Compiler
    var programs: map<string, Program>
    ghost var asked: set<Question>

    constructor (compile: Compiler)
      ensures this.compile == compile && Valid() && asked == {}
    {
      this.compile := compile;
      programs, asked := map[], {};
    }

    /** Every entry is the compilation of a question that was asked. */
    ghost predicate Valid()
      reads this
    {
      forall k :: k in programs ==> exists p :: p in asked && Answers(p, k)
    }

    ghost predicate Answers(p: Question, k: string)
      requires k in programs
      reads this
    {
      p.Key() == k && compile(p.names, p.expr) == Some(programs[k])
    }

    /** For names of any kind, in any order and with any repetitions, and whatever
        was asked before: the answer is that of compiling afresh for the sorted
        set of names, or of another question asked before with the same key.
        Failures are not cached. */
    method CompiledProgram(varNames: array<Name>, expr: string) returns (r: Option<Program>, ghost q: Question)
      requires Valid()
      modifies this
      ensures Valid() && asked == old(asked) + {q}
      ensures StrictlySorted(q.names) && Elems(q.names) == Elems(varNames[..]) && q.expr == expr
      ensures Alone(q, old(asked)) ==> r == compile(q.names, q.expr)
      ensures q.Key() !in old(programs) ==> r == compile(q.names, q.expr)
      ensures q.Key() in old(programs) ==> r == Some(old(programs)[q.Key()])
      ensures programs == if r.Some? then old(programs)[q.Key() := r.value] else old(programs)
    {
      var ns := SortedUnique(varNames);
      q := Question(ns, expr);
      var key := CacheKey(ns, expr);
      if key in programs {
        ghost var p :| p in asked && Answers(p, key);
        r := Some(programs[key]);
        assert programs == programs[key := programs[key]];
      } else {
        r := compile(ns, expr);
        if r.Some? {
          programs := programs[key := r.value];
        }
      }
      asked := asked + {q};
      forall k | k in programs ensures exists p :: p in asked && Answers(p, k) {
        assert k == key || exists p :: p in old(asked) && p.Key() == k && compile(p.names, p.expr) == Some(programs[k]);
      }
    }
  }

  /** What a cache that was only asked p before answers to q. */
  function SecondAnswer(compile: Compiler, p: Question, q: Question): Option<Program>
  {
    if p.Key() == q.Key() && compile(p.names, p.expr).Some? then compile(p.names, p.expr) else compile(q.names, q.expr)
  }

  /** Two questions in a row to an empty cache. The second gets a fresh answer
      unless it has the key of the first and the first compiled; then it gets the
      answer of the first, right or wrong. Order and duplicates of the names make
      no difference. */
  method TwoQuestions(compile: Compiler, first: array<Name>, e: string, second: array<Name>, f: string)
    returns (r1: Option<Program>, r2: Option<Program>, ghost p: Question, ghost q: Question)
    ensures StrictlySorted(p.names) && Elems(p.names) == Elems(first[..]) && p.expr == e
    ensures StrictlySorted(q.names) && Elems(q.names) == Elems(second[..]) && q.expr == f
    ensures r1 == compile(p.names, p.expr)
    ensures r2 == SecondAnswer(compile, p, q)
    ensures Elems(first[..]) == Elems(second[..]) && e == f ==> r2 == r1
  {
    var cache := new Cache(compile);
    r1, p := cache.CompiledProgram(first, e);
    r2, q := cache.CompiledProgram(second, f);
    if Elems(p.names) == Elems(q.names) {
      SortedListingIsUnique(p.names, q.names);
    }
  }

  /** That second answer is fresh for every compiler exactly when the two
      questions are one or have different keys. */
  lemma FreshExactlyWhenApart(p: Question, q: Question)
    ensures (forall compile: Compiler :: SecondAnswer(compile, p, q) == compile(q.names, q.expr))
       <==> (p.Key() == q.Key() ==> p == q)
  {
    if p.Key() == q.Key() && p != q {
      var compile: Compiler :=
        (names: seq<Name>, expr: string) => if names == p.names && expr == p.expr then Some(0) else None;
      assert SecondAnswer(compile, p, q) == Some(0) && compile(q.names, q.expr) == None;
    }
  }
}
