/** The fragment of SQL the emitted queries live in: NULL, COALESCE, rows, GROUP BY. */
module Relational {
  /** `a IS NOT DISTINCT FROM b` is plain equality on these values. */
  datatype Value = Null | Val(n: int)

  /** `a = b`: never true of NULL. */
  predicate SqlEquals(a: Value, b: Value) {
    a != Null && a == b
  }

  function Coalesce(vs: seq<Value>): Value {
    if vs == [] then Null else if vs[0] != Null then vs[0] else Coalesce(vs[1..])
  }

  /** COALESCE over values that are either `v` or NULL, with `v` among them. */
  lemma CoalesceOf(vs: seq<Value>, v: Value)
    requires v in vs && forall i :: 0 <= i < |vs| ==> vs[i] == v || vs[i] == Null
    ensures Coalesce(vs) == v
  {
  }

  // ---- grouping ----

  ghost function Select<T>(rows: seq<T>, p: T -> bool): seq<T> {
    if rows == [] then [] else
    var rest := Select(rows[..|rows| - 1], p);
    if p(rows[|rows| - 1]) then rest + [rows[|rows| - 1]] else rest
  }

  /** The distinct group keys, in order of first appearance. */
  ghost function KeysOf<T, K>(rows: seq<T>, key: T -> K): seq<K> {
    if rows == [] then [] else
    var rest := KeysOf(rows[..|rows| - 1], key);
    var k := key(rows[|rows| - 1]);
    if k in rest then rest else rest + [k]
  }

  /** The rows of one group. */
  ghost function Group<T, K>(rows: seq<T>, key: T -> K, k: K): seq<T> {
    Select(rows, row => key(row) == k)
  }

  ghost function Images<T, F>(rows: seq<T>, f: T -> F): (r: seq<F>)
    ensures |r| == |rows|
  {
    seq(|rows|, i requires 0 <= i < |rows| => f(rows[i]))
  }

  lemma KeysOfIsExact<T, K>(rows: seq<T>, key: T -> K)
    ensures forall k :: k in KeysOf(rows, key) <==> exists i :: 0 <= i < |rows| && key(rows[i]) == k
    ensures forall i, j :: 0 <= i < j < |KeysOf(rows, key)| ==> KeysOf(rows, key)[i] != KeysOf(rows, key)[j]
  {
  }

  lemma SelectSame<T>(rows: seq<T>, p: T -> bool, q: T -> bool)
    requires forall r :: r in rows ==> p(r) == q(r)
    ensures Select(rows, p) == Select(rows, q)
  {
  }

  lemma SomeIn<T>(xs: seq<T>)
    ensures xs == [] || exists x :: x in xs
  {
    if xs != [] {
      assert xs[0] in xs;
    }
  }

  lemma SelectOne<T>(r: T, p: T -> bool)
    requires p(r)
    ensures Select([r], p) == [r]
  {
  }

  lemma SelectNone<T>(rows: seq<T>, p: T -> bool)
    requires forall i :: 0 <= i < |rows| ==> !p(rows[i])
    ensures Select(rows, p) == []
  {
  }

  /** A key outside the grouping has an empty group. */
  lemma NoGroup<T, K>(rows: seq<T>, key: T -> K, k: K)
    requires k !in KeysOf(rows, key)
    ensures Group(rows, key, k) == []
  {
  }

  lemma GroupIsThere<T, K>(rows: seq<T>, key: T -> K, k: K)
    ensures k in KeysOf(rows, key) <==> Group(rows, key, k) != []
  {
    KeysOfIsExact(rows, key);
    SelectMember(rows, row => key(row) == k);
    if k in KeysOf(rows, key) {
      var i :| 0 <= i < |rows| && key(rows[i]) == k;
      assert rows[i] in Group(rows, key, k);
    } else {
      NoGroup(rows, key, k);
    }
  }

  // ---- laws of Select ----

  lemma SelectConcat<T>(a: seq<T>, b: seq<T>, p: T -> bool)
    ensures Select(a + b, p) == Select(a, p) + Select(b, p)
    decreases |b|
  {
    if b == [] {
      assert a + b == a;
    } else {
      SelectConcat(a, b[..|b| - 1], p);
      assert (a + b)[..|a + b| - 1] == a + b[..|b| - 1];
    }
  }

  lemma SelectPush<T>(rows: seq<T>, last: T, p: T -> bool)
    ensures Select(rows + [last], p) == Select(rows, p) + if p(last) then [last] else []
  {
  }

  lemma SelectTwice<T>(rows: seq<T>, p: T -> bool, q: T -> bool, both: T -> bool)
    requires forall r :: r in rows ==> (both(r) <==> p(r) && q(r))
    ensures Select(Select(rows, p), q) == Select(rows, both)
  {
  }

  lemma GroupOfSelect<T, K>(rows: seq<T>, p: T -> bool, key: T -> K, k: K, both: T -> bool)
    requires forall r :: r in rows ==> (both(r) <==> p(r) && key(r) == k)
    ensures Group(Select(rows, p), key, k) == Select(rows, both)
  {
  }

  lemma SelectImages<T, X>(rows: seq<T>, f: T -> X, p: X -> bool, q: T -> bool)
    requires forall r :: r in rows ==> (p(f(r)) <==> q(r))
    ensures Select(Images(rows, f), p) == Images(Select(rows, q), f)
  {
    if rows != [] {
      var front, last := rows[..|rows| - 1], rows[|rows| - 1];
      assert rows == front + [last];
      SelectImages(front, f, p, q);
      assert Images(rows, f)[..|rows| - 1] == Images(front, f);
    }
  }

  /** At most one row passes when the passing rows share one index. */
  lemma SelectAt<T>(rows: seq<T>, p: T -> bool, i: nat)
    requires i < |rows| && forall j :: 0 <= j < |rows| ==> (p(rows[j]) <==> j == i)
    ensures Select(rows, p) == [rows[i]]
  {
    var front := rows[..|rows| - 1];
    assert forall j :: 0 <= j < |front| ==> front[j] == rows[j];
    if i == |rows| - 1 {
      SelectNone(front, p);
    } else {
      SelectAt(front, p, i);
    }
  }

  lemma SelectAll<T>(rows: seq<T>, p: T -> bool)
    requires forall r :: r in rows ==> p(r)
    ensures Select(rows, p) == rows
  {
  }

  lemma SelectMember<T>(rows: seq<T>, p: T -> bool)
    ensures forall r :: r in Select(rows, p) <==> r in rows && p(r)
  {
  }

  // ---- laws of grouping and mapping ----

  lemma ImagesConcat<X, Y>(a: seq<X>, b: seq<X>, f: X -> Y)
    ensures Images(a + b, f) == Images(a, f) + Images(b, f)
  {
  }

  lemma KeysOfImages<X, Y, K>(rows: seq<X>, f: X -> Y, key: Y -> K, own: X -> K)
    requires forall r :: r in rows ==> own(r) == key(f(r))
    ensures KeysOf(Images(rows, f), key) == KeysOf(rows, own)
  {
    if rows != [] {
      var front, last := rows[..|rows| - 1], rows[|rows| - 1];
      assert rows == front + [last];
      KeysOfImages(front, f, key, own);
      assert Images(rows, f)[..|front|] == Images(front, f);
    }
  }

  lemma GroupOfImages<X, Y, K>(rows: seq<X>, f: X -> Y, key: Y -> K, own: X -> K, k: K)
    requires forall r :: r in rows ==> own(r) == key(f(r))
    ensures Group(Images(rows, f), key, k) == Images(Group(rows, own, k), f)
  {
    SelectImages(rows, f, c => key(c) == k, r => own(r) == k);
  }

  lemma GroupSame<T, K>(rows: seq<T>, key: T -> K, own: T -> K, k: K)
    requires forall r :: r in rows ==> key(r) == own(r)
    ensures Group(rows, key, k) == Group(rows, own, k)
  {
    SelectSame(rows, r => key(r) == k, r => own(r) == k);
  }

  lemma GroupAs<T, K>(rows: seq<T>, key: T -> K, k: K, p: T -> bool)
    requires forall r :: p(r) <==> key(r) == k
    ensures Group(rows, key, k) == Select(rows, p)
  {
    SelectSame(rows, r => key(r) == k, p);
  }

  lemma GroupRekeyed<T, K, L>(rows: seq<T>, key: T -> K, k: K, other: T -> L, l: L)
    requires forall r :: r in rows ==> (key(r) == k <==> other(r) == l)
    ensures Group(rows, key, k) == Group(rows, other, l)
  {
    SelectSame(rows, r => key(r) == k, r => other(r) == l);
  }

  // ---- one block of rows per row ----

  ghost function Flat<X, Y>(xs: seq<X>, f: X -> seq<Y>): seq<Y> {
    if xs == [] then [] else Flat(xs[..|xs| - 1], f) + f(xs[|xs| - 1])
  }

  lemma FlatSame<X, Y>(xs: seq<X>, f: X -> seq<Y>, g: X -> seq<Y>)
    requires forall x :: x in xs ==> f(x) == g(x)
    ensures Flat(xs, f) == Flat(xs, g)
  {
  }

  lemma FlatNone<X, Y>(xs: seq<X>, f: X -> seq<Y>)
    requires forall x :: x in xs ==> f(x) == []
    ensures Flat(xs, f) == []
  {
  }

  lemma FlatPush<X, Y>(xs: seq<X>, last: X, f: X -> seq<Y>)
    ensures Flat(xs + [last], f) == Flat(xs, f) + f(last)
  {
  }

  lemma {:induction false} FlatConcat<X, Y>(a: seq<X>, b: seq<X>, f: X -> seq<Y>)
    ensures Flat(a + b, f) == Flat(a, f) + Flat(b, f)
    decreases |b|
  {
    if b == [] {
      assert a + b == a;
    } else {
      var front, last := b[..|b| - 1], b[|b| - 1];
      FlatConcat(a, front, f);
      FlatPush(front, last, f);
      FlatPush(a + front, last, f);
      hide Flat;
      assert b == front + [last] && a + b == (a + front) + [last];
    }
  }

  lemma FlatFlat<X, Y, Z>(xs: seq<X>, f: X -> seq<Y>, g: Y -> seq<Z>, h: X -> seq<Z>)
    requires forall x :: x in xs ==> h(x) == Flat(f(x), g)
    ensures Flat(Flat(xs, f), g) == Flat(xs, h)
  {
    if xs != [] {
      assert xs == xs[..|xs| - 1] + [xs[|xs| - 1]];
      FlatFlat(xs[..|xs| - 1], f, g, h);
      FlatConcat(Flat(xs[..|xs| - 1], f), f(xs[|xs| - 1]), g);
    }
  }

  lemma FlatImages<X, Y, Z>(xs: seq<X>, f: X -> Y, g: Y -> seq<Z>, h: X -> seq<Z>)
    requires forall x :: x in xs ==> h(x) == g(f(x))
    ensures Flat(Images(xs, f), g) == Flat(xs, h)
  {
    if xs != [] {
      var front, last := xs[..|xs| - 1], xs[|xs| - 1];
      assert xs == front + [last];
      FlatImages(front, f, g, h);
      assert Images(xs, f)[..|front|] == Images(front, f);
    }
  }

  /** Skipping the elements that contribute nothing. */
  lemma FlatSelect<X, Y>(xs: seq<X>, p: X -> bool, g: X -> seq<Y>, h: X -> seq<Y>)
    requires forall x :: x in xs ==> h(x) == if p(x) then g(x) else []
    ensures Flat(Select(xs, p), g) == Flat(xs, h)
  {
  }

  lemma FlatMember<X, Y>(xs: seq<X>, f: X -> seq<Y>, y: Y)
    ensures y in Flat(xs, f) <==> exists x :: x in xs && y in f(x)
  {
  }

  lemma FlatOne<X, Y>(x: X, f: X -> seq<Y>)
    ensures Flat([x], f) == f(x)
  {
  }
}
