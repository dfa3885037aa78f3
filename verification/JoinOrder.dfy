/** The order in which relationships are declared never changes a join path. */
module JoinOrder {
  import opened Relationships
  import opened JoinSearch
  import opened JoinPath

  /** `p` names, for each relationship of `a`, its own place in `b`. */
  ghost predicate Matching(a: seq<Relationship>, b: seq<Relationship>, p: seq<nat>) {
    && |p| == |a| == |b| && Distinct(p)
    && forall i :: 0 <= i < |a| ==> p[i] < |b| && b[p[i]] == a[i]
  }

  lemma MatchingExists(a: seq<Relationship>, b: seq<Relationship>) returns (p: seq<nat>)
    requires multiset(a) == multiset(b)
    ensures Matching(a, b, p)
  {
    if a == [] {
      assert |multiset(b)| == 0;
      p := [];
    } else {
      var n := |a| - 1;
      DropOne(a, n);
      assert a[..n] + a[n + 1..] == a[..n];
      assert a[n] in multiset(b);
      var j :| 0 <= j < |b| && b[j] == a[n];
      DropOne(b, j);
      var q := MatchingExists(a[..n], b[..j] + b[j + 1..]);
      p := MatchingGrows(a, b, q, j);
    }
  }

  lemma DropOne(s: seq<Relationship>, j: nat)
    requires j < |s|
    ensures multiset(s[..j] + s[j + 1..]) == multiset(s) - multiset{s[j]}
  {
    assert s == s[..j] + [s[j]] + s[j + 1..];
    assert multiset(s) == multiset(s[..j]) + multiset{s[j]} + multiset(s[j + 1..]);
  }

  lemma MatchingGrows(a: seq<Relationship>, b: seq<Relationship>, q: seq<nat>, j: nat) returns (p: seq<nat>)
    requires a != [] && j < |b| && b[j] == a[|a| - 1]
    requires Matching(a[..|a| - 1], b[..j] + b[j + 1..], q)
    ensures Matching(a, b, p)
  {
    var n, rest := |a| - 1, b[..j] + b[j + 1..];
    var moved := seq(n, i requires 0 <= i < n => if q[i] < j then q[i] else q[i] + 1);
    p := moved + [j];
    forall i | 0 <= i < n
      ensures p[i] < |b| && b[p[i]] == a[i] && p[i] != j
    {
      assert p[i] == moved[i];
      assert rest[q[i]] == a[..n][i] == a[i];
    }
    forall i, k | 0 <= i < k < n
      ensures p[i] != p[k]
    {
      assert q[i] != q[k];
    }
  }

  /** The same walk, told in the other order's positions. */
  ghost function Rename(p: seq<nat>, w: Walk): (v: Walk)
    ensures |v.edges| == |w.edges| && v.src == w.src
  {
    Walk(w.src, seq(|w.edges|, i requires 0 <= i < |w.edges| => if w.edges[i] < |p| then p[w.edges[i]] else w.edges[i]))
  }

  lemma RenameKeeps(a: seq<Relationship>, b: seq<Relationship>, p: seq<nat>, w: Walk)
    requires Matching(a, b, p) && End(a, w).Some?
    ensures End(b, Rename(p, w)) == End(a, w)
    ensures StepsOf(b, Rename(p, w)) == StepsOf(a, w)
    decreases |w.edges|
  {
    if w.edges != [] {
      RenameKeeps(a, b, p, w.Parent());
      assert Rename(p, w).Parent() == Rename(p, w.Parent());
    }
  }

  lemma EdgesInRange(rels: seq<Relationship>, w: Walk)
    requires End(rels, w).Some?
    ensures forall i :: 0 <= i < |w.edges| ==> w.edges[i] < |rels|
  {
    forall i | 0 <= i < |w.edges|
      ensures w.edges[i] < |rels|
    {
      StepAt(rels, w, i);
    }
  }

  lemma RenameInjective(a: seq<Relationship>, b: seq<Relationship>, p: seq<nat>, v: Walk, w: Walk)
    requires Matching(a, b, p) && End(a, v).Some? && End(a, w).Some?
    requires Rename(p, v) == Rename(p, w)
    ensures v == w
  {
    EdgesInRange(a, v);
    EdgesInRange(a, w);
    forall i | 0 <= i < |v.edges|
      ensures v.edges[i] == w.edges[i]
    {
      assert Rename(p, v).edges[i] == p[v.edges[i]] && Rename(p, w).edges[i] == p[w.edges[i]];
    }
  }

  lemma RenameShortest(a: seq<Relationship>, b: seq<Relationship>, p: seq<nat>, q: seq<nat>,
    from: seq<Table>, w: Walk, to: Table)
    requires Matching(a, b, p) && Matching(b, a, q)
    requires Shortest(a, from, w, to)
    ensures Shortest(b, from, Rename(p, w), to)
  {
    RenameKeeps(a, b, p, w);
    forall v | Leads(b, from, v, to)
      ensures |w.edges| <= |v.edges|
    {
      RenameKeeps(b, a, q, v);
      assert Leads(a, from, Rename(q, v), to);
    }
  }

  lemma RivalsMatch(a: seq<Relationship>, b: seq<Relationship>, p: seq<nat>, q: seq<nat>, from: seq<Table>, to: Table)
    requires Matching(a, b, p) && Matching(b, a, q)
    requires Rivals(a, from, to)
    ensures Rivals(b, from, to)
  {
    var v, w :| v != w && Shortest(a, from, v, to) && Shortest(a, from, w, to);
    RenameShortest(a, b, p, q, from, v, to);
    RenameShortest(a, b, p, q, from, w, to);
    if Rename(p, v) == Rename(p, w) {
      RenameInjective(a, b, p, v, w);
    }
  }

  lemma LinkedMatch(a: seq<Relationship>, b: seq<Relationship>, p: seq<nat>, from: seq<Table>, to: Table)
    requires Matching(a, b, p) && Linked(a, from, to)
    ensures Linked(b, from, to)
  {
    var w :| Leads(a, from, w, to);
    RenameKeeps(a, b, p, w);
    assert Leads(b, from, Rename(p, w), to);
  }

  lemma JoinOrderFree(a: seq<Relationship>, b: seq<Relationship>, from: seq<Table>, to: Table)
    requires multiset(a) == multiset(b) && from != []
    ensures Join(a, from, to) == Join(b, from, to)
  {
    var p := MatchingExists(a, b);
    var q := MatchingExists(b, a);
    if Linked(a, from, to) {
      LinkedMatch(a, b, p, from, to);
    }
    if Linked(b, from, to) {
      LinkedMatch(b, a, q, from, to);
    }
    if Rivals(a, from, to) {
      RivalsMatch(a, b, p, q, from, to);
    }
    if Rivals(b, from, to) {
      RivalsMatch(b, a, q, p, from, to);
    }
    if Linked(a, from, to) && !Rivals(a, from, to) {
      SomeShortest(a, from, to);
      var w :| Shortest(a, from, w, to);
      JoinIsPath(a, from, to, w);
      RenameShortest(a, b, p, q, from, w, to);
      RenameKeeps(a, b, p, w);
      JoinIsPath(b, from, to, Rename(p, w));
    }
  }

  lemma InferFromOrderFree(a: seq<Relationship>, b: seq<Relationship>,
    joined: seq<Table>, steps: seq<JoinStep>, targets: seq<Table>)
    requires multiset(a) == multiset(b) && joined != []
    ensures InferFrom(a, joined, steps, targets) == InferFrom(b, joined, steps, targets)
    decreases |targets|
  {
    hide Join;
    if targets != [] {
      JoinOrderFree(a, b, joined, targets[0]);
      if targets[0] in joined {
        InferFromOrderFree(a, b, joined, steps, targets[1..]);
      } else if Join(a, joined, targets[0]).Path? {
        var path := Join(a, joined, targets[0]).steps;
        InferFromOrderFree(a, b, joined + TablesOf(path), steps + path, targets[1..]);
      }
    }
  }

  /** Reordering the declared relationships changes neither the steps nor the error. */
  lemma InferOrderFree(a: seq<Relationship>, b: seq<Relationship>, tables: seq<Table>)
    requires multiset(a) == multiset(b)
    ensures Infer(a, tables) == Infer(b, tables)
  {
    if |tables| > 1 {
      InferFromOrderFree(a, b, [tables[0]], [], tables[1..]);
    }
  }
}
