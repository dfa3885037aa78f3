/** The bidirectional relationships must be bridges of the relationship multigraph. */
module FilterPaths {
  import opened Relationships

  datatype Validation = Valid | Conflict(fromTable: Table, toTable: Table)

  /** `b` is reached from `a` by a walk that never uses relationship `skip`. */
  ghost predicate ConnectedWithout(rels: seq<Relationship>, skip: nat, a: Table, b: Table) {
    exists w :: Detour(rels, skip, w, a, b)
  }

  ghost predicate Detour(rels: seq<Relationship>, skip: nat, w: Walk, a: Table, b: Table) {
    w.src == a && End(rels, w) == Some(b) && skip !in w.edges
  }

  /** Without it, its ends fall apart. */
  ghost predicate Bridge(rels: seq<Relationship>, i: nat)
    requires i < |rels|
  {
    !ConnectedWithout(rels, i, rels[i].fromTable, rels[i].toTable)
  }

  ghost predicate FilterPathsValid(rels: seq<Relationship>) {
    forall i :: 0 <= i < |rels| && rels[i].bidirectional ==> Bridge(rels, i)
  }

  // ---- validation ----

  /** One relationship other than `skip` joins x and y. */
  ghost predicate Beside(rels: seq<Relationship>, skip: nat, x: Table, y: Table) {
    exists k :: 0 <= k < |rels| && k != skip && Leaves(rels[k], x, y)
  }

  predicate Leaves(r: Relationship, x: Table, y: Table) {
    Cross(r, x).Some? && Cross(r, x).value.table == y
  }

  lemma DetourGrows(rels: seq<Relationship>, skip: nat, a: Table, b: Table, c: Table)
    requires ConnectedWithout(rels, skip, a, b) && Beside(rels, skip, b, c)
    ensures ConnectedWithout(rels, skip, a, c)
  {
    var w :| Detour(rels, skip, w, a, b);
    var k :| 0 <= k < |rels| && k != skip && Leaves(rels[k], b, c);
    ExtendEnd(rels, w, k);
    assert Detour(rels, skip, w.Extend(k), a, c);
  }

  ghost predicate ClosedWithout(rels: seq<Relationship>, skip: nat, s: set<Table>, pending: set<Table>) {
    forall x, y :: x in s && x !in pending && Beside(rels, skip, x, y) ==> y in s
  }

  lemma ClosedHoldsWalk(rels: seq<Relationship>, skip: nat, s: set<Table>, w: Walk)
    requires ClosedWithout(rels, skip, s, {}) && w.src in s
    requires End(rels, w).Some? && skip !in w.edges
    ensures End(rels, w).value in s
    decreases |w.edges|
  {
    if w.edges != [] {
      var p := w.Parent();
      assert w.edges == p.edges + [w.Last()];
      ClosedHoldsWalk(rels, skip, s, p);
      assert Leaves(rels[w.Last()], End(rels, p).value, End(rels, w).value);
      assert Beside(rels, skip, End(rels, p).value, End(rels, w).value);
    }
  }

  /** Breadth-first search over every relationship but `skip`, both ways. */
  method SeenWithout(rels: seq<Relationship>, skip: nat, src: Table) returns (seen: set<Table>)
    ensures forall t :: t in seen <==> ConnectedWithout(rels, skip, src, t)
  {
    hide ConnectedWithout, Cross;
    seen := {src};
    var queue := [src];
    assert ConnectedWithout(rels, skip, src, src) by {
      SelfConnected(rels, skip, src);
    }
    while queue != []
      invariant src in seen && seen <= Tables(rels, [src])
      invariant forall t :: t in queue ==> t in seen
      invariant forall t :: t in seen ==> ConnectedWithout(rels, skip, src, t)
      invariant ClosedWithout(rels, skip, seen, Elements(queue))
      decreases Tables(rels, [src]) - seen, |queue|
    {
      var current := queue[0];
      assert queue == [current] + queue[1..];
      queue := queue[1..];
      ghost var seen0, queue0 := seen, queue;
      for k := 0 to |rels|
        invariant seen0 <= seen <= Tables(rels, [src])
        invariant seen == seen0 ==> queue == queue0
        invariant forall t :: t in queue ==> t in seen
        invariant forall t :: t in seen ==> ConnectedWithout(rels, skip, src, t)
        invariant ClosedWithout(rels, skip, seen, Elements(queue) + {current})
        invariant forall j, y :: 0 <= j < k && j != skip && Leaves(rels[j], current, y) ==> y in seen
      {
        var other := rels[k];
        if k == skip {
          continue;
        }
        var next := None;
        if other.fromTable == current {
          next := Some(other.toTable);
        } else if other.toTable == current {
          next := Some(other.fromTable);
        }
        LeavesOnly(other, current);
        if next.Some? && next.value !in seen {
          assert Leaves(rels[k], current, next.value);
          DetourGrows(rels, skip, src, current, next.value);
          assert other in rels;
          seen := seen + {next.value};
          queue := queue + [next.value];
        }
      }
    }
    assert Elements(queue) == {};
    forall t | ConnectedWithout(rels, skip, src, t)
      ensures t in seen
    {
      ConnectedIsHeld(rels, skip, seen, src, t);
    }
  }

  lemma LeavesOnly(r: Relationship, x: Table)
    ensures forall y :: Leaves(r, x, y) <==>
      if r.fromTable == x then y == r.toTable else r.toTable == x && y == r.fromTable
  {
  }

  lemma SelfConnected(rels: seq<Relationship>, skip: nat, a: Table)
    ensures ConnectedWithout(rels, skip, a, a)
  {
    assert Detour(rels, skip, Walk(a, []), a, a);
  }

  lemma ConnectedIsHeld(rels: seq<Relationship>, skip: nat, s: set<Table>, a: Table, b: Table)
    requires ClosedWithout(rels, skip, s, {}) && a in s && ConnectedWithout(rels, skip, a, b)
    ensures b in s
  {
    var w :| Detour(rels, skip, w, a, b);
    ClosedHoldsWalk(rels, skip, s, w);
  }

  /** Names the ends of the first bidirectional relationship that is no bridge. */
  method ValidateFilterPaths(rels: seq<Relationship>) returns (r: Validation)
    ensures r.Valid? <==> FilterPathsValid(rels)
    ensures r.Conflict? ==> exists i ::
      && 0 <= i < |rels| && r == Conflict(rels[i].fromTable, rels[i].toTable)
      && rels[i].bidirectional && !Bridge(rels, i)
      && forall j :: 0 <= j < i && rels[j].bidirectional ==> Bridge(rels, j)
  {
    for i := 0 to |rels|
      invariant forall j :: 0 <= j < i && rels[j].bidirectional ==> Bridge(rels, j)
    {
      var rel := rels[i];
      if !rel.bidirectional {
        continue;
      }
      var seen := SeenWithout(rels, i, rel.fromTable);
      if rel.toTable in seen {
        return Conflict(rel.fromTable, rel.toTable);
      }
    }
    return Valid;
  }

  // ---- what validity buys ----

  /** No table twice. */
  ghost predicate Simple(rels: seq<Relationship>, w: Walk) {
    && End(rels, w).Some?
    && forall i, j :: 0 <= i < j <= |w.edges| ==> At(rels, w, i) != At(rels, w, j)
  }

  lemma WithoutReverses(rels: seq<Relationship>, skip: nat, a: Table, b: Table)
    requires ConnectedWithout(rels, skip, a, b)
    ensures ConnectedWithout(rels, skip, b, a)
  {
    var w :| Detour(rels, skip, w, a, b);
    var v := Reverse(rels, w);
    assert Detour(rels, skip, v, b, a);
  }

  lemma WithoutComposes(rels: seq<Relationship>, skip: nat, a: Table, b: Table, c: Table)
    requires ConnectedWithout(rels, skip, a, b) && ConnectedWithout(rels, skip, b, c)
    ensures ConnectedWithout(rels, skip, a, c)
  {
    var v :| Detour(rels, skip, v, a, b);
    var w :| Detour(rels, skip, w, b, c);
    Concat(rels, v, w.edges);
    assert Detour(rels, skip, Walk(a, v.edges + w.edges), a, c);
  }

  /** The two ends of an edge that a walk crosses at position p. */
  lemma CrossedEnds(rels: seq<Relationship>, w: Walk, p: nat)
    requires p < |w.edges| && End(rels, w).Some?
    ensures w.edges[p] < |rels|
    ensures var r := rels[w.edges[p]];
      || (r.fromTable == At(rels, w, p) && r.toTable == At(rels, w, p + 1))
      || (r.toTable == At(rels, w, p) && r.fromTable == At(rels, w, p + 1))
  {
    StepAt(rels, w, p);
  }

  /** A simple walk uses no edge twice. */
  lemma SimpleUsesOnce(rels: seq<Relationship>, w: Walk, p: nat, q: nat)
    requires Simple(rels, w) && p < q < |w.edges|
    ensures w.edges[p] != w.edges[q]
  {
    CrossedEnds(rels, w, p);
    CrossedEnds(rels, w, q);
  }

  lemma PartsAvoid(rels: seq<Relationship>, w: Walk, p: nat)
    requires Simple(rels, w) && p < |w.edges|
    ensures ConnectedWithout(rels, w.edges[p], w.src, At(rels, w, p))
    ensures ConnectedWithout(rels, w.edges[p], At(rels, w, p + 1), End(rels, w).value)
  {
    var i := w.edges[p];
    forall q | 0 <= q < |w.edges| && q != p
      ensures w.edges[q] != i
    {
      if q < p {
        SimpleUsesOnce(rels, w, q, p);
      } else {
        SimpleUsesOnce(rels, w, p, q);
      }
    }
    Split(rels, w, p);
    Split(rels, w, p + 1);
    assert Detour(rels, i, Walk(w.src, w.edges[..p]), w.src, At(rels, w, p));
    assert Detour(rels, i, Walk(At(rels, w, p + 1), w.edges[p + 1..]), At(rels, w, p + 1), End(rels, w).value);
  }

  /** If a simple walk uses an edge although its ends are connected without it, so are the edge's. */
  lemma UsedEdgeIsBypassed(rels: seq<Relationship>, w: Walk, p: nat)
    requires Simple(rels, w) && p < |w.edges| && w.edges[p] < |rels|
    requires ConnectedWithout(rels, w.edges[p], w.src, End(rels, w).value)
    ensures !Bridge(rels, w.edges[p])
  {
    hide ConnectedWithout, End;
    var i, b := w.edges[p], End(rels, w).value;
    var x, y := At(rels, w, p), At(rels, w, p + 1);
    PartsAvoid(rels, w, p);
    WithoutReverses(rels, i, w.src, x);
    WithoutReverses(rels, i, y, b);
    WithoutComposes(rels, i, x, w.src, b);
    WithoutComposes(rels, i, x, b, y);
    WithoutReverses(rels, i, x, y);
    CrossedEnds(rels, w, p);
  }

  /** A simple walk crosses a bridge exactly when the bridge separates its ends. */
  lemma BridgeSeparates(rels: seq<Relationship>, w: Walk, i: nat)
    requires i < |rels| && Bridge(rels, i) && Simple(rels, w)
    ensures i in w.edges <==> !ConnectedWithout(rels, i, w.src, End(rels, w).value)
  {
    if i !in w.edges {
      assert Detour(rels, i, w, w.src, End(rels, w).value);
    } else {
      var p :| 0 <= p < |w.edges| && w.edges[p] == i;
      if ConnectedWithout(rels, i, w.src, End(rels, w).value) {
        UsedEdgeIsBypassed(rels, w, p);
      }
    }
  }

  /** In a validated graph a filter's way is unambiguous where it matters: any two simple walks
    * between the same two tables cross the same bidirectional relationships. */
  lemma SameBidirectionalEdges(rels: seq<Relationship>, v: Walk, w: Walk, i: nat)
    requires FilterPathsValid(rels) && Simple(rels, v) && Simple(rels, w)
    requires v.src == w.src && End(rels, v) == End(rels, w)
    requires i < |rels| && rels[i].bidirectional
    ensures i in v.edges <==> i in w.edges
  {
    BridgeSeparates(rels, v, i);
    BridgeSeparates(rels, w, i);
  }

  // ---- removing relationships ----

  /** `small` is `rels` with some entries left out; `at` says where each one was. */
  ghost predicate Embeds(small: seq<Relationship>, rels: seq<Relationship>, at: seq<nat>) {
    && |at| == |small| && Distinct(at)
    && forall k :: 0 <= k < |small| ==> at[k] < |rels| && rels[at[k]] == small[k]
  }

  lemma EmbeddedWalk(small: seq<Relationship>, rels: seq<Relationship>, at: seq<nat>, skip: nat, w: Walk) returns (v: Walk)
    requires Embeds(small, rels, at) && skip < |small|
    requires End(small, w).Some? && skip !in w.edges
    ensures v.src == w.src && End(rels, v) == End(small, w) && at[skip] !in v.edges
    decreases |w.edges|
  {
    if w.edges == [] {
      v := w;
    } else {
      assert w.edges == w.Parent().edges + [w.Last()];
      var u := EmbeddedWalk(small, rels, at, skip, w.Parent());
      ExtendEnd(rels, u, at[w.Last()]);
      v := u.Extend(at[w.Last()]);
    }
  }

  /** Fewer relationships stay valid. */
  lemma EmbeddedIsValid(small: seq<Relationship>, rels: seq<Relationship>, at: seq<nat>)
    requires Embeds(small, rels, at) && FilterPathsValid(rels)
    ensures FilterPathsValid(small)
  {
    forall i | 0 <= i < |small| && small[i].bidirectional
      ensures Bridge(small, i)
    {
      assert Bridge(rels, at[i]);
      if ConnectedWithout(small, i, small[i].fromTable, small[i].toTable) {
        var w :| Detour(small, i, w, small[i].fromTable, small[i].toTable);
        var v := EmbeddedWalk(small, rels, at, i, w);
        assert Detour(rels, at[i], v, small[i].fromTable, small[i].toTable);
      }
    }
  }
}
