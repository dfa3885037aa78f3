/** How filters flow along relationships: from the one side to the many side, and both
  * ways across a bidirectional relationship. */
module FilterFlow {
  import opened Relationships
  import opened JoinSearch

  /** A filter on `a` reaches the neighbour `b`; `both` lets bidirectional edges carry it forwards. */
  ghost predicate Flows(rels: seq<Relationship>, both: bool, a: Table, b: Table) {
    exists i :: 0 <= i < |rels| && FlowsAlong(rels[i], both, a, b)
  }

  predicate FlowsAlong(r: Relationship, both: bool, a: Table, b: Table) {
    || (r.toTable == a && r.fromTable == b)
    || (both && r.bidirectional && r.fromTable == a && r.toTable == b)
  }

  ghost predicate Route(rels: seq<Relationship>, both: bool, p: seq<Table>) {
    p != [] && forall i :: 0 < i < |p| ==> Flows(rels, both, p[i - 1], p[i])
  }

  /** The reflexive and transitive closure of the flow relation. */
  ghost predicate Reaches(rels: seq<Relationship>, both: bool, a: Table, b: Table) {
    exists p :: Route(rels, both, p) && p[0] == a && p[|p| - 1] == b
  }

  ghost predicate ReachesAny(rels: seq<Relationship>, both: bool, a: Table, targets: seq<Table>) {
    exists t :: t in targets && Reaches(rels, both, a, t)
  }

  lemma ReachesTarget(rels: seq<Relationship>, both: bool, a: Table, targets: seq<Table>, t: Table)
    requires t in targets && Reaches(rels, both, a, t)
    ensures ReachesAny(rels, both, a, targets)
  {
  }

  lemma ReachesSelf(rels: seq<Relationship>, both: bool, a: Table)
    ensures Reaches(rels, both, a, a)
  {
    assert Route(rels, both, [a]);
  }

  lemma ReachesNext(rels: seq<Relationship>, both: bool, a: Table, b: Table, c: Table)
    requires Reaches(rels, both, a, b) && Flows(rels, both, b, c)
    ensures Reaches(rels, both, a, c)
  {
    var p :| Route(rels, both, p) && p[0] == a && p[|p| - 1] == b;
    var q := p + [c];
    assert Route(rels, both, q) && q[0] == a && q[|q| - 1] == c;
  }

  lemma ReachedByFlow(rels: seq<Relationship>, both: bool, a: Table, b: Table)
    requires Reaches(rels, both, a, b)
    ensures a == b || exists x :: Flows(rels, both, x, b)
  {
    var p :| Route(rels, both, p) && p[0] == a && p[|p| - 1] == b;
    assert |p| > 1 ==> Flows(rels, both, p[|p| - 2], p[|p| - 1]);
  }

  /** A set closed under the flow that holds `a` holds everything `a` reaches. */
  lemma ClosedHoldsReached(rels: seq<Relationship>, both: bool, s: set<Table>, a: Table, b: Table)
    requires a in s && Reaches(rels, both, a, b)
    requires forall x, y :: x in s && Flows(rels, both, x, y) ==> y in s
    ensures b in s
  {
    var p :| Route(rels, both, p) && p[0] == a && p[|p| - 1] == b;
    for i := 1 to |p|
      invariant forall k :: 0 <= k < i ==> p[k] in s
    {
      assert Flows(rels, both, p[i - 1], p[i]);
    }
  }

  /** Everything visited is reached and no target; whatever is neither queued nor being
    * expanded has all its neighbours visited. */
  ghost predicate Explored(rels: seq<Relationship>, both: bool, src: Table, targets: seq<Table>,
    visited: set<Table>, pending: set<Table>)
  {
    && src in visited && visited <= Tables(rels, [src])
    && (forall t :: t in visited ==> Reaches(rels, both, src, t) && t !in targets)
    && (forall x, y :: x in visited && x !in pending && Flows(rels, both, x, y) ==> y in visited)
  }

  lemma ExploredAll(rels: seq<Relationship>, both: bool, src: Table, targets: seq<Table>, visited: set<Table>)
    requires Explored(rels, both, src, targets, visited, {})
    ensures !ReachesAny(rels, both, src, targets)
  {
    forall t | t in targets && Reaches(rels, both, src, t)
      ensures false
    {
      ClosedHoldsReached(rels, both, visited, src, t);
    }
  }

  method FilterReaches(rels: seq<Relationship>, src: Table, targets: seq<Table>) returns (r: bool)
    ensures r <==> ReachesAny(rels, true, src, targets)
  {
    hide Reaches, Route, ReachesAny;
    ReachesSelf(rels, true, src);
    if src in targets {
      ReachesTarget(rels, true, src, targets, src);
      return true;
    }
    var visited := {src};
    var queue := [src];
    while queue != []
      invariant Explored(rels, true, src, targets, visited, Elements(queue))
      invariant forall t :: t in queue ==> t in visited
      decreases Tables(rels, [src]) - visited, |queue|
    {
      var curr := queue[0];
      assert queue == [curr] + queue[1..];
      queue := queue[1..];
      ghost var visited0, queue0 := visited, queue;
      for i := 0 to |rels|
        invariant visited0 <= visited
        invariant visited == visited0 ==> queue == queue0
        invariant Explored(rels, true, src, targets, visited, Elements(queue) + {curr})
        invariant forall t :: t in queue ==> t in visited
        invariant forall k, y :: 0 <= k < i && FlowsAlong(rels[k], true, curr, y) ==> y in visited
      {
        var rel := rels[i];
        var next;
        if rel.toTable == curr {
          next := rel.fromTable;
        } else if rel.bidirectional && rel.fromTable == curr {
          next := rel.toTable;
        } else {
          continue;
        }
        assert FlowsAlong(rels[i], true, curr, next);
        if next in visited {
          continue;
        }
        ReachesNext(rels, true, src, curr, next);
        if next in targets {
          ReachesTarget(rels, true, src, targets, next);
          return true;
        }
        visited := visited + {next};
        queue := queue + [next];
        assert rel in rels;
      }
    }
    assert Elements(queue) == {};
    ExploredAll(rels, true, src, targets, visited);
    return false;
  }

  method GroupingReaches(rels: seq<Relationship>, src: Table, targets: seq<Table>) returns (r: bool)
    ensures r <==> ReachesAny(rels, false, src, targets)
  {
    hide Reaches, Route, ReachesAny;
    ReachesSelf(rels, false, src);
    if src in targets {
      ReachesTarget(rels, false, src, targets, src);
      return true;
    }
    var visited := {src};
    var queue := [src];
    while queue != []
      invariant Explored(rels, false, src, targets, visited, Elements(queue))
      invariant forall t :: t in queue ==> t in visited
      decreases Tables(rels, [src]) - visited, |queue|
    {
      var curr := queue[0];
      assert queue == [curr] + queue[1..];
      queue := queue[1..];
      ghost var visited0, queue0 := visited, queue;
      for i := 0 to |rels|
        invariant visited0 <= visited
        invariant visited == visited0 ==> queue == queue0
        invariant Explored(rels, false, src, targets, visited, Elements(queue) + {curr})
        invariant forall t :: t in queue ==> t in visited
        invariant forall k, y :: 0 <= k < i && FlowsAlong(rels[k], false, curr, y) ==> y in visited
      {
        var rel := rels[i];
        if rel.toTable != curr {
          continue;
        }
        var next := rel.fromTable;
        assert FlowsAlong(rels[i], false, curr, next);
        if next in visited {
          continue;
        }
        ReachesNext(rels, false, src, curr, next);
        if next in targets {
          ReachesTarget(rels, false, src, targets, next);
          return true;
        }
        visited := visited + {next};
        queue := queue + [next];
        assert rel in rels;
      }
    }
    assert Elements(queue) == {};
    ExploredAll(rels, false, src, targets, visited);
    return false;
  }

  /** Grouping uses a part of the flow only. */
  lemma GroupingImpliesFilter(rels: seq<Relationship>, a: Table, targets: seq<Table>)
    requires ReachesAny(rels, false, a, targets)
    ensures ReachesAny(rels, true, a, targets)
  {
    var t :| t in targets && Reaches(rels, false, a, t);
    var p :| Route(rels, false, p) && p[0] == a && p[|p| - 1] == t;
    forall i | 0 < i < |p|
      ensures Flows(rels, true, p[i - 1], p[i])
    {
      assert Flows(rels, false, p[i - 1], p[i]);
      var k :| 0 <= k < |rels| && FlowsAlong(rels[k], false, p[i - 1], p[i]);
      assert FlowsAlong(rels[k], true, p[i - 1], p[i]);
    }
    assert Route(rels, true, p);
  }

  // ---- bidirectional relationships ----

  /** A bidirectional relationship is two one-way ones, there and back. */
  function OneWay(r: Relationship): seq<Relationship> {
    if r.bidirectional then [r.(bidirectional := false), Relationship(r.toTable, r.toColumn, r.fromTable, r.fromColumn, false)] else [r]
  }

  function Unfolded(rels: seq<Relationship>): seq<Relationship> {
    if rels == [] then [] else OneWay(rels[0]) + Unfolded(rels[1..])
  }

  lemma {:induction false} UnfoldedFlows(rels: seq<Relationship>, a: Table, b: Table)
    ensures Flows(rels, true, a, b) <==> Flows(Unfolded(rels), false, a, b)
  {
    if rels != [] {
      var first, rest := OneWay(rels[0]), rels[1..];
      UnfoldedFlows(rest, a, b);
      FlowsConcat([rels[0]], rest, true, a, b);
      FlowsConcat(first, Unfolded(rest), false, a, b);
      assert rels == [rels[0]] + rest;
      assert Flows(first, false, a, b) <==> Flows([rels[0]], true, a, b) by { OneWayFlows(rels[0], a, b); }
    }
  }

  lemma OneWayFlows(r: Relationship, a: Table, b: Table)
    ensures Flows(OneWay(r), false, a, b) <==> Flows([r], true, a, b)
  {
    var first, one := OneWay(r), [r];
    assert FlowsAlong(first[0], false, a, b) ==> FlowsAlong(one[0], true, a, b);
    if r.bidirectional {
      assert FlowsAlong(first[0], false, a, b) || FlowsAlong(first[1], false, a, b) <==> FlowsAlong(one[0], true, a, b);
    }
  }

  lemma FlowsConcat(xs: seq<Relationship>, ys: seq<Relationship>, both: bool, a: Table, b: Table)
    ensures Flows(xs + ys, both, a, b) <==> Flows(xs, both, a, b) || Flows(ys, both, a, b)
  {
    var all := xs + ys;
    assert forall i :: 0 <= i < |xs| ==> all[i] == xs[i];
    assert forall i :: 0 <= i < |ys| ==> all[|xs| + i] == ys[i];
    if i :| 0 <= i < |all| && FlowsAlong(all[i], both, a, b) {
      assert i < |xs| || all[i] == ys[i - |xs|];
    }
  }

  lemma SameFlowReaches(rels: seq<Relationship>, both: bool, other: seq<Relationship>, also: bool, a: Table, b: Table)
    requires forall x, y :: Flows(rels, both, x, y) <==> Flows(other, also, x, y)
    ensures Reaches(rels, both, a, b) <==> Reaches(other, also, a, b)
  {
    hide Flows;
    assert forall p :: Route(rels, both, p) <==> Route(other, also, p);
  }

  /** Filters flow as grouping does over the relationships with the bidirectional ones taken both ways. */
  lemma FilterReachIsTwoWay(rels: seq<Relationship>, a: Table, b: Table)
    ensures Reaches(rels, true, a, b) <==> Reaches(Unfolded(rels), false, a, b)
  {
    forall x, y
      ensures Flows(rels, true, x, y) <==> Flows(Unfolded(rels), false, x, y)
    {
      UnfoldedFlows(rels, x, y);
    }
    SameFlowReaches(rels, true, Unfolded(rels), false, a, b);
  }

  lemma NothingUnfolds(rels: seq<Relationship>)
    requires forall r :: r in rels ==> !r.bidirectional
    ensures Unfolded(rels) == rels
  {
  }

  /** So the two agree where no relationship is bidirectional. */
  lemma OneWayReachesAgree(rels: seq<Relationship>, a: Table, targets: seq<Table>)
    requires forall r :: r in rels ==> !r.bidirectional
    ensures ReachesAny(rels, true, a, targets) <==> ReachesAny(rels, false, a, targets)
  {
    hide Reaches;
    NothingUnfolds(rels);
    forall t
      ensures Reaches(rels, true, a, t) <==> Reaches(rels, false, a, t)
    {
      FilterReachIsTwoWay(rels, a, t);
    }
  }

  /** Over one relationship a filter reaches the many side from the one side, and the other way exactly
    * when the relationship is bidirectional and filters, not groups, are asked for. */
  lemma OneRelationshipReaches(r: Relationship, both: bool, a: Table, b: Table)
    ensures Reaches([r], both, a, b) <==>
      || a == b || (a == r.toTable && b == r.fromTable)
      || (both && r.bidirectional && a == r.fromTable && b == r.toTable)
  {
    var rels := [r];
    forall x, y
      ensures Flows(rels, both, x, y) <==> FlowsAlong(r, both, x, y)
    {
      assert FlowsAlong(rels[0], both, x, y) <==> FlowsAlong(r, both, x, y);
    }
    hide Flows, Route;
    var near := if a == r.toTable then {a, r.fromTable} else if both && r.bidirectional && a == r.fromTable then {a, r.toTable} else {a};
    if Reaches(rels, both, a, b) {
      ClosedHoldsReached(rels, both, near, a, b);
    }
    ReachesSelf(rels, both, a);
    if Flows(rels, both, a, b) {
      ReachesNext(rels, both, a, a, b);
    }
  }

  /** A route is a walk over the relationships. */
  lemma RouteIsWalk(rels: seq<Relationship>, both: bool, p: seq<Table>) returns (w: Walk)
    requires Route(rels, both, p)
    ensures w.src == p[0] && End(rels, w) == Some(p[|p| - 1])
    decreases |p|
  {
    if |p| == 1 {
      w := Walk(p[0], []);
    } else {
      var v := RouteIsWalk(rels, both, p[..|p| - 1]);
      assert Flows(rels, both, p[|p| - 2], p[|p| - 1]);
      var k :| 0 <= k < |rels| && FlowsAlong(rels[k], both, p[|p| - 2], p[|p| - 1]);
      ExtendEnd(rels, v, k);
      w := v.Extend(k);
    }
  }

  /** Where a filter flows, join inference finds some path, whichever table it starts from. */
  lemma FilterReachIsJoinable(rels: seq<Relationship>, a: Table, t: Table)
    requires ReachesAny(rels, true, a, [t])
    ensures !Join(rels, [a], t).NoPath? && !Join(rels, [t], a).NoPath?
  {
    var p :| Route(rels, true, p) && p[0] == a && p[|p| - 1] == t;
    var w := RouteIsWalk(rels, true, p);
    assert Leads(rels, [a], w, t);
    var v := Reverse(rels, w);
    assert Leads(rels, [t], v, a);
  }
}
