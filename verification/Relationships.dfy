/** The relationship multigraph and the walks over it.
  *
  * Tables and columns are resolved identifiers.  Relationships form a sequence, so
  * two relationships between the same tables stay two edges: a walk names the
  * relationships it uses by position, and crosses each of them in either direction.
  */
module Relationships {
  type Table = nat
  type Column = nat

  datatype Option<+T> = None | Some(value: T)

  datatype Relationship = Relationship(
    fromTable: Table, fromColumn: Column, toTable: Table, toColumn: Column, bidirectional: bool)

  /** One LEFT JOIN of a join path. */
  datatype JoinStep = JoinStep(
    fromTable: Table, table: Table, onFromCol: Column, onToCol: Column, bidirectional: bool)

  /** The join step that leaves `at` through `r`, if `r` touches `at`. */
  function Cross(r: Relationship, at: Table): Option<JoinStep> {
    if r.fromTable == at then Some(JoinStep(at, r.toTable, r.fromColumn, r.toColumn, r.bidirectional))
    else if r.toTable == at then Some(JoinStep(at, r.fromTable, r.toColumn, r.fromColumn, r.bidirectional))
    else None
  }

  datatype Walk = Walk(src: Table, edges: seq<nat>) {
    function Parent(): Walk
      requires edges != []
    {
      Walk(src, edges[..|edges| - 1])
    }

    function Last(): nat
      requires edges != []
    {
      edges[|edges| - 1]
    }

    function Extend(e: nat): Walk {
      Walk(src, edges + [e])
    }
  }

  /** The table a walk ends at, if each of its edges leaves the table reached so far. */
  ghost function End(rels: seq<Relationship>, w: Walk): Option<Table>
    decreases |w.edges|
  {
    if w.edges == [] then Some(w.src) else
    match End(rels, w.Parent())
    case None => None
    case Some(t) =>
      if w.Last() < |rels| && Cross(rels[w.Last()], t).Some?
      then Some(Cross(rels[w.Last()], t).value.table) else None
  }

  /** The join steps a walk stands for. */
  ghost function StepsOf(rels: seq<Relationship>, w: Walk): (steps: seq<JoinStep>)
    requires End(rels, w).Some?
    ensures |steps| == |w.edges|
    decreases |w.edges|
  {
    if w.edges == [] then [] else
    StepsOf(rels, w.Parent()) + [Cross(rels[w.Last()], End(rels, w.Parent()).value).value]
  }

  ghost predicate Leads(rels: seq<Relationship>, from: seq<Table>, w: Walk, t: Table) {
    w.src in from && End(rels, w) == Some(t)
  }

  ghost predicate Shortest(rels: seq<Relationship>, from: seq<Table>, w: Walk, t: Table) {
    && Leads(rels, from, w, t)
    && forall v :: Leads(rels, from, v, t) ==> |w.edges| <= |v.edges|
  }

  ghost predicate Linked(rels: seq<Relationship>, from: seq<Table>, t: Table) {
    exists w :: Leads(rels, from, w, t)
  }

  lemma ExtendEnd(rels: seq<Relationship>, w: Walk, e: nat)
    requires End(rels, w).Some?
    ensures w.Extend(e).Parent() == w && w.Extend(e).Last() == e
    ensures e < |rels| && Cross(rels[e], End(rels, w).value).Some? ==>
              End(rels, w.Extend(e)) == Some(Cross(rels[e], End(rels, w).value).value.table)
              && StepsOf(rels, w.Extend(e)) == StepsOf(rels, w) + [Cross(rels[e], End(rels, w).value).value]
    ensures !(e < |rels| && Cross(rels[e], End(rels, w).value).Some?) ==> End(rels, w.Extend(e)).None?
  {
  }

  /** The relationship links the two tables, in either direction. */
  ghost predicate Links(r: Relationship, a: Table, b: Table) {
    (r.fromTable == a && r.toTable == b) || (r.toTable == a && r.fromTable == b)
  }

  /** Tables in a row, each linked to the next by the edge between them. */
  ghost predicate Trail(rels: seq<Relationship>, edges: seq<nat>, tables: seq<Table>) {
    && |tables| == |edges| + 1
    && forall i :: 0 <= i < |edges| ==> edges[i] < |rels| && Links(rels[edges[i]], tables[i], tables[i + 1])
  }

  ghost predicate TrailTo(rels: seq<Relationship>, w: Walk, t: Table, tables: seq<Table>) {
    Trail(rels, w.edges, tables) && tables[0] == w.src && tables[|w.edges|] == t
  }

  lemma TrailGrows(rels: seq<Relationship>, w: Walk, a: Table, b: Table, tables: seq<Table>)
    requires w.edges != [] && TrailTo(rels, w.Parent(), a, tables) && w.Last() < |rels| && Links(rels[w.Last()], a, b)
    ensures TrailTo(rels, w, b, tables + [b])
  {
  }

  lemma TrailShrinks(rels: seq<Relationship>, w: Walk, t: Table, tables: seq<Table>)
    requires w.edges != [] && TrailTo(rels, w, t, tables)
    ensures var n := |w.edges| - 1; w.Last() < |rels| && TrailTo(rels, w.Parent(), tables[n], tables[..n + 1]) && Links(rels[w.Last()], tables[n], t)
  {
  }

  /** A walk is a trail: relationships are crossed both ways, and no others are. */
  lemma {:induction false} WalkIsTrail(rels: seq<Relationship>, w: Walk, t: Table)
    ensures End(rels, w) == Some(t) <==> exists tables :: TrailTo(rels, w, t, tables)
    decreases |w.edges|
  {
    if w.edges == [] {
      assert End(rels, w) == Some(t) ==> TrailTo(rels, w, t, [t]);
    } else {
      hide TrailTo;
      var p := w.Parent();
      if End(rels, w) == Some(t) {
        var at := End(rels, p).value;
        WalkIsTrail(rels, p, at);
        var tables :| TrailTo(rels, p, at, tables);
        TrailGrows(rels, w, at, t, tables);
      }
      if tables :| TrailTo(rels, w, t, tables) {
        TrailShrinks(rels, w, t, tables);
        WalkIsTrail(rels, p, tables[|p.edges|]);
      }
    }
  }

  /** The step joins the relationship's two tables, each on its own column. */
  ghost predicate JoinsBy(r: Relationship, step: JoinStep) {
    && step.bidirectional == r.bidirectional
    && ((step.fromTable, step.onFromCol, step.table, step.onToCol) == (r.fromTable, r.fromColumn, r.toTable, r.toColumn)
        || (step.fromTable, step.onFromCol, step.table, step.onToCol) == (r.toTable, r.toColumn, r.fromTable, r.fromColumn))
  }

  ghost predicate Declared(rels: seq<Relationship>, step: JoinStep) {
    exists r :: r in rels && JoinsBy(r, step)
  }

  ghost predicate AllDeclared(rels: seq<Relationship>, steps: seq<JoinStep>) {
    forall i :: 0 <= i < |steps| ==> Declared(rels, steps[i])
  }

  /** Every step of a walk joins the tables of its relationship on their own columns. */
  lemma {:induction false} StepsAreDeclared(rels: seq<Relationship>, w: Walk)
    requires End(rels, w).Some?
    ensures AllDeclared(rels, StepsOf(rels, w))
    decreases |w.edges|
  {
    if w.edges != [] {
      StepsAreDeclared(rels, w.Parent());
      var r, step := rels[w.Last()], Cross(rels[w.Last()], End(rels, w.Parent()).value).value;
      assert r in rels && JoinsBy(r, step);
    }
  }

  /** Every walk with an end has a shortest rival. */
  lemma ShortestExists(rels: seq<Relationship>, from: seq<Table>, w: Walk, t: Table)
    requires Leads(rels, from, w, t)
    ensures exists s :: Shortest(rels, from, s, t)
    decreases |w.edges|
  {
    if v :| Leads(rels, from, v, t) && |v.edges| < |w.edges| {
      ShortestExists(rels, from, v, t);
    } else {
      assert Shortest(rels, from, w, t);
    }
  }

  /** Prefixes of a walk are walks, and a walk splits at any of them. */
  lemma Split(rels: seq<Relationship>, w: Walk, i: nat)
    requires i <= |w.edges| && End(rels, w).Some?
    ensures End(rels, Walk(w.src, w.edges[..i])).Some?
    ensures End(rels, Walk(End(rels, Walk(w.src, w.edges[..i])).value, w.edges[i..])) == End(rels, w)
    decreases |w.edges|
  {
    if i == |w.edges| {
      assert w.edges[..i] == w.edges;
    } else {
      var p := w.Parent();
      assert p.edges[..i] == w.edges[..i];
      Split(rels, p, i);
      var rest := Walk(End(rels, Walk(w.src, w.edges[..i])).value, w.edges[i..]);
      assert rest.Parent().edges == p.edges[i..];
    }
  }

  /** Walks compose. */
  lemma Concat(rels: seq<Relationship>, w: Walk, es: seq<nat>)
    requires End(rels, w).Some? && End(rels, Walk(End(rels, w).value, es)).Some?
    ensures End(rels, Walk(w.src, w.edges + es)) == End(rels, Walk(End(rels, w).value, es))
    decreases |es|
  {
    if es == [] {
      assert w.edges + es == w.edges;
    } else {
      var tail := Walk(End(rels, w).value, es);
      var whole := Walk(w.src, w.edges + es);
      Concat(rels, w, tail.Parent().edges);
      assert whole.Parent().edges == w.edges + tail.Parent().edges;
    }
  }

  /** The table reached after the first i edges. */
  ghost function At(rels: seq<Relationship>, w: Walk, i: nat): Table
    requires i <= |w.edges| && End(rels, w).Some?
  {
    Split(rels, w, i);
    End(rels, Walk(w.src, w.edges[..i])).value
  }

  lemma AtEnds(rels: seq<Relationship>, w: Walk)
    requires End(rels, w).Some?
    ensures At(rels, w, 0) == w.src && At(rels, w, |w.edges|) == End(rels, w).value
  {
    assert w.edges[..0] == [] && w.edges[..|w.edges|] == w.edges;
  }

  /** Step i of a walk leaves the i-th table through the i-th edge for table i+1. */
  lemma StepAt(rels: seq<Relationship>, w: Walk, i: nat)
    requires i < |w.edges| && End(rels, w).Some?
    ensures w.edges[i] < |rels|
    ensures Cross(rels[w.edges[i]], At(rels, w, i)) == Some(StepsOf(rels, w)[i])
    ensures StepsOf(rels, w)[i].fromTable == At(rels, w, i)
    ensures StepsOf(rels, w)[i].table == At(rels, w, i + 1)
    decreases |w.edges|
  {
    var pre := Walk(w.src, w.edges[..i + 1]);
    Split(rels, w, i + 1);
    assert pre.Parent().edges == w.edges[..i];
    if i == |w.edges| - 1 {
      hide Cross;
      assert w.edges[..i + 1] == w.edges;
    } else {
      StepAt(rels, w.Parent(), i);
      assert w.Parent().edges[..i] == w.edges[..i];
      assert w.Parent().edges[..i + 1] == w.edges[..i + 1];
    }
  }

  /** Cutting out the loop between two visits of one table leaves a shorter walk. */
  lemma CutLoop(rels: seq<Relationship>, w: Walk, i: nat, j: nat)
    requires i < j <= |w.edges| && End(rels, w).Some?
    requires At(rels, w, i) == At(rels, w, j)
    ensures End(rels, Walk(w.src, w.edges[..i] + w.edges[j..])) == End(rels, w)
  {
    Split(rels, w, i);
    Split(rels, w, j);
    Concat(rels, Walk(w.src, w.edges[..i]), w.edges[j..]);
  }

  /** A shortest walk visits no table twice, and after its start none of the sources. */
  lemma ShortestIsSimple(rels: seq<Relationship>, from: seq<Table>, w: Walk, t: Table)
    requires Shortest(rels, from, w, t)
    ensures forall i, j :: 0 <= i < j <= |w.edges| ==> At(rels, w, i) != At(rels, w, j)
    ensures forall i :: 0 < i <= |w.edges| ==> At(rels, w, i) !in from
  {
    hide At;
    forall i, j | 0 <= i < j <= |w.edges|
      ensures At(rels, w, i) != At(rels, w, j)
    {
      ShortestHasNoLoop(rels, from, w, t, i, j);
    }
    forall i | 0 < i <= |w.edges|
      ensures At(rels, w, i) !in from
    {
      ShortestLeavesOnce(rels, from, w, t, i);
    }
  }

  lemma ShortestHasNoLoop(rels: seq<Relationship>, from: seq<Table>, w: Walk, t: Table, i: nat, j: nat)
    requires Shortest(rels, from, w, t) && i < j <= |w.edges|
    ensures At(rels, w, i) != At(rels, w, j)
  {
    if At(rels, w, i) == At(rels, w, j) {
      CutLoop(rels, w, i, j);
      assert Leads(rels, from, Walk(w.src, w.edges[..i] + w.edges[j..]), t);
    }
  }

  lemma ShortestLeavesOnce(rels: seq<Relationship>, from: seq<Table>, w: Walk, t: Table, i: nat)
    requires Shortest(rels, from, w, t) && 0 < i <= |w.edges|
    ensures At(rels, w, i) !in from
  {
    if At(rels, w, i) in from {
      Split(rels, w, i);
      assert Leads(rels, from, Walk(At(rels, w, i), w.edges[i..]), t);
    }
  }

  /** Walks can be turned round. */
  lemma Reverse(rels: seq<Relationship>, w: Walk) returns (v: Walk)
    requires End(rels, w).Some?
    ensures v.src == End(rels, w).value && End(rels, v) == Some(w.src)
    ensures |v.edges| == |w.edges|
    ensures forall e :: e in v.edges <==> e in w.edges
    decreases |w.edges|
  {
    if w.edges == [] {
      v := w;
    } else {
      var p := w.Parent();
      var back := Reverse(rels, p);
      var hop := Walk(End(rels, w).value, [w.Last()]);
      assert hop.Parent().edges == [];
      assert End(rels, hop.Parent()) == Some(hop.src);
      assert End(rels, hop) == Some(End(rels, p).value);
      Concat(rels, hop, back.edges);
      v := Walk(hop.src, hop.edges + back.edges);
      assert w.edges == p.edges + [w.Last()];
    }
  }

  // ---- counting ----

  ghost predicate Distinct<T>(s: seq<T>) {
    forall i, j :: 0 <= i < j < |s| ==> s[i] != s[j]
  }

  ghost function Elements<T>(s: seq<T>): set<T> {
    set x | x in s
  }

  lemma DistinctInSet<T>(s: seq<T>, all: set<T>)
    requires Distinct(s) && forall x :: x in s ==> x in all
    ensures |s| <= |all|
  {
    if s != [] {
      var x := s[|s| - 1];
      DistinctInSet(s[..|s| - 1], all - {x});
    }
  }

  /** The tables a walk can visit. */
  ghost function Tables(rels: seq<Relationship>, from: seq<Table>): set<Table> {
    Elements(from) + (set r | r in rels :: r.fromTable) + (set r | r in rels :: r.toTable)
  }

  lemma AtInTables(rels: seq<Relationship>, from: seq<Table>, w: Walk, i: nat)
    requires w.src in from && End(rels, w).Some? && i <= |w.edges|
    ensures At(rels, w, i) in Tables(rels, from)
  {
    if i > 0 {
      StepAt(rels, w, i - 1);
    }
  }

  /** A shortest walk is shorter than the number of tables. */
  lemma ShortestIsBounded(rels: seq<Relationship>, from: seq<Table>, w: Walk, t: Table)
    requires Shortest(rels, from, w, t)
    ensures |w.edges| < |Tables(rels, from)|
  {
    ShortestIsSimple(rels, from, w, t);
    var visited := seq(|w.edges| + 1, i requires 0 <= i <= |w.edges| => At(rels, w, i));
    forall x | x in visited
      ensures x in Tables(rels, from)
    {
      var i :| 0 <= i < |visited| && visited[i] == x;
      AtInTables(rels, from, w, i);
    }
    DistinctInSet(visited, Tables(rels, from));
  }
}
