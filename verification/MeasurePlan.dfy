/** Measure clustering: which measures are evaluated whole in one cluster CTE, and which are taken
  * apart, their aggregates evaluated in clusters of their own and put back as CTE columns. */
module MeasurePlan {
  import opened Relationships
  import opened Relational

  type FcId = nat

  /** A measure expression with stored measures expanded.  An aggregate or CALCULATE call is a unit,
    * known by its identity: the same stored measure's call may occur several times. */
  datatype Expr = Const(v: Value) | Column(table: Table, col: Relationships.Column) | Op(op: nat, args: seq<Expr>) | Agg(fc: FcId)

  /** What is known of the aggregate calls: the tables they read, and whether they modify the group
    * filter context. */
  datatype Facts = Facts(tables: FcId -> set<Table>, rescopes: FcId -> bool)

  /** One grouped CTE to be; `context` marks a context cluster.  A regular cluster without tables is
    * evaluated in the outer SELECT. */
  datatype Cluster = Cluster(key: set<Table>, pairs: seq<nat>, inlines: seq<nat>, lifted: seq<FcId>, context: Option<FcId>)

  datatype Plan = Plan(clusters: seq<Cluster>, splitPairs: seq<nat>, splitInlines: seq<nat>)

  // ---- aggregates of an expression ----

  /** Its aggregate calls in document order. */
  function Subtrees(e: Expr): seq<FcId> {
    match e
    case Agg(fc) => [fc]
    case Op(_, args) => SubtreesOf(args)
    case _ => []
  }

  function SubtreesOf(es: seq<Expr>): seq<FcId> {
    if es == [] then [] else SubtreesOf(es[..|es| - 1]) + Subtrees(es[|es| - 1])
  }

  lemma {:induction false} SubtreesInOrder(a: seq<Expr>, b: seq<Expr>)
    ensures SubtreesOf(a + b) == SubtreesOf(a) + SubtreesOf(b)
    decreases |b|
  {
    if b == [] {
      assert a + b == a;
    } else {
      SubtreesInOrder(a, b[..|b| - 1]);
      assert (a + b)[..|a + b| - 1] == a + b[..|b| - 1];
    }
  }

  function TablesOf(facts: Facts, e: Expr): set<Table> {
    match e
    case Agg(fc) => facts.tables(fc)
    case Column(t, _) => {t}
    case Op(_, args) => TablesOfAll(facts, args)
    case Const(_) => {}
  }

  function TablesOfAll(facts: Facts, es: seq<Expr>): set<Table> {
    if es == [] then {} else TablesOfAll(facts, es[..|es| - 1]) + TablesOf(facts, es[|es| - 1])
  }

  /** A column of the table stands outside the aggregates. */
  ghost predicate ReadsOutside(e: Expr, t: Table) {
    match e
    case Column(u, _) => u == t
    case Op(_, args) => exists i :: 0 <= i < |args| && ReadsOutside(args[i], t)
    case _ => false
  }

  /** An expression's tables are those of its aggregates and of the columns outside them. */
  lemma {:induction false} TablesMean(facts: Facts, e: Expr, t: Table)
    ensures t in TablesOf(facts, e) <==> ReadsOutside(e, t) || exists fc :: fc in Subtrees(e) && t in facts.tables(fc)
    decreases e, 1
  {
    match e
    case Op(_, args) =>
      AllTablesMean(facts, e, |args|, t);
      assert args[..|args|] == args;
    case _ =>
  }

  lemma {:induction false} AllTablesMean(facts: Facts, e: Expr, n: nat, t: Table)
    requires e.Op? && n <= |e.args|
    ensures t in TablesOfAll(facts, e.args[..n]) <==>
      (exists i :: 0 <= i < n && ReadsOutside(e.args[i], t)) || exists fc :: fc in SubtreesOf(e.args[..n]) && t in facts.tables(fc)
    decreases e, 0, n
  {
    if n > 0 {
      AllTablesMean(facts, e, n - 1, t);
      TablesMean(facts, e.args[n - 1], t);
      assert e.args[..n][..n - 1] == e.args[..n - 1];
      assert forall fc :: fc in SubtreesOf(e.args[..n]) <==> fc in SubtreesOf(e.args[..n - 1]) || fc in Subtrees(e.args[n - 1]);
    }
  }

  method AggSubtrees(e: Expr) returns (r: seq<FcId>)
    ensures r == Subtrees(e)
  {
    match e
    case Agg(fc) => return [fc];
    case Op(_, args) =>
      r := [];
      for i := 0 to |args|
        invariant r == SubtreesOf(args[..i])
      {
        assert args[..i + 1][..i] == args[..i];
        var more := AggSubtrees(args[i]);
        r := r + more;
      }
      assert args[..|args|] == args;
    case _ => return [];
  }

  // ---- what a plan has to be ----

  /** Evaluated whole: no aggregate modifies the context, and all read the same tables. */
  ghost predicate Whole(facts: Facts, lift: bool, e: Expr) {
    && (lift ==> forall fc :: fc in Subtrees(e) ==> !facts.rescopes(fc))
    && forall a, b :: a in Subtrees(e) && b in Subtrees(e) ==> facts.tables(a) == facts.tables(b)
  }

  ghost predicate Home(facts: Facts, lift: bool, c: Cluster, e: Expr) {
    Whole(facts, lift, e) && c.context.None? && c.key == TablesOf(facts, e)
  }

  /** The cluster an aggregate is evaluated in. */
  ghost predicate Evaluates(facts: Facts, lift: bool, c: Cluster, fc: FcId) {
    if lift && facts.rescopes(fc) then c.context == Some(fc)
    else c.context.None? && c.key == facts.tables(fc) && fc in c.lifted
  }

  /** A cluster lifts only aggregates of its own tables; a context cluster is one modifying call's. */
  ghost predicate Owns(facts: Facts, lift: bool, c: Cluster) {
    && (forall fc :: fc in c.lifted ==> c.context.None? && c.key == facts.tables(fc) && !(lift && facts.rescopes(fc)))
    && (c.context.Some? ==> lift && facts.rescopes(c.context.value))
  }

  ghost predicate AllOwn(facts: Facts, lift: bool, clusters: seq<Cluster>) {
    forall c :: c in clusters ==> Owns(facts, lift, c)
  }

  ghost predicate SomeEvaluates(facts: Facts, lift: bool, clusters: seq<Cluster>, fc: FcId) {
    exists c :: c in clusters && Evaluates(facts, lift, c, fc)
  }

  ghost predicate Lifts(facts: Facts, lift: bool, clusters: seq<Cluster>, e: Expr) {
    !Whole(facts, lift, e) && forall fc :: fc in Subtrees(e) ==> SomeEvaluates(facts, lift, clusters, fc)
  }

  ghost function PairHomes(clusters: seq<Cluster>): multiset<nat> {
    if clusters == [] then multiset{} else PairHomes(clusters[..|clusters| - 1]) + multiset(clusters[|clusters| - 1].pairs)
  }

  ghost function InlineHomes(clusters: seq<Cluster>): multiset<nat> {
    if clusters == [] then multiset{} else InlineHomes(clusters[..|clusters| - 1]) + multiset(clusters[|clusters| - 1].inlines)
  }

  /** The name positions of the first `n` name/expression pairs. */
  function NamePositions(n: nat): (s: seq<nat>)
    ensures |s| == n && forall i :: 0 <= i < n ==> s[i] == 2 * i
  {
    seq(n, i requires 0 <= i < n => 2 * i)
  }

  function Positions(n: nat): (s: seq<nat>)
    ensures |s| == n && forall i :: 0 <= i < n ==> s[i] == i
  {
    seq(n, i requires 0 <= i < n => i)
  }

  ghost predicate HoldsRight(facts: Facts, lift: bool, c: Cluster, pairs: seq<Expr>, inlines: seq<Expr>) {
    && (forall i :: i in c.pairs ==> i + 1 < |pairs| && Home(facts, lift, c, pairs[i + 1]))
    && (forall j :: j in c.inlines ==> j < |inlines| && Home(facts, lift, c, inlines[j]))
  }

  ghost predicate AllHoldRight(facts: Facts, lift: bool, clusters: seq<Cluster>, pairs: seq<Expr>, inlines: seq<Expr>) {
    forall c :: 0 <= c < |clusters| ==> HoldsRight(facts, lift, clusters[c], pairs, inlines)
  }

  /** The split expressions are lifted; a pair's expression stands after its name. */
  ghost predicate AllLifted(facts: Facts, lift: bool, clusters: seq<Cluster>, split: seq<nat>, es: seq<Expr>, offset: nat) {
    forall i :: i in split ==> i + offset < |es| && Lifts(facts, lift, clusters, es[i + offset])
  }

  /** Each cluster holds what belongs there, and what is split is lifted. */
  ghost predicate Right(facts: Facts, lift: bool, plan: Plan, pairs: seq<Expr>, inlines: seq<Expr>) {
    && AllHoldRight(facts, lift, plan.clusters, pairs, inlines)
    && AllLifted(facts, lift, plan.clusters, plan.splitPairs, pairs, 1)
    && AllLifted(facts, lift, plan.clusters, plan.splitInlines, inlines, 0)
  }

  /** Planning only adds: clusters keep their place, key and measures; new ones start empty. */
  ghost predicate Extends(a: seq<Cluster>, b: seq<Cluster>) {
    && |a| <= |b|
    && (forall c :: 0 <= c < |a| ==> Continues(a[c], b[c]))
    && forall c :: |a| <= c < |b| ==> b[c].pairs == [] && b[c].inlines == []
  }

  ghost predicate Continues(a: Cluster, b: Cluster) {
    && b.key == a.key && b.context == a.context && b.pairs == a.pairs && b.inlines == a.inlines
    && forall fc :: fc in a.lifted ==> fc in b.lifted
  }

  lemma ExtendsSelf(a: seq<Cluster>)
    ensures Extends(a, a)
  {
  }

  lemma ExtendsTrans(a: seq<Cluster>, b: seq<Cluster>, c: seq<Cluster>)
    requires Extends(a, b) && Extends(b, c)
    ensures Extends(a, c)
  {
  }

  lemma ExtendsPush(a: seq<Cluster>, c: Cluster)
    requires c.pairs == [] && c.inlines == []
    ensures Extends(a, a + [c])
  {
  }

  lemma ExtendsLift(a: seq<Cluster>, c: nat, fc: FcId)
    requires c < |a|
    ensures Extends(a, a[c := a[c].(lifted := a[c].lifted + [fc])])
  {
  }

  lemma ExtendsEvaluates(facts: Facts, lift: bool, a: seq<Cluster>, b: seq<Cluster>)
    requires Extends(a, b)
    ensures forall fc :: SomeEvaluates(facts, lift, a, fc) ==> SomeEvaluates(facts, lift, b, fc)
  {
    forall fc | SomeEvaluates(facts, lift, a, fc)
      ensures SomeEvaluates(facts, lift, b, fc)
    {
      var c :| c in a && Evaluates(facts, lift, c, fc);
      var i :| 0 <= i < |a| && a[i] == c;
      assert Continues(a[i], b[i]);
      assert b[i] in b && Evaluates(facts, lift, b[i], fc);
    }
  }

  lemma ExtendsHomes(a: seq<Cluster>, b: seq<Cluster>)
    requires Extends(a, b)
    ensures PairHomes(b) == PairHomes(a) && InlineHomes(b) == InlineHomes(a)
    decreases |b|
  {
    if |b| > |a| {
      ExtendsHomes(a, b[..|b| - 1]);
    } else if a != [] {
      assert Continues(a[|a| - 1], b[|b| - 1]);
      ExtendsHomes(a[..|a| - 1], b[..|b| - 1]);
    }
  }

  /** No two table sets among the aggregates. */
  lemma AtMostOne(facts: Facts, fcs: seq<FcId>, distinct: set<set<Table>>)
    requires distinct == set fc | fc in fcs :: facts.tables(fc)
    ensures |distinct| <= 1 <==> forall a, b :: a in fcs && b in fcs ==> facts.tables(a) == facts.tables(b)
  {
    if |distinct| <= 1 {
      forall a, b | a in fcs && b in fcs
        ensures facts.tables(a) == facts.tables(b)
      {
        assert facts.tables(a) in distinct && facts.tables(b) in distinct;
        if facts.tables(a) != facts.tables(b) {
          assert {facts.tables(a), facts.tables(b)} <= distinct;
          SubsetSize({facts.tables(a), facts.tables(b)}, distinct);
        }
      }
    } else {
      var x :| x in distinct;
      assert |distinct - {x}| == |distinct| - 1;
      var y :| y in distinct - {x};
    }
  }

  lemma SurveyIs(facts: Facts, lift: bool, e: Expr, isCtx: set<FcId>, distinct: set<set<Table>>)
    requires isCtx == set fc | fc in Subtrees(e) && lift && facts.rescopes(fc)
    requires distinct == set fc | fc in Subtrees(e) :: facts.tables(fc)
    ensures isCtx == {} && |distinct| <= 1 <==> Whole(facts, lift, e)
  {
    AtMostOne(facts, Subtrees(e), distinct);
    if lift {
      forall fc | fc in Subtrees(e)
        ensures facts.rescopes(fc) <==> fc in isCtx
      {
      }
    }
    hide Subtrees;
  }

  lemma SubsetSize<T>(a: set<T>, b: set<T>)
    requires a <= b
    ensures |a| <= |b|
  {
    assert b == a + (b - a);
  }

  lemma OwnsUpdate(facts: Facts, lift: bool, clusters: seq<Cluster>, c: nat, d: Cluster)
    requires AllOwn(facts, lift, clusters) && c < |clusters| && Owns(facts, lift, d)
    ensures AllOwn(facts, lift, clusters[c := d])
  {
    forall e | e in clusters[c := d]
      ensures Owns(facts, lift, e)
    {
      assert e == d || e in clusters;
    }
  }

  /** One regular cluster per table set, one context cluster per modifying call. */
  ghost predicate Indexed(clusters: seq<Cluster>, byKey: map<set<Table>, nat>, calcByFc: map<FcId, nat>) {
    && (forall k :: k in byKey ==> byKey[k] < |clusters| && clusters[byKey[k]].context.None? && clusters[byKey[k]].key == k)
    && (forall c :: 0 <= c < |clusters| && clusters[c].context.None? ==> clusters[c].key in byKey && byKey[clusters[c].key] == c)
    && (forall fc :: fc in calcByFc ==> calcByFc[fc] < |clusters| && clusters[calcByFc[fc]].context == Some(fc))
    && (forall c :: 0 <= c < |clusters| && clusters[c].context.Some? ==>
          clusters[c].context.value in calcByFc && calcByFc[clusters[c].context.value] == c)
  }

  lemma IndexedUpdate(clusters: seq<Cluster>, byKey: map<set<Table>, nat>, calcByFc: map<FcId, nat>, c: nat, d: Cluster)
    requires Indexed(clusters, byKey, calcByFc) && c < |clusters| && d.key == clusters[c].key && d.context == clusters[c].context
    ensures Indexed(clusters[c := d], byKey, calcByFc)
  {
  }

  lemma OwnsPush(facts: Facts, lift: bool, clusters: seq<Cluster>, d: Cluster)
    requires AllOwn(facts, lift, clusters) && Owns(facts, lift, d)
    ensures AllOwn(facts, lift, clusters + [d])
  {
  }

  // ---- the planner ----

  class Planner {
    const facts: Facts
    const lift: bool
    var clusters: seq<Cluster>
    var byKey: map<set<Table>, nat>
    var calcByFc: map<FcId, nat>

    constructor (facts: Facts, lift: bool)
      ensures Valid() && this.facts == facts && this.lift == lift && clusters == []
    {
      this.facts, this.lift := facts, lift;
      clusters, byKey, calcByFc := [], map[], map[];
    }

    ghost predicate Valid()
      reads this
    {
      Indexed(clusters, byKey, calcByFc) && AllOwn(facts, lift, clusters)
    }

    method ClusterFor(key: set<Table>) returns (c: nat)
      requires Valid()
      modifies this
      ensures Valid() && Extends(old(clusters), clusters)
      ensures c < |clusters| && clusters[c].context.None? && clusters[c].key == key
    {
      if key in byKey {
        return byKey[key];
      }
      OwnsPush(facts, lift, clusters, Cluster(key, [], [], [], None));
      hide AllOwn, Owns;
      c := |clusters|;
      byKey := byKey[key := c];
      clusters := clusters + [Cluster(key, [], [], [], None)];
      ExtendsPush(old(clusters), clusters[c]);
    }

    method CalcClusterFor(fc: FcId)
      requires Valid() && lift && facts.rescopes(fc)
      modifies this
      ensures Valid() && Extends(old(clusters), clusters)
      ensures exists c :: c in clusters && c.context == Some(fc)
    {
      if fc in calcByFc {
        assert clusters[calcByFc[fc]] in clusters;
        return;
      }
      OwnsPush(facts, lift, clusters, Cluster(facts.tables(fc), [], [], [], Some(fc)));
      hide AllOwn, Owns;
      calcByFc := calcByFc[fc := |clusters|];
      clusters := clusters + [Cluster(facts.tables(fc), [], [], [], Some(fc))];
      ExtendsPush(old(clusters), clusters[|clusters| - 1]);
      assert clusters[|clusters| - 1] in clusters;
    }

    /** The context-modifying calls, and whether the expression must be taken apart. */
    method Survey(e: Expr, subtrees: seq<FcId>) returns (isCtx: set<FcId>, split: bool)
      requires subtrees == Subtrees(e)
      ensures isCtx == set fc | fc in subtrees && lift && facts.rescopes(fc)
      ensures split <==> !Whole(facts, lift, e)
    {
      hide Whole, Valid, Subtrees;
      isCtx := {};
      var distinct: set<set<Table>> := {};
      for i := 0 to |subtrees|
        invariant isCtx == set fc | fc in subtrees[..i] && lift && facts.rescopes(fc)
        invariant distinct == set fc | fc in subtrees[..i] :: facts.tables(fc)
      {
        assert subtrees[..i + 1] == subtrees[..i] + [subtrees[i]];
        if lift && facts.rescopes(subtrees[i]) {
          isCtx := isCtx + {subtrees[i]};
        }
        distinct := distinct + {facts.tables(subtrees[i])};
      }
      assert subtrees[..|subtrees|] == subtrees;
      SurveyIs(facts, lift, e, isCtx, distinct);
      split := isCtx != {} || |distinct| > 1;
    }

    method Lift(fc: FcId)
      requires Valid() && !(lift && facts.rescopes(fc))
      modifies this
      ensures Valid() && Extends(old(clusters), clusters) && SomeEvaluates(facts, lift, clusters, fc)
    {
      var c := ClusterFor(facts.tables(fc));
      ghost var made := clusters;
      assert Owns(facts, lift, clusters[c]);
      OwnsUpdate(facts, lift, clusters, c, clusters[c].(lifted := clusters[c].lifted + [fc]));
      IndexedUpdate(clusters, byKey, calcByFc, c, clusters[c].(lifted := clusters[c].lifted + [fc]));
      hide AllOwn, Owns, Indexed;
      clusters := clusters[c := clusters[c].(lifted := clusters[c].lifted + [fc])];
      ExtendsLift(made, c, fc);
      ExtendsTrans(old(clusters), made, clusters);
      assert clusters[c] in clusters;
    }

    /** The cluster an expression is evaluated in whole; None when its aggregates were lifted. */
    method Assign(e: Expr) returns (whole: Option<nat>)
      requires Valid()
      modifies this
      ensures Valid() && Extends(old(clusters), clusters)
      ensures whole.Some? ==> whole.value < |clusters| && Home(facts, lift, clusters[whole.value], e)
      ensures whole.None? ==> Lifts(facts, lift, clusters, e)
    {
      hide Whole, Valid, Extends;
      var subtrees := AggSubtrees(e);
      var isCtx, split := Survey(e, subtrees);
      if !split {
        var c := ClusterFor(TablesOf(facts, e));
        return Some(c);
      }
      ExtendsSelf(clusters);
      for i := 0 to |subtrees|
        invariant Valid() && Extends(old(clusters), clusters)
        invariant forall j :: 0 <= j < i ==> SomeEvaluates(facts, lift, clusters, subtrees[j])
      {
        ghost var before := clusters;
        if subtrees[i] in isCtx {
          CalcClusterFor(subtrees[i]);
        } else {
          Lift(subtrees[i]);
        }
        ExtendsTrans(old(clusters), before, clusters);
        ExtendsEvaluates(facts, lift, before, clusters);
      }
      return None;
    }

    /** The measures placed so far, each in one cluster or one split list. */
    ghost predicate Placed(plan: Plan, pairs: seq<Expr>, inlines: seq<Expr>, n: nat, m: nat)
      reads this
    {
      && Valid() && plan.clusters == clusters && Right(facts, lift, plan, pairs, inlines)
      && PairHomes(plan.clusters) + multiset(plan.splitPairs) == multiset(NamePositions(n))
      && InlineHomes(plan.clusters) + multiset(plan.splitInlines) == multiset(Positions(m))
    }

    method HoldPair(c: nat, i: nat)
      requires Valid() && c < |clusters|
      modifies `clusters
      ensures Valid() && clusters == WithPair(old(clusters), c, i)
    {
      assert Owns(facts, lift, clusters[c]);
      OwnsUpdate(facts, lift, clusters, c, clusters[c].(pairs := clusters[c].pairs + [i]));
      IndexedUpdate(clusters, byKey, calcByFc, c, clusters[c].(pairs := clusters[c].pairs + [i]));
      hide AllOwn, Owns, Indexed;
      clusters := WithPair(clusters, c, i);
    }

    method HoldInline(c: nat, j: nat)
      requires Valid() && c < |clusters|
      modifies `clusters
      ensures Valid() && clusters == WithInline(old(clusters), c, j)
    {
      assert Owns(facts, lift, clusters[c]);
      OwnsUpdate(facts, lift, clusters, c, clusters[c].(inlines := clusters[c].inlines + [j]));
      IndexedUpdate(clusters, byKey, calcByFc, c, clusters[c].(inlines := clusters[c].inlines + [j]));
      hide AllOwn, Owns, Indexed;
      clusters := WithInline(clusters, c, j);
    }

    method PlacePair(was: Plan, pairs: seq<Expr>, inlines: seq<Expr>, n: nat) returns (plan: Plan)
      requires Placed(was, pairs, inlines, n, 0) && 2 * n + 1 < |pairs|
      modifies this
      ensures Placed(plan, pairs, inlines, n + 1, 0)
    {
      hide Home, Lifts, Right, PairHomes, InlineHomes, Valid, Extends, WithPair, WithInline;
      var whole := Assign(pairs[2 * n + 1]);
      plan := was.(clusters := clusters);
      ExtendsHomes(was.clusters, clusters);
      StaysRight(facts, lift, was.clusters, plan, pairs, inlines);
      assert NamePositions(n + 1) == NamePositions(n) + [2 * n];
      if whole.Some? {
        AddPair(facts, lift, plan, whole.value, 2 * n, pairs, inlines);
        HoldPair(whole.value, 2 * n);
        Take(PairHomes(plan.clusters), multiset(plan.splitPairs), 2 * n);
        plan := plan.(clusters := clusters);
      } else {
        AddSplitPair(facts, lift, plan, 2 * n, pairs, inlines);
        plan := plan.(splitPairs := plan.splitPairs + [2 * n]);
      }
    }

    method PlaceInline(was: Plan, pairs: seq<Expr>, inlines: seq<Expr>, n: nat, m: nat) returns (plan: Plan)
      requires Placed(was, pairs, inlines, n, m) && m < |inlines|
      modifies this
      ensures Placed(plan, pairs, inlines, n, m + 1)
    {
      hide Home, Lifts, Right, PairHomes, InlineHomes, Valid, Extends, WithPair, WithInline;
      var whole := Assign(inlines[m]);
      plan := was.(clusters := clusters);
      ExtendsHomes(was.clusters, clusters);
      StaysRight(facts, lift, was.clusters, plan, pairs, inlines);
      assert Positions(m + 1) == Positions(m) + [m];
      if whole.Some? {
        AddInline(facts, lift, plan, whole.value, m, pairs, inlines);
        HoldInline(whole.value, m);
        Take(InlineHomes(plan.clusters), multiset(plan.splitInlines), m);
        plan := plan.(clusters := clusters);
      } else {
        AddSplitInline(facts, lift, plan, m, pairs, inlines);
        plan := plan.(splitInlines := plan.splitInlines + [m]);
      }
    }

    method PlanMeasures(pairs: seq<Expr>, inlines: seq<Expr>) returns (plan: Plan)
      requires Valid() && clusters == []
      modifies this
      ensures PairHomes(plan.clusters) + multiset(plan.splitPairs) == multiset(NamePositions(|pairs| / 2))
      ensures InlineHomes(plan.clusters) + multiset(plan.splitInlines) == multiset(Positions(|inlines|))
      ensures Right(facts, lift, plan, pairs, inlines)
      ensures AllOwn(facts, lift, plan.clusters)
      ensures OnePerKey(plan.clusters)
      ensures forall i, j :: 0 <= i < j < |plan.clusters| ==> !Scalar(plan.clusters[i]) || Scalar(plan.clusters[j])
    {
      plan := Plan([], [], []);
      assert Placed(plan, pairs, inlines, 0, 0);
      hide Right, PairHomes, InlineHomes;
      for n := 0 to |pairs| / 2
        invariant Placed(plan, pairs, inlines, n, 0)
      {
        plan := PlacePair(plan, pairs, inlines, n);
      }
      for j := 0 to |inlines|
        invariant Placed(plan, pairs, inlines, |pairs| / 2, j)
      {
        plan := PlaceInline(plan, pairs, inlines, |pairs| / 2, j);
      }
      KeysAreDistinct(clusters, byKey, calcByFc);
      var sorted := ScalarsLast(clusters);
      SortKeeps(facts, lift, plan, sorted, pairs, inlines);
      plan := plan.(clusters := sorted);
    }
  }

  // ---- steps of the planner ----

  predicate Scalar(c: Cluster) {
    c.key == {} && c.context.None?
  }

  /** Clusters are told apart by their table set, context clusters by their call. */
  ghost predicate Apart(a: Cluster, b: Cluster) {
    a.context != b.context || (a.context.None? && a.key != b.key)
  }

  ghost predicate OnePerKey(clusters: seq<Cluster>) {
    forall i, j :: 0 <= i < j < |clusters| ==> Apart(clusters[i], clusters[j])
  }

  function WithPair(clusters: seq<Cluster>, c: nat, i: nat): seq<Cluster>
    requires c < |clusters|
  {
    clusters[c := clusters[c].(pairs := clusters[c].pairs + [i])]
  }

  function WithInline(clusters: seq<Cluster>, c: nat, j: nat): seq<Cluster>
    requires c < |clusters|
  {
    clusters[c := clusters[c].(inlines := clusters[c].inlines + [j])]
  }

  lemma StaysRight(facts: Facts, lift: bool, a: seq<Cluster>, plan: Plan, pairs: seq<Expr>, inlines: seq<Expr>)
    requires Right(facts, lift, plan.(clusters := a), pairs, inlines) && Extends(a, plan.clusters)
    ensures Right(facts, lift, plan, pairs, inlines)
  {
    HoldsStay(facts, lift, a, plan.clusters, pairs, inlines);
    ExtendsEvaluates(facts, lift, a, plan.clusters);
    LiftedStay(facts, lift, a, plan.clusters, plan.splitPairs, pairs, 1);
    LiftedStay(facts, lift, a, plan.clusters, plan.splitInlines, inlines, 0);
  }

  lemma HoldsStay(facts: Facts, lift: bool, a: seq<Cluster>, b: seq<Cluster>, pairs: seq<Expr>, inlines: seq<Expr>)
    requires AllHoldRight(facts, lift, a, pairs, inlines) && Extends(a, b)
    ensures AllHoldRight(facts, lift, b, pairs, inlines)
  {
  }

  lemma LiftedStay(facts: Facts, lift: bool, a: seq<Cluster>, b: seq<Cluster>, split: seq<nat>, es: seq<Expr>, offset: nat)
    requires AllLifted(facts, lift, a, split, es, offset)
    requires forall fc :: SomeEvaluates(facts, lift, a, fc) ==> SomeEvaluates(facts, lift, b, fc)
    ensures AllLifted(facts, lift, b, split, es, offset)
  {
  }

  lemma HomesPush(clusters: seq<Cluster>, c: Cluster)
    ensures PairHomes(clusters + [c]) == PairHomes(clusters) + multiset(c.pairs)
    ensures InlineHomes(clusters + [c]) == InlineHomes(clusters) + multiset(c.inlines)
  {
  }

  lemma HomesWith(clusters: seq<Cluster>, c: nat, d: Cluster)
    requires c < |clusters|
    ensures PairHomes(clusters[c := d]) + multiset(clusters[c].pairs) == PairHomes(clusters) + multiset(d.pairs)
    ensures InlineHomes(clusters[c := d]) + multiset(clusters[c].inlines) == InlineHomes(clusters) + multiset(d.inlines)
  {
    var before, after := clusters[..c], clusters[c + 1..];
    assert clusters == before + [clusters[c]] + after && clusters[c := d] == before + [d] + after;
    hide PairHomes, InlineHomes;
    HomesPush(before, clusters[c]);
    HomesPush(before, d);
    HomesConcat(before + [clusters[c]], after);
    HomesConcat(before + [d], after);
    Swap(PairHomes(before), multiset(clusters[c].pairs), PairHomes(after), multiset(d.pairs));
    Swap(InlineHomes(before), multiset(clusters[c].inlines), InlineHomes(after), multiset(d.inlines));
  }

  lemma Swap(a: multiset<nat>, b: multiset<nat>, c: multiset<nat>, d: multiset<nat>)
    ensures a + d + c + b == a + b + c + d
  {
  }

  /** A cluster that keeps its key and aggregates keeps everyone's place. */
  lemma SameEvaluates(facts: Facts, lift: bool, clusters: seq<Cluster>, c: nat, d: Cluster)
    requires c < |clusters| && d.key == clusters[c].key && d.context == clusters[c].context && d.lifted == clusters[c].lifted
    ensures forall fc :: SomeEvaluates(facts, lift, clusters, fc) ==> SomeEvaluates(facts, lift, clusters[c := d], fc)
  {
    forall fc | SomeEvaluates(facts, lift, clusters, fc)
      ensures SomeEvaluates(facts, lift, clusters[c := d], fc)
    {
      var e :| e in clusters && Evaluates(facts, lift, e, fc);
      var i :| 0 <= i < |clusters| && clusters[i] == e;
      assert clusters[c := d][i] in clusters[c := d] && Evaluates(facts, lift, clusters[c := d][i], fc);
    }
  }

  lemma AddPair(facts: Facts, lift: bool, plan: Plan, c: nat, i: nat, pairs: seq<Expr>, inlines: seq<Expr>)
    requires Right(facts, lift, plan, pairs, inlines)
    requires c < |plan.clusters| && i + 1 < |pairs| && Home(facts, lift, plan.clusters[c], pairs[i + 1])
    ensures var more := WithPair(plan.clusters, c, i);
      && Right(facts, lift, plan.(clusters := more), pairs, inlines)
      && PairHomes(more) == PairHomes(plan.clusters) + multiset{i} && InlineHomes(more) == InlineHomes(plan.clusters)
  {
    var clusters, d := plan.clusters, plan.clusters[c].(pairs := plan.clusters[c].pairs + [i]);
    SameEvaluates(facts, lift, clusters, c, d);
    LiftedStay(facts, lift, clusters, clusters[c := d], plan.splitPairs, pairs, 1);
    LiftedStay(facts, lift, clusters, clusters[c := d], plan.splitInlines, inlines, 0);
    assert AllHoldRight(facts, lift, clusters[c := d], pairs, inlines) by {
      hide Whole;
      assert HoldsRight(facts, lift, clusters[c], pairs, inlines);
    }
    hide AllHoldRight, AllLifted, Home;
    HomesWith(clusters, c, d);
    Cancel(PairHomes(clusters), PairHomes(clusters[c := d]), multiset(clusters[c].pairs), multiset{i});
    Cancel(InlineHomes(clusters), InlineHomes(clusters[c := d]), multiset(clusters[c].inlines), multiset{});
  }

  lemma AddInline(facts: Facts, lift: bool, plan: Plan, c: nat, j: nat, pairs: seq<Expr>, inlines: seq<Expr>)
    requires Right(facts, lift, plan, pairs, inlines)
    requires c < |plan.clusters| && j < |inlines| && Home(facts, lift, plan.clusters[c], inlines[j])
    ensures var more := WithInline(plan.clusters, c, j);
      && Right(facts, lift, plan.(clusters := more), pairs, inlines)
      && InlineHomes(more) == InlineHomes(plan.clusters) + multiset{j} && PairHomes(more) == PairHomes(plan.clusters)
  {
    var clusters, d := plan.clusters, plan.clusters[c].(inlines := plan.clusters[c].inlines + [j]);
    SameEvaluates(facts, lift, clusters, c, d);
    LiftedStay(facts, lift, clusters, clusters[c := d], plan.splitPairs, pairs, 1);
    LiftedStay(facts, lift, clusters, clusters[c := d], plan.splitInlines, inlines, 0);
    assert AllHoldRight(facts, lift, clusters[c := d], pairs, inlines) by {
      hide Whole;
      assert HoldsRight(facts, lift, clusters[c], pairs, inlines);
    }
    hide AllHoldRight, AllLifted, Home;
    HomesWith(clusters, c, d);
    Cancel(InlineHomes(clusters), InlineHomes(clusters[c := d]), multiset(clusters[c].inlines), multiset{j});
    Cancel(PairHomes(clusters), PairHomes(clusters[c := d]), multiset(clusters[c].pairs), multiset{});
  }

  lemma AddSplitPair(facts: Facts, lift: bool, plan: Plan, i: nat, pairs: seq<Expr>, inlines: seq<Expr>)
    requires Right(facts, lift, plan, pairs, inlines) && i + 1 < |pairs| && Lifts(facts, lift, plan.clusters, pairs[i + 1])
    ensures Right(facts, lift, plan.(splitPairs := plan.splitPairs + [i]), pairs, inlines)
  {
  }

  lemma AddSplitInline(facts: Facts, lift: bool, plan: Plan, j: nat, pairs: seq<Expr>, inlines: seq<Expr>)
    requires Right(facts, lift, plan, pairs, inlines) && j < |inlines| && Lifts(facts, lift, plan.clusters, inlines[j])
    ensures Right(facts, lift, plan.(splitInlines := plan.splitInlines + [j]), pairs, inlines)
  {
  }

  lemma Take(homes: multiset<nat>, split: multiset<nat>, i: nat)
    ensures homes + multiset{i} + split == homes + split + multiset{i}
  {
  }

  lemma Cancel(a: multiset<nat>, b: multiset<nat>, c: multiset<nat>, d: multiset<nat>)
    requires b + c == a + (c + d)
    ensures b == a + d
  {
    forall n
      ensures b[n] == (a + d)[n]
    {
      assert (b + c)[n] == (a + (c + d))[n];
    }
  }

  /** The stable sort: scalar clusters behind the others, order kept otherwise. */
  method ScalarsLast(clusters: seq<Cluster>) returns (sorted: seq<Cluster>)
    ensures sorted == Select(clusters, c => !Scalar(c)) + Select(clusters, c => Scalar(c))
  {
    var front, back := [], [];
    for i := 0 to |clusters|
      invariant front == Select(clusters[..i], c => !Scalar(c))
      invariant back == Select(clusters[..i], c => Scalar(c))
    {
      assert clusters[..i + 1] == clusters[..i] + [clusters[i]];
      SelectPush(clusters[..i], clusters[i], c => !Scalar(c));
      SelectPush(clusters[..i], clusters[i], c => Scalar(c));
      if Scalar(clusters[i]) {
        back := back + [clusters[i]];
      } else {
        front := front + [clusters[i]];
      }
    }
    assert clusters[..|clusters|] == clusters;
    sorted := front + back;
  }

  lemma KeysAreDistinct(clusters: seq<Cluster>, byKey: map<set<Table>, nat>, calcByFc: map<FcId, nat>)
    requires forall c :: 0 <= c < |clusters| && clusters[c].context.None? ==> clusters[c].key in byKey && byKey[clusters[c].key] == c
    requires forall c :: 0 <= c < |clusters| && clusters[c].context.Some? ==>
      clusters[c].context.value in calcByFc && calcByFc[clusters[c].context.value] == c
    ensures OnePerKey(clusters)
  {
  }

  lemma HomesConcat(a: seq<Cluster>, b: seq<Cluster>)
    ensures PairHomes(a + b) == PairHomes(a) + PairHomes(b) && InlineHomes(a + b) == InlineHomes(a) + InlineHomes(b)
    decreases |b|
  {
    if b == [] {
      assert a + b == a;
    } else {
      var front, last := b[..|b| - 1], b[|b| - 1];
      assert b == front + [last] && a + b == (a + front) + [last];
      HomesConcat(a, front);
      HomesPush(front, last);
      HomesPush(a + front, last);
    }
  }

  lemma HomesSplit(clusters: seq<Cluster>)
    ensures var a, b := Select(clusters, c => !Scalar(c)), Select(clusters, c => Scalar(c));
      PairHomes(a) + PairHomes(b) == PairHomes(clusters) && InlineHomes(a) + InlineHomes(b) == InlineHomes(clusters)
  {
    if clusters != [] {
      var front, last := clusters[..|clusters| - 1], clusters[|clusters| - 1];
      assert clusters == front + [last];
      HomesSplit(front);
      hide PairHomes, InlineHomes, Scalar;
      HomesPush(front, last);
      HomesPush(Select(front, c => !Scalar(c)), last);
      HomesPush(Select(front, c => Scalar(c)), last);
    }
  }

  lemma SelectApart(clusters: seq<Cluster>, p: Cluster -> bool)
    requires OnePerKey(clusters)
    ensures OnePerKey(Select(clusters, p))
  {
    if clusters != [] {
      var front, last := clusters[..|clusters| - 1], clusters[|clusters| - 1];
      assert OnePerKey(front);
      SelectApart(front, p);
      SelectMember(front, p);
      forall c | c in front
        ensures Apart(c, last)
      {
        var i :| 0 <= i < |front| && front[i] == c;
        assert clusters[i] == c;
      }
      assert forall i :: 0 <= i < |Select(front, p)| ==> Select(front, p)[i] in Select(front, p);
    }
  }

  lemma SortKeeps(facts: Facts, lift: bool, plan: Plan, sorted: seq<Cluster>, pairs: seq<Expr>, inlines: seq<Expr>)
    requires sorted == Select(plan.clusters, c => !Scalar(c)) + Select(plan.clusters, c => Scalar(c)) && OnePerKey(plan.clusters)
    requires Right(facts, lift, plan, pairs, inlines) && AllOwn(facts, lift, plan.clusters)
    ensures Right(facts, lift, plan.(clusters := sorted), pairs, inlines) && AllOwn(facts, lift, sorted)
    ensures PairHomes(sorted) == PairHomes(plan.clusters) && InlineHomes(sorted) == InlineHomes(plan.clusters)
    ensures OnePerKey(sorted)
    ensures forall i, j :: 0 <= i < j < |sorted| ==> !Scalar(sorted[i]) || Scalar(sorted[j])
  {
    var clusters := plan.clusters;
    var a, b := Select(clusters, c => !Scalar(c)), Select(clusters, c => Scalar(c));
    SelectMember(clusters, c => !Scalar(c));
    SelectMember(clusters, c => Scalar(c));
    SortApart(clusters, a, b);
    hide Select;
    assert forall c :: c in sorted <==> c in clusters;
    SameMembers(facts, lift, plan, sorted, pairs, inlines);
    hide Right, PairHomes, InlineHomes;
    HomesConcat(a, b);
    HomesSplit(clusters);
  }

  lemma SameMembers(facts: Facts, lift: bool, plan: Plan, sorted: seq<Cluster>, pairs: seq<Expr>, inlines: seq<Expr>)
    requires Right(facts, lift, plan, pairs, inlines) && forall c :: c in sorted <==> c in plan.clusters
    ensures Right(facts, lift, plan.(clusters := sorted), pairs, inlines)
  {
    hide HoldsRight, Evaluates;
    forall i | 0 <= i < |sorted|
      ensures HoldsRight(facts, lift, sorted[i], pairs, inlines)
    {
      assert sorted[i] in plan.clusters;
    }
    LiftedStay(facts, lift, plan.clusters, sorted, plan.splitPairs, pairs, 1);
    LiftedStay(facts, lift, plan.clusters, sorted, plan.splitInlines, inlines, 0);
  }

  lemma ApartEitherWay(a: Cluster, b: Cluster)
    ensures Apart(a, b) <==> Apart(b, a)
  {
  }

  lemma ConcatApart(a: seq<Cluster>, b: seq<Cluster>)
    requires OnePerKey(a) && OnePerKey(b) && forall x, y :: x in a && y in b ==> Apart(x, y)
    ensures OnePerKey(a + b)
  {
  }

  lemma SortApart(clusters: seq<Cluster>, a: seq<Cluster>, b: seq<Cluster>)
    requires a == Select(clusters, c => !Scalar(c)) && b == Select(clusters, c => Scalar(c)) && OnePerKey(clusters)
    ensures OnePerKey(a + b)
    ensures forall i, j :: 0 <= i < j < |a + b| ==> !Scalar((a + b)[i]) || Scalar((a + b)[j])
  {
    SelectMember(clusters, c => !Scalar(c));
    SelectMember(clusters, c => Scalar(c));
    SelectApart(clusters, c => !Scalar(c));
    SelectApart(clusters, c => Scalar(c));
    hide Select;
    forall x, y | x in a && y in b
      ensures Apart(x, y)
    {
      hide Apart;
      var i :| 0 <= i < |clusters| && clusters[i] == x;
      var j :| 0 <= j < |clusters| && clusters[j] == y;
      ApartEitherWay(clusters[j], clusters[i]);
    }
    hide Apart;
    ConcatApart(a, b);
    hide OnePerKey;
    ScalarsBehind(a, b);
  }

  lemma ScalarsBehind(a: seq<Cluster>, b: seq<Cluster>)
    requires (forall c :: c in a ==> !Scalar(c)) && forall c :: c in b ==> Scalar(c)
    ensures forall i, j :: 0 <= i < j < |a + b| ==> !Scalar((a + b)[i]) || Scalar((a + b)[j])
  {
  }

  // ---- the CTE columns ----

  datatype Item = PairValue(i: nat) | InlineValue(j: nat) | LiftedValue(fc: FcId)

  datatype Cte = Cte(key: set<Table>, items: seq<Item>)

  /** Context CTEs that differ only in their value share one. */
  datatype ContextCte = ContextCte(shape: nat, values: seq<FcId>)

  datatype Ctes = Ctes(regular: seq<Cte>, contexts: seq<ContextCte>)

  datatype ColumnRef = CteColumn(cte: nat, slot: nat) | ContextColumn(cte: nat, slot: nat)

  ghost predicate Shows(ctes: Ctes, col: ColumnRef, item: Item) {
    match col
    case CteColumn(c, s) => c < |ctes.regular| && s < |ctes.regular[c].items| && ctes.regular[c].items[s] == item
    case ContextColumn(c, s) => c < |ctes.contexts| && s < |ctes.contexts[c].values| && LiftedValue(ctes.contexts[c].values[s]) == item
  }

  /** Every reference points at the column that computes its item. */
  ghost predicate AllShown(ctes: Ctes, refs: map<Item, ColumnRef>) {
    forall item :: item in refs ==> Shows(ctes, refs[item], item)
  }

  ghost predicate GrowsTo(a: Ctes, b: Ctes) {
    forall col, item :: Shows(a, col, item) ==> Shows(b, col, item)
  }

  /** What a cluster computes: nothing of it is in a CTE when the cluster is scalar. */
  ghost predicate Computes(c: Cluster, item: Item) {
    if c.context.Some? then item == LiftedValue(c.context.value)
    else !Scalar(c) && match item
      case PairValue(i) => i in c.pairs
      case InlineValue(j) => j in c.inlines
      case LiftedValue(fc) => fc in c.lifted
  }

  function KeysOfCtes(ctes: Ctes): (keys: seq<set<Table>>)
    ensures |keys| == |ctes.regular|
  {
    seq(|ctes.regular|, c requires 0 <= c < |ctes.regular| => ctes.regular[c].key)
  }

  /** Every reference is an old one or points into CTE `at`. */
  ghost predicate PointsAt(known: map<Item, ColumnRef>, refs: map<Item, ColumnRef>, at: nat, own: Item -> bool) {
    forall item :: item in refs ==>
      (item in known && refs[item] == known[item]) || (own(item) && refs[item].CteColumn? && refs[item].cte == at)
  }

  method AddItem(before: Ctes, known: map<Item, ColumnRef>, item: Item) returns (ctes: Ctes, refs: map<Item, ColumnRef>)
    requires before.regular != [] && AllShown(before, known)
    ensures AllShown(ctes, refs) && refs.Keys == known.Keys + {item}
    ensures KeysOfCtes(ctes) == KeysOfCtes(before) && ctes.contexts == before.contexts
    ensures forall other :: other in known && other != item ==> refs[other] == known[other]
    ensures refs[item].CteColumn? && refs[item].cte == |before.regular| - 1
  {
    var at := |before.regular| - 1;
    var cte := before.regular[at];
    ctes := before.(regular := before.regular[at := cte.(items := cte.items + [item])]);
    refs := known[item := CteColumn(at, |cte.items|)];
    assert GrowsTo(before, ctes);
  }

  method EmitPairs(values: seq<nat>, before: Ctes, known: map<Item, ColumnRef>) returns (ctes: Ctes, refs: map<Item, ColumnRef>)
    requires before.regular != [] && AllShown(before, known)
    ensures AllShown(ctes, refs) && KeysOfCtes(ctes) == KeysOfCtes(before) && ctes.contexts == before.contexts
    ensures PointsAt(known, refs, |before.regular| - 1, (item: Item) => item.PairValue? && item.i in values)
    ensures forall item :: item in refs <==> item in known || (item.PairValue? && item.i in values)
  {
    hide AllShown;
    ctes, refs := before, known;
    for k := 0 to |values|
      invariant AllShown(ctes, refs) && KeysOfCtes(ctes) == KeysOfCtes(before) && ctes.contexts == before.contexts
      invariant PointsAt(known, refs, |before.regular| - 1, (item: Item) => item.PairValue? && item.i in values)
      invariant forall item :: item in refs <==> item in known || (item.PairValue? && item.i in values[..k])
    {
      assert values[..k + 1] == values[..k] + [values[k]];
      ctes, refs := AddItem(ctes, refs, PairValue(values[k]));
    }
    assert values[..|values|] == values;
  }

  method EmitInlines(values: seq<nat>, before: Ctes, known: map<Item, ColumnRef>) returns (ctes: Ctes, refs: map<Item, ColumnRef>)
    requires before.regular != [] && AllShown(before, known)
    ensures AllShown(ctes, refs) && KeysOfCtes(ctes) == KeysOfCtes(before) && ctes.contexts == before.contexts
    ensures PointsAt(known, refs, |before.regular| - 1, (item: Item) => item.InlineValue? && item.j in values)
    ensures forall item :: item in refs <==> item in known || (item.InlineValue? && item.j in values)
  {
    hide AllShown;
    ctes, refs := before, known;
    for k := 0 to |values|
      invariant AllShown(ctes, refs) && KeysOfCtes(ctes) == KeysOfCtes(before) && ctes.contexts == before.contexts
      invariant PointsAt(known, refs, |before.regular| - 1, (item: Item) => item.InlineValue? && item.j in values)
      invariant forall item :: item in refs <==> item in known || (item.InlineValue? && item.j in values[..k])
    {
      assert values[..k + 1] == values[..k] + [values[k]];
      ctes, refs := AddItem(ctes, refs, InlineValue(values[k]));
    }
    assert values[..|values|] == values;
  }

  method EmitLifted(values: seq<FcId>, before: Ctes, known: map<Item, ColumnRef>) returns (ctes: Ctes, refs: map<Item, ColumnRef>)
    requires before.regular != [] && AllShown(before, known)
    ensures AllShown(ctes, refs) && KeysOfCtes(ctes) == KeysOfCtes(before) && ctes.contexts == before.contexts
    ensures PointsAt(known, refs, |before.regular| - 1, (item: Item) => item.LiftedValue? && item.fc in values)
    ensures forall item :: item in refs <==> item in known || (item.LiftedValue? && item.fc in values)
  {
    hide AllShown;
    ctes, refs := before, known;
    for k := 0 to |values|
      invariant AllShown(ctes, refs) && KeysOfCtes(ctes) == KeysOfCtes(before) && ctes.contexts == before.contexts
      invariant PointsAt(known, refs, |before.regular| - 1, (item: Item) => item.LiftedValue? && item.fc in values)
      invariant forall item :: item in refs <==> item in known || (item.LiftedValue? && item.fc in values[..k])
    {
      assert values[..k + 1] == values[..k] + [values[k]];
      if LiftedValue(values[k]) !in refs {
        ctes, refs := AddItem(ctes, refs, LiftedValue(values[k]));
      }
    }
    assert values[..|values|] == values;
  }

  /** One regular cluster's CTE: its whole measures, then its lifted aggregates, each once. */
  method EmitCluster(c: Cluster, before: Ctes, known: map<Item, ColumnRef>) returns (ctes: Ctes, refs: map<Item, ColumnRef>)
    requires AllShown(before, known) && c.context.None? && !Scalar(c)
    ensures AllShown(ctes, refs) && KeysOfCtes(ctes) == KeysOfCtes(before) + [c.key] && ctes.contexts == before.contexts
    ensures PointsAt(known, refs, |before.regular|, item => Computes(c, item))
    ensures forall item :: item in refs <==> item in known || Computes(c, item)
  {
    ctes, refs := NewCte(c.key, before, known);
    hide AllShown, KeysOfCtes, PointsAt;
    ghost var at, keys := |before.regular|, KeysOfCtes(ctes);
    var refsPairs, refsInlines;
    ctes, refsPairs := EmitPairs(c.pairs, ctes, known);
    SameLength(ctes, keys);
    ctes, refsInlines := EmitInlines(c.inlines, ctes, refsPairs);
    SameLength(ctes, keys);
    ctes, refs := EmitLifted(c.lifted, ctes, refsInlines);
    ghost var own := (item: Item) => Computes(c, item);
    PointsOn(known, refsPairs, at, (item: Item) => item.PairValue? && item.i in c.pairs, own);
    PointsOn(refsPairs, refsInlines, at, (item: Item) => item.InlineValue? && item.j in c.inlines, own);
    PointsOn(refsInlines, refs, at, (item: Item) => item.LiftedValue? && item.fc in c.lifted, own);
    PointsAll(known, refsPairs, refsInlines, at, own);
    PointsAll(known, refsInlines, refs, at, own);
    assert own == (item => Computes(c, item));
  }

  method NewCte(key: set<Table>, before: Ctes, known: map<Item, ColumnRef>) returns (ctes: Ctes, refs: map<Item, ColumnRef>)
    requires AllShown(before, known)
    ensures ctes == before.(regular := before.regular + [Cte(key, [])]) && refs == known
    ensures AllShown(ctes, refs) && KeysOfCtes(ctes) == KeysOfCtes(before) + [key]
  {
    ctes, refs := before.(regular := before.regular + [Cte(key, [])]), known;
    assert GrowsTo(before, ctes);
  }

  lemma SameLength(ctes: Ctes, keys: seq<set<Table>>)
    requires KeysOfCtes(ctes) == keys
    ensures |ctes.regular| == |keys|
  {
  }

  lemma PointsOn(known: map<Item, ColumnRef>, refs: map<Item, ColumnRef>, at: nat, some: Item -> bool, own: Item -> bool)
    requires PointsAt(known, refs, at, some) && forall item :: some(item) ==> own(item)
    ensures PointsAt(known, refs, at, own)
  {
  }

  lemma PointsAll(known: map<Item, ColumnRef>, mid: map<Item, ColumnRef>, refs: map<Item, ColumnRef>, at: nat, own: Item -> bool)
    requires PointsAt(known, mid, at, own) && PointsAt(mid, refs, at, own)
    ensures PointsAt(known, refs, at, own)
  {
  }

  /** One context CTE per shape, known by it. */
  ghost predicate ShapesAt(ctes: Ctes, byShape: map<nat, nat>) {
    && (forall k :: k in byShape ==> byShape[k] < |ctes.contexts| && ctes.contexts[byShape[k]].shape == k)
    && forall c :: 0 <= c < |ctes.contexts| ==> ctes.contexts[c].shape in byShape && byShape[ctes.contexts[c].shape] == c
  }

  ghost predicate ShapesStay(before: Ctes, ctes: Ctes) {
    && |before.contexts| <= |ctes.contexts|
    && forall c :: 0 <= c < |before.contexts| ==> ctes.contexts[c].shape == before.contexts[c].shape
  }

  /** One context cluster's value: a new CTE, or one column more on the CTE of the same shape. */
  method EmitContext(fc: FcId, shape: nat, before: Ctes, byShape: map<nat, nat>, known: map<Item, ColumnRef>)
    returns (ctes: Ctes, shapes: map<nat, nat>, refs: map<Item, ColumnRef>)
    requires ShapesAt(before, byShape) && AllShown(before, known)
    ensures ShapesAt(ctes, shapes) && AllShown(ctes, refs) && ctes.regular == before.regular
    ensures refs.Keys == known.Keys + {LiftedValue(fc)} && ShapesStay(before, ctes)
    ensures forall item :: item in known && item != LiftedValue(fc) ==> refs[item] == known[item]
    ensures var col := refs[LiftedValue(fc)];
      col.ContextColumn? && col.cte < |ctes.contexts| && ctes.contexts[col.cte].shape == shape
  {
    if shape in byShape {
      var at := byShape[shape];
      var cte := before.contexts[at];
      ctes := before.(contexts := before.contexts[at := cte.(values := cte.values + [fc])]);
      shapes, refs := byShape, known[LiftedValue(fc) := ContextColumn(at, |cte.values|)];
      ShapesShared(before, ctes, byShape);
    } else {
      ctes := before.(contexts := before.contexts + [ContextCte(shape, [fc])]);
      shapes, refs := byShape[shape := |before.contexts|], known[LiftedValue(fc) := ContextColumn(|before.contexts|, 0)];
      ShapesNew(before, byShape, shape, [fc]);
    }
    hide ShapesAt;
    assert GrowsTo(before, ctes);
  }

  lemma ShapesShared(before: Ctes, ctes: Ctes, byShape: map<nat, nat>)
    requires ShapesAt(before, byShape) && |ctes.contexts| == |before.contexts|
    requires forall c :: 0 <= c < |ctes.contexts| ==> ctes.contexts[c].shape == before.contexts[c].shape
    ensures ShapesAt(ctes, byShape)
  {
  }

  lemma ShapesNew(before: Ctes, byShape: map<nat, nat>, shape: nat, values: seq<FcId>)
    requires ShapesAt(before, byShape) && shape !in byShape
    ensures ShapesAt(before.(contexts := before.contexts + [ContextCte(shape, values)]), byShape[shape := |before.contexts|])
  {
  }

  predicate IsRegular(c: Cluster) {
    c.context.None? && !Scalar(c)
  }

  ghost predicate Computed(clusters: seq<Cluster>, n: nat, item: Item)
    requires n <= |clusters|
  {
    exists k :: 0 <= k < n && Computes(clusters[k], item)
  }

  ghost predicate RegularComputed(clusters: seq<Cluster>, n: nat, item: Item)
    requires n <= |clusters|
  {
    exists k :: 0 <= k < n && IsRegular(clusters[k]) && Computes(clusters[k], item)
  }

  ghost predicate ContextComputed(clusters: seq<Cluster>, n: nat, item: Item)
    requires n <= |clusters|
  {
    exists k :: 0 <= k < n && clusters[k].context.Some? && Computes(clusters[k], item)
  }

  /** The column is in the CTE of a cluster that computes its item: a regular one of the cluster's
    * tables, a context one of the call's shape. */
  ghost predicate AtHome(clusters: seq<Cluster>, n: nat, shape: FcId -> nat, ctes: Ctes, col: ColumnRef, item: Item)
    requires n <= |clusters|
  {
    match col
    case CteColumn(c, _) => c < |ctes.regular| && ComputedFor(clusters, n, ctes.regular[c].key, item)
    case ContextColumn(c, _) =>
      && c < |ctes.contexts| && item.LiftedValue? && ctes.contexts[c].shape == shape(item.fc)
      && ContextComputed(clusters, n, item)
  }

  ghost predicate ComputedFor(clusters: seq<Cluster>, n: nat, key: set<Table>, item: Item)
    requires n <= |clusters|
  {
    exists k :: 0 <= k < n && IsRegular(clusters[k]) && Computes(clusters[k], item) && clusters[k].key == key
  }

  ghost predicate AllAtHome(clusters: seq<Cluster>, n: nat, shape: FcId -> nat, ctes: Ctes, refs: map<Item, ColumnRef>)
    requires n <= |clusters|
  {
    forall item :: item in refs ==> AtHome(clusters, n, shape, ctes, refs[item], item)
  }

  lemma HomesMore(clusters: seq<Cluster>, n: nat, shape: FcId -> nat, ctes: Ctes, refs: map<Item, ColumnRef>)
    requires n < |clusters| && AllAtHome(clusters, n, shape, ctes, refs)
    ensures AllAtHome(clusters, n + 1, shape, ctes, refs)
  {
    hide Computes, IsRegular;
  }

  lemma RegularHome(clusters: seq<Cluster>, i: nat, shape: FcId -> nat, before: Ctes, known: map<Item, ColumnRef>, ctes: Ctes, refs: map<Item, ColumnRef>)
    requires i < |clusters| && IsRegular(clusters[i]) && AllAtHome(clusters, i, shape, before, known)
    requires KeysOfCtes(ctes) == KeysOfCtes(before) + [clusters[i].key] && ctes.contexts == before.contexts
    requires PointsAt(known, refs, |before.regular|, item => Computes(clusters[i], item))
    ensures AllAtHome(clusters, i + 1, shape, ctes, refs)
  {
    hide Computes, IsRegular;
    forall c | 0 <= c < |before.regular|
      ensures c < |ctes.regular| && ctes.regular[c].key == before.regular[c].key
    {
      assert KeysOfCtes(ctes)[c] == KeysOfCtes(before)[c];
    }
    assert KeysOfCtes(ctes)[|before.regular|] == clusters[i].key;
  }

  lemma ContextHome(clusters: seq<Cluster>, i: nat, shape: FcId -> nat, before: Ctes, known: map<Item, ColumnRef>, ctes: Ctes, refs: map<Item, ColumnRef>)
    requires i < |clusters| && clusters[i].context.Some? && AllAtHome(clusters, |clusters|, shape, before, known)
    requires ctes.regular == before.regular && ShapesStay(before, ctes)
    requires var lifted := LiftedValue(clusters[i].context.value);
      && refs.Keys == known.Keys + {lifted} && (forall item :: item in known && item != lifted ==> refs[item] == known[item])
      && refs[lifted].ContextColumn? && refs[lifted].cte < |ctes.contexts| && ctes.contexts[refs[lifted].cte].shape == shape(lifted.fc)
    ensures AllAtHome(clusters, |clusters|, shape, ctes, refs)
  {
    ContextItem(clusters[i]);
    hide Computes, IsRegular;
    forall item | item in refs
      ensures AtHome(clusters, |clusters|, shape, ctes, refs[item], item)
    {
      if item == LiftedValue(clusters[i].context.value) {
        assert ContextComputed(clusters, |clusters|, item);
      }
    }
  }

  /** The regular CTEs, then the context CTEs; scalar clusters get none.  Group keys alone still need
    * one CTE to define the cells. */
  method EmitColumns(clusters: seq<Cluster>, numKeys: nat, shape: FcId -> nat) returns (ctes: Ctes, refs: map<Item, ColumnRef>)
    ensures AllShown(ctes, refs)
    ensures forall item :: item in refs <==> Computed(clusters, |clusters|, item)
    ensures AllAtHome(clusters, |clusters|, shape, ctes, refs)
    ensures KeysOfCtes(ctes) == DefiningKeys(clusters, numKeys) && (numKeys > 0 ==> ctes.regular != [])
    ensures forall i, j :: 0 <= i < j < |ctes.contexts| ==> ctes.contexts[i].shape != ctes.contexts[j].shape
  {
    hide AllShown, Computes, AllAtHome, KeysOfCtes, ShapesStay, ShapesAt, DefiningKeys;
    ctes, refs := EmitRegular(clusters, numKeys, shape);
    ghost var before := ctes;
    var shapes: map<nat, nat> := map[];
    NoShapes(ctes);
    ghost var regular := refs.Keys;
    for i := 0 to |clusters|
      invariant AllShown(ctes, refs) && ShapesAt(ctes, shapes) && ctes.regular == before.regular
      invariant AllAtHome(clusters, |clusters|, shape, ctes, refs)
      invariant forall item :: item in refs <==> item in regular || ContextComputed(clusters, i, item)
    {
      if clusters[i].context.Some? {
        ContextItem(clusters[i]);
        ghost var before, known := ctes, refs;
        ctes, shapes, refs := EmitContext(clusters[i].context.value, shape(clusters[i].context.value), ctes, shapes, refs);
        ContextHome(clusters, i, shape, before, known, ctes, refs);
      }
    }
    AllComputed(clusters);
    ShapesDiffer(ctes, shapes);
    SameRegular(before, ctes);
    DefiningKeysAre(clusters, numKeys, ctes);
  }

  lemma SameRegular(before: Ctes, ctes: Ctes)
    requires ctes.regular == before.regular
    ensures KeysOfCtes(ctes) == KeysOfCtes(before)
  {
  }

  /** The CTEs that define the cells. */
  method EmitRegular(clusters: seq<Cluster>, numKeys: nat, shape: FcId -> nat) returns (ctes: Ctes, refs: map<Item, ColumnRef>)
    ensures AllShown(ctes, refs) && ctes.contexts == []
    ensures forall item :: item in refs <==> RegularComputed(clusters, |clusters|, item)
    ensures AllAtHome(clusters, |clusters|, shape, ctes, refs)
    ensures KeysOfCtes(ctes) == DefiningKeys(clusters, numKeys)
  {
    hide AllShown, Computes, AllAtHome, KeysOfCtes, PointsAt, RegularKeys;
    ctes, refs := NoCtes();
    var count := CountRegular(clusters);
    if count == 0 && numKeys > 0 {
      ctes, refs := GroupCte();
    }
    NobodyHome(clusters, shape, ctes);
    ghost var start := KeysOfCtes(ctes);
    FirstKeys(ctes);
    NoneRegular(clusters);
    for i := 0 to |clusters|
      invariant AllShown(ctes, refs)
      invariant forall item :: item in refs <==> RegularComputed(clusters, i, item)
      invariant AllAtHome(clusters, i, shape, ctes, refs) && ctes.contexts == []
      invariant KeysOfCtes(ctes) == start + RegularKeys(clusters[..i])
    {
      KeysPush(clusters, i);
      if IsRegular(clusters[i]) {
        ghost var before, known := ctes, refs;
        ctes, refs := EmitCluster(clusters[i], ctes, refs);
        RegularHome(clusters, i, shape, before, known, ctes, refs);
      } else {
        HomesMore(clusters, i, shape, ctes, refs);
      }
    }
    assert clusters[..|clusters|] == clusters;
  }

  /** The regular clusters' table sets, in order; group keys alone still need one CTE. */
  ghost function DefiningKeys(clusters: seq<Cluster>, numKeys: nat): seq<set<Table>> {
    if RegularKeys(clusters) == [] && numKeys > 0 then [{}] else RegularKeys(clusters)
  }

  lemma DefiningKeysAre(clusters: seq<Cluster>, numKeys: nat, ctes: Ctes)
    requires KeysOfCtes(ctes) == DefiningKeys(clusters, numKeys)
    ensures numKeys > 0 ==> ctes.regular != []
  {
  }

  /** The table sets that define cells: the regular clusters', in order. */
  ghost function RegularKeys(clusters: seq<Cluster>): seq<set<Table>> {
    Images(Select(clusters, (c: Cluster) => IsRegular(c)), (c: Cluster) => c.key)
  }

  lemma FirstKeys(ctes: Ctes)
    ensures ctes == Ctes([], []) ==> KeysOfCtes(ctes) == []
    ensures ctes == Ctes([Cte({}, [])], []) ==> KeysOfCtes(ctes) == [{}]
  {
  }

  lemma NoneRegular(clusters: seq<Cluster>)
    ensures RegularKeys(clusters[..0]) == []
    ensures RegularKeys(clusters) == [] <==> forall k :: 0 <= k < |clusters| ==> !IsRegular(clusters[k])
  {
    var chosen := Select(clusters, (c: Cluster) => IsRegular(c));
    SelectMember(clusters, (c: Cluster) => IsRegular(c));
    assert |RegularKeys(clusters)| == |chosen|;
    assert forall k :: 0 <= k < |clusters| ==> clusters[k] in clusters;
    SomeIn(chosen);
    if !(forall k :: 0 <= k < |clusters| ==> !IsRegular(clusters[k])) {
      var k :| 0 <= k < |clusters| && IsRegular(clusters[k]);
      assert clusters[k] in chosen;
    }
  }

  lemma KeysPush(clusters: seq<Cluster>, i: nat)
    requires i < |clusters|
    ensures RegularKeys(clusters[..i + 1]) == RegularKeys(clusters[..i]) + if IsRegular(clusters[i]) then [clusters[i].key] else []
  {
    assert clusters[..i + 1] == clusters[..i] + [clusters[i]];
    SelectPush(clusters[..i], clusters[i], (c: Cluster) => IsRegular(c));
  }

  lemma ShapesDiffer(ctes: Ctes, shapes: map<nat, nat>)
    requires ShapesAt(ctes, shapes)
    ensures forall i, j :: 0 <= i < j < |ctes.contexts| ==> ctes.contexts[i].shape != ctes.contexts[j].shape
  {
  }

  lemma NoShapes(ctes: Ctes)
    requires ctes.contexts == []
    ensures ShapesAt(ctes, map[])
  {
  }

  lemma NobodyHome(clusters: seq<Cluster>, shape: FcId -> nat, ctes: Ctes)
    ensures AllAtHome(clusters, 0, shape, ctes, map[])
  {
  }

  method NoCtes() returns (ctes: Ctes, refs: map<Item, ColumnRef>)
    ensures ctes == Ctes([], []) && refs == map[] && AllShown(ctes, refs)
  {
    ctes, refs := Ctes([], []), map[];
  }

  method GroupCte() returns (ctes: Ctes, refs: map<Item, ColumnRef>)
    ensures ctes == Ctes([Cte({}, [])], []) && refs == map[] && AllShown(ctes, refs)
  {
    ctes, refs := Ctes([Cte({}, [])], []), map[];
  }

  method CountRegular(clusters: seq<Cluster>) returns (count: nat)
    ensures count == 0 <==> forall k :: 0 <= k < |clusters| ==> !IsRegular(clusters[k])
  {
    count := 0;
    for i := 0 to |clusters|
      invariant count == 0 <==> forall k :: 0 <= k < i ==> !IsRegular(clusters[k])
    {
      if IsRegular(clusters[i]) {
        count := count + 1;
      }
    }
  }

  lemma ContextItem(c: Cluster)
    requires c.context.Some?
    ensures forall item :: Computes(c, item) <==> item == LiftedValue(c.context.value)
  {
  }

  lemma AllComputed(clusters: seq<Cluster>)
    ensures forall item :: Computed(clusters, |clusters|, item) <==>
      RegularComputed(clusters, |clusters|, item) || ContextComputed(clusters, |clusters|, item)
  {
  }

  // ---- split expressions ----

  /** What the cells know: the value of each aggregate in its own context, of plain columns, of the
    * operators. */
  datatype Meaning = Meaning(agg: FcId -> Value, col: (Table, Relationships.Column) -> Value, op: (nat, seq<Value>) -> Value)

  /** The whole expression, each aggregate evaluated in its own cluster context. */
  ghost function Eval(e: Expr, m: Meaning): Value {
    match e
    case Const(v) => v
    case Column(t, c) => m.col(t, c)
    case Agg(fc) => m.agg(fc)
    case Op(op, args) => m.op(op, seq(|args|, i requires 0 <= i < |args| => Eval(args[i], m)))
  }

  ghost predicate HasColumn(e: Expr) {
    match e
    case Column(_, _) => true
    case Op(_, args) => exists i :: 0 <= i < |args| && HasColumn(args[i])
    case _ => false
  }

  /** The outer SELECT's arithmetic: a substituted aggregate is read from its CTE column, any other is
    * emitted in place.  Its FROM clause holds CTEs only, so a column of a table has no value there. */
  ghost function EvalSplit(e: Expr, outer: Meaning, refs: map<Item, ColumnRef>, read: ColumnRef -> Value): Option<Value> {
    match e
    case Const(v) => Some(v)
    case Column(_, _) => None
    case Agg(fc) => Some(Substituted(fc, outer, refs, read))
    case Op(op, args) =>
      var vals := seq(|args|, i requires 0 <= i < |args| => EvalSplit(args[i], outer, refs, read));
      if exists i :: 0 <= i < |args| && vals[i].None? then None
      else Some(outer.op(op, seq(|args|, i requires 0 <= i < |args| => vals[i].value)))
  }

  ghost function Substituted(fc: FcId, outer: Meaning, refs: map<Item, ColumnRef>, read: ColumnRef -> Value): Value {
    if LiftedValue(fc) in refs then read(refs[LiftedValue(fc)]) else outer.agg(fc)
  }

  /** Over columns that show their aggregates the outer arithmetic is the whole expression, and it is
    * well formed exactly when no column of a table stands outside the aggregates. */
  lemma {:induction false} SplitIsWhole(e: Expr, m: Meaning, outer: Meaning, refs: map<Item, ColumnRef>, read: ColumnRef -> Value)
    requires outer.op == m.op && forall fc :: fc in Subtrees(e) ==> Substituted(fc, outer, refs, read) == m.agg(fc)
    ensures EvalSplit(e, outer, refs, read) == if HasColumn(e) then None else Some(Eval(e, m))
  {
    match e
    case Op(op, args) =>
      var vals := seq(|args|, i requires 0 <= i < |args| => EvalSplit(args[i], outer, refs, read));
      forall i | 0 <= i < |args|
        ensures vals[i] == if HasColumn(args[i]) then None else Some(Eval(args[i], m))
      {
        SubtreesOfEach(args, i);
        SplitIsWhole(args[i], m, outer, refs, read);
      }
      if !HasColumn(e) {
        assert seq(|args|, i requires 0 <= i < |args| => vals[i].value) == seq(|args|, i requires 0 <= i < |args| => Eval(args[i], m));
      }
    case _ =>
  }

  lemma SubtreesOfEach(es: seq<Expr>, i: nat)
    requires i < |es|
    ensures forall fc :: fc in Subtrees(es[i]) ==> fc in SubtreesOf(es)
  {
  }

  /** Only the aggregates of an expression matter for it. */
  lemma {:induction false} EvalSame(e: Expr, m: Meaning, n: Meaning)
    requires m.op == n.op && !HasColumn(e) && forall fc :: fc in Subtrees(e) ==> m.agg(fc) == n.agg(fc)
    ensures Eval(e, m) == Eval(e, n)
  {
    match e
    case Op(op, args) =>
      forall i | 0 <= i < |args|
        ensures Eval(args[i], m) == Eval(args[i], n)
      {
        SubtreesOfEach(args, i);
        EvalSame(args[i], m, n);
      }
      assert seq(|args|, i requires 0 <= i < |args| => Eval(args[i], m)) == seq(|args|, i requires 0 <= i < |args| => Eval(args[i], n));
    case _ =>
  }

  /** Without columns of its own, an expression reads the tables of its aggregates. */
  lemma {:induction false} TablesAreAggregates(facts: Facts, e: Expr, t: Table)
    requires !HasColumn(e)
    ensures t in TablesOf(facts, e) <==> exists fc :: fc in Subtrees(e) && t in facts.tables(fc)
  {
    match e
    case Op(_, args) =>
      for n := 0 to |args|
        invariant t in TablesOfAll(facts, args[..n]) <==> exists fc :: fc in SubtreesOf(args[..n]) && t in facts.tables(fc)
      {
        assert args[..n + 1][..n] == args[..n];
        TablesAreAggregates(facts, args[n], t);
      }
      assert args[..|args|] == args;
    case Agg(fc) =>
      assert fc in Subtrees(e);
    case _ =>
  }

  /** In a planned query every aggregate of a split measure that reads a table, or modifies the
    * context, is read from a CTE column; only table-less ones are left in place. */
  lemma SplitReadsColumns(facts: Facts, lift: bool, clusters: seq<Cluster>, e: Expr, refs: map<Item, ColumnRef>)
    requires Lifts(facts, lift, clusters, e)
    requires forall item :: item in refs <==> Computed(clusters, |clusters|, item)
    ensures forall fc :: fc in Subtrees(e) && (facts.tables(fc) != {} || (lift && facts.rescopes(fc))) ==> LiftedValue(fc) in refs
  {
    forall fc | fc in Subtrees(e) && (facts.tables(fc) != {} || (lift && facts.rescopes(fc)))
      ensures LiftedValue(fc) in refs
    {
      assert SomeEvaluates(facts, lift, clusters, fc);
      var c :| c in clusters && Evaluates(facts, lift, c, fc);
      var k :| 0 <= k < |clusters| && clusters[k] == c;
      assert Computes(clusters[k], LiftedValue(fc));
    }
  }
}
