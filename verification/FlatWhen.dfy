/** When a carved FROM clause means what the flat joins mean: exactly when its group chains carry keys
  * only, and two queries where it does not. */
module FlatWhen {
  import opened Relationships
  import opened Relational
  import opened JoinPath
  import opened ClusterFrom
  import opened ChainRows
  import opened FlatJoins
  import ContextCte

  // ---- and only then ----

  /** The two agree for all data and all predicates on the tagged tables. */
  ghost predicate AlwaysFlat(clause: Clause, tags: seq<Option<Table>>, keys: seq<GroupKey>) {
    forall q: Query :: q.clause == clause ==> IsFlat(q, tags, keys)
  }

  ghost predicate IsFlat(q: Query, tags: seq<Option<Table>>, keys: seq<GroupKey>) {
    Shaped(q) && Local(q, tags) ==> forall cell :: |cell| == |keys| ==> GroupedRows(q, keys, cell) == FlatCounted(q, keys, cell)
  }

  /** One row in each table but `none`: all NULL, but for one column of the tables in `sevens`. */
  ghost function BareRow(sevens: map<Table, Column>, t: Table): DbRow {
    if t in sevens then map[sevens[t] := Val(7)] else map[]
  }

  ghost function BareDb(tables: set<Table>, none: Option<Table>, sevens: map<Table, Column>): Db {
    map t | t in tables :: if none == Some(t) then [] else [BareRow(sevens, t)]
  }

  /** Every predicate holds of everything, but for `no`, which holds of nothing. */
  ghost function FlatPreds(n: nat, no: nat): (preds: seq<Env -> bool>) {
    seq(n, p => (_: Env) => p != no)
  }

  ghost predicate Blank(env: Env) {
    forall t :: t in env ==> env[t] == None || env[t] == Some(map[])
  }

  ghost predicate BlankOn(db: Db, tables: set<Table>) {
    forall t :: t in tables ==> RowsOf(db, t) == [map[]]
  }

  lemma {:induction false} BlankJoins(db: Db, envs: seq<Env>, steps: seq<JoinStep>, env: Env)
    requires (forall e :: e in envs ==> Blank(e)) && BlankOn(db, StepTables(steps)) && env in LeftJoins(db, envs, steps)
    ensures Blank(env)
    decreases |steps|
  {
    if steps != [] {
      var front, s := steps[..|steps| - 1], steps[|steps| - 1];
      BeforePush(steps);
      FlatMember(LeftJoins(db, envs, front), e => LeftRows(db, e, s), env);
      hide LeftRows, Before, Blank;
      var e :| e in LeftJoins(db, envs, front) && env in LeftRows(db, e, s);
      BlankJoins(db, envs, front, e);
      BlankJoin(db, e, s, env);
    }
  }

  lemma BlankJoin(db: Db, e: Env, s: JoinStep, env: Env)
    requires Blank(e) && RowsOf(db, s.table) == [map[]] && env in LeftRows(db, e, s)
    ensures Blank(env)
  {
    SelectMember(RowsOf(db, s.table), r => Link(e, s, r));
    if Matches(db, e, s) != [] {
      WithRowsMember(e, s.table, Matches(db, e, s), env);
    }
  }

  lemma BlankFlatRow(q: Query) returns (o: Env)
    requires BlankOn(q.db, FlatTables(q.clause))
    ensures o in FlatRows(q) && Blank(o)
  {
    hide Before;
    var root, flat := q.clause.root, q.clause.split.flat;
    var start: Env := map[][root := Some(map[])];
    assert RowsOf(q.db, root) == [map[]];
    var starts := WithRows(map[], root, RowsOf(q.db, root));
    assert starts == [start];
    o := LeftJoinsKeep(q.db, start, flat);
    BlankJoins(q.db, starts, flat, o);
  }

  lemma BlankCombination(q: Query, c: nat, o: Env)
    requires Shaped(q) && c < |q.clause.existsPreds| && Hung(q.clause, q.clause.split.existsChains[c])
    requires o.Keys == FlatTables(q.clause) && Blank(o) && BlankOn(q.db, ChainScope(q.clause.split.existsChains[c]))
    requires forall env :: CondOf(q, q.clause.existsPreds[c])(env)
    ensures HasCombination(q, c, o)
  {
    hide IsTree, InScope, CondOf, Before, FlatTables;
    var chain := q.clause.split.existsChains[c];
    var env: Env := o + map t | t in ChainScope(chain) :: Some(map[]);
    ScopeIsNew(o.Keys, chain.Steps());
    ScopeHolds(o.Keys, chain.Steps());
    assert Blank(env);
    forall i | 0 <= i < |chain.Steps()|
      ensures Joined(q.db, env, chain.Steps()[i])
    {
      TablesHave(chain.Steps(), i);
    }
    assert Combines(q.db, o, chain.Steps(), env);
  }

  lemma TablesHave(steps: seq<JoinStep>, i: nat)
    requires i < |steps|
    ensures steps[i].table in StepTables(steps)
  {
  }

  // ---- a predicate on a group chain ----

  lemma PredHasOneHome(steps: seq<JoinStep>, clause: Clause, tags: seq<Option<Table>>, c: nat, p: nat)
    requires IsTree(clause.root, steps) && Splits(clause.root, steps, clause.split) && Places(clause, tags)
    requires c < |clause.groupPreds| && p in clause.groupPreds[c]
    ensures p < |tags| && p !in clause.conds && forall d :: 0 <= d < |clause.existsPreds| ==> p !in clause.existsPreds[d]
  {
    hide IsTree, Splits, Ascending, Chain.Has, InChainPreds;
    assert TakesFor(clause.split.groupChains[c], tags, clause.groupPreds[c]);
    var t := tags[p].value;
    OneScope(clause.root, steps, clause.split, t);
    assert SomeHas(clause.split.groupChains, t);
    forall d | 0 <= d < |clause.existsPreds|
      ensures p !in clause.existsPreds[d]
    {
      assert TakesFor(clause.split.existsChains[d], tags, clause.existsPreds[d]);
    }
  }

  lemma BlankTuple(keys: seq<GroupKey>, env: Env)
    requires Blank(env)
    ensures TupleIn(keys, env) == Nulls(|keys|)
  {
  }

  /** In a database of blank rows, the map of a chain leads to NULLs, whatever its predicates. */
  lemma BlankReaches(q: Query, n: nat, o: Env)
    requires Shaped(q) && n < |q.clause.selected|
    requires BlankOn(q.db, ChainScope(q.clause.split.groupChains[n]))
    ensures Reaches(q, n, o, Nulls(|q.clause.selected[n]|))
  {
    hide Before, ChainRowsOf;
    var c, keys := q.clause.split.groupChains[n], q.clause.selected[n];
    forall env | env in ChainRowsOf(q, n)
      ensures MapOf(c, keys, env) == MapRow(Null, Nulls(|keys|))
    {
      BlankChainRow(q, n, env);
      BlankTuple(keys, env);
    }
  }

  lemma BlankChainRow(q: Query, n: nat, env: Env)
    requires Shaped(q) && n < |q.clause.selected| && BlankOn(q.db, ChainScope(q.clause.split.groupChains[n]))
    requires env in ChainRowsOf(q, n)
    ensures Blank(env)
  {
    hide Before, LeftJoins;
    var c := q.clause.split.groupChains[n];
    var starts := WithRows(map[], c.anchor.table, RowsOf(q.db, c.anchor.table));
    ChainScopeIs(c);
    forall e | e in starts
      ensures Blank(e)
    {
      WithRowsMember(map[], c.anchor.table, RowsOf(q.db, c.anchor.table), e);
    }
    SelectMember(LeftJoins(q.db, starts, c.steps), CondOf(q, q.clause.groupPreds[n]));
    BlankJoins(q.db, starts, c.steps, env);
  }

  /** Every table of the clause is in the tree. */
  ghost predicate Covers(tables: set<Table>, clause: Clause) {
    && FlatTables(clause) <= tables
    && (forall c :: c in clause.split.groupChains ==> ChainScope(c) <= tables)
    && (forall c :: c in clause.split.existsChains ==> ChainScope(c) <= tables)
  }

  lemma TreeCovers(steps: seq<JoinStep>, clause: Clause)
    requires IsTree(clause.root, steps) && Splits(clause.root, steps, clause.split)
    ensures Covers({clause.root} + StepTables(steps), clause)
  {
    hide IsTree, Splits, Chain.Has, Before, Entered;
    forall t
      ensures t in FlatTables(clause) ==> t in {clause.root} + StepTables(steps)
      ensures forall c :: c in clause.split.groupChains && t in ChainScope(c) ==> t in {clause.root} + StepTables(steps)
      ensures forall c :: c in clause.split.existsChains && t in ChainScope(c) ==> t in {clause.root} + StepTables(steps)
    {
      ScopesCover(clause.root, steps, clause.split, t);
      EnteredIsBefore(clause.root, steps, t);
      EnteredIsBefore(clause.root, clause.split.flat, t);
      forall c | t in ChainScope(c)
        ensures c.Has(t)
      {
        HasIsTable(c, t);
      }
    }
  }

  ghost function BareQuery(steps: seq<JoinStep>, clause: Clause, n: nat, no: nat, none: Option<Table>, sevens: map<Table, Column>): Query {
    Query(BareDb({clause.root} + StepTables(steps), none, sevens), clause, FlatPreds(n, no))
  }

  /** The one flat row of a bare query passes its conditions. */
  lemma BareRowPasses(steps: seq<JoinStep>, q: Query, tags: seq<Option<Table>>, keys: seq<GroupKey>, no: nat) returns (o: Env)
    requires Emittable(steps, q.clause, tags, keys) && Shaped(q) && q.preds == FlatPreds(|tags|, no)
    requires no !in q.clause.conds && forall d :: 0 <= d < |q.clause.existsPreds| ==> no !in q.clause.existsPreds[d]
    requires BlankOn(q.db, FlatTables(q.clause)) && forall c :: c in q.clause.split.existsChains ==> BlankOn(q.db, ChainScope(c))
    ensures o in FlatRows(q) && Blank(o) && o.Keys == FlatTables(q.clause) && Local(q, tags)
    ensures Where(q, o) && forall c :: 0 <= c < |q.clause.existsPreds| ==> HasCombination(q, c, o)
  {
    hide IsTree, Splits, FlatRows, Where, HasCombination, Projects, Hung, Before, Chain.Has, InScope, Blank, BlankOn, Ascending;
    o := BlankFlatRow(q);
    FlatRowsKeys(q, o);
    SplitIsWell(steps, q.clause);
    forall c | 0 <= c < |q.clause.existsPreds|
      ensures HasCombination(q, c, o)
    {
      assert TakesFor(q.clause.split.existsChains[c], tags, q.clause.existsPreds[c]);
      BlankCombination(q, c, o);
    }
    WhereIs(steps, q, tags, keys, o);
  }

  /** One value row of blanks in which the two readings differ, each table with one row at most. */
  ghost predicate Differs(q: Query, clause: Clause, tags: seq<Option<Table>>, keys: seq<GroupKey>, o: Env, cell: seq<Value>) {
    && q.clause == clause && Shaped(q) && Local(q, tags) && |cell| == |keys|
    && BlankOn(q.db, FlatTables(clause)) && (forall t :: |RowsOf(q.db, t)| <= 1)
    && o in FlatRows(q) && Blank(o) && InCell(q, keys, o, cell) != FlatCounts(q, keys, o, cell)
  }

  lemma ChainPredDiffers(steps: seq<JoinStep>, clause: Clause, tags: seq<Option<Table>>, keys: seq<GroupKey>, c: nat) returns (q: Query, o: Env, cell: seq<Value>)
    requires Emittable(steps, clause, tags, keys) && |clause.selected| == |clause.split.groupChains| == |clause.groupPreds|
    requires c < |clause.groupPreds| && clause.groupPreds[c] != []
    ensures Differs(q, clause, tags, keys, o, cell)
  {
    hide IsTree, Splits, FlatRows, Where, HasCombination, Projects, Hung, Before, GroupedRows, Reaches, Local, Widened, TupleIn, Places;
    var p := clause.groupPreds[c][0];
    q, cell := BareQuery(steps, clause, |tags|, p, None, map[]), Nulls(|keys|);
    TreeCovers(steps, clause);
    PredHasOneHome(steps, clause, tags, c, p);
    assert Shaped(q) by { PlacesShapes(q, tags); }
    o := BareRowPasses(steps, q, tags, keys, p);
    assert InCell(q, keys, o, cell) by {
      forall n | 0 <= n < |clause.selected|
        ensures Reaches(q, n, o, TupleOf(q, keys, cell, n))
      {
        BlankReaches(q, n, o);
        assert TupleOf(q, keys, cell, n) == Nulls(|clause.selected[n]|);
      }
    }
    assert !FlatCounts(q, keys, o, cell);
  }

  lemma PlacesShapes(q: Query, tags: seq<Option<Table>>)
    requires Places(q.clause, tags) && |q.clause.selected| == |q.clause.split.groupChains|
    ensures Shaped(q)
  {
  }

  // ---- a key behind a link between other columns ----

  /** The columns that make an unpinned one 7 although the anchor found no row. */
  ghost function Sevens(a: Table, steps: seq<JoinStep>, t: Table, col: Column): map<Table, Column> {
    if steps == [] then map[] else
    var front, last := steps[..|steps| - 1], steps[|steps| - 1];
    if last.table != t then Sevens(a, front, t, col)
    else if col != last.onToCol then map[t := col]
    else Sevens(a, front, last.fromTable, last.onFromCol)[t := col]
  }

  lemma {:induction false} SevensInside(a: Table, steps: seq<JoinStep>, t: Table, col: Column, u: Table)
    requires u in Sevens(a, steps, t, col)
    ensures u in StepTables(steps)
  {
    var front, last := steps[..|steps| - 1], steps[|steps| - 1];
    BeforePush(steps);
    hide Before;
    if last.table != t {
      SevensInside(a, front, t, col, u);
    } else if u != t {
      SevensInside(a, front, last.fromTable, last.onFromCol, u);
    }
  }

  ghost predicate BareRows(db: Db, tables: set<Table>, sevens: map<Table, Column>) {
    forall u :: u in tables ==> RowsOf(db, u) == [BareRow(sevens, u)]
  }

  lemma LeftRowIsRow(db: Db, w: Env, steps: seq<JoinStep>, u: Table)
    requires AllLeft(db, w, steps) && u in StepTables(steps)
    ensures u in w && (w[u].Some? ==> w[u].value in RowsOf(db, u))
  {
  }

  lemma FrontIsApart(a: Table, steps: seq<JoinStep>)
    requires IsTree(a, steps) && steps != []
    ensures steps[|steps| - 1].table !in StepTables(steps[..|steps| - 1])
  {
  }

  lemma {:induction false} UnpinnedIsSeven(db: Db, a: Table, steps: seq<JoinStep>, w: Env, t: Table, col: Column)
    requires IsTree(a, steps) && Entered(a, steps, t) && !Pinned(a, steps, t, col)
    requires a in w && w[a].None? && AllLeft(db, w, steps) && BareRows(db, StepTables(steps), Sevens(a, steps, t, col))
    ensures ColOf(w, t, col) == Val(7)
  {
    var front, last := steps[..|steps| - 1], steps[|steps| - 1];
    FrontIsTree(a, steps);
    FrontIsApart(a, steps);
    AllLeftPush(db, w, steps);
    EnteredFront(a, steps, t);
    BeforePush(steps);
    hide IsTree, Entered, AllLeft, Before, LeftJoined, BareRow;
    if last.table != t {
      assert t == a ==> Pinned(a, steps, t, col);
      UnpinnedIsSeven(db, a, front, w, t, col);
    } else {
      assert RowsOf(db, t) == [BareRow(Sevens(a, steps, t, col), t)];
      if col == last.onToCol {
        BareRowsFront(db, StepTables(front), Sevens(a, front, last.fromTable, last.onFromCol), t, col);
        UnpinnedIsSeven(db, a, front, w, last.fromTable, last.onFromCol);
      } else {
        BlankBefore(db, a, front, w, last.fromTable, last.onFromCol, t, col);
      }
      LastLinks(db, w, last, Sevens(a, steps, t, col), col);
    }
  }

  lemma BareRowsFront(db: Db, tables: set<Table>, sevens: map<Table, Column>, t: Table, col: Column)
    requires t !in tables && BareRows(db, tables, sevens[t := col])
    ensures BareRows(db, tables, sevens)
  {
    forall u | u in tables
      ensures RowsOf(db, u) == [BareRow(sevens, u)]
    {
    }
  }

  /** Before the column's table every value is NULL. */
  lemma BlankBefore(db: Db, a: Table, front: seq<JoinStep>, w: Env, u: Table, from: Column, t: Table, col: Column)
    requires Entered(a, front, u) && a in w && w[a].None? && AllLeft(db, w, front)
    requires BareRows(db, StepTables(front), map[t := col]) && t !in StepTables(front)
    ensures ColOf(w, u, from) == Null
  {
    EnteredIsBefore(a, front, u);
    if u != a {
      LeftRowIsRow(db, w, front, u);
      assert RowsOf(db, u) == [BareRow(map[t := col], u)];
    }
  }

  lemma LastLinks(db: Db, w: Env, last: JoinStep, sevens: map<Table, Column>, col: Column)
    requires LeftJoined(db, w, last) && last.table in sevens && sevens[last.table] == col
    requires RowsOf(db, last.table) == [BareRow(sevens, last.table)]
    requires ColOf(w, last.fromTable, last.onFromCol) == if col == last.onToCol then Val(7) else Null
    ensures ColOf(w, last.table, col) == Val(7)
  {
    assert Link(w, last, BareRow(sevens, last.table));
  }

  /** The rows of a widened row beyond one chain are joined as that chain says. */
  lemma {:induction false} WidenedHasChain(q: Query, n: nat, o: Env, w: Env, c: nat)
    requires WellSplit(q.clause) && c < n <= |q.clause.split.groupChains| && o.Keys == FlatTables(q.clause) && w in Widened(q, n, o)
    ensures exists v :: v in LeftJoins(q.db, [o], q.clause.split.groupChains[c].Steps()) && SameOn(v, w, ChainScope(q.clause.split.groupChains[c]))
  {
    hide Before, LeftJoins, InScope, WellSplit;
    var steps := q.clause.split.groupChains[n - 1].Steps();
    LeftJoinsOfEach(q.db, Widened(q, n - 1, o), steps, w);
    var e :| e in Widened(q, n - 1, o) && w in LeftJoins(q.db, [e], steps);
    WidenedExtends(q, n - 1, o, e);
    ChainAddsNew(q, n - 1);
    var v := ChainAlone(q.db, o, e, TablesBefore(q, n - 1), steps, w);
    if c < n - 1 {
      WidenedHasChain(q, n - 1, o, e, c);
    } else {
      assert SameOn(v, w, ChainScope(q.clause.split.groupChains[c]));
    }
  }

  ghost predicate SameOn(e: Env, f: Env, tables: set<Table>) {
    forall t :: t in tables ==> t in e && t in f && e[t] == f[t]
  }

  lemma {:induction false} WidenedKeeps(q: Query, n: nat, o: Env) returns (w: Env)
    requires n <= |q.clause.split.groupChains|
    ensures w in Widened(q, n, o)
  {
    hide LeftJoins;
    w := o;
    if n > 0 {
      var e := WidenedKeeps(q, n - 1, o);
      w := LeftJoinsKeep(q.db, e, q.clause.split.groupChains[n - 1].Steps());
      LeftJoinsOfEach(q.db, Widened(q, n - 1, o), q.clause.split.groupChains[n - 1].Steps(), w);
    }
  }

  /** The database that shows a chain's unpinned column: its anchor's table is empty. */
  ghost function UnpinnedQuery(steps: seq<JoinStep>, clause: Clause, n: nat, c: nat, k: GroupKey): Query
    requires c < |clause.split.groupChains|
  {
    var chain := clause.split.groupChains[c];
    BareQuery(steps, clause, n, n, Some(chain.anchor.table), Sevens(chain.anchor.table, chain.steps, k.table, k.col))
  }

  lemma UnpinnedRows(steps: seq<JoinStep>, clause: Clause, n: nat, c: nat, k: GroupKey)
    requires IsTree(clause.root, steps) && Splits(clause.root, steps, clause.split) && c < |clause.split.groupChains|
    ensures var q, chain := UnpinnedQuery(steps, clause, n, c, k), clause.split.groupChains[c];
      && BlankOn(q.db, FlatTables(clause)) && (forall d :: d in clause.split.existsChains ==> BlankOn(q.db, ChainScope(d)))
      && RowsOf(q.db, chain.anchor.table) == []
      && BareRows(q.db, StepTables(chain.steps), Sevens(chain.anchor.table, chain.steps, k.table, k.col))
  {
    hide IsTree, Splits, Before, InScope;
    var q, chain := UnpinnedQuery(steps, clause, n, c, k), clause.split.groupChains[c];
    var sevens := Sevens(chain.anchor.table, chain.steps, k.table, k.col);
    TreeCovers(steps, clause);
    SplitIsWell(steps, clause);
    ChainScopeIs(chain);
    ChainIsHung(q, c);
    ScopeIsNew(FlatTables(clause), chain.Steps());
    forall u | u in sevens
      ensures u in ChainScope(chain)
    {
      SevensInside(chain.anchor.table, chain.steps, k.table, k.col, u);
    }
    TreeInScope(chain.anchor.table, chain.steps);
    ScopeIsNew({chain.anchor.table}, chain.steps);
  }

  /** The widened row reads 7 at the unpinned key. */
  lemma ReadsSeven(q: Query, o: Env, w: Env, c: nat, k: GroupKey)
    requires WellSplit(q.clause) && c < |q.clause.split.groupChains| && o.Keys == FlatTables(q.clause)
    requires w in Widened(q, |q.clause.split.groupChains|, o)
    requires var chain := q.clause.split.groupChains[c];
      && k.table in ChainScope(chain) && !Pinned(chain.anchor.table, chain.steps, k.table, k.col) && RowsOf(q.db, chain.anchor.table) == []
      && BareRows(q.db, StepTables(chain.steps), Sevens(chain.anchor.table, chain.steps, k.table, k.col))
    ensures ColOf(w, k.table, k.col) == Val(7)
  {
    hide IsTree, InScope, AllLeft, Before, LeftJoins, Pinned, Widened, BareRows, Sevens, WellSplit;
    var chain := q.clause.split.groupChains[c];
    WidenedHasChain(q, |q.clause.split.groupChains|, o, w, c);
    var v :| v in LeftJoins(q.db, [o], chain.Steps()) && SameOn(v, w, ChainScope(chain));
    ChainIsHung(q, c);
    LeftJoinsAreExact(q.db, o, chain.Steps(), v);
    AllLeftCons(q.db, v, chain);
    HasIsTable(chain, k.table);
    UnpinnedIsSeven(q.db, chain.anchor.table, chain.steps, v, k.table, k.col);
  }

  /** The emitted map of a chain with an empty anchor leads to NULLs only. */
  lemma NoAnchorNoTuple(q: Query, keys: seq<GroupKey>, w: Env, o: Env, c: nat, k: GroupKey)
    requires Shaped(q) && c < |q.clause.selected| && k in q.clause.selected[c] && k in keys && ColOf(w, k.table, k.col) != Null
    requires RowsOf(q.db, q.clause.split.groupChains[c].anchor.table) == []
    ensures !InCell(q, keys, o, TupleIn(keys, w))
  {
    hide Where, FlatKeysMatch;
    var chain, selected, cell := q.clause.split.groupChains[c], q.clause.selected[c], TupleIn(keys, w);
    assert ChainRowsOf(q, c) == [] by {
      NoRowsNoJoins(q.db, chain.steps);
    }
    var j :| 0 <= j < |selected| && selected[j] == k;
    assert TupleOf(q, keys, cell, c)[j] == ColOf(w, k.table, k.col);
    assert !Reaches(q, c, o, TupleOf(q, keys, cell, c));
  }

  lemma NoRowsNoJoins(db: Db, steps: seq<JoinStep>)
    ensures LeftJoins(db, [], steps) == []
  {
  }

  lemma AllHold(q: Query, tags: seq<Option<Table>>, env: Env)
    requires Places(q.clause, tags) && q.preds == FlatPreds(|tags|, |tags|)
    ensures Holds(q, env)
  {
    hide Chain.Has, Ascending;
    forall c | 0 <= c < |q.clause.groupPreds|
      ensures CondOf(q, q.clause.groupPreds[c])(env)
    {
      assert TakesFor(q.clause.split.groupChains[c], tags, q.clause.groupPreds[c]);
    }
  }

  lemma NoSuchPred(clause: Clause, tags: seq<Option<Table>>)
    requires Places(clause, tags)
    ensures |tags| !in clause.conds && forall d :: 0 <= d < |clause.existsPreds| ==> |tags| !in clause.existsPreds[d]
  {
    hide Chain.Has, Ascending;
    forall d | 0 <= d < |clause.existsPreds|
      ensures |tags| !in clause.existsPreds[d]
    {
      assert TakesFor(clause.split.existsChains[d], tags, clause.existsPreds[d]);
    }
  }

  lemma UnpinnedDiffers(steps: seq<JoinStep>, clause: Clause, tags: seq<Option<Table>>, keys: seq<GroupKey>, c: nat, k: GroupKey)
    returns (q: Query, o: Env, cell: seq<Value>)
    requires Emittable(steps, clause, tags, keys) && |clause.selected| == |clause.split.groupChains| == |clause.groupPreds|
    requires c < |clause.selected| && k in clause.selected[c]
    requires !Pinned(clause.split.groupChains[c].anchor.table, clause.split.groupChains[c].steps, k.table, k.col)
    ensures Differs(q, clause, tags, keys, o, cell)
  {
    hide IsTree, Splits, FlatRows, Where, HasCombination, Hung, Before, GroupedRows, Local, Widened, Places, Pinned, FlatPreds, InCell, Holds,
      Sevens, BareRows, RowsOf, BlankOn, WellSplit;
    q := UnpinnedQuery(steps, clause, |tags|, c, k);
    UnpinnedRows(steps, clause, |tags|, c, k);
    assert Shaped(q) by { PlacesShapes(q, tags); }
    NoSuchPred(clause, tags);
    SplitIsWell(steps, clause);
    AreAtHome(q, keys);
    assert k in keys;
    o := BareRowPasses(steps, q, tags, keys, |tags|);
    var w := WidenedKeeps(q, |clause.split.groupChains|, o);
    hide Projects;
    cell := TupleIn(keys, w);
    AllHold(q, tags, w);
    assert FlatCounts(q, keys, o, cell);
    ReadsSeven(q, o, w, c, k);
    NoAnchorNoTuple(q, keys, w, o, c, k);
    FewRows(steps, clause, |tags|, c, k);
  }

  lemma FewRows(steps: seq<JoinStep>, clause: Clause, n: nat, c: nat, k: GroupKey)
    requires c < |clause.split.groupChains|
    ensures forall t :: |RowsOf(UnpinnedQuery(steps, clause, n, c, k).db, t)| <= 1
  {
    hide Before, Sevens;
  }

  /** A clause whose chains carry more than keys reads some data otherwise than the flat joins. */
  lemma UnlikeFlat(steps: seq<JoinStep>, clause: Clause, tags: seq<Option<Table>>, keys: seq<GroupKey>) returns (q: Query, o: Env, cell: seq<Value>)
    requires Emittable(steps, clause, tags, keys) && |clause.selected| == |clause.split.groupChains| == |clause.groupPreds|
    requires !KeysOnly(clause)
    ensures Differs(q, clause, tags, keys, o, cell)
  {
    hide IsTree, Splits, Pinned, Places, Projects, Differs;
    var c :| 0 <= c < |clause.groupPreds| && !(clause.groupPreds[c] == [] && AllPinned(clause.split.groupChains[c], clause.selected[c]));
    if clause.groupPreds[c] != [] {
      q, o, cell := ChainPredDiffers(steps, clause, tags, keys, c);
    } else {
      var k :| k in clause.selected[c] && !Pinned(clause.split.groupChains[c].anchor.table, clause.split.groupChains[c].steps, k.table, k.col);
      q, o, cell := UnpinnedDiffers(steps, clause, tags, keys, c, k);
    }
  }

  /** One row in which the two readings differ. */
  lemma DiffersAt(steps: seq<JoinStep>, q: Query, tags: seq<Option<Table>>, keys: seq<GroupKey>, cell: seq<Value>, o: Env)
    requires Emittable(steps, q.clause, tags, keys) && Shaped(q) && |cell| == |keys| && o in FlatRows(q)
    requires InCell(q, keys, o, cell) != FlatCounts(q, keys, o, cell)
    ensures GroupedRows(q, keys, cell) != FlatCounted(q, keys, cell)
  {
    hide IsTree, Splits, FlatRows, Projects, Places, GroupedRows, InCell, FlatCounts;
    EmittedClauseCounts(steps, q, tags, keys, cell);
    SelectMember(FlatRows(q), o => InCell(q, keys, o, cell));
    SelectMember(FlatRows(q), o => FlatCounts(q, keys, o, cell));
  }

  /** The carved clause groups the rows of the flat joins and filters, for all data, exactly when its
    * group chains carry keys only. */
  lemma CarvedIsFlatWhen(steps: seq<JoinStep>, clause: Clause, tags: seq<Option<Table>>, keys: seq<GroupKey>)
    requires Emittable(steps, clause, tags, keys)
    ensures |clause.selected| == |clause.split.groupChains| == |clause.groupPreds|
    ensures AlwaysFlat(clause, tags, keys) <==> KeysOnly(clause)
  {
    hide IsTree, Splits, Pinned;
    assert |clause.selected| == |clause.split.groupChains| == |clause.groupPreds|;
    hide Places, Projects;
    if KeysOnly(clause) {
      hide KeysOnly, Shaped, Local, GroupedRows, FlatCounted;
      forall q: Query, cell | q.clause == clause && Shaped(q) && Local(q, tags) && |cell| == |keys|
        ensures GroupedRows(q, keys, cell) == FlatCounted(q, keys, cell)
      {
        GroupedIsFlat(steps, q, tags, keys, cell);
      }
    } else {
      var q, o, cell := UnlikeFlat(steps, clause, tags, keys);
      DiffersAt(steps, q, tags, keys, cell, o);
      assert !IsFlat(q, tags, keys);
    }
  }

  // ---- one flat row ----

  lemma {:induction false} OneRowEach(db: Db, envs: seq<Env>, steps: seq<JoinStep>)
    requires BlankOn(db, StepTables(steps))
    ensures |LeftJoins(db, envs, steps)| == |envs|
    decreases |steps|
  {
    if steps != [] {
      var front, s := steps[..|steps| - 1], steps[|steps| - 1];
      BeforePush(steps);
      assert s.table in StepTables(steps);
      hide Before, LeftRows;
      OneRowEach(db, envs, front);
      forall e
        ensures |LeftRows(db, e, s)| == 1
      {
        OneLeftRow(db, e, s);
      }
      FlatLength(LeftJoins(db, envs, front), e => LeftRows(db, e, s));
    }
  }

  lemma OneLeftRow(db: Db, e: Env, s: JoinStep)
    requires RowsOf(db, s.table) == [map[]]
    ensures |LeftRows(db, e, s)| == 1
  {
    var r: DbRow := map[];
    if Link(e, s, r) {
      SelectOne(r, x => Link(e, s, x));
    } else {
      SelectNone([r], x => Link(e, s, x));
    }
  }

  lemma {:induction false} FlatLength<X, Y>(xs: seq<X>, f: X -> seq<Y>)
    requires forall x :: |f(x)| == 1
    ensures |Flat(xs, f)| == |xs|
  {
    if xs != [] {
      FlatLength(xs[..|xs| - 1], f);
    }
  }

  lemma OneFlatRowOnly(q: Query)
    requires BlankOn(q.db, FlatTables(q.clause))
    ensures |FlatRows(q)| == 1
  {
    hide Before, LeftJoins;
    assert RowsOf(q.db, q.clause.root) == [map[]];
    OneRowEach(q.db, WithRows(map[], q.clause.root, RowsOf(q.db, q.clause.root)), q.clause.split.flat);
  }

  // ---- two queries where it fails ----

  /** Grouping a fact by a column of a dimension beyond a bidirectional link, and filtering that same
    * column. */
  ghost function FilteredKey(): Query {
    var k := ContextCte.GroupKey(2, 1);
    var chain := Chain(JoinStep(1, 2, 0, 0, true), []);
    var fact, dim: DbRow := map[0 := Val(5)], map[0 := Val(5), 1 := Val(7)];
    Query(map[1 := [fact], 2 := [dim]],
      Clause(1, Split([], [chain], []), [[0]], [], [], [[k]], map[k := KeyRef(0, 0)]),
      [(env: Env) => ColOf(env, 2, 1) == Val(8)])
  }

  lemma FilteredKeyIsEmitted()
    ensures Emittable([JoinStep(1, 2, 0, 0, true)], FilteredKey().clause, [Some(2)], [ContextCte.GroupKey(2, 1)])
  {
    hide IsTree, Splits, Places, Projects;
    var step := JoinStep(1, 2, 0, 0, true);
    OneStepTree(1, step);
    NoSteps(2);
    OneChainSplits(1, Chain(step, []));
    assert Chain(step, []).Steps() == [step];
    FilteredKeyPlaces();
    FilteredKeyProjects();
  }

  lemma FilteredKeyPlaces()
    ensures Places(FilteredKey().clause, [Some(2)])
  {
    OneTableChain(FilteredKey().clause.split.groupChains[0]);
    hide Chain.Has;
    assert SomeHas(FilteredKey().clause.split.groupChains, 2);
  }

  lemma FilteredKeyProjects()
    ensures Projects(FilteredKey().clause, [ContextCte.GroupKey(2, 1)])
  {
    OneTableChain(FilteredKey().clause.split.groupChains[0]);
    hide Chain.Has;
    assert SomeHas(FilteredKey().clause.split.groupChains, 2);
  }

  lemma OneTableChain(c: Chain)
    requires c.steps == []
    ensures forall t :: c.Has(t) <==> t == c.anchor.table
  {
  }

  lemma FilteredKeyIsLocal()
    ensures Local(FilteredKey(), [Some(2)])
  {
    assert forall e, f: Env :: SameAt(e, f, 2) ==> ColOf(e, 2, 1) == ColOf(f, 2, 1);
  }

  lemma OneChainSplits(root: Table, c: Chain)
    requires IsTree(c.anchor.table, c.steps) && c.anchor.fromTable == root
    ensures Splits(root, c.Steps(), Split([], [c], []))
  {
    hide IsTree, Chain.Steps;
    assert ChainSteps([c]) == multiset(c.Steps()) by {
      assert [c][..0] == [];
    }
    NoSteps(root);
  }

  lemma NullKeyReached(o: Env)
    requires o == map[1 := Some(map[0 := Val(5)])]
    ensures InCell(FilteredKey(), [ContextCte.GroupKey(2, 1)], o, [Null])
  {
    var q, keys := FilteredKey(), [ContextCte.GroupKey(2, 1)];
    var dim: DbRow := map[0 := Val(5), 1 := Val(7)];
    var starts := WithRows(map[], 2, RowsOf(q.db, 2));
    assert starts == [map[][2 := Some(dim)]];
    assert q.preds[0](starts[0]) == false;
    SelectNone(starts, CondOf(q, [0]));
    assert ChainRowsOf(q, 0) == [];
    assert TupleOf(q, keys, [Null], 0) == Nulls(1);
  }

  lemma NeverEight(o: Env)
    ensures forall env :: env in Widened(FilteredKey(), 1, o) ==> !Holds(FilteredKey(), env)
  {
    var q := FilteredKey();
    var step := JoinStep(1, 2, 0, 0, true);
    forall env | env in Widened(q, 1, o)
      ensures !Holds(q, env)
    {
      assert q.clause.split.groupChains[0].Steps() == [step] && [step][..0] == [];
      assert Widened(q, 1, o) == LeftJoins(q.db, [o], [step]);
      assert LeftJoins(q.db, [o], []) == [o];
      FlatMember([o], e => LeftRows(q.db, e, step), env);
      SelectMember(RowsOf(q.db, 2), r => Link(o, step, r));
      if Matches(q.db, o, step) != [] {
        WithRowsMember(o, 2, Matches(q.db, o, step), env);
      }
      assert ColOf(env, 2, 1) != Val(8);
      assert q.clause.groupPreds[0] == [0] && !q.preds[0](env);
      assert 0 in q.clause.groupPreds[0];
    }
  }

  /** The fact's only dimension row fails the filter: the fact still counts, under NULL. */
  lemma FilteredFactStillCounts()
    ensures var q, keys := FilteredKey(), [ContextCte.GroupKey(2, 1)];
      && Shaped(q) && |FlatRows(q)| == 1 && GroupedRows(q, keys, [Null]) == FlatRows(q)
      && forall cell :: |cell| == 1 ==> FlatCounted(q, keys, cell) == []
  {
    hide FlatRows, GroupedRows, FlatCounted;
    OneFlatRow();
    CountsUnderNull();
    forall cell | |cell| == 1
      ensures FlatCounted(FilteredKey(), [ContextCte.GroupKey(2, 1)], cell) == []
    {
      NothingFlat(cell);
    }
  }

  lemma CountsUnderNull()
    ensures GroupedRows(FilteredKey(), [ContextCte.GroupKey(2, 1)], [Null]) == FlatRows(FilteredKey())
  {
    hide FlatRows, IsTree, Splits, Places, Projects, InCell, GroupedRows;
    var q, keys := FilteredKey(), [ContextCte.GroupKey(2, 1)];
    var o: Env := map[1 := Some(map[0 := Val(5)])];
    OneFlatRow();
    FilteredKeyIsEmitted();
    NullKeyReached(o);
    assert Emittable([JoinStep(1, 2, 0, 0, true)], q.clause, [Some(2)], keys);
    EmittedClauseCounts([JoinStep(1, 2, 0, 0, true)], q, [Some(2)], keys, [Null]);
    SelectOne(o, o => InCell(q, keys, o, [Null]));
  }

  lemma NothingFlat(cell: seq<Value>)
    requires |cell| == 1
    ensures FlatCounted(FilteredKey(), [ContextCte.GroupKey(2, 1)], cell) == []
  {
    hide FlatRows, FlatCounts;
    var q, keys := FilteredKey(), [ContextCte.GroupKey(2, 1)];
    var o: Env := map[1 := Some(map[0 := Val(5)])];
    OneFlatRow();
    NeverCounts(o, cell);
    SelectNone([o], o => FlatCounts(q, keys, o, cell));
  }

  lemma OneFlatRow()
    ensures FlatRows(FilteredKey()) == [map[1 := Some(map[0 := Val(5)])]]
  {
    var q := FilteredKey();
    var fact: DbRow := map[0 := Val(5)];
    assert RowsOf(q.db, 1) == [fact];
    assert WithRows(map[], 1, [fact]) == [map[][1 := Some(fact)]];
  }

  lemma NeverCounts(o: Env, cell: seq<Value>)
    ensures !FlatCounts(FilteredKey(), [ContextCte.GroupKey(2, 1)], o, cell)
  {
    hide Holds, Widened;
    NeverEight(o);
  }

  /** Grouping a fact by a column two links beyond it: a fact without a bridge row still finds the
    * dimension rows whose link is NULL when the joins are flat, and never when they are carved. */
  ghost function FarKey(): Clause {
    var k := ContextCte.GroupKey(3, 1);
    var chain := Chain(JoinStep(1, 2, 0, 0, true), [JoinStep(2, 3, 1, 0, false)]);
    Clause(1, Split([], [chain], []), [[]], [], [], [[k]], map[k := KeyRef(0, 0)])
  }

  lemma OneStepTree(root: Table, s: JoinStep)
    requires s.fromTable == root && s.table != root
    ensures IsTree(root, [s])
  {
  }

  lemma TwoStepTree(root: Table, s: JoinStep, t: JoinStep)
    requires s.fromTable == root && t.fromTable == s.table && root != s.table && t.table != s.table && t.table != root
    ensures IsTree(root, [s, t]) && IsTree(s.table, [t])
  {
    var steps := [s, t];
    assert steps[..1][0].table == s.table;
  }

  lemma FarKeySplits()
    ensures IsTree(1, [JoinStep(1, 2, 0, 0, true), JoinStep(2, 3, 1, 0, false)])
    ensures Splits(1, [JoinStep(1, 2, 0, 0, true), JoinStep(2, 3, 1, 0, false)], FarKey().split)
  {
    var bridge, far := JoinStep(1, 2, 0, 0, true), JoinStep(2, 3, 1, 0, false);
    TwoStepTree(1, bridge, far);
    hide IsTree;
    OneChainSplits(1, Chain(bridge, [far]));
    assert Chain(bridge, [far]).Steps() == [bridge, far];
  }

  lemma FarKeyProjects()
    ensures Projects(FarKey(), [ContextCte.GroupKey(3, 1)]) && Places(FarKey(), [])
  {
    var chain := FarKey().split.groupChains[0];
    assert chain.Has(3) && forall t :: chain.Has(t) ==> t == 2 || t == 3 by {
      assert chain.steps[0].table == 3;
    }
    hide Chain.Has;
    assert SomeHas(FarKey().split.groupChains, 3);
  }

  lemma NullLinkIsNotFollowed()
    ensures Emittable([JoinStep(1, 2, 0, 0, true), JoinStep(2, 3, 1, 0, false)], FarKey(), [], [ContextCte.GroupKey(3, 1)])
    ensures !AlwaysFlat(FarKey(), [], [ContextCte.GroupKey(3, 1)])
  {
    var steps, k := [JoinStep(1, 2, 0, 0, true), JoinStep(2, 3, 1, 0, false)], ContextCte.GroupKey(3, 1);
    FarKeySplits();
    FarKeyProjects();
    hide IsTree, Splits, Places, Projects;
    var q, o, cell := UnpinnedDiffers(steps, FarKey(), [], [k], 0, k);
    DiffersAt(steps, q, [], [k], cell, o);
    assert !IsFlat(q, [], [k]);
  }
}
