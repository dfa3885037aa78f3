/** A cell's own value rows at any level of a rollup: where the dropped keys are determined, the level's
  * group shows each of them once. */
module LevelRows {
  import opened Relationships
  import opened Relational
  import opened JoinPath
  import opened ClusterFrom
  import opened ChainRows
  import opened FlatJoins
  import opened Subtotals
  import opened ValueRows
  import Summarize

  /** What the emitted clause and the data have to satisfy for the keys `some` of a level. */
  ghost predicate LevelFits(steps: seq<JoinStep>, rels: seq<Relationship>, q: Query, tags: seq<Option<Table>>, keys: seq<GroupKey>, some: seq<GroupKey>) {
    && Emittable(steps, q.clause, tags, keys) && Shaped(q) && Local(q, tags) && Lawful(rels, q.db) && KeysOnly(q.clause)
    && Among(some, keys) && Settled(q.clause, some)
  }

  /** A flat row counts in one of a subtotal's cells when the flat joins and filters lead from it to the
    * subtotal's values. */
  lemma SubtotalIsFlat(steps: seq<JoinStep>, q: Query, tags: seq<Option<Table>>, keys: seq<GroupKey>, some: seq<GroupKey>, vals: seq<Value>, o: Env)
    requires Emittable(steps, q.clause, tags, keys) && Shaped(q) && Local(q, tags) && KeysOnly(q.clause) && Among(some, keys)
    requires |vals| == |some| && o in FlatRows(q)
    ensures InSubtotal(q, keys, some, vals, o) <==> FlatCounts(q, some, o, vals)
  {
    hide Emittable, FlatRows, InCell, HasCombination, Holds, Widened, TupleIn, Local, KeysOnly;
    var n := |q.clause.split.groupChains|;
    if cell :| |cell| == |keys| && InCell(q, keys, o, cell) && Agrees(keys, cell, some, vals) {
      CountsTheSame(steps, q, tags, keys, cell, o);
      var env :| env in Widened(q, n, o) && Holds(q, env) && TupleIn(keys, env) == cell;
      AgreeingTuple(keys, some, env, vals);
    }
    if FlatCounts(q, some, o, vals) {
      var env :| env in Widened(q, n, o) && Holds(q, env) && TupleIn(some, env) == vals;
      var cell := TupleIn(keys, env);
      assert |cell| == |keys| by { TupleLength(keys, env); }
      CountsTheSame(steps, q, tags, keys, cell, o);
      TupleAgrees(keys, some, env);
    }
  }

  lemma TupleLength(keys: seq<GroupKey>, env: Env)
    ensures |TupleIn(keys, env)| == |keys|
  {
  }

  lemma AgreeingTuple(keys: seq<GroupKey>, some: seq<GroupKey>, env: Env, vals: seq<Value>)
    requires Among(some, keys) && |TupleIn(keys, env)| == |keys| && |vals| == |some| && Agrees(keys, TupleIn(keys, env), some, vals)
    ensures TupleIn(some, env) == vals
  {
    forall j | 0 <= j < |some|
      ensures TupleIn(some, env)[j] == vals[j]
    {
      assert some[j] in keys;
      var i :| 0 <= i < |keys| && keys[i] == some[j];
    }
  }

  lemma TupleAgrees(keys: seq<GroupKey>, some: seq<GroupKey>, env: Env)
    requires |TupleIn(keys, env)| == |keys| && |TupleIn(some, env)| == |some|
    ensures Agrees(keys, TupleIn(keys, env), some, TupleIn(some, env))
  {
  }

  /** A level's group is the flat rows that count there, each once. */
  lemma LevelGroup(steps: seq<JoinStep>, rels: seq<Relationship>, q: Query, tags: seq<Option<Table>>, keys: seq<GroupKey>, some: seq<GroupKey>, vals: seq<Value>)
    requires LevelFits(steps, rels, q, tags, keys, some) && |vals| == |some|
    ensures GroupedRows(q, some, vals) == FlatCounted(q, some, vals)
  {
    hide Emittable, Shaped, FlatRows, FlatCounts, InSubtotal, GroupedRows, Local, KeysOnly, Lawful, Settled;
    SettledCountsOnce(steps, q, tags, keys, some, vals);
    forall o | o in FlatRows(q)
      ensures InSubtotal(q, keys, some, vals, o) <==> FlatCounts(q, some, o, vals)
    {
      SubtotalIsFlat(steps, q, tags, keys, some, vals, o);
    }
    SelectSame(FlatRows(q), o => InSubtotal(q, keys, some, vals, o), o => FlatCounts(q, some, o, vals));
  }

  lemma LevelMembers(steps: seq<JoinStep>, rels: seq<Relationship>, q: Query, tags: seq<Option<Table>>, keys: seq<GroupKey>, some: seq<GroupKey>, v: Table, vals: seq<Value>)
    requires LevelFits(steps, rels, q, tags, keys, some) && |vals| == |some|
    ensures Distinct(CellRows(q, some, v, vals))
    ensures forall o :: o in CellRows(q, some, v, vals) <==> o in FlatRows(q) && FlatCounts(q, some, o, vals) && HasRow(o, v)
  {
    hide IsTree, Splits, Places, Projects, FlatRows, GroupedRows, FlatCounts, Lawful, Select, RowsWith, Settled, Local, KeysOnly;
    LevelGroup(steps, rels, q, tags, keys, some, vals);
    FlatIsTree(steps, q.clause);
    FlatRowsDistinct(rels, q);
    var p := (o: Env) => FlatCounts(q, some, o, vals);
    Summarize.SelectIsSubset(FlatRows(q), p);
    assert GroupedRows(q, some, vals) == Select(FlatRows(q), p);
    assert Distinct(Select(FlatRows(q), p));
    assert forall o :: o in Select(FlatRows(q), p) <==> o in FlatRows(q) && p(o);
    RowsWithAre(GroupedRows(q, some, vals), v);
  }

  lemma CountedReads(q: Query, some: seq<GroupKey>, o: Env, vals: seq<Value>, k: GroupKey)
    requires Shaped(q) && WellSplit(q.clause) && o.Keys == FlatTables(q.clause) && |vals| == |some| && FlatCounts(q, some, o, vals)
    requires k in some && k.table in o
    ensures forall i :: 0 <= i < |some| && some[i] == k ==> ColOf(o, k.table, k.col) == vals[i]
  {
    hide FlatTables, WellSplit, Widened, Holds, HasCombination;
    var n := |q.clause.split.groupChains|;
    var env :| env in Widened(q, n, o) && Holds(q, env) && TupleIn(some, env) == vals;
    WidenedExtends(q, n, o, env);
    forall i | 0 <= i < |some| && some[i] == k
      ensures ColOf(o, k.table, k.col) == vals[i]
    {
      assert TupleIn(some, env)[i] == vals[i];
    }
  }

  lemma LevelOnce(steps: seq<JoinStep>, rels: seq<Relationship>, q: Query, tags: seq<Option<Table>>, keys: seq<GroupKey>, some: seq<GroupKey>, v: Table,
    vals: seq<Value>, o: Env, p: Env, r: DbRow)
    requires LevelFits(steps, rels, q, tags, keys, some) && |vals| == |some| && AllFixed(rels, q.clause, some, v)
    requires o in CellRows(q, some, v, vals) && p in CellRows(q, some, v, vals) && ShowsRow(o, v, r) && ShowsRow(p, v, r)
    ensures o == p
  {
    hide IsTree, Splits, Places, Projects, FlatRows, CellRows, FlatCounts, Lawful, AllFixed, Settled, Local, KeysOnly, FlatTables, WellSplit, AllLeft;
    LevelMembers(steps, rels, q, tags, keys, some, v, vals);
    FlatIsTree(steps, q.clause);
    SplitIsWell(steps, q.clause);
    FlatRowSpans(q, o);
    FlatRowSpans(q, p);
    forall k | k in some && k.table in o
      ensures ColOf(o, k.table, k.col) == ColOf(p, k.table, k.col)
    {
      var i :| 0 <= i < |some| && some[i] == k;
      CountedReads(q, some, o, vals, k);
      CountedReads(q, some, p, vals, k);
    }
    FixedRows(rels, q, some, v, o, p);
  }

  /** Where the dropped keys are determined and every flat table's row is fixed by the value row and the
    * level's keys, the level's group shows its own value rows, each once. */
  lemma LevelRowsAreOwn(steps: seq<JoinStep>, rels: seq<Relationship>, q: Query, tags: seq<Option<Table>>, keys: seq<GroupKey>, some: seq<GroupKey>, v: Table, vals: seq<Value>)
    requires LevelFits(steps, rels, q, tags, keys, some) && |vals| == |some| && AllFixed(rels, q.clause, some, v)
    ensures multiset(CellRows(q, some, v, vals)) == multiset(OwnEnvs(q, some, v, vals))
  {
    hide LevelFits, Shaped, AllFixed, FlatRows, GroupedRows, CellRows, OwnRows, Beside, HasRow;
    LevelShaped(steps, rels, q, tags, keys, some);
    var rows, own := CellRows(q, some, v, vals), OwnRows(q, some, v, vals);
    LevelMembers(steps, rels, q, tags, keys, some, v, vals);
    OwnRowsAre(rels, q, some, v, vals);
    forall o | o in rows
      ensures RowOf(o, v) in own && Beside(q, some, v, vals, RowOf(o, v)) == o
    {
      LevelShowsOwn(steps, rels, q, tags, keys, some, v, vals, o);
    }
    forall r | r in own
      ensures Beside(q, some, v, vals, r) in rows && RowOf(Beside(q, some, v, vals, r), v) == r
    {
      BesideShows(q, some, v, vals, r);
      RowOfShown(Beside(q, some, v, vals, r), v, r);
    }
    Inverse(own, rows, r => Beside(q, some, v, vals, r), o => RowOf(o, v));
  }

  lemma LevelShaped(steps: seq<JoinStep>, rels: seq<Relationship>, q: Query, tags: seq<Option<Table>>, keys: seq<GroupKey>, some: seq<GroupKey>)
    requires LevelFits(steps, rels, q, tags, keys, some)
    ensures Shaped(q) && Lawful(rels, q.db)
  {
  }

  lemma BesideShows(q: Query, keys: seq<GroupKey>, v: Table, cell: seq<Value>, r: DbRow)
    requires Shaped(q) && Counts(q, keys, v, cell, r)
    ensures var b := Beside(q, keys, v, cell, r); b in FlatRows(q) && ShowsRow(b, v, r) && FlatCounts(q, keys, b, cell) && HasRow(b, v)
  {
    hide FlatRows, FlatCounts;
  }

  lemma LevelShowsOwn(steps: seq<JoinStep>, rels: seq<Relationship>, q: Query, tags: seq<Option<Table>>, keys: seq<GroupKey>, some: seq<GroupKey>, v: Table,
    vals: seq<Value>, o: Env)
    requires LevelFits(steps, rels, q, tags, keys, some) && |vals| == |some| && AllFixed(rels, q.clause, some, v)
    requires o in CellRows(q, some, v, vals)
    ensures RowOf(o, v) in OwnRows(q, some, v, vals) && Beside(q, some, v, vals, RowOf(o, v)) == o
  {
    hide IsTree, Splits, Places, Projects, FlatRows, CellRows, FlatCounts, Lawful, AllFixed, OwnRows, Local, KeysOnly, Settled, Beside;
    var r := RowOf(o, v);
    LevelMembers(steps, rels, q, tags, keys, some, v, vals);
    OwnRowsAre(rels, q, some, v, vals);
    FlatIsTree(steps, q.clause);
    ShownIsRow(q, v, o);
    assert ShowsRow(o, v, r) && Counts(q, some, v, vals, r);
    BesideShows(q, some, v, vals, r);
    LevelOnce(steps, rels, q, tags, keys, some, v, vals, o, Beside(q, some, v, vals, r), r);
  }
}
