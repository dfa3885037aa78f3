/** The rows a measure aggregates, told by the relationships: a cell's own rows of a value table, each
  * once.  The emitted joins may repeat them, and leave some out. */
module ValueRows {
  import opened Relationships
  import opened Relational
  import opened JoinPath
  import opened ClusterFrom
  import opened ChainRows
  import opened FlatJoins
  import Subtotals
  import Summarize

  // ---- the data ----

  /** Relationships point at keys of their one side. */
  ghost predicate IsKey(rels: seq<Relationship>, t: Table, c: Column) {
    exists r :: r in rels && r.toTable == t && r.toColumn == c
  }

  ghost predicate KeyIn(rows: seq<DbRow>, c: Column) {
    forall i, j :: 0 <= i < j < |rows| ==> Col(Some(rows[i]), c) != Col(Some(rows[j]), c)
  }

  /** Keys are unique, and rows are told apart. */
  ghost predicate Lawful(rels: seq<Relationship>, db: Db) {
    && (forall t, c :: IsKey(rels, t, c) ==> KeyIn(RowsOf(db, t), c))
    && forall t :: Distinct(RowsOf(db, t))
  }

  lemma SameByKey(rels: seq<Relationship>, db: Db, t: Table, c: Column, r: DbRow, s: DbRow)
    requires Lawful(rels, db) && IsKey(rels, t, c) && r in RowsOf(db, t) && s in RowsOf(db, t)
    requires Col(Some(r), c) == Col(Some(s), c)
    ensures r == s
  {
    var rows := RowsOf(db, t);
    assert KeyIn(rows, c);
    var i :| 0 <= i < |rows| && rows[i] == r;
    var j :| 0 <= j < |rows| && rows[j] == s;
  }

  // ---- the meaning ----

  ghost predicate ShowsRow(o: Env, v: Table, r: DbRow) {
    v in o && o[v] == Some(r)
  }

  /** A row of the value table counts in a cell when the flat joins and filters lead from it there. */
  ghost predicate Counts(q: Query, keys: seq<GroupKey>, v: Table, cell: seq<Value>, r: DbRow)
    requires Shaped(q)
  {
    exists o :: o in FlatRows(q) && ShowsRow(o, v, r) && FlatCounts(q, keys, o, cell)
  }

  ghost function OwnRows(q: Query, keys: seq<GroupKey>, v: Table, cell: seq<Value>): seq<DbRow>
    requires Shaped(q)
  {
    Select(RowsOf(q.db, v), r => Counts(q, keys, v, cell, r))
  }

  // ---- the emitted rows ----

  ghost predicate HasRow(o: Env, v: Table) {
    v in o && o[v].Some?
  }

  ghost function RowOf(o: Env, v: Table): DbRow {
    if HasRow(o, v) then o[v].value else map[]
  }

  ghost function RowsWith(rows: seq<Env>, v: Table): seq<Env> {
    Select(rows, o => HasRow(o, v))
  }

  /** The value rows among joined rows. */
  ghost function ShownRows(rows: seq<Env>, v: Table): seq<DbRow> {
    Images(RowsWith(rows, v), o => RowOf(o, v))
  }

  // ---- when nothing is repeated ----

  /** A flat table's row is fixed by the value row and the cell: it is entered through a key, or one of
    * its keys is grouped by, or the value table hangs off a key of it. */
  ghost predicate Fixed(rels: seq<Relationship>, clause: Clause, keys: seq<GroupKey>, v: Table, t: Table) {
    || (exists s :: s in clause.split.flat && s.table == t && IsKey(rels, t, s.onToCol))
    || (exists k :: k in keys && k.table == t && IsKey(rels, t, k.col))
    || (exists s :: s in clause.split.flat && s.table == v && s.fromTable == t && IsKey(rels, t, s.onFromCol))
  }

  ghost predicate AllFixed(rels: seq<Relationship>, clause: Clause, keys: seq<GroupKey>, v: Table) {
    forall t :: t in FlatTables(clause) && t != v ==> Fixed(rels, clause, keys, v, t)
  }

  lemma FlatRowSpans(q: Query, o: Env)
    requires IsTree(q.clause.root, q.clause.split.flat) && o in FlatRows(q)
    ensures AllLeft(q.db, o, q.clause.split.flat) && o.Keys == FlatTables(q.clause)
    ensures HasRow(o, q.clause.root) && o[q.clause.root].value in RowsOf(q.db, q.clause.root)
  {
    hide IsTree, InScope, AllLeft, LeftJoins, Before;
    var root, rows, flat := q.clause.root, RowsOf(q.db, q.clause.root), q.clause.split.flat;
    var starts := WithRows(map[], root, rows);
    LeftJoinsOfEach(q.db, starts, flat, o);
    var e :| e in starts && o in LeftJoins(q.db, [e], flat);
    WithRowsMember(map[], root, rows, e);
    TreeInScope(root, flat);
    assert e.Keys == {root};
    LeftJoinsAreExact(q.db, e, flat, o);
  }

  lemma SpanIsFlatRow(q: Query, r: DbRow, o: Env)
    requires r in RowsOf(q.db, q.clause.root) && o in LeftJoins(q.db, [map[q.clause.root := Some(r)]], q.clause.split.flat)
    ensures o in FlatRows(q)
  {
    hide LeftJoins;
    var root, rows := q.clause.root, RowsOf(q.db, q.clause.root);
    WithRowsMember(map[], root, rows, map[][root := Some(r)]);
    assert map[][root := Some(r)] == map[root := Some(r)];
    LeftJoinsOfEach(q.db, WithRows(map[], root, rows), q.clause.split.flat, o);
  }

  /** Two flat rows of one cell with the same value row are the same. */
  ghost predicate SameCell(keys: seq<GroupKey>, v: Table, o: Env, p: Env) {
    && HasRow(o, v) && HasRow(p, v) && o[v] == p[v]
    && forall k :: k in keys && k.table in o ==> ColOf(o, k.table, k.col) == ColOf(p, k.table, k.col)
  }

  lemma FixedSame(rels: seq<Relationship>, q: Query, keys: seq<GroupKey>, v: Table, o: Env, p: Env, t: Table)
    requires Lawful(rels, q.db) && IsTree(q.clause.root, q.clause.split.flat) && SameCell(keys, v, o, p)
    requires AllLeft(q.db, o, q.clause.split.flat) && AllLeft(q.db, p, q.clause.split.flat)
    requires Fixed(rels, q.clause, keys, v, t) && t != v && HasRow(o, t) && HasRow(p, t)
    requires o[t].value in RowsOf(q.db, t) && p[t].value in RowsOf(q.db, t)
    requires forall s :: s in q.clause.split.flat && s.table == t ==> s.fromTable in o && s.fromTable in p && o[s.fromTable] == p[s.fromTable]
    ensures o[t] == p[t]
  {
    hide Lawful, IsTree, IsKey;
    var flat := q.clause.split.flat;
    if s :| s in flat && s.table == t && IsKey(rels, t, s.onToCol) {
      StepJoined(q.db, flat, o, s);
      StepJoined(q.db, flat, p, s);
      SameByKey(rels, q.db, t, s.onToCol, o[t].value, p[t].value);
    } else if k :| k in keys && k.table == t && IsKey(rels, t, k.col) {
      SameByKey(rels, q.db, t, k.col, o[t].value, p[t].value);
    } else {
      var s :| s in flat && s.table == v && s.fromTable == t && IsKey(rels, t, s.onFromCol);
      StepJoined(q.db, flat, o, s);
      StepJoined(q.db, flat, p, s);
      SameByKey(rels, q.db, t, s.onFromCol, o[t].value, p[t].value);
    }
  }

  lemma StepJoined(db: Db, steps: seq<JoinStep>, o: Env, s: JoinStep)
    requires AllLeft(db, o, steps) && s in steps
    ensures LeftJoined(db, o, s) && (HasRow(o, s.table) ==> Joined(db, o, s))
  {
  }

  lemma {:induction false} FixedSoFar(rels: seq<Relationship>, q: Query, keys: seq<GroupKey>, v: Table, o: Env, p: Env, n: nat)
    requires Lawful(rels, q.db) && IsTree(q.clause.root, q.clause.split.flat) && AllFixed(rels, q.clause, keys, v)
    requires o in FlatRows(q) && p in FlatRows(q) && SameCell(keys, v, o, p) && n <= |q.clause.split.flat|
    ensures SameSoFar(q.clause, o, p, n)
  {
    hide Lawful, AllFixed, FlatRows, SameCell, IsTree, FlatTables;
    if n == 0 {
      FixedRoot(rels, q, keys, v, o, p);
    } else {
      FixedSoFar(rels, q, keys, v, o, p, n - 1);
      FixedNext(rels, q, keys, v, o, p, n - 1);
    }
  }

  /** The rows agree on the root and on the tables of the first `n` flat steps. */
  ghost predicate SameSoFar(clause: Clause, o: Env, p: Env, n: nat)
    requires n <= |clause.split.flat|
  {
    && o.Keys == p.Keys == FlatTables(clause) && clause.root in o && o[clause.root] == p[clause.root]
    && forall i :: 0 <= i < n ==> var t := clause.split.flat[i].table; t in o && t in p && o[t] == p[t]
  }

  lemma FixedRoot(rels: seq<Relationship>, q: Query, keys: seq<GroupKey>, v: Table, o: Env, p: Env)
    requires Lawful(rels, q.db) && IsTree(q.clause.root, q.clause.split.flat) && AllFixed(rels, q.clause, keys, v)
    requires o in FlatRows(q) && p in FlatRows(q) && SameCell(keys, v, o, p)
    ensures SameSoFar(q.clause, o, p, 0)
  {
    hide Lawful, AllFixed, FlatRows, AllLeft, SameCell, Fixed, IsTree;
    var root, flat := q.clause.root, q.clause.split.flat;
    FlatRowSpans(q, o);
    FlatRowSpans(q, p);
    if root != v {
      FixedAt(rels, q.clause, keys, v, root);
      RootIsNoStep(root, flat);
      FixedSame(rels, q, keys, v, o, p, root);
    } else {
      ValueSame(keys, v, o, p);
    }
  }

  lemma RootIsNoStep(root: Table, steps: seq<JoinStep>)
    requires IsTree(root, steps)
    ensures forall s :: s in steps ==> s.table != root
  {
    hide Entered;
  }

  lemma FixedNext(rels: seq<Relationship>, q: Query, keys: seq<GroupKey>, v: Table, o: Env, p: Env, n: nat)
    requires Lawful(rels, q.db) && IsTree(q.clause.root, q.clause.split.flat) && AllFixed(rels, q.clause, keys, v)
    requires o in FlatRows(q) && p in FlatRows(q) && SameCell(keys, v, o, p) && n < |q.clause.split.flat| && SameSoFar(q.clause, o, p, n)
    ensures SameSoFar(q.clause, o, p, n + 1)
  {
    hide Lawful, AllFixed, FlatRows, AllLeft, SameCell, Fixed, IsTree, FlatTables;
    var root, flat := q.clause.root, q.clause.split.flat;
    var s := flat[n];
    FlatRowSpans(q, o);
    FlatRowSpans(q, p);
    InFlat(q.clause, n);
    if s.table == v {
      ValueSame(keys, v, o, p);
    } else {
      FromSoFar(q.clause, o, p, n);
      StepJoined(q.db, flat, o, s);
      StepJoined(q.db, flat, p, s);
      SameMatched(q.db, s, o, p);
      if HasRow(o, s.table) {
        FixedAt(rels, q.clause, keys, v, s.table);
        OnlyStep(root, flat, n);
        FixedSame(rels, q, keys, v, o, p, s.table);
      }
    }
  }

  lemma ValueSame(keys: seq<GroupKey>, v: Table, o: Env, p: Env)
    requires SameCell(keys, v, o, p)
    ensures v in o && v in p && o[v] == p[v]
  {
  }

  lemma FixedAt(rels: seq<Relationship>, clause: Clause, keys: seq<GroupKey>, v: Table, t: Table)
    requires AllFixed(rels, clause, keys, v) && t in FlatTables(clause) && t != v
    ensures Fixed(rels, clause, keys, v, t)
  {
  }

  lemma InFlat(clause: Clause, n: nat)
    requires n < |clause.split.flat|
    ensures clause.split.flat[n].table in FlatTables(clause)
  {
  }

  lemma OnlyStep(root: Table, steps: seq<JoinStep>, n: nat)
    requires IsTree(root, steps) && n < |steps|
    ensures forall s :: s in steps && s.table == steps[n].table ==> s == steps[n]
    ensures steps[n].table != root
  {
    hide Entered;
  }

  lemma FromSoFar(clause: Clause, o: Env, p: Env, n: nat)
    requires IsTree(clause.root, clause.split.flat) && n < |clause.split.flat|
    requires clause.root in o && clause.root in p && o[clause.root] == p[clause.root]
    requires forall i :: 0 <= i < n ==> var t := clause.split.flat[i].table; t in o && t in p && o[t] == p[t]
    ensures var f := clause.split.flat[n].fromTable; f in o && f in p && o[f] == p[f]
  {
    var flat := clause.split.flat;
    assert Entered(clause.root, flat[..n], flat[n].fromTable);
    if flat[n].fromTable != clause.root {
      var i :| 0 <= i < n && flat[..n][i].table == flat[n].fromTable;
      assert flat[i].table == flat[n].fromTable;
    }
  }

  lemma SameMatched(db: Db, s: JoinStep, o: Env, p: Env)
    requires LeftJoined(db, o, s) && LeftJoined(db, p, s) && s.fromTable in o && s.fromTable in p && o[s.fromTable] == p[s.fromTable]
    ensures HasRow(o, s.table) <==> HasRow(p, s.table)
  {
    assert forall r :: r in RowsOf(db, s.table) ==> (Link(o, s, r) <==> Link(p, s, r));
  }

  lemma FixedRows(rels: seq<Relationship>, q: Query, keys: seq<GroupKey>, v: Table, o: Env, p: Env)
    requires Lawful(rels, q.db) && IsTree(q.clause.root, q.clause.split.flat) && AllFixed(rels, q.clause, keys, v)
    requires o in FlatRows(q) && p in FlatRows(q) && SameCell(keys, v, o, p)
    ensures o == p
  {
    hide Lawful, AllFixed, FlatRows, SameCell, IsTree;
    FixedSoFar(rels, q, keys, v, o, p, |q.clause.split.flat|);
    forall t | t in o
      ensures o[t] == p[t]
    {
      EnteredIsBefore(q.clause.root, q.clause.split.flat, t);
    }
  }

  // ---- joined rows are told apart ----

  lemma LeftRowsDistinct(db: Db, e: Env, s: JoinStep)
    requires Distinct(RowsOf(db, s.table))
    ensures Distinct(LeftRows(db, e, s))
  {
    var rows := Matches(db, e, s);
    Summarize.SelectIsSubset(RowsOf(db, s.table), r => Link(e, s, r));
    forall i, j | 0 <= i < j < |rows|
      ensures e[s.table := Some(rows[i])] != e[s.table := Some(rows[j])]
    {
      assert e[s.table := Some(rows[i])][s.table] == Some(rows[i]) && e[s.table := Some(rows[j])][s.table] == Some(rows[j]);
    }
  }

  lemma LeftRowsBack(db: Db, e: Env, s: JoinStep, back: Env -> Env)
    requires s.table !in e && forall env :: back(env) == env - {s.table}
    ensures Subtotals.AllBack(LeftRows(db, e, s), back, e)
  {
    forall env | env in LeftRows(db, e, s)
      ensures back(env) == e
    {
      if Matches(db, e, s) == [] {
        assert env == e[s.table := None];
      } else {
        WithRowsMember(e, s.table, Matches(db, e, s), env);
      }
    }
  }

  lemma {:induction false} LeftJoinsDistinct(db: Db, envs: seq<Env>, start: set<Table>, steps: seq<JoinStep>)
    requires Distinct(envs) && (forall e :: e in envs ==> e.Keys == start) && InScope(start, steps)
    requires forall t :: Distinct(RowsOf(db, t))
    ensures Distinct(LeftJoins(db, envs, steps))
    decreases |steps|
  {
    if steps != [] {
      var front, s := steps[..|steps| - 1], steps[|steps| - 1];
      FrontInScope(start, steps);
      hide InScope, Before, LeftRows, Distinct;
      LeftJoinsDistinct(db, envs, start, front);
      var joins, f, back := LeftJoins(db, envs, front), (e: Env) => LeftRows(db, e, s), (env: Env) => env - {s.table};
      forall e | e in joins
        ensures Distinct(f(e)) && Subtotals.AllBack(f(e), back, e)
      {
        LeftJoinsKeys(db, envs, start, front, e);
        LeftRowsDistinct(db, e, s);
        LeftRowsBack(db, e, s, back);
      }
      Subtotals.FlatDistinct(joins, f, back);
      FlatSame(joins, f, e => LeftRows(db, e, s));
    }
  }

  lemma FlatRowsDistinct(rels: seq<Relationship>, q: Query)
    requires Lawful(rels, q.db) && IsTree(q.clause.root, q.clause.split.flat)
    ensures Distinct(FlatRows(q))
  {
    var root, rows := q.clause.root, RowsOf(q.db, q.clause.root);
    var starts := WithRows(map[], root, rows);
    forall i, j | 0 <= i < j < |rows|
      ensures starts[i] != starts[j]
    {
      assert starts[i][root] == Some(rows[i]) && starts[j][root] == Some(rows[j]);
    }
    forall e | e in starts
      ensures e.Keys == {root}
    {
      WithRowsMember(map[], root, rows, e);
    }
    TreeInScope(root, q.clause.split.flat);
    LeftJoinsDistinct(q.db, starts, {root}, q.clause.split.flat);
  }

  /** Sequences without repetition and with the same members are equal as bags. */
  lemma SameBag<T>(a: seq<T>, b: seq<T>)
    requires Distinct(a) && Distinct(b) && forall x :: x in a <==> x in b
    ensures multiset(a) == multiset(b)
  {
    forall x
      ensures multiset(a)[x] == multiset(b)[x]
    {
      CountDistinct(a, x);
      CountDistinct(b, x);
    }
  }

  lemma {:induction false} CountDistinct<T>(a: seq<T>, x: T)
    requires Distinct(a)
    ensures multiset(a)[x] == if x in a then 1 else 0
  {
    if a != [] {
      var front, last := a[..|a| - 1], a[|a| - 1];
      assert a == front + [last];
      CountDistinct(front, x);
    }
  }

  // ---- one cell ----

  lemma FlatIsTree(steps: seq<JoinStep>, clause: Clause)
    requires Splits(clause.root, steps, clause.split)
    ensures IsTree(clause.root, clause.split.flat)
  {
    hide IsTree;
  }

  /** Rows of one cell agree on its flat keys. */
  lemma InOneCell(steps: seq<JoinStep>, q: Query, tags: seq<Option<Table>>, keys: seq<GroupKey>, v: Table, cell: seq<Value>, o: Env, p: Env)
    requires Emittable(steps, q.clause, tags, keys) && Shaped(q) && |cell| == |keys| && HasRow(o, v) && HasRow(p, v) && o[v] == p[v]
    requires o.Keys == FlatTables(q.clause) && InCell(q, keys, o, cell) && InCell(q, keys, p, cell)
    ensures SameCell(keys, v, o, p)
  {
    hide IsTree, Splits, Where, Reaches, Places, Projects, FlatTables, Chain.Has;
    forall k | k in keys && k.table in o
      ensures ColOf(o, k.table, k.col) == ColOf(p, k.table, k.col)
    {
      var i :| 0 <= i < |keys| && keys[i] == k;
      FlatKeyIsPlain(steps, q.clause, tags, keys, k);
    }
  }

  lemma FlatKeyIsPlain(steps: seq<JoinStep>, clause: Clause, tags: seq<Option<Table>>, keys: seq<GroupKey>, k: GroupKey)
    requires Emittable(steps, clause, tags, keys) && k.table in FlatTables(clause)
    ensures k !in clause.refs
  {
    hide IsTree, Splits, Places, Chain.Has, Before;
    if k in clause.refs {
      OneScope(clause.root, steps, clause.split, k.table);
      EnteredIsBefore(clause.root, clause.split.flat, k.table);
    }
  }

  ghost function CellRows(q: Query, keys: seq<GroupKey>, v: Table, cell: seq<Value>): seq<Env>
    requires Shaped(q)
  {
    RowsWith(GroupedRows(q, keys, cell), v)
  }

  lemma CellRowsAre(steps: seq<JoinStep>, rels: seq<Relationship>, q: Query, tags: seq<Option<Table>>, keys: seq<GroupKey>, v: Table, cell: seq<Value>)
    requires Emittable(steps, q.clause, tags, keys) && Shaped(q) && |cell| == |keys| && Lawful(rels, q.db)
    ensures Distinct(CellRows(q, keys, v, cell))
    ensures forall o :: o in CellRows(q, keys, v, cell) <==> o in FlatRows(q) && InCell(q, keys, o, cell) && HasRow(o, v)
  {
    hide IsTree, Splits, Places, Projects, FlatRows, GroupedRows, InCell, Lawful, Select, RowsWith;
    EmittedClauseCounts(steps, q, tags, keys, cell);
    FlatIsTree(steps, q.clause);
    FlatRowsDistinct(rels, q);
    var p := (o: Env) => InCell(q, keys, o, cell);
    Summarize.SelectIsSubset(FlatRows(q), p);
    assert GroupedRows(q, keys, cell) == Select(FlatRows(q), p);
    assert Distinct(Select(FlatRows(q), p));
    assert forall o :: o in Select(FlatRows(q), p) <==> o in FlatRows(q) && p(o);
    RowsWithAre(GroupedRows(q, keys, cell), v);
  }

  lemma RowsWithAre(rows: seq<Env>, v: Table)
    requires Distinct(rows)
    ensures Distinct(RowsWith(rows, v)) && forall o :: o in RowsWith(rows, v) <==> o in rows && HasRow(o, v)
  {
    var p := (o: Env) => HasRow(o, v);
    Summarize.SelectIsSubset(rows, p);
    assert RowsWith(rows, v) == Select(rows, p);
    assert Distinct(Select(rows, p));
    assert Distinct(RowsWith(rows, v));
    assert forall o :: o in Select(rows, p) <==> o in rows && p(o);
  }

  /** In a cell each value row is shown by one joined row at most. */
  lemma RowShownOnce(steps: seq<JoinStep>, rels: seq<Relationship>, q: Query, tags: seq<Option<Table>>, keys: seq<GroupKey>, v: Table, cell: seq<Value>, o: Env, p: Env, r: DbRow)
    requires Emittable(steps, q.clause, tags, keys) && Shaped(q) && |cell| == |keys| && Lawful(rels, q.db) && AllFixed(rels, q.clause, keys, v)
    requires o in CellRows(q, keys, v, cell) && p in CellRows(q, keys, v, cell) && ShowsRow(o, v, r) && ShowsRow(p, v, r)
    ensures o == p
  {
    hide IsTree, Splits, Places, Projects, FlatRows, CellRows, InCell, Lawful, AllFixed, SameCell;
    CellRowsAre(steps, rels, q, tags, keys, v, cell);
    FlatIsTree(steps, q.clause);
    FlatRowSpans(q, o);
    InOneCell(steps, q, tags, keys, v, cell, o, p);
    FixedRows(rels, q, keys, v, o, p);
  }

  // ---- the cell's own rows ----

  /** Some joined row of the cell that shows the value row. */
  ghost function Beside(q: Query, keys: seq<GroupKey>, v: Table, cell: seq<Value>, r: DbRow): Env
    requires Shaped(q)
  {
    if Counts(q, keys, v, cell, r) then
      var o :| o in FlatRows(q) && ShowsRow(o, v, r) && FlatCounts(q, keys, o, cell);
      o
    else map[]
  }

  ghost function OwnEnvs(q: Query, keys: seq<GroupKey>, v: Table, cell: seq<Value>): seq<Env>
    requires Shaped(q)
  {
    Images(OwnRows(q, keys, v, cell), r => Beside(q, keys, v, cell, r))
  }

  lemma OwnRowsAre(rels: seq<Relationship>, q: Query, keys: seq<GroupKey>, v: Table, cell: seq<Value>)
    requires Shaped(q) && Lawful(rels, q.db)
    ensures Distinct(OwnRows(q, keys, v, cell))
    ensures forall r :: r in OwnRows(q, keys, v, cell) <==> r in RowsOf(q.db, v) && Counts(q, keys, v, cell, r)
  {
    hide Counts;
    Summarize.SelectIsSubset(RowsOf(q.db, v), r => Counts(q, keys, v, cell, r));
  }

  lemma ShownIsRow(q: Query, v: Table, o: Env)
    requires IsTree(q.clause.root, q.clause.split.flat) && o in FlatRows(q) && HasRow(o, v)
    ensures RowOf(o, v) in RowsOf(q.db, v)
  {
    hide FlatRows, IsTree, AllLeft;
    FlatRowSpans(q, o);
    if v != q.clause.root {
      EnteredIsBefore(q.clause.root, q.clause.split.flat, v);
      var i :| 0 <= i < |q.clause.split.flat| && q.clause.split.flat[i].table == v;
      StepJoined(q.db, q.clause.split.flat, o, q.clause.split.flat[i]);
    }
  }

  /** The joined rows of a cell are its own value rows', one each. */
  lemma CellShowsOwn(steps: seq<JoinStep>, rels: seq<Relationship>, q: Query, tags: seq<Option<Table>>, keys: seq<GroupKey>, v: Table, cell: seq<Value>, o: Env)
    requires Emittable(steps, q.clause, tags, keys) && Shaped(q) && |cell| == |keys| && Lawful(rels, q.db) && Local(q, tags)
    requires KeysOnly(q.clause) && AllFixed(rels, q.clause, keys, v)
    ensures o in CellRows(q, keys, v, cell) ==> RowOf(o, v) in OwnRows(q, keys, v, cell) && Beside(q, keys, v, cell, RowOf(o, v)) == o
  {
    hide IsTree, Splits, Places, Projects, FlatRows, CellRows, InCell, FlatCounts, Lawful, AllFixed, OwnRows, Local, KeysOnly;
    CellRowsAre(steps, rels, q, tags, keys, v, cell);
    OwnRowsAre(rels, q, keys, v, cell);
    FlatIsTree(steps, q.clause);
    if o in CellRows(q, keys, v, cell) {
      var r := RowOf(o, v);
      ShownIsRow(q, v, o);
      CountsTheSame(steps, q, tags, keys, cell, o);
      assert ShowsRow(o, v, r) && Counts(q, keys, v, cell, r);
      var b := Beside(q, keys, v, cell, r);
      CountsTheSame(steps, q, tags, keys, cell, b);
      RowShownOnce(steps, rels, q, tags, keys, v, cell, o, b, r);
    }
  }

  lemma OwnIsInCell(steps: seq<JoinStep>, rels: seq<Relationship>, q: Query, tags: seq<Option<Table>>, keys: seq<GroupKey>, v: Table, cell: seq<Value>, r: DbRow)
    requires Emittable(steps, q.clause, tags, keys) && Shaped(q) && |cell| == |keys| && Lawful(rels, q.db) && Local(q, tags) && KeysOnly(q.clause)
    requires r in OwnRows(q, keys, v, cell)
    ensures var b := Beside(q, keys, v, cell, r); b in CellRows(q, keys, v, cell) && ShowsRow(b, v, r)
  {
    hide IsTree, Splits, Places, Projects, FlatRows, CellRows, InCell, FlatCounts, Lawful, OwnRows, Local, KeysOnly;
    CellRowsAre(steps, rels, q, tags, keys, v, cell);
    OwnRowsAre(rels, q, keys, v, cell);
    CountsTheSame(steps, q, tags, keys, cell, Beside(q, keys, v, cell, r));
  }

  /** Where the chains carry keys only and every flat table's row is fixed, a cell's joined rows show its
    * own value rows, each once. */
  lemma CellRowsAreOwn(steps: seq<JoinStep>, rels: seq<Relationship>, q: Query, tags: seq<Option<Table>>, keys: seq<GroupKey>, v: Table, cell: seq<Value>)
    requires Emittable(steps, q.clause, tags, keys) && Shaped(q) && |cell| == |keys| && Lawful(rels, q.db) && Local(q, tags)
    requires KeysOnly(q.clause) && AllFixed(rels, q.clause, keys, v)
    ensures multiset(CellRows(q, keys, v, cell)) == multiset(OwnEnvs(q, keys, v, cell))
    ensures multiset(ShownRows(GroupedRows(q, keys, cell), v)) == multiset(OwnRows(q, keys, v, cell))
  {
    hide Emittable, Shaped, Lawful, Local, KeysOnly, AllFixed, FlatRows, GroupedRows, CellRows, OwnRows, Beside, HasRow;
    var rows, own := CellRows(q, keys, v, cell), OwnRows(q, keys, v, cell);
    var shown, envs := Images(rows, o => RowOf(o, v)), OwnEnvs(q, keys, v, cell);
    CellRowsAre(steps, rels, q, tags, keys, v, cell);
    OwnRowsAre(rels, q, keys, v, cell);
    forall o | o in rows
      ensures RowOf(o, v) in own && Beside(q, keys, v, cell, RowOf(o, v)) == o
    {
      CellShowsOwn(steps, rels, q, tags, keys, v, cell, o);
    }
    forall r | r in own
      ensures Beside(q, keys, v, cell, r) in rows && RowOf(Beside(q, keys, v, cell, r), v) == r
    {
      OwnIsInCell(steps, rels, q, tags, keys, v, cell, r);
      RowOfShown(Beside(q, keys, v, cell, r), v, r);
    }
    Inverse(rows, own, o => RowOf(o, v), r => Beside(q, keys, v, cell, r));
    Inverse(own, rows, r => Beside(q, keys, v, cell, r), o => RowOf(o, v));
    ShownOfCell(q, keys, v, cell);
  }

  lemma RowOfShown(o: Env, v: Table, r: DbRow)
    requires ShowsRow(o, v, r)
    ensures RowOf(o, v) == r
  {
  }

  lemma ShownOfCell(q: Query, keys: seq<GroupKey>, v: Table, cell: seq<Value>)
    requires Shaped(q)
    ensures ShownRows(GroupedRows(q, keys, cell), v) == Images(CellRows(q, keys, v, cell), o => RowOf(o, v))
  {
  }

  /** Images under a bijection with the other sequence. */
  lemma Inverse<X, Y>(xs: seq<X>, ys: seq<Y>, f: X -> Y, g: Y -> X)
    requires Distinct(xs) && Distinct(ys)
    requires (forall x :: x in xs ==> f(x) in ys && g(f(x)) == x) && forall y :: y in ys ==> g(y) in xs && f(g(y)) == y
    ensures multiset(Images(xs, f)) == multiset(ys)
  {
    var images := Images(xs, f);
    forall i, j | 0 <= i < j < |xs|
      ensures images[i] != images[j]
    {
      assert xs[i] in xs && xs[j] in xs;
    }
    forall y
      ensures y in images <==> y in ys
    {
      if y in images {
        var i :| 0 <= i < |xs| && f(xs[i]) == y;
        assert xs[i] in xs;
      }
      if y in ys {
        var i :| 0 <= i < |xs| && xs[i] == g(y);
        assert images[i] == y;
      }
    }
    SameBag(images, ys);
  }
}
