/** What a cluster's FROM clause would mean without chains: LEFT JOINs over the whole tree, all
  * predicates above them, and each joined row counted once per combination of group values.  The
  * carved clause means the same only for some queries. */
module FlatJoins {
  import opened Relationships
  import opened Relational
  import opened JoinPath
  import opened ClusterFrom
  import opened ChainRows

  // ---- LEFT JOINs ----

  /** The table's row is linked, or the table has no linked row. */
  ghost predicate LeftJoined(db: Db, env: Env, s: JoinStep) {
    s.table in env &&
      if env[s.table].Some? then Joined(db, env, s) else forall r :: r in RowsOf(db, s.table) ==> !Link(env, s, r)
  }

  ghost predicate AllLeft(db: Db, env: Env, steps: seq<JoinStep>) {
    forall i :: 0 <= i < |steps| ==> LeftJoined(db, env, steps[i])
  }

  ghost predicate Extends(start: Env, tables: set<Table>, env: Env) {
    env.Keys == start.Keys + tables && forall t :: t in start ==> env[t] == start[t]
  }

  ghost function StepTables(steps: seq<JoinStep>): set<Table> {
    Before(steps, |steps|)
  }

  lemma LeftRowsMember(db: Db, e: Env, s: JoinStep, env: Env)
    requires s.table !in e && s.fromTable in e
    ensures env in LeftRows(db, e, s) <==> Adds(e, s.table, env) && LeftJoined(db, env, s)
  {
    var rows := Matches(db, e, s);
    JoinedOneRow(db, e, s, env);
    SelectMember(RowsOf(db, s.table), r => Link(e, s, r));
    if rows == [] {
      assert forall r :: r in RowsOf(db, s.table) ==> r !in rows;
      if Adds(e, s.table, env) && LeftJoined(db, env, s) {
        assert env == e[s.table := None];
      }
    } else {
      assert rows[0] in rows;
    }
  }

  lemma AllLeftSame(db: Db, e: Env, f: Env, tables: set<Table>, steps: seq<JoinStep>)
    requires AllIn(tables, steps) && forall t :: t in tables ==> t in e && t in f && e[t] == f[t]
    ensures AllLeft(db, e, steps) <==> AllLeft(db, f, steps)
  {
  }

  lemma AllLeftPush(db: Db, env: Env, steps: seq<JoinStep>)
    requires steps != []
    ensures AllLeft(db, env, steps) <==> AllLeft(db, env, steps[..|steps| - 1]) && LeftJoined(db, env, steps[|steps| - 1])
  {
  }

  ghost predicate LeftSpans(db: Db, start: Env, steps: seq<JoinStep>, env: Env) {
    Extends(start, StepTables(steps), env) && AllLeft(db, env, steps)
  }

  /** LEFT JOINs return exactly the environments in which every step is joined as far as it can be. */
  lemma {:induction false} LeftJoinsAreExact(db: Db, start: Env, steps: seq<JoinStep>, env: Env)
    requires InScope(start.Keys, steps)
    ensures env in LeftJoins(db, [start], steps) <==> LeftSpans(db, start, steps, env)
    decreases |steps|
  {
    if steps == [] {
      assert Extends(start, {}, env) ==> env == start;
    } else {
      hide LeftRows, InScope;
      var front, s := steps[..|steps| - 1], steps[|steps| - 1];
      FrontInScope(start.Keys, steps);
      var joins := LeftJoins(db, [start], front);
      FlatMember(joins, e => LeftRows(db, e, s), env);
      hide LeftSpans;
      if e :| e in joins && env in LeftRows(db, e, s) {
        LeftJoinsAreExact(db, start, front, e);
        OneMoreLeft(db, start, steps, e, env);
      }
      if LeftSpans(db, start, steps, env) {
        var e := OneLeftLess(db, start, steps, env);
        LeftJoinsAreExact(db, start, front, e);
      }
    }
  }

  lemma OneMoreLeft(db: Db, start: Env, steps: seq<JoinStep>, e: Env, env: Env)
    requires InScope(start.Keys, steps) && steps != [] && LeftSpans(db, start, steps[..|steps| - 1], e)
    requires env in LeftRows(db, e, steps[|steps| - 1])
    ensures LeftSpans(db, start, steps, env)
  {
    hide InScope, LeftJoined, AllLeft, AllIn, LeftRows, Before;
    var front, s := steps[..|steps| - 1], steps[|steps| - 1];
    LastInScope(start.Keys, steps);
    LeftRowsMember(db, e, s, env);
    AllLeftSame(db, e, env, e.Keys, front);
    AllLeftPush(db, env, steps);
  }

  lemma OneLeftLess(db: Db, start: Env, steps: seq<JoinStep>, env: Env) returns (e: Env)
    requires InScope(start.Keys, steps) && steps != [] && LeftSpans(db, start, steps, env)
    ensures LeftSpans(db, start, steps[..|steps| - 1], e) && env in LeftRows(db, e, steps[|steps| - 1])
  {
    hide InScope, LeftJoined, AllLeft, AllIn, LeftRows, Before;
    var front, s := steps[..|steps| - 1], steps[|steps| - 1];
    LastInScope(start.Keys, steps);
    AllLeftPush(db, env, steps);
    e := Without(env, s.table);
    assert e.Keys == start.Keys + Before(front, |front|);
    AllLeftSame(db, e, env, e.Keys, front);
    LeftRowsMember(db, e, s, env);
  }

  lemma {:induction false} LeftJoinsOfEach(db: Db, envs: seq<Env>, steps: seq<JoinStep>, env: Env)
    ensures env in LeftJoins(db, envs, steps) <==> exists e :: e in envs && env in LeftJoins(db, [e], steps)
    decreases |steps|
  {
    if steps == [] {
      assert forall e :: LeftJoins(db, [e], steps) == [e];
      assert env in envs ==> env in [env];
    } else {
      var front, s := steps[..|steps| - 1], steps[|steps| - 1];
      var more := (w: Env) => LeftRows(db, w, s);
      FlatMember(LeftJoins(db, envs, front), more, env);
      forall e
        ensures env in LeftJoins(db, [e], steps) <==> exists w :: w in LeftJoins(db, [e], front) && env in more(w)
      {
        FlatMember(LeftJoins(db, [e], front), more, env);
      }
      forall w
        ensures w in LeftJoins(db, envs, front) <==> exists e :: e in envs && w in LeftJoins(db, [e], front)
      {
        LeftJoinsOfEach(db, envs, front, w);
      }
    }
  }

  /** A LEFT JOIN never loses a row. */
  lemma {:induction false} LeftJoinsKeep(db: Db, start: Env, steps: seq<JoinStep>) returns (env: Env)
    ensures env in LeftJoins(db, [start], steps)
    decreases |steps|
  {
    env := start;
    if steps != [] {
      var front, s := steps[..|steps| - 1], steps[|steps| - 1];
      var e := LeftJoinsKeep(db, start, front);
      env := LeftRows(db, e, s)[0];
      FlatMember(LeftJoins(db, [start], front), e => LeftRows(db, e, s), env);
    }
  }

  // ---- the flat meaning ----

  ghost function TupleIn(keys: seq<GroupKey>, env: Env): seq<Value> {
    seq(|keys|, i requires 0 <= i < |keys| => ColOf(env, keys[i].table, keys[i].col))
  }

  /** A flat row with the first `n` group chains LEFT JOINed in place. */
  ghost function Widened(q: Query, n: nat, o: Env): seq<Env>
    requires n <= |q.clause.split.groupChains|
  {
    if n == 0 then [o] else LeftJoins(q.db, Widened(q, n - 1, o), q.clause.split.groupChains[n - 1].Steps())
  }

  /** Every predicate outside the filter chains. */
  ghost predicate Holds(q: Query, env: Env) {
    CondOf(q, q.clause.conds)(env) && forall c :: 0 <= c < |q.clause.groupPreds| ==> CondOf(q, q.clause.groupPreds[c])(env)
  }

  ghost predicate FlatCounts(q: Query, keys: seq<GroupKey>, o: Env, cell: seq<Value>)
    requires Shaped(q)
  {
    && (exists env :: env in Widened(q, |q.clause.split.groupChains|, o) && Holds(q, env) && TupleIn(keys, env) == cell)
    && forall c :: 0 <= c < |q.clause.existsPreds| ==> HasCombination(q, c, o)
  }

  ghost function FlatCounted(q: Query, keys: seq<GroupKey>, cell: seq<Value>): seq<Env>
    requires Shaped(q)
  {
    Select(FlatRows(q), o => FlatCounts(q, keys, o, cell))
  }

  // ---- the shape of a split clause ----

  ghost function ChainScope(c: Chain): set<Table> {
    StepTables(c.Steps())
  }

  ghost predicate Hung(clause: Clause, c: Chain) {
    InScope(FlatTables(clause), c.Steps()) && IsTree(c.anchor.table, c.steps)
  }

  ghost predicate Apart(clause: Clause) {
    var s := clause.split;
    && (forall a, b :: 0 <= a < b < |s.groupChains| ==> ChainScope(s.groupChains[a]) !! ChainScope(s.groupChains[b]))
    && (forall a, b :: 0 <= a < |s.groupChains| && 0 <= b < |s.existsChains| ==> ChainScope(s.groupChains[a]) !! ChainScope(s.existsChains[b]))
  }

  ghost predicate WellSplit(clause: Clause) {
    && (forall c :: c in clause.split.groupChains ==> Hung(clause, c))
    && (forall c :: c in clause.split.existsChains ==> Hung(clause, c))
    && Apart(clause)
  }

  lemma HasIsTable(c: Chain, t: Table)
    ensures c.Has(t) <==> t in ChainScope(c)
  {
    hide Before;
    HasIsListed(c, t);
    TablesAreListed(c.Steps(), t);
  }

  lemma TablesAreListed(steps: seq<JoinStep>, t: Table)
    ensures t in StepTables(steps) <==> t in TablesOf(steps)
  {
  }

  lemma SplitIsWell(steps: seq<JoinStep>, clause: Clause)
    requires IsTree(clause.root, steps) && Splits(clause.root, steps, clause.split)
    ensures WellSplit(clause)
  {
    hide IsTree, Splits, InScope, Apart;
    forall c | c in clause.split.groupChains || c in clause.split.existsChains
      ensures Hung(clause, c)
    {
      ChainIsInScope(steps, clause, c);
    }
    SplitIsApart(steps, clause);
  }

  lemma SplitIsApart(steps: seq<JoinStep>, clause: Clause)
    requires IsTree(clause.root, steps) && Splits(clause.root, steps, clause.split)
    ensures Apart(clause)
  {
    hide IsTree, Splits, Before, Chain.Has;
    var s := clause.split;
    forall a, b, t | 0 <= a < b < |s.groupChains| && t in ChainScope(s.groupChains[a])
      ensures t !in ChainScope(s.groupChains[b])
    {
      OneScope(clause.root, steps, s, t);
      HasIsTable(s.groupChains[a], t);
      HasIsTable(s.groupChains[b], t);
    }
    forall a, b, t | 0 <= a < |s.groupChains| && 0 <= b < |s.existsChains| && t in ChainScope(s.groupChains[a])
      ensures t !in ChainScope(s.existsChains[b])
    {
      OneScope(clause.root, steps, s, t);
      HasIsTable(s.groupChains[a], t);
      HasIsTable(s.existsChains[b], t);
    }
  }

  // ---- one chain at a time ----

  lemma ScopeGrows(some: set<Table>, more: set<Table>, steps: seq<JoinStep>)
    requires InScope(some, steps) && some <= more && more !! StepTables(steps)
    ensures InScope(more, steps)
  {
    forall i | 0 <= i < |steps|
      ensures steps[i].table !in more + Before(steps, i) && steps[i].fromTable in more + Before(steps, i)
    {
      InScopeAt(some, steps, i);
      assert steps[i].table in StepTables(steps);
    }
  }

  lemma ScopeHolds(start: set<Table>, steps: seq<JoinStep>)
    requires InScope(start, steps)
    ensures AllIn(start + StepTables(steps), steps)
  {
    forall i | 0 <= i < |steps|
      ensures steps[i].table in StepTables(steps) && steps[i].fromTable in start + StepTables(steps)
    {
      InScopeAt(start, steps, i);
    }
  }

  /** What a chain adds to a row does not depend on the chains joined before it. */
  lemma ChainAlone(db: Db, o: Env, e: Env, others: set<Table>, steps: seq<JoinStep>, w: Env) returns (v: Env)
    requires InScope(o.Keys, steps) && Extends(o, others, e) && e.Keys !! StepTables(steps)
    requires w in LeftJoins(db, [e], steps)
    ensures v in LeftJoins(db, [o], steps) && Extends(e, StepTables(steps), w)
    ensures forall t :: t in StepTables(steps) ==> t in w && t in v && w[t] == v[t]
  {
    hide InScope, AllIn, AllLeft, Before, LeftJoins;
    ScopeGrows(o.Keys, e.Keys, steps);
    ScopeHolds(o.Keys, steps);
    LeftJoinsAreExact(db, e, steps, w);
    v := Restrict(w, o.Keys + StepTables(steps));
    AllLeftSame(db, w, v, o.Keys + StepTables(steps), steps);
    LeftJoinsAreExact(db, o, steps, v);
  }

  lemma ChainGlued(db: Db, o: Env, e: Env, others: set<Table>, steps: seq<JoinStep>, v: Env) returns (w: Env)
    requires InScope(o.Keys, steps) && Extends(o, others, e) && e.Keys !! StepTables(steps)
    requires v in LeftJoins(db, [o], steps)
    ensures w in LeftJoins(db, [e], steps) && Extends(e, StepTables(steps), w)
    ensures forall t :: t in StepTables(steps) ==> t in w && t in v && w[t] == v[t]
  {
    hide InScope, AllIn, AllLeft, Before, LeftJoins;
    ScopeGrows(o.Keys, e.Keys, steps);
    ScopeHolds(o.Keys, steps);
    LeftJoinsAreExact(db, o, steps, v);
    w := e + v;
    AllLeftSame(db, v, w, o.Keys + StepTables(steps), steps);
    LeftJoinsAreExact(db, e, steps, w);
  }

  ghost function TablesBefore(q: Query, n: nat): set<Table>
    requires n <= |q.clause.split.groupChains|
  {
    if n == 0 then {} else TablesBefore(q, n - 1) + ChainScope(q.clause.split.groupChains[n - 1])
  }

  lemma ChainAddsNew(q: Query, n: nat)
    requires WellSplit(q.clause) && n < |q.clause.split.groupChains|
    ensures FlatTables(q.clause) + TablesBefore(q, n) !! ChainScope(q.clause.split.groupChains[n])
    ensures InScope(FlatTables(q.clause), q.clause.split.groupChains[n].Steps())
  {
    var chain := q.clause.split.groupChains[n];
    assert Hung(q.clause, chain);
    ScopeIsNew(FlatTables(q.clause), chain.Steps());
    NewBefore(q, n, n);
  }

  lemma {:induction false} NewBefore(q: Query, m: nat, n: nat)
    requires WellSplit(q.clause) && m <= n < |q.clause.split.groupChains|
    ensures TablesBefore(q, m) !! ChainScope(q.clause.split.groupChains[n])
  {
    hide Before, InScope;
    if m > 0 {
      NewBefore(q, m - 1, n);
    }
  }

  lemma ScopeIsNew(start: set<Table>, steps: seq<JoinStep>)
    requires InScope(start, steps)
    ensures start !! StepTables(steps)
  {
    forall i | 0 <= i < |steps|
      ensures steps[i].table !in start
    {
      InScopeAt(start, steps, i);
    }
  }

  /** The row leads to a group tuple through one chain's joins. */
  ghost predicate Leads(q: Query, n: nat, o: Env, tuple: seq<Value>)
    requires Shaped(q) && n < |q.clause.selected|
  {
    exists w :: w in LeftJoins(q.db, [o], q.clause.split.groupChains[n].Steps()) && TupleIn(q.clause.selected[n], w) == tuple
  }

  ghost predicate Carries(q: Query, n: nat, env: Env, tuples: seq<seq<Value>>)
    requires Shaped(q) && n <= |q.clause.selected| && n <= |tuples|
  {
    forall i :: 0 <= i < n ==> TupleIn(q.clause.selected[i], env) == tuples[i]
  }

  /** Every key a chain selects is on one of its tables. */
  ghost predicate KeysAtHome(q: Query) {
    forall c, k :: 0 <= c < |q.clause.selected| && c < |q.clause.split.groupChains| && k in q.clause.selected[c] ==>
      k.table in ChainScope(q.clause.split.groupChains[c])
  }

  lemma TupleSame(keys: seq<GroupKey>, tables: set<Table>, e: Env, f: Env)
    requires (forall k :: k in keys ==> k.table in tables) && forall t :: t in tables ==> t in e && t in f && e[t] == f[t]
    ensures TupleIn(keys, e) == TupleIn(keys, f)
  {
    forall i | 0 <= i < |keys|
      ensures ColOf(e, keys[i].table, keys[i].col) == ColOf(f, keys[i].table, keys[i].col)
    {
      assert keys[i] in keys;
    }
  }

  lemma {:induction false} CarriesSame(q: Query, n: nat, o: Env, e: Env, w: Env, tuples: seq<seq<Value>>)
    requires Shaped(q) && n <= |q.clause.selected| && n <= |tuples| && KeysAtHome(q)
    requires Extends(o, TablesBefore(q, n), e) && forall t :: t in e ==> t in w && w[t] == e[t]
    ensures Carries(q, n, e, tuples) <==> Carries(q, n, w, tuples)
  {
    hide Before;
    forall i | 0 <= i < n
      ensures TupleIn(q.clause.selected[i], e) == TupleIn(q.clause.selected[i], w)
    {
      IsBefore(q, i, n);
      TupleSame(q.clause.selected[i], ChainScope(q.clause.split.groupChains[i]), e, w);
    }
  }

  lemma {:induction false} IsBefore(q: Query, i: nat, n: nat)
    requires i < n <= |q.clause.split.groupChains|
    ensures ChainScope(q.clause.split.groupChains[i]) <= TablesBefore(q, n)
  {
    hide Before;
    if i < n - 1 {
      IsBefore(q, i, n - 1);
    }
  }

  lemma {:induction false} WidenedExtends(q: Query, n: nat, o: Env, w: Env)
    requires WellSplit(q.clause) && n <= |q.clause.split.groupChains| && o.Keys == FlatTables(q.clause) && w in Widened(q, n, o)
    ensures Extends(o, TablesBefore(q, n), w)
  {
    hide Before, LeftJoins, InScope, WellSplit;
    if n > 0 {
      var steps := q.clause.split.groupChains[n - 1].Steps();
      LeftJoinsOfEach(q.db, Widened(q, n - 1, o), steps, w);
      var e :| e in Widened(q, n - 1, o) && w in LeftJoins(q.db, [e], steps);
      WidenedExtends(q, n - 1, o, e);
      ChainAddsNew(q, n - 1);
      var v := ChainAlone(q.db, o, e, TablesBefore(q, n - 1), steps, w);
    }
  }

  /** The chains are independent: a row widened by all of them carries a cell's tuples exactly when each
    * chain alone leads to its own. */
  lemma {:induction false} WidenedLeads(q: Query, n: nat, o: Env, tuples: seq<seq<Value>>)
    requires Shaped(q) && WellSplit(q.clause) && KeysAtHome(q) && o.Keys == FlatTables(q.clause)
    requires n <= |q.clause.selected| && n <= |tuples|
    ensures (exists w :: w in Widened(q, n, o) && Carries(q, n, w, tuples)) <==> forall i :: 0 <= i < n ==> Leads(q, i, o, tuples[i])
  {
    hide Before, LeftJoins, InScope, WellSplit, KeysAtHome;
    if n == 0 {
      assert o in Widened(q, 0, o) && Carries(q, 0, o, tuples);
    } else {
      WidenedLeads(q, n - 1, o, tuples);
      if w :| w in Widened(q, n, o) && Carries(q, n, w, tuples) {
        var e := NarrowedCarries(q, n - 1, o, w, tuples);
      }
      if forall i :: 0 <= i < n ==> Leads(q, i, o, tuples[i]) {
        var e :| e in Widened(q, n - 1, o) && Carries(q, n - 1, e, tuples);
        var w := WidenedCarries(q, n - 1, o, e, tuples);
      }
    }
  }

  lemma NarrowedCarries(q: Query, n: nat, o: Env, w: Env, tuples: seq<seq<Value>>) returns (e: Env)
    requires Shaped(q) && WellSplit(q.clause) && KeysAtHome(q) && o.Keys == FlatTables(q.clause)
    requires n < |q.clause.selected| && n < |tuples| && w in Widened(q, n + 1, o) && Carries(q, n + 1, w, tuples)
    ensures e in Widened(q, n, o) && Carries(q, n, e, tuples) && Leads(q, n, o, tuples[n])
  {
    hide Before, LeftJoins, InScope, WellSplit, TupleIn;
    var chain := q.clause.split.groupChains[n];
    LeftJoinsOfEach(q.db, Widened(q, n, o), chain.Steps(), w);
    e :| e in Widened(q, n, o) && w in LeftJoins(q.db, [e], chain.Steps());
    WidenedExtends(q, n, o, e);
    ChainAddsNew(q, n);
    var v := ChainAlone(q.db, o, e, TablesBefore(q, n), chain.Steps(), w);
    CarriesSame(q, n, o, e, w, tuples);
    TupleSame(q.clause.selected[n], ChainScope(chain), w, v);
  }

  lemma WidenedCarries(q: Query, n: nat, o: Env, e: Env, tuples: seq<seq<Value>>) returns (w: Env)
    requires Shaped(q) && WellSplit(q.clause) && KeysAtHome(q) && o.Keys == FlatTables(q.clause)
    requires n < |q.clause.selected| && n < |tuples|
    requires e in Widened(q, n, o) && Carries(q, n, e, tuples) && Leads(q, n, o, tuples[n])
    ensures w in Widened(q, n + 1, o) && Carries(q, n + 1, w, tuples)
  {
    hide Before, LeftJoins, InScope, WellSplit, TupleIn;
    var chain := q.clause.split.groupChains[n];
    var v :| v in LeftJoins(q.db, [o], chain.Steps()) && TupleIn(q.clause.selected[n], v) == tuples[n];
    WidenedExtends(q, n, o, e);
    ChainAddsNew(q, n);
    w := ChainGlued(q.db, o, e, TablesBefore(q, n), chain.Steps(), v);
    LeftJoinsOfEach(q.db, Widened(q, n, o), chain.Steps(), w);
    CarriesSame(q, n, o, e, w, tuples);
    TupleSame(q.clause.selected[n], ChainScope(chain), w, v);
  }

  // ---- a chain and its DISTINCT map ----

  /** The links equate the column, one step after another, with one of the anchor's. */
  ghost predicate Pinned(a: Table, steps: seq<JoinStep>, t: Table, col: Column) {
    t == a || steps == [] ||
      var front, last := steps[..|steps| - 1], steps[|steps| - 1];
      if last.table == t then col == last.onToCol && Pinned(a, front, last.fromTable, last.onFromCol)
      else Pinned(a, front, t, col)
  }

  /** Such a column is NULL on every row whose anchor found none. */
  lemma {:induction false} PinnedIsNull(db: Db, a: Table, steps: seq<JoinStep>, w: Env, t: Table, col: Column)
    requires IsTree(a, steps) && Entered(a, steps, t) && Pinned(a, steps, t, col)
    requires a in w && w[a].None? && AllLeft(db, w, steps)
    ensures ColOf(w, t, col) == Null
  {
    if steps != [] && t != a {
      var front, last := steps[..|steps| - 1], steps[|steps| - 1];
      FrontIsTree(a, steps);
      AllLeftPush(db, w, steps);
      EnteredFront(a, steps, t);
      hide IsTree, Entered, AllLeft;
      if last.table == t {
        PinnedIsNull(db, a, front, w, last.fromTable, last.onFromCol);
      } else {
        PinnedIsNull(db, a, front, w, t, col);
      }
    }
  }

  lemma EnteredFront(a: Table, steps: seq<JoinStep>, t: Table)
    requires steps != [] && Entered(a, steps, t)
    ensures t == steps[|steps| - 1].table || Entered(a, steps[..|steps| - 1], t)
  {
    if t != a {
      var i :| 0 <= i < |steps| && steps[i].table == t;
      assert i < |steps| - 1 ==> steps[..|steps| - 1][i] == steps[i];
    }
  }

  lemma TreeInScope(a: Table, steps: seq<JoinStep>)
    requires IsTree(a, steps)
    ensures InScope({a}, steps)
  {
    forall i | 0 <= i < |steps|
      ensures steps[i].table !in {a} + Before(steps, i) && steps[i].fromTable in {a} + Before(steps, i)
    {
      assert Entered(a, steps[..i], steps[i].fromTable);
      if steps[i].fromTable != a {
        var j :| 0 <= j < i && steps[..i][j].table == steps[i].fromTable;
        assert steps[j].table in Before(steps, i);
      }
    }
  }

  lemma AllLeftCons(db: Db, env: Env, c: Chain)
    ensures AllLeft(db, env, c.Steps()) <==> LeftJoined(db, env, c.anchor) && AllLeft(db, env, c.steps)
  {
    hide LeftJoined;
    var all := c.Steps();
    assert all[0] == c.anchor && forall i :: 0 <= i < |c.steps| ==> all[i + 1] == c.steps[i];
    if AllLeft(db, env, all) {
      forall i | 0 <= i < |c.steps|
        ensures LeftJoined(db, env, c.steps[i])
      {
        assert LeftJoined(db, env, all[i + 1]);
      }
    }
    if LeftJoined(db, env, c.anchor) && AllLeft(db, env, c.steps) {
      forall i | 0 <= i < |all|
        ensures LeftJoined(db, env, all[i])
      {
        if i > 0 {
          assert all[i] == c.steps[i - 1];
        }
      }
    }
  }

  /** The rows of a chain: its joined combinations that satisfy its predicates. */
  lemma ChainRowsAre(q: Query, n: nat, env: Env)
    requires Shaped(q) && n < |q.clause.selected|
    requires IsTree(q.clause.split.groupChains[n].anchor.table, q.clause.split.groupChains[n].steps)
    ensures var c := q.clause.split.groupChains[n];
      env in ChainRowsOf(q, n) <==>
        CondOf(q, q.clause.groupPreds[n])(env) && exists r :: r in RowsOf(q.db, c.anchor.table) && LeftSpans(q.db, map[c.anchor.table := Some(r)], c.steps, env)
  {
    hide IsTree, InScope, LeftSpans, LeftJoins;
    var c := q.clause.split.groupChains[n];
    var a, rows := c.anchor.table, RowsOf(q.db, c.anchor.table);
    var starts := WithRows(map[], a, rows);
    SelectMember(LeftJoins(q.db, starts, c.steps), CondOf(q, q.clause.groupPreds[n]));
    LeftJoinsOfEach(q.db, starts, c.steps, env);
    TreeInScope(a, c.steps);
    forall r | r in rows
      ensures map[a := Some(r)] in starts
      ensures env in LeftJoins(q.db, [map[a := Some(r)]], c.steps) <==> LeftSpans(q.db, map[a := Some(r)], c.steps, env)
    {
      var start: Env := map[a := Some(r)];
      assert start == map[][a := Some(r)] && start.Keys == {a};
      WithRowsMember(map[], a, rows, start);
      LeftJoinsAreExact(q.db, start, c.steps, env);
    }
    forall e | e in starts
      ensures exists r :: r in rows && e == map[a := Some(r)]
    {
      WithRowsMember(map[], a, rows, e);
    }
  }

  lemma ChainScopeIs(c: Chain)
    ensures ChainScope(c) == {c.anchor.table} + StepTables(c.steps)
  {
    forall t
      ensures t in ChainScope(c) <==> t == c.anchor.table || t in StepTables(c.steps)
    {
      HasIsTable(c, t);
      EnteredIsBefore(c.anchor.table, c.steps, t);
    }
  }

  /** A chain row on the flat row's key completes it. */
  lemma RowCompletes(q: Query, n: nat, o: Env, env: Env) returns (w: Env)
    requires Shaped(q) && n < |q.clause.selected| && q.clause.groupPreds[n] == [] && KeysAtHome(q)
    requires Hung(q.clause, q.clause.split.groupChains[n]) && o.Keys == FlatTables(q.clause)
    requires env in ChainRowsOf(q, n) && MapOf(q.clause.split.groupChains[n], q.clause.selected[n], env).anchor == AnchorOf(q, n, o)
    ensures w in LeftJoins(q.db, [o], q.clause.split.groupChains[n].Steps())
    ensures TupleIn(q.clause.selected[n], w) == TupleIn(q.clause.selected[n], env)
  {
    hide IsTree, InScope, AllLeft, Before, LeftJoins, ChainRowsOf, AllIn;
    var c := q.clause.split.groupChains[n];
    var a := c.anchor.table;
    ChainRowsAre(q, n, env);
    var r :| r in RowsOf(q.db, a) && LeftSpans(q.db, map[a := Some(r)], c.steps, env);
    ChainScopeIs(c);
    StepsInScope(o.Keys, c);
    ScopeIsNew(o.Keys, c.Steps());
    TreeInScope(a, c.steps);
    ScopeHolds({a}, c.steps);
    assert a in map[a := Some(r)];
    w := o + env;
    AllLeftSame(q.db, env, w, {a} + StepTables(c.steps), c.steps);
    assert LeftJoined(q.db, w, c.anchor);
    AllLeftCons(q.db, w, c);
    LeftJoinsAreExact(q.db, o, c.Steps(), w);
    TupleSame(q.clause.selected[n], ChainScope(c), w, env);
  }

  /** A completed row whose anchor found a row shows a chain row on its key. */
  lemma CompletedShows(q: Query, n: nat, o: Env, w: Env) returns (env: Env)
    requires Shaped(q) && n < |q.clause.selected| && q.clause.groupPreds[n] == [] && KeysAtHome(q)
    requires Hung(q.clause, q.clause.split.groupChains[n]) && o.Keys == FlatTables(q.clause)
    requires w in LeftJoins(q.db, [o], q.clause.split.groupChains[n].Steps())
    requires RowOfAnchor(q, n, w).Some?
    ensures env in ChainRowsOf(q, n)
    ensures MapOf(q.clause.split.groupChains[n], q.clause.selected[n], env) == MapRow(AnchorOf(q, n, o), TupleIn(q.clause.selected[n], w))
  {
    hide IsTree, InScope, AllLeft, Before, LeftJoins, ChainRowsOf, AllIn;
    var c := q.clause.split.groupChains[n];
    var a := c.anchor.table;
    StepsInScope(o.Keys, c);
    LeftJoinsAreExact(q.db, o, c.Steps(), w);
    AllLeftCons(q.db, w, c);
    ChainScopeIs(c);
    TreeInScope(a, c.steps);
    ScopeHolds({a}, c.steps);
    env := Restrict(w, ChainScope(c));
    AllLeftSame(q.db, w, env, {a} + StepTables(c.steps), c.steps);
    var start: Env := map[a := w[a]];
    assert LeftSpans(q.db, start, c.steps, env);
    ChainRowsAre(q, n, env);
    TupleSame(q.clause.selected[n], ChainScope(c), w, env);
  }

  ghost function RowOfAnchor(q: Query, n: nat, w: Env): Option<DbRow>
    requires n < |q.clause.split.groupChains|
  {
    var a := q.clause.split.groupChains[n].anchor.table;
    if a in w then w[a] else None
  }

  ghost predicate AllPinned(c: Chain, keys: seq<GroupKey>) {
    forall k :: k in keys ==> Pinned(c.anchor.table, c.steps, k.table, k.col)
  }

  /** A completed row whose anchor found none is on no chain row's key. */
  lemma NoneShows(q: Query, n: nat, o: Env, w: Env)
    requires Shaped(q) && n < |q.clause.selected| && q.clause.groupPreds[n] == []
    requires Hung(q.clause, q.clause.split.groupChains[n]) && o.Keys == FlatTables(q.clause)
    requires w in LeftJoins(q.db, [o], q.clause.split.groupChains[n].Steps())
    requires RowOfAnchor(q, n, w).None?
    ensures forall env :: env in ChainRowsOf(q, n) ==> MapOf(q.clause.split.groupChains[n], q.clause.selected[n], env).anchor != AnchorOf(q, n, o)
  {
    hide IsTree, InScope, AllLeft, Before, LeftJoins, ChainRowsOf;
    var c := q.clause.split.groupChains[n];
    var a := c.anchor.table;
    StepsInScope(o.Keys, c);
    LeftJoinsAreExact(q.db, o, c.Steps(), w);
    AllLeftCons(q.db, w, c);
    assert ColOf(w, c.anchor.fromTable, c.anchor.onFromCol) == AnchorOf(q, n, o);
    forall env | env in ChainRowsOf(q, n)
      ensures MapOf(c, q.clause.selected[n], env).anchor != AnchorOf(q, n, o)
    {
      ChainRowsAre(q, n, env);
      var r :| r in RowsOf(q.db, a) && LeftSpans(q.db, map[a := Some(r)], c.steps, env);
      assert a in map[a := Some(r)];
      assert !Link(w, c.anchor, r);
    }
  }

  lemma NoneIsNulls(q: Query, n: nat, o: Env, w: Env)
    requires Shaped(q) && n < |q.clause.selected| && KeysAtHome(q) && AllPinned(q.clause.split.groupChains[n], q.clause.selected[n])
    requires Hung(q.clause, q.clause.split.groupChains[n]) && o.Keys == FlatTables(q.clause)
    requires w in LeftJoins(q.db, [o], q.clause.split.groupChains[n].Steps())
    requires RowOfAnchor(q, n, w).None?
    ensures TupleIn(q.clause.selected[n], w) == Nulls(|q.clause.selected[n]|)
  {
    hide IsTree, InScope, AllLeft, Before, LeftJoins, Pinned;
    var c, keys := q.clause.split.groupChains[n], q.clause.selected[n];
    LeftJoinsAreExact(q.db, o, c.Steps(), w);
    AllLeftCons(q.db, w, c);
    forall i | 0 <= i < |keys|
      ensures ColOf(w, keys[i].table, keys[i].col) == Null
    {
      assert keys[i] in keys;
      HasIsTable(c, keys[i].table);
      PinnedIsNull(q.db, c.anchor.table, c.steps, w, keys[i].table, keys[i].col);
    }
  }

  /** Without predicates and with pinned keys, the DISTINCT map leads where the joins do. */
  lemma ReachesIsLeads(q: Query, n: nat, o: Env, tuple: seq<Value>)
    requires Shaped(q) && n < |q.clause.selected| && q.clause.groupPreds[n] == [] && KeysAtHome(q)
    requires Hung(q.clause, q.clause.split.groupChains[n]) && o.Keys == FlatTables(q.clause)
    requires AllPinned(q.clause.split.groupChains[n], q.clause.selected[n])
    ensures Reaches(q, n, o, tuple) <==> Leads(q, n, o, tuple)
  {
    hide ChainRowsOf, LeftJoins, KeysAtHome, Hung, AllPinned, AnchorOf, RowOfAnchor;
    var c, keys := q.clause.split.groupChains[n], q.clause.selected[n];
    if env :| env in ChainRowsOf(q, n) && MapOf(c, keys, env) == MapRow(AnchorOf(q, n, o), tuple) {
      var w := RowCompletes(q, n, o, env);
    }
    var kept := LeftJoinsKeep(q.db, o, c.Steps());
    forall w | w in LeftJoins(q.db, [o], c.Steps())
      ensures RowOfAnchor(q, n, w).None? ==> TupleIn(keys, w) == Nulls(|keys|)
      ensures RowOfAnchor(q, n, w).None? ==> forall env :: env in ChainRowsOf(q, n) ==> MapOf(c, keys, env).anchor != AnchorOf(q, n, o)
      ensures RowOfAnchor(q, n, w).Some? ==> exists env :: env in ChainRowsOf(q, n) && MapOf(c, keys, env) == MapRow(AnchorOf(q, n, o), TupleIn(keys, w))
    {
      if RowOfAnchor(q, n, w).None? {
        NoneIsNulls(q, n, o, w);
        NoneShows(q, n, o, w);
      } else {
        var env := CompletedShows(q, n, o, w);
      }
    }
  }

  // ---- when the carved clause is the flat one ----

  ghost predicate SameAt(e: Env, f: Env, t: Table) {
    (t in e <==> t in f) && (t in e ==> e[t] == f[t])
  }

  ghost predicate ReadsOnly(pred: Env -> bool, tables: set<Table>) {
    forall e, f :: (forall t :: t in tables ==> SameAt(e, f, t)) ==> pred(e) == pred(f)
  }

  /** A tagged predicate reads its table alone, an untagged one the flat tables. */
  ghost predicate Local(q: Query, tags: seq<Option<Table>>) {
    |q.preds| == |tags| && forall p :: 0 <= p < |tags| ==>
      ReadsOnly(q.preds[p], if tags[p].Some? then {tags[p].value} else FlatTables(q.clause))
  }

  /** No predicate is on a group chain, and no group key is reached from a chain's anchor through a
    * link between other columns. */
  ghost predicate KeysOnly(clause: Clause)
    requires |clause.selected| == |clause.split.groupChains| == |clause.groupPreds|
  {
    forall c :: 0 <= c < |clause.groupPreds| ==> clause.groupPreds[c] == [] && AllPinned(clause.split.groupChains[c], clause.selected[c])
  }

  ghost predicate Emittable(steps: seq<JoinStep>, clause: Clause, tags: seq<Option<Table>>, keys: seq<GroupKey>) {
    IsTree(clause.root, steps) && Splits(clause.root, steps, clause.split) && Places(clause, tags) && Projects(clause, keys)
  }

  lemma InBefore(q: Query, n: nat, t: Table)
    requires n <= |q.clause.split.groupChains| && t in TablesBefore(q, n)
    ensures SomeHas(q.clause.split.groupChains, t)
  {
    hide Before;
    if t in ChainScope(q.clause.split.groupChains[n - 1]) {
      HasIsTable(q.clause.split.groupChains[n - 1], t);
    }
  }

  /** A plain predicate reads the flat row of a widened one. */
  lemma PlainReadsFlat(q: Query, tags: seq<Option<Table>>, o: Env, env: Env)
    requires Places(q.clause, tags) && Local(q, tags)
    requires o.Keys == FlatTables(q.clause) && Extends(o, TablesBefore(q, |q.clause.split.groupChains|), env)
    ensures CondOf(q, q.clause.conds)(env) <==> CondOf(q, q.clause.conds)(o)
  {
    hide Before, TablesBefore, SomeHas, TakesFor, ReadsOnly, Ascending;
    forall p | p in q.clause.conds
      ensures p < |q.preds| && q.preds[p](env) == q.preds[p](o)
    {
      assert !ForSome(q.clause.split.groupChains, tags, p);
      if tags[p].Some? {
        if tags[p].value in TablesBefore(q, |q.clause.split.groupChains|) {
          InBefore(q, |q.clause.split.groupChains|, tags[p].value);
        }
        assert SameAt(env, o, tags[p].value);
        ReadsSame(q.preds[p], {tags[p].value}, env, o);
      } else {
        ReadsSame(q.preds[p], FlatTables(q.clause), env, o);
      }
    }
  }

  lemma ReadsSame(pred: Env -> bool, tables: set<Table>, e: Env, f: Env)
    requires ReadsOnly(pred, tables) && forall t :: t in tables ==> SameAt(e, f, t)
    ensures pred(e) == pred(f)
  {
  }

  lemma AreAtHome(q: Query, keys: seq<GroupKey>)
    requires Projects(q.clause, keys)
    ensures KeysAtHome(q)
  {
    hide Before, Chain.Has, RefersRight, SomeHas;
    forall c, k | 0 <= c < |q.clause.selected| && c < |q.clause.split.groupChains| && k in q.clause.selected[c]
      ensures k.table in ChainScope(q.clause.split.groupChains[c])
    {
      HasIsTable(q.clause.split.groupChains[c], k.table);
    }
  }

  /** The maps of a row that carries its group columns in place. */
  ghost function MapsIn(q: Query, env: Env): seq<Option<MapRow>> {
    seq(|q.clause.selected|, n requires 0 <= n < |q.clause.selected| => Some(MapRow(Null, TupleIn(q.clause.selected[n], env))))
  }

  /** Reading the keys in place is reading them from the flat row and the chains. */
  lemma ReadInPlace(q: Query, keys: seq<GroupKey>, o: Env, env: Env, cell: seq<Value>)
    requires Shaped(q) && Projects(q.clause, keys) && ChainsDisjoint(q) && |cell| == |keys|
    requires o.Keys == FlatTables(q.clause) && Extends(o, TablesBefore(q, |q.clause.split.groupChains|), env)
    ensures TupleIn(keys, env) == cell <==>
      FlatKeysMatch(q, keys, o, cell) && Carries(q, |q.clause.selected|, env, TuplesOf(q, keys, cell))
  {
    hide ChainsDisjoint, Before, TablesBefore, SomeHas, FlatKeysMatch, Shows, Carries, FromMaps, KeyAt;
    var w := Wide(o, MapsIn(q, env));
    assert FromMaps(q, w, |q.clause.selected|) by {
      MapsAreMaps(q, env, o);
    }
    KeyIsCell(q, keys, w, cell);
    forall i | 0 <= i < |keys|
      ensures KeyAt(q, w, keys[i]) == ColOf(env, keys[i].table, keys[i].col)
    {
      KeyInPlace(q, keys, o, env, keys[i]);
    }
    assert KeyOf(q, keys, w) == TupleIn(keys, env);
    ShowsIsCarries(q, o, env, TuplesOf(q, keys, cell));
  }

  lemma MapsAreMaps(q: Query, env: Env, o: Env)
    ensures FromMaps(q, Wide(o, MapsIn(q, env)), |q.clause.selected|)
  {
  }

  lemma ShowsIsCarries(q: Query, o: Env, env: Env, tuples: seq<seq<Value>>)
    requires Shaped(q) && |tuples| == |q.clause.selected|
    ensures Shows(q, Wide(o, MapsIn(q, env)), tuples, |tuples|) <==> Carries(q, |tuples|, env, tuples)
  {
    forall i | 0 <= i < |tuples|
      ensures ValsOf(MapsIn(q, env)[i], |q.clause.selected[i]|) == TupleIn(q.clause.selected[i], env)
    {
    }
  }

  lemma KeyInPlace(q: Query, keys: seq<GroupKey>, o: Env, env: Env, k: GroupKey)
    requires Shaped(q) && Projects(q.clause, keys) && k in keys
    requires o.Keys == FlatTables(q.clause) && Extends(o, TablesBefore(q, |q.clause.split.groupChains|), env)
    ensures KeyAt(q, Wide(o, MapsIn(q, env)), k) == ColOf(env, k.table, k.col)
  {
    hide Before, TablesBefore, SomeHas;
    if k in q.clause.refs {
      assert RefersRight(q.clause.selected, q.clause.refs, k);
    } else {
      assert !SomeHas(q.clause.split.groupChains, k.table);
      if k.table in TablesBefore(q, |q.clause.split.groupChains|) {
        InBefore(q, |q.clause.split.groupChains|, k.table);
      }
    }
  }

  lemma WhereIs(steps: seq<JoinStep>, q: Query, tags: seq<Option<Table>>, keys: seq<GroupKey>, o: Env)
    requires Emittable(steps, q.clause, tags, keys) && o in FlatRows(q)
    ensures Shaped(q)
    ensures Where(q, o) <==> CondOf(q, q.clause.conds)(o) && forall c :: 0 <= c < |q.clause.existsPreds| ==> HasCombination(q, c, o)
  {
    hide IsTree, Splits, FlatRows, Where, HasCombination, Projects;
    assert Projects(q.clause, keys);
    EmittedClauseCounts(steps, q, tags, keys, seq(|keys|, _ => Null));
  }

  /** A row that counts in the carved clause counts in the flat one, and conversely. */
  lemma CountsTheSame(steps: seq<JoinStep>, q: Query, tags: seq<Option<Table>>, keys: seq<GroupKey>, cell: seq<Value>, o: Env)
    requires Emittable(steps, q.clause, tags, keys) && Local(q, tags) && |cell| == |keys| && o in FlatRows(q)
    requires Shaped(q) && KeysOnly(q.clause)
    ensures InCell(q, keys, o, cell) <==> FlatCounts(q, keys, o, cell)
  {
    hide IsTree, Splits, FlatRows, Where, HasCombination, Projects, Places, Local, Widened, WellSplit, ChainsDisjoint, FlatKeysMatch, Reaches,
      Leads, KeysAtHome, AllPinned, Hung, TupleIn, Carries, FlatTables, TablesBefore, Holds, CondOf;
    var n, tuples := |q.clause.selected|, TuplesOf(q, keys, cell);
    WhereIs(steps, q, tags, keys, o);
    FlatRowsKeys(q, o);
    SplitIsWell(steps, q.clause);
    AreAtHome(q, keys);
    AreDisjoint(steps, q);
    forall i | 0 <= i < n
      ensures Reaches(q, i, o, TupleOf(q, keys, cell, i)) <==> Leads(q, i, o, tuples[i])
    {
      assert Hung(q.clause, q.clause.split.groupChains[i]) by {
        ChainIsHung(q, i);
      }
      ReachesIsLeads(q, i, o, tuples[i]);
    }
    WidenedLeads(q, n, o, tuples);
    forall env | env in Widened(q, n, o)
      ensures Holds(q, env) <==> CondOf(q, q.clause.conds)(o)
      ensures TupleIn(keys, env) == cell <==> FlatKeysMatch(q, keys, o, cell) && Carries(q, n, env, tuples)
    {
      WidenedExtends(q, n, o, env);
      PlainReadsFlat(q, tags, o, env);
      HoldsIsPlain(q, env);
      ReadInPlace(q, keys, o, env, cell);
    }
    var here := exists env :: env in Widened(q, n, o) && Carries(q, n, env, tuples);
    assert here <==> forall i :: 0 <= i < n ==> Reaches(q, i, o, TupleOf(q, keys, cell, i));
    assert FlatCounts(q, keys, o, cell) <==> Where(q, o) && FlatKeysMatch(q, keys, o, cell) && here;
  }

  lemma HoldsIsPlain(q: Query, env: Env)
    requires Shaped(q) && KeysOnly(q.clause)
    ensures Holds(q, env) <==> CondOf(q, q.clause.conds)(env)
  {
    hide AllPinned;
  }

  lemma ChainIsHung(q: Query, n: nat)
    requires WellSplit(q.clause) && n < |q.clause.split.groupChains|
    ensures Hung(q.clause, q.clause.split.groupChains[n])
  {
  }

  lemma AreDisjoint(steps: seq<JoinStep>, q: Query)
    requires IsTree(q.clause.root, steps) && Splits(q.clause.root, steps, q.clause.split)
    ensures ChainsDisjoint(q)
  {
    hide IsTree, Splits, Chain.Has;
    forall a, b, t | 0 <= a < b < |q.clause.split.groupChains|
      ensures !q.clause.split.groupChains[a].Has(t) || !q.clause.split.groupChains[b].Has(t)
    {
      OneScope(q.clause.root, steps, q.clause.split, t);
    }
  }

  /** Where the chains carry keys only, the clause groups under every cell the rows the flat joins and
    * filters leave there. */
  lemma GroupedIsFlat(steps: seq<JoinStep>, q: Query, tags: seq<Option<Table>>, keys: seq<GroupKey>, cell: seq<Value>)
    requires Emittable(steps, q.clause, tags, keys) && Local(q, tags) && |cell| == |keys|
    requires Shaped(q) && KeysOnly(q.clause)
    ensures GroupedRows(q, keys, cell) == FlatCounted(q, keys, cell)
  {
    hide IsTree, Splits, FlatRows, Where, Projects, Places, Local, GroupedRows, InCell, FlatCounts, KeysOnly;
    EmittedClauseCounts(steps, q, tags, keys, cell);
    forall o | o in FlatRows(q)
      ensures InCell(q, keys, o, cell) <==> FlatCounts(q, keys, o, cell)
    {
      CountsTheSame(steps, q, tags, keys, cell, o);
    }
    SelectSame(FlatRows(q), o => InCell(q, keys, o, cell), o => FlatCounts(q, keys, o, cell));
  }
}
