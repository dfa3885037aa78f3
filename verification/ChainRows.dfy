/** What a cluster's FROM clause returns: carved chains filter and label the flat rows without
  * multiplying them.  Joins follow section 7.7 of ISO/IEC 9075-2:2003. */
module ChainRows {
  import opened Relationships
  import opened Relational
  import opened JoinPath
  import opened ClusterFrom
  import Summarize

  type DbRow = map<Column, Value>
  type Db = map<Table, seq<DbRow>>

  /** The row of each table in scope; None where a LEFT JOIN found none. */
  type Env = map<Table, Option<DbRow>>

  function Col(r: Option<DbRow>, c: Column): Value {
    if r.Some? && c in r.value then r.value[c] else Null
  }

  function ColOf(env: Env, t: Table, c: Column): Value {
    if t in env then Col(env[t], c) else Null
  }

  function RowsOf(db: Db, t: Table): seq<DbRow> {
    if t in db then db[t] else []
  }

  /** ON from.col IS NOT DISTINCT FROM table.col */
  predicate Link(env: Env, s: JoinStep, r: DbRow) {
    ColOf(env, s.fromTable, s.onFromCol) == Col(Some(r), s.onToCol)
  }

  ghost function Matches(db: Db, env: Env, s: JoinStep): seq<DbRow> {
    Select(RowsOf(db, s.table), r => Link(env, s, r))
  }

  ghost function WithRows(env: Env, t: Table, rows: seq<DbRow>): seq<Env> {
    Images(rows, r => env[t := Some(r)])
  }

  ghost function InnerJoins(db: Db, envs: seq<Env>, steps: seq<JoinStep>): seq<Env> {
    if steps == [] then envs else
    var s := steps[|steps| - 1];
    Flat(InnerJoins(db, envs, steps[..|steps| - 1]), env => WithRows(env, s.table, Matches(db, env, s)))
  }

  ghost function LeftRows(db: Db, env: Env, s: JoinStep): seq<Env> {
    var rows := Matches(db, env, s);
    if rows == [] then [env[s.table := None]] else WithRows(env, s.table, rows)
  }

  ghost function LeftJoins(db: Db, envs: seq<Env>, steps: seq<JoinStep>): seq<Env> {
    if steps == [] then envs else
    var s := steps[|steps| - 1];
    Flat(LeftJoins(db, envs, steps[..|steps| - 1]), env => LeftRows(db, env, s))
  }

  // ---- EXISTS chains ----

  /** `env` extends `start` by one row for each step's table, linked as the step says. */
  ghost predicate Combines(db: Db, start: Env, steps: seq<JoinStep>, env: Env) {
    && env.Keys == start.Keys + Before(steps, |steps|)
    && (forall t :: t in start ==> env[t] == start[t])
    && AllJoined(db, env, steps)
  }

  ghost predicate Joined(db: Db, env: Env, s: JoinStep) {
    && s.table in env && env[s.table].Some?
    && env[s.table].value in RowsOf(db, s.table) && Link(env, s, env[s.table].value)
  }

  /** Each step adds a table that is not in scope and leaves one that is. */
  ghost predicate InScope(start: set<Table>, steps: seq<JoinStep>) {
    forall i :: 0 <= i < |steps| ==> steps[i].table !in start + Before(steps, i) && steps[i].fromTable in start + Before(steps, i)
  }

  ghost function Before(steps: seq<JoinStep>, n: nat): set<Table>
    requires n <= |steps|
  {
    set i | 0 <= i < n :: steps[i].table
  }

  /** Nested-loop joins return exactly the linked combinations, whatever the order of the loops. */
  lemma JoinsAreCombinations(db: Db, start: Env, steps: seq<JoinStep>, env: Env)
    requires InScope(start.Keys, steps)
    ensures env in InnerJoins(db, [start], steps) <==> Combines(db, start, steps, env)
    decreases |steps|
  {
    if steps == [] {
      assert Combines(db, start, [], env) ==> env == start;
    } else {
      var front, s := steps[..|steps| - 1], steps[|steps| - 1];
      FrontInScope(start.Keys, steps);
      var joins := InnerJoins(db, [start], front);
      FlatMember(joins, e => WithRows(e, s.table, Matches(db, e, s)), env);
      if env in InnerJoins(db, [start], steps) {
        var e :| e in joins && env in WithRows(e, s.table, Matches(db, e, s));
        JoinsAreCombinations(db, start, front, e);
        OneMoreRow(db, start, steps, e, env);
      }
      if Combines(db, start, steps, env) {
        var e := OneRowLess(db, start, steps, env);
        JoinsAreCombinations(db, start, front, e);
      }
    }
  }

  lemma FrontInScope(start: set<Table>, steps: seq<JoinStep>)
    requires InScope(start, steps) && steps != []
    ensures InScope(start, steps[..|steps| - 1])
    ensures steps[|steps| - 1].table !in start + Before(steps, |steps| - 1)
    ensures Before(steps[..|steps| - 1], |steps| - 1) == Before(steps, |steps| - 1)
  {
    var front := steps[..|steps| - 1];
    forall i | 0 <= i <= |front|
      ensures Before(front, i) == Before(steps, i)
    {
      assert forall j :: 0 <= j < i ==> front[j] == steps[j];
    }
  }

  lemma WithRowsMember(env: Env, t: Table, rows: seq<DbRow>, e: Env)
    ensures e in WithRows(env, t, rows) <==> exists r :: r in rows && e == env[t := Some(r)]
  {
    if r :| r in rows && e == env[t := Some(r)] {
      var i :| 0 <= i < |rows| && rows[i] == r;
      assert WithRows(env, t, rows)[i] == e;
    }
  }

  /** `env` is `e` with one more table. */
  ghost predicate Adds(e: Env, t: Table, env: Env) {
    env.Keys == e.Keys + {t} && forall u :: u in e ==> env[u] == e[u]
  }

  lemma JoinedOneRow(db: Db, e: Env, s: JoinStep, env: Env)
    requires s.table !in e && s.fromTable in e
    ensures env in WithRows(e, s.table, Matches(db, e, s)) <==> Adds(e, s.table, env) && Joined(db, env, s)
  {
    WithRowsMember(e, s.table, Matches(db, e, s), env);
    SelectMember(RowsOf(db, s.table), r => Link(e, s, r));
    if Adds(e, s.table, env) && Joined(db, env, s) {
      assert env == e[s.table := Some(env[s.table].value)];
    }
  }

  ghost predicate AllJoined(db: Db, env: Env, steps: seq<JoinStep>) {
    forall i :: 0 <= i < |steps| ==> Joined(db, env, steps[i])
  }

  ghost predicate AllIn(tables: set<Table>, steps: seq<JoinStep>) {
    forall i :: 0 <= i < |steps| ==> steps[i].table in tables && steps[i].fromTable in tables
  }

  lemma AllJoinedSame(db: Db, e: Env, t: Table, env: Env, steps: seq<JoinStep>)
    requires Adds(e, t, env) && AllIn(e.Keys, steps)
    ensures AllJoined(db, e, steps) <==> AllJoined(db, env, steps)
  {
  }

  lemma AllJoinedPush(db: Db, env: Env, steps: seq<JoinStep>)
    requires steps != []
    ensures AllJoined(db, env, steps) <==> AllJoined(db, env, steps[..|steps| - 1]) && Joined(db, env, steps[|steps| - 1])
  {
  }

  lemma OneMoreRow(db: Db, start: Env, steps: seq<JoinStep>, e: Env, env: Env)
    requires InScope(start.Keys, steps) && steps != [] && Combines(db, start, steps[..|steps| - 1], e)
    requires var s := steps[|steps| - 1]; env in WithRows(e, s.table, Matches(db, e, s))
    ensures Combines(db, start, steps, env)
  {
    hide InScope, Joined, AllJoined, AllIn, WithRows, Before, Matches;
    var front, s := steps[..|steps| - 1], steps[|steps| - 1];
    LastInScope(start.Keys, steps);
    JoinedOneRow(db, e, s, env);
    AllJoinedSame(db, e, s.table, env, front);
    AllJoinedPush(db, env, steps);
  }

  /** Every table the steps use is in scope before the last one joins. */
  lemma LastInScope(start: set<Table>, steps: seq<JoinStep>)
    requires InScope(start, steps) && steps != []
    ensures var front, s := steps[..|steps| - 1], steps[|steps| - 1];
      && s.table !in start + Before(front, |front|) && s.fromTable in start + Before(front, |front|)
      && Before(steps, |steps|) == Before(front, |front|) + {s.table}
      && AllIn(start + Before(front, |front|), front)
  {
    var front := steps[..|steps| - 1];
    FrontInScope(start, steps);
    forall i | 0 <= i < |front|
      ensures front[i].table in Before(front, |front|) && front[i].fromTable in start + Before(front, |front|)
    {
      assert front[i] == steps[i];
      InScopeAt(start, front, i);
    }
  }

  lemma InScopeAt(start: set<Table>, steps: seq<JoinStep>, i: nat)
    requires InScope(start, steps) && i < |steps|
    ensures steps[i].table !in start + Before(steps, i) && steps[i].fromTable in start + Before(steps, i)
  {
  }

  lemma Without(env: Env, t: Table) returns (e: Env)
    requires t in env
    ensures e == env - {t} && e.Keys == env.Keys - {t} && Adds(e, t, env)
  {
    e := env - {t};
  }

  lemma OneRowLess(db: Db, start: Env, steps: seq<JoinStep>, env: Env) returns (e: Env)
    requires InScope(start.Keys, steps) && steps != [] && Combines(db, start, steps, env)
    ensures var s := steps[|steps| - 1];
      Combines(db, start, steps[..|steps| - 1], e) && env in WithRows(e, s.table, Matches(db, e, s))
  {
    hide InScope, Joined, AllJoined, AllIn, WithRows, Before, Matches;
    var front, s := steps[..|steps| - 1], steps[|steps| - 1];
    LastInScope(start.Keys, steps);
    AllJoinedPush(db, env, steps);
    e := Without(env, s.table);
    assert e.Keys == start.Keys + Before(front, |front|);
    JoinedOneRow(db, e, s, env);
    AllJoinedSame(db, e, s.table, env, front);
  }

  lemma JoinsOfEach(db: Db, envs: seq<Env>, steps: seq<JoinStep>, env: Env)
    ensures env in InnerJoins(db, envs, steps) <==> exists e :: e in envs && env in InnerJoins(db, [e], steps)
    decreases |steps|
  {
    if steps == [] {
      assert forall e :: InnerJoins(db, [e], steps) == [e];
      assert env in envs ==> env in [env];
    } else {
      var front, s := steps[..|steps| - 1], steps[|steps| - 1];
      var more := (w: Env) => WithRows(w, s.table, Matches(db, w, s));
      FlatMember(InnerJoins(db, envs, front), more, env);
      forall e
        ensures env in InnerJoins(db, [e], steps) <==> exists w :: w in InnerJoins(db, [e], front) && env in more(w)
      {
        FlatMember(InnerJoins(db, [e], front), more, env);
      }
      forall w
        ensures w in InnerJoins(db, envs, front) <==> exists e :: e in envs && w in InnerJoins(db, [e], front)
      {
        JoinsOfEach(db, envs, front, w);
      }
    }
  }

  /** FROM anchor JOIN ..., before the correlation. */
  ghost function ExistsRows(db: Db, o: Env, c: Chain): seq<Env> {
    InnerJoins(db, WithRows(o, c.anchor.table, RowsOf(db, c.anchor.table)), c.steps)
  }

  /** The chain's bridge key matched back to the outer row. */
  predicate Correlates(env: Env, s: JoinStep) {
    ColOf(env, s.table, s.onToCol) == ColOf(env, s.fromTable, s.onFromCol)
  }

  lemma StepsInScope(start: set<Table>, c: Chain)
    requires InScope(start, c.Steps())
    ensures InScope(start + {c.anchor.table}, c.steps) && c.anchor.table !in start && c.anchor.fromTable in start
    ensures Before(c.Steps(), |c.Steps()|) == {c.anchor.table} + Before(c.steps, |c.steps|)
  {
    var all := c.Steps();
    assert all[0] == c.anchor && Before(all, 0) == {};
    InScopeAt(start, all, 0);
    forall i | 0 <= i <= |c.steps|
      ensures Before(all, i + 1) == {c.anchor.table} + Before(c.steps, i)
    {
      assert forall j :: 0 <= j < i ==> c.steps[j] == all[j + 1];
      forall t
        ensures t in Before(all, i + 1) <==> t in {c.anchor.table} + Before(c.steps, i)
      {
        if t in Before(all, i + 1) && t != c.anchor.table {
          var j :| 0 <= j < i + 1 && all[j].table == t;
          assert c.steps[j - 1] == all[j];
        }
        if t in Before(c.steps, i) {
          var j :| 0 <= j < i && c.steps[j].table == t;
          assert all[j + 1].table == t;
        }
      }
    }
    forall i | 0 <= i < |c.steps|
      ensures c.steps[i].table !in start + {c.anchor.table} + Before(c.steps, i)
      ensures c.steps[i].fromTable in start + {c.anchor.table} + Before(c.steps, i)
    {
      assert c.steps[i] == all[i + 1];
      InScopeAt(start, all, i + 1);
    }
  }

  lemma AnchorRow(db: Db, o: Env, c: Chain, env: Env)
    requires InScope(o.Keys, c.Steps())
    ensures Combines(db, o, c.Steps(), env) <==>
      Correlates(env, c.anchor) && exists r :: r in RowsOf(db, c.anchor.table) && Combines(db, o[c.anchor.table := Some(r)], c.steps, env)
  {
    var a := c.anchor.table;
    StepsInScope(o.Keys, c);
    AllJoinedCons(db, env, c);
    hide InScope, AllJoined, Before, RowsOf;
    if r :| r in RowsOf(db, a) && Combines(db, o[a := Some(r)], c.steps, env) && Correlates(env, c.anchor) {
      assert env[a] == Some(r) by { assert a in o[a := Some(r)]; }
      assert Joined(db, env, c.anchor);
      forall t | t in o
        ensures env[t] == o[t]
      {
        assert t in o[a := Some(r)];
      }
    }
    if Combines(db, o, c.Steps(), env) {
      assert Joined(db, env, c.anchor);
      var r := env[a].value;
      assert Combines(db, o[a := Some(r)], c.steps, env);
    }
  }

  lemma AllJoinedCons(db: Db, env: Env, c: Chain)
    ensures AllJoined(db, env, c.Steps()) <==> Joined(db, env, c.anchor) && AllJoined(db, env, c.steps)
  {
    hide Joined;
    var all := c.Steps();
    assert all[0] == c.anchor && forall i :: 0 <= i < |c.steps| ==> all[i + 1] == c.steps[i];
    if AllJoined(db, env, all) {
      forall i | 0 <= i < |c.steps|
        ensures Joined(db, env, c.steps[i])
      {
        assert Joined(db, env, all[i + 1]);
      }
    }
    if Joined(db, env, c.anchor) && AllJoined(db, env, c.steps) {
      forall i | 0 <= i < |all|
        ensures Joined(db, env, all[i])
      {
        if i > 0 {
          assert all[i] == c.steps[i - 1];
        }
      }
    }
  }

  /** The EXISTS body, correlated, sees the rows the flat inner join would add to the outer row. */
  lemma ExistsIsFlatJoin(db: Db, o: Env, c: Chain, env: Env)
    requires InScope(o.Keys, c.Steps())
    ensures env in ExistsRows(db, o, c) && Correlates(env, c.anchor) <==> env in InnerJoins(db, [o], c.Steps())
    ensures env in InnerJoins(db, [o], c.Steps()) <==> Combines(db, o, c.Steps(), env)
  {
    hide InScope, Combines, InnerJoins, Correlates, Before;
    var a, rows := c.anchor.table, RowsOf(db, c.anchor.table);
    StepsInScope(o.Keys, c);
    JoinsAreCombinations(db, o, c.Steps(), env);
    AnchorRow(db, o, c, env);
    JoinsOfEach(db, WithRows(o, a, rows), c.steps, env);
    forall r | r in rows
      ensures o[a := Some(r)] in WithRows(o, a, rows)
      ensures env in InnerJoins(db, [o[a := Some(r)]], c.steps) <==> Combines(db, o[a := Some(r)], c.steps, env)
    {
      WithRowsMember(o, a, rows, o[a := Some(r)]);
      assert o[a := Some(r)].Keys == o.Keys + {a};
      JoinsAreCombinations(db, o[a := Some(r)], c.steps, env);
    }
    forall e | e in WithRows(o, a, rows)
      ensures exists r :: r in rows && e == o[a := Some(r)]
    {
      WithRowsMember(o, a, rows, e);
    }
  }

  ghost predicate Passes(db: Db, o: Env, c: Chain, cond: Env -> bool) {
    exists env :: env in ExistsRows(db, o, c) && Correlates(env, c.anchor) && cond(env)
  }

  function Restrict(env: Env, keys: set<Table>): Env {
    map t | t in env && t in keys :: env[t]
  }

  ghost predicate Projected(db: Db, outer: seq<Env>, c: Chain, cond: Env -> bool, keys: set<Table>, o: Env) {
    exists env :: env in InnerJoins(db, outer, c.Steps()) && cond(env) && Restrict(env, keys) == o
  }

  lemma SelectCounts<T>(rows: seq<T>, p: T -> bool, r: T)
    ensures multiset(Select(rows, p))[r] == if p(r) then multiset(rows)[r] else 0
  {
    if rows != [] {
      var front, last := rows[..|rows| - 1], rows[|rows| - 1];
      assert rows == front + [last];
      SelectCounts(front, p, r);
    }
  }

  /** An EXISTS chain is the duplicate-free projection of the flat inner join: an outer row stays as
    * often as it was there when some combination of chain rows satisfies the chain's predicates, and
    * goes otherwise. */
  lemma CarvingIsDistinctProjection(db: Db, outer: seq<Env>, c: Chain, cond: Env -> bool, keys: set<Table>, o: Env)
    requires (forall e :: e in outer ==> e.Keys == keys) && InScope(keys, c.Steps()) && o in outer
    ensures multiset(Select(outer, e => Passes(db, e, c, cond)))[o]
      == if Projected(db, outer, c, cond, keys, o) then multiset(outer)[o] else 0
    ensures Passes(db, o, c, cond) <==> exists env :: Combines(db, o, c.Steps(), env) && cond(env)
  {
    hide InScope, ExistsRows, InnerJoins, Correlates;
    SelectCounts(outer, e => Passes(db, e, c, cond), o);
    forall env
      ensures env in ExistsRows(db, o, c) && Correlates(env, c.anchor) <==> Combines(db, o, c.Steps(), env)
      ensures env in InnerJoins(db, outer, c.Steps()) <==> exists e :: e in outer && Combines(db, e, c.Steps(), env)
    {
      ExistsIsFlatJoin(db, o, c, env);
      JoinsOfEach(db, outer, c.Steps(), env);
      forall e | e in outer
        ensures env in InnerJoins(db, [e], c.Steps()) <==> Combines(db, e, c.Steps(), env)
      {
        ExistsIsFlatJoin(db, e, c, env);
      }
    }
    forall e, env | e in outer && Combines(db, e, c.Steps(), env)
      ensures Restrict(env, keys) == e
    {
    }
  }

  // ---- DISTINCT group chains ----

  /** One row of a DISTINCT map: its anchor column and the group columns it carries. */
  datatype MapRow = MapRow(anchor: Value, vals: seq<Value>)

  /** A flat row with its partner in each group chain's map, None on the NULL side. */
  datatype Wide = Wide(env: Env, maps: seq<Option<MapRow>>)

  datatype Query = Query(db: Db, clause: Clause, preds: seq<Env -> bool>)

  ghost predicate Shaped(q: Query) {
    var c := q.clause;
    |c.selected| == |c.split.groupChains| == |c.groupPreds| && |c.existsPreds| == |c.split.existsChains|
  }

  ghost function CondOf(q: Query, taken: seq<nat>): Env -> bool {
    (env: Env) => forall p :: p in taken ==> p < |q.preds| && q.preds[p](env)
  }

  ghost function MapOf(c: Chain, keys: seq<GroupKey>, env: Env): MapRow {
    MapRow(ColOf(env, c.anchor.table, c.anchor.onToCol), seq(|keys|, i requires 0 <= i < |keys| => ColOf(env, keys[i].table, keys[i].col)))
  }

  /** The chain's own rows: FROM anchor LEFT JOIN ... WHERE its predicates. */
  ghost function ChainRowsOf(q: Query, n: nat): seq<Env>
    requires Shaped(q) && n < |q.clause.selected|
  {
    var c := q.clause.split.groupChains[n];
    Select(LeftJoins(q.db, WithRows(map[], c.anchor.table, RowsOf(q.db, c.anchor.table)), c.steps), CondOf(q, q.clause.groupPreds[n]))
  }

  ghost function MapTable(q: Query, n: nat): seq<MapRow>
    requires Shaped(q) && n < |q.clause.selected|
  {
    KeysOf(ChainRowsOf(q, n), env => MapOf(q.clause.split.groupChains[n], q.clause.selected[n], env))
  }

  ghost function AnchorOf(q: Query, n: nat, o: Env): Value
    requires Shaped(q) && n < |q.clause.selected|
  {
    var s := q.clause.split.groupChains[n].anchor;
    ColOf(o, s.fromTable, s.onFromCol)
  }

  ghost function PartnersOf(q: Query, n: nat, o: Env): seq<MapRow>
    requires Shaped(q) && n < |q.clause.selected|
  {
    Select(MapTable(q, n), (m: MapRow) => m.anchor == AnchorOf(q, n, o))
  }

  ghost function JoinMap(q: Query, n: nat, w: Wide): seq<Wide>
    requires Shaped(q) && n < |q.clause.selected|
  {
    var partners := PartnersOf(q, n, w.env);
    if partners == [] then [Wide(w.env, w.maps + [None])]
    else Images(partners, m => Wide(w.env, w.maps + [Some(m)]))
  }

  ghost function FlatRows(q: Query): seq<Env> {
    LeftJoins(q.db, WithRows(map[], q.clause.root, RowsOf(q.db, q.clause.root)), q.clause.split.flat)
  }

  ghost function WideRows(q: Query, n: nat): seq<Wide>
    requires Shaped(q) && n <= |q.clause.selected|
  {
    if n == 0 then Images(FlatRows(q), o => Wide(o, []))
    else Flat(WideRows(q, n - 1), w => JoinMap(q, n - 1, w))
  }

  // ---- one cell ----

  ghost function Nulls(n: nat): seq<Value> {
    seq(n, _ => Null)
  }

  ghost function ValsOf(m: Option<MapRow>, width: nat): seq<Value> {
    if m.Some? then m.value.vals else Nulls(width)
  }

  /** A flat row reaches a group tuple when some chain row on its key carries it; a flat row no chain
    * row is on has the NULL tuple. */
  ghost predicate Reaches(q: Query, n: nat, o: Env, tuple: seq<Value>)
    requires Shaped(q) && n < |q.clause.selected|
  {
    var c, keys := q.clause.split.groupChains[n], q.clause.selected[n];
    if exists env :: env in ChainRowsOf(q, n) && MapOf(c, keys, env).anchor == AnchorOf(q, n, o)
    then exists env :: env in ChainRowsOf(q, n) && MapOf(c, keys, env) == MapRow(AnchorOf(q, n, o), tuple)
    else tuple == Nulls(|keys|)
  }

  ghost function TheMap(q: Query, n: nat, o: Env, tuple: seq<Value>): Option<MapRow>
    requires Shaped(q) && n < |q.clause.selected|
  {
    if PartnersOf(q, n, o) == [] then None else Some(MapRow(AnchorOf(q, n, o), tuple))
  }

  ghost function LastIs(width: nat, tuple: seq<Value>): Wide -> bool {
    (w: Wide) => w.maps != [] && ValsOf(w.maps[|w.maps| - 1], width) == tuple
  }

  /** However many chain rows lead to a tuple, joining the map adds it to a flat row at most once. */
  lemma MapJoinsOnce(q: Query, n: nat, w: Wide, tuple: seq<Value>)
    requires Shaped(q) && n < |q.clause.selected|
    ensures Select(JoinMap(q, n, w), LastIs(|q.clause.selected[n]|, tuple))
      == if Reaches(q, n, w.env, tuple) then [Wide(w.env, w.maps + [TheMap(q, n, w.env, tuple)])] else []
  {
    hide PartnersOf, AnchorOf, Reaches;
    var width, partners := |q.clause.selected[n]|, PartnersOf(q, n, w.env);
    ReachesIsPartner(q, n, w.env, tuple);
    var hit := LastIs(width, tuple);
    if partners == [] {
      var v := Wide(w.env, w.maps + [None]);
      if hit(v) {
        SelectOne(v, hit);
      } else {
        SelectNone([v], hit);
      }
    } else {
      var mk := (m: MapRow) => Wide(w.env, w.maps + [Some(m)]);
      SelectImages(partners, mk, hit, (m: MapRow) => m.vals == tuple);
      OnePartner(partners, AnchorOf(q, n, w.env), tuple);
    }
  }

  lemma ReachesIsPartner(q: Query, n: nat, o: Env, tuple: seq<Value>)
    requires Shaped(q) && n < |q.clause.selected|
    ensures var partners, width := PartnersOf(q, n, o), |q.clause.selected[n]|;
      && Distinct(partners) && (forall m :: m in partners ==> m.anchor == AnchorOf(q, n, o))
      && (Reaches(q, n, o, tuple) <==> if partners == [] then tuple == Nulls(width) else MapRow(AnchorOf(q, n, o), tuple) in partners)
  {
    hide ChainRowsOf, MapOf, AnchorOf, PartnersOf;
    PartnersAre(q, n, o);
    var partners := PartnersOf(q, n, o);
    assert partners != [] ==> partners[0] in partners;
  }

  lemma OnePartner(partners: seq<MapRow>, anchor: Value, tuple: seq<Value>)
    requires Distinct(partners) && forall m :: m in partners ==> m.anchor == anchor
    ensures Select(partners, (m: MapRow) => m.vals == tuple) == if MapRow(anchor, tuple) in partners then [MapRow(anchor, tuple)] else []
  {
    var mine := (m: MapRow) => m.vals == tuple;
    forall j | 0 <= j < |partners|
      ensures partners[j].anchor == anchor
    {
      assert partners[j] in partners;
    }
    if MapRow(anchor, tuple) in partners {
      var i :| 0 <= i < |partners| && partners[i] == MapRow(anchor, tuple);
      SelectAt(partners, mine, i);
    } else {
      SelectNone(partners, mine);
    }
  }

  lemma PartnersAre(q: Query, n: nat, o: Env)
    requires Shaped(q) && n < |q.clause.selected|
    ensures Distinct(PartnersOf(q, n, o))
    ensures forall m :: m in PartnersOf(q, n, o) <==>
      m.anchor == AnchorOf(q, n, o) && exists env :: env in ChainRowsOf(q, n) && MapOf(q.clause.split.groupChains[n], q.clause.selected[n], env) == m
  {
    hide ChainRowsOf, MapOf;
    KeysOfIsExact(ChainRowsOf(q, n), env => MapOf(q.clause.split.groupChains[n], q.clause.selected[n], env));
    Summarize.SelectIsSubset(MapTable(q, n), (m: MapRow) => m.anchor == AnchorOf(q, n, o));
  }

  ghost predicate ReachesAll(q: Query, o: Env, cell: seq<seq<Value>>, n: nat)
    requires Shaped(q) && n <= |q.clause.selected| && n <= |cell|
  {
    forall i :: 0 <= i < n ==> Reaches(q, i, o, cell[i])
  }

  ghost function TheMaps(q: Query, o: Env, cell: seq<seq<Value>>, n: nat): seq<Option<MapRow>>
    requires Shaped(q) && n <= |q.clause.selected| && n <= |cell|
  {
    seq(n, i requires 0 <= i < n => TheMap(q, i, o, cell[i]))
  }

  /** Every map of a wide row shows the cell's tuple. */
  ghost predicate Shows(q: Query, w: Wide, cell: seq<seq<Value>>, n: nat)
    requires Shaped(q) && n <= |q.clause.selected| && n <= |cell|
  {
    |w.maps| == n && forall i :: 0 <= i < n ==> ValsOf(w.maps[i], |q.clause.selected[i]|) == cell[i]
  }

  ghost function ShowsCell(q: Query, cell: seq<seq<Value>>, n: nat): Wide -> bool
    requires Shaped(q) && n <= |q.clause.selected| && n <= |cell|
  {
    (w: Wide) => Shows(q, w, cell, n)
  }

  ghost function ReachesCell(q: Query, cell: seq<seq<Value>>, n: nat): Env -> bool
    requires Shaped(q) && n <= |q.clause.selected| && n <= |cell|
  {
    (o: Env) => ReachesAll(q, o, cell, n)
  }

  lemma SelectFlat<X, Y>(xs: seq<X>, f: X -> seq<Y>, p: Y -> bool, g: X -> seq<Y>)
    requires forall x :: x in xs ==> g(x) == Select(f(x), p)
    ensures Select(Flat(xs, f), p) == Flat(xs, g)
  {
    if xs != [] {
      var front, last := xs[..|xs| - 1], xs[|xs| - 1];
      assert xs == front + [last];
      SelectFlat(front, f, p, g);
      SelectConcat(Flat(front, f), f(last), p);
    }
  }

  lemma FlatMaybe<X, Y>(xs: seq<X>, p: X -> bool, f: X -> Y, g: X -> seq<Y>)
    requires forall x :: x in xs ==> g(x) == if p(x) then [f(x)] else []
    ensures Flat(xs, g) == Images(Select(xs, p), f)
  {
  }

  lemma ShowsOneMore(q: Query, cell: seq<seq<Value>>, n: nat, w: Wide, v: Wide)
    requires Shaped(q) && n < |q.clause.selected| && n < |cell| && v in JoinMap(q, n, w)
    ensures Shows(q, v, cell, n + 1) <==> Shows(q, w, cell, n) && LastIs(|q.clause.selected[n]|, cell[n])(v)
  {
    hide ValsOf, PartnersOf;
    var m :| v == Wide(w.env, w.maps + [m]) by {
      JoinMapAdds(q, n, w, v);
    }
    hide JoinMap;
    assert forall i :: 0 <= i < |w.maps| ==> v.maps[i] == w.maps[i];
  }

  lemma JoinMapAdds(q: Query, n: nat, w: Wide, v: Wide)
    requires Shaped(q) && n < |q.clause.selected| && v in JoinMap(q, n, w)
    ensures exists m :: v == Wide(w.env, w.maps + [m])
  {
    hide PartnersOf;
    var partners := PartnersOf(q, n, w.env);
    if partners != [] {
      var i :| 0 <= i < |partners| && v == Wide(w.env, w.maps + [Some(partners[i])]);
    }
  }

  /** The rows of a cell are the flat rows that reach its tuples, each of them once. */
  lemma WideRowsOfCell(q: Query, cell: seq<seq<Value>>, n: nat)
    requires Shaped(q) && n <= |q.clause.selected| && n <= |cell|
    ensures Select(WideRows(q, n), ShowsCell(q, cell, n))
      == Images(Select(FlatRows(q), ReachesCell(q, cell, n)), o => Wide(o, TheMaps(q, o, cell, n)))
  {
    hide FlatRows, Reaches, JoinMap, TheMap, Shows;
    if n == 0 {
      assert forall o: Env :: ReachesCell(q, cell, 0)(o);
      forall o
        ensures ShowsCell(q, cell, 0)(Wide(o, [])) && TheMaps(q, o, cell, 0) == []
      {
        ShowsNothing(q, cell, o);
      }
      SelectAll(FlatRows(q), ReachesCell(q, cell, 0));
      SelectAll(Images(FlatRows(q), o => Wide(o, [])), ShowsCell(q, cell, 0));
    } else {
      WideRowsOfCell(q, cell, n - 1);
      OneMoreMap(q, cell, n - 1);
    }
  }

  lemma ShowsNothing(q: Query, cell: seq<seq<Value>>, o: Env)
    requires Shaped(q)
    ensures Shows(q, Wide(o, []), cell, 0)
  {
  }

  lemma OneMoreMap(q: Query, cell: seq<seq<Value>>, n: nat)
    requires Shaped(q) && n < |q.clause.selected| && n < |cell|
    requires Select(WideRows(q, n), ShowsCell(q, cell, n))
      == Images(Select(FlatRows(q), ReachesCell(q, cell, n)), o => Wide(o, TheMaps(q, o, cell, n)))
    ensures Select(WideRows(q, n + 1), ShowsCell(q, cell, n + 1))
      == Images(Select(FlatRows(q), ReachesCell(q, cell, n + 1)), o => Wide(o, TheMaps(q, o, cell, n + 1)))
  {
    hide FlatRows, Reaches, JoinMap, TheMap, Shows, Select, Flat, LastIs;
    var width := |q.clause.selected[n]|;
    var join, shows := (w: Wide) => JoinMap(q, n, w), ShowsCell(q, cell, n);
    var last := (w: Wide) => Select(JoinMap(q, n, w), LastIs(width, cell[n]));
    var both := (w: Wide) => if shows(w) then last(w) else [];
    forall w | w in WideRows(q, n)
      ensures both(w) == Select(join(w), ShowsCell(q, cell, n + 1))
    {
      JoinMapShows(q, cell, n, w);
    }
    SelectFlat(WideRows(q, n), join, ShowsCell(q, cell, n + 1), both);
    FlatSelect(WideRows(q, n), shows, last, both);
    var reached, mk := Select(FlatRows(q), ReachesCell(q, cell, n)), (o: Env) => Wide(o, TheMaps(q, o, cell, n));
    var next := (o: Env) => Wide(o, TheMaps(q, o, cell, n + 1));
    var here := (o: Env) => Reaches(q, n, o, cell[n]);
    var one := (o: Env) => if here(o) then [next(o)] else [];
    forall o | o in reached
      ensures one(o) == last(mk(o))
    {
      MapJoinsOnce(q, n, mk(o), cell[n]);
      assert TheMaps(q, o, cell, n + 1) == TheMaps(q, o, cell, n) + [TheMap(q, n, o, cell[n])];
    }
    FlatImages(reached, mk, last, one);
    FlatMaybe(reached, here, next, one);
    SelectTwice(FlatRows(q), ReachesCell(q, cell, n), here, ReachesCell(q, cell, n + 1));
  }

  lemma JoinMapShows(q: Query, cell: seq<seq<Value>>, n: nat, w: Wide)
    requires Shaped(q) && n < |q.clause.selected| && n < |cell|
    ensures Select(JoinMap(q, n, w), ShowsCell(q, cell, n + 1))
      == if Shows(q, w, cell, n) then Select(JoinMap(q, n, w), LastIs(|q.clause.selected[n]|, cell[n])) else []
  {
    hide Shows, JoinMap, LastIs;
    forall v | v in JoinMap(q, n, w)
      ensures Shows(q, v, cell, n + 1) <==> Shows(q, w, cell, n) && LastIs(|q.clause.selected[n]|, cell[n])(v)
    {
      ShowsOneMore(q, cell, n, w, v);
    }
    if Shows(q, w, cell, n) {
      SelectSame(JoinMap(q, n, w), ShowsCell(q, cell, n + 1), LastIs(|q.clause.selected[n]|, cell[n]));
    } else {
      assert forall i :: 0 <= i < |JoinMap(q, n, w)| ==> JoinMap(q, n, w)[i] in JoinMap(q, n, w);
      SelectNone(JoinMap(q, n, w), ShowsCell(q, cell, n + 1));
    }
  }

  // ---- the cluster's groups ----

  /** The GROUP BY columns: a carried key is read from its map, the others from the flat row. */
  ghost function KeyAt(q: Query, w: Wide, k: GroupKey): Value {
    if k in q.clause.refs then
      var ref := q.clause.refs[k];
      if ref.chain < |w.maps| && ref.chain < |q.clause.selected| then
        var vals := ValsOf(w.maps[ref.chain], |q.clause.selected[ref.chain]|);
        if ref.slot < |vals| then vals[ref.slot] else Null
      else Null
    else ColOf(w.env, k.table, k.col)
  }

  ghost function KeyOf(q: Query, keys: seq<GroupKey>, w: Wide): seq<Value> {
    seq(|keys|, i requires 0 <= i < |keys| => KeyAt(q, w, keys[i]))
  }

  /** WHERE: the plain conditions and one EXISTS per filter chain. */
  ghost predicate Where(q: Query, o: Env)
    requires Shaped(q)
  {
    && CondOf(q, q.clause.conds)(o)
    && forall c :: 0 <= c < |q.clause.existsPreds| ==>
         Passes(q.db, o, q.clause.split.existsChains[c], CondOf(q, q.clause.existsPreds[c]))
  }

  ghost function CellVal(keys: seq<GroupKey>, cell: seq<Value>, k: GroupKey): Value
    requires |cell| == |keys|
  {
    if k in keys then
      var i :| 0 <= i < |keys| && keys[i] == k;
      cell[i]
    else Null
  }

  /** The cell's part of one chain's columns. */
  ghost function TupleOf(q: Query, keys: seq<GroupKey>, cell: seq<Value>, n: nat): seq<Value>
    requires n < |q.clause.selected| && |cell| == |keys|
  {
    var selected := q.clause.selected[n];
    seq(|selected|, j requires 0 <= j < |selected| => CellVal(keys, cell, selected[j]))
  }

  ghost function TuplesOf(q: Query, keys: seq<GroupKey>, cell: seq<Value>): seq<seq<Value>>
    requires |cell| == |keys|
  {
    seq(|q.clause.selected|, n requires 0 <= n < |q.clause.selected| => TupleOf(q, keys, cell, n))
  }

  ghost predicate FlatKeysMatch(q: Query, keys: seq<GroupKey>, o: Env, cell: seq<Value>)
    requires |cell| == |keys|
  {
    && (forall i :: 0 <= i < |keys| && keys[i] !in q.clause.refs ==> ColOf(o, keys[i].table, keys[i].col) == cell[i])
    && (forall i, j :: 0 <= i < |keys| && 0 <= j < |keys| && keys[i] == keys[j] ==> cell[i] == cell[j])
  }

  /** A flat row counts in a cell: it passes the conditions, has the cell's own columns, and reaches
    * the cell's values through every group chain. */
  ghost predicate InCell(q: Query, keys: seq<GroupKey>, o: Env, cell: seq<Value>)
    requires Shaped(q) && |cell| == |keys|
  {
    && Where(q, o) && FlatKeysMatch(q, keys, o, cell)
    && forall n :: 0 <= n < |q.clause.selected| ==> Reaches(q, n, o, TupleOf(q, keys, cell, n))
  }

  /** A map's columns for one key agree. */
  ghost predicate FromMap(q: Query, n: nat, m: Option<MapRow>)
    requires n < |q.clause.selected|
  {
    var keys := q.clause.selected[n];
    var vals := ValsOf(m, |keys|);
    |vals| == |keys| && forall i, j :: 0 <= i < |keys| && 0 <= j < |keys| && keys[i] == keys[j] ==> vals[i] == vals[j]
  }

  ghost predicate FromMaps(q: Query, w: Wide, n: nat)
    requires n <= |q.clause.selected|
  {
    |w.maps| == n && forall i :: 0 <= i < n ==> FromMap(q, i, w.maps[i])
  }

  lemma JoinMapFromMap(q: Query, n: nat, w: Wide, v: Wide)
    requires Shaped(q) && n < |q.clause.selected| && v in JoinMap(q, n, w)
    ensures exists m :: v == Wide(w.env, w.maps + [m]) && FromMap(q, n, m)
  {
    hide ChainRowsOf, PartnersOf;
    var partners := PartnersOf(q, n, w.env);
    if partners == [] {
      assert FromMap(q, n, None);
    } else {
      var i :| 0 <= i < |partners| && v == Wide(w.env, w.maps + [Some(partners[i])]);
      PartnersAre(q, n, w.env);
      assert partners[i] in partners;
      assert FromMap(q, n, Some(partners[i]));
    }
  }

  lemma WideRowsFromMaps(q: Query, n: nat, v: Wide)
    requires Shaped(q) && n <= |q.clause.selected| && v in WideRows(q, n)
    ensures FromMaps(q, v, n)
  {
    hide FromMap, FlatRows, JoinMap;
    if n > 0 {
      FlatMember(WideRows(q, n - 1), w => JoinMap(q, n - 1, w), v);
      var w :| w in WideRows(q, n - 1) && v in JoinMap(q, n - 1, w);
      WideRowsFromMaps(q, n - 1, w);
      JoinMapFromMap(q, n - 1, w, v);
      assert forall i :: 0 <= i < n - 1 ==> v.maps[i] == w.maps[i];
    }
  }

  /** No table is in two group chains. */
  ghost predicate ChainsDisjoint(q: Query) {
    forall a, b, t :: 0 <= a < b < |q.clause.split.groupChains| ==>
      !q.clause.split.groupChains[a].Has(t) || !q.clause.split.groupChains[b].Has(t)
  }

  lemma RefIsHere(q: Query, keys: seq<GroupKey>, n: nat, j: nat)
    requires Shaped(q) && Projects(q.clause, keys) && ChainsDisjoint(q)
    requires n < |q.clause.selected| && j < |q.clause.selected[n]|
    ensures var k := q.clause.selected[n][j];
      k in keys && k in q.clause.refs && q.clause.refs[k].chain == n && RefersRight(q.clause.selected, q.clause.refs, k)
  {
    hide Chain.Has;
    var k, chains := q.clause.selected[n][j], q.clause.split.groupChains;
    assert k in q.clause.selected[n];
    assert chains[n].Has(k.table);
    assert RefersRight(q.clause.selected, q.clause.refs, k);
    var c := q.clause.refs[k].chain;
    assert k in q.clause.selected[c];
    assert chains[c].Has(k.table);
  }

  lemma KeyIsCell(q: Query, keys: seq<GroupKey>, w: Wide, cell: seq<Value>)
    requires Shaped(q) && Projects(q.clause, keys) && ChainsDisjoint(q)
    requires FromMaps(q, w, |q.clause.selected|) && |cell| == |keys|
    ensures KeyOf(q, keys, w) == cell <==>
      FlatKeysMatch(q, keys, w.env, cell) && Shows(q, w, TuplesOf(q, keys, cell), |q.clause.selected|)
  {
    hide ChainsDisjoint;
    if KeyOf(q, keys, w) == cell {
      CellIsKey(q, keys, w);
    }
    if FlatKeysMatch(q, keys, w.env, cell) && Shows(q, w, TuplesOf(q, keys, cell), |q.clause.selected|) {
      forall i | 0 <= i < |keys|
        ensures KeyAt(q, w, keys[i]) == cell[i]
      {
        var k := keys[i];
        if k in q.clause.refs {
          assert RefersRight(q.clause.selected, q.clause.refs, k);
          var ref := q.clause.refs[k];
          assert ValsOf(w.maps[ref.chain], |q.clause.selected[ref.chain]|) == TupleOf(q, keys, cell, ref.chain);
          assert CellVal(keys, cell, k) == cell[i];
        }
      }
    }
  }

  lemma CellIsKey(q: Query, keys: seq<GroupKey>, w: Wide)
    requires Shaped(q) && Projects(q.clause, keys) && ChainsDisjoint(q)
    requires FromMaps(q, w, |q.clause.selected|)
    ensures FlatKeysMatch(q, keys, w.env, KeyOf(q, keys, w))
    ensures Shows(q, w, TuplesOf(q, keys, KeyOf(q, keys, w)), |q.clause.selected|)
  {
    hide ChainsDisjoint, Projects;
    var cell := KeyOf(q, keys, w);
    forall n | 0 <= n < |q.clause.selected|
      ensures ValsOf(w.maps[n], |q.clause.selected[n]|) == TupleOf(q, keys, cell, n)
    {
      var vals := ValsOf(w.maps[n], |q.clause.selected[n]|);
      assert FromMap(q, n, w.maps[n]);
      forall j | 0 <= j < |q.clause.selected[n]|
        ensures vals[j] == TupleOf(q, keys, cell, n)[j]
      {
        RefIsHere(q, keys, n, j);
      }
    }
  }

  /** FROM ... WHERE ... GROUP BY: the rows of one group, as the measures read them. */
  ghost function GroupedRows(q: Query, keys: seq<GroupKey>, cell: seq<Value>): seq<Env>
    requires Shaped(q)
  {
    Images(Group(Select(WideRows(q, |q.clause.selected|), (w: Wide) => Where(q, w.env)), w => KeyOf(q, keys, w), cell),
           (w: Wide) => w.env)
  }

  ghost function CountedRows(q: Query, keys: seq<GroupKey>, cell: seq<Value>): seq<Env>
    requires Shaped(q) && |cell| == |keys|
  {
    Select(FlatRows(q), o => InCell(q, keys, o, cell))
  }

  /** The rows a cluster CTE groups under a cell are the flat rows that count there, each of them
    * once: no filter chain or group chain multiplies a joined row. */
  lemma CellCountsEachRowOnce(q: Query, keys: seq<GroupKey>, cell: seq<Value>)
    requires Shaped(q) && Projects(q.clause, keys) && ChainsDisjoint(q) && |cell| == |keys|
    ensures GroupedRows(q, keys, cell) == CountedRows(q, keys, cell)
  {
    hide ChainsDisjoint, Projects, Where, KeyOf, FlatKeysMatch, Reaches, FlatRows, WideRows, Shows, Select, Group, TheMaps, TupleOf, FromMaps;
    var n, tuples, wide := |q.clause.selected|, TuplesOf(q, keys, cell), WideRows(q, |q.clause.selected|);
    var rest := (o: Env) => Where(q, o) && FlatKeysMatch(q, keys, o, cell);
    var restOf := (w: Wide) => rest(w.env);
    var shows := ShowsCell(q, tuples, n);
    var both := (w: Wide) => shows(w) && restOf(w);
    forall w | w in wide
      ensures both(w) <==> Where(q, w.env) && KeyOf(q, keys, w) == cell
    {
      WideRowsFromMaps(q, n, w);
      KeyIsCell(q, keys, w, cell);
    }
    GroupOfSelect(wide, (w: Wide) => Where(q, w.env), w => KeyOf(q, keys, w), cell, both);
    SelectTwice(wide, shows, restOf, both);
    WideRowsOfCell(q, tuples, n);
    var mk := (o: Env) => Wide(o, TheMaps(q, o, tuples, n));
    var reached := Select(FlatRows(q), ReachesCell(q, tuples, n));
    SelectImages(reached, mk, restOf, rest);
    var counted := Select(reached, rest);
    assert Images(Images(counted, mk), (w: Wide) => w.env) == counted;
    assert forall i :: 0 <= i < n ==> tuples[i] == TupleOf(q, keys, cell, i);
    SelectTwice(FlatRows(q), ReachesCell(q, tuples, n), rest, o => InCell(q, keys, o, cell));
  }

  // ---- the emitted clause is one of these ----

  ghost function FlatTables(clause: Clause): set<Table> {
    {clause.root} + Before(clause.split.flat, |clause.split.flat|)
  }

  lemma EnteredIsBefore(root: Table, steps: seq<JoinStep>, t: Table)
    ensures Entered(root, steps, t) <==> t in {root} + Before(steps, |steps|)
  {
  }

  lemma LeftJoinsKeys(db: Db, envs: seq<Env>, start: set<Table>, steps: seq<JoinStep>, env: Env)
    requires (forall e :: e in envs ==> e.Keys == start) && env in LeftJoins(db, envs, steps)
    ensures env.Keys == start + Before(steps, |steps|)
    decreases |steps|
  {
    if steps != [] {
      var front, s := steps[..|steps| - 1], steps[|steps| - 1];
      FlatMember(LeftJoins(db, envs, front), e => LeftRows(db, e, s), env);
      var e :| e in LeftJoins(db, envs, front) && env in LeftRows(db, e, s);
      LeftJoinsKeys(db, envs, start, front, e);
      LeftRowsKeys(db, e, s, env);
      BeforePush(steps);
    }
  }

  lemma LeftRowsKeys(db: Db, e: Env, s: JoinStep, env: Env)
    requires env in LeftRows(db, e, s)
    ensures env.Keys == e.Keys + {s.table}
  {
  }

  lemma BeforePush(steps: seq<JoinStep>)
    requires steps != []
    ensures var front := steps[..|steps| - 1];
      Before(steps, |steps|) == Before(front, |front|) + {steps[|steps| - 1].table}
  {
  }

  lemma FlatRowsKeys(q: Query, o: Env)
    requires o in FlatRows(q)
    ensures o.Keys == FlatTables(q.clause)
  {
    var starts := WithRows(map[], q.clause.root, RowsOf(q.db, q.clause.root));
    forall e | e in starts
      ensures e.Keys == {q.clause.root}
    {
      WithRowsMember(map[], q.clause.root, RowsOf(q.db, q.clause.root), e);
    }
    LeftJoinsKeys(q.db, starts, {q.clause.root}, q.clause.split.flat, o);
  }

  /** A carved chain joins onto the flat tables: its own are new to them, and each of its steps starts
    * at a table in scope. */
  lemma ChainIsInScope(steps: seq<JoinStep>, clause: Clause, ch: Chain)
    requires IsTree(clause.root, steps) && Splits(clause.root, steps, clause.split)
    requires ch in clause.split.groupChains || ch in clause.split.existsChains
    ensures InScope(FlatTables(clause), ch.Steps()) && IsTree(ch.anchor.table, ch.steps)
  {
    var all, flat := ch.Steps(), FlatTables(clause);
    assert Hangs(clause.root, clause.split.flat, ch);
    assert IsTree(ch.anchor.table, ch.steps);
    forall t
      ensures ch.Has(t) ==> t !in flat
    {
      OneScope(clause.root, steps, clause.split, t);
      EnteredIsBefore(clause.root, clause.split.flat, t);
    }
    hide Splits, CutRight, SomeHas;
    forall i | 0 <= i < |all|
      ensures all[i].table !in flat + Before(all, i) && all[i].fromTable in flat + Before(all, i)
    {
      if i == 0 {
        assert ch.Has(ch.anchor.table);
        EnteredIsBefore(clause.root, clause.split.flat, ch.anchor.fromTable);
      } else {
        StepInChain(ch, i - 1);
      }
    }
  }

  lemma StepInChain(c: Chain, i: nat)
    requires IsTree(c.anchor.table, c.steps) && i < |c.steps|
    ensures c.Has(c.steps[i].table) && c.steps[i] == c.Steps()[i + 1]
    ensures c.steps[i].table !in Before(c.Steps(), i + 1) && c.steps[i].fromTable in Before(c.Steps(), i + 1)
  {
    var all := c.Steps();
    assert all[0] == c.anchor && forall j :: 0 <= j < |c.steps| ==> all[j + 1] == c.steps[j];
    forall j | 0 <= j < i + 1
      ensures all[j].table != c.steps[i].table
    {
      if j > 0 {
        assert all[j] == c.steps[j - 1];
      }
    }
    if c.steps[i].fromTable == c.anchor.table {
      assert all[0].table == c.steps[i].fromTable;
    } else {
      var j :| 0 <= j < i && c.steps[..i][j].table == c.steps[i].fromTable;
      assert all[j + 1].table == c.steps[i].fromTable;
    }
  }

  /** Some rows of a filter chain, linked to each other and to the outer row, satisfy its predicates. */
  ghost predicate HasCombination(q: Query, c: nat, o: Env)
    requires Shaped(q) && c < |q.clause.existsPreds|
  {
    exists env :: Combines(q.db, o, q.clause.split.existsChains[c].Steps(), env) && CondOf(q, q.clause.existsPreds[c])(env)
  }

  /** For the clause a join path is split into, the rows grouped under a cell are the flat rows that
    * count there, each once; a filter chain lets a row through exactly when a linked combination of its
    * rows satisfies its predicates.  Group chains are compared with flat joins in FlatJoins. */
  lemma EmittedClauseCounts(steps: seq<JoinStep>, q: Query, tags: seq<Option<Table>>, keys: seq<GroupKey>, cell: seq<Value>)
    requires IsTree(q.clause.root, steps) && Splits(q.clause.root, steps, q.clause.split)
    requires Places(q.clause, tags) && Projects(q.clause, keys) && |cell| == |keys|
    ensures Shaped(q)
    ensures GroupedRows(q, keys, cell) == CountedRows(q, keys, cell)
    ensures forall o :: o in FlatRows(q) ==> (Where(q, o) <==>
      && CondOf(q, q.clause.conds)(o)
      && forall c :: 0 <= c < |q.clause.existsPreds| ==> HasCombination(q, c, o))
  {
    hide IsTree, Splits, FlatRows, Passes, Combines, InScope, GroupedRows, CountedRows, Chain.Has;
    forall a, b, t | 0 <= a < b < |q.clause.split.groupChains|
      ensures !q.clause.split.groupChains[a].Has(t) || !q.clause.split.groupChains[b].Has(t)
    {
      OneScope(q.clause.root, steps, q.clause.split, t);
    }
    assert ChainsDisjoint(q);
    CellCountsEachRowOnce(q, keys, cell);
    forall o | o in FlatRows(q)
      ensures Where(q, o) <==>
        CondOf(q, q.clause.conds)(o) && forall c :: 0 <= c < |q.clause.existsPreds| ==> HasCombination(q, c, o)
    {
      forall c | 0 <= c < |q.clause.existsPreds|
        ensures Passes(q.db, o, q.clause.split.existsChains[c], CondOf(q, q.clause.existsPreds[c])) <==> HasCombination(q, c, o)
      {
        FlatRowsKeys(q, o);
        ChainIsInScope(steps, q.clause, q.clause.split.existsChains[c]);
        CarvingIsDistinctProjection(q.db, [o], q.clause.split.existsChains[c], CondOf(q, q.clause.existsPreds[c]), o.Keys, o);
      }
    }
  }
}
