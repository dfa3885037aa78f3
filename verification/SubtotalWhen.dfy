/** When subtotals over carved chains count each joined row once: exactly when the dropped group keys are
  * determined by the kept ones. */
module SubtotalWhen {
  import opened Relationships
  import opened Relational
  import opened JoinPath
  import opened ClusterFrom
  import opened ChainRows
  import opened FlatJoins
  import opened FlatWhen
  import opened Subtotals
  import ContextCte
  import Rollup

  /** A subtotal over the keys `some` is right for all data and all predicates. */
  ghost predicate AlwaysOnce(clause: Clause, keys: seq<GroupKey>, some: seq<GroupKey>) {
    forall q: Query :: q.clause == clause && Shaped(q) ==> CountsOnce(q, keys, some)
  }

  ghost predicate CountsOnce(q: Query, keys: seq<GroupKey>, some: seq<GroupKey>)
    requires Shaped(q)
  {
    forall vals :: |vals| == |some| ==> GroupedRows(q, some, vals) == SubtotalRows(q, keys, some, vals)
  }

  // ---- a free key ----

  /** The columns that must change for a key that is not determined to change. */
  ghost function Climb(a: Table, steps: seq<JoinStep>, t: Table, col: Column): map<Table, Column> {
    if steps == [] then map[t := col] else
    var front, last := steps[..|steps| - 1], steps[|steps| - 1];
    if last.table != t then Climb(a, front, t, col)
    else if col != last.onToCol then map[t := col]
    else Climb(a, front, last.fromTable, last.onFromCol)[t := col]
  }

  /** A step whose table has a free column either equates it with a free one, or links other columns. */
  ghost predicate FreeAlong(free: map<Table, Column>, s: JoinStep) {
    s.table in free ==>
      if free[s.table] == s.onToCol then s.fromTable in free && free[s.fromTable] == s.onFromCol
      else s.fromTable !in free || free[s.fromTable] != s.onFromCol
  }

  ghost predicate AllFree(free: map<Table, Column>, steps: seq<JoinStep>) {
    forall i :: 0 <= i < |steps| ==> FreeAlong(free, steps[i])
  }

  ghost predicate IsFree(c: Chain, known: seq<GroupKey>, steps: seq<JoinStep>, free: map<Table, Column>) {
    && AllFree(free, steps) && (forall u :: u in free ==> u == c.anchor.table || u in StepTables(steps))
    && (c.anchor.table in free ==> free[c.anchor.table] != c.anchor.onToCol)
    && forall u :: u in free ==> ContextCte.GroupKey(u, free[u]) !in known
  }

  lemma {:induction false} ClimbIsFree(c: Chain, known: seq<GroupKey>, steps: seq<JoinStep>, t: Table, col: Column)
    requires IsTree(c.anchor.table, steps) && Entered(c.anchor.table, steps, t) && !Determined(c, known, steps, t, col)
    ensures var free := Climb(c.anchor.table, steps, t, col); t in free && free[t] == col && IsFree(c, known, steps, free)
  {
    if steps != [] {
      var front, last := steps[..|steps| - 1], steps[|steps| - 1];
      FrontIsTree(c.anchor.table, steps);
      FrontIsApart(c.anchor.table, steps);
      EnteredFront(c.anchor.table, steps, t);
      BeforePush(steps);
      assert last.table != c.anchor.table;
      FromsBefore(c.anchor.table, front);
      hide IsTree, Entered, Before;
      if last.table != t {
        ClimbIsFree(c, known, front, t, col);
      } else if col == last.onToCol {
        ClimbIsFree(c, known, front, last.fromTable, last.onFromCol);
      }
      FreeGrows(c, known, steps, t, col);
    }
  }

  lemma FromsBefore(a: Table, steps: seq<JoinStep>)
    requires IsTree(a, steps)
    ensures forall i :: 0 <= i < |steps| ==> steps[i].table in StepTables(steps) && (steps[i].fromTable == a || steps[i].fromTable in StepTables(steps))
  {
    forall i | 0 <= i < |steps|
      ensures steps[i].fromTable == a || steps[i].fromTable in StepTables(steps)
    {
      assert Entered(a, steps[..i], steps[i].fromTable);
      if steps[i].fromTable != a {
        var j :| 0 <= j < i && steps[..i][j].table == steps[i].fromTable;
        assert steps[j].table == steps[i].fromTable;
      }
    }
  }

  lemma FreeGrows(c: Chain, known: seq<GroupKey>, steps: seq<JoinStep>, t: Table, col: Column)
    requires steps != [] && !Determined(c, known, steps, t, col)
    requires var front, last := steps[..|steps| - 1], steps[|steps| - 1];
      && StepTables(steps) == StepTables(front) + {last.table} && last.table !in StepTables(front) && last.table != c.anchor.table
      && last.fromTable != last.table
      && (forall i :: 0 <= i < |front| ==> front[i].table in StepTables(front) && (front[i].fromTable == c.anchor.table || front[i].fromTable in StepTables(front)))
      && (last.table != t ==> IsFree(c, known, front, Climb(c.anchor.table, front, t, col)))
      && (last.table == t && col == last.onToCol ==>
            var up := Climb(c.anchor.table, front, last.fromTable, last.onFromCol);
            IsFree(c, known, front, up) && last.fromTable in up && up[last.fromTable] == last.onFromCol)
    ensures IsFree(c, known, steps, Climb(c.anchor.table, steps, t, col))
  {
    hide Before, StepTables;
    var front, last := steps[..|steps| - 1], steps[|steps| - 1];
    var free := Climb(c.anchor.table, steps, t, col);
    forall i | 0 <= i < |steps|
      ensures FreeAlong(free, steps[i])
    {
      if i < |front| {
        assert steps[i] == front[i];
        assert last.table == t && col == last.onToCol ==> FreeAlong(Climb(c.anchor.table, front, last.fromTable, last.onFromCol), front[i]);
      }
    }
  }

  // ---- the database ----

  ghost function FreeTable(free: map<Table, Column>, t: Table): seq<DbRow> {
    if t in free then [map[], map[free[t] := Val(7)]] else [map[]]
  }

  ghost function FreeDb(tables: set<Table>, free: map<Table, Column>): Db {
    map t | t in tables :: FreeTable(free, t)
  }

  /** Free tables show their 7, all others are blank. */
  ghost predicate ShowsSevens(free: map<Table, Column>, env: Env) {
    forall t :: t in env ==> if t in free then env[t] == Some(map[free[t] := Val(7)]) else env[t] == None || env[t] == Some(map[])
  }

  lemma SevenLink(free: map<Table, Column>, e: Env, s: JoinStep)
    requires ShowsSevens(free, e) && FreeAlong(free, s) && s.fromTable in e
    ensures s.table in free ==> Link(e, s, map[free[s.table] := Val(7)])
  {
  }

  lemma NextSeven(db: Db, free: map<Table, Column>, e: Env, s: JoinStep) returns (env: Env)
    requires ShowsSevens(free, e) && FreeAlong(free, s) && s.fromTable in e && s.table !in e
    requires RowsOf(db, s.table) == FreeTable(free, s.table)
    ensures ShowsSevens(free, env) && env in LeftRows(db, e, s) && env.Keys == e.Keys + {s.table}
  {
    var rows := RowsOf(db, s.table);
    SelectMember(rows, r => Link(e, s, r));
    if s.table in free {
      var r: DbRow := map[free[s.table] := Val(7)];
      SevenLink(free, e, s);
      assert rows[1] in rows && r in Matches(db, e, s);
      env := e[s.table := Some(r)];
      WithRowsMember(e, s.table, Matches(db, e, s), env);
    } else if Link(e, s, map[]) {
      var r: DbRow := map[];
      assert rows[0] in rows && r in Matches(db, e, s);
      env := e[s.table := Some(r)];
      WithRowsMember(e, s.table, Matches(db, e, s), env);
    } else {
      env := e[s.table := None];
      SelectNone(rows, r => Link(e, s, r));
    }
  }

  ghost predicate SevenRows(db: Db, free: map<Table, Column>, tables: set<Table>) {
    forall t :: t in tables ==> RowsOf(db, t) == FreeTable(free, t)
  }

  lemma {:induction false} SevensJoin(db: Db, free: map<Table, Column>, start: Env, steps: seq<JoinStep>) returns (env: Env)
    requires ShowsSevens(free, start) && InScope(start.Keys, steps) && AllFree(free, steps) && SevenRows(db, free, StepTables(steps))
    ensures ShowsSevens(free, env) && env in LeftJoins(db, [start], steps) && env.Keys == start.Keys + StepTables(steps)
    decreases |steps|
  {
    env := start;
    if steps != [] {
      var front := steps[..|steps| - 1];
      FrontInScope(start.Keys, steps);
      BeforePush(steps);
      FreeBefore(db, free, steps);
      hide StepTables, Before, InScope, ShowsSevens, AllFree, LeftJoins, SevenRows;
      var e := SevensJoin(db, free, start, front);
      env := OneMoreSeven(db, free, start, steps, e);
    }
  }

  lemma FreeBefore(db: Db, free: map<Table, Column>, steps: seq<JoinStep>)
    requires steps != [] && AllFree(free, steps) && SevenRows(db, free, StepTables(steps))
    ensures var front, s := steps[..|steps| - 1], steps[|steps| - 1];
      && AllFree(free, front) && FreeAlong(free, s) && SevenRows(db, free, StepTables(front))
      && RowsOf(db, s.table) == FreeTable(free, s.table)
  {
    hide FreeAlong, RowsOf;
    BeforePush(steps);
    hide Before;
    assert FreeAlong(free, steps[|steps| - 1]);
  }

  lemma OneMoreSeven(db: Db, free: map<Table, Column>, start: Env, steps: seq<JoinStep>, e: Env) returns (env: Env)
    requires steps != [] && InScope(start.Keys, steps) && AllFree(free, steps) && SevenRows(db, free, StepTables(steps))
    requires ShowsSevens(free, e) && e in LeftJoins(db, [start], steps[..|steps| - 1])
    requires e.Keys == start.Keys + StepTables(steps[..|steps| - 1])
    ensures ShowsSevens(free, env) && env in LeftJoins(db, [start], steps) && env.Keys == start.Keys + StepTables(steps)
  {
    var front, s := steps[..|steps| - 1], steps[|steps| - 1];
    hide InScope, ShowsSevens, AllFree, FreeAlong, LeftRows, RowsOf, AllIn, SevenRows, FreeTable;
    LastInScope(start.Keys, steps);
    BeforePush(steps);
    FreeBefore(db, free, steps);
    hide Before, LeftJoins;
    env := NextSeven(db, free, e, s);
    JoinedNext(db, [start], steps, e, env);
  }

  lemma JoinedNext(db: Db, envs: seq<Env>, steps: seq<JoinStep>, e: Env, env: Env)
    requires steps != [] && e in LeftJoins(db, envs, steps[..|steps| - 1]) && env in LeftRows(db, e, steps[|steps| - 1])
    ensures env in LeftJoins(db, envs, steps)
  {
    hide LeftRows;
    var s := steps[|steps| - 1];
    FlatMember(LeftJoins(db, envs, steps[..|steps| - 1]), e => LeftRows(db, e, s), env);
  }

  // ---- the two wide rows ----

  /** A chain row that shows the sevens. */
  lemma SevenRow(q: Query, n: nat, free: map<Table, Column>) returns (env: Env)
    requires Shaped(q) && n < |q.clause.selected| && AllFree(free, q.clause.split.groupChains[n].steps)
    requires IsTree(q.clause.split.groupChains[n].anchor.table, q.clause.split.groupChains[n].steps)
    requires SevenRows(q.db, free, ChainScope(q.clause.split.groupChains[n]))
    requires forall e :: CondOf(q, q.clause.groupPreds[n])(e)
    ensures env in ChainRowsOf(q, n) && ShowsSevens(free, env) && env.Keys == ChainScope(q.clause.split.groupChains[n])
  {
    hide IsTree, InScope, Before, LeftJoins, AllFree, AllLeft, CondOf;
    var c := q.clause.split.groupChains[n];
    var a := c.anchor.table;
    ChainScopeIs(c);
    TreeInScope(a, c.steps);
    var r: DbRow := if a in free then map[free[a] := Val(7)] else map[];
    var start: Env := map[a := Some(r)];
    var rows := RowsOf(q.db, a);
    assert r in rows by { assert r == rows[|rows| - 1]; }
    assert start.Keys == {a};
    env := SevensJoin(q.db, free, start, c.steps);
    LeftJoinsAreExact(q.db, start, c.steps, env);
    ChainRowsAre(q, n, env);
  }

  /** A chain row of blanks, wherever each table has a blank row. */
  lemma BlankRow(q: Query, n: nat) returns (env: Env)
    requires Shaped(q) && n < |q.clause.selected|
    requires IsTree(q.clause.split.groupChains[n].anchor.table, q.clause.split.groupChains[n].steps)
    requires forall t :: t in ChainScope(q.clause.split.groupChains[n]) ==> map[] in RowsOf(q.db, t)
    requires forall e :: CondOf(q, q.clause.groupPreds[n])(e)
    ensures env in ChainRowsOf(q, n) && Blank(env)
  {
    hide IsTree, InScope, Before, CondOf;
    var c := q.clause.split.groupChains[n];
    var start: Env := map[c.anchor.table := Some(map[])];
    ChainScopeIs(c);
    TreeInScope(c.anchor.table, c.steps);
    ScopeHolds({c.anchor.table}, c.steps);
    env := map t | t in ChainScope(c) :: Some(map[]);
    forall i | 0 <= i < |c.steps|
      ensures LeftJoined(q.db, env, c.steps[i])
    {
      assert c.steps[i].table in ChainScope(c) && c.steps[i].fromTable in ChainScope(c);
    }
    assert LeftSpans(q.db, start, c.steps, env);
    ChainRowsAre(q, n, env);
  }

  /** The maps of a blank wide row, but for chain `c` whose map is given. */
  ghost function BlankMaps(q: Query, c: nat, m: MapRow): seq<Option<MapRow>> {
    seq(|q.clause.selected|, i requires 0 <= i < |q.clause.selected| => Some(if i == c then m else MapRow(Null, Nulls(|q.clause.selected[i]|))))
  }

  lemma BlankPartner(q: Query, n: nat, o: Env)
    requires Shaped(q) && n < |q.clause.selected| && Blank(o)
    requires IsTree(q.clause.split.groupChains[n].anchor.table, q.clause.split.groupChains[n].steps)
    requires forall t :: t in ChainScope(q.clause.split.groupChains[n]) ==> map[] in RowsOf(q.db, t)
    requires forall e :: CondOf(q, q.clause.groupPreds[n])(e)
    ensures MapRow(Null, Nulls(|q.clause.selected[n]|)) in PartnersOf(q, n, o)
  {
    hide IsTree, Before, CondOf, ChainRowsOf, PartnersOf;
    var env := BlankRow(q, n);
    PartnersAre(q, n, o);
    assert MapOf(q.clause.split.groupChains[n], q.clause.selected[n], env) == MapRow(Null, Nulls(|q.clause.selected[n]|));
  }

  // ---- an unsettled subtotal ----

  ghost function FreeQuery(steps: seq<JoinStep>, clause: Clause, n: nat, free: map<Table, Column>): Query {
    Query(FreeDb({clause.root} + StepTables(steps), free), clause, FlatPreds(n, n))
  }

  lemma FreeRows(steps: seq<JoinStep>, clause: Clause, n: nat, c: nat, free: map<Table, Column>)
    requires IsTree(clause.root, steps) && Splits(clause.root, steps, clause.split) && c < |clause.split.groupChains|
    requires forall u :: u in free ==> u in ChainScope(clause.split.groupChains[c])
    ensures var q := FreeQuery(steps, clause, n, free);
      && BlankOn(q.db, FlatTables(clause)) && (forall d :: d in clause.split.existsChains ==> BlankOn(q.db, ChainScope(d)))
      && SevenRows(q.db, free, ChainScope(clause.split.groupChains[c]))
      && forall i, t :: 0 <= i < |clause.split.groupChains| && t in ChainScope(clause.split.groupChains[i]) ==> map[] in RowsOf(q.db, t)
  {
    hide IsTree, Splits, Before, InScope;
    var chain := clause.split.groupChains[c];
    TreeCovers(steps, clause);
    SplitIsWell(steps, clause);
    ChainIsHung(FreeQuery(steps, clause, n, free), c);
    ScopeIsNew(FlatTables(clause), chain.Steps());
    forall i, t | 0 <= i < |clause.split.groupChains| && t in ChainScope(clause.split.groupChains[i])
      ensures map[] in RowsOf(FreeQuery(steps, clause, n, free).db, t)
    {
      assert clause.split.groupChains[i] in clause.split.groupChains;
      var rows := RowsOf(FreeQuery(steps, clause, n, free).db, t);
      assert rows[0] == map[];
    }
  }

  lemma AllPass(q: Query, tags: seq<Option<Table>>, c: nat)
    requires Places(q.clause, tags) && q.preds == FlatPreds(|tags|, |tags|) && c < |q.clause.groupPreds|
    ensures forall e :: CondOf(q, q.clause.groupPreds[c])(e)
  {
    hide Chain.Has, Ascending;
    assert TakesFor(q.clause.split.groupChains[c], tags, q.clause.groupPreds[c]);
  }

  /** What a chain row of sevens reads. */
  lemma SevensRead(c: Chain, known: seq<GroupKey>, steps: seq<JoinStep>, free: map<Table, Column>, env: Env, k: GroupKey)
    requires ShowsSevens(free, env) && IsFree(c, known, steps, free)
    ensures k.table in free && k.table in env && free[k.table] == k.col ==> ColOf(env, k.table, k.col) == Val(7)
    ensures k in known || (k.table == c.anchor.table && k.col == c.anchor.onToCol) ==> ColOf(env, k.table, k.col) == Null
  {
    hide AllFree;
    assert k == ContextCte.GroupKey(k.table, k.col);
  }

  /** A blank wide row shows NULLs at the subtotal's keys. */
  lemma BlankKeys(q: Query, keys: seq<GroupKey>, some: seq<GroupKey>, c: nat, m: MapRow, o: Env)
    requires Shaped(q) && Projects(q.clause, keys) && Among(some, keys) && c < |q.clause.selected| && Blank(o) && |m.vals| == |q.clause.selected[c]|
    requires forall j :: 0 <= j < |m.vals| && q.clause.selected[c][j] in some ==> m.vals[j] == Null
    ensures KeyOf(q, some, Wide(o, BlankMaps(q, c, m))) == Nulls(|some|)
  {
    hide Chain.Has, SomeHas;
    var w := Wide(o, BlankMaps(q, c, m));
    forall i | 0 <= i < |some|
      ensures KeyAt(q, w, some[i]) == Null
    {
      if some[i] in q.clause.refs {
        assert RefersRight(q.clause.selected, q.clause.refs, some[i]);
      }
    }
  }

  lemma BlankWide(steps: seq<JoinStep>, q: Query, tags: seq<Option<Table>>, c: nat, m: MapRow, o: Env)
    requires Shaped(q) && IsTree(q.clause.root, steps) && Splits(q.clause.root, steps, q.clause.split) && Places(q.clause, tags)
    requires q.preds == FlatPreds(|tags|, |tags|) && Blank(o) && c < |q.clause.selected| && m in PartnersOf(q, c, o)
    requires forall i, t :: 0 <= i < |q.clause.split.groupChains| && t in ChainScope(q.clause.split.groupChains[i]) ==> map[] in RowsOf(q.db, t)
    ensures IsWide(q, |q.clause.selected|, o, Wide(o, BlankMaps(q, c, m)))
  {
    hide IsTree, Splits, PartnersOf, Before, Places, FlatPreds;
    SplitIsWell(steps, q.clause);
    forall i | 0 <= i < |q.clause.selected|
      ensures Partnered(q, o, i, BlankMaps(q, c, m)[i])
    {
      if i != c {
        ChainIsHung(q, i);
        AllPass(q, tags, i);
        BlankPartner(q, i, o);
      }
    }
  }

  lemma WideIsShown(q: Query, some: seq<GroupKey>, vals: seq<Value>, o: Env, w: Wide)
    requires Shaped(q) && Where(q, o) && IsWide(q, |q.clause.selected|, o, w) && KeyOf(q, some, w) == vals
    ensures w in ShowingOf(q, some, vals, o)
  {
    hide Where, KeyOf, WidesOf, Select;
    WidesAre(q, |q.clause.selected|, o, w);
    SelectMember(WidesOf(q, |q.clause.selected|, o), (x: Wide) => Showing(q, some, vals, x));
    assert Showing(q, some, vals, w);
  }

  lemma TwoShown(q: Query, some: seq<GroupKey>, vals: seq<Value>, o: Env, v: Wide, w: Wide)
    requires Shaped(q) && |FlatRows(q)| == 1 && o in FlatRows(q) && v != w && Where(q, o)
    requires IsWide(q, |q.clause.selected|, o, v) && IsWide(q, |q.clause.selected|, o, w) && KeyOf(q, some, v) == KeyOf(q, some, w) == vals
    ensures |GroupedRows(q, some, vals)| >= 2
  {
    hide Where, KeyOf, FlatRows, WidesOf, GroupedRows, IsWide, ShowingOf;
    GroupedByFlat(q, some, vals);
    WideIsShown(q, some, vals, o, v);
    WideIsShown(q, some, vals, o, w);
    var shown := ShowingOf(q, some, vals, o);
    assert FlatRows(q) == [o];
    FlatOne(o, o => ShowingOf(q, some, vals, o));
    var i :| 0 <= i < |shown| && shown[i] == v;
    var j :| 0 <= j < |shown| && shown[j] == w;
  }

  /** A dropped key that is not determined makes a joined row count twice. */
  lemma UnsettledSpoils(steps: seq<JoinStep>, clause: Clause, tags: seq<Option<Table>>, keys: seq<GroupKey>, some: seq<GroupKey>, c: nat, k: GroupKey)
    requires Emittable(steps, clause, tags, keys) && |clause.selected| == |clause.split.groupChains| == |clause.groupPreds|
    requires Among(some, keys) && c < |clause.selected| && k in clause.selected[c]
    requires !Determined(clause.split.groupChains[c], some, clause.split.groupChains[c].steps, k.table, k.col)
    ensures !AlwaysOnce(clause, keys, some)
  {
    hide IsTree, Splits, Places, Projects, Determined, Before, IsFree, Where, HasCombination, FlatRows, RowsOf, FlatPreds, InScope, PartnersOf, IsWide,
      KeyOf, BlankOn, SevenRows, GroupedRows, ShowsSevens, Local;
    var chain, selected := clause.split.groupChains[c], clause.selected[c];
    assert Shaped(FreeQuery(steps, clause, |tags|, map[])) by { PlacesShapes(FreeQuery(steps, clause, |tags|, map[]), tags); }
    SplitIsWell(steps, clause);
    ChainIsHung(FreeQuery(steps, clause, |tags|, map[]), c);
    AreAtHome(FreeQuery(steps, clause, |tags|, map[]), keys);
    HasIsTable(chain, k.table);
    var free := Climb(chain.anchor.table, chain.steps, k.table, k.col);
    ClimbIsFree(chain, some, chain.steps, k.table, k.col);
    FreeIsInside(chain, some, free);
    var q := FreeQuery(steps, clause, |tags|, free);
    FreeRows(steps, clause, |tags|, c, free);
    NoSuchPred(clause, tags);
    var o := BareRowPasses(steps, q, tags, keys, |tags|);
    OneFlatRowOnly(q);
    var m := SevenMap(q, tags, some, c, free, o, k);
    BlankWide(steps, q, tags, c, m, o);
    BlankKeys(q, keys, some, c, m, o);
    var none := MapRow(Null, Nulls(|selected|));
    AllPass(q, tags, c);
    BlankPartner(q, c, o);
    BlankWide(steps, q, tags, c, none, o);
    BlankKeys(q, keys, some, c, none, o);
    assert BlankMaps(q, c, m)[c] != BlankMaps(q, c, none)[c];
    TwoShown(q, some, Nulls(|some|), o, Wide(o, BlankMaps(q, c, m)), Wide(o, BlankMaps(q, c, none)));
    FewSubtotalRows(q, keys, some, Nulls(|some|));
    assert !CountsOnce(q, keys, some);
  }

  lemma FreeIsInside(c: Chain, known: seq<GroupKey>, free: map<Table, Column>)
    requires IsFree(c, known, c.steps, free)
    ensures AllFree(free, c.steps) && forall u :: u in free ==> u in ChainScope(c)
  {
    hide Before;
    ChainScopeIs(c);
  }

  /** The map row of the sevens: a partner of the blank flat row that shows 7 at the free key and NULL at
    * the kept ones. */
  lemma SevenMap(q: Query, tags: seq<Option<Table>>, some: seq<GroupKey>, c: nat, free: map<Table, Column>, o: Env, k: GroupKey) returns (m: MapRow)
    requires Shaped(q) && Places(q.clause, tags) && q.preds == FlatPreds(|tags|, |tags|) && c < |q.clause.selected| && Blank(o)
    requires Hung(q.clause, q.clause.split.groupChains[c]) && SevenRows(q.db, free, ChainScope(q.clause.split.groupChains[c]))
    requires IsFree(q.clause.split.groupChains[c], some, q.clause.split.groupChains[c].steps, free)
    requires k in q.clause.selected[c] && k.table in ChainScope(q.clause.split.groupChains[c]) && k.table in free && free[k.table] == k.col
    ensures m in PartnersOf(q, c, o) && |m.vals| == |q.clause.selected[c]| && m != MapRow(Null, Nulls(|q.clause.selected[c]|))
    ensures forall j :: 0 <= j < |m.vals| && q.clause.selected[c][j] in some ==> m.vals[j] == Null
  {
    hide Places, IsTree, InScope, Before, ChainRowsOf, PartnersOf, SevenRows, IsFree, ShowsSevens, FlatPreds;
    var chain, selected := q.clause.split.groupChains[c], q.clause.selected[c];
    AllPass(q, tags, c);
    FreeIsInside(chain, some, free);
    var env := SevenRow(q, c, free);
    m := MapOf(chain, selected, env);
    SevensRead(chain, some, chain.steps, free, env, ContextCte.GroupKey(chain.anchor.table, chain.anchor.onToCol));
    PartnersAre(q, c, o);
    assert m.anchor == AnchorOf(q, c, o);
    forall j | 0 <= j < |selected| && selected[j] in some
      ensures m.vals[j] == Null
    {
      SevensRead(chain, some, chain.steps, free, env, selected[j]);
    }
    SevensRead(chain, some, chain.steps, free, env, k);
    var j :| 0 <= j < |selected| && selected[j] == k;
    assert m.vals[j] == Val(7) && Nulls(|selected|)[j] == Null;
  }

  lemma FewSubtotalRows(q: Query, keys: seq<GroupKey>, some: seq<GroupKey>, vals: seq<Value>)
    requires Shaped(q) && |vals| == |some|
    ensures |SubtotalRows(q, keys, some, vals)| <= |FlatRows(q)|
  {
    hide InSubtotal, FlatRows;
    SelectShorter(FlatRows(q), o => InSubtotal(q, keys, some, vals, o));
  }

  lemma {:induction false} SelectShorter<T>(rows: seq<T>, p: T -> bool)
    ensures |Select(rows, p)| <= |rows|
  {
    if rows != [] {
      SelectShorter(rows[..|rows| - 1], p);
    }
  }

  /** A subtotal over carved chains groups each joined row once, for all data, exactly when every group
    * key it drops from a chain is determined by the keys it keeps. */
  lemma SubtotalCountsOnceWhen(steps: seq<JoinStep>, clause: Clause, tags: seq<Option<Table>>, keys: seq<GroupKey>, some: seq<GroupKey>)
    requires Emittable(steps, clause, tags, keys) && Among(some, keys)
    ensures |clause.selected| == |clause.split.groupChains|
    ensures AlwaysOnce(clause, keys, some) <==> Settled(clause, some)
  {
    hide IsTree, Splits, Determined;
    if Settled(clause, some) {
      hide Settled, Shaped, Places, Projects, GroupedRows, SubtotalRows;
      forall q: Query, vals | q.clause == clause && Shaped(q) && |vals| == |some|
        ensures GroupedRows(q, some, vals) == SubtotalRows(q, keys, some, vals)
      {
        SettledCountsOnce(steps, q, tags, keys, some, vals);
      }
    } else {
      var c :| 0 <= c < |clause.selected| && !ChainSettled(clause.split.groupChains[c], clause.selected[c], some);
      var chain := clause.split.groupChains[c];
      var k :| k in clause.selected[c] && !Determined(chain, some, chain.steps, k.table, k.col);
      hide AlwaysOnce, Settled, Projects;
      UnsettledSpoils(steps, clause, tags, keys, some, c, k);
    }
  }

  // ---- all levels of a rollup ----

  ghost predicate Inside(cols: seq<Rollup.Col>, n: nat) {
    forall i :: i in cols ==> i < n
  }

  /** The group keys at some positions. */
  ghost function KeysAt(keys: seq<GroupKey>, cols: seq<Rollup.Col>): seq<GroupKey>
    requires Inside(cols, |keys|)
  {
    seq(|cols|, j requires 0 <= j < |cols| => (assert cols[j] in cols; keys[cols[j]]))
  }

  /** The key columns of a wide row, by position. */
  ghost function KeyRow(q: Query, keys: seq<GroupKey>, w: Wide): Rollup.Row {
    map i: Rollup.Col | i < |keys| :: KeyAt(q, w, keys[i])
  }

  ghost function Rolled(q: Query, keys: seq<GroupKey>, out: seq<Rollup.Col>, level: seq<Rollup.Col>, w: Wide): seq<Value> {
    Rollup.Masked(KeyRow(q, keys, w), out, level)
  }

  /** One grouping set's group, as the measures read it, is the subtotal over that set's keys. */
  lemma LevelGroups(q: Query, keys: seq<GroupKey>, out: seq<Rollup.Col>, level: seq<Rollup.Col>, at: Wide)
    requires Shaped(q) && Inside(out, |keys|) && forall i :: i in level ==> i in out
    ensures var wheres := Select(WideRows(q, |q.clause.selected|), (w: Wide) => Where(q, w.env));
      Images(Group(wheres, w => Rolled(q, keys, out, level, w), Rolled(q, keys, out, level, at)), (w: Wide) => w.env)
        == GroupedRows(q, KeysAt(keys, level), KeyOf(q, KeysAt(keys, level), at))
  {
    hide Select, Group, WideRows, Where, KeyAt, Rolled;
    var wheres := Select(WideRows(q, |q.clause.selected|), (w: Wide) => Where(q, w.env));
    forall w
      ensures Rolled(q, keys, out, level, w) == Rolled(q, keys, out, level, at)
        <==> KeyOf(q, KeysAt(keys, level), w) == KeyOf(q, KeysAt(keys, level), at)
    {
      RolledIsKey(q, keys, out, level, w, at);
    }
    GroupRekeyed(wheres, w => Rolled(q, keys, out, level, w), Rolled(q, keys, out, level, at),
      w => KeyOf(q, KeysAt(keys, level), w), KeyOf(q, KeysAt(keys, level), at));
  }

  lemma RolledIsKey(q: Query, keys: seq<GroupKey>, out: seq<Rollup.Col>, level: seq<Rollup.Col>, v: Wide, w: Wide)
    requires Inside(out, |keys|) && forall i :: i in level ==> i in out
    ensures Rolled(q, keys, out, level, v) == Rolled(q, keys, out, level, w)
      <==> KeyOf(q, KeysAt(keys, level), v) == KeyOf(q, KeysAt(keys, level), w)
  {
    hide KeyAt;
    if Rolled(q, keys, out, level, v) == Rolled(q, keys, out, level, w) {
      forall j | 0 <= j < |level|
        ensures KeyAt(q, v, KeysAt(keys, level)[j]) == KeyAt(q, w, KeysAt(keys, level)[j])
      {
        assert level[j] in level && level[j] in out;
        var i :| 0 <= i < |out| && out[i] == level[j];
        assert Rolled(q, keys, out, level, v)[i] == Rolled(q, keys, out, level, w)[i];
      }
      assert KeyOf(q, KeysAt(keys, level), v) == KeyOf(q, KeysAt(keys, level), w);
    }
    if KeyOf(q, KeysAt(keys, level), v) == KeyOf(q, KeysAt(keys, level), w) {
      forall i | 0 <= i < |out| && out[i] in level
        ensures KeyAt(q, v, keys[out[i]]) == KeyAt(q, w, keys[out[i]])
      {
        var j :| 0 <= j < |level| && level[j] == out[i];
        assert KeyOf(q, KeysAt(keys, level), v)[j] == KeyOf(q, KeysAt(keys, level), w)[j];
      }
      assert Rolled(q, keys, out, level, v) == Rolled(q, keys, out, level, w);
    }
  }

  lemma {:induction false} MoreIsDetermined(c: Chain, some: seq<GroupKey>, more: seq<GroupKey>, steps: seq<JoinStep>, t: Table, col: Column)
    requires Determined(c, some, steps, t, col) && Among(some, more)
    ensures Determined(c, more, steps, t, col)
  {
    if steps != [] && ContextCte.GroupKey(t, col) !in some && !(t == c.anchor.table && col == c.anchor.onToCol) {
      var front, last := steps[..|steps| - 1], steps[|steps| - 1];
      if last.table == t {
        MoreIsDetermined(c, some, more, front, last.fromTable, last.onFromCol);
      } else {
        MoreIsDetermined(c, some, more, front, t, col);
      }
    }
  }

  lemma MoreIsSettled(clause: Clause, some: seq<GroupKey>, more: seq<GroupKey>)
    requires |clause.selected| == |clause.split.groupChains| && Settled(clause, some) && Among(some, more)
    ensures Settled(clause, more)
  {
    hide Determined;
    forall c, k | 0 <= c < |clause.selected| && k in clause.selected[c]
      ensures Determined(clause.split.groupChains[c], more, clause.split.groupChains[c].steps, k.table, k.col)
    {
      SettledAt(clause, some, c);
      MoreIsDetermined(clause.split.groupChains[c], some, more, clause.split.groupChains[c].steps, k.table, k.col);
    }
  }

  ghost function LevelKeys(keys: seq<GroupKey>, plain: seq<Rollup.Col>, elems: seq<Rollup.Element>, l: nat): seq<GroupKey>
    requires l <= |elems| && Inside(plain + Rollup.ColsOf(elems), |keys|)
  {
    LevelInside(plain, elems, |keys|, l);
    KeysAt(keys, Rollup.Level(plain, elems, l))
  }

  lemma LevelInside(plain: seq<Rollup.Col>, elems: seq<Rollup.Element>, n: nat, l: nat)
    requires l <= |elems| && Inside(plain + Rollup.ColsOf(elems), n)
    ensures Inside(Rollup.Level(plain, elems, l), n)
  {
    forall i | i in Rollup.Level(plain, elems, l)
      ensures i < n
    {
      Rollup.LevelsNest(plain, elems, l, |elems|, i);
      assert elems[..|elems|] == elems;
    }
  }

  lemma PlainInside(keys: seq<GroupKey>, plain: seq<Rollup.Col>, elems: seq<Rollup.Element>, l: nat)
    requires l <= |elems| && Inside(plain + Rollup.ColsOf(elems), |keys|)
    ensures Among(LevelKeys(keys, plain, elems, l), keys) && Among(LevelKeys(keys, plain, elems, 0), LevelKeys(keys, plain, elems, l))
  {
    hide Rollup.ColsOf, Rollup.Level;
    LevelInside(plain, elems, |keys|, l);
    LevelInside(plain, elems, |keys|, 0);
    var level0, level := Rollup.Level(plain, elems, 0), Rollup.Level(plain, elems, l);
    forall c | c in level0
      ensures c in level
    {
      Rollup.LevelsNest(plain, elems, 0, l, c);
    }
    KeysAmong(keys, level0, level);
    KeysAmong(keys, level, level);
  }

  lemma KeysAmong(keys: seq<GroupKey>, some: seq<Rollup.Col>, more: seq<Rollup.Col>)
    requires Inside(some, |keys|) && Inside(more, |keys|) && Among(some, more)
    ensures Among(KeysAt(keys, some), KeysAt(keys, more)) && Among(KeysAt(keys, some), keys)
  {
    forall k | k in KeysAt(keys, some)
      ensures k in KeysAt(keys, more) && k in keys
    {
      var j :| 0 <= j < |some| && KeysAt(keys, some)[j] == k;
      assert some[j] in some;
      var i :| 0 <= i < |more| && more[i] == some[j];
      assert KeysAt(keys, more)[i] == k;
    }
  }

  ghost predicate AllLevelsOnce(clause: Clause, keys: seq<GroupKey>, plain: seq<Rollup.Col>, elems: seq<Rollup.Element>)
    requires Inside(plain + Rollup.ColsOf(elems), |keys|)
  {
    forall l: nat :: l <= |elems| ==> AlwaysOnce(clause, keys, LevelKeys(keys, plain, elems, l))
  }

  /** Every level of a rollup counts each joined row once, for all data, exactly when the group keys the
    * chains carry are determined by the plain ones. */
  lemma RollupCountsOnceWhen(steps: seq<JoinStep>, clause: Clause, tags: seq<Option<Table>>, keys: seq<GroupKey>,
    plain: seq<Rollup.Col>, elems: seq<Rollup.Element>)
    requires Emittable(steps, clause, tags, keys) && Inside(plain + Rollup.ColsOf(elems), |keys|)
    ensures |clause.selected| == |clause.split.groupChains|
    ensures AllLevelsOnce(clause, keys, plain, elems) <==> Settled(clause, LevelKeys(keys, plain, elems, 0))
  {
    hide IsTree, Splits, Places, AlwaysOnce, Settled, LevelKeys, Inside, Rollup.ColsOf;
    assert |clause.selected| == |clause.split.groupChains|;
    hide Projects;
    forall l: nat | l <= |elems|
      ensures AlwaysOnce(clause, keys, LevelKeys(keys, plain, elems, l)) <==> Settled(clause, LevelKeys(keys, plain, elems, l))
      ensures Settled(clause, LevelKeys(keys, plain, elems, 0)) ==> Settled(clause, LevelKeys(keys, plain, elems, l))
    {
      PlainInside(keys, plain, elems, l);
      SubtotalCountsOnceWhen(steps, clause, tags, keys, LevelKeys(keys, plain, elems, l));
      if Settled(clause, LevelKeys(keys, plain, elems, 0)) {
        MoreIsSettled(clause, LevelKeys(keys, plain, elems, 0), LevelKeys(keys, plain, elems, l));
      }
    }
  }

  // ---- a total that counts twice ----

  /** A fact whose key has two dimension rows beyond a bidirectional link, rolled up over a column of the
    * dimension. */
  ghost function TwoCategories(): Query {
    var k := ContextCte.GroupKey(2, 1);
    var chain := Chain(JoinStep(1, 2, 0, 0, true), []);
    Query(map[1 := [map[0 := Val(5)]], 2 := [map[0 := Val(5), 1 := Val(7)], map[0 := Val(5), 1 := Val(8)]]],
      Clause(1, Split([], [chain], []), [[]], [], [], [[k]], map[k := KeyRef(0, 0)]), [])
  }

  lemma CategoriesProject()
    ensures Projects(TwoCategories().clause, [ContextCte.GroupKey(2, 1)]) && Places(TwoCategories().clause, [])
  {
    OneTableChain(TwoCategories().clause.split.groupChains[0]);
    hide Chain.Has;
    assert SomeHas(TwoCategories().clause.split.groupChains, 2);
  }

  lemma CategoriesSplit()
    ensures Emittable([JoinStep(1, 2, 0, 0, true)], TwoCategories().clause, [], [ContextCte.GroupKey(2, 1)])
  {
    hide IsTree, Splits, Places, Projects;
    var step := JoinStep(1, 2, 0, 0, true);
    OneStepTree(1, step);
    NoSteps(2);
    OneChainSplits(1, Chain(step, []));
    assert Chain(step, []).Steps() == [step];
    CategoriesProject();
  }

  ghost function Category(v: int): DbRow {
    map[0 := Val(5), 1 := Val(v)]
  }

  lemma CategoryRow(v: int)
    requires v == 7 || v == 8
    ensures map[2 := Some(Category(v))] in ChainRowsOf(TwoCategories(), 0)
  {
    var q := TwoCategories();
    var rows := RowsOf(q.db, 2);
    assert rows[0] == Category(7) && rows[1] == Category(8);
    hide Category;
    var starts := WithRows(map[], 2, rows);
    assert Category(v) in rows;
    WithRowsMember(map[], 2, rows, map[][2 := Some(Category(v))]);
    SelectAll(starts, CondOf(q, []));
  }

  lemma CategoryPartner(v: int)
    requires v == 7 || v == 8
    ensures MapRow(Val(5), [Val(v)]) in PartnersOf(TwoCategories(), 0, map[1 := Some(map[0 := Val(5)])])
  {
    hide PartnersOf, ChainRowsOf;
    var q, o := TwoCategories(), map[1 := Some(map[0 := Val(5)])];
    CategoryRow(v);
    PartnersAre(q, 0, o);
    assert MapOf(q.clause.split.groupChains[0], q.clause.selected[0], map[2 := Some(Category(v))]) == MapRow(Val(5), [Val(v)]);
    assert AnchorOf(q, 0, o) == Val(5);
  }

  lemma CategoryFact()
    ensures FlatRows(TwoCategories()) == [map[1 := Some(map[0 := Val(5)])]]
  {
    var q := TwoCategories();
    var fact: DbRow := map[0 := Val(5)];
    assert RowsOf(q.db, 1) == [fact];
    assert WithRows(map[], 1, [fact]) == [map[][1 := Some(fact)]];
  }

  /** There is one fact, and the grand total aggregates it twice. */
  lemma TotalCountsTwice()
    ensures Shaped(TwoCategories()) && |FlatRows(TwoCategories())| == 1
    ensures |GroupedRows(TwoCategories(), [], [])| >= 2
  {
    hide PartnersOf, FlatRows, GroupedRows;
    var q, o := TwoCategories(), map[1 := Some(map[0 := Val(5)])];
    CategoryFact();
    CategoryPartner(7);
    CategoryPartner(8);
    var v, w := Wide(o, [Some(MapRow(Val(5), [Val(7)]))]), Wide(o, [Some(MapRow(Val(5), [Val(8)]))]);
    assert v.maps[0].value.vals[0] != w.maps[0].value.vals[0];
    TwoShown(q, [], [], o, v, w);
  }
}
