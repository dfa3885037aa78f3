/** When the emitted joins show a cell's own value rows, each once: exactly when the group chains carry
  * keys only and every flat table's row is fixed by the value row and the cell. */
module ValueRowsWhen {
  import opened Relationships
  import opened Relational
  import opened JoinPath
  import opened ClusterFrom
  import opened ChainRows
  import opened FlatJoins
  import opened FlatWhen
  import opened ValueRows
  import SubtotalWhen
  import ContextCte

  ghost predicate OwnEverywhere(q: Query, keys: seq<GroupKey>, v: Table)
    requires Shaped(q)
  {
    forall cell :: |cell| == |keys| ==>
      multiset(ShownRows(GroupedRows(q, keys, cell), v)) == multiset(OwnRows(q, keys, v, cell))
  }

  /** In all lawful data, for all predicates on the tagged tables, a cell shows its own value rows, each
    * once. */
  ghost predicate AlwaysOwn(rels: seq<Relationship>, clause: Clause, tags: seq<Option<Table>>, keys: seq<GroupKey>, v: Table) {
    forall q: Query :: q.clause == clause && Shaped(q) && Local(q, tags) && Lawful(rels, q.db) ==> OwnEverywhere(q, keys, v)
  }

  // ---- chains that carry more than keys ----

  lemma FewIsLawful(rels: seq<Relationship>, db: Db)
    requires forall t :: |RowsOf(db, t)| <= 1
    ensures Lawful(rels, db)
  {
  }

  /** A flat row of blanks shows the blank row of the value table. */
  lemma BlankShows(q: Query, o: Env, v: Table)
    requires IsTree(q.clause.root, q.clause.split.flat) && o in FlatRows(q) && Blank(o)
    requires BlankOn(q.db, FlatTables(q.clause)) && v in FlatTables(q.clause)
    ensures ShowsRow(o, v, map[])
  {
    hide IsTree, FlatRows, AllLeft;
    FlatRowSpans(q, o);
    if v != q.clause.root {
      EnteredIsBefore(q.clause.root, q.clause.split.flat, v);
      var i :| 0 <= i < |q.clause.split.flat| && q.clause.split.flat[i].table == v;
      var s := q.clause.split.flat[i];
      StepJoined(q.db, q.clause.split.flat, o, s);
      assert RowsOf(q.db, v) == [map[]];
      assert Link(o, s, map[]);
    }
  }

  lemma DiffersIsNotOwn(steps: seq<JoinStep>, rels: seq<Relationship>, q: Query, clause: Clause, tags: seq<Option<Table>>, keys: seq<GroupKey>, v: Table,
    o: Env, cell: seq<Value>)
    requires Emittable(steps, clause, tags, keys) && Differs(q, clause, tags, keys, o, cell) && v in FlatTables(clause)
    ensures !OwnEverywhere(q, keys, v)
  {
    hide IsTree, Splits, Places, Projects, FlatRows, InCell, FlatCounts, GroupedRows, BlankOn, Local, FlatTables;
    EmittedClauseCounts(steps, q, tags, keys, cell);
    FlatIsTree(steps, clause);
    BlankShows(q, o, v);
    OneFlatRowOnly(q);
    assert FlatRows(q) == [o];
    assert RowsOf(q.db, v) == [map[]] by { BlankOnAt(q.db, FlatTables(clause), v); }
    OneReading(q, keys, v, o, cell);
  }

  lemma BlankOnAt(db: Db, tables: set<Table>, t: Table)
    requires BlankOn(db, tables) && t in tables
    ensures RowsOf(db, t) == [map[]]
  {
  }

  lemma OneReading(q: Query, keys: seq<GroupKey>, v: Table, o: Env, cell: seq<Value>)
    requires Shaped(q) && |cell| == |keys| && FlatRows(q) == [o] && ShowsRow(o, v, map[]) && RowsOf(q.db, v) == [map[]]
    requires GroupedRows(q, keys, cell) == CountedRows(q, keys, cell) && InCell(q, keys, o, cell) != FlatCounts(q, keys, o, cell)
    ensures !OwnEverywhere(q, keys, v)
  {
    hide FlatRows, InCell, FlatCounts, GroupedRows;
    var r: DbRow := map[];
    if InCell(q, keys, o, cell) {
      SelectOne(o, o => InCell(q, keys, o, cell));
      SelectOne(o, o => HasRow(o, v));
      assert ShownRows(GroupedRows(q, keys, cell), v) == [r];
      SelectNone([r], r => Counts(q, keys, v, cell, r));
      assert OwnRows(q, keys, v, cell) == [];
    } else {
      SelectNone([o], o => InCell(q, keys, o, cell));
      assert ShownRows(GroupedRows(q, keys, cell), v) == [];
      assert Counts(q, keys, v, cell, r);
      SelectOne(r, r => Counts(q, keys, v, cell, r));
      assert OwnRows(q, keys, v, cell) == [r];
    }
    assert |multiset(ShownRows(GroupedRows(q, keys, cell), v))| != |multiset(OwnRows(q, keys, v, cell))|;
  }

  // ---- a flat table that is not fixed ----

  ghost function KeyCols(rels: seq<Relationship>): set<Column> {
    set r | r in rels :: r.toColumn
  }

  ghost function KeyColsOf(rels: seq<Relationship>, t: Table): set<Column> {
    set r | r in rels && r.toTable == t :: r.toColumn
  }

  ghost function LinkCols(steps: seq<JoinStep>, keys: seq<GroupKey>): set<Column> {
    (set s | s in steps :: s.onFromCol) + (set s | s in steps :: s.onToCol) + (set k | k in keys :: k.col)
  }

  lemma FreshColumn(used: set<Column>) returns (c: Column)
    ensures forall d :: d in used ==> d < c
  {
    c := 0;
    var left := used;
    while left != {}
      invariant left <= used && forall d :: d in used && d !in left ==> d < c
      decreases left
    {
      var d :| d in left;
      c := if d < c then c else d + 1;
      left := left - {d};
    }
  }

  ghost function Marked(cols: set<Column>): DbRow {
    map c | c in cols :: Val(7)
  }

  /** The second row of the table that is not fixed: marked on its keys and on a column of its own. */
  ghost function Twin(rels: seq<Relationship>, t: Table, id: Column): DbRow {
    Marked(KeyColsOf(rels, t) + {id})
  }

  ghost predicate InFilterChain(clause: Clause, u: Table) {
    exists c :: c in clause.split.existsChains && u in ChainScope(c)
  }

  ghost function TwinTable(steps: seq<JoinStep>, clause: Clause, rels: seq<Relationship>, keys: seq<GroupKey>, t: Table, id: Column, u: Table): seq<DbRow> {
    if u == t then [map[], Twin(rels, t, id)]
    else if InFilterChain(clause, u) then [map[], Marked(LinkCols(steps, keys) + KeyCols(rels))]
    else [map[]]
  }

  ghost function TwinQuery(steps: seq<JoinStep>, clause: Clause, rels: seq<Relationship>, keys: seq<GroupKey>, t: Table, id: Column, n: nat): Query {
    Query(map u | u in {clause.root} + StepTables(steps) :: TwinTable(steps, clause, rels, keys, t, id, u), clause, FlatPreds(n, n))
  }

  lemma TwoIsLawful(a: DbRow, b: DbRow, c: Column)
    requires Col(Some(a), c) != Col(Some(b), c)
    ensures KeyIn([a, b], c) && Distinct([a, b])
  {
  }

  lemma TwinIsLawful(steps: seq<JoinStep>, clause: Clause, rels: seq<Relationship>, keys: seq<GroupKey>, t: Table, id: Column, n: nat)
    requires forall c, s :: c in clause.split.existsChains && s in c.Steps() ==> s in steps
    ensures Lawful(rels, TwinQuery(steps, clause, rels, keys, t, id, n).db)
  {
    hide Before, LinkCols;
    var db := TwinQuery(steps, clause, rels, keys, t, id, n).db;
    forall u
      ensures Distinct(RowsOf(db, u)) && forall c :: IsKey(rels, u, c) ==> KeyIn(RowsOf(db, u), c)
    {
      if u in db && u == t {
        TwoIsLawful(map[], Twin(rels, t, id), id);
        forall c | IsKey(rels, u, c)
          ensures KeyIn(RowsOf(db, u), c)
        {
          TwoIsLawful(map[], Twin(rels, t, id), c);
        }
      } else if u in db && InFilterChain(clause, u) {
        var row := Marked(LinkCols(steps, keys) + KeyCols(rels));
        var c :| c in clause.split.existsChains && u in ChainScope(c);
        var s := c.Steps()[0];
        assert s in c.Steps();
        assert s.onToCol in LinkCols(steps, keys) by { LinkIsUsed(steps, keys, s); }
        TwoIsLawful(map[], row, s.onToCol);
        forall c | IsKey(rels, u, c)
          ensures KeyIn(RowsOf(db, u), c)
        {
          TwoIsLawful(map[], row, c);
        }
      }
    }
  }

  lemma LinkIsUsed(steps: seq<JoinStep>, keys: seq<GroupKey>, s: JoinStep)
    requires s in steps
    ensures s.onFromCol in LinkCols(steps, keys) && s.onToCol in LinkCols(steps, keys)
  {
  }

  lemma KeyIsUsed(steps: seq<JoinStep>, keys: seq<GroupKey>, k: GroupKey)
    requires k in keys
    ensures k.col in LinkCols(steps, keys)
  {
  }

  /** Every step of the clause is one of the tree's. */
  lemma ClauseStepsAre(steps: seq<JoinStep>, clause: Clause)
    requires Splits(clause.root, steps, clause.split)
    ensures forall s :: s in clause.split.flat ==> s in steps
    ensures forall c, s :: c in clause.split.existsChains && s in c.Steps() ==> s in steps
  {
    hide Chain.Steps;
    var split := clause.split;
    forall s: JoinStep
      ensures s in steps <==> s in multiset(split.flat) + ChainSteps(split.groupChains) + ChainSteps(split.existsChains)
    {
      assert s in multiset(steps) <==> s in AllSteps(split);
    }
    forall c, s | c in split.existsChains && s in c.Steps()
      ensures s in steps
    {
      InChain(split.existsChains, s);
      var i :| 0 <= i < |split.existsChains| && split.existsChains[i] == c;
      assert InSome(split.existsChains, s);
    }
  }

  ghost predicate Twinned(q: Query, steps: seq<JoinStep>, rels: seq<Relationship>, keys: seq<GroupKey>, t: Table, id: Column) {
    && RowsOf(q.db, t) == [map[], Twin(rels, t, id)]
    && BlankOn(q.db, FlatTables(q.clause) - {t})
    && (forall c :: c in q.clause.split.groupChains ==> BlankOn(q.db, ChainScope(c)))
    && (forall c, u :: c in q.clause.split.existsChains && u in ChainScope(c) ==>
          RowsOf(q.db, u) == [map[], Marked(LinkCols(steps, keys) + KeyCols(rels))])
  }

  lemma TwinTables(steps: seq<JoinStep>, clause: Clause, rels: seq<Relationship>, keys: seq<GroupKey>, t: Table, id: Column, n: nat)
    requires IsTree(clause.root, steps) && Splits(clause.root, steps, clause.split) && t in FlatTables(clause)
    ensures Twinned(TwinQuery(steps, clause, rels, keys, t, id, n), steps, rels, keys, t, id)
  {
    hide IsTree, Splits, Before, InScope, LinkCols, KeyCols, Twin, Marked;
    TreeCovers(steps, clause);
    SplitIsWell(steps, clause);
    forall c | c in clause.split.existsChains
      ensures ChainScope(c) !! FlatTables(clause)
    {
      ScopeIsNew(FlatTables(clause), c.Steps());
    }
    forall c | c in clause.split.groupChains
      ensures ChainScope(c) !! FlatTables(clause) && forall u :: u in ChainScope(c) ==> !InFilterChain(clause, u)
    {
      ScopeIsNew(FlatTables(clause), c.Steps());
      GroupIsApart(clause, c);
    }
  }

  lemma GroupIsApart(clause: Clause, c: Chain)
    requires Apart(clause) && c in clause.split.groupChains
    ensures forall u :: u in ChainScope(c) ==> !InFilterChain(clause, u)
  {
    hide Before;
    var a :| 0 <= a < |clause.split.groupChains| && clause.split.groupChains[a] == c;
    forall u, d | u in ChainScope(c) && d in clause.split.existsChains
      ensures u !in ChainScope(d)
    {
      var b :| 0 <= b < |clause.split.existsChains| && clause.split.existsChains[b] == d;
    }
  }

  /** The row is NULL where the clause links to it, where the value table hangs off it, and at its keys. */
  ghost predicate Quiet(clause: Clause, keys: seq<GroupKey>, v: Table, t: Table, row: DbRow) {
    && (forall s :: s in clause.split.flat && s.table == t ==> Col(Some(row), s.onToCol) == Null)
    && (forall s :: s in clause.split.flat && s.table == v && s.fromTable == t ==> Col(Some(row), s.onFromCol) == Null)
    && (forall k :: k in keys && k.table == t ==> Col(Some(row), k.col) == Null)
  }

  lemma UnfixedIsQuiet(steps: seq<JoinStep>, clause: Clause, rels: seq<Relationship>, keys: seq<GroupKey>, v: Table, t: Table, id: Column)
    requires !Fixed(rels, clause, keys, v, t) && (forall s :: s in clause.split.flat ==> s in steps) && id !in LinkCols(steps, keys)
    ensures Quiet(clause, keys, v, t, Twin(rels, t, id))
  {
  }

  /** Every table but one is blank or absent, and that one shows the row. */
  ghost predicate NearBlank(o: Env, t: Table, row: DbRow) {
    forall u :: u in o ==> if u == t then o[u] == Some(row) else o[u] == None || o[u] == Some(map[])
  }

  lemma TwinStep(q: Query, rels: seq<Relationship>, keys: seq<GroupKey>, v: Table, t: Table, id: Column, row: DbRow, e: Env, s: JoinStep) returns (env: Env)
    requires NearBlank(e, t, row) && Quiet(q.clause, keys, v, t, row) && s in q.clause.split.flat && s.fromTable in e && s.table !in e && v != t
    requires if s.table == t then RowsOf(q.db, t) == [map[], Twin(rels, t, id)] else RowsOf(q.db, s.table) == [map[]]
    requires row == map[] || row == Twin(rels, t, id)
    ensures NearBlank(env, t, row) && env in LeftRows(q.db, e, s) && env.Keys == e.Keys + {s.table}
    ensures s.table == v ==> ShowsRow(env, v, map[])
  {
    hide Twin;
    var rows := RowsOf(q.db, s.table);
    SelectMember(rows, r => Link(e, s, r));
    if s.table == t {
      assert rows[0] in rows && rows[1] in rows;
      assert row in Matches(q.db, e, s);
      env := e[t := Some(row)];
      WithRowsMember(e, t, Matches(q.db, e, s), env);
    } else if Link(e, s, map[]) {
      assert rows[0] in rows;
      assert map[] in Matches(q.db, e, s);
      env := e[s.table := Some(map[])];
      WithRowsMember(e, s.table, Matches(q.db, e, s), env);
    } else {
      env := e[s.table := None];
      SelectNone(rows, r => Link(e, s, r));
    }
  }

  lemma {:induction false} TwinJoin(q: Query, steps: seq<JoinStep>, rels: seq<Relationship>, keys: seq<GroupKey>, v: Table, t: Table, id: Column, row: DbRow, start: Env, n: nat)
    returns (env: Env)
    requires Twinned(q, steps, rels, keys, t, id) && Quiet(q.clause, keys, v, t, row) && (row == map[] || row == Twin(rels, t, id)) && v != t
    requires n <= |q.clause.split.flat| && InScope({q.clause.root}, q.clause.split.flat) && start.Keys == {q.clause.root}
    requires NearBlank(start, t, row) && (v == q.clause.root ==> ShowsRow(start, v, map[]))
    ensures NearBlank(env, t, row) && env in LeftJoins(q.db, [start], q.clause.split.flat[..n])
    ensures env.Keys == {q.clause.root} + StepTables(q.clause.split.flat[..n]) && (v in env ==> ShowsRow(env, v, map[]))
  {
    env := start;
    if n > 0 {
      hide Twinned, Quiet, NearBlank, Twin, LeftRows, RowsOf, InScope, Before, LeftJoins;
      var e := TwinJoin(q, steps, rels, keys, v, t, id, row, start, n - 1);
      env := TwinNext(q, steps, rels, keys, v, t, id, row, start, n - 1, e);
    }
  }

  lemma TwinNext(q: Query, steps: seq<JoinStep>, rels: seq<Relationship>, keys: seq<GroupKey>, v: Table, t: Table, id: Column, row: DbRow, start: Env, n: nat, e: Env)
    returns (env: Env)
    requires Twinned(q, steps, rels, keys, t, id) && Quiet(q.clause, keys, v, t, row) && (row == map[] || row == Twin(rels, t, id)) && v != t
    requires n < |q.clause.split.flat| && InScope({q.clause.root}, q.clause.split.flat)
    requires NearBlank(e, t, row) && e in LeftJoins(q.db, [start], q.clause.split.flat[..n])
    requires e.Keys == {q.clause.root} + StepTables(q.clause.split.flat[..n]) && (v in e ==> ShowsRow(e, v, map[]))
    ensures NearBlank(env, t, row) && env in LeftJoins(q.db, [start], q.clause.split.flat[..n + 1])
    ensures env.Keys == {q.clause.root} + StepTables(q.clause.split.flat[..n + 1]) && (v in env ==> ShowsRow(env, v, map[]))
  {
    hide Twinned, Quiet, NearBlank, Twin, LeftRows, RowsOf, InScope, Before, LeftJoins, ShowsRow;
    var flat, s := q.clause.split.flat, q.clause.split.flat[n];
    var more := flat[..n + 1];
    assert more[..|more| - 1] == flat[..n] && more[|more| - 1] == s;
    BeforePush(more);
    StepInScope(q.clause, n);
    TwinRowsAt(q, steps, rels, keys, t, id, s);
    env := TwinStep(q, rels, keys, v, t, id, row, e, s);
    StillShows(e, env, v, q.db, s);
    SubtotalWhen.JoinedNext(q.db, [start], more, e, env);
  }

  lemma StillShows(e: Env, env: Env, v: Table, db: Db, s: JoinStep)
    requires env in LeftRows(db, e, s) && (v in e ==> ShowsRow(e, v, map[])) && s.table !in e
    requires s.table == v ==> ShowsRow(env, v, map[])
    ensures v in env ==> ShowsRow(env, v, map[])
  {
    if Matches(db, e, s) != [] {
      WithRowsMember(e, s.table, Matches(db, e, s), env);
    }
  }

  lemma StepInScope(clause: Clause, n: nat)
    requires n < |clause.split.flat| && InScope({clause.root}, clause.split.flat)
    ensures clause.split.flat[n].fromTable in {clause.root} + StepTables(clause.split.flat[..n])
    ensures clause.split.flat[n].table !in {clause.root} + StepTables(clause.split.flat[..n])
    ensures clause.split.flat[n] in clause.split.flat && clause.split.flat[n].table in FlatTables(clause)
  {
    InScopeAt({clause.root}, clause.split.flat, n);
    assert forall t :: t in Before(clause.split.flat, n) <==> t in StepTables(clause.split.flat[..n]) by {
      BeforePrefix(clause.split.flat, n);
    }
  }

  lemma BeforePrefix(steps: seq<JoinStep>, n: nat)
    requires n <= |steps|
    ensures Before(steps, n) == StepTables(steps[..n])
  {
    forall t
      ensures t in Before(steps, n) <==> t in StepTables(steps[..n])
    {
      if t in Before(steps, n) {
        var i :| 0 <= i < n && steps[i].table == t;
        assert steps[..n][i].table == t;
      }
    }
  }

  lemma TwinRowsAt(q: Query, steps: seq<JoinStep>, rels: seq<Relationship>, keys: seq<GroupKey>, t: Table, id: Column, s: JoinStep)
    requires Twinned(q, steps, rels, keys, t, id) && s.table in FlatTables(q.clause)
    ensures if s.table == t then RowsOf(q.db, t) == [map[], Twin(rels, t, id)] else RowsOf(q.db, s.table) == [map[]]
  {
    hide Before;
    if s.table != t {
      BlankOnAt(q.db, FlatTables(q.clause) - {t}, s.table);
    }
  }

  lemma MarkedReads(cols: set<Column>, c: Column)
    ensures Col(Some(Marked(cols)), c) == if c in cols then Val(7) else Null
  {
  }

  lemma TwinReads(rels: seq<Relationship>, o: Env, t: Table, id: Column, row: DbRow, u: Table, c: Column)
    requires NearBlank(o, t, row) && (row == map[] || row == Twin(rels, t, id))
    ensures ColOf(o, u, c) == Null || (u == t && ColOf(o, u, c) == Val(7))
  {
    MarkedReads(KeyColsOf(rels, t) + {id}, c);
  }

  /** Filter chains let the row pass: theirs are blank rows and marked ones. */
  lemma TwinCombination(q: Query, steps: seq<JoinStep>, rels: seq<Relationship>, keys: seq<GroupKey>, t: Table, id: Column, row: DbRow, o: Env, c: nat)
    requires Shaped(q) && c < |q.clause.existsPreds| && Hung(q.clause, q.clause.split.existsChains[c]) && Twinned(q, steps, rels, keys, t, id)
    requires NearBlank(o, t, row) && (row == map[] || row == Twin(rels, t, id)) && o.Keys == FlatTables(q.clause)
    requires forall s :: s in q.clause.split.existsChains[c].Steps() ==> s in steps
    requires forall env :: CondOf(q, q.clause.existsPreds[c])(env)
    ensures HasCombination(q, c, o)
  {
    hide IsTree, InScope, CondOf, Before, FlatTables, LinkCols, KeyCols, Twin, Marked, NearBlank;
    var chain := q.clause.split.existsChains[c];
    var anchor, cols := chain.anchor, LinkCols(steps, keys) + KeyCols(rels);
    var x := ColOf(o, anchor.fromTable, anchor.onFromCol);
    TwinReads(rels, o, t, id, row, anchor.fromTable, anchor.onFromCol);
    var r := if x == Null then map[] else Marked(cols);
    var env: Env := o + map u | u in ChainScope(chain) :: Some(r);
    ScopeIsNew(o.Keys, chain.Steps());
    ScopeHolds(o.Keys, chain.Steps());
    assert chain in q.clause.split.existsChains;
    forall i | 0 <= i < |chain.Steps()|
      ensures Joined(q.db, env, chain.Steps()[i])
    {
      var s := chain.Steps()[i];
      TablesHave(chain.Steps(), i);
      assert s in chain.Steps();
      LinkIsUsed(steps, keys, s);
      MarkedReads(cols, s.onToCol);
      MarkedReads(cols, s.onFromCol);
      var rows := RowsOf(q.db, s.table);
      assert rows[0] in rows && rows[1] in rows;
      if i == 0 {
        StepsInScope(o.Keys, chain);
      } else {
        FromInChain(chain, i);
      }
    }
    assert Combines(q.db, o, chain.Steps(), env);
  }

  lemma FromInChain(c: Chain, i: nat)
    requires IsTree(c.anchor.table, c.steps) && 0 < i < |c.Steps()|
    ensures c.Steps()[i].fromTable in ChainScope(c)
  {
    hide IsTree;
    StepInChain(c, i - 1);
    BeforeInside(c.Steps(), i);
  }

  lemma BeforeInside(steps: seq<JoinStep>, i: nat)
    requires i <= |steps|
    ensures Before(steps, i) <= StepTables(steps)
  {
  }

  lemma FilterPredsHold(q: Query, tags: seq<Option<Table>>, c: nat)
    requires Places(q.clause, tags) && q.preds == FlatPreds(|tags|, |tags|) && c < |q.clause.existsPreds|
    ensures forall env :: CondOf(q, q.clause.existsPreds[c])(env)
  {
    hide Chain.Has, Ascending;
    assert TakesFor(q.clause.split.existsChains[c], tags, q.clause.existsPreds[c]);
  }

  lemma TwinWhere(steps: seq<JoinStep>, q: Query, rels: seq<Relationship>, tags: seq<Option<Table>>, keys: seq<GroupKey>, t: Table, id: Column, row: DbRow, o: Env)
    requires Emittable(steps, q.clause, tags, keys) && Shaped(q) && q.preds == FlatPreds(|tags|, |tags|) && Twinned(q, steps, rels, keys, t, id)
    requires NearBlank(o, t, row) && (row == map[] || row == Twin(rels, t, id)) && o in FlatRows(q)
    ensures Where(q, o) && Local(q, tags)
  {
    hide IsTree, Splits, Projects, FlatRows, Where, HasCombination, Hung, Twinned, NearBlank, Twin, Chain.Has, Before, Ascending;
    FlatRowsKeys(q, o);
    SplitIsWell(steps, q.clause);
    ClauseStepsAre(steps, q.clause);
    forall c | 0 <= c < |q.clause.existsPreds|
      ensures HasCombination(q, c, o)
    {
      FilterPredsHold(q, tags, c);
      assert q.clause.split.existsChains[c] in q.clause.split.existsChains;
      TwinCombination(q, steps, rels, keys, t, id, row, o, c);
    }
    WhereIs(steps, q, tags, keys, o);
  }

  lemma TwinInCell(steps: seq<JoinStep>, q: Query, rels: seq<Relationship>, tags: seq<Option<Table>>, keys: seq<GroupKey>, v: Table, t: Table, id: Column, row: DbRow, o: Env)
    requires Emittable(steps, q.clause, tags, keys) && Shaped(q) && Twinned(q, steps, rels, keys, t, id) && Where(q, o)
    requires NearBlank(o, t, row) && Quiet(q.clause, keys, v, t, row) && o in FlatRows(q)
    ensures InCell(q, keys, o, Nulls(|keys|))
  {
    hide IsTree, Splits, Projects, Places, FlatRows, Where, Reaches, Before, Twin, Marked, LinkCols, KeyCols;
    forall k | k in keys
      ensures ColOf(o, k.table, k.col) == Null
    {
    }
    forall n | 0 <= n < |q.clause.selected|
      ensures Reaches(q, n, o, TupleOf(q, keys, Nulls(|keys|), n))
    {
      assert q.clause.split.groupChains[n] in q.clause.split.groupChains;
      BlankReaches(q, n, o);
      assert TupleOf(q, keys, Nulls(|keys|), n) == Nulls(|q.clause.selected[n]|);
    }
  }

  /** One of the two joined rows of the same value row. */
  lemma TwinRow(steps: seq<JoinStep>, q: Query, rels: seq<Relationship>, tags: seq<Option<Table>>, keys: seq<GroupKey>, v: Table, t: Table, id: Column, row: DbRow)
    returns (o: Env)
    requires Emittable(steps, q.clause, tags, keys) && Shaped(q) && q.preds == FlatPreds(|tags|, |tags|) && Twinned(q, steps, rels, keys, t, id)
    requires Quiet(q.clause, keys, v, t, row) && (row == map[] || row == Twin(rels, t, id)) && v != t && v in FlatTables(q.clause) && t in FlatTables(q.clause)
    ensures o in FlatRows(q) && InCell(q, keys, o, Nulls(|keys|)) && ShowsRow(o, v, map[]) && ShowsRow(o, t, row) && Local(q, tags)
  {
    hide IsTree, Splits, Projects, Places, FlatRows, Where, Quiet, InCell, InScope, Before, LeftJoins, Local, Twin;
    var root, flat := q.clause.root, q.clause.split.flat;
    FlatIsTree(steps, q.clause);
    TreeInScope(root, flat);
    var first := if root == t then row else map[];
    var start: Env := map[root := Some(first)];
    assert start.Keys == {root};
    o := TwinJoin(q, steps, rels, keys, v, t, id, row, start, |flat|);
    assert flat[..|flat|] == flat;
    assert first in RowsOf(q.db, root) by { FirstIsRow(q, steps, rels, keys, t, id, row); }
    SpanIsFlatRow(q, first, o);
    TwinWhere(steps, q, rels, tags, keys, t, id, row, o);
    TwinInCell(steps, q, rels, tags, keys, v, t, id, row, o);
  }

  lemma FirstIsRow(q: Query, steps: seq<JoinStep>, rels: seq<Relationship>, keys: seq<GroupKey>, t: Table, id: Column, row: DbRow)
    requires Twinned(q, steps, rels, keys, t, id) && (row == map[] || row == Twin(rels, t, id))
    ensures (if q.clause.root == t then row else map[]) in RowsOf(q.db, q.clause.root)
  {
    hide Before, Twin;
    var rows := RowsOf(q.db, q.clause.root);
    if q.clause.root == t {
      assert rows[0] in rows && rows[1] in rows;
    } else {
      BlankOnAt(q.db, FlatTables(q.clause) - {t}, q.clause.root);
    }
  }

  /** A flat table that is not fixed repeats a value row in its cell. */
  lemma UnfixedIsNotOwn(steps: seq<JoinStep>, rels: seq<Relationship>, clause: Clause, tags: seq<Option<Table>>, keys: seq<GroupKey>, v: Table, t: Table)
    requires Emittable(steps, clause, tags, keys) && |clause.selected| == |clause.split.groupChains|
    requires v in FlatTables(clause) && t in FlatTables(clause) && t != v && !Fixed(rels, clause, keys, v, t)
    ensures !AlwaysOwn(rels, clause, tags, keys, v)
  {
    hide IsTree, Splits, Projects, Places, FlatRows, InCell, Fixed, Twinned, Quiet, LinkCols, FlatTables, Local, FlatPreds, Lawful, OwnEverywhere;
    var id := FreshColumn(LinkCols(steps, keys));
    var q := TwinQuery(steps, clause, rels, keys, t, id, |tags|);
    ClauseStepsAre(steps, clause);
    TwinIsLawful(steps, clause, rels, keys, t, id, |tags|);
    TwinTables(steps, clause, rels, keys, t, id, |tags|);
    assert Shaped(q) by { PlacesShapes(q, tags); }
    UnfixedIsQuiet(steps, clause, rels, keys, v, t, id);
    assert Quiet(clause, keys, v, t, map[]) by { BlankIsQuiet(clause, keys, v, t); }
    var o := TwinRow(steps, q, rels, tags, keys, v, t, id, map[]);
    var p := TwinRow(steps, q, rels, tags, keys, v, t, id, Twin(rels, t, id));
    assert o != p by {
      assert id in Twin(rels, t, id);
    }
    RepeatedIsNotOwn(steps, q, rels, tags, keys, v, t, id, o, p);
  }

  lemma BlankIsQuiet(clause: Clause, keys: seq<GroupKey>, v: Table, t: Table)
    ensures Quiet(clause, keys, v, t, map[])
  {
  }

  lemma RepeatedIsNotOwn(steps: seq<JoinStep>, q: Query, rels: seq<Relationship>, tags: seq<Option<Table>>, keys: seq<GroupKey>, v: Table, t: Table, id: Column, o: Env, p: Env)
    requires Emittable(steps, q.clause, tags, keys) && Shaped(q) && Lawful(rels, q.db) && Twinned(q, steps, rels, keys, t, id)
    requires v in FlatTables(q.clause) && v != t && o != p && ShowsRow(o, v, map[]) && ShowsRow(p, v, map[])
    requires o in FlatRows(q) && p in FlatRows(q) && InCell(q, keys, o, Nulls(|keys|)) && InCell(q, keys, p, Nulls(|keys|))
    ensures !OwnEverywhere(q, keys, v)
  {
    hide IsTree, Splits, Projects, Places, FlatRows, InCell, Lawful, FlatTables, GroupedRows, CellRows, Counts, Twin;
    var cell := Nulls(|keys|);
    CellRowsAre(steps, rels, q, tags, keys, v, cell);
    ShownOfCell(q, keys, v, cell);
    var rows := CellRows(q, keys, v, cell);
    var i :| 0 <= i < |rows| && rows[i] == o;
    var j :| 0 <= j < |rows| && rows[j] == p;
    BlankOnAt(q.db, FlatTables(q.clause) - {t}, v);
    SubtotalWhen.SelectShorter(RowsOf(q.db, v), r => Counts(q, keys, v, cell, r));
    assert |OwnRows(q, keys, v, cell)| <= 1;
    assert |multiset(ShownRows(GroupedRows(q, keys, cell), v))| >= 2;
    assert |multiset(OwnRows(q, keys, v, cell))| <= 1;
  }

  /** In all lawful data and for all predicates, a cell shows its own value rows, each once, exactly when
    * the group chains carry keys only and every flat table's row is fixed by the value row and the cell. */
  lemma ValueRowsAreOwnWhen(steps: seq<JoinStep>, rels: seq<Relationship>, clause: Clause, tags: seq<Option<Table>>, keys: seq<GroupKey>, v: Table)
    requires Emittable(steps, clause, tags, keys) && v in FlatTables(clause)
    ensures |clause.selected| == |clause.split.groupChains| == |clause.groupPreds|
    ensures AlwaysOwn(rels, clause, tags, keys, v) <==> KeysOnly(clause) && AllFixed(rels, clause, keys, v)
  {
    hide IsTree, Splits, FlatTables;
    assert |clause.selected| == |clause.split.groupChains| == |clause.groupPreds|;
    hide Places, Projects;
    if KeysOnly(clause) && AllFixed(rels, clause, keys, v) {
      hide KeysOnly, AllFixed, Shaped, Local, Lawful, ShownRows, GroupedRows, OwnRows;
      forall q: Query, cell | q.clause == clause && Shaped(q) && Local(q, tags) && Lawful(rels, q.db) && |cell| == |keys|
        ensures multiset(ShownRows(GroupedRows(q, keys, cell), v)) == multiset(OwnRows(q, keys, v, cell))
      {
        CellRowsAreOwn(steps, rels, q, tags, keys, v, cell);
      }
    } else if !KeysOnly(clause) {
      hide KeysOnly;
      var q, o, cell := UnlikeFlat(steps, clause, tags, keys);
      FewIsLawful(rels, q.db);
      DiffersIsNotOwn(steps, rels, q, clause, tags, keys, v, o, cell);
    } else {
      var t :| t in FlatTables(clause) && t != v && !Fixed(rels, clause, keys, v, t);
      UnfixedIsNotOwn(steps, rels, clause, tags, keys, v, t);
    }
  }

  // ---- rows the joins leave out, and rows without a value ----

  /** The usual case: a clause rooted at its only value table, whose one-way steps all lead from the many
    * side to the one side, shows each cell its own value rows, each once: the bridges are all carved. */
  lemma FactRootedIsOwn(steps: seq<JoinStep>, rels: seq<Relationship>, clause: Clause, tags: seq<Option<Table>>, keys: seq<GroupKey>, needed: set<Table>)
    requires Emittable(steps, clause, tags, keys) && KeysOnly(clause)
    requires CutRight(steps, clause.split, needed, KeyTables(keys), {clause.root}) && needed <= KeyTables(keys) + {clause.root}
    requires forall s :: s in steps && !s.bidirectional ==> IsKey(rels, s.table, s.onToCol)
    ensures AlwaysOwn(rels, clause, tags, keys, clause.root)
  {
    hide Places, Projects, Splits, CutRight, AlwaysOwn, KeysOnly;
    BridgesAreCut(clause.root, steps, clause.split, needed, KeyTables(keys));
    FixedThroughKeys(rels, clause, keys);
    ValueRowsAreOwnWhen(steps, rels, clause, tags, keys, clause.root);
  }

  lemma FixedThroughKeys(rels: seq<Relationship>, clause: Clause, keys: seq<GroupKey>)
    requires forall s :: s in clause.split.flat ==> IsKey(rels, s.table, s.onToCol)
    ensures AllFixed(rels, clause, keys, clause.root) && clause.root in FlatTables(clause)
  {
    hide IsKey;
  }

  ghost predicate AlwaysJoined(rels: seq<Relationship>, clause: Clause, v: Table) {
    forall q: Query :: q.clause == clause && Lawful(rels, q.db) ==>
      forall r :: r in RowsOf(q.db, v) ==> IsJoined(q, v, r)
  }

  ghost predicate IsJoined(q: Query, v: Table, r: DbRow) {
    exists o :: o in FlatRows(q) && ShowsRow(o, v, r)
  }

  /** No value row is left out of all cells, whatever the data, exactly when the value table is the root. */
  lemma NoRowIsLostWhen(rels: seq<Relationship>, clause: Clause, v: Table)
    requires IsTree(clause.root, clause.split.flat) && v in FlatTables(clause)
    ensures AlwaysJoined(rels, clause, v) <==> v == clause.root
  {
    hide IsTree, LeftJoins, Lawful, FlatTables;
    if v == clause.root {
      forall q: Query, r | q.clause == clause && r in RowsOf(q.db, v)
        ensures IsJoined(q, v, r)
      {
        var o := LeftJoinsKeep(q.db, map[v := Some(r)], clause.split.flat);
        SpanIsFlatRow(q, r, o);
        RootShows(q, r, o);
      }
    } else {
      var q := Query(map[v := [map[]]], clause, []);
      FewIsLawful(rels, q.db);
      NoRowsNoJoins(q.db, clause.split.flat);
      assert FlatRows(q) == [];
      var rows := RowsOf(q.db, v);
      assert rows[0] in rows && !IsJoined(q, v, map[]);
    }
  }

  lemma RootShows(q: Query, r: DbRow, o: Env)
    requires IsTree(q.clause.root, q.clause.split.flat) && o in LeftJoins(q.db, [map[q.clause.root := Some(r)]], q.clause.split.flat)
    ensures ShowsRow(o, q.clause.root, r)
  {
    hide IsTree, LeftJoins, AllLeft, Before;
    TreeInScope(q.clause.root, q.clause.split.flat);
    var start: Env := map[q.clause.root := Some(r)];
    assert start.Keys == {q.clause.root};
    LeftJoinsAreExact(q.db, start, q.clause.split.flat, o);
    assert q.clause.root in start;
  }

  ghost predicate AlwaysPresent(rels: seq<Relationship>, clause: Clause, v: Table) {
    forall q: Query :: q.clause == clause && Lawful(rels, q.db) ==> forall o :: o in FlatRows(q) ==> HasRow(o, v)
  }

  /** No joined row lacks a value row, whatever the data, exactly when the value table is the root: a
    * COUNT(*) over any other clause counts the group rows without one. */
  lemma EveryRowShowsWhen(rels: seq<Relationship>, clause: Clause, v: Table)
    requires IsTree(clause.root, clause.split.flat) && v in FlatTables(clause)
    ensures AlwaysPresent(rels, clause, v) <==> v == clause.root
  {
    hide IsTree, LeftJoins, Lawful, FlatTables, FlatRows;
    if v == clause.root {
      forall q: Query, o | q.clause == clause && o in FlatRows(q)
        ensures HasRow(o, v)
      {
        FlatRowSpans(q, o);
      }
    } else {
      var r: DbRow := map[];
      var q := Query(map[clause.root := [r]], clause, []);
      FewIsLawful(rels, q.db);
      var o := LeftJoinsKeep(q.db, map[clause.root := Some(r)], clause.split.flat);
      var rows := RowsOf(q.db, clause.root);
      assert rows[0] in rows;
      SpanIsFlatRow(q, r, o);
      if HasRow(o, v) {
        ShownIsRow(q, v, o);
      }
      assert !HasRow(o, v);
    }
  }

  // ---- a sale that counts twice ----

  const CLUB_TO_MEMBERSHIP := JoinStep(1, 2, 0, 0, false)
  const MEMBERSHIP_TO_CUSTOMER := JoinStep(2, 3, 1, 0, true)
  const CUSTOMER_TO_SALE := JoinStep(3, 4, 0, 0, false)

  /** memberships -> clubs, memberships <-> customers, sales -> customers. */
  ghost function ClubRelationships(): seq<Relationship> {
    [Relationship(2, 0, 1, 0, false), Relationship(2, 1, 3, 0, true), Relationship(4, 0, 3, 0, false)]
  }

  ghost function ClubSteps(): seq<JoinStep> {
    [CLUB_TO_MEMBERSHIP, MEMBERSHIP_TO_CUSTOMER, CUSTOMER_TO_SALE]
  }

  ghost function Membership(id: int): DbRow {
    map[0 := Val(100), 1 := Val(1), 2 := Val(id)]
  }

  /** Club 100, named 65, of which customer 1 is a member twice; one sale of 10 to that customer.  The
    * clause is rooted at the group key, as it is beside a context CTE. */
  ghost function ClubQuery(): Query {
    Query(map[1 := [map[0 := Val(100), 1 := Val(65)]], 2 := [Membership(0), Membership(1)], 3 := [map[0 := Val(1)]], 4 := [map[0 := Val(1), 1 := Val(10)]]],
      Clause(1, Split(ClubSteps(), [], []), [], [], [], [], map[]), [])
  }

  ghost function ClubRow(id: int): Env {
    map[1 := Some(map[0 := Val(100), 1 := Val(65)]), 2 := Some(Membership(id)), 3 := Some(map[0 := Val(1)]), 4 := Some(map[0 := Val(1), 1 := Val(10)])]
  }

  lemma ClubTree()
    ensures IsTree(1, ClubSteps()) && InScope({1}, ClubSteps())
  {
    var steps := ClubSteps();
    assert steps[..1][0].table == 2 && steps[..2][1].table == 3;
    assert Entered(1, steps[..0], 1) && Entered(1, steps[..1], 2) && Entered(1, steps[..2], 3);
    TreeInScope(1, steps);
  }

  lemma ClubEmitted()
    ensures Emittable(ClubSteps(), ClubQuery().clause, [], [ContextCte.GroupKey(1, 1)])
  {
    ClubTree();
    hide IsTree;
    assert ChainSteps([]) == multiset{};
    assert AllSteps(ClubQuery().clause.split) == multiset(ClubSteps());
  }

  /** The splitter leaves every step of this path flat: the sales hang below the bidirectional one. */
  lemma ClubIsFlat()
    ensures CutRight(ClubSteps(), ClubQuery().clause.split, {1, 4}, {1}, {4})
  {
    var steps := ClubSteps();
    assert Below(steps[..0], 3, 3) && Below(steps[..1], 3, 3) && Below(steps[..2], 3, 3);
    assert steps[..3] == steps && steps[2] == CUSTOMER_TO_SALE && steps[..|steps| - 1] == steps[..2];
    assert Below(steps, 3, 4);
    assert AnyBelow(steps, 3, {4}) && AnyBelow(steps, 3, {1, 4});
  }

  lemma ClubRowLinks(id: int)
    requires id == 0 || id == 1
    ensures AllLeft(ClubQuery().db, ClubRow(id), ClubSteps())
  {
    var q, o := ClubQuery(), ClubRow(id);
    var members := RowsOf(q.db, 2);
    assert members[0] in members && members[1] in members;
    assert Joined(q.db, o, CLUB_TO_MEMBERSHIP) && Joined(q.db, o, MEMBERSHIP_TO_CUSTOMER) && Joined(q.db, o, CUSTOMER_TO_SALE);
  }

  lemma ClubScope()
    ensures StepTables(ClubSteps()) == {2, 3, 4}
  {
    var steps := ClubSteps();
    assert steps[0].table == 2 && steps[1].table == 3 && steps[2].table == 4;
  }

  lemma ClubRowIsJoined(id: int)
    requires id == 0 || id == 1
    ensures ClubRow(id) in FlatRows(ClubQuery())
  {
    var q, steps, o := ClubQuery(), ClubSteps(), ClubRow(id);
    var club: DbRow := map[0 := Val(100), 1 := Val(65)];
    var start: Env := map[1 := Some(club)];
    assert start.Keys == {1} && o[1] == start[1];
    ClubScope();
    ClubTree();
    ClubRowLinks(id);
    hide IsTree, InScope, AllLeft, Before;
    LeftJoinsAreExact(q.db, start, steps, o);
    SpanIsFlatRow(q, club, o);
  }

  lemma ClubRowCounts(id: int)
    ensures InCell(ClubQuery(), [ContextCte.GroupKey(1, 1)], ClubRow(id), [Val(65)])
  {
  }

  lemma ClubIsLawful()
    ensures Lawful(ClubRelationships(), ClubQuery().db)
  {
    var q := ClubQuery();
    TwoIsLawful(Membership(0), Membership(1), 2);
    forall t, c | IsKey(ClubRelationships(), t, c)
      ensures t == 1 || t == 3
    {
    }
  }

  /** The club's one sale is shown twice in the club's cell. */
  lemma RepeatedMembershipCountsTwice()
    ensures var q, keys := ClubQuery(), [ContextCte.GroupKey(1, 1)];
      && Shaped(q) && Lawful(ClubRelationships(), q.db) && |RowsOf(q.db, 4)| == 1
      && |OwnRows(q, keys, 4, [Val(65)])| <= 1 && |ShownRows(GroupedRows(q, keys, [Val(65)]), 4)| >= 2
  {
    hide IsTree, Splits, Places, Projects, FlatRows, InCell, Lawful, GroupedRows, CellRows, Counts;
    var q, keys, cell := ClubQuery(), [ContextCte.GroupKey(1, 1)], [Val(65)];
    ClubEmitted();
    ClubIsLawful();
    CellRowsAre(ClubSteps(), ClubRelationships(), q, [], keys, 4, cell);
    ClubRowIsJoined(0);
    ClubRowIsJoined(1);
    ClubRowCounts(0);
    ClubRowCounts(1);
    assert ClubRow(0)[2].value[2] != ClubRow(1)[2].value[2];
    ShownOfCell(q, keys, 4, cell);
    var rows := CellRows(q, keys, 4, cell);
    var i :| 0 <= i < |rows| && rows[i] == ClubRow(0);
    var j :| 0 <= j < |rows| && rows[j] == ClubRow(1);
    SubtotalWhen.SelectShorter(RowsOf(q.db, 4), r => Counts(q, keys, 4, cell, r));
  }

  /** Nor is a context CTE's clause safe, which is rooted at the sales and joins a carried key of the clubs
    * flat. */
  lemma ClubContextIsNotFixed()
    ensures var flat := [JoinStep(4, 3, 0, 0, false), JoinStep(3, 2, 0, 1, true), JoinStep(2, 1, 0, 0, false)];
      !AllFixed(ClubRelationships(), Clause(4, Split(flat, [], []), [], [], [], [], map[]), [ContextCte.GroupKey(1, 1)], 4)
  {
    var flat := [JoinStep(4, 3, 0, 0, false), JoinStep(3, 2, 0, 1, true), JoinStep(2, 1, 0, 0, false)];
    var clause := Clause(4, Split(flat, [], []), [], [], [], [], map[]);
    InFlat(clause, 1);
    assert !Fixed(ClubRelationships(), clause, [ContextCte.GroupKey(1, 1)], 4, 2);
  }
}
