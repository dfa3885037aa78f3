/** A context CTE's own value rows: those of its clause that the cell's modified context leads to, each
  * once. */
module ContextRows {
  import opened Relationships
  import opened Relational
  import opened JoinPath
  import opened ClusterFrom
  import opened ChainRows
  import opened FlatJoins
  import opened ValueRows
  import opened CellContext
  import Stitch
  import Subtotals
  import Summarize
  import Calculate
  import ValueRowsWhen

  type CellKey = Stitch.CellKey

  // ---- the clause of a context CTE ----

  ghost function ColKeyOf(k: GroupKey): Calculate.ColKey {
    Calculate.ColKey(k.table, k.col)
  }

  /** The group keys the modifiers leave in force. */
  ghost function KeptKeys(mods: Calculate.Mods, keys: seq<GroupKey>): seq<GroupKey> {
    Select(keys, k => Calculate.KeyStays(mods, ColKeyOf(k)))
  }

  lemma KeptKeysAre(mods: Calculate.Mods, keys: seq<GroupKey>)
    ensures forall k :: k in KeptKeys(mods, keys) <==> k in keys && Calculate.KeyStays(mods, ColKeyOf(k))
    ensures Images(KeptKeys(mods, keys), k => ColKeyOf(k)) == Calculate.KeptKeys(mods, Images(keys, k => ColKeyOf(k)))
  {
    var stays := (k: GroupKey) => Calculate.KeyStays(mods, ColKeyOf(k));
    SelectMember(keys, stays);
    assert KeptKeys(mods, keys) == Select(keys, stays);
    assert forall k :: k in Select(keys, stays) <==> k in keys && stays(k);
    SelectImages(keys, (k: GroupKey) => ColKeyOf(k), (c: Calculate.ColKey) => Calculate.KeyStays(mods, c), stays);
    SelectSame(Images(keys, k => ColKeyOf(k)), (c: Calculate.ColKey) => Calculate.KeyStays(mods, c), c => Calculate.KeyStays(mods, c));
  }

  /** No table is only grouped by, as far as the splitter of a context CTE's path is told: there are no
    * group chains, and no keys are projected through one. */
  lemma ContextHasNoChains(steps: seq<JoinStep>, clause: Clause, needed: set<Table>, values: set<Table>, keys: seq<GroupKey>)
    requires CutRight(steps, clause.split, needed, {}, values) && Projects(clause, [])
    ensures clause.split.groupChains == [] && Projects(clause, keys)
  {
    var chains := clause.split.groupChains;
    SomeIn(chains);
    forall c | c in chains
      ensures false
    {
      NothingIsGrouped(steps, c.anchor, needed, values);
    }
  }

  lemma NothingIsGrouped(steps: seq<JoinStep>, s: JoinStep, needed: set<Table>, values: set<Table>)
    ensures CutOf(steps, s, needed, {}, values) != GroupCut
  {
    NothingIsBelow(steps, s.table);
  }

  lemma NothingIsBelow(steps: seq<JoinStep>, t: Table)
    ensures !AnyBelow(steps, t, {})
  {
  }

  /** The conditions of the clause, read flat. */
  ghost predicate FlatWhere(q: Query, o: Env)
    requires Shaped(q)
  {
    CondOf(q, q.clause.conds)(o) && forall c :: 0 <= c < |q.clause.existsPreds| ==> HasCombination(q, c, o)
  }

  ghost function KeyColumn(keys: seq<GroupKey>, o: Env, i: nat): Value {
    if i < |keys| then ColOf(o, keys[i].table, keys[i].col) else Null
  }

  /** The facts of a context are the joined rows of its clause. */
  ghost function FactsOf(q: Query, keys: seq<GroupKey>, scans: seq<DateRows<Env>>, time: (Env, seq<seq<Value>>) -> bool): Data<Env, Env>
    requires Shaped(q)
  {
    Data(FlatRows(q), o => FlatWhere(q, o), (o, i) => KeyColumn(keys, o, i), scans, time)
  }

  /** The same with the conditions as emitted. */
  ghost function EmittedFacts(q: Query, keys: seq<GroupKey>, scans: seq<DateRows<Env>>, time: (Env, seq<seq<Value>>) -> bool): Data<Env, Env>
    requires Shaped(q)
  {
    FactsOf(q, keys, scans, time).(cond := (o: Env) => Where(q, o))
  }

  lemma FactsAreEmitted(steps: seq<JoinStep>, q: Query, tags: seq<Option<Table>>, kept: seq<GroupKey>, sh: Shape, scans: seq<DateRows<Env>>,
    time: (Env, seq<seq<Value>>) -> bool, k: CellKey)
    requires Emittable(steps, q.clause, tags, kept) && Shaped(q) && WellShaped(sh) && |scans| == |sh.sources|
    ensures ContextFacts(sh, EmittedFacts(q, sh.keys, scans, time), k) == ContextFacts(sh, FactsOf(q, sh.keys, scans, time), k)
  {
    hide Emittable, FlatRows, Where, HasCombination, KeepsKeys;
    var emitted, facts := EmittedFacts(q, sh.keys, scans, time), FactsOf(q, sh.keys, scans, time);
    assert CellAnchors(sh, emitted, k) == CellAnchors(sh, facts, k);
    forall o | o in FlatRows(q)
      ensures InContext(sh, emitted, o, k) <==> InContext(sh, facts, o, k)
    {
      WhereIs(steps, q, tags, kept, o);
    }
    SelectSame(FlatRows(q), o => InContext(sh, emitted, o, k), o => InContext(sh, facts, o, k));
  }

  // ---- its own rows ----

  /** The context leads from the value row to the cell. */
  ghost predicate ContextCounts(sh: Shape, q: Query, data: Data<Env, Env>, v: Table, k: CellKey, r: DbRow)
    requires WellShaped(sh) && |data.scans| == |sh.sources|
  {
    exists o :: o in ContextFacts(sh, data, k) && ShowsRow(o, v, r)
  }

  ghost function BesideFact(sh: Shape, q: Query, data: Data<Env, Env>, v: Table, k: CellKey, r: DbRow): Env
    requires WellShaped(sh) && |data.scans| == |sh.sources|
  {
    if ContextCounts(sh, q, data, v, k, r) then
      var o :| o in ContextFacts(sh, data, k) && ShowsRow(o, v, r);
      o
    else map[]
  }

  ghost function ContextOwnRows(sh: Shape, q: Query, data: Data<Env, Env>, v: Table, k: CellKey): seq<DbRow>
    requires WellShaped(sh) && |data.scans| == |sh.sources|
  {
    Select(RowsOf(q.db, v), r => ContextCounts(sh, q, data, v, k, r))
  }

  ghost function ContextOwn(sh: Shape, q: Query, data: Data<Env, Env>, v: Table, k: CellKey): seq<Env>
    requires WellShaped(sh) && |data.scans| == |sh.sources|
  {
    Images(ContextOwnRows(sh, q, data, v, k), r => BesideFact(sh, q, data, v, k, r))
  }

  /** The keys that stay in force fix the columns of a context's rows. */
  lemma ContextReads(sh: Shape, q: Query, scans: seq<DateRows<Env>>, time: (Env, seq<seq<Value>>) -> bool, kept: seq<GroupKey>, k: CellKey, o: Env, p: Env, v: Table, r: DbRow)
    requires Shaped(q) && WellShaped(sh) && |scans| == |sh.sources|
    requires forall g :: g in kept ==> exists i :: 0 <= i < |sh.keys| && sh.keys[i] == g && !sh.removed[i]
    requires o in ContextFacts(sh, FactsOf(q, sh.keys, scans, time), k) && p in ContextFacts(sh, FactsOf(q, sh.keys, scans, time), k)
    requires ShowsRow(o, v, r) && ShowsRow(p, v, r)
    ensures o in FlatRows(q) && p in FlatRows(q) && SameCell(kept, v, o, p)
  {
    hide FlatRows, FlatWhere;
    var data := FactsOf(q, sh.keys, scans, time);
    FactIsIn(sh, data, k, o);
    FactIsIn(sh, data, k, p);
    forall g | g in kept && g.table in o
      ensures ColOf(o, g.table, g.col) == ColOf(p, g.table, g.col)
    {
      var i :| 0 <= i < |sh.keys| && sh.keys[i] == g && !sh.removed[i];
      assert KeyColumn(sh.keys, o, i) == k.keys[i] && KeyColumn(sh.keys, p, i) == k.keys[i];
    }
  }

  lemma FactIsIn(sh: Shape, data: Data<Env, Env>, k: CellKey, o: Env)
    requires WellShaped(sh) && |data.scans| == |sh.sources| && o in ContextFacts(sh, data, k)
    ensures o in data.facts && InContext(sh, data, o, k)
  {
    hide InContext;
    SelectHas(data.facts, (f: Env) => InContext(sh, data, f, k), o);
  }

  lemma SelectHas<T>(rows: seq<T>, p: T -> bool, r: T)
    ensures r in Select(rows, p) <==> r in rows && p(r)
  {
    SelectMember(rows, p);
  }

  lemma ContextFactsDistinct(sh: Shape, data: Data<Env, Env>, k: CellKey)
    requires WellShaped(sh) && |data.scans| == |sh.sources| && Distinct(data.facts)
    ensures Distinct(ContextFacts(sh, data, k))
  {
    hide InContext;
    Summarize.SelectIsSubset(data.facts, f => InContext(sh, data, f, k));
  }

  /** Where every flat table's row is fixed by the value row and the keys in force, the facts of a cell's
    * modified context show its own value rows, each once. */
  lemma ContextRowsAreOwn(rels: seq<Relationship>, sh: Shape, q: Query, scans: seq<DateRows<Env>>, time: (Env, seq<seq<Value>>) -> bool, kept: seq<GroupKey>, v: Table, k: CellKey)
    requires Shaped(q) && WellShaped(sh) && |scans| == |sh.sources| && Lawful(rels, q.db) && IsTree(q.clause.root, q.clause.split.flat)
    requires forall g :: g in kept ==> exists i :: 0 <= i < |sh.keys| && sh.keys[i] == g && !sh.removed[i]
    requires AllFixed(rels, q.clause, kept, v)
    ensures var data := FactsOf(q, sh.keys, scans, time);
      multiset(RowsWith(ContextFacts(sh, data, k), v)) == multiset(ContextOwn(sh, q, data, v, k))
  {
    hide IsTree, FlatRows, FlatWhere, Lawful, AllFixed, ContextFacts, HasRow, ShowsRow, FactsOf, ContextCounts, BesideFact, RowOf, WellShaped, Shaped;
    assert WellShaped(sh);
    var data := FactsOf(q, sh.keys, scans, time);
    FactsAreFlat(q, sh.keys, scans, time);
    FlatRowsDistinct(rels, q);
    ContextFactsDistinct(sh, data, k);
    var rows, own := RowsWith(ContextFacts(sh, data, k), v), ContextOwnRows(sh, q, data, v, k);
    RowsWithAre(ContextFacts(sh, data, k), v);
    OwnFactsAre(rels, sh, q, data, v, k);
    forall o | o in rows
      ensures RowOf(o, v) in own && BesideFact(sh, q, data, v, k, RowOf(o, v)) == o
    {
      FactShowsOwn(rels, sh, q, scans, time, kept, v, k, o);
    }
    forall r | r in own
      ensures BesideFact(sh, q, data, v, k, r) in rows && RowOf(BesideFact(sh, q, data, v, k, r), v) == r
    {
      BesideFactShows(sh, q, data, v, k, r);
    }
    Inverse(own, rows, r => BesideFact(sh, q, data, v, k, r), o => RowOf(o, v));
  }

  lemma FactsAreFlat(q: Query, keys: seq<GroupKey>, scans: seq<DateRows<Env>>, time: (Env, seq<seq<Value>>) -> bool)
    requires Shaped(q)
    ensures FactsOf(q, keys, scans, time).facts == FlatRows(q) && FactsOf(q, keys, scans, time).scans == scans
  {
  }

  lemma OwnFactsAre(rels: seq<Relationship>, sh: Shape, q: Query, data: Data<Env, Env>, v: Table, k: CellKey)
    requires WellShaped(sh) && |data.scans| == |sh.sources| && Lawful(rels, q.db)
    ensures Distinct(ContextOwnRows(sh, q, data, v, k))
    ensures forall r :: r in ContextOwnRows(sh, q, data, v, k) <==> r in RowsOf(q.db, v) && ContextCounts(sh, q, data, v, k, r)
  {
    hide ContextCounts;
    Summarize.SelectIsSubset(RowsOf(q.db, v), r => ContextCounts(sh, q, data, v, k, r));
  }

  lemma BesideFactShows(sh: Shape, q: Query, data: Data<Env, Env>, v: Table, k: CellKey, r: DbRow)
    requires WellShaped(sh) && |data.scans| == |sh.sources| && ContextCounts(sh, q, data, v, k, r)
    ensures var b := BesideFact(sh, q, data, v, k, r);
      b in ContextFacts(sh, data, k) && ShowsRow(b, v, r) && HasRow(b, v) && RowOf(b, v) == r
  {
    hide ContextFacts;
  }

  lemma FactShowsOwn(rels: seq<Relationship>, sh: Shape, q: Query, scans: seq<DateRows<Env>>, time: (Env, seq<seq<Value>>) -> bool, kept: seq<GroupKey>, v: Table, k: CellKey, o: Env)
    requires Shaped(q) && WellShaped(sh) && |scans| == |sh.sources| && Lawful(rels, q.db) && IsTree(q.clause.root, q.clause.split.flat)
    requires forall g :: g in kept ==> exists i :: 0 <= i < |sh.keys| && sh.keys[i] == g && !sh.removed[i]
    requires AllFixed(rels, q.clause, kept, v)
    requires o in ContextFacts(sh, FactsOf(q, sh.keys, scans, time), k) && HasRow(o, v)
    ensures var data := FactsOf(q, sh.keys, scans, time);
      RowOf(o, v) in ContextOwnRows(sh, q, data, v, k) && BesideFact(sh, q, data, v, k, RowOf(o, v)) == o
  {
    hide IsTree, FlatRows, FlatWhere, Lawful, AllFixed, ContextFacts, FactsOf, BesideFact, SameCell;
    var data, r := FactsOf(q, sh.keys, scans, time), RowOf(o, v);
    FactsAreFlat(q, sh.keys, scans, time);
    OwnFactsAre(rels, sh, q, data, v, k);
    assert ShowsRow(o, v, r);
    assert ContextCounts(sh, q, data, v, k, r);
    BesideFactShows(sh, q, data, v, k, r);
    var b := BesideFact(sh, q, data, v, k, r);
    ContextReads(sh, q, scans, time, kept, k, o, b, v, r);
    ShownIsRow(q, v, o);
    FixedRows(rels, q, kept, v, o, b);
  }

  /** In all lawful data a clause without group chains shows a cell's own value rows, each once, exactly
    * when every flat table's row is fixed by the value row and the keys in force. */
  lemma ContextShowsOwnWhen(steps: seq<JoinStep>, rels: seq<Relationship>, clause: Clause, tags: seq<Option<Table>>, kept: seq<GroupKey>, v: Table)
    requires Emittable(steps, clause, tags, kept) && clause.split.groupChains == [] && v in FlatTables(clause)
    ensures ValueRowsWhen.AlwaysOwn(rels, clause, tags, kept, v) <==> AllFixed(rels, clause, kept, v)
  {
    hide IsTree, Splits, FlatTables, AllFixed, ValueRowsWhen.AlwaysOwn;
    ValueRowsWhen.ValueRowsAreOwnWhen(steps, rels, clause, tags, kept, v);
  }
}
