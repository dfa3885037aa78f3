/** What a whole SUMMARIZECOLUMNS returns: at every level of its rollup, every cell with a measure that is
  * not BLANK, once, and each measure there its expression over aggregates that are each taken over their
  * own value rows in their own context. */
module QueryMeaning {
  import opened Relationships
  import opened Relational
  import opened MeasurePlan
  import Stitch
  import Summarize
  import Rollup
  import Calculate
  import ContextCte
  import CellContext
  import ClusterFrom
  import JoinPath
  import ChainRows
  import FlatJoins
  import Subtotals
  import SubtotalWhen
  import ValueRows
  import LevelRows
  import ContextRows

  type Env = ChainRows.Env
  type CellKey = Stitch.CellKey
  type Pred = Env -> bool

  /** A CALCULATE that modifies the context, before it is emitted: its modifiers, the outer predicates that
    * reach its tables, its own predicates with their tables, its clause, its scans and time ranges. */
  datatype Context = Context(
    mods: Calculate.Mods, routed: seq<nat>, own: seq<Pred>, ownTags: seq<Option<Table>>, from: ChainRows.Query,
    shape: CellContext.Shape, carried: seq<ContextCte.CarriedKey>, scans: seq<CellContext.DateRows<Env>>, time: (Env, seq<seq<Value>>) -> bool)

  /** What the query is evaluated over.  The group keys are the plain ones and then those of the rollup
    * elements.  A table set has the outer predicates that reach it and a FROM clause; an aggregate has the
    * table it takes its rows from. */
  datatype Model = Model(
    rels: seq<Relationship>, keys: seq<ClusterFrom.GroupKey>, plain: seq<Rollup.Col>, elems: seq<Rollup.Element>,
    outer: seq<Pred>, outerTags: seq<Calculate.Tag>,
    routed: set<Table> -> seq<nat>, from: set<Table> -> ChainRows.Query, context: nat -> Context, shape: FcId -> nat,
    value: FcId -> Table, agg: (FcId, multiset<Env>) -> Value, inPlace: FcId -> Value, op: (nat, seq<Value>) -> Value)

  /** A cell of one level of the rollup: the values of the level's keys. */
  datatype Cell = Cell(level: nat, vals: seq<Value>)

  // ---- levels ----

  ghost predicate WellKeyed(md: Model) {
    && Rollup.WellFormed(md.elems)
    && md.plain + Rollup.ColsOf(md.elems) == Positions(|md.keys|)
  }

  /** A level keeps the first keys. */
  ghost function LevelKeysOf(md: Model, l: nat): seq<ClusterFrom.GroupKey>
    requires l <= |md.elems|
  {
    var n := |Rollup.Level(md.plain, md.elems, l)|;
    if n <= |md.keys| then md.keys[..n] else md.keys
  }

  ghost predicate ValidCell(md: Model, cell: Cell) {
    cell.level <= |md.elems| && |cell.vals| == |LevelKeysOf(md, cell.level)|
  }

  /** The key columns and grouping flags of the cell's row. */
  ghost function KeyOfCell(md: Model, cell: Cell): CellKey
    requires WellKeyed(md) && ValidCell(md, cell)
  {
    LevelFits(md, cell.level);
    Stitch.CellKey(cell.vals + seq(|md.keys| - |cell.vals|, _ => Null), Rollup.Flags(md.elems, Rollup.Level(md.plain, md.elems, cell.level)))
  }

  lemma LevelFits(md: Model, l: nat)
    requires WellKeyed(md) && l <= |md.elems|
    ensures var n := |Rollup.Level(md.plain, md.elems, l)|;
      n <= |md.keys| && LevelKeysOf(md, l) == md.keys[..n] && Rollup.Level(md.plain, md.elems, l) == Positions(n)
  {
    LevelIsPrefix(md.plain, md.elems, l, |md.elems|);
    assert md.elems[..|md.elems|] == md.elems;
    var level, all := Rollup.Level(md.plain, md.elems, l), Positions(|md.keys|);
    assert level <= all;
    forall i | 0 <= i < |level|
      ensures level[i] == i
    {
      assert level[i] == all[i];
    }
    assert level == Positions(|level|);
  }

  lemma {:induction false} LevelIsPrefix(plain: seq<Rollup.Col>, elems: seq<Rollup.Element>, l: nat, m: nat)
    requires l <= m <= |elems|
    ensures Rollup.Level(plain, elems, l) <= Rollup.Level(plain, elems, m)
    decreases m - l
  {
    if l < m {
      LevelIsPrefix(plain, elems, l, m - 1);
      Rollup.ColsOfStep(elems, m - 1);
    }
  }

  // ---- the meaning ----

  /** The joined rows of a table set that count in a cell, read flat. */
  ghost function RowsAt(md: Model, key: set<Table>, cell: Cell): seq<Env> {
    var q := md.from(key);
    if ChainRows.Shaped(q) && ValidCell(md, cell) then FlatJoins.FlatCounted(q, LevelKeysOf(md, cell.level), cell.vals) else []
  }

  /** A table set has rows in the cell; without GROUP BY columns there is always one group. */
  ghost predicate Present(md: Model, key: set<Table>, cell: Cell) {
    (ValidCell(md, cell) && LevelKeysOf(md, cell.level) == []) || RowsAt(md, key, cell) != []
  }

  /** An aggregate's own value rows in a cell, each once, with what the joins put beside it. */
  ghost function OwnAt(md: Model, key: set<Table>, v: Table, cell: Cell): seq<Env> {
    var q := md.from(key);
    if ChainRows.Shaped(q) && ValidCell(md, cell) then ValueRows.OwnEnvs(q, LevelKeysOf(md, cell.level), v, cell.vals) else []
  }

  ghost function ContextData(c: Context): CellContext.Data<Env, Env>
    requires ChainRows.Shaped(c.from)
  {
    ContextRows.FactsOf(c.from, c.shape.keys, c.scans, c.time)
  }

  ghost predicate ContextShaped(c: Context) {
    ChainRows.Shaped(c.from) && CellContext.WellShaped(c.shape) && |c.scans| == |c.shape.sources|
  }

  /** The joined rows of the cell's modified context, and the value rows among them, each once. */
  ghost function ContextRowsAt(md: Model, fc: FcId, cell: Cell): seq<Env> {
    var c := md.context(md.shape(fc));
    if ContextShaped(c) then CellContext.ContextFacts(c.shape, ContextData(c), Stitch.CellKey(cell.vals, [])) else []
  }

  ghost function ContextOwnAt(md: Model, fc: FcId, cell: Cell): seq<Env> {
    var c := md.context(md.shape(fc));
    if ContextShaped(c) then ContextRows.ContextOwn(c.shape, c.from, ContextData(c), md.value(fc), Stitch.CellKey(cell.vals, [])) else []
  }

  /** An aggregate in a cell: over the own rows of its modified context, or of its own tables; BLANK where
    * there is no group. */
  ghost function AggAt(md: Model, facts: Facts, lift: bool, cell: Cell, fc: FcId): Value {
    if lift && facts.rescopes(fc) then
      if md.context(md.shape(fc)).carried != [] && ContextRowsAt(md, fc, cell) == [] then Null
      else md.agg(fc, multiset(ContextOwnAt(md, fc, cell)))
    else if facts.tables(fc) == {} then md.inPlace(fc)
    else if !Present(md, facts.tables(fc), cell) then Null
    else md.agg(fc, multiset(OwnAt(md, facts.tables(fc), md.value(fc), cell)))
  }

  ghost function NoColumn(t: Table, c: Relationships.Column): Value {
    Null
  }

  ghost function CellMeaning(md: Model, facts: Facts, lift: bool, cell: Cell): Meaning {
    Meaning((fc: FcId) => AggAt(md, facts, lift, cell, fc), NoColumn, md.op)
  }

  /** A measure in a cell.  One that is evaluated whole over tables is BLANK where those have no group. */
  ghost function MeasureAt(md: Model, facts: Facts, lift: bool, cell: Cell, e: Expr): Value {
    if Whole(facts, lift, e) && TablesOf(facts, e) != {} && !Present(md, TablesOf(facts, e), cell) then Null
    else Eval(e, CellMeaning(md, facts, lift, cell))
  }

  // ---- the emitted query ----

  ghost function RowsMeaning(md: Model, rows: multiset<Env>): Meaning {
    Meaning((fc: FcId) => md.agg(fc, rows), NoColumn, md.op)
  }

  /** A column of a cluster CTE over one group. */
  ghost function ItemValue(md: Model, pairs: seq<Expr>, inlines: seq<Expr>, item: Item, rows: multiset<Env>): Value {
    match item
    case LiftedValue(fc) => md.agg(fc, rows)
    case PairValue(i) => if i + 1 < |pairs| then Eval(pairs[i + 1], RowsMeaning(md, rows)) else Null
    case InlineValue(j) => if j < |inlines| then Eval(inlines[j], RowsMeaning(md, rows)) else Null
  }

  ghost function ItemAgg(md: Model, pairs: seq<Expr>, inlines: seq<Expr>, item: Item): multiset<Env> -> Value {
    (rows: multiset<Env>) => ItemValue(md, pairs, inlines, item, rows)
  }

  ghost function ContextAgg(md: Model, fc: FcId): multiset<Env> -> Value {
    (rows: multiset<Env>) => md.agg(fc, rows)
  }

  ghost function WhereRows(q: ChainRows.Query): seq<ChainRows.Wide>
    requires ChainRows.Shaped(q)
  {
    Select(ChainRows.WideRows(q, |q.clause.selected|), (w: ChainRows.Wide) => ChainRows.Where(q, w.env))
  }

  /** A row of the FROM clause under one grouping set. */
  datatype Leveled = Leveled(w: ChainRows.Wide, level: nat)

  ghost function Levels(md: Model): (ls: seq<nat>)
    ensures |ls| == |md.elems| + 1 && forall l :: 0 <= l < |ls| ==> ls[l] == l
  {
    seq(|md.elems| + 1, l requires 0 <= l <= |md.elems| => l)
  }

  ghost function AtLevel(rows: seq<ChainRows.Wide>, l: nat): seq<Leveled> {
    Images(rows, w => Leveled(w, l))
  }

  ghost function LeveledRows(md: Model, q: ChainRows.Query): seq<Leveled>
    requires ChainRows.Shaped(q)
  {
    Flat(Levels(md), l => AtLevel(WhereRows(q), l))
  }

  /** The GROUP BY columns under a grouping set, the rest NULL, and GROUPING of each element. */
  ghost function LeveledKey(md: Model, q: ChainRows.Query, row: Leveled): CellKey {
    if Rollup.WellFormed(md.elems) && row.level <= |md.elems| then
      var level := Rollup.Level(md.plain, md.elems, row.level);
      Stitch.CellKey(SubtotalWhen.Rolled(q, md.keys, Positions(|md.keys|), level, row.w), Rollup.Flags(md.elems, level))
    else Stitch.CellKey([], [])
  }

  lemma PlainLevel(md: Model)
    requires WellKeyed(md)
    ensures Rollup.Level(md.plain, md.elems, 0) == md.plain && LevelKeysOf(md, 0) == md.keys[..|md.plain|]
  {
    LevelFits(md, 0);
    assert md.elems[..0] == [];
  }

  /** The empty grouping set has its group whether or not there are rows. */
  ghost function GrandTotal(md: Model): Option<CellKey>
    requires WellKeyed(md)
  {
    if md.plain == [] then PlainLevel(md); Some(KeyOfCell(md, Cell(0, []))) else None
  }

  /** SELECT keys, flags, items FROM the clause of the CTE's tables WHERE its conditions GROUP BY the
    * grouping sets. */
  ghost function ClusterOf(md: Model, pairs: seq<Expr>, inlines: seq<Expr>, cte: Cte): Summarize.Cluster<Leveled, Env>
    requires ChainRows.Shaped(md.from(cte.key)) && WellKeyed(md)
  {
    var q := md.from(cte.key);
    Summarize.Cluster(LeveledRows(md, q), row => LeveledKey(md, q, row), (row: Leveled) => row.w.env,
      seq(|cte.items|, s requires 0 <= s < |cte.items| => ItemAgg(md, pairs, inlines, cte.items[s])),
      GrandTotal(md))
  }

  ghost function ContextAggs(md: Model, c: MeasurePlan.ContextCte): seq<multiset<Env> -> Value> {
    seq(|c.values|, v requires 0 <= v < |c.values| => ContextAgg(md, c.values[v]))
  }

  ghost function ContextOf(md: Model, c: MeasurePlan.ContextCte): Summarize.Cluster<ContextCte.Joined<Env>, Env>
    requires ContextShaped(md.context(c.shape))
  {
    var ctx := md.context(c.shape);
    var data := ContextRows.EmittedFacts(ctx.from, ctx.shape.keys, ctx.scans, ctx.time);
    ContextCte.CteOf(CellContext.Emitted(ctx.shape, ctx.carried, data), ContextAggs(md, c))
  }

  // ---- what the query has to satisfy ----

  ghost function PredsAt(md: Model, ps: seq<nat>): seq<Pred> {
    seq(|ps|, i requires 0 <= i < |ps| => if ps[i] < |md.outer| then md.outer[ps[i]] else (_: Env) => true)
  }

  ghost function TagsAt(md: Model, ps: seq<nat>): seq<Option<Table>> {
    seq(|ps|, i requires 0 <= i < |ps| => if ps[i] < |md.outerTags| then md.outerTags[ps[i]].table else None)
  }

  /** The clause is the emitter's for these predicates and keys, over lawful data, and its group chains
    * carry keys only. */
  ghost predicate Clean(md: Model, q: ChainRows.Query, tags: seq<Option<Table>>, keys: seq<ClusterFrom.GroupKey>) {
    && ChainRows.Shaped(q) && (exists steps :: FlatJoins.Emittable(steps, q.clause, tags, keys))
    && FlatJoins.Local(q, tags) && ValueRows.Lawful(md.rels, q.db) && FlatJoins.KeysOnly(q.clause)
  }

  /** A table set's clause: the outer predicates routed to it; the keys a subtotal drops determined by the
    * plain ones. */
  ghost predicate ClauseFits(md: Model, key: set<Table>) {
    var q := md.from(key);
    && q.preds == PredsAt(md, md.routed(key)) && Clean(md, q, TagsAt(md, md.routed(key)), md.keys)
    && Subtotals.Settled(q.clause, LevelKeysOf(md, 0))
  }

  /** COUNT(*) is not blind to joined rows without a value row; SUM, MIN, MAX and COUNT of a column are. */
  ghost predicate IgnoresAbsent(md: Model, fc: FcId) {
    forall rows: seq<Env> :: md.agg(fc, multiset(rows)) == md.agg(fc, multiset(ValueRows.RowsWith(rows, md.value(fc))))
  }

  /** The joins fix every row beside the aggregate's value rows, and show no row without one unless the
    * aggregate ignores it. */
  ghost predicate AggFits(md: Model, clause: ClusterFrom.Clause, keys: seq<ClusterFrom.GroupKey>, fc: FcId) {
    && ValueRows.AllFixed(md.rels, clause, keys, md.value(fc))
    && (clause.root == md.value(fc) || IgnoresAbsent(md, fc))
  }

  /** The outer predicates a context keeps. */
  ghost function KeptOuter(md: Model, c: Context): seq<nat> {
    Select(c.routed, (p: nat) => p < |md.outerTags| && Calculate.OuterStays(c.mods, md.outerTags[p]))
  }

  /** A context over the query's keys: removals and kept predicates are what the modifiers ask for, the
    * carried keys are the emitter's, its scans see the cell's context. */
  ghost predicate ContextFits(md: Model, shape: nat) {
    var c := md.context(shape);
    var sh := c.shape;
    && ContextShaped(c) && sh.rels == md.rels && sh.keys == md.keys && sh.tags == TagsAt(md, c.routed)
    && (forall i :: 0 <= i < |sh.keys| ==> (sh.removed[i] <==> !Calculate.KeyStays(c.mods, ContextRows.ColKeyOf(sh.keys[i]))))
    && c.from.preds == PredsAt(md, KeptOuter(md, c)) + c.own
    && Clean(md, c.from, TagsAt(md, KeptOuter(md, c)) + c.ownTags, ContextRows.KeptKeys(c.mods, md.keys))
    && CellContext.CarriedBy(sh, c.carried) && CellContext.SeesAll(sh)
    && CellContext.WellData(sh, ContextRows.EmittedFacts(c.from, sh.keys, c.scans, c.time))
  }

  /** Every CTE is over a fitting clause or context, and so is every aggregate it evaluates; a rollup has no
    * context CTEs, and then no call modifies the context. */
  ghost predicate Fits(md: Model, facts: Facts, lift: bool, ctes: Ctes) {
    && WellKeyed(md) && (lift <==> md.elems == []) && (!lift ==> ctes.contexts == [] && forall fc :: !facts.rescopes(fc))
    && (forall c :: 0 <= c < |ctes.regular| ==> ClauseFits(md, ctes.regular[c].key))
    && (forall c :: 0 <= c < |ctes.contexts| ==> ContextFits(md, ctes.contexts[c].shape))
    && (forall c, fc :: 0 <= c < |ctes.regular| && facts.tables(fc) == ctes.regular[c].key && !(lift && facts.rescopes(fc)) ==>
          AggFits(md, md.from(ctes.regular[c].key).clause, LevelKeysOf(md, 0), fc))
    && (forall c, s :: 0 <= c < |ctes.contexts| && 0 <= s < |ctes.contexts[c].values| ==>
          AggFits(md, md.context(ctes.contexts[c].shape).from.clause, ContextRows.KeptKeys(md.context(ctes.contexts[c].shape).mods, md.keys), ctes.contexts[c].values[s]))
  }

  // ---- a cluster's groups ----

  lemma RolledPrefix(md: Model, q: ChainRows.Query, l: nat, w: ChainRows.Wide)
    requires WellKeyed(md) && l <= |md.elems|
    ensures ValidCell(md, Cell(l, ChainRows.KeyOf(q, LevelKeysOf(md, l), w)))
    ensures LeveledKey(md, q, Leveled(w, l)) == KeyOfCell(md, Cell(l, ChainRows.KeyOf(q, LevelKeysOf(md, l), w)))
  {
    hide ChainRows.KeyAt, Rollup.Flags, Rollup.Level;
    LevelFits(md, l);
    var n := |Rollup.Level(md.plain, md.elems, l)|;
    var out, level := Positions(|md.keys|), Positions(n);
    var rolled, vals := SubtotalWhen.Rolled(q, md.keys, out, level, w), ChainRows.KeyOf(q, md.keys[..n], w);
    forall i | 0 <= i < |md.keys|
      ensures rolled[i] == if i < n then vals[i] else Null
    {
      assert out[i] == i && (i in level <==> i < n) by {
        if i < n {
          assert level[i] == i;
        }
      }
    }
    assert rolled == vals + seq(|md.keys| - n, _ => Null);
  }

  /** Flags and values tell cells apart. */
  lemma CellsDiffer(md: Model, a: Cell, b: Cell)
    requires WellKeyed(md) && ValidCell(md, a) && ValidCell(md, b) && KeyOfCell(md, a) == KeyOfCell(md, b)
    ensures a == b
  {
    LevelFits(md, a.level);
    LevelFits(md, b.level);
    assert Rollup.AllDistinct(md.plain + Rollup.ColsOf(md.elems));
    Rollup.DistinctColumnsSuffice(md.plain, md.elems);
    Rollup.FlagsTellLevel(md.plain, md.elems, a.level, b.level);
    assert KeyOfCell(md, a).keys[..|a.vals|] == a.vals && KeyOfCell(md, b).keys[..|b.vals|] == b.vals;
  }

  lemma {:induction false} FlatOnly<X, Y>(xs: seq<X>, f: X -> seq<Y>, i: nat)
    requires i < |xs| && forall j :: 0 <= j < |xs| && j != i ==> f(xs[j]) == []
    ensures Flat(xs, f) == f(xs[i])
  {
    var front, last := xs[..|xs| - 1], xs[|xs| - 1];
    assert forall j :: 0 <= j < |front| ==> front[j] == xs[j];
    if i < |front| {
      FlatOnly(front, f, i);
    } else {
      FlatNoneAt(front, f);
    }
  }

  lemma {:induction false} FlatNoneAt<X, Y>(xs: seq<X>, f: X -> seq<Y>)
    requires forall j :: 0 <= j < |xs| ==> f(xs[j]) == []
    ensures Flat(xs, f) == []
  {
    if xs != [] {
      var front := xs[..|xs| - 1];
      assert forall j :: 0 <= j < |front| ==> front[j] == xs[j];
      FlatNoneAt(front, f);
    }
  }

  /** A grouping set's group, as the measures read it. */
  lemma GroupOfCell(md: Model, q: ChainRows.Query, cell: Cell)
    requires ChainRows.Shaped(q) && WellKeyed(md) && ValidCell(md, cell)
    ensures Images(Group(LeveledRows(md, q), row => LeveledKey(md, q, row), KeyOfCell(md, cell)), (row: Leveled) => row.w.env)
      == ChainRows.GroupedRows(q, LevelKeysOf(md, cell.level), cell.vals)
  {
    hide WhereRows, Group, Flat, Select, ChainRows.KeyOf, LeveledKey, KeyOfCell, LevelKeysOf, ChainRows.Shaped;
    var k, some := KeyOfCell(md, cell), LevelKeysOf(md, cell.level);
    var rows := WhereRows(q);
    var here, at := (row: Leveled) => LeveledKey(md, q, row) == k, (l: nat) => AtLevel(rows, l);
    var mine := (l: nat) => Select(AtLevel(rows, l), here);
    var mk, key := (w: ChainRows.Wide) => Leveled(w, cell.level), (w: ChainRows.Wide) => ChainRows.KeyOf(q, some, w);
    GroupIsSelect(LeveledRows(md, q), md, q, k, here);
    ChainRows.SelectFlat(Levels(md), at, here, mine);
    assert LeveledRows(md, q) == Flat(Levels(md), at) by { FlatSame(Levels(md), at, l => AtLevel(WhereRows(q), l)); }
    forall l: nat, w | l <= |md.elems|
      ensures here(Leveled(w, l)) <==> l == cell.level && key(w) == cell.vals
    {
      RowIsHere(md, q, cell, l, w);
    }
    forall j | 0 <= j < |Levels(md)| && j != cell.level
      ensures mine(Levels(md)[j]) == []
    {
      SelectNone(AtLevel(rows, j), here);
    }
    FlatOnly(Levels(md), mine, cell.level);
    var keyed := (w: ChainRows.Wide) => key(w) == cell.vals;
    SelectImages(rows, mk, here, keyed);
    assert AtLevel(rows, cell.level) == Images(rows, mk);
    var chosen := Select(rows, keyed);
    assert Images(Images(chosen, mk), (row: Leveled) => row.w.env) == Images(chosen, (w: ChainRows.Wide) => w.env);
    GroupedIs(q, some, cell.vals, keyed);
  }

  lemma GroupIsSelect(rows: seq<Leveled>, md: Model, q: ChainRows.Query, k: CellKey, here: Leveled -> bool)
    requires forall row :: here(row) <==> LeveledKey(md, q, row) == k
    ensures Group(rows, row => LeveledKey(md, q, row), k) == Select(rows, here)
  {
    hide LeveledKey;
    GroupAs(rows, row => LeveledKey(md, q, row), k, here);
  }

  lemma GroupedIs(q: ChainRows.Query, some: seq<ClusterFrom.GroupKey>, vals: seq<Value>, keyed: ChainRows.Wide -> bool)
    requires ChainRows.Shaped(q) && forall w :: keyed(w) <==> ChainRows.KeyOf(q, some, w) == vals
    ensures ChainRows.GroupedRows(q, some, vals) == Images(Select(WhereRows(q), keyed), (w: ChainRows.Wide) => w.env)
  {
    hide ChainRows.KeyOf, ChainRows.Where, Group, Select;
    GroupAs(WhereRows(q), w => ChainRows.KeyOf(q, some, w), vals, keyed);
  }

  lemma RowIsHere(md: Model, q: ChainRows.Query, cell: Cell, l: nat, w: ChainRows.Wide)
    requires WellKeyed(md) && ValidCell(md, cell) && l <= |md.elems|
    ensures LeveledKey(md, q, Leveled(w, l)) == KeyOfCell(md, cell) <==> l == cell.level && ChainRows.KeyOf(q, LevelKeysOf(md, cell.level), w) == cell.vals
  {
    hide LeveledKey, KeyOfCell, LevelKeysOf, ChainRows.KeyOf;
    RolledPrefix(md, q, l, w);
    var other := Cell(l, ChainRows.KeyOf(q, LevelKeysOf(md, l), w));
    if LeveledKey(md, q, Leveled(w, l)) == KeyOfCell(md, cell) {
      CellsDiffer(md, other, cell);
    }
  }

  // ---- what a cluster's columns show ----

  /** At every level the clause meets what the level's own rows need. */
  lemma LevelIsFit(md: Model, key: set<Table>, l: nat) returns (steps: seq<JoinStep>)
    requires WellKeyed(md) && ClauseFits(md, key) && l <= |md.elems|
    ensures LevelRows.LevelFits(steps, md.rels, md.from(key), TagsAt(md, md.routed(key)), md.keys, LevelKeysOf(md, l))
  {
    hide FlatJoins.Emittable, FlatJoins.Local, ValueRows.Lawful, FlatJoins.KeysOnly, ChainRows.Shaped, Subtotals.Settled;
    var q, tags := md.from(key), TagsAt(md, md.routed(key));
    steps :| FlatJoins.Emittable(steps, q.clause, tags, md.keys);
    LevelGrows(md, l);
    SelectedIsShaped(steps, q.clause, tags, md.keys);
    SubtotalWhen.MoreIsSettled(q.clause, LevelKeysOf(md, 0), LevelKeysOf(md, l));
  }

  lemma SelectedIsShaped(steps: seq<JoinStep>, clause: ClusterFrom.Clause, tags: seq<Option<Table>>, keys: seq<ClusterFrom.GroupKey>)
    requires FlatJoins.Emittable(steps, clause, tags, keys)
    ensures |clause.selected| == |clause.split.groupChains|
  {
  }

  lemma LevelGrows(md: Model, l: nat)
    requires WellKeyed(md) && l <= |md.elems|
    ensures Subtotals.Among(LevelKeysOf(md, l), md.keys) && Subtotals.Among(LevelKeysOf(md, 0), LevelKeysOf(md, l))
  {
    LevelFits(md, l);
    LevelFits(md, 0);
    LevelIsPrefix(md.plain, md.elems, 0, l);
    var m, n := |Rollup.Level(md.plain, md.elems, 0)|, |Rollup.Level(md.plain, md.elems, l)|;
    assert m <= n && md.keys[..n][..m] == md.keys[..m];
  }

  /** The one level without keys is the plain one, when there are no plain keys. */
  lemma NoKeysIsTotal(md: Model, cell: Cell)
    requires WellKeyed(md) && ValidCell(md, cell)
    ensures LevelKeysOf(md, cell.level) == [] <==> md.plain == [] && cell == Cell(0, [])
    ensures md.plain == [] ==> ValidCell(md, Cell(0, []))
  {
    LevelFits(md, cell.level);
    PlainLevel(md);
    if cell.level > 0 {
      Rollup.ColsOfPrefix(md.elems, 0, cell.level);
      assert md.elems[..0] == [] && md.elems[0].cols != [];
    }
  }

  lemma GroupIsPresent(md: Model, pairs: seq<Expr>, inlines: seq<Expr>, cte: Cte, cell: Cell)
    requires WellKeyed(md) && ClauseFits(md, cte.key) && ValidCell(md, cell)
    ensures KeyOfCell(md, cell) in Summarize.GroupKeys(ClusterOf(md, pairs, inlines, cte)) <==> Present(md, cte.key, cell)
    ensures ChainRows.GroupedRows(md.from(cte.key), LevelKeysOf(md, cell.level), cell.vals) == RowsAt(md, cte.key, cell)
  {
    hide LeveledRows, LeveledKey, Group, LevelKeysOf, ChainRows.GroupedRows, FlatJoins.FlatCounted, Summarize.GroupKeys, KeyOfCell;
    var q, c, k := md.from(cte.key), ClusterOf(md, pairs, inlines, cte), KeyOfCell(md, cell);
    var steps := LevelIsFit(md, cte.key, cell.level);
    LevelRows.LevelGroup(steps, md.rels, q, TagsAt(md, md.routed(cte.key)), md.keys, LevelKeysOf(md, cell.level), cell.vals);
    GroupOfCell(md, q, cell);
    Summarize.GroupKeysAre(c);
    NoKeysIsTotal(md, cell);
    assert c.always == Some(k) <==> md.plain == [] && cell == Cell(0, []) by {
      if md.plain == [] && KeyOfCell(md, Cell(0, [])) == k {
        CellsDiffer(md, Cell(0, []), cell);
      }
    }
    var group := Group(c.rows, c.key, k);
    assert |Images(group, c.fact)| == |group|;
  }

  /** A column of a cluster CTE, in a cell: its item over the group's rows. */
  lemma ClusterShows(md: Model, pairs: seq<Expr>, inlines: seq<Expr>, cte: Cte, cell: Cell, s: nat)
    requires WellKeyed(md) && ClauseFits(md, cte.key) && ValidCell(md, cell) && s < |cte.items|
    ensures Summarize.GroupValue(ClusterOf(md, pairs, inlines, cte), KeyOfCell(md, cell), s)
      == if Present(md, cte.key, cell) then ItemValue(md, pairs, inlines, cte.items[s], multiset(RowsAt(md, cte.key, cell))) else Null
  {
    hide LeveledRows, LeveledKey, Group, LevelKeysOf, ChainRows.GroupedRows, Summarize.GroupKeys, KeyOfCell, RowsAt, Present, ItemValue, ClauseFits;
    assert ChainRows.Shaped(md.from(cte.key)) by { ClauseShaped(md, cte.key); }
    GroupIsPresent(md, pairs, inlines, cte, cell);
    GroupOfCell(md, md.from(cte.key), cell);
  }

  lemma ClauseShaped(md: Model, key: set<Table>)
    requires ClauseFits(md, key)
    ensures ChainRows.Shaped(md.from(key))
  {
  }

  /** Over the group's rows an aggregate is what it is over its own value rows. */
  lemma AggIsOwn(md: Model, key: set<Table>, cell: Cell, fc: FcId)
    requires WellKeyed(md) && ClauseFits(md, key) && ValidCell(md, cell) && AggFits(md, md.from(key).clause, LevelKeysOf(md, 0), fc)
    ensures md.agg(fc, multiset(RowsAt(md, key, cell))) == md.agg(fc, multiset(OwnAt(md, key, md.value(fc), cell)))
  {
    hide FlatJoins.Emittable, FlatJoins.Local, ValueRows.Lawful, FlatJoins.KeysOnly, Subtotals.Settled, ValueRows.AllFixed, ChainRows.GroupedRows,
      ValueRows.OwnEnvs, FlatJoins.FlatCounted, ValueRows.RowsWith, LevelKeysOf;
    var q, v, some, tags := md.from(key), md.value(fc), LevelKeysOf(md, cell.level), TagsAt(md, md.routed(key));
    var steps := LevelIsFit(md, key, cell.level);
    LevelGrows(md, cell.level);
    MoreIsFixed(md.rels, q.clause, LevelKeysOf(md, 0), some, v);
    LevelRows.LevelRowsAreOwn(steps, md.rels, q, tags, md.keys, some, v, cell.vals);
    LevelRows.LevelGroup(steps, md.rels, q, tags, md.keys, some, cell.vals);
    var rows := RowsAt(md, key, cell);
    assert ValueRows.CellRows(q, some, v, cell.vals) == ValueRows.RowsWith(rows, v);
    if q.clause.root == v {
      EmittableTree(steps, q.clause, tags, md.keys);
      RootRows(steps, q, some, cell.vals, rows);
    }
  }

  lemma EmittableTree(steps: seq<JoinStep>, clause: ClusterFrom.Clause, tags: seq<Option<Table>>, keys: seq<ClusterFrom.GroupKey>)
    requires FlatJoins.Emittable(steps, clause, tags, keys)
    ensures JoinPath.IsTree(clause.root, clause.split.flat)
  {
    hide JoinPath.IsTree, ClusterFrom.Places, ClusterFrom.Projects;
    ValueRows.FlatIsTree(steps, clause);
  }

  lemma MoreIsFixed(rels: seq<Relationship>, clause: ClusterFrom.Clause, some: seq<ClusterFrom.GroupKey>, more: seq<ClusterFrom.GroupKey>, v: Table)
    requires ValueRows.AllFixed(rels, clause, some, v) && Subtotals.Among(some, more)
    ensures ValueRows.AllFixed(rels, clause, more, v)
  {
    hide ChainRows.FlatTables, ValueRows.IsKey;
    forall t | t in ChainRows.FlatTables(clause) && t != v
      ensures ValueRows.Fixed(rels, clause, more, v, t)
    {
      ValueRows.FixedAt(rels, clause, some, v, t);
    }
  }

  /** Joined rows always show the root's row. */
  lemma RootRows(steps: seq<JoinStep>, q: ChainRows.Query, some: seq<ClusterFrom.GroupKey>, vals: seq<Value>, rows: seq<Env>)
    requires ChainRows.Shaped(q) && rows == FlatJoins.FlatCounted(q, some, vals) && JoinPath.IsTree(q.clause.root, q.clause.split.flat)
    ensures ValueRows.RowsWith(rows, q.clause.root) == rows
  {
    hide FlatJoins.FlatCounts, ChainRows.FlatRows, JoinPath.IsTree;
    forall o | o in rows
      ensures ValueRows.HasRow(o, q.clause.root)
    {
      ContextRows.SelectHas(ChainRows.FlatRows(q), (o: Env) => FlatJoins.FlatCounts(q, some, o, vals), o);
      ValueRows.FlatRowSpans(q, o);
    }
    SelectAll(rows, o => ValueRows.HasRow(o, q.clause.root));
  }

  lemma ClusterIsSound(md: Model, pairs: seq<Expr>, inlines: seq<Expr>, cte: Cte)
    requires WellKeyed(md) && ClauseFits(md, cte.key)
    ensures Summarize.KeysShaped(ClusterOf(md, pairs, inlines, cte), |md.keys|, |md.elems|)
  {
    hide WhereRows, ChainRows.KeyAt, AtLevel, Rollup.Level, SubtotalWhen.KeyRow, ClauseFits;
    assert ChainRows.Shaped(md.from(cte.key)) by { ClauseShaped(md, cte.key); }
    var c, q := ClusterOf(md, pairs, inlines, cte), md.from(cte.key);
    forall row | row in c.rows
      ensures Summarize.ShapedKey(c.key(row), |md.keys|, |md.elems|)
    {
      FlatMember(Levels(md), l => AtLevel(WhereRows(q), l), row);
      var l :| l in Levels(md) && row in AtLevel(WhereRows(q), l);
      LevelOfRow(WhereRows(q), l, row);
    }
    if md.plain == [] {
      PlainLevel(md);
    }
  }

  lemma LevelOfRow(rows: seq<ChainRows.Wide>, l: nat, row: Leveled)
    requires row in AtLevel(rows, l)
    ensures row.level == l
  {
  }

  // ---- what a context's columns show ----

  lemma ContextIsSound(md: Model, c: MeasurePlan.ContextCte)
    requires ContextFits(md, c.shape)
    ensures Summarize.ContextKeyed(ContextOf(md, c), |md.keys|, ContextCte.IdxsOf(md.context(c.shape).carried))
  {
    hide CellContext.CarriedBy, CellContext.WellData, CellContext.SeesAll, ContextCte.CteOf, Summarize.ContextKeyed, ContextCte.WellCarried,
      ContextCte.NullAnchorsReject, Clean, ContextRows.EmittedFacts;
    var ctx := md.context(c.shape);
    var data := ContextRows.EmittedFacts(ctx.from, ctx.shape.keys, ctx.scans, ctx.time);
    assert |data.scans| == |ctx.shape.sources| by { FactsScans(ctx); }
    var q := CellContext.Emitted(ctx.shape, ctx.carried, data);
    CellContext.EmittedFits(ctx.shape, ctx.carried, data);
    ContextCte.CteIsKeyed(q, ContextAggs(md, c));
  }

  lemma FactsScans(c: Context)
    requires ContextShaped(c)
    ensures ContextRows.EmittedFacts(c.from, c.shape.keys, c.scans, c.time).scans == c.scans
  {
  }

  /** The rows and groups of a CTE do not depend on what it aggregates. */
  lemma SameRows(q: ContextCte.ContextQuery<Env, Env>, aggs: seq<multiset<Env> -> Value>, k: CellKey)
    ensures var c, bare, cell := ContextCte.CteOf(q, aggs), ContextCte.CteOf(q, []), Stitch.Carried(k, ContextCte.IdxsOf(q.carried));
      && Images(Group(c.rows, c.key, cell), c.fact) == Images(Group(bare.rows, bare.key, cell), bare.fact) && c.aggs == aggs
      && (c.always.Some? <==> q.carried == [])
  {
    hide Group, ContextCte.FromRows;
    var c, bare, cell := ContextCte.CteOf(q, aggs), ContextCte.CteOf(q, []), Stitch.Carried(k, ContextCte.IdxsOf(q.carried));
    assert c.rows == bare.rows;
    GroupSame(c.rows, c.key, bare.key, cell);
    var rows := Group(c.rows, c.key, cell);
    assert forall i :: 0 <= i < |rows| ==> Images(rows, c.fact)[i] == Images(rows, bare.fact)[i];
  }

  /** A cell's group of a context CTE: the joined rows of the cell's modified context. */
  lemma ContextGroup(md: Model, c: MeasurePlan.ContextCte, cell: Cell, fc: FcId)
    requires ContextFits(md, c.shape) && |cell.vals| == |md.keys| && md.shape(fc) == c.shape
    ensures var ctx, k := md.context(c.shape), Stitch.CellKey(cell.vals, []);
      var cte, at := ContextOf(md, c), Stitch.Carried(k, ContextCte.IdxsOf(ctx.carried));
      && Images(Group(cte.rows, cte.key, at), cte.fact) == ContextRowsAt(md, fc, cell)
      && (at in Summarize.GroupKeys(cte) <==> ctx.carried == [] || ContextRowsAt(md, fc, cell) != [])
  {
    hide CellContext.CarriedBy, CellContext.WellData, CellContext.SeesAll, Group, ContextCte.CteOf, Clean, ContextRows.EmittedFacts, ContextRows.FactsOf,
      CellContext.ContextFacts, Summarize.GroupKeys, CellContext.Emitted;
    var ctx, k := md.context(c.shape), Stitch.CellKey(cell.vals, []);
    var data := ContextRows.EmittedFacts(ctx.from, ctx.shape.keys, ctx.scans, ctx.time);
    assert |data.scans| == |ctx.shape.sources| by { FactsScans(ctx); }
    CellContext.CteFactsAreContext(ctx.shape, ctx.carried, data, k);
    EmittedCarried(ctx, data);
    SameRows(CellContext.Emitted(ctx.shape, ctx.carried, data), ContextAggs(md, c), k);
    ContextReading(md, ctx, k);
    var cte, at := ContextOf(md, c), Stitch.Carried(k, ContextCte.IdxsOf(ctx.carried));
    Summarize.GroupKeysAre(cte);
    TotalIsCarried(md, c, k);
    assert |Images(Group(cte.rows, cte.key, at), cte.fact)| == |Group(cte.rows, cte.key, at)|;
  }

  lemma EmittedCarried(c: Context, data: CellContext.Data<Env, Env>)
    requires CellContext.WellShaped(c.shape) && |data.scans| == |c.shape.sources|
    ensures CellContext.Emitted(c.shape, c.carried, data).carried == c.carried
  {
  }

  /** The emitted conditions, read flat. */
  lemma ContextReading(md: Model, c: Context, k: CellKey)
    requires ContextShaped(c) && Clean(md, c.from, TagsAt(md, KeptOuter(md, c)) + c.ownTags, ContextRows.KeptKeys(c.mods, md.keys))
    ensures |ContextRows.EmittedFacts(c.from, c.shape.keys, c.scans, c.time).scans| == |c.shape.sources|
    ensures CellContext.ContextFacts(c.shape, ContextRows.EmittedFacts(c.from, c.shape.keys, c.scans, c.time), k)
      == CellContext.ContextFacts(c.shape, ContextData(c), k)
  {
    hide FlatJoins.Emittable, FlatJoins.Local, ValueRows.Lawful, FlatJoins.KeysOnly, CellContext.ContextFacts, ContextRows.KeptKeys;
    var tags, kept := TagsAt(md, KeptOuter(md, c)) + c.ownTags, ContextRows.KeptKeys(c.mods, md.keys);
    var steps :| FlatJoins.Emittable(steps, c.from.clause, tags, kept);
    ContextRows.FactsAreEmitted(steps, c.from, tags, kept, c.shape, c.scans, c.time, k);
  }

  /** The one row of a context CTE without carried keys is every cell's. */
  lemma TotalIsCarried(md: Model, c: MeasurePlan.ContextCte, k: CellKey)
    requires ContextFits(md, c.shape) && |k.keys| == |md.keys|
    ensures var ctx := md.context(c.shape);
      ContextOf(md, c).always == Some(Stitch.Carried(k, ContextCte.IdxsOf(ctx.carried))) <==> ctx.carried == []
  {
    hide CellContext.CarriedBy, CellContext.WellData, CellContext.SeesAll, Clean, ContextOf;
    var idxs := ContextCte.IdxsOf(md.context(c.shape).carried);
    ContextIsSound(md, c);
    if idxs == [] {
      assert Stitch.Carried(k, idxs).keys == seq(|md.keys|, _ => Null);
    }
  }

  /** A column of a context CTE, in a cell: the call over the rows of its modified context. */
  lemma ContextShows(md: Model, c: MeasurePlan.ContextCte, cell: Cell, s: nat)
    requires ContextFits(md, c.shape) && s < |c.values| && |cell.vals| == |md.keys| && md.shape(c.values[s]) == c.shape
    ensures |ContextOf(md, c).aggs| == |c.values|
    ensures var fc, ctx := c.values[s], md.context(c.shape);
      Summarize.GroupValue(ContextOf(md, c), Stitch.Carried(Stitch.CellKey(cell.vals, []), ContextCte.IdxsOf(ctx.carried)), s)
        == if ctx.carried != [] && ContextRowsAt(md, fc, cell) == [] then Null else md.agg(fc, multiset(ContextRowsAt(md, fc, cell)))
  {
    hide ContextFits, Group, Summarize.GroupKeys, ContextRowsAt, ContextRows.EmittedFacts, CellContext.Emitted;
    assert ContextShaped(md.context(c.shape)) by { ContextFitsShape(md, c.shape); }
    ContextGroup(md, c, cell, c.values[s]);
  }

  lemma ContextFitsShape(md: Model, shape: nat)
    requires ContextFits(md, shape)
    ensures ContextShaped(md.context(shape))
  {
  }

  /** Over the rows of the modified context an aggregate is what it is over the value rows among them. */
  lemma ContextAggIsOwn(md: Model, cell: Cell, fc: FcId)
    requires ContextFits(md, md.shape(fc)) && |cell.vals| == |md.keys|
    requires AggFits(md, md.context(md.shape(fc)).from.clause, ContextRows.KeptKeys(md.context(md.shape(fc)).mods, md.keys), fc)
    ensures md.agg(fc, multiset(ContextRowsAt(md, fc, cell))) == md.agg(fc, multiset(ContextOwnAt(md, fc, cell)))
  {
    hide CellContext.CarriedBy, CellContext.WellData, CellContext.SeesAll, FlatJoins.Emittable, FlatJoins.Local, ValueRows.Lawful, FlatJoins.KeysOnly,
      ContextRows.FactsOf, CellContext.ContextFacts, ContextRows.ContextOwn, ValueRows.AllFixed, ContextRows.KeptKeys, ChainRows.Shaped, ValueRows.RowsWith,
      ContextRows.EmittedFacts, JoinPath.IsTree;
    var c, k, v := md.context(md.shape(fc)), Stitch.CellKey(cell.vals, []), md.value(fc);
    var kept := ContextRows.KeptKeys(c.mods, md.keys);
    var steps :| FlatJoins.Emittable(steps, c.from.clause, TagsAt(md, KeptOuter(md, c)) + c.ownTags, kept);
    EmittableTree(steps, c.from.clause, TagsAt(md, KeptOuter(md, c)) + c.ownTags, kept);
    KeptAreInForce(md, c);
    ContextRows.ContextRowsAreOwn(md.rels, c.shape, c.from, c.scans, c.time, kept, v, k);
    if c.from.clause.root == v {
      RootFacts(c, k);
    }
  }

  lemma KeptAreInForce(md: Model, c: Context)
    requires c.shape.keys == md.keys && |c.shape.removed| == |md.keys|
    requires forall i :: 0 <= i < |md.keys| ==> (c.shape.removed[i] <==> !Calculate.KeyStays(c.mods, ContextRows.ColKeyOf(md.keys[i])))
    ensures forall g :: g in ContextRows.KeptKeys(c.mods, md.keys) ==> exists i :: 0 <= i < |c.shape.keys| && c.shape.keys[i] == g && !c.shape.removed[i]
  {
    hide Calculate.KeyStays, ContextRows.KeptKeys;
    ContextRows.KeptKeysAre(c.mods, md.keys);
  }

  lemma RootFacts(c: Context, k: CellKey)
    requires ContextShaped(c) && JoinPath.IsTree(c.from.clause.root, c.from.clause.split.flat)
    ensures var rows := CellContext.ContextFacts(c.shape, ContextData(c), k); ValueRows.RowsWith(rows, c.from.clause.root) == rows
  {
    hide CellContext.ContextFacts, ChainRows.FlatRows, JoinPath.IsTree, ContextRows.FactsOf, CellContext.InContext;
    ContextRows.FactsAreFlat(c.from, c.shape.keys, c.scans, c.time);
    var rows := CellContext.ContextFacts(c.shape, ContextData(c), k);
    forall o | o in rows
      ensures ValueRows.HasRow(o, c.from.clause.root)
    {
      ContextRows.FactIsIn(c.shape, ContextData(c), k, o);
      ValueRows.FlatRowSpans(c.from, o);
    }
    SelectAll(rows, o => ValueRows.HasRow(o, c.from.clause.root));
  }

  // ---- the stitch applies ----

  ghost predicate Shapely(md: Model, ctes: Ctes) {
    && WellKeyed(md)
    && (forall c :: 0 <= c < |ctes.regular| ==> ChainRows.Shaped(md.from(ctes.regular[c].key)))
    && (forall c :: 0 <= c < |ctes.contexts| ==> ContextShaped(md.context(ctes.contexts[c].shape)))
  }

  lemma FitsIsShapely(md: Model, facts: Facts, lift: bool, ctes: Ctes)
    requires Fits(md, facts, lift, ctes)
    ensures Shapely(md, ctes)
  {
  }

  ghost function ClustersOf(md: Model, pairs: seq<Expr>, inlines: seq<Expr>, ctes: Ctes): seq<Summarize.Cluster<Leveled, Env>>
    requires Shapely(md, ctes)
  {
    seq(|ctes.regular|, c requires 0 <= c < |ctes.regular| => ClusterOf(md, pairs, inlines, ctes.regular[c]))
  }

  ghost function ContextsOf(md: Model, ctes: Ctes): seq<Summarize.Cluster<ContextCte.Joined<Env>, Env>>
    requires Shapely(md, ctes)
  {
    seq(|ctes.contexts|, c requires 0 <= c < |ctes.contexts| => ContextOf(md, ctes.contexts[c]))
  }

  ghost function KeyIdxsOf(md: Model, ctes: Ctes): seq<seq<nat>> {
    seq(|ctes.contexts|, c requires 0 <= c < |ctes.contexts| => ContextCte.IdxsOf(md.context(ctes.contexts[c].shape).carried))
  }

  /** Something defines the cells: a cluster, or contexts alone when there are no group keys. */
  ghost predicate HasCtes(md: Model, ctes: Ctes) {
    ctes.regular != [] || (ctes.contexts != [] && md.keys == [] && md.elems == [])
  }

  lemma StitchDoesFit(md: Model, facts: Facts, lift: bool, pairs: seq<Expr>, inlines: seq<Expr>, ctes: Ctes)
    requires Fits(md, facts, lift, ctes) && HasCtes(md, ctes)
    ensures Shapely(md, ctes)
    ensures Summarize.Sound(ClustersOf(md, pairs, inlines, ctes), ContextsOf(md, ctes), KeyIdxsOf(md, ctes), |md.keys|, |md.elems|)
  {
    hide ClauseFits, ContextFits, AggFits, ClusterOf, ContextOf, Summarize.KeysShaped, Summarize.ContextKeyed, WellKeyed, ContextShaped, ChainRows.Shaped;
    assert Shapely(md, ctes) by { FitsIsShapely(md, facts, lift, ctes); }
    forall c | 0 <= c < |ctes.regular|
      ensures Summarize.KeysShaped(ClustersOf(md, pairs, inlines, ctes)[c], |md.keys|, |md.elems|)
    {
      ClusterIsSound(md, pairs, inlines, ctes.regular[c]);
    }
    forall c | 0 <= c < |ctes.contexts|
      ensures Summarize.ContextKeyed(ContextsOf(md, ctes)[c], |md.keys|, KeyIdxsOf(md, ctes)[c])
    {
      ContextIsSound(md, ctes.contexts[c]);
    }
  }

  // ---- one cell ----

  ghost function CellRow(md: Model, pairs: seq<Expr>, inlines: seq<Expr>, ctes: Ctes, cell: Cell): Summarize.OutRow
    requires Shapely(md, ctes) && ValidCell(md, cell)
  {
    Summarize.PerCell(ClustersOf(md, pairs, inlines, ctes), ContextsOf(md, ctes), KeyIdxsOf(md, ctes), KeyOfCell(md, cell))
  }

  ghost function ReadAt(row: Summarize.OutRow, col: ColumnRef): Value {
    match col
    case CteColumn(c, s) => if c < |row.values| && s < |row.values[c]| then row.values[c][s] else Null
    case ContextColumn(c, s) => if c < |row.contextValues| && s < |row.contextValues[c]| then row.contextValues[c][s] else Null
  }

  ghost function ReadOf(row: Summarize.OutRow): ColumnRef -> Value {
    (col: ColumnRef) => ReadAt(row, col)
  }

  /** Reading a cluster CTE's column in a stitched row. */
  lemma ReadsCluster(md: Model, pairs: seq<Expr>, inlines: seq<Expr>, ctes: Ctes, cell: Cell, c: nat, s: nat)
    requires Shapely(md, ctes) && ValidCell(md, cell) && c < |ctes.regular| && s < |ctes.regular[c].items| && ClauseFits(md, ctes.regular[c].key)
    ensures ReadAt(CellRow(md, pairs, inlines, ctes, cell), CteColumn(c, s))
      == if Present(md, ctes.regular[c].key, cell) then ItemValue(md, pairs, inlines, ctes.regular[c].items[s], multiset(RowsAt(md, ctes.regular[c].key, cell)))
         else Null
  {
    hide ClauseFits, RowsAt, Present, ItemValue, Summarize.GroupValue, ContextOf, KeyOfCell, LeveledRows, LeveledKey;
    ClusterShows(md, pairs, inlines, ctes.regular[c], cell, s);
  }

  /** Without a rollup a cell's key is its values. */
  lemma PlainCell(md: Model, cell: Cell)
    requires WellKeyed(md) && ValidCell(md, cell) && md.elems == []
    ensures |cell.vals| == |md.keys| && KeyOfCell(md, cell) == Stitch.CellKey(cell.vals, [])
  {
    PlainLevel(md);
    LevelFits(md, 0);
    assert md.plain == Positions(|md.keys|);
    assert cell.vals + [] == cell.vals;
  }

  lemma ReadsContext(md: Model, pairs: seq<Expr>, inlines: seq<Expr>, ctes: Ctes, cell: Cell, c: nat, s: nat)
    requires Shapely(md, ctes) && ValidCell(md, cell) && md.elems == [] && c < |ctes.contexts| && s < |ctes.contexts[c].values|
    requires ContextFits(md, ctes.contexts[c].shape) && md.shape(ctes.contexts[c].values[s]) == ctes.contexts[c].shape
    ensures var fc := ctes.contexts[c].values[s];
      ReadAt(CellRow(md, pairs, inlines, ctes, cell), ContextColumn(c, s))
        == if md.context(md.shape(fc)).carried != [] && ContextRowsAt(md, fc, cell) == [] then Null else md.agg(fc, multiset(ContextRowsAt(md, fc, cell)))
  {
    hide ContextFits, ContextRowsAt, Summarize.GroupValue, ClusterOf, KeyOfCell, ContextOf;
    PlainCell(md, cell);
    ContextShows(md, ctes.contexts[c], cell, s);
  }

  /** A lifted aggregate's column shows, in every cell, the aggregate over its own value rows in its own
    * context. */
  lemma LiftedIsFaithful(md: Model, facts: Facts, lift: bool, plan: Plan, pairs: seq<Expr>, inlines: seq<Expr>, ctes: Ctes,
    refs: map<Item, ColumnRef>, cell: Cell, fc: FcId)
    requires Fits(md, facts, lift, ctes) && Shapely(md, ctes) && ValidCell(md, cell) && AllOwn(facts, lift, plan.clusters)
    requires Columned(plan.clusters, md.shape, ctes, refs) && LiftedValue(fc) in refs
    ensures ReadAt(CellRow(md, pairs, inlines, ctes, cell), refs[LiftedValue(fc)]) == AggAt(md, facts, lift, cell, fc)
    ensures facts.tables(fc) != {} || (lift && facts.rescopes(fc))
  {
    hide CellRow, RowsAt, Present, ContextRowsAt, OwnAt, ContextOwnAt, ClauseFits, ContextFits, AggFits, LevelKeysOf, ReadAt, Shapely;
    var item, clusters := LiftedValue(fc), plan.clusters;
    assert Shows(ctes, refs[item], item) && AtHome(clusters, |clusters|, md.shape, ctes, refs[item], item);
    match refs[item]
    case CteColumn(c, s) =>
      var n :| 0 <= n < |clusters| && IsRegular(clusters[n]) && Computes(clusters[n], item) && clusters[n].key == ctes.regular[c].key;
      assert Owns(facts, lift, clusters[n]);
      ReadsCluster(md, pairs, inlines, ctes, cell, c, s);
      AggIsOwn(md, ctes.regular[c].key, cell, fc);
    case ContextColumn(c, s) =>
      var n :| 0 <= n < |clusters| && clusters[n].context.Some? && Computes(clusters[n], item);
      assert Owns(facts, lift, clusters[n]);
      ReadsContext(md, pairs, inlines, ctes, cell, c, s);
      PlainCell(md, cell);
      ContextAggIsOwn(md, cell, fc);
  }

  ghost predicate Planned(facts: Facts, lift: bool, plan: Plan, pairs: seq<Expr>, inlines: seq<Expr>) {
    && Right(facts, lift, plan, pairs, inlines) && AllOwn(facts, lift, plan.clusters)
    && PairHomes(plan.clusters) + multiset(plan.splitPairs) == multiset(NamePositions(|pairs| / 2))
    && InlineHomes(plan.clusters) + multiset(plan.splitInlines) == multiset(Positions(|inlines|))
  }

  ghost predicate Columned(clusters: seq<MeasurePlan.Cluster>, shape: FcId -> nat, ctes: Ctes, refs: map<Item, ColumnRef>) {
    && AllShown(ctes, refs) && AllAtHome(clusters, |clusters|, shape, ctes, refs)
    && forall item :: item in refs <==> Computed(clusters, |clusters|, item)
  }

  ghost predicate NoColumns(es: seq<Expr>) {
    forall e :: e in es ==> !HasColumn(e)
  }

  // ---- one measure ----

  /** The measure an item stands for. */
  ghost predicate Names(pairs: seq<Expr>, inlines: seq<Expr>, item: Item, e: Expr) {
    match item
    case PairValue(i) => i + 1 < |pairs| && pairs[i + 1] == e
    case InlineValue(j) => j < |inlines| && inlines[j] == e
    case LiftedValue(_) => false
  }

  /** A measure is at home in a cluster that holds it, or taken apart. */
  ghost predicate Settled(facts: Facts, lift: bool, plan: Plan, item: Item, e: Expr) {
    (exists n :: 0 <= n < |plan.clusters| && Home(facts, lift, plan.clusters[n], e) && HoldsItem(plan.clusters[n], item))
    || Lifts(facts, lift, plan.clusters, e)
  }

  ghost predicate HoldsItem(c: MeasurePlan.Cluster, item: Item) {
    (item.PairValue? && item.i in c.pairs) || (item.InlineValue? && item.j in c.inlines)
  }

  lemma InPairHomes(clusters: seq<MeasurePlan.Cluster>, i: nat)
    requires i in PairHomes(clusters)
    ensures exists c :: 0 <= c < |clusters| && i in clusters[c].pairs
  {
    var front := clusters[..|clusters| - 1];
    if i !in clusters[|clusters| - 1].pairs {
      InPairHomes(front, i);
      var c :| 0 <= c < |front| && i in front[c].pairs;
      assert i in clusters[c].pairs;
    }
  }

  lemma InInlineHomes(clusters: seq<MeasurePlan.Cluster>, j: nat)
    requires j in InlineHomes(clusters)
    ensures exists c :: 0 <= c < |clusters| && j in clusters[c].inlines
  {
    var front := clusters[..|clusters| - 1];
    if j !in clusters[|clusters| - 1].inlines {
      InInlineHomes(front, j);
      var c :| 0 <= c < |front| && j in front[c].inlines;
      assert j in clusters[c].inlines;
    }
  }

  lemma PairIsSettled(facts: Facts, lift: bool, plan: Plan, pairs: seq<Expr>, inlines: seq<Expr>, n: nat)
    requires Planned(facts, lift, plan, pairs, inlines) && n < |pairs| / 2
    ensures Settled(facts, lift, plan, PairValue(2 * n), pairs[2 * n + 1])
  {
    hide PairHomes, InlineHomes, Home, Lifts, AllOwn;
    assert NamePositions(|pairs| / 2)[n] == 2 * n;
    assert 2 * n in PairHomes(plan.clusters) + multiset(plan.splitPairs);
    if 2 * n in PairHomes(plan.clusters) {
      InPairHomes(plan.clusters, 2 * n);
      var c :| 0 <= c < |plan.clusters| && 2 * n in plan.clusters[c].pairs;
      assert HoldsRight(facts, lift, plan.clusters[c], pairs, inlines);
      assert Home(facts, lift, plan.clusters[c], pairs[2 * n + 1]) && HoldsItem(plan.clusters[c], PairValue(2 * n));
    } else {
      assert 2 * n in plan.splitPairs;
    }
  }

  lemma InlineIsSettled(facts: Facts, lift: bool, plan: Plan, pairs: seq<Expr>, inlines: seq<Expr>, j: nat)
    requires Planned(facts, lift, plan, pairs, inlines) && j < |inlines|
    ensures Settled(facts, lift, plan, InlineValue(j), inlines[j])
  {
    hide PairHomes, InlineHomes, Home, Lifts, AllOwn;
    assert Positions(|inlines|)[j] == j;
    assert j in InlineHomes(plan.clusters) + multiset(plan.splitInlines);
    if j in InlineHomes(plan.clusters) {
      InInlineHomes(plan.clusters, j);
      var c :| 0 <= c < |plan.clusters| && j in plan.clusters[c].inlines;
      assert HoldsRight(facts, lift, plan.clusters[c], pairs, inlines);
      assert Home(facts, lift, plan.clusters[c], inlines[j]) && HoldsItem(plan.clusters[c], InlineValue(j));
    } else {
      assert j in plan.splitInlines;
    }
  }

  /** The aggregates of a measure evaluated whole read the measure's own tables. */
  lemma WholeTables(facts: Facts, lift: bool, e: Expr, fc: FcId)
    requires Whole(facts, lift, e) && !HasColumn(e) && fc in Subtrees(e)
    ensures facts.tables(fc) == TablesOf(facts, e) && !(lift && facts.rescopes(fc))
  {
    forall t
      ensures t in TablesOf(facts, e) <==> t in facts.tables(fc)
    {
      TablesAreAggregates(facts, e, t);
    }
  }

  /** Evaluating the whole expression over one group is evaluating it in the cell. */
  lemma WholeIsMeasure(md: Model, facts: Facts, lift: bool, ctes: Ctes, c: nat, e: Expr, cell: Cell)
    requires Fits(md, facts, lift, ctes) && ValidCell(md, cell) && c < |ctes.regular| && ctes.regular[c].key == TablesOf(facts, e)
    requires Whole(facts, lift, e) && !HasColumn(e) && TablesOf(facts, e) != {}
    ensures MeasureAt(md, facts, lift, cell, e)
      == if Present(md, TablesOf(facts, e), cell) then Eval(e, RowsMeaning(md, multiset(RowsAt(md, TablesOf(facts, e), cell)))) else Null
  {
    hide Whole, TablesOf, Eval, RowsAt, Present, OwnAt, AggFits, ClauseFits, ContextFits;
    var key := TablesOf(facts, e);
    if Present(md, key, cell) {
      forall fc | fc in Subtrees(e)
        ensures AggAt(md, facts, lift, cell, fc) == md.agg(fc, multiset(RowsAt(md, key, cell)))
      {
        WholeTables(facts, lift, e, fc);
        AggIsOwn(md, key, cell, fc);
      }
      EvalSame(e, CellMeaning(md, facts, lift, cell), RowsMeaning(md, multiset(RowsAt(md, key, cell))));
    }
  }

  ghost function OuterMeaning(md: Model): Meaning {
    Meaning(md.inPlace, NoColumn, md.op)
  }

  /** A measure's output column: the CTE column that computes it, or arithmetic over CTE columns. */
  ghost function OutValue(md: Model, refs: map<Item, ColumnRef>, e: Expr, item: Item, row: Summarize.OutRow): Option<Value> {
    if item in refs then Some(ReadAt(row, refs[item])) else EvalSplit(e, OuterMeaning(md), refs, ReadOf(row))
  }

  /** An aggregate of a measure that no column computes, read or emitted in place, has its value in the
    * cell. */
  lemma SubstitutedIsAgg(md: Model, facts: Facts, lift: bool, plan: Plan, pairs: seq<Expr>, inlines: seq<Expr>, ctes: Ctes,
    refs: map<Item, ColumnRef>, cell: Cell, e: Expr, fc: FcId)
    requires Fits(md, facts, lift, ctes) && Shapely(md, ctes) && ValidCell(md, cell) && AllOwn(facts, lift, plan.clusters)
    requires Columned(plan.clusters, md.shape, ctes, refs) && fc in Subtrees(e) && !HasColumn(e)
    requires (Whole(facts, lift, e) && TablesOf(facts, e) == {}) || Lifts(facts, lift, plan.clusters, e)
    ensures Substituted(fc, OuterMeaning(md), refs, ReadOf(CellRow(md, pairs, inlines, ctes, cell))) == AggAt(md, facts, lift, cell, fc)
  {
    hide Fits, CellRow, RowsAt, ContextRowsAt, AllOwn, Whole, TablesOf, Lifts, AllShown, AllAtHome, Computed;
    if LiftedValue(fc) in refs {
      LiftedIsFaithful(md, facts, lift, plan, pairs, inlines, ctes, refs, cell, fc);
    } else if Lifts(facts, lift, plan.clusters, e) {
      SplitReadsColumns(facts, lift, plan.clusters, e, refs);
    } else {
      WholeTables(facts, lift, e, fc);
    }
  }

  /** A measure's output column is its expression over aggregates in their own contexts. */
  lemma OutIsMeasure(md: Model, facts: Facts, lift: bool, plan: Plan, pairs: seq<Expr>, inlines: seq<Expr>, ctes: Ctes,
    refs: map<Item, ColumnRef>, cell: Cell, item: Item, e: Expr)
    requires Fits(md, facts, lift, ctes) && Shapely(md, ctes) && ValidCell(md, cell) && Planned(facts, lift, plan, pairs, inlines)
    requires Columned(plan.clusters, md.shape, ctes, refs) && Names(pairs, inlines, item, e) && !HasColumn(e)
    requires Settled(facts, lift, plan, item, e)
    ensures OutValue(md, refs, e, item, CellRow(md, pairs, inlines, ctes, cell)) == Some(MeasureAt(md, facts, lift, cell, e))
  {
    hide Fits, Shapely, CellRow, RowsAt, ContextRowsAt, Lifts, Whole, TablesOf, Settled, Columned, AllHoldRight, Eval, HasColumn, AggAt, AllOwn, PairHomes,
      InlineHomes, ValidCell, ReadAt, MeasureAt, Names;
    if item in refs {
      ColumnIsMeasure(md, facts, lift, plan, pairs, inlines, ctes, refs, cell, item, e);
    } else {
      SettledOutside(facts, lift, plan, md.shape, ctes, refs, item, e);
      MeasureOutside(md, facts, lift, cell, e);
      forall fc | fc in Subtrees(e)
        ensures Substituted(fc, OuterMeaning(md), refs, ReadOf(CellRow(md, pairs, inlines, ctes, cell))) == CellMeaning(md, facts, lift, cell).agg(fc)
      {
        SubstitutedIsAgg(md, facts, lift, plan, pairs, inlines, ctes, refs, cell, e, fc);
      }
      SplitIsWhole(e, CellMeaning(md, facts, lift, cell), OuterMeaning(md), refs, ReadOf(CellRow(md, pairs, inlines, ctes, cell)));
    }
  }

  lemma MeasureOutside(md: Model, facts: Facts, lift: bool, cell: Cell, e: Expr)
    requires !Whole(facts, lift, e) || TablesOf(facts, e) == {}
    ensures MeasureAt(md, facts, lift, cell, e) == Eval(e, CellMeaning(md, facts, lift, cell))
  {
  }

  lemma SettledOutside(facts: Facts, lift: bool, plan: Plan, shape: FcId -> nat, ctes: Ctes, refs: map<Item, ColumnRef>, item: Item, e: Expr)
    requires Columned(plan.clusters, shape, ctes, refs) && Settled(facts, lift, plan, item, e) && item !in refs
    ensures (Whole(facts, lift, e) && TablesOf(facts, e) == {}) || (!Whole(facts, lift, e) && Lifts(facts, lift, plan.clusters, e))
  {
    hide AllShown, AllAtHome, Whole, TablesOf;
    if !Lifts(facts, lift, plan.clusters, e) {
      var n :| 0 <= n < |plan.clusters| && Home(facts, lift, plan.clusters[n], e) && HoldsItem(plan.clusters[n], item);
      assert !Computes(plan.clusters[n], item);
    }
  }

  lemma ColumnIsMeasure(md: Model, facts: Facts, lift: bool, plan: Plan, pairs: seq<Expr>, inlines: seq<Expr>, ctes: Ctes,
    refs: map<Item, ColumnRef>, cell: Cell, item: Item, e: Expr)
    requires Fits(md, facts, lift, ctes) && Shapely(md, ctes) && ValidCell(md, cell) && AllHoldRight(facts, lift, plan.clusters, pairs, inlines)
    requires Columned(plan.clusters, md.shape, ctes, refs) && Names(pairs, inlines, item, e) && !HasColumn(e) && item in refs
    ensures ReadAt(CellRow(md, pairs, inlines, ctes, cell), refs[item]) == MeasureAt(md, facts, lift, cell, e)
  {
    hide CellRow, RowsAt, Present, ContextRowsAt, Whole, TablesOf, Eval, MeasureAt, AggFits, ContextFits, ClauseFits, ReadAt, Shapely;
    var clusters := plan.clusters;
    assert Shows(ctes, refs[item], item) && AtHome(clusters, |clusters|, md.shape, ctes, refs[item], item);
    var c, s := refs[item].cte, refs[item].slot;
    var n :| 0 <= n < |clusters| && IsRegular(clusters[n]) && Computes(clusters[n], item) && clusters[n].key == ctes.regular[c].key;
    assert HoldsRight(facts, lift, clusters[n], pairs, inlines);
    assert Home(facts, lift, clusters[n], e);
    ReadsCluster(md, pairs, inlines, ctes, cell, c, s);
    WholeIsMeasure(md, facts, lift, ctes, c, e, cell);
  }

  // ---- the whole query ----

  /** One output row: the key columns and grouping flags, then the measures. */
  datatype ResultRow = ResultRow(key: CellKey, pairs: seq<Option<Value>>, inlines: seq<Option<Value>>)

  ghost function SelectRow(md: Model, pairs: seq<Expr>, inlines: seq<Expr>, refs: map<Item, ColumnRef>, row: Summarize.OutRow): ResultRow {
    ResultRow(row.cell,
      seq(|pairs| / 2, n requires 0 <= n < |pairs| / 2 => OutValue(md, refs, pairs[2 * n + 1], PairValue(2 * n), row)),
      seq(|inlines|, j requires 0 <= j < |inlines| => OutValue(md, refs, inlines[j], InlineValue(j), row)))
  }

  /** Rows whose every measure is BLANK are left out; with no measure nothing is. */
  ghost predicate Kept(row: ResultRow) {
    || (row.pairs == [] && row.inlines == [])
    || (exists n :: 0 <= n < |row.pairs| && row.pairs[n] != Some(Null))
    || (exists j :: 0 <= j < |row.inlines| && row.inlines[j] != Some(Null))
  }

  ghost function Result(md: Model, pairs: seq<Expr>, inlines: seq<Expr>, ctes: Ctes, refs: map<Item, ColumnRef>): seq<ResultRow>
    requires Shapely(md, ctes) && HasCtes(md, ctes)
  {
    Select(
      Images(Summarize.Output(ClustersOf(md, pairs, inlines, ctes), ContextsOf(md, ctes), KeyIdxsOf(md, ctes), |md.keys|, |md.elems|),
        row => SelectRow(md, pairs, inlines, refs, row)),
      row => Kept(row))
  }

  ghost function Expected(md: Model, facts: Facts, lift: bool, pairs: seq<Expr>, inlines: seq<Expr>, cell: Cell): ResultRow
    requires WellKeyed(md) && ValidCell(md, cell)
  {
    ResultRow(KeyOfCell(md, cell),
      seq(|pairs| / 2, n requires 0 <= n < |pairs| / 2 => Some(MeasureAt(md, facts, lift, cell, pairs[2 * n + 1]))),
      seq(|inlines|, j requires 0 <= j < |inlines| => Some(MeasureAt(md, facts, lift, cell, inlines[j]))))
  }

  /** The query asks for no measure, or one of them is not BLANK in the cell. */
  ghost predicate Telling(md: Model, facts: Facts, lift: bool, pairs: seq<Expr>, inlines: seq<Expr>, cell: Cell) {
    || (|pairs| < 2 && inlines == [])
    || (exists n :: 0 <= n < |pairs| / 2 && MeasureAt(md, facts, lift, cell, pairs[2 * n + 1]) != Null)
    || (exists j :: 0 <= j < |inlines| && MeasureAt(md, facts, lift, cell, inlines[j]) != Null)
  }

  lemma KeptIsTelling(md: Model, facts: Facts, lift: bool, pairs: seq<Expr>, inlines: seq<Expr>, cell: Cell)
    requires WellKeyed(md) && ValidCell(md, cell)
    ensures Kept(Expected(md, facts, lift, pairs, inlines, cell)) <==> Telling(md, facts, lift, pairs, inlines, cell)
  {
    hide MeasureAt, KeyOfCell, WellKeyed, ValidCell;
    var row := Expected(md, facts, lift, pairs, inlines, cell);
    forall n | 0 <= n < |pairs| / 2
      ensures row.pairs[n] == Some(MeasureAt(md, facts, lift, cell, pairs[2 * n + 1]))
    {
    }
    if n :| 0 <= n < |pairs| / 2 && MeasureAt(md, facts, lift, cell, pairs[2 * n + 1]) != Null {
      assert row.pairs[n] != Some(Null);
    }
    if j :| 0 <= j < |inlines| && MeasureAt(md, facts, lift, cell, inlines[j]) != Null {
      assert row.inlines[j] != Some(Null);
    }
  }

  /** A cell is a group of some cluster; without clusters there is the one total. */
  ghost predicate IsGroup(md: Model, ctes: Ctes, cell: Cell) {
    ValidCell(md, cell) && (ctes.regular == [] || exists c :: 0 <= c < |ctes.regular| && Present(md, ctes.regular[c].key, cell))
  }

  lemma GroupIsCell(md: Model, pairs: seq<Expr>, inlines: seq<Expr>, cte: Cte, k: CellKey)
    requires WellKeyed(md) && ClauseFits(md, cte.key) && ChainRows.Shaped(md.from(cte.key)) && k in Summarize.GroupKeys(ClusterOf(md, pairs, inlines, cte))
    ensures exists cell :: ValidCell(md, cell) && KeyOfCell(md, cell) == k
  {
    hide WhereRows, ClauseFits, Group, LevelKeysOf, LeveledKey, KeyOfCell, AtLevel, ChainRows.KeyOf;
    var c, q := ClusterOf(md, pairs, inlines, cte), md.from(cte.key);
    Summarize.GroupKeysAre(c);
    if c.always == Some(k) {
      PlainLevel(md);
      assert ValidCell(md, Cell(0, [])) by { TotalIsValid(md); }
    } else {
      KeysOfIsExact(c.rows, c.key);
      GroupIsThere(c.rows, c.key, k);
      var i :| 0 <= i < |c.rows| && c.key(c.rows[i]) == k;
      var row := c.rows[i];
      FlatMember(Levels(md), l => AtLevel(WhereRows(q), l), row);
      var l :| l in Levels(md) && row in AtLevel(WhereRows(q), l);
      LevelOfRow(WhereRows(q), l, row);
      RolledPrefix(md, q, l, row.w);
    }
  }

  lemma TotalIsValid(md: Model)
    requires WellKeyed(md) && md.plain == []
    ensures ValidCell(md, Cell(0, []))
  {
    PlainLevel(md);
  }

  ghost function CellOf(md: Model, k: CellKey): Cell
    requires WellKeyed(md)
  {
    if exists cell :: ValidCell(md, cell) && KeyOfCell(md, cell) == k then
      var cell :| ValidCell(md, cell) && KeyOfCell(md, cell) == k;
      cell
    else Cell(0, [])
  }

  lemma CellOfKey(md: Model, cell: Cell)
    requires WellKeyed(md) && ValidCell(md, cell)
    ensures CellOf(md, KeyOfCell(md, cell)) == cell
  {
    hide KeyOfCell, LevelKeysOf;
    CellsDiffer(md, CellOf(md, KeyOfCell(md, cell)), cell);
  }

  lemma CellsAreGroups(md: Model, facts: Facts, lift: bool, pairs: seq<Expr>, inlines: seq<Expr>, ctes: Ctes, k: CellKey)
    requires Fits(md, facts, lift, ctes) && HasCtes(md, ctes) && Shapely(md, ctes)
    ensures Summarize.HasCell(ClustersOf(md, pairs, inlines, ctes), k) <==>
      exists cell :: IsGroup(md, ctes, cell) && KeyOfCell(md, cell) == k
  {
    hide ClauseFits, ContextFits, AggFits, ClusterOf, ContextOf, Present, KeyOfCell, LevelKeysOf, WellKeyed, ChainRows.Shaped;
    var clusters := ClustersOf(md, pairs, inlines, ctes);
    if ctes.regular == [] {
      TotalCell(md);
      forall cell | ValidCell(md, cell)
        ensures cell == Cell(0, [])
      {
        OnlyTotal(md, cell);
      }
    } else {
      forall c, cell | 0 <= c < |ctes.regular| && ValidCell(md, cell)
        ensures KeyOfCell(md, cell) in Summarize.GroupKeys(clusters[c]) <==> Present(md, ctes.regular[c].key, cell)
      {
        GroupIsPresent(md, pairs, inlines, ctes.regular[c], cell);
      }
      if Summarize.HasCell(clusters, k) {
        var c :| 0 <= c < |clusters| && k in Summarize.GroupKeys(clusters[c]);
        GroupIsCell(md, pairs, inlines, ctes.regular[c], k);
        var cell :| ValidCell(md, cell) && KeyOfCell(md, cell) == k;
        assert IsGroup(md, ctes, cell);
      }
    }
  }

  lemma TotalCell(md: Model)
    requires WellKeyed(md) && md.keys == [] && md.elems == []
    ensures ValidCell(md, Cell(0, [])) && KeyOfCell(md, Cell(0, [])) == Stitch.CellKey([], [])
  {
    PlainLevel(md);
    PlainCell(md, Cell(0, []));
  }

  lemma OnlyTotal(md: Model, cell: Cell)
    requires WellKeyed(md) && md.keys == [] && md.elems == [] && ValidCell(md, cell)
    ensures cell == Cell(0, [])
  {
    PlainCell(md, cell);
  }

  lemma RowIsExpected(md: Model, facts: Facts, lift: bool, plan: Plan, pairs: seq<Expr>, inlines: seq<Expr>, ctes: Ctes,
    refs: map<Item, ColumnRef>, cell: Cell)
    requires Fits(md, facts, lift, ctes) && Shapely(md, ctes) && Planned(facts, lift, plan, pairs, inlines) && Columned(plan.clusters, md.shape, ctes, refs)
    requires NoColumns(pairs) && NoColumns(inlines) && ValidCell(md, cell)
    ensures SelectRow(md, pairs, inlines, refs, CellRow(md, pairs, inlines, ctes, cell)) == Expected(md, facts, lift, pairs, inlines, cell)
  {
    hide Fits, Shapely, Planned, Columned, HasColumn, CellRow, OutValue, MeasureAt, Settled, KeyOfCell, LevelKeysOf;
    assert Shapely(md, ctes) ==> WellKeyed(md) by { ShapelyIsKeyed(md, ctes); }
    var row := CellRow(md, pairs, inlines, ctes, cell);
    assert row.cell == KeyOfCell(md, cell) by { KeyOfRow(md, pairs, inlines, ctes, cell); }
    forall n | 0 <= n < |pairs| / 2
      ensures OutValue(md, refs, pairs[2 * n + 1], PairValue(2 * n), row) == Some(MeasureAt(md, facts, lift, cell, pairs[2 * n + 1]))
    {
      PairIsSettled(facts, lift, plan, pairs, inlines, n);
      assert pairs[2 * n + 1] in pairs;
      OutIsMeasure(md, facts, lift, plan, pairs, inlines, ctes, refs, cell, PairValue(2 * n), pairs[2 * n + 1]);
    }
    forall j | 0 <= j < |inlines|
      ensures OutValue(md, refs, inlines[j], InlineValue(j), row) == Some(MeasureAt(md, facts, lift, cell, inlines[j]))
    {
      InlineIsSettled(facts, lift, plan, pairs, inlines, j);
      OutIsMeasure(md, facts, lift, plan, pairs, inlines, ctes, refs, cell, InlineValue(j), inlines[j]);
    }
  }

  lemma ShapelyIsKeyed(md: Model, ctes: Ctes)
    ensures Shapely(md, ctes) ==> WellKeyed(md)
  {
  }

  lemma KeyOfRow(md: Model, pairs: seq<Expr>, inlines: seq<Expr>, ctes: Ctes, cell: Cell)
    requires Shapely(md, ctes) && ValidCell(md, cell)
    ensures CellRow(md, pairs, inlines, ctes, cell).cell == KeyOfCell(md, cell)
  {
    hide KeyOfCell;
  }

  ghost function ExpectedOf(md: Model, facts: Facts, lift: bool, pairs: seq<Expr>, inlines: seq<Expr>): Cell -> ResultRow {
    (cell: Cell) =>
      if WellKeyed(md) && ValidCell(md, cell) then Expected(md, facts, lift, pairs, inlines, cell) else ResultRow(Stitch.CellKey([], []), [], [])
  }

  /** The emitted SUMMARIZECOLUMNS returns one row for each cell, at every level of its rollup, that has a
    * group and a measure that is not BLANK there, and no other; every measure of it, whole, scalar or
    * taken apart, is its expression over aggregates over their own value rows in their own contexts. */
  lemma QueryIsPerCell(md: Model, facts: Facts, lift: bool, plan: Plan, pairs: seq<Expr>, inlines: seq<Expr>, ctes: Ctes,
    refs: map<Item, ColumnRef>) returns (cells: seq<Cell>)
    requires Planned(facts, lift, plan, pairs, inlines) && Columned(plan.clusters, md.shape, ctes, refs)
    requires Fits(md, facts, lift, ctes) && HasCtes(md, ctes) && NoColumns(pairs) && NoColumns(inlines)
    ensures Shapely(md, ctes) && Distinct(cells)
    ensures forall cell :: cell in cells <==> IsGroup(md, ctes, cell) && Telling(md, facts, lift, pairs, inlines, cell)
    ensures Result(md, pairs, inlines, ctes, refs) == Images(cells, ExpectedOf(md, facts, lift, pairs, inlines))
  {
    hide Planned, Columned, NoColumns, Expected, IsGroup, Kept, Fits, HasCtes, Select, Result, Shapely, ValidCell, Telling;
    StitchDoesFit(md, facts, lift, pairs, inlines, ctes);
    ShapelyIsKeyed(md, ctes);
    var exp := ExpectedOf(md, facts, lift, pairs, inlines);
    var all := AllCells(md, facts, lift, plan, pairs, inlines, ctes, refs);
    var kept := (cell: Cell) => Kept(exp(cell));
    Summarize.SelectIsSubset(all, kept);
    cells := Select(all, kept);
    SelectImages(all, exp, (row: ResultRow) => Kept(row), kept);
    forall cell | IsGroup(md, ctes, cell)
      ensures ValidCell(md, cell) && exp(cell) == Expected(md, facts, lift, pairs, inlines, cell)
      ensures Kept(exp(cell)) <==> Telling(md, facts, lift, pairs, inlines, cell)
    {
      GroupIsValid(md, ctes, cell);
      KeptIsTelling(md, facts, lift, pairs, inlines, cell);
    }
    assert forall cell :: cell in Select(all, kept) <==> cell in all && kept(cell);
  }

  lemma GroupIsValid(md: Model, ctes: Ctes, cell: Cell)
    requires IsGroup(md, ctes, cell)
    ensures ValidCell(md, cell)
  {
  }

  /** Before pruning: the expected row of every cell. */
  lemma AllCells(md: Model, facts: Facts, lift: bool, plan: Plan, pairs: seq<Expr>, inlines: seq<Expr>, ctes: Ctes,
    refs: map<Item, ColumnRef>) returns (all: seq<Cell>)
    requires Planned(facts, lift, plan, pairs, inlines) && Columned(plan.clusters, md.shape, ctes, refs) && Shapely(md, ctes)
    requires Fits(md, facts, lift, ctes) && HasCtes(md, ctes) && NoColumns(pairs) && NoColumns(inlines)
    ensures Distinct(all) && forall cell :: cell in all <==> IsGroup(md, ctes, cell)
    ensures Result(md, pairs, inlines, ctes, refs) == Select(Images(all, ExpectedOf(md, facts, lift, pairs, inlines)), (row: ResultRow) => Kept(row))
  {
    hide Planned, Columned, NoColumns, SelectRow, Expected, Kept, ClustersOf, ContextsOf, KeyIdxsOf, Fits, HasCtes, Select, Summarize.HasCell,
      Summarize.Output, Summarize.PerCell, IsGroup, KeyOfCell, Shapely, ValidCell, CellOf;
    var exp := ExpectedOf(md, facts, lift, pairs, inlines);
    StitchDoesFit(md, facts, lift, pairs, inlines, ctes);
    ShapelyIsKeyed(md, ctes);
    var clusters, contexts, idxs := ClustersOf(md, pairs, inlines, ctes), ContextsOf(md, ctes), KeyIdxsOf(md, ctes);
    var keys := Summarize.StitchedIsPerCell(clusters, contexts, idxs, |md.keys|, |md.elems|);
    all := CellsOf(md, keys);
    forall k
      ensures k in keys <==> exists cell :: IsGroup(md, ctes, cell) && KeyOf(md, cell) == Some(k)
    {
      CellsAreGroups(md, facts, lift, pairs, inlines, ctes, k);
      GroupKeysOf(md, ctes, k);
    }
    CellsTellKeys(md, ctes, keys);
    var rows := Summarize.Output(clusters, contexts, idxs, |md.keys|, |md.elems|);
    forall i | 0 <= i < |keys|
      ensures SelectRow(md, pairs, inlines, refs, rows[i]) == exp(all[i])
    {
      assert all[i] in all;
      GroupIsValid(md, ctes, all[i]);
      KeyOfIs(md, all[i]);
      RowIsExpected(md, facts, lift, plan, pairs, inlines, ctes, refs, all[i]);
      assert rows[i] == CellRow(md, pairs, inlines, ctes, all[i]);
    }
    assert Images(rows, row => SelectRow(md, pairs, inlines, refs, row)) == Images(all, exp);
  }

  ghost function KeyOf(md: Model, cell: Cell): Option<CellKey> {
    if WellKeyed(md) && ValidCell(md, cell) then Some(KeyOfCell(md, cell)) else None
  }

  lemma KeyOfIs(md: Model, cell: Cell)
    requires WellKeyed(md) && ValidCell(md, cell)
    ensures KeyOf(md, cell) == Some(KeyOfCell(md, cell))
  {
  }

  lemma GroupKeysOf(md: Model, ctes: Ctes, k: CellKey)
    requires WellKeyed(md)
    ensures (exists cell :: IsGroup(md, ctes, cell) && KeyOfCell(md, cell) == k) <==> exists cell :: IsGroup(md, ctes, cell) && KeyOf(md, cell) == Some(k)
  {
    hide KeyOfCell;
  }

  ghost function CellsOf(md: Model, keys: seq<CellKey>): (cells: seq<Cell>)
    requires WellKeyed(md)
    ensures |cells| == |keys|
  {
    Images(keys, (k: CellKey) => CellOf(md, k))
  }

  lemma CellsTellKeys(md: Model, ctes: Ctes, keys: seq<CellKey>)
    requires WellKeyed(md) && Distinct(keys)
    requires forall k :: k in keys <==> exists cell :: IsGroup(md, ctes, cell) && KeyOf(md, cell) == Some(k)
    ensures Distinct(CellsOf(md, keys)) && forall cell :: cell in CellsOf(md, keys) <==> IsGroup(md, ctes, cell)
    ensures forall i :: 0 <= i < |keys| ==> KeyOf(md, CellsOf(md, keys)[i]) == Some(keys[i])
  {
    hide KeyOfCell, IsGroup, ValidCell;
    var cells := CellsOf(md, keys);
    forall cell | IsGroup(md, ctes, cell)
      ensures ValidCell(md, cell) && CellOf(md, KeyOfCell(md, cell)) == cell
    {
      GroupIsValid(md, ctes, cell);
      CellOfKey(md, cell);
    }
    hide CellOf;
    forall i | 0 <= i < |keys|
      ensures IsGroup(md, ctes, cells[i]) && KeyOf(md, cells[i]) == Some(keys[i])
    {
      assert keys[i] in keys;
      var cell :| IsGroup(md, ctes, cell) && KeyOf(md, cell) == Some(keys[i]);
      assert cells[i] == cell;
    }
    forall cell
      ensures cell in cells <==> IsGroup(md, ctes, cell)
    {
      if IsGroup(md, ctes, cell) {
        var k := KeyOfCell(md, cell);
        assert KeyOf(md, cell) == Some(k) && k in keys;
        var i :| 0 <= i < |keys| && keys[i] == k;
        assert cells[i] == cell;
      }
    }
  }

  // ---- a measure evaluated whole, where its tables have no group ----

  /** Every aggregate BLANK. */
  ghost function Blanks(op: (nat, seq<Value>) -> Value): Meaning {
    Meaning((_: FcId) => Null, NoColumn, op)
  }

  /** The measure is its expression in every cell of every query. */
  ghost predicate AlwaysExact(facts: Facts, lift: bool, op: (nat, seq<Value>) -> Value, e: Expr) {
    forall md: Model, cell :: md.op == op && WellKeyed(md) && ValidCell(md, cell) ==>
      MeasureAt(md, facts, lift, cell, e) == Eval(e, CellMeaning(md, facts, lift, cell))
  }

  lemma NoGroupIsBlanks(md: Model, facts: Facts, lift: bool, cell: Cell, e: Expr)
    requires Whole(facts, lift, e) && !HasColumn(e) && TablesOf(facts, e) != {} && !Present(md, TablesOf(facts, e), cell)
    ensures Eval(e, CellMeaning(md, facts, lift, cell)) == Eval(e, Blanks(md.op)) && MeasureAt(md, facts, lift, cell, e) == Null
  {
    hide Whole, TablesOf, Eval, Present, HasColumn;
    forall fc | fc in Subtrees(e)
      ensures AggAt(md, facts, lift, cell, fc) == Null
    {
      WholeTables(facts, lift, e, fc);
    }
    EvalSame(e, CellMeaning(md, facts, lift, cell), Blanks(md.op));
  }

  ghost function NoRowsFrom(): ChainRows.Query {
    ChainRows.Query(map[], ClusterFrom.Clause(0, ClusterFrom.Split([], [], []), [], [], [], [], map[]), [])
  }

  ghost function NoContext(): Context {
    Context(Calculate.NO_MODS, [], [], [], NoRowsFrom(), CellContext.Shape([], [], [], [], []), [], [], (_: Env, _: seq<seq<Value>>) => true)
  }

  /** A query over empty tables, grouped by one column. */
  ghost function NoRowsModel(op: (nat, seq<Value>) -> Value): Model {
    Model([], [ContextCte.GroupKey(0, 0)], [0], [], [], [], (_: set<Table>) => [], (_: set<Table>) => NoRowsFrom(), (_: nat) => NoContext(),
      (_: FcId) => 0, (_: FcId) => 0, (_: FcId, _: multiset<Env>) => Null, (_: FcId) => Null, op)
  }

  lemma NoRowsAt(op: (nat, seq<Value>) -> Value, key: set<Table>)
    ensures WellKeyed(NoRowsModel(op)) && ValidCell(NoRowsModel(op), Cell(0, [Null])) && !Present(NoRowsModel(op), key, Cell(0, [Null]))
  {
    var md := NoRowsModel(op);
    assert md.plain + Rollup.ColsOf(md.elems) == Positions(1);
    PlainLevel(md);
    assert ChainRows.FlatRows(NoRowsFrom()) == [];
  }

  /** A measure evaluated whole over tables is its expression in every cell exactly when the expression
    * is BLANK over BLANK aggregates; otherwise cells that only other measures have lose it. */
  lemma WholeIsExactWhen(facts: Facts, lift: bool, op: (nat, seq<Value>) -> Value, e: Expr)
    requires Whole(facts, lift, e) && !HasColumn(e) && TablesOf(facts, e) != {}
    ensures AlwaysExact(facts, lift, op, e) <==> Eval(e, Blanks(op)) == Null
  {
    hide Whole, TablesOf, Eval, HasColumn, Present, WellKeyed, ValidCell;
    forall md: Model, cell | md.op == op && !Present(md, TablesOf(facts, e), cell)
      ensures MeasureAt(md, facts, lift, cell, e) == Null && Eval(e, CellMeaning(md, facts, lift, cell)) == Eval(e, Blanks(op))
    {
      NoGroupIsBlanks(md, facts, lift, cell, e);
    }
    NoRowsAt(op, TablesOf(facts, e));
    assert NoRowsModel(op).op == op;
  }

  /** COALESCE(SUM(...), 0) is BLANK, not 0, in a cell without rows of its table. */
  lemma CoalescedSumGoesBlank(facts: Facts, lift: bool, op: (nat, seq<Value>) -> Value)
    requires facts.tables(0) != {} && !facts.rescopes(0) && op(0, [Null, Val(0)]) == Coalesce([Null, Val(0)])
    ensures !AlwaysExact(facts, lift, op, Op(0, [Agg(0), Const(Val(0))]))
  {
    var args := [Agg(0), Const(Val(0))];
    var e := Op(0, args);
    SubtreesOfTwo(0, Val(0));
    assert !HasColumn(args[0]) && !HasColumn(args[1]);
    forall t
      ensures t in TablesOf(facts, e) <==> t in facts.tables(0)
    {
      TablesAreAggregates(facts, e, t);
    }
    assert seq(|args|, i requires 0 <= i < |args| => Eval(args[i], Blanks(op))) == [Null, Val(0)];
    WholeIsExactWhen(facts, lift, op, e);
  }

  lemma SubtreesOfTwo(fc: FcId, v: Value)
    ensures Subtrees(Op(0, [Agg(fc), Const(v)])) == [fc]
  {
    var args := [Agg(fc), Const(v)];
    assert args[..1] == [Agg(fc)] && args[..1][..0] == [];
    assert SubtreesOf(args) == SubtreesOf(args[..1]) + Subtrees(args[1]);
  }
}
