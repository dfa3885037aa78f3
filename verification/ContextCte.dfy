/** Context CTEs: a context-modifying CALCULATE evaluated in one grouped query, its time anchors
  * columns of uncorrelated anchor scans, and joined back on the group keys it carries. */
module ContextCte {
  import opened Relationships
  import opened Relational
  import opened Stitch
  import opened Summarize
  import opened FilterFlow
  import TimeIntel

  datatype GroupKey = GroupKey(table: Table, col: Relationships.Column)

  /** An anchored table with the tables of its LASTNONBLANK expressions. */
  datatype ScanSource = ScanSource(table: Table, exprTables: seq<Table>)

  /** A group key of the CTE; `scan` when an anchor scan provides it, `kept` when it still filters
    * the cleared copy of its table. */
  datatype CarriedKey = CarriedKey(idx: nat, scan: Option<nat>, kept: bool)

  // ---- which keys the CTE carries ----

  ghost predicate Provides(rels: seq<Relationship>, key: GroupKey, scans: seq<ScanSource>, s: nat) {
    s < |scans| && (scans[s].table == key.table || ReachesAny(rels, false, key.table, [scans[s].table] + scans[s].exprTables))
  }

  ghost predicate Provided(rels: seq<Relationship>, key: GroupKey, scans: seq<ScanSource>) {
    exists s: nat :: Provides(rels, key, scans, s)
  }

  /** The scan that provides a key: its own table's, or else the first one its filter groups. */
  ghost predicate ScanOf(rels: seq<Relationship>, key: GroupKey, scans: seq<ScanSource>, r: Option<nat>) {
    if exists s :: 0 <= s < |scans| && scans[s].table == key.table then
      r.Some? && r.value < |scans| && scans[r.value].table == key.table
    else if r.Some? then
      Provides(rels, key, scans, r.value) && forall s :: 0 <= s < r.value ==> !Provides(rels, key, scans, s)
    else forall s: nat :: !Provides(rels, key, scans, s)
  }

  lemma ProvidedIs(rels: seq<Relationship>, key: GroupKey, scans: seq<ScanSource>)
    ensures Provided(rels, key, scans) <==> exists s: nat :: Provides(rels, key, scans, s)
  {
  }

  method FindScan(rels: seq<Relationship>, key: GroupKey, scans: seq<ScanSource>) returns (r: Option<nat>)
    ensures ScanOf(rels, key, scans, r)
    ensures r.Some? <==> Provided(rels, key, scans)
    ensures (exists s :: 0 <= s < |scans| && scans[s].table == key.table) ==> r.Some? && r.value < |scans| && scans[r.value].table == key.table
    ensures (forall s :: 0 <= s < |scans| ==> scans[s].table != key.table) ==>
      && (r.Some? ==> r.value < |scans| && ReachesAny(rels, false, key.table, [scans[r.value].table] + scans[r.value].exprTables))
      && (forall s :: 0 <= s < |scans| && (r.Some? ==> s < r.value) ==>
            !ReachesAny(rels, false, key.table, [scans[s].table] + scans[s].exprTables))
  {
    hide ReachesAny, Provided;
    ProvidedIs(rels, key, scans);
    for s := 0 to |scans|
      invariant forall t :: 0 <= t < s ==> scans[t].table != key.table
    {
      if scans[s].table == key.table {
        assert Provides(rels, key, scans, s);
        return Some(s);
      }
    }
    for s := 0 to |scans|
      invariant forall t :: 0 <= t < s ==> !Provides(rels, key, scans, t)
      invariant forall t :: 0 <= t < s ==> !ReachesAny(rels, false, key.table, [scans[t].table] + scans[t].exprTables)
    {
      var reaches := GroupingReaches(rels, key.table, [scans[s].table] + scans[s].exprTables);
      if reaches {
        return Some(s);
      }
    }
    return None;
  }

  ghost predicate CarriedRight(rels: seq<Relationship>, keys: seq<GroupKey>, removed: seq<bool>, scans: seq<ScanSource>, c: CarriedKey)
    requires |removed| == |keys|
  {
    c.idx < |keys| && ScanOf(rels, keys[c.idx], scans, c.scan) && c.kept == !removed[c.idx] && (c.scan.Some? || c.kept)
  }

  ghost predicate CarriesIdx(carried: seq<CarriedKey>, idx: nat) {
    exists c :: c in carried && c.idx == idx
  }

  lemma CarriesMore(carried: seq<CarriedKey>, c: CarriedKey)
    ensures forall i :: CarriesIdx(carried + [c], i) <==> CarriesIdx(carried, i) || i == c.idx
  {
  }

  lemma CarriesNone()
    ensures forall i :: !CarriesIdx([], i)
  {
  }

  /** Keys an anchor scan provides are carried even when the modifiers remove them; the others only
    * when they survive. */
  method CarryKeys(rels: seq<Relationship>, keys: seq<GroupKey>, removed: seq<bool>, scans: seq<ScanSource>)
    returns (carried: seq<CarriedKey>)
    requires |removed| == |keys|
    ensures forall c :: c in carried ==> CarriedRight(rels, keys, removed, scans, c)
    ensures forall i, j :: 0 <= i < j < |carried| ==> carried[i].idx < carried[j].idx
    ensures forall i :: 0 <= i < |keys| ==> (CarriesIdx(carried, i) <==> !removed[i] || Provided(rels, keys[i], scans))
  {
    hide ScanOf, Provided, CarriesIdx;
    carried := [];
    CarriesNone();
    for i := 0 to |keys|
      invariant forall c :: c in carried ==> CarriedRight(rels, keys, removed, scans, c) && c.idx < i
      invariant forall k, j :: 0 <= k < j < |carried| ==> carried[k].idx < carried[j].idx
      invariant forall j :: 0 <= j < |keys| ==>
        (CarriesIdx(carried, j) <==> j < i && (!removed[j] || Provided(rels, keys[j], scans)))
    {
      var scan := FindScan(rels, keys[i], scans);
      if scan.Some? || !removed[i] {
        var c := CarriedKey(i, scan, !removed[i]);
        CarriesMore(carried, c);
        carried := carried + [c];
      }
    }
  }

  // ---- the query ----

  /** A date-side relation an anchor scan aggregates: the rows the scan reads, their
    * group-key columns, and the anchors (MIN, MAX, LASTNONBLANK) over a bag of them. */
  datatype ScanData<!D> = ScanData(rows: seq<D>, key: (D, nat) -> Value, anchors: multiset<D> -> seq<Value>)

  /** `facts` are the rows of the joined FROM clause; `cond` the kept outer predicates and CALCULATE's
    * own; `time` the range predicates against the anchors of all scans. */
  datatype ContextQuery<!F, !D> = ContextQuery(
    numKeys: nat, facts: seq<F>, cond: F -> bool, factKey: (F, nat) -> Value,
    scans: seq<ScanData<D>>, carried: seq<CarriedKey>, time: (F, seq<seq<Value>>) -> bool)

  /** The group keys a scan projects. */
  ghost function GroupsOf(carried: seq<CarriedKey>, s: nat): seq<nat> {
    if carried == [] then [] else
    var rest := GroupsOf(carried[..|carried| - 1], s);
    var c := carried[|carried| - 1];
    if c.scan == Some(s) then rest + [c.idx] else rest
  }

  ghost function IdxsOf(carried: seq<CarriedKey>): (idxs: seq<nat>)
    ensures |idxs| == |carried|
    ensures forall i :: 0 <= i < |idxs| ==> idxs[i] == carried[i].idx
  {
    seq(|carried|, i requires 0 <= i < |carried| => carried[i].idx)
  }

  /** The columns in `idxs`, the rest blanked out. */
  ghost function Masked(numKeys: nat, idxs: seq<nat>, value: nat -> Value): CellKey {
    CellKey(seq(numKeys, i => if i in idxs then value(i) else Null), [])
  }

  datatype ScanRow = ScanRow(key: CellKey, anchors: seq<Value>)

  ghost function ScanKeys<D(!new)>(numKeys: nat, scan: ScanData<D>, groups: seq<nat>): seq<CellKey> {
    if groups == [] then [Masked(numKeys, [], _ => Null)]
    else KeysOf(scan.rows, d => Masked(numKeys, groups, (i: nat) => scan.key(d, i)))
  }

  /** The date rows that agree with a key on the scan's groups. */
  ghost function DatesAt<D(!new)>(scan: ScanData<D>, groups: seq<nat>, k: CellKey): seq<D> {
    Select(scan.rows, d => forall i :: i in groups ==> i < |k.keys| && scan.key(d, i) == k.keys[i])
  }

  /** SELECT groups, anchors FROM the scan's rows GROUP BY groups. */
  ghost function AnchorScanRows<D(!new)>(numKeys: nat, scan: ScanData<D>, groups: seq<nat>): seq<ScanRow> {
    var keys := ScanKeys(numKeys, scan, groups);
    seq(|keys|, j requires 0 <= j < |keys| => ScanRow(keys[j], scan.anchors(multiset(DatesAt(scan, groups, keys[j])))))
  }

  /** A row of FROM ... CROSS JOIN scan CROSS JOIN scan ... */
  datatype Joined<F> = Joined(fact: F, scanRows: seq<ScanRow>)

  function Extended<F>(row: Joined<F>, r: ScanRow): Joined<F> {
    Joined(row.fact, row.scanRows + [r])
  }

  ghost function CrossOne<F>(row: Joined<F>, table: seq<ScanRow>): seq<Joined<F>> {
    if table == [] then [] else
    CrossOne(row, table[..|table| - 1]) + [Extended(row, table[|table| - 1])]
  }

  ghost function Cross<F>(rows: seq<Joined<F>>, table: seq<ScanRow>): seq<Joined<F>> {
    if rows == [] then [] else
    Cross(rows[..|rows| - 1], table) + CrossOne(rows[|rows| - 1], table)
  }

  ghost function FromRows<F, D(!new)>(q: ContextQuery<F, D>, n: nat): seq<Joined<F>>
    requires n <= |q.scans|
  {
    if n == 0 then Images(q.facts, f => Joined(f, []))
    else Cross(FromRows(q, n - 1), AnchorScanRows(q.numKeys, q.scans[n - 1], GroupsOf(q.carried, n - 1)))
  }

  ghost function AnchorsIn(scanRows: seq<ScanRow>): seq<seq<Value>> {
    seq(|scanRows|, s requires 0 <= s < |scanRows| => scanRows[s].anchors)
  }

  ghost function ScanKeyAt<F>(row: Joined<F>, s: nat, i: nat): Value {
    if s < |row.scanRows| && i < |row.scanRows[s].key.keys| then row.scanRows[s].key.keys[i] else Null
  }

  /** WHERE: the conditions, the anchored kept keys, the time ranges. */
  ghost predicate Where<F, D>(q: ContextQuery<F, D>, row: Joined<F>) {
    && q.cond(row.fact)
    && (forall c :: c in q.carried && c.scan.Some? && c.kept ==>
          q.factKey(row.fact, c.idx) == ScanKeyAt(row, c.scan.value, c.idx))
    && q.time(row.fact, AnchorsIn(row.scanRows))
  }

  ghost function WhereOf<F, D>(q: ContextQuery<F, D>): Joined<F> -> bool {
    (row: Joined<F>) => Where(q, row)
  }

  /** The GROUP BY columns: anchored keys come from their scan, the others from the facts. */
  ghost function CarriedValue<F, D>(q: ContextQuery<F, D>, row: Joined<F>, i: nat): Value {
    if exists c :: c in q.carried && c.idx == i && c.scan.Some? then
      var c :| c in q.carried && c.idx == i && c.scan.Some?;
      ScanKeyAt(row, c.scan.value, i)
    else q.factKey(row.fact, i)
  }

  ghost function GroupKeyOf<F, D>(q: ContextQuery<F, D>, row: Joined<F>): CellKey {
    Masked(q.numKeys, IdxsOf(q.carried), (i: nat) => CarriedValue(q, row, i))
  }

  /** Without carried keys there is no GROUP BY, and one row. */
  function TotalOf(numKeys: nat, carried: seq<CarriedKey>): Option<CellKey> {
    if carried == [] then Some(CellKey(seq(numKeys, _ => Null), [])) else None
  }

  /** The emitted CTE as the stitch sees it. */
  ghost function CteOf<F, D(!new)>(q: ContextQuery<F, D>, aggs: seq<multiset<F> -> Value>): Cluster<Joined<F>, F> {
    Cluster(Select(FromRows(q, |q.scans|), WhereOf(q)), row => GroupKeyOf(q, row), (row: Joined<F>) => row.fact, aggs,
      TotalOf(q.numKeys, q.carried))
  }

  // ---- what the emitted query lets through in one cell ----

  /** The anchors of the scan rows that carry the cell's values in the scans' own groups. */
  ghost function ScanAnchors<F, D(!new)>(q: ContextQuery<F, D>, k: CellKey): (anchors: seq<seq<Value>>)
    ensures |anchors| == |q.scans|
  {
    seq(|q.scans|, s requires 0 <= s < |q.scans| =>
      q.scans[s].anchors(multiset(DatesAt(q.scans[s], GroupsOf(q.carried, s), k))))
  }

  /** A fact passes the conditions, agrees with the cell on the carried keys that are kept, and lies in
    * the window those anchors open.  CellContext says when this is the cell's filter context. */
  ghost predicate Passes<F, D(!new)>(q: ContextQuery<F, D>, f: F, k: CellKey) {
    && q.cond(f)
    && (forall c :: c in q.carried && c.kept ==> c.idx < |k.keys| && q.factKey(f, c.idx) == k.keys[c.idx])
    && q.time(f, ScanAnchors(q, k))
  }

  /** No anchor over no date rows lets a fact pass. */
  ghost predicate NullAnchorsReject<F(!new), D(!new)>(q: ContextQuery<F, D>) {
    forall f, s, anchors :: 0 <= s < |q.scans| && |anchors| == |q.scans| && anchors[s] == q.scans[s].anchors(multiset{}) ==>
      !q.time(f, anchors)
  }

  ghost predicate WellCarried<F, D>(q: ContextQuery<F, D>) {
    && (forall c :: c in q.carried ==>
          c.idx < q.numKeys && (c.scan.Some? ==> c.scan.value < |q.scans|) && (c.scan.Some? || c.kept))
    && (forall i, j :: 0 <= i < j < |q.carried| ==> q.carried[i].idx != q.carried[j].idx)
  }

  // ---- cross joins and selection ----

  lemma CrossOneSelect<F>(row: Joined<F>, table: seq<ScanRow>, p: Joined<F> -> bool, base: bool, q: ScanRow -> bool)
    requires forall r :: r in table ==> (p(Extended(row, r)) <==> base && q(r))
    ensures Select(CrossOne(row, table), p) == if base then CrossOne(row, Select(table, q)) else []
  {
  }

  lemma CrossPush<F>(rows: seq<Joined<F>>, last: Joined<F>, table: seq<ScanRow>)
    ensures Cross(rows + [last], table) == Cross(rows, table) + CrossOne(last, table)
  {
  }

  /** A condition that splits over the two sides may be applied before the join. */
  lemma CrossSelect<F>(rows: seq<Joined<F>>, table: seq<ScanRow>, p: Joined<F> -> bool, base: Joined<F> -> bool, q: ScanRow -> bool)
    requires forall row, r :: row in rows && r in table ==>
      (p(Extended(row, r)) <==> base(row) && q(r))
    ensures Select(Cross(rows, table), p) == Cross(Select(rows, base), Select(table, q))
  {
    if rows != [] {
      var front, row := rows[..|rows| - 1], rows[|rows| - 1];
      assert rows == front + [row];
      assert row in rows;
      CrossSelect(front, table, p, base, q);
      CrossOneSelect(row, table, p, base(row), q);
      hide Select, Cross, CrossOne;
      CrossPush(front, row, table);
      SelectConcat(Cross(front, table), CrossOne(row, table), p);
      SelectPush(front, row, base);
      if base(row) {
        CrossPush(Select(front, base), row, Select(table, q));
      }
    }
  }

  lemma CrossEmpty<F>(rows: seq<Joined<F>>)
    ensures Cross(rows, []) == []
  {
  }

  lemma CrossSingle<F>(rows: seq<Joined<F>>, r: ScanRow)
    ensures Cross(rows, [r]) == Images(rows, row => Extended(row, r))
  {
    if rows != [] {
      CrossSingle(rows[..|rows| - 1], r);
      assert [r][..0] == [];
      assert CrossOne(rows[|rows| - 1], [r][..0]) == [];
    }
  }

  // ---- the rows of one cell ----

  ghost function KeyAt(k: CellKey, i: nat): Value {
    if i < |k.keys| then k.keys[i] else Null
  }

  /** The cell's columns in a scan's groups. */
  ghost function ScanCell(numKeys: nat, groups: seq<nat>, k: CellKey): CellKey {
    Masked(numKeys, groups, (i: nat) => KeyAt(k, i))
  }

  ghost predicate Meets<F, D(!new)>(q: ContextQuery<F, D>, k: CellKey, row: Joined<F>, n: nat) {
    |row.scanRows| == n && forall s :: 0 <= s < n ==> row.scanRows[s].key == ScanCell(q.numKeys, GroupsOf(q.carried, s), k)
  }

  ghost function MeetsCell<F, D(!new)>(q: ContextQuery<F, D>, k: CellKey, n: nat): Joined<F> -> bool {
    (row: Joined<F>) => Meets(q, k, row, n)
  }

  ghost function AtKey(cell: CellKey): ScanRow -> bool {
    (r: ScanRow) => r.key == cell
  }

  ghost predicate HasScanCell<F, D(!new)>(q: ContextQuery<F, D>, k: CellKey, s: nat)
    requires s < |q.scans|
  {
    var groups := GroupsOf(q.carried, s);
    ScanCell(q.numKeys, groups, k) in ScanKeys(q.numKeys, q.scans[s], groups)
  }

  ghost function CellScanRow<F, D(!new)>(q: ContextQuery<F, D>, k: CellKey, s: nat): ScanRow
    requires s < |q.scans|
  {
    var groups := GroupsOf(q.carried, s);
    ScanRow(ScanCell(q.numKeys, groups, k), q.scans[s].anchors(multiset(DatesAt(q.scans[s], groups, k))))
  }

  ghost function CellScanRows<F, D(!new)>(q: ContextQuery<F, D>, k: CellKey, n: nat): (rows: seq<ScanRow>)
    requires n <= |q.scans|
    ensures |rows| == n
  {
    seq(n, s requires 0 <= s < n => CellScanRow(q, k, s))
  }

  lemma GroupsOfIsExact(carried: seq<CarriedKey>, s: nat)
    ensures forall i :: i in GroupsOf(carried, s) <==> exists c :: c in carried && c.scan == Some(s) && c.idx == i
  {
  }

  /** An anchor scan has one row per cell that has date rows, with that cell's anchors. */
  lemma ScanAtCell<F, D(!new)>(q: ContextQuery<F, D>, k: CellKey, s: nat)
    requires s < |q.scans| && |k.keys| == q.numKeys && WellCarried(q)
    ensures var groups := GroupsOf(q.carried, s);
      Select(AnchorScanRows(q.numKeys, q.scans[s], groups), AtKey(ScanCell(q.numKeys, groups, k)))
        == if HasScanCell(q, k, s) then [CellScanRow(q, k, s)] else []
    ensures !HasScanCell(q, k, s) ==> DatesAt(q.scans[s], GroupsOf(q.carried, s), k) == []
  {
    var scan, groups := q.scans[s], GroupsOf(q.carried, s);
    GroupsOfIsExact(q.carried, s);
    var cell := ScanCell(q.numKeys, groups, k);
    var keys, rows := ScanKeys(q.numKeys, scan, groups), AnchorScanRows(q.numKeys, scan, groups);
    var keyOf := (d: D) => Masked(q.numKeys, groups, (i: nat) => scan.key(d, i));
    if groups != [] {
      KeysOfIsExact(scan.rows, keyOf);
    }
    if cell in keys {
      var i :| 0 <= i < |keys| && keys[i] == cell;
      SelectAt(rows, AtKey(cell), i);
      SameDates(q.numKeys, scan, groups, cell, k);
    } else {
      SelectNone(rows, AtKey(cell));
      forall j | 0 <= j < |scan.rows|
        ensures exists i :: i in groups && scan.key(scan.rows[j], i) != k.keys[i]
      {
        var d := scan.rows[j];
        assert keyOf(d) != cell;
        assert keyOf(d).keys != cell.keys;
        var i :| 0 <= i < q.numKeys && keyOf(d).keys[i] != cell.keys[i];
        assert i in groups;
      }
      SelectNone(scan.rows, d => forall i :: i in groups ==> i < |k.keys| && scan.key(d, i) == k.keys[i]);
    }
  }

  lemma SameDates<D(!new)>(numKeys: nat, scan: ScanData<D>, groups: seq<nat>, cell: CellKey, k: CellKey)
    requires |k.keys| == numKeys && cell == ScanCell(numKeys, groups, k) && forall i :: i in groups ==> i < numKeys
    ensures DatesAt(scan, groups, cell) == DatesAt(scan, groups, k)
  {
    SelectSame(scan.rows, d => forall i :: i in groups ==> i < |cell.keys| && scan.key(d, i) == cell.keys[i],
                          d => forall i :: i in groups ==> i < |k.keys| && scan.key(d, i) == k.keys[i]);
  }

  /** A row of the CROSS JOIN has one row of each scan, with nothing beside the scan's groups. */
  ghost predicate FromScans<F, D>(q: ContextQuery<F, D>, row: Joined<F>, n: nat) {
    |row.scanRows| == n && forall s :: 0 <= s < n ==> OfScan(q, row.scanRows[s], s)
  }

  ghost predicate OfScan<F, D>(q: ContextQuery<F, D>, r: ScanRow, s: nat) {
    r.key == ScanCell(q.numKeys, GroupsOf(q.carried, s), r.key)
  }

  lemma ScanRowsOf<F, D(!new)>(q: ContextQuery<F, D>, n: nat)
    requires n <= |q.scans|
    ensures forall row :: row in FromRows(q, n) ==> FromScans(q, row, n)
  {
    if n > 0 {
      ScanRowsOf(q, n - 1);
      var table := AnchorScanRows(q.numKeys, q.scans[n - 1], GroupsOf(q.carried, n - 1));
      OfScanRows(q, n - 1);
      CrossWidth(q, FromRows(q, n - 1), table, n - 1);
    }
  }

  lemma OfScanRows<F, D(!new)>(q: ContextQuery<F, D>, s: nat)
    requires s < |q.scans|
    ensures forall r :: r in AnchorScanRows(q.numKeys, q.scans[s], GroupsOf(q.carried, s)) ==> OfScan(q, r, s)
  {
    var scan, groups := q.scans[s], GroupsOf(q.carried, s);
    var keys := ScanKeys(q.numKeys, scan, groups);
    KeysOfIsExact(scan.rows, (d: D) => Masked(q.numKeys, groups, (i: nat) => scan.key(d, i)));
    forall j | 0 <= j < |keys|
      ensures keys[j] == ScanCell(q.numKeys, groups, keys[j])
    {
      assert keys[j] in keys;
    }
  }

  lemma CrossWidth<F, D>(q: ContextQuery<F, D>, rows: seq<Joined<F>>, table: seq<ScanRow>, n: nat)
    requires forall row :: row in rows ==> FromScans(q, row, n)
    requires forall r :: r in table ==> OfScan(q, r, n)
    ensures forall row :: row in Cross(rows, table) ==> FromScans(q, row, n + 1)
  {
    if rows != [] {
      var front, row := rows[..|rows| - 1], rows[|rows| - 1];
      assert rows == front + [row];
      CrossWidth(q, front, table, n);
      CrossOneWidth(q, row, table, n);
    }
  }

  lemma CrossOneWidth<F, D>(q: ContextQuery<F, D>, row: Joined<F>, table: seq<ScanRow>, n: nat)
    requires FromScans(q, row, n)
    requires forall r :: r in table ==> OfScan(q, r, n)
    ensures forall r :: r in CrossOne(row, table) ==> FromScans(q, r, n + 1)
  {
  }

  lemma MeetsSplits<F, D(!new)>(q: ContextQuery<F, D>, k: CellKey, rows: seq<Joined<F>>, table: seq<ScanRow>, n: nat)
    requires n > 0 && forall row :: row in rows ==> |row.scanRows| == n - 1
    ensures var cell := ScanCell(q.numKeys, GroupsOf(q.carried, n - 1), k);
      forall row, r :: row in rows && r in table ==>
        (MeetsCell(q, k, n)(Extended(row, r)) <==> MeetsCell(q, k, n - 1)(row) && AtKey(cell)(r))
  {
  }

  /** The joined rows of a cell: every fact once, beside the cell's own anchors; none when a scan has
    * no date row in the cell. */
  lemma FromAtCell<F(!new), D(!new)>(q: ContextQuery<F, D>, k: CellKey, n: nat)
    requires n <= |q.scans| && |k.keys| == q.numKeys && WellCarried(q)
    ensures Select(FromRows(q, n), MeetsCell(q, k, n))
      == if forall s :: 0 <= s < n ==> HasScanCell(q, k, s) then Images(q.facts, f => Joined(f, CellScanRows(q, k, n))) else []
  {
    hide ScanKeys, DatesAt, AnchorScanRows, ScanCell, CellScanRow, GroupsOf, Select, Cross, WellCarried, AtKey, HasScanCell;
    var p := MeetsCell(q, k, n);
    if n == 0 {
      var all := (f: F) => true;
      SelectImages(q.facts, f => Joined(f, []), p, all);
      SelectAll(q.facts, all);
      assert CellScanRows(q, k, 0) == [];
    } else {
      var rows, table := FromRows(q, n - 1), AnchorScanRows(q.numKeys, q.scans[n - 1], GroupsOf(q.carried, n - 1));
      var cell := ScanCell(q.numKeys, GroupsOf(q.carried, n - 1), k);
      ScanRowsOf(q, n - 1);
      FromAtCell(q, k, n - 1);
      ScanAtCell(q, k, n - 1);
      MeetsSplits(q, k, rows, table, n);
      var base := MeetsCell(q, k, n - 1);
      CrossSelect(rows, table, p, base, AtKey(cell));
      if HasScanCell(q, k, n - 1) {
        OneMoreScan(q, k, n);
      }
      CrossEmpty(Select(rows, base));
    }
  }

  lemma OneMoreScan<F(!new), D(!new)>(q: ContextQuery<F, D>, k: CellKey, n: nat)
    requires 0 < n <= |q.scans|
    ensures Cross(Images(q.facts, f => Joined(f, CellScanRows(q, k, n - 1))), [CellScanRow(q, k, n - 1)])
      == Images(q.facts, f => Joined(f, CellScanRows(q, k, n)))
    ensures Cross<F>([], [CellScanRow(q, k, n - 1)]) == []
  {
    hide CellScanRow;
    var mine := CellScanRow(q, k, n - 1);
    CrossSingle(Images(q.facts, f => Joined(f, CellScanRows(q, k, n - 1))), mine);
    assert CellScanRows(q, k, n) == CellScanRows(q, k, n - 1) + [mine];
  }

  // ---- the CTE and the cell ----

  ghost predicate Lands<F, D>(q: ContextQuery<F, D>, row: Joined<F>, cell: CellKey) {
    Where(q, row) && GroupKeyOf(q, row) == cell
  }

  /** A carried key that a scan provides is read from that scan. */
  lemma CarriedFromScan<F, D>(q: ContextQuery<F, D>, row: Joined<F>, c: CarriedKey)
    requires WellCarried(q) && c in q.carried
    ensures CarriedValue(q, row, c.idx) ==
      if c.scan.Some? then ScanKeyAt(row, c.scan.value, c.idx) else q.factKey(row.fact, c.idx)
  {
  }

  lemma GroupKeyAt<F, D>(q: ContextQuery<F, D>, row: Joined<F>, k: CellKey)
    requires WellCarried(q) && |k.keys| == q.numKeys
    ensures GroupKeyOf(q, row) == Carried(k, IdxsOf(q.carried)) <==>
      forall c :: c in q.carried ==> CarriedValue(q, row, c.idx) == k.keys[c.idx]
  {
    var idxs, own := IdxsOf(q.carried), GroupKeyOf(q, row);
    if own == Carried(k, idxs) {
      forall c | c in q.carried
        ensures CarriedValue(q, row, c.idx) == k.keys[c.idx]
      {
        var i :| 0 <= i < |q.carried| && q.carried[i] == c;
        assert idxs[i] == c.idx;
        assert own.keys[c.idx] == Carried(k, idxs).keys[c.idx];
      }
    } else {
      assert own.keys != Carried(k, idxs).keys;
      var i: nat :| i < q.numKeys && own.keys[i] != Carried(k, idxs).keys[i];
      assert i in idxs;
      var j :| 0 <= j < |idxs| && idxs[j] == i;
      assert q.carried[j] in q.carried;
    }
  }

  /** A row the GROUP BY puts in the cell joins the cell's own anchor rows. */
  lemma LandsMeets<F, D(!new)>(q: ContextQuery<F, D>, row: Joined<F>, k: CellKey)
    requires WellCarried(q) && |k.keys| == q.numKeys
    requires FromScans(q, row, |q.scans|) && Lands(q, row, Carried(k, IdxsOf(q.carried)))
    ensures Meets(q, k, row, |q.scans|)
  {
    GroupKeyAt(q, row, k);
    forall s | 0 <= s < |q.scans|
      ensures row.scanRows[s].key == ScanCell(q.numKeys, GroupsOf(q.carried, s), k)
    {
      var groups, own := GroupsOf(q.carried, s), row.scanRows[s].key;
      GroupsOfIsExact(q.carried, s);
      assert OfScan(q, row.scanRows[s], s);
      forall i | i in groups
        ensures KeyAt(own, i) == KeyAt(k, i)
      {
        var c :| c in q.carried && c.scan == Some(s) && c.idx == i;
        CarriedFromScan(q, row, c);
      }
      assert own == ScanCell(q.numKeys, groups, own) == ScanCell(q.numKeys, groups, k);
    }
  }

  /** Beside the cell's own anchor rows a fact lands in the cell exactly when it counts there. */
  lemma LandsIsPassing<F, D(!new)>(q: ContextQuery<F, D>, f: F, k: CellKey)
    requires WellCarried(q) && |k.keys| == q.numKeys
    ensures Lands(q, Joined(f, CellScanRows(q, k, |q.scans|)), Carried(k, IdxsOf(q.carried))) <==> Passes(q, f, k)
  {
    hide GroupKeyOf, Carried, DatesAt;
    var row := Joined(f, CellScanRows(q, k, |q.scans|));
    GroupKeyAt(q, row, k);
    assert AnchorsIn(row.scanRows) == ScanAnchors(q, k);
    forall c | c in q.carried
      ensures CarriedValue(q, row, c.idx) == if c.scan.Some? then k.keys[c.idx] else q.factKey(f, c.idx)
      ensures c.scan.Some? ==> ScanKeyAt(row, c.scan.value, c.idx) == k.keys[c.idx]
    {
      CarriedFromScan(q, row, c);
      if c.scan.Some? {
        GroupsOfIsExact(q.carried, c.scan.value);
        assert row.scanRows[c.scan.value] == CellScanRow(q, k, c.scan.value);
      }
    }
  }

  ghost function PassingAt<F, D(!new)>(q: ContextQuery<F, D>, k: CellKey): F -> bool {
    (f: F) => Passes(q, f, k)
  }

  ghost function LandsIn<F, D>(q: ContextQuery<F, D>, cell: CellKey): Joined<F> -> bool {
    (row: Joined<F>) => Lands(q, row, cell)
  }

  lemma GroupLands<F(!new), D(!new)>(q: ContextQuery<F, D>, aggs: seq<multiset<F> -> Value>, k: CellKey)
    requires WellCarried(q) && |k.keys| == q.numKeys
    ensures var c, cell := CteOf(q, aggs), Carried(k, IdxsOf(q.carried));
      Group(c.rows, c.key, cell) == Select(Select(FromRows(q, |q.scans|), MeetsCell(q, k, |q.scans|)), LandsIn(q, cell))
  {
    hide Select, Group, Where, GroupKeyOf, Carried, FromRows;
    var c, cell, n := CteOf(q, aggs), Carried(k, IdxsOf(q.carried)), |q.scans|;
    var all, lands := FromRows(q, n), LandsIn(q, cell);
    GroupOfSelect(all, WhereOf(q), c.key, cell, lands);
    ScanRowsOf(q, n);
    forall row | row in all
      ensures lands(row) <==> MeetsCell(q, k, n)(row) && lands(row)
    {
      if lands(row) {
        LandsMeets(q, row, k);
      }
    }
    SelectTwice(all, MeetsCell(q, k, n), lands, lands);
  }

  lemma FactsLand<F(!new), D(!new)>(q: ContextQuery<F, D>, k: CellKey)
    requires WellCarried(q) && |k.keys| == q.numKeys
    ensures Select(Images(q.facts, f => Joined(f, CellScanRows(q, k, |q.scans|))), LandsIn(q, Carried(k, IdxsOf(q.carried))))
      == Images(Select(q.facts, PassingAt(q, k)), f => Joined(f, CellScanRows(q, k, |q.scans|)))
  {
    hide Lands, Passes;
    var at, lands := (f: F) => Joined(f, CellScanRows(q, k, |q.scans|)), LandsIn(q, Carried(k, IdxsOf(q.carried)));
    forall f
      ensures lands(at(f)) <==> PassingAt(q, k)(f)
    {
      LandsIsPassing(q, f, k);
    }
    SelectImages(q.facts, at, lands, PassingAt(q, k));
  }

  lemma NoDatesNonePass<F(!new), D(!new)>(q: ContextQuery<F, D>, k: CellKey, s: nat)
    requires WellCarried(q) && NullAnchorsReject(q) && |k.keys| == q.numKeys
    requires s < |q.scans| && !HasScanCell(q, k, s)
    ensures Select(q.facts, PassingAt(q, k)) == []
  {
    ScanAtCell(q, k, s);
    forall f
      ensures !PassingAt(q, k)(f)
    {
      assert ScanAnchors(q, k)[s] == q.scans[s].anchors(multiset{});
    }
    SelectNone(q.facts, PassingAt(q, k));
  }

  /** The facts the CTE groups under a cell's carried keys are those that pass there. */
  lemma CteGroupPasses<F(!new), D(!new)>(q: ContextQuery<F, D>, aggs: seq<multiset<F> -> Value>, k: CellKey)
    requires WellCarried(q) && NullAnchorsReject(q) && |k.keys| == q.numKeys
    ensures var c := CteOf(q, aggs);
      Images(Group(c.rows, c.key, Carried(k, IdxsOf(q.carried))), c.fact) == Select(q.facts, PassingAt(q, k))
  {
    hide Group, FromRows, HasScanCell, NullAnchorsReject, WellCarried, Carried;
    GroupLands(q, aggs, k);
    FromAtCell(q, k, |q.scans|);
    if forall s :: 0 <= s < |q.scans| ==> HasScanCell(q, k, s) {
      FactsLand(q, k);
    } else {
      var s :| 0 <= s < |q.scans| && !HasScanCell(q, k, s);
      NoDatesNonePass(q, k, s);
    }
  }

  /** What a cell reads from the joined context CTE is the aggregate over the facts that pass there. */
  lemma CellReadsPassing<F(!new), D(!new)>(q: ContextQuery<F, D>, aggs: seq<multiset<F> -> Value>, k: CellKey, v: nat)
    requires WellCarried(q) && NullAnchorsReject(q) && |k.keys| == q.numKeys
    requires v < |aggs| && (q.carried != [] ==> BlankOnEmpty(CteOf(q, aggs)))
    ensures var c, idxs := CteOf(q, aggs), IdxsOf(q.carried);
      ReadValue(RowAt(Grouping(c), Carried(k, idxs)), v) == aggs[v](multiset(Select(q.facts, PassingAt(q, k))))
  {
    var c, idxs := CteOf(q, aggs), IdxsOf(q.carried);
    CteIsKeyed(q, aggs);
    ContextReadIsCellValue(c, q.numKeys, idxs, k, v);
    CteGroupPasses(q, aggs, k);
  }

  lemma CteIsKeyed<F(!new), D(!new)>(q: ContextQuery<F, D>, aggs: seq<multiset<F> -> Value>)
    requires WellCarried(q)
    ensures ContextKeyed(CteOf(q, aggs), q.numKeys, IdxsOf(q.carried))
  {
    var c, idxs := CteOf(q, aggs), IdxsOf(q.carried);
    forall row | row in c.rows
      ensures |c.key(row).keys| == q.numKeys && c.key(row) == Carried(c.key(row), idxs)
    {
    }
    forall i | 0 <= i < |idxs|
      ensures idxs[i] < q.numKeys
    {
      assert q.carried[i] in q.carried;
    }
  }

  // ---- the emitted parts meet the requirements ----

  /** The carried keys are what the theorem asks for. */
  lemma CarriedKeysFit<F, D>(q: ContextQuery<F, D>, rels: seq<Relationship>, keys: seq<GroupKey>, removed: seq<bool>, scans: seq<ScanSource>)
    requires |removed| == |keys| == q.numKeys && |scans| == |q.scans|
    requires forall c :: c in q.carried ==> CarriedRight(rels, keys, removed, scans, c)
    requires forall i, j :: 0 <= i < j < |q.carried| ==> q.carried[i].idx < q.carried[j].idx
    ensures WellCarried(q)
  {
  }

  /** One emitted time filter: its comparisons, and the fact column they are on. */
  datatype RangeFilter<!F> = RangeFilter(comparisons: seq<TimeIntel.Comparison>, target: F -> Value)

  ghost predicate AllHold<F>(cal: TimeIntel.Calendar, filters: seq<RangeFilter<F>>, f: F, anchors: seq<seq<Value>>) {
    forall r :: r in filters ==> TimeIntel.Holds(cal, r.comparisons, r.target(f), anchors)
  }

  ghost predicate Mentioned<F>(filters: seq<RangeFilter<F>>, s: nat) {
    exists r :: r in filters && TimeIntel.MentionedIn(r.comparisons, s)
  }

  /** MIN, MAX and LASTNONBLANK over no date rows are NULL, and every scan was made for some filter:
    * the emitted ranges let no fact through without dates. */
  lemma EmittedRangesReject<F(!new), D(!new)>(q: ContextQuery<F, D>, cal: TimeIntel.Calendar, filters: seq<RangeFilter<F>>)
    requires forall f, anchors :: q.time(f, anchors) ==> AllHold(cal, filters, f, anchors)
    requires forall s :: 0 <= s < |q.scans| ==> Mentioned(filters, s)
    requires forall s, v :: 0 <= s < |q.scans| && v in q.scans[s].anchors(multiset{}) ==> v == Null
    ensures NullAnchorsReject(q)
  {
    forall f, s, anchors | 0 <= s < |q.scans| && |anchors| == |q.scans| && anchors[s] == q.scans[s].anchors(multiset{})
      ensures !q.time(f, anchors)
    {
      assert Mentioned(filters, s);
      var r :| r in filters && TimeIntel.MentionedIn(r.comparisons, s);
      assert forall i :: 0 <= i < |anchors[s]| ==> anchors[s][i] in q.scans[s].anchors(multiset{});
      TimeIntel.NullAnchorRejects(cal, r.comparisons, s, r.target(f), anchors);
    }
  }
}
