/** The bridge form of a context CTE: which dates lie in which cell's window is computed before the
  * facts are joined, and the facts then meet only the dates they need. */
module DateBridge {
  import opened Relationships
  import opened Relational
  import opened Stitch
  import opened Summarize
  import opened ContextCte

  /** The detached date table, its one anchor scan, and the facts it hung off by `factLink` and
    * `dateLink`.  Carried keys that the scan provides are columns of the date table. */
  datatype BridgeQuery<!F, !D> = BridgeQuery(
    numKeys: nat, facts: seq<F>, factLink: F -> Value, factCond: F -> bool, factKey: (F, nat) -> Value,
    dates: seq<D>, dateLink: D -> Value, dateCond: Option<D> -> bool, dateKey: (D, nat) -> Value,
    scan: ScanData<D>, carried: seq<CarriedKey>, inWindow: (D, seq<Value>) -> bool)

  ghost function ScanTable<F, D(!new)>(b: BridgeQuery<F, D>): seq<ScanRow> {
    AnchorScanRows(b.numKeys, b.scan, GroupsOf(b.carried, 0))
  }

  // ---- the anchor form: the date table joined flat, the scan crossed in ----

  /** A fact LEFT JOINed to its dates. */
  datatype Dated<F, D> = Dated(fact: F, date: Option<D>)

  ghost function DatesOf<F, D>(b: BridgeQuery<F, D>, f: F): seq<D> {
    Select(b.dates, d => b.factLink(f) == b.dateLink(d))
  }

  ghost function WithDates<F, D>(b: BridgeQuery<F, D>, f: F): seq<Dated<F, D>> {
    var dates := DatesOf(b, f);
    if dates == [] then [Dated(f, None)] else Images(dates, d => Dated(f, Some(d)))
  }

  /** A comparison with a NULL-extended date column is not true. */
  ghost function AnchorForm<F, D>(b: BridgeQuery<F, D>): ContextQuery<Dated<F, D>, D> {
    ContextQuery(b.numKeys, Flat(b.facts, f => WithDates(b, f)),
      (row: Dated<F, D>) => b.factCond(row.fact) && b.dateCond(row.date),
      (row: Dated<F, D>, i) => if IsDateKey(b.carried, i) then (if row.date.Some? then b.dateKey(row.date.value, i) else Null)
                               else b.factKey(row.fact, i),
      [b.scan], b.carried,
      (row: Dated<F, D>, anchors: seq<seq<Value>>) => row.date.Some? && |anchors| == 1 && b.inWindow(row.date.value, anchors[0]))
  }

  ghost predicate IsDateKey(carried: seq<CarriedKey>, i: nat) {
    exists c :: c in carried && c.idx == i && c.scan.Some?
  }

  /** The value expression reads no date column. */
  ghost function AnchorCte<F(!new), D(!new)>(b: BridgeQuery<F, D>, aggs: seq<multiset<F> -> Value>): Cluster<Joined<Dated<F, D>>, F> {
    var q := AnchorForm(b);
    Cluster(Select(FromRows(q, 1), WhereOf(q)), (row: Joined<Dated<F, D>>) => GroupKeyOf(q, row),
            (row: Joined<Dated<F, D>>) => row.fact.fact, aggs, TotalOf(b.numKeys, b.carried))
  }

  // ---- the bridge form ----

  datatype BridgeRow = BridgeRow(link: Value, scanRow: ScanRow)

  datatype Counted<F> = Counted(fact: F, scanRow: ScanRow)

  ghost predicate Window<F, D>(b: BridgeQuery<F, D>, d: D, r: ScanRow) {
    && b.dateCond(Some(d))
    && (forall c :: c in b.carried && c.scan.Some? && c.kept ==> b.dateKey(d, c.idx) == KeyAt(r.key, c.idx))
    && b.inWindow(d, r.anchors)
  }

  /** SELECT link, groups FROM dates CROSS JOIN scan WHERE window. */
  ghost function BridgeTable<F, D(!new)>(b: BridgeQuery<F, D>): seq<BridgeRow> {
    Flat(b.dates, d => Flat(ScanTable(b), r => if Window(b, d, r) then [BridgeRow(b.dateLink(d), r)] else []))
  }

  ghost function Meeting<F, D>(b: BridgeQuery<F, D>, f: F, br: BridgeRow): seq<Counted<F>> {
    if SqlEquals(b.factLink(f), br.link) && b.factCond(f) then [Counted(f, br.scanRow)] else []
  }

  /** FROM facts JOIN bridge ON link = bk WHERE the other conditions. */
  ghost function BridgeForm<F, D(!new)>(b: BridgeQuery<F, D>): seq<Counted<F>> {
    Flat(b.facts, f => Flat(BridgeTable(b), br => Meeting(b, f, br)))
  }

  ghost function CountedKey<F, D>(b: BridgeQuery<F, D>, c: Counted<F>): CellKey {
    Masked(b.numKeys, IdxsOf(b.carried), (i: nat) =>
      if IsDateKey(b.carried, i) then KeyAt(c.scanRow.key, i) else b.factKey(c.fact, i))
  }

  ghost function BridgeCte<F(!new), D(!new)>(b: BridgeQuery<F, D>, aggs: seq<multiset<F> -> Value>): Cluster<Counted<F>, F> {
    Cluster(BridgeForm(b), (c: Counted<F>) => CountedKey(b, c), (c: Counted<F>) => c.fact, aggs, TotalOf(b.numKeys, b.carried))
  }

  // ---- flattening ----

  /** Blocks that are either kept whole or dropped. */
  lemma FlatDropped<X, Y>(xs: seq<X>, f: X -> seq<Y>, g: X -> seq<Y>)
    requires forall x :: x in xs ==> f(x) == g(x) || f(x) == []
    ensures |Flat(xs, f)| <= |Flat(xs, g)|
    ensures |Flat(xs, f)| == |Flat(xs, g)| ==> forall x :: x in xs ==> f(x) == g(x)
  {
  }

  // ---- both forms, fact by fact ----

  ghost function Counts<F, D>(b: BridgeQuery<F, D>, f: F, d: D, r: ScanRow): seq<Counted<F>> {
    if b.factCond(f) && Window(b, d, r) then [Counted(f, r)] else []
  }

  ghost function DateBlock<F, D(!new)>(b: BridgeQuery<F, D>, f: F, d: D): seq<Counted<F>> {
    Flat(ScanTable(b), r => Counts(b, f, d, r))
  }

  ghost function AnchorBlock<F, D(!new)>(b: BridgeQuery<F, D>, f: F): seq<Counted<F>> {
    Flat(DatesOf(b, f), d => DateBlock(b, f, d))
  }

  /** The dates an inner join on `=` finds. */
  ghost function EqualDates<F, D>(b: BridgeQuery<F, D>, f: F): seq<D> {
    Select(b.dates, d => SqlEquals(b.factLink(f), b.dateLink(d)))
  }

  ghost function BridgeBlock<F, D(!new)>(b: BridgeQuery<F, D>, f: F): seq<Counted<F>> {
    Flat(EqualDates(b, f), d => DateBlock(b, f, d))
  }

  lemma BridgeByFact<F, D(!new)>(b: BridgeQuery<F, D>)
    ensures BridgeForm(b) == Flat(b.facts, f => BridgeBlock(b, f))
  {
    forall f | f in b.facts
      ensures Flat(BridgeTable(b), br => Meeting(b, f, br)) == BridgeBlock(b, f)
    {
      OneFactBridge(b, f);
    }
    FlatSame(b.facts, f => Flat(BridgeTable(b), br => Meeting(b, f, br)), f => BridgeBlock(b, f));
  }

  lemma OneFactBridge<F, D(!new)>(b: BridgeQuery<F, D>, f: F)
    ensures Flat(BridgeTable(b), br => Meeting(b, f, br)) == BridgeBlock(b, f)
  {
    hide ScanTable, Window;
    var window := (d: D) => Flat(ScanTable(b), r => if Window(b, d, r) then [BridgeRow(b.dateLink(d), r)] else []);
    var meeting := (br: BridgeRow) => Meeting(b, f, br);
    var own := (d: D) => if SqlEquals(b.factLink(f), b.dateLink(d)) then DateBlock(b, f, d) else [];
    forall d
      ensures own(d) == Flat(window(d), meeting)
    {
      OneDateBridge(b, f, d);
    }
    FlatFlat(b.dates, window, meeting, own);
    FlatSelect(b.dates, d => SqlEquals(b.factLink(f), b.dateLink(d)), d => DateBlock(b, f, d), own);
  }

  lemma OneDateBridge<F, D(!new)>(b: BridgeQuery<F, D>, f: F, d: D)
    ensures Flat(Flat(ScanTable(b), r => if Window(b, d, r) then [BridgeRow(b.dateLink(d), r)] else []), br => Meeting(b, f, br))
      == if SqlEquals(b.factLink(f), b.dateLink(d)) then DateBlock(b, f, d) else []
  {
    hide ScanTable, Window;
    var rows := (r: ScanRow) => if Window(b, d, r) then [BridgeRow(b.dateLink(d), r)] else [];
    var meeting := (br: BridgeRow) => Meeting(b, f, br);
    var own := (r: ScanRow) => if SqlEquals(b.factLink(f), b.dateLink(d)) then Counts(b, f, d, r) else [];
    forall r
      ensures own(r) == Flat(rows(r), meeting)
    {
      FlatOne(BridgeRow(b.dateLink(d), r), meeting);
    }
    FlatFlat(ScanTable(b), rows, meeting, own);
    if SqlEquals(b.factLink(f), b.dateLink(d)) {
      FlatSame(ScanTable(b), own, r => Counts(b, f, d, r));
    } else {
      FlatNone(ScanTable(b), own);
    }
  }

  // ---- the anchor form, fact by fact ----

  ghost function CountedOf<F, D>(row: Joined<Dated<F, D>>): Counted<F> {
    Counted(row.fact.fact, if row.scanRows == [] then ScanRow(CellKey([], []), []) else row.scanRows[0])
  }

  /** The (fact, scan row) pairs behind the anchor form's groups. */
  ghost function AnchorPairs<F(!new), D(!new)>(b: BridgeQuery<F, D>): seq<Counted<F>> {
    Images(Select(FromRows(AnchorForm(b), 1), WhereOf(AnchorForm(b))), row => CountedOf(row))
  }

  lemma CrossOneAsFlat<F, Y>(row: Joined<F>, table: seq<ScanRow>, p: Joined<F> -> bool, f: Joined<F> -> Y, own: ScanRow -> seq<Y>)
    requires forall r :: r in table ==> own(r) == if p(Extended(row, r)) then [f(Extended(row, r))] else []
    ensures Images(Select(CrossOne(row, table), p), f) == Flat(table, own)
  {
  }

  lemma CrossAsFlat<F, Y>(rows: seq<Joined<F>>, table: seq<ScanRow>, p: Joined<F> -> bool, f: Joined<F> -> Y, own: Joined<F> -> seq<Y>)
    requires forall row :: row in rows ==> own(row) == Images(Select(CrossOne(row, table), p), f)
    ensures Images(Select(ContextCte.Cross(rows, table), p), f) == Flat(rows, own)
  {
    if rows != [] {
      var front, last := rows[..|rows| - 1], rows[|rows| - 1];
      assert rows == front + [last];
      CrossAsFlat(front, table, p, f, own);
      assert own(last) == Images(Select(CrossOne(last, table), p), f) by { assert last in rows; }
      hide ContextCte.Cross, CrossOne, Select, Flat;
      CrossPush(front, last, table);
      FlatPush(front, last, own);
      ImagesConcat(Select(ContextCte.Cross(front, table), p), Select(CrossOne(last, table), p), f);
      SelectConcat(ContextCte.Cross(front, table), CrossOne(last, table), p);
    }
  }

  lemma WhereIsWindow<F, D>(b: BridgeQuery<F, D>, f: F, date: Option<D>, r: ScanRow)
    requires WellCarried(AnchorForm(b))
    ensures Where(AnchorForm(b), Joined(Dated(f, date), [r])) <==> date.Some? && b.factCond(f) && Window(b, date.value, r)
  {
  }

  lemma AnchorByDate<F(!new), D(!new)>(b: BridgeQuery<F, D>, row: Joined<Dated<F, D>>)
    requires WellCarried(AnchorForm(b)) && row.scanRows == []
    ensures Images(Select(CrossOne(row, ScanTable(b)), WhereOf(AnchorForm(b))), r => CountedOf(r))
      == if row.fact.date.Some? then DateBlock(b, row.fact.fact, row.fact.date.value) else []
  {
    hide ScanTable, Where, Window, AnchorForm;
    var table, p, to := ScanTable(b), WhereOf(AnchorForm(b)), (r: Joined<Dated<F, D>>) => CountedOf(r);
    var own := (r: ScanRow) => if row.fact.date.Some? then Counts(b, row.fact.fact, row.fact.date.value, r) else [];
    forall r
      ensures own(r) == if p(Extended(row, r)) then [to(Extended(row, r))] else []
    {
      assert row.scanRows + [r] == [r];
      assert row.fact == Dated(row.fact.fact, row.fact.date);
      WhereIsWindow(b, row.fact.fact, row.fact.date, r);
    }
    CrossOneAsFlat(row, table, p, to, own);
    if row.fact.date.Some? {
      FlatSame(table, own, r => Counts(b, row.fact.fact, row.fact.date.value, r));
    } else {
      FlatNone(table, own);
    }
  }

  ghost function DatedBlock<F, D(!new)>(b: BridgeQuery<F, D>, row: Dated<F, D>): seq<Counted<F>> {
    if row.date.Some? then DateBlock(b, row.fact, row.date.value) else []
  }

  lemma AnchorByFact<F(!new), D(!new)>(b: BridgeQuery<F, D>)
    requires WellCarried(AnchorForm(b))
    ensures AnchorPairs(b) == Flat(b.facts, f => AnchorBlock(b, f))
  {
    hide DateBlock, ScanTable, WithDates, Where, WellCarried;
    var q := AnchorForm(b);
    var rows := Flat(b.facts, f => WithDates(b, f));
    var start := Images(rows, row => Joined(row, []));
    var p, to := WhereOf(q), (r: Joined<Dated<F, D>>) => CountedOf(r);
    var own := (row: Joined<Dated<F, D>>) => DatedBlock(b, row.fact);
    forall row | row in start
      ensures own(row) == Images(Select(CrossOne(row, ScanTable(b)), p), to)
    {
      AnchorByDate(b, row);
    }
    assert FromRows(q, 1) == ContextCte.Cross(start, ScanTable(b)) by { FromOneScan(b); }
    CrossAsFlat(start, ScanTable(b), p, to, own);
    FlatImages(rows, row => Joined(row, []), own, row => DatedBlock(b, row));
    forall f | f in b.facts
      ensures AnchorBlock(b, f) == Flat(WithDates(b, f), row => DatedBlock(b, row))
    {
      OneFactAnchor(b, f);
    }
    FlatFlat(b.facts, f => WithDates(b, f), row => DatedBlock(b, row), f => AnchorBlock(b, f));
  }

  lemma FromOneScan<F(!new), D(!new)>(b: BridgeQuery<F, D>)
    ensures FromRows(AnchorForm(b), 1)
      == ContextCte.Cross(Images(Flat(b.facts, f => WithDates(b, f)), row => Joined(row, [])), ScanTable(b))
  {
  }

  lemma OneFactAnchor<F, D(!new)>(b: BridgeQuery<F, D>, f: F)
    ensures AnchorBlock(b, f) == Flat(WithDates(b, f), row => DatedBlock(b, row))
  {
    hide DateBlock, DatesOf;
    var dates, block := DatesOf(b, f), (row: Dated<F, D>) => DatedBlock(b, row);
    if dates == [] {
      FlatOne(Dated(f, None), block);
    } else {
      FlatImages(dates, d => Dated(f, Some(d)), block, d => DateBlock(b, f, d));
    }
  }

  // ---- the two forms compared ----

  /** Some fact and some date are both unlinked, and the pair would count: LEFT JOIN ... IS NOT
    * DISTINCT FROM pairs them, JOIN ... = does not. */
  ghost predicate NullsMeet<F(!new), D(!new)>(b: BridgeQuery<F, D>) {
    exists f, d, r :: f in b.facts && d in b.dates && r in ScanTable(b)
      && b.factLink(f) == Null && b.dateLink(d) == Null && b.factCond(f) && Window(b, d, r)
  }

  lemma Blocks<F(!new), D(!new)>(b: BridgeQuery<F, D>, f: F)
    ensures b.factLink(f) != Null ==> BridgeBlock(b, f) == AnchorBlock(b, f)
    ensures b.factLink(f) == Null ==> BridgeBlock(b, f) == []
    ensures b.factLink(f) == Null ==> (AnchorBlock(b, f) != [] <==>
      exists d, r :: d in b.dates && b.dateLink(d) == Null && r in ScanTable(b) && b.factCond(f) && Window(b, d, r))
  {
    hide ScanTable, Window;
    if b.factLink(f) != Null {
      SelectSame(b.dates, d => SqlEquals(b.factLink(f), b.dateLink(d)), d => b.factLink(f) == b.dateLink(d));
    } else {
      SelectNone(b.dates, d => SqlEquals(b.factLink(f), b.dateLink(d)));
      SelectMember(b.dates, d => b.factLink(f) == b.dateLink(d));
      forall y
        ensures y in AnchorBlock(b, f) <==>
          exists d, r :: d in b.dates && b.dateLink(d) == Null && r in ScanTable(b) && y in Counts(b, f, d, r)
      {
        FlatMember(DatesOf(b, f), d => DateBlock(b, f, d), y);
        forall d
          ensures y in DateBlock(b, f, d) <==> exists r :: r in ScanTable(b) && y in Counts(b, f, d, r)
        {
          FlatMember(ScanTable(b), r => Counts(b, f, d, r), y);
        }
      }
      if AnchorBlock(b, f) != [] {
        assert AnchorBlock(b, f)[0] in AnchorBlock(b, f);
      }
      if d, r :| d in b.dates && b.dateLink(d) == Null && r in ScanTable(b) && b.factCond(f) && Window(b, d, r) {
        assert Counted(f, r) in Counts(b, f, d, r);
        assert Counted(f, r) in AnchorBlock(b, f);
      }
    }
  }

  /** The bridge form counts the same facts in the same cells as the anchor form exactly when no
    * NULL key meets a NULL key; then it does so row for row. */
  lemma BridgeCountsTheSame<F(!new), D(!new)>(b: BridgeQuery<F, D>)
    requires WellCarried(AnchorForm(b))
    ensures multiset(BridgeForm(b)) == multiset(AnchorPairs(b)) <==> !NullsMeet(b)
    ensures !NullsMeet(b) ==> BridgeForm(b) == AnchorPairs(b)
  {
    BridgeByFact(b);
    AnchorByFact(b);
    var bridge, anchor := (f: F) => BridgeBlock(b, f), (f: F) => AnchorBlock(b, f);
    forall f | f in b.facts
      ensures bridge(f) == anchor(f) || bridge(f) == []
      ensures NullsMeet(b) ==> exists g :: g in b.facts && bridge(g) != anchor(g)
      ensures !NullsMeet(b) ==> bridge(f) == anchor(f)
    {
      NullBlocks(b, f);
    }
    FlatDropped(b.facts, bridge, anchor);
    if !NullsMeet(b) {
      FlatSame(b.facts, bridge, anchor);
    } else {
      var g :| g in b.facts && bridge(g) != anchor(g);
      assert |multiset(BridgeForm(b))| == |BridgeForm(b)| < |AnchorPairs(b)| == |multiset(AnchorPairs(b))|;
    }
  }

  lemma NullBlocks<F(!new), D(!new)>(b: BridgeQuery<F, D>, f: F)
    requires f in b.facts
    ensures BridgeBlock(b, f) == AnchorBlock(b, f) || BridgeBlock(b, f) == []
    ensures NullsMeet(b) ==> exists g :: g in b.facts && BridgeBlock(b, g) != AnchorBlock(b, g)
    ensures !NullsMeet(b) ==> BridgeBlock(b, f) == AnchorBlock(b, f)
  {
    hide ScanTable, Window, BridgeBlock, AnchorBlock;
    Blocks(b, f);
    if NullsMeet(b) {
      var g, d, r :| g in b.facts && d in b.dates && r in ScanTable(b)
        && b.factLink(g) == Null && b.dateLink(d) == Null && b.factCond(g) && Window(b, d, r);
      Blocks(b, g);
    }
  }

  // ---- what decides it before the query is known ----

  ghost predicate LinkedBy<F, D>(b: BridgeQuery<F, D>, facts: seq<F>, factLink: F -> Value, dates: seq<D>, dateLink: D -> Value) {
    b.facts == facts && b.factLink == factLink && b.dates == dates && b.dateLink == dateLink
  }

  /** Over these tables the forms agree whatever the conditions, the window and the scan are. */
  ghost predicate AlwaysAgree<F(!new), D(!new)>(facts: seq<F>, factLink: F -> Value, dates: seq<D>, dateLink: D -> Value) {
    forall b: BridgeQuery<F, D> :: LinkedBy(b, facts, factLink, dates, dateLink) && WellCarried(AnchorForm(b)) ==>
      multiset(BridgeForm(b)) == multiset(AnchorPairs(b))
  }

  /** The query that lets everything through: no keys, no conditions, an open window. */
  ghost function OpenQuery<F, D>(facts: seq<F>, factLink: F -> Value, dates: seq<D>, dateLink: D -> Value): BridgeQuery<F, D> {
    BridgeQuery(0, facts, factLink, (_: F) => true, (_: F, _: nat) => Null, dates, dateLink, (_: Option<D>) => true, (_: D, _: nat) => Null,
      ScanData([], (_: D, _: nat) => Null, (_: multiset<D>) => []), [], (_: D, _: seq<Value>) => true)
  }

  lemma OpenQueryMeets<F(!new), D(!new)>(facts: seq<F>, factLink: F -> Value, dates: seq<D>, dateLink: D -> Value)
    ensures var b := OpenQuery(facts, factLink, dates, dateLink);
      && WellCarried(AnchorForm(b)) && |ScanTable(b)| == 1
      && (NullsMeet(b) <==> (exists f :: f in facts && factLink(f) == Null) && exists d :: d in dates && dateLink(d) == Null)
  {
    var b := OpenQuery(facts, factLink, dates, dateLink);
    assert GroupsOf(b.carried, 0) == [];
    assert ScanTable(b)[0] in ScanTable(b);
    assert forall d, r :: Window(b, d, r);
  }

  /** The forms agree for every query over the two tables exactly when no fact has a NULL key, or no
    * date has. */
  lemma NullKeysDecide<F(!new), D(!new)>(facts: seq<F>, factLink: F -> Value, dates: seq<D>, dateLink: D -> Value)
    ensures AlwaysAgree(facts, factLink, dates, dateLink) <==>
      (forall f :: f in facts ==> factLink(f) != Null) || (forall d :: d in dates ==> dateLink(d) != Null)
  {
    hide BridgeForm, AnchorPairs, ScanTable, Window, WellCarried, AnchorForm;
    var open := OpenQuery(facts, factLink, dates, dateLink);
    OpenQueryMeets(facts, factLink, dates, dateLink);
    assert LinkedBy(open, facts, factLink, dates, dateLink);
    BridgeCountsTheSame(open);
    if (forall f :: f in facts ==> factLink(f) != Null) || (forall d :: d in dates ==> dateLink(d) != Null) {
      forall b: BridgeQuery<F, D> | LinkedBy(b, facts, factLink, dates, dateLink) && WellCarried(AnchorForm(b))
        ensures multiset(BridgeForm(b)) == multiset(AnchorPairs(b))
      {
        BridgeCountsTheSame(b);
      }
    }
  }

  /** One fact and one date, both without a key: the anchor form counts the fact, the bridge form does
    * not. */
  lemma NullKeyIsLost()
    ensures var b := OpenQuery([0], (_: int) => Null, [0], (_: int) => Null);
      WellCarried(AnchorForm(b)) && BridgeForm(b) == [] && |AnchorPairs(b)| == 1
  {
    var b := OpenQuery([0], (_: int) => Null, [0], (_: int) => Null);
    OpenQueryMeets(b.facts, b.factLink, b.dates, b.dateLink);
    BridgeByFact(b);
    AnchorByFact(b);
    Blocks(b, 0);
    FlatOne(0, (f: int) => BridgeBlock(b, f));
    FlatOne(0, (f: int) => AnchorBlock(b, f));
    SelectOne(0, (d: int) => b.factLink(0) == b.dateLink(d));
    FlatOne(0, (d: int) => DateBlock(b, 0, d));
    var r := ScanTable(b)[0];
    assert ScanTable(b) == [r];
    FlatOne(r, (r: ScanRow) => Counts(b, 0, 0, r));
  }

  // ---- the groups ----

  /** The GROUP BY columns survive the detachment: scan columns become bridge columns. */
  lemma SameKey<F(!new), D(!new)>(b: BridgeQuery<F, D>, row: Joined<Dated<F, D>>)
    requires WellCarried(AnchorForm(b)) && |row.scanRows| == 1
    ensures GroupKeyOf(AnchorForm(b), row) == CountedKey(b, CountedOf(row))
  {
    var q, idxs := AnchorForm(b), IdxsOf(b.carried);
    forall i | i in idxs
      ensures CarriedValue(q, row, i) ==
        if IsDateKey(b.carried, i) then KeyAt(row.scanRows[0].key, i) else b.factKey(row.fact.fact, i)
    {
      var j :| 0 <= j < |idxs| && idxs[j] == i;
      var c := q.carried[j];
      assert c in q.carried;
      CarriedFromScan(q, row, c);
      OnlyKeyAt(q, c);
    }
  }

  lemma OnlyKeyAt<F, D>(q: ContextQuery<F, D>, c: CarriedKey)
    requires WellCarried(q) && c in q.carried
    ensures IsDateKey(q.carried, c.idx) <==> c.scan.Some?
  {
  }

  /** When no NULLs meet, the two forms are the same CTE: the same groups, each with the same value. */
  lemma BridgeIsAnchorCte<F(!new), D(!new)>(b: BridgeQuery<F, D>, aggs: seq<multiset<F> -> Value>, k: CellKey, v: nat)
    requires WellCarried(AnchorForm(b)) && !NullsMeet(b) && v < |aggs|
    ensures GroupKeys(BridgeCte(b, aggs)) == GroupKeys(AnchorCte(b, aggs))
    ensures CellValue(BridgeCte(b, aggs), k, v) == CellValue(AnchorCte(b, aggs), k, v)
  {
    hide NullsMeet, FromRows, Where, WellCarried, AnchorForm, GroupKeyOf, CountedKey;
    BridgeCountsTheSame(b);
    var anchor, bridge := AnchorCte(b, aggs), BridgeCte(b, aggs);
    var rows, to := anchor.rows, (r: Joined<Dated<F, D>>) => CountedOf(r);
    assert bridge.rows == Images(rows, to);
    forall row | row in rows
      ensures anchor.key(row) == bridge.key(to(row))
    {
      AnchorRowWidth(b, row);
      SameKey(b, row);
    }
    hide Group, KeysOf, Select;
    KeysOfImages(rows, to, bridge.key, anchor.key);
    GroupOfImages(rows, to, bridge.key, anchor.key, k);
    var mine := Group(rows, anchor.key, k);
    assert Images(Images(mine, to), bridge.fact) == Images(mine, anchor.fact);
  }

  lemma AnchorRowWidth<F(!new), D(!new)>(b: BridgeQuery<F, D>, row: Joined<Dated<F, D>>)
    requires row in Select(FromRows(AnchorForm(b), 1), WhereOf(AnchorForm(b)))
    ensures |row.scanRows| == 1
  {
    SelectMember(FromRows(AnchorForm(b), 1), WhereOf(AnchorForm(b)));
    ScanRowsOf(AnchorForm(b), 1);
  }

  /** The bridge form groups under each cell the facts that pass in the anchor form. */
  lemma BridgeReadsPassing<F(!new), D(!new)>(b: BridgeQuery<F, D>, aggs: seq<multiset<F> -> Value>, k: CellKey, v: nat)
    requires WellCarried(AnchorForm(b)) && NullAnchorsReject(AnchorForm(b)) && !NullsMeet(b)
    requires |k.keys| == b.numKeys && v < |aggs|
    ensures CellValue(BridgeCte(b, aggs), Carried(k, IdxsOf(b.carried)), v)
      == aggs[v](multiset(Images(Select(AnchorForm(b).facts, PassingAt(AnchorForm(b), k)), (row: Dated<F, D>) => row.fact)))
  {
    hide NullsMeet, FromRows, Where, WellCarried, NullAnchorsReject, GroupKeyOf, CountedKey, Group, Select, BridgeCte;
    var q, cell := AnchorForm(b), Carried(k, IdxsOf(b.carried));
    BridgeIsAnchorCte(b, aggs, cell, v);
    var c := CteOf<Dated<F, D>, D>(q, []);
    CteGroupPasses(q, [], k);
    var anchor := AnchorCte(b, aggs);
    var mine := Group(c.rows, c.key, cell);
    assert Group(anchor.rows, anchor.key, cell) == mine by { GroupSame(c.rows, anchor.key, c.key, cell); }
    assert Images(mine, anchor.fact) == Images(Images(mine, c.fact), (row: Dated<F, D>) => row.fact);
  }

}
