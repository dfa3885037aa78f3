/** The filter context of a cell, and when a context CTE evaluates CALCULATE in it.
  *
  * The context is told by relationships alone: a group key or an outer predicate filters the dates of
  * an anchor when filters flow from its table to the anchored one - from the one side to the many side,
  * and both ways across bidirectional relationships.  What the emitted scans see of it is another
  * matter. */
module CellContext {
  import opened Relationships
  import opened Relational
  import opened Stitch
  import opened Summarize
  import opened FilterFlow
  import opened ContextCte
  import opened DateBridge

  /** A query before it is emitted: the enclosing group keys and which of them the modifiers remove,
    * the anchored tables, and the tables of the outer predicates. */
  datatype Shape = Shape(
    rels: seq<Relationship>, keys: seq<GroupKey>, removed: seq<bool>, sources: seq<ScanSource>, tags: seq<Option<Table>>)

  ghost predicate WellShaped(sh: Shape) {
    |sh.removed| == |sh.keys|
  }

  /** An anchored table's rows with the columns that filter it: group-key values, predicates, and the
    * anchors taken over a bag of rows. */
  datatype DateRows<!D> = DateRows(
    rows: seq<D>, key: (D, nat) -> Value, holds: (D, nat) -> bool, anchors: multiset<D> -> seq<Value>)

  /** `cond` are CALCULATE's own predicates and the outer ones it leaves in force, `time` its ranges
    * against the anchors of all scans. */
  datatype Data<!F, !D> = Data(
    facts: seq<F>, cond: F -> bool, factKey: (F, nat) -> Value, scans: seq<DateRows<D>>, time: (F, seq<seq<Value>>) -> bool)

  // ---- the context ----

  /** A filter on the table restricts the dates of the anchor. */
  ghost predicate Bears(sh: Shape, t: Table, s: nat)
    requires s < |sh.sources|
  {
    ReachesAny(sh.rels, true, t, [sh.sources[s].table] + sh.sources[s].exprTables)
  }

  ghost predicate InDates<D>(sh: Shape, dates: DateRows<D>, s: nat, k: CellKey, d: D)
    requires s < |sh.sources|
  {
    && (forall p :: 0 <= p < |sh.tags| && sh.tags[p].Some? && Bears(sh, sh.tags[p].value, s) ==> dates.holds(d, p))
    && (forall i :: 0 <= i < |sh.keys| && Bears(sh, sh.keys[i].table, s) ==> i < |k.keys| && dates.key(d, i) == k.keys[i])
  }

  /** The date rows the cell's own filters leave, before CALCULATE clears any. */
  ghost function CellDates<D>(sh: Shape, dates: DateRows<D>, s: nat, k: CellKey): seq<D>
    requires s < |sh.sources|
  {
    Select(dates.rows, d => InDates(sh, dates, s, k, d))
  }

  ghost function CellAnchors<F, D>(sh: Shape, data: Data<F, D>, k: CellKey): (anchors: seq<seq<Value>>)
    requires |data.scans| == |sh.sources|
    ensures |anchors| == |data.scans|
  {
    seq(|data.scans|, s requires 0 <= s < |data.scans| =>
      data.scans[s].anchors(multiset(CellDates(sh, data.scans[s], s, k))))
  }

  /** The facts of CALCULATE in the cell: its own predicates, the outer predicates and the group keys
    * that survive the modifiers, and the window the cell's anchors open. */
  ghost predicate InContext<F, D>(sh: Shape, data: Data<F, D>, f: F, k: CellKey)
    requires WellShaped(sh) && |data.scans| == |sh.sources|
  {
    && data.cond(f)
    && KeepsKeys(sh, (i: nat) => data.factKey(f, i), k)
    && data.time(f, CellAnchors(sh, data, k))
  }

  ghost predicate KeepsKeys(sh: Shape, value: nat -> Value, k: CellKey)
    requires WellShaped(sh)
  {
    forall i :: 0 <= i < |sh.keys| && !sh.removed[i] ==> i < |k.keys| && value(i) == k.keys[i]
  }

  ghost function ContextFacts<F, D>(sh: Shape, data: Data<F, D>, k: CellKey): seq<F>
    requires WellShaped(sh) && |data.scans| == |sh.sources|
  {
    Select(data.facts, f => InContext(sh, data, f, k))
  }

  /** A cleared key filters nothing: without anchors, cells that agree on the other keys have the same
    * facts, and each of these has the values of the other keys. */
  lemma ClearedKeyIsFree<F, D>(sh: Shape, data: Data<F, D>, k: CellKey, l: CellKey)
    requires WellShaped(sh) && sh.sources == [] && data.scans == [] && |k.keys| == |l.keys| == |sh.keys|
    requires forall i :: 0 <= i < |sh.keys| && !sh.removed[i] ==> k.keys[i] == l.keys[i]
    ensures ContextFacts(sh, data, k) == ContextFacts(sh, data, l)
    ensures forall f, i :: f in ContextFacts(sh, data, k) && 0 <= i < |sh.keys| && !sh.removed[i] ==> data.factKey(f, i) == k.keys[i]
  {
    forall f
      ensures InContext(sh, data, f, k) <==> InContext(sh, data, f, l)
    {
      assert CellAnchors(sh, data, k) == CellAnchors(sh, data, l) == [];
    }
    SelectSame(data.facts, f => InContext(sh, data, f, k), f => InContext(sh, data, f, l));
    SelectMember(data.facts, f => InContext(sh, data, f, k));
    forall f | f in ContextFacts(sh, data, k)
      ensures KeepsKeys(sh, (i: nat) => data.factKey(f, i), k)
    {
      assert InContext(sh, data, f, k);
    }
  }

  // ---- what is emitted ----

  /** A predicate the scan applies: on the anchored table itself, or on a table that groups one of its
    * LASTNONBLANK expressions. */
  ghost predicate Applied(sh: Shape, p: nat, s: nat)
    requires p < |sh.tags| && s < |sh.sources|
  {
    sh.tags[p].Some? &&
      (sh.tags[p].value == sh.sources[s].table || ReachesAny(sh.rels, false, sh.tags[p].value, sh.sources[s].exprTables))
  }

  method ScanPreds(sh: Shape, s: nat) returns (preds: seq<nat>)
    requires s < |sh.sources|
    ensures forall p: nat :: p in preds <==> p < |sh.tags| && Applied(sh, p, s)
    ensures forall p: nat :: p in preds ==> p < |sh.tags| && sh.tags[p].Some?
    ensures forall p: nat :: p < |sh.tags| && sh.tags[p].Some? ==>
      (p in preds <==> sh.tags[p].value == sh.sources[s].table || ReachesAny(sh.rels, false, sh.tags[p].value, sh.sources[s].exprTables))
    ensures forall i, j :: 0 <= i < j < |preds| ==> preds[i] < preds[j]
  {
    hide ReachesAny;
    preds := [];
    for p := 0 to |sh.tags|
      invariant forall q: nat :: q in preds <==> q < p && Applied(sh, q, s)
      invariant forall i, j :: 0 <= i < j < |preds| ==> preds[i] < preds[j]
    {
      if sh.tags[p].Some? {
        var reaches := sh.tags[p].value == sh.sources[s].table;
        if !reaches {
          reaches := GroupingReaches(sh.rels, sh.tags[p].value, sh.sources[s].exprTables);
        }
        if reaches {
          assert forall i :: 0 <= i < |preds| ==> preds[i] in preds;
          preds := preds + [p];
        }
      }
    }
  }

  ghost function ScannedRows<D>(sh: Shape, dates: DateRows<D>, s: nat): seq<D>
    requires s < |sh.sources|
  {
    Select(dates.rows, d => forall p :: 0 <= p < |sh.tags| && Applied(sh, p, s) ==> dates.holds(d, p))
  }

  ghost function ScanOfRows<D>(sh: Shape, dates: DateRows<D>, s: nat): ScanData<D>
    requires s < |sh.sources|
  {
    ScanData(ScannedRows(sh, dates, s), dates.key, dates.anchors)
  }

  /** The context CTE for these carried keys. */
  ghost function Emitted<F, D>(sh: Shape, carried: seq<CarriedKey>, data: Data<F, D>): ContextQuery<F, D>
    requires WellShaped(sh) && |data.scans| == |sh.sources|
  {
    ContextQuery(|sh.keys|, data.facts, data.cond, data.factKey,
      seq(|data.scans|, s requires 0 <= s < |data.scans| => ScanOfRows(sh, data.scans[s], s)),
      carried, data.time)
  }

  /** The carried keys the emitter builds. */
  ghost predicate CarriedBy(sh: Shape, carried: seq<CarriedKey>)
    requires WellShaped(sh)
  {
    && (forall c :: c in carried ==> CarriedRight(sh.rels, sh.keys, sh.removed, sh.sources, c))
    && (forall i, j :: 0 <= i < j < |carried| ==> carried[i].idx < carried[j].idx)
    && (forall i :: 0 <= i < |sh.keys| ==>
          (CarriesIdx(carried, i) <==> !sh.removed[i] || Provided(sh.rels, sh.keys[i], sh.sources)))
  }

  // ---- when the scans see the context ----

  /** A predicate that bears on the anchor, but is neither on its table nor groups one of its LASTNONBLANK
    * expressions. */
  ghost predicate Unapplied(sh: Shape, p: nat, s: nat)
    requires p < |sh.tags| && s < |sh.sources|
  {
    && sh.tags[p].Some? && Bears(sh, sh.tags[p].value, s)
    && sh.tags[p].value != sh.sources[s].table && !ReachesAny(sh.rels, false, sh.tags[p].value, sh.sources[s].exprTables)
  }

  /** A key that bears on the anchor, but groups neither its table nor one of its expressions. */
  ghost predicate Unprovided(sh: Shape, i: nat, s: nat)
    requires i < |sh.keys| && s < |sh.sources|
  {
    && Bears(sh, sh.keys[i].table, s) && sh.keys[i].table != sh.sources[s].table
    && !ReachesAny(sh.rels, false, sh.keys[i].table, [sh.sources[s].table] + sh.sources[s].exprTables)
  }

  /** The scans see every filter that bears on their anchors, and no group key bears on two of them: a key
    * is carried by one scan only. */
  ghost predicate SeesAll(sh: Shape) {
    && (forall p, s :: 0 <= p < |sh.tags| && 0 <= s < |sh.sources| ==> !Unapplied(sh, p, s))
    && (forall i, s :: 0 <= i < |sh.keys| && 0 <= s < |sh.sources| ==> !Unprovided(sh, i, s))
    && (forall i, s, t :: 0 <= i < |sh.keys| && 0 <= s < |sh.sources| && 0 <= t < |sh.sources| && BearsOnBoth(sh, i, s, t) ==> s == t)
  }

  ghost predicate BearsOnBoth(sh: Shape, i: nat, s: nat, t: nat)
    requires i < |sh.keys| && s < |sh.sources| && t < |sh.sources|
  {
    Bears(sh, sh.keys[i].table, s) && Bears(sh, sh.keys[i].table, t)
  }

  lemma ProvidesBears(sh: Shape, i: nat, s: nat)
    requires i < |sh.keys| && s < |sh.sources| && Provides(sh.rels, sh.keys[i], sh.sources, s)
    ensures Bears(sh, sh.keys[i].table, s)
  {
    var targets := [sh.sources[s].table] + sh.sources[s].exprTables;
    if sh.sources[s].table == sh.keys[i].table {
      ReachesSelf(sh.rels, true, sh.keys[i].table);
      ReachesTarget(sh.rels, true, sh.keys[i].table, targets, sh.keys[i].table);
    } else {
      GroupingImpliesFilter(sh.rels, sh.keys[i].table, targets);
    }
  }

  lemma AppliedBears(sh: Shape, p: nat, s: nat)
    requires p < |sh.tags| && s < |sh.sources| && Applied(sh, p, s)
    ensures Bears(sh, sh.tags[p].value, s)
  {
    var t, targets := sh.tags[p].value, [sh.sources[s].table] + sh.sources[s].exprTables;
    if t == sh.sources[s].table {
      ReachesSelf(sh.rels, true, t);
      ReachesTarget(sh.rels, true, t, targets, t);
    } else {
      var u :| u in sh.sources[s].exprTables && Reaches(sh.rels, false, t, u);
      ReachesTarget(sh.rels, false, t, targets, u);
      GroupingImpliesFilter(sh.rels, t, targets);
    }
  }

  lemma GroupsAreProvided(sh: Shape, carried: seq<CarriedKey>, s: nat, i: nat)
    requires WellShaped(sh) && CarriedBy(sh, carried) && s < |sh.sources| && i in GroupsOf(carried, s)
    ensures i < |sh.keys| && Provides(sh.rels, sh.keys[i], sh.sources, s)
  {
    GroupsOfIsExact(carried, s);
    var c :| c in carried && c.scan == Some(s) && c.idx == i;
    assert CarriedRight(sh.rels, sh.keys, sh.removed, sh.sources, c);
    ScanProvides(sh, i, s);
  }

  lemma GroupsAreCarried(sh: Shape, carried: seq<CarriedKey>, s: nat, i: nat)
    requires WellShaped(sh) && CarriedBy(sh, carried) && s < |sh.sources| && i in GroupsOf(carried, s)
    ensures i < |sh.keys| && Bears(sh, sh.keys[i].table, s)
  {
    GroupsAreProvided(sh, carried, s, i);
    ProvidesBears(sh, i, s);
  }

  lemma ScanProvides(sh: Shape, i: nat, s: nat)
    requires i < |sh.keys| && s < |sh.sources| && ScanOf(sh.rels, sh.keys[i], sh.sources, Some(s))
    ensures Provides(sh.rels, sh.keys[i], sh.sources, s)
  {
  }

  /** A scan groups by the keys that bear on it, where no key bears on two. */
  lemma GroupsAreBearing(sh: Shape, carried: seq<CarriedKey>, s: nat, i: nat)
    requires WellShaped(sh) && CarriedBy(sh, carried) && SeesAll(sh) && s < |sh.sources| && i < |sh.keys|
    ensures i in GroupsOf(carried, s) <==> Bears(sh, sh.keys[i].table, s)
  {
    hide SeesAll, Bears;
    if i in GroupsOf(carried, s) {
      GroupsAreCarried(sh, carried, s, i);
    }
    if Bears(sh, sh.keys[i].table, s) {
      BearsProvides(sh, i, s);
      assert Provided(sh.rels, sh.keys[i], sh.sources);
      var c :| c in carried && c.idx == i;
      assert CarriedRight(sh.rels, sh.keys, sh.removed, sh.sources, c);
      var t := c.scan.value;
      ScanProvides(sh, i, t);
      ProvidesBears(sh, i, t);
      BearsOnce(sh, i, s, t);
      GroupsOfIsExact(carried, s);
    }
  }

  lemma BearsProvides(sh: Shape, i: nat, s: nat)
    requires SeesAll(sh) && i < |sh.keys| && s < |sh.sources| && Bears(sh, sh.keys[i].table, s)
    ensures Provides(sh.rels, sh.keys[i], sh.sources, s)
  {
    assert !Unprovided(sh, i, s);
  }

  lemma BearsOnce(sh: Shape, i: nat, s: nat, t: nat)
    requires SeesAll(sh) && i < |sh.keys| && s < |sh.sources| && t < |sh.sources|
    requires Bears(sh, sh.keys[i].table, s) && Bears(sh, sh.keys[i].table, t)
    ensures s == t
  {
    assert BearsOnBoth(sh, i, s, t);
  }

  /** Then the dates of the scan's row for a cell are the dates of the cell. */
  lemma ScanSeesCell<D(!new)>(sh: Shape, carried: seq<CarriedKey>, dates: DateRows<D>, s: nat, k: CellKey)
    requires WellShaped(sh) && CarriedBy(sh, carried) && SeesAll(sh) && s < |sh.sources| && |k.keys| == |sh.keys|
    ensures DatesAt(ScanOfRows(sh, dates, s), GroupsOf(carried, s), k) == CellDates(sh, dates, s, k)
  {
    hide GroupsOf, Bears, Applied, CarriedBy;
    var groups := GroupsOf(carried, s);
    forall i: nat
      ensures i in groups <==> i < |sh.keys| && Bears(sh, sh.keys[i].table, s)
    {
      if i in groups {
        GroupsAreCarried(sh, carried, s, i);
      }
      if i < |sh.keys| {
        GroupsAreBearing(sh, carried, s, i);
      }
    }
    forall p | 0 <= p < |sh.tags|
      ensures Applied(sh, p, s) <==> sh.tags[p].Some? && Bears(sh, sh.tags[p].value, s)
    {
      AppliedIsSome(sh, p, s);
    }
    SelectTwice(dates.rows, d => forall p :: 0 <= p < |sh.tags| && Applied(sh, p, s) ==> dates.holds(d, p),
      d => forall i :: i in groups ==> i < |k.keys| && dates.key(d, i) == k.keys[i],
      d => InDates(sh, dates, s, k, d));
  }

  lemma AppliedIsSome(sh: Shape, p: nat, s: nat)
    requires SeesAll(sh) && p < |sh.tags| && s < |sh.sources|
    ensures Applied(sh, p, s) <==> sh.tags[p].Some? && Bears(sh, sh.tags[p].value, s)
  {
    assert !Unapplied(sh, p, s);
    if Applied(sh, p, s) {
      AppliedBears(sh, p, s);
    }
  }

  /** The keys that still filter the facts are exactly those not removed. */
  lemma KeptAreNotRemoved(sh: Shape, carried: seq<CarriedKey>, value: nat -> Value, k: CellKey)
    requires WellShaped(sh) && CarriedBy(sh, carried)
    ensures KeepsKeys(sh, value, k) <==>
      forall c :: c in carried && c.kept ==> c.idx < |k.keys| && value(c.idx) == k.keys[c.idx]
  {
    hide ScanOf, Provided;
    forall c | c in carried
      ensures c.idx < |sh.keys| && c.kept == !sh.removed[c.idx]
    {
      assert CarriedRight(sh.rels, sh.keys, sh.removed, sh.sources, c);
    }
    forall i | 0 <= i < |sh.keys| && !sh.removed[i]
      ensures exists c :: c in carried && c.idx == i && c.kept
    {
      assert CarriesIdx(carried, i);
    }
  }

  // ---- the theorem ----

  /** No anchor over no date rows lets a fact pass. */
  ghost predicate NoDatesReject<F(!new), D(!new)>(data: Data<F, D>) {
    forall f, s, anchors :: 0 <= s < |data.scans| && |anchors| == |data.scans| && anchors[s] == data.scans[s].anchors(multiset{}) ==>
      !data.time(f, anchors)
  }

  ghost predicate WellData<F(!new), D(!new)>(sh: Shape, data: Data<F, D>) {
    |data.scans| == |sh.sources| && NoDatesReject(data)
  }

  /** The facts the emitted CTE groups under the cell's carried keys. */
  ghost function CteFacts<F(!new), D(!new)>(sh: Shape, carried: seq<CarriedKey>, data: Data<F, D>, k: CellKey): seq<F>
    requires WellShaped(sh) && |data.scans| == |sh.sources|
  {
    var c := CteOf(Emitted(sh, carried, data), []);
    Images(Group(c.rows, c.key, Carried(k, IdxsOf(carried))), c.fact)
  }

  lemma EmittedFits<F(!new), D(!new)>(sh: Shape, carried: seq<CarriedKey>, data: Data<F, D>)
    requires WellShaped(sh) && CarriedBy(sh, carried) && WellData(sh, data)
    ensures WellCarried(Emitted(sh, carried, data)) && NullAnchorsReject(Emitted(sh, carried, data))
  {
    hide ScanOf, Provided;
    var q := Emitted(sh, carried, data);
    forall c | c in q.carried
      ensures c.idx < q.numKeys && (c.scan.Some? ==> c.scan.value < |q.scans|) && (c.scan.Some? || c.kept)
    {
      assert CarriedRight(sh.rels, sh.keys, sh.removed, sh.sources, c);
      ScanIsThere(sh, c);
    }
  }

  lemma ScanIsThere(sh: Shape, c: CarriedKey)
    requires |sh.removed| == |sh.keys| && CarriedRight(sh.rels, sh.keys, sh.removed, sh.sources, c)
    ensures c.scan.Some? ==> c.scan.value < |sh.sources|
  {
  }

  lemma CteFactsPass<F(!new), D(!new)>(sh: Shape, carried: seq<CarriedKey>, data: Data<F, D>, k: CellKey)
    requires WellShaped(sh) && CarriedBy(sh, carried) && WellData(sh, data) && |k.keys| == |sh.keys|
    ensures CteFacts(sh, carried, data, k) == Select(data.facts, PassingAt(Emitted(sh, carried, data), k))
  {
    hide CteOf, Group, Passes, WellCarried, NullAnchorsReject, CarriedBy, NoDatesReject;
    EmittedFits(sh, carried, data);
    CteGroupPasses(Emitted(sh, carried, data), [], k);
  }

  /** Where the scans see the context, the CTE counts in each cell the facts of the cell's own modified
    * filter context. */
  lemma CteFactsAreContext<F(!new), D(!new)>(sh: Shape, carried: seq<CarriedKey>, data: Data<F, D>, k: CellKey)
    requires WellShaped(sh) && CarriedBy(sh, carried) && WellData(sh, data) && SeesAll(sh) && |k.keys| == |sh.keys|
    ensures CteFacts(sh, carried, data, k) == ContextFacts(sh, data, k)
  {
    hide CarriedBy, SeesAll, NoDatesReject, CteFacts, CellDates, DatesAt;
    var q := Emitted(sh, carried, data);
    CteFactsPass(sh, carried, data, k);
    var seen, own := ScanAnchors(q, k), CellAnchors(sh, data, k);
    forall s | 0 <= s < |data.scans|
      ensures seen[s] == own[s]
    {
      ScanSeesCell(sh, carried, data.scans[s], s, k);
    }
    assert seen == own;
    forall f
      ensures Passes(q, f, k) <==> InContext(sh, data, f, k)
    {
      KeptAreNotRemoved(sh, carried, (i: nat) => data.factKey(f, i), k);
    }
    SelectSame(data.facts, PassingAt(q, k), f => InContext(sh, data, f, k));
  }

  /** What a cell reads from the joined context CTE is the CALCULATE evaluated in that cell's own
    * modified filter context. */
  lemma ContextIsPerCell<F(!new), D(!new)>(sh: Shape, carried: seq<CarriedKey>, data: Data<F, D>, aggs: seq<multiset<F> -> Value>, k: CellKey, v: nat)
    requires WellShaped(sh) && CarriedBy(sh, carried) && WellData(sh, data) && SeesAll(sh) && |k.keys| == |sh.keys|
    requires v < |aggs| && (carried != [] ==> BlankOnEmpty(CteOf(Emitted(sh, carried, data), aggs)))
    ensures var c, idxs := CteOf(Emitted(sh, carried, data), aggs), IdxsOf(carried);
      ReadValue(RowAt(Grouping(c), Carried(k, idxs)), v) == aggs[v](multiset(ContextFacts(sh, data, k)))
  {
    hide CarriedBy, SeesAll, NoDatesReject, Passes, Grouping, RowAt, ReadValue, BlankOnEmpty, WellCarried, NullAnchorsReject;
    EmittedFits(sh, carried, data);
    CellReadsPassing(Emitted(sh, carried, data), aggs, k, v);
    CteFactsPass(sh, carried, data, k);
    CteFactsAreContext(sh, carried, data, k);
  }

  // ---- and only then ----

  /** The CTE is right for all data, in all cells. */
  ghost predicate AlwaysRight(sh: Shape, carried: seq<CarriedKey>)
    requires WellShaped(sh)
  {
    forall data: Data<int, int>, k: CellKey :: WellData(sh, data) && |k.keys| == |sh.keys| ==>
      CteFacts(sh, carried, data, k) == ContextFacts(sh, data, k)
  }

  /** One fact, one date per scan, every key 0, every predicate true; scan `blind` alone differs, in
    * predicate `p` or in key `i`.  A fact passes when every scan has a date. */
  ghost function BlindData(sh: Shape, blind: nat, p: Option<nat>, i: Option<nat>): Data<int, int> {
    Data([0], (_: int) => true, (_: int, _: nat) => Val(0),
      seq(|sh.sources|, s => DateRows([0],
        (_: int, j: nat) => if s == blind && i == Some(j) then Val(1) else Val(0),
        (_: int, q: nat) => !(s == blind && p == Some(q)),
        (rows: multiset<int>) => if rows == multiset{} then [Null] else [Val(1)])),
      (_: int, anchors: seq<seq<Value>>) => forall s :: 0 <= s < |anchors| ==> anchors[s] == [Val(1)])
  }

  ghost function ZeroCell(sh: Shape): CellKey {
    CellKey(seq(|sh.keys|, _ => Val(0)), [])
  }

  /** A filter that bears on a scan which does not see it spoils the cell. */
  lemma BlindScan(sh: Shape, carried: seq<CarriedKey>, blind: nat, p: Option<nat>, i: Option<nat>)
    requires WellShaped(sh) && CarriedBy(sh, carried) && blind < |sh.sources|
    requires p.Some? ==> p.value < |sh.tags| && sh.tags[p.value].Some? && Bears(sh, sh.tags[p.value].value, blind) && !Applied(sh, p.value, blind)
    requires i.Some? ==> i.value < |sh.keys| && Bears(sh, sh.keys[i.value].table, blind) && i.value !in GroupsOf(carried, blind)
    requires p.Some? || i.Some?
    ensures !AlwaysRight(sh, carried)
  {
    hide Bears, Applied, CarriedBy, GroupsOf, CteFacts, ContextFacts;
    var data, k := BlindData(sh, blind, p, i), ZeroCell(sh);
    BlindIsWellData(sh, blind, p, i);
    assert CteFacts(sh, carried, data, k) == [0] by {
      CteCountsTheFact(sh, carried, blind, p, i);
    }
    assert ContextFacts(sh, data, k) == [] by {
      ContextHasNoDate(sh, blind, p, i);
    }
  }

  lemma CteCountsTheFact(sh: Shape, carried: seq<CarriedKey>, blind: nat, p: Option<nat>, i: Option<nat>)
    requires WellShaped(sh) && CarriedBy(sh, carried) && blind < |sh.sources|
    requires p.Some? ==> p.value < |sh.tags| && !Applied(sh, p.value, blind)
    requires i.Some? ==> i.value !in GroupsOf(carried, blind)
    ensures CteFacts(sh, carried, BlindData(sh, blind, p, i), ZeroCell(sh)) == [0]
  {
    hide Bears, Applied, CarriedBy, GroupsOf, CteFacts, DatesAt, WellData;
    var data, k := BlindData(sh, blind, p, i), ZeroCell(sh);
    var q := Emitted(sh, carried, data);
    BlindIsWellData(sh, blind, p, i);
    CteFactsPass(sh, carried, data, k);
    forall s | 0 <= s < |sh.sources|
      ensures ScanAnchors(q, k)[s] == [Val(1)]
    {
      ScanHasItsDate(sh, carried, blind, p, i, s);
    }
    KeptAreNotRemoved(sh, carried, (j: nat) => data.factKey(0, j), k);
    SelectOne(0, PassingAt(q, k));
  }

  lemma ContextHasNoDate(sh: Shape, blind: nat, p: Option<nat>, i: Option<nat>)
    requires WellShaped(sh) && blind < |sh.sources|
    requires p.Some? ==> p.value < |sh.tags| && sh.tags[p.value].Some? && Bears(sh, sh.tags[p.value].value, blind)
    requires i.Some? ==> i.value < |sh.keys| && Bears(sh, sh.keys[i.value].table, blind)
    requires p.Some? || i.Some?
    ensures ContextFacts(sh, BlindData(sh, blind, p, i), ZeroCell(sh)) == []
  {
    hide Bears;
    var data, k := BlindData(sh, blind, p, i), ZeroCell(sh);
    var dates := data.scans[blind];
    SelectNone(dates.rows, d => InDates(sh, dates, blind, k, d));
    assert CellDates(sh, dates, blind, k) == [];
    assert multiset(CellDates(sh, dates, blind, k)) == multiset{};
    assert CellAnchors(sh, data, k)[blind] == [Null];
    SelectNone(data.facts, f => InContext(sh, data, f, k));
  }

  lemma BlindIsWellData(sh: Shape, blind: nat, p: Option<nat>, i: Option<nat>)
    ensures WellData(sh, BlindData(sh, blind, p, i))
  {
    var data := BlindData(sh, blind, p, i);
    forall f, s, anchors | 0 <= s < |data.scans| && |anchors| == |data.scans| && anchors[s] == data.scans[s].anchors(multiset{})
      ensures !data.time(f, anchors)
    {
      assert anchors[s] == [Null];
    }
  }

  lemma ScanHasItsDate(sh: Shape, carried: seq<CarriedKey>, blind: nat, p: Option<nat>, i: Option<nat>, s: nat)
    requires WellShaped(sh) && CarriedBy(sh, carried) && blind < |sh.sources| && s < |sh.sources|
    requires p.Some? ==> p.value < |sh.tags| && !Applied(sh, p.value, blind)
    requires i.Some? ==> i.value !in GroupsOf(carried, blind)
    ensures DatesAt(ScanOfRows(sh, BlindData(sh, blind, p, i).scans[s], s), GroupsOf(carried, s), ZeroCell(sh)) == [0]
  {
    hide Bears, Applied, CarriedBy, GroupsOf, WellShaped;
    var dates, groups, k := BlindData(sh, blind, p, i).scans[s], GroupsOf(carried, s), ZeroCell(sh);
    assert ScannedRows(sh, dates, s) == [0] by {
      SelectOne(0, (d: int) => forall r :: 0 <= r < |sh.tags| && Applied(sh, r, s) ==> dates.holds(d, r));
    }
    forall j | j in groups
      ensures j < |k.keys| && dates.key(0, j) == k.keys[j]
    {
      GroupsAreCarried(sh, carried, s, j);
    }
    HasItsDate(ScanOfRows(sh, dates, s), groups, k, 0);
  }

  lemma HasItsDate<D(!new)>(scan: ScanData<D>, groups: seq<nat>, k: CellKey, date: D)
    requires scan.rows == [date] && forall j :: j in groups ==> j < |k.keys| && scan.key(date, j) == k.keys[j]
    ensures DatesAt(scan, groups, k) == [date]
  {
    SelectOne(date, d => forall j :: j in groups ==> j < |k.keys| && scan.key(d, j) == k.keys[j]);
  }

  lemma UnappliedIsBlind(sh: Shape, p: nat, s: nat)
    requires p < |sh.tags| && s < |sh.sources| && Unapplied(sh, p, s)
    ensures sh.tags[p].Some? && Bears(sh, sh.tags[p].value, s) && !Applied(sh, p, s)
  {
  }

  /** The context CTE is right for all data exactly when its scans see the whole context. */
  lemma ContextIsRightWhen(sh: Shape, carried: seq<CarriedKey>)
    requires WellShaped(sh) && CarriedBy(sh, carried)
    ensures AlwaysRight(sh, carried) <==> SeesAll(sh)
  {
    hide CarriedBy, Bears, Applied, CteFacts, ContextFacts, NoDatesReject;
    if SeesAll(sh) {
      forall data: Data<int, int>, k: CellKey | WellData(sh, data) && |k.keys| == |sh.keys|
        ensures CteFacts(sh, carried, data, k) == ContextFacts(sh, data, k)
      {
        CteFactsAreContext(sh, carried, data, k);
      }
    } else if p: nat, s: nat :| 0 <= p < |sh.tags| && 0 <= s < |sh.sources| && Unapplied(sh, p, s) {
      UnappliedIsBlind(sh, p, s);
      BlindScan(sh, carried, s, Some(p), None);
    } else if i: nat, s: nat :| 0 <= i < |sh.keys| && 0 <= s < |sh.sources| && Unprovided(sh, i, s) {
      assert i !in GroupsOf(carried, s) by {
        if i in GroupsOf(carried, s) {
          GroupsAreProvided(sh, carried, s, i);
        }
      }
      BlindScan(sh, carried, s, None, Some(i));
    } else {
      var i: nat, s: nat, t: nat :| 0 <= i < |sh.keys| && 0 <= s < |sh.sources| && 0 <= t < |sh.sources| && BearsOnBoth(sh, i, s, t) && s != t;
      OneScanPerKey(sh, carried, i, s, t);
      BlindScan(sh, carried, if i in GroupsOf(carried, s) then t else s, None, Some(i));
    }
  }

  /** No filter flows into the table from another one. */
  ghost predicate Detached(rels: seq<Relationship>, t: Table) {
    forall r :: r in rels ==> r.fromTable != t && (r.bidirectional ==> r.toTable != t)
  }

  lemma NothingFlowsIn(rels: seq<Relationship>, t: Table)
    requires Detached(rels, t)
    ensures forall x :: !Flows(rels, true, x, t)
  {
  }

  lemma OnlyItselfReaches(rels: seq<Relationship>, a: Table, t: Table)
    requires Detached(rels, t) && Reaches(rels, true, a, t)
    ensures a == t
  {
    NothingFlowsIn(rels, t);
    hide *;
    ReachedByFlow(rels, true, a, t);
  }

  /** The usual case: over date tables into which nothing else filters, each anchored once and by dates
    * alone, the context CTE is right for all data, whatever the keys, the modifiers and the predicates. */
  lemma DatesOfTheirOwnAreRight(sh: Shape, carried: seq<CarriedKey>)
    requires WellShaped(sh) && CarriedBy(sh, carried)
    requires forall s :: 0 <= s < |sh.sources| ==> sh.sources[s].exprTables == [] && Detached(sh.rels, sh.sources[s].table)
    requires forall s, t :: 0 <= s < t < |sh.sources| ==> sh.sources[s].table != sh.sources[t].table
    ensures AlwaysRight(sh, carried)
  {
    forall t, s: nat | s < |sh.sources| && Bears(sh, t, s)
      ensures t == sh.sources[s].table
    {
      OnlyItselfReaches(sh.rels, t, sh.sources[s].table);
    }
    hide Bears, ReachesAny, CarriedBy, AlwaysRight, Detached;
    ContextIsRightWhen(sh, carried);
  }

  lemma OneScanPerKey(sh: Shape, carried: seq<CarriedKey>, i: nat, s: nat, t: nat)
    requires WellShaped(sh) && CarriedBy(sh, carried) && s != t
    ensures i !in GroupsOf(carried, s) || i !in GroupsOf(carried, t)
  {
    GroupsOfIsExact(carried, s);
    GroupsOfIsExact(carried, t);
    forall c, d | c in carried && d in carried && c.idx == d.idx
      ensures c == d
    {
      var a :| 0 <= a < |carried| && carried[a] == c;
      var b :| 0 <= b < |carried| && carried[b] == d;
      assert a == b;
    }
  }

  // ---- where it fails ----

  lemma FlowIsRoute(rels: seq<Relationship>, a: Table, b: Table, r: nat)
    requires r < |rels| && ((rels[r].toTable == a && rels[r].fromTable == b) || (rels[r].bidirectional && rels[r].fromTable == a && rels[r].toTable == b))
    ensures Reaches(rels, true, a, b)
  {
    ReachesSelf(rels, true, a);
    assert FlowsAlong(rels[r], true, a, b);
    ReachesNext(rels, true, a, a, b);
  }

  /** Date -> Year, grouped by a date column, the year filtered by TREATAS: DATESYTD takes its anchor
    * over all years. */
  lemma YearFilterIsMissed(carried: seq<CarriedKey>)
    requires var sh := Shape([Relationship(10, 0, 20, 0, false)], [GroupKey(10, 1)], [true], [ScanSource(10, [])], [Some(20)]);
      CarriedBy(sh, carried)
    ensures var sh := Shape([Relationship(10, 0, 20, 0, false)], [GroupKey(10, 1)], [true], [ScanSource(10, [])], [Some(20)]);
      !AlwaysRight(sh, carried)
  {
    var sh := Shape([Relationship(10, 0, 20, 0, false)], [GroupKey(10, 1)], [true], [ScanSource(10, [])], [Some(20)]);
    FlowIsRoute(sh.rels, 20, 10, 0);
    ReachesTarget(sh.rels, true, 20, [10] + [], 10);
    assert Bears(sh, sh.tags[0].value, 0);
    assert Unapplied(sh, 0, 0);
    ContextIsRightWhen(sh, carried);
  }

  /** PromoDays <-> Date, PromoDays -> Promo, grouped by a date column, the promotion filtered by TREATAS:
    * the facts keep to the promotion's days, DATESYTD takes its anchor over all days. */
  lemma BridgedFilterIsMissed(carried: seq<CarriedKey>)
    requires var sh := Shape([Relationship(20, 0, 10, 0, true), Relationship(20, 1, 30, 0, false)], [GroupKey(10, 1)], [true], [ScanSource(10, [])], [Some(30)]);
      CarriedBy(sh, carried)
    ensures var sh := Shape([Relationship(20, 0, 10, 0, true), Relationship(20, 1, 30, 0, false)], [GroupKey(10, 1)], [true], [ScanSource(10, [])], [Some(30)]);
      !AlwaysRight(sh, carried)
  {
    var sh := Shape([Relationship(20, 0, 10, 0, true), Relationship(20, 1, 30, 0, false)], [GroupKey(10, 1)], [true], [ScanSource(10, [])], [Some(30)]);
    FlowIsRoute(sh.rels, 30, 20, 1);
    assert FlowsAlong(sh.rels[0], true, 20, 10);
    ReachesNext(sh.rels, true, 30, 20, 10);
    ReachesTarget(sh.rels, true, 30, [10] + [], 10);
    assert Bears(sh, sh.tags[0].value, 0);
    assert Unapplied(sh, 0, 0);
    ContextIsRightWhen(sh, carried);
  }

  /** Two date tables below one calendar, one of them through a further table: the calendar's key is
    * given to one scan and missing from the other. */
  lemma SharedKeyIsMissed(carried: seq<CarriedKey>)
    requires var sh := Shape([Relationship(10, 0, 30, 0, false), Relationship(20, 0, 40, 0, false), Relationship(40, 0, 30, 0, false)],
        [GroupKey(30, 1)], [true], [ScanSource(10, []), ScanSource(20, [])], []);
      CarriedBy(sh, carried)
    ensures var sh := Shape([Relationship(10, 0, 30, 0, false), Relationship(20, 0, 40, 0, false), Relationship(40, 0, 30, 0, false)],
        [GroupKey(30, 1)], [true], [ScanSource(10, []), ScanSource(20, [])], []);
      !AlwaysRight(sh, carried)
  {
    var sh := Shape([Relationship(10, 0, 30, 0, false), Relationship(20, 0, 40, 0, false), Relationship(40, 0, 30, 0, false)],
        [GroupKey(30, 1)], [true], [ScanSource(10, []), ScanSource(20, [])], []);
    FlowIsRoute(sh.rels, 30, 10, 0);
    FlowIsRoute(sh.rels, 30, 40, 2);
    assert FlowsAlong(sh.rels[1], true, 40, 20);
    ReachesNext(sh.rels, true, 30, 40, 20);
    ReachesTarget(sh.rels, true, 30, [10] + [], 10);
    ReachesTarget(sh.rels, true, 30, [20] + [], 20);
    assert BearsOnBoth(sh, 0, 0, 1);
    assert !SeesAll(sh);
    ContextIsRightWhen(sh, carried);
  }

  // ---- the bridge form ----

  /** A fact, joined to its dates, in the cell's context; the date table has the query's only scan. */
  ghost predicate InBridgeContext<F, D>(b: BridgeQuery<F, D>, sh: Shape, dates: DateRows<D>, row: Dated<F, D>, k: CellKey)
    requires WellShaped(sh) && |sh.sources| == 1
  {
    && b.factCond(row.fact) && b.dateCond(row.date)
    && KeepsKeys(sh, (i: nat) => AnchorForm(b).factKey(row, i), k)
    && row.date.Some? && b.inWindow(row.date.value, dates.anchors(multiset(CellDates(sh, dates, 0, k))))
  }

  /** The bridge form, too, gives each cell the CALCULATE of the cell's own modified context, when its
    * scan sees the context and no NULL keys meet. */
  lemma BridgeIsPerCell<F(!new), D(!new)>(b: BridgeQuery<F, D>, sh: Shape, dates: DateRows<D>, aggs: seq<multiset<F> -> Value>, k: CellKey, v: nat)
    requires WellShaped(sh) && |sh.sources| == 1 && |sh.keys| == b.numKeys && CarriedBy(sh, b.carried) && SeesAll(sh)
    requires b.scan == ScanOfRows(sh, dates, 0) && NullAnchorsReject(AnchorForm(b)) && !NullsMeet(b)
    requires |k.keys| == b.numKeys && v < |aggs|
    ensures CellValue(BridgeCte(b, aggs), Carried(k, IdxsOf(b.carried)), v)
      == aggs[v](multiset(Images(Select(AnchorForm(b).facts, row => InBridgeContext(b, sh, dates, row, k)), (row: Dated<F, D>) => row.fact)))
  {
    hide NullsMeet, CarriedBy, SeesAll, NullAnchorsReject, CellDates, DatesAt, BridgeCte;
    var q := AnchorForm(b);
    assert WellCarried(q) by {
      BridgeFits(b, sh);
    }
    BridgeReadsPassing(b, aggs, k, v);
    ScanSeesCell(sh, b.carried, dates, 0, k);
    assert ScanAnchors(q, k) == [dates.anchors(multiset(CellDates(sh, dates, 0, k)))];
    forall row
      ensures Passes(q, row, k) <==> InBridgeContext(b, sh, dates, row, k)
    {
      KeptAreNotRemoved(sh, b.carried, (i: nat) => q.factKey(row, i), k);
    }
    SelectSame(q.facts, PassingAt(q, k), row => InBridgeContext(b, sh, dates, row, k));
  }

  lemma BridgeFits<F(!new), D(!new)>(b: BridgeQuery<F, D>, sh: Shape)
    requires WellShaped(sh) && |sh.sources| == 1 && |sh.keys| == b.numKeys && CarriedBy(sh, b.carried)
    ensures WellCarried(AnchorForm(b))
  {
    hide ScanOf, Provided;
    var q := AnchorForm(b);
    forall c | c in q.carried
      ensures c.idx < q.numKeys && (c.scan.Some? ==> c.scan.value < |q.scans|) && (c.scan.Some? || c.kept)
    {
      assert CarriedRight(sh.rels, sh.keys, sh.removed, sh.sources, c);
      ScanIsThere(sh, c);
    }
  }
}
