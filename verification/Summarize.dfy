/** What a stitched SUMMARIZECOLUMNS returns: every cell once, each measure evaluated over the
  * rows of its own cluster or context.  Grouping follows section 7.9 of ISO/IEC 9075-2:2003. */
module Summarize {
  import opened Relationships
  import opened Relational
  import opened Stitch

  /** A CTE body: joined and filtered rows, their group key, the part of a row the measures read,
    * the aggregates selected, and the group that is there without rows, if any: that of an aggregation
    * without GROUP BY, or of the empty grouping set. */
  datatype Cluster<!T, !F> =
    Cluster(rows: seq<T>, key: T -> CellKey, fact: T -> F, aggs: seq<multiset<F> -> Value>, always: Option<CellKey>)

  /** The aggregate over the rows of one cell, whether or not there are any. */
  ghost function CellValue<T(!new), F(!new)>(c: Cluster<T, F>, k: CellKey, v: nat): Value
    requires v < |c.aggs|
  {
    c.aggs[v](multiset(Images(Group(c.rows, c.key, k), c.fact)))
  }

  /** BLANK over no rows, as SUM, MIN, MAX and AVERAGE are. */
  ghost predicate BlankOnEmpty<T(!new), F(!new)>(c: Cluster<T, F>) {
    forall v :: 0 <= v < |c.aggs| ==> c.aggs[v](multiset{}) == Null
  }

  ghost function GroupKeys<T(!new), F(!new)>(c: Cluster<T, F>): seq<CellKey> {
    var keys := KeysOf(c.rows, c.key);
    if c.always.Some? && c.always.value !in keys then keys + [c.always.value] else keys
  }

  /** The value a cell shows for a CTE: its group's, or BLANK where the CTE has no such group. */
  ghost function GroupValue<T(!new), F(!new)>(c: Cluster<T, F>, k: CellKey, v: nat): Value
    requires v < |c.aggs|
  {
    if k in GroupKeys(c) then CellValue(c, k, v) else Null
  }

  ghost function Grouping<T(!new), F(!new)>(c: Cluster<T, F>): seq<CteRow> {
    var keys := GroupKeys(c);
    seq(|keys|, i requires 0 <= i < |keys| =>
      CteRow(keys[i], seq(|c.aggs|, v requires 0 <= v < |c.aggs| => CellValue(c, keys[i], v))))
  }

  function ReadValue(r: Option<CteRow>, v: nat): Value {
    if r.Some? && v < |r.value.vals| then r.value.vals[v] else Null
  }

  ghost predicate ShapedKey(k: CellKey, numKeys: nat, numFlags: nat) {
    |k.keys| == numKeys && |k.flags| == numFlags
  }

  ghost predicate KeysShaped<T(!new), F(!new)>(c: Cluster<T, F>, numKeys: nat, numFlags: nat) {
    && (forall t :: t in c.rows ==> ShapedKey(c.key(t), numKeys, numFlags))
    && (c.always.Some? ==> ShapedKey(c.always.value, numKeys, numFlags))
  }

  lemma GroupKeysAre<T(!new), F(!new)>(c: Cluster<T, F>)
    ensures Distinct(GroupKeys(c))
    ensures forall k :: k in GroupKeys(c) <==> c.always == Some(k) || Group(c.rows, c.key, k) != []
  {
    KeysOfIsExact(c.rows, c.key);
    forall k
      ensures k in KeysOf(c.rows, c.key) <==> Group(c.rows, c.key, k) != []
    {
      GroupIsThere(c.rows, c.key, k);
    }
  }

  lemma GroupingIsGrouped<T(!new), F(!new)>(c: Cluster<T, F>, numKeys: nat, numFlags: nat)
    requires KeysShaped(c, numKeys, numFlags)
    ensures Grouped(Grouping(c), numKeys, numFlags)
    ensures forall k :: HasKey(Grouping(c), k) <==> k in GroupKeys(c)
  {
    GroupKeysAre(c);
    KeysOfIsExact(c.rows, c.key);
    var keys, table := GroupKeys(c), Grouping(c);
    forall k
      ensures HasKey(table, k) <==> k in keys
    {
      if k in keys {
        var i :| 0 <= i < |keys| && keys[i] == k;
        assert table[i].key == k;
      }
    }
    forall i | 0 <= i < |table|
      ensures |table[i].key.keys| == numKeys && |table[i].key.flags| == numFlags
    {
      assert keys[i] in keys;
    }
  }

  /** Reading a value through its CTE gives the cell's own, or BLANK where the CTE has no such group. */
  lemma ReadIsCellValue<T(!new), F(!new)>(c: Cluster<T, F>, numKeys: nat, numFlags: nat, k: CellKey, v: nat)
    requires KeysShaped(c, numKeys, numFlags) && v < |c.aggs|
    ensures ReadValue(RowAt(Grouping(c), k), v) == GroupValue(c, k, v)
    ensures BlankOnEmpty(c) ==> ReadValue(RowAt(Grouping(c), k), v) == CellValue(c, k, v)
  {
    GroupingIsGrouped(c, numKeys, numFlags);
    GroupKeysAre(c);
    var table := Grouping(c);
    if k in GroupKeys(c) {
      var r := RowAt(table, k).value;
      var i :| 0 <= i < |table| && table[i] == r;
      assert r.vals[v] == CellValue(c, k, v);
    } else {
      assert Images(Group(c.rows, c.key, k), c.fact) == [];
    }
  }

  /** The group keys of a context CTE are carried keys, and only those.  One that carries no key has no
    * GROUP BY: its single row pairs with every cell. */
  ghost predicate ContextKeyed<T(!new), F(!new)>(c: Cluster<T, F>, numKeys: nat, idxs: seq<nat>) {
    && (forall i :: 0 <= i < |idxs| ==> idxs[i] < numKeys)
    && (forall t :: t in c.rows ==> |c.key(t).keys| == numKeys && c.key(t) == Carried(c.key(t), idxs))
    && c.always == if idxs == [] then Some(CellKey(seq(numKeys, _ => Null), [])) else None
  }

  lemma ContextIsShaped<T(!new), F(!new)>(c: Cluster<T, F>, numKeys: nat, idxs: seq<nat>)
    requires ContextKeyed(c, numKeys, idxs)
    ensures KeysShaped(c, numKeys, 0)
  {
    forall t | t in c.rows
      ensures ShapedKey(c.key(t), numKeys, 0)
    {
      assert c.key(t) == Carried(c.key(t), idxs);
    }
  }

  lemma ContextTableCarries<T(!new), F(!new)>(c: Cluster<T, F>, numKeys: nat, idxs: seq<nat>)
    requires ContextKeyed(c, numKeys, idxs)
    ensures Carries(Grouping(c), numKeys, idxs)
  {
    ContextIsShaped(c, numKeys, idxs);
    GroupingIsGrouped(c, numKeys, 0);
    KeysOfIsExact(c.rows, c.key);
    forall r | r in Grouping(c)
      ensures r.key == Carried(r.key, idxs)
    {
      assert HasKey(Grouping(c), r.key);
    }
  }

  /** The value a cell reads from a context CTE is that of its carried key's group: it repeats across
    * every removed key. */
  lemma ContextReadIsCellValue<T(!new), F(!new)>(c: Cluster<T, F>, numKeys: nat, idxs: seq<nat>, k: CellKey, v: nat)
    requires ContextKeyed(c, numKeys, idxs) && v < |c.aggs| && |k.keys| == numKeys
    ensures ReadValue(RowAt(Grouping(c), Carried(k, idxs)), v) == GroupValue(c, Carried(k, idxs), v)
    ensures idxs == [] || BlankOnEmpty(c) ==> GroupValue(c, Carried(k, idxs), v) == CellValue(c, Carried(k, idxs), v)
  {
    ContextIsShaped(c, numKeys, idxs);
    ReadIsCellValue(c, numKeys, 0, Carried(k, idxs), v);
    if idxs == [] {
      assert Carried(k, idxs).keys == seq(numKeys, _ => Null);
    }
  }

  // ---- blank rows ----

  lemma SelectIsSubset<X>(keys: seq<X>, p: X -> bool)
    requires Distinct(keys)
    ensures Distinct(Select(keys, p))
    ensures forall k :: k in Select(keys, p) <==> k in keys && p(k)
  {
  }

  // ---- the result ----

  ghost function TheDb<T(!new), U(!new), F(!new)>(clusters: seq<Cluster<T, F>>, contexts: seq<Cluster<U, F>>, keyIdxs: seq<seq<nat>>): Db
    requires |keyIdxs| == |contexts|
  {
    Db(seq(|clusters|, j requires 0 <= j < |clusters| => Grouping(clusters[j])),
       seq(|contexts|, c requires 0 <= c < |contexts| => Grouping(contexts[c])))
  }

  /** One output row: the cell, each cluster's values for it, each context's values for it. */
  datatype OutRow = OutRow(cell: CellKey, values: seq<seq<Value>>, contextValues: seq<seq<Value>>)

  ghost function ReadAll(rs: seq<Option<CteRow>>, widths: seq<nat>): seq<seq<Value>> {
    seq(|widths|, j requires 0 <= j < |widths| => seq(widths[j], v requires 0 <= v < widths[j] =>
      if j < |rs| then ReadValue(rs[j], v) else Null))
  }

  /** Every measure of every cell evaluated on its own. */
  ghost function PerCell<T(!new), U(!new), F(!new)>(clusters: seq<Cluster<T, F>>, contexts: seq<Cluster<U, F>>, keyIdxs: seq<seq<nat>>, k: CellKey): OutRow
    requires |keyIdxs| == |contexts|
  {
    OutRow(k,
      seq(|clusters|, j requires 0 <= j < |clusters| =>
        seq(|clusters[j].aggs|, v requires 0 <= v < |clusters[j].aggs| => GroupValue(clusters[j], k, v))),
      seq(|contexts|, c requires 0 <= c < |contexts| =>
        seq(|contexts[c].aggs|, v requires 0 <= v < |contexts[c].aggs| => GroupValue(contexts[c], Carried(k, keyIdxs[c]), v))))
  }

  /** The outer SELECT over one stitched row: COALESCEd keys and flags, then the value columns. */
  ghost function Project(w: Wide, numKeys: nat, numFlags: nat, widths: seq<nat>, contextWidths: seq<nat>): OutRow {
    OutRow(KeyColumns(w, numKeys, numFlags), ReadAll(w.ctes, widths), ReadAll(w.contexts, contextWidths))
  }

  ghost function KeyColumns(w: Wide, numKeys: nat, numFlags: nat): CellKey {
    CellKey(seq(numKeys, i requires 0 <= i < numKeys => RefValue(w, ColRef(|w.ctes|, Key(i)))),
            seq(numFlags, i requires 0 <= i < numFlags => RefValue(w, ColRef(|w.ctes|, Flag(i)))))
  }

  /** The keys of every CTE are of one shape; something defines the cells. */
  ghost predicate Sound<T(!new), U(!new), F(!new)>(clusters: seq<Cluster<T, F>>, contexts: seq<Cluster<U, F>>, keyIdxs: seq<seq<nat>>, numKeys: nat, numFlags: nat) {
    && |keyIdxs| == |contexts| && (|clusters| > 0 || (|contexts| > 0 && numKeys == 0 && numFlags == 0))
    && (forall j :: 0 <= j < |clusters| ==> KeysShaped(clusters[j], numKeys, numFlags))
    && (forall c :: 0 <= c < |contexts| ==> ContextKeyed(contexts[c], numKeys, keyIdxs[c]))
  }

  ghost function WidthsOf<T, F>(cs: seq<Cluster<T, F>>): seq<nat> {
    seq(|cs|, j requires 0 <= j < |cs| => |cs[j].aggs|)
  }

  lemma DbIsShaped<T(!new), U(!new), F(!new)>(clusters: seq<Cluster<T, F>>, contexts: seq<Cluster<U, F>>, keyIdxs: seq<seq<nat>>, numKeys: nat, numFlags: nat)
    requires Sound(clusters, contexts, keyIdxs, numKeys, numFlags)
    ensures var db := TheDb(clusters, contexts, keyIdxs);
      Shaped(db, |clusters|, numKeys, numFlags) && ContextsShaped(db, keyIdxs, numKeys)
  {
    forall j | 0 <= j < |clusters|
      ensures Grouped(Grouping(clusters[j]), numKeys, numFlags)
    {
      GroupingIsGrouped(clusters[j], numKeys, numFlags);
    }
    forall c | 0 <= c < |contexts|
      ensures Carries(Grouping(contexts[c]), numKeys, keyIdxs[c])
    {
      ContextTableCarries(contexts[c], numKeys, keyIdxs[c]);
    }
  }

  /** A cell is a group of some cluster; without clusters there is the one total. */
  ghost predicate HasCell<T(!new), F(!new)>(clusters: seq<Cluster<T, F>>, k: CellKey) {
    if clusters == [] then k == CellKey([], []) else exists j :: 0 <= j < |clusters| && k in GroupKeys(clusters[j])
  }

  lemma ClusterReads<T(!new), U(!new), F(!new)>(clusters: seq<Cluster<T, F>>, contexts: seq<Cluster<U, F>>, keyIdxs: seq<seq<nat>>,
    numKeys: nat, numFlags: nat, k: CellKey)
    requires Sound(clusters, contexts, keyIdxs, numKeys, numFlags) && |k.keys| == numKeys
    ensures var db := TheDb(clusters, contexts, keyIdxs);
      ReadAll(ClusterRows(db, |clusters|, k), WidthsOf(clusters)) == PerCell(clusters, contexts, keyIdxs, k).values
  {
    var db := TheDb(clusters, contexts, keyIdxs);
    var l, r := ReadAll(ClusterRows(db, |clusters|, k), WidthsOf(clusters)), PerCell(clusters, contexts, keyIdxs, k).values;
    forall j | 0 <= j < |clusters|
      ensures l[j] == r[j]
    {
      forall v | 0 <= v < |clusters[j].aggs|
        ensures l[j][v] == r[j][v]
      {
        ReadIsCellValue(clusters[j], numKeys, numFlags, k, v);
      }
    }
  }

  lemma ContextReads<T(!new), U(!new), F(!new)>(clusters: seq<Cluster<T, F>>, contexts: seq<Cluster<U, F>>, keyIdxs: seq<seq<nat>>,
    numKeys: nat, numFlags: nat, k: CellKey)
    requires Sound(clusters, contexts, keyIdxs, numKeys, numFlags) && |k.keys| == numKeys
    ensures var db := TheDb(clusters, contexts, keyIdxs);
      ReadAll(ContextRows(db, keyIdxs, k), WidthsOf(contexts)) == PerCell(clusters, contexts, keyIdxs, k).contextValues
  {
    var db := TheDb(clusters, contexts, keyIdxs);
    var l, r := ReadAll(ContextRows(db, keyIdxs, k), WidthsOf(contexts)), PerCell(clusters, contexts, keyIdxs, k).contextValues;
    forall c | 0 <= c < |contexts|
      ensures l[c] == r[c]
    {
      forall v | 0 <= v < |contexts[c].aggs|
        ensures l[c][v] == r[c][v]
      {
        ContextReadIsCellValue(contexts[c], numKeys, keyIdxs[c], k, v);
      }
    }
  }

  lemma KeyColumnsAre(db: Db, n: nat, k: CellKey, contexts: seq<Option<CteRow>>, numKeys: nat, numFlags: nat)
    requires Shaped(db, n, numKeys, numFlags) && IsCell(db, n, k)
    ensures KeyColumns(Wide(ClusterRows(db, n, k), contexts), numKeys, numFlags) == k
  {
    CellIsShaped(db, n, k, numKeys, numFlags);
    var w := Wide(ClusterRows(db, n, k), contexts);
    assert w.ctes[..|w.ctes|] == w.ctes;
    var out := KeyColumns(w, numKeys, numFlags);
    forall i | 0 <= i < numKeys
      ensures out.keys[i] == k.keys[i]
    {
      CellColumn(db, n, k, Key(i));
    }
    forall i | 0 <= i < numFlags
      ensures out.flags[i] == k.flags[i]
    {
      CellColumn(db, n, k, Flag(i));
    }
    assert out.keys == k.keys && out.flags == k.flags;
  }

  lemma ProjectIsPerCell<T(!new), U(!new), F(!new)>(clusters: seq<Cluster<T, F>>, contexts: seq<Cluster<U, F>>, keyIdxs: seq<seq<nat>>,
    numKeys: nat, numFlags: nat, k: CellKey)
    requires Sound(clusters, contexts, keyIdxs, numKeys, numFlags)
    requires |clusters| > 0 && IsCell(TheDb(clusters, contexts, keyIdxs), |clusters|, k)
    ensures var db := TheDb(clusters, contexts, keyIdxs);
      Project(Wide(ClusterRows(db, |clusters|, k), ContextRows(db, keyIdxs, k)), numKeys, numFlags,
              WidthsOf(clusters), WidthsOf(contexts))
        == PerCell(clusters, contexts, keyIdxs, k)
  {
    hide ReadAll, KeyColumns, IsCell, ClusterRows, ContextRows;
    var db := TheDb(clusters, contexts, keyIdxs);
    DbIsShaped(clusters, contexts, keyIdxs, numKeys, numFlags);
    CellIsShaped(db, |clusters|, k, numKeys, numFlags);
    CellsAre(clusters, contexts, keyIdxs, numKeys, numFlags, k);
    ClusterReads(clusters, contexts, keyIdxs, numKeys, numFlags, k);
    ContextReads(clusters, contexts, keyIdxs, numKeys, numFlags, k);
    KeyColumnsAre(db, |clusters|, k, ContextRows(db, keyIdxs, k), numKeys, numFlags);
  }

  lemma CellsAre<T(!new), U(!new), F(!new)>(clusters: seq<Cluster<T, F>>, contexts: seq<Cluster<U, F>>, keyIdxs: seq<seq<nat>>,
    numKeys: nat, numFlags: nat, k: CellKey)
    requires Sound(clusters, contexts, keyIdxs, numKeys, numFlags)
    requires |clusters| > 0
    ensures IsCell(TheDb(clusters, contexts, keyIdxs), |clusters|, k) <==> HasCell(clusters, k)
  {
    var db := TheDb(clusters, contexts, keyIdxs);
    forall j | 0 <= j < |clusters|
      ensures HasKey(db.ctes[j], k) <==> k in GroupKeys(clusters[j])
    {
      GroupingIsGrouped(clusters[j], numKeys, numFlags);
    }
  }

  /** The SELECT list over the emitted FROM clause. */
  ghost function Output<T(!new), U(!new), F(!new)>(clusters: seq<Cluster<T, F>>, contexts: seq<Cluster<U, F>>, keyIdxs: seq<seq<nat>>,
    numKeys: nat, numFlags: nat): seq<OutRow>
    requires |clusters| + |contexts| > 0 && |keyIdxs| == |contexts|
  {
    Images(Eval(if |clusters| > 0 then StitchContexts(StitchClusters(|clusters|, numKeys, numFlags), |clusters|, keyIdxs) else ContextsOnly(|contexts|),
              TheDb(clusters, contexts, keyIdxs)),
         w => Project(w, numKeys, numFlags, WidthsOf(clusters), WidthsOf(contexts)))
  }

  /** Stitched codegen keeps the meaning of SUMMARIZECOLUMNS: its rows are exactly the cells of the
    * clusters, each once, and each cell's measures are what evaluating them alone would give. */
  lemma StitchedIsPerCell<T(!new), U(!new), F(!new)>(clusters: seq<Cluster<T, F>>, contexts: seq<Cluster<U, F>>, keyIdxs: seq<seq<nat>>,
    numKeys: nat, numFlags: nat) returns (keys: seq<CellKey>)
    requires Sound(clusters, contexts, keyIdxs, numKeys, numFlags)
    ensures Distinct(keys) && forall k :: k in keys <==> HasCell(clusters, k)
    ensures Output(clusters, contexts, keyIdxs, numKeys, numFlags) == Images(keys, k => PerCell(clusters, contexts, keyIdxs, k))
  {
    hide PerCell, Project, IsCell, Grouping, Eval, HasCell, ClusterRows, ContextRows;
    var db := TheDb(clusters, contexts, keyIdxs);
    if clusters == [] {
      keys := [CellKey([], [])];
      AloneIsPerCell(clusters, contexts, keyIdxs);
      assert forall k :: HasCell(clusters, k) <==> k == CellKey([], []) by { NoClusterCells(clusters); }
      return;
    }
    DbIsShaped(clusters, contexts, keyIdxs, numKeys, numFlags);
    keys := StitchIsExact(db, |clusters|, keyIdxs, numKeys, numFlags);
    forall i | 0 <= i < |keys|
      ensures Project(Wide(ClusterRows(db, |clusters|, keys[i]), ContextRows(db, keyIdxs, keys[i])), numKeys, numFlags,
                      WidthsOf(clusters), WidthsOf(contexts)) == PerCell(clusters, contexts, keyIdxs, keys[i])
    {
      assert keys[i] in keys;
      ProjectIsPerCell(clusters, contexts, keyIdxs, numKeys, numFlags, keys[i]);
    }
    forall k
      ensures k in keys <==> HasCell(clusters, k)
    {
      CellsAre(clusters, contexts, keyIdxs, numKeys, numFlags, k);
    }
  }

  lemma NothingCarried<T(!new), F(!new)>(c: Cluster<T, F>, idxs: seq<nat>)
    requires ContextKeyed(c, 0, idxs)
    ensures idxs == []
  {
    SomeIsBelow(idxs, 0);
  }

  lemma OneGroup<T(!new), F(!new)>(c: Cluster<T, F>)
    requires ContextKeyed(c, 0, [])
    ensures GroupKeys(c) == [CellKey([], [])]
  {
    GroupKeysAre(c);
    KeysOfIsExact(c.rows, c.key);
    var keys, total := GroupKeys(c), CellKey([], []);
    assert c.always == Some(total);
    assert total in keys;
    forall k | k in keys
      ensures k == total
    {
      if k in KeysOf(c.rows, c.key) {
        var i :| 0 <= i < |c.rows| && c.key(c.rows[i]) == k;
        assert c.rows[i] in c.rows;
      }
    }
    DistinctInSet(keys, {total});
  }

  lemma SomeIsBelow(idxs: seq<nat>, n: nat)
    requires forall i :: 0 <= i < |idxs| ==> idxs[i] < n
    ensures idxs == [] || n > 0
  {
    if idxs != [] {
      assert idxs[0] < n;
    }
  }

  lemma NoClusterCells<T(!new), F(!new)>(clusters: seq<Cluster<T, F>>)
    requires clusters == []
    ensures forall k :: HasCell(clusters, k) <==> k == CellKey([], [])
  {
  }

  /** Without keys and clusters the contexts alone make the one row. */
  lemma AloneIsPerCell<T(!new), U(!new), F(!new)>(clusters: seq<Cluster<T, F>>, contexts: seq<Cluster<U, F>>, keyIdxs: seq<seq<nat>>)
    requires Sound(clusters, contexts, keyIdxs, 0, 0) && clusters == []
    ensures Output(clusters, contexts, keyIdxs, 0, 0) == [PerCell(clusters, contexts, keyIdxs, CellKey([], []))]
  {
    hide CellValue, Eval, ContextKeyed, GroupKeys, GroupValue;
    var n, k, db := |contexts|, CellKey([], []), TheDb(clusters, contexts, keyIdxs);
    forall c | 0 <= c < n
      ensures |db.contexts[c]| == 1 && RowAt(db.contexts[c], Carried(k, keyIdxs[c])) == Some(db.contexts[c][0])
    {
      NothingCarried(contexts[c], keyIdxs[c]);
      OneGroup(contexts[c]);
      assert db.contexts[c][0].key == Carried(k, keyIdxs[c]);
      assert HasKey(db.contexts[c], Carried(k, keyIdxs[c]));
    }
    ContextsAlone(db, n);
    var w := Wide([], seq(n, c requires 0 <= c < n => Some(db.contexts[c][0])));
    assert w.contexts == ContextRows(db, keyIdxs, k);
    ContextReads(clusters, contexts, keyIdxs, 0, 0, k);
    assert Project(w, 0, 0, WidthsOf(clusters), WidthsOf(contexts)) == PerCell(clusters, contexts, keyIdxs, k);
  }

  /** Rows whose every output measure is BLANK are left out; with no measure nothing is. */
  ghost predicate Shown(measures: seq<OutRow -> Value>, row: OutRow) {
    measures == [] || exists m :: 0 <= m < |measures| && measures[m](row) != Null
  }

  /** After pruning: one row for each cell with a measure that is not BLANK there, and no other. */
  lemma PrunedIsPerCell<T(!new), U(!new), F(!new)>(clusters: seq<Cluster<T, F>>, contexts: seq<Cluster<U, F>>, keyIdxs: seq<seq<nat>>,
    numKeys: nat, numFlags: nat, measures: seq<OutRow -> Value>) returns (keys: seq<CellKey>)
    requires Sound(clusters, contexts, keyIdxs, numKeys, numFlags)
    ensures Distinct(keys)
    ensures forall k :: k in keys <==>
      HasCell(clusters, k) && (measures == [] || exists m :: 0 <= m < |measures| && measures[m](PerCell(clusters, contexts, keyIdxs, k)) != Null)
    ensures Select(Output(clusters, contexts, keyIdxs, numKeys, numFlags), row => Shown(measures, row))
      == Images(keys, k => PerCell(clusters, contexts, keyIdxs, k))
  {
    hide PerCell, HasCell, Output;
    var all := StitchedIsPerCell(clusters, contexts, keyIdxs, numKeys, numFlags);
    var row := (k: CellKey) => PerCell(clusters, contexts, keyIdxs, k);
    var shown := (r: OutRow) => Shown(measures, r);
    var kept := (k: CellKey) => shown(row(k));
    SelectIsSubset(all, kept);
    keys := Select(all, kept);
    SelectImages(all, row, shown, kept);
    SelectSame(Output(clusters, contexts, keyIdxs, numKeys, numFlags), r => Shown(measures, r), shown);
    assert Images(all, row) == Images(all, k => PerCell(clusters, contexts, keyIdxs, k));
    assert Images(keys, row) == Images(keys, k => PerCell(clusters, contexts, keyIdxs, k));
  }
}
