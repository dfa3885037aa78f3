/** The stitched outer query: cluster CTEs recombined by FULL OUTER JOIN on COALESCEd keys,
  * context CTEs hung on by LEFT JOIN.  Joins follow section 7.7 of ISO/IEC 9075-2:2003. */
module Stitch {
  import opened Relationships
  import opened Relational

  /** One row of a cluster or context CTE: its key columns, its grouping flags, its values. */
  datatype CteRow = CteRow(key: CellKey, vals: seq<Value>)

  datatype CellKey = CellKey(keys: seq<Value>, flags: seq<Value>)

  datatype Column = Key(i: nat) | Flag(i: nat)

  // ---- the emitted query ----

  /** A reference COALESCEd over the first `upTo` CTEs; the bare column when that is one. */
  datatype ColRef = ColRef(upTo: nat, col: Column)

  datatype Cond = Same(left: ColRef, col: Column)

  datatype From =
    | Base
    | ContextBase
    | FullOuterJoin(left: From, cte: nat, conds: seq<Cond>)
    | LeftJoin(left: From, context: nat, conds: seq<Cond>)

  function StitchedColRef(upTo: nat, col: Column): ColRef {
    ColRef(upTo, col)
  }

  /** The FROM clause over `ctes` cluster CTEs and one context CTE per entry of `keyIdxs`, which
    * lists the group keys that CTE carries. */
  method EmitStitch(ctes: nat, numKeys: nat, numFlags: nat, keyIdxs: seq<seq<nat>>) returns (from: From)
    requires ctes > 0 || keyIdxs != []
    ensures ctes > 0 ==> from == StitchContexts(StitchClusters(ctes, numKeys, numFlags), ctes, keyIdxs)
    ensures ctes == 0 ==> from == ContextsOnly(|keyIdxs|)
  {
    if ctes == 0 {
      from := ContextBase;
      for c := 1 to |keyIdxs|
        invariant from == ContextsOnly(c)
      {
        from := LeftJoin(from, c, []);
      }
      return;
    }
    from := Base;
    for i := 1 to ctes
      invariant from == StitchClusters(i, numKeys, numFlags)
    {
      var conds: seq<Cond> := [];
      for ki := 0 to numKeys
        invariant conds == seq(ki, k requires 0 <= k < ki => Same(StitchedColRef(i, Key(k)), Key(k)))
      {
        conds := conds + [Same(StitchedColRef(i, Key(ki)), Key(ki))];
      }
      ghost var keyConds := conds;
      for gi := 0 to numFlags
        invariant conds == keyConds + seq(gi, g requires 0 <= g < gi => Same(StitchedColRef(i, Flag(g)), Flag(g)))
      {
        conds := conds + [Same(StitchedColRef(i, Flag(gi)), Flag(gi))];
      }
      from := FullOuterJoin(from, i, conds);
    }
    for c := 0 to |keyIdxs|
      invariant from == StitchContexts(StitchClusters(ctes, numKeys, numFlags), ctes, keyIdxs[..c])
    {
      var conds: seq<Cond> := [];
      for k := 0 to |keyIdxs[c]|
        invariant conds == ContextConds(ctes, keyIdxs[c][..k])
      {
        assert keyIdxs[c][..k + 1][..k] == keyIdxs[c][..k];
        conds := conds + [Same(StitchedColRef(ctes, Key(keyIdxs[c][k])), Key(keyIdxs[c][k]))];
      }
      assert keyIdxs[c][..|keyIdxs[c]|] == keyIdxs[c];
      assert keyIdxs[..c + 1][..c] == keyIdxs[..c];
      from := LeftJoin(from, c, conds);
    }
    assert keyIdxs[..|keyIdxs|] == keyIdxs;
  }

  function AllConds(upTo: nat, numKeys: nat, numFlags: nat): seq<Cond> {
    seq(numKeys, k requires 0 <= k < numKeys => Same(ColRef(upTo, Key(k)), Key(k)))
    + seq(numFlags, g requires 0 <= g < numFlags => Same(ColRef(upTo, Flag(g)), Flag(g)))
  }

  function ContextConds(upTo: nat, idxs: seq<nat>): seq<Cond> {
    if idxs == [] then [] else
    ContextConds(upTo, idxs[..|idxs| - 1]) + [Same(ColRef(upTo, Key(idxs[|idxs| - 1])), Key(idxs[|idxs| - 1]))]
  }

  function StitchClusters(ctes: nat, numKeys: nat, numFlags: nat): From
    requires ctes > 0
  {
    if ctes == 1 then Base
    else FullOuterJoin(StitchClusters(ctes - 1, numKeys, numFlags), ctes - 1, AllConds(ctes - 1, numKeys, numFlags))
  }

  function StitchContexts(from: From, ctes: nat, keyIdxs: seq<seq<nat>>): From {
    if keyIdxs == [] then from else
    var n := |keyIdxs| - 1;
    LeftJoin(StitchContexts(from, ctes, keyIdxs[..n]), n, ContextConds(ctes, keyIdxs[n]))
  }

  /** With no cluster to define cells, every context CTE is a single row. */
  function ContextsOnly(n: nat): From
    requires n > 0
  {
    if n == 1 then ContextBase else LeftJoin(ContextsOnly(n - 1), n - 1, [])
  }

  // ---- its meaning ----

  /** A row of the joined table: per CTE its row, or None where it is the NULL side. */
  datatype Wide = Wide(ctes: seq<Option<CteRow>>, contexts: seq<Option<CteRow>>)

  datatype Db = Db(ctes: seq<seq<CteRow>>, contexts: seq<seq<CteRow>>)

  function ColumnOf(r: Option<CteRow>, col: Column): Value {
    if r.None? then Null else
    match col
    case Key(i) => if i < |r.value.key.keys| then r.value.key.keys[i] else Null
    case Flag(i) => if i < |r.value.key.flags| then r.value.key.flags[i] else Null
  }

  function ColumnsOf(rs: seq<Option<CteRow>>, col: Column): (vs: seq<Value>)
    ensures |vs| == |rs| && forall j :: 0 <= j < |rs| ==> vs[j] == ColumnOf(rs[j], col)
  {
    seq(|rs|, j requires 0 <= j < |rs| => ColumnOf(rs[j], col))
  }

  ghost function RefValue(w: Wide, ref: ColRef): Value {
    Coalesce(ColumnsOf(if ref.upTo <= |w.ctes| then w.ctes[..ref.upTo] else w.ctes, ref.col))
  }

  ghost predicate On(conds: seq<Cond>, w: Wide, r: CteRow) {
    forall c :: c in conds ==> RefValue(w, c.left) == ColumnOf(Some(r), c.col)
  }

  /** The rows of `table` that pair with `w`. */
  ghost function Partners(conds: seq<Cond>, w: Wide, table: seq<CteRow>): seq<CteRow> {
    Select(table, r => On(conds, w, r))
  }

  ghost function WithCte(w: Wide, r: Option<CteRow>): Wide {
    Wide(w.ctes + [r], w.contexts)
  }

  ghost function WithContext(w: Wide, r: Option<CteRow>): Wide {
    Wide(w.ctes, w.contexts + [r])
  }

  ghost function Pairs(w: Wide, rs: seq<CteRow>, add: (Wide, Option<CteRow>) -> Wide): seq<Wide> {
    if rs == [] then [] else Pairs(w, rs[..|rs| - 1], add) + [add(w, Some(rs[|rs| - 1]))]
  }

  /** Left rows with their partners, or NULL-extended when they have none. */
  ghost function LeftPart(rows: seq<Wide>, table: seq<CteRow>, conds: seq<Cond>, add: (Wide, Option<CteRow>) -> Wide): seq<Wide> {
    if rows == [] then [] else
    LeftPart(rows[..|rows| - 1], table, conds, add) + LeftRows(rows[|rows| - 1], table, conds, add)
  }

  ghost function LeftRows(w: Wide, table: seq<CteRow>, conds: seq<Cond>, add: (Wide, Option<CteRow>) -> Wide): seq<Wide> {
    var ps := Partners(conds, w, table);
    if ps == [] then [add(w, None)] else Pairs(w, ps, add)
  }

  ghost predicate Unpaired(rows: seq<Wide>, r: CteRow, conds: seq<Cond>) {
    forall w :: w in rows ==> !On(conds, w, r)
  }

  /** Right rows no left row pairs with, NULL-extended to the left. */
  ghost function RightPart(rows: seq<Wide>, table: seq<CteRow>, conds: seq<Cond>, width: nat): seq<Wide> {
    if table == [] then [] else
    var r := table[|table| - 1];
    var rest := RightPart(rows, table[..|table| - 1], conds, width);
    if Unpaired(rows, r, conds) then rest + [Wide(seq(width, _ => None) + [Some(r)], [])] else rest
  }

  ghost function Eval(from: From, db: Db): seq<Wide> {
    match from
    case Base => if db.ctes == [] then [] else seq(|db.ctes[0]|, i requires 0 <= i < |db.ctes[0]| => Wide([Some(db.ctes[0][i])], []))
    case ContextBase =>
      if db.contexts == [] then [] else seq(|db.contexts[0]|, i requires 0 <= i < |db.contexts[0]| => Wide([], [Some(db.contexts[0][i])]))
    case FullOuterJoin(left, cte, conds) =>
      var table := if cte < |db.ctes| then db.ctes[cte] else [];
      LeftPart(Eval(left, db), table, conds, WithCte) + RightPart(Eval(left, db), table, conds, cte)
    case LeftJoin(left, context, conds) =>
      var table := if context < |db.contexts| then db.contexts[context] else [];
      LeftPart(Eval(left, db), table, conds, WithContext)
  }

  // ---- what it should mean ----

  /** Grouped rows of one shape, one per key. */
  ghost predicate Grouped(table: seq<CteRow>, numKeys: nat, numFlags: nat) {
    && (forall i :: 0 <= i < |table| ==> |table[i].key.keys| == numKeys && |table[i].key.flags| == numFlags)
    && (forall i, j :: 0 <= i < j < |table| ==> table[i].key != table[j].key)
  }

  ghost predicate HasKey(table: seq<CteRow>, k: CellKey) {
    exists i :: 0 <= i < |table| && table[i].key == k
  }

  ghost function RowAt(table: seq<CteRow>, k: CellKey): (r: Option<CteRow>)
    ensures r.Some? <==> HasKey(table, k)
    ensures r.Some? ==> r.value in table && r.value.key == k
  {
    if HasKey(table, k) then var i :| 0 <= i < |table| && table[i].key == k; Some(table[i]) else None
  }

  ghost predicate IsCell(db: Db, n: nat, k: CellKey)
    requires n <= |db.ctes|
  {
    exists j :: 0 <= j < n && HasKey(db.ctes[j], k)
  }

  /** Each of the first n clusters' rows for the cell. */
  ghost function ClusterRows(db: Db, n: nat, k: CellKey): seq<Option<CteRow>>
    requires n <= |db.ctes|
  {
    seq(n, j requires 0 <= j < n => RowAt(db.ctes[j], k))
  }

  /** `keys` lists every cell of the first n clusters once. */
  ghost predicate AllCells(db: Db, n: nat, keys: seq<CellKey>)
    requires n <= |db.ctes|
  {
    && Distinct(keys)
    && forall k :: k in keys <==> IsCell(db, n, k)
  }

  ghost function CellRows(db: Db, n: nat, keys: seq<CellKey>): seq<Wide>
    requires n <= |db.ctes|
  {
    seq(|keys|, i requires 0 <= i < |keys| => Wide(ClusterRows(db, n, keys[i]), []))
  }

  // ---- the full outer joins ----

  lemma SelectByKey(table: seq<CteRow>, k: CellKey, p: CteRow -> bool, numKeys: nat, numFlags: nat)
    requires Grouped(table, numKeys, numFlags)
    requires forall r :: r in table ==> (p(r) <==> r.key == k)
    ensures Select(table, p) == if HasKey(table, k) then [RowAt(table, k).value] else []
  {
  }

  lemma SameRow(table: seq<CteRow>, a: CteRow, b: CteRow, numKeys: nat, numFlags: nat)
    requires Grouped(table, numKeys, numFlags) && a in table && b in table && a.key == b.key
    ensures a == b
  {
  }

  /** In a cell's row every COALESCEd key column is the cell's own, NULL or not. */
  lemma CellColumn(db: Db, n: nat, k: CellKey, col: Column)
    requires n <= |db.ctes| && IsCell(db, n, k)
    requires col.Key? ==> col.i < |k.keys|
    requires col.Flag? ==> col.i < |k.flags|
    ensures Coalesce(ColumnsOf(ClusterRows(db, n, k), col)) == if col.Key? then k.keys[col.i] else k.flags[col.i]
  {
    var vs := ColumnsOf(ClusterRows(db, n, k), col);
    var v := if col.Key? then k.keys[col.i] else k.flags[col.i];
    var j :| 0 <= j < n && HasKey(db.ctes[j], k);
    assert ClusterRows(db, n, k)[j] == RowAt(db.ctes[j], k);
    assert vs[j] == v;
    forall i | 0 <= i < |vs|
      ensures vs[i] == v || vs[i] == Null
    {
      assert ClusterRows(db, n, k)[i] == RowAt(db.ctes[i], k);
    }
    CoalesceOf(vs, v);
  }

  /** The stitch condition pairs a cell with exactly the rows of its own key. */
  lemma OnlyOwnKey(db: Db, n: nat, k: CellKey, contexts: seq<Option<CteRow>>, r: CteRow, numKeys: nat, numFlags: nat)
    requires n <= |db.ctes| && IsCell(db, n, k)
    requires |k.keys| == |r.key.keys| == numKeys && |k.flags| == |r.key.flags| == numFlags
    ensures On(AllConds(n, numKeys, numFlags), Wide(ClusterRows(db, n, k), contexts), r) <==> r.key == k
  {
    var w, conds := Wide(ClusterRows(db, n, k), contexts), AllConds(n, numKeys, numFlags);
    assert w.ctes[..n] == w.ctes;
    forall i | 0 <= i < numKeys
      ensures RefValue(w, ColRef(n, Key(i))) == k.keys[i]
      ensures Same(ColRef(n, Key(i)), Key(i)) in conds
    {
      CellColumn(db, n, k, Key(i));
      assert conds[i] == Same(ColRef(n, Key(i)), Key(i));
    }
    forall i | 0 <= i < numFlags
      ensures RefValue(w, ColRef(n, Flag(i))) == k.flags[i]
      ensures Same(ColRef(n, Flag(i)), Flag(i)) in conds
    {
      CellColumn(db, n, k, Flag(i));
      assert conds[numKeys + i] == Same(ColRef(n, Flag(i)), Flag(i));
    }
    if On(conds, w, r) {
      forall i | 0 <= i < numKeys
        ensures k.keys[i] == r.key.keys[i]
      {
        assert Same(ColRef(n, Key(i)), Key(i)) in conds;
      }
      forall i | 0 <= i < numFlags
        ensures k.flags[i] == r.key.flags[i]
      {
        assert Same(ColRef(n, Flag(i)), Flag(i)) in conds;
      }
      assert k.keys == r.key.keys && k.flags == r.key.flags;
    }
    if r.key == k {
      forall c | c in conds
        ensures RefValue(w, c.left) == ColumnOf(Some(r), c.col)
      {
        var i :| 0 <= i < |conds| && conds[i] == c;
      }
    }
  }

  ghost predicate Shaped(db: Db, n: nat, numKeys: nat, numFlags: nat) {
    n <= |db.ctes| && forall j :: 0 <= j < n ==> Grouped(db.ctes[j], numKeys, numFlags)
  }

  lemma CellIsShaped(db: Db, n: nat, k: CellKey, numKeys: nat, numFlags: nat)
    requires Shaped(db, n, numKeys, numFlags) && IsCell(db, n, k)
    ensures |k.keys| == numKeys && |k.flags| == numFlags
  {
  }

  lemma MoreClusterRows(db: Db, n: nat, k: CellKey)
    requires n < |db.ctes|
    ensures ClusterRows(db, n + 1, k) == ClusterRows(db, n, k) + [RowAt(db.ctes[n], k)]
  {
  }

  /** A left row with the one partner a key allows, or with none. */
  lemma OnePartner(w: Wide, table: seq<CteRow>, conds: seq<Cond>, add: (Wide, Option<CteRow>) -> Wide,
    k: CellKey, numKeys: nat, numFlags: nat)
    requires Grouped(table, numKeys, numFlags)
    requires forall r :: r in table ==> (On(conds, w, r) <==> r.key == k)
    ensures LeftRows(w, table, conds, add) == [add(w, RowAt(table, k))]
  {
    SelectByKey(table, k, r => On(conds, w, r), numKeys, numFlags);
    var ps := Partners(conds, w, table);
    if ps != [] {
      assert ps[..0] == [];
      assert Pairs(w, ps, add) == [add(w, Some(ps[0]))];
    }
  }

  lemma LeftCells(db: Db, n: nat, keys: seq<CellKey>, numKeys: nat, numFlags: nat)
    requires 0 < n < |db.ctes| && Shaped(db, n + 1, numKeys, numFlags)
    requires forall k :: k in keys ==> IsCell(db, n, k)
    ensures LeftPart(CellRows(db, n, keys), db.ctes[n], AllConds(n, numKeys, numFlags), WithCte) == CellRows(db, n + 1, keys)
  {
    hide On, IsCell, AllConds, LeftRows, ClusterRows;
    var rows, table, conds := CellRows(db, n, keys), db.ctes[n], AllConds(n, numKeys, numFlags);
    if keys != [] {
      var front, k := keys[..|keys| - 1], keys[|keys| - 1];
      LeftCells(db, n, front, numKeys, numFlags);
      assert rows[..|rows| - 1] == CellRows(db, n, front);
      var w := Wide(ClusterRows(db, n, k), []);
      assert k in keys;
      CellIsShaped(db, n, k, numKeys, numFlags);
      forall r | r in table
        ensures On(conds, w, r) <==> r.key == k
      {
        OnlyOwnKey(db, n, k, [], r, numKeys, numFlags);
      }
      OnePartner(w, table, conds, WithCte, k, numKeys, numFlags);
      MoreClusterRows(db, n, k);
      assert CellRows(db, n + 1, keys) == CellRows(db, n + 1, front) + [Wide(ClusterRows(db, n + 1, k), [])];
    }
  }

  /** The keys that only the new cluster has. */
  ghost function NewKeys(db: Db, n: nat, table: seq<CteRow>): seq<CellKey>
    requires n <= |db.ctes|
  {
    if table == [] then [] else
    var rest := NewKeys(db, n, table[..|table| - 1]);
    if IsCell(db, n, table[|table| - 1].key) then rest else rest + [table[|table| - 1].key]
  }

  lemma NewKeysAre(db: Db, n: nat, table: seq<CteRow>, numKeys: nat, numFlags: nat)
    requires n <= |db.ctes| && Grouped(table, numKeys, numFlags)
    ensures forall k :: k in NewKeys(db, n, table) <==> HasKey(table, k) && !IsCell(db, n, k)
    ensures Distinct(NewKeys(db, n, table))
  {
  }

  lemma RightCells(db: Db, n: nat, keys: seq<CellKey>, m: nat, numKeys: nat, numFlags: nat)
    requires 0 < n < |db.ctes| && Shaped(db, n + 1, numKeys, numFlags)
    requires AllCells(db, n, keys) && m <= |db.ctes[n]|
    ensures RightPart(CellRows(db, n, keys), db.ctes[n][..m], AllConds(n, numKeys, numFlags), n)
         == CellRows(db, n + 1, NewKeys(db, n, db.ctes[n][..m]))
  {
    if m > 0 {
      var table, conds, rows := db.ctes[n][..m], AllConds(n, numKeys, numFlags), CellRows(db, n, keys);
      var r := table[m - 1];
      RightCells(db, n, keys, m - 1, numKeys, numFlags);
      assert table[..m - 1] == db.ctes[n][..m - 1];
      assert Unpaired(rows, r, conds) <==> !IsCell(db, n, r.key) by {
        forall i | 0 <= i < |keys|
          ensures On(conds, rows[i], r) <==> r.key == keys[i]
        {
          assert keys[i] in keys;
          CellIsShaped(db, n, keys[i], numKeys, numFlags);
          OnlyOwnKey(db, n, keys[i], [], r, numKeys, numFlags);
        }
        if IsCell(db, n, r.key) {
          var i :| 0 <= i < |keys| && keys[i] == r.key;
          assert rows[i] in rows;
        }
      }
      if !IsCell(db, n, r.key) {
        NullLeft(db, n, r, numKeys, numFlags);
        var ks := NewKeys(db, n, db.ctes[n][..m - 1]);
        assert CellRows(db, n + 1, ks + [r.key]) == CellRows(db, n + 1, ks) + [Wide(ClusterRows(db, n + 1, r.key), [])];
      }
    }
  }

  lemma NullLeft(db: Db, n: nat, r: CteRow, numKeys: nat, numFlags: nat)
    requires n < |db.ctes| && Shaped(db, n + 1, numKeys, numFlags) && r in db.ctes[n] && !IsCell(db, n, r.key)
    ensures ClusterRows(db, n + 1, r.key) == seq(n, _ => None) + [Some(r)]
  {
  }

  lemma FirstCluster(db: Db, numKeys: nat, numFlags: nat) returns (keys: seq<CellKey>)
    requires Shaped(db, 1, numKeys, numFlags)
    ensures AllCells(db, 1, keys) && Eval(Base, db) == CellRows(db, 1, keys)
  {
    var table := db.ctes[0];
    keys := seq(|table|, i requires 0 <= i < |table| => table[i].key);
    forall k
      ensures k in keys <==> IsCell(db, 1, k)
    {
      if HasKey(table, k) {
        var i :| 0 <= i < |table| && table[i].key == k;
        assert keys[i] == k;
      }
    }
    forall i | 0 <= i < |table|
      ensures ClusterRows(db, 1, keys[i]) == [Some(table[i])]
    {
      assert HasKey(table, keys[i]);
      SameRow(table, table[i], RowAt(table, keys[i]).value, numKeys, numFlags);
    }
  }

  lemma OneMoreCluster(db: Db, n: nat, before: seq<CellKey>, added: seq<CellKey>)
    requires n < |db.ctes| && AllCells(db, n, before) && Distinct(added)
    requires forall k :: k in added <==> HasKey(db.ctes[n], k) && !IsCell(db, n, k)
    ensures AllCells(db, n + 1, before + added)
  {
    forall k
      ensures IsCell(db, n + 1, k) <==> IsCell(db, n, k) || HasKey(db.ctes[n], k)
    {
      if j :| 0 <= j < n && HasKey(db.ctes[j], k) {
        assert IsCell(db, n + 1, k);
      }
    }
    assert forall i :: 0 <= i < |added| ==> added[i] in added;
    assert forall i :: 0 <= i < |before| ==> before[i] in before;
  }

  /** n stitched clusters give exactly one row per cell of their union. */
  lemma StitchedClusters(db: Db, n: nat, numKeys: nat, numFlags: nat) returns (keys: seq<CellKey>)
    requires n > 0 && Shaped(db, n, numKeys, numFlags)
    ensures AllCells(db, n, keys)
    ensures Eval(StitchClusters(n, numKeys, numFlags), db) == CellRows(db, n, keys)
  {
    hide IsCell, HasKey, AllConds, ClusterRows, LeftPart, RightPart, NewKeys;
    if n == 1 {
      keys := FirstCluster(db, numKeys, numFlags);
    } else {
      var before := StitchedClusters(db, n - 1, numKeys, numFlags);
      var table := db.ctes[n - 1];
      LeftCells(db, n - 1, before, numKeys, numFlags);
      RightCells(db, n - 1, before, |table|, numKeys, numFlags);
      assert table[..|table|] == table;
      var added := NewKeys(db, n - 1, table);
      NewKeysAre(db, n - 1, table, numKeys, numFlags);
      OneMoreCluster(db, n - 1, before, added);
      keys := before + added;
      assert CellRows(db, n, keys) == CellRows(db, n, before) + CellRows(db, n, added);
    }
  }

  // ---- the context joins ----

  /** The cell's key as a context CTE knows it: the carried columns, and nothing else. */
  function Carried(k: CellKey, idxs: seq<nat>): CellKey {
    CellKey(seq(|k.keys|, i requires 0 <= i < |k.keys| => if i in idxs then k.keys[i] else Null), [])
  }

  ghost predicate Carries(table: seq<CteRow>, numKeys: nat, idxs: seq<nat>) {
    && Grouped(table, numKeys, 0)
    && (forall i :: 0 <= i < |idxs| ==> idxs[i] < numKeys)
    && forall r :: r in table ==> r.key == Carried(r.key, idxs)
  }

  lemma ContextCondsAre(upTo: nat, idxs: seq<nat>)
    ensures forall c :: c in ContextConds(upTo, idxs) <==> exists i :: i in idxs && c == Same(ColRef(upTo, Key(i)), Key(i))
  {
  }

  lemma CellRef(db: Db, n: nat, k: CellKey, contexts: seq<Option<CteRow>>, i: nat)
    requires n <= |db.ctes| && IsCell(db, n, k) && i < |k.keys|
    ensures RefValue(Wide(ClusterRows(db, n, k), contexts), ColRef(n, Key(i))) == k.keys[i]
  {
    var w := Wide(ClusterRows(db, n, k), contexts);
    assert w.ctes[..n] == w.ctes;
    CellColumn(db, n, k, Key(i));
  }

  lemma ContextOn(db: Db, n: nat, k: CellKey, contexts: seq<Option<CteRow>>, r: CteRow, idxs: seq<nat>)
    requires n <= |db.ctes| && IsCell(db, n, k) && |k.keys| == |r.key.keys|
    requires forall i :: i in idxs ==> i < |k.keys|
    ensures On(ContextConds(n, idxs), Wide(ClusterRows(db, n, k), contexts), r)
      <==> forall i :: i in idxs ==> k.keys[i] == r.key.keys[i]
  {
    hide IsCell, ClusterRows, ContextConds, RefValue;
    var w, conds := Wide(ClusterRows(db, n, k), contexts), ContextConds(n, idxs);
    ContextCondsAre(n, idxs);
    forall i | i in idxs
      ensures RefValue(w, ColRef(n, Key(i))) == k.keys[i] && Same(ColRef(n, Key(i)), Key(i)) in conds
      ensures ColumnOf(Some(r), Key(i)) == r.key.keys[i]
    {
      CellRef(db, n, k, contexts, i);
    }
    if On(conds, w, r) {
      forall i | i in idxs
        ensures k.keys[i] == r.key.keys[i]
      {
        assert Same(ColRef(n, Key(i)), Key(i)) in conds;
      }
    }
  }

  /** A context row pairs with a cell exactly when it has the cell's carried key. */
  lemma OnlyCarriedKey(db: Db, n: nat, k: CellKey, contexts: seq<Option<CteRow>>, r: CteRow,
    idxs: seq<nat>, table: seq<CteRow>, numKeys: nat)
    requires n <= |db.ctes| && IsCell(db, n, k) && |k.keys| == numKeys
    requires Carries(table, numKeys, idxs) && r in table
    ensures On(ContextConds(n, idxs), Wide(ClusterRows(db, n, k), contexts), r) <==> r.key == Carried(k, idxs)
  {
    hide IsCell, ClusterRows, ContextConds, On;
    ContextOn(db, n, k, contexts, r, idxs);
    assert r.key == Carried(r.key, idxs);
    var own := Carried(k, idxs).keys;
    forall i | 0 <= i < numKeys
      ensures r.key.keys[i] == own[i] <==> i in idxs ==> r.key.keys[i] == k.keys[i]
    {
      assert r.key.keys[i] == Carried(r.key, idxs).keys[i];
    }
    if forall i :: i in idxs ==> k.keys[i] == r.key.keys[i] {
      assert r.key.keys == own;
    } else {
      var i :| i in idxs && k.keys[i] != r.key.keys[i];
      assert r.key.keys[i] != own[i];
    }
  }

  ghost function ContextRows(db: Db, keyIdxs: seq<seq<nat>>, k: CellKey): seq<Option<CteRow>>
    requires |keyIdxs| <= |db.contexts|
  {
    seq(|keyIdxs|, c requires 0 <= c < |keyIdxs| => RowAt(db.contexts[c], Carried(k, keyIdxs[c])))
  }

  ghost function FullRows(db: Db, n: nat, keyIdxs: seq<seq<nat>>, keys: seq<CellKey>): seq<Wide>
    requires n <= |db.ctes| && |keyIdxs| <= |db.contexts|
  {
    seq(|keys|, i requires 0 <= i < |keys| => Wide(ClusterRows(db, n, keys[i]), ContextRows(db, keyIdxs, keys[i])))
  }

  ghost predicate ContextsShaped(db: Db, keyIdxs: seq<seq<nat>>, numKeys: nat) {
    |keyIdxs| <= |db.contexts| && forall c :: 0 <= c < |keyIdxs| ==> Carries(db.contexts[c], numKeys, keyIdxs[c])
  }

  lemma OneMoreContext(db: Db, n: nat, keyIdxs: seq<seq<nat>>, keys: seq<CellKey>, numKeys: nat)
    requires n <= |db.ctes| && keyIdxs != [] && ContextsShaped(db, keyIdxs, numKeys)
    requires forall k :: k in keys ==> IsCell(db, n, k) && |k.keys| == numKeys
    ensures var c := |keyIdxs| - 1;
      LeftPart(FullRows(db, n, keyIdxs[..c], keys), db.contexts[c], ContextConds(n, keyIdxs[c]), WithContext)
        == FullRows(db, n, keyIdxs, keys)
    decreases |keys|
  {
    hide On, IsCell, LeftRows, ClusterRows, ContextConds, Carries;
    var c := |keyIdxs| - 1;
    var rows, table, conds := FullRows(db, n, keyIdxs[..c], keys), db.contexts[c], ContextConds(n, keyIdxs[c]);
    if keys != [] {
      var front, k := keys[..|keys| - 1], keys[|keys| - 1];
      OneMoreContext(db, n, keyIdxs, front, numKeys);
      assert rows[..|rows| - 1] == FullRows(db, n, keyIdxs[..c], front);
      var w := Wide(ClusterRows(db, n, k), ContextRows(db, keyIdxs[..c], k));
      assert k in keys;
      forall r | r in table
        ensures On(conds, w, r) <==> r.key == Carried(k, keyIdxs[c])
      {
        OnlyCarriedKey(db, n, k, w.contexts, r, keyIdxs[c], table, numKeys);
      }
      assert Grouped(table, numKeys, 0) by { CarriesGrouped(table, numKeys, keyIdxs[c]); }
      OnePartner(w, table, conds, WithContext, Carried(k, keyIdxs[c]), numKeys, 0);
      assert ContextRows(db, keyIdxs, k) == ContextRows(db, keyIdxs[..c], k) + [RowAt(table, Carried(k, keyIdxs[c]))];
      assert FullRows(db, n, keyIdxs, keys)
        == FullRows(db, n, keyIdxs, front) + [Wide(ClusterRows(db, n, k), ContextRows(db, keyIdxs, k))];
    }
  }

  lemma CarriesGrouped(table: seq<CteRow>, numKeys: nat, idxs: seq<nat>)
    requires Carries(table, numKeys, idxs)
    ensures Grouped(table, numKeys, 0)
  {
  }

  lemma StitchedContexts(db: Db, n: nat, keyIdxs: seq<seq<nat>>, keys: seq<CellKey>, numKeys: nat, from: From)
    requires n <= |db.ctes| && ContextsShaped(db, keyIdxs, numKeys)
    requires forall k :: k in keys ==> IsCell(db, n, k) && |k.keys| == numKeys
    requires Eval(from, db) == CellRows(db, n, keys)
    ensures Eval(StitchContexts(from, n, keyIdxs), db) == FullRows(db, n, keyIdxs, keys)
  {
    hide IsCell, ClusterRows, LeftPart, ContextConds, Carries;
    if keyIdxs == [] {
      assert forall k :: ContextRows(db, keyIdxs, k) == [];
      assert CellRows(db, n, keys) == FullRows(db, n, keyIdxs, keys);
    } else {
      var c := |keyIdxs| - 1;
      StitchedContexts(db, n, keyIdxs[..c], keys, numKeys, from);
      OneMoreContext(db, n, keyIdxs, keys, numKeys);
    }
  }

  /** The whole stitch: one row per cell of the clusters, none added or dropped by the contexts,
    * each cluster's row the one of the cell, each context's row the one of the carried keys. */
  lemma StitchIsExact(db: Db, n: nat, keyIdxs: seq<seq<nat>>, numKeys: nat, numFlags: nat) returns (keys: seq<CellKey>)
    requires n > 0 && Shaped(db, n, numKeys, numFlags) && ContextsShaped(db, keyIdxs, numKeys)
    ensures AllCells(db, n, keys)
    ensures Eval(StitchContexts(StitchClusters(n, numKeys, numFlags), n, keyIdxs), db) == FullRows(db, n, keyIdxs, keys)
  {
    keys := StitchedClusters(db, n, numKeys, numFlags);
    forall k | k in keys
      ensures |k.keys| == numKeys
    {
      CellIsShaped(db, n, k, numKeys, numFlags);
    }
    StitchedContexts(db, n, keyIdxs, keys, numKeys, StitchClusters(n, numKeys, numFlags));
  }

  /** Without keys and clusters, single-row contexts give a single row. */
  lemma ContextsAlone(db: Db, n: nat)
    requires 0 < n <= |db.contexts| && forall c :: 0 <= c < n ==> |db.contexts[c]| == 1
    ensures Eval(ContextsOnly(n), db) == [Wide([], seq(n, c requires 0 <= c < n => Some(db.contexts[c][0])))]
  {
    hide LeftPart, LeftRows, RightPart;
    var single := seq(n, c requires 0 <= c < n => Some(db.contexts[c][0]));
    if n == 1 {
      assert |db.contexts[0]| == 1;
      assert single == [Some(db.contexts[0][0])];
    } else {
      ContextsAlone(db, n - 1);
      var r := db.contexts[n - 1][0];
      assert db.contexts[n - 1] == [r];
      JoinSingle(Wide([], seq(n - 1, c requires 0 <= c < n - 1 => Some(db.contexts[c][0]))), r);
      assert single == seq(n - 1, c requires 0 <= c < n - 1 => Some(db.contexts[c][0])) + [Some(r)];
    }
  }

  lemma JoinSingle(w: Wide, r: CteRow)
    ensures LeftPart([w], [r], [], WithContext) == [WithContext(w, Some(r))]
  {
    assert On([], w, r);
    SelectOne(r, x => On([], w, x));
    assert [r][..0] == [] && [w][..0] == [];
    assert LeftRows(w, [r], [], WithContext) == Pairs(w, [r], WithContext);
  }
}
