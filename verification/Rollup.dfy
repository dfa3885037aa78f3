/** ROLLUPADDISSUBTOTAL: grouping sets for every prefix of the rollup elements, told apart by
  * their GROUPING flags.  Grouping sets follow section 7.9 of ISO/IEC 9075-2:2003. */
module Rollup {
  import opened Relational
  import opened Stitch

  type Col = nat
  type Row = map<Col, Value>

  function Get(row: Row, c: Col): Value {
    if c in row then row[c] else Null
  }

  /** A rollup unit: one column, or a ROLLUPGROUP of several. */
  datatype Element = Element(cols: seq<Col>)

  function ColsOf(elems: seq<Element>): seq<Col> {
    if elems == [] then [] else ColsOf(elems[..|elems| - 1]) + elems[|elems| - 1].cols
  }

  /** The grouping set of level k: the plain columns and the first k elements. */
  function Level(plain: seq<Col>, elems: seq<Element>, k: nat): seq<Col>
    requires k <= |elems|
  {
    plain + ColsOf(elems[..k])
  }

  /** Detail level first, the plain columns alone last. */
  method RollupGroupingSets(plain: seq<Col>, elems: seq<Element>) returns (sets: seq<seq<Col>>)
    ensures sets == seq(|elems| + 1, j requires 0 <= j <= |elems| => Level(plain, elems, |elems| - j))
  {
    sets := [];
    var k: int := |elems|;
    while k >= 0
      invariant -1 <= k <= |elems|
      invariant sets == seq(|elems| - k, j requires 0 <= j < |elems| - k => Level(plain, elems, |elems| - j))
    {
      var cur := plain;
      for i := 0 to k
        invariant cur == Level(plain, elems, i)
      {
        assert elems[..i + 1][..i] == elems[..i];
        cur := cur + elems[i].cols;
      }
      sets := sets + [cur];
      k := k - 1;
    }
  }

  // ---- the rows the grouping sets produce ----

  /** The output columns: those outside the set are NULL. */
  function Masked(row: Row, out: seq<Col>, level: seq<Col>): seq<Value> {
    seq(|out|, i requires 0 <= i < |out| => if out[i] in level then Get(row, out[i]) else Null)
  }

  /** GROUPING of an element's first column: 0 inside the set, 1 outside. */
  function Flags(elems: seq<Element>, level: seq<Col>): (flags: seq<Value>)
    requires forall g :: 0 <= g < |elems| ==> elems[g].cols != []
    ensures |flags| == |elems|
  {
    seq(|elems|, g requires 0 <= g < |elems| => if elems[g].cols[0] in level then Val(0) else Val(1))
  }

  predicate WellFormed(elems: seq<Element>) {
    forall g :: 0 <= g < |elems| ==> elems[g].cols != []
  }

  /** The groups of one level.  The empty set always has one group. */
  ghost function LevelKeys(rows: seq<Row>, out: seq<Col>, elems: seq<Element>, level: seq<Col>): seq<CellKey>
    requires WellFormed(elems)
  {
    if level == [] then [CellKey(Masked(map[], out, []), Flags(elems, []))]
    else KeysOf(rows, (row: Row) => CellKey(Masked(row, out, level), Flags(elems, level)))
  }

  /** The keys of the rollup's first n levels from the plain columns up; the order is immaterial. */
  ghost function RollupKeys(rows: seq<Row>, plain: seq<Col>, elems: seq<Element>, n: nat): seq<CellKey>
    requires WellFormed(elems) && n <= |elems| + 1
  {
    if n == 0 then [] else
    RollupKeys(rows, plain, elems, n - 1) + LevelKeys(rows, plain + ColsOf(elems), elems, Level(plain, elems, n - 1))
  }

  ghost function AllKeys(rows: seq<Row>, plain: seq<Col>, elems: seq<Element>): seq<CellKey>
    requires WellFormed(elems)
  {
    RollupKeys(rows, plain, elems, |elems| + 1)
  }

  ghost predicate DistinctKeys(keys: seq<CellKey>) {
    forall i, j :: 0 <= i < j < |keys| ==> keys[i] != keys[j]
  }

  /** Each element brings in the first column of some element for the first time. */
  predicate Distinguishes(plain: seq<Col>, elems: seq<Element>)
    requires WellFormed(elems)
  {
    forall k :: 0 <= k < |elems| ==> Shows(plain, elems, k)
  }

  predicate Shows(plain: seq<Col>, elems: seq<Element>, k: nat)
    requires WellFormed(elems) && k < |elems|
  {
    exists g :: 0 <= g < |elems| && elems[g].cols[0] in elems[k].cols && elems[g].cols[0] !in Level(plain, elems, k)
  }

  lemma LevelsNest(plain: seq<Col>, elems: seq<Element>, k: nat, l: nat, c: Col)
    requires k <= l <= |elems| && c in Level(plain, elems, k)
    ensures c in Level(plain, elems, l)
  {
    if k < l {
      LevelsNest(plain, elems, k, l - 1, c);
      assert elems[..l][..l - 1] == elems[..l - 1];
    }
  }

  lemma LevelGrows(plain: seq<Col>, elems: seq<Element>, k: nat)
    requires k < |elems|
    ensures forall c :: c in Level(plain, elems, k + 1) <==> c in Level(plain, elems, k) || c in elems[k].cols
  {
    assert elems[..k + 1][..k] == elems[..k];
  }

  /** Two levels of a distinguishing rollup never show the same flags. */
  lemma LevelsDiffer(plain: seq<Col>, elems: seq<Element>, k: nat, l: nat)
    requires WellFormed(elems) && Distinguishes(plain, elems) && k < l <= |elems|
    ensures Flags(elems, Level(plain, elems, k)) != Flags(elems, Level(plain, elems, l))
  {
    assert Shows(plain, elems, k);
    var g :| 0 <= g < |elems| && elems[g].cols[0] in elems[k].cols && elems[g].cols[0] !in Level(plain, elems, k);
    LevelGrows(plain, elems, k);
    LevelsNest(plain, elems, k + 1, l, elems[g].cols[0]);
    assert Flags(elems, Level(plain, elems, k))[g] == Val(1);
    assert Flags(elems, Level(plain, elems, l))[g] == Val(0);
  }

  lemma LevelKeysAre(rows: seq<Row>, out: seq<Col>, elems: seq<Element>, level: seq<Col>)
    requires WellFormed(elems)
    ensures DistinctKeys(LevelKeys(rows, out, elems, level))
    ensures forall k :: k in LevelKeys(rows, out, elems, level) ==> k.flags == Flags(elems, level) && |k.keys| == |out|
  {
    KeysOfIsExact(rows, (row: Row) => CellKey(Masked(row, out, level), Flags(elems, level)));
  }

  lemma RollupFlags(rows: seq<Row>, plain: seq<Col>, elems: seq<Element>, n: nat, k: CellKey)
    requires WellFormed(elems) && n <= |elems| + 1 && k in RollupKeys(rows, plain, elems, n)
    ensures exists l: nat :: l < n && k.flags == Flags(elems, Level(plain, elems, l))
    ensures |k.keys| == |plain + ColsOf(elems)| && |k.flags| == |elems|
  {
    hide LevelKeys;
    LevelKeysAre(rows, plain + ColsOf(elems), elems, Level(plain, elems, n - 1));
    if k in RollupKeys(rows, plain, elems, n - 1) {
      RollupFlags(rows, plain, elems, n - 1, k);
    }
  }

  lemma DistinctRollup(rows: seq<Row>, plain: seq<Col>, elems: seq<Element>, n: nat)
    requires WellFormed(elems) && Distinguishes(plain, elems) && n <= |elems| + 1
    ensures DistinctKeys(RollupKeys(rows, plain, elems, n))
  {
    hide LevelKeys, Level, Flags, Distinguishes;
    if n > 0 {
      var before := RollupKeys(rows, plain, elems, n - 1);
      var last := LevelKeys(rows, plain + ColsOf(elems), elems, Level(plain, elems, n - 1));
      DistinctRollup(rows, plain, elems, n - 1);
      LevelKeysAre(rows, plain + ColsOf(elems), elems, Level(plain, elems, n - 1));
      forall i, j | 0 <= i < |before| && 0 <= j < |last|
        ensures before[i] != last[j]
      {
        assert before[i] in before && last[j] in last;
        RollupFlags(rows, plain, elems, n - 1, before[i]);
        var l: nat :| l < n - 1 && before[i].flags == Flags(elems, Level(plain, elems, l));
        LevelsDiffer(plain, elems, l, n - 1);
      }
    }
  }

  lemma UnshownLevels(plain: seq<Col>, elems: seq<Element>, k: nat)
    requires WellFormed(elems) && k < |elems| && !Shows(plain, elems, k)
    ensures Flags(elems, Level(plain, elems, k)) == Flags(elems, Level(plain, elems, k + 1))
  {
    LevelGrows(plain, elems, k);
    hide Level;
    assert forall g :: 0 <= g < |elems| && elems[g].cols[0] in elems[k].cols ==> elems[g].cols[0] in Level(plain, elems, k);
  }

  /** One row of NULLs shows the trouble: two levels with the same flags give it the same key. */
  lemma Collision(plain: seq<Col>, elems: seq<Element>, k: nat)
    requires WellFormed(elems) && k < |elems| && !Shows(plain, elems, k)
    ensures !DistinctKeys(AllKeys([map[]], plain, elems))
  {
    hide RollupKeys, Level, Flags, Shows, ColsOf;
    UnshownLevels(plain, elems, k);
    var i := LevelPosition([map[]], plain, elems, |elems| + 1, k);
    var j := LevelPosition([map[]], plain, elems, |elems| + 1, k + 1);
  }

  lemma NullKey(out: seq<Col>, elems: seq<Element>, level: seq<Col>)
    requires WellFormed(elems)
    ensures LevelKeys([map[]], out, elems, level) == [CellKey(seq(|out|, _ => Null), Flags(elems, level))]
  {
    var rows: seq<Row> := [map[]];
    assert rows[..0] == [];
    assert Masked(map[], out, level) == seq(|out|, _ => Null);
    assert Masked(map[], out, []) == seq(|out|, _ => Null);
  }

  /** Where level l's group sits when every level has one. */
  lemma LevelPosition(rows: seq<Row>, plain: seq<Col>, elems: seq<Element>, n: nat, l: nat) returns (i: nat)
    requires WellFormed(elems) && l < n <= |elems| + 1 && rows == [map[]]
    ensures i == l && i < |RollupKeys(rows, plain, elems, n)| == n
    ensures RollupKeys(rows, plain, elems, n)[i]
      == CellKey(seq(|plain + ColsOf(elems)|, _ => Null), Flags(elems, Level(plain, elems, l)))
  {
    NullKey(plain + ColsOf(elems), elems, Level(plain, elems, n - 1));
    if n > 1 {
      i := LevelPosition(rows, plain, elems, n - 1, if l < n - 1 then l else 0);
    }
    i := l;
  }

  /** Keys and flags identify the rows of a rollup, whatever the data, exactly when every element
    * brings in some element's first column anew. */
  lemma RollupKeysUnique(plain: seq<Col>, elems: seq<Element>)
    requires WellFormed(elems)
    ensures (forall rows: seq<Row> :: DistinctKeys(AllKeys(rows, plain, elems))) <==> Distinguishes(plain, elems)
  {
    if Distinguishes(plain, elems) {
      forall rows: seq<Row>
        ensures DistinctKeys(AllKeys(rows, plain, elems))
      {
        DistinctRollup(rows, plain, elems, |elems| + 1);
      }
    } else {
      var k :| 0 <= k < |elems| && !Shows(plain, elems, k);
      Collision(plain, elems, k);
    }
  }

  ghost predicate AllDistinct(cols: seq<Col>) {
    forall i, j :: 0 <= i < j < |cols| ==> cols[i] != cols[j]
  }

  lemma ColsOfPrefix(elems: seq<Element>, k: nat, l: nat)
    requires k < l <= |elems|
    ensures ColsOf(elems[..k]) + elems[k].cols <= ColsOf(elems[..l])
  {
    if k == l - 1 {
      assert elems[..l][..k] == elems[..k];
    } else {
      ColsOfPrefix(elems, k, l - 1);
      ColsOfStep(elems, l - 1);
    }
  }

  lemma ColsOfStep(elems: seq<Element>, k: nat)
    requires k < |elems|
    ensures ColsOf(elems[..k]) <= ColsOf(elems[..k + 1])
  {
    assert elems[..k + 1][..k] == elems[..k];
  }

  /** Rolling up distinct columns, as the query language means it, is enough. */
  lemma DistinctColumnsSuffice(plain: seq<Col>, elems: seq<Element>)
    requires WellFormed(elems) && AllDistinct(plain + ColsOf(elems))
    ensures Distinguishes(plain, elems)
  {
    forall k | 0 <= k < |elems|
      ensures Shows(plain, elems, k)
    {
      ColsOfPrefix(elems, k, |elems|);
      assert elems[..|elems|] == elems;
      var all, c := plain + ColsOf(elems), elems[k].cols[0];
      var level := Level(plain, elems, k);
      assert level + elems[k].cols <= all;
      assert all[|level|] == c;
      forall i | 0 <= i < |level|
        ensures level[i] != c
      {
        assert level[i] == all[i];
      }
      assert elems[k].cols[0] in elems[k].cols;
    }
  }

  /** A rolled-up CTE over distinct columns satisfies what the stitch asks of its clusters. */
  lemma RollupIsGrouped(rows: seq<Row>, plain: seq<Col>, elems: seq<Element>, table: seq<CteRow>)
    requires WellFormed(elems) && AllDistinct(plain + ColsOf(elems))
    requires |table| == |AllKeys(rows, plain, elems)|
    requires forall i :: 0 <= i < |table| ==> table[i].key == AllKeys(rows, plain, elems)[i]
    ensures Grouped(table, |plain + ColsOf(elems)|, |elems|)
  {
    var keys := AllKeys(rows, plain, elems);
    DistinctColumnsSuffice(plain, elems);
    DistinctRollup(rows, plain, elems, |elems| + 1);
    forall i | 0 <= i < |table|
      ensures |table[i].key.keys| == |plain + ColsOf(elems)| && |table[i].key.flags| == |elems|
    {
      assert keys[i] in keys;
      RollupFlags(rows, plain, elems, |elems| + 1, keys[i]);
    }
  }

  /** Equal flags mean the same level: a subtotal row pairs with no other level of any cluster. */
  lemma FlagsTellLevel(plain: seq<Col>, elems: seq<Element>, k: nat, l: nat)
    requires WellFormed(elems) && Distinguishes(plain, elems) && k <= |elems| && l <= |elems|
    ensures Flags(elems, Level(plain, elems, k)) == Flags(elems, Level(plain, elems, l)) <==> k == l
  {
    if k < l {
      LevelsDiffer(plain, elems, k, l);
    } else if l < k {
      LevelsDiffer(plain, elems, l, k);
    }
  }

  /** Over distinct columns an element's flag is 1 exactly where it is rolled up, and then so are all that
    * follow it. */
  lemma FlagIsSubtotal(plain: seq<Col>, elems: seq<Element>, k: nat, g: nat)
    requires WellFormed(elems) && AllDistinct(plain + ColsOf(elems)) && k <= |elems| && g < |elems|
    ensures Flags(elems, Level(plain, elems, k))[g] == if g >= k then Val(1) else Val(0)
  {
    var first := elems[g].cols[0];
    ColsOfPrefix(elems, g, |elems|);
    assert elems[..|elems|] == elems;
    if g < k {
      ColsOfPrefix(elems, g, k);
      assert (ColsOf(elems[..g]) + elems[g].cols)[|ColsOf(elems[..g])|] == first;
      assert ColsOf(elems[..k])[|ColsOf(elems[..g])|] == first;
    } else {
      LevelIsBefore(plain, elems, k, g);
    }
  }

  lemma LevelIsBefore(plain: seq<Col>, elems: seq<Element>, k: nat, g: nat)
    requires WellFormed(elems) && AllDistinct(plain + ColsOf(elems)) && k <= g < |elems|
    ensures elems[g].cols[0] !in Level(plain, elems, k)
  {
    var all, at := plain + ColsOf(elems), |plain| + |ColsOf(elems[..g])|;
    ColsOfPrefix(elems, g, |elems|);
    assert elems[..|elems|] == elems;
    assert (ColsOf(elems[..g]) + elems[g].cols)[|ColsOf(elems[..g])|] == elems[g].cols[0];
    assert all[at] == elems[g].cols[0];
    forall c | c in Level(plain, elems, k)
      ensures c != all[at]
    {
      LevelsNest(plain, elems, k, g, c);
      var level := Level(plain, elems, g);
      var i :| 0 <= i < |level| && level[i] == c;
      assert all[i] == level[i];
    }
  }

  /** Two rows fall into one group of a level exactly when they agree on the level's columns. */
  lemma SameGroupWhen(out: seq<Col>, level: seq<Col>, a: Row, b: Row)
    requires forall c :: c in level ==> c in out
    ensures Masked(a, out, level) == Masked(b, out, level) <==> forall c :: c in level ==> Get(a, c) == Get(b, c)
  {
    if Masked(a, out, level) == Masked(b, out, level) {
      forall c | c in level
        ensures Get(a, c) == Get(b, c)
      {
        var i :| 0 <= i < |out| && out[i] == c;
        assert Masked(a, out, level)[i] == Masked(b, out, level)[i];
      }
    }
  }
}
