/** Rolling up over carved chains: a subtotal drops some of the group keys a DISTINCT map carries, and
  * then counts each joined row once only if the dropped ones add no map rows. */
module Subtotals {
  import opened Relationships
  import opened Relational
  import opened JoinPath
  import opened ClusterFrom
  import opened ChainRows
  import opened FlatJoins
  import ContextCte

  // ---- the meaning ----

  /** The cell agrees with the subtotal's values on the subtotal's keys. */
  ghost predicate Agrees(keys: seq<GroupKey>, cell: seq<Value>, some: seq<GroupKey>, vals: seq<Value>)
    requires |cell| == |keys| && |vals| == |some|
  {
    forall i, j :: 0 <= i < |keys| && 0 <= j < |some| && keys[i] == some[j] ==> cell[i] == vals[j]
  }

  ghost predicate InSubtotal(q: Query, keys: seq<GroupKey>, some: seq<GroupKey>, vals: seq<Value>, o: Env)
    requires Shaped(q) && |vals| == |some|
  {
    exists cell :: |cell| == |keys| && InCell(q, keys, o, cell) && Agrees(keys, cell, some, vals)
  }

  /** The flat rows that count in one of a subtotal's cells, each once. */
  ghost function SubtotalRows(q: Query, keys: seq<GroupKey>, some: seq<GroupKey>, vals: seq<Value>): seq<Env>
    requires Shaped(q) && |vals| == |some|
  {
    Select(FlatRows(q), o => InSubtotal(q, keys, some, vals, o))
  }

  // ---- the wide rows of one flat row ----

  ghost function WidesOf(q: Query, n: nat, o: Env): seq<Wide>
    requires Shaped(q) && n <= |q.clause.selected|
  {
    if n == 0 then [Wide(o, [])] else Flat(WidesOf(q, n - 1, o), w => JoinMap(q, n - 1, w))
  }

  lemma {:induction false} WideRowsByFlat(q: Query, n: nat)
    requires Shaped(q) && n <= |q.clause.selected|
    ensures WideRows(q, n) == Flat(FlatRows(q), o => WidesOf(q, n, o))
  {
    hide FlatRows, JoinMap;
    if n == 0 {
      FlatMaybe(FlatRows(q), _ => true, o => Wide(o, []), o => WidesOf(q, 0, o));
      SelectAll(FlatRows(q), _ => true);
    } else {
      WideRowsByFlat(q, n - 1);
      FlatFlat(FlatRows(q), o => WidesOf(q, n - 1, o), w => JoinMap(q, n - 1, w), o => WidesOf(q, n, o));
    }
  }

  /** Each map of a wide row is a partner, or absent where there is none. */
  ghost predicate Partnered(q: Query, o: Env, i: nat, m: Option<MapRow>)
    requires Shaped(q) && i < |q.clause.selected|
  {
    if m.Some? then m.value in PartnersOf(q, i, o) else PartnersOf(q, i, o) == []
  }

  ghost predicate IsWide(q: Query, n: nat, o: Env, w: Wide)
    requires Shaped(q) && n <= |q.clause.selected|
  {
    w.env == o && |w.maps| == n && forall i :: 0 <= i < n ==> Partnered(q, o, i, w.maps[i])
  }

  lemma JoinMapMember(q: Query, n: nat, w: Wide, v: Wide)
    requires Shaped(q) && n < |q.clause.selected|
    ensures v in JoinMap(q, n, w) <==>
      v.env == w.env && |v.maps| == |w.maps| + 1 && v.maps[..|w.maps|] == w.maps && Partnered(q, w.env, n, v.maps[|w.maps|])
  {
    hide PartnersOf;
    var partners := PartnersOf(q, n, w.env);
    if v in JoinMap(q, n, w) && partners != [] {
      var i :| 0 <= i < |partners| && v == Wide(w.env, w.maps + [Some(partners[i])]);
    }
    if v.env == w.env && |v.maps| == |w.maps| + 1 && v.maps[..|w.maps|] == w.maps && Partnered(q, w.env, n, v.maps[|w.maps|]) {
      assert v.maps == w.maps + [v.maps[|w.maps|]];
      if partners != [] {
        var i :| 0 <= i < |partners| && v.maps[|w.maps|] == Some(partners[i]);
        assert JoinMap(q, n, w)[i] == v;
      }
    }
  }

  lemma {:induction false} WidesAre(q: Query, n: nat, o: Env, v: Wide)
    requires Shaped(q) && n <= |q.clause.selected|
    ensures v in WidesOf(q, n, o) <==> IsWide(q, n, o, v)
  {
    hide JoinMap, Partnered;
    if n > 0 {
      WidesOfMember(q, n - 1, o, v);
      hide WidesOf, IsWide;
      if v in WidesOf(q, n, o) {
        var w :| w in WidesOf(q, n - 1, o) && v in JoinMap(q, n - 1, w);
        WidesAre(q, n - 1, o, w);
        OneMorePartner(q, n - 1, o, w, v);
      }
      if IsWide(q, n, o, v) {
        var w := OnePartnerLess(q, n - 1, o, v);
        WidesAre(q, n - 1, o, w);
      }
    }
  }

  lemma WidesOfMember(q: Query, n: nat, o: Env, v: Wide)
    requires Shaped(q) && n < |q.clause.selected|
    ensures v in WidesOf(q, n + 1, o) <==> exists w :: w in WidesOf(q, n, o) && v in JoinMap(q, n, w)
  {
    hide JoinMap;
    FlatMember(WidesOf(q, n, o), w => JoinMap(q, n, w), v);
  }

  lemma OneMorePartner(q: Query, n: nat, o: Env, w: Wide, v: Wide)
    requires Shaped(q) && n < |q.clause.selected| && IsWide(q, n, o, w) && v in JoinMap(q, n, w)
    ensures IsWide(q, n + 1, o, v)
  {
    hide JoinMap, Partnered;
    JoinMapMember(q, n, w, v);
    assert forall i :: 0 <= i < n ==> v.maps[i] == v.maps[..n][i];
  }

  lemma OnePartnerLess(q: Query, n: nat, o: Env, v: Wide) returns (w: Wide)
    requires Shaped(q) && n < |q.clause.selected| && IsWide(q, n + 1, o, v)
    ensures IsWide(q, n, o, w) && v in JoinMap(q, n, w)
  {
    hide JoinMap, Partnered;
    w := Wide(o, v.maps[..n]);
    JoinMapMember(q, n, w, v);
  }

  lemma JoinMapDistinct(q: Query, n: nat, w: Wide)
    requires Shaped(q) && n < |q.clause.selected|
    ensures Distinct(JoinMap(q, n, w))
  {
    var partners := PartnersOf(q, n, w.env);
    PartnersAre(q, n, w.env);
    hide PartnersOf;
    forall i, j | 0 <= i < j < |JoinMap(q, n, w)|
      ensures JoinMap(q, n, w)[i] != JoinMap(q, n, w)[j]
    {
      assert JoinMap(q, n, w)[i].maps[|w.maps|] == Some(partners[i]) && JoinMap(q, n, w)[j].maps[|w.maps|] == Some(partners[j]);
    }
  }

  ghost predicate AllBack<X, Y>(ys: seq<Y>, back: Y -> X, x: X) {
    forall y :: y in ys ==> back(y) == x
  }

  /** Blocks that tell their element apart stay distinct. */
  lemma {:induction false} FlatDistinct<X, Y>(xs: seq<X>, f: X -> seq<Y>, back: Y -> X)
    requires Distinct(xs) && forall x :: x in xs ==> Distinct(f(x)) && AllBack(f(x), back, x)
    ensures Distinct(Flat(xs, f))
  {
    if xs != [] {
      var front, last := xs[..|xs| - 1], xs[|xs| - 1];
      assert last in xs && forall x :: x in front ==> x in xs;
      FlatDistinct(front, f, back);
      var a, b := Flat(front, f), f(last);
      forall y | y in a
        ensures y !in b
      {
        FlatMember(front, f, y);
        var x :| x in front && y in f(x);
        assert back(y) == x && x != last;
      }
      DistinctConcat(a, b);
    }
  }

  lemma DistinctConcat<T>(a: seq<T>, b: seq<T>)
    requires Distinct(a) && Distinct(b) && forall y :: y in a ==> y !in b
    ensures Distinct(a + b)
  {
    forall i, j | 0 <= i < j < |a + b|
      ensures (a + b)[i] != (a + b)[j]
    {
      if i < |a| {
        assert a[i] in a;
      }
    }
  }

  ghost function Shorter(v: Wide): Wide {
    if v.maps == [] then v else Wide(v.env, v.maps[..|v.maps| - 1])
  }

  lemma {:induction false} WidesDistinct(q: Query, n: nat, o: Env)
    requires Shaped(q) && n <= |q.clause.selected|
    ensures Distinct(WidesOf(q, n, o))
  {
    hide JoinMap, Flat;
    if n > 0 {
      WidesDistinct(q, n - 1, o);
      OneMoreDistinct(q, n - 1, WidesOf(q, n - 1, o));
    }
  }

  lemma OneMoreDistinct(q: Query, n: nat, ws: seq<Wide>)
    requires Shaped(q) && n < |q.clause.selected| && Distinct(ws)
    ensures Distinct(Flat(ws, w => JoinMap(q, n, w)))
  {
    var f, back := (w: Wide) => JoinMap(q, n, w), (v: Wide) => Shorter(v);
    hide JoinMap, Distinct, AllBack, Flat, Shaped, Shorter;
    forall w | w in ws
      ensures Distinct(f(w)) && AllBack(f(w), back, w)
    {
      JoinMapDistinct(q, n, w);
      JoinMapShorter(q, n, w, back);
    }
    FlatDistinct(ws, f, back);
    FlatSame(ws, f, w => JoinMap(q, n, w));
  }

  lemma JoinMapShorter(q: Query, n: nat, w: Wide, back: Wide -> Wide)
    requires Shaped(q) && n < |q.clause.selected| && forall v :: back(v) == Shorter(v)
    ensures AllBack(JoinMap(q, n, w), back, w)
  {
    forall v | v in JoinMap(q, n, w)
      ensures Shorter(v) == w
    {
      JoinMapMember(q, n, w, v);
    }
  }

  // ---- determined keys ----

  /** Is the column fixed by the chain's anchor column and the columns in `known`?  It is when it is one
    * of them, or when its link equates it with a fixed column. */
  ghost predicate Determined(c: Chain, known: seq<GroupKey>, steps: seq<JoinStep>, t: Table, col: Column) {
    || (t == c.anchor.table && col == c.anchor.onToCol)
    || ContextCte.GroupKey(t, col) in known
    || (steps != [] &&
         var front, last := steps[..|steps| - 1], steps[|steps| - 1];
         if last.table == t then col == last.onToCol && Determined(c, known, front, last.fromTable, last.onFromCol)
         else Determined(c, known, front, t, col))
  }

  ghost predicate SameKeys(known: seq<GroupKey>, c: Chain, e: Env, f: Env) {
    && ColOf(e, c.anchor.table, c.anchor.onToCol) == ColOf(f, c.anchor.table, c.anchor.onToCol)
    && forall k :: k in known ==> ColOf(e, k.table, k.col) == ColOf(f, k.table, k.col)
  }

  /** Two joined rows that agree on the fixing columns agree on the fixed ones. */
  lemma {:induction false} DeterminedAgrees(db: Db, c: Chain, known: seq<GroupKey>, steps: seq<JoinStep>, e: Env, f: Env, t: Table, col: Column)
    requires SameKeys(known, c, e, f) && AllLeft(db, e, steps) && AllLeft(db, f, steps)
    requires Determined(c, known, steps, t, col)
    ensures ColOf(e, t, col) == ColOf(f, t, col)
  {
    if !(t == c.anchor.table && col == c.anchor.onToCol) && ContextCte.GroupKey(t, col) !in known {
      var front, last := steps[..|steps| - 1], steps[|steps| - 1];
      AllLeftPush(db, e, steps);
      AllLeftPush(db, f, steps);
      hide SameKeys, AllLeft;
      if last.table == t {
        DeterminedAgrees(db, c, known, front, e, f, last.fromTable, last.onFromCol);
        LinkedAgree(db, last, e, f);
      } else {
        DeterminedAgrees(db, c, known, front, e, f, t, col);
      }
    }
  }

  lemma LinkedAgree(db: Db, s: JoinStep, e: Env, f: Env)
    requires LeftJoined(db, e, s) && LeftJoined(db, f, s)
    requires ColOf(e, s.fromTable, s.onFromCol) == ColOf(f, s.fromTable, s.onFromCol)
    ensures ColOf(e, s.table, s.onToCol) == ColOf(f, s.table, s.onToCol)
  {
    assert forall r :: r in RowsOf(db, s.table) ==> (Link(e, s, r) <==> Link(f, s, r));
  }

  /** Dropping keys keeps every chain to one map row: the dropped ones are determined by the others. */
  ghost predicate Settled(clause: Clause, some: seq<GroupKey>)
    requires |clause.selected| == |clause.split.groupChains|
  {
    forall c :: 0 <= c < |clause.selected| ==> ChainSettled(clause.split.groupChains[c], clause.selected[c], some)
  }

  ghost predicate ChainSettled(c: Chain, selected: seq<GroupKey>, some: seq<GroupKey>) {
    forall k :: k in selected ==> Determined(c, some, c.steps, k.table, k.col)
  }

  lemma ChainRowSpans(q: Query, n: nat, env: Env)
    requires Shaped(q) && n < |q.clause.selected| && env in ChainRowsOf(q, n)
    requires IsTree(q.clause.split.groupChains[n].anchor.table, q.clause.split.groupChains[n].steps)
    ensures var c := q.clause.split.groupChains[n]; AllLeft(q.db, env, c.steps) && env.Keys == ChainScope(c)
  {
    hide IsTree, AllLeft, Before, ChainRowsOf;
    ChainRowsAre(q, n, env);
    ChainScopeIs(q.clause.split.groupChains[n]);
  }

  ghost predicate Among<T>(some: seq<T>, all: seq<T>) {
    forall k :: k in some ==> k in all
  }

  /** A wide row reads its chain's keys off the chain row its map came from. */
  lemma KeyFromChain(q: Query, keys: seq<GroupKey>, w: Wide, n: nat, env: Env, k: GroupKey)
    requires Shaped(q) && Projects(q.clause, keys) && ChainsDisjoint(q) && n < |q.clause.selected| && n < |w.maps|
    requires k in q.clause.selected[n] && w.maps[n] == Some(MapOf(q.clause.split.groupChains[n], q.clause.selected[n], env))
    ensures KeyAt(q, w, k) == ColOf(env, k.table, k.col)
  {
    hide Chain.Has, SomeHas;
    var j :| 0 <= j < |q.clause.selected[n]| && q.clause.selected[n][j] == k;
    RefIsHere(q, keys, n, j);
  }

  /** Two wide rows of a flat row that agree on a subtotal's keys agree on every map. */
  lemma SameMap(q: Query, keys: seq<GroupKey>, some: seq<GroupKey>, o: Env, v: Wide, w: Wide, n: nat)
    requires Shaped(q) && Projects(q.clause, keys) && ChainsDisjoint(q) && Among(some, keys) && Settled(q.clause, some)
    requires n < |q.clause.selected| && IsWide(q, |q.clause.selected|, o, v) && IsWide(q, |q.clause.selected|, o, w)
    requires KeyOf(q, some, v) == KeyOf(q, some, w) && IsTree(q.clause.split.groupChains[n].anchor.table, q.clause.split.groupChains[n].steps)
    ensures v.maps[n] == w.maps[n]
  {
    hide IsTree, KeyAt, AllLeft, Determined, ChainsDisjoint, Projects, Settled, ChainRowsOf, PartnersOf, KeyOf;
    assert Partnered(q, o, n, v.maps[n]) && Partnered(q, o, n, w.maps[n]);
    if v.maps[n].Some? && w.maps[n].Some? {
      var c, selected := q.clause.split.groupChains[n], q.clause.selected[n];
      PartnersAre(q, n, o);
      var e :| e in ChainRowsOf(q, n) && MapOf(c, selected, e) == v.maps[n].value;
      var f :| f in ChainRowsOf(q, n) && MapOf(c, selected, f) == w.maps[n].value;
      ChainRowSpans(q, n, e);
      ChainRowSpans(q, n, f);
      assert SameKeys(some, c, e, f) by {
        KnownAgree(q, keys, some, v, w, n, e, f);
      }
      assert ChainSettled(c, selected, some) by {
        SettledAt(q.clause, some, n);
      }
      hide SameKeys;
      forall i | 0 <= i < |selected|
        ensures ColOf(e, selected[i].table, selected[i].col) == ColOf(f, selected[i].table, selected[i].col)
      {
        assert selected[i] in selected;
        DeterminedAgrees(q.db, c, some, c.steps, e, f, selected[i].table, selected[i].col);
      }
      assert MapOf(c, selected, e).vals == MapOf(c, selected, f).vals;
    } else {
      NoneForAll(q, o, n, v.maps[n], w.maps[n]);
    }
  }

  lemma NoneForAll(q: Query, o: Env, n: nat, a: Option<MapRow>, b: Option<MapRow>)
    requires Shaped(q) && n < |q.clause.selected| && Partnered(q, o, n, a) && Partnered(q, o, n, b) && (a.None? || b.None?)
    ensures a == b
  {
  }

  lemma SettledAt(clause: Clause, some: seq<GroupKey>, n: nat)
    requires |clause.selected| == |clause.split.groupChains| && Settled(clause, some) && n < |clause.selected|
    ensures ChainSettled(clause.split.groupChains[n], clause.selected[n], some)
  {
  }

  lemma KnownAgree(q: Query, keys: seq<GroupKey>, some: seq<GroupKey>, v: Wide, w: Wide, n: nat, e: Env, f: Env)
    requires Shaped(q) && Projects(q.clause, keys) && ChainsDisjoint(q) && Among(some, keys) && KeyOf(q, some, v) == KeyOf(q, some, w)
    requires n < |q.clause.selected| && n < |v.maps| && n < |w.maps|
    requires var c, selected := q.clause.split.groupChains[n], q.clause.selected[n];
      && v.maps[n] == Some(MapOf(c, selected, e)) && w.maps[n] == Some(MapOf(c, selected, f)) && MapOf(c, selected, e).anchor == MapOf(c, selected, f).anchor
      && e.Keys == f.Keys == ChainScope(c)
    ensures SameKeys(some, q.clause.split.groupChains[n], e, f)
  {
    hide ChainsDisjoint, KeyAt, Chain.Has, Before, SomeHas;
    var c, selected := q.clause.split.groupChains[n], q.clause.selected[n];
    forall k | k in some
      ensures ColOf(e, k.table, k.col) == ColOf(f, k.table, k.col)
    {
      var j :| 0 <= j < |some| && some[j] == k;
      assert KeyOf(q, some, v)[j] == KeyAt(q, v, k) && KeyOf(q, some, w)[j] == KeyAt(q, w, k);
      if k.table in e {
        HasIsTable(c, k.table);
        assert k in selected;
        KeyFromChain(q, keys, v, n, e, k);
        KeyFromChain(q, keys, w, n, f, k);
      }
    }
  }

  lemma SameWide(q: Query, keys: seq<GroupKey>, some: seq<GroupKey>, o: Env, v: Wide, w: Wide)
    requires Shaped(q) && Projects(q.clause, keys) && ChainsDisjoint(q) && WellSplit(q.clause) && Among(some, keys) && Settled(q.clause, some)
    requires IsWide(q, |q.clause.selected|, o, v) && IsWide(q, |q.clause.selected|, o, w) && KeyOf(q, some, v) == KeyOf(q, some, w)
    ensures v == w
  {
    hide Projects, ChainsDisjoint, WellSplit, Settled, KeyOf, Partnered;
    forall n | 0 <= n < |q.clause.selected|
      ensures v.maps[n] == w.maps[n]
    {
      ChainIsHung(q, n);
      SameMap(q, keys, some, o, v, w, n);
    }
    assert v.maps == w.maps;
  }

  // ---- a cell's wide row ----

  /** A flat row counts in a cell when one of its wide rows shows the cell's values. */
  lemma CellIsWide(q: Query, keys: seq<GroupKey>, o: Env, cell: seq<Value>)
    requires Shaped(q) && Projects(q.clause, keys) && ChainsDisjoint(q) && |cell| == |keys|
    ensures InCell(q, keys, o, cell) <==> Where(q, o) && exists w :: IsWide(q, |q.clause.selected|, o, w) && KeyOf(q, keys, w) == cell
  {
    hide Projects, ChainsDisjoint, Where, FlatKeysMatch, KeyOf, Reaches, PartnersOf, TupleOf, FromMaps, AnchorOf;
    var n, tuples := |q.clause.selected|, TuplesOf(q, keys, cell);
    if w :| IsWide(q, n, o, w) && KeyOf(q, keys, w) == cell {
      WideFromMaps(q, o, w);
      KeyIsCell(q, keys, w, cell);
      forall i | 0 <= i < n
        ensures Reaches(q, i, o, TupleOf(q, keys, cell, i))
      {
        ReachesIsPartner(q, i, o, tuples[i]);
        assert Partnered(q, o, i, w.maps[i]) && ValsOf(w.maps[i], |q.clause.selected[i]|) == tuples[i];
      }
    }
    if InCell(q, keys, o, cell) {
      var w := Wide(o, TheMaps(q, o, tuples, n));
      forall i | 0 <= i < n
        ensures Partnered(q, o, i, w.maps[i]) && ValsOf(w.maps[i], |q.clause.selected[i]|) == tuples[i]
      {
        ReachesIsPartner(q, i, o, tuples[i]);
        assert Reaches(q, i, o, TupleOf(q, keys, cell, i));
      }
      WideFromMaps(q, o, w);
      KeyIsCell(q, keys, w, cell);
    }
  }

  lemma WideFromMaps(q: Query, o: Env, w: Wide)
    requires Shaped(q) && IsWide(q, |q.clause.selected|, o, w)
    ensures FromMaps(q, w, |q.clause.selected|)
  {
    hide PartnersOf, ChainRowsOf;
    forall i | 0 <= i < |q.clause.selected|
      ensures FromMap(q, i, w.maps[i])
    {
      assert Partnered(q, o, i, w.maps[i]);
      PartnersAre(q, i, o);
    }
  }

  /** ... and in a subtotal when one of them shows the subtotal's values. */
  lemma SubtotalIsWide(q: Query, keys: seq<GroupKey>, some: seq<GroupKey>, vals: seq<Value>, o: Env)
    requires Shaped(q) && Projects(q.clause, keys) && ChainsDisjoint(q) && Among(some, keys) && |vals| == |some|
    ensures InSubtotal(q, keys, some, vals, o) <==> Where(q, o) && exists w :: IsWide(q, |q.clause.selected|, o, w) && KeyOf(q, some, w) == vals
  {
    hide Projects, ChainsDisjoint, Where, InCell, KeyAt, IsWide;
    if cell :| |cell| == |keys| && InCell(q, keys, o, cell) && Agrees(keys, cell, some, vals) {
      CellIsWide(q, keys, o, cell);
      var w :| IsWide(q, |q.clause.selected|, o, w) && KeyOf(q, keys, w) == cell;
      forall j | 0 <= j < |some|
        ensures KeyAt(q, w, some[j]) == vals[j]
      {
        assert some[j] in keys;
        var i :| 0 <= i < |keys| && keys[i] == some[j];
      }
      assert KeyOf(q, some, w) == vals;
    }
    if w :| Where(q, o) && IsWide(q, |q.clause.selected|, o, w) && KeyOf(q, some, w) == vals {
      CellIsWide(q, keys, o, KeyOf(q, keys, w));
      assert Agrees(keys, KeyOf(q, keys, w), some, vals);
    }
  }

  // ---- a settled subtotal ----

  ghost predicate Showing(q: Query, some: seq<GroupKey>, vals: seq<Value>, w: Wide)
    requires Shaped(q)
  {
    Where(q, w.env) && KeyOf(q, some, w) == vals
  }

  lemma OneShows(q: Query, keys: seq<GroupKey>, some: seq<GroupKey>, vals: seq<Value>, o: Env) returns (it: Wide)
    requires Shaped(q) && Projects(q.clause, keys) && ChainsDisjoint(q) && WellSplit(q.clause) && Among(some, keys) && Settled(q.clause, some)
    requires |vals| == |some|
    ensures it.env == o
    ensures Select(WidesOf(q, |q.clause.selected|, o), (w: Wide) => Showing(q, some, vals, w))
      == if InSubtotal(q, keys, some, vals, o) then [it] else []
  {
    hide Projects, ChainsDisjoint, WellSplit, Settled, Where, KeyOf, WidesOf, InSubtotal, Partnered;
    var n, wides, p := |q.clause.selected|, WidesOf(q, |q.clause.selected|, o), (w: Wide) => Showing(q, some, vals, w);
    SubtotalIsWide(q, keys, some, vals, o);
    WidesDistinct(q, n, o);
    forall w
      ensures w in wides <==> IsWide(q, n, o, w)
    {
      WidesAre(q, n, o, w);
    }
    it := Wide(o, []);
    if i :| 0 <= i < |wides| && p(wides[i]) {
      it := wides[i];
      assert wides[i] in wides;
      forall j | 0 <= j < |wides|
        ensures p(wides[j]) <==> j == i
      {
        assert wides[j] in wides;
        if p(wides[j]) {
          SameWide(q, keys, some, o, wides[i], wides[j]);
        }
      }
      SelectAt(wides, p, i);
    } else {
      SelectNone(wides, p);
    }
  }

  ghost function ShowingOf(q: Query, some: seq<GroupKey>, vals: seq<Value>, o: Env): seq<Wide>
    requires Shaped(q)
  {
    Select(WidesOf(q, |q.clause.selected|, o), (w: Wide) => Showing(q, some, vals, w))
  }

  ghost function TheWide(q: Query, some: seq<GroupKey>, vals: seq<Value>, o: Env): Wide
    requires Shaped(q)
  {
    var shown := ShowingOf(q, some, vals, o);
    if shown == [] then Wide(o, []) else shown[0]
  }

  lemma GroupedByFlat(q: Query, some: seq<GroupKey>, vals: seq<Value>)
    requires Shaped(q)
    ensures GroupedRows(q, some, vals) == Images(Flat(FlatRows(q), o => ShowingOf(q, some, vals, o)), (w: Wide) => w.env)
  {
    hide Where, KeyOf, WideRows, WidesOf, FlatRows, Select, Group, Flat;
    var n := |q.clause.selected|;
    var showing := (w: Wide) => Showing(q, some, vals, w);
    GroupOfSelect(WideRows(q, n), (w: Wide) => Where(q, w.env), w => KeyOf(q, some, w), vals, showing);
    WideRowsByFlat(q, n);
    SelectFlat(FlatRows(q), o => WidesOf(q, n, o), showing, o => ShowingOf(q, some, vals, o));
  }

  /** A settled subtotal groups the flat rows that count in one of its cells, each once. */
  lemma SettledCountsOnce(steps: seq<JoinStep>, q: Query, tags: seq<Option<Table>>, keys: seq<GroupKey>, some: seq<GroupKey>, vals: seq<Value>)
    requires Emittable(steps, q.clause, tags, keys) && Shaped(q) && Among(some, keys) && Settled(q.clause, some) && |vals| == |some|
    ensures GroupedRows(q, some, vals) == SubtotalRows(q, keys, some, vals)
  {
    hide IsTree, Splits, Places, Projects, Settled, FlatRows, ShowingOf, InSubtotal, Select, Flat, GroupedRows, WellSplit, ChainsDisjoint;
    SplitIsWell(steps, q.clause);
    AreDisjoint(steps, q);
    GroupedByFlat(q, some, vals);
    var counts, wide := (o: Env) => InSubtotal(q, keys, some, vals, o), (o: Env) => TheWide(q, some, vals, o);
    forall o
      ensures ShowingOf(q, some, vals, o) == if counts(o) then [wide(o)] else []
      ensures counts(o) ==> wide(o).env == o
    {
      ShownOnce(q, keys, some, vals, o);
    }
    FlatMaybe(FlatRows(q), counts, wide, o => ShowingOf(q, some, vals, o));
    var rows := Select(FlatRows(q), counts);
    SelectMember(FlatRows(q), counts);
    forall i | 0 <= i < |rows|
      ensures wide(rows[i]).env == rows[i]
    {
      assert rows[i] in rows;
    }
    assert Images(Images(rows, wide), (w: Wide) => w.env) == rows;
    SelectSame(FlatRows(q), counts, o => InSubtotal(q, keys, some, vals, o));
  }

  lemma ShownOnce(q: Query, keys: seq<GroupKey>, some: seq<GroupKey>, vals: seq<Value>, o: Env)
    requires Shaped(q) && Projects(q.clause, keys) && ChainsDisjoint(q) && WellSplit(q.clause) && Among(some, keys) && Settled(q.clause, some)
    requires |vals| == |some|
    ensures ShowingOf(q, some, vals, o) == if InSubtotal(q, keys, some, vals, o) then [TheWide(q, some, vals, o)] else []
    ensures InSubtotal(q, keys, some, vals, o) ==> TheWide(q, some, vals, o).env == o
  {
    hide Projects, ChainsDisjoint, WellSplit, Settled, Select, WidesOf, InSubtotal;
    var it := OneShows(q, keys, some, vals, o);
  }
}
