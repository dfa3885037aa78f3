/** The FROM clause of a cluster: its join tree split into flat joins, EXISTS chains that only filter
  * and DISTINCT chains that only carry group keys, with every predicate put where its table is. */
module ClusterFrom {
  import opened Relationships
  import opened JoinSearch
  import opened JoinPath
  import ContextCte
  import Relational

  type GroupKey = ContextCte.GroupKey

  /** A carved subtree: the step it hangs off, and the joins inside it. */
  datatype Chain = Chain(anchor: JoinStep, steps: seq<JoinStep>) {
    function Steps(): seq<JoinStep> {
      [anchor] + steps
    }

    /** The tables in scope inside the carved body. */
    ghost predicate Has(t: Table) {
      Entered(anchor.table, steps, t)
    }
  }

  datatype Cut = NoCut | GroupCut | ExistsCut

  datatype Split = Split(flat: seq<JoinStep>, groupChains: seq<Chain>, existsChains: seq<Chain>)

  // ---- subtrees ----

  /** `u` is `t` or hangs below it. */
  ghost predicate Below(steps: seq<JoinStep>, t: Table, u: Table) {
    u == t || (steps != [] &&
      var front, last := steps[..|steps| - 1], steps[|steps| - 1];
      Below(front, t, if last.table == u then last.fromTable else u))
  }

  ghost predicate AnyBelow(steps: seq<JoinStep>, t: Table, wanted: set<Table>) {
    exists u :: u in wanted && Below(steps, t, u)
  }

  ghost function Position(root: Table, steps: seq<JoinStep>, t: Table): (p: nat)
    requires IsTree(root, steps) && Entered(root, steps, t)
    ensures p <= |steps|
    ensures forall i :: 0 <= i < |steps| && steps[i].table == t ==> p == i + 1
  {
    if t == root then 0 else
    var i :| 0 <= i < |steps| && steps[i].table == t;
    i + 1
  }

  lemma FrontIsTree(root: Table, steps: seq<JoinStep>)
    requires IsTree(root, steps) && steps != []
    ensures IsTree(root, steps[..|steps| - 1])
    ensures Entered(root, steps[..|steps| - 1], steps[|steps| - 1].fromTable)
    ensures !Entered(root, steps[..|steps| - 1], steps[|steps| - 1].table)
  {
    var front := steps[..|steps| - 1];
    forall i | 0 <= i < |front|
      ensures Entered(root, front[..i], front[i].fromTable)
    {
      assert front[..i] == steps[..i];
    }
  }

  /** A table that was never entered has nothing below it. */
  lemma NothingBelow(root: Table, steps: seq<JoinStep>, t: Table, u: Table)
    requires IsTree(root, steps) && !Entered(root, steps, t) && u != t
    ensures !Below(steps, t, u)
  {
    if steps != [] {
      var front, last := steps[..|steps| - 1], steps[|steps| - 1];
      FrontIsTree(root, steps);
      assert forall i :: 0 <= i < |front| ==> front[i] == steps[i];
      var v := if last.table == u then last.fromTable else u;
      if v != t {
        NothingBelow(root, front, t, v);
      }
    }
  }

  /** Below is closed under the tree's edges. */
  lemma BelowExtends(root: Table, steps: seq<JoinStep>, t: Table, i: nat)
    requires IsTree(root, steps) && i < |steps| && Below(steps, t, steps[i].fromTable)
    ensures Below(steps, t, steps[i].table)
  {
    var front, last := steps[..|steps| - 1], steps[|steps| - 1];
    FrontIsTree(root, steps);
    if i < |front| {
      assert Entered(root, steps[..i], steps[i].fromTable);
      assert steps[i].fromTable != last.table;
      assert front[i] == steps[i];
      if steps[i].fromTable != t || Below(front, t, steps[i].fromTable) {
        BelowExtends(root, front, t, i);
      }
    } else {
      assert last.fromTable != last.table;
    }
  }

  lemma BelowStep(root: Table, steps: seq<JoinStep>, i: nat, u: Table)
    requires IsTree(root, steps) && i < |steps| && Below(steps, steps[i].table, u)
    ensures Below(steps, steps[i].fromTable, u)
  {
    if u == steps[i].table {
      BelowExtends(root, steps, steps[i].fromTable, i);
    } else {
      var front, last := steps[..|steps| - 1], steps[|steps| - 1];
      FrontIsTree(root, steps);
      if i < |front| {
        assert front[i] == steps[i];
        BelowStep(root, front, i, if last.table == u then last.fromTable else u);
      } else {
        NothingBelow(root, front, last.table, u);
      }
    }
  }

  lemma BelowThroughKid(steps: seq<JoinStep>, t: Table, u: Table)
    requires Below(steps, t, u) && u != t
    ensures exists i :: 0 <= i < |steps| && steps[i].fromTable == t && Below(steps, steps[i].table, u)
  {
  }

  method SubtreeHas(root: Table, steps: seq<JoinStep>, t: Table, wanted: set<Table>) returns (found: bool)
    requires IsTree(root, steps) && Entered(root, steps, t)
    ensures found <==> AnyBelow(steps, t, wanted)
    decreases |steps| - Position(root, steps, t)
  {
    if t in wanted {
      assert Below(steps, t, t);
      return true;
    }
    for i := 0 to |steps|
      invariant forall j :: 0 <= j < i && steps[j].fromTable == t ==> !AnyBelow(steps, steps[j].table, wanted)
    {
      if steps[i].fromTable == t {
        KidIsDeeper(root, steps, i);
        var inside := SubtreeHas(root, steps, steps[i].table, wanted);
        if inside {
          ghost var u :| u in wanted && Below(steps, steps[i].table, u);
          BelowStep(root, steps, i, u);
          return true;
        }
      }
    }
    if AnyBelow(steps, t, wanted) {
      ghost var u :| u in wanted && Below(steps, t, u);
      BelowThroughKid(steps, t, u);
    }
    return false;
  }

  lemma KidIsDeeper(root: Table, steps: seq<JoinStep>, i: nat)
    requires IsTree(root, steps) && i < |steps|
    ensures Entered(root, steps, steps[i].table) && Entered(root, steps, steps[i].fromTable)
    ensures Position(root, steps, steps[i].table) == i + 1 && Position(root, steps, steps[i].fromTable) <= i
  {
  }

  // ---- splitting the tree ----

  ghost function ChainSteps(chains: seq<Chain>): multiset<JoinStep> {
    if chains == [] then multiset{} else ChainSteps(chains[..|chains| - 1]) + multiset(chains[|chains| - 1].Steps())
  }

  ghost function AllSteps(split: Split): multiset<JoinStep> {
    multiset(split.flat) + ChainSteps(split.groupChains) + ChainSteps(split.existsChains)
  }

  ghost predicate Hangs(root: Table, flat: seq<JoinStep>, c: Chain) {
    Entered(root, flat, c.anchor.fromTable) && IsTree(c.anchor.table, c.steps)
  }

  ghost predicate AllHang(root: Table, split: Split) {
    && IsTree(root, split.flat)
    && (forall c :: 0 <= c < |split.groupChains| ==> Hangs(root, split.flat, split.groupChains[c]))
    && (forall c :: 0 <= c < |split.existsChains| ==> Hangs(root, split.flat, split.existsChains[c]))
  }

  /** Every step has one place, and every place is a join tree of its own: the flat joins one of the
    * root, each chain one of its anchor's table, hung off a flat table. */
  ghost predicate Splits(root: Table, steps: seq<JoinStep>, split: Split) {
    AllHang(root, split) && AllSteps(split) == multiset(steps)
  }

  ghost function CutOf(steps: seq<JoinStep>, s: JoinStep, needed: set<Table>, groups: set<Table>, values: set<Table>): Cut {
    if s.bidirectional && AnyBelow(steps, s.table, groups) && !AnyBelow(steps, s.table, values) then GroupCut
    else if s.bidirectional && !AnyBelow(steps, s.table, needed) then ExistsCut
    else NoCut
  }

  /** The tree is cut at the first bidirectional step into a part that is only grouped by, or only
    * filtered on. */
  ghost predicate CutRight(steps: seq<JoinStep>, split: Split, needed: set<Table>, groups: set<Table>, values: set<Table>) {
    && (forall s :: s in split.flat ==> CutOf(steps, s, needed, groups, values) == NoCut)
    && (forall c :: c in split.groupChains ==> CutOf(steps, c.anchor, needed, groups, values) == GroupCut)
    && (forall c :: c in split.existsChains ==> CutOf(steps, c.anchor, needed, groups, values) == ExistsCut)
  }

  ghost predicate SomeHas(chains: seq<Chain>, t: Table) {
    exists c :: 0 <= c < |chains| && chains[c].Has(t)
  }

  /** The chain each carved table is in. */
  ghost predicate Locates(chains: seq<Chain>, home: map<Table, nat>) {
    && (forall t :: t in home <==> SomeHas(chains, t))
    && (forall t :: t in home ==> home[t] < |chains| && chains[home[t]].Has(t))
  }

  function Grown(chains: seq<Chain>, c: nat, s: JoinStep): seq<Chain>
    requires c < |chains|
  {
    chains[c := Chain(chains[c].anchor, chains[c].steps + [s])]
  }

  method SplitTree(root: Table, steps: seq<JoinStep>, needed: set<Table>, groups: set<Table>, values: set<Table>)
    returns (split: Split, inGroup: map<Table, nat>, inExists: map<Table, nat>)
    requires IsTree(root, steps)
    ensures Splits(root, steps, split) && CutRight(steps, split, needed, groups, values)
    ensures Locates(split.groupChains, inGroup) && Locates(split.existsChains, inExists)
  {
    hide IsTree, Entered, Splits, CutRight, Locates, AnyBelow, Hangs, SomeHas;
    split, inGroup, inExists := Split([], [], []), map[], map[];
    NothingSplit(root, steps, needed, groups, values);
    for i := 0 to |steps|
      invariant Splits(root, steps[..i], split) && CutRight(steps, split, needed, groups, values)
      invariant Locates(split.groupChains, inGroup) && Locates(split.existsChains, inExists)
    {
      var s := steps[i];
      assert steps[..i + 1] == steps[..i] + [s];
      StepIsNew(root, steps, i);
      if s.fromTable in inGroup {
        var c := inGroup[s.fromTable];
        LocatedIs(split.groupChains, inGroup, s.fromTable);
        ContinueGroup(root, steps[..i], split, c, s);
        Relocated(split.groupChains, inGroup, c, s);
        ghost var was := split;
        split := split.(groupChains := Grown(split.groupChains, c, s));
        SameCuts(steps, was, split, needed, groups, values);
        inGroup := inGroup[s.table := c];
        continue;
      }
      if s.fromTable in inExists {
        var c := inExists[s.fromTable];
        LocatedIs(split.existsChains, inExists, s.fromTable);
        ContinueExists(root, steps[..i], split, c, s);
        Relocated(split.existsChains, inExists, c, s);
        ghost var was := split;
        split := split.(existsChains := Grown(split.existsChains, c, s));
        SameCuts(steps, was, split, needed, groups, values);
        inExists := inExists[s.table := c];
        continue;
      }
      FromIsFlat(root, steps[..i], split, inGroup, inExists, s.fromTable);
      AddCut(steps, split, s, needed, groups, values);
      AddStep(root, steps[..i], split, s);
      if s.bidirectional {
        var grouped := SubtreeHas(root, steps, s.table, groups);
        var valued := SubtreeHas(root, steps, s.table, values);
        if grouped && !valued {
          Located(split.groupChains, inGroup, s);
          inGroup := inGroup[s.table := |split.groupChains|];
          split := split.(groupChains := split.groupChains + [Chain(s, [])]);
          continue;
        }
        var wanted := SubtreeHas(root, steps, s.table, needed);
        if !wanted {
          Located(split.existsChains, inExists, s);
          inExists := inExists[s.table := |split.existsChains|];
          split := split.(existsChains := split.existsChains + [Chain(s, [])]);
          continue;
        }
      }
      split := split.(flat := split.flat + [s]);
    }
    assert steps[..|steps|] == steps;
  }

  lemma NothingSplit(root: Table, steps: seq<JoinStep>, needed: set<Table>, groups: set<Table>, values: set<Table>)
    ensures Splits(root, steps[..0], Split([], [], [])) && CutRight(steps, Split([], [], []), needed, groups, values)
    ensures Locates([], map[])
  {
  }

  lemma StepIsNew(root: Table, steps: seq<JoinStep>, i: nat)
    requires IsTree(root, steps) && i < |steps|
    ensures Entered(root, steps[..i], steps[i].fromTable) && !Entered(root, steps[..i], steps[i].table)
    ensures Entered(root, steps, steps[i].table)
  {
  }

  lemma LocatedIs(chains: seq<Chain>, home: map<Table, nat>, t: Table)
    requires Locates(chains, home) && t in home
    ensures home[t] < |chains| && chains[home[t]].Has(t)
  {
  }

  lemma TreeGrows(root: Table, steps: seq<JoinStep>, s: JoinStep)
    requires IsTree(root, steps) && Entered(root, steps, s.fromTable) && !Entered(root, steps, s.table)
    ensures IsTree(root, steps + [s])
  {
    var more := steps + [s];
    forall i | 0 <= i < |more|
      ensures Entered(root, more[..i], more[i].fromTable)
    {
      assert more[..i] == steps[..i];
      if i == |steps| {
        assert steps[..i] == steps;
      }
    }
  }

  lemma EnteredMore(root: Table, steps: seq<JoinStep>, s: JoinStep)
    ensures forall t :: Entered(root, steps + [s], t) <==> Entered(root, steps, t) || t == s.table
  {
    var more := steps + [s];
    forall t
      ensures Entered(root, more, t) <==> Entered(root, steps, t) || t == s.table
    {
      if i :| 0 <= i < |steps| && steps[i].table == t {
        assert more[i].table == t;
      }
      assert more[|steps|].table == s.table;
    }
  }

  ghost predicate InSome(chains: seq<Chain>, s: JoinStep) {
    exists c :: 0 <= c < |chains| && s in chains[c].Steps()
  }

  lemma InChain(chains: seq<Chain>, s: JoinStep)
    ensures s in ChainSteps(chains) <==> InSome(chains, s)
  {
    hide Chain.Steps;
    if chains != [] {
      var front, last := chains[..|chains| - 1], chains[|chains| - 1];
      InChain(front, s);
      assert s in ChainSteps(chains) <==> s in ChainSteps(front) || s in last.Steps();
      if InSome(front, s) {
        var c :| 0 <= c < |front| && s in front[c].Steps();
        assert chains[c] == front[c];
      }
      if c :| 0 <= c < |front| && s in chains[c].Steps() {
        assert front[c] == chains[c];
      }
    }
  }

  lemma StepsGrow(c: Chain, s: JoinStep)
    ensures multiset(Chain(c.anchor, c.steps + [s]).Steps()) == multiset(c.Steps()) + multiset{s}
  {
  }

  lemma ChainStepsGrow(chains: seq<Chain>, c: nat, s: JoinStep)
    requires c < |chains|
    ensures ChainSteps(Grown(chains, c, s)) == ChainSteps(chains) + multiset{s}
  {
    hide Chain.Steps, ChainSteps;
    var front, last := chains[..|chains| - 1], chains[|chains| - 1];
    assert chains == front + [last];
    ChainStepsPush(front, last);
    var more := Grown(chains, c, s);
    if c < |front| {
      ChainStepsGrow(front, c, s);
      assert more == Grown(front, c, s) + [last];
      ChainStepsPush(Grown(front, c, s), last);
    } else {
      var longer := Chain(last.anchor, last.steps + [s]);
      assert more == front + [longer];
      ChainStepsPush(front, longer);
      StepsGrow(last, s);
    }
  }

  lemma ChainStepsPush(chains: seq<Chain>, c: Chain)
    ensures ChainSteps(chains + [c]) == ChainSteps(chains) + multiset(c.Steps())
  {
  }

  /** A table of the tree is in some scope, and only tables of the tree are. */
  lemma ScopesCover(root: Table, steps: seq<JoinStep>, split: Split, t: Table)
    requires Splits(root, steps, split)
    ensures Entered(root, steps, t) <==>
      Entered(root, split.flat, t) || SomeHas(split.groupChains, t) || SomeHas(split.existsChains, t)
  {
    forall s: JoinStep
      ensures s in steps <==> s in split.flat || InSome(split.groupChains, s) || InSome(split.existsChains, s)
    {
      assert s in multiset(steps) <==>
        s in multiset(split.flat) || s in ChainSteps(split.groupChains) || s in ChainSteps(split.existsChains);
      InChain(split.groupChains, s);
      InChain(split.existsChains, s);
    }
    HasIsStep(split.groupChains, t);
    HasIsStep(split.existsChains, t);
    EnteredIsStep(root, steps, t);
    EnteredIsStep(root, split.flat, t);
  }

  lemma EnteredIsStep(root: Table, steps: seq<JoinStep>, t: Table)
    ensures Entered(root, steps, t) <==> t == root || exists s :: s in steps && s.table == t
  {
  }

  lemma HasIsStep(chains: seq<Chain>, t: Table)
    ensures SomeHas(chains, t) <==> exists s :: InSome(chains, s) && s.table == t
  {
  }

  lemma HangsGrow(root: Table, flat: seq<JoinStep>, chains: seq<Chain>, c: nat, s: JoinStep)
    requires forall i :: 0 <= i < |chains| ==> Hangs(root, flat, chains[i])
    requires c < |chains| && chains[c].Has(s.fromTable) && !SomeHas(chains, s.table)
    ensures forall i :: 0 <= i < |chains| ==> Hangs(root, flat, Grown(chains, c, s)[i])
  {
    assert !chains[c].Has(s.table);
    TreeGrows(chains[c].anchor.table, chains[c].steps, s);
  }

  lemma Sums(a: multiset<JoinStep>, b: multiset<JoinStep>, c: multiset<JoinStep>, s: multiset<JoinStep>)
    ensures a + (b + s) + c == a + b + c + s
    ensures a + b + (c + s) == a + b + c + s
  {
  }

  lemma ContinueGroup(root: Table, steps: seq<JoinStep>, split: Split, c: nat, s: JoinStep)
    requires Splits(root, steps, split) && !Entered(root, steps, s.table)
    requires c < |split.groupChains| && split.groupChains[c].Has(s.fromTable)
    ensures Splits(root, steps + [s], split.(groupChains := Grown(split.groupChains, c, s)))
  {
    assert !SomeHas(split.groupChains, s.table) by {
      ScopesCover(root, steps, split, s.table);
    }
    HangsGrow(root, split.flat, split.groupChains, c, s);
    hide Entered, IsTree, Hangs, SomeHas, Chain.Has, Below;
    ChainStepsGrow(split.groupChains, c, s);
    hide ChainSteps, Grown;
    Sums(multiset(split.flat), ChainSteps(split.groupChains), ChainSteps(split.existsChains), multiset{s});
    var more := split.(groupChains := Grown(split.groupChains, c, s));
    assert AllHang(root, more);
    hide AllHang;
    assert AllSteps(more) == AllSteps(split) + multiset{s};
    hide AllSteps;
    SplitsMore(root, steps, split, more, s);
  }

  lemma ContinueExists(root: Table, steps: seq<JoinStep>, split: Split, c: nat, s: JoinStep)
    requires Splits(root, steps, split) && !Entered(root, steps, s.table)
    requires c < |split.existsChains| && split.existsChains[c].Has(s.fromTable)
    ensures Splits(root, steps + [s], split.(existsChains := Grown(split.existsChains, c, s)))
  {
    assert !SomeHas(split.existsChains, s.table) by {
      ScopesCover(root, steps, split, s.table);
    }
    HangsGrow(root, split.flat, split.existsChains, c, s);
    hide Entered, IsTree, Hangs, SomeHas, Chain.Has, Below;
    ChainStepsGrow(split.existsChains, c, s);
    hide ChainSteps, Grown;
    Sums(multiset(split.flat), ChainSteps(split.groupChains), ChainSteps(split.existsChains), multiset{s});
    var more := split.(existsChains := Grown(split.existsChains, c, s));
    assert AllHang(root, more);
    hide AllHang;
    assert AllSteps(more) == AllSteps(split) + multiset{s};
    hide AllSteps;
    SplitsMore(root, steps, split, more, s);
  }

  lemma AddStep(root: Table, steps: seq<JoinStep>, split: Split, s: JoinStep)
    requires Splits(root, steps, split) && Entered(root, split.flat, s.fromTable) && !Entered(root, steps, s.table)
    ensures Splits(root, steps + [s], split.(flat := split.flat + [s]))
    ensures Splits(root, steps + [s], split.(groupChains := split.groupChains + [Chain(s, [])]))
    ensures Splits(root, steps + [s], split.(existsChains := split.existsChains + [Chain(s, [])]))
  {
    OneMoreStep(split, s);
    HangsMore(root, steps, split, s);
    hide IsTree, Entered, AllSteps, Hangs;
    SplitsMore(root, steps, split, split.(flat := split.flat + [s]), s);
    SplitsMore(root, steps, split, split.(groupChains := split.groupChains + [Chain(s, [])]), s);
    SplitsMore(root, steps, split, split.(existsChains := split.existsChains + [Chain(s, [])]), s);
  }

  lemma SplitsMore(root: Table, steps: seq<JoinStep>, split: Split, more: Split, s: JoinStep)
    requires AllSteps(split) == multiset(steps) && AllHang(root, more) && AllSteps(more) == AllSteps(split) + multiset{s}
    ensures Splits(root, steps + [s], more)
  {
  }

  lemma HangsMore(root: Table, steps: seq<JoinStep>, split: Split, s: JoinStep)
    requires Splits(root, steps, split) && Entered(root, split.flat, s.fromTable) && !Entered(root, steps, s.table)
    ensures AllHang(root, split.(flat := split.flat + [s]))
    ensures AllHang(root, split.(groupChains := split.groupChains + [Chain(s, [])]))
    ensures AllHang(root, split.(existsChains := split.existsChains + [Chain(s, [])]))
  {
    hide IsTree, Entered, AllSteps;
    ScopesCover(root, steps, split, s.table);
    TreeGrows(root, split.flat, s);
    EnteredMore(root, split.flat, s);
    NoSteps(s.table);
  }

  lemma NoSteps(root: Table)
    ensures IsTree(root, [])
  {
  }

  lemma OneMoreStep(split: Split, s: JoinStep)
    ensures AllSteps(split.(flat := split.flat + [s])) == AllSteps(split) + multiset{s}
    ensures AllSteps(split.(groupChains := split.groupChains + [Chain(s, [])])) == AllSteps(split) + multiset{s}
    ensures AllSteps(split.(existsChains := split.existsChains + [Chain(s, [])])) == AllSteps(split) + multiset{s}
  {
    assert multiset(Chain(s, []).Steps()) == multiset{s} by {
      assert Chain(s, []).Steps() == [s];
    }
    assert multiset(split.flat + [s]) == multiset(split.flat) + multiset{s};
    hide ChainSteps, Chain.Steps;
    ChainStepsPush(split.groupChains, Chain(s, []));
    ChainStepsPush(split.existsChains, Chain(s, []));
  }

  lemma Relocated(chains: seq<Chain>, home: map<Table, nat>, c: nat, s: JoinStep)
    requires Locates(chains, home) && c < |chains|
    ensures Locates(Grown(chains, c, s), home[s.table := c])
  {
    hide Entered;
    var more, now := Grown(chains, c, s), home[s.table := c];
    EnteredMore(chains[c].anchor.table, chains[c].steps, s);
    forall t
      ensures SomeHas(more, t) <==> SomeHas(chains, t) || t == s.table
    {
      if i :| 0 <= i < |chains| && chains[i].Has(t) {
        assert more[i].Has(t);
      }
      if i :| 0 <= i < |more| && more[i].Has(t) && t != s.table {
        assert chains[i].Has(t);
      }
      assert more[c].Has(s.table);
    }
  }

  lemma Located(chains: seq<Chain>, home: map<Table, nat>, s: JoinStep)
    requires Locates(chains, home)
    ensures Locates(chains + [Chain(s, [])], home[s.table := |chains|])
  {
    var more := chains + [Chain(s, [])];
    forall t
      ensures SomeHas(more, t) <==> SomeHas(chains, t) || t == s.table
    {
      if i :| 0 <= i < |chains| && chains[i].Has(t) {
        assert more[i].Has(t);
      }
      assert more[|chains|].Has(s.table);
    }
  }

  lemma SameCuts(steps: seq<JoinStep>, was: Split, split: Split, needed: set<Table>, groups: set<Table>, values: set<Table>)
    requires CutRight(steps, was, needed, groups, values) && split.flat == was.flat
    requires |split.groupChains| == |was.groupChains| && |split.existsChains| == |was.existsChains|
    requires forall c :: 0 <= c < |was.groupChains| ==> split.groupChains[c].anchor == was.groupChains[c].anchor
    requires forall c :: 0 <= c < |was.existsChains| ==> split.existsChains[c].anchor == was.existsChains[c].anchor
    ensures CutRight(steps, split, needed, groups, values)
  {
  }

  lemma AddCut(steps: seq<JoinStep>, split: Split, s: JoinStep, needed: set<Table>, groups: set<Table>, values: set<Table>)
    requires CutRight(steps, split, needed, groups, values)
    ensures var cut := CutOf(steps, s, needed, groups, values);
      && (cut == NoCut ==> CutRight(steps, split.(flat := split.flat + [s]), needed, groups, values))
      && (cut == GroupCut ==> CutRight(steps, split.(groupChains := split.groupChains + [Chain(s, [])]), needed, groups, values))
      && (cut == ExistsCut ==> CutRight(steps, split.(existsChains := split.existsChains + [Chain(s, [])]), needed, groups, values))
  {
  }

  lemma FromIsFlat(root: Table, steps: seq<JoinStep>, split: Split, inGroup: map<Table, nat>, inExists: map<Table, nat>, t: Table)
    requires Splits(root, steps, split) && Locates(split.groupChains, inGroup) && Locates(split.existsChains, inExists)
    requires Entered(root, steps, t) && t !in inGroup && t !in inExists
    ensures Entered(root, split.flat, t)
  {
    ScopesCover(root, steps, split, t);
  }

  // ---- every table has one scope ----

  lemma {:induction false} DistinctOnce(steps: seq<JoinStep>, s: JoinStep)
    requires forall i, j :: 0 <= i < j < |steps| ==> steps[i] != steps[j]
    ensures multiset(steps)[s] <= 1
  {
    if steps != [] {
      var front, last := steps[..|steps| - 1], steps[|steps| - 1];
      assert steps == front + [last] && last !in front;
      DistinctOnce(front, s);
    }
  }

  lemma StepOnce(root: Table, steps: seq<JoinStep>, s: JoinStep)
    requires IsTree(root, steps)
    ensures multiset(steps)[s] <= 1
    ensures forall r :: r in steps && s in steps && r.table == s.table ==> r == s
    ensures s in steps ==> s.table != root
  {
    hide Entered;
    DistinctOnce(steps, s);
  }

  lemma InTwo(chains: seq<Chain>, a: nat, b: nat, s: JoinStep)
    requires a < b < |chains| && s in chains[a].Steps() && s in chains[b].Steps()
    ensures ChainSteps(chains)[s] >= 2
  {
    hide Chain.Steps;
    var front, last := chains[..|chains| - 1], chains[|chains| - 1];
    if b < |front| {
      InTwo(front, a, b, s);
    } else {
      assert front[a] == chains[a];
      InChain(front, s);
    }
  }

  /** The step that brought a table to a scope. */
  ghost predicate Brings(steps: seq<JoinStep>, t: Table, s: JoinStep) {
    s in steps && s.table == t
  }

  lemma HasIsBrought(c: Chain, t: Table)
    ensures c.Has(t) <==> exists s :: Brings(c.Steps(), t, s)
  {
    assert c.Steps()[0] == c.anchor;
    if i :| 0 <= i < |c.steps| && c.steps[i].table == t {
      assert Brings(c.Steps(), t, c.steps[i]);
    }
    if c.anchor.table == t {
      assert Brings(c.Steps(), t, c.anchor);
    }
    if s :| Brings(c.Steps(), t, s) && s != c.anchor {
      var i :| 0 <= i < |c.steps| && c.steps[i] == s;
    }
  }

  ghost predicate OnePerTable(m: multiset<JoinStep>) {
    && (forall s :: m[s] <= 1)
    && (forall r, s :: r in m && s in m && r.table == s.table ==> r == s)
  }

  lemma TreeHasOnePerTable(root: Table, steps: seq<JoinStep>)
    requires IsTree(root, steps)
    ensures OnePerTable(multiset(steps))
    ensures forall s :: s in multiset(steps) ==> s.table != root
  {
    forall s
      ensures multiset(steps)[s] <= 1
      ensures forall r :: r in multiset(steps) && s in multiset(steps) && r.table == s.table ==> r == s
      ensures s in multiset(steps) ==> s.table != root
    {
      StepOnce(root, steps, s);
    }
  }

  /** Two parts of it never bring the same table. */
  lemma PartsApart(m: multiset<JoinStep>, a: multiset<JoinStep>, b: multiset<JoinStep>, r: JoinStep, s: JoinStep)
    requires OnePerTable(m) && a + b <= m && r in a && s in b
    ensures r.table != s.table
  {
  }

  /** Chains that share no step share no table. */
  lemma ChainsApart(chains: seq<Chain>, t: Table)
    requires OnePerTable(ChainSteps(chains))
    ensures forall a, b :: 0 <= a < b < |chains| ==> !chains[a].Has(t) || !chains[b].Has(t)
    ensures SomeHas(chains, t) ==> exists s :: s in ChainSteps(chains) && s.table == t
  {
    hide Chain.Steps, Chain.Has, ChainSteps;
    forall c | 0 <= c < |chains| && chains[c].Has(t)
      ensures exists s :: Brings(chains[c].Steps(), t, s) && s in ChainSteps(chains)
    {
      HasIsBrought(chains[c], t);
      var s :| Brings(chains[c].Steps(), t, s);
      InChain(chains, s);
    }
    forall a, b | 0 <= a < b < |chains| && chains[a].Has(t) && chains[b].Has(t)
      ensures false
    {
      var r :| Brings(chains[a].Steps(), t, r) && r in ChainSteps(chains);
      var s :| Brings(chains[b].Steps(), t, s) && s in ChainSteps(chains);
      InTwo(chains, a, b, s);
    }
  }

  /** No table is in two scopes. */
  lemma OneScope(root: Table, steps: seq<JoinStep>, split: Split, t: Table)
    requires IsTree(root, steps) && Splits(root, steps, split)
    ensures forall a, b :: 0 <= a < b < |split.groupChains| ==> !split.groupChains[a].Has(t) || !split.groupChains[b].Has(t)
    ensures forall a, b :: 0 <= a < b < |split.existsChains| ==> !split.existsChains[a].Has(t) || !split.existsChains[b].Has(t)
    ensures !SomeHas(split.groupChains, t) || !SomeHas(split.existsChains, t)
    ensures Entered(root, split.flat, t) ==> !SomeHas(split.groupChains, t) && !SomeHas(split.existsChains, t)
  {
    OneScopeSteps(root, steps, split);
    var all, flat, groups, exist := multiset(steps), multiset(split.flat), ChainSteps(split.groupChains), ChainSteps(split.existsChains);
    hide ChainSteps, Chain.Has, IsTree, Hangs, SomeHas, Entered, Splits, AllSteps;
    PartIsOnePerTable(all, groups);
    PartIsOnePerTable(all, exist);
    hide OnePerTable;
    ChainsApart(split.groupChains, t);
    ChainsApart(split.existsChains, t);
    EnteredIsStep(root, split.flat, t);
  }

  /** The steps of the flat part, the group chains and the filter chains bring different tables. */
  lemma OneScopeSteps(root: Table, steps: seq<JoinStep>, split: Split)
    requires IsTree(root, steps) && Splits(root, steps, split)
    ensures var all, flat, groups, exist := multiset(steps), multiset(split.flat), ChainSteps(split.groupChains), ChainSteps(split.existsChains);
      && OnePerTable(all) && all == flat + groups + exist
      && (forall r, s :: r in groups && s in exist ==> r.table != s.table)
      && (forall r, s :: r in flat && (s in groups || s in exist) ==> r.table != s.table)
      && (forall s :: s in groups || s in exist ==> s.table != root)
  {
    TreeHasOnePerTable(root, steps);
    var all, flat, groups, exist := multiset(steps), multiset(split.flat), ChainSteps(split.groupChains), ChainSteps(split.existsChains);
    assert all == flat + groups + exist;
    hide ChainSteps, Chain.Has, IsTree, Hangs, OnePerTable, Entered, AllSteps, Splits;
    forall r, s | r in groups && s in exist
      ensures r.table != s.table
    {
      PartsApart(all, groups, exist, r, s);
    }
    forall r, s | r in flat && (s in groups || s in exist)
      ensures r.table != s.table
    {
      assert s in groups + exist;
      PartsApart(all, flat, groups + exist, r, s);
    }
    forall s | s in groups || s in exist
      ensures s.table != root
    {
      assert s in all;
    }
  }

  lemma PartIsOnePerTable(m: multiset<JoinStep>, part: multiset<JoinStep>)
    requires OnePerTable(m) && part <= m
    ensures OnePerTable(part)
  {
  }

  lemma ChainBelow(root: Table, steps: seq<JoinStep>, c: Chain, t: Table)
    requires IsTree(root, steps) && IsTree(c.anchor.table, c.steps) && (forall s :: s in c.steps ==> s in steps)
    requires c.Has(t)
    ensures Below(steps, c.anchor.table, t)
    decreases Position(c.anchor.table, c.steps, t)
  {
    hide Below;
    if t == c.anchor.table {
      assert Below(steps, t, t) by { BelowSelf(steps, t); }
    } else {
      var k := Position(c.anchor.table, c.steps, t) - 1;
      var j :| 0 <= j < |c.steps| && c.steps[j].table == t;
      KidIsDeeper(c.anchor.table, c.steps, k);
      ChainBelow(root, steps, c, c.steps[k].fromTable);
      assert c.steps[k] in steps;
      var i :| 0 <= i < |steps| && steps[i] == c.steps[k];
      BelowExtends(root, steps, c.anchor.table, i);
    }
  }

  lemma BelowSelf(steps: seq<JoinStep>, t: Table)
    ensures Below(steps, t, t)
  {
  }

  lemma ChainInTree(root: Table, steps: seq<JoinStep>, split: Split, c: Chain)
    requires Splits(root, steps, split) && (c in split.groupChains || c in split.existsChains)
    ensures IsTree(c.anchor.table, c.steps) && forall s :: s in c.steps ==> s in steps
  {
    forall s | s in c.steps
      ensures s in steps
    {
      assert s in c.Steps();
      InChain(split.groupChains, s);
      InChain(split.existsChains, s);
      assert s in AllSteps(split);
      assert s in multiset(steps);
    }
  }

  lemma CarvedBelow(root: Table, steps: seq<JoinStep>, split: Split, c: Chain, wanted: set<Table>, t: Table)
    requires IsTree(root, steps) && Splits(root, steps, split) && (c in split.groupChains || c in split.existsChains)
    requires c.Has(t) && t in wanted
    ensures AnyBelow(steps, c.anchor.table, wanted)
  {
    ChainInTree(root, steps, split, c);
    ChainBelow(root, steps, c, t);
  }

  /** What the SELECT list reads stays in sight: no table it needs is carved into an EXISTS, and a
    * table whose rows are aggregated stays flat. */
  lemma NeededStaysVisible(root: Table, steps: seq<JoinStep>, split: Split, needed: set<Table>, groups: set<Table>, values: set<Table>, t: Table)
    requires IsTree(root, steps) && Splits(root, steps, split) && CutRight(steps, split, needed, groups, values)
    requires Entered(root, steps, t) && t in needed
    ensures !SomeHas(split.existsChains, t)
    ensures t in values ==> Entered(root, split.flat, t)
    ensures Entered(root, split.flat, t) || SomeHas(split.groupChains, t)
  {
    hide IsTree, Entered, Below, Splits;
    forall c | 0 <= c < |split.existsChains| && split.existsChains[c].Has(t)
      ensures AnyBelow(steps, split.existsChains[c].anchor.table, needed)
    {
      CarvedBelow(root, steps, split, split.existsChains[c], needed, t);
    }
    forall c | 0 <= c < |split.groupChains| && split.groupChains[c].Has(t) && t in values
      ensures AnyBelow(steps, split.groupChains[c].anchor.table, values)
    {
      CarvedBelow(root, steps, split, split.groupChains[c], values, t);
    }
    hide AnyBelow, Chain.Has;
    assert !SomeHas(split.existsChains, t);
    assert t in values ==> !SomeHas(split.groupChains, t);
    ScopesCover(root, steps, split, t);
  }

  // ---- predicates and group keys ----

  /** Is predicate `p` tagged with a table of the chain? */
  ghost predicate For(c: Chain, preds: seq<Option<Table>>, p: nat) {
    p < |preds| && preds[p].Some? && c.Has(preds[p].value)
  }

  ghost predicate ForSome(chains: seq<Chain>, preds: seq<Option<Table>>, p: nat) {
    p < |preds| && preds[p].Some? && SomeHas(chains, preds[p].value)
  }

  /** The predicates of one chain, in order. */
  ghost predicate TakesFor(c: Chain, preds: seq<Option<Table>>, taken: seq<nat>) {
    && (forall p: nat :: p in taken <==> For(c, preds, p))
    && Ascending(taken)
  }

  predicate Ascending(s: seq<nat>) {
    forall i, j :: 0 <= i < j < |s| ==> s[i] < s[j]
  }

  function ChainTables(c: Chain): seq<Table> {
    [c.anchor.table] + TablesOf(c.steps)
  }

  method PredsOf(c: Chain, preds: seq<Option<Table>>, before: seq<bool>) returns (taken: seq<nat>, used: seq<bool>)
    requires |before| == |preds|
    ensures TakesFor(c, preds, taken)
    ensures |used| == |preds| && forall p :: 0 <= p < |preds| ==> (used[p] <==> before[p] || For(c, preds, p))
  {
    hide Chain.Has, Ascending;
    taken, used := [], before;
    NoneTaken();
    for p := 0 to |preds|
      invariant |used| == |preds|
      invariant forall q :: 0 <= q < |preds| ==> (used[q] <==> before[q] || (q < p && For(c, preds, q)))
      invariant forall q: nat :: q in taken <==> q < p && For(c, preds, q)
      invariant Ascending(taken)
    {
      if preds[p].Some? && preds[p].value in ChainTables(c) {
        assert c.Has(preds[p].value) by { HasIsListed(c, preds[p].value); }
        AscendingMore(taken, p);
        taken := taken + [p];
        used := used[p := true];
      } else if preds[p].Some? {
        assert !c.Has(preds[p].value) by { HasIsListed(c, preds[p].value); }
      }
    }
  }

  lemma HasIsListed(c: Chain, t: Table)
    ensures c.Has(t) <==> t in ChainTables(c)
  {
  }

  /** The chains' predicates and, last, the ones no chain took. */
  method PlacePreds(groupChains: seq<Chain>, existsChains: seq<Chain>, preds: seq<Option<Table>>)
    returns (groupPreds: seq<seq<nat>>, existsPreds: seq<seq<nat>>, conds: seq<nat>)
    ensures |groupPreds| == |groupChains| && |existsPreds| == |existsChains|
    ensures forall c :: 0 <= c < |groupChains| ==> TakesFor(groupChains[c], preds, groupPreds[c])
    ensures forall c :: 0 <= c < |existsChains| ==> TakesFor(existsChains[c], preds, existsPreds[c])
    ensures forall p: nat :: p in conds <==> p < |preds| && !ForSome(groupChains, preds, p) && !ForSome(existsChains, preds, p)
    ensures Ascending(conds)
  {
    hide TakesFor, Ascending, For, ForSome;
    var used := seq(|preds|, _ => false);
    groupPreds, existsPreds, conds := [], [], [];
    NoneTaken();
    for c := 0 to |groupChains|
      invariant |groupPreds| == c && |used| == |preds|
      invariant forall d :: 0 <= d < c ==> TakesFor(groupChains[d], preds, groupPreds[d])
      invariant forall p :: 0 <= p < |preds| ==> (used[p] <==> ForSome(groupChains[..c], preds, p))
    {
      var taken;
      taken, used := PredsOf(groupChains[c], preds, used);
      groupPreds := groupPreds + [taken];
      ForOneMore(groupChains, c, preds);
    }
    assert groupChains[..|groupChains|] == groupChains;
    for c := 0 to |existsChains|
      invariant |existsPreds| == c && |used| == |preds|
      invariant forall d :: 0 <= d < c ==> TakesFor(existsChains[d], preds, existsPreds[d])
      invariant forall p :: 0 <= p < |preds| ==>
        (used[p] <==> ForSome(groupChains, preds, p) || ForSome(existsChains[..c], preds, p))
    {
      var taken;
      taken, used := PredsOf(existsChains[c], preds, used);
      existsPreds := existsPreds + [taken];
      ForOneMore(existsChains, c, preds);
    }
    assert existsChains[..|existsChains|] == existsChains;
    for p := 0 to |preds|
      invariant forall q: nat :: q in conds <==> q < p && !used[q]
      invariant Ascending(conds)
    {
      if !used[p] {
        AscendingMore(conds, p);
        conds := conds + [p];
      }
    }
  }

  lemma NoneTaken()
    ensures Ascending([])
    ensures forall preds, p: nat :: !ForSome([], preds, p)
  {
  }

  lemma AscendingMore(s: seq<nat>, p: nat)
    requires Ascending(s) && forall q :: q in s ==> q < p
    ensures Ascending(s + [p])
  {
    assert forall i :: 0 <= i < |s| ==> s[i] in s;
  }

  lemma HasOneMore(chains: seq<Chain>, c: nat)
    requires c < |chains|
    ensures forall t :: SomeHas(chains[..c + 1], t) <==> SomeHas(chains[..c], t) || chains[c].Has(t)
  {
  }

  lemma ForOneMore(chains: seq<Chain>, c: nat, preds: seq<Option<Table>>)
    requires c < |chains|
    ensures forall p: nat :: ForSome(chains[..c + 1], preds, p) <==> ForSome(chains[..c], preds, p) || For(chains[c], preds, p)
  {
  }

  /** A group key's place in a DISTINCT map: its chain and its column there. */
  datatype KeyRef = KeyRef(chain: nat, slot: nat)

  ghost predicate RefersRight(selected: seq<seq<GroupKey>>, refs: map<GroupKey, KeyRef>, k: GroupKey) {
    k in refs && refs[k].chain < |selected| && refs[k].slot < |selected[refs[k].chain]|
    && selected[refs[k].chain][refs[k].slot] == k
  }

  method SelectKeys(chains: seq<Chain>, keys: seq<GroupKey>) returns (selected: seq<seq<GroupKey>>, refs: map<GroupKey, KeyRef>)
    ensures |selected| == |chains|
    ensures forall c, k :: 0 <= c < |chains| ==> (k in selected[c] <==> k in keys && chains[c].Has(k.table))
    ensures forall k :: k in refs <==> k in keys && SomeHas(chains, k.table)
    ensures forall k :: k in refs ==> RefersRight(selected, refs, k)
  {
    hide Chain.Has, RefersRight;
    selected, refs := [], map[];
    for c := 0 to |chains|
      invariant |selected| == c
      invariant forall d, k :: 0 <= d < c ==> (k in selected[d] <==> k in keys && chains[d].Has(k.table))
      invariant forall k :: k in refs <==> k in keys && SomeHas(chains[..c], k.table)
      invariant forall k :: k in refs ==> RefersRight(selected, refs, k)
    {
      var mine, own := KeysOfChain(chains[c], c, keys);
      HasOneMore(chains, c);
      ghost var was := refs;
      refs := refs + own;
      selected := selected + [mine];
      forall k | k in refs
        ensures RefersRight(selected, refs, k)
      {
        RefersStill(selected[..c], mine, was, own, k);
        assert selected[..c] + [mine] == selected;
      }
    }
    assert chains[..|chains|] == chains;
  }

  lemma RefersStill(selected: seq<seq<GroupKey>>, mine: seq<GroupKey>, refs: map<GroupKey, KeyRef>, own: map<GroupKey, KeyRef>, k: GroupKey)
    requires k in own ==> own[k].chain == |selected| && own[k].slot < |mine| && mine[own[k].slot] == k
    requires k in own || RefersRight(selected, refs, k)
    ensures RefersRight(selected + [mine], refs + own, k)
  {
  }

  method KeysOfChain(c: Chain, at: nat, keys: seq<GroupKey>) returns (mine: seq<GroupKey>, own: map<GroupKey, KeyRef>)
    ensures forall k :: k in mine <==> k in keys && c.Has(k.table)
    ensures forall k :: k in own <==> k in mine
    ensures forall k :: k in own ==> own[k].chain == at && own[k].slot < |mine| && mine[own[k].slot] == k
  {
    hide Chain.Has;
    mine, own := [], map[];
    for i := 0 to |keys|
      invariant forall k :: k in mine <==> k in keys[..i] && c.Has(k.table)
      invariant forall k :: k in own <==> k in mine
      invariant forall k :: k in own ==> own[k].chain == at && own[k].slot < |mine| && mine[own[k].slot] == k
    {
      HasIsListed(c, keys[i].table);
      assert keys[..i + 1] == keys[..i] + [keys[i]];
      if keys[i].table in ChainTables(c) {
        own := own[keys[i] := KeyRef(at, |mine|)];
        mine := mine + [keys[i]];
      }
    }
    assert keys[..|keys|] == keys;
  }

  // ---- the whole clause ----

  datatype Clause = Clause(
    root: Table, split: Split,
    groupPreds: seq<seq<nat>>, existsPreds: seq<seq<nat>>, conds: seq<nat>,
    selected: seq<seq<GroupKey>>, refs: map<GroupKey, KeyRef>)

  datatype FromResult = From(clause: Clause) | JoinFailure(error: JoinResult)

  ghost predicate Places(clause: Clause, preds: seq<Option<Table>>) {
    var s := clause.split;
    && |clause.groupPreds| == |s.groupChains| && |clause.existsPreds| == |s.existsChains|
    && (forall c :: 0 <= c < |s.groupChains| ==> TakesFor(s.groupChains[c], preds, clause.groupPreds[c]))
    && (forall c :: 0 <= c < |s.existsChains| ==> TakesFor(s.existsChains[c], preds, clause.existsPreds[c]))
    && (forall p: nat :: p in clause.conds <==>
          p < |preds| && !ForSome(s.groupChains, preds, p) && !ForSome(s.existsChains, preds, p))
    && Ascending(clause.conds)
  }

  ghost predicate Projects(clause: Clause, keys: seq<GroupKey>) {
    var chains := clause.split.groupChains;
    && |clause.selected| == |chains|
    && (forall c, k :: 0 <= c < |chains| ==> (k in clause.selected[c] <==> k in keys && chains[c].Has(k.table)))
    && (forall k :: k in clause.refs <==> k in keys && SomeHas(chains, k.table))
    && (forall k :: k in clause.refs ==> RefersRight(clause.selected, clause.refs, k))
  }

  function KeyTables(keys: seq<GroupKey>): set<Table> {
    set k | k in keys :: k.table
  }

  function ValuesOf(needed: set<Table>, values: Option<set<Table>>, keys: seq<GroupKey>): set<Table> {
    if values.Some? then values.value else needed - KeyTables(keys)
  }

  lemma OneTable(rels: seq<Relationship>, tables: seq<Table>, preds: seq<Option<Table>>, needed: set<Table>, groups: set<Table>, values: set<Table>)
    requires |tables| == 1
    ensures Infer(rels, tables) == Path([])
    ensures Splits(tables[0], [], Split([], [], [])) && CutRight([], Split([], [], []), needed, groups, values)
    ensures (forall p: nat :: !ForSome([], preds, p)) && (forall t :: !SomeHas([], t))
  {
  }

  lemma AllPlain(root: Table, preds: seq<Option<Table>>, all: seq<nat>)
    requires |all| == |preds| && forall p :: 0 <= p < |preds| ==> all[p] == p
    ensures Places(Clause(root, Split([], [], []), [], [], all, [], map[]), preds)
  {
    forall p: nat | p < |preds|
      ensures p in all
    {
      assert all[p] == p;
    }
  }

  method StitchedClusterFrom(rels: seq<Relationship>, tables: seq<Table>, needed: set<Table>, preds: seq<Option<Table>>,
    values: Option<set<Table>>, keys: seq<GroupKey>) returns (r: FromResult)
    requires tables != []
    ensures r.JoinFailure? <==> |tables| > 1 && !Infer(rels, tables).Path?
    ensures r.JoinFailure? ==> r.error == Infer(rels, tables)
    ensures r.From? ==> r.clause.root == tables[0] && Infer(rels, tables).Path?
    ensures r.From? ==>
      var steps := Infer(rels, tables).steps;
      && Splits(tables[0], steps, r.clause.split)
      && CutRight(steps, r.clause.split, needed, KeyTables(keys), ValuesOf(needed, values, keys))
    ensures r.From? ==> Places(r.clause, preds) && Projects(r.clause, keys)
  {
    hide IsTree, Entered, Splits, CutRight, Locates, Infer, AllDeclared, TakesFor, ForSome, SomeHas, RefersRight, Chain.Has;
    if |tables| == 1 {
      var all := seq(|preds|, p requires 0 <= p < |preds| => p);
      OneTable(rels, tables, preds, needed, KeyTables(keys), ValuesOf(needed, values, keys));
      AllPlain(tables[0], preds, all);
      r := From(Clause(tables[0], Split([], [], []), [], [], all, [], map[]));
      return;
    }
    var jp := InferJoinPath(rels, tables);
    if !jp.Path? {
      return JoinFailure(jp);
    }
    InferIsTree(rels, tables);
    var split, inGroup, inExists := SplitTree(tables[0], jp.steps, needed, KeyTables(keys), ValuesOf(needed, values, keys));
    var selected, refs := SelectKeys(split.groupChains, keys);
    var groupPreds, existsPreds, conds := PlacePreds(split.groupChains, split.existsChains, preds);
    r := From(Clause(tables[0], split, groupPreds, existsPreds, conds, selected, refs));
  }

  // ---- what is cut ----

  lemma {:induction false} RootIsNotBelow(root: Table, steps: seq<JoinStep>, t: Table)
    requires (forall s :: s in steps ==> s.table != root) && Below(steps, t, root)
    ensures t == root
  {
    if steps != [] && t != root {
      RootIsNotBelow(root, steps[..|steps| - 1], t);
    }
  }

  lemma FlatIsStep(root: Table, steps: seq<JoinStep>, split: Split, s: JoinStep)
    requires Splits(root, steps, split) && s in split.flat
    ensures s in steps
  {
    assert s in multiset(split.flat);
    assert s in multiset(steps);
  }

  /** Where the root alone is aggregated and the SELECT list needs it and the group tables only, every
    * bidirectional step is cut: none is left among the flat joins. */
  lemma BridgesAreCut(root: Table, steps: seq<JoinStep>, split: Split, needed: set<Table>, groups: set<Table>)
    requires IsTree(root, steps) && Splits(root, steps, split) && CutRight(steps, split, needed, groups, {root}) && needed <= groups + {root}
    ensures forall s :: s in split.flat ==> s in steps && !s.bidirectional
  {
    hide Splits, Entered;
    forall s | s in split.flat
      ensures s in steps && !s.bidirectional
    {
      FlatIsStep(root, steps, split, s);
      if AnyBelow(steps, s.table, {root}) {
        RootIsNotBelow(root, steps, s.table);
      }
      assert CutOf(steps, s, needed, groups, {root}) == NoCut;
      assert AnyBelow(steps, s.table, needed) ==> AnyBelow(steps, s.table, groups) by {
        hide Below;
        assert !AnyBelow(steps, s.table, {root});
      }
    }
  }

  /** Nothing else is cut: without bidirectional steps all of the tree is joined flat. */
  lemma NothingElseIsCut(root: Table, steps: seq<JoinStep>, split: Split, needed: set<Table>, groups: set<Table>, values: set<Table>)
    requires Splits(root, steps, split) && CutRight(steps, split, needed, groups, values)
    requires forall s :: s in steps ==> !s.bidirectional
    ensures split.groupChains == [] && split.existsChains == [] && multiset(split.flat) == multiset(steps)
  {
    AnchorsAreSteps(root, steps, split);
    hide Splits, CutOf;
    BridgesOnly(steps, split, needed, groups, values);
    Relational.SomeIn(split.groupChains);
    Relational.SomeIn(split.existsChains);
  }

  lemma BridgesOnly(steps: seq<JoinStep>, split: Split, needed: set<Table>, groups: set<Table>, values: set<Table>)
    requires CutRight(steps, split, needed, groups, values)
    ensures forall c :: c in split.groupChains || c in split.existsChains ==> c.anchor.bidirectional
  {
  }

  lemma AnchorsAreSteps(root: Table, steps: seq<JoinStep>, split: Split)
    requires Splits(root, steps, split)
    ensures forall c :: c in split.groupChains || c in split.existsChains ==> c.anchor in steps
    ensures split.groupChains == [] && split.existsChains == [] ==> multiset(split.flat) == multiset(steps)
  {
    ChainsAreSteps(split.groupChains);
    ChainsAreSteps(split.existsChains);
    forall c | c in split.groupChains || c in split.existsChains
      ensures c.anchor in steps
    {
      assert c.anchor in AllSteps(split);
      assert c.anchor in multiset(steps);
    }
  }

  lemma {:induction false} ChainsAreSteps(chains: seq<Chain>)
    ensures forall c :: c in chains ==> c.anchor in ChainSteps(chains)
  {
    if chains != [] {
      ChainsAreSteps(chains[..|chains| - 1]);
      var last := chains[|chains| - 1];
      assert last.Steps()[0] == last.anchor;
      assert last.anchor in multiset(last.Steps());
      assert chains == chains[..|chains| - 1] + [last];
    }
  }

  ghost predicate InChainPreds(taken: seq<seq<nat>>, p: nat) {
    exists c :: 0 <= c < |taken| && p in taken[c]
  }

  lemma TakenIsFor(chains: seq<Chain>, preds: seq<Option<Table>>, taken: seq<seq<nat>>, p: nat)
    requires |taken| == |chains| && forall c :: 0 <= c < |chains| ==> TakesFor(chains[c], preds, taken[c])
    ensures InChainPreds(taken, p) <==> ForSome(chains, preds, p)
  {
  }

  /** Every predicate is applied once, and where its table is in scope. */
  lemma EachPredicateOnce(root: Table, steps: seq<JoinStep>, clause: Clause, preds: seq<Option<Table>>, p: nat)
    requires IsTree(root, steps) && Splits(root, steps, clause.split) && Places(clause, preds)
    requires p < |preds| && (preds[p].Some? ==> Entered(root, steps, preds[p].value))
    ensures p in clause.conds <==> !InChainPreds(clause.groupPreds, p) && !InChainPreds(clause.existsPreds, p)
    ensures !InChainPreds(clause.groupPreds, p) || !InChainPreds(clause.existsPreds, p)
    ensures forall a, b :: 0 <= a < b < |clause.groupPreds| ==> p !in clause.groupPreds[a] || p !in clause.groupPreds[b]
    ensures forall a, b :: 0 <= a < b < |clause.existsPreds| ==> p !in clause.existsPreds[a] || p !in clause.existsPreds[b]
    ensures p in clause.conds && preds[p].Some? ==> Entered(root, clause.split.flat, preds[p].value)
    ensures forall c :: 0 <= c < |clause.groupPreds| && p in clause.groupPreds[c] ==>
      preds[p].Some? && clause.split.groupChains[c].Has(preds[p].value)
    ensures forall c :: 0 <= c < |clause.existsPreds| && p in clause.existsPreds[c] ==>
      preds[p].Some? && clause.split.existsChains[c].Has(preds[p].value)
  {
    hide IsTree, Entered, Chain.Has, Splits, InChainPreds, Ascending, SomeHas;
    TakenIsFor(clause.split.groupChains, preds, clause.groupPreds, p);
    TakenIsFor(clause.split.existsChains, preds, clause.existsPreds, p);
    if preds[p].Some? {
      OneScope(root, steps, clause.split, preds[p].value);
      ScopesCover(root, steps, clause.split, preds[p].value);
    }
  }
}
