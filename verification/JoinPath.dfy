/** Join inference: the tree of LEFT JOINs that connects a list of tables. */
module JoinPath {
  import opened Relationships
  import opened JoinSearch

  // ---- what inference means ----

  function TablesOf(steps: seq<JoinStep>): (tables: seq<Table>)
    ensures |tables| == |steps|
    ensures forall i :: 0 <= i < |steps| ==> tables[i] == steps[i].table
  {
    if steps == [] then [] else [steps[0].table] + TablesOf(steps[1..])
  }

  lemma TablesOfConcat(a: seq<JoinStep>, b: seq<JoinStep>)
    ensures TablesOf(a + b) == TablesOf(a) + TablesOf(b)
  {
  }

  /** Each target in turn is joined to everything joined before it. */
  ghost function InferFrom(rels: seq<Relationship>, joined: seq<Table>, steps: seq<JoinStep>, targets: seq<Table>): JoinResult
    requires joined != []
    decreases |targets|
  {
    if targets == [] then Path(steps)
    else if targets[0] in joined then InferFrom(rels, joined, steps, targets[1..])
    else match Join(rels, joined, targets[0])
      case Path(path) => InferFrom(rels, joined + TablesOf(path), steps + path, targets[1..])
      case failure => failure
  }

  ghost function Infer(rels: seq<Relationship>, tables: seq<Table>): JoinResult {
    if |tables| <= 1 then Path([]) else InferFrom(rels, [tables[0]], [], tables[1..])
  }

  // ---- the tree ----

  /** Steps in order, each leaving the root or an earlier step's table, each bringing a new table. */
  ghost predicate IsTree(root: Table, steps: seq<JoinStep>) {
    && (forall i :: 0 <= i < |steps| ==> steps[i].table != root)
    && (forall i, j :: 0 <= i < j < |steps| ==> steps[i].table != steps[j].table)
    && (forall i :: 0 <= i < |steps| ==> Entered(root, steps[..i], steps[i].fromTable))
  }

  ghost predicate Entered(root: Table, steps: seq<JoinStep>, t: Table) {
    t == root || exists i :: 0 <= i < |steps| && steps[i].table == t
  }

  lemma EnteredIsJoined(root: Table, steps: seq<JoinStep>, t: Table)
    ensures Entered(root, steps, t) <==> t in [root] + TablesOf(steps)
  {
  }

  lemma EnteredGrows(root: Table, steps: seq<JoinStep>, more: seq<JoinStep>, t: Table)
    requires Entered(root, steps, t)
    ensures Entered(root, steps + more, t)
  {
    if t != root {
      var i :| 0 <= i < |steps| && steps[i].table == t;
      assert (steps + more)[i].table == t;
    }
  }

  /** A chain of new, distinct tables that starts at a joined one and ends at `to`. */
  ghost predicate Chain(joined: seq<Table>, path: seq<JoinStep>, to: Table) {
    && (forall i :: 0 <= i < |path| ==> path[i].table !in joined)
    && (forall i, j :: 0 <= i < j < |path| ==> path[i].table != path[j].table)
    && (path != [] ==> path[0].fromTable in joined && path[|path| - 1].table == to)
    && (forall i :: 0 < i < |path| ==> path[i].fromTable == path[i - 1].table)
    && (path == [] ==> to in joined)
  }

  /** A shortest walk reads as a chain of declared relationships. */
  lemma ShortestIsChain(rels: seq<Relationship>, joined: seq<Table>, w: Walk, to: Table)
    requires Shortest(rels, joined, w, to)
    ensures Chain(joined, StepsOf(rels, w), to) && AllDeclared(rels, StepsOf(rels, w))
  {
    hide End, StepsOf;
    var path := StepsOf(rels, w);
    ShortestIsSimple(rels, joined, w, to);
    AtEnds(rels, w);
    forall i | 0 <= i < |path|
      ensures path[i].fromTable == At(rels, w, i) && path[i].table == At(rels, w, i + 1)
    {
      StepAt(rels, w, i);
    }
    StepsAreDeclared(rels, w);
    forall i, j | 0 <= i < j < |path|
      ensures path[i].table != path[j].table
    {
      assert path[i].table == At(rels, w, i + 1) && path[j].table == At(rels, w, j + 1);
    }
    forall i | 0 < i < |path|
      ensures path[i].fromTable == path[i - 1].table
    {
      assert path[i - 1].table == At(rels, w, i - 1 + 1);
    }
    if path == [] {
      assert w.edges == [] && to == w.src;
    } else {
      assert path[0].fromTable == At(rels, w, 0);
      assert path[|path| - 1].table == At(rels, w, |path| - 1 + 1);
    }
    forall i | 0 <= i < |path|
      ensures path[i].table !in joined
    {
      assert path[i].table == At(rels, w, i + 1);
    }
  }

  lemma JoinIsChain(rels: seq<Relationship>, joined: seq<Table>, to: Table)
    requires joined != [] && Join(rels, joined, to).Path?
    ensures Chain(joined, Join(rels, joined, to).steps, to)
    ensures AllDeclared(rels, Join(rels, joined, to).steps)
  {
    hide End, StepsOf, Chain;
    SomeShortest(rels, joined, to);
    forall w | Shortest(rels, joined, w, to)
      ensures Chain(joined, StepsOf(rels, w), to) && AllDeclared(rels, StepsOf(rels, w))
    {
      ShortestIsChain(rels, joined, w, to);
    }
  }

  lemma ChainGrowsTree(root: Table, steps: seq<JoinStep>, path: seq<JoinStep>, to: Table)
    requires IsTree(root, steps) && Chain([root] + TablesOf(steps), path, to)
    ensures IsTree(root, steps + path) && Entered(root, steps + path, to)
  {
    var joined, all := [root] + TablesOf(steps), steps + path;
    forall i | 0 <= i < |all|
      ensures all[i].table != root && Entered(root, all[..i], all[i].fromTable)
    {
      if i < |steps| {
        assert all[..i] == steps[..i];
      } else if i == |steps| {
        assert all[..i] == steps && path[0].fromTable in joined;
        EnteredIsJoined(root, steps, path[0].fromTable);
      } else {
        assert all[..i][i - 1] == path[i - |steps| - 1];
      }
    }
    forall i, j | 0 <= i < j < |all|
      ensures all[i].table != all[j].table
    {
      if i < |steps| && j >= |steps| {
        assert joined[i + 1] == all[i].table;
        assert path[j - |steps|].table !in joined;
      }
    }
    if path == [] {
      EnteredIsJoined(root, steps, to);
      assert all == steps;
    } else {
      assert all[|all| - 1] == path[|path| - 1];
    }
  }

  lemma DeclaredConcat(rels: seq<Relationship>, a: seq<JoinStep>, b: seq<JoinStep>)
    requires AllDeclared(rels, a) && AllDeclared(rels, b)
    ensures AllDeclared(rels, a + b)
  {
  }

  /** A found path keeps the tree a tree, and reaches its target. */
  lemma PathGrowsTree(rels: seq<Relationship>, root: Table, steps: seq<JoinStep>, to: Table)
    requires IsTree(root, steps) && AllDeclared(rels, steps)
    requires Join(rels, [root] + TablesOf(steps), to).Path?
    ensures var path := Join(rels, [root] + TablesOf(steps), to).steps;
      && Chain([root] + TablesOf(steps), path, to)
      && IsTree(root, steps + path) && AllDeclared(rels, steps + path)
      && Entered(root, steps + path, to)
      && [root] + TablesOf(steps + path) == [root] + TablesOf(steps) + TablesOf(path)
  {
    hide Join, IsTree, Chain, Entered, AllDeclared, TablesOf;
    var joined := [root] + TablesOf(steps);
    var path := Join(rels, joined, to).steps;
    JoinIsChain(rels, joined, to);
    ChainGrowsTree(root, steps, path, to);
    DeclaredConcat(rels, steps, path);
    TablesOfConcat(steps, path);
    assert [root] + (TablesOf(steps) + TablesOf(path)) == joined + TablesOf(path);
  }

  lemma InferFromTree(rels: seq<Relationship>, root: Table, steps: seq<JoinStep>, targets: seq<Table>)
    requires IsTree(root, steps) && AllDeclared(rels, steps)
    requires InferFrom(rels, [root] + TablesOf(steps), steps, targets).Path?
    ensures var out := InferFrom(rels, [root] + TablesOf(steps), steps, targets).steps;
      && steps <= out && IsTree(root, out) && AllDeclared(rels, out)
      && forall t :: t in targets ==> Entered(root, out, t)
    decreases |targets|
  {
    hide Join, IsTree, Chain, Entered, AllDeclared;
    var joined := [root] + TablesOf(steps);
    if targets != [] {
      var out := InferFrom(rels, joined, steps, targets).steps;
      if targets[0] in joined {
        InferFromTree(rels, root, steps, targets[1..]);
        EnteredIsJoined(root, steps, targets[0]);
        EnteredGrows(root, steps, out[|steps|..], targets[0]);
        assert out == steps + out[|steps|..];
      } else {
        var path := Join(rels, joined, targets[0]).steps;
        PathGrowsTree(rels, root, steps, targets[0]);
        InferFromTree(rels, root, steps + path, targets[1..]);
        EnteredGrows(root, steps + path, out[|steps + path|..], targets[0]);
        assert out == (steps + path) + out[|steps + path|..];
      }
    }
  }

  /** An inferred path is a tree of declared relationships, rooted at the first table, that
    * reaches every table asked for. */
  lemma InferIsTree(rels: seq<Relationship>, tables: seq<Table>)
    requires tables != [] && Infer(rels, tables).Path?
    ensures IsTree(tables[0], Infer(rels, tables).steps)
    ensures AllDeclared(rels, Infer(rels, tables).steps)
    ensures forall t :: t in tables ==> Entered(tables[0], Infer(rels, tables).steps, t)
  {
    hide Join, InferFrom, IsTree, Entered, AllDeclared;
    InferStart(rels, tables);
    EnteredIsJoined(tables[0], Infer(rels, tables).steps, tables[0]);
    if |tables| > 1 {
      assert [tables[0]] + TablesOf([]) == [tables[0]];
      InferFromTree(rels, tables[0], [], tables[1..]);
      assert tables == [tables[0]] + tables[1..];
    }
  }

  // ---- the method ----

  /** `ts` without repetitions and without `seen`, in order of first appearance. */
  ghost function Unseen(ts: seq<Table>, seen: set<Table>): seq<Table> {
    if ts == [] then []
    else if ts[0] in seen then Unseen(ts[1..], seen)
    else [ts[0]] + Unseen(ts[1..], seen + {ts[0]})
  }

  method UniqueSlice(ss: seq<Table>) returns (out: seq<Table>)
    ensures out == Unseen(ss, {})
  {
    var seen: set<Table> := {};
    out := [];
    for i := 0 to |ss|
      invariant out + Unseen(ss[i..], seen) == Unseen(ss, {})
    {
      assert ss[i..] == [ss[i]] + ss[i + 1..];
      if ss[i] !in seen {
        seen := seen + {ss[i]};
        out := out + [ss[i]];
      }
    }
  }

  lemma InferUnseen(rels: seq<Relationship>, root: Table, steps: seq<JoinStep>, targets: seq<Table>, seen: set<Table>)
    requires IsTree(root, steps) && AllDeclared(rels, steps)
    requires forall t :: t in seen ==> Entered(root, steps, t)
    ensures InferFrom(rels, [root] + TablesOf(steps), steps, targets)
         == InferFrom(rels, [root] + TablesOf(steps), steps, Unseen(targets, seen))
    decreases |targets|
  {
    hide Join, IsTree, Chain, Entered, AllDeclared;
    if targets != [] {
      var t, joined := targets[0], [root] + TablesOf(steps);
      EnteredIsJoined(root, steps, t);
      if t in seen {
        InferUnseen(rels, root, steps, targets[1..], seen);
      } else if t in joined {
        InferUnseen(rels, root, steps, targets[1..], seen + {t});
      } else if Join(rels, joined, t).Path? {
        var path := Join(rels, joined, t).steps;
        PathGrowsTree(rels, root, steps, t);
        forall u | u in seen + {t}
          ensures Entered(root, steps + path, u)
        {
          if u in seen {
            EnteredGrows(root, steps, path, u);
          }
        }
        InferUnseen(rels, root, steps + path, targets[1..], seen + {t});
        assert Unseen(targets, seen)[1..] == Unseen(targets[1..], seen + {t});
      }
    }
  }

  lemma TreeIsDistinct(root: Table, steps: seq<JoinStep>)
    requires IsTree(root, steps)
    ensures Distinct([root] + TablesOf(steps))
  {
  }

  lemma InferStart(rels: seq<Relationship>, tables: seq<Table>)
    ensures |tables| <= 1 ==> Infer(rels, tables) == Path([])
    ensures |tables| > 1 ==> Infer(rels, tables) == InferFrom(rels, [tables[0]], [], tables[1..])
    ensures tables != [] ==> IsTree(tables[0], [])
    ensures AllDeclared(rels, [])
  {
  }

  lemma InferStep(rels: seq<Relationship>, joined: seq<Table>, steps: seq<JoinStep>, targets: seq<Table>)
    requires joined != []
    ensures targets == [] ==> InferFrom(rels, joined, steps, targets) == Path(steps)
    ensures targets != [] && targets[0] in joined ==>
      InferFrom(rels, joined, steps, targets) == InferFrom(rels, joined, steps, targets[1..])
    ensures targets != [] && targets[0] !in joined && !Join(rels, joined, targets[0]).Path? ==>
      InferFrom(rels, joined, steps, targets) == Join(rels, joined, targets[0])
    ensures targets != [] && targets[0] !in joined && Join(rels, joined, targets[0]).Path? ==>
      InferFrom(rels, joined, steps, targets) ==
        InferFrom(rels, joined + TablesOf(Join(rels, joined, targets[0]).steps),
          steps + Join(rels, joined, targets[0]).steps, targets[1..])
  {
  }

  /** No step of a chain brings in a table joined already. */
  lemma ChainIsNew(joined: seq<Table>, path: seq<JoinStep>, to: Table, k: nat)
    requires Chain(joined, path, to) && k < |path|
    ensures path[k].table !in joined + TablesOf(path[..k])
    ensures TablesOf(path[..k + 1]) == TablesOf(path[..k]) + [path[k].table]
  {
    assert path[..k + 1] == path[..k] + [path[k]];
    TablesOfConcat(path[..k], [path[k]]);
  }

  method InferJoinPath(rels: seq<Relationship>, tables: seq<Table>) returns (r: JoinResult)
    ensures r == Infer(rels, tables)
    ensures r.Path? ==> AllDeclared(rels, r.steps)
  {
    hide Join, IsTree, Entered, AllDeclared, Infer, InferFrom, Chain, TablesOf, Unseen;
    if |tables| <= 1 {
      InferStart(rels, tables);
      return Path([]);
    }
    var primary := tables[0];
    var targets := UniqueSlice(tables[1..]);
    var joined := {primary};
    var joinedTables := [primary];
    var steps: seq<JoinStep> := [];
    assert [primary] + TablesOf([]) == [primary];
    InferStart(rels, tables);
    InferUnseen(rels, primary, [], tables[1..], {});
    for i := 0 to |targets|
      invariant joined == Elements(joinedTables) && joinedTables == [primary] + TablesOf(steps)
      invariant IsTree(primary, steps) && AllDeclared(rels, steps)
      invariant InferFrom(rels, joinedTables, steps, targets[i..]) == Infer(rels, tables)
    {
      var target := targets[i];
      assert targets[i..][0] == target && targets[i..][1..] == targets[i + 1..];
      InferStep(rels, joinedTables, steps, targets[i..]);
      if target in joined {
        continue;
      }
      TreeIsDistinct(primary, steps);
      var path := BfsJoin(rels, joinedTables, target);
      if !path.Path? {
        return path;
      }
      ghost var before, joinedBefore := steps, joinedTables;
      PathGrowsTree(rels, primary, steps, target);
      for k := 0 to |path.steps|
        invariant steps == before + path.steps[..k]
        invariant joined == Elements(joinedTables)
        invariant joinedTables == joinedBefore + TablesOf(path.steps[..k])
      {
        var step := path.steps[k];
        ChainIsNew(joinedBefore, path.steps, target, k);
        if step.table !in joined {
          joined := joined + {step.table};
          joinedTables := joinedTables + [step.table];
          steps := steps + [step];
        }
      }
      assert path.steps[..|path.steps|] == path.steps;
    }
    assert targets[|targets|..] == [];
    InferStep(rels, joinedTables, steps, []);
    return Path(steps);
  }

  // ---- detaching a leaf ----

  /** Step i is the only one that touches `table`, and it brings it in. */
  ghost predicate OnlyEdge(steps: seq<JoinStep>, table: Table, i: nat) {
    && i < |steps| && steps[i].table == table
    && (forall j :: 0 <= j < |steps| ==> steps[j].fromTable != table)
    && (forall j :: 0 <= j < |steps| && steps[j].table == table ==> j == i)
  }

  method LeafEdge(steps: seq<JoinStep>, table: Table) returns (r: Option<JoinStep>)
    ensures r.Some? <==> exists i: nat :: OnlyEdge(steps, table, i)
    ensures forall i: nat :: OnlyEdge(steps, table, i) ==> r == Some(steps[i])
  {
    r := None;
    ghost var at: nat := 0;
    for k := 0 to |steps|
      invariant forall j :: 0 <= j < k ==> steps[j].fromTable != table
      invariant r.Some? ==> at < k && steps[at].table == table && r == Some(steps[at])
      invariant forall j :: 0 <= j < k && steps[j].table == table ==> r.Some? && j == at
    {
      var step := steps[k];
      if step.fromTable == table {
        return None;
      }
      if step.table == table {
        if r.Some? {
          return None;
        }
        r, at := Some(step), k;
      }
    }
    if r.Some? {
      assert OnlyEdge(steps, table, at);
    }
  }

  /** In a tree the detachable tables are exactly the leaves other than the root. */
  lemma LeavesDetach(root: Table, steps: seq<JoinStep>, table: Table)
    requires IsTree(root, steps)
    ensures (exists i: nat :: OnlyEdge(steps, table, i)) <==>
      (Entered(root, steps, table) && table != root && forall j :: 0 <= j < |steps| ==> steps[j].fromTable != table)
  {
    if Entered(root, steps, table) && table != root && forall j :: 0 <= j < |steps| ==> steps[j].fromTable != table {
      var i :| 0 <= i < |steps| && steps[i].table == table;
      assert OnlyEdge(steps, table, i);
    }
  }

  /** What is left after detaching a leaf is a tree over all the other tables. */
  lemma DetachedIsTree(root: Table, steps: seq<JoinStep>, table: Table, i: nat)
    requires IsTree(root, steps) && OnlyEdge(steps, table, i)
    ensures IsTree(root, steps[..i] + steps[i + 1..])
    ensures forall t :: Entered(root, steps[..i] + steps[i + 1..], t) <==> Entered(root, steps, t) && t != table
  {
    var rest := steps[..i] + steps[i + 1..];
    forall k | 0 <= k < |rest|
      ensures Entered(root, rest[..k], rest[k].fromTable)
    {
      if k < i {
        assert rest[..k] == steps[..k];
      } else {
        DropEntered(root, steps[..k + 1], i, steps[k + 1].fromTable);
        assert rest[..k] == steps[..k + 1][..i] + steps[..k + 1][i + 1..];
      }
    }
    forall t
      ensures Entered(root, rest, t) <==> Entered(root, steps, t) && t != table
    {
      DropEntered(root, steps, i, t);
    }
  }

  lemma DropEntered(root: Table, steps: seq<JoinStep>, i: nat, t: Table)
    requires i < |steps| && steps[i].table != root
    requires forall j :: 0 <= j < |steps| && steps[j].table == steps[i].table ==> j == i
    ensures Entered(root, steps[..i] + steps[i + 1..], t) <==> Entered(root, steps, t) && t != steps[i].table
  {
    var rest := steps[..i] + steps[i + 1..];
    if t != root {
      if j :| 0 <= j < |steps| && steps[j].table == t && j != i {
        assert rest[if j < i then j else j - 1] == steps[j];
      }
      if j :| 0 <= j < |rest| && rest[j].table == t {
        assert steps[if j < i then j else j + 1] == rest[j];
      }
    }
  }
}
