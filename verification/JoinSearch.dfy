/** Multi-source breadth-first search for the one shortest relationship walk. */
module JoinSearch {
  import opened Relationships

  datatype JoinResult =
    | Path(steps: seq<JoinStep>)
    | Ambiguous(source: Table, target: Table)
    | NoPath(source: Table, target: Table)

  /** What joining `to` to the tables `from` means, told by walks alone. */
  ghost function Join(rels: seq<Relationship>, from: seq<Table>, to: Table): JoinResult
    requires from != []
  {
    if !Linked(rels, from, to) then NoPath(from[0], to)
    else if Rivals(rels, from, to) then Ambiguous(from[0], to)
    else
      SomeShortest(rels, from, to);
      var w :| Shortest(rels, from, w, to);
      Path(StepsOf(rels, w))
  }

  ghost predicate Rivals(rels: seq<Relationship>, from: seq<Table>, to: Table) {
    exists v, w :: v != w && Shortest(rels, from, v, to) && Shortest(rels, from, w, to)
  }

  lemma SomeShortest(rels: seq<Relationship>, from: seq<Table>, to: Table)
    requires Linked(rels, from, to)
    ensures exists w :: Shortest(rels, from, w, to)
  {
    var w :| Leads(rels, from, w, to);
    ShortestExists(rels, from, w, to);
  }

  lemma JoinIsPath(rels: seq<Relationship>, from: seq<Table>, to: Table, w: Walk)
    requires from != [] && Shortest(rels, from, w, to)
    requires forall v :: Shortest(rels, from, v, to) ==> v == w
    ensures Join(rels, from, to) == Path(StepsOf(rels, w))
  {
  }

  // ---- the search state, over walks ----

  /** `level` and `next` are the queued walks of length depth and depth + 1, `best` the
    * recorded depths, `done` the expanded walks of this level, and `cur` the walk being
    * expanded, its edges below `tried` already looked at. */
  datatype Search = Search(
    depth: nat, best: map<Table, nat>, done: set<Walk>, level: seq<Walk>, next: seq<Walk>,
    cur: Option<Walk>, tried: nat, found: Option<Walk>)

  ghost predicate Frontier(rels: seq<Relationship>, from: seq<Table>, best: map<Table, nat>, n: nat, w: Walk) {
    && w.src in from && |w.edges| == n
    && End(rels, w).Some? && End(rels, w).value in best && best[End(rels, w).value] == n
  }

  ghost predicate Tried(s: Search, c: Walk) {
    && c.edges != []
    && (c.Parent() in s.done || (s.cur == Some(c.Parent()) && c.Last() < s.tried))
  }

  ghost predicate Queued(rels: seq<Relationship>, from: seq<Table>, s: Search) {
    && (forall w :: w in s.level ==> Frontier(rels, from, s.best, s.depth, w) && w !in s.done && s.cur != Some(w))
    && (forall w :: w in s.done ==> Frontier(rels, from, s.best, s.depth, w) && s.cur != Some(w))
    && (s.cur.Some? ==> Frontier(rels, from, s.best, s.depth, s.cur.value))
    && (forall w :: w in s.next ==> Frontier(rels, from, s.best, s.depth + 1, w) && Tried(s, w))
    && Distinct(s.level) && Distinct(s.next)
  }

  ghost predicate DepthsExact(
    rels: seq<Relationship>, from: seq<Table>, to: Table, depth: nat, best: map<Table, nat>)
  {
    && to !in best
    && (forall t :: t in best ==> best[t] <= depth + 1)
    && (forall t :: t in best ==> exists w :: Leads(rels, from, w, t) && |w.edges| == best[t])
    && (forall w: Walk :: w.src in from && |w.edges| <= depth && End(rels, w).Some? ==>
          End(rels, w).value in best && best[End(rels, w).value] <= |w.edges|)
  }

  ghost predicate LevelComplete(rels: seq<Relationship>, from: seq<Table>, s: Search) {
    forall w :: Frontier(rels, from, s.best, s.depth, w) ==> w in s.done || w in s.level || s.cur == Some(w)
  }

  ghost predicate ChildKept(to: Table, s: Search, c: Walk, t: Table) {
    if t == to then s.found == Some(c)
    else t in s.best && s.best[t] <= s.depth + 1 && (s.best[t] == s.depth + 1 ==> c in s.next)
  }

  ghost predicate ChildrenKept(rels: seq<Relationship>, to: Table, s: Search) {
    forall c :: Tried(s, c) && End(rels, c).Some? ==> ChildKept(to, s, c, End(rels, c).value)
  }

  ghost predicate FoundOk(rels: seq<Relationship>, from: seq<Table>, to: Table, s: Search) {
    s.found.Some? ==>
      && Leads(rels, from, s.found.value, to) && |s.found.value.edges| == s.depth + 1
      && Tried(s, s.found.value)
  }

  ghost predicate Inv(rels: seq<Relationship>, from: seq<Table>, to: Table, s: Search) {
    && Queued(rels, from, s)
    && DepthsExact(rels, from, to, s.depth, s.best)
    && LevelComplete(rels, from, s)
    && ChildrenKept(rels, to, s)
    && FoundOk(rels, from, to, s)
  }

  ghost predicate Idle(s: Search) {
    s.cur.None? && s.tried == 0
  }

  /** Take the first walk of the level. */
  ghost function Pop(s: Search): Search
    requires s.level != []
  {
    s.(level := s.level[1..], cur := Some(s.level[0]), tried := 0)
  }

  lemma PopKeeps(rels: seq<Relationship>, from: seq<Table>, to: Table, s: Search)
    requires Inv(rels, from, to, s) && Idle(s) && s.level != []
    ensures Inv(rels, from, to, Pop(s))
  {
    hide End, DepthsExact;
    var p := Pop(s);
    assert s.level == [s.level[0]] + p.level;
    assert forall c :: Tried(p, c) <==> Tried(s, c);
  }

  /** All edges of the current walk looked at. */
  ghost function Finish(s: Search): Search
    requires s.cur.Some?
  {
    s.(done := s.done + {s.cur.value}, cur := None, tried := 0)
  }

  lemma FinishTried(rels: seq<Relationship>, s: Search, c: Walk)
    requires s.cur.Some? && s.tried == |rels|
    ensures Tried(s, c) ==> Tried(Finish(s), c)
    ensures Tried(Finish(s), c) && End(rels, c).Some? ==> Tried(s, c)
  {
  }

  lemma FinishKeeps(rels: seq<Relationship>, from: seq<Table>, to: Table, s: Search)
    requires Inv(rels, from, to, s) && s.cur.Some? && s.tried == |rels|
    ensures Inv(rels, from, to, Finish(s)) && Idle(Finish(s))
  {
    hide End, DepthsExact, Tried;
    var f := Finish(s);
    forall c
      ensures Tried(s, c) ==> Tried(f, c)
      ensures Tried(f, c) && End(rels, c).Some? ==> Tried(s, c)
    {
      FinishTried(rels, s, c);
    }
    forall c | Tried(f, c) && End(rels, c).Some?
      ensures ChildKept(to, f, c, End(rels, c).value)
    {
      assert ChildKept(to, s, c, End(rels, c).value);
    }
  }

  /** The level is exhausted: the next one takes its place. */
  ghost function Descend(s: Search): Search {
    Search(s.depth + 1, s.best, {}, s.next, [], None, 0, None)
  }

  /** With the level exhausted, a walk one edge longer than it was seen as a child, or its
    * end lies no deeper than the level. */
  lemma LongerWalk(rels: seq<Relationship>, from: seq<Table>, to: Table, s: Search, w: Walk)
    requires Inv(rels, from, to, s) && Idle(s) && s.level == []
    requires w.src in from && |w.edges| == s.depth + 1 && End(rels, w).Some?
    ensures Tried(s, w) || (End(rels, w).value in s.best && s.best[End(rels, w).value] <= s.depth)
  {
    var p := w.Parent();
    var u := End(rels, p).value;
    assert u in s.best && s.best[u] <= s.depth;
    if s.best[u] == s.depth {
      assert Frontier(rels, from, s.best, s.depth, p);
    } else {
      var q :| Leads(rels, from, q, u) && |q.edges| == s.best[u];
      ExtendEnd(rels, q, w.Last());
      assert End(rels, q.Extend(w.Last())) == End(rels, w);
    }
  }

  lemma DescendKeeps(rels: seq<Relationship>, from: seq<Table>, to: Table, s: Search)
    requires Inv(rels, from, to, s) && Idle(s) && s.level == [] && s.found.None?
    ensures Inv(rels, from, to, Descend(s)) && Idle(Descend(s))
  {
    var d := Descend(s);
    forall w: Walk | w.src in from && |w.edges| <= d.depth && End(rels, w).Some?
      ensures End(rels, w).value in d.best && d.best[End(rels, w).value] <= |w.edges|
    {
      if |w.edges| == d.depth {
        LongerWalk(rels, from, to, s, w);
      }
    }
    forall w | Frontier(rels, from, d.best, d.depth, w)
      ensures w in d.level
    {
      LongerWalk(rels, from, to, s, w);
    }
  }

  /** Once a level with a hit is exhausted, the hit is the only shortest walk. */
  lemma HitIsUnique(rels: seq<Relationship>, from: seq<Table>, to: Table, s: Search)
    requires Inv(rels, from, to, s) && Idle(s) && s.level == [] && s.found.Some?
    requires from != []
    ensures Leads(rels, from, s.found.value, to)
    ensures Join(rels, from, to) == Path(StepsOf(rels, s.found.value))
  {
    forall v | Leads(rels, from, v, to)
      ensures |v.edges| >= s.depth + 1
      ensures |v.edges| == s.depth + 1 ==> v == s.found.value
    {
      if |v.edges| == s.depth + 1 {
        LongerWalk(rels, from, to, s, v);
      }
    }
    JoinIsPath(rels, from, to, s.found.value);
  }

  /** A second hit of the same length makes the target ambiguous. */
  lemma SecondHit(rels: seq<Relationship>, from: seq<Table>, to: Table, s: Search, c: Walk)
    requires Inv(rels, from, to, s) && from != []
    requires s.found.Some? && c != s.found.value
    requires Leads(rels, from, c, to) && |c.edges| == s.depth + 1
    ensures Join(rels, from, to) == Ambiguous(from[0], to)
  {
    assert forall v :: Leads(rels, from, v, to) ==> |v.edges| >= s.depth + 1;
    assert Shortest(rels, from, s.found.value, to) && Shortest(rels, from, c, to);
  }

  /** An empty queue means no walk leads on. */
  lemma NothingLeft(rels: seq<Relationship>, from: seq<Table>, to: Table, s: Search, w: Walk)
    requires Inv(rels, from, to, s) && Idle(s) && s.level == [] && s.done == {}
    requires w.src in from && End(rels, w).Some?
    ensures End(rels, w).value in s.best && s.best[End(rels, w).value] < s.depth
    decreases |w.edges|
  {
    if |w.edges| <= s.depth {
      assert !Frontier(rels, from, s.best, s.depth, w);
    } else {
      var u := End(rels, w.Parent()).value;
      NothingLeft(rels, from, to, s, w.Parent());
      var q :| Leads(rels, from, q, u) && |q.edges| == s.best[u];
      ExtendEnd(rels, q, w.Last());
      NothingLeft(rels, from, to, s, q.Extend(w.Last()));
    }
  }

  /** The children of the current walk, one relationship at a time. */
  ghost predicate Child(rels: seq<Relationship>, s: Search, c: Walk) {
    s.cur.Some? && s.tried < |rels| && c == s.cur.value.Extend(s.tried)
  }

  lemma ChildFacts(rels: seq<Relationship>, from: seq<Table>, to: Table, s: Search, c: Walk)
    requires Inv(rels, from, to, s) && Child(rels, s, c)
    ensures c.src in from && |c.edges| == s.depth + 1
    ensures !Tried(s, c) && c !in s.next && s.found != Some(c)
    ensures c.Parent() == s.cur.value && c.Last() == s.tried
    ensures forall x :: Tried(s.(tried := s.tried + 1), x) <==> Tried(s, x) || x == c
  {
    hide End, DepthsExact, LevelComplete, ChildrenKept;
    assert c.Parent() == s.cur.value && c.Last() == s.tried;
    forall x | Tried(s.(tried := s.tried + 1), x) && !Tried(s, x)
      ensures x == c
    {
      assert x.edges == x.Parent().edges + [x.Last()];
    }
  }

  /** A relationship that does not touch the current table, or leads to a known shallower one. */
  lemma SkipKeeps(rels: seq<Relationship>, from: seq<Table>, to: Table, s: Search, c: Walk)
    requires Inv(rels, from, to, s) && Child(rels, s, c)
    requires End(rels, c).Some? ==> End(rels, c).value != to && End(rels, c).value in s.best
    requires End(rels, c).Some? ==> s.best[End(rels, c).value] < s.depth + 1
    ensures Inv(rels, from, to, s.(tried := s.tried + 1))
  {
    hide End, DepthsExact, Frontier;
    ChildFacts(rels, from, to, s, c);
    hide Tried, Leads;
    var n := s.(tried := s.tried + 1);
    forall x | Tried(n, x) && End(rels, x).Some?
      ensures ChildKept(to, n, x, End(rels, x).value)
    {
      assert x == c || ChildKept(to, s, x, End(rels, x).value);
    }
  }

  lemma HitKeeps(rels: seq<Relationship>, from: seq<Table>, to: Table, s: Search, c: Walk)
    requires Inv(rels, from, to, s) && Child(rels, s, c)
    requires End(rels, c) == Some(to) && s.found.None?
    ensures Inv(rels, from, to, s.(tried := s.tried + 1, found := Some(c)))
  {
    hide End, DepthsExact, Frontier;
    ChildFacts(rels, from, to, s, c);
    var n := s.(tried := s.tried + 1, found := Some(c));
    assert forall x :: Tried(n, x) <==> Tried(s, x) || x == c;
    hide Tried;
    forall x | Tried(n, x) && End(rels, x).Some?
      ensures ChildKept(to, n, x, End(rels, x).value)
    {
      assert x == c || ChildKept(to, s, x, End(rels, x).value);
    }
  }

  ghost function Enqueue(s: Search, c: Walk, t: Table): Search {
    s.(tried := s.tried + 1, best := s.best[t := s.depth + 1], next := s.next + [c])
  }

  lemma EnqueueFacts(rels: seq<Relationship>, from: seq<Table>, to: Table, s: Search, c: Walk, t: Table)
    requires Inv(rels, from, to, s) && Child(rels, s, c)
    requires End(rels, c) == Some(t) && t != to
    requires t in s.best ==> s.best[t] >= s.depth + 1
    ensures forall x :: Tried(Enqueue(s, c, t), x) <==> Tried(s, x) || x == c
    ensures forall u :: u in s.best ==> Enqueue(s, c, t).best[u] == s.best[u]
    ensures forall w :: Frontier(rels, from, Enqueue(s, c, t).best, s.depth, w) <==>
                        Frontier(rels, from, s.best, s.depth, w)
    ensures forall w, n :: n == s.depth + 1 && Frontier(rels, from, s.best, n, w) ==>
                        Frontier(rels, from, Enqueue(s, c, t).best, n, w)
    ensures Frontier(rels, from, Enqueue(s, c, t).best, s.depth + 1, c)
  {
    hide End, Queued, LevelComplete, ChildrenKept, FoundOk;
    ChildFacts(rels, from, to, s, c);
    assert forall x :: Tried(Enqueue(s, c, t), x) <==> Tried(s.(tried := s.tried + 1), x);
  }

  lemma EnqueueDepths(rels: seq<Relationship>, from: seq<Table>, to: Table, s: Search, c: Walk, t: Table)
    requires Inv(rels, from, to, s) && Child(rels, s, c)
    requires End(rels, c) == Some(t) && t != to
    requires t in s.best ==> s.best[t] >= s.depth + 1
    ensures DepthsExact(rels, from, to, s.depth, Enqueue(s, c, t).best)
  {
    hide End, Queued, LevelComplete, ChildrenKept, FoundOk;
    EnqueueFacts(rels, from, to, s, c, t);
    assert Leads(rels, from, c, t) && |c.edges| == s.depth + 1;
  }

  lemma EnqueueChildren(rels: seq<Relationship>, from: seq<Table>, to: Table, s: Search, c: Walk, t: Table)
    requires Inv(rels, from, to, s) && Child(rels, s, c)
    requires End(rels, c) == Some(t) && t != to
    requires t in s.best ==> s.best[t] >= s.depth + 1
    ensures ChildrenKept(rels, to, Enqueue(s, c, t))
  {
    hide End, Queued, LevelComplete, DepthsExact, FoundOk;
    EnqueueFacts(rels, from, to, s, c, t);
    var n := Enqueue(s, c, t);
    forall x | Tried(n, x) && End(rels, x).Some?
      ensures ChildKept(to, n, x, End(rels, x).value)
    {
      if x == c {
        assert n.next[|s.next|] == c;
      } else {
        assert ChildKept(to, s, x, End(rels, x).value);
      }
    }
  }

  lemma EnqueueKeeps(rels: seq<Relationship>, from: seq<Table>, to: Table, s: Search, c: Walk, t: Table)
    requires Inv(rels, from, to, s) && Child(rels, s, c)
    requires End(rels, c) == Some(t) && t != to
    requires t in s.best ==> s.best[t] >= s.depth + 1
    ensures Inv(rels, from, to, Enqueue(s, c, t))
  {
    hide End, DepthsExact, ChildrenKept;
    ChildFacts(rels, from, to, s, c);
    EnqueueFacts(rels, from, to, s, c, t);
    EnqueueDepths(rels, from, to, s, c, t);
    EnqueueChildren(rels, from, to, s, c, t);
  }

  // ---- the search itself ----

  datatype State = State(table: Table, steps: seq<JoinStep>)

  /** The queue holds the states of the walks `ws`, in order. */
  ghost predicate Mirrors(rels: seq<Relationship>, queue: seq<State>, ws: seq<Walk>) {
    && |queue| == |ws|
    && forall i :: 0 <= i < |ws| ==>
         End(rels, ws[i]) == Some(queue[i].table) && queue[i].steps == StepsOf(rels, ws[i])
  }

  ghost predicate FoundSteps(rels: seq<Relationship>, found: Option<seq<JoinStep>>, hit: Option<Walk>) {
    && (found.Some? <==> hit.Some?)
    && (found.Some? ==> End(rels, hit.value).Some? && found.value == StepsOf(rels, hit.value))
  }

  /** The variables of the search stand for `s`. */
  ghost predicate Active(rels: seq<Relationship>, from: seq<Table>, to: Table, s: Search,
    queue: seq<State>, bestDepth: map<Table, nat>, found: Option<seq<JoinStep>>)
  {
    && Inv(rels, from, to, s) && bestDepth == s.best
    && Mirrors(rels, queue, s.level + s.next) && FoundSteps(rels, found, s.found)
  }

  lemma LengthsOf(rels: seq<Relationship>, from: seq<Table>, to: Table, s: Search,
    queue: seq<State>, bestDepth: map<Table, nat>, found: Option<seq<JoinStep>>)
    requires Active(rels, from, to, s, queue, bestDepth, found)
    ensures found.Some? ==> |found.value| == s.depth + 1
    ensures s.level != [] ==> queue != [] && |queue[0].steps| == s.depth
    ensures s.level != [] ==> End(rels, s.level[0]) == Some(queue[0].table)
    ensures s.level != [] ==> StepsOf(rels, s.level[0]) == queue[0].steps
    ensures s.level == [] ==> forall q :: q in queue ==> |q.steps| == s.depth + 1
    ensures s.cur.Some? ==> End(rels, s.cur.value).Some? && |StepsOf(rels, s.cur.value)| == s.depth
    ensures s.level == [] && s.next == [] <==> queue == []
  {
    hide DepthsExact, LevelComplete, ChildrenKept;
    if s.level != [] {
      assert s.level[0] in s.level;
      assert (s.level + s.next)[0] == s.level[0];
    } else {
      forall q | q in queue
        ensures |q.steps| == s.depth + 1
      {
        var i :| 0 <= i < |queue| && queue[i] == q;
        assert (s.level + s.next)[i] in s.next;
      }
    }
  }

  lemma MirrorsPop(rels: seq<Relationship>, queue: seq<State>, s: Search)
    requires s.level != [] && Mirrors(rels, queue, s.level + s.next)
    ensures Mirrors(rels, queue[1..], Pop(s).level + Pop(s).next)
  {
  }

  lemma MirrorsEnqueue(rels: seq<Relationship>, queue: seq<State>, s: Search, c: Walk, q: State)
    requires Mirrors(rels, queue, s.level + s.next)
    requires End(rels, c) == Some(q.table) && q.steps == StepsOf(rels, c)
    ensures Mirrors(rels, queue + [q], s.level + (s.next + [c]))
  {
  }

  ghost function Start(rels: seq<Relationship>, from: seq<Table>): Search {
    Search(0, map t | t in from :: 0, {}, seq(|from|, i requires 0 <= i < |from| => Walk(from[i], [])), [], None, 0, None)
  }

  lemma StartHolds(rels: seq<Relationship>, from: seq<Table>, to: Table)
    requires Distinct(from) && to !in from
    ensures Inv(rels, from, to, Start(rels, from)) && Idle(Start(rels, from))
    ensures Mirrors(rels, seq(|from|, i requires 0 <= i < |from| => State(from[i], [])),
              Start(rels, from).level + Start(rels, from).next)
  {
    var s := Start(rels, from);
    forall w: Walk | w.src in from && |w.edges| == 0
      ensures w in s.level
    {
      var i :| 0 <= i < |from| && from[i] == w.src;
      assert s.level[i] == w;
    }
    forall t | t in s.best
      ensures exists w :: Leads(rels, from, w, t) && |w.edges| == s.best[t]
    {
      assert Leads(rels, from, Walk(t, []), t);
    }
    assert forall w :: Frontier(rels, from, s.best, 0, w) ==> w.edges == [];
    assert s.level + s.next == s.level;
  }

  lemma LevelIsShallow(rels: seq<Relationship>, from: seq<Table>, to: Table, s: Search)
    requires Inv(rels, from, to, s) && s.level != []
    ensures s.depth < |Tables(rels, from)|
  {
    var w := s.level[0];
    assert w in s.level && Frontier(rels, from, s.best, s.depth, w);
    assert Shortest(rels, from, w, End(rels, w).value);
    ShortestIsBounded(rels, from, w, End(rels, w).value);
  }

  /** Joining a table already present needs no step. */
  lemma JoinPresent(rels: seq<Relationship>, from: seq<Table>, to: Table)
    requires to in from
    ensures Join(rels, from, to) == Path([])
  {
    var w := Walk(to, []);
    assert Leads(rels, from, w, to);
    forall v | Shortest(rels, from, v, to)
      ensures v == w
    {
    }
    JoinIsPath(rels, from, to, w);
  }

  lemma NoWalk(rels: seq<Relationship>, from: seq<Table>, to: Table, s: Search)
    requires Inv(rels, from, to, s) && Idle(s) && s.level == [] && s.done == {} && from != []
    ensures Join(rels, from, to) == NoPath(from[0], to)
  {
    forall w | Leads(rels, from, w, to)
      ensures false
    {
      NothingLeft(rels, from, to, s, w);
    }
  }

  /** Whatever has been found or queued joins declared relationships on their own columns. */
  lemma QueueIsDeclared(rels: seq<Relationship>, from: seq<Table>, to: Table, s: Search,
    queue: seq<State>, bestDepth: map<Table, nat>, found: Option<seq<JoinStep>>)
    requires Active(rels, from, to, s, queue, bestDepth, found)
    ensures found.Some? ==> AllDeclared(rels, found.value)
    ensures forall q :: q in queue ==> AllDeclared(rels, q.steps)
  {
    hide End, StepsOf, Inv, AllDeclared;
    if found.Some? {
      StepsAreDeclared(rels, s.found.value);
    }
    forall q | q in queue
      ensures AllDeclared(rels, q.steps)
    {
      var i :| 0 <= i < |queue| && queue[i] == q;
      StepsAreDeclared(rels, (s.level + s.next)[i]);
    }
  }

  lemma JoinIsDeclared(rels: seq<Relationship>, from: seq<Table>, to: Table)
    requires from != [] && Join(rels, from, to).Path?
    ensures AllDeclared(rels, Join(rels, from, to).steps)
  {
    hide End, StepsOf, AllDeclared;
    SomeShortest(rels, from, to);
    var w :| Shortest(rels, from, w, to) && Join(rels, from, to) == Path(StepsOf(rels, w));
    StepsAreDeclared(rels, w);
  }

  /** Looks along every relationship from one dequeued state. */
  method Expand(rels: seq<Relationship>, from: seq<Table>, to: Table, curr: State, queue0: seq<State>,
    bestDepth0: map<Table, nat>, found0: Option<seq<JoinStep>>, ghost s0: Search)
    returns (ambiguous: bool, queue: seq<State>, bestDepth: map<Table, nat>, found: Option<seq<JoinStep>>, ghost s: Search)
    requires from != [] && Active(rels, from, to, s0, queue0, bestDepth0, found0)
    requires s0.cur.Some? && s0.tried == 0
    requires End(rels, s0.cur.value) == Some(curr.table) && StepsOf(rels, s0.cur.value) == curr.steps
    ensures ambiguous ==> Join(rels, from, to) == Ambiguous(from[0], to)
    ensures !ambiguous ==> Active(rels, from, to, s, queue, bestDepth, found)
    ensures s.cur == s0.cur && s.level == s0.level && s.depth == s0.depth
    ensures !ambiguous ==> s.tried == |rels|
    ensures !ambiguous ==> (found.Some? ==> AllDeclared(rels, found.value)) && forall q :: q in queue ==> AllDeclared(rels, q.steps)
  {
    hide End, StepsOf, Inv, Join, Mirrors, Tried, Frontier, Shortest, Leads, AllDeclared;
    ghost var w := s0.cur.value;
    queue, bestDepth, found, s, ambiguous := queue0, bestDepth0, found0, s0, false;
    for i := 0 to |rels|
      invariant !ambiguous && s.tried == i
      invariant s.cur == s0.cur && s.level == s0.level && s.depth == s0.depth
      invariant Active(rels, from, to, s, queue, bestDepth, found)
    {
      var rel := rels[i];
      var nextTable, fromCol, toCol;
      ghost var c := w.Extend(i);
      ExtendEnd(rels, w, i);
      LengthsOf(rels, from, to, s, queue, bestDepth, found);
      if rel.fromTable == curr.table {
        nextTable, fromCol, toCol := rel.toTable, rel.fromColumn, rel.toColumn;
      } else if rel.toTable == curr.table {
        nextTable, fromCol, toCol := rel.fromTable, rel.toColumn, rel.fromColumn;
      } else {
        SkipKeeps(rels, from, to, s, c);
        s := s.(tried := i + 1);
        continue;
      }
      var step := JoinStep(curr.table, nextTable, fromCol, toCol, rel.bidirectional);
      var newSteps := curr.steps + [step];
      assert End(rels, c) == Some(nextTable) && newSteps == StepsOf(rels, c);
      ChildFacts(rels, from, to, s, c);
      if nextTable == to {
        if found.Some? && |found.value| == |newSteps| {
          SecondHit(rels, from, to, s, c);
          ambiguous := true;
          return;
        }
        found := Some(newSteps);
        HitKeeps(rels, from, to, s, c);
        s := s.(tried := i + 1, found := Some(c));
        continue;
      }
      var depth := |newSteps|;
      if nextTable in bestDepth && bestDepth[nextTable] < depth {
        SkipKeeps(rels, from, to, s, c);
        s := s.(tried := i + 1);
        continue;
      }
      EnqueueKeeps(rels, from, to, s, c, nextTable);
      MirrorsEnqueue(rels, queue, s, c, State(nextTable, newSteps));
      s := Enqueue(s, c, nextTable);
      bestDepth := bestDepth[nextTable := depth];
      queue := queue + [State(nextTable, newSteps)];
    }
    QueueIsDeclared(rels, from, to, s, queue, bestDepth, found);
  }

  method BfsJoin(rels: seq<Relationship>, from: seq<Table>, to: Table) returns (r: JoinResult)
    requires from != [] && Distinct(from)
    ensures r == Join(rels, from, to)
    ensures r.Path? ==> AllDeclared(rels, r.steps)
  {
    hide End, StepsOf, Inv, Join, Mirrors, Tried, Frontier, Tables, Shortest, Leads, AllDeclared;
    for i := 0 to |from|
      invariant to !in from[..i]
    {
      if from[i] == to {
        JoinPresent(rels, from, to);
        JoinIsDeclared(rels, from, to);
        return Path([]);
      }
    }
    var bestDepth: map<Table, nat> := map[];
    var queue: seq<State> := [];
    for i := 0 to |from|
      invariant bestDepth == map t | t in from[..i] :: 0
      invariant queue == seq(i, k requires 0 <= k < i => State(from[k], []))
    {
      bestDepth := bestDepth[from[i] := 0];
      queue := queue + [State(from[i], [])];
    }
    assert from[..|from|] == from;
    var found: Option<seq<JoinStep>> := None;

    ghost var s := Start(rels, from);
    ghost var draining := false;
    StartHolds(rels, from, to);
    while queue != []
      invariant !draining ==> Active(rels, from, to, s, queue, bestDepth, found) && Idle(s)
      invariant !draining && s.level == [] ==> queue == [] && s.found.None? && s.done == {}
      invariant draining ==> found.Some? && Join(rels, from, to) == Path(found.value)
      invariant draining ==> forall q :: q in queue ==> |q.steps| >= |found.value|
      decreases if draining then 0 else 1,
                if draining then 0 else |Tables(rels, from)| - s.depth,
                if draining then |queue| else |s.level|
    {
      var curr := queue[0];
      if !draining {
        LengthsOf(rels, from, to, s, queue, bestDepth, found);
        MirrorsPop(rels, queue, s);
      }
      queue := queue[1..];
      if found.Some? && |curr.steps| >= |found.value| {
        continue;
      }
      LevelIsShallow(rels, from, to, s);
      PopKeeps(rels, from, to, s);
      s := Pop(s);
      var ambiguous;
      ambiguous, queue, bestDepth, found, s := Expand(rels, from, to, curr, queue, bestDepth, found, s);
      if ambiguous {
        return Ambiguous(from[0], to);
      }
      FinishKeeps(rels, from, to, s);
      s := Finish(s);
      LengthsOf(rels, from, to, s, queue, bestDepth, found);
      if s.level == [] {
        if s.found.Some? {
          HitIsUnique(rels, from, to, s);
          draining := true;
        } else {
          DescendKeeps(rels, from, to, s);
          assert Descend(s).level + Descend(s).next == s.level + s.next;
          s := Descend(s);
        }
      }
    }
    if !draining {
      LengthsOf(rels, from, to, s, queue, bestDepth, found);
    }
    if found.Some? {
      JoinIsDeclared(rels, from, to);
      return Path(found.value);
    }
    NoWalk(rels, from, to, s);
    return NoPath(from[0], to);
  }
}
