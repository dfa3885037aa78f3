/** Measure resolution: a depth-first walk whose success is what lets the emitter inline measures. */
module Resolver {
  import opened Relationships

  type Name = nat
  type MeasureId = nat

  /** An occurrence in the query text: `at` tells it from other occurrences of the same name. */
  datatype ColRef = ColRef(at: nat, table: Option<Table>, name: Name)

  /** FILTER and TOPN read computed columns in some of their arguments. */
  datatype Func = Filter | TopN | OtherFunc(name: Name)

  datatype Term =
    | Ref(cr: ColRef)
    | Call(fn: Func, args: seq<Expr>)
    | SubExpr(body: Expr)
    | TableConstructor(values: seq<Expr>)
    | Atom(literal: nat)

  /** The operators of a chain, and its operands from left to right. */
  datatype Expr = Expr(ops: seq<nat>, terms: seq<Term>)

  datatype Entry = Entry(table: Table, name: Name, id: MeasureId)

  datatype Target = Measure(id: MeasureId) | Column | VarColumn | Output | Unknown | Ambiguous

  datatype Error = Circular(id: MeasureId) | UnknownRef(cr: ColRef) | AmbiguousRef(cr: ColRef)

  datatype State = Active | Done

  // ---- references ----

  /** The references a measure body makes; value lists are not searched. */
  ghost function RefsIn(e: Expr): set<ColRef> {
    set i, cr | 0 <= i < |e.terms| && cr in RefsInTerm(e.terms[i]) :: cr
  }

  ghost function RefsInTerm(t: Term): set<ColRef> {
    match t
    case Ref(cr) => {cr}
    case Call(_, args) => set i, cr | 0 <= i < |args| && cr in RefsIn(args[i]) :: cr
    case SubExpr(body) => RefsIn(body)
    case TableConstructor(_) => {}
    case Atom(_) => {}
  }

  /** The measures in force: the global ones overlaid with the query's. */
  datatype Model = Model(entries: seq<Entry>, bodies: map<MeasureId, Expr>, columns: set<(Table, Name)>) {
    ghost predicate Sound() {
      && (forall e :: e in entries ==> e.id in bodies)
      && forall i, j :: 0 <= i < j < |entries| ==> (entries[i].table, entries[i].name) != (entries[j].table, entries[j].name)
    }

    ghost function Hits(cr: ColRef): set<Entry> {
      set e | e in entries && e.name == cr.name && (cr.table.None? || cr.table == Some(e.table))
    }

    /** What a reference inside a measure means. */
    ghost function Meaning(cr: ColRef, vars: set<Table>): Target {
      var hits := Hits(cr);
      if exists e, f :: e in hits && f in hits && e != f then Ambiguous
      else if exists e :: e in hits then (var e :| e in hits; Measure(e.id))
      else if cr.table.None? then Unknown
      else if cr.table.value in vars then VarColumn
      else if (cr.table.value, cr.name) in columns then Column
      else Unknown
    }

    ghost predicate Refers(m: MeasureId, n: MeasureId) {
      m in bodies && exists cr :: cr in RefsIn(bodies[m]) && Meaning(cr, {}) == Measure(n)
    }

    /** A chain of measure references. */
    ghost predicate Path(p: seq<MeasureId>) {
      p != [] && forall i :: 0 <= i < |p| - 1 ==> Refers(p[i], p[i + 1])
    }

    ghost predicate Reaches(m: MeasureId, n: MeasureId) {
      exists p :: Path(p) && p[0] == m && p[|p| - 1] == n
    }

    /** A measure that depends on itself. */
    ghost predicate Cyclic(m: MeasureId) {
      exists p :: Path(p) && |p| > 1 && p[0] == m && p[|p| - 1] == m
    }

    /** A measure with a reference that means nothing. */
    ghost predicate Broken(m: MeasureId, vars: set<Table>) {
      m in bodies && exists cr :: cr in RefsIn(bodies[m]) && Bad(cr, vars)
    }

    ghost predicate Bad(cr: ColRef, vars: set<Table>) {
      Meaning(cr, vars).Unknown? || Meaning(cr, vars).Ambiguous?
    }

    /** Nothing the measure depends on is broken or depends on itself. */
    ghost predicate Healthy(m: MeasureId, vars: set<Table>) {
      forall n :: Reaches(m, n) ==> !Cyclic(n) && !Broken(n, vars)
    }
  }

  lemma MeasureIsStatic(model: Model, cr: ColRef, vars: set<Table>, more: set<Table>)
    requires vars <= more
    ensures model.Meaning(cr, vars).Measure? || model.Meaning(cr, more).Measure? ==> model.Meaning(cr, vars) == model.Meaning(cr, more)
    ensures model.Bad(cr, more) ==> model.Bad(cr, vars)
  {
  }

  /** What may be recorded: a measure or column as such, a bare name without meaning as an output
    * column. */
  ghost predicate RightTarget(model: Model, cr: ColRef, t: Target) {
    var meaning := model.Meaning(cr, {});
    if meaning.Measure? || meaning.Column? then t == meaning else t == Output && meaning == Unknown && cr.table.None?
  }

  ghost predicate RightRefs(model: Model, refs: map<ColRef, Target>) {
    forall cr :: cr in refs ==> RightTarget(model, cr, refs[cr])
  }

  ghost predicate GrowsTo(a: map<ColRef, Target>, b: map<ColRef, Target>) {
    forall cr :: cr in a ==> cr in b && b[cr] == a[cr]
  }

  lemma RightRefsGrow(model: Model, a: map<ColRef, Target>, b: map<ColRef, Target>)
    requires RightRefs(model, a) && RightRefs(model, b) && a.Keys <= b.Keys
    ensures GrowsTo(a, b)
  {
    forall cr | cr in a
      ensures cr in b && b[cr] == a[cr]
    {
      assert cr in a.Keys;
      assert RightTarget(model, cr, a[cr]) && RightTarget(model, cr, b[cr]);
    }
  }

  // ---- a resolved query expression ----

  /** An occurrence is recorded as what it means - an output column where those are allowed - or a
    * VAR's table hides it. */
  ghost predicate Accepted(model: Model, refs: map<ColRef, Target>, vars: set<Table>, cr: ColRef, bare: bool) {
    || Hidden(vars, cr)
    || (cr in refs && RightTarget(model, cr, refs[cr]) && (refs[cr] == Output ==> bare))
  }

  ghost predicate Hidden(vars: set<Table>, cr: ColRef) {
    cr.table.Some? && cr.table.value in vars
  }

  /** An occurrence the pass has no fault to find with. */
  ghost predicate Sayable(model: Model, vars: set<Table>, cr: ColRef, bare: bool) {
    || Hidden(vars, cr)
    || model.Meaning(cr, {}).Column?
    || (model.Meaning(cr, {}).Measure? && model.Healthy(model.Meaning(cr, {}).id, vars))
    || (bare && cr.table.None? && model.Meaning(cr, {}) == Unknown)
  }

  ghost predicate SayableExpr(model: Model, vars: set<Table>, e: Expr, bare: bool) {
    forall i :: 0 <= i < |e.terms| ==> SayableTerm(model, vars, e.terms[i], bare)
  }

  ghost predicate SayableTerm(model: Model, vars: set<Table>, t: Term, bare: bool) {
    match t
    case Ref(cr) => Sayable(model, vars, cr, bare)
    case Call(fn, args) => forall i :: 0 <= i < |args| ==> SayableExpr(model, vars, args[i], BareIn(fn, i, bare))
    case SubExpr(body) => SayableExpr(model, vars, body, bare)
    case TableConstructor(values) => forall i :: 0 <= i < |values| ==> SayableExpr(model, vars, values[i], bare)
    case Atom(_) => true
  }

  /** A bare name without meaning may stand in FILTER's condition and from TOPN's third argument on, however
    * deep inside, and nowhere else. */
  lemma BareNamesStand(model: Model, vars: set<Table>, cr: ColRef, fn: Func, args: seq<Expr>, i: nat, bare: bool)
    requires cr.table.None? && model.Meaning(cr, {}) == Unknown && i < |args| && args[i] == Expr([], [SubExpr(Expr([], [Ref(cr)]))])
    requires forall j :: 0 <= j < |args| && j != i ==> args[j].terms == []
    ensures SayableTerm(model, vars, Call(fn, args), bare) <==> bare || (fn == Filter && i == 1) || (fn == TopN && i >= 2)
  {
    var inner := Expr([], [Ref(cr)]);
    assert !Hidden(vars, cr);
    forall b
      ensures SayableExpr(model, vars, args[i], b) <==> b
    {
      assert SayableTerm(model, vars, inner.terms[0], b) <==> b;
      assert SayableExpr(model, vars, inner, b) <==> b;
      assert SayableTerm(model, vars, args[i].terms[0], b) <==> b;
    }
  }

  predicate BareIn(fn: Func, i: nat, bare: bool) {
    bare || (fn == Filter && i == 1) || (fn == TopN && i >= 2)
  }

  ghost predicate ResolvedExpr(model: Model, refs: map<ColRef, Target>, vars: set<Table>, e: Expr, bare: bool) {
    forall i :: 0 <= i < |e.terms| ==> ResolvedTerm(model, refs, vars, e.terms[i], bare)
  }

  ghost predicate ResolvedTerm(model: Model, refs: map<ColRef, Target>, vars: set<Table>, t: Term, bare: bool) {
    match t
    case Ref(cr) => Accepted(model, refs, vars, cr, bare)
    case Call(fn, args) => forall i :: 0 <= i < |args| ==> ResolvedExpr(model, refs, vars, args[i], BareIn(fn, i, bare))
    case SubExpr(body) => ResolvedExpr(model, refs, vars, body, bare)
    case TableConstructor(values) => forall i :: 0 <= i < |values| ==> ResolvedExpr(model, refs, vars, values[i], bare)
    case Atom(_) => true
  }

  lemma {:induction false} ExprStaysResolved(model: Model, a: map<ColRef, Target>, b: map<ColRef, Target>, vars: set<Table>, e: Expr, bare: bool)
    requires ResolvedExpr(model, a, vars, e, bare) && GrowsTo(a, b)
    ensures ResolvedExpr(model, b, vars, e, bare)
    decreases e
  {
    forall i | 0 <= i < |e.terms|
      ensures ResolvedTerm(model, b, vars, e.terms[i], bare)
    {
      TermStaysResolved(model, a, b, vars, e.terms[i], bare);
    }
  }

  lemma {:induction false} TermStaysResolved(model: Model, a: map<ColRef, Target>, b: map<ColRef, Target>, vars: set<Table>, t: Term, bare: bool)
    requires ResolvedTerm(model, a, vars, t, bare) && GrowsTo(a, b)
    ensures ResolvedTerm(model, b, vars, t, bare)
    decreases t
  {
    match t
    case Call(fn, args) =>
      forall i | 0 <= i < |args|
        ensures ResolvedExpr(model, b, vars, args[i], BareIn(fn, i, bare))
      {
        ExprStaysResolved(model, a, b, vars, args[i], BareIn(fn, i, bare));
      }
    case SubExpr(body) =>
      ExprStaysResolved(model, a, b, vars, body, bare);
    case TableConstructor(values) =>
      forall i | 0 <= i < |values|
        ensures ResolvedExpr(model, b, vars, values[i], bare)
      {
        ExprStaysResolved(model, a, b, vars, values[i], bare);
      }
    case _ =>
  }

  /** Every occurrence in a query expression, value lists included. */
  ghost function Occurrences(e: Expr): set<ColRef> {
    set i, cr | 0 <= i < |e.terms| && cr in OccurrencesInTerm(e.terms[i]) :: cr
  }

  ghost function OccurrencesInTerm(t: Term): set<ColRef> {
    match t
    case Ref(cr) => {cr}
    case Call(_, args) => set i, cr | 0 <= i < |args| && cr in Occurrences(args[i]) :: cr
    case SubExpr(body) => Occurrences(body)
    case TableConstructor(values) => set i, cr | 0 <= i < |values| && cr in Occurrences(values[i]) :: cr
    case Atom(_) => {}
  }

  class Pass {
    const model: Model
    /** Tables the query's VARs make. */
    var vars: set<Table>
    var state: map<MeasureId, State>
    var refs: map<ColRef, Target>
    /** The measures being visited, outermost first, and the finished ones in finishing order. */
    ghost var stack: seq<MeasureId>
    ghost var order: seq<MeasureId>

    constructor (model: Model)
      requires model.Sound()
      ensures Valid() && this.model == model && vars == {} && stack == [] && order == [] && refs == map[]
    {
      this.model := model;
      vars, state, refs := {}, map[], map[];
      stack, order := [], [];
    }

    /** Its reference is harmless: a column, or a recorded measure finished before. */
    ghost predicate Settled(cr: ColRef, n: nat)
      reads this
      requires n <= |order|
    {
      !model.Bad(cr, vars) && (model.Meaning(cr, {}).Measure? ==> cr in refs && model.Meaning(cr, {}).id in order[..n])
    }

    ghost predicate AllSettled(crs: set<ColRef>, n: nat)
      reads this
      requires n <= |order|
    {
      forall cr :: cr in crs ==> Settled(cr, n)
    }

    /** Finished measures refer only to measures finished before them. */
    ghost predicate Ordered()
      reads this
    {
      forall i :: 0 <= i < |order| ==> order[i] in model.bodies && AllSettled(RefsIn(model.bodies[order[i]]), i)
    }

    ghost predicate Tracked()
      reads this
    {
      && (forall m :: m in stack <==> m in state && state[m] == Active)
      && (forall m :: m in order <==> m in state && state[m] == Done)
      && (forall m :: m in state ==> m in model.bodies)
      && (stack != [] ==> model.Path(stack))
    }

    /** What was recorded is right, and the recorded measures have been entered. */
    ghost predicate Recorded(entering: set<MeasureId>)
      reads this
    {
      && RightRefs(model, refs)
      && forall cr :: cr in refs && refs[cr].Measure? ==> refs[cr].id in state || refs[cr].id in entering
    }

    ghost predicate ValidBut(entering: set<MeasureId>)
      reads this
    {
      model.Sound() && Tracked() && Ordered() && Recorded(entering)
    }

    ghost predicate Valid()
      reads this
    {
      ValidBut({})
    }

    /** Nothing but progress: what was finished stays finished, in its place. */
    twostate predicate Progress()
      reads this
    {
      && vars == old(vars) && stack == old(stack)
      && old(order) <= order && old(state).Keys <= state.Keys && old(refs).Keys <= refs.Keys
    }

    method FindMeasureByName(cr: ColRef) returns (found: Option<MeasureId>, ambiguous: bool)
      requires model.Sound() && cr.table.None?
      ensures ambiguous <==> model.Meaning(cr, {}).Ambiguous?
      ensures !ambiguous ==> (found.Some? <==> model.Meaning(cr, {}).Measure?)
      ensures !ambiguous && found.Some? ==> model.Meaning(cr, {}) == Measure(found.value)
    {
      var name := cr.name;
      found, ambiguous := None, false;
      ghost var hit: Option<Entry> := None;
      for i := 0 to |model.entries|
        invariant hit.Some? <==> found.Some?
        invariant hit.Some? ==> hit.value in model.entries[..i] && hit.value.name == name && hit.value.id == found.value
        invariant forall e :: e in model.entries[..i] && e.name == name ==> hit == Some(e)
      {
        var e := model.entries[i];
        if e.name == name {
          if found.Some? {
            assert e in model.Hits(cr) && hit.value in model.Hits(cr);
            assert e != hit.value;
            return None, true;
          }
          found, hit := Some(e.id), Some(e);
        }
      }
      assert hit.Some? ==> hit.value in model.Hits(cr);
    }

    method FindMeasure(cr: ColRef) returns (found: Option<MeasureId>)
      requires model.Sound() && cr.table.Some?
      ensures !model.Meaning(cr, {}).Ambiguous?
      ensures found.Some? <==> model.Meaning(cr, {}).Measure?
      ensures found.Some? ==> model.Meaning(cr, {}) == Measure(found.value)
    {
      forall e, f | e in model.Hits(cr) && f in model.Hits(cr)
        ensures e == f
      {
        var i :| 0 <= i < |model.entries| && model.entries[i] == e;
        var j :| 0 <= j < |model.entries| && model.entries[j] == f;
        assert i == j;
      }
      for i := 0 to |model.entries|
        invariant forall j :: 0 <= j < i ==> model.entries[j] !in model.Hits(cr)
      {
        var e := model.entries[i];
        if e.table == cr.table.value && e.name == cr.name {
          assert e in model.Hits(cr);
          return Some(e.id);
        }
      }
      return None;
    }

    /** Why a walk from `m` failed: a broken reference, or a measure that depends on itself, below it. */
    ghost predicate Explains(err: Error, m: MeasureId)
      reads this
    {
      match err
      case Circular(c) => model.Reaches(m, c) && model.Cyclic(c)
      case UnknownRef(cr) => exists n :: model.Reaches(m, n) && n in model.bodies && cr in RefsIn(model.bodies[n]) && model.Meaning(cr, vars) == Unknown
      case AmbiguousRef(cr) => exists n :: model.Reaches(m, n) && n in model.bodies && cr in RefsIn(model.bodies[n]) && model.Meaning(cr, vars) == Ambiguous
    }

    method Visit(m: MeasureId) returns (err: Option<Error>)
      requires ValidBut({m}) && m in model.bodies
      requires stack == [] || model.Refers(stack[|stack| - 1], m)
      modifies this
      ensures err.None? ==> Valid() && Progress() && m in order
      ensures err.Some? ==> vars == old(vars) && Explains(err.value, m)
      decreases model.bodies.Keys - state.Keys, 0
    {
      if m in state && state[m] == Active {
        ActiveIsCyclic(m);
        return Some(Circular(m));
      }
      if m in state {
        return None;
      }
      assert m in model.bodies.Keys - state.Keys;
      Enter(m);
      assert m !in model.bodies.Keys - state.Keys;
      err := ResolveMeasureExpr(model.bodies[m], m);
      if err.Some? {
        return;
      }
      Finish(m);
    }

    method Enter(m: MeasureId)
      requires ValidBut({m}) && m in model.bodies && m !in state
      requires stack == [] || model.Refers(stack[|stack| - 1], m)
      modifies this
      ensures Valid() && state == old(state)[m := Active] && stack == old(stack) + [m]
      ensures order == old(order) && vars == old(vars) && refs == old(refs)
    {
      PathGrows(m);
      state, stack := state[m := Active], stack + [m];
      assert forall i :: 0 <= i < |order| ==> AllSettled(RefsIn(model.bodies[order[i]]), i) by {
        assert forall i :: 0 <= i < |order| ==> old(AllSettled(RefsIn(model.bodies[order[i]]), i));
      }
    }

    /** A measure finishes after everything its body refers to. */
    method Finish(m: MeasureId)
      requires Valid() && stack != [] && stack[|stack| - 1] == m && m !in stack[..|stack| - 1]
      requires AllSettled(RefsIn(model.bodies[m]), |order|)
      modifies this
      ensures Valid() && state == old(state)[m := Done] && stack == old(stack)[..|old(stack)| - 1]
      ensures order == old(order) + [m] && vars == old(vars) && refs == old(refs)
    {
      state, stack, order := state[m := Done], stack[..|stack| - 1], order + [m];
      forall i | 0 <= i < |order|
        ensures AllSettled(RefsIn(model.bodies[order[i]]), i)
      {
        if i < |order| - 1 {
          assert old(AllSettled(RefsIn(model.bodies[order[i]]), i));
          assert order[..i] == old(order)[..i];
        } else {
          assert order[..i] == old(order)[..i];
        }
      }
    }

    method Record(cr: ColRef, t: Target, ghost entering: set<MeasureId>)
      requires Valid() && RightTarget(model, cr, t) && (t.Measure? ==> t.id in entering)
      modifies `refs
      ensures ValidBut(entering) && refs == old(refs)[cr := t]
    {
      refs := refs[cr := t];
      forall i | 0 <= i < |order|
        ensures AllSettled(RefsIn(model.bodies[order[i]]), i)
      {
        assert old(AllSettled(RefsIn(model.bodies[order[i]]), i));
        forall c | c in RefsIn(model.bodies[order[i]])
          ensures Settled(c, i)
        {
          assert old(Settled(c, i));
        }
      }
    }

    method ResolveMeasureExpr(e: Expr, ghost m: MeasureId) returns (err: Option<Error>)
      requires Valid() && stack != [] && stack[|stack| - 1] == m && RefsIn(e) <= RefsIn(model.bodies[m])
      modifies this
      ensures err.None? ==> Valid() && Progress() && AllSettled(RefsIn(e), |order|)
      ensures err.Some? ==> vars == old(vars) && Explains(err.value, m)
      decreases model.bodies.Keys - state.Keys, 1, e
    {
      for i := 0 to |e.terms|
        invariant Valid() && Progress()
        invariant forall j :: 0 <= j < i ==> AllSettled(RefsInTerm(e.terms[j]), |order|)
      {
        err := ResolveMeasureTerm(e.terms[i], m);
        if err.Some? {
          return;
        }
      }
      return None;
    }

    method ResolveMeasureTerm(t: Term, ghost m: MeasureId) returns (err: Option<Error>)
      requires Valid() && stack != [] && stack[|stack| - 1] == m && RefsInTerm(t) <= RefsIn(model.bodies[m])
      modifies this
      ensures err.None? ==> Valid() && Progress() && AllSettled(RefsInTerm(t), |order|)
      ensures err.Some? ==> vars == old(vars) && Explains(err.value, m)
      decreases model.bodies.Keys - state.Keys, 1, t
    {
      match t
      case Ref(cr) =>
        err := ResolveMeasureRef(cr, m);
      case Call(_, args) =>
        for i := 0 to |args|
          invariant Valid() && Progress()
          invariant forall j :: 0 <= j < i ==> AllSettled(RefsIn(args[j]), |order|)
        {
          err := ResolveMeasureExpr(args[i], m);
          if err.Some? {
            return;
          }
        }
        return None;
      case SubExpr(body) =>
        err := ResolveMeasureExpr(body, m);
      case TableConstructor(_) =>
        return None;
      case Atom(_) =>
        return None;
    }

    method ResolveMeasureRef(cr: ColRef, ghost m: MeasureId) returns (err: Option<Error>)
      requires Valid() && stack != [] && stack[|stack| - 1] == m && cr in RefsIn(model.bodies[m])
      modifies this
      ensures err.None? ==> Valid() && Progress() && Settled(cr, |order|)
      ensures err.Some? ==> vars == old(vars) && Explains(err.value, m)
      decreases model.bodies.Keys - state.Keys, 1, cr
    {
      MeasureIsStatic(model, cr, {}, vars);
      var def: Option<MeasureId>;
      if cr.table.None? {
        var ambiguous;
        def, ambiguous := FindMeasureByName(cr);
        if ambiguous {
          OwnRef(m, cr);
          return Some(AmbiguousRef(cr));
        }
        if def.None? {
          OwnRef(m, cr);
          return Some(UnknownRef(cr));
        }
      } else {
        def := FindMeasure(cr);
        if def.None? {
          err := ResolveColumn(cr);
          if err.Some? {
            OwnRef(m, cr);
          }
          return;
        }
      }
      MeasureExists(cr);
      Record(cr, Measure(def.value), {def.value});
      assert model.Refers(m, def.value);
      err := Visit(def.value);
      if err.Some? {
        ExplainsUp(err.value, m, def.value);
      }
    }

    /** A qualified reference that names no measure: a VAR's table or a declared column. */
    method ResolveColumn(cr: ColRef) returns (err: Option<Error>)
      requires Valid() && cr.table.Some? && !model.Meaning(cr, {}).Measure? && !model.Meaning(cr, {}).Ambiguous?
      modifies `refs
      ensures Valid() && old(refs).Keys <= refs.Keys
      ensures err.None? <==> !model.Bad(cr, vars)
      ensures err.None? ==> refs == if cr.table.value in vars then old(refs) else old(refs)[cr := Column]
      ensures err.Some? ==> err.value == UnknownRef(cr) && model.Meaning(cr, vars) == Unknown
    {
      MeasureIsStatic(model, cr, {}, vars);
      if cr.table.value in vars {
        return None;
      }
      if (cr.table.value, cr.name) !in model.columns {
        return Some(UnknownRef(cr));
      }
      Record(cr, Column, {});
      return None;
    }

    lemma OwnRef(m: MeasureId, cr: ColRef)
      requires m in model.bodies && cr in RefsIn(model.bodies[m])
      ensures model.Meaning(cr, vars) == Unknown ==> Explains(UnknownRef(cr), m)
      ensures model.Meaning(cr, vars) == Ambiguous ==> Explains(AmbiguousRef(cr), m)
    {
      ReachesSelf(m);
    }

    lemma ReachesSelf(m: MeasureId)
      ensures model.Reaches(m, m)
    {
      assert model.Path([m]);
    }

    lemma MeasureExists(cr: ColRef)
      requires model.Sound() && model.Meaning(cr, {}).Measure?
      ensures model.Meaning(cr, {}).id in model.bodies
    {
    }

    lemma PathGrows(m: MeasureId)
      requires stack != [] ==> model.Path(stack) && model.Refers(stack[|stack| - 1], m)
      ensures model.Path(stack + [m])
    {
    }

    lemma ActiveIsCyclic(m: MeasureId)
      requires Tracked() && m in state && state[m] == Active && model.Refers(stack[|stack| - 1], m)
      ensures Explains(Circular(m), m)
    {
      var i :| 0 <= i < |stack| && stack[i] == m;
      var p := stack[i..] + [m];
      assert model.Path(p) by {
        forall j | 0 <= j < |p| - 1
          ensures model.Refers(p[j], p[j + 1])
        {
          if j < |stack| - i - 1 {
            assert p[j] == stack[i + j] && p[j + 1] == stack[i + j + 1];
          } else {
            assert p[j] == stack[|stack| - 1] && p[j + 1] == m;
          }
        }
      }
      ReachesSelf(m);
    }

    lemma ReachesStep(m: MeasureId, n: MeasureId, k: MeasureId)
      requires model.Refers(m, n) && model.Reaches(n, k)
      ensures model.Reaches(m, k)
    {
      var p :| model.Path(p) && p[0] == n && p[|p| - 1] == k;
      var q := [m] + p;
      assert model.Path(q) by {
        forall j | 0 <= j < |q| - 1
          ensures model.Refers(q[j], q[j + 1])
        {
          if j > 0 {
            assert q[j] == p[j - 1] && q[j + 1] == p[j];
          }
        }
      }
    }

    lemma ExplainsUp(err: Error, m: MeasureId, n: MeasureId)
      requires model.Refers(m, n) && Explains(err, n)
      ensures Explains(err, m)
    {
      forall k | model.Reaches(n, k)
        ensures model.Reaches(m, k)
      {
        ReachesStep(m, n, k);
      }
    }

    /** Everything below a finished measure is finished, means something, and depends on no measure
      * that is not finished before it: none of it is cyclic. */
    lemma FinishedIsSound(m: MeasureId, n: MeasureId)
      requires Valid() && m in order && model.Reaches(m, n)
      ensures n in order && !model.Cyclic(n) && !model.Broken(n, vars)
    {
      var p :| model.Path(p) && p[0] == m && p[|p| - 1] == n;
      FinishedPath(p);
      if model.Cyclic(n) {
        var c :| model.Path(c) && |c| > 1 && c[0] == n && c[|c| - 1] == n;
        FinishedPath(c);
        assert false;
      }
      var k := Rank(n);
      assert AllSettled(RefsIn(model.bodies[order[k]]), k);
    }

    ghost function Rank(m: MeasureId): (k: nat)
      reads this
      requires m in order
      ensures k < |order| && order[k] == m && forall j :: 0 <= j < k ==> order[j] != m
    {
      FirstIn(order, m)
    }

    lemma FinishedPath(p: seq<MeasureId>)
      requires Valid() && model.Path(p) && p[0] in order
      ensures p[|p| - 1] in order && (|p| > 1 ==> Rank(p[|p| - 1]) < Rank(p[0]))
      decreases |p|
    {
      if |p| > 1 {
        var front := p[..|p| - 1];
        assert model.Path(front) by {
          assert forall i :: 0 <= i < |front| - 1 ==> model.Refers(p[i], p[i + 1]);
        }
        FinishedPath(front);
        var m, n := p[|p| - 2], p[|p| - 1];
        assert model.Refers(m, n);
        var cr :| cr in RefsIn(model.bodies[m]) && model.Meaning(cr, {}) == Measure(n);
        var k := Rank(m);
        assert AllSettled(RefsIn(model.bodies[order[k]]), k);
        assert Settled(cr, k);
        var j :| 0 <= j < k && order[..k][j] == n;
        assert order[j] == n;
      }
    }

    /** Visiting a measure succeeds exactly when nothing below it is broken or circular. */
    method VisitTop(m: MeasureId) returns (err: Option<Error>)
      requires ValidBut({m}) && m in model.bodies && stack == []
      modifies this
      ensures vars == old(vars)
      ensures err.None? <==> model.Healthy(m, vars)
      ensures err.None? ==> Valid() && Progress() && m in order
      ensures err.Some? ==> Explains(err.value, m)
    {
      err := Visit(m);
      if err.None? {
        forall n | model.Reaches(m, n)
          ensures !model.Cyclic(n) && !model.Broken(n, vars)
        {
          FinishedIsSound(m, n);
        }
      }
    }

    // ---- the query ----

    /** The failure is real: a measure that depends on itself, or an occurrence - the query's own or a
      * measure's - that means nothing or too much. */
    ghost predicate Fault(err: Error, own: set<ColRef>)
      reads this
    {
      match err
      case Circular(m) => m in model.bodies && model.Cyclic(m)
      case UnknownRef(cr) => model.Meaning(cr, vars) == Unknown && Occurs(cr, own)
      case AmbiguousRef(cr) => model.Meaning(cr, vars) == Ambiguous && Occurs(cr, own)
    }

    ghost predicate Occurs(cr: ColRef, own: set<ColRef>) {
      cr in own || exists m :: m in model.bodies && cr in RefsIn(model.bodies[m])
    }

    /** All recorded measures are finished. */
    ghost predicate AllFinished()
      reads this
    {
      Valid() && stack == [] && forall cr :: cr in refs && refs[cr].Measure? ==> refs[cr].id in order
    }

    twostate predicate Advanced()
      reads this
    {
      vars == old(vars) && old(order) <= order && GrowsTo(old(refs), refs)
    }

    method ResolveMeasures(definitions: seq<MeasureId>, ghost own: set<ColRef>) returns (err: Option<Error>)
      requires AllFinished() && forall m :: m in definitions ==> m in model.bodies
      modifies this
      ensures vars == old(vars)
      ensures err.None? ==> AllFinished() && Advanced() && forall m :: m in definitions ==> m in order
      ensures err.None? <==> forall m :: m in definitions ==> model.Healthy(m, vars)
      ensures err.Some? ==> Fault(err.value, own)
    {
      hide Model.Reaches, Model.Cyclic, Model.Broken, Model.Healthy, Model.Path, Ordered, RightTarget;
      for i := 0 to |definitions|
        invariant AllFinished() && old(order) <= order && vars == old(vars) && old(refs).Keys <= refs.Keys
        invariant forall j :: 0 <= j < i ==> definitions[j] in order && model.Healthy(definitions[j], vars)
      {
        err := VisitTop(definitions[i]);
        if err.Some? {
          ExplainedIsFault(err.value, definitions[i], own);
          return;
        }
      }
      RightRefsGrow(model, old(refs), refs);
      return None;
    }

    lemma ExplainedIsFault(err: Error, m: MeasureId, own: set<ColRef>)
      requires Explains(err, m)
      ensures Fault(err, own)
    {
      if err.Circular? {
        var p :| model.Path(p) && |p| > 1 && p[0] == err.id && p[|p| - 1] == err.id;
        assert model.Refers(p[0], p[1]);
      }
    }

    /** Records a measure the query refers to and visits it. */
    method ResolveQueryMeasure(cr: ColRef, m: MeasureId, ghost own: set<ColRef>) returns (err: Option<Error>)
      requires AllFinished() && model.Meaning(cr, {}) == Measure(m)
      modifies this
      ensures vars == old(vars)
      ensures err.None? ==> AllFinished() && Advanced() && cr in refs && refs[cr] == Measure(m)
      ensures err.None? <==> model.Healthy(m, vars)
      ensures err.Some? ==> Fault(err.value, own)
    {
      MeasureExists(cr);
      hide Model.Reaches, Model.Cyclic, Model.Broken, Model.Healthy, Model.Path, Model.Meaning, Ordered;
      Record(cr, Measure(m), {m});
      err := VisitTop(m);
      if err.Some? {
        ExplainedIsFault(err.value, m, own);
      } else {
        RightRefsGrow(model, old(refs), refs);
      }
    }

    method ResolveColRef(cr: ColRef, bare: bool, ghost own: set<ColRef>) returns (err: Option<Error>)
      requires AllFinished() && cr in own
      modifies this
      ensures vars == old(vars)
      ensures err.None? ==> AllFinished() && Advanced() && Accepted(model, refs, vars, cr, bare)
      ensures err.None? <==> Sayable(model, vars, cr, bare)
      ensures err.Some? ==> Fault(err.value, own)
    {
      MeasureIsStatic(model, cr, {}, vars);
      var def: Option<MeasureId>;
      if cr.table.None? {
        var ambiguous;
        def, ambiguous := FindMeasureByName(cr);
        if ambiguous {
          return Some(AmbiguousRef(cr));
        }
        if def.None? {
          if bare {
            Record(cr, Output, {});
            RightRefsGrow(model, old(refs), refs);
            return None;
          }
          return Some(UnknownRef(cr));
        }
      } else {
        if cr.table.value in vars {
          return None;
        }
        def := FindMeasure(cr);
        if def.None? {
          err := ResolveColumn(cr);
          if err.None? {
            RightRefsGrow(model, old(refs), refs);
          }
          return;
        }
      }
      err := ResolveQueryMeasure(cr, def.value, own);
    }

    method ResolveExpr(e: Expr, bare: bool, ghost own: set<ColRef>) returns (err: Option<Error>)
      requires AllFinished() && Occurrences(e) <= own
      modifies this
      ensures vars == old(vars)
      ensures err.None? ==> AllFinished() && Advanced() && ResolvedExpr(model, refs, vars, e, bare)
      ensures err.None? <==> SayableExpr(model, vars, e, bare)
      ensures err.Some? ==> Fault(err.value, own)
      decreases e
    {
      for i := 0 to |e.terms|
        invariant AllFinished() && Advanced()
        invariant forall j :: 0 <= j < i ==> ResolvedTerm(model, refs, vars, e.terms[j], bare) && SayableTerm(model, vars, e.terms[j], bare)
      {
        ghost var before := refs;
        err := ResolveTerm(e.terms[i], bare, own);
        if err.Some? {
          return;
        }
        forall j | 0 <= j < i
          ensures ResolvedTerm(model, refs, vars, e.terms[j], bare)
        {
          TermStaysResolved(model, before, refs, vars, e.terms[j], bare);
        }
      }
      return None;
    }

    method ResolveTerm(t: Term, bare: bool, ghost own: set<ColRef>) returns (err: Option<Error>)
      requires AllFinished() && OccurrencesInTerm(t) <= own
      modifies this
      ensures vars == old(vars)
      ensures err.None? ==> AllFinished() && Advanced() && ResolvedTerm(model, refs, vars, t, bare)
      ensures err.None? <==> SayableTerm(model, vars, t, bare)
      ensures err.Some? ==> Fault(err.value, own)
      decreases t
    {
      hide AllFinished, Fault, Accepted, Sayable;
      match t
      case Ref(cr) =>
        err := ResolveColRef(cr, bare, own);
      case Call(fn, args) =>
        for i := 0 to |args|
          invariant AllFinished() && Advanced()
          invariant forall j :: 0 <= j < i ==> ResolvedExpr(model, refs, vars, args[j], BareIn(fn, j, bare)) && SayableExpr(model, vars, args[j], BareIn(fn, j, bare))
        {
          ghost var before := refs;
          err := ResolveExpr(args[i], BareIn(fn, i, bare), own);
          if err.Some? {
            return;
          }
          forall j | 0 <= j < i
            ensures ResolvedExpr(model, refs, vars, args[j], BareIn(fn, j, bare))
          {
            ExprStaysResolved(model, before, refs, vars, args[j], BareIn(fn, j, bare));
          }
        }
        return None;
      case SubExpr(body) =>
        err := ResolveExpr(body, bare, own);
      case TableConstructor(values) =>
        for i := 0 to |values|
          invariant AllFinished() && Advanced()
          invariant forall j :: 0 <= j < i ==> ResolvedExpr(model, refs, vars, values[j], bare) && SayableExpr(model, vars, values[j], bare)
        {
          ghost var before := refs;
          err := ResolveExpr(values[i], bare, own);
          if err.Some? {
            return;
          }
          forall j | 0 <= j < i
            ensures ResolvedExpr(model, refs, vars, values[j], bare)
          {
            ExprStaysResolved(model, before, refs, vars, values[j], bare);
          }
        }
        return None;
      case Atom(_) =>
        return None;
    }

    method DeclareVar(name: Table)
      requires AllFinished()
      modifies `vars
      ensures AllFinished() && vars == old(vars) + {name}
      ensures refs == old(refs) && order == old(order)
    {
      ghost var before := vars;
      vars := vars + {name};
      forall i | 0 <= i < |order|
        ensures AllSettled(RefsIn(model.bodies[order[i]]), i)
      {
        assert old(AllSettled(RefsIn(model.bodies[order[i]]), i));
        forall cr | cr in RefsIn(model.bodies[order[i]])
          ensures Settled(cr, i)
        {
          assert old(Settled(cr, i));
          MeasureIsStatic(model, cr, before, vars);
        }
      }
    }

    /** The measures the query defines, its VARs in order, its table expression.  A VAR's expression
      * sees the VARs before it. */
    method Resolve(defines: seq<MeasureId>, lets: seq<(Table, Expr)>, main: Expr) returns (err: Option<Error>)
      requires AllFinished() && vars == {} && forall m :: m in defines ==> m in model.bodies
      modifies this
      ensures err.None? ==> Closed(model, refs, order) && forall m :: m in defines ==> m in order
      ensures err.None? ==> LetsResolved(model, refs, lets, |lets|) && ResolvedExpr(model, refs, VarNames(lets, |lets|), main, false)
      ensures err.None? <==>
        && (forall m :: m in defines ==> model.Healthy(m, {}))
        && (forall i :: 0 <= i < |lets| ==> SayableExpr(model, VarNames(lets, i), lets[i].1, false))
        && SayableExpr(model, VarNames(lets, |lets|), main, false)
      ensures err.Some? ==> Fault(err.value, QueryOccurrences(lets, main))
    {
      hide AllFinished, Fault, ResolvedExpr, SayableExpr, Model.Healthy;
      ghost var own := QueryOccurrences(lets, main);
      err := ResolveMeasures(defines, own);
      if err.Some? {
        return;
      }
      for i := 0 to |lets|
        invariant AllFinished() && vars == VarNames(lets, i) && forall m :: m in defines ==> m in order
        invariant LetsResolved(model, refs, lets, i)
        invariant forall j :: 0 <= j < i ==> SayableExpr(model, VarNames(lets, j), lets[j].1, false)
      {
        ghost var before := refs;
        err := ResolveExpr(lets[i].1, false, own);
        if err.Some? {
          return;
        }
        LetsStayResolved(model, before, refs, lets, i);
        DeclareVar(lets[i].0);
      }
      ghost var done, before := order, refs;
      err := ResolveExpr(main, false, own);
      if err.None? {
        assert forall m :: m in done ==> m in order;
        LetsStayResolved(model, before, refs, lets, |lets|);
        FinishedIsClosed();
      }
    }

    lemma FinishedIsClosed()
      requires AllFinished()
      ensures Closed(model, refs, order)
    {
      forall i, cr | 0 <= i < |order| && cr in RefsIn(model.bodies[order[i]])
        ensures Defined(refs, order[..i], cr) && (model.Meaning(cr, {}).Measure? ==> cr in refs)
      {
        assert AllSettled(RefsIn(model.bodies[order[i]]), i);
      }
    }
  }

  ghost function VarNames(lets: seq<(Table, Expr)>, n: nat): set<Table>
    requires n <= |lets|
  {
    set i | 0 <= i < n :: lets[i].0
  }

  ghost predicate LetsResolved(model: Model, refs: map<ColRef, Target>, lets: seq<(Table, Expr)>, n: nat)
    requires n <= |lets|
  {
    forall i :: 0 <= i < n ==> ResolvedExpr(model, refs, VarNames(lets, i), lets[i].1, false)
  }

  ghost function QueryOccurrences(lets: seq<(Table, Expr)>, main: Expr): (own: set<ColRef>)
    ensures Occurrences(main) <= own && forall i :: 0 <= i < |lets| ==> Occurrences(lets[i].1) <= own
  {
    Occurrences(main) + set i, cr | 0 <= i < |lets| && cr in Occurrences(lets[i].1) :: cr
  }

  lemma LetsStayResolved(model: Model, a: map<ColRef, Target>, b: map<ColRef, Target>, lets: seq<(Table, Expr)>, n: nat)
    requires n <= |lets| && LetsResolved(model, a, lets, n) && GrowsTo(a, b)
    ensures LetsResolved(model, b, lets, n)
  {
    hide ResolvedExpr;
    forall i | 0 <= i < n
      ensures ResolvedExpr(model, b, VarNames(lets, i), lets[i].1, false)
    {
      ExprStaysResolved(model, a, b, VarNames(lets, i), lets[i].1, false);
    }
  }

  // ---- inline expansion ----

  /** The occurrence is recorded as no measure, or as one of these. */
  ghost predicate Defined(refs: map<ColRef, Target>, order: seq<MeasureId>, cr: ColRef) {
    cr in refs && refs[cr].Measure? ==> refs[cr].id in order
  }

  ghost predicate ClosedUnder(model: Model, refs: map<ColRef, Target>, order: seq<MeasureId>) {
    && (forall i :: 0 <= i < |order| ==> order[i] in model.bodies)
    && forall i, cr :: 0 <= i < |order| && cr in RefsIn(model.bodies[order[i]]) ==> Defined(refs, order[..i], cr)
  }

  /** The recorded measures, and all they refer to, stand in an order in which bodies only look back. */
  ghost predicate Closed(model: Model, refs: map<ColRef, Target>, order: seq<MeasureId>) {
    && ClosedUnder(model, refs, order)
    && (forall cr :: Defined(refs, order, cr))
    && (forall i, cr :: 0 <= i < |order| && cr in RefsIn(model.bodies[order[i]]) && model.Meaning(cr, {}).Measure? ==> cr in refs)
    && RightRefs(model, refs)
  }

  ghost function FirstIn(s: seq<MeasureId>, m: MeasureId): (k: nat)
    requires m in s
    ensures k < |s| && s[k] == m && forall j :: 0 <= j < k ==> s[j] != m
  {
    if s[0] == m then 0 else FirstIn(s[1..], m) + 1
  }

  ghost predicate AllDefined(refs: map<ColRef, Target>, order: seq<MeasureId>, crs: set<ColRef>) {
    forall cr :: cr in crs ==> Defined(refs, order, cr)
  }

  lemma ClosedPrefix(model: Model, refs: map<ColRef, Target>, order: seq<MeasureId>, k: nat)
    requires ClosedUnder(model, refs, order) && k < |order|
    ensures ClosedUnder(model, refs, order[..k]) && AllDefined(refs, order[..k], RefsIn(model.bodies[order[k]]))
  {
    forall i, cr | 0 <= i < k && cr in RefsIn(model.bodies[order[..k][i]])
      ensures Defined(refs, order[..k][..i], cr)
    {
      assert order[..k][..i] == order[..i];
    }
  }

  /** A reference recorded as a measure is replaced by the measure's definition, and so on down. */
  ghost function Expand(model: Model, refs: map<ColRef, Target>, order: seq<MeasureId>, e: Expr): Expr
    requires ClosedUnder(model, refs, order) && AllDefined(refs, order, RefsIn(e))
    decreases |order|, e
  {
    Expr(e.ops, seq(|e.terms|, i requires 0 <= i < |e.terms| =>
      assert AllDefined(refs, order, RefsInTerm(e.terms[i]));
      ExpandTerm(model, refs, order, e.terms[i])))
  }

  ghost function ExpandTerm(model: Model, refs: map<ColRef, Target>, order: seq<MeasureId>, t: Term): Term
    requires ClosedUnder(model, refs, order) && AllDefined(refs, order, RefsInTerm(t))
    decreases |order|, t
  {
    match t
    case Ref(cr) =>
      if cr in refs && refs[cr].Measure? then
        assert Defined(refs, order, cr);
        var k := FirstIn(order, refs[cr].id);
        ClosedPrefix(model, refs, order, k);
        SubExpr(Expand(model, refs, order[..k], model.bodies[order[k]]))
      else t
    case Call(fn, args) =>
      Call(fn, seq(|args|, i requires 0 <= i < |args| =>
        assert AllDefined(refs, order, RefsIn(args[i]));
        Expand(model, refs, order, args[i])))
    case SubExpr(body) => SubExpr(Expand(model, refs, order, body))
    case TableConstructor(_) => t
    case Atom(_) => t
  }

  /** What expansion may leave: an occurrence not recorded as a measure, in the expression itself or in
    * a finished measure's body. */
  ghost predicate Leaves(model: Model, refs: map<ColRef, Target>, order: seq<MeasureId>, own: set<ColRef>, cr: ColRef) {
    && (cr in refs ==> !refs[cr].Measure?)
    && (cr in own || exists i :: 0 <= i < |order| && order[i] in model.bodies && cr in RefsIn(model.bodies[order[i]]))
  }

  lemma {:induction false} ExpandLeaves(model: Model, refs: map<ColRef, Target>, order: seq<MeasureId>, e: Expr)
    requires ClosedUnder(model, refs, order) && AllDefined(refs, order, RefsIn(e))
    ensures forall cr :: cr in RefsIn(Expand(model, refs, order, e)) ==> Leaves(model, refs, order, RefsIn(e), cr)
    decreases |order|, e
  {
    var x := Expand(model, refs, order, e);
    forall i, cr | 0 <= i < |e.terms| && cr in RefsInTerm(x.terms[i])
      ensures Leaves(model, refs, order, RefsIn(e), cr)
    {
      assert AllDefined(refs, order, RefsInTerm(e.terms[i]));
      TermLeaves(model, refs, order, e.terms[i]);
      assert x.terms[i] == ExpandTerm(model, refs, order, e.terms[i]);
      assert Leaves(model, refs, order, RefsInTerm(e.terms[i]), cr);
    }
  }

  lemma {:induction false} TermLeaves(model: Model, refs: map<ColRef, Target>, order: seq<MeasureId>, t: Term)
    requires ClosedUnder(model, refs, order) && AllDefined(refs, order, RefsInTerm(t))
    ensures forall cr :: cr in RefsInTerm(ExpandTerm(model, refs, order, t)) ==> Leaves(model, refs, order, RefsInTerm(t), cr)
    decreases |order|, t
  {
    match t
    case Ref(cr) =>
      if cr in refs && refs[cr].Measure? {
        assert Defined(refs, order, cr);
        var k := FirstIn(order, refs[cr].id);
        ClosedPrefix(model, refs, order, k);
        ExpandLeaves(model, refs, order[..k], model.bodies[order[k]]);
        LeavesMore(model, refs, order, k, RefsInTerm(t));
      }
    case Call(fn, args) =>
      var x := ExpandTerm(model, refs, order, t);
      forall i, cr | 0 <= i < |args| && cr in RefsIn(x.args[i])
        ensures Leaves(model, refs, order, RefsInTerm(t), cr)
      {
        assert AllDefined(refs, order, RefsIn(args[i]));
        ExpandLeaves(model, refs, order, args[i]);
        assert x.args[i] == Expand(model, refs, order, args[i]);
        assert Leaves(model, refs, order, RefsIn(args[i]), cr);
      }
    case SubExpr(body) =>
      ExpandLeaves(model, refs, order, body);
    case TableConstructor(_) =>
    case Atom(_) =>
  }

  lemma LeavesMore(model: Model, refs: map<ColRef, Target>, order: seq<MeasureId>, k: nat, own: set<ColRef>)
    requires k < |order| && order[k] in model.bodies
    ensures forall cr :: Leaves(model, refs, order[..k], RefsIn(model.bodies[order[k]]), cr) ==> Leaves(model, refs, order, own, cr)
  {
    forall cr | Leaves(model, refs, order[..k], RefsIn(model.bodies[order[k]]), cr)
      ensures Leaves(model, refs, order, own, cr)
    {
      if i :| 0 <= i < k && order[..k][i] in model.bodies && cr in RefsIn(model.bodies[order[..k][i]]) {
        assert order[..k][i] == order[i];
      }
    }
  }

  /** An accepted occurrence that is left over names no measure, unless a VAR's table hides it. */
  lemma {:induction false} ResolvedRefs(model: Model, refs: map<ColRef, Target>, vars: set<Table>, e: Expr, bare: bool, cr: ColRef)
    requires ResolvedExpr(model, refs, vars, e, bare) && cr in RefsIn(e)
    ensures Hidden(vars, cr) || (cr in refs && RightTarget(model, cr, refs[cr]))
    decreases e
  {
    var i :| 0 <= i < |e.terms| && cr in RefsInTerm(e.terms[i]);
    assert ResolvedTerm(model, refs, vars, e.terms[i], bare);
    match e.terms[i]
    case Ref(_) =>
    case Call(fn, args) =>
      var j :| 0 <= j < |args| && cr in RefsIn(args[j]);
      ResolvedRefs(model, refs, vars, args[j], BareIn(fn, j, bare), cr);
    case SubExpr(body) =>
      ResolvedRefs(model, refs, vars, body, bare, cr);
  }

  /** After a successful pass inline expansion of the query's expressions terminates and leaves no
    * measure reference, but for occurrences that a VAR's table hides. */
  lemma ExpandIsMeasureFree(model: Model, refs: map<ColRef, Target>, order: seq<MeasureId>, vars: set<Table>, e: Expr)
    requires Closed(model, refs, order) && ResolvedExpr(model, refs, vars, e, false)
    ensures AllDefined(refs, order, RefsIn(e))
    ensures forall cr :: cr in RefsIn(Expand(model, refs, order, e)) && model.Meaning(cr, {}).Measure? ==>
      cr in RefsIn(e) && Hidden(vars, cr)
  {
    hide ResolvedExpr;
    ExpandLeaves(model, refs, order, e);
    forall cr | cr in RefsIn(Expand(model, refs, order, e)) && model.Meaning(cr, {}).Measure?
      ensures cr in RefsIn(e) && Hidden(vars, cr)
    {
      assert Leaves(model, refs, order, RefsIn(e), cr);
      assert cr in refs ==> RightTarget(model, cr, refs[cr]);
      ResolvedRefs(model, refs, vars, e, false, cr);
    }
  }

  // ---- what an expression means ----

  /** The meaning of everything but measures: operators, functions, columns, literals, value lists.  A value
    * may well depend on the context it is read in. */
  datatype Sense<!V> = Sense(
    op: (seq<nat>, seq<V>) -> V, call: (Func, seq<V>) -> V, column: ColRef -> V, literal: nat -> V, list: seq<Expr> -> V)

  /** A reference recorded as a measure has the measure's value. */
  ghost function Eval<V>(s: Sense<V>, refs: map<ColRef, Target>, val: MeasureId -> V, e: Expr): V {
    s.op(e.ops, seq(|e.terms|, i requires 0 <= i < |e.terms| => EvalTerm(s, refs, val, e.terms[i])))
  }

  ghost function EvalTerm<V>(s: Sense<V>, refs: map<ColRef, Target>, val: MeasureId -> V, t: Term): V {
    match t
    case Ref(cr) => if cr in refs && refs[cr].Measure? then val(refs[cr].id) else s.column(cr)
    case Call(fn, args) => s.call(fn, seq(|args|, i requires 0 <= i < |args| => Eval(s, refs, val, args[i])))
    case SubExpr(body) => Eval(s, refs, val, body)
    case TableConstructor(values) => s.list(values)
    case Atom(literal) => s.literal(literal)
  }

  /** Each of these measures has the value of its own definition. */
  ghost predicate Solves<V(!new)>(s: Sense<V>, model: Model, refs: map<ColRef, Target>, order: seq<MeasureId>, val: MeasureId -> V) {
    forall m :: m in order && m in model.bodies ==> val(m) == Eval(s, refs, val, model.bodies[m])
  }

  /** Inlining definitions keeps the value of every expression. */
  lemma {:induction false} ExpandKeepsValue<V(!new)>(s: Sense<V>, model: Model, refs: map<ColRef, Target>, order: seq<MeasureId>, val: MeasureId -> V, e: Expr)
    requires ClosedUnder(model, refs, order) && AllDefined(refs, order, RefsIn(e)) && Solves(s, model, refs, order, val)
    ensures Eval(s, refs, val, Expand(model, refs, order, e)) == Eval(s, refs, val, e)
    decreases |order|, e
  {
    var x := Expand(model, refs, order, e);
    forall i | 0 <= i < |e.terms|
      ensures EvalTerm(s, refs, val, x.terms[i]) == EvalTerm(s, refs, val, e.terms[i])
    {
      assert AllDefined(refs, order, RefsInTerm(e.terms[i]));
      TermKeepsValue(s, model, refs, order, val, e.terms[i]);
    }
    assert seq(|x.terms|, i requires 0 <= i < |x.terms| => EvalTerm(s, refs, val, x.terms[i]))
      == seq(|e.terms|, i requires 0 <= i < |e.terms| => EvalTerm(s, refs, val, e.terms[i]));
  }

  lemma {:induction false} TermKeepsValue<V(!new)>(s: Sense<V>, model: Model, refs: map<ColRef, Target>, order: seq<MeasureId>, val: MeasureId -> V, t: Term)
    requires ClosedUnder(model, refs, order) && AllDefined(refs, order, RefsInTerm(t)) && Solves(s, model, refs, order, val)
    ensures EvalTerm(s, refs, val, ExpandTerm(model, refs, order, t)) == EvalTerm(s, refs, val, t)
    decreases |order|, t
  {
    match t
    case Ref(cr) =>
      if cr in refs && refs[cr].Measure? {
        assert Defined(refs, order, cr);
        var k := FirstIn(order, refs[cr].id);
        ClosedPrefix(model, refs, order, k);
        ExpandKeepsValue(s, model, refs, order[..k], val, model.bodies[order[k]]);
      }
    case Call(fn, args) =>
      var x := ExpandTerm(model, refs, order, t);
      forall i | 0 <= i < |args|
        ensures Eval(s, refs, val, x.args[i]) == Eval(s, refs, val, args[i])
      {
        assert AllDefined(refs, order, RefsIn(args[i]));
        ExpandKeepsValue(s, model, refs, order, val, args[i]);
      }
      assert seq(|x.args|, i requires 0 <= i < |x.args| => Eval(s, refs, val, x.args[i]))
        == seq(|args|, i requires 0 <= i < |args| => Eval(s, refs, val, args[i]));
    case SubExpr(body) =>
      ExpandKeepsValue(s, model, refs, order, val, body);
    case TableConstructor(_) =>
    case Atom(_) =>
  }

  /** The value of an expression depends on the measures it refers to alone. */
  lemma {:induction false} SameMeasures<V>(s: Sense<V>, refs: map<ColRef, Target>, val: MeasureId -> V, other: MeasureId -> V, e: Expr)
    requires forall cr :: cr in RefsIn(e) && cr in refs && refs[cr].Measure? ==> val(refs[cr].id) == other(refs[cr].id)
    ensures Eval(s, refs, val, e) == Eval(s, refs, other, e)
    decreases e
  {
    forall i | 0 <= i < |e.terms|
      ensures EvalTerm(s, refs, val, e.terms[i]) == EvalTerm(s, refs, other, e.terms[i])
    {
      assert forall cr :: cr in RefsInTerm(e.terms[i]) ==> cr in RefsIn(e);
      SameMeasuresInTerm(s, refs, val, other, e.terms[i]);
    }
    assert seq(|e.terms|, i requires 0 <= i < |e.terms| => EvalTerm(s, refs, val, e.terms[i]))
      == seq(|e.terms|, i requires 0 <= i < |e.terms| => EvalTerm(s, refs, other, e.terms[i]));
  }

  lemma {:induction false} SameMeasuresInTerm<V>(s: Sense<V>, refs: map<ColRef, Target>, val: MeasureId -> V, other: MeasureId -> V, t: Term)
    requires forall cr :: cr in RefsInTerm(t) && cr in refs && refs[cr].Measure? ==> val(refs[cr].id) == other(refs[cr].id)
    ensures EvalTerm(s, refs, val, t) == EvalTerm(s, refs, other, t)
    decreases t
  {
    match t
    case Ref(_) =>
    case Call(fn, args) =>
      forall i | 0 <= i < |args|
        ensures Eval(s, refs, val, args[i]) == Eval(s, refs, other, args[i])
      {
        assert forall cr :: cr in RefsIn(args[i]) ==> cr in RefsInTerm(t);
        SameMeasures(s, refs, val, other, args[i]);
      }
      assert seq(|args|, i requires 0 <= i < |args| => Eval(s, refs, val, args[i]))
        == seq(|args|, i requires 0 <= i < |args| => Eval(s, refs, other, args[i]));
    case SubExpr(body) =>
      SameMeasures(s, refs, val, other, body);
    case TableConstructor(_) =>
    case Atom(_) =>
  }

  /** Finished measures do have values: their definitions never run in a circle. */
  lemma {:induction false} MeasuresHaveValues<V(!new, 00)>(s: Sense<V>, model: Model, refs: map<ColRef, Target>, order: seq<MeasureId>) returns (val: MeasureId -> V)
    requires ClosedUnder(model, refs, order)
    ensures Solves(s, model, refs, order, val)
    decreases |order|
  {
    var start: V := *;
    val := _ => start;
    if order != [] {
      var k := |order| - 1;
      var m, body := order[k], model.bodies[order[k]];
      ClosedPrefix(model, refs, order, k);
      var before := MeasuresHaveValues(s, model, refs, order[..k]);
      if m in order[..k] {
        val := before;
      } else {
        var v := Eval(s, refs, before, body);
        val := (n: MeasureId) => if n == m then v else before(n);
        forall n | n in order
          ensures val(n) == Eval(s, refs, val, model.bodies[n])
        {
          BodyLooksBack(model, refs, order, k, n);
          SameMeasures(s, refs, before, val, model.bodies[n]);
        }
      }
    }
  }

  /** A finished measure's definition refers to none finished last. */
  lemma BodyLooksBack(model: Model, refs: map<ColRef, Target>, order: seq<MeasureId>, k: nat, n: MeasureId)
    requires ClosedUnder(model, refs, order) && k == |order| - 1 && n in order
    ensures n in model.bodies && AllDefined(refs, order[..k], RefsIn(model.bodies[n]))
  {
    var i :| 0 <= i < |order| && order[i] == n;
    forall cr | cr in RefsIn(model.bodies[n])
      ensures Defined(refs, order[..k], cr)
    {
      assert Defined(refs, order[..i], cr);
      assert forall j :: j in order[..i] ==> j in order[..k];
    }
  }

  /** After a successful pass the expanded expression, which reads columns and literals alone, has the value
    * that every valuation of the measures by their definitions gives the query's own expression. */
  lemma ExpansionIsTheValue<V(!new)>(s: Sense<V>, model: Model, refs: map<ColRef, Target>, order: seq<MeasureId>, vars: set<Table>, e: Expr,
    val: MeasureId -> V, any: MeasureId -> V)
    requires Closed(model, refs, order) && ResolvedExpr(model, refs, vars, e, false) && Solves(s, model, refs, order, val)
    ensures AllDefined(refs, order, RefsIn(e))
    ensures Eval(s, refs, any, Expand(model, refs, order, e)) == Eval(s, refs, val, e)
  {
    hide ResolvedExpr, Solves;
    ExpandLeaves(model, refs, order, e);
    ExpandKeepsValue(s, model, refs, order, val, e);
    forall cr | cr in RefsIn(Expand(model, refs, order, e))
      ensures cr in refs ==> !refs[cr].Measure?
    {
      assert Leaves(model, refs, order, RefsIn(e), cr);
    }
    SameMeasures(s, refs, any, val, Expand(model, refs, order, e));
  }
}
