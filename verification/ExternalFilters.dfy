/** Filters supplied beside a query: the expressions they become, what those mean, and where they are
  * put into a SUMMARIZECOLUMNS call. */
module ExternalFilters {
  import opened Relationships
  import opened Relational

  datatype ColRef = ColRef(table: Table, col: Relationships.Column)

  datatype Operator = Eq | Ne | Lt | Le | Gt | Ge | And | Or

  datatype Term =
    | ColTerm(ref: ColRef)
    | Number(n: int)
    | Text(s: string)
    | SubExpr(e: Expr)
    | TableTerm(table: Table)
    | Tuples(rows: seq<seq<int>>)
    | Call(name: string, args: seq<Expr>)

  /** A term and a chain of operators, as parsed: nothing says how the chain groups. */
  datatype Expr = Expr(left: Term, right: seq<(Operator, Term)>)

  /** A validated filter; text values stand as numbers. */
  datatype Filter =
    | In(col: ColRef, values: seq<int>)
    | Between(col: ColRef, lo: int, hi: int)
    | Contains(col: ColRef, value: int)
    | Compare(op: Operator, col: ColRef, value: int)
    | InTuples(cols: seq<ColRef>, tuples: seq<seq<int>>)

  predicate Validated(f: Filter) {
    match f
    case In(_, values) => values != []
    case InTuples(cols, tuples) => cols != [] && tuples != [] && forall t :: t in tuples ==> |t| == |cols|
    case Compare(op, _, _) => op != And && op != Or
    case _ => true
  }

  // ---- building ----

  function ExprOf(t: Term): Expr {
    Expr(t, [])
  }

  /** A parenthesised term, unless the expression is one term already. */
  function Sub(e: Expr): Term {
    if e.right == [] then e.left else SubExpr(e)
  }

  function Binary(left: Expr, op: Operator, right: Expr): Expr {
    Expr(left.left, left.right + [(op, Sub(right))])
  }

  function Chain(op: Operator, terms: seq<Term>): Expr
    requires terms != []
  {
    Expr(terms[0], seq(|terms| - 1, i requires 0 <= i < |terms| - 1 => (op, terms[i + 1])))
  }

  method Conjoin(preds: seq<Expr>) returns (e: Expr)
    requires preds != []
    ensures e == Chain(And, Subs(preds))
  {
    e := Expr(Sub(preds[0]), []);
    for i := 1 to |preds|
      invariant e == Chain(And, Subs(preds[..i]))
    {
      assert preds[..i + 1] == preds[..i] + [preds[i]];
      e := Expr(e.left, e.right + [(And, Sub(preds[i]))]);
    }
    assert preds[..|preds|] == preds;
  }

  function Subs(es: seq<Expr>): (r: seq<Term>)
    ensures |r| == |es|
  {
    seq(|es|, i requires 0 <= i < |es| => Sub(es[i]))
  }

  /** Alternatives, each in parentheses; a single one stays as it is. */
  method Disjoin(ors: seq<Expr>) returns (e: Expr)
    requires ors != []
    ensures e == Alternatives(ors)
  {
    if |ors| == 1 {
      return ors[0];
    }
    e := Expr(SubExpr(ors[0]), []);
    for i := 1 to |ors|
      invariant e == Chain(Or, Wrapped(ors[..i]))
    {
      assert ors[..i + 1] == ors[..i] + [ors[i]];
      e := Expr(e.left, e.right + [(Or, SubExpr(ors[i]))]);
    }
    assert ors[..|ors|] == ors;
  }

  function Wrapped(es: seq<Expr>): (r: seq<Term>)
    ensures |r| == |es|
  {
    seq(|es|, i requires 0 <= i < |es| => SubExpr(es[i]))
  }

  function Alternatives(ors: seq<Expr>): Expr
    requires ors != []
  {
    if |ors| == 1 then ors[0] else Chain(Or, Wrapped(ors))
  }

  function ColumnIs(c: ColRef, op: Operator, v: int): Expr {
    Binary(ExprOf(ColTerm(c)), op, ExprOf(Number(v)))
  }

  function TupleIs(cols: seq<ColRef>, t: seq<int>): (r: seq<Expr>)
    requires |t| == |cols|
    ensures |r| == |cols|
  {
    seq(|cols|, j requires 0 <= j < |cols| => ColumnIs(cols[j], Eq, t[j]))
  }

  /** The boolean expression of a filter. */
  method Predicate(f: Filter) returns (e: Expr)
    requires Validated(f)
    ensures e == PredicateOf(f)
  {
    match f
    case InTuples(cols, tuples) =>
      var ors: seq<Expr> := [];
      for i := 0 to |tuples|
        invariant ors == TupleAlternatives(cols, tuples[..i])
      {
        assert tuples[..i + 1] == tuples[..i] + [tuples[i]];
        var both := Conjoin(TupleIs(cols, tuples[i]));
        ors := ors + [both];
      }
      assert tuples[..|tuples|] == tuples;
      e := Disjoin(ors);
    case In(col, values) =>
      var ors: seq<Expr> := [];
      for i := 0 to |values|
        invariant ors == ValueAlternatives(col, values[..i])
      {
        assert values[..i + 1] == values[..i] + [values[i]];
        ors := ors + [ColumnIs(col, Eq, values[i])];
      }
      assert values[..|values|] == values;
      e := Disjoin(ors);
    case Between(col, lo, hi) =>
      e := Expr(SubExpr(ColumnIs(col, Ge, lo)), [(And, SubExpr(ColumnIs(col, Le, hi)))]);
    case Contains(col, value) =>
      e := Binary(ExprOf(Call("SEARCH", [ExprOf(Number(value)), ExprOf(ColTerm(col))])), Gt, ExprOf(Number(0)));
    case Compare(op, col, value) =>
      e := ColumnIs(col, op, value);
  }

  function TupleAlternatives(cols: seq<ColRef>, tuples: seq<seq<int>>): (r: seq<Expr>)
    requires cols != [] && forall t :: t in tuples ==> |t| == |cols|
    ensures |r| == |tuples|
  {
    seq(|tuples|, i requires 0 <= i < |tuples| =>
      assert tuples[i] in tuples;
      Chain(And, Subs(TupleIs(cols, tuples[i]))))
  }

  function ValueAlternatives(col: ColRef, values: seq<int>): (r: seq<Expr>)
    ensures |r| == |values|
  {
    seq(|values|, i requires 0 <= i < |values| => ColumnIs(col, Eq, values[i]))
  }

  function PredicateOf(f: Filter): Expr
    requires Validated(f)
  {
    match f
    case InTuples(cols, tuples) => Alternatives(TupleAlternatives(cols, tuples))
    case In(col, values) => Alternatives(ValueAlternatives(col, values))
    case Between(col, lo, hi) => Chain(And, [SubExpr(ColumnIs(col, Ge, lo)), SubExpr(ColumnIs(col, Le, hi))])
    case Contains(col, value) =>
      Binary(ExprOf(Call("SEARCH", [ExprOf(Number(value)), ExprOf(ColTerm(col))])), Gt, ExprOf(Number(0)))
    case Compare(op, col, value) => ColumnIs(col, op, value)
  }

  /** The group-position argument: TREATAS for membership, FILTER for the rest. */
  method FilterArg(f: Filter, table: Table) returns (e: Expr)
    requires Validated(f)
    ensures e == FilterArgOf(f, table)
  {
    match f
    case In(col, values) =>
      var rows: seq<seq<int>> := [];
      for i := 0 to |values|
        invariant rows == Singles(values[..i])
      {
        assert values[..i + 1] == values[..i] + [values[i]];
        rows := rows + [[values[i]]];
      }
      assert values[..|values|] == values;
      e := ExprOf(Call("TREATAS", [ExprOf(Tuples(rows)), ExprOf(ColTerm(col))]));
    case InTuples(cols, tuples) =>
      var args := [ExprOf(Tuples(tuples))];
      for i := 0 to |cols|
        invariant args == [ExprOf(Tuples(tuples))] + ColArgs(cols[..i])
      {
        assert cols[..i + 1] == cols[..i] + [cols[i]];
        args := args + [ExprOf(ColTerm(cols[i]))];
      }
      assert cols[..|cols|] == cols;
      e := ExprOf(Call("TREATAS", args));
    case _ =>
      var pred := Predicate(f);
      e := ExprOf(Call("FILTER", [ExprOf(TableTerm(table)), pred]));
  }

  function Singles(values: seq<int>): seq<seq<int>> {
    seq(|values|, i requires 0 <= i < |values| => [values[i]])
  }

  function ColArgs(cols: seq<ColRef>): seq<Expr> {
    seq(|cols|, i requires 0 <= i < |cols| => ExprOf(ColTerm(cols[i])))
  }

  function FilterArgOf(f: Filter, table: Table): Expr
    requires Validated(f)
  {
    match f
    case In(col, values) => ExprOf(Call("TREATAS", [ExprOf(Tuples(Singles(values))), ExprOf(ColTerm(col))]))
    case InTuples(cols, tuples) => ExprOf(Call("TREATAS", [ExprOf(Tuples(tuples))] + ColArgs(cols)))
    case _ => ExprOf(Call("FILTER", [ExprOf(TableTerm(table)), PredicateOf(f)]))
  }

  // ---- meaning ----

  /** SQL's three truth values; a filter keeps a row when it is True of it. */
  datatype Truth = True | False | Unknown

  function BothOf(a: Truth, b: Truth): Truth {
    if a == False || b == False then False else if a == True && b == True then True else Unknown
  }

  function EitherOf(a: Truth, b: Truth): Truth {
    if a == True || b == True then True else if a == False && b == False then False else Unknown
  }

  function CompareTruth(op: Operator, a: Value, b: Value): Truth {
    if a == Null || b == Null then Unknown else
    var holds := match op
      case Eq => a.n == b.n
      case Ne => a.n != b.n
      case Lt => a.n < b.n
      case Le => a.n <= b.n
      case Gt => a.n > b.n
      case Ge => a.n >= b.n
      case _ => false;
    if holds then True else False
  }

  /** A row's columns, and how far into a text SEARCH finds another. */
  datatype Row = Row(col: ColRef -> Value, search: (int, Value) -> Value)

  function ValueOf(row: Row, t: Term): Value {
    match t
    case ColTerm(ref) => row.col(ref)
    case Number(n) => Val(n)
    case Call(_, args) =>
      if |args| == 2 && args[0].left.Number? && args[1].left.ColTerm? then row.search(args[0].left.n, row.col(args[1].left.ref)) else Null
    case _ => Null
  }

  function Apply(op: Operator, a: Truth, b: Truth): Truth {
    match op
    case And => BothOf(a, b)
    case Or => EitherOf(a, b)
    case _ => Unknown
  }

  ghost function TermTruth(row: Row, t: Term): Truth
    decreases t, 0
  {
    if t.SubExpr? then TruthUpTo(row, t.e, |t.e.right|) else Unknown
  }

  /** A chain read from the left, its first `n` operators. */
  ghost function TruthUpTo(row: Row, e: Expr, n: nat): Truth
    requires n <= |e.right|
    decreases e, n
  {
    if n == 0 then TermTruth(row, e.left) else
    var (op, t) := e.right[n - 1];
    if op == And || op == Or then Apply(op, TruthUpTo(row, e, n - 1), TermTruth(row, t))
    else if n == 1 then CompareTruth(op, ValueOf(row, e.left), ValueOf(row, t))
    else Unknown
  }

  ghost function TruthOf(row: Row, e: Expr): Truth {
    TruthUpTo(row, e, |e.right|)
  }

  // ---- no chain needs precedence ----

  /** One way of grouping a chain of terms. */
  datatype Tree = Leaf(t: Term) | Node(op: Operator, l: Tree, r: Tree)

  /** The chain a grouping is of. */
  function Flattened(tree: Tree): Expr {
    match tree
    case Leaf(t) => Expr(t, [])
    case Node(op, l, r) => Expr(Flattened(l).left, Flattened(l).right + [(op, Flattened(r).left)] + Flattened(r).right)
  }

  ghost function TreeTruth(row: Row, tree: Tree): Truth {
    match tree
    case Leaf(t) => TermTruth(row, t)
    case Node(op, l, r) => Apply(op, TreeTruth(row, l), TreeTruth(row, r))
  }

  /** All operators of the chain are this one. */
  predicate Only(op: Operator, e: Expr) {
    forall i :: 0 <= i < |e.right| ==> e.right[i].0 == op
  }

  lemma ApplyIsAssociative(op: Operator, a: Truth, b: Truth, c: Truth)
    requires op == And || op == Or
    ensures Apply(op, Apply(op, a, b), c) == Apply(op, a, Apply(op, b, c))
  {
  }

  lemma PrefixTruth(row: Row, a: Expr, b: Expr, n: nat)
    requires n <= |a.right| && n <= |b.right| && a.left == b.left && a.right[..n] == b.right[..n]
    ensures TruthUpTo(row, a, n) == TruthUpTo(row, b, n)
  {
  }

  /** Joining two chains by the operator they are made of. */
  lemma JoinedTruth(row: Row, op: Operator, a: Expr, b: Expr, n: nat)
    requires (op == And || op == Or) && Only(op, a) && Only(op, b) && n <= |b.right|
    ensures var e := Expr(a.left, a.right + [(op, b.left)] + b.right);
      TruthUpTo(row, e, |a.right| + 1 + n) == Apply(op, TruthOf(row, a), TruthUpTo(row, b, n))
  {
    var e := Expr(a.left, a.right + [(op, b.left)] + b.right);
    if n == 0 {
      assert e.right[|a.right|] == (op, b.left);
      assert e.right[..|a.right|] == a.right[..|a.right|];
      PrefixTruth(row, e, a, |a.right|);
    } else {
      JoinedTruth(row, op, a, b, n - 1);
      assert e.right[|a.right| + n] == b.right[n - 1];
      ApplyIsAssociative(op, TruthOf(row, a), TruthUpTo(row, b, n - 1), TermTruth(row, b.right[n - 1].1));
    }
  }

  /** However a chain of one boolean operator is grouped, it means the same. */
  lemma {:induction false} GroupingIsFree(row: Row, op: Operator, tree: Tree)
    requires (op == And || op == Or) && Only(op, Flattened(tree))
    ensures TreeTruth(row, tree) == TruthOf(row, Flattened(tree))
  {
    match tree
    case Leaf(t) =>
    case Node(o, l, r) =>
      var a, b, e := Flattened(l), Flattened(r), Flattened(tree);
      assert e.right[|a.right|] == (o, b.left);
      forall i | 0 <= i < |a.right|
        ensures a.right[i].0 == op
      {
        assert e.right[i] == a.right[i];
      }
      forall i | 0 <= i < |b.right|
        ensures b.right[i].0 == op
      {
        assert e.right[|a.right| + 1 + i] == b.right[i];
      }
      GroupingIsFree(row, op, l);
      GroupingIsFree(row, op, r);
      JoinedTruth(row, op, a, b, |b.right|);
  }

  /** A chain has one operator, or several of one boolean kind; so do the chains inside it. */
  ghost predicate OneOperator(e: Expr) {
    && (|e.right| <= 1 || Only(And, e) || Only(Or, e))
    && OneOperatorTerm(e.left)
    && forall i :: 0 <= i < |e.right| ==> OneOperatorTerm(e.right[i].1)
  }

  ghost predicate OneOperatorTerm(t: Term) {
    match t
    case SubExpr(e) => OneOperator(e)
    case Call(_, args) => forall i :: 0 <= i < |args| ==> OneOperator(args[i])
    case _ => true
  }

  lemma ChainIsUniform(op: Operator, terms: seq<Term>)
    requires terms != [] && (op == And || op == Or) && forall t :: t in terms ==> OneOperatorTerm(t)
    ensures OneOperator(Chain(op, terms))
  {
  }

  lemma ColumnIsUniform(c: ColRef, op: Operator, v: int)
    ensures OneOperator(ColumnIs(c, op, v)) && OneOperatorTerm(Sub(ColumnIs(c, op, v)))
  {
  }

  lemma TupleAlternativesAreUniform(cols: seq<ColRef>, tuples: seq<seq<int>>)
    requires Validated(InTuples(cols, tuples))
    ensures OneOperator(PredicateOf(InTuples(cols, tuples)))
  {
    var ors := TupleAlternatives(cols, tuples);
    forall i | 0 <= i < |tuples|
      ensures OneOperator(ors[i])
    {
      var both := TupleIs(cols, tuples[i]);
      forall t | t in Subs(both)
        ensures OneOperatorTerm(t)
      {
        var j :| 0 <= j < |both| && Subs(both)[j] == t;
        ColumnIsUniform(cols[j], Eq, tuples[i][j]);
      }
      ChainIsUniform(And, Subs(both));
    }
    AlternativesAreUniform(ors);
  }

  lemma ValueAlternativesAreUniform(col: ColRef, values: seq<int>)
    requires values != []
    ensures OneOperator(PredicateOf(In(col, values)))
  {
    forall i | 0 <= i < |values|
      ensures OneOperator(ValueAlternatives(col, values)[i])
    {
      ColumnIsUniform(col, Eq, values[i]);
    }
    AlternativesAreUniform(ValueAlternatives(col, values));
  }

  lemma TreatasIsUniform(args: seq<Expr>)
    requires forall i :: 0 <= i < |args| ==> args[i].right == [] && (args[i].left.Tuples? || args[i].left.ColTerm?)
    ensures OneOperator(ExprOf(Call("TREATAS", args)))
  {
    forall i | 0 <= i < |args|
      ensures OneOperator(args[i])
    {
    }
    assert OneOperatorTerm(Call("TREATAS", args));
  }

  /** No filter expression depends on operator precedence, at any level. */
  lemma FilterNeedsNoPrecedence(f: Filter, table: Table)
    requires Validated(f)
    ensures OneOperator(PredicateOf(f)) && OneOperator(FilterArgOf(f, table))
  {
    hide OneOperator, OneOperatorTerm;
    match f
    case InTuples(cols, tuples) =>
      TupleAlternativesAreUniform(cols, tuples);
      TreatasIsUniform([ExprOf(Tuples(tuples))] + ColArgs(cols));
    case In(col, values) =>
      ValueAlternativesAreUniform(col, values);
      TreatasIsUniform([ExprOf(Tuples(Singles(values))), ExprOf(ColTerm(col))]);
    case _ =>
      ComparisonIsUniform(f);
      FilterCallIsUniform(table, PredicateOf(f));
  }

  lemma ComparisonIsUniform(f: Filter)
    requires Validated(f) && (f.Between? || f.Contains? || f.Compare?)
    ensures OneOperator(PredicateOf(f))
  {
    match f
    case Between(col, lo, hi) =>
      ColumnIsUniform(col, Ge, lo);
      ColumnIsUniform(col, Le, hi);
      ChainIsUniform(And, [SubExpr(ColumnIs(col, Ge, lo)), SubExpr(ColumnIs(col, Le, hi))]);
    case Contains(col, value) =>
      CallIsUniform("SEARCH", ExprOf(Number(value)), ExprOf(ColTerm(col)));
      assert OneOperatorTerm(PredicateOf(f).left);
    case Compare(op, col, value) =>
      ColumnIsUniform(col, op, value);
  }

  lemma FilterCallIsUniform(table: Table, e: Expr)
    requires OneOperator(e)
    ensures OneOperator(ExprOf(Call("FILTER", [ExprOf(TableTerm(table)), e])))
  {
    CallIsUniform("FILTER", ExprOf(TableTerm(table)), e);
  }

  lemma CallIsUniform(name: string, a: Expr, b: Expr)
    requires OneOperator(a) && OneOperator(b)
    ensures OneOperator(ExprOf(Call(name, [a, b])))
  {
  }

  lemma AlternativesAreUniform(ors: seq<Expr>)
    requires ors != [] && forall i :: 0 <= i < |ors| ==> OneOperator(ors[i])
    ensures OneOperator(Alternatives(ors))
  {
  }

  // ---- membership: TREATAS and the predicate accept the same rows ----

  ghost function All(op: Operator, ts: seq<Truth>): Truth
    requires ts != []
  {
    if |ts| == 1 then ts[0] else Apply(op, All(op, ts[..|ts| - 1]), ts[|ts| - 1])
  }

  ghost function EqualTruths(row: Row, cols: seq<ColRef>, vals: seq<int>): (r: seq<Truth>)
    requires |vals| == |cols|
    ensures |r| == |cols|
  {
    seq(|cols|, j requires 0 <= j < |cols| => CompareTruth(Eq, row.col(cols[j]), Val(vals[j])))
  }

  ghost predicate Wide(tuples: seq<seq<int>>, n: nat) {
    n > 0 && tuples != [] && forall i :: 0 <= i < |tuples| ==> |tuples[i]| == n
  }

  ghost function ColumnTruths(row: Row, col: ColRef, values: seq<int>): (r: seq<Truth>)
    ensures |r| == |values|
  {
    seq(|values|, i requires 0 <= i < |values| => CompareTruth(Eq, row.col(col), Val(values[i])))
  }

  ghost function TupleTruths(row: Row, cols: seq<ColRef>, tuples: seq<seq<int>>): (r: seq<Truth>)
    requires Wide(tuples, |cols|)
    ensures |r| == |tuples|
  {
    seq(|tuples|, i requires 0 <= i < |tuples| => All(And, EqualTruths(row, cols, tuples[i])))
  }

  function Heads(tuples: seq<seq<int>>): (r: seq<int>)
    requires forall i :: 0 <= i < |tuples| ==> |tuples[i]| == 1
    ensures |r| == |tuples|
  {
    seq(|tuples|, i requires 0 <= i < |tuples| => tuples[i][0])
  }

  /** TREATAS as it is emitted: IN for one column, an OR of ANDs for several. */
  ghost function TreatasTruth(row: Row, tuples: seq<seq<int>>, cols: seq<ColRef>): Truth
    requires Wide(tuples, |cols|)
  {
    if |cols| == 1 then All(Or, ColumnTruths(row, cols[0], Heads(tuples))) else All(Or, TupleTruths(row, cols, tuples))
  }

  lemma {:induction false} ChainTruth(row: Row, op: Operator, terms: seq<Term>, ts: seq<Truth>)
    requires terms != [] && |ts| == |terms| && (op == And || op == Or)
    requires forall i :: 0 <= i < |terms| ==> TermTruth(row, terms[i]) == ts[i]
    ensures TruthOf(row, Chain(op, terms)) == All(op, ts)
  {
    if |terms| > 1 {
      var front := terms[..|terms| - 1];
      ChainTruth(row, op, front, ts[..|ts| - 1]);
      var e, f, n := Chain(op, terms), Chain(op, front), |terms| - 2;
      assert e.right[..n] == f.right[..n];
      PrefixTruth(row, e, f, n);
    }
  }

  lemma {:induction false} AlternativesTruth(row: Row, ors: seq<Expr>, ts: seq<Truth>)
    requires ors != [] && |ts| == |ors| && forall i :: 0 <= i < |ors| ==> TruthOf(row, ors[i]) == ts[i]
    ensures TruthOf(row, Alternatives(ors)) == All(Or, ts)
  {
    if |ors| > 1 {
      ChainTruth(row, Or, Wrapped(ors), ts);
    }
  }

  lemma ValidatedIsWide(cols: seq<ColRef>, tuples: seq<seq<int>>)
    requires Validated(InTuples(cols, tuples))
    ensures Wide(tuples, |cols|)
  {
  }

  lemma ValuesTruth(row: Row, col: ColRef, values: seq<int>)
    requires values != []
    ensures TruthOf(row, PredicateOf(In(col, values))) == All(Or, ColumnTruths(row, col, values))
  {
    forall i | 0 <= i < |values|
      ensures TruthOf(row, ValueAlternatives(col, values)[i]) == ColumnTruths(row, col, values)[i]
    {
      ColumnTruth(row, col, values[i]);
    }
    AlternativesTruth(row, ValueAlternatives(col, values), ColumnTruths(row, col, values));
  }

  lemma TuplesTruth(row: Row, cols: seq<ColRef>, tuples: seq<seq<int>>)
    requires Validated(InTuples(cols, tuples)) && Wide(tuples, |cols|)
    ensures TruthOf(row, PredicateOf(InTuples(cols, tuples))) == All(Or, TupleTruths(row, cols, tuples))
  {
    var ors := TupleAlternatives(cols, tuples);
    forall i | 0 <= i < |tuples|
      ensures TruthOf(row, ors[i]) == TupleTruths(row, cols, tuples)[i]
    {
      TupleTruth(row, cols, tuples[i]);
    }
    AlternativesTruth(row, ors, TupleTruths(row, cols, tuples));
  }

  /** A TREATAS the emitter accepts: a value set, then as many columns as its rows have values. */
  ghost predicate TreatasArgs(args: seq<Expr>) {
    && |args| >= 2 && args[0].right == [] && args[0].left.Tuples?
    && (forall i :: 1 <= i < |args| ==> args[i].right == [] && args[i].left.ColTerm?)
    && Wide(args[0].left.rows, |args| - 1)
  }

  ghost function ColsOf(args: seq<Expr>): (cols: seq<ColRef>)
    requires TreatasArgs(args)
    ensures |cols| == |args| - 1
  {
    seq(|args| - 1, i requires 0 <= i < |args| - 1 => args[i + 1].left.ref)
  }

  /** What a group-position argument asks of a row. */
  ghost function ArgTruth(row: Row, e: Expr): Truth {
    if e.right != [] || !e.left.Call? then Unknown
    else if e.left.name == "TREATAS" && TreatasArgs(e.left.args) then
      TreatasTruth(row, e.left.args[0].left.rows, ColsOf(e.left.args))
    else if e.left.name == "FILTER" && |e.left.args| == 2 then TruthOf(row, e.left.args[1])
    else Unknown
  }

  lemma TreatasIs(rows: seq<seq<int>>, cols: seq<ColRef>)
    requires Wide(rows, |cols|)
    ensures var args := [ExprOf(Tuples(rows))] + ColArgs(cols); TreatasArgs(args) && ColsOf(args) == cols
  {
  }

  /** The argument put into the group position - a TREATAS for membership - and the OR/AND expression
    * of the same filter are the same condition, in all three truth values. */
  lemma MembershipFormsAgree(row: Row, f: Filter, table: Table)
    requires Validated(f)
    ensures ArgTruth(row, FilterArgOf(f, table)) == TruthOf(row, PredicateOf(f))
  {
    hide TruthOf, All;
    match f
    case In(col, values) =>
      TreatasIs(Singles(values), [col]);
      assert [ExprOf(Tuples(Singles(values)))] + ColArgs([col]) == [ExprOf(Tuples(Singles(values))), ExprOf(ColTerm(col))];
      ValuesTruth(row, col, values);
      assert Heads(Singles(values)) == values;
    case InTuples(cols, tuples) =>
      ValidatedIsWide(cols, tuples);
      TreatasIs(tuples, cols);
      TuplesTruth(row, cols, tuples);
      if |cols| == 1 {
        OneColumn(row, cols, tuples);
      }
    case _ =>
  }

  /** What the other filters keep; a NULL column passes none of them. */
  lemma ComparisonKeeps(row: Row, f: Filter)
    requires Validated(f)
    ensures f.Between? ==> (TruthOf(row, PredicateOf(f)) == True <==> row.col(f.col).Val? && f.lo <= row.col(f.col).n <= f.hi)
    ensures f.Compare? ==> (TruthOf(row, PredicateOf(f)) == True <==> CompareTruth(f.op, row.col(f.col), Val(f.value)) == True)
    ensures f.Contains? ==> (TruthOf(row, PredicateOf(f)) == True <==>
      row.search(f.value, row.col(f.col)).Val? && row.search(f.value, row.col(f.col)).n > 0)
    ensures f.In? ==> (TruthOf(row, PredicateOf(f)) == True <==> row.col(f.col).Val? && row.col(f.col).n in f.values)
  {
    match f
    case Between(col, lo, hi) =>
      BetweenTruth(row, col, lo, hi);
    case In(col, values) =>
      ValuesTruth(row, col, values);
      AllIsTrue(Or, ColumnTruths(row, col, values));
      assert forall i :: 0 <= i < |values| ==> (ColumnTruths(row, col, values)[i] == True <==> row.col(col) == Val(values[i]));
    case _ =>
  }

  lemma BetweenTruth(row: Row, col: ColRef, lo: int, hi: int)
    ensures TruthOf(row, PredicateOf(Between(col, lo, hi)))
      == BothOf(CompareTruth(Ge, row.col(col), Val(lo)), CompareTruth(Le, row.col(col), Val(hi)))
  {
    var a, b := ColumnIs(col, Ge, lo), ColumnIs(col, Le, hi);
    assert TermTruth(row, SubExpr(a)) == CompareTruth(Ge, row.col(col), Val(lo));
    assert TermTruth(row, SubExpr(b)) == CompareTruth(Le, row.col(col), Val(hi));
    ChainTruth(row, And, [SubExpr(a), SubExpr(b)], [TermTruth(row, SubExpr(a)), TermTruth(row, SubExpr(b))]);
    assert [TermTruth(row, SubExpr(a)), TermTruth(row, SubExpr(b))][..1] == [TermTruth(row, SubExpr(a))];
  }

  lemma OneColumn(row: Row, cols: seq<ColRef>, tuples: seq<seq<int>>)
    requires |cols| == 1 && Wide(tuples, 1)
    ensures TupleTruths(row, cols, tuples) == ColumnTruths(row, cols[0], Heads(tuples))
  {
  }

  lemma ColumnTruth(row: Row, c: ColRef, v: int)
    ensures TruthOf(row, ColumnIs(c, Eq, v)) == CompareTruth(Eq, row.col(c), Val(v))
    ensures TermTruth(row, Sub(ColumnIs(c, Eq, v))) == CompareTruth(Eq, row.col(c), Val(v))
  {
  }

  lemma TupleTruth(row: Row, cols: seq<ColRef>, t: seq<int>)
    requires cols != [] && |t| == |cols|
    ensures TruthOf(row, Chain(And, Subs(TupleIs(cols, t)))) == All(And, EqualTruths(row, cols, t))
  {
    forall j | 0 <= j < |cols|
      ensures TermTruth(row, Subs(TupleIs(cols, t))[j]) == EqualTruths(row, cols, t)[j]
    {
      ColumnTruth(row, cols[j], t[j]);
    }
    ChainTruth(row, And, Subs(TupleIs(cols, t)), EqualTruths(row, cols, t));
  }

  lemma AllIsTrue(op: Operator, ts: seq<Truth>)
    requires ts != [] && (op == And || op == Or)
    ensures op == Or ==> (All(op, ts) == True <==> exists i :: 0 <= i < |ts| && ts[i] == True)
    ensures op == And ==> (All(op, ts) == True <==> forall i :: 0 <= i < |ts| ==> ts[i] == True)
  {
  }

  /** A tuple filter keeps a row exactly when one of its tuples is the row's: never through a NULL. */
  lemma TupleFilterKeeps(row: Row, cols: seq<ColRef>, tuples: seq<seq<int>>)
    requires Validated(InTuples(cols, tuples))
    ensures TruthOf(row, PredicateOf(InTuples(cols, tuples))) == True <==>
      exists i :: 0 <= i < |tuples| && IsTuple(row, cols, tuples[i])
  {
    hide TruthOf, All, PredicateOf;
    ValidatedIsWide(cols, tuples);
    TuplesTruth(row, cols, tuples);
    AllIsTrue(Or, TupleTruths(row, cols, tuples));
    forall i | 0 <= i < |tuples|
      ensures TupleTruths(row, cols, tuples)[i] == True <==> IsTuple(row, cols, tuples[i])
    {
      OneTuple(row, cols, tuples[i]);
    }
  }

  lemma OneTuple(row: Row, cols: seq<ColRef>, t: seq<int>)
    requires cols != [] && |t| == |cols|
    ensures All(And, EqualTruths(row, cols, t)) == True <==> IsTuple(row, cols, t)
  {
    AllIsTrue(And, EqualTruths(row, cols, t));
    assert forall j :: 0 <= j < |cols| ==> (EqualTruths(row, cols, t)[j] == True <==> row.col(cols[j]) == Val(t[j]));
  }

  ghost predicate IsTuple(row: Row, cols: seq<ColRef>, t: seq<int>) {
    |t| == |cols| && forall j :: 0 <= j < |cols| ==> row.col(cols[j]) == Val(t[j])
  }

  // ---- injection ----

  /** Where the injector takes the measure pairs to start: a string literal and nothing else. */
  predicate PlainText(e: Expr) {
    e.left.Text? && e.right == []
  }

  /** Where the emitter does: whatever starts with a string literal. */
  predicate StartsWithText(e: Expr) {
    e.left.Text?
  }

  ghost predicate IsFirst(args: seq<Expr>, p: Expr -> bool, k: nat) {
    k <= |args| && (k < |args| ==> p(args[k])) && forall i :: 0 <= i < k ==> !p(args[i])
  }

  ghost function First(args: seq<Expr>, p: Expr -> bool): (k: nat)
    ensures IsFirst(args, p, k)
  {
    if args == [] then 0 else if p(args[0]) then 0 else First(args[1..], p) + 1
  }

  lemma FirstIs(args: seq<Expr>, p: Expr -> bool, k: nat)
    requires IsFirst(args, p, k)
    ensures First(args, p) == k
  {
  }

  /** The group arguments and the name/expression pairs the emitter sees. */
  ghost function GroupArgs(args: seq<Expr>): seq<Expr> {
    args[..First(args, StartsWithText)]
  }

  ghost function PairArgs(args: seq<Expr>): seq<Expr> {
    args[First(args, StartsWithText)..]
  }

  function FilterArgs(filters: seq<(Filter, Table)>): (r: seq<Expr>)
    requires forall f :: f in filters ==> Validated(f.0)
    ensures |r| == |filters|
  {
    seq(|filters|, i requires 0 <= i < |filters| =>
      assert filters[i] in filters;
      FilterArgOf(filters[i].0, filters[i].1))
  }

  method FilterArgList(filters: seq<(Filter, Table)>) returns (added: seq<Expr>)
    requires forall f :: f in filters ==> Validated(f.0)
    ensures added == FilterArgs(filters)
  {
    hide FilterArgOf, Validated;
    added := [];
    for i := 0 to |filters|
      invariant added == FilterArgs(filters)[..i]
    {
      assert filters[i] in filters;
      var arg := FilterArg(filters[i].0, filters[i].1);
      added := added + [arg];
    }
  }

  method InjectSummarizeArgs(args: seq<Expr>, filters: seq<(Filter, Table)>) returns (more: seq<Expr>)
    requires forall f :: f in filters ==> Validated(f.0)
    ensures var k := First(args, PlainText); more == args[..k] + FilterArgs(filters) + args[k..]
  {
    var split := |args|;
    for i := 0 to |args|
      invariant split == |args|
      invariant forall j :: 0 <= j < i ==> !PlainText(args[j])
    {
      if PlainText(args[i]) {
        split := i;
        break;
      }
    }
    FirstIs(args, PlainText, split);
    var added := FilterArgList(filters);
    more := args[..split] + added + args[split..];
  }

  /** A filter as its author reads it: a NULL column passes none, but for what a search finds in it. */
  ghost predicate Passes(row: Row, f: Filter) {
    match f
    case In(col, values) => row.col(col).Val? && row.col(col).n in values
    case InTuples(cols, tuples) => exists i :: 0 <= i < |tuples| && IsTuple(row, cols, tuples[i])
    case Between(col, lo, hi) => row.col(col).Val? && lo <= row.col(col).n <= hi
    case Contains(col, value) => row.search(value, row.col(col)).Val? && row.search(value, row.col(col)).n > 0
    case Compare(op, col, value) => row.col(col).Val? && PassesCompare(op, row.col(col).n, value)
  }

  ghost predicate PassesCompare(op: Operator, n: int, value: int) {
    && (op == Eq ==> n == value) && (op == Ne ==> n != value)
    && (op == Lt ==> n < value) && (op == Le ==> n <= value)
    && (op == Gt ==> n > value) && (op == Ge ==> n >= value)
  }

  /** The k-th argument added is the k-th filter's, and lets exactly the rows through that pass it. */
  lemma AddedAreFilters(row: Row, filters: seq<(Filter, Table)>, k: nat)
    requires k < |filters| && forall f :: f in filters ==> Validated(f.0)
    ensures Validated(filters[k].0)
    ensures ArgTruth(row, FilterArgs(filters)[k]) == True <==> Passes(row, filters[k].0)
  {
    hide TruthOf, ArgTruth, PredicateOf, FilterArgOf;
    var (f, table) := filters[k];
    assert filters[k] in filters;
    assert FilterArgs(filters)[k] == FilterArgOf(f, table);
    MembershipFormsAgree(row, f, table);
    if f.InTuples? {
      TupleFilterKeeps(row, f.cols, f.tuples);
    } else {
      ComparisonKeeps(row, f);
    }
  }

  lemma AddedAreNoText(filters: seq<(Filter, Table)>)
    requires forall f :: f in filters ==> Validated(f.0)
    ensures forall i :: 0 <= i < |filters| ==> !StartsWithText(FilterArgs(filters)[i])
  {
  }

  lemma SameSplit(args: seq<Expr>, added: seq<Expr>, k: nat)
    requires k <= |args| && IsFirst(args, StartsWithText, k) && forall i :: 0 <= i < |added| ==> !StartsWithText(added[i])
    ensures var more := args[..k] + added + args[k..];
      First(more, StartsWithText) == k + |added| && GroupArgs(more) == args[..k] + added && PairArgs(more) == args[k..]
  {
    var more := args[..k] + added + args[k..];
    forall i | 0 <= i < k + |added|
      ensures !StartsWithText(more[i])
    {
      assert more[i] == if i < k then args[i] else added[i - k];
    }
    FirstIs(more, StartsWithText, k + |added|);
    hide First, IsFirst;
    assert more[..k + |added|] == args[..k] + added && more[k + |added|..] == args[k..];
  }

  lemma OtherSplit(args: seq<Expr>, added: seq<Expr>, n: nat, k: nat)
    requires n < k <= |args| && IsFirst(args, StartsWithText, n)
    ensures var more := args[..k] + added + args[k..]; First(more, StartsWithText) == n
  {
    var more := args[..k] + added + args[k..];
    assert forall i :: 0 <= i <= n ==> more[i] == args[i];
    FirstIs(more, StartsWithText, n);
  }

  /** The pairs stay and the group position gains exactly the filters, if and only if the first
    * argument that starts with a string literal is that literal alone. */
  lemma InjectionKeepsPairs(args: seq<Expr>, filters: seq<(Filter, Table)>, more: seq<Expr>)
    requires filters != [] && forall f :: f in filters ==> Validated(f.0)
    requires var k := First(args, PlainText); more == args[..k] + FilterArgs(filters) + args[k..]
    ensures (PairArgs(more) == PairArgs(args) && GroupArgs(more) == GroupArgs(args) + FilterArgs(filters)) <==>
      (PairArgs(args) == [] || PlainText(PairArgs(args)[0]))
  {
    var k, n, added := First(args, PlainText), First(args, StartsWithText), FilterArgs(filters);
    AddedAreNoText(filters);
    assert forall i :: 0 <= i < n ==> !PlainText(args[i]);
    hide First;
    if n == k {
      SameSplit(args, added, k);
    } else {
      OtherSplit(args, added, n, k);
      assert |PairArgs(more)| == |PairArgs(args)| + |added|;
    }
  }

  /** In SUMMARIZECOLUMNS("a" && x, 1) the emitter sees one pair; the filter lands behind it. */
  lemma InjectionBreaksPairs(f: Filter, table: Table)
    requires Validated(f)
    ensures var args := [Expr(Text("a"), [(And, ColTerm(ColRef(0, 0)))]), ExprOf(Number(1))];
      var k, added := First(args, PlainText), FilterArgs([(f, table)]);
      PairArgs(args) == args && PairArgs(args[..k] + added + args[k..]) == args + added
  {
    var args := [Expr(Text("a"), [(And, ColTerm(ColRef(0, 0)))]), ExprOf(Number(1))];
    var added := FilterArgs([(f, table)]);
    FirstIs(args, PlainText, 2);
    FirstIs(args, StartsWithText, 0);
    FirstIs(args + added, StartsWithText, 0);
    assert args[..2] + added + args[2..] == args + added && args[0..] == args;
  }
}
