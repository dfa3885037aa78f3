/** Time-intelligence ranges: comparisons of a date column with anchors, where the anchors are
  * columns of the anchor scans that a collector grows in place. */
module TimeIntel {
  import opened Relationships
  import opened Relational

  datatype Unit = Day | Month | Quarter | Year

  /** date_trunc and interval addition on day numbers. */
  datatype Calendar = Calendar(trunc: (Unit, int) -> int, plus: (int, int, Unit) -> int)

  datatype Agg = Min | Max | LastNonBlank(expr: nat)

  datatype AnchorAgg = AnchorAgg(agg: Agg, col: Column)

  /** An anchor scan and the aggregates asked of it, in first-use order. */
  datatype AnchorScan = AnchorScan(table: Table, aggs: seq<AnchorAgg>)

  datatype DateExpr =
    | Anchor(scan: nat, slot: nat)
    | Const(value: Value)
    | Trunc(unit: Unit, of: DateExpr)
    | Shift(of: DateExpr, n: int, unit: Unit)

  datatype Op = AtLeast | Above | AtMost | Below

  /** `target op bound`. */
  datatype Comparison = Comparison(op: Op, bound: DateExpr)

  /** A scalar date argument: MIN or MAX of a date column, LASTNONBLANK, or anything else. */
  datatype DateBound =
    | Extreme(agg: Agg, table: Table, col: Column)
    | Scalar(value: Value)

  datatype TimeFn =
    | PeriodToDate(unit: Unit)
    | SamePeriodLastYear
    | DateAdd(n: int, step: Unit)
    | Previous(unit: Unit)
    | Next(unit: Unit)
    | DatesBetween(start: Option<DateBound>, end: Option<DateBound>)
    | DatesInPeriod(from: DateBound, n: int, step: Unit)

  datatype TimeFilter = TimeFilter(fn: TimeFn, table: Table, col: Column)

  // ---- evaluation ----

  /** Anchor values by scan and slot. */
  type Anchors = seq<seq<Value>>

  function EvalDate(cal: Calendar, e: DateExpr, anchors: Anchors): Value {
    match e
    case Anchor(scan, slot) => if scan < |anchors| && slot < |anchors[scan]| then anchors[scan][slot] else Null
    case Const(v) => v
    case Trunc(unit, of) => var v := EvalDate(cal, of, anchors); if v.Null? then Null else Val(cal.trunc(unit, v.n))
    case Shift(of, n, unit) => var v := EvalDate(cal, of, anchors); if v.Null? then Null else Val(cal.plus(v.n, n, unit))
  }

  /** A comparison with NULL on either side is not true. */
  predicate Compare(op: Op, a: Value, b: Value) {
    && a.Val? && b.Val?
    && match op
       case AtLeast => a.n >= b.n
       case Above => a.n > b.n
       case AtMost => a.n <= b.n
       case Below => a.n < b.n
  }

  predicate Holds(cal: Calendar, cs: seq<Comparison>, target: Value, anchors: Anchors) {
    forall c :: c in cs ==> Compare(c.op, target, EvalDate(cal, c.bound, anchors))
  }

  predicate Mentions(e: DateExpr, scan: nat) {
    match e
    case Anchor(s, _) => s == scan
    case Const(_) => false
    case Trunc(_, of) => Mentions(of, scan)
    case Shift(of, _, _) => Mentions(of, scan)
  }

  // ---- what each function selects, given the extremes of the current context ----

  /** The value a bound stands for when `read` gives each aggregate's value in the context. */
  function BoundValue(b: DateBound, read: (Table, AnchorAgg) -> Value): Value {
    match b
    case Extreme(agg, table, col) => read(table, AnchorAgg(agg, col))
    case Scalar(v) => v
  }

  function Shifted(cal: Calendar, v: Value, n: int, unit: Unit): Value {
    if v.Null? then Null else Val(cal.plus(v.n, n, unit))
  }

  function Truncated(cal: Calendar, v: Value, unit: Unit): Value {
    if v.Null? then Null else Val(cal.trunc(unit, v.n))
  }

  predicate Selects(cal: Calendar, tf: TimeFilter, read: (Table, AnchorAgg) -> Value, target: Value) {
    var min, max := read(tf.table, AnchorAgg(Min, tf.col)), read(tf.table, AnchorAgg(Max, tf.col));
    match tf.fn
    case PeriodToDate(unit) => Compare(AtLeast, target, Truncated(cal, max, unit)) && Compare(AtMost, target, max)
    case SamePeriodLastYear =>
      Compare(AtLeast, target, Shifted(cal, min, -1, Year)) && Compare(AtMost, target, Shifted(cal, max, -1, Year))
    case DateAdd(n, step) =>
      Compare(AtLeast, target, Shifted(cal, min, n, step)) && Compare(AtMost, target, Shifted(cal, max, n, step))
    case Previous(unit) =>
      var base := Truncated(cal, min, unit);
      Compare(AtLeast, target, Shifted(cal, base, -1, unit)) && Compare(Below, target, base)
    case Next(unit) =>
      var base := Shifted(cal, Truncated(cal, max, unit), 1, unit);
      Compare(AtLeast, target, base) && Compare(Below, target, Shifted(cal, base, 1, unit))
    case DatesBetween(start, end) =>
      && (start.Some? ==> Compare(AtLeast, target, BoundValue(start.value, read)))
      && (end.Some? ==> Compare(AtMost, target, BoundValue(end.value, read)))
    case DatesInPeriod(from, n, step) =>
      var start := BoundValue(from, read);
      if n < 0 then Compare(Above, target, Shifted(cal, start, n, step)) && Compare(AtMost, target, start)
      else Compare(AtLeast, target, start) && Compare(Below, target, Shifted(cal, start, n, step))
  }

  // ---- the collector ----

  /** The scans' values agree with `read`: slot by slot, each aggregate has its own. */
  ghost predicate Reads(scans: seq<AnchorScan>, anchors: Anchors, read: (Table, AnchorAgg) -> Value) {
    && |anchors| == |scans|
    && forall s :: 0 <= s < |scans| ==>
         && |anchors[s]| == |scans[s].aggs|
         && forall i :: 0 <= i < |anchors[s]| ==> anchors[s][i] == read(scans[s].table, scans[s].aggs[i])
  }

  /** Later scans keep every earlier scan and slot in place. */
  ghost predicate Extends(a: seq<AnchorScan>, b: seq<AnchorScan>) {
    && |a| <= |b|
    && forall s :: 0 <= s < |a| ==> a[s].table == b[s].table && a[s].aggs <= b[s].aggs
  }

  ghost predicate NewScan(a: seq<AnchorScan>, b: seq<AnchorScan>, s: nat) {
    |a| <= s < |b|
  }

  ghost predicate MentionedIn(cs: seq<Comparison>, s: nat) {
    exists i :: 0 <= i < |cs| && Mentions(cs[i].bound, s)
  }

  ghost predicate OneScanPerTable(scans: seq<AnchorScan>) {
    forall i, j :: 0 <= i < j < |scans| ==> scans[i].table != scans[j].table
  }

  ghost predicate SlotOf(scans: seq<AnchorScan>, table: Table, agg: AnchorAgg, scan: nat, slot: nat) {
    && scan < |scans| && scans[scan].table == table
    && slot < |scans[scan].aggs| && scans[scan].aggs[slot] == agg
  }

  class AnchorCollector {
    var scans: seq<AnchorScan>

    constructor ()
      ensures scans == []
    {
      scans := [];
    }

    /** The anchor column for an aggregate of a table, made on first use and shared after. */
    method Ref(table: Table, agg: AnchorAgg) returns (ref: DateExpr)
      requires OneScanPerTable(scans)
      modifies this
      ensures OneScanPerTable(scans) && Extends(old(scans), scans)
      ensures forall e, b :: Reading(old(scans), e, b) ==> Reading(scans, e, b)
      ensures ref.Anchor? && SlotOf(scans, table, agg, ref.scan, ref.slot)
      ensures forall s :: NewScan(old(scans), scans, s) ==> s == ref.scan
    {
      var s := 0;
      while s < |scans| && scans[s].table != table
        invariant 0 <= s <= |scans|
        invariant forall t :: 0 <= t < s ==> scans[t].table != table
      {
        s := s + 1;
      }
      if s == |scans| {
        scans := scans + [AnchorScan(table, [])];
      }
      var i := 0;
      while i < |scans[s].aggs| && scans[s].aggs[i] != agg
        invariant 0 <= i <= |scans[s].aggs|
      {
        i := i + 1;
      }
      if i == |scans[s].aggs| {
        scans := scans[s := AnchorScan(table, scans[s].aggs + [agg])];
      }
      return Anchor(s, i);
    }

    method EmitDateBound(b: DateBound) returns (e: DateExpr)
      requires OneScanPerTable(scans)
      modifies this
      ensures OneScanPerTable(scans) && Extends(old(scans), scans)
      ensures forall e, b :: Reading(old(scans), e, b) ==> Reading(scans, e, b)
      ensures Reading(scans, e, b)
      ensures forall s :: NewScan(old(scans), scans, s) ==> Mentions(e, s)
    {
      match b
      case Extreme(agg, table, col) => e := Ref(table, AnchorAgg(agg, col));
      case Scalar(v) => e := Const(v);
    }

    method AMin(tf: TimeFilter) returns (e: DateExpr)
      requires OneScanPerTable(scans)
      modifies this
      ensures OneScanPerTable(scans) && Extends(old(scans), scans)
      ensures forall e, b :: Reading(old(scans), e, b) ==> Reading(scans, e, b)
      ensures Reading(scans, e, MinOf(tf))
      ensures forall s :: NewScan(old(scans), scans, s) ==> Mentions(e, s)
    {
      e := Ref(tf.table, AnchorAgg(Min, tf.col));
    }

    method AMax(tf: TimeFilter) returns (e: DateExpr)
      requires OneScanPerTable(scans)
      modifies this
      ensures OneScanPerTable(scans) && Extends(old(scans), scans)
      ensures forall e, b :: Reading(old(scans), e, b) ==> Reading(scans, e, b)
      ensures Reading(scans, e, MaxOf(tf))
      ensures forall s :: NewScan(old(scans), scans, s) ==> Mentions(e, s)
    {
      e := Ref(tf.table, AnchorAgg(Max, tf.col));
    }

    /** The range predicate of a time filter, or None when DATESBETWEEN has no bound at all. */
    method EmitTimeIntelPred(tf: TimeFilter) returns (r: Option<seq<Comparison>>)
      requires OneScanPerTable(scans)
      modifies this
      ensures OneScanPerTable(scans) && Extends(old(scans), scans)
      ensures forall e, b :: Reading(old(scans), e, b) ==> Reading(scans, e, b)
      ensures r.None? <==> tf.fn == DatesBetween(None, None)
      ensures r.Some? ==> forall cal, anchors, read, target :: Reads(scans, anchors, read) ==>
        (Holds(cal, r.value, target, anchors) <==> Selects(cal, tf, read, target))
      ensures r.Some? ==> forall s :: NewScan(old(scans), scans, s) ==> MentionedIn(r.value, s)
    {
      hide Reading, Holds, Selects, Reads;
      ghost var lo, hi;
      match tf.fn {
        case PeriodToDate(unit) =>
          var a := AMax(tf);
          lo, hi := a, a;
          r := Some([Comparison(AtLeast, Trunc(unit, a)), Comparison(AtMost, a)]);
        case SamePeriodLastYear =>
          var a := AMin(tf);
          var b := AMax(tf);
          lo, hi := a, b;
          r := Some([Comparison(AtLeast, Shift(a, -1, Year)), Comparison(AtMost, Shift(b, -1, Year))]);
        case DateAdd(n, step) =>
          var a := AMin(tf);
          var b := AMax(tf);
          lo, hi := a, b;
          r := Some([Comparison(AtLeast, Shift(a, n, step)), Comparison(AtMost, Shift(b, n, step))]);
        case Previous(unit) =>
          var a := AMin(tf);
          lo, hi := a, a;
          var base := Trunc(unit, a);
          r := Some([Comparison(AtLeast, Shift(base, -1, unit)), Comparison(Below, base)]);
        case Next(unit) =>
          var a := AMax(tf);
          lo, hi := a, a;
          var base := Shift(Trunc(unit, a), 1, unit);
          r := Some([Comparison(AtLeast, base), Comparison(Below, Shift(base, 1, unit))]);
        case DatesBetween(start, end) =>
          var bounds: seq<Comparison> := [];
          lo, hi := Const(Null), Const(Null);
          NullReading(scans);
          if start.Some? {
            var a := EmitDateBound(start.value);
            lo := a;
            bounds := bounds + [Comparison(AtLeast, a)];
          }
          if end.Some? {
            var b := EmitDateBound(end.value);
            hi := b;
            bounds := bounds + [Comparison(AtMost, b)];
          }
          if bounds == [] {
            return None;
          }
          r := Some(bounds);
        case DatesInPeriod(from, n, step) =>
          var start := EmitDateBound(from);
          lo, hi := start, start;
          if n < 0 {
            r := Some([Comparison(Above, Shift(start, n, step)), Comparison(AtMost, start)]);
          } else {
            r := Some([Comparison(AtLeast, start), Comparison(Below, Shift(start, n, step))]);
          }
      }
      assert r.value == Compose(tf.fn, lo, hi);
      assert Reading(scans, lo, LoBound(tf)) && Reading(scans, hi, HiBound(tf));
      ComposeMeans(scans, tf, lo, hi);
      forall s: nat | NewScan(old(scans), scans, s)
        ensures MentionedIn(r.value, s)
      {
        assert Mentions(lo, s) || Mentions(hi, s);
        ComposeMentions(tf.fn, lo, hi, s);
      }
    }
  }

  lemma NullReading(scans: seq<AnchorScan>)
    ensures Reading(scans, Const(Null), Scalar(Null))
  {
  }

  /** The bounds a function's two comparisons are built on. */
  function LoBound(tf: TimeFilter): DateBound {
    match tf.fn
    case PeriodToDate(_) => MaxOf(tf)
    case SamePeriodLastYear => MinOf(tf)
    case DateAdd(_, _) => MinOf(tf)
    case Previous(_) => MinOf(tf)
    case Next(_) => MaxOf(tf)
    case DatesBetween(start, _) => if start.Some? then start.value else Scalar(Null)
    case DatesInPeriod(from, _, _) => from
  }

  function HiBound(tf: TimeFilter): DateBound {
    match tf.fn
    case SamePeriodLastYear => MaxOf(tf)
    case DateAdd(_, _) => MaxOf(tf)
    case DatesBetween(_, end) => if end.Some? then end.value else Scalar(Null)
    case _ => LoBound(tf)
  }

  ghost function Compose(fn: TimeFn, lo: DateExpr, hi: DateExpr): seq<Comparison> {
    match fn
    case PeriodToDate(unit) => [Comparison(AtLeast, Trunc(unit, lo)), Comparison(AtMost, hi)]
    case SamePeriodLastYear => [Comparison(AtLeast, Shift(lo, -1, Year)), Comparison(AtMost, Shift(hi, -1, Year))]
    case DateAdd(n, step) => [Comparison(AtLeast, Shift(lo, n, step)), Comparison(AtMost, Shift(hi, n, step))]
    case Previous(unit) => [Comparison(AtLeast, Shift(Trunc(unit, lo), -1, unit)), Comparison(Below, Trunc(unit, hi))]
    case Next(unit) =>
      [Comparison(AtLeast, Shift(Trunc(unit, lo), 1, unit)), Comparison(Below, Shift(Shift(Trunc(unit, hi), 1, unit), 1, unit))]
    case DatesBetween(start, end) =>
      (if start.Some? then [Comparison(AtLeast, lo)] else []) + (if end.Some? then [Comparison(AtMost, hi)] else [])
    case DatesInPeriod(_, n, step) =>
      if n < 0 then [Comparison(Above, Shift(lo, n, step)), Comparison(AtMost, hi)]
      else [Comparison(AtLeast, lo), Comparison(Below, Shift(hi, n, step))]
  }

  lemma ReadingValue(scans: seq<AnchorScan>, e: DateExpr, b: DateBound, cal: Calendar, anchors: Anchors, read: (Table, AnchorAgg) -> Value)
    requires Reading(scans, e, b) && Reads(scans, anchors, read)
    ensures EvalDate(cal, e, anchors) == BoundValue(b, read)
  {
  }

  lemma ComposeMeans(scans: seq<AnchorScan>, tf: TimeFilter, lo: DateExpr, hi: DateExpr)
    requires Reading(scans, lo, LoBound(tf)) && Reading(scans, hi, HiBound(tf))
    requires tf.fn != DatesBetween(None, None)
    ensures forall cal, anchors, read, target :: Reads(scans, anchors, read) ==>
      (Holds(cal, Compose(tf.fn, lo, hi), target, anchors) <==> Selects(cal, tf, read, target))
  {
    hide Reading, Reads;
    forall cal, anchors, read, target | Reads(scans, anchors, read)
      ensures Holds(cal, Compose(tf.fn, lo, hi), target, anchors) <==> Selects(cal, tf, read, target)
    {
      ReadingValue(scans, lo, LoBound(tf), cal, anchors, read);
      ReadingValue(scans, hi, HiBound(tf), cal, anchors, read);
      var cs := Compose(tf.fn, lo, hi);
      if tf.fn.DatesBetween? {
        assert tf.fn.start.None? ==> cs == [Comparison(AtMost, hi)];
        assert tf.fn.end.None? ==> cs == [Comparison(AtLeast, lo)];
        assert tf.fn.start.Some? && tf.fn.end.Some? ==> cs == [Comparison(AtLeast, lo), Comparison(AtMost, hi)];
      }
      HoldsOneOrTwo(cal, cs, target, anchors);
      ExtremesAre(tf, read);
      if tf.fn.Next? {
        assert EvalDate(cal, Trunc(tf.fn.unit, hi), anchors) == Truncated(cal, BoundValue(HiBound(tf), read), tf.fn.unit);
      }
    }
  }

  lemma ExtremesAre(tf: TimeFilter, read: (Table, AnchorAgg) -> Value)
    ensures BoundValue(MinOf(tf), read) == read(tf.table, AnchorAgg(Min, tf.col))
    ensures BoundValue(MaxOf(tf), read) == read(tf.table, AnchorAgg(Max, tf.col))
  {
  }

  lemma ComposeMentions(fn: TimeFn, lo: DateExpr, hi: DateExpr, s: nat)
    requires Mentions(lo, s) ==> !fn.DatesBetween? || fn.start.Some?
    requires Mentions(hi, s) ==> !fn.DatesBetween? || fn.end.Some?
    requires Mentions(lo, s) || Mentions(hi, s)
    ensures MentionedIn(Compose(fn, lo, hi), s)
  {
    var cs := Compose(fn, lo, hi);
    assert (exists i :: 0 <= i < |cs| && Mentions(cs[i].bound, s)) by {
      if Mentions(lo, s) {
        assert Mentions(cs[0].bound, s);
      } else {
        assert Mentions(cs[|cs| - 1].bound, s);
      }
    }
  }

  function MinOf(tf: TimeFilter): DateBound {
    Extreme(Min, tf.table, tf.col)
  }

  function MaxOf(tf: TimeFilter): DateBound {
    Extreme(Max, tf.table, tf.col)
  }

  lemma HoldsOneOrTwo(cal: Calendar, cs: seq<Comparison>, target: Value, anchors: Anchors)
    requires 1 <= |cs| <= 2
    ensures Holds(cal, cs, target, anchors) <==>
      && Compare(cs[0].op, target, EvalDate(cal, cs[0].bound, anchors))
      && (|cs| == 2 ==> Compare(cs[1].op, target, EvalDate(cal, cs[1].bound, anchors)))
  {
  }

  /** The expression stands for the bound in these scans. */
  ghost predicate Reading(scans: seq<AnchorScan>, e: DateExpr, b: DateBound) {
    match b
    case Extreme(agg, table, col) => e.Anchor? && SlotOf(scans, table, AnchorAgg(agg, col), e.scan, e.slot)
    case Scalar(v) => e == Const(v)
  }

  /** An anchor over no date row is NULL, and then no date is selected: whatever mentions the scan
    * rejects every row. */
  lemma NullAnchorRejects(cal: Calendar, cs: seq<Comparison>, scan: nat, target: Value, anchors: Anchors)
    requires MentionedIn(cs, scan)
    requires scan < |anchors| && forall i :: 0 <= i < |anchors[scan]| ==> anchors[scan][i] == Null
    ensures !Holds(cal, cs, target, anchors)
  {
    var i :| 0 <= i < |cs| && Mentions(cs[i].bound, scan);
    NullPropagates(cal, cs[i].bound, scan, anchors);
    assert cs[i] in cs;
  }

  lemma NullPropagates(cal: Calendar, e: DateExpr, scan: nat, anchors: Anchors)
    requires Mentions(e, scan)
    requires scan < |anchors| && forall i :: 0 <= i < |anchors[scan]| ==> anchors[scan][i] == Null
    ensures EvalDate(cal, e, anchors) == Null
  {
  }

  // ---- calendar facts ----

  /** Truncation finds the period a date lies in; periods follow each other. */
  ghost predicate Lawful(cal: Calendar) {
    && (forall u, d, e :: SamePeriod(cal, u, d, e))
    && (forall u, d, n :: PeriodShifts(cal, u, d, n))
  }

  ghost predicate SamePeriod(cal: Calendar, u: Unit, d: int, e: int) {
    cal.trunc(u, d) == cal.trunc(u, e) <==> cal.trunc(u, e) <= d < cal.plus(cal.trunc(u, e), 1, u)
  }

  /** Whole periods shift to whole periods, and back. */
  ghost predicate PeriodShifts(cal: Calendar, u: Unit, d: int, n: int) {
    var moved := cal.plus(cal.trunc(u, d), n, u);
    cal.trunc(u, moved) == moved && cal.plus(moved, -n, u) == cal.trunc(u, d)
  }

  /** PREVIOUS selects exactly the whole period before the one the context starts in. */
  lemma PreviousIsThePeriodBefore(cal: Calendar, tf: TimeFilter, read: (Table, AnchorAgg) -> Value, d: int, min: int)
    requires Lawful(cal) && tf.fn.Previous? && read(tf.table, AnchorAgg(Min, tf.col)) == Val(min)
    ensures Selects(cal, tf, read, Val(d)) <==>
      cal.trunc(tf.fn.unit, d) == cal.plus(cal.trunc(tf.fn.unit, min), -1, tf.fn.unit)
  {
    var u := tf.fn.unit;
    var before := cal.plus(cal.trunc(u, min), -1, u);
    assert PeriodShifts(cal, u, min, -1);
    assert SamePeriod(cal, u, d, before);
  }

  /** NEXT selects exactly the whole period after the one the context ends in. */
  lemma NextIsThePeriodAfter(cal: Calendar, tf: TimeFilter, read: (Table, AnchorAgg) -> Value, d: int, max: int)
    requires Lawful(cal) && tf.fn.Next? && read(tf.table, AnchorAgg(Max, tf.col)) == Val(max)
    ensures Selects(cal, tf, read, Val(d)) <==>
      cal.trunc(tf.fn.unit, d) == cal.plus(cal.trunc(tf.fn.unit, max), 1, tf.fn.unit)
  {
    var u := tf.fn.unit;
    var after := cal.plus(cal.trunc(u, max), 1, u);
    assert PeriodShifts(cal, u, max, 1);
    assert SamePeriod(cal, u, d, after);
  }

  /** A period to date is the part of the context's last period up to the context's end. */
  lemma PeriodToDateIsPrefix(cal: Calendar, tf: TimeFilter, read: (Table, AnchorAgg) -> Value, d: int, max: int)
    requires Lawful(cal) && tf.fn.PeriodToDate? && read(tf.table, AnchorAgg(Max, tf.col)) == Val(max)
    ensures Selects(cal, tf, read, Val(d)) <==> d <= max && cal.trunc(tf.fn.unit, d) == cal.trunc(tf.fn.unit, max)
  {
    var u := tf.fn.unit;
    assert SamePeriod(cal, u, max, max);
    assert SamePeriod(cal, u, d, max);
  }

  /** Whole periods shift to period starts by any whole number of steps at least as long. */
  ghost predicate StartsShift(cal: Calendar, u: Unit, a: int, n: int, step: Unit) {
    cal.trunc(u, cal.plus(a, n, step)) == cal.plus(a, n, step)
  }

  /** DATEADD and SAMEPERIODLASTYEAR shift the two ends of the context. */
  function ShiftOf(fn: TimeFn): (int, Unit)
    requires fn.DateAdd? || fn.SamePeriodLastYear?
  {
    if fn.DateAdd? then (fn.n, fn.step) else (-1, Year)
  }

  /** Over a context that is one whole period, the shifted range is exactly the shifted period if and
    * only if shifting the last day gives that period's last day. */
  lemma ShiftedPeriodIsWholeWhen(cal: Calendar, tf: TimeFilter, read: (Table, AnchorAgg) -> Value, u: Unit, first: int, last: int)
    requires Lawful(cal) && (tf.fn.DateAdd? || tf.fn.SamePeriodLastYear?)
    requires cal.trunc(u, first) == first && last == cal.plus(first, 1, u) - 1
    requires StartsShift(cal, u, first, ShiftOf(tf.fn).0, ShiftOf(tf.fn).1)
    requires read(tf.table, AnchorAgg(Min, tf.col)) == Val(first) && read(tf.table, AnchorAgg(Max, tf.col)) == Val(last)
    ensures var (n, step) := ShiftOf(tf.fn);
      var start := cal.plus(first, n, step);
      (forall d :: Selects(cal, tf, read, Val(d)) <==> cal.trunc(u, d) == start) <==>
        cal.plus(last, n, step) == cal.plus(start, 1, u) - 1
  {
    var (n, step) := ShiftOf(tf.fn);
    var start, end := cal.plus(first, n, step), cal.plus(last, n, step);
    var next := cal.plus(start, 1, u);
    forall d
      ensures Selects(cal, tf, read, Val(d)) <==> start <= d <= end
      ensures cal.trunc(u, d) == start <==> start <= d < next
    {
      assert SamePeriod(cal, u, d, start);
    }
    assert SamePeriod(cal, u, start, start);
    if forall d :: Selects(cal, tf, read, Val(d)) <==> cal.trunc(u, d) == start {
      assert cal.trunc(u, next - 1) == start && Selects(cal, tf, read, Val(next - 1));
      assert cal.trunc(u, next) != start && !Selects(cal, tf, read, Val(next));
    }
  }

  /** A month that is shorter this year: the last day of last year's is left out, as 29 February 2020 is
    * from the year before February 2021. */
  lemma ShorterMonthLosesDays(cal: Calendar, tf: TimeFilter, read: (Table, AnchorAgg) -> Value, first: int, last: int)
    requires Lawful(cal) && tf.fn.SamePeriodLastYear?
    requires cal.trunc(Month, first) == first && last == cal.plus(first, 1, Month) - 1
    requires StartsShift(cal, Month, first, -1, Year)
    requires cal.plus(last, -1, Year) == cal.plus(first, -1, Year) + (last - first)
    requires cal.plus(cal.plus(first, -1, Year), 1, Month) - cal.plus(first, -1, Year) == last - first + 2
    requires read(tf.table, AnchorAgg(Min, tf.col)) == Val(first) && read(tf.table, AnchorAgg(Max, tf.col)) == Val(last)
    ensures var lost := cal.plus(last, -1, Year) + 1;
      cal.trunc(Month, lost) == cal.plus(first, -1, Year) && !Selects(cal, tf, read, Val(lost))
  {
    var start, lost := cal.plus(first, -1, Year), cal.plus(last, -1, Year) + 1;
    assert SamePeriod(cal, Month, lost, start);
    assert SamePeriod(cal, Month, first, first);
  }

  /** DATESINPERIOD over one period back from a period's last day is that period if and only if shifting
    * the last day back gives the day before the period. */
  lemma PeriodWindowIsWholeWhen(cal: Calendar, tf: TimeFilter, read: (Table, AnchorAgg) -> Value, u: Unit, first: int, last: int)
    requires Lawful(cal) && tf.fn.DatesInPeriod? && tf.fn.n == -1 && tf.fn.step == u
    requires cal.trunc(u, first) == first && last == cal.plus(first, 1, u) - 1 && BoundValue(tf.fn.from, read) == Val(last)
    ensures (forall d :: Selects(cal, tf, read, Val(d)) <==> cal.trunc(u, d) == first) <==> cal.plus(last, -1, u) == first - 1
  {
    var before := cal.plus(last, -1, u);
    forall d
      ensures Selects(cal, tf, read, Val(d)) <==> before < d <= last
      ensures cal.trunc(u, d) == first <==> first <= d <= last
    {
      assert SamePeriod(cal, u, d, first);
    }
    assert SamePeriod(cal, u, first, first);
    if forall d :: Selects(cal, tf, read, Val(d)) <==> cal.trunc(u, d) == first {
      assert cal.trunc(u, first) == first && Selects(cal, tf, read, Val(first));
      assert cal.trunc(u, first - 1) != first && !Selects(cal, tf, read, Val(first - 1));
    }
  }

  /** DATESBETWEEN a period's first and last day is exactly that period. */
  lemma DatesBetweenIsPeriod(cal: Calendar, tf: TimeFilter, read: (Table, AnchorAgg) -> Value, u: Unit, first: int, d: int)
    requires Lawful(cal) && tf.fn.DatesBetween? && tf.fn.start.Some? && tf.fn.end.Some? && cal.trunc(u, first) == first
    requires BoundValue(tf.fn.start.value, read) == Val(first) && BoundValue(tf.fn.end.value, read) == Val(cal.plus(first, 1, u) - 1)
    ensures Selects(cal, tf, read, Val(d)) <==> cal.trunc(u, d) == first
  {
    assert SamePeriod(cal, u, d, first);
  }

  /** Shifting a period by m and then by n periods is shifting it by m + n. */
  ghost predicate ShiftsAdd(cal: Calendar, u: Unit, d: int, m: int, n: int) {
    cal.plus(cal.plus(cal.trunc(u, d), m, u), n, u) == cal.plus(cal.trunc(u, d), m + n, u)
  }

  ghost predicate Additive(cal: Calendar) {
    forall u, d, m, n :: ShiftsAdd(cal, u, d, m, n)
  }

  /** The date lies in one of the n periods that start with the one of `first`. */
  ghost predicate InPeriods(cal: Calendar, u: Unit, first: int, n: nat, d: int) {
    exists i :: 0 <= i < n && cal.trunc(u, d) == cal.plus(first, i, u)
  }

  lemma {:induction false} PeriodsAreRange(cal: Calendar, u: Unit, first: int, n: nat, d: int)
    requires Lawful(cal) && Additive(cal) && cal.trunc(u, first) == first
    ensures InPeriods(cal, u, first, n, d) <==> first <= d < cal.plus(first, n, u)
    ensures first <= cal.plus(first, n, u)
  {
    if n == 0 {
      assert PeriodShifts(cal, u, first, 0) && ShiftsAdd(cal, u, first, 0, 0);
    } else {
      var start := cal.plus(first, n - 1, u);
      PeriodsAreRange(cal, u, first, n - 1, d);
      assert PeriodShifts(cal, u, first, n - 1) && ShiftsAdd(cal, u, first, n - 1, 1);
      assert SamePeriod(cal, u, d, start) && SamePeriod(cal, u, start, start);
      assert InPeriods(cal, u, first, n, d) <==> InPeriods(cal, u, first, n - 1, d) || cal.trunc(u, d) == start;
    }
  }

  /** DATESINPERIOD forward from a period's first day is exactly that many whole periods. */
  lemma ForwardWindowIsWhole(cal: Calendar, tf: TimeFilter, read: (Table, AnchorAgg) -> Value, first: int, d: int)
    requires Lawful(cal) && Additive(cal) && tf.fn.DatesInPeriod? && tf.fn.n >= 0
    requires cal.trunc(tf.fn.step, first) == first && BoundValue(tf.fn.from, read) == Val(first)
    ensures Selects(cal, tf, read, Val(d)) <==> InPeriods(cal, tf.fn.step, first, tf.fn.n, d)
  {
    PeriodsAreRange(cal, tf.fn.step, first, tf.fn.n, d);
  }

  /** Back from a period's last day it is the periods up to that one if and only if shifting the last day
    * gives the day before the first of them. */
  lemma BackwardWindowIsWholeWhen(cal: Calendar, tf: TimeFilter, read: (Table, AnchorAgg) -> Value, first: int, n: nat, last: int)
    requires Lawful(cal) && Additive(cal) && tf.fn.DatesInPeriod? && n > 0 && tf.fn.n + n == 0 && cal.trunc(tf.fn.step, first) == first
    requires last == cal.plus(first, n, tf.fn.step) - 1 && BoundValue(tf.fn.from, read) == Val(last)
    ensures (forall d :: Selects(cal, tf, read, Val(d)) <==> InPeriods(cal, tf.fn.step, first, n, d)) <==>
      cal.plus(last, tf.fn.n, tf.fn.step) == first - 1
  {
    var u, before := tf.fn.step, cal.plus(last, tf.fn.n, tf.fn.step);
    forall d
      ensures Selects(cal, tf, read, Val(d)) <==> before < d <= last
      ensures InPeriods(cal, u, first, n, d) <==> first <= d <= last
    {
      PeriodsAreRange(cal, u, first, n, d);
    }
    assert first <= last by {
      InFirstPeriod(cal, u, first, n);
    }
    hide InPeriods;
    if forall d :: Selects(cal, tf, read, Val(d)) <==> InPeriods(cal, u, first, n, d) {
      assert InPeriods(cal, u, first, n, first) && Selects(cal, tf, read, Val(first));
      assert !InPeriods(cal, u, first, n, first - 1) && !Selects(cal, tf, read, Val(first - 1));
    }
  }

  lemma InFirstPeriod(cal: Calendar, u: Unit, first: int, n: nat)
    requires Lawful(cal) && Additive(cal) && cal.trunc(u, first) == first && n > 0
    ensures first < cal.plus(first, n, u)
  {
    PeriodsAreRange(cal, u, first, n, first);
    PeriodsAreRange(cal, u, first, 0, first);
    assert PeriodShifts(cal, u, first, 0) && ShiftsAdd(cal, u, first, 0, 0);
    assert cal.trunc(u, first) == cal.plus(first, 0, u);
  }

  /** With one bound DATESBETWEEN is a half line: what starts on a day and what ends the day before split
    * all dates between them. */
  lemma OpenDatesSplit(cal: Calendar, from: TimeFilter, upTo: TimeFilter, read: (Table, AnchorAgg) -> Value, day: int, d: int)
    requires from.fn.DatesBetween? && from.fn.end.None? && from.fn.start.Some? && BoundValue(from.fn.start.value, read) == Val(day)
    requires upTo.fn.DatesBetween? && upTo.fn.start.None? && upTo.fn.end.Some? && BoundValue(upTo.fn.end.value, read) == Val(day - 1)
    ensures Selects(cal, from, read, Val(d)) <==> !Selects(cal, upTo, read, Val(d))
    ensures Selects(cal, from, read, Val(d)) <==> d >= day
  {
  }

  // ---- a calendar with leap years ----

  /** Months of 28 days, but for the second of every fourth year, which has 29. */
  function MonthStart(m: int): int {
    (m / 48) * 1345 + (m % 48) * 28 + if m % 48 > 1 then 1 else 0
  }

  function MonthOf(d: int): int {
    var e := d % 1345;
    (d / 1345) * 48 + if e < 28 then 0 else if e < 57 then 1 else (e - 1) / 28
  }

  function MonthsIn(u: Unit): int {
    match u
    case Quarter => 3
    case Year => 12
    case _ => 1
  }

  /** The month a period of `u` around month `m` starts with. */
  function PeriodMonth(u: Unit, m: int): int {
    m - m % MonthsIn(u)
  }

  /** Interval addition keeps the day of the month, or takes the month's last. */
  function DayIn(m: int, day: int): int {
    var length := MonthStart(m + 1) - MonthStart(m);
    MonthStart(m) + if day < length then day else length - 1
  }

  function LeapTrunc(u: Unit, d: int): int {
    if u == Day then d else MonthStart(PeriodMonth(u, MonthOf(d)))
  }

  function LeapPlus(d: int, n: int, u: Unit): int {
    if u == Day then d + n else DayIn(MonthOf(d) + n * MonthsIn(u), d - MonthStart(MonthOf(d)))
  }

  function LeapCalendar(): Calendar {
    Calendar((u: Unit, d: int) => LeapTrunc(u, d), (d: int, n: int, u: Unit) => LeapPlus(d, n, u))
  }

  lemma MonthHolds(m: int, d: int)
    ensures MonthOf(d) == m <==> MonthStart(m) <= d < MonthStart(m + 1)
  {
  }

  lemma {:induction false} MonthsAscend(a: int, b: int)
    requires a <= b
    ensures MonthStart(a) + 28 * (b - a) <= MonthStart(b)
    decreases b - a
  {
    if a < b {
      MonthsAscend(a, b - 1);
    }
  }

  lemma StartIsFirst(m: int)
    ensures MonthOf(MonthStart(m)) == m
  {
    MonthsAscend(m, m + 1);
    MonthHolds(m, MonthStart(m));
  }

  lemma StartMoves(m: int, n: int, u: Unit, to: int)
    requires u != Day && to == m + n * MonthsIn(u)
    ensures LeapPlus(MonthStart(m), n, u) == MonthStart(to)
  {
    StartIsFirst(m);
    MonthsAscend(to, to + 1);
    hide MonthStart, MonthOf, MonthsIn;
  }

  lemma LeapIsLawful()
    ensures Lawful(LeapCalendar()) && Additive(LeapCalendar())
  {
    hide LeapTrunc, LeapPlus;
    forall u, d, e
      ensures SamePeriod(LeapCalendar(), u, d, e)
    {
      LeapSamePeriod(u, d, e);
    }
    forall u, d, n
      ensures PeriodShifts(LeapCalendar(), u, d, n)
    {
      LeapPeriodShifts(u, d, n);
    }
    forall u, d, m, n
      ensures ShiftsAdd(LeapCalendar(), u, d, m, n)
    {
      LeapShiftsAdd(u, d, m, n);
    }
  }

  lemma Distribute(a: int, m: int, n: int, k: int, to: int, end: int)
    requires to == a + m * k && end == to + n * k
    ensures end == a + (m + n) * k
  {
  }

  lemma StartMovesTwice(b: int, m: int, n: int, u: Unit, to: int, end: int)
    requires u != Day && to == b + m * MonthsIn(u) && end == to + n * MonthsIn(u)
    ensures LeapPlus(LeapPlus(MonthStart(b), m, u), n, u) == LeapPlus(MonthStart(b), m + n, u)
  {
    hide *;
    Distribute(b, m, n, MonthsIn(u), to, end);
    StartMoves(b, m, u, to);
    StartMoves(to, n, u, end);
    StartMoves(b, m + n, u, end);
  }

  lemma LeapShiftsAdd(u: Unit, d: int, m: int, n: int)
    ensures LeapPlus(LeapPlus(LeapTrunc(u, d), m, u), n, u) == LeapPlus(LeapTrunc(u, d), m + n, u)
  {
    if u != Day {
      var b := PeriodMonth(u, MonthOf(d));
      var to := b + m * MonthsIn(u);
      StartMovesTwice(b, m, n, u, to, to + n * MonthsIn(u));
      hide MonthStart, MonthOf, PeriodMonth, MonthsIn, LeapPlus;
    }
  }

  lemma PeriodMonthsAre(u: Unit, m: int, n: int)
    ensures var k, b := MonthsIn(u), PeriodMonth(u, m); b <= m < b + k && PeriodMonth(u, b + n * k) == b + n * k
  {
    match u
    case Quarter =>
    case Year =>
    case _ =>
  }

  lemma PeriodsApart(u: Unit, m: int, n: int)
    ensures PeriodMonth(u, m) < PeriodMonth(u, n) ==> PeriodMonth(u, m) + MonthsIn(u) <= PeriodMonth(u, n)
  {
    match u
    case Quarter =>
    case Year =>
    case _ =>
  }

  lemma LeapSamePeriod(u: Unit, d: int, e: int)
    ensures LeapTrunc(u, d) == LeapTrunc(u, e) <==> LeapTrunc(u, e) <= d < LeapPlus(LeapTrunc(u, e), 1, u)
  {
    if u != Day {
      var m, k, a, b := MonthOf(d), MonthsIn(u), PeriodMonth(u, MonthOf(d)), PeriodMonth(u, MonthOf(e));
      StartIsFirst(b);
      StartMoves(b, 1, u, b + k);
      MonthHolds(m, d);
      PeriodMonthsAre(u, m, 0);
      PeriodMonthsAre(u, MonthOf(e), 0);
      PeriodsApart(u, m, MonthOf(e));
      PeriodsApart(u, MonthOf(e), m);
      hide MonthStart, MonthOf, PeriodMonth, MonthsIn, LeapPlus;
      if a < b {
        MonthsAscend(m + 1, b);
        MonthsAscend(a, b);
      } else if a > b {
        MonthsAscend(b + k, m);
        MonthsAscend(b, a);
      } else {
        MonthsAscend(a, m);
        MonthsAscend(m + 1, a + k);
      }
    }
  }

  lemma Undone(m: int, n: int, k: int, to: int)
    requires to == m + n * k
    ensures m == to + -n * k
  {
  }

  lemma StartMovesBack(m: int, n: int, u: Unit, to: int)
    requires u != Day && to == m + n * MonthsIn(u)
    ensures LeapPlus(MonthStart(to), -n, u) == MonthStart(m)
  {
    hide *;
    Undone(m, n, MonthsIn(u), to);
    StartMoves(to, -n, u, m);
  }

  lemma LeapPeriodShifts(u: Unit, d: int, n: int)
    ensures var moved := LeapPlus(LeapTrunc(u, d), n, u); LeapTrunc(u, moved) == moved && LeapPlus(moved, -n, u) == LeapTrunc(u, d)
  {
    if u != Day {
      var b := PeriodMonth(u, MonthOf(d));
      var to := b + n * MonthsIn(u);
      PeriodMonthsAre(u, MonthOf(d), n);
      hide MonthStart, MonthOf, PeriodMonth, MonthsIn, LeapPlus;
      StartMoves(b, n, u, to);
      StartMovesBack(b, n, u, to);
      StartIsFirst(to);
    }
  }

  /** The second month of the year after a leap year: SAMEPERIODLASTYEAR leaves the leap day out, and
    * DATESINPERIOD over one month back from the end of the month after it takes it in. */
  lemma LeapDayIsMissed(table: Table, col: Column, read: (Table, AnchorAgg) -> Value)
    requires read(table, AnchorAgg(Min, col)) == Val(MonthStart(13)) && read(table, AnchorAgg(Max, col)) == Val(MonthStart(14) - 1)
    ensures var cal, tf, leapDay := LeapCalendar(), TimeFilter(SamePeriodLastYear, table, col), MonthStart(1) + 28;
      Lawful(cal) && cal.trunc(Month, leapDay) == cal.plus(MonthStart(13), -1, Year) && !Selects(cal, tf, read, Val(leapDay))
    ensures var cal, window := LeapCalendar(), TimeFilter(DatesInPeriod(Scalar(Val(MonthStart(3) - 1)), -1, Month), table, col);
      Selects(cal, window, read, Val(MonthStart(1) + 28)) && cal.trunc(Month, MonthStart(1) + 28) != cal.trunc(Month, MonthStart(3) - 1)
  {
    LeapIsLawful();
    hide Lawful, LeapCalendar;
    LeapDays();
    LeapIs();
  }

  lemma LeapIs()
    ensures forall u, d :: LeapCalendar().trunc(u, d) == LeapTrunc(u, d)
    ensures forall d, n, u :: LeapCalendar().plus(d, n, u) == LeapPlus(d, n, u)
  {
  }

  lemma LeapDays()
    ensures MonthStart(1) == 28 && MonthStart(3) == 85 && MonthStart(13) == 365 && MonthStart(14) == 393
    ensures LeapTrunc(Month, 56) == 28 && LeapTrunc(Month, 84) == 57
    ensures LeapPlus(365, -1, Year) == 28 && LeapPlus(392, -1, Year) == 55 && LeapPlus(84, -1, Month) == 55
  {
    assert MonthStart(1) == 28 && MonthStart(3) == 85 && MonthStart(13) == 365 && MonthStart(14) == 393;
    assert MonthOf(56) == 1 && MonthOf(84) == 2 && MonthOf(365) == 13 && MonthOf(392) == 13;
    assert LeapPlus(365, -1, Year) == 28 && LeapPlus(392, -1, Year) == 55 && LeapPlus(84, -1, Month) == 55;
  }
}
