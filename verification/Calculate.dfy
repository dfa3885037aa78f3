/** CALCULATE inside a grouped query: which filters its arguments remove or override, and when the
  * aggregate FILTER form may stand in for the subquery over the kept filters. */
module Calculate {
  import opened Relationships
  import opened Relational

  datatype ColKey = ColKey(table: Table, col: Column)

  /** A predicate argument, with the table-qualified columns it mentions. */
  datatype Pred = Pred(id: nat, refs: seq<ColKey>)

  datatype AllArg = AllColumn(key: ColKey) | AllTable(table: Table) | NotAReference

  datatype FilterArg =
    | All(args: seq<AllArg>)
    | AllExcept(table: Option<Table>, kept: seq<Option<ColKey>>)
    | KeepFilters(preds: seq<Pred>)
    | FilterOver(over: FilterArg, pred: Pred)
    | FilterArity
    | TimeRange(date: ColKey, designated: bool)
    | Plain(pred: Pred)

  /** What the arguments ask for. */
  datatype Mods = Mods(
    removeAll: bool, removeTables: set<Table>, removeCols: set<ColKey>, exceptCols: set<ColKey>,
    preds: seq<Pred>, keepPreds: seq<Pred>, timeFilters: seq<ColKey>)

  const NO_MODS := Mods(false, {}, {}, {}, [], [], [])

  predicate IsAllFamily(arg: FilterArg) {
    arg.All? || arg.AllExcept?
  }

  // ---- classification ----

  ghost function Plus(a: Mods, b: Mods): Mods {
    Mods(a.removeAll || b.removeAll, a.removeTables + b.removeTables, a.removeCols + b.removeCols, a.exceptCols + b.exceptCols,
         a.preds + b.preds, a.keepPreds + b.keepPreds, a.timeFilters + b.timeFilters)
  }

  /** Is it an argument the code rejects? */
  predicate Malformed(arg: FilterArg) {
    match arg
    case All(args) => NotAReference in args
    case AllExcept(table, kept) => table.None? || kept == [] || None in kept
    case KeepFilters(preds) => |preds| != 1
    case FilterOver(table, _) => IsAllFamily(table) && Malformed(table)
    case FilterArity => true
    case TimeRange(_, _) => false
    case Plain(_) => false
  }

  /** One argument's own contribution. */
  ghost function Effect(arg: FilterArg): Mods
    requires !Malformed(arg)
  {
    match arg
    case All(args) =>
      NO_MODS.(removeAll := args == [],
               removeTables := set a | a in args && a.AllTable? :: a.table,
               removeCols := set a | a in args && a.AllColumn? :: a.key)
    case AllExcept(table, kept) =>
      NO_MODS.(removeTables := {table.value}, exceptCols := set k | k in kept && k.Some? :: k.value)
    case KeepFilters(preds) => NO_MODS.(keepPreds := preds)
    case FilterOver(table, pred) =>
      if IsAllFamily(table) then Plus(Effect(table), NO_MODS.(preds := [pred])) else NO_MODS.(keepPreds := [pred])
    case TimeRange(date, designated) =>
      if designated then NO_MODS.(removeTables := {date.table}, timeFilters := [date])
      else NO_MODS.(removeCols := {date}, timeFilters := [date])
    case Plain(pred) => NO_MODS.(preds := [pred])
  }

  ghost function Effects(args: seq<FilterArg>): Mods
    requires forall a :: a in args ==> !Malformed(a)
  {
    if args == [] then NO_MODS else Plus(Effects(args[..|args| - 1]), Effect(args[|args| - 1]))
  }

  class CalcModifiers {
    var removeAll: bool
    var removeTables: set<Table>
    var removeCols: set<ColKey>
    var exceptCols: set<ColKey>
    var preds: seq<Pred>
    var keepPreds: seq<Pred>
    var timeFilters: seq<ColKey>

    ghost function Value(): Mods
      reads this
    {
      Mods(removeAll, removeTables, removeCols, exceptCols, preds, keepPreds, timeFilters)
    }

    constructor ()
      ensures Value() == NO_MODS
    {
      removeAll, removeTables, removeCols, exceptCols := false, {}, {}, {};
      preds, keepPreds, timeFilters := [], [], [];
    }

    method ClassifyCalcArg(arg: FilterArg) returns (ok: bool)
      modifies this
      ensures ok <==> !Malformed(arg)
      ensures ok ==> Value() == Plus(old(Value()), Effect(arg))
      decreases arg, 1
    {
      match arg
      case All(args) =>
        ok := ClassifyAllArgs(args);
      case AllExcept(table, kept) =>
        ok := ClassifyAllExcept(table, kept);
      case KeepFilters(ps) =>
        if |ps| != 1 {
          return false;
        }
        keepPreds := keepPreds + [ps[0]];
        assert ps == [ps[0]];
        ok := true;
      case FilterOver(_, _) =>
        ok := ClassifyFilter(arg);
      case FilterArity =>
        ok := false;
      case TimeRange(date, designated) =>
        if designated {
          removeTables := removeTables + {date.table};
        } else {
          removeCols := removeCols + {date};
        }
        timeFilters := timeFilters + [date];
        ok := true;
      case Plain(pred) =>
        preds := preds + [pred];
        ok := true;
    }

    /** FILTER(ALL..., p) clears and restricts; over anything else it only restricts. */
    method ClassifyFilter(arg: FilterArg) returns (ok: bool)
      requires arg.FilterOver?
      modifies this
      ensures ok <==> !Malformed(arg)
      ensures ok ==> Value() == Plus(old(Value()), Effect(arg))
      decreases arg, 0
    {
      var FilterOver(table, pred) := arg;
      if !IsAllFamily(table) {
        keepPreds := keepPreds + [pred];
        return true;
      }
      ok := ClassifyCalcArg(table);
      if ok {
        preds := preds + [pred];
      }
    }

    method ClassifyAllArgs(args: seq<AllArg>) returns (ok: bool)
      modifies this
      ensures ok <==> !Malformed(All(args))
      ensures ok ==> Value() == Plus(old(Value()), Effect(All(args)))
    {
      if args == [] {
        removeAll := true;
        return true;
      }
      for i := 0 to |args|
        invariant NotAReference !in args[..i]
        invariant removeTables == old(removeTables) + set a | a in args[..i] && a.AllTable? :: a.table
        invariant removeCols == old(removeCols) + set a | a in args[..i] && a.AllColumn? :: a.key
        invariant removeAll == old(removeAll) && exceptCols == old(exceptCols)
        invariant preds == old(preds) && keepPreds == old(keepPreds) && timeFilters == old(timeFilters)
      {
        assert args[..i + 1] == args[..i] + [args[i]];
        match args[i]
        case AllColumn(key) => removeCols := removeCols + {key};
        case AllTable(table) => removeTables := removeTables + {table};
        case NotAReference => return false;
      }
      assert args[..|args|] == args;
      return true;
    }

    method ClassifyAllExcept(table: Option<Table>, kept: seq<Option<ColKey>>) returns (ok: bool)
      modifies this
      ensures ok <==> !Malformed(AllExcept(table, kept))
      ensures ok ==> Value() == Plus(old(Value()), Effect(AllExcept(table, kept)))
    {
      if kept == [] || table.None? {
        return false;
      }
      removeTables := removeTables + {table.value};
      for i := 0 to |kept|
        invariant None !in kept[..i]
        invariant exceptCols == old(exceptCols) + set k | k in kept[..i] && k.Some? :: k.value
        invariant removeTables == old(removeTables) + {table.value} && removeCols == old(removeCols) && removeAll == old(removeAll)
        invariant preds == old(preds) && keepPreds == old(keepPreds) && timeFilters == old(timeFilters)
      {
        assert kept[..i + 1] == kept[..i] + [kept[i]];
        if kept[i].None? {
          return false;
        }
        exceptCols := exceptCols + {kept[i].value};
      }
      assert kept[..|kept|] == kept;
      return true;
    }

    method ClassifyCalcArgs(args: seq<FilterArg>) returns (ok: bool)
      requires Value() == NO_MODS
      modifies this
      ensures ok <==> forall a :: a in args ==> !Malformed(a)
      ensures ok ==> Value() == Effects(args)
    {
      for i := 0 to |args|
        invariant forall a :: a in args[..i] ==> !Malformed(a)
        invariant Value() == Effects(args[..i])
      {
        assert args[..i + 1] == args[..i] + [args[i]];
        assert args[..i + 1][..i] == args[..i];
        ok := ClassifyCalcArg(args[i]);
        if !ok {
          assert args[i] in args;
          return;
        }
      }
      assert args[..|args|] == args;
      return true;
    }

    method PredColKeys() returns (keys: set<ColKey>)
      ensures keys == Overridden(Value())
    {
      keys := {};
      for i := 0 to |preds|
        invariant keys == set p, k | p in preds[..i] && k in p.refs :: k
      {
        assert preds[..i + 1] == preds[..i] + [preds[i]];
        for j := 0 to |preds[i].refs|
          invariant keys == (set p, k | p in preds[..i] && k in p.refs :: k) + set k | k in preds[i].refs[..j]
        {
          assert preds[i].refs[..j + 1] == preds[i].refs[..j] + [preds[i].refs[j]];
          keys := keys + {preds[i].refs[j]};
        }
        assert preds[i].refs[..|preds[i].refs|] == preds[i].refs;
      }
      assert preds[..|preds|] == preds;
    }

    predicate Removes(table: Table, col: Option<Column>)
      reads this
      ensures Removes(table, col) <==> Removed(Value(), table, col)
    {
      || (col.Some? && ColKey(table, col.value) in removeCols)
      || ((removeAll || table in removeTables) && !(col.Some? && ColKey(table, col.value) in exceptCols))
    }

    /** The group keys and outer predicates the arguments leave in force. */
    method KeptFilters(keys: seq<ColKey>, outer: seq<Tag>) returns (keptKeys: seq<ColKey>, keptOuter: seq<nat>)
      ensures keptKeys == KeptKeys(Value(), keys)
      ensures forall i: nat :: i in keptOuter <==> i < |outer| && OuterStays(Value(), outer[i])
      ensures forall i, j :: 0 <= i < j < |keptOuter| ==> keptOuter[i] < keptOuter[j]
    {
      var overridden := PredColKeys();
      ghost var m := Value();
      keptKeys, keptOuter := [], [];
      for i := 0 to |keys|
        invariant keptKeys == KeptKeys(Value(), keys[..i])
      {
        var k := keys[i];
        assert keys[..i + 1] == keys[..i] + [k];
        SelectPush(keys[..i], k, q => KeyStays(m, q));
        if !Removes(k.table, Some(k.col)) && k !in overridden {
          keptKeys := keptKeys + [k];
        }
      }
      assert keys[..|keys|] == keys;
      for i := 0 to |outer|
        invariant forall j: nat :: j in keptOuter <==> j < i && OuterStays(Value(), outer[j])
        invariant forall j, k :: 0 <= j < k < |keptOuter| ==> keptOuter[j] < keptOuter[k]
      {
        var p := outer[i];
        if p.table.Some? && Removes(p.table.value, p.col) {
          continue;
        }
        if p.table.Some? && p.col.Some? && ColKey(p.table.value, p.col.value) in overridden {
          continue;
        }
        assert forall j :: 0 <= j < |keptOuter| ==> keptOuter[j] in keptOuter;
        keptOuter := keptOuter + [i];
      }
    }

    method TakesFastPath(keys: seq<ColKey>) returns (fast: bool)
      ensures fast <==> FastPath(Value(), keys)
    {
      if removeAll || removeTables != {} || removeCols != {} || timeFilters != [] {
        return false;
      }
      var overridden := PredColKeys();
      for i := 0 to |keys|
        invariant forall j :: 0 <= j < i ==> keys[j] !in overridden
      {
        if keys[i] in overridden {
          return false;
        }
      }
      return true;
    }
  }

  // ---- what the modifiers do ----

  /** The table and column an outer predicate is tagged with, where it is known. */
  datatype Tag = Tag(table: Option<Table>, col: Option<Column>)

  /** The filter on table.col is cleared. */
  ghost predicate Removed(m: Mods, table: Table, col: Option<Column>) {
    || (col.Some? && ColKey(table, col.value) in m.removeCols)
    || ((m.removeAll || table in m.removeTables) && !(col.Some? && ColKey(table, col.value) in m.exceptCols))
  }

  /** The columns whose filters the plain predicates replace. */
  ghost function Overridden(m: Mods): set<ColKey> {
    set p, k | p in m.preds && k in p.refs :: k
  }

  ghost predicate KeyStays(m: Mods, k: ColKey) {
    !Removed(m, k.table, Some(k.col)) && k !in Overridden(m)
  }

  ghost function KeptKeys(m: Mods, keys: seq<ColKey>): seq<ColKey> {
    Select(keys, k => KeyStays(m, k))
  }

  ghost predicate OuterStays(m: Mods, p: Tag) {
    p.table.Some? ==>
      !Removed(m, p.table.value, p.col) && (p.col.Some? ==> ColKey(p.table.value, p.col.value) !in Overridden(m))
  }

  ghost predicate FastPath(m: Mods, keys: seq<ColKey>) {
    && !m.removeAll && m.removeTables == {} && m.removeCols == {} && m.timeFilters == []
    && forall k :: k in keys ==> k !in Overridden(m)
  }

  ghost predicate ClearsColumn(a: FilterArg, k: ColKey) {
    match a
    case All(args) => AllColumn(k) in args
    case FilterOver(over, _) => IsAllFamily(over) && ClearsColumn(over, k)
    case TimeRange(date, designated) => !designated && date == k
    case _ => false
  }

  ghost predicate ClearsTable(a: FilterArg, t: Table) {
    match a
    case All(args) => args == [] || AllTable(t) in args
    case AllExcept(table, _) => table == Some(t)
    case FilterOver(over, _) => IsAllFamily(over) && ClearsTable(over, t)
    case TimeRange(date, designated) => designated && date.table == t
    case _ => false
  }

  ghost predicate Spares(a: FilterArg, k: ColKey) {
    match a
    case AllExcept(_, kept) => Some(k) in kept
    case FilterOver(over, _) => IsAllFamily(over) && Spares(over, k)
    case _ => false
  }

  ghost predicate Replaces(a: FilterArg, k: ColKey) {
    match a
    case FilterOver(over, pred) => IsAllFamily(over) && k in pred.refs
    case Plain(pred) => k in pred.refs
    case _ => false
  }

  ghost predicate Somewhere(args: seq<FilterArg>, p: FilterArg -> bool) {
    exists a :: a in args && p(a)
  }

  lemma EffectMeans(a: FilterArg, k: ColKey)
    requires !Malformed(a)
    ensures k in Effect(a).removeCols <==> ClearsColumn(a, k)
    ensures Effect(a).removeAll || k.table in Effect(a).removeTables <==> ClearsTable(a, k.table)
    ensures k in Effect(a).exceptCols <==> Spares(a, k)
    ensures k in Overridden(Effect(a)) <==> Replaces(a, k)
  {
  }

  lemma OverriddenPlus(a: Mods, b: Mods, k: ColKey)
    ensures k in Overridden(Plus(a, b)) <==> k in Overridden(a) || k in Overridden(b)
  {
  }

  /** The modifiers read off the arguments one by one: a column is cleared when some argument names
    * it, or some argument clears its table and none spares it; a filter is replaced when some
    * predicate argument mentions its column. */
  lemma {:induction false} EffectsMean(args: seq<FilterArg>, k: ColKey)
    requires forall a :: a in args ==> !Malformed(a)
    ensures k in Effects(args).removeCols <==> Somewhere(args, a => ClearsColumn(a, k))
    ensures Effects(args).removeAll || k.table in Effects(args).removeTables <==> Somewhere(args, a => ClearsTable(a, k.table))
    ensures k in Effects(args).exceptCols <==> Somewhere(args, a => Spares(a, k))
    ensures k in Overridden(Effects(args)) <==> Somewhere(args, a => Replaces(a, k))
  {
    if args != [] {
      var front, last := args[..|args| - 1], args[|args| - 1];
      assert args == front + [last];
      EffectsMean(front, k);
      hide Effect, ClearsColumn, ClearsTable, Spares, Replaces, Malformed, Overridden;
      EffectMeans(last, k);
      OverriddenPlus(Effects(front), Effect(last), k);
      SomewherePush(front, last, a => ClearsColumn(a, k));
      SomewherePush(front, last, a => ClearsTable(a, k.table));
      SomewherePush(front, last, a => Spares(a, k));
      SomewherePush(front, last, a => Replaces(a, k));
    }
  }

  lemma SomewherePush(front: seq<FilterArg>, last: FilterArg, p: FilterArg -> bool)
    ensures Somewhere(front + [last], p) <==> Somewhere(front, p) || p(last)
  {
  }

  /** Some argument names the column, or some argument clears its table and none spares the column. */
  ghost predicate Cleared(args: seq<FilterArg>, table: Table, col: Option<Column>) {
    || (col.Some? && Somewhere(args, a => ClearsColumn(a, ColKey(table, col.value))))
    || (Somewhere(args, a => ClearsTable(a, table)) && !(col.Some? && Somewhere(args, a => Spares(a, ColKey(table, col.value)))))
  }

  ghost predicate Replaced(args: seq<FilterArg>, k: ColKey) {
    Somewhere(args, a => Replaces(a, k))
  }

  ghost predicate OuterSurvives(args: seq<FilterArg>, p: Tag) {
    p.table.None? || (!Cleared(args, p.table.value, p.col) && (p.col.None? || !Replaced(args, ColKey(p.table.value, p.col.value))))
  }

  /** A filter is removed exactly when the arguments clear it. */
  lemma RemovedMeans(args: seq<FilterArg>, table: Table, col: Option<Column>)
    requires forall a :: a in args ==> !Malformed(a)
    ensures Removed(Effects(args), table, col) <==> Cleared(args, table, col)
  {
    EffectsMean(args, ColKey(table, if col.Some? then col.value else 0));
    hide Malformed, Effects, Somewhere, ClearsColumn, ClearsTable, Spares, Replaces;
  }

  /** A group key stays exactly when its column is neither cleared nor replaced, and the keys keep their
    * order; so it is for an outer predicate that is tagged with a column, while one that is tagged with a
    * table alone is only cleared with it and one without a tag always stays. */
  lemma KeptMeans(args: seq<FilterArg>, keys: seq<ColKey>, p: Tag)
    requires forall a :: a in args ==> !Malformed(a)
    ensures KeptKeys(Effects(args), keys) == Select(keys, (k: ColKey) => !Cleared(args, k.table, Some(k.col)) && !Replaced(args, k))
    ensures OuterStays(Effects(args), p) <==> OuterSurvives(args, p)
  {
    hide Malformed, Effects, Somewhere, Cleared, Removed, Overridden;
    forall k
      ensures KeyStays(Effects(args), k) <==> !Cleared(args, k.table, Some(k.col)) && !Replaced(args, k)
    {
      RemovedMeans(args, k.table, Some(k.col));
      ReplacedMeans(args, k);
    }
    SelectSame(keys, k => KeyStays(Effects(args), k), (k: ColKey) => !Cleared(args, k.table, Some(k.col)) && !Replaced(args, k));
    if p.table.Some? {
      RemovedMeans(args, p.table.value, p.col);
      if p.col.Some? {
        ReplacedMeans(args, ColKey(p.table.value, p.col.value));
      }
    }
  }

  lemma ReplacedMeans(args: seq<FilterArg>, k: ColKey)
    requires forall a :: a in args ==> !Malformed(a)
    ensures k in Overridden(Effects(args)) <==> Replaced(args, k)
  {
    EffectsMean(args, k);
  }

  /** The filters the arguments add: each predicate argument's own, a FILTER's condition, what is inside a
    * KEEPFILTERS. */
  ghost predicate Asks(a: FilterArg, p: Pred) {
    match a
    case Plain(pred) => p == pred
    case FilterOver(_, pred) => p == pred
    case KeepFilters(preds) => p in preds
    case _ => false
  }

  /** The ones that replace the filters on their columns. */
  ghost predicate AsksInstead(a: FilterArg, p: Pred) {
    Asks(a, p) && (a.Plain? || (a.FilterOver? && IsAllFamily(a.over)))
  }

  /** Those that replace filters are the plain ones and the conditions over a cleared table. */
  lemma {:induction false} PredicatesMean(args: seq<FilterArg>, p: Pred)
    requires forall a :: a in args ==> !Malformed(a)
    ensures p in Effects(args).preds || p in Effects(args).keepPreds <==> Somewhere(args, a => Asks(a, p))
    ensures p in Effects(args).preds <==> Somewhere(args, a => AsksInstead(a, p))
    ensures p in Effects(args).keepPreds <==> Somewhere(args, a => Asks(a, p) && !AsksInstead(a, p))
  {
    if args != [] {
      var front, last := args[..|args| - 1], args[|args| - 1];
      assert args == front + [last];
      PredicatesMean(front, p);
      OnePredicate(last, p);
      hide Effect, Asks, Malformed;
      SomewherePush(front, last, a => Asks(a, p));
      SomewherePush(front, last, a => AsksInstead(a, p));
      SomewherePush(front, last, a => Asks(a, p) && !AsksInstead(a, p));
    }
  }

  lemma OnePredicate(a: FilterArg, p: Pred)
    requires !Malformed(a)
    ensures p in Effect(a).preds <==> AsksInstead(a, p)
    ensures p in Effect(a).keepPreds <==> Asks(a, p) && !AsksInstead(a, p)
  {
  }

  /** A column that one ALLEXCEPT spares is spared from every other argument's removal of its table: the
    * arguments clear a column together exactly when one of them does alone, unless that is so. */
  lemma RemovalsAddUpWhen(args: seq<FilterArg>, k: ColKey)
    requires forall a :: a in args ==> !Malformed(a)
    ensures (Cleared(args, k.table, Some(k.col)) <==> Somewhere(args, a => Cleared([a], k.table, Some(k.col)))) <==>
      (Somewhere(args, a => Spares(a, k)) && Somewhere(args, a => ClearsTable(a, k.table) && !Spares(a, k)) ==> Somewhere(args, a => ClearsColumn(a, k)))
  {
    hide Malformed, Spares, ClearsTable, ClearsColumn;
    forall a
      ensures Cleared([a], k.table, Some(k.col)) <==> ClearsColumn(a, k) || (ClearsTable(a, k.table) && !Spares(a, k))
    {
      assert forall q: FilterArg -> bool :: Somewhere([a], q) <==> q(a);
    }
  }

  /** What each argument leaves of the group keys by itself: ALL() none; ALL over a table those of other
    * tables; ALLEXCEPT these and the columns it names. */
  lemma LoneRemovals(keys: seq<ColKey>, t: Table, kept: seq<Option<ColKey>>)
    requires kept != [] && None !in kept
    ensures KeptKeys(Effects([All([])]), keys) == []
    ensures KeptKeys(Effects([All([AllTable(t)])]), keys) == Select(keys, (k: ColKey) => k.table != t)
    ensures KeptKeys(Effects([AllExcept(Some(t), kept)]), keys) == Select(keys, (k: ColKey) => k.table != t || Some(k) in kept)
  {
    hide Effects, KeptKeys;
    LoneKept(All([]), keys, (_: ColKey) => false);
    SelectNone(keys, (_: ColKey) => false);
    LoneKept(All([AllTable(t)]), keys, (k: ColKey) => k.table != t);
    LoneKept(AllExcept(Some(t), kept), keys, (k: ColKey) => k.table != t || Some(k) in kept);
  }

  /** A predicate those it does not mention; KEEPFILTERS, and FILTER over the current context, all. */
  lemma LonePredicates(keys: seq<ColKey>, p: Pred)
    ensures KeptKeys(Effects([Plain(p)]), keys) == Select(keys, (k: ColKey) => k !in p.refs)
    ensures KeptKeys(Effects([KeepFilters([p])]), keys) == keys
    ensures KeptKeys(Effects([FilterOver(KeepFilters([p]), p)]), keys) == keys
  {
    hide Effects, KeptKeys;
    LoneKept(Plain(p), keys, (k: ColKey) => k !in p.refs);
    LoneKept(KeepFilters([p]), keys, (_: ColKey) => true);
    LoneKept(FilterOver(KeepFilters([p]), p), keys, (_: ColKey) => true);
    SelectAll(keys, (_: ColKey) => true);
  }

  /** A time function those outside a designated date table, or all but its date column. */
  lemma LoneTimeRanges(keys: seq<ColKey>, date: ColKey)
    ensures KeptKeys(Effects([TimeRange(date, true)]), keys) == Select(keys, (k: ColKey) => k.table != date.table)
    ensures KeptKeys(Effects([TimeRange(date, false)]), keys) == Select(keys, (k: ColKey) => k != date)
  {
    hide Effects, KeptKeys;
    LoneKept(TimeRange(date, true), keys, (k: ColKey) => k.table != date.table);
    LoneKept(TimeRange(date, false), keys, (k: ColKey) => k != date);
  }

  lemma LoneKept(a: FilterArg, keys: seq<ColKey>, stays: ColKey -> bool)
    requires !Malformed(a)
    requires forall k :: stays(k) <==> !ClearsColumn(a, k) && (ClearsTable(a, k.table) ==> Spares(a, k)) && !Replaces(a, k)
    ensures KeptKeys(Effects([a]), keys) == Select(keys, stays)
  {
    hide Malformed, ClearsColumn, ClearsTable, Spares, Replaces, Effects;
    KeptMeans([a], keys, Tag(None, None));
    assert forall q: FilterArg -> bool :: Somewhere([a], q) <==> q(a) by {
      assert [a][0] in [a];
    }
    SelectSame(keys, (k: ColKey) => !Cleared([a], k.table, Some(k.col)) && !Replaced([a], k), stays);
  }

  /** ALL(T) beside ALLEXCEPT(T, T[C]) leaves the filter on T[C] in force, which ALL(T) alone clears. */
  lemma SparedFromOthers(k: ColKey)
    ensures var all, except := All([AllTable(k.table)]), AllExcept(Some(k.table), [Some(k)]);
      KeptKeys(Effects([all]), [k]) == [] && !Malformed(all) && !Malformed(except) && KeptKeys(Effects([all, except]), [k]) == [k]
  {
    LoneKept(All([AllTable(k.table)]), [k], (q: ColKey) => q.table != k.table);
    SelectNone([k], (q: ColKey) => q.table != k.table);
    var args := [All([AllTable(k.table)]), AllExcept(Some(k.table), [Some(k)])];
    KeptMeans(args, [k], Tag(None, None));
    assert !Cleared(args, k.table, Some(k.col)) && !Replaced(args, k) by {
      assert Spares(args[1], k);
    }
    SelectOne(k, (q: ColKey) => !Cleared(args, q.table, Some(q.col)) && !Replaced(args, q));
  }

  /** Removals and overrides are unions, so the order of the arguments does not matter. */
  lemma ArgumentOrderIsFree(args: seq<FilterArg>, other: seq<FilterArg>, keys: seq<ColKey>, p: Tag)
    requires (forall a :: a in args ==> !Malformed(a)) && forall a :: a in args <==> a in other
    ensures KeptKeys(Effects(args), keys) == KeptKeys(Effects(other), keys)
    ensures OuterStays(Effects(args), p) <==> OuterStays(Effects(other), p)
  {
    hide Malformed;
    forall k
      ensures KeyStays(Effects(args), k) <==> KeyStays(Effects(other), k)
    {
      SameModifiers(args, other, k);
    }
    SelectSame(keys, k => KeyStays(Effects(args), k), k => KeyStays(Effects(other), k));
    if p.table.Some? {
      if p.col.Some? {
        SameModifiers(args, other, ColKey(p.table.value, p.col.value));
      } else {
        SameModifiers(args, other, ColKey(p.table.value, 0));
      }
    }
  }

  lemma SameModifiers(args: seq<FilterArg>, other: seq<FilterArg>, k: ColKey)
    requires (forall a :: a in args ==> !Malformed(a)) && forall a :: a in args <==> a in other
    ensures KeyStays(Effects(args), k) <==> KeyStays(Effects(other), k)
    ensures Removed(Effects(args), k.table, Some(k.col)) <==> Removed(Effects(other), k.table, Some(k.col))
    ensures Removed(Effects(args), k.table, None) <==> Removed(Effects(other), k.table, None)
    ensures k in Overridden(Effects(args)) <==> k in Overridden(Effects(other))
  {
    EffectsMean(args, k);
    EffectsMean(other, k);
    hide Malformed, Effects, Overridden;
    SameSomewhere(args, other, a => ClearsColumn(a, k));
    SameSomewhere(args, other, a => ClearsTable(a, k.table));
    SameSomewhere(args, other, a => Spares(a, k));
    SameSomewhere(args, other, a => Replaces(a, k));
  }

  lemma SameSomewhere(args: seq<FilterArg>, other: seq<FilterArg>, p: FilterArg -> bool)
    requires forall a :: a in args <==> a in other
    ensures Somewhere(args, p) <==> Somewhere(other, p)
  {
  }

  // ---- the two forms ----

  /** The joined rows of the enclosing query, with the meaning of keys and predicates over them. */
  datatype Data<!R> = Data(rows: seq<R>, key: (R, ColKey) -> Value, outer: (R, nat) -> bool, holds: (R, Pred) -> bool)

  ghost predicate AllPredsHold<R>(data: Data<R>, m: Mods, r: R) {
    forall p :: p in m.preds || p in m.keepPreds ==> data.holds(r, p)
  }

  /** A row of the enclosing group: every outer predicate, every key. */
  ghost predicate InGroup<R>(data: Data<R>, keys: seq<ColKey>, outer: seq<Tag>, cell: ColKey -> Value, r: R) {
    && (forall i :: 0 <= i < |outer| ==> data.outer(r, i))
    && forall k :: k in keys ==> data.key(r, k) == cell(k)
  }

  /** AGG(...) FILTER (WHERE predicates), over the enclosing query's own group. */
  ghost function FilterForm<R>(data: Data<R>, m: Mods, keys: seq<ColKey>, outer: seq<Tag>, cell: ColKey -> Value): seq<R> {
    Select(Select(data.rows, r => InGroup(data, keys, outer, cell, r)), r => AllPredsHold(data, m, r))
  }

  ghost predicate InSubquery<R>(data: Data<R>, m: Mods, keys: seq<ColKey>, outer: seq<Tag>, cell: ColKey -> Value, r: R) {
    && (forall i :: 0 <= i < |outer| && OuterStays(m, outer[i]) ==> data.outer(r, i))
    && (forall k :: k in KeptKeys(m, keys) ==> data.key(r, k) == cell(k))
    && AllPredsHold(data, m, r)
  }

  /** (SELECT AGG(...) FROM ... WHERE kept outer predicates, kept keys, predicates). */
  ghost function SubqueryForm<R>(data: Data<R>, m: Mods, keys: seq<ColKey>, outer: seq<Tag>, cell: ColKey -> Value): seq<R> {
    Select(data.rows, r => InSubquery(data, m, keys, outer, cell, r))
  }

  /** CALCULATE aggregates, of the joined rows, those that meet every predicate it asks for, the outer
    * predicates it neither clears nor replaces, and the cell's group keys that it does not either. */
  lemma SubqueryMeans<R>(data: Data<R>, args: seq<FilterArg>, keys: seq<ColKey>, outer: seq<Tag>, cell: ColKey -> Value, r: R)
    requires forall a :: a in args ==> !Malformed(a)
    ensures r in SubqueryForm(data, Effects(args), keys, outer, cell) <==>
      && r in data.rows
      && (forall p :: Somewhere(args, a => Asks(a, p)) ==> data.holds(r, p))
      && (forall k :: k in keys && !Cleared(args, k.table, Some(k.col)) && !Replaced(args, k) ==> data.key(r, k) == cell(k))
      && (forall i :: 0 <= i < |outer| && OuterSurvives(args, outer[i]) ==> data.outer(r, i))
  {
    hide Malformed, Effects, Somewhere, Asks, Cleared, Replaced, OuterStays;
    var m := Effects(args);
    SelectMember(data.rows, r => InSubquery(data, m, keys, outer, cell, r));
    var kept := (k: ColKey) => !Cleared(args, k.table, Some(k.col)) && !Replaced(args, k);
    KeptMeans(args, keys, Tag(None, None));
    assert KeptKeys(m, keys) == Select(keys, kept);
    SelectMember(keys, kept);
    forall p
      ensures p in m.preds || p in m.keepPreds <==> Somewhere(args, a => Asks(a, p))
    {
      PredicatesMean(args, p);
    }
    forall i | 0 <= i < |outer|
      ensures OuterStays(m, outer[i]) <==> OuterSurvives(args, outer[i])
    {
      KeptMeans(args, keys, outer[i]);
    }
  }

  /** No outer predicate is on a column that a predicate argument mentions. */
  ghost predicate NoOuterReplaced(m: Mods, outer: seq<Tag>) {
    forall i :: 0 <= i < |outer| && outer[i].table.Some? && outer[i].col.Some? ==>
      ColKey(outer[i].table.value, outer[i].col.value) !in Overridden(m)
  }

  lemma FastPathKeepsAll(m: Mods, keys: seq<ColKey>, outer: seq<Tag>)
    requires FastPath(m, keys)
    ensures KeptKeys(m, keys) == keys
    ensures NoOuterReplaced(m, outer) <==> forall i :: 0 <= i < |outer| ==> OuterStays(m, outer[i])
  {
    hide Overridden;
    SelectAll(keys, k => KeyStays(m, k));
  }

  /** Where the fast path is taken and no outer predicate is replaced, both forms aggregate the same
    * rows. */
  lemma FilterFormIsSubquery<R>(data: Data<R>, m: Mods, keys: seq<ColKey>, outer: seq<Tag>, cell: ColKey -> Value)
    requires FastPath(m, keys) && NoOuterReplaced(m, outer)
    ensures FilterForm(data, m, keys, outer, cell) == SubqueryForm(data, m, keys, outer, cell)
  {
    FastPathKeepsAll(m, keys, outer);
    hide KeptKeys, Overridden, OuterStays, FastPath, AllPredsHold;
    SelectTwice(data.rows, r => InGroup(data, keys, outer, cell, r), r => AllPredsHold(data, m, r), r => InSubquery(data, m, keys, outer, cell, r));
  }

  ghost predicate FormsAgree(m: Mods, keys: seq<ColKey>, outer: seq<Tag>, cell: ColKey -> Value) {
    forall data: Data<int> :: FilterForm(data, m, keys, outer, cell) == SubqueryForm(data, m, keys, outer, cell)
  }

  /** The fast path looks at group keys alone.  Whatever the data, it returns what the subquery would
    * exactly when no outer predicate sits on a column the CALCULATE's own predicates mention: the
    * subquery drops such a predicate, the fast path still applies it. */
  lemma FastPathIsRightWhen(m: Mods, keys: seq<ColKey>, outer: seq<Tag>, cell: ColKey -> Value)
    requires FastPath(m, keys)
    ensures FormsAgree(m, keys, outer, cell) <==> NoOuterReplaced(m, outer)
  {
    if NoOuterReplaced(m, outer) {
      forall data: Data<int>
        ensures FilterForm(data, m, keys, outer, cell) == SubqueryForm(data, m, keys, outer, cell)
      {
        FilterFormIsSubquery(data, m, keys, outer, cell);
      }
    } else {
      FastPathKeepsAll(m, keys, outer);
      var i :| 0 <= i < |outer| && !OuterStays(m, outer[i]);
      StaleFilter(m, keys, outer, cell, i);
    }
  }

  /** One row that only the replaced outer predicate rejects. */
  lemma StaleFilter(m: Mods, keys: seq<ColKey>, outer: seq<Tag>, cell: ColKey -> Value, i: nat)
    requires i < |outer| && !OuterStays(m, outer[i])
    ensures !FormsAgree(m, keys, outer, cell)
  {
    hide KeptKeys, OuterStays;
    var data := Data([0], (_, k) => cell(k), (_, j) => j != i, (_, _) => true);
    assert !InGroup(data, keys, outer, cell, 0) by { assert !data.outer(0, i); }
    SelectNone(data.rows, r => InGroup(data, keys, outer, cell, r));
    assert FilterForm(data, m, keys, outer, cell) == [];
    SelectOne(0, r => InSubquery(data, m, keys, outer, cell, r));
    assert SubqueryForm(data, m, keys, outer, cell) == [0];
  }
}
