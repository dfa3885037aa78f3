# Verification of DUX

DUX compiles a DAX-like query language to SQL over a graph of table relationships, and imports files
into a lake through a protocol that survives crashes.  This project models the parts of it where a
mistake would be silent - a wrong number, a lost import - and proves what those parts promise.

`dafny verify dfyconfig.toml` checks everything.

Tables, columns and measures are resolved identifiers.  SQL is modelled by the shapes the emitter
produces, with a small relational meaning: rows with optional values, null-safe equality, inner, left
and full joins, GROUP BY, EXISTS, DISTINCT, aggregates as functions of a bag of rows.  Joined tables
and grouping follow sections 7.7 and 7.9 of ISO/IEC 9075-2:2003.

The modules, from the graph up:

- `Relationships`, `JoinSearch`, `JoinPath`, `JoinOrder`: walks over the relationship multigraph, the
  breadth-first search that joins one more table, the join tree built from its paths, and its
  independence of the order in which relationships were declared.
- `FilterFlow`, `FilterPaths`, `RelationshipEdits`: where filters flow, the validator that allows a
  bidirectional relationship only as a bridge, and the live graph under edit requests.
- `ImportProtocol`, `ImportRecovery`, `ImportRuns`: two stores without a common transaction, one lock, one
  event per durable write, a crash between any two of them, recovery that may itself crash, and what runs
  that nothing disturbs get done.
- `Relational`, `Stitch`, `Summarize`, `Rollup`: cluster CTEs recombined by full outer joins on
  coalesced keys, context CTEs left-joined to the cells, grouping sets, pruning of blank rows.
- `TimeIntel`, `ContextCte`, `DateBridge`, `CellContext`: time filters against anchor columns, CALCULATE
  as a grouped CTE with anchor scans, the form that computes date windows before it joins the facts, and
  the filter context of a cell, told by relationships alone, that both are measured against.
- `ClusterFrom`, `ChainRows`, `FlatJoins`, `FlatWhen`: the join tree split into flat joins, EXISTS chains
  and DISTINCT group chains, what the resulting query returns, and when that is what flat joins return.
- `Subtotals`, `SubtotalWhen`: rollup levels over such a clause.
- `ValueRows`, `ValueRowsWhen`, `LevelRows`, `ContextRows`: a cell's own rows of a value table, told by the
  relationships, and when a clause, a rollup level and a context CTE show each of them once.
- `Calculate`, `MeasurePlan`, `Resolver`, `ExternalFilters`: filter arguments and the aggregate FILTER
  form, clustering of measures, dependency resolution, filters supplied beside a query.
- `QueryMeaning`: the whole stitched query, from the plan to the output rows at every level of its rollup,
  each measure over the own rows of its own tables in its own context.

Code that updates state is a method or a class here, proved against a specification function or a
declarative contract; what the code promises is then proved about that specification.

## What turned out false

Thirteen properties do not hold of the code for all inputs.  Each is stated with the exact condition under
which it does, and with the input that breaks it.

- A measure aggregates each value row of a cell once only where no flat join repeats it.  With a context
  cluster in the plan a clause is rooted at the group keys (emitter/stitched.go:179-201) unless that path is ambiguous, so that the bridge
  above the value table is joined flat, and a context CTE joins a carried key beyond a bridge flat as well
  (emitter/contextcte.go:394).  A flat table must be entered through a key, be grouped by one, or have
  the value table hang off one: `ValueRowsWhen.ValueRowsAreOwnWhen`, with `RepeatedMembershipCountsTwice`,
  `ClubIsFlat` and `ClubContextIsNotFixed`; for levels `LevelRows.LevelRowsAreOwn`, for contexts
  `ContextRows.ContextRowsAreOwn`.
- A clause loses no value row, and shows no joined row without one - which COUNT(*) counts
  (emitter/emitter.go:484-486) - exactly when it is rooted at the value table:
  `ValueRowsWhen.NoRowIsLostWhen` and `EveryRowShowsWhen`, both with the one-row input that breaks them.
- A context CTE evaluates CALCULATE in each cell's own context only if its anchor scans see that
  context.  Filters flow both ways across a bidirectional relationship; a scan applies the outer predicates
  on its own table and not those on tables that filter it through relationships
  (emitter/contextcte.go:557-563), and a group key is given to one scan although it may filter two, and to
  none across a bidirectional relationship (emitter/contextcte.go:269-281):
  `CellContext.ContextIsRightWhen`, with `YearFilterIsMissed`, `BridgedFilterIsMissed` and `SharedKeyIsMissed`.
- A DISTINCT group chain means what flat LEFT JOINs mean only if it carries keys and nothing else.  A
  predicate on one of its tables moves into the map (emitter/stitched.go:690-698), so a value row it
  should drop counts under the NULL key; and a value row without a bridge row no longer follows links
  between NULLs: `FlatWhen.CarvedIsFlatWhen`, with `FilteredFactStillCounts` and `NullLinkIsNotFollowed`.
- A subtotal over a group chain counts a joined row once for each group value it drops, unless the
  dropped keys are determined by the kept ones: `SubtotalWhen.SubtotalCountsOnceWhen` and
  `RollupCountsOnceWhen`, with `TotalCountsTwice`.
- A measure that is evaluated whole in one CTE is BLANK in a cell that only other measures have, even
  when its expression is not BLANK over BLANK aggregates; the same expression taken apart is not:
  `QueryMeaning.WholeIsExactWhen`, with `CoalescedSumGoesBlank`.
- The aggregate FILTER form of CALCULATE looks at group keys only (emitter/filterctx.go:412).  An outer
  TREATAS predicate on a column that a CALCULATE predicate mentions, but that is no group key, is still
  applied by it and dropped by the subquery form: `Calculate.FastPathIsRightWhen`, with `StaleFilter`.
- ALL over a table removes every filter on it (README.md:853 of the repository), unless another argument is an ALLEXCEPT that
  lists the column: the columns spared are kept in one set for all arguments (emitter/filterctx.go:81).
  `Calculate.RemovalsAddUpWhen`, with `SparedFromOthers`.
- The bridge form of a context CTE joins with `=`, the anchor form with IS NOT DISTINCT FROM.  They agree
  for all queries over two tables exactly when no fact, or no date, has a NULL key:
  `DateBridge.NullKeysDecide`, with `NullKeyIsLost`.
- SAMEPERIODLASTYEAR and DATEADD over a whole period select the whole shifted period exactly when
  shifting its last day gives that period's last day, and DATESINPERIOD back from a period's last day is
  whole periods exactly when shifting the day back gives the day before the first of them:
  `TimeIntel.ShiftedPeriodIsWholeWhen` and `BackwardWindowIsWholeWhen`, with `ShorterMonthLosesDays` and, on a
  calendar with leap years, `LeapDayIsMissed`.
- GROUPING flags are taken from the first column of each rollup element.  A rollup whose elements share
  columns can give two levels the same keys and flags: `Rollup.RollupKeysUnique`, with `Collision`.
- Injected filters are put before the first argument that is a string literal and nothing else, while
  the emitter starts the measure pairs at the first argument that starts with one:
  `ExternalFilters.InjectionKeepsPairs`, with `InjectionBreaksPairs`.
- A lake commit that takes effect but reports an error (internal/ducklake/service.go:724-730) is undone in
  the metadata only: the job is marked failed and its content can be registered again.  The guarantees of
  the import protocol are proved for commits that report their outcome, crashes included:
  `ImportProtocol.LostCommitIsForgotten`, with `LostCommitRegistersTwice`.

## Model

| member | source | states |
|---|---|---|
| Relationships.WalkIsTrail | semantic/join.go:154-168 | A walk leads from one table to another exactly when a row of tables does in which the relationships used link each to the next, in either direction |
| Relationships.StepsAreDeclared | semantic/join.go:158-180 | Every step of a walk joins the two tables of a declared relationship, each on its own column, with its flag |
| JoinSearch.BfsJoin | semantic/join.go:128-213 | Returns the path exactly when one shortest relationship walk leads from the joined tables to the target, the ambiguity error exactly when there are two or more (parallel relationships apart), the no-path error exactly when there is none; its steps join declared relationships, each table on its own column; terminates |
| JoinSearch.Expand | semantic/join.go:152-209 | One dequeued state: every relationship at its table is looked at in both directions, and the search invariant survives hits, requeueing at equal depth and deeper levels; whatever is found or queued joins each table of a declared relationship on its own column |
| JoinSearch.HitIsUnique | semantic/join.go:144-151 | A hit whose level is exhausted without a second one is the only shortest walk |
| JoinSearch.SecondHit | semantic/join.go:176-199 | A second hit of the same length means two shortest walks |
| JoinPath.InferJoinPath | semantic/join.go:76-119 | Joins each target in turn to everything joined before; the first failure is the result; every step joins the two tables of a declared relationship, each on its own column |
| JoinPath.InferIsTree | semantic/join.go:76-119 | The steps form a tree rooted at the first table: each starts at the root or an earlier step's table, each table is entered once, every step joins the two tables of a declared relationship on their own columns, every target is covered |
| JoinPath.UniqueSlice | semantic/join.go:371-381 | Removes repetitions, keeps the order of first appearance |
| JoinPath.LeafEdge | semantic/join.go:52-68 | Returns the one step that enters the table, if nothing leaves it |
| JoinPath.LeavesDetach | semantic/join.go:50-68 | In a join tree the detachable tables are exactly the leaves other than the root |
| JoinPath.DetachedIsTree | semantic/join.go:50-68 | The tree minus a leaf step is a tree over all the other tables |
| JoinOrder.InferOrderFree | semantic/join.go:76-213 | Permuting the declared relationships changes neither the inferred steps nor the kind of error |
| FilterFlow.FilterReaches | semantic/join.go:247-286 | Decides the reflexive-transitive closure of the filter-flow edges, for any of the targets |
| FilterFlow.GroupingReaches | semantic/join.go:292-324 | The same for the edges that carry grouping |
| FilterFlow.GroupingImpliesFilter | semantic/join.go:240-324 | Where grouping flows, filters flow |
| FilterFlow.FilterReachIsTwoWay | semantic/join.go:240-324 | A filter reaches what grouping reaches once each bidirectional relationship is replaced by two one-way ones |
| FilterFlow.OneWayReachesAgree | semantic/join.go:240-324 | Without bidirectional relationships the two reaches are the same |
| FilterFlow.OneRelationshipReaches | semantic/join.go:264-312 | Over one relationship a filter reaches the many side from the one side, and the other way exactly when the relationship is bidirectional and a filter is asked for |
| FilterFlow.FilterReachIsJoinable | semantic/join.go:128-324 | Where a filter flows to a single target, joining the two tables never fails for want of a path |
| FilterPaths.ValidateFilterPaths | semantic/join.go:385-420 | Succeeds exactly when every bidirectional relationship is a bridge of the undirected multigraph, and otherwise names the first that is not |
| FilterPaths.SeenWithout | semantic/join.go:392-412 | The tables connected to one end without the relationship itself |
| FilterPaths.BridgeSeparates | semantic/join.go:383-420 | A simple walk crosses a bridge exactly when the bridge separates its ends |
| FilterPaths.SameBidirectionalEdges | semantic/join.go:383-420 | After validation any two simple walks between the same tables cross the same bidirectional relationships |
| FilterPaths.EmbeddedIsValid | semantic/join.go:385-420 | A validated graph stays valid when relationships are taken away |
| RelationshipEdits.LiveSchema.AddRelationship | cmd/duxd/main.go:958-1022 | Sets the flag of the matching relationship or appends; a rejected or unstored request leaves the sequence exactly as it was |
| RelationshipEdits.LiveSchema.ReplaceRelationship | cmd/duxd/main.go:1024-1081 | Replaces one relationship by another, with the reverse-duplicate, not-found, validation and storage outcomes, and full rollback |
| RelationshipEdits.LiveSchema.DeleteRelationship | cmd/duxd/main.go:1083-1108 | Removes the matching relationships once storage has |
| RelationshipEdits.LiveSchema.RemoveRelationship | cmd/duxd/main.go:932-942 | Keeps every other relationship, in order |
| RelationshipEdits.LiveSchema.RefreshSchema | internal/bootstrap/bootstrap.go:63-101 | A freshly loaded graph takes over only when it validates |
| RelationshipEdits.ServeKeepsValid | cmd/duxd/main.go:924-1127 | Any single request, accepted or not, keeps every bidirectional relationship a bridge |
| RelationshipEdits.RunKeepsValid | cmd/duxd/main.go:924-1127 | So does every run of requests, with any storage failures |
| RelationshipEdits.AddThenDelete | cmd/duxd/main.go:958-1108 | Deleting a relationship just added restores the sequence |
| RelationshipEdits.ReplaceBack | cmd/duxd/main.go:1024-1081 | Replacing a relationship and replacing it back leaves every inferred join path as it was |
| RelationshipEdits.UpsertMeans | cmd/duxd/main.go:958-1022 | After an addition the relationship is there with its flag, one is added only where there was none, and all others, parallel ones over other columns too, are in their places |
| RelationshipEdits.WithoutMeans | cmd/duxd/main.go:932-942 | A removal leaves exactly the relationships that differ in a table or a column |
| RelationshipEdits.ReplaceMeans | cmd/duxd/main.go:1024-1081 | A replacement is a reverse duplicate exactly when it reads another relationship backwards, and not found exactly when the original is absent |
| ImportProtocol.NextKeeps | internal/ducklake/service.go:364-734 | Every step - request, staging, receipts, lake commit, status write, compaction, crash, recovery - keeps the protocol invariant |
| ImportProtocol.RunKeeps | internal/ducklake/service.go:128-734 | Hence every run from empty stores keeps it |
| ImportProtocol.RegisteredOnce | internal/ducklake/service.go:573-734 | In every run no content is registered twice for one table, by one import or by two |
| ImportProtocol.StatusIsTruth | internal/ducklake/service.go:668-734 | A finished job's stored status is whether its lake transaction committed, across every crash |
| ImportProtocol.MemoryIsTruth | internal/ducklake/service.go:805-818 | The outcome reported from memory is the stored one |
| ImportProtocol.NoCompactionBeforeFinish | internal/ducklake/service.go:393-401 | The lock keeps compaction out between an import's commit and its finish |
| ImportProtocol.ListingTells | internal/ducklake/service.go:181-223 | For an interrupted import the lake's file listing tells exactly whether its transaction committed |
| ImportProtocol.FailureFreesContent | internal/ducklake/service.go:573-666 | A failed import leaves no receipt behind: its content may be imported again |
| ImportProtocol.LostCommitIsForgotten | internal/ducklake/service.go:573-734 | From any reachable state, a commit that takes effect and reports an error ends with the job marked failed, its files registered and its content unclaimed |
| ImportProtocol.LostCommitRegistersTwice | internal/ducklake/service.go:573-734 | The next import of one of those files then succeeds and registers its content a second time |
| ImportProtocol.KeyOwnsOneJob | semantic/metadata.go:114-142 | Each idempotency key owns at most one job, and once it does a repeated request is always answered with that job |
| ImportRecovery.Stores.ImportWasCommitted | internal/ducklake/service.go:181-223 | Compares the import's receipts with the table's registered files; true exactly when all of them are registered |
| ImportRecovery.Stores.RecoverOne | internal/ducklake/service.go:151-166 | Recovers one import, or stops after any number of durable writes, in an order that can be resumed |
| ImportRecovery.Stores.RecoverInterrupted | internal/ducklake/service.go:128-179 | When it returns, every interrupted import has the status its lake transaction earned |
| ImportRecovery.RecoveryIsRepeatable | internal/ducklake/service.go:128-179 | However often recovery crashes and starts over, the stores end as one undisturbed recovery would leave them |
| ImportRecovery.VerdictIsTruth | internal/ducklake/service.go:128-223 | In every run the verdict recovery gives is whether the lake transaction committed |
| ImportRuns.ImportSucceeds | internal/ducklake/service.go:364-734 | An import of any number of new files that nothing disturbs succeeds: all are registered, in order, each has its receipt, the lock is free, and no other row is touched |
| ImportRuns.ImportFails | internal/ducklake/service.go:573-666 | An import fails at a file it has already or its table knows, and leaves nothing but its failed row |
| ImportRuns.CopyFailsOnlyFor | internal/ducklake/service.go:599-630 | A copy fails for such content only, and is staged otherwise |
| ImportRuns.MaintenanceRewrites | internal/ducklake/service.go:364-401 | Maintenance holds the lock against imports, replaces listed files by merged ones and changes nothing else |
| ImportRuns.RestartSucceeds | internal/ducklake/service.go:128-179 | From every reachable crash a start that nothing disturbs comes up idle with every interrupted import recovered |
| Stitch.EmitStitch | emitter/stitched.go:450-491 | The FROM clause: full outer joins on all key and flag columns coalesced over the CTEs so far, then left joins of the context CTEs on their carried keys |
| Stitch.StitchedClusters | emitter/stitched.go:461-478 | The full-outer chain gives exactly one row per key tuple of the union, NULL keys included, with each cluster's own row or its absence |
| Stitch.CellColumn | emitter/stitched.go:505-517 | The coalesced reference shows the cell's own key, NULL or not |
| Stitch.StitchIsExact | emitter/stitched.go:461-491 | The context joins add and drop no cell, and give each cell the context row of its carried keys |
| Stitch.ContextsAlone | emitter/stitched.go:451-459 | Without keys and clusters, single-row contexts give a single row |
| Summarize.ReadIsCellValue | emitter/stitched.go:264-335 | A value read through a cluster CTE is the aggregate over that cell's rows, BLANK where the CTE has no group |
| Summarize.ContextReadIsCellValue | emitter/stitched.go:479-491 | A value read through a context CTE is the aggregate of the cell's carried key, repeated across the removed keys, BLANK where the CTE has no group |
| Summarize.StitchedIsPerCell | emitter/stitched.go:94-493 | The stitched query returns exactly the cells of the clusters, each once, with every measure as if evaluated alone in that cell |
| Summarize.PrunedIsPerCell | emitter/emitter.go:1651-1670 | After pruning, one row for each cell with a measure that is not BLANK, and no other |
| Rollup.RollupGroupingSets | emitter/rollup.go:95-105 | The n + 1 prefix grouping sets, detail first |
| Rollup.RollupKeysUnique | emitter/rollup.go:80-105 | Keys and GROUPING flags identify the rows for all data exactly when every element brings some element's first column in anew |
| Rollup.DistinctColumnsSuffice | emitter/rollup.go:30-105 | Distinct columns meet that condition |
| Rollup.RollupIsGrouped | emitter/stitched.go:273-289 | A rolled-up CTE over distinct columns satisfies what the stitch needs |
| Rollup.FlagsTellLevel | emitter/stitched.go:461-478 | Equal flags mean the same level, so a subtotal row pairs with no other level |
| Rollup.FlagIsSubtotal | emitter/stitched.go:273-289 | Over distinct columns an element's flag is 1 exactly at the levels that roll it up |
| Rollup.SameGroupWhen | emitter/rollup.go:80-105 | Two rows fall into one group of a level exactly when they agree on the level's columns |
| TimeIntel.AnchorCollector.Ref | emitter/contextcte.go:77-104 | One scan per anchored table and one slot per aggregate, shared by later references, earlier ones undisturbed |
| TimeIntel.AnchorCollector.EmitDateBound | emitter/timeintel.go:280-316 | A bound becomes its anchor column, or stays a constant |
| TimeIntel.AnchorCollector.EmitTimeIntelPred | emitter/timeintel.go:173-278 | The emitted comparisons select exactly the dates the function names, and mention every scan they added |
| TimeIntel.NullAnchorRejects | emitter/timeintel.go:166-316 | An anchor over no date row lets no date pass |
| TimeIntel.PreviousIsThePeriodBefore | emitter/timeintel.go:209-216 | PREVIOUS selects exactly the whole period before the one the context starts in |
| TimeIntel.NextIsThePeriodAfter | emitter/timeintel.go:218-225 | NEXT selects exactly the whole period after the one the context ends in |
| TimeIntel.PeriodToDateIsPrefix | emitter/timeintel.go:173-204 | Period to date is the part of the context's last period up to its end |
| TimeIntel.ShiftedPeriodIsWholeWhen | emitter/timeintel.go:188-207 | Over a whole period, SAMEPERIODLASTYEAR and DATEADD select exactly the shifted period if and only if shifting the last day gives its last day |
| TimeIntel.ShorterMonthLosesDays | emitter/timeintel.go:188-193 | Where last year's month is a day longer, its last day is left out |
| TimeIntel.PeriodWindowIsWholeWhen | emitter/timeintel.go:250-274 | DATESINPERIOD over one period back from a period's last day is that period if and only if shifting the day back gives the day before the period |
| TimeIntel.ForwardWindowIsWhole | emitter/timeintel.go:250-274 | DATESINPERIOD forward from a period's first day is exactly that many whole periods, none for 0 |
| TimeIntel.BackwardWindowIsWholeWhen | emitter/timeintel.go:250-274 | Back from a period's last day it is that many whole periods if and only if shifting the day gives the day before the first of them |
| TimeIntel.DatesBetweenIsPeriod | emitter/timeintel.go:228-248 | DATESBETWEEN a period's first and last day is exactly that period |
| TimeIntel.OpenDatesSplit | emitter/timeintel.go:228-248 | With one bound DATESBETWEEN is a half line: from a day on and up to the day before split all dates |
| TimeIntel.LeapDayIsMissed | emitter/timeintel.go:188-274 | On a lawful calendar with leap years SAMEPERIODLASTYEAR leaves the leap day out, and one month back from the last day of the month after it takes it in |
| ContextCte.FindScan | emitter/contextcte.go:264-281 | The scan of the key's own table, else the first one whose table or expressions the key groups, else none |
| ContextCte.CarryKeys | emitter/contextcte.go:261-288 | Carries exactly the keys that survive or that a scan provides, in order, and marks which still filter |
| ContextCte.ScanAtCell | emitter/contextcte.go:532-608 | An anchor scan has one row per combination of its own group keys, holding the anchors over the scanned rows that carry it |
| ContextCte.FromAtCell | emitter/contextcte.go:412-428 | The cross join gives a cell every fact once beside its row of each scan, and nothing when a scan has none |
| ContextCte.CteGroupPasses | emitter/contextcte.go:250-428 | The facts grouped under a cell's carried keys are those that pass the conditions, the kept keys and the time ranges against its scan rows, each once |
| ContextCte.CellReadsPassing | emitter/contextcte.go:220-529 | What a cell reads from the joined CTE is the aggregate over them, and is BLANK where there are none |
| ContextCte.CarriedKeysFit | emitter/contextcte.go:261-288 | The carried keys the emitter builds satisfy what that theorem asks of them |
| ContextCte.EmittedRangesReject | emitter/contextcte.go:228-242 | So do the emitted ranges: without date rows in the cell they let no fact through |
| CellContext.ScanPreds | emitter/contextcte.go:557-563 | A scan applies exactly the predicates on its own table and those whose table reaches one of its LASTNONBLANK expressions by grouping, in order |
| CellContext.CteFactsAreContext | emitter/contextcte.go:250-428 | Where the scans see the cell's context, the joined rows grouped under the cell's carried keys are those of its modified filter context: surviving predicates and keys, and the window of anchors over the dates that all its filters, flowing both ways across bidirectional relationships, leave |
| CellContext.ContextIsPerCell | emitter/contextcte.go:220-529 | Then what a cell reads from the joined CTE is the CALCULATE evaluated over those rows; ContextRows says when they are the value rows |
| CellContext.ContextIsRightWhen | emitter/contextcte.go:220-563 | The CTE is right for all data exactly when every predicate that filters an anchored table, in either direction of a bidirectional relationship, is one its scan applies, every such group key is one a scan provides, and no group key filters two anchored tables |
| CellContext.DatesOfTheirOwnAreRight | emitter/contextcte.go:220-608 | In the usual case - date tables into which nothing else filters, each anchored once and by dates alone - the CTE is right for all data, whatever the keys, modifiers and predicates |
| CellContext.ClearedKeyIsFree | emitter/contextcte.go:250-288 | A cleared key filters nothing: cells that agree on the other keys have the same facts, and these have the other keys' values |
| CellContext.YearFilterIsMissed | emitter/contextcte.go:557-563 | A filter on a table above the date table is not applied to the anchors |
| CellContext.BridgedFilterIsMissed | emitter/contextcte.go:557-563 | A filter that reaches the dates across a bidirectional relationship is not applied to the anchors |
| CellContext.SharedKeyIsMissed | emitter/contextcte.go:269-281 | A key above two date tables reaches the anchors of one |
| CellContext.BridgeIsPerCell | emitter/contextcte.go:370-529 | The bridge form gives each cell its own context's value, over the joined rows, where its scan sees the context and no NULL keys meet |
| DateBridge.BridgeCountsTheSame | emitter/contextcte.go:429-492 | The bridge form produces the same (fact, cell) pairs as the cross-joined anchor form exactly when no NULL keys meet, and then row for row |
| DateBridge.BridgeIsAnchorCte | emitter/contextcte.go:370-529 | Then the two CTEs have the same groups with the same values |
| DateBridge.BridgeReadsPassing | emitter/contextcte.go:370-529 | So a cell reads from the bridge form what it reads from the anchor form |
| DateBridge.NullKeysDecide | emitter/contextcte.go:429-492 | For given facts and dates the forms agree under all conditions and windows exactly when no fact or no date has a NULL key |
| DateBridge.NullKeyIsLost | emitter/contextcte.go:429-492 | One fact and one date without keys: counted by one form only |
| ClusterFrom.SubtreeHas | emitter/stitched.go:575-585 | Decides whether a subtree of the join tree holds one of the wanted tables |
| ClusterFrom.SplitTree | emitter/stitched.go:629-663 | Every step lands in exactly one flat join, EXISTS chain or group chain, each of them a join tree of its own; the cuts are at the first bidirectional step into a part that is only grouped by or only filtered on |
| ClusterFrom.OneScope | emitter/stitched.go:621-663 | No table is in two scopes |
| ClusterFrom.ScopesCover | emitter/stitched.go:621-663 | Every table of the tree is in some scope, and no other is |
| ClusterFrom.NeededStaysVisible | emitter/stitched.go:539-546 | No table the SELECT list needs is carved into an EXISTS, and aggregated tables stay flat |
| ClusterFrom.BridgesAreCut | emitter/stitched.go:629-663 | Where the root alone is aggregated, every bidirectional step is cut |
| ClusterFrom.NothingElseIsCut | emitter/stitched.go:629-663 | Without bidirectional steps the whole tree is joined flat |
| ClusterFrom.PlacePreds | emitter/stitched.go:665-734 | Each chain takes the predicates on its tables, the rest stay plain, in order |
| ClusterFrom.EachPredicateOnce | emitter/stitched.go:665-734 | Each predicate is applied exactly once, where its table is in scope |
| ClusterFrom.SelectKeys | emitter/stitched.go:667-683 | Exactly the group keys beyond a group chain are read from its map, at the column that carries them |
| ClusterFrom.StitchedClusterFrom | emitter/stitched.go:547-736 | The whole clause, or the join error of the inferred path |
| ChainRows.JoinsAreCombinations | emitter/stitched.go:706-719 | Nested joins return exactly the linked row combinations |
| ChainRows.ExistsIsFlatJoin | emitter/stitched.go:703-726 | The correlated EXISTS body sees the rows a flat inner join would add |
| ChainRows.CarvingIsDistinctProjection | emitter/stitched.go:644-729 | An EXISTS chain keeps each outer row as often as it was there, exactly when some chain combination satisfies the predicates |
| ChainRows.MapJoinsOnce | emitter/stitched.go:667-700 | Joining a DISTINCT map adds a tuple to a value row at most once, however many chain rows lead to it |
| ChainRows.WideRowsOfCell | emitter/stitched.go:665-700 | Over all group chains together, a cell's rows are the flat rows that reach its tuples, each once |
| ChainRows.CellCountsEachRowOnce | emitter/stitched.go:547-736 | The rows grouped under a cell are the joined rows of the flat part that count there, each once |
| ChainRows.EmittedClauseCounts | emitter/stitched.go:547-736 | For the clause a join path is split into: the rows grouped under a cell are the joined rows of the flat part that count there, each once, and the WHERE clause holds exactly when the plain conditions do and every filter chain has a satisfying linked combination |
| FlatJoins.LeftJoinsAreExact | emitter/stitched.go:656-662 | LEFT JOINs return exactly the environments in which each table shows a linked row, or none where none is linked |
| FlatJoins.WidenedLeads | emitter/stitched.go:667-700 | Group chains are independent: a row joined with all of them carries a cell's values exactly when each chain alone leads to its part |
| FlatJoins.ReachesIsLeads | emitter/stitched.go:667-700 | A chain that carries keys only leads where its LEFT JOINs lead |
| FlatJoins.GroupedIsFlat | emitter/stitched.go:547-736 | Where all group chains do, the clause groups under each cell the rows of the flat part that flat LEFT JOINs over the whole tree, filtered by all predicates, leave there, each once |
| FlatWhen.CarvedIsFlatWhen | emitter/stitched.go:547-736 | The clause and the flat joins agree for all data and predicates exactly when no predicate is on a group chain and no group key lies behind a link between columns that the anchor does not fix |
| FlatWhen.FilteredFactStillCounts | emitter/stitched.go:690-702 | A fact whose only dimension row fails the filter counts under NULL |
| FlatWhen.NullLinkIsNotFollowed | emitter/stitched.go:685-702 | A key two links beyond a fact differs for a fact without a bridge row |
| ValueRows.FixedRows | emitter/stitched.go:547-662 | Where every flat table is entered through a key, grouped by one, or holds the key the value table hangs off, a value row and a cell leave room for one joined row |
| ValueRows.CellRowsAreOwn | emitter/stitched.go:547-736 | Then, with chains that carry keys only, the rows the clause groups under a cell show the cell's own rows of the value table, each once, NULL keys included |
| ValueRowsWhen.ValueRowsAreOwnWhen | emitter/stitched.go:179-736 | The clause shows each cell its own value rows, each once, for all data with unique keys and all predicates exactly when both conditions hold |
| ValueRowsWhen.FactRootedIsOwn | emitter/stitched.go:547-736 | In the usual case - rooted at the one value table, one-way steps from the many side to the one side - each cell shows its own value rows, each once, for all data |
| ValueRowsWhen.NoRowIsLostWhen | emitter/stitched.go:179-201 | Every value row is in some joined row for all data exactly when the value table is the root |
| ValueRowsWhen.EveryRowShowsWhen | emitter/emitter.go:484-486 | Every joined row, which COUNT(*) counts, shows a value row for all data exactly when the value table is the root |
| ValueRowsWhen.RepeatedMembershipCountsTwice | executor/stitched_test.go:98-116 | Rooted at the clubs, a club with two memberships of one customer has that customer's one sale twice in its cell |
| ValueRowsWhen.ClubIsFlat | emitter/stitched.go:629-663 | The splitter does leave every step of that path flat |
| ValueRowsWhen.ClubContextIsNotFixed | emitter/contextcte.go:394 | Nor does the clause of a context CTE that joins the clubs flat from the sales meet the condition |
| ContextRows.ContextRowsAreOwn | emitter/contextcte.go:385-428 | Where the keys a CALCULATE leaves in force fix the rows of its clause, the rows of a cell's modified context show the value rows that context leads to, each once |
| ContextRows.ContextShowsOwnWhen | emitter/contextcte.go:394 | A clause without group chains shows a cell its own value rows, each once, for all data exactly when every flat table's row is fixed so |
| ContextRows.ContextHasNoChains | emitter/contextcte.go:394 | The clause of a context CTE has no group chains, since no key is announced to the splitter |
| ContextRows.KeptKeysAre | emitter/filterctx.go:419-443 | The group keys that stay in force in a context are those KeptFilters keeps |
| Subtotals.SettledCountsOnce | emitter/stitched.go:532-700 | A subtotal whose dropped keys are determined groups the flat rows that count in one of its cells, each once |
| SubtotalWhen.SubtotalCountsOnceWhen | emitter/stitched.go:264-335 | It does so for all data exactly when every key it drops from a chain is determined by the anchor and the kept keys |
| SubtotalWhen.LevelGroups | emitter/rollup.go:80-105 | The group of a grouping set is the subtotal over that set's keys |
| SubtotalWhen.RollupCountsOnceWhen | emitter/rollup.go:80-105 | All levels of a rollup count each joined row once, for all data, exactly when the plain keys determine the keys the chains carry |
| SubtotalWhen.TotalCountsTwice | emitter/stitched.go:264-335 | A fact with two categories beyond a bridge is aggregated twice by the grand total |
| LevelRows.LevelRowsAreOwn | emitter/rollup.go:80-105 | Where the dropped keys are determined and the level's keys fix the rows, the group of a rollup level shows its own value rows, each once |
| Calculate.CalcModifiers.ClassifyCalcArg | emitter/filterctx.go:113-165 | Adds one argument's removals and predicates, or rejects it, branch by branch |
| Calculate.CalcModifiers.ClassifyCalcArgs | emitter/filterctx.go:99-111 | The sum over all arguments, or an error exactly when one is malformed |
| Calculate.CalcModifiers.ClassifyAllArgs | emitter/filterctx.go:168-193 | ALL and REMOVEFILTERS: everything, tables, or columns |
| Calculate.CalcModifiers.ClassifyAllExcept | emitter/filterctx.go:197-215 | ALLEXCEPT: a table cleared, the listed columns spared |
| Calculate.CalcModifiers.KeptFilters | emitter/filterctx.go:419-443 | The group keys and outer predicates that neither a removal nor an override takes away, in order; KeptMeans says which these are, argument by argument |
| Calculate.CalcModifiers.TakesFastPath | emitter/filterctx.go:412-414 | Taken when nothing is removed and no predicate touches a group key |
| Calculate.EffectsMean | emitter/filterctx.go:69-85 | The fields of the modifiers, argument by argument: what is named, what is cleared by table, what is spared, what is replaced |
| Calculate.RemovedMeans | emitter/filterctx.go:69-85 | A filter is removed exactly when some argument names its column, or some argument clears its table and none spares the column |
| Calculate.KeptMeans | emitter/filterctx.go:419-443 | A group key stays, in order, exactly when it is neither cleared so nor mentioned by a replacing predicate; likewise an outer predicate with a column, while one with a table alone is only cleared and one without stays |
| Calculate.PredicatesMean | emitter/filterctx.go:113-165 | The predicates applied are those the arguments ask for; those that replace filters are the plain ones and the conditions of FILTER over ALL, the others are additive |
| Calculate.LoneRemovals | emitter/filterctx.go:168-215 | ALL() leaves no key, ALL(T) those of other tables, ALLEXCEPT(T, ...) these and the listed columns |
| Calculate.LonePredicates | emitter/filterctx.go:113-165 | A predicate leaves the keys it does not mention, KEEPFILTERS and FILTER over the context leave all |
| Calculate.LoneTimeRanges | emitter/filterctx.go:145-160 | A time function leaves the keys outside a designated date table, or all but its date column |
| Calculate.RemovalsAddUpWhen | emitter/filterctx.go:73-85 | The arguments clear a column together exactly when one of them does alone, unless one spares it, another clears its table and none names it |
| Calculate.SparedFromOthers | emitter/filterctx.go:197-215 | ALL(T) beside ALLEXCEPT(T, T[C]) leaves the filter on T[C] in force |
| Calculate.ArgumentOrderIsFree | emitter/filterctx.go:99-443 | Kept keys and kept outer predicates do not depend on the order of the arguments |
| Calculate.SubqueryMeans | emitter/filterctx.go:401-443 | CALCULATE aggregates exactly the joined rows that meet every predicate its arguments ask for, every outer predicate and every group key that they neither clear nor replace |
| Calculate.FilterFormIsSubquery | emitter/filterctx.go:401-688 | Where no outer predicate is replaced, the aggregate FILTER form aggregates the rows of the general subquery |
| Calculate.FastPathIsRightWhen | emitter/filterctx.go:412-443 | The fast path is right for all data exactly when no outer predicate is on a column the predicates mention |
| MeasurePlan.AggSubtrees | emitter/cluster.go:185-207 | The maximal aggregate calls in document order |
| MeasurePlan.SubtreesInOrder | emitter/cluster.go:185-207 | Those of the operands one after the other |
| MeasurePlan.TablesMean | emitter/cluster.go:315-367 | The tables of an expression are those of its aggregate calls and of the columns outside them |
| MeasurePlan.Planner.Assign | emitter/cluster.go:103-135 | Whole in the cluster of its tables when its aggregates agree and none modifies the context; otherwise every aggregate is lifted into its own cluster |
| MeasurePlan.Planner.PlanMeasures | emitter/cluster.go:73-159 | Every pair and inline measure has exactly one home, one cluster or one split list; a cluster lifts only aggregates of its own tables; clusters are distinct, scalar ones last |
| MeasurePlan.EmitColumns | emitter/stitched.go:130-372 | Every substitution and measure reference points at the CTE column that computes it, in the CTE of a cluster's own tables or context shape, and exactly what the clusters compute has one; the CTEs that define cells are the regular clusters', in order, or one of group keys alone, and there is one context CTE per shape |
| MeasurePlan.EmitContext | emitter/stitched.go:362-371 | Context CTEs of one shape share a CTE with one column per value |
| MeasurePlan.SplitIsWhole | emitter/stitched.go:383-405 | The outer arithmetic is well formed exactly when no column stands outside the aggregates, and then keeps the expression's value |
| MeasurePlan.SplitReadsColumns | emitter/emitter.go:317-324 | In a split measure every aggregate that reads a table or modifies the context is read from a CTE column |
| QueryMeaning.LiftedIsFaithful | emitter/stitched.go:301-372 | The column of a lifted aggregate shows, in every cell of every level, the aggregate over the value rows of its own tables that the relationships lead to the cell, each once, or over those of its modified context |
| QueryMeaning.OutIsMeasure | emitter/stitched.go:301-405 | Every measure, whole, scalar or taken apart, shows in every cell its expression over aggregates that are each over their own value rows in their own context |
| QueryMeaning.QueryIsPerCell | emitter/stitched.go:94-493 | The query returns, at every rollup level, one row for each cell that has rows and, if it asks for measures at all, one that is not BLANK there, and no other, with its flags and every measure as said; without keys and clusters, the one total |
| QueryMeaning.WholeIsExactWhen | emitter/stitched.go:301-314 | A measure evaluated whole is its expression in every cell exactly when the expression is BLANK over BLANK aggregates |
| QueryMeaning.CoalescedSumGoesBlank | emitter/scalarfuncs.go:43 | COALESCE of a sum and 0 is not |
| Resolver.Pass.Visit | semantic/resolver.go:169-191 | Three-colour visit: success finishes the measure after everything it refers to; a failure is a broken reference or a measure that reaches itself, below it |
| Resolver.Pass.VisitTop | semantic/resolver.go:169-191 | Succeeds exactly when nothing the measure reaches is broken or circular |
| Resolver.Pass.ResolveMeasureRef | semantic/resolver.go:205-239 | A measure reference is recorded and visited; a bare name must be a unique measure; any other qualified one a known column |
| Resolver.Pass.ResolveColRef | semantic/resolver.go:399-454 | Query references: VAR tables first, measures before columns, bare output columns only where allowed; succeeds exactly for a column, a measure with nothing broken or circular below it, a name a VAR hides, or an unknown bare name where output columns are allowed |
| Resolver.Pass.Resolve | semantic/resolver.go:49-79 | Succeeds exactly when every defined measure is healthy and every occurrence of the query is such; then every reference is recorded as what it means or hidden by a VAR, and recorded measures are finished after all they refer to; every error names a fault of the query: an unknown, ambiguous or misplaced reference, a broken measure or one that depends on itself |
| Resolver.BareNamesStand | semantic/resolver.go:370-415 | An unknown bare name may stand in FILTER's condition and from TOPN's third argument on, however deep, and nowhere else |
| Resolver.Pass.FinishedIsSound | semantic/resolver.go:167-191 | Below a finished measure nothing is broken and nothing is cyclic |
| Resolver.ExpandIsMeasureFree | emitter/context.go:198-225 | After a successful pass, and by what the pass recorded alone, inline expansion terminates and leaves no measure reference that no VAR hides |
| Resolver.ExpandKeepsValue | emitter/context.go:198-225 | Inlining keeps the value of every expression, whatever the operators, functions and columns mean, when each measure has the value of its definition |
| Resolver.MeasuresHaveValues | semantic/resolver.go:167-191 | Finished measures do have such values |
| Resolver.ExpansionIsTheValue | emitter/context.go:198-225 | So after a successful pass the expanded query, which reads no measure, has the value the definitions give it |
| ExternalFilters.Predicate | executor/extfilter.go:402-454 | The expression built for each kind of filter |
| ExternalFilters.ComparisonKeeps | executor/extfilter.go:424-454 | A membership, range, substring or comparison filter keeps exactly the rows whose column passes it; NULL passes none but a substring search that finds something |
| ExternalFilters.FilterArg | executor/extfilter.go:457-486 | TREATAS for membership, FILTER otherwise |
| ExternalFilters.GroupingIsFree | executor/extfilter.go:382-399 | A chain of one boolean operator means the same however it is grouped |
| ExternalFilters.FilterNeedsNoPrecedence | executor/extfilter.go:376-486 | Every operator chain built, at every level, uses one operator only |
| ExternalFilters.MembershipFormsAgree | emitter/emitter.go:843-897 | The argument built for a filter - a TREATAS for membership - is the same condition as its OR/AND expression, in three-valued logic |
| ExternalFilters.TupleFilterKeeps | executor/extfilter.go:406-423 | A tuple filter keeps a row exactly when one of its tuples is the row's |
| ExternalFilters.InjectSummarizeArgs | executor/extfilter.go:524-540 | Inserts the filters before the first plain string literal |
| ExternalFilters.AddedAreFilters | executor/extfilter.go:402-540 | The k-th argument added lets exactly the rows through that pass the k-th filter, as its author reads it |
| ExternalFilters.InjectionKeepsPairs | emitter/emitter.go:1642-1649 | The pairs stay and the group position gains exactly the filters, if and only if the first argument that starts with a string literal is that literal alone |
| ExternalFilters.InjectionBreaksPairs | executor/extfilter.go:524-540 | A name that is an expression: the filter lands behind the pairs |

## Left out

- SQL text: identifier quoting, aliases, textual operator precedence of inlined measure bodies, and the database itself.
- Table-name matching across case and qualifiers: identifiers are resolved before the model starts.
- Predicates that read several tables: each is tagged with one, and the flat reading lets it read that one only.
- LEFT JOIN chains of an anchor scan: its rows and their key columns are given, its predicates are not.
- POST /import as a step on the live graph: it reloads without validating (cmd/duxd/main.go:632-640).
- File copying, hashing, Parquet inspection, timeouts, maintenance history rows, and writers of the lake outside the service.
- A metadata write that fails while the process lives: a write succeeds or the process crashes.
- Errors while recovery lists a table's files: recovery is modelled up to the point where the listing answers.
- Empty endpoint names in relationship requests: identifiers are never empty.
- Re-inferring a join path after a leaf was detached: the code does not promise the old path minus the leaf.
- The correlated anchor form for NULL keys, and LASTNONBLANK's inner query: anchors are functions of the scanned rows.
- A bidirectional edge between the facts and a detached date table, and carried keys a scan provides for another table in the bridge form.
- Routing of outer predicates to clusters beyond FilterReaches, and the choice of a cluster's first table.
- Row-context frames (ADDCOLUMNS, iterators) in CALCULATE, and the table list of its subquery: both forms are compared over the same joined rows.
- Which calls count as aggregates, and the table sets they read: given to the planner as facts.
- Table shapes, function arities and source positions in the resolver.
- Validation and literal coercion of external filters, and the walk to the SUMMARIZECOLUMNS call: filters arrive validated.
- Editing syntax trees in place: argument lists are values that the methods return.
- The grammar and lexer, TOML, HTTP, dashboards, and the user interface: they would only add easy members.
- Data: a relationship's one side is unique and rows of a table are told apart (two memberships that read alike are two rows); the table an aggregate takes its rows from is given.
- CALCULATE beside ROLLUPADDISSUBTOTAL, where the emitter keeps a correlated subquery and plans no context CTEs.
- QueryMeaning.QueryIsPerCell: assumes the exact conditions found above - chains that carry keys only, dropped keys determined by the plain ones, fixed rows, scans that see the cell, and a value table at the root for COUNT(*) - and takes contexts in the anchor form, to which DateBridge reduces the other.
- Resolver.ExpandIsMeasureFree: expansion leaves value lists { ... } as they are; the pass records the references in a query's own value lists and skips those in measure bodies.
- ImportProtocol.NextKeeps: a lake commit that takes effect and reports an error is no event of its runs; LostCommitIsForgotten says what it leads to.
