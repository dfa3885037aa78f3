/** What the import protocol gets done when nothing disturbs it: imports of any number of files succeed, bad
  * ones leave no trace, maintenance ends, and a start recovers what a crash left behind. */
module ImportRuns {
  import opened ImportProtocol
  import opened ImportRecovery

  // ---- imports that nothing disturbs ----

  /** The events of an import of these files, from the request to the release of the lock. */
  function Staging(id: Id, shas: seq<Sha>): seq<Event> {
    if shas == [] then [] else Staging(id, shas[..|shas| - 1]) + [CopyFile(id, shas[|shas| - 1])]
  }

  function Repeated(e: Event, n: nat): seq<Event> {
    if n == 0 then [] else Repeated(e, n - 1) + [e]
  }

  function Import(id: Id, key: nat, hash: nat, table: TableName, shas: seq<Sha>): seq<Event> {
    [StartImport(id, key, hash, table, |shas|)] + Staging(id, shas) + [BeginRecording(id)]
      + Repeated(RecordReceipt(id), |shas| + 1) + [Commit(id), WriteStatus(id), PublishJob(id), Release(id)]
  }

  ghost predicate Idle(s: State) {
    s.proc.Up? && !s.proc.locked && s.proc.active == map[]
  }

  /** No two files of the import are the same, and none is known for the table. */
  ghost predicate AllNew(d: Store, table: TableName, shas: seq<Sha>) {
    && (forall i, j :: 0 <= i < j < |shas| ==> shas[i] != shas[j])
    && forall i :: 0 <= i < |shas| ==> !ShaTaken(d.receipts, table, shas[i])
  }

  /** The job holds the lock, its row is in, and it is the only change to the stores but for the receipts. */
  ghost predicate Working(was: State, s: State, id: Id, row: Row, phase: Phase, receipts: set<Receipt>) {
    && was.proc.Up? && s.proc.Up? && s.proc.locked && s.proc.active == map[id := phase]
    && s.proc.jobs == was.proc.jobs[id := Running]
    && s.store == Store(was.store.rows[id := row], was.store.receipts + receipts, was.store.files, was.store.log)
  }

  ghost function ReceiptsUpTo(id: Id, table: TableName, shas: seq<Sha>, n: nat): set<Receipt>
    requires n <= |shas|
  {
    set k | 0 <= k < n :: Receipt(id, k, table, shas[k])
  }

  /** A copy fails only for content that the import has already or that the table knows. */
  lemma CopyFailsOnlyFor(s: State, id: Id, sha: Sha)
    requires In(s, id) && id in s.store.rows && PhaseOf(s, id).Copying? && |PhaseOf(s, id).copied| < s.store.rows[id].files
    ensures Next(s, CopyFile(id, sha)).store == s.store && In(Next(s, CopyFile(id, sha)), id)
    ensures var phase, known := PhaseOf(Next(s, CopyFile(id, sha)), id), exists r :: r in s.store.receipts && r.table == s.store.rows[id].table && r.sha == sha;
      phase == if sha in PhaseOf(s, id).copied || known then Failing else Copying(PhaseOf(s, id).copied + [sha])
  {
  }

  lemma StepWorks(was: State, s: State, id: Id, row: Row, phase: Phase, receipts: set<Receipt>, e: Event, after: Phase)
    requires Working(was, s, id, row, phase, receipts) && row.status == Running
    requires match phase
      case Copying(copied) =>
        || (e.CopyFile? && e.id == id && |copied| < row.files && e.sha !in copied
            && !ShaTaken(was.store.receipts + receipts, row.table, e.sha) && after == Copying(copied + [e.sha]))
        || (e == BeginRecording(id) && |copied| == row.files && after == Recording(copied, 0))
      case Recording(copied, done) => e == RecordReceipt(id) && done >= |copied| && after == Ready(copied)
      case _ => false
    ensures Working(was, Next(s, e), id, row, after, receipts)
  {
  }

  lemma RunOneMore(s: State, es: seq<Event>, e: Event)
    ensures Run(s, es + [e]) == Next(Run(s, es), e)
  {
    hide Next;
    RunConcat(s, es, [e]);
    RunOne(Run(s, es), e);
  }

  lemma FrontIsNew(d: Store, table: TableName, shas: seq<Sha>)
    requires shas != [] && AllNew(d, table, shas)
    ensures AllNew(d, table, shas[..|shas| - 1])
    ensures shas[|shas| - 1] !in shas[..|shas| - 1] && !ShaTaken(d.receipts, table, shas[|shas| - 1])
  {
  }

  lemma {:induction false} StagingWorks(was: State, s: State, id: Id, row: Row, shas: seq<Sha>)
    requires Working(was, s, id, row, Copying([]), {}) && row.status == Running && |shas| <= row.files && AllNew(was.store, row.table, shas)
    ensures Working(was, Run(s, Staging(id, shas)), id, row, Copying(shas), {})
  {
    hide Working, Next;
    if shas != [] {
      var front, last := shas[..|shas| - 1], shas[|shas| - 1];
      FrontIsNew(was.store, row.table, shas);
      hide ShaTaken, AllNew, Run;
      StagingWorks(was, s, id, row, front);
      var t := Run(s, Staging(id, front));
      RunOneMore(s, Staging(id, front), CopyFile(id, last));
      assert was.store.receipts + {} == was.store.receipts;
      assert front + [last] == shas;
      StepWorks(was, t, id, row, Copying(front), {}, CopyFile(id, last), Copying(shas));
    }
  }

  lemma ReceiptWorks(was: State, s: State, id: Id, row: Row, shas: seq<Sha>, n: nat)
    requires n < |shas| && Working(was, s, id, row, Recording(shas, n), ReceiptsUpTo(id, row.table, shas, n)) && AllNew(was.store, row.table, shas)
    ensures Working(was, Next(s, RecordReceipt(id)), id, row, Recording(shas, n + 1), ReceiptsUpTo(id, row.table, shas, n + 1))
  {
    var before := ReceiptsUpTo(id, row.table, shas, n);
    assert !ShaTaken(was.store.receipts + before, row.table, shas[n]);
    assert ReceiptsUpTo(id, row.table, shas, n + 1) == before + {Receipt(id, n, row.table, shas[n])};
    assert was.store.receipts + before + {Receipt(id, n, row.table, shas[n])} == was.store.receipts + ReceiptsUpTo(id, row.table, shas, n + 1);
  }

  lemma NoReceipts(id: Id, table: TableName, shas: seq<Sha>)
    ensures ReceiptsUpTo(id, table, shas, 0) == {}
  {
  }

  lemma OneMoreReceipt(was: State, s: State, id: Id, row: Row, shas: seq<Sha>, n: nat)
    requires n < |shas| && AllNew(was.store, row.table, shas)
    requires Working(was, Run(s, Repeated(RecordReceipt(id), n)), id, row, Recording(shas, n), ReceiptsUpTo(id, row.table, shas, n))
    ensures Working(was, Run(s, Repeated(RecordReceipt(id), n + 1)), id, row, Recording(shas, n + 1), ReceiptsUpTo(id, row.table, shas, n + 1))
  {
    hide Working, Next, AllNew, ReceiptsUpTo, Run;
    var es := Repeated(RecordReceipt(id), n);
    RunOneMore(s, es, RecordReceipt(id));
    ReceiptWorks(was, Run(s, es), id, row, shas, n);
  }

  lemma {:induction false} RecordingWorks(was: State, s: State, id: Id, row: Row, shas: seq<Sha>, n: nat)
    requires n <= |shas| && Working(was, s, id, row, Recording(shas, 0), {}) && AllNew(was.store, row.table, shas)
    ensures Working(was, Run(s, Repeated(RecordReceipt(id), n)), id, row, Recording(shas, n), ReceiptsUpTo(id, row.table, shas, n))
  {
    hide Working, Next, AllNew, ReceiptsUpTo;
    if n == 0 {
      NoReceipts(id, row.table, shas);
    } else {
      hide Run;
      RecordingWorks(was, s, id, row, shas, n - 1);
      OneMoreReceipt(was, s, id, row, shas, n - 1);
    }
  }

  /** From Ready the import commits, and ends in success. */
  lemma ReadyEnds(was: State, s: State, id: Id, row: Row, shas: seq<Sha>)
    requires Idle(was) && row.status == Running && Working(was, s, id, row, Ready(shas), ReceiptsUpTo(id, row.table, shas, |shas|))
    ensures var end := Next(Next(Next(Next(s, Commit(id)), WriteStatus(id)), PublishJob(id)), Release(id));
      && Idle(end) && end.proc.jobs == was.proc.jobs[id := Succeeded]
      && end.store.rows == was.store.rows[id := row.(status := Succeeded)]
      && end.store.log == was.store.log + EntriesOf(id, row.table, shas)
      && end.store.receipts == was.store.receipts + ReceiptsUpTo(id, row.table, shas, |shas|)
      && end.store.files == was.store.files + set k | 0 <= k < |shas| :: LakeFile(row.table, Staged(id, k))
  {
    var a := Next(s, Commit(id));
    var b := Next(a, WriteStatus(id));
    assert a.proc.active == map[id := Closing(true)];
    assert a.store.rows == was.store.rows[id := row];
    assert b.proc.active == map[id := Publishing(true)];
    assert b.store == a.store.(rows := was.store.rows[id := row.(status := Succeeded)]);
    hide Working, EntriesOf, ReceiptsUpTo, Register;
    Published(b, id, true);
  }

  lemma Published(s: State, id: Id, ok: bool)
    requires s.proc.Up? && s.proc.active == map[id := Publishing(ok)]
    ensures var end := Next(Next(s, PublishJob(id)), Release(id));
      Idle(end) && end.store == s.store && end.proc.jobs == s.proc.jobs[id := Outcome(ok)]
  {
    var c := Next(s, PublishJob(id));
    assert c.proc.active == map[id := Releasing];
    assert Next(c, Release(id)).proc.active == map[];
  }

  /** From Failing the import ends in failure, and takes its receipts back. */
  lemma FailingEnds(was: State, s: State, id: Id, row: Row, receipts: set<Receipt>)
    requires Idle(was) && row.status == Running && Working(was, s, id, row, Failing, receipts)
    requires (forall r :: r in receipts ==> r.owner == id) && forall r :: r in was.store.receipts ==> r.owner != id
    ensures var end := Run(s, Failure(id));
      && Idle(end) && end.proc.jobs == was.proc.jobs[id := Failed]
      && end.store == was.store.(rows := was.store.rows[id := row.(status := Failed)])
  {
    FourSteps(s, DropReceipts(id), WriteStatus(id), PublishJob(id), Release(id));
    var a := Next(s, DropReceipts(id));
    var b := Next(a, WriteStatus(id));
    assert a.proc.active == map[id := Closing(false)];
    assert a.store.receipts == was.store.receipts;
    assert b.proc.active == map[id := Publishing(false)];
    assert b.store == was.store.(rows := was.store.rows[id := row.(status := Failed)]);
    Published(b, id, false);
  }

  lemma FourSteps(s: State, a: Event, b: Event, c: Event, d: Event)
    ensures Run(s, [a, b, c, d]) == Next(Next(Next(Next(s, a), b), c), d)
  {
    hide Next;
    assert [a, b, c, d] == [a] + ([b] + ([c] + [d]));
    RunConcat(s, [a], [b] + ([c] + [d]));
    RunOne(s, a);
    RunConcat(Next(s, a), [b], [c] + [d]);
    RunOne(Next(s, a), b);
    RunConcat(Next(Next(s, a), b), [c], [d]);
    RunOne(Next(Next(s, a), b), c);
    RunOne(Next(Next(Next(s, a), b), c), d);
  }

  /** Any number of new files is imported: an import under a new id and key that nothing disturbs succeeds,
    * registers every one of its files, in order, leaves a receipt for each, and changes no other row. */
  lemma ImportSucceeds(s: State, id: Id, key: nat, hash: nat, table: TableName, shas: seq<Sha>)
    requires Idle(s) && id !in s.store.rows && !KeyTaken(s.store.rows, key) && shas != [] && AllNew(s.store, table, shas)
    ensures var end := Run(s, Import(id, key, hash, table, shas));
      && Idle(end) && end.proc.jobs == s.proc.jobs[id := Succeeded]
      && end.store.rows == s.store.rows[id := Row(key, hash, table, |shas|, Succeeded)]
      && end.store.log == s.store.log + EntriesOf(id, table, shas)
      && end.store.receipts == s.store.receipts + ReceiptsUpTo(id, table, shas, |shas|)
      && end.store.files == s.store.files + set k | 0 <= k < |shas| :: LakeFile(table, Staged(id, k))
  {
    var row, e := Row(key, hash, table, |shas|, Running), RecordReceipt(id);
    var start, finish := StartImport(id, key, hash, table, |shas|), [Commit(id), WriteStatus(id), PublishJob(id), Release(id)];
    var a := Next(s, start);
    assert Working(s, a, id, row, Copying([]), {}) by {
      assert s.store.receipts + {} == s.store.receipts;
    }
    hide Next, Working, AllNew, Idle;
    RunOne(s, start);
    StagingWorks(s, a, id, row, shas);
    var b := Run(a, Staging(id, shas));
    StepWorks(s, b, id, row, Copying(shas), {}, BeginRecording(id), Recording(shas, 0));
    RunOne(b, BeginRecording(id));
    var c := Next(b, BeginRecording(id));
    RecordingWorks(s, c, id, row, shas, |shas|);
    var d := Run(c, Repeated(e, |shas|));
    StepWorks(s, d, id, row, Recording(shas, |shas|), ReceiptsUpTo(id, table, shas, |shas|), e, Ready(shas));
    RunConcat(c, Repeated(e, |shas|), [e]);
    RunOne(d, e);
    var r := Next(d, e);
    FourSteps(r, Commit(id), WriteStatus(id), PublishJob(id), Release(id));
    ReadyEnds(s, r, id, row, shas);
    assert Run(s, Import(id, key, hash, table, shas)) == Run(r, finish) by {
      RunConcat(s, [start] + Staging(id, shas) + [BeginRecording(id)] + Repeated(e, |shas| + 1), finish);
      RunConcat(s, [start] + Staging(id, shas) + [BeginRecording(id)], Repeated(e, |shas| + 1));
      RunConcat(s, [start] + Staging(id, shas), [BeginRecording(id)]);
      RunConcat(s, [start], Staging(id, shas));
    }
  }

  /** An import with a file it has already, or that its table knows, fails at that file, and leaves nothing
    * behind but its row. */
  lemma ImportFails(s: State, id: Id, key: nat, hash: nat, table: TableName, files: nat, shas: seq<Sha>, bad: Sha)
    requires StoreOk(s.store) && Idle(s) && id !in s.store.rows && !KeyTaken(s.store.rows, key)
    requires |shas| < files && AllNew(s.store, table, shas) && (bad in shas || ShaTaken(s.store.receipts, table, bad))
    ensures var end := Run(s, [StartImport(id, key, hash, table, files)] + Staging(id, shas) + [CopyFile(id, bad)] + Failure(id));
      && Idle(end) && end.proc.jobs == s.proc.jobs[id := Failed]
      && end.store == s.store.(rows := s.store.rows[id := Row(key, hash, table, files, Failed)])
  {
    var row, start := Row(key, hash, table, files, Running), StartImport(id, key, hash, table, files);
    var a := Next(s, start);
    assert Working(s, a, id, row, Copying([]), {}) by {
      assert s.store.receipts + {} == s.store.receipts;
    }
    RunOne(s, start);
    RunConcat(s, [start] + Staging(id, shas) + [CopyFile(id, bad)], Failure(id));
    RunConcat(s, [start] + Staging(id, shas), [CopyFile(id, bad)]);
    RunConcat(s, [start], Staging(id, shas));
    StagingWorks(s, a, id, row, shas);
    var b := Run(a, Staging(id, shas));
    RunOne(b, CopyFile(id, bad));
    BadCopyFails(s, b, id, row, shas, bad);
    hide Run, Next, Working, AllNew, Failure;
    FailingEnds(s, Next(b, CopyFile(id, bad)), id, row, {});
  }

  lemma BadCopyFails(was: State, s: State, id: Id, row: Row, shas: seq<Sha>, bad: Sha)
    requires Working(was, s, id, row, Copying(shas), {}) && |shas| < row.files && (bad in shas || ShaTaken(was.store.receipts, row.table, bad))
    ensures Working(was, Next(s, CopyFile(id, bad)), id, row, Failing, {})
  {
    assert was.store.receipts + {} == was.store.receipts;
  }

  /** Maintenance that nothing disturbs rewrites the listed files, under the lock, and nothing else. */
  lemma MaintenanceRewrites(s: State, id: Id, gone: set<LakeFile>, made: set<nat>)
    requires Idle(s) && id !in s.store.rows
    ensures var locked := Next(s, StartMaintenance(id));
      && locked.proc.Up? && locked.proc.locked && locked.store == s.store
      && forall other, key, hash, table, files :: Next(locked, StartImport(other, key, hash, table, files)) == locked
    ensures var end := Run(s, [StartMaintenance(id), Compact(id, gone, made), FinishMaintenance(id), Release(id)]);
      && Idle(end) && end.proc.jobs == s.proc.jobs
      && end.store.rows == s.store.rows && end.store.receipts == s.store.receipts && end.store.log == s.store.log
      && (forall f :: f in s.store.files && f !in gone ==> f in end.store.files)
      && (forall f :: f in end.store.files ==> f in s.store.files - gone || (f.path.Merged? && f.path.serial in made))
  {
    FourSteps(s, StartMaintenance(id), Compact(id, gone, made), FinishMaintenance(id), Release(id));
    var a := Next(s, StartMaintenance(id));
    var b := Next(a, Compact(id, gone, made));
    var c := Next(b, FinishMaintenance(id));
    assert a.proc.active == map[id := Maintaining];
    assert c.proc.active == map[id := Releasing];
    assert Next(c, Release(id)).proc.active == map[];
  }

  // ---- a start that nothing disturbs ----

  function Recovery(n: nat): seq<Event> {
    if n == 0 then [] else [CheckInterrupted, MarkInterrupted] + Recovery(n - 1)
  }

  function Restart(todo: seq<Id>): seq<Event> {
    [Boot(todo)] + Recovery(|todo|) + [BootDone]
  }

  lemma CheckedNext(s: State)
    requires s.proc.Booting? && s.proc.verdict.Unchecked? && s.proc.todo != [] && s.proc.todo[0] in s.store.rows
    ensures var t := Next(s, CheckInterrupted);
      t.proc.Booting? && t.proc.todo == s.proc.todo && t.proc.verdict.Checked? && t.store.rows == s.store.rows
  {
  }

  lemma MarkedNext(s: State)
    requires s.proc.Booting? && s.proc.verdict.Checked? && s.proc.todo != [] && s.proc.todo[0] in s.store.rows
    ensures Next(s, MarkInterrupted).proc == Booting(s.proc.todo[1..], Unchecked)
  {
  }

  lemma FirstIsInterrupted(s: State)
    requires Inv(s) && s.proc.Booting? && s.proc.todo != []
    ensures s.proc.todo[0] in s.store.rows
  {
    assert s.proc.todo[0] in RunningIds(s.store.rows);
  }

  lemma OneRecovered(s: State)
    requires Inv(s) && s.proc.Booting? && s.proc.verdict.Unchecked? && s.proc.todo != []
    ensures var t := Run(s, [CheckInterrupted, MarkInterrupted]);
      Inv(t) && t.proc == Booting(s.proc.todo[1..], Unchecked) && Recovered(t.store) == Recovered(s.store)
  {
    hide Inv, Recovered, Next, Run;
    FirstIsInterrupted(s);
    CheckedNext(s);
    var a := Next(s, CheckInterrupted);
    MarkedNext(a);
    NextKeeps(s, CheckInterrupted);
    NextKeeps(a, MarkInterrupted);
    RecoveryStepKeeps(s, CheckInterrupted);
    RecoveryStepKeeps(a, MarkInterrupted);
    RunOne(s, CheckInterrupted);
    RunLast(s, [CheckInterrupted], MarkInterrupted);
    assert [CheckInterrupted] + [MarkInterrupted] == [CheckInterrupted, MarkInterrupted];
  }

  lemma {:induction false} RecoveryRuns(s: State, n: nat)
    requires Inv(s) && s.proc.Booting? && s.proc.verdict.Unchecked? && |s.proc.todo| == n
    ensures var t := Run(s, Recovery(n)); Inv(t) && t.proc == Booting([], Unchecked) && Recovered(t.store) == Recovered(s.store)
    decreases n
  {
    hide Inv, Recovered, Next;
    if n > 0 {
      OneRecovered(s);
      var pair := [CheckInterrupted, MarkInterrupted];
      RecoveryRuns(Run(s, pair), n - 1);
      RunConcat(s, pair, Recovery(n - 1));
    }
  }

  lemma BootNext(s: State, todo: seq<Id>)
    requires s.proc.Down? && Lists(todo, RunningIds(s.store.rows))
    ensures Next(s, Boot(todo)) == State(s.store, Booting(todo, Unchecked))
  {
  }

  lemma DoneNext(s: State)
    requires s.proc == Booting([], Unchecked)
    ensures Next(s, BootDone) == State(s.store, Up(false, map[], map[]))
  {
  }

  /** A start that nothing disturbs brings the process up, idle, with every interrupted import recovered. */
  lemma RestartSucceeds(es: seq<Event>, todo: seq<Id>)
    requires var s := Run(INITIAL, es); s.proc.Down? && Lists(todo, RunningIds(s.store.rows))
    ensures var up := Run(INITIAL, es + Restart(todo));
      Idle(up) && up.proc.jobs == map[] && up.store == Recovered(Run(INITIAL, es).store)
  {
    hide Inv, Next, Recovered, Run, Lists;
    var s := Run(INITIAL, es);
    RunKeeps(es);
    NextKeeps(s, Boot(todo));
    BootNext(s, todo);
    var a := Next(s, Boot(todo));
    RecoveryRuns(a, |todo|);
    var b := Run(a, Recovery(|todo|));
    RecoveryStepKeeps(b, BootDone);
    DoneNext(b);
    RunConcat(INITIAL, es, Restart(todo));
    RunConcat(s, [Boot(todo)] + Recovery(|todo|), [BootDone]);
    RunConcat(s, [Boot(todo)], Recovery(|todo|));
    RunOne(s, Boot(todo));
    RunOne(b, BootDone);
  }
}
