/** The controlled import protocol of the DuckLake service as a step machine.
  *
  * Two stores share no transaction: the metadata database (job rows and file receipts) and
  * the lake (registered data files).  One process lock covers imports and maintenance.  Every
  * durable write is one step, so a crash can fall between any two of them. */
module ImportProtocol {
  type Id = nat
  type Sha = nat
  type TableName = nat

  datatype Status = Running | Succeeded | Failed

  /** A job row; `id` is its primary key and `key` is unique. */
  datatype Row = Row(key: nat, hash: nat, table: TableName, files: nat, status: Status)

  /** A file receipt; (table, sha) is unique.  The staged copy of file number `index` lives in the
    * import's own directory. */
  datatype Receipt = Receipt(owner: Id, index: nat, table: TableName, sha: Sha)

  datatype Path = Staged(owner: Id, index: nat) | Merged(serial: nat)

  datatype LakeFile = LakeFile(table: TableName, path: Path)

  /** One registration in the lake, as history remembers it. */
  datatype Entry = Entry(owner: Id, table: TableName, sha: Sha)

  /** Where a job that holds the lock stands. */
  datatype Phase =
    | Copying(copied: seq<Sha>)
    | Recording(copied: seq<Sha>, done: nat)
    | Ready(copied: seq<Sha>)
    | Failing
    | Closing(ok: bool)
    | Publishing(ok: bool)
    | Maintaining
    | Releasing

  datatype Process =
    | Down
    | Booting(todo: seq<Id>, verdict: Verdict)
    | Up(locked: bool, active: map<Id, Phase>, jobs: map<Id, Status>)

  /** The outcome of checking the first interrupted import, until it is written. */
  datatype Verdict = Unchecked | Checked(registered: bool)

  /** The durable state: both databases, and the lake's registrations as history remembers them. */
  datatype Store = Store(rows: map<Id, Row>, receipts: set<Receipt>, files: set<LakeFile>, log: seq<Entry>)

  datatype State = State(store: Store, proc: Process)

  const INITIAL := State(Store(map[], {}, {}, []), Down)

  datatype Event =
    | StartImport(id: Id, key: nat, hash: nat, table: TableName, files: nat)
    | CopyFile(id: Id, sha: Sha)
    | StageError(id: Id)
    | BeginRecording(id: Id)
    | RecordReceipt(id: Id)
    | RunError(id: Id)
    | Commit(id: Id)
    | DropReceipts(id: Id)
    | WriteStatus(id: Id)
    | PublishJob(id: Id)
    | Release(id: Id)
    | StartMaintenance(id: Id)
    | Compact(id: Id, gone: set<LakeFile>, made: set<nat>)
    | FinishMaintenance(id: Id)
    | Crash
    | Boot(todo: seq<Id>)
    | CheckInterrupted
    | MarkInterrupted
    | BootDone

  // ---- durable writes ----

  ghost predicate KeyTaken(rows: map<Id, Row>, key: nat) {
    exists i :: i in rows && rows[i].key == key
  }

  ghost predicate ShaTaken(receipts: set<Receipt>, table: TableName, sha: Sha) {
    exists r :: r in receipts && r.table == table && r.sha == sha
  }

  ghost function ReceiptsOf(receipts: set<Receipt>, id: Id): set<Receipt> {
    set r | r in receipts && r.owner == id
  }

  ghost function RunningIds(rows: map<Id, Row>): set<Id> {
    set i | i in rows && rows[i].status == Running
  }

  /** Every receipt of the import names a listed file, and there is one. */
  ghost predicate AllListed(receipts: set<Receipt>, files: set<LakeFile>, id: Id) {
    && (exists r :: r in receipts && r.owner == id)
    && forall r :: r in receipts && r.owner == id ==> LakeFile(r.table, Staged(id, r.index)) in files
  }

  ghost function InsertRow(d: Store, id: Id, row: Row): Store {
    d.(rows := d.rows[id := row])
  }

  ghost function SetStatus(d: Store, id: Id, status: Status): Store
    requires id in d.rows
  {
    d.(rows := d.rows[id := d.rows[id].(status := status)])
  }

  ghost function InsertReceipt(d: Store, r: Receipt): Store {
    d.(receipts := d.receipts + {r})
  }

  ghost function DeleteReceipts(d: Store, id: Id): Store {
    d.(receipts := d.receipts - ReceiptsOf(d.receipts, id))
  }

  ghost function EntriesOf(id: Id, table: TableName, copied: seq<Sha>): seq<Entry> {
    seq(|copied|, k requires 0 <= k < |copied| => Entry(id, table, copied[k]))
  }

  /** The lake transaction: every copy of the import is registered, or none. */
  ghost function Register(d: Store, id: Id, copied: seq<Sha>): Store
    requires id in d.rows
  {
    var table := d.rows[id].table;
    d.(files := d.files + (set k | 0 <= k < |copied| :: LakeFile(table, Staged(id, k))),
       log := d.log + EntriesOf(id, table, copied))
  }

  /** Compaction replaces listed files by merged ones under new paths. */
  ghost function Rewrite(d: Store, gone: set<LakeFile>, made: set<nat>): Store {
    d.(files := (d.files - gone) + (set f, n | f in d.files && n in made :: LakeFile(f.table, Merged(n))))
  }

  // ---- the steps ----

  ghost predicate In(s: State, id: Id) {
    s.proc.Up? && id in s.proc.active
  }

  ghost function PhaseOf(s: State, id: Id): Phase
    requires In(s, id)
  {
    s.proc.active[id]
  }

  ghost function Goto(s: State, id: Id, phase: Phase): State
    requires s.proc.Up?
  {
    s.(proc := s.proc.(active := s.proc.active[id := phase]))
  }

  /** The state after an event; an event that is not enabled changes nothing. */
  ghost function Next(s: State, e: Event): State {
    var d := s.store;
    match e
    case StartImport(id, key, hash, table, files) =>
      // TryLock, then the row insert with its two uniqueness constraints
      if !s.proc.Up? || files == 0 || s.proc.locked || id in d.rows || KeyTaken(d.rows, key) then s
      else State(InsertRow(d, id, Row(key, hash, table, files, Running)),
                 Up(true, s.proc.active[id := Copying([])], s.proc.jobs[id := Running]))
    case CopyFile(id, sha) =>
      if !(In(s, id) && id in d.rows && PhaseOf(s, id).Copying?) || |PhaseOf(s, id).copied| >= d.rows[id].files then s
      else if sha in PhaseOf(s, id).copied || ShaTaken(d.receipts, d.rows[id].table, sha) then Goto(s, id, Failing)
      else Goto(s, id, Copying(PhaseOf(s, id).copied + [sha]))
    case StageError(id) =>
      if In(s, id) && (PhaseOf(s, id).Copying? || PhaseOf(s, id).Recording?) then Goto(s, id, Failing) else s
    case BeginRecording(id) =>
      if In(s, id) && id in d.rows && PhaseOf(s, id).Copying? && |PhaseOf(s, id).copied| == d.rows[id].files
      then Goto(s, id, Recording(PhaseOf(s, id).copied, 0)) else s
    case RecordReceipt(id) =>
      if !(In(s, id) && id in d.rows && PhaseOf(s, id).Recording?) then s
      else
        var Recording(copied, done) := PhaseOf(s, id);
        if done >= |copied| then Goto(s, id, Ready(copied))
        else if ShaTaken(d.receipts, d.rows[id].table, copied[done]) then Goto(s, id, Failing)
        else State(InsertReceipt(d, Receipt(id, done, d.rows[id].table, copied[done])),
                   Goto(s, id, Recording(copied, done + 1)).proc)
    case RunError(id) =>
      if In(s, id) && PhaseOf(s, id).Ready? then Goto(s, id, Failing) else s
    case Commit(id) =>
      if In(s, id) && id in d.rows && PhaseOf(s, id).Ready?
      then State(Register(d, id, PhaseOf(s, id).copied), Goto(s, id, Closing(true)).proc) else s
    case DropReceipts(id) =>
      if In(s, id) && PhaseOf(s, id).Failing?
      then State(DeleteReceipts(d, id), Goto(s, id, Closing(false)).proc) else s
    case WriteStatus(id) =>
      if In(s, id) && id in d.rows && PhaseOf(s, id).Closing?
      then State(SetStatus(d, id, Outcome(PhaseOf(s, id).ok)), Goto(s, id, Publishing(PhaseOf(s, id).ok)).proc) else s
    case PublishJob(id) =>
      if In(s, id) && PhaseOf(s, id).Publishing?
      then State(d, Up(s.proc.locked, s.proc.active[id := Releasing], s.proc.jobs[id := Outcome(PhaseOf(s, id).ok)])) else s
    case Release(id) =>
      if In(s, id) && PhaseOf(s, id).Releasing? then State(d, Up(false, s.proc.active - {id}, s.proc.jobs)) else s
    case StartMaintenance(id) =>
      if !s.proc.Up? || s.proc.locked || id in d.rows then s
      else State(d, Up(true, s.proc.active[id := Maintaining], s.proc.jobs))
    case Compact(id, gone, made) =>
      if In(s, id) && PhaseOf(s, id).Maintaining? then State(Rewrite(d, gone, made), s.proc) else s
    case FinishMaintenance(id) =>
      if In(s, id) && PhaseOf(s, id).Maintaining? then Goto(s, id, Releasing) else s
    case Crash => State(d, Down)
    case Boot(todo) =>
      if s.proc.Down? && Lists(todo, RunningIds(d.rows)) then State(d, Booting(todo, Unchecked)) else s
    case CheckInterrupted =>
      if !(s.proc.Booting? && s.proc.todo != [] && s.proc.todo[0] in d.rows && s.proc.verdict.Unchecked?) then s
      else
        var id := s.proc.todo[0];
        var registered := AllListed(d.receipts, d.files, id);
        State(if registered then d else DeleteReceipts(d, id), Booting(s.proc.todo, Checked(registered)))
    case MarkInterrupted =>
      if !(s.proc.Booting? && s.proc.todo != [] && s.proc.todo[0] in d.rows && s.proc.verdict.Checked?) then s
      else State(SetStatus(d, s.proc.todo[0], Outcome(s.proc.verdict.registered)), Booting(s.proc.todo[1..], Unchecked))
    case BootDone =>
      if s.proc.Booting? && s.proc.todo == [] then State(d, Up(false, map[], map[])) else s
  }

  function Outcome(ok: bool): Status {
    if ok then Succeeded else Failed
  }

  /** `todo` enumerates `ids`, in any order. */
  ghost predicate Lists(todo: seq<Id>, ids: set<Id>) {
    && (forall i :: i in todo <==> i in ids)
    && (forall i, j :: 0 <= i < j < |todo| ==> todo[i] != todo[j])
  }

  ghost function Run(s: State, es: seq<Event>): State {
    if es == [] then s else Next(Run(s, es[..|es| - 1]), es[|es| - 1])
  }

  // ---- the invariant ----

  ghost predicate Committed(log: seq<Entry>, id: Id) {
    exists i :: 0 <= i < |log| && log[i].owner == id
  }

  ghost predicate RowsOk(d: Store) {
    && (forall i, j :: i in d.rows && j in d.rows && d.rows[i].key == d.rows[j].key ==> i == j)
    && (forall i :: i in d.rows ==> d.rows[i].files > 0)
  }

  ghost predicate ReceiptsOk(d: Store) {
    && (forall r :: r in d.receipts ==> r.owner in d.rows && r.table == d.rows[r.owner].table)
    && (forall r, q :: r in d.receipts && q in d.receipts && r.table == q.table && r.sha == q.sha ==> r == q)
  }

  ghost predicate Receipted(receipts: set<Receipt>, e: Entry) {
    exists r :: r in receipts && r.owner == e.owner && r.table == e.table && r.sha == e.sha
  }

  /** The log holds no registration twice, and each one still has its receipt. */
  ghost predicate LogOk(d: Store) {
    && (forall i, j :: 0 <= i < j < |d.log| ==> d.log[i] != d.log[j])
    && (forall i :: 0 <= i < |d.log| ==> Receipted(d.receipts, d.log[i]) && d.log[i].owner in d.rows)
  }

  /** What a job's status says about the lake. */
  ghost predicate StatusOk(d: Store) {
    && (forall i :: i in d.rows && d.rows[i].status == Succeeded ==> Committed(d.log, i))
    && (forall i :: i in d.rows && d.rows[i].status == Failed ==>
          !Committed(d.log, i) && ReceiptsOf(d.receipts, i) == {})
    && (forall i :: i in d.rows && d.rows[i].status == Running && Committed(d.log, i) ==> AllListed(d.receipts, d.files, i))
  }

  ghost predicate FilesOk(d: Store) {
    forall f :: f in d.files && f.path.Staged? ==> Committed(d.log, f.path.owner)
  }

  ghost predicate StoreOk(d: Store) {
    RowsOk(d) && ReceiptsOk(d) && LogOk(d) && StatusOk(d) && FilesOk(d)
  }

  ghost predicate Uncommitted(d: Store, id: Id) {
    id in d.rows && d.rows[id].status == Running && !Committed(d.log, id)
  }

  /** The receipts of the import are those of the first `done` copies. */
  ghost predicate Recorded(d: Store, id: Id, copied: seq<Sha>, done: nat)
    requires done <= |copied| && id in d.rows
  {
    && (forall k :: 0 <= k < done ==> Receipt(id, k, d.rows[id].table, copied[k]) in d.receipts)
    && (forall r :: r in d.receipts && r.owner == id ==> r.index < done && r.sha == copied[r.index])
  }

  ghost predicate PhaseOk(d: Store, id: Id, phase: Phase) {
    match phase
    case Copying(copied) => Uncommitted(d, id) && |copied| <= d.rows[id].files && ReceiptsOf(d.receipts, id) == {}
    case Recording(copied, done) =>
      && Uncommitted(d, id) && |copied| == d.rows[id].files && done <= |copied|
      && Recorded(d, id, copied, done)
    case Ready(copied) => Uncommitted(d, id) && |copied| == d.rows[id].files && Recorded(d, id, copied, |copied|)
    case Failing => Uncommitted(d, id)
    case Closing(ok) =>
      && id in d.rows && d.rows[id].status == Running && (ok <==> Committed(d.log, id))
      && (!ok ==> ReceiptsOf(d.receipts, id) == {})
    case Publishing(ok) => id in d.rows && d.rows[id].status == Outcome(ok)
    case Maintaining => id !in d.rows
    case Releasing => id in d.rows ==> d.rows[id].status != Running
  }

  /** One job at most holds the lock, and only it can have a running row. */
  ghost predicate LockOk(d: Store, locked: bool, active: map<Id, Phase>) {
    && (locked <==> active != map[])
    && (forall i, j :: i in active && j in active ==> i == j)
    && (forall i :: i in active ==> PhaseOk(d, i, active[i]))
    && (forall i :: i in d.rows && d.rows[i].status == Running ==> i in active)
  }

  /** A finished job in memory is finished in the database, the same way. */
  ghost predicate JobsOk(d: Store, jobs: map<Id, Status>) {
    forall i :: i in jobs && jobs[i] != Running ==> i in d.rows && d.rows[i].status == jobs[i]
  }

  ghost predicate VerdictOk(d: Store, todo: seq<Id>, verdict: Verdict) {
    verdict.Checked? ==>
      && todo != [] && (verdict.registered <==> Committed(d.log, todo[0]))
      && (!verdict.registered ==> ReceiptsOf(d.receipts, todo[0]) == {})
  }

  ghost predicate ProcessOk(d: Store, proc: Process) {
    match proc
    case Down => true
    case Booting(todo, verdict) => Lists(todo, RunningIds(d.rows)) && VerdictOk(d, todo, verdict)
    case Up(locked, active, jobs) => LockOk(d, locked, active) && JobsOk(d, jobs)
  }

  ghost predicate Inv(s: State) {
    StoreOk(s.store) && ProcessOk(s.store, s.proc)
  }

  // ---- each durable write keeps the stores consistent ----

  lemma InsertRowOk(d: Store, id: Id, row: Row)
    requires StoreOk(d) && id !in d.rows && !KeyTaken(d.rows, row.key) && row.files > 0 && row.status == Running
    ensures StoreOk(InsertRow(d, id, row)) && Uncommitted(InsertRow(d, id, row), id)
    ensures ReceiptsOf(d.receipts, id) == {}
  {
    var n := InsertRow(d, id, row);
  }

  lemma InsertReceiptOk(d: Store, r: Receipt)
    requires StoreOk(d) && Uncommitted(d, r.owner) && r.table == d.rows[r.owner].table
    requires !ShaTaken(d.receipts, r.table, r.sha)
    ensures StoreOk(InsertReceipt(d, r)) && Uncommitted(InsertReceipt(d, r), r.owner)
  {
    var n := InsertReceipt(d, r);
    hide Committed;
    assert forall e: Entry :: Receipted(d.receipts, e) ==> Receipted(n.receipts, e);
    forall i | i != r.owner
      ensures ReceiptsOf(n.receipts, i) == ReceiptsOf(d.receipts, i)
    {
    }
  }

  lemma DeleteReceiptsOk(d: Store, id: Id)
    requires StoreOk(d) && Uncommitted(d, id)
    ensures StoreOk(DeleteReceipts(d, id)) && Uncommitted(DeleteReceipts(d, id), id)
    ensures ReceiptsOf(DeleteReceipts(d, id).receipts, id) == {}
  {
    var n := DeleteReceipts(d, id);
    DeleteKeepsLog(d, id);
    hide LogOk;
    forall i | i != id
      ensures ReceiptsOf(n.receipts, i) == ReceiptsOf(d.receipts, i)
    {
    }
    assert !Committed(n.log, id);
    hide Committed;
  }

  lemma DeleteKeepsLog(d: Store, id: Id)
    requires LogOk(d) && !Committed(d.log, id)
    ensures LogOk(DeleteReceipts(d, id))
  {
    var n := DeleteReceipts(d, id);
    forall i | 0 <= i < |d.log|
      ensures Receipted(n.receipts, d.log[i])
    {
      assert Receipted(d.receipts, d.log[i]) && d.log[i].owner != id;
    }
  }

  lemma RegisterCommits(d: Store, id: Id, copied: seq<Sha>)
    requires id in d.rows && copied != []
    ensures forall i :: Committed(Register(d, id, copied).log, i) <==> Committed(d.log, i) || i == id
  {
    var n := Register(d, id, copied);
    forall i | Committed(d.log, i)
      ensures Committed(n.log, i)
    {
      var k :| 0 <= k < |d.log| && d.log[k].owner == i;
      assert n.log[k].owner == i;
    }
    assert n.log[|d.log|].owner == id;
  }

  lemma RegisterLogOk(d: Store, id: Id, copied: seq<Sha>)
    requires ReceiptsOk(d) && LogOk(d) && Uncommitted(d, id) && Recorded(d, id, copied, |copied|)
    ensures LogOk(Register(d, id, copied))
  {
  }

  lemma RegisterOk(d: Store, id: Id, copied: seq<Sha>)
    requires StoreOk(d) && Uncommitted(d, id) && copied != [] && Recorded(d, id, copied, |copied|)
    ensures StoreOk(Register(d, id, copied))
  {
    hide LogOk, Committed;
    var n, table := Register(d, id, copied), d.rows[id].table;
    RegisterCommits(d, id, copied);
    RegisterLogOk(d, id, copied);
    assert Receipt(id, 0, table, copied[0]) in n.receipts;
    forall i | i in n.rows && i != id && AllListed(d.receipts, d.files, i)
      ensures AllListed(n.receipts, n.files, i)
    {
    }
  }

  lemma SetStatusOk(d: Store, id: Id, ok: bool)
    requires StoreOk(d) && id in d.rows && (ok <==> Committed(d.log, id))
    requires !ok ==> ReceiptsOf(d.receipts, id) == {}
    ensures StoreOk(SetStatus(d, id, Outcome(ok)))
    ensures RunningIds(SetStatus(d, id, Outcome(ok)).rows) == RunningIds(d.rows) - {id}
  {
    hide Committed, Receipted, AllListed, StatusOk;
    var n := SetStatus(d, id, Outcome(ok));
    SetStatusTells(d, id, ok);
    assert RowsOk(n) && ReceiptsOk(n);
  }

  lemma SetStatusTells(d: Store, id: Id, ok: bool)
    requires StatusOk(d) && id in d.rows && (ok <==> Committed(d.log, id))
    requires !ok ==> ReceiptsOf(d.receipts, id) == {}
    ensures StatusOk(SetStatus(d, id, Outcome(ok)))
  {
    hide Committed, AllListed;
  }

  lemma RewriteOk(d: Store, gone: set<LakeFile>, made: set<nat>)
    requires StoreOk(d) && RunningIds(d.rows) == {}
    ensures StoreOk(Rewrite(d, gone, made))
  {
    var n := Rewrite(d, gone, made);
    assert forall i :: i in RunningIds(d.rows) <==> i in d.rows && d.rows[i].status == Running;
  }

  /** For an interrupted import the listing tells exactly whether its transaction committed. */
  lemma ListingTells(d: Store, id: Id)
    requires StoreOk(d) && id in d.rows && d.rows[id].status == Running
    ensures AllListed(d.receipts, d.files, id) <==> Committed(d.log, id)
  {
    if AllListed(d.receipts, d.files, id) {
      var r :| r in d.receipts && r.owner == id;
      assert LakeFile(d.rows[id].table, Staged(id, r.index)) in d.files;
    }
  }

  // ---- each event keeps the invariant ----

  lemma GotoOk(s: State, d: Store, id: Id, phase: Phase)
    requires s.proc.Up? && id in s.proc.active && LockOk(s.store, s.proc.locked, s.proc.active)
    requires PhaseOk(d, id, phase)
    requires forall i :: i in d.rows && d.rows[i].status == Running ==> i == id || (i in s.store.rows && s.store.rows[i].status == Running)
    ensures LockOk(d, Goto(s, id, phase).proc.locked, Goto(s, id, phase).proc.active)
  {
  }

  lemma StartImportKeeps(s: State, e: Event)
    requires Inv(s) && e.StartImport?
    ensures Inv(Next(s, e))
  {
    var n := Next(s, e);
    if n != s {
      hide StoreOk;
      assert n.proc.active == map[e.id := Copying([])] && e.id in n.proc.active;
      InsertRowOk(s.store, e.id, Row(e.key, e.hash, e.table, e.files, Running));
      assert ReceiptsOf(n.store.receipts, e.id) == {};
    }
  }

  lemma StageKeeps(s: State, e: Event)
    requires Inv(s) && (e.CopyFile? || e.StageError? || e.RunError? || e.BeginRecording?)
    ensures Inv(Next(s, e))
  {
    hide StoreOk;
    var n := Next(s, e);
    if n != s {
      assert forall r :: r in s.store.receipts && r.owner == e.id ==> r in ReceiptsOf(s.store.receipts, e.id);
      GotoOk(s, s.store, e.id, n.proc.active[e.id]);
    }
  }

  lemma RecordKeeps(s: State, e: Event)
    requires Inv(s) && e.RecordReceipt?
    ensures Inv(Next(s, e))
  {
    hide StoreOk;
    var n := Next(s, e);
    if n != s {
      if n.store != s.store {
        var Recording(copied, done) := PhaseOf(s, e.id);
        var r := Receipt(e.id, done, s.store.rows[e.id].table, copied[done]);
        InsertReceiptOk(s.store, r);
        assert Recorded(n.store, e.id, copied, done + 1);
      }
      GotoOk(s, n.store, e.id, n.proc.active[e.id]);
    }
  }

  lemma CommitKeeps(s: State, e: Event)
    requires Inv(s) && e.Commit?
    ensures Inv(Next(s, e))
  {
    var n := Next(s, e);
    if n != s {
      var copied := PhaseOf(s, e.id).copied;
      assert copied != [] by {
        assert s.store.rows[e.id].files > 0;
      }
      hide StoreOk;
      RegisterOk(s.store, e.id, copied);
      RegisterCommits(s.store, e.id, copied);
      GotoOk(s, n.store, e.id, Closing(true));
    }
  }

  lemma DropKeeps(s: State, e: Event)
    requires Inv(s) && e.DropReceipts?
    ensures Inv(Next(s, e))
  {
    hide StoreOk;
    var n := Next(s, e);
    if n != s {
      DeleteReceiptsOk(s.store, e.id);
      GotoOk(s, n.store, e.id, Closing(false));
    }
  }

  lemma FinishKeeps(s: State, e: Event)
    requires Inv(s) && (e.WriteStatus? || e.PublishJob? || e.Release?)
    ensures Inv(Next(s, e))
  {
    hide StoreOk;
    var n := Next(s, e);
    if n != s {
      if e.WriteStatus? {
        SetStatusOk(s.store, e.id, PhaseOf(s, e.id).ok);
        GotoOk(s, n.store, e.id, Publishing(PhaseOf(s, e.id).ok));
        assert JobsOk(n.store, n.proc.jobs);
      } else if e.PublishJob? {
        GotoOk(s, s.store, e.id, Releasing);
      } else {
        assert n.proc.active == map[];
      }
    }
  }

  lemma MaintenanceKeeps(s: State, e: Event)
    requires Inv(s) && (e.StartMaintenance? || e.FinishMaintenance? || e.Compact?)
    ensures Inv(Next(s, e))
  {
    hide StoreOk;
    var n := Next(s, e);
    if n != s {
      if e.StartMaintenance? {
        assert n.proc.active == map[e.id := Maintaining] && e.id in n.proc.active;
      } else if e.FinishMaintenance? {
        GotoOk(s, s.store, e.id, Releasing);
      } else {
        assert RunningIds(s.store.rows) == {};
        RewriteOk(s.store, e.gone, e.made);
      }
    }
  }

  lemma BootKeeps(s: State, e: Event)
    requires Inv(s) && (e.Crash? || e.Boot? || e.BootDone?)
    ensures Inv(Next(s, e))
  {
    hide StoreOk;
    var n := Next(s, e);
    if n != s && e.BootDone? {
      assert forall i :: i in s.store.rows && s.store.rows[i].status == Running ==> i in RunningIds(s.store.rows);
    }
  }

  lemma RecoverKeeps(s: State, e: Event)
    requires Inv(s) && (e.CheckInterrupted? || e.MarkInterrupted?)
    ensures Inv(Next(s, e))
  {
    hide StoreOk;
    var n := Next(s, e);
    if n != s {
      var todo := s.proc.todo;
      var id := todo[0];
      assert id in RunningIds(s.store.rows);
      if e.CheckInterrupted? {
        ListingTells(s.store, id);
        if !AllListed(s.store.receipts, s.store.files, id) {
          DeleteReceiptsOk(s.store, id);
        }
      } else {
        SetStatusOk(s.store, id, s.proc.verdict.registered);
        assert todo == [id] + todo[1..];
      }
    }
  }

  lemma NextKeeps(s: State, e: Event)
    requires Inv(s)
    ensures Inv(Next(s, e))
  {
    hide Inv, Next;
    match e
    case StartImport(_, _, _, _, _) => StartImportKeeps(s, e);
    case CopyFile(_, _) => StageKeeps(s, e);
    case StageError(_) => StageKeeps(s, e);
    case BeginRecording(_) => StageKeeps(s, e);
    case RecordReceipt(_) => RecordKeeps(s, e);
    case RunError(_) => StageKeeps(s, e);
    case Commit(_) => CommitKeeps(s, e);
    case DropReceipts(_) => DropKeeps(s, e);
    case WriteStatus(_) => FinishKeeps(s, e);
    case PublishJob(_) => FinishKeeps(s, e);
    case Release(_) => FinishKeeps(s, e);
    case StartMaintenance(_) => MaintenanceKeeps(s, e);
    case Compact(_, _, _) => MaintenanceKeeps(s, e);
    case FinishMaintenance(_) => MaintenanceKeeps(s, e);
    case Crash => BootKeeps(s, e);
    case Boot(_) => BootKeeps(s, e);
    case CheckInterrupted => RecoverKeeps(s, e);
    case MarkInterrupted => RecoverKeeps(s, e);
    case BootDone => BootKeeps(s, e);
  }

  /** Every run from the empty stores keeps the invariant, wherever it crashes. */
  lemma RunKeeps(es: seq<Event>)
    ensures Inv(Run(INITIAL, es))
  {
    if es != [] {
      RunKeeps(es[..|es| - 1]);
      NextKeeps(Run(INITIAL, es[..|es| - 1]), es[|es| - 1]);
    }
  }

  // ---- what the invariant promises ----

  /** No content is registered twice for one table, by one import or by two. */
  lemma RegisteredOnce(es: seq<Event>, i: nat, j: nat)
    requires i < j < |Run(INITIAL, es).store.log|
    ensures var log := Run(INITIAL, es).store.log; (log[i].table, log[i].sha) != (log[j].table, log[j].sha)
  {
    RunKeeps(es);
    var d := Run(INITIAL, es).store;
    assert Receipted(d.receipts, d.log[i]) && Receipted(d.receipts, d.log[j]);
  }

  /** A finished job's status is the truth about its lake transaction, across every crash. */
  lemma StatusIsTruth(es: seq<Event>, id: Id)
    requires id in Run(INITIAL, es).store.rows && Run(INITIAL, es).store.rows[id].status != Running
    ensures var d := Run(INITIAL, es).store; d.rows[id].status == Succeeded <==> Committed(d.log, id)
  {
    RunKeeps(es);
  }

  /** The outcome the running process reports from memory is the stored one. */
  lemma MemoryIsTruth(es: seq<Event>, id: Id)
    requires Run(INITIAL, es).proc.Up? && id in Run(INITIAL, es).proc.jobs
    requires Run(INITIAL, es).proc.jobs[id] != Running
    ensures id in Run(INITIAL, es).store.rows
    ensures Run(INITIAL, es).proc.jobs[id] == Run(INITIAL, es).store.rows[id].status
  {
    RunKeeps(es);
  }

  /** No compaction is under way between an import's commit and its finish. */
  lemma NoCompactionBeforeFinish(es: seq<Event>, id: Id, other: Id)
    requires var s := Run(INITIAL, es);
      && id in s.store.rows && s.store.rows[id].status == Running
      && s.proc.Up? && other in s.proc.active
    ensures !Run(INITIAL, es).proc.active[other].Maintaining?
  {
    RunKeeps(es);
  }

  /** An import that failed blocks nothing: its content may be imported again. */
  lemma FailureFreesContent(es: seq<Event>, r: Receipt)
    requires r in Run(INITIAL, es).store.receipts
    ensures var rows := Run(INITIAL, es).store.rows; r.owner in rows && rows[r.owner].status != Failed
  {
    RunKeeps(es);
    assert r in ReceiptsOf(Run(INITIAL, es).store.receipts, r.owner);
  }

  // ---- idempotency keys ----

  datatype Reply = Unknown | KeyConflict | Existing(id: Id)

  ghost predicate Owns(d: Store, id: Id, key: nat) {
    id in d.rows && d.rows[id].key == key
  }

  /** The answer to a request that repeats a key. */
  ghost function Lookup(d: Store, key: nat, hash: nat): Reply {
    if !KeyTaken(d.rows, key) then Unknown
    else
      assert exists i :: Owns(d, i, key) by {
        var i :| i in d.rows && d.rows[i].key == key;
        assert Owns(d, i, key);
      }
      var i :| Owns(d, i, key);
      if d.rows[i].hash != hash then KeyConflict else Existing(i)
  }

  lemma NextKeepsOwner(s: State, e: Event, id: Id)
    requires Inv(s) && id in s.store.rows
    ensures id in Next(s, e).store.rows
    ensures Next(s, e).store.rows[id].key == s.store.rows[id].key
    ensures Next(s, e).store.rows[id].hash == s.store.rows[id].hash
  {
    hide Inv;
  }

  lemma RunKeepsOwner(es: seq<Event>, more: seq<Event>, id: Id)
    requires id in Run(INITIAL, es).store.rows
    ensures var d, n := Run(INITIAL, es).store, Run(INITIAL, es + more).store;
      id in n.rows && n.rows[id].key == d.rows[id].key && n.rows[id].hash == d.rows[id].hash
    decreases |more|
  {
    hide Inv, Next;
    if more == [] {
      assert es + more == es;
    } else {
      var front := more[..|more| - 1];
      RunKeepsOwner(es, front, id);
      assert (es + more)[..|es + more| - 1] == es + front;
      RunKeeps(es + front);
      NextKeepsOwner(Run(INITIAL, es + front), more[|more| - 1], id);
    }
  }

  /** A key owns one job, and once it does a repeated request is always answered with that job. */
  lemma KeyOwnsOneJob(es: seq<Event>, more: seq<Event>, id: Id, hash: nat)
    requires id in Run(INITIAL, es).store.rows
    ensures var d, key := Run(INITIAL, es).store, Run(INITIAL, es).store.rows[id].key;
      && (forall i :: Owns(d, i, key) ==> i == id)
      && Lookup(Run(INITIAL, es + more).store, key, hash) == if d.rows[id].hash == hash then Existing(id) else KeyConflict
  {
    RunKeeps(es);
    RunKeeps(es + more);
    RunKeepsOwner(es, more, id);
    var d, n := Run(INITIAL, es).store, Run(INITIAL, es + more).store;
    assert Owns(n, id, d.rows[id].key);
    forall i | Owns(n, i, d.rows[id].key)
      ensures i == id
    {
    }
  }

  // ---- a commit that lies ----

  /** The lake transaction takes effect although its commit reports an error. */
  ghost function LostCommit(s: State, id: Id): State
    requires In(s, id) && id in s.store.rows && PhaseOf(s, id).Ready?
  {
    State(Register(s.store, id, PhaseOf(s, id).copied), Goto(s, id, Failing).proc)
  }

  /** What happens then, from any reachable state: the process drops the receipts and marks the job
    * failed, although its content is registered; and nothing keeps that content from being
    * registered again.  So the guarantees hold for commits that report their outcome, no others. */
  lemma LostCommitIsForgotten(es: seq<Event>, id: Id, k: nat)
    requires var s := Run(INITIAL, es); In(s, id) && id in s.store.rows && PhaseOf(s, id).Ready? && k < |PhaseOf(s, id).copied|
    ensures var s := Run(INITIAL, es);
      var copied, row := PhaseOf(s, id).copied, s.store.rows[id];
      var after := Next(Next(LostCommit(s, id), DropReceipts(id)), WriteStatus(id)).store;
      && Committed(after.log, id) && after.rows[id].status == Failed
      && Entry(id, row.table, copied[k]) in after.log && !ShaTaken(after.receipts, row.table, copied[k])
  {
    hide Inv, Run, Committed;
    var s := Run(INITIAL, es);
    RunKeeps(es);
    ReadyIsReceipted(s, id, k);
    AfterLostCommit(s, id);
    var copied, row := PhaseOf(s, id).copied, s.store.rows[id];
    hide Next, LostCommit, PhaseOf;
    assert Receipt(id, k, row.table, copied[k]) in ReceiptsOf(s.store.receipts, id);
    EntriesCommit(s.store.log, id, row.table, copied, k);
  }

  lemma EntriesCommit(log: seq<Entry>, id: Id, table: TableName, copied: seq<Sha>, k: nat)
    requires k < |copied|
    ensures var all := log + EntriesOf(id, table, copied); Entry(id, table, copied[k]) in all && Committed(all, id)
  {
    var all := log + EntriesOf(id, table, copied);
    assert all[|log| + k] == Entry(id, table, copied[k]);
  }

  lemma AfterLostCommit(s: State, id: Id)
    requires In(s, id) && id in s.store.rows && PhaseOf(s, id).Ready?
    ensures var after, row := Next(Next(LostCommit(s, id), DropReceipts(id)), WriteStatus(id)).store, s.store.rows[id];
      && after.log == s.store.log + EntriesOf(id, row.table, PhaseOf(s, id).copied)
      && after.receipts == s.store.receipts - ReceiptsOf(s.store.receipts, id)
      && after.rows == s.store.rows[id := row.(status := Failed)]
  {
  }

  lemma ReadyIsReceipted(s: State, id: Id, k: nat)
    requires Inv(s) && In(s, id) && id in s.store.rows && PhaseOf(s, id).Ready? && k < |PhaseOf(s, id).copied|
    ensures var r := Receipt(id, k, s.store.rows[id].table, PhaseOf(s, id).copied[k]);
      r in s.store.receipts && forall q :: q in s.store.receipts && q.table == r.table && q.sha == r.sha ==> q == r
  {
    assert PhaseOk(s.store, id, PhaseOf(s, id));
  }

  /** The failed job ends, and the same file is imported again under another job. */
  function Failure(id: Id): seq<Event> {
    [DropReceipts(id), WriteStatus(id), PublishJob(id), Release(id)]
  }

  function Retry(id: Id, key: nat, hash: nat, table: TableName, sha: Sha): seq<Event> {
    [StartImport(id, key, hash, table, 1), CopyFile(id, sha), BeginRecording(id), RecordReceipt(id), RecordReceipt(id), Commit(id)]
  }

  lemma {:induction false} RunConcat(s: State, a: seq<Event>, b: seq<Event>)
    ensures Run(s, a + b) == Run(Run(s, a), b)
    decreases |b|
  {
    if b == [] {
      assert a + b == a;
    } else {
      RunConcat(s, a, b[..|b| - 1]);
      assert (a + b)[..|a + b| - 1] == a + b[..|b| - 1];
    }
  }

  lemma RunOne(s: State, e: Event)
    ensures Run(s, [e]) == Next(s, e)
  {
    assert [e][..0] == [];
  }

  lemma AfterFailure(s: State, id: Id)
    requires Inv(s) && In(s, id) && id in s.store.rows && PhaseOf(s, id).Ready?
    ensures var after, row := Run(LostCommit(s, id), Failure(id)), s.store.rows[id];
      && after.proc.Up? && !after.proc.locked && after.proc.active == map[]
      && after.store.log == s.store.log + EntriesOf(id, row.table, PhaseOf(s, id).copied)
      && after.store.receipts == s.store.receipts - ReceiptsOf(s.store.receipts, id)
      && after.store.rows == s.store.rows[id := row.(status := Failed)]
  {
    hide Run, StoreOk;
    AfterLostCommit(s, id);
    var es := Failure(id);
    assert es == [es[0]] + ([es[1]] + ([es[2]] + [es[3]]));
    var lost := LostCommit(s, id);
    RunConcat(lost, [es[0]], [es[1]] + ([es[2]] + [es[3]]));
    RunOne(lost, es[0]);
    var a := Next(lost, es[0]);
    RunConcat(a, [es[1]], [es[2]] + [es[3]]);
    RunOne(a, es[1]);
    var b := Next(a, es[1]);
    RunConcat(b, [es[2]], [es[3]]);
    RunOne(b, es[2]);
    RunOne(Next(b, es[2]), es[3]);
    assert s.proc.active == map[id := s.proc.active[id]];
  }

  lemma RetryCommits(s: State, id: Id, key: nat, hash: nat, table: TableName, sha: Sha)
    requires s.proc.Up? && !s.proc.locked && id !in s.store.rows && !KeyTaken(s.store.rows, key) && !ShaTaken(s.store.receipts, table, sha)
    ensures Run(s, Retry(id, key, hash, table, sha)).store.log == s.store.log + [Entry(id, table, sha)]
  {
    hide Run, ShaTaken;
    var es := Retry(id, key, hash, table, sha);
    assert es == [es[0]] + ([es[1]] + ([es[2]] + ([es[3]] + ([es[4]] + [es[5]]))));
    RunConcat(s, [es[0]], [es[1]] + ([es[2]] + ([es[3]] + ([es[4]] + [es[5]]))));
    RunOne(s, es[0]);
    var a := Next(s, es[0]);
    RunConcat(a, [es[1]], [es[2]] + ([es[3]] + ([es[4]] + [es[5]])));
    RunOne(a, es[1]);
    var b := Next(a, es[1]);
    assert PhaseOf(b, id) == Copying([sha]);
    RunConcat(b, [es[2]], [es[3]] + ([es[4]] + [es[5]]));
    RunOne(b, es[2]);
    var c := Next(b, es[2]);
    RunConcat(c, [es[3]], [es[4]] + [es[5]]);
    RunOne(c, es[3]);
    var d := Next(c, es[3]);
    RunConcat(d, [es[4]], [es[5]]);
    RunOne(d, es[4]);
    RunOne(Next(d, es[4]), es[5]);
    assert EntriesOf(id, table, [sha]) == [Entry(id, table, sha)];
  }

  /** So the next import of any of its files succeeds, and registers that content a second time. */
  lemma LostCommitRegistersTwice(es: seq<Event>, id: Id, k: nat, again: Id, key: nat, hash: nat)
    requires var s := Run(INITIAL, es); In(s, id) && id in s.store.rows && PhaseOf(s, id).Ready? && k < |PhaseOf(s, id).copied|
    requires again !in Run(INITIAL, es).store.rows && !KeyTaken(Run(INITIAL, es).store.rows, key)
    ensures var s := Run(INITIAL, es);
      var table, sha := s.store.rows[id].table, PhaseOf(s, id).copied[k];
      var log := Run(LostCommit(s, id), Failure(id) + Retry(again, key, hash, table, sha)).store.log;
      Entry(id, table, sha) in log && Entry(again, table, sha) in log && id != again
  {
    var s := Run(INITIAL, es);
    RunKeeps(es);
    LostCommitIsForgotten(es, id, k);
    AfterFailure(s, id);
    AfterLostCommit(s, id);
    hide Run, Inv, LostCommit;
    var table, sha, after := s.store.rows[id].table, PhaseOf(s, id).copied[k], Run(LostCommit(s, id), Failure(id));
    RunConcat(LostCommit(s, id), Failure(id), Retry(again, key, hash, table, sha));
    EntriesCommit(s.store.log, id, table, PhaseOf(s, id).copied, k);
    SameKeys(s.store.rows, after.store.rows, id, key);
    RetryCommits(after, again, key, hash, table, sha);
  }

  lemma SameKeys(rows: map<Id, Row>, after: map<Id, Row>, id: Id, key: nat)
    requires id in rows && after == rows[id := rows[id].(status := Failed)] && !KeyTaken(rows, key)
    ensures !KeyTaken(after, key)
  {
  }
}
