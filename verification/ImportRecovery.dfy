/** Recovery of interrupted imports at start-up, itself cut short by crashes. */
module ImportRecovery {
  import opened ImportProtocol

  /** What recovery makes of the stores: every interrupted import gets the status its lake
    * transaction earned, and loses its receipts if it did not commit. */
  ghost function Recovered(d: Store): Store {
    d.(rows := map i | i in d.rows ::
         if d.rows[i].status == Running then d.rows[i].(status := Outcome(AllListed(d.receipts, d.files, i)))
         else d.rows[i],
       receipts := set r | r in d.receipts && !Abandoned(d, r.owner))
  }

  ghost predicate Abandoned(d: Store, id: Id) {
    id in d.rows && d.rows[id].status == Running && !AllListed(d.receipts, d.files, id)
  }

  lemma DropKeepsRecovered(d: Store, id: Id)
    requires Abandoned(d, id)
    ensures Recovered(DeleteReceipts(d, id)) == Recovered(d)
    ensures Abandoned(DeleteReceipts(d, id), id) && ReceiptsOf(DeleteReceipts(d, id).receipts, id) == {}
    ensures ReceiptsOk(d) ==> ReceiptsOk(DeleteReceipts(d, id))
  {
  }

  lemma MarkKeepsRecovered(d: Store, id: Id)
    requires id in d.rows && d.rows[id].status == Running
    requires Abandoned(d, id) ==> ReceiptsOf(d.receipts, id) == {}
    ensures Recovered(SetStatus(d, id, Outcome(!Abandoned(d, id)))) == Recovered(d)
    ensures ReceiptsOk(d) ==> ReceiptsOk(SetStatus(d, id, Outcome(!Abandoned(d, id))))
    ensures RunningIds(SetStatus(d, id, Outcome(!Abandoned(d, id))).rows) == RunningIds(d.rows) - {id}
  {
    hide AllListed;
    var n := SetStatus(d, id, Outcome(!Abandoned(d, id)));
    assert forall r :: r in d.receipts && r.owner == id ==> r in ReceiptsOf(d.receipts, id);
    assert forall i :: i != id ==> (Abandoned(n, i) <==> Abandoned(d, i));
    assert Recovered(n).rows == Recovered(d).rows;
    assert Recovered(n).receipts == Recovered(d).receipts;
  }

  lemma NothingInterrupted(d: Store)
    requires forall i :: i in d.rows ==> d.rows[i].status != Running
    ensures Recovered(d) == d
  {
  }

  // ---- as the service does it ----

  class Stores {
    var rows: map<Id, Row>
    var receipts: set<Receipt>
    var files: set<LakeFile>
    ghost const log: seq<Entry>

    constructor (d: Store)
      ensures rows == d.rows && receipts == d.receipts && files == d.files && log == d.log
    {
      rows, receipts, files := d.rows, d.receipts, d.files;
      log := d.log;
    }

    ghost function Contents(): Store
      reads this
    {
      Store(rows, receipts, files, log)
    }

    /** Lists the import's receipts, then the table's registered files, and compares. */
    method ImportWasCommitted(id: Id, table: TableName) returns (committed: bool)
      requires forall r :: r in receipts && r.owner == id ==> r.table == table
      ensures committed <==> AllListed(receipts, files, id)
    {
      var targets: set<Path> := {};
      var cursor := receipts;
      while cursor != {}
        invariant cursor <= receipts
        invariant forall p :: p in targets <==> exists r :: r in receipts - cursor && r.owner == id && p == Staged(id, r.index)
      {
        var r :| r in cursor;
        cursor := cursor - {r};
        if r.owner == id {
          targets := targets + {Staged(id, r.index)};
        }
      }
      if targets == {} {
        assert forall r :: r in receipts && r.owner == id ==> Staged(id, r.index) in targets;
        return false;
      }
      var registered: set<Path> := {};
      var listing := files;
      while listing != {}
        invariant listing <= files
        invariant forall p :: p in registered <==> LakeFile(table, p) in files - listing
      {
        var f :| f in listing;
        listing := listing - {f};
        if f.table == table {
          registered := registered + {f.path};
        }
      }
      ghost var p0 :| p0 in targets;
      while targets != {}
        invariant forall p :: p in targets ==> exists r :: r in receipts && r.owner == id && p == Staged(id, r.index)
        invariant forall r :: r in receipts && r.owner == id && Staged(id, r.index) !in targets ==>
          LakeFile(table, Staged(id, r.index)) in files
      {
        var target :| target in targets;
        if target !in registered {
          return false;
        }
        targets := targets - {target};
      }
      return true;
    }

    /** Recovers one import with at most `writes` durable writes left before the process dies. */
    method RecoverOne(id: Id, writes: nat) returns (finished: bool, left: nat)
      requires ReceiptsOk(Contents()) && id in rows && rows[id].status == Running
      modifies this
      ensures Recovered(Contents()) == Recovered(old(Contents())) && ReceiptsOk(Contents())
      ensures rows.Keys == old(rows.Keys)
      ensures finished ==> RunningIds(rows) == RunningIds(old(rows)) - {id} && left + 2 >= writes
      ensures writes >= 2 ==> finished
    {
      hide Recovered, AllListed, ReceiptsOk, RunningIds;
      left := writes;
      ReceiptTables(Contents());
      var registered := ImportWasCommitted(id, rows[id].table);
      if !registered {
        if left == 0 {
          return false, 0;
        }
        left := left - 1;
        DropKeepsRecovered(Contents(), id);
        assert DeleteReceipts(Contents(), id).receipts == set r | r in receipts && r.owner != id;
        receipts := set r | r in receipts && r.owner != id;
      }
      if left == 0 {
        return false, 0;
      }
      left := left - 1;
      MarkKeepsRecovered(Contents(), id);
      rows := rows[id := rows[id].(status := if registered then Succeeded else Failed)];
      finished := true;
    }

    /** Marks every interrupted import; a crash may fall between any two writes. */
    method RecoverInterrupted(writes: nat) returns (finished: bool)
      requires ReceiptsOk(Contents())
      modifies this
      ensures Recovered(Contents()) == Recovered(old(Contents())) && ReceiptsOk(Contents())
      ensures finished ==> Contents() == Recovered(old(Contents()))
      ensures writes >= 2 * |old(rows)| ==> finished
    {
      hide Recovered, AllListed, ReceiptsOk, RunningIds;
      var left: nat := writes;
      var interrupted: set<Id> := set i | i in rows && rows[i].status == Running;
      RunningAre(Contents());
      SubsetSize(interrupted, rows.Keys);
      while interrupted != {}
        invariant interrupted == RunningIds(rows)
        invariant Recovered(Contents()) == Recovered(old(Contents())) && ReceiptsOk(Contents())
        invariant writes >= 2 * |old(rows)| ==> left >= 2 * |interrupted|
        decreases interrupted
      {
        var id :| id in interrupted;
        RunningAre(Contents());
        finished, left := RecoverOne(id, left);
        if !finished {
          return;
        }
        interrupted := interrupted - {id};
      }
      RunningAre(Contents());
      NothingInterrupted(Contents());
      return true;
    }
  }

  lemma RunningAre(d: Store)
    ensures RunningIds(d.rows) == (set i | i in d.rows && d.rows[i].status == Running)
    ensures RunningIds(d.rows) <= d.rows.Keys
    ensures forall i :: i in d.rows && d.rows[i].status == Running ==> i in RunningIds(d.rows)
  {
  }

  lemma ReceiptTables(d: Store)
    requires ReceiptsOk(d)
    ensures forall r :: r in d.receipts && r.owner in d.rows ==> r.table == d.rows[r.owner].table
  {
  }

  lemma SubsetSize<T>(a: set<T>, b: set<T>)
    requires a <= b
    ensures |a| <= |b|
  {
    if a != {} {
      var x :| x in a;
      SubsetSize(a - {x}, b - {x});
    }
  }

  // ---- inside the step machine ----

  predicate RecoveryEvent(e: Event) {
    e.Crash? || e.Boot? || e.CheckInterrupted? || e.MarkInterrupted? || e.BootDone?
  }

  lemma RecoveryStepKeeps(s: State, e: Event)
    requires Inv(s) && !s.proc.Up? && RecoveryEvent(e)
    ensures Recovered(Next(s, e).store) == Recovered(s.store)
    ensures Next(s, e).proc.Up? ==> Next(s, e).store == Recovered(s.store)
  {
    hide Recovered, StoreOk;
    var n := Next(s, e);
    if e.CheckInterrupted? && n != s {
      var id := s.proc.todo[0];
      assert id in RunningIds(s.store.rows);
      if !AllListed(s.store.receipts, s.store.files, id) {
        DropKeepsRecovered(s.store, id);
      }
    } else if e.MarkInterrupted? && n != s {
      var id := s.proc.todo[0];
      assert id in RunningIds(s.store.rows);
      ListingTells(s.store, id);
      MarkKeepsRecovered(s.store, id);
    } else if e.BootDone? && n != s {
      assert forall i :: i in s.store.rows && s.store.rows[i].status == Running ==> i in RunningIds(s.store.rows);
      NothingInterrupted(s.store);
    }
  }

  lemma RunLast(s: State, es: seq<Event>, e: Event)
    ensures Run(s, es + [e]) == Next(Run(s, es), e)
  {
  }

  /** However often recovery crashes and starts over, once the process is up the stores are what
    * one undisturbed recovery would have made of them. */
  lemma RecoveryIsRepeatable(es: seq<Event>, more: seq<Event>)
    requires Run(INITIAL, es).proc.Down?
    requires forall e :: e in more ==> RecoveryEvent(e)
    requires forall k :: 0 <= k < |more| ==> !Run(INITIAL, es + more[..k]).proc.Up?
    ensures Recovered(Run(INITIAL, es + more).store) == Recovered(Run(INITIAL, es).store)
    ensures Run(INITIAL, es + more).proc.Up? ==> Run(INITIAL, es + more).store == Recovered(Run(INITIAL, es).store)
    decreases |more|
  {
    hide Inv, Next, Recovered, Run, RecoveryEvent;
    if more == [] {
      assert es + more == es;
    } else {
      var front, last := more[..|more| - 1], more[|more| - 1];
      forall k | 0 <= k < |front|
        ensures !Run(INITIAL, es + front[..k]).proc.Up?
      {
        assert front[..k] == more[..k];
      }
      RecoveryIsRepeatable(es, front);
      assert es + more == (es + front) + [last] && es + more[..|front|] == es + front;
      RunLast(INITIAL, es + front, last);
      RunKeeps(es + front);
      RecoveryStepKeeps(Run(INITIAL, es + front), last);
    }
  }

  /** The verdict recovery gives an interrupted import is whether its lake transaction committed. */
  lemma VerdictIsTruth(es: seq<Event>, id: Id)
    requires Run(INITIAL, es).proc.Down?
    requires id in Run(INITIAL, es).store.rows && Run(INITIAL, es).store.rows[id].status == Running
    ensures var d := Run(INITIAL, es).store;
      Recovered(d).rows[id].status == if Committed(d.log, id) then Succeeded else Failed
  {
    RunKeeps(es);
    ListingTells(Run(INITIAL, es).store, id);
  }
}
