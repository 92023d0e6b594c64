/**
 The durable capture queue as an object over its spool directory and ledger. Every operation runs
 under the queue lock, so one call is one uninterrupted sequence of effects unless it is cut short.
 The ghost journal records the effects in the order they reached the disk.
 */
module CaptureQueue {
  import opened Results
  import opened QueueDisk
  import Operations = QueueOperations
  import opened QueueOperations

  class CaptureQueue {
    const settings: Settings
    var files: map<Path, Job>
    var ledger: seq<Record>
    ghost var journal: seq<Effect>

    constructor (settings: Settings, disk: Disk)
      ensures this.settings == settings
      ensures Contents() == disk && journal == []
    {
      this.settings := settings;
      files, ledger := disk.files, disk.ledger;
      journal := [];
    }

    function Contents(): Disk
      reads this
    {
      Disk(files, ledger)
    }

    /** The call issued exactly these effects, in this order, and nothing else. */
    twostate predicate Issued(es: seq<Effect>)
      reads this
    {
      journal == old(journal) + es && Contents() == ApplyAll(old(Contents()), es)
    }

    // ---- Durable steps ----

    method WriteJob(path: Path, job: Job)
      modifies this
      ensures Issued([Write(path, job)])
      ensures Contents() == Apply(old(Contents()), Write(path, job))
    {
      ApplyOne(Contents(), Write(path, job));
      files := files[path := job];
      journal := journal + [Write(path, job)];
    }

    method Move(source: Path, destination: Path) returns (r: Result<(), QueueError>)
      requires source in files
      modifies this
      ensures old(destination in files) ==>
                r == Failure(QueueState) && journal == old(journal) && Contents() == old(Contents())
      ensures old(destination !in files) ==>
                r == Success(()) && Issued([Rename(source, destination)])
                && Contents() == Apply(old(Contents()), Rename(source, destination))
    {
      if destination in files {
        return Failure(QueueState);
      }
      ApplyOne(Contents(), Rename(source, destination));
      files := (files - {source})[destination := files[source]];
      journal := journal + [Rename(source, destination)];
      return Success(());
    }

    method AppendLedger(record: Record)
      modifies this
      ensures Issued([Append(record)])
      ensures Contents() == Apply(old(Contents()), Append(record))
    {
      ApplyOne(Contents(), Append(record));
      ledger := ledger + [record];
      journal := journal + [Append(record)];
    }

    /** Rewrite the document where it is, rename it, then record the move. */
    method TransferJob(source: Path, destination: Path, job: Job, record: Record)
      returns (r: Result<(), QueueError>)
      modifies this
      ensures var o := Transfer(old(Contents()), source, destination, job, record, ());
              Issued(o.effects) && r == o.result
    {
      ghost var d := Contents();
      WriteJob(source, job);
      r := Move(source, destination);
      if r.Failure? {
        return;
      }
      AppendLedger(record);
      ApplyThree(d, Write(source, job), Rename(source, destination), Append(record));
    }

    // ---- Reading ----

    /** The ids that already have a COMMITTED record, in one pass over the ledger. */
    method CommittedLedgerIds() returns (ids: set<JobId>)
      ensures ids == Acknowledged(ledger)
    {
      ids := {};
      for i := 0 to |ledger|
        invariant ids == Acknowledged(ledger[..i])
      {
        assert ledger[..i + 1] == ledger[..i] + [ledger[i]];
        if ledger[i].action == LedgerCommitted {
          ids := ids + {ledger[i].id};
        }
      }
      assert ledger[..|ledger|] == ledger;
    }

    /** The job ids of one directory in file-name order. */
    method SortedListing(dir: Directory) returns (ids: seq<JobId>)
      ensures ids == Listing(IdsIn(Contents(), dir))
    {
      var all := IdsIn(Contents(), dir);
      var left := all;
      ids := [];
      while left != {}
        invariant IsListing(ids, all - left) && left <= all
        invariant forall x, y :: x in ids && y in left ==> x < y
        decreases left
      {
        LeastExists(left);
        var id :| id in left && forall x :: x in left ==> id <= x;
        forall i | 0 <= i < |ids| ensures ids[i] < id {
          assert ids[i] in ids;
        }
        ids, left := ids + [id], left - {id};
        assert all - left == (all - (left + {id})) + {id};
      }
      assert all - left == all;
      ListingSorted(all);
      ListingUnique(ids, Listing(all), all);
    }

    // ---- Terminal reconciliation ----

    method ReconcileTerminal(source: Path, job0: Job, acknowledged0: set<JobId>, now: int)
      returns (r: Result<bool, QueueError>, job: Job, acknowledged: set<JobId>)
      requires source in files
      modifies this
      ensures var o := Operations.ReconcileTerminal(old(Contents()), source, job0, acknowledged0, now);
              && Issued(o.effects)
              && job == o.job && acknowledged == o.acknowledged
              && r == if o.error.Some? then Failure(o.error.value) else Success(o.repaired)
    {
      ghost var d := Contents();
      job, acknowledged := job0, acknowledged0;
      var completed := source.dir == CompletedDir;
      if !completed && job.status != COMMITTED {
        return Success(false), job, acknowledged;
      }
      var repaired := false;
      if completed && job.status in {CLAIMED, PROCESSING} {
        if job.claimedAt == None {
          return Failure(QueueCorrupt), job, acknowledged;
        }
        job := job.(status := COMMITTED, committedAt := if job.committedAt.Some? then job.committedAt else Some(now));
        WriteJob(source, job);
        repaired := true;
      } else if job.status != COMMITTED {
        return Failure(QueueCorrupt), job, acknowledged;
      }
      if job.committedAt == None {
        return Failure(QueueCorrupt), job, acknowledged;
      }
      if !completed {
        var moved := Move(source, Path(CompletedDir, job.id));
        if moved.Failure? {
          return Failure(moved.error), job, acknowledged;
        }
        repaired := true;
      }
      if job.id !in acknowledged {
        AppendLedger(CommittedRecord(job));
        acknowledged := acknowledged + {job.id};
        repaired := true;
        ApplyTwo(d, Write(source, job), Append(CommittedRecord(job)));
        ApplyTwo(d, Rename(source, Path(CompletedDir, job.id)), Append(CommittedRecord(job)));
      }
      r := Success(repaired);
    }

    // ---- Operations ----

    method Enqueue(key: Key, createdAt: int, now: int) returns (r: Result<Receipt, QueueError>)
      modifies this
      ensures var o := Operations.Enqueue(settings, old(Contents()), key, createdAt, now);
              Issued(o.effects) && r == o.result
    {
      ghost var d := Contents();
      var job := NewJob(settings, key, createdAt);
      var present := ExistingJob(Contents(), job.id);
      if present.Some? {
        var path := present.value;
        var existing :- ReadJob(settings, Contents(), path);
        if existing.key != key {
          return Failure(QueueCorrupt);
        }
        ghost var closing := [];
        if path.dir == CompletedDir || existing.status == COMMITTED {
          if path.dir !in {ProcessingDir, CompletedDir} {
            return Failure(QueueCorrupt);
          }
          var acknowledged := CommittedLedgerIds();
          closing := Operations.ReconcileTerminal(d, path, existing, acknowledged, now).effects;
          var closed;
          closed, existing, acknowledged := ReconcileTerminal(path, existing, acknowledged, now);
          if closed.Failure? {
            return Failure(closed.error);
          }
        }
        var duplicate := Record(LedgerDuplicate, existing.id, existing.attempt, None);
        AppendLedger(duplicate);
        ApplyAllLast(d, closing, Append(duplicate));
        return Success(Receipt(existing.id, existing.status, true));
      }
      if |IdsIn(Contents(), QueuedDir)| >= settings.maxQueuedJobs {
        return Failure(QueueFull);
      }
      var enqueued := Record(LedgerEnqueued, job.id, 0, None);
      WriteJob(Path(QueuedDir, job.id), job);
      AppendLedger(enqueued);
      ApplyTwo(d, Write(Path(QueuedDir, job.id), job), Append(enqueued));
      return Success(Receipt(job.id, QUEUED, false));
    }

    /** The oldest readable queued job, or the error that reading any queued file raises. */
    method OldestQueued() returns (r: Result<Option<JobId>, QueueError>)
      ensures !QueueReadable(settings, Contents()) <==> r.Failure?
      ensures r.Failure? ==> r.error == QueueCorrupt
      ensures r.Success? ==> (r.value == None <==> IdsIn(Contents(), QueuedDir) == {})
      ensures r.Success? && r.value.Some? ==> IsOldest(Contents(), r.value.value)
    {
      var ids := SortedListing(QueuedDir);
      ListingSorted(IdsIn(Contents(), QueuedDir));
      var best := None;
      for i := 0 to |ids|
        invariant best == None <==> i == 0
        invariant forall j :: 0 <= j < i ==> ReadJob(settings, Contents(), Path(QueuedDir, ids[j])).Success?
        invariant best.Some? ==> best.value in ids[..i]
        invariant best.Some? ==> forall j :: 0 <= j < i && ids[j] != best.value ==>
                    Before(files[Path(QueuedDir, best.value)], files[Path(QueuedDir, ids[j])])
      {
        var id := ids[i];
        var job := ReadJob(settings, Contents(), Path(QueuedDir, id));
        if job.Failure? {
          assert id in IdsIn(Contents(), QueuedDir);
          return Failure(QueueCorrupt);
        }
        if best == None || Before(job.value, files[Path(QueuedDir, best.value)]) {
          best := Some(id);
        }
      }
      forall p | p in files && p.dir == QueuedDir ensures ReadJob(settings, Contents(), p).Success? {
        assert p.id in IdsIn(Contents(), QueuedDir) && p.id in ids;
      }
      if best.Some? {
        forall x | Path(QueuedDir, x) in files && x != best.value
          ensures Before(files[Path(QueuedDir, best.value)], files[Path(QueuedDir, x)])
        {
          assert Path(QueuedDir, x).id in IdsIn(Contents(), QueuedDir) && x in ids;
        }
      }
      return Success(best);
    }

    method ClaimNext(now: int) returns (r: Result<Option<Job>, QueueError>)
      modifies this
      ensures var o := Operations.ClaimNext(settings, old(Contents()), now);
              Issued(o.effects) && r == o.result
    {
      ghost var d := Contents();
      var oldest :- OldestQueued();
      if oldest == None {
        return Success(None);
      }
      var id := oldest.value;
      var source := Path(QueuedDir, id);
      OldestExists(settings, d);
      assert forall x :: IsOldest(d, x) ==> x == id;
      var job := files[source];
      if job.status !in {QUEUED, CLAIMED, PROCESSING} {
        return Failure(QueueCorrupt);
      }
      var claimed := Operations.Claimed(job, now);
      var moved := TransferJob(source, Path(ProcessingDir, id), claimed,
                               Record(LedgerClaimed, id, claimed.attempt, None));
      if moved.Failure? {
        return Failure(moved.error);
      }
      return Success(Some(claimed));
    }

    method Renew(id: JobId, now: int) returns (r: Result<(), QueueError>)
      modifies this
      ensures var o := Operations.Renew(settings, old(Contents()), id, now);
              Issued(o.effects) && r == o.result
    {
      var path := Path(ProcessingDir, id);
      var job :- ReadJob(settings, Contents(), path);
      if job.status !in {CLAIMED, PROCESSING} {
        return Failure(QueueState);
      }
      WriteJob(path, job.(claimedAt := Some(now)));
      return Success(());
    }

    method StartProcessing(id: JobId, now: int) returns (r: Result<Job, QueueError>)
      modifies this
      ensures var o := Operations.StartProcessing(settings, old(Contents()), id, now);
              Issued(o.effects) && r == o.result
    {
      ghost var d := Contents();
      var path := Path(ProcessingDir, id);
      if path !in files {
        return Failure(QueueState);
      }
      var job :- ReadJob(settings, Contents(), path);
      if job.status != CLAIMED {
        return Failure(QueueState);
      }
      var started := job.(status := PROCESSING, processingAt := Some(now));
      var record := Record(LedgerProcessing, id, job.attempt, None);
      WriteJob(path, started);
      AppendLedger(record);
      ApplyTwo(d, Write(path, started), Append(record));
      return Success(started);
    }

    method Commit(id: JobId, now: int) returns (r: Result<Receipt, QueueError>)
      modifies this
      ensures var o := Operations.Commit(settings, old(Contents()), id, now);
              Issued(o.effects) && r == o.result
    {
      var source := Path(ProcessingDir, id);
      if source !in files {
        return Failure(QueueState);
      }
      var job :- ReadJob(settings, Contents(), source);
      if job.status !in {CLAIMED, PROCESSING} {
        return Failure(QueueState);
      }
      var closed := job.(status := COMMITTED, committedAt := Some(now));
      var moved := TransferJob(source, Path(CompletedDir, id), closed, CommittedRecord(closed));
      if moved.Failure? {
        return Failure(moved.error);
      }
      return Success(Receipt(id, COMMITTED, false));
    }

    method RetryOrDeadLetter(id: JobId, code: string, terminal: bool, now: int) returns (r: Result<Receipt, QueueError>)
      modifies this
      ensures var o := Operations.RetryOrDeadLetter(settings, old(Contents()), id, code, terminal, now);
              Issued(o.effects) && r == o.result
    {
      var source := Path(ProcessingDir, id);
      if code == "" || source !in files {
        return Failure(QueueState);
      }
      var job :- ReadJob(settings, Contents(), source);
      if job.status !in {CLAIMED, PROCESSING} {
        return Failure(QueueState);
      }
      if terminal || job.attempt >= settings.maxAttempts {
        var dead := TransferJob(source, Path(DeadLetterDir, id), DeadLettered(job, code, now),
                                Record(LedgerDeadLetter, id, job.attempt, Some(code)));
        if dead.Failure? {
          return Failure(dead.error);
        }
        return Success(Receipt(id, DEAD_LETTER, false));
      }
      var back := TransferJob(source, Path(QueuedDir, id), Requeued(job, code, now),
                              Record(LedgerRequeued, id, job.attempt, Some(code)));
      if back.Failure? {
        return Failure(back.error);
      }
      return Success(Receipt(id, QUEUED, false));
    }

    /** One file of the dead-letter sweep. */
    method RequeueDeadLetter(id: JobId, codes: set<string>, now: int) returns (r: Result<bool, QueueError>)
      modifies this
      ensures var o := RequeueOne(settings, old(Contents()), id, codes, now);
              Issued(o.effects) && r == o.result
    {
      var source := Path(DeadLetterDir, id);
      var job :- ReadJob(settings, Contents(), source);
      if job.status != DEAD_LETTER || job.lastErrorCode == None || job.lastErrorCode.value !in codes {
        return Success(false);
      }
      var moved := TransferJob(source, Path(QueuedDir, id), Revived(job, now),
                               Record(LedgerRequeuedFromDeadLetter, id, 0, job.lastErrorCode));
      if moved.Failure? {
        return Failure(moved.error);
      }
      return Success(true);
    }

    method RequeueDeadLetters(errorCodes: set<string>, now: int) returns (r: Result<seq<JobId>, QueueError>)
      modifies this
      ensures var o := Operations.RequeueDeadLetters(settings, old(Contents()), errorCodes, now);
              Issued(o.effects) && r == o.result
    {
      ghost var d := Contents();
      var codes := errorCodes - {""};
      if codes == {} {
        return Failure(QueueState);
      }
      var ids := SortedListing(DeadLetterDir);
      var requeued := [];
      ghost var done: seq<Effect> := [];
      for i := 0 to |ids|
        invariant RequeueUpTo(settings, d, ids, i, codes, now) == Outcome(done, Success(requeued))
        invariant Issued(done)
      {
        ghost var one := RequeueOne(settings, Contents(), ids[i], codes, now);
        RequeueStep(settings, d, ids, i, codes, now, Outcome(done, Success(requeued)), one);
        done := done + one.effects;
        var moved := RequeueDeadLetter(ids[i], codes, now);
        if moved.Failure? {
          return Failure(moved.error);
        }
        requeued := requeued + if moved.value then [ids[i]] else [];
      }
      return Success(requeued);
    }

    // ---- Recovery ----

    /** One file of the first recovery loop. */
    method RecoverCompleted(id: JobId, acknowledged0: set<JobId>, now: int)
      returns (r: Result<nat, QueueError>, acknowledged: set<JobId>)
      modifies this
      ensures var o := CompletedOne(settings, old(Contents()), id, acknowledged0, now);
              && Issued(o.effects) && acknowledged == o.acknowledged
              && r == if o.error.Some? then Failure(o.error.value) else Success(o.recovered)
    {
      acknowledged := acknowledged0;
      var source := Path(CompletedDir, id);
      var job := ReadJob(settings, Contents(), source);
      if job.Failure? {
        return Failure(job.error), acknowledged;
      }
      var closed, job';
      closed, job', acknowledged := ReconcileTerminal(source, job.value, acknowledged, now);
      if closed.Failure? {
        return Failure(closed.error), acknowledged;
      }
      r := Success(if closed.value then 1 else 0);
    }

    /** One file of the second recovery loop. */
    method RecoverProcessing(id: JobId, acknowledged0: set<JobId>, now: int)
      returns (r: Result<nat, QueueError>, acknowledged: set<JobId>)
      modifies this
      ensures var o := ProcessingOne(settings, old(Contents()), id, acknowledged0, now);
              && Issued(o.effects) && acknowledged == o.acknowledged
              && r == if o.error.Some? then Failure(o.error.value) else Success(o.recovered)
    {
      ghost var d := Contents();
      acknowledged := acknowledged0;
      var source := Path(ProcessingDir, id);
      var read := ReadJob(settings, Contents(), source);
      if read.Failure? {
        return Failure(read.error), acknowledged;
      }
      var job := read.value;
      if job.status == COMMITTED {
        var closed, job';
        closed, job', acknowledged := ReconcileTerminal(source, job, acknowledged, now);
        if closed.Failure? {
          return Failure(closed.error), acknowledged;
        }
        return Success(if closed.value then 1 else 0), acknowledged;
      }
      if job.status in {QUEUED, DEAD_LETTER} {
        var destination := Path(DirectoryOf(job.status), job.id);
        var record := Record(LedgerRecovered, job.id, job.attempt, job.lastErrorCode);
        var moved := Move(source, destination);
        if moved.Failure? {
          return Failure(moved.error), acknowledged;
        }
        AppendLedger(record);
        ApplyTwo(d, Rename(source, destination), Append(record));
        return Success(1), acknowledged;
      }
      if job.claimedAt == None {
        return Failure(QueueCorrupt), acknowledged;
      }
      if LeaseHolds(settings, job, now) {
        return Success(0), acknowledged;
      }
      var moved;
      if job.attempt >= settings.maxAttempts {
        moved := TransferJob(source, Path(DeadLetterDir, id), DeadLettered(job, LEASE_EXPIRED, now),
                             Record(LedgerDeadLetter, id, job.attempt, Some(LEASE_EXPIRED)));
      } else {
        moved := TransferJob(source, Path(QueuedDir, id), Requeued(job, LEASE_EXPIRED, now),
                             Record(LedgerRecovered, id, job.attempt, Some(LEASE_EXPIRED)));
      }
      if moved.Failure? {
        return Failure(moved.error), acknowledged;
      }
      r := Success(1);
    }

    /** The next file of a recovery loop that started on disk d. */
    method RecoverFile(dir: Directory, ids: seq<JobId>, i: nat, acknowledged0: set<JobId>, now: int,
                       ghost d: Disk, ghost start: set<JobId>)
      returns (r: Result<nat, QueueError>, acknowledged: set<JobId>, ghost issued: seq<Effect>)
      requires i < |ids|
      requires var before := RecoverUpTo(settings, d, dir, ids, i, start, now);
               && before.error == None && before.acknowledged == acknowledged0
               && Contents() == ApplyAll(d, before.effects)
      modifies this
      ensures Issued(issued)
      ensures var before := RecoverUpTo(settings, d, dir, ids, i, start, now);
              var o := RecoverUpTo(settings, d, dir, ids, i + 1, start, now);
              && o.effects == before.effects + issued && o.acknowledged == acknowledged
              && Contents() == ApplyAll(d, o.effects)
              && (r.Failure? ==> o.error == Some(r.error) && o == RecoverAll(settings, d, dir, ids, start, now))
              && (r.Success? ==> o.error == None && o.recovered == before.recovered + r.value)
    {
      ghost var before := RecoverUpTo(settings, d, dir, ids, i, start, now);
      ghost var one := RecoverOne(settings, Contents(), dir, ids[i], acknowledged0, now);
      RecoverStep(settings, d, dir, ids, i, start, now, before, one);
      issued := one.effects;
      if dir == CompletedDir {
        r, acknowledged := RecoverCompleted(ids[i], acknowledged0, now);
      } else {
        r, acknowledged := RecoverProcessing(ids[i], acknowledged0, now);
      }
    }

    /** One recovery loop over a listed directory. */
    method RecoverDirectory(dir: Directory, ids: seq<JobId>, acknowledged0: set<JobId>, now: int)
      returns (r: Result<nat, QueueError>, acknowledged: set<JobId>)
      modifies this
      ensures var o := RecoverAll(settings, old(Contents()), dir, ids, acknowledged0, now);
              && Issued(o.effects) && acknowledged == o.acknowledged
              && r == if o.error.Some? then Failure(o.error.value) else Success(o.recovered)
    {
      ghost var d := Contents();
      ghost var done: seq<Effect> := [];
      acknowledged := acknowledged0;
      var recovered := 0;
      for i := 0 to |ids|
        invariant RecoverUpTo(settings, d, dir, ids, i, acknowledged0, now) == Sweep(done, acknowledged, recovered, None)
        invariant Issued(done)
      {
        var count;
        ghost var issued;
        count, acknowledged, issued := RecoverFile(dir, ids, i, acknowledged, now, d, acknowledged0);
        done := done + issued;
        if count.Failure? {
          return Failure(count.error), acknowledged;
        }
        recovered := recovered + count.value;
      }
      r := Success(recovered);
    }

    method RecoverExpiredClaims(now: int) returns (r: Result<nat, QueueError>)
      modifies this
      ensures var o := Operations.RecoverExpiredClaims(settings, old(Contents()), now);
              Issued(o.effects) && r == o.result
    {
      ghost var d := Contents();
      var acknowledged := CommittedLedgerIds();
      var ids := SortedListing(CompletedDir);
      ghost var first := RecoverAll(settings, d, CompletedDir, ids, acknowledged, now);
      r, acknowledged := RecoverDirectory(CompletedDir, ids, acknowledged, now);
      if r.Success? {
        var recovered := r.value;
        ids := SortedListing(ProcessingDir);
        ghost var second := RecoverAll(settings, Contents(), ProcessingDir, ids, acknowledged, now);
        ApplyAllConcat(d, first.effects, second.effects);
        r, acknowledged := RecoverDirectory(ProcessingDir, ids, acknowledged, now);
        if r.Success? {
          r := Success(recovered + r.value);
        }
      }
    }
  }
}
