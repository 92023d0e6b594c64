/** Every effect that an operation issues from a valid disk is legal. */
module QueueLegality {
  import opened Results
  import opened QueueDisk
  import opened QueueOperations
  import opened QueueInvariant

  lemma ReadableUnderInv(s: Settings, d: Disk, p: Path)
    requires Inv(s, d)
    ensures p in d.files ==> ReadJob(s, d, p) == Success(d.files[p])
    ensures p !in d.files ==> ReadJob(s, d, p).Failure?
  {
  }

  /** Closing a committed document: it is renamed unless already in place and recorded unless already recorded. */
  lemma ReconcileLegal(s: Settings, d: Disk, p: Path, now: int, recovering: Option<int>)
    requires Inv(s, d) && p in d.files && p.dir in {ProcessingDir, CompletedDir} && d.files[p].status == COMMITTED
    ensures var r := ReconcileTerminal(d, p, d.files[p], Acknowledged(d.ledger), now);
            var d' := ApplyAll(d, r.effects);
            && r.error == None && r.job == d.files[p]
            && AllLegal(s, d, r.effects, recovering) && AllAbout(r.effects, p.id)
            && r.acknowledged == Acknowledged(d'.ledger) && p.id in r.acknowledged
            && d'.files == (d.files - {p})[Path(CompletedDir, p.id) := d.files[p]]
            && r.repaired == (r.effects != [])
            && (p.dir == CompletedDir && p.id in Acknowledged(d.ledger) ==> r.effects == [])
  {
    var job, destination, record := d.files[p], Path(CompletedDir, p.id), CommittedRecord(d.files[p]);
    AcknowledgedMeansCounted(d.ledger, p.id);
    if p.dir == ProcessingDir {
      assert destination !in d.files;
      assert Acknowledgements(d.ledger, p.id) == 0;
      RenameLegal(s, d, p, destination, record, recovering);
      assert [] + [Rename(p, destination)] + [Append(record)] == [Rename(p, destination), Append(record)];
    } else if p.id !in Acknowledged(d.ledger) {
      AppendStep(s, d, record, recovering);
      ApplyOne(d, Append(record));
      assert [] + [] + [Append(record)] == [Append(record)];
      assert (d.files - {p})[destination := job] == d.files;
    } else {
      assert (d.files - {p})[destination := job] == d.files;
    }
  }

  lemma EnqueueLegal(s: Settings, d: Disk, key: Key, createdAt: int, now: int)
    requires Inv(s, d)
    ensures AllLegal(s, d, Enqueue(s, d, key, createdAt, now).effects, None)
  {
    var job := NewJob(s, key, createdAt);
    var present := ExistingJob(d, job.id);
    if present.Some? {
      var p := present.value;
      ReadableUnderInv(s, d, p);
      var existing := d.files[p];
      var duplicate := Append(Record(LedgerDuplicate, existing.id, existing.attempt, None));
      if existing.key == key && existing.status == COMMITTED {
        ReconcileLegal(s, d, p, now, None);
        var r := ReconcileTerminal(d, p, existing, Acknowledged(d.ledger), now);
        AllLegalAppend(s, d, r.effects, duplicate, None);
      }
    } else {
      var p := Path(QueuedDir, job.id);
      forall q | q in d.files ensures q.id != p.id {
        assert q == Path(q.dir, q.id);
      }
      var w, a := Write(p, job), Append(Record(LedgerEnqueued, job.id, 0, None));
      assert [w] + [a] == [w, a];
      AllLegalAppend(s, d, [w], a, None);
    }
  }

  lemma ClaimLegal(s: Settings, d: Disk, now: int)
    requires Inv(s, d)
    ensures var o := ClaimNext(s, d, now);
            && o.result.Success? && AllLegal(s, d, o.effects, None)
            && (o.result.value == None <==> IdsIn(d, QueuedDir) == {})
            && (o.result.value == None ==> o.effects == [])
            && (o.result.value.Some? ==>
                  var claimed := o.result.value.value;
                  var p := Path(QueuedDir, claimed.id);
                  && IsOldest(d, claimed.id) && claimed == Claimed(d.files[p], now)
                  && o.effects == [Write(p, claimed), Rename(p, Path(ProcessingDir, claimed.id)),
                                   Append(Record(LedgerClaimed, claimed.id, claimed.attempt, None))])
  {
    forall p | p in d.files { ReadableUnderInv(s, d, p); }
    if IdsIn(d, QueuedDir) != {} {
      OldestExists(s, d);
      var id :| IsOldest(d, id);
      forall x | IsOldest(d, x) { OldestUnique(d, id, x); }
      var p := Path(QueuedDir, id);
      var claimed := Claimed(d.files[p], now);
      TransferLegal(s, d, p, Path(ProcessingDir, id), claimed, Record(LedgerClaimed, id, claimed.attempt, None),
                    Some(claimed), None);
    }
  }

  lemma CommitLegal(s: Settings, d: Disk, id: JobId, now: int)
    requires Inv(s, d)
    ensures AllLegal(s, d, Commit(s, d, id, now).effects, None)
  {
    var p := Path(ProcessingDir, id);
    ReadableUnderInv(s, d, p);
    if p in d.files && d.files[p].status in {CLAIMED, PROCESSING} {
      var closed := d.files[p].(status := COMMITTED, committedAt := Some(now));
      TransferLegal(s, d, p, Path(CompletedDir, id), closed, CommittedRecord(closed), Receipt(id, COMMITTED, false), None);
    }
  }

  lemma RetryLegal(s: Settings, d: Disk, id: JobId, code: string, terminal: bool, now: int)
    requires Inv(s, d)
    ensures AllLegal(s, d, RetryOrDeadLetter(s, d, id, code, terminal, now).effects, None)
  {
    var p := Path(ProcessingDir, id);
    ReadableUnderInv(s, d, p);
    if p in d.files && d.files[p].status in {CLAIMED, PROCESSING} {
      var job := d.files[p];
      if terminal || job.attempt >= s.maxAttempts {
        TransferLegal(s, d, p, Path(DeadLetterDir, id), DeadLettered(job, code, now),
                      Record(LedgerDeadLetter, id, job.attempt, Some(code)), Receipt(id, DEAD_LETTER, false), None);
      } else {
        TransferLegal(s, d, p, Path(QueuedDir, id), Requeued(job, code, now),
                      Record(LedgerRequeued, id, job.attempt, Some(code)), Receipt(id, QUEUED, false), None);
      }
    }
  }

  lemma RequeueOneLegal(s: Settings, d: Disk, id: JobId, codes: set<string>, now: int)
    requires Inv(s, d) && Path(DeadLetterDir, id) in d.files
    ensures var o := RequeueOne(s, d, id, codes, now);
            o.result.Success? && AllLegal(s, d, o.effects, None) && AllAbout(o.effects, id)
  {
    var p := Path(DeadLetterDir, id);
    ReadableUnderInv(s, d, p);
    var job := d.files[p];
    if job.status == DEAD_LETTER && job.lastErrorCode.Some? && job.lastErrorCode.value in codes {
      TransferLegal(s, d, p, Path(QueuedDir, id), Revived(job, now),
                    Record(LedgerRequeuedFromDeadLetter, id, 0, job.lastErrorCode), true, None);
    }
  }

  lemma {:induction false} RequeueUpToLegal(s: Settings, d: Disk, ids: seq<JobId>, n: nat, codes: set<string>, now: int)
    requires Inv(s, d) && n <= |ids| && IsListing(ids, IdsIn(d, DeadLetterDir))
    ensures var o := RequeueUpTo(s, d, ids, n, codes, now);
            && o.result.Success? && AllLegal(s, d, o.effects, None)
            && forall j {:trigger ids[j]} :: n <= j < |ids| ==> SameFor(d, ApplyAll(d, o.effects), ids[j])
  {
    if n > 0 {
      RequeueUpToLegal(s, d, ids, n - 1, codes, now);
      var before := RequeueUpTo(s, d, ids, n - 1, codes, now);
      var here, id := ApplyAll(d, before.effects), ids[n - 1];
      AllLegalKeepsInv(s, d, before.effects, None);
      assert id in IdsIn(d, DeadLetterDir);
      assert Path(DeadLetterDir, id) in d.files && SameFor(d, here, id);
      RequeueOneLegal(s, here, id, codes, now);
      var one := RequeueOne(s, here, id, codes, now);
      AllLegalConcat(s, d, before.effects, one.effects, None);
      ApplyAllConcat(d, before.effects, one.effects);
      forall j {:trigger ids[j]} | n <= j < |ids| ensures SameFor(d, ApplyAll(here, one.effects), ids[j]) {
        OthersUntouched(here, one.effects, id, ids[j]);
      }
    }
  }

  lemma RequeueLegal(s: Settings, d: Disk, codes: set<string>, now: int)
    requires Inv(s, d)
    ensures var o := RequeueDeadLetters(s, d, codes, now);
            AllLegal(s, d, o.effects, None) && (o.result.Failure? ==> codes - {""} == {})
  {
    var ids := Listing(IdsIn(d, DeadLetterDir));
    ListingSorted(IdsIn(d, DeadLetterDir));
    RequeueUpToLegal(s, d, ids, |ids|, codes - {""}, now);
  }
}
