/** What each operation does to a valid queue. */
module QueueOutcomes {
  import opened Results
  import opened QueueDisk
  import opened QueueOperations
  import opened QueueInvariant
  import opened QueueLegality

  // ---- Before and after ----

  /** The document is the one its name promises. */
  predicate Readable(s: Settings, d: Disk, p: Path) {
    p in d.files && d.files[p].id == p.id && s.hash(d.files[p].key) == p.id
  }

  /** A worker holds the job. */
  predicate Owned(d: Disk, id: JobId) {
    && Path(ProcessingDir, id) in d.files
    && (d.files[Path(ProcessingDir, id)].status == CLAIMED || d.files[Path(ProcessingDir, id)].status == PROCESSING)
  }

  /** The file p of the old disk is now the file q with this document, and one record was added. */
  predicate Carried(d: Disk, d': Disk, p: Path, q: Path, job: Job, r: Record) {
    && p in d.files && (q == p || q !in d.files) && q.id == p.id
    && d'.files == (d.files - {p})[q := job]
    && d'.ledger == d.ledger + [r]
  }

  /** No other job is touched. */
  ghost predicate OnlyAbout(d: Disk, d': Disk, id: JobId) {
    forall other {:trigger SameFor(d, d', other)} :: other != id ==> SameFor(d, d', other)
  }

  lemma CarriedIsOnlyAbout(d: Disk, d': Disk, p: Path, q: Path, job: Job, r: Record)
    requires Carried(d, d', p, q, job, r) && r.id == p.id
    ensures OnlyAbout(d, d', p.id)
  {
    forall other {:trigger SameFor(d, d', other)} | other != p.id ensures SameFor(d, d', other) {
      AcknowledgementsAppend(d.ledger, r, other);
    }
  }

  lemma TransferCarries<T>(s: Settings, d: Disk, p: Path, q: Path, job: Job, r: Record, value: T)
    requires Inv(s, d) && p in d.files && p.dir != CompletedDir && job.id == p.id == q.id == r.id
    requires InPlace(s, p.dir, job) && Transition(s, p.dir, d.files[p], job)
    requires q.dir == DirectoryOf(job.status) && q.dir != p.dir && (r.action == LedgerCommitted ==> q.dir == CompletedDir)
    ensures var o := Transfer(d, p, q, job, r, value);
            && o.result == Success(value) && Carried(d, ApplyAll(d, o.effects), p, q, job, r)
            && OnlyAbout(d, ApplyAll(d, o.effects), p.id)
  {
    TransferLegal(s, d, p, q, job, r, value, None);
    assert q !in d.files;
    CarriedIsOnlyAbout(d, ApplyAll(d, Transfer(d, p, q, job, r, value).effects), p, q, job, r);
  }

  /** The operation was refused and changed nothing. */
  predicate Refused<T(==)>(o: Outcome<T>, error: QueueError) {
    o.effects == [] && o.result.Failure? && o.result.error == error
  }

  // ---- Operations on a job that a worker holds ----

  /** A commit succeeds exactly for a job that is claimed or being processed, closes it and acknowledges it once. */
  lemma CommitOutcome(s: Settings, d: Disk, id: JobId, now: int)
    requires Inv(s, d)
    ensures var o := Commit(s, d, id, now);
            var d' := ApplyAll(d, o.effects);
            var p := Path(ProcessingDir, id);
            && (!Owned(d, id) ==> Refused(o, QueueState))
            && (Owned(d, id) ==>
                  && o.result == Success(Receipt(id, COMMITTED, false))
                  && Carried(d, d', p, Path(CompletedDir, id), d.files[p].(status := COMMITTED, committedAt := Some(now)),
                             Record(LedgerCommitted, id, d.files[p].attempt, None))
                  && Acknowledgements(d'.ledger, id) == 1 && OnlyAbout(d, d', id))
  {
    var p := Path(ProcessingDir, id);
    ReadableUnderInv(s, d, p);
    if Owned(d, id) {
      var closed := d.files[p].(status := COMMITTED, committedAt := Some(now));
      TransferCarries(s, d, p, Path(CompletedDir, id), closed, CommittedRecord(closed), Receipt(id, COMMITTED, false));
      assert Acknowledgements(d.ledger, id) == 0 by {
        assert Path(CompletedDir, id) !in d.files;
      }
      AcknowledgementsAppend(d.ledger, CommittedRecord(closed), id);
    }
  }

  /** A failed job is retained for review when its attempts are used up or the failure is final, and otherwise queued again. */
  lemma RetryOutcome(s: Settings, d: Disk, id: JobId, code: string, terminal: bool, now: int)
    requires Inv(s, d)
    ensures var o := RetryOrDeadLetter(s, d, id, code, terminal, now);
            var d' := ApplyAll(d, o.effects);
            var p := Path(ProcessingDir, id);
            && (!Owned(d, id) || code == "" ==> Refused(o, QueueState))
            && (Owned(d, id) && code != "" ==>
                  var job := d.files[p];
                  && OnlyAbout(d, d', id)
                  && (terminal || job.attempt >= s.maxAttempts ==>
                        && o.result == Success(Receipt(id, DEAD_LETTER, false))
                        && Carried(d, d', p, Path(DeadLetterDir, id),
                                   job.(status := DEAD_LETTER, lastErrorCode := Some(code), deadLetteredAt := Some(now)),
                                   Record(LedgerDeadLetter, id, job.attempt, Some(code))))
                  && (!terminal && job.attempt < s.maxAttempts ==>
                        && o.result == Success(Receipt(id, QUEUED, false))
                        && Carried(d, d', p, Path(QueuedDir, id),
                                   job.(status := QUEUED, lastErrorCode := Some(code), retryEnqueuedAt := Some(now)),
                                   Record(LedgerRequeued, id, job.attempt, Some(code)))))
  {
    var p := Path(ProcessingDir, id);
    ReadableUnderInv(s, d, p);
    if Owned(d, id) && code != "" {
      var job := d.files[p];
      if terminal || job.attempt >= s.maxAttempts {
        TransferCarries(s, d, p, Path(DeadLetterDir, id), DeadLettered(job, code, now),
                        Record(LedgerDeadLetter, id, job.attempt, Some(code)), Receipt(id, DEAD_LETTER, false));
      } else {
        TransferCarries(s, d, p, Path(QueuedDir, id), Requeued(job, code, now),
                        Record(LedgerRequeued, id, job.attempt, Some(code)), Receipt(id, QUEUED, false));
      }
    }
  }

  /** Processing starts exactly for a claimed job, in place. */
  lemma StartOutcome(s: Settings, d: Disk, id: JobId, now: int)
    requires Inv(s, d)
    ensures var o := StartProcessing(s, d, id, now);
            var d' := ApplyAll(d, o.effects);
            var p := Path(ProcessingDir, id);
            && (!(p in d.files && d.files[p].status == CLAIMED) ==> Refused(o, QueueState))
            && (p in d.files && d.files[p].status == CLAIMED ==>
                  var started := d.files[p].(status := PROCESSING, processingAt := Some(now));
                  && o.result == Success(started) && OnlyAbout(d, d', id)
                  && Carried(d, d', p, p, started, Record(LedgerProcessing, id, started.attempt, None)))
  {
    var p := Path(ProcessingDir, id);
    ReadableUnderInv(s, d, p);
    if p in d.files && d.files[p].status == CLAIMED {
      var started := d.files[p].(status := PROCESSING, processingAt := Some(now));
      var r := Record(LedgerProcessing, id, started.attempt, None);
      ApplyTwo(d, Write(p, started), Append(r));
      assert (d.files - {p})[p := started] == d.files[p := started];
      CarriedIsOnlyAbout(d, ApplyAll(d, [Write(p, started), Append(r)]), p, p, started, r);
    }
  }

  /** A lease is renewed exactly for a job that is held; only its claim time changes, and no record is made. */
  lemma RenewOutcome(s: Settings, d: Disk, id: JobId, now: int)
    requires Inv(s, d)
    ensures var o := Renew(s, d, id, now);
            var d' := ApplyAll(d, o.effects);
            var p := Path(ProcessingDir, id);
            && (p !in d.files ==> Refused(o, QueueCorrupt))
            && (p in d.files && !Owned(d, id) ==> Refused(o, QueueState))
            && (Owned(d, id) ==>
                  && o.result == Success(()) && OnlyAbout(d, d', id)
                  && d' == Disk(d.files[p := d.files[p].(claimedAt := Some(now))], d.ledger))
  {
    var p := Path(ProcessingDir, id);
    ReadableUnderInv(s, d, p);
    if Owned(d, id) {
      ApplyOne(d, Write(p, d.files[p].(claimedAt := Some(now))));
    }
  }

  // ---- Claiming ----

  /** The job that was created first, and of those created together the one with the least id. */
  ghost predicate FirstInLine(d: Disk, id: JobId) {
    && Path(QueuedDir, id) in d.files
    && forall x {:trigger Path(QueuedDir, x)} :: Path(QueuedDir, x) in d.files && x != id ==>
         var mine, other := d.files[Path(QueuedDir, id)].createdAt, d.files[Path(QueuedDir, x)].createdAt;
         mine < other || (mine == other && id < x)
  }

  /** The first job in line is claimed with one more attempt; an empty queue gives nothing. */
  lemma ClaimOutcome(s: Settings, d: Disk, now: int)
    requires Inv(s, d)
    ensures var o := ClaimNext(s, d, now);
            var d' := ApplyAll(d, o.effects);
            && ((forall p :: p in d.files ==> p.dir != QueuedDir) ==> o == Outcome([], Success(None)))
            && ((exists p :: p in d.files && p.dir == QueuedDir) ==>
                  && o.result.Success? && o.result.value.Some?
                  && var claimed := o.result.value.value;
                     var p := Path(QueuedDir, claimed.id);
                     && FirstInLine(d, claimed.id) && OnlyAbout(d, d', claimed.id)
                     && claimed == d.files[p].(status := CLAIMED, attempt := d.files[p].attempt + 1, claimedAt := Some(now))
                     && Carried(d, d', p, Path(ProcessingDir, claimed.id), claimed,
                                Record(LedgerClaimed, claimed.id, claimed.attempt, None)))
  {
    ClaimLegal(s, d, now);
    var o := ClaimNext(s, d, now);
    if p :| p in d.files && p.dir == QueuedDir {
      assert p.id in IdsIn(d, QueuedDir);
      var claimed := o.result.value.value;
      var source := Path(QueuedDir, claimed.id);
      assert d.files[source].id == claimed.id && InPlace(s, QueuedDir, d.files[source]);
      forall x {:trigger Path(QueuedDir, x)} | Path(QueuedDir, x) in d.files && x != claimed.id
        ensures Before(d.files[source], d.files[Path(QueuedDir, x)]) && d.files[Path(QueuedDir, x)].id == x
      {
      }
      TransferCarries(s, d, source, Path(ProcessingDir, claimed.id), claimed,
                      Record(LedgerClaimed, claimed.id, claimed.attempt, None), Some(claimed));
    } else {
      assert IdsIn(d, QueuedDir) == {};
    }
  }

  // ---- Enqueueing ----

  /** The document of an event that has not been seen. */
  predicate IsNewJob(job: Job, id: JobId, key: Key, createdAt: int) {
    && job.id == id && job.key == key && job.status == QUEUED && job.attempt == 0 && job.createdAt == createdAt
    && job.claimedAt == None && job.processingAt == None && job.committedAt == None && job.retryEnqueuedAt == None
    && job.deadLetteredAt == None && job.requeuedAt == None && job.lastErrorCode == None
  }

  /** An unseen event becomes the only file of its job, unless the queue is full. */
  lemma EnqueueNew(s: Settings, d: Disk, key: Key, createdAt: int, now: int)
    requires Inv(s, d) && forall p :: p in d.files ==> p.id != s.hash(key)
    ensures var o := Enqueue(s, d, key, createdAt, now);
            var d' := ApplyAll(d, o.effects);
            var id := s.hash(key);
            var queued := set p | p in d.files && p.dir == QueuedDir :: p.id;
            && (|queued| >= s.maxQueuedJobs ==> Refused(o, QueueFull))
            && (|queued| < s.maxQueuedJobs ==>
                  && o.result == Success(Receipt(id, QUEUED, false)) && OnlyAbout(d, d', id)
                  && Path(QueuedDir, id) in d'.files && IsNewJob(d'.files[Path(QueuedDir, id)], id, key, createdAt)
                  && d'.files - {Path(QueuedDir, id)} == d.files
                  && d'.ledger == d.ledger + [Record(LedgerEnqueued, id, 0, None)])
  {
    var id := s.hash(key);
    var p, r := Path(QueuedDir, id), Record(LedgerEnqueued, id, 0, None);
    assert (set q | q in d.files && q.dir == QueuedDir :: q.id) == IdsIn(d, QueuedDir);
    assert ExistingJob(d, id) == None;
    ApplyTwo(d, Write(p, NewJob(s, key, createdAt)), Append(r));
    var d' := ApplyAll(d, [Write(p, NewJob(s, key, createdAt)), Append(r)]);
    assert d'.files - {p} == d.files;
    forall other {:trigger SameFor(d, d', other)} | other != id ensures SameFor(d, d', other) {
      AcknowledgementsAppend(d.ledger, r, other);
    }
  }

  /** An event whose job has another key is refused as a corrupt queue. */
  lemma EnqueueCollision(s: Settings, d: Disk, key: Key, createdAt: int, now: int, p: Path)
    requires Inv(s, d) && p in d.files && p.id == s.hash(key) && d.files[p].key != key
    ensures Refused(Enqueue(s, d, key, createdAt, now), QueueCorrupt)
  {
    ExistingIsUnique(s, d, p);
    ReadableUnderInv(s, d, p);
  }

  /** A repeated delivery is acknowledged with the job's status; a commit that was cut is closed on the way, nothing else moves. */
  lemma EnqueueAgain(s: Settings, d: Disk, key: Key, createdAt: int, now: int, p: Path)
    requires Inv(s, d) && p in d.files && p.id == s.hash(key) && d.files[p].key == key
    ensures var o := Enqueue(s, d, key, createdAt, now);
            var d' := ApplyAll(d, o.effects);
            var job := d.files[p];
            var repeat := Record(LedgerDuplicate, p.id, job.attempt, None);
            && o.result == Success(Receipt(p.id, job.status, true))
            && (job.status != COMMITTED ==> d' == Disk(d.files, d.ledger + [repeat]))
            && (job.status == COMMITTED ==>
                  && d'.files == (d.files - {p})[Path(CompletedDir, p.id) := job]
                  && (Acknowledgements(d.ledger, p.id) > 0 ==> d'.ledger == d.ledger + [repeat])
                  && (Acknowledgements(d.ledger, p.id) == 0 ==>
                        d'.ledger == d.ledger + [Record(LedgerCommitted, p.id, job.attempt, None), repeat]))
  {
    ExistingIsUnique(s, d, p);
    ReadableUnderInv(s, d, p);
    var job := d.files[p];
    var repeat := Append(Record(LedgerDuplicate, p.id, job.attempt, None));
    if job.status == COMMITTED {
      ClosedThenRepeated(s, d, p, now, repeat);
    } else {
      ApplyOne(d, repeat);
    }
  }

  /** What closing a commit issues: a rename unless it is in place, a record unless it has one. */
  lemma ReconcileIssues(s: Settings, d: Disk, p: Path, now: int)
    requires Inv(s, d) && p in d.files && p.dir in {ProcessingDir, CompletedDir} && d.files[p].status == COMMITTED
    ensures var r := ReconcileTerminal(d, p, d.files[p], Acknowledged(d.ledger), now);
            && r.error == None && r.job == d.files[p]
            && r.effects == (if p.dir == ProcessingDir then [Rename(p, Path(CompletedDir, p.id))] else [])
                          + (if Acknowledgements(d.ledger, p.id) == 0
                             then [Append(Record(LedgerCommitted, p.id, d.files[p].attempt, None))] else [])
  {
    AcknowledgedMeansCounted(d.ledger, p.id);
    assert p.dir == ProcessingDir ==> Path(CompletedDir, p.id) !in d.files;
    assert p.dir == CompletedDir ==> p == Path(CompletedDir, p.id);
  }

  lemma ClosedThenRepeated(s: Settings, d: Disk, p: Path, now: int, repeat: Effect)
    requires Inv(s, d) && p in d.files && p.dir in {ProcessingDir, CompletedDir} && d.files[p].status == COMMITTED
    requires repeat.Append? && repeat.record.action != LedgerCommitted
    ensures var r := ReconcileTerminal(d, p, d.files[p], Acknowledged(d.ledger), now);
            var d' := ApplyAll(d, r.effects + [repeat]);
            && r.error == None && r.job == d.files[p]
            && d'.files == (d.files - {p})[Path(CompletedDir, p.id) := d.files[p]]
            && (Acknowledgements(d.ledger, p.id) > 0 ==> d'.ledger == d.ledger + [repeat.record])
            && (Acknowledgements(d.ledger, p.id) == 0 ==>
                  d'.ledger == d.ledger + [Record(LedgerCommitted, p.id, d.files[p].attempt, None), repeat.record])
  {
    ReconcileIssues(s, d, p, now);
    var job := d.files[p];
    var effects := ReconcileTerminal(d, p, job, Acknowledged(d.ledger), now).effects;
    ApplyAllLast(d, effects, repeat);
    var record, rename := Append(Record(LedgerCommitted, p.id, job.attempt, None)), Rename(p, Path(CompletedDir, p.id));
    if p.dir == ProcessingDir {
      assert Path(CompletedDir, p.id) !in d.files;
      assert Acknowledgements(d.ledger, p.id) == 0;
      assert effects == [rename, record];
      ApplyTwo(d, rename, record);
    } else {
      assert (d.files - {p})[Path(CompletedDir, p.id) := job] == d.files;
      assert effects == if Acknowledgements(d.ledger, p.id) == 0 then [record] else [];
      ApplyOne(d, record);
    }
  }

  // ---- The dead-letter sweep ----

  /** A dead letter whose last error is among the codes. */
  predicate Revivable(d: Disk, id: JobId, codes: set<string>) {
    && Path(DeadLetterDir, id) in d.files
    && var job := d.files[Path(DeadLetterDir, id)];
       job.status == DEAD_LETTER && job.lastErrorCode.Some? && job.lastErrorCode.value in codes && job.lastErrorCode.value != ""
  }

  /** The job is queued again with a fresh count of attempts, or nothing about it has changed. */
  ghost predicate RevivedOrSame(d: Disk, d': Disk, id: JobId, codes: set<string>, now: int) {
    if Revivable(d, id, codes) then
      var p, q := Path(DeadLetterDir, id), Path(QueuedDir, id);
      && p !in d'.files && q in d'.files
      && d'.files[q] == d.files[p].(status := QUEUED, attempt := 0, requeuedAt := Some(now))
    else SameFor(d, d', id)
  }

  /** The ledger tells of each revived job, in order, with the code it had. */
  ghost predicate RecordsRevivals(d: Disk, d': Disk, revived: seq<JobId>, codes: set<string>) {
    && |d'.ledger| == |d.ledger| + |revived| && d'.ledger[..|d.ledger|] == d.ledger
    && forall i {:trigger revived[i]} :: 0 <= i < |revived| ==>
         && Revivable(d, revived[i], codes)
         && d'.ledger[|d.ledger| + i]
         == Record(LedgerRequeuedFromDeadLetter, revived[i], 0, d.files[Path(DeadLetterDir, revived[i])].lastErrorCode)
  }

  lemma RevivalOutcome(s: Settings, d: Disk, id: JobId, codes: set<string>, now: int)
    requires Inv(s, d) && Revivable(d, id, codes)
    ensures var o := RequeueOne(s, d, id, codes, now);
            var p := Path(DeadLetterDir, id);
            && o.result == Success(true) && OnlyAbout(d, ApplyAll(d, o.effects), id)
            && Carried(d, ApplyAll(d, o.effects), p, Path(QueuedDir, id),
                       d.files[p].(status := QUEUED, attempt := 0, requeuedAt := Some(now)),
                       Record(LedgerRequeuedFromDeadLetter, id, 0, d.files[p].lastErrorCode))
  {
    var p := Path(DeadLetterDir, id);
    ReadableUnderInv(s, d, p);
    TransferCarries(s, d, p, Path(QueuedDir, id), Revived(d.files[p], now),
                    Record(LedgerRequeuedFromDeadLetter, id, 0, d.files[p].lastErrorCode), true);
  }

  lemma CarriedRevives(d: Disk, d': Disk, id: JobId, codes: set<string>, now: int)
    requires Revivable(d, id, codes)
    requires var p := Path(DeadLetterDir, id);
             Carried(d, d', p, Path(QueuedDir, id), d.files[p].(status := QUEUED, attempt := 0, requeuedAt := Some(now)),
                     Record(LedgerRequeuedFromDeadLetter, id, 0, d.files[p].lastErrorCode))
    ensures RevivedOrSame(d, d', id, codes, now) && RecordsRevivals(d, d', [id], codes)
  {
  }

  lemma RequeueOneOutcome(s: Settings, d: Disk, id: JobId, codes: set<string>, now: int)
    requires Inv(s, d) && Path(DeadLetterDir, id) in d.files && "" !in codes
    ensures var o := RequeueOne(s, d, id, codes, now);
            var d' := ApplyAll(d, o.effects);
            && o.result == Success(Revivable(d, id, codes)) && Inv(s, d') && OnlyAbout(d, d', id)
            && RevivedOrSame(d, d', id, codes, now) && RecordsRevivals(d, d', if o.result.value then [id] else [], codes)
  {
    RequeueOneLegal(s, d, id, codes, now);
    var o := RequeueOne(s, d, id, codes, now);
    AllLegalKeepsInv(s, d, o.effects, None);
    if Revivable(d, id, codes) {
      RevivalOutcome(s, d, id, codes, now);
      CarriedRevives(d, ApplyAll(d, o.effects), id, codes, now);
    } else {
      ReadableUnderInv(s, d, Path(DeadLetterDir, id));
      assert o.effects == [];
    }
  }

  /** After n files of the sweep. */
  ghost predicate SweptSoFar(s: Settings, d: Disk, d': Disk, ids: seq<JobId>, n: nat, codes: set<string>, now: int, revived: seq<JobId>)
    requires n <= |ids|
  {
    && Inv(s, d')
    && (forall id {:trigger RevivedOrSame(d, d', id, codes, now)} :: id in ids[..n] ==> RevivedOrSame(d, d', id, codes, now))
    && (forall id {:trigger SameFor(d, d', id)} :: id !in ids[..n] ==> SameFor(d, d', id))
    && IsListing(revived, set id | id in ids[..n] && Revivable(d, id, codes))
    && RecordsRevivals(d, d', revived, codes)
  }

  lemma SameTransitive(a: Disk, b: Disk, c: Disk, id: JobId)
    requires SameFor(a, b, id) && SameFor(b, c, id)
    ensures SameFor(a, c, id)
  {
  }

  lemma RevivalStays(a: Disk, b: Disk, c: Disk, id: JobId, codes: set<string>, now: int)
    requires RevivedOrSame(a, b, id, codes, now) && SameFor(b, c, id)
    ensures RevivedOrSame(a, c, id, codes, now)
  {
    assert SameFor(b, c, id);
    assert Path(DeadLetterDir, id) in c.files <==> Path(DeadLetterDir, id) in b.files;
    assert Path(QueuedDir, id) in c.files <==> Path(QueuedDir, id) in b.files;
  }

  lemma RevivalFrom(a: Disk, b: Disk, c: Disk, id: JobId, codes: set<string>, now: int)
    requires SameFor(a, b, id) && RevivedOrSame(b, c, id, codes, now)
    ensures Revivable(a, id, codes) == Revivable(b, id, codes) && RevivedOrSame(a, c, id, codes, now)
  {
    assert Path(DeadLetterDir, id) in a.files <==> Path(DeadLetterDir, id) in b.files;
  }

  lemma SweepNextOutcome(s: Settings, d: Disk, here: Disk, ids: seq<JobId>, n: nat, codes: set<string>, now: int, revived: seq<JobId>)
    requires n < |ids| && (forall i, j :: 0 <= i < j < |ids| ==> ids[i] < ids[j])
    requires SweptSoFar(s, d, here, ids, n, codes, now, revived) && Path(DeadLetterDir, ids[n]) in d.files && "" !in codes
    ensures Path(DeadLetterDir, ids[n]) in here.files
    ensures var o := RequeueOne(s, here, ids[n], codes, now);
            o.result.Success?
            && SweptSoFar(s, d, ApplyAll(here, o.effects), ids, n + 1, codes, now, revived + if o.result.value then [ids[n]] else [])
  {
    var id := ids[n];
    var o := RequeueOne(s, here, id, codes, now);
    var after := ApplyAll(here, o.effects);
    assert ids[..n + 1] == ids[..n] + [id];
    assert id !in ids[..n] && SameFor(d, here, id);
    RequeueOneOutcome(s, here, id, codes, now);
    RevivalFrom(d, here, after, id, codes, now);
    forall x {:trigger RevivedOrSame(d, after, x, codes, now)} | x in ids[..n + 1] ensures RevivedOrSame(d, after, x, codes, now) {
      if x != id {
        assert SameFor(here, after, x);
        RevivalStays(d, here, after, x, codes, now);
      }
    }
    forall x {:trigger SameFor(d, after, x)} | x !in ids[..n + 1] ensures SameFor(d, after, x) {
      assert SameFor(here, after, x);
      SameTransitive(d, here, after, x);
    }
    ListingGrows(ids, n, d, codes, revived, o.result.value);
    RecordsGrow(d, here, after, revived, id, o.result.value, codes);
  }

  lemma RecordsGrow(d: Disk, here: Disk, after: Disk, revived: seq<JobId>, id: JobId, more: bool, codes: set<string>)
    requires RecordsRevivals(d, here, revived, codes) && RecordsRevivals(here, after, if more then [id] else [], codes)
    requires SameFor(d, here, id) && more == Revivable(d, id, codes)
    ensures RecordsRevivals(d, after, revived + (if more then [id] else []), codes)
  {
    assert Path(DeadLetterDir, id) in d.files <==> Path(DeadLetterDir, id) in here.files;
    assert after.ledger[..|here.ledger|] == here.ledger;
    assert forall i :: 0 <= i < |here.ledger| ==> after.ledger[i] == here.ledger[i];
    if more {
      assert [id][0] == id;
    }
  }

  lemma ListingGrows(ids: seq<JobId>, n: nat, d: Disk, codes: set<string>, revived: seq<JobId>, more: bool)
    requires n < |ids| && (forall i, j :: 0 <= i < j < |ids| ==> ids[i] < ids[j]) && more == Revivable(d, ids[n], codes)
    requires IsListing(revived, set id | id in ids[..n] && Revivable(d, id, codes))
    ensures IsListing(revived + (if more then [ids[n]] else []), set id | id in ids[..n + 1] && Revivable(d, id, codes))
  {
    assert ids[..n + 1] == ids[..n] + [ids[n]];
    forall i | 0 <= i < |revived| ensures revived[i] < ids[n] {
      assert revived[i] in revived;
    }
  }

  lemma SweepNextRevives(s: Settings, d: Disk, ids: seq<JobId>, n: nat, codes: set<string>, now: int)
    requires IsListing(ids, IdsIn(d, DeadLetterDir)) && n < |ids| && "" !in codes
    requires var o := RequeueUpTo(s, d, ids, n, codes, now);
             o.result.Success? && SweptSoFar(s, d, ApplyAll(d, o.effects), ids, n, codes, now, o.result.value)
    ensures var o := RequeueUpTo(s, d, ids, n + 1, codes, now);
            o.result.Success? && SweptSoFar(s, d, ApplyAll(d, o.effects), ids, n + 1, codes, now, o.result.value)
  {
    var before := RequeueUpTo(s, d, ids, n, codes, now);
    var here := ApplyAll(d, before.effects);
    assert ids[n] in IdsIn(d, DeadLetterDir);
    SweepNextOutcome(s, d, here, ids, n, codes, now, before.result.value);
    RequeueStep(s, d, ids, n, codes, now, before, RequeueOne(s, here, ids[n], codes, now));
  }

  lemma {:induction false} SweepRevives(s: Settings, d: Disk, ids: seq<JobId>, n: nat, codes: set<string>, now: int)
    requires Inv(s, d) && IsListing(ids, IdsIn(d, DeadLetterDir)) && n <= |ids| && "" !in codes
    ensures var o := RequeueUpTo(s, d, ids, n, codes, now);
            o.result.Success? && SweptSoFar(s, d, ApplyAll(d, o.effects), ids, n, codes, now, o.result.value)
  {
    if n > 0 {
      SweepRevives(s, d, ids, n - 1, codes, now);
      SweepNextRevives(s, d, ids, n - 1, codes, now);
    }
  }

  /** The sweep revives exactly the dead letters with a selected code, returns them in order, and leaves every other job alone. */
  lemma RequeueOutcome(s: Settings, d: Disk, codes: set<string>, now: int)
    requires Inv(s, d)
    ensures var o := RequeueDeadLetters(s, d, codes, now);
            var d' := ApplyAll(d, o.effects);
            && ((forall code :: code in codes ==> code == "") ==> Refused(o, QueueState))
            && ((exists code :: code in codes && code != "") ==>
                  && o.result.Success?
                  && (forall i, j :: 0 <= i < j < |o.result.value| ==> o.result.value[i] < o.result.value[j])
                  && (forall id :: id in o.result.value <==> Revivable(d, id, codes))
                  && RecordsRevivals(d, d', o.result.value, codes)
                  && (forall id {:trigger RevivedOrSame(d, d', id, codes, now)} :: RevivedOrSame(d, d', id, codes, now)))
  {
    if code :| code in codes && code != "" {
      assert code in codes - {""};
      var ids, selected := Listing(IdsIn(d, DeadLetterDir)), codes - {""};
      ListingSorted(IdsIn(d, DeadLetterDir));
      SweepRevives(s, d, ids, |ids|, selected, now);
      assert ids[..|ids|] == ids;
      var o := RequeueDeadLetters(s, d, codes, now);
      var d' := ApplyAll(d, o.effects);
      forall id ensures Revivable(d, id, codes) == Revivable(d, id, selected) {
      }
      forall id {:trigger RevivedOrSame(d, d', id, codes, now)} ensures RevivedOrSame(d, d', id, codes, now) {
        assert RevivedOrSame(d, d', id, selected, now) || SameFor(d, d', id);
        if id !in ids {
          assert Path(DeadLetterDir, id) in d.files ==> id in IdsIn(d, DeadLetterDir);
        }
      }
    } else {
      assert codes - {""} == {};
    }
  }

  // ---- Corrupt files ----

  /** On any disk, a worker's operation on a job whose file is not the document its name promises is refused. */
  lemma UnreadableIsRefused(s: Settings, d: Disk, id: JobId, code: string, terminal: bool, now: int)
    requires var p := Path(ProcessingDir, id); p in d.files && !Readable(s, d, p)
    ensures Refused(Commit(s, d, id, now), QueueCorrupt) && Refused(StartProcessing(s, d, id, now), QueueCorrupt)
    ensures Refused(Renew(s, d, id, now), QueueCorrupt)
    ensures code != "" ==> Refused(RetryOrDeadLetter(s, d, id, code, terminal, now), QueueCorrupt)
  {
  }

  /** A claim is refused if any file in the queue is not what its name promises. */
  lemma UnreadableStopsClaims(s: Settings, d: Disk, now: int, p: Path)
    requires p in d.files && p.dir == QueuedDir && !Readable(s, d, p)
    ensures Refused(ClaimNext(s, d, now), QueueCorrupt)
  {
    assert !ReadJob(s, d, p).Success?;
  }

  lemma {:induction false} SweepReads(s: Settings, d: Disk, ids: seq<JobId>, n: nat, codes: set<string>, now: int)
    requires n <= |ids| && (forall i, j :: 0 <= i < j < |ids| ==> ids[i] < ids[j])
    requires RequeueUpTo(s, d, ids, n, codes, now).result.Success?
    ensures forall j {:trigger ids[j]} :: 0 <= j < n ==> Readable(s, d, Path(DeadLetterDir, ids[j]))
    ensures forall x {:trigger SameFor(d, ApplyAll(d, RequeueUpTo(s, d, ids, n, codes, now).effects), x)} ::
              x !in ids[..n] ==> SameFor(d, ApplyAll(d, RequeueUpTo(s, d, ids, n, codes, now).effects), x)
  {
    if n > 0 {
      var before := RequeueUpTo(s, d, ids, n - 1, codes, now);
      assert before.result.Success?;
      SweepReads(s, d, ids, n - 1, codes, now);
      var here, id := ApplyAll(d, before.effects), ids[n - 1];
      var one := RequeueOne(s, here, id, codes, now);
      RequeueStep(s, d, ids, n - 1, codes, now, before, one);
      assert id !in ids[..n - 1] && SameFor(d, here, id);
      assert Readable(s, here, Path(DeadLetterDir, id)) && AllAbout(one.effects, id);
      assert Path(DeadLetterDir, id) in d.files <==> Path(DeadLetterDir, id) in here.files;
      SweepLeaves(d, here, ids, n, one.effects);
    }
  }

  lemma SweepLeaves(d: Disk, here: Disk, ids: seq<JobId>, n: nat, es: seq<Effect>)
    requires 0 < n <= |ids| && AllAbout(es, ids[n - 1])
    requires forall x {:trigger SameFor(d, here, x)} :: x !in ids[..n - 1] ==> SameFor(d, here, x)
    ensures forall x {:trigger SameFor(d, ApplyAll(here, es), x)} :: x !in ids[..n] ==> SameFor(d, ApplyAll(here, es), x)
  {
    assert ids[..n] == ids[..n - 1] + [ids[n - 1]];
    forall x {:trigger SameFor(d, ApplyAll(here, es), x)} | x !in ids[..n] ensures SameFor(d, ApplyAll(here, es), x) {
      OthersUntouched(here, es, ids[n - 1], x);
      SameTransitive(d, here, ApplyAll(here, es), x);
    }
  }

  /** On any disk the dead-letter sweep succeeds only if every dead letter is what its name promises. */
  lemma UnreadableStopsSweeps(s: Settings, d: Disk, codes: set<string>, now: int, p: Path)
    requires p in d.files && p.dir == DeadLetterDir && !Readable(s, d, p)
    ensures RequeueDeadLetters(s, d, codes, now).result.Failure?
  {
    var ids := Listing(IdsIn(d, DeadLetterDir));
    ListingSorted(IdsIn(d, DeadLetterDir));
    assert p.id in IdsIn(d, DeadLetterDir) && p == Path(DeadLetterDir, p.id);
    var j :| 0 <= j < |ids| && ids[j] == p.id;
    if RequeueDeadLetters(s, d, codes, now).result.Success? {
      SweepReads(s, d, ids, |ids|, codes - {""}, now);
    }
  }
}
