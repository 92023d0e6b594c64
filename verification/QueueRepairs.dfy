/** What recovery repairs: which jobs, where each of them ends with which document, and how many are reported. */
module QueueRepairs {
  import opened Results
  import opened QueueDisk
  import opened QueueOperations
  import opened QueueInvariant
  import opened QueueLegality
  import opened QueueRecovery
  import opened QueueOutcomes

  /** The lease of a held job has run out. */
  predicate Expired(s: Settings, job: Job, now: int) {
    job.claimedAt.Some? && now - job.claimedAt.value >= s.leaseSeconds
  }

  /** The file and document that recovery leaves for a file. */
  ghost predicate EndsAs(s: Settings, d: Disk, d': Disk, p: Path, now: int)
    requires p in d.files
  {
    var job := d.files[p];
    if p.dir != ProcessingDir then Holds(d', p, job)
    else
      match job.status
      case COMMITTED => Holds(d', Path(CompletedDir, p.id), job)
      case QUEUED => Holds(d', Path(QueuedDir, p.id), job)
      case DEAD_LETTER => Holds(d', Path(DeadLetterDir, p.id), job)
      case _ =>
        if !Expired(s, job, now) then Holds(d', p, job)
        else if job.attempt >= s.maxAttempts then
          Holds(d', Path(DeadLetterDir, p.id),
                job.(status := DEAD_LETTER, lastErrorCode := Some("CAPTURE_LEASE_EXPIRED"), deadLetteredAt := Some(now)))
        else
          Holds(d', Path(QueuedDir, p.id),
                job.(status := QUEUED, lastErrorCode := Some("CAPTURE_LEASE_EXPIRED"), retryEnqueuedAt := Some(now)))
  }

  predicate Holds(d: Disk, p: Path, job: Job) {
    p in d.files && d.files[p] == job
  }

  /** The file is one that recovery has to touch: a cut transition, an expired lease or a commit without its record. */
  predicate NeedsRepair(s: Settings, d: Disk, p: Path, now: int) {
    p in d.files
    && var job := d.files[p];
       || (p.dir == ProcessingDir && job.status in {COMMITTED, QUEUED, DEAD_LETTER})
       || (p.dir == ProcessingDir && job.status in {CLAIMED, PROCESSING} && Expired(s, job, now))
       || (p.dir == CompletedDir && Acknowledgements(d.ledger, p.id) == 0)
  }

  ghost function Repairs(s: Settings, d: Disk, now: int): set<JobId> {
    set p | p in d.files && NeedsRepair(s, d, p, now) :: p.id
  }

  // ---- Where every file ends ----

  lemma GoalMeans(s: Settings, d: Disk, d': Disk, p: Path, now: int)
    requires Inv(s, d) && Inv(s, d') && p in d.files && Settled(s, d', now) && SameGoal(s, d, d', now)
    ensures EndsAs(s, d, d', p, now)
  {
    ExistingIsUnique(s, d, p);
    assert Goal(s, d', p.id, now) == Goal(s, d, p.id, now) == Some(Settle(s, p, d.files[p], now));
    var q := ExistingJob(d', p.id).value;
    assert q == Path(q.dir, p.id) && SettledJob(s, d', p.id, now);
    assert Settle(s, q, d'.files[q], now) == (q, d'.files[q]);
    assert InPlace(s, p.dir, d.files[p]);
  }

  /**
   Recovery leaves every file where its document belongs: cut transitions are finished, held jobs stay until their
   lease runs out and then go back to the queue or, with no attempts left, to the dead letters. No job appears or
   disappears, and exactly the committed jobs in completed are acknowledged, each once.
   */
  lemma RecoveryOutcome(s: Settings, d: Disk, now: int)
    requires Inv(s, d)
    ensures var o := RecoverExpiredClaims(s, d, now);
            var d' := ApplyAll(d, o.effects);
            && o.result.Success?
            && (forall p {:trigger EndsAs(s, d, d', p, now)} :: p in d.files ==> EndsAs(s, d, d', p, now))
            && (forall q :: q in d'.files ==> exists p :: p in d.files && p.id == q.id)
            && (forall q :: q in d'.files && d'.files[q].status == COMMITTED ==>
                  q.dir == CompletedDir && Acknowledgements(d'.ledger, q.id) == 1)
  {
    var o := RecoverExpiredClaims(s, d, now);
    var d' := ApplyAll(d, o.effects);
    RecoverySettles(s, d, now);
    AllLegalKeepsInv(s, d, o.effects, Some(now));
    RecoveryClosesCommitsAndLeases(s, d, now);
    forall p {:trigger EndsAs(s, d, d', p, now)} | p in d.files ensures EndsAs(s, d, d', p, now) {
      GoalMeans(s, d, d', p, now);
    }
    NoneAppear(s, d, d', now);
  }

  lemma NoneAppear(s: Settings, d: Disk, d': Disk, now: int)
    requires Inv(s, d') && SameGoal(s, d, d', now)
    ensures forall q :: q in d'.files ==> exists p :: p in d.files && p.id == q.id
  {
    forall q | q in d'.files ensures exists p :: p in d.files && p.id == q.id {
      ExistingIsUnique(s, d', q);
      assert Goal(s, d', q.id, now) == Goal(s, d, q.id, now);
      var p := ExistingJob(d, q.id);
      assert p.Some? && p.value in d.files && p.value.id == q.id;
    }
  }

  // ---- How many ----

  lemma UnsettledIsRepair(s: Settings, d: Disk, p: Path, now: int)
    requires Inv(s, d) && p in d.files
    ensures SettledJob(s, d, p.id, now) <==> !NeedsRepair(s, d, p, now)
  {
    AcknowledgedMeansCounted(d.ledger, p.id);
    assert InPlace(s, p.dir, d.files[p]);
    assert p == Path(p.dir, p.id);
    if !NeedsRepair(s, d, p, now) {
      forall dir {:trigger Path(dir, p.id)} | Path(dir, p.id) in d.files
        ensures Settle(s, Path(dir, p.id), d.files[Path(dir, p.id)], now) == (Path(dir, p.id), d.files[Path(dir, p.id)])
      {
        assert Path(dir, p.id) == p;
      }
    }
  }

  lemma CompletedCounts(s: Settings, d: Disk, id: JobId, now: int)
    requires Inv(s, d) && Path(CompletedDir, id) in d.files
    ensures CompletedOne(s, d, id, Acknowledged(d.ledger), now).recovered == if SettledJob(s, d, id, now) then 0 else 1
  {
    var p := Path(CompletedDir, id);
    ReadableUnderInv(s, d, p);
    ReconcileLegal(s, d, p, now, Some(now));
    CompletedOneRecovers(s, d, id, now);
    if !SettledJob(s, d, id, now) {
      UnsettledIsRepair(s, d, p, now);
      AcknowledgedMeansCounted(d.ledger, id);
    }
  }

  lemma ProcessingCounts(s: Settings, d: Disk, id: JobId, now: int)
    requires Inv(s, d) && Path(ProcessingDir, id) in d.files
    ensures ProcessingOne(s, d, id, Acknowledged(d.ledger), now).recovered == if SettledJob(s, d, id, now) then 0 else 1
  {
    var p := Path(ProcessingDir, id);
    ReadableUnderInv(s, d, p);
    ProcessingOneRecovers(s, d, id, now);
    if !SettledJob(s, d, id, now) {
      UnsettledIsRepair(s, d, p, now);
      if d.files[p].status == COMMITTED {
        ReconcileLegal(s, d, p, now, Some(now));
        var r := ReconcileTerminal(d, p, d.files[p], Acknowledged(d.ledger), now);
        assert r.effects != [] by {
          assert Path(CompletedDir, id) !in d.files;
        }
      }
    }
  }

  /** The unsettled among the first n listed jobs. */
  ghost function UnsettledBefore(s: Settings, d: Disk, ids: seq<JobId>, n: nat, now: int): set<JobId>
    requires n <= |ids|
  {
    set id | id in ids[..n] && !SettledJob(s, d, id, now)
  }

  lemma UnsettledStep(s: Settings, d: Disk, ids: seq<JobId>, n: nat, now: int)
    requires n < |ids| && forall i, j :: 0 <= i < j < |ids| ==> ids[i] < ids[j]
    ensures |UnsettledBefore(s, d, ids, n + 1, now)|
         == |UnsettledBefore(s, d, ids, n, now)| + if SettledJob(s, d, ids[n], now) then 0 else 1
  {
    var before := UnsettledBefore(s, d, ids, n, now);
    assert ids[..n + 1] == ids[..n] + [ids[n]];
    assert ids[n] !in before;
    assert UnsettledBefore(s, d, ids, n + 1, now) == if SettledJob(s, d, ids[n], now) then before else before + {ids[n]};
  }

  lemma NextCounts(s: Settings, d: Disk, dir: Directory, ids: seq<JobId>, n: nat, now: int)
    requires Inv(s, d) && dir in {CompletedDir, ProcessingDir} && IsListing(ids, IdsIn(d, dir)) && n < |ids|
    requires RecoverUpTo(s, d, dir, ids, n, Acknowledged(d.ledger), now).recovered == |UnsettledBefore(s, d, ids, n, now)|
    ensures RecoverUpTo(s, d, dir, ids, n + 1, Acknowledged(d.ledger), now).recovered == |UnsettledBefore(s, d, ids, n + 1, now)|
  {
    LoopRecovers(s, d, dir, ids, n, now);
    var before := RecoverUpTo(s, d, dir, ids, n, Acknowledged(d.ledger), now);
    var here := ApplyAll(d, before.effects);
    AllLegalKeepsInv(s, d, before.effects, Some(now));
    assert ids[n] in IdsIn(d, dir);
    assert Path(dir, ids[n]) in d.files && SameFor(d, here, ids[n]);
    RecoverStep(s, d, dir, ids, n, Acknowledged(d.ledger), now, before, RecoverOne(s, here, dir, ids[n], before.acknowledged, now));
    if dir == CompletedDir {
      CompletedCounts(s, here, ids[n], now);
    } else {
      ProcessingCounts(s, here, ids[n], now);
    }
    SettledSame(s, d, here, ids[n], now);
    UnsettledStep(s, d, ids, n, now);
  }

  lemma SettledSame(s: Settings, a: Disk, b: Disk, id: JobId, now: int)
    requires SameFor(a, b, id)
    ensures SettledJob(s, a, id, now) <==> SettledJob(s, b, id, now)
  {
    if SettledJob(s, a, id, now) {
      SettledTransfers(s, a, b, id, now);
    }
    if SettledJob(s, b, id, now) {
      assert SameFor(b, a, id);
      SettledTransfers(s, b, a, id, now);
    }
  }

  lemma {:induction false} LoopCounts(s: Settings, d: Disk, dir: Directory, ids: seq<JobId>, n: nat, now: int)
    requires Inv(s, d) && dir in {CompletedDir, ProcessingDir} && IsListing(ids, IdsIn(d, dir)) && n <= |ids|
    ensures RecoverUpTo(s, d, dir, ids, n, Acknowledged(d.ledger), now).recovered == |UnsettledBefore(s, d, ids, n, now)|
  {
    if n == 0 {
      assert UnsettledBefore(s, d, ids, 0, now) == {};
    } else {
      LoopCounts(s, d, dir, ids, n - 1, now);
      NextCounts(s, d, dir, ids, n - 1, now);
    }
  }

  /** The unsettled jobs of both loops are the jobs in need of repair, none of them twice. */
  lemma LoopsSplitRepairs(s: Settings, d: Disk, between: Disk, completed: seq<JobId>, processing: seq<JobId>, now: int)
    requires Inv(s, d) && Inv(s, between) && between.files == d.files
    requires IsListing(completed, IdsIn(d, CompletedDir)) && IsListing(processing, IdsIn(d, ProcessingDir))
    requires forall id {:trigger SameFor(d, between, id)} :: id !in completed ==> SameFor(d, between, id)
    ensures var a, b := UnsettledBefore(s, d, completed, |completed|, now), UnsettledBefore(s, between, processing, |processing|, now);
            a !! b && a + b == Repairs(s, d, now)
  {
    var a, b := UnsettledBefore(s, d, completed, |completed|, now), UnsettledBefore(s, between, processing, |processing|, now);
    assert completed[..|completed|] == completed && processing[..|processing|] == processing;
    forall p | p in d.files ensures SettledJob(s, d, p.id, now) <==> !NeedsRepair(s, d, p, now) {
      UnsettledIsRepair(s, d, p, now);
    }
    forall id | id in processing ensures id !in completed && (SettledJob(s, between, id, now) <==> SettledJob(s, d, id, now)) {
      assert id in IdsIn(d, ProcessingDir);
      assert id !in IdsIn(d, CompletedDir);
      SettledSame(s, d, between, id, now);
    }
    forall id ensures id in a + b <==> id in Repairs(s, d, now) {
      if id in Repairs(s, d, now) {
        var p :| p in d.files && NeedsRepair(s, d, p, now) && p.id == id;
        assert id in IdsIn(d, p.dir);
      }
      if id in completed {
        assert id in IdsIn(d, CompletedDir);
        var p :| p in d.files && p.dir == CompletedDir && p.id == id;
      }
      if id in processing {
        assert id in IdsIn(d, ProcessingDir);
        var p :| p in d.files && p.dir == ProcessingDir && p.id == id;
      }
    }
  }

  /** One loop succeeds and counts the unsettled jobs of its listing. */
  ghost predicate LoopRan(s: Settings, d: Disk, dir: Directory, ids: seq<JobId>, r: Sweep, now: int) {
    && IsListing(ids, IdsIn(d, dir)) && r.error == None
    && r.acknowledged == Acknowledged(ApplyAll(d, r.effects).ledger)
    && Inv(s, ApplyAll(d, r.effects)) && (dir == CompletedDir ==> ApplyAll(d, r.effects).files == d.files)
    && (forall id {:trigger SameFor(d, ApplyAll(d, r.effects), id)} :: id !in ids ==> SameFor(d, ApplyAll(d, r.effects), id))
    && r.recovered == |UnsettledBefore(s, d, ids, |ids|, now)|
  }

  lemma WholeLoop(s: Settings, d: Disk, dir: Directory, now: int)
    requires Inv(s, d) && dir in {CompletedDir, ProcessingDir}
    ensures var ids := Listing(IdsIn(d, dir));
            LoopRan(s, d, dir, ids, RecoverAll(s, d, dir, ids, Acknowledged(d.ledger), now), now)
  {
    var ids := Listing(IdsIn(d, dir));
    ListingSorted(IdsIn(d, dir));
    LoopRecovers(s, d, dir, ids, |ids|, now);
    LoopCounts(s, d, dir, ids, |ids|, now);
    assert ids[..|ids|] == ids;
    AllLegalKeepsInv(s, d, RecoverAll(s, d, dir, ids, Acknowledged(d.ledger), now).effects, Some(now));
  }

  /** Two such loops, one after the other, count every job that needed repair. */
  lemma LoopsCount(s: Settings, d: Disk, completed: seq<JobId>, first: Sweep, processing: seq<JobId>, second: Sweep, now: int)
    requires Inv(s, d) && LoopRan(s, d, CompletedDir, completed, first, now)
    requires LoopRan(s, ApplyAll(d, first.effects), ProcessingDir, processing, second, now)
    ensures first.recovered + second.recovered == |Repairs(s, d, now)|
  {
    var between := ApplyAll(d, first.effects);
    assert IdsIn(between, ProcessingDir) == IdsIn(d, ProcessingDir);
    LoopsSplitRepairs(s, d, between, completed, processing, now);
  }

  ghost function FirstLoop(s: Settings, d: Disk, now: int): Sweep {
    RecoverAll(s, d, CompletedDir, Listing(IdsIn(d, CompletedDir)), Acknowledged(d.ledger), now)
  }

  ghost function SecondLoop(s: Settings, d: Disk, acknowledged: set<JobId>, now: int): Sweep {
    RecoverAll(s, d, ProcessingDir, Listing(IdsIn(d, ProcessingDir)), acknowledged, now)
  }

  lemma RecoveryIsBothLoops(s: Settings, d: Disk, now: int)
    requires FirstLoop(s, d, now).error == None
    requires SecondLoop(s, ApplyAll(d, FirstLoop(s, d, now).effects), FirstLoop(s, d, now).acknowledged, now).error == None
    ensures var first := FirstLoop(s, d, now);
            var second := SecondLoop(s, ApplyAll(d, first.effects), first.acknowledged, now);
            RecoverExpiredClaims(s, d, now).result == Success(first.recovered + second.recovered)
  {
  }

  lemma SecondLoopRuns(s: Settings, d: Disk, acknowledged: set<JobId>, now: int)
    requires Inv(s, d) && acknowledged == Acknowledged(d.ledger)
    ensures LoopRan(s, d, ProcessingDir, Listing(IdsIn(d, ProcessingDir)), SecondLoop(s, d, acknowledged, now), now)
  {
    WholeLoop(s, d, ProcessingDir, now);
  }

  lemma FirstLoopRuns(s: Settings, d: Disk, now: int)
    requires Inv(s, d)
    ensures LoopRan(s, d, CompletedDir, Listing(IdsIn(d, CompletedDir)), FirstLoop(s, d, now), now)
  {
    WholeLoop(s, d, CompletedDir, now);
  }

  /** The number that recovery returns is the number of jobs that needed repair. */
  lemma RecoveryCountsRepairs(s: Settings, d: Disk, now: int)
    requires Inv(s, d)
    ensures RecoverExpiredClaims(s, d, now).result == Success(|Repairs(s, d, now)|)
  {
    FirstLoopRuns(s, d, now);
    var first := FirstLoop(s, d, now);
    var between := ApplyAll(d, first.effects);
    SecondLoopRuns(s, between, first.acknowledged, now);
    var second := SecondLoop(s, between, first.acknowledged, now);
    LoopsCount(s, d, Listing(IdsIn(d, CompletedDir)), first, Listing(IdsIn(between, ProcessingDir)), second, now);
    RecoveryIsBothLoops(s, d, now);
  }

  // ---- What the ledger says ----

  /** The records that recovery adds for a file. */
  function RepairRecords(s: Settings, d: Disk, p: Path, now: int): seq<Record>
    requires p in d.files
  {
    var job := d.files[p];
    if !NeedsRepair(s, d, p, now) then []
    else if job.status == COMMITTED then [Record(LedgerCommitted, p.id, job.attempt, None)]
    else if job.status in {QUEUED, DEAD_LETTER} then [Record(LedgerRecovered, p.id, job.attempt, job.lastErrorCode)]
    else if job.attempt >= s.maxAttempts then [Record(LedgerDeadLetter, p.id, job.attempt, Some("CAPTURE_LEASE_EXPIRED"))]
    else [Record(LedgerRecovered, p.id, job.attempt, Some("CAPTURE_LEASE_EXPIRED"))]
  }

  /** The records of one job, in order. */
  function RecordsOf(ledger: seq<Record>, id: JobId): seq<Record> {
    if ledger == [] then []
    else
      var last := ledger[|ledger| - 1];
      RecordsOf(ledger[..|ledger| - 1], id) + if last.id == id then [last] else []
  }

  lemma RecordsOfAppended(ledger: seq<Record>, r: Record, id: JobId)
    ensures RecordsOf(ledger + [r], id) == RecordsOf(ledger, id) + if r.id == id then [r] else []
  {
    assert (ledger + [r])[..|ledger|] == ledger;
  }

  lemma {:induction false} OtherRecordsStay(d: Disk, es: seq<Effect>, id: JobId, other: JobId)
    requires AllAbout(es, id) && other != id
    ensures RecordsOf(ApplyAll(d, es).ledger, other) == RecordsOf(d.ledger, other)
    decreases |es|
  {
    if es != [] {
      assert About(es[0], id);
      if es[0].Append? {
        RecordsOfAppended(d.ledger, es[0].record, other);
      }
      OtherRecordsStay(Apply(d, es[0]), es[1..], id, other);
    }
  }

  lemma ClosingRecords(s: Settings, d: Disk, p: Path, now: int)
    requires Inv(s, d) && p in d.files && p.dir in {ProcessingDir, CompletedDir} && d.files[p].status == COMMITTED
    ensures ApplyAll(d, ReconcileTerminal(d, p, d.files[p], Acknowledged(d.ledger), now).effects).ledger
         == d.ledger + RepairRecords(s, d, p, now)
  {
    ReconcileIssues(s, d, p, now);
    var record, rename := Append(Record(LedgerCommitted, p.id, d.files[p].attempt, None)), Rename(p, Path(CompletedDir, p.id));
    var effects := ReconcileTerminal(d, p, d.files[p], Acknowledged(d.ledger), now).effects;
    if p.dir == ProcessingDir {
      assert Path(CompletedDir, p.id) !in d.files;
      assert effects == [rename, record];
      ApplyTwo(d, rename, record);
    } else {
      assert effects == if Acknowledgements(d.ledger, p.id) == 0 then [record] else [];
      ApplyOne(d, record);
    }
  }

  lemma ProcessingRecords(s: Settings, d: Disk, p: Path, now: int)
    requires Inv(s, d) && p in d.files && p.dir == ProcessingDir
    ensures ApplyAll(d, ProcessingOne(s, d, p.id, Acknowledged(d.ledger), now).effects).ledger == d.ledger + RepairRecords(s, d, p, now)
  {
    ReadableUnderInv(s, d, p);
    assert p == Path(ProcessingDir, p.id);
    var job := d.files[p];
    match job.status
    case COMMITTED => ClosingRecords(s, d, p, now);
    case QUEUED => RelocationRecords(s, d, p, now);
    case DEAD_LETTER => RelocationRecords(s, d, p, now);
    case _ =>
      assert InPlace(s, ProcessingDir, job);
      if Expired(s, job, now) {
        ExpiryRecords(s, d, p, now);
      }
  }

  lemma RelocationRecords(s: Settings, d: Disk, p: Path, now: int)
    requires Inv(s, d) && p in d.files && p.dir == ProcessingDir && d.files[p].status in {QUEUED, DEAD_LETTER}
    ensures ApplyAll(d, ProcessingOne(s, d, p.id, Acknowledged(d.ledger), now).effects).ledger == d.ledger + RepairRecords(s, d, p, now)
  {
    var job := d.files[p];
    assert p == Path(ProcessingDir, p.id);
    RenameLegal(s, d, p, Path(DirectoryOf(job.status), p.id),
                Record(LedgerRecovered, p.id, job.attempt, job.lastErrorCode), Some(now));
  }

  lemma ExpiryRecords(s: Settings, d: Disk, p: Path, now: int)
    requires Inv(s, d) && p in d.files && p.dir == ProcessingDir && d.files[p].status in {CLAIMED, PROCESSING}
    requires Expired(s, d.files[p], now)
    ensures ApplyAll(d, ProcessingOne(s, d, p.id, Acknowledged(d.ledger), now).effects).ledger == d.ledger + RepairRecords(s, d, p, now)
  {
    var job := d.files[p];
    assert p == Path(ProcessingDir, p.id);
    if job.attempt >= s.maxAttempts {
      TransferLegal(s, d, p, Path(DeadLetterDir, p.id), DeadLettered(job, LEASE_EXPIRED, now),
                    Record(LedgerDeadLetter, p.id, job.attempt, Some(LEASE_EXPIRED)), (), Some(now));
    } else {
      TransferLegal(s, d, p, Path(QueuedDir, p.id), Requeued(job, LEASE_EXPIRED, now),
                    Record(LedgerRecovered, p.id, job.attempt, Some(LEASE_EXPIRED)), (), Some(now));
    }
  }

  lemma OneRecords(s: Settings, d: Disk, dir: Directory, id: JobId, now: int)
    requires Inv(s, d) && dir in {CompletedDir, ProcessingDir} && Path(dir, id) in d.files
    ensures ApplyAll(d, RecoverOne(s, d, dir, id, Acknowledged(d.ledger), now).effects).ledger
         == d.ledger + RepairRecords(s, d, Path(dir, id), now)
  {
    var p := Path(dir, id);
    ReadableUnderInv(s, d, p);
    if dir == CompletedDir {
      ClosingRecords(s, d, p, now);
    } else {
      ProcessingRecords(s, d, p, now);
    }
  }

  lemma OneRecord(s: Settings, d: Disk, p: Path, now: int)
    requires p in d.files
    ensures RecordsOf(d.ledger + RepairRecords(s, d, p, now), p.id) == RecordsOf(d.ledger, p.id) + RepairRecords(s, d, p, now)
  {
    var records := RepairRecords(s, d, p, now);
    if records == [] {
      assert d.ledger + records == d.ledger;
    } else {
      assert records == [records[0]] && records[0].id == p.id;
      RecordsOfAppended(d.ledger, records[0], p.id);
    }
  }

  /** After n files of a loop the ledger tells of exactly their repairs. */
  ghost predicate Recorded(s: Settings, d: Disk, d': Disk, dir: Directory, ids: seq<JobId>, n: nat, now: int)
    requires n <= |ids| && forall id :: id in ids ==> Path(dir, id) in d.files
  {
    forall id {:trigger RecordsOf(d'.ledger, id)} ::
      RecordsOf(d'.ledger, id)
      == RecordsOf(d.ledger, id) + if id in ids[..n] then RepairRecords(s, d, Path(dir, id), now) else []
  }

  lemma ListedAreThere(d: Disk, dir: Directory, ids: seq<JobId>)
    requires IsListing(ids, IdsIn(d, dir))
    ensures forall id :: id in ids ==> Path(dir, id) in d.files
  {
    forall id | id in ids ensures Path(dir, id) in d.files {
      assert id in IdsIn(d, dir);
    }
  }

  /** The next file of a loop is as it was, and what is done to it concerns its job only. */
  lemma NextOfLoop(s: Settings, d: Disk, dir: Directory, ids: seq<JobId>, n: nat, now: int) returns (here: Disk)
    requires Inv(s, d) && dir in {CompletedDir, ProcessingDir} && IsListing(ids, IdsIn(d, dir)) && n < |ids|
    ensures here == ApplyAll(d, RecoverUpTo(s, d, dir, ids, n, Acknowledged(d.ledger), now).effects)
    ensures Inv(s, here) && SameFor(d, here, ids[n]) && Path(dir, ids[n]) in here.files
    ensures var one := RecoverOne(s, here, dir, ids[n], Acknowledged(here.ledger), now);
            && AllAbout(one.effects, ids[n])
            && ApplyAll(d, RecoverUpTo(s, d, dir, ids, n + 1, Acknowledged(d.ledger), now).effects) == ApplyAll(here, one.effects)
  {
    LoopRecovers(s, d, dir, ids, n, now);
    var before := RecoverUpTo(s, d, dir, ids, n, Acknowledged(d.ledger), now);
    here := ApplyAll(d, before.effects);
    AllLegalKeepsInv(s, d, before.effects, Some(now));
    assert ids[n] in IdsIn(d, dir) && ids[n] !in ids[..n];
    assert Path(dir, ids[n]) in d.files && SameFor(d, here, ids[n]);
    var one := RecoverOne(s, here, dir, ids[n], before.acknowledged, now);
    RecoverStep(s, d, dir, ids, n, Acknowledged(d.ledger), now, before, one);
    OneIsAbout(s, here, dir, ids[n], now);
  }

  lemma OneIsAbout(s: Settings, d: Disk, dir: Directory, id: JobId, now: int)
    requires Inv(s, d) && dir in {CompletedDir, ProcessingDir} && Path(dir, id) in d.files
    ensures AllAbout(RecoverOne(s, d, dir, id, Acknowledged(d.ledger), now).effects, id)
  {
    if dir == CompletedDir {
      CompletedOneRecovers(s, d, id, now);
    } else {
      ProcessingOneRecovers(s, d, id, now);
    }
  }

  lemma SameRepair(s: Settings, a: Disk, b: Disk, p: Path, now: int)
    requires SameFor(a, b, p.id) && p in a.files
    ensures p in b.files && RepairRecords(s, a, p, now) == RepairRecords(s, b, p, now)
  {
    assert p == Path(p.dir, p.id);
  }

  lemma NextRecords(s: Settings, d: Disk, dir: Directory, ids: seq<JobId>, n: nat, now: int)
    requires Inv(s, d) && dir in {CompletedDir, ProcessingDir} && IsListing(ids, IdsIn(d, dir)) && n < |ids|
    requires forall id :: id in ids ==> Path(dir, id) in d.files
    requires Recorded(s, d, ApplyAll(d, RecoverUpTo(s, d, dir, ids, n, Acknowledged(d.ledger), now).effects), dir, ids, n, now)
    ensures Recorded(s, d, ApplyAll(d, RecoverUpTo(s, d, dir, ids, n + 1, Acknowledged(d.ledger), now).effects), dir, ids, n + 1, now)
  {
    var here := NextOfLoop(s, d, dir, ids, n, now);
    var p := Path(dir, ids[n]);
    OneRecords(s, here, dir, ids[n], now);
    OneRecord(s, here, p, now);
    SameRepair(s, d, here, p, now);
    RecordsAfterOne(s, d, here, dir, ids, n, RecoverOne(s, here, dir, ids[n], Acknowledged(here.ledger), now).effects, now);
  }

  lemma RecordsAfterOne(s: Settings, d: Disk, here: Disk, dir: Directory, ids: seq<JobId>, n: nat, es: seq<Effect>, now: int)
    requires n < |ids| && forall i, j :: 0 <= i < j < |ids| ==> ids[i] < ids[j]
    requires (forall id :: id in ids ==> Path(dir, id) in d.files) && Recorded(s, d, here, dir, ids, n, now)
    requires AllAbout(es, ids[n])
    requires RecordsOf(ApplyAll(here, es).ledger, ids[n]) == RecordsOf(here.ledger, ids[n]) + RepairRecords(s, d, Path(dir, ids[n]), now)
    ensures Recorded(s, d, ApplyAll(here, es), dir, ids, n + 1, now)
  {
    assert ids[..n + 1] == ids[..n] + [ids[n]];
    var after := ApplyAll(here, es);
    forall id {:trigger RecordsOf(after.ledger, id)}
      ensures RecordsOf(after.ledger, id)
           == RecordsOf(d.ledger, id) + if id in ids[..n + 1] then RepairRecords(s, d, Path(dir, id), now) else []
    {
      if id != ids[n] {
        OtherRecordsStay(here, es, ids[n], id);
      }
    }
  }

  lemma {:induction false} LoopRecords(s: Settings, d: Disk, dir: Directory, ids: seq<JobId>, n: nat, now: int)
    requires Inv(s, d) && dir in {CompletedDir, ProcessingDir} && IsListing(ids, IdsIn(d, dir)) && n <= |ids|
    requires forall id :: id in ids ==> Path(dir, id) in d.files
    ensures Recorded(s, d, ApplyAll(d, RecoverUpTo(s, d, dir, ids, n, Acknowledged(d.ledger), now).effects), dir, ids, n, now)
  {
    if n > 0 {
      LoopRecords(s, d, dir, ids, n - 1, now);
      NextRecords(s, d, dir, ids, n - 1, now);
    }
  }

  /** Recovery adds exactly the records of the repairs it makes. */
  lemma RecoveryRecordsRepairs(s: Settings, d: Disk, now: int, p: Path)
    requires Inv(s, d) && p in d.files
    ensures RecordsOf(ApplyAll(d, RecoverExpiredClaims(s, d, now).effects).ledger, p.id)
         == RecordsOf(d.ledger, p.id) + RepairRecords(s, d, p, now)
  {
    var first := FirstLoop(s, d, now);
    FirstLoopRuns(s, d, now);
    var between := ApplyAll(d, first.effects);
    var completed, processing := Listing(IdsIn(d, CompletedDir)), Listing(IdsIn(between, ProcessingDir));
    ListedAreThere(d, CompletedDir, completed);
    LoopRecords(s, d, CompletedDir, completed, |completed|, now);
    SecondLoopRuns(s, between, first.acknowledged, now);
    ListedAreThere(between, ProcessingDir, processing);
    LoopRecords(s, between, ProcessingDir, processing, |processing|, now);
    var second := SecondLoop(s, between, first.acknowledged, now);
    ApplyAllConcat(d, first.effects, second.effects);
    BothRecord(s, d, between, ApplyAll(between, second.effects), completed, processing, p, now);
  }

  lemma BothRecord(s: Settings, d: Disk, between: Disk, after: Disk, completed: seq<JobId>, processing: seq<JobId>, p: Path, now: int)
    requires Inv(s, d) && p in d.files && between.files == d.files
    requires IsListing(completed, IdsIn(d, CompletedDir)) && IsListing(processing, IdsIn(between, ProcessingDir))
    requires (forall id :: id in completed ==> Path(CompletedDir, id) in d.files) && Recorded(s, d, between, CompletedDir, completed, |completed|, now)
    requires (forall id :: id in processing ==> Path(ProcessingDir, id) in between.files)
    requires Recorded(s, between, after, ProcessingDir, processing, |processing|, now)
    requires forall id {:trigger SameFor(d, between, id)} :: id !in completed ==> SameFor(d, between, id)
    ensures RecordsOf(after.ledger, p.id) == RecordsOf(d.ledger, p.id) + RepairRecords(s, d, p, now)
  {
    assert completed[..|completed|] == completed && processing[..|processing|] == processing;
    assert p == Path(p.dir, p.id);
    assert p.id in completed <==> p.dir == CompletedDir by {
      assert p.dir == CompletedDir ==> p.id in IdsIn(d, CompletedDir);
      assert p.id in completed ==> Path(CompletedDir, p.id) == p;
    }
    assert p.id in processing <==> p.dir == ProcessingDir by {
      assert p.dir == ProcessingDir ==> p.id in IdsIn(between, ProcessingDir);
      assert p.id in processing ==> Path(ProcessingDir, p.id) == p;
    }
    if p.dir == ProcessingDir {
      assert SameFor(d, between, p.id);
      assert RepairRecords(s, between, p, now) == RepairRecords(s, d, p, now);
    }
    assert RecordsOf(after.ledger, p.id)
        == RecordsOf(between.ledger, p.id) + if p.id in processing then RepairRecords(s, between, p, now) else [];
  }

  // ---- Corrupt files ----

  /** The effect rewrites a file in completed or adds a record. */
  predicate InCompleted(e: Effect) {
    !e.Rename? && (e.Write? ==> e.path.dir == CompletedDir)
  }

  predicate AllInCompleted(es: seq<Effect>) {
    forall e :: e in es ==> InCompleted(e)
  }

  lemma CompletedOneReads(s: Settings, d: Disk, id: JobId, acknowledged: set<JobId>, now: int)
    requires CompletedOne(s, d, id, acknowledged, now).error == None
    ensures Readable(s, d, Path(CompletedDir, id)) && AllInCompleted(CompletedOne(s, d, id, acknowledged, now).effects)
  {
  }

  lemma ProcessingOneReads(s: Settings, d: Disk, id: JobId, acknowledged: set<JobId>, now: int)
    requires ProcessingOne(s, d, id, acknowledged, now).error == None
    ensures Readable(s, d, Path(ProcessingDir, id)) && AllAbout(ProcessingOne(s, d, id, acknowledged, now).effects, id)
  {
  }

  /** What is outside completed stays as it is. */
  ghost predicate SameOutside(d: Disk, d': Disk) {
    forall p: Path :: p.dir != CompletedDir ==>
      (p in d'.files <==> p in d.files) && (p in d.files ==> d'.files[p] == d.files[p])
  }

  lemma {:induction false} CompletedEffectsStayThere(d: Disk, es: seq<Effect>)
    requires AllInCompleted(es)
    ensures SameOutside(d, ApplyAll(d, es))
    decreases |es|
  {
    if es != [] {
      assert InCompleted(es[0]);
      CompletedEffectsStayThere(Apply(d, es[0]), es[1..]);
    }
  }

  lemma {:induction false} CompletedLoopReads(s: Settings, d: Disk, ids: seq<JobId>, n: nat, acknowledged: set<JobId>, now: int)
    requires n <= |ids| && (forall i, j :: 0 <= i < j < |ids| ==> ids[i] < ids[j])
    requires RecoverUpTo(s, d, CompletedDir, ids, n, acknowledged, now).error == None
    ensures AllInCompleted(RecoverUpTo(s, d, CompletedDir, ids, n, acknowledged, now).effects)
  {
    if n > 0 {
      var before := RecoverUpTo(s, d, CompletedDir, ids, n - 1, acknowledged, now);
      assert RecoverNext(s, d, CompletedDir, ids, n - 1, acknowledged, now).error == None;
      CompletedLoopReads(s, d, ids, n - 1, acknowledged, now);
      var here := ApplyAll(d, before.effects);
      var one := RecoverOne(s, here, CompletedDir, ids[n - 1], before.acknowledged, now);
      RecoverStep(s, d, CompletedDir, ids, n - 1, acknowledged, now, before, one);
      CompletedOneReads(s, here, ids[n - 1], before.acknowledged, now);
    }
  }

  lemma CompletedOneIsAbout(s: Settings, d: Disk, id: JobId, acknowledged: set<JobId>, now: int)
    requires CompletedOne(s, d, id, acknowledged, now).error == None
    ensures AllAbout(CompletedOne(s, d, id, acknowledged, now).effects, id)
  {
  }

  lemma {:induction false} LoopReads(s: Settings, d: Disk, dir: Directory, ids: seq<JobId>, n: nat, acknowledged: set<JobId>, now: int)
    requires n <= |ids| && (forall i, j :: 0 <= i < j < |ids| ==> ids[i] < ids[j]) && dir in {CompletedDir, ProcessingDir}
    requires RecoverUpTo(s, d, dir, ids, n, acknowledged, now).error == None
    ensures forall j {:trigger ids[j]} :: 0 <= j < n ==> Readable(s, d, Path(dir, ids[j]))
    ensures forall x {:trigger SameFor(d, ApplyAll(d, RecoverUpTo(s, d, dir, ids, n, acknowledged, now).effects), x)} ::
              x !in ids[..n] ==> SameFor(d, ApplyAll(d, RecoverUpTo(s, d, dir, ids, n, acknowledged, now).effects), x)
  {
    if n > 0 {
      var before := RecoverUpTo(s, d, dir, ids, n - 1, acknowledged, now);
      assert RecoverNext(s, d, dir, ids, n - 1, acknowledged, now).error == None;
      LoopReads(s, d, dir, ids, n - 1, acknowledged, now);
      var here, id := ApplyAll(d, before.effects), ids[n - 1];
      var one := RecoverOne(s, here, dir, id, before.acknowledged, now);
      RecoverStep(s, d, dir, ids, n - 1, acknowledged, now, before, one);
      if dir == CompletedDir {
        CompletedOneReads(s, here, id, before.acknowledged, now);
        CompletedOneIsAbout(s, here, id, before.acknowledged, now);
      } else {
        ProcessingOneReads(s, here, id, before.acknowledged, now);
      }
      assert id !in ids[..n - 1] && SameFor(d, here, id);
      assert Path(dir, id) in d.files <==> Path(dir, id) in here.files;
      SweepLeaves(d, here, ids, n, one.effects);
    }
  }

  lemma LoopStops(s: Settings, d: Disk, dir: Directory, acknowledged: set<JobId>, now: int, p: Path)
    requires p in d.files && p.dir == dir && dir in {CompletedDir, ProcessingDir} && !Readable(s, d, p)
    ensures RecoverAll(s, d, dir, Listing(IdsIn(d, dir)), acknowledged, now).error.Some?
  {
    var ids := Listing(IdsIn(d, dir));
    ListingSorted(IdsIn(d, dir));
    assert p.id in IdsIn(d, dir) && p == Path(dir, p.id);
    var j :| 0 <= j < |ids| && ids[j] == p.id;
    if RecoverAll(s, d, dir, ids, acknowledged, now).error == None {
      LoopReads(s, d, dir, ids, |ids|, acknowledged, now);
    }
  }

  /** On any disk recovery succeeds only if every completed and every processing file is what its name promises. */
  lemma UnreadableStopsRecovery(s: Settings, d: Disk, now: int, p: Path)
    requires p in d.files && p.dir in {CompletedDir, ProcessingDir} && !Readable(s, d, p)
    ensures RecoverExpiredClaims(s, d, now).result.Failure?
  {
    var first := FirstLoop(s, d, now);
    if p.dir == CompletedDir {
      LoopStops(s, d, CompletedDir, Acknowledged(d.ledger), now, p);
    } else if first.error == None {
      var completed := Listing(IdsIn(d, CompletedDir));
      ListingSorted(IdsIn(d, CompletedDir));
      CompletedLoopReads(s, d, completed, |completed|, Acknowledged(d.ledger), now);
      CompletedEffectsStayThere(d, first.effects);
      LoopStops(s, ApplyAll(d, first.effects), ProcessingDir, first.acknowledged, now, p);
    }
  }

  // ---- Closing a terminal job, on any disk ----

  /** The acknowledgement that closing appends, unless there is one. */
  function Acknowledging(job: Job, acknowledged: set<JobId>): seq<Record> {
    if job.id in acknowledged then [] else [Record(LedgerCommitted, job.id, job.attempt, None)]
  }

  /** A document in completed that still says claimed or processing is closed in place; its commit time, if it has one, stays. */
  lemma ClosingRepairsCompleted(d: Disk, p: Path, acknowledged: set<JobId>, now: int)
    requires p in d.files && p.dir == CompletedDir && d.files[p].status in {CLAIMED, PROCESSING}
    ensures var job := d.files[p];
            var r := ReconcileTerminal(d, p, job, acknowledged, now);
            var closed := job.(status := COMMITTED, committedAt := Some(if job.committedAt.Some? then job.committedAt.value else now));
            && (job.claimedAt.None? ==> r.error == Some(QueueCorrupt) && r.effects == [])
            && (job.claimedAt.Some? ==>
                  && r.error == None && r.repaired && r.job == closed && r.acknowledged == acknowledged + {job.id}
                  && ApplyAll(d, r.effects) == Disk(d.files[p := closed], d.ledger + Acknowledging(job, acknowledged)))
  {
    var job := d.files[p];
    var r := ReconcileTerminal(d, p, job, acknowledged, now);
    if job.claimedAt.Some? {
      var closed := r.job;
      assert d.ledger + [] == d.ledger;
      if job.id in acknowledged {
        assert r.effects == [Write(p, closed)];
        assert ApplyAll(d, r.effects) == Apply(d, Write(p, closed));
      } else {
        assert r.effects == [Write(p, closed)] + [Append(CommittedRecord(closed))];
        ApplyAllConcat(d, [Write(p, closed)], [Append(CommittedRecord(closed))]);
      }
    }
  }

  /** A committed document goes to completed and is acknowledged once; one without a commit time or with a rival there is refused. */
  lemma ClosingFinishesCommit(d: Disk, p: Path, acknowledged: set<JobId>, now: int)
    requires p in d.files && d.files[p].status == COMMITTED && d.files[p].id == p.id
    ensures var job := d.files[p];
            var r := ReconcileTerminal(d, p, job, acknowledged, now);
            var q := Path(CompletedDir, p.id);
            && (job.committedAt.None? ==> r.error == Some(QueueCorrupt) && r.effects == [])
            && (job.committedAt.Some? && p != q && q in d.files ==> r.error == Some(QueueState) && r.effects == [])
            && (job.committedAt.Some? && (p == q || q !in d.files) ==>
                  && r.error == None && r.job == job && r.acknowledged == acknowledged + {job.id}
                  && (r.repaired <==> p != q || job.id !in acknowledged)
                  && ApplyAll(d, r.effects) == Disk((d.files - {p})[q := job], d.ledger + Acknowledging(job, acknowledged)))
  {
    var job := d.files[p];
    var r := ReconcileTerminal(d, p, job, acknowledged, now);
    var q := Path(CompletedDir, p.id);
    if job.committedAt.Some? && (p == q || q !in d.files) {
      var moves := if p != q then [Rename(p, q)] else [];
      var records := if job.id in acknowledged then [] else [Append(CommittedRecord(job))];
      assert r.effects == moves + records;
      ApplyAllConcat(d, moves, records);
      assert d.ledger + [] == d.ledger;
      if p == q {
        assert (d.files - {p})[q := job] == d.files;
      }
    }
  }

  /** Any other document is left alone outside completed, and refused inside. */
  lemma NothingElseIsClosed(d: Disk, p: Path, job: Job, acknowledged: set<JobId>, now: int)
    requires job.status != COMMITTED && (p.dir == CompletedDir ==> job.status !in {CLAIMED, PROCESSING})
    ensures var r := ReconcileTerminal(d, p, job, acknowledged, now);
            r.effects == [] && r.job == job && !r.repaired && r.error == if p.dir == CompletedDir then Some(QueueCorrupt) else None
  {
  }
}
