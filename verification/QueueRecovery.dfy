/** Recovery settles every job, and may itself be cut off. */
module QueueRecovery {
  import opened Results
  import opened QueueDisk
  import opened QueueOperations
  import opened QueueInvariant
  import opened QueueLegality

  /** Recovery at this time would leave the job's file alone, and a commit is acknowledged. */
  ghost predicate SettledJob(s: Settings, d: Disk, id: JobId, now: int) {
    forall dir {:trigger Path(dir, id)} :: Path(dir, id) in d.files ==>
      var job := d.files[Path(dir, id)];
      && Settle(s, Path(dir, id), job, now) == (Path(dir, id), job)
      && (job.status == COMMITTED ==> id in Acknowledged(d.ledger))
  }

  ghost predicate Settled(s: Settings, d: Disk, now: int) {
    forall id :: SettledJob(s, d, id, now)
  }

  lemma SettledTransfers(s: Settings, d: Disk, d': Disk, id: JobId, now: int)
    requires SettledJob(s, d, id, now) && SameFor(d, d', id)
    ensures SettledJob(s, d', id, now)
  {
    AcknowledgedMeansCounted(d.ledger, id);
    AcknowledgedMeansCounted(d'.ledger, id);
  }

  // ---- One file ----

  lemma CompletedOneRecovers(s: Settings, d: Disk, id: JobId, now: int)
    requires Inv(s, d) && Path(CompletedDir, id) in d.files
    ensures var o := CompletedOne(s, d, id, Acknowledged(d.ledger), now);
            var d' := ApplyAll(d, o.effects);
            && o.error == None && o.acknowledged == Acknowledged(d'.ledger)
            && AllLegal(s, d, o.effects, Some(now)) && AllAbout(o.effects, id)
            && d'.files == d.files && SettledJob(s, d', id, now)
            && (SettledJob(s, d, id, now) ==> o.effects == [] && o.recovered == 0)
  {
    var p := Path(CompletedDir, id);
    ReadableUnderInv(s, d, p);
    ReconcileLegal(s, d, p, now, Some(now));
    assert (d.files - {p})[p := d.files[p]] == d.files;
  }

  lemma ProcessingOneRecovers(s: Settings, d: Disk, id: JobId, now: int)
    requires Inv(s, d) && Path(ProcessingDir, id) in d.files
    ensures var o := ProcessingOne(s, d, id, Acknowledged(d.ledger), now);
            var d' := ApplyAll(d, o.effects);
            && o.error == None && o.acknowledged == Acknowledged(d'.ledger)
            && AllLegal(s, d, o.effects, Some(now)) && AllAbout(o.effects, id)
            && SettledJob(s, d', id, now)
            && (SettledJob(s, d, id, now) ==> o.effects == [] && o.recovered == 0)
  {
    var p, job := Path(ProcessingDir, id), d.files[Path(ProcessingDir, id)];
    ReadableUnderInv(s, d, p);
    match job.status
    case COMMITTED =>
      ReconcileLegal(s, d, p, now, Some(now));
    case QUEUED =>
      RelocateRecovers(s, d, id, now);
    case DEAD_LETTER =>
      RelocateRecovers(s, d, id, now);
    case _ =>
      if !LeaseHolds(s, job, now) {
        ExpiryRecovers(s, d, id, now);
      }
  }

  lemma RelocateRecovers(s: Settings, d: Disk, id: JobId, now: int)
    requires Inv(s, d) && Path(ProcessingDir, id) in d.files
    requires d.files[Path(ProcessingDir, id)].status in {QUEUED, DEAD_LETTER}
    ensures var o := ProcessingOne(s, d, id, Acknowledged(d.ledger), now);
            var d' := ApplyAll(d, o.effects);
            && o.error == None && o.acknowledged == Acknowledged(d'.ledger)
            && AllLegal(s, d, o.effects, Some(now)) && AllAbout(o.effects, id)
            && SettledJob(s, d', id, now) && !SettledJob(s, d, id, now)
  {
    var p, job := Path(ProcessingDir, id), d.files[Path(ProcessingDir, id)];
    RenameLegal(s, d, p, Path(DirectoryOf(job.status), id),
                Record(LedgerRecovered, id, job.attempt, job.lastErrorCode), Some(now));
  }

  lemma ExpiryRecovers(s: Settings, d: Disk, id: JobId, now: int)
    requires Inv(s, d) && Path(ProcessingDir, id) in d.files
    requires d.files[Path(ProcessingDir, id)].status in {CLAIMED, PROCESSING}
    requires !LeaseHolds(s, d.files[Path(ProcessingDir, id)], now)
    ensures var o := ProcessingOne(s, d, id, Acknowledged(d.ledger), now);
            var d' := ApplyAll(d, o.effects);
            && o.error == None && o.acknowledged == Acknowledged(d'.ledger)
            && AllLegal(s, d, o.effects, Some(now)) && AllAbout(o.effects, id)
            && SettledJob(s, d', id, now) && !SettledJob(s, d, id, now)
  {
    var p, job := Path(ProcessingDir, id), d.files[Path(ProcessingDir, id)];
    if job.attempt >= s.maxAttempts {
      TransferLegal(s, d, p, Path(DeadLetterDir, id), DeadLettered(job, LEASE_EXPIRED, now),
                    Record(LedgerDeadLetter, id, job.attempt, Some(LEASE_EXPIRED)), (), Some(now));
    } else {
      TransferLegal(s, d, p, Path(QueuedDir, id), Requeued(job, LEASE_EXPIRED, now),
                    Record(LedgerRecovered, id, job.attempt, Some(LEASE_EXPIRED)), (), Some(now));
    }
  }

  // ---- One loop ----

  /** After the first n files of a loop: no error, only legal effects, and the listed jobs so far are settled. */
  lemma {:induction false} LoopRecovers(s: Settings, d: Disk, dir: Directory, ids: seq<JobId>, n: nat, now: int)
    requires Inv(s, d) && dir in {CompletedDir, ProcessingDir} && IsListing(ids, IdsIn(d, dir)) && n <= |ids|
    ensures var o := RecoverUpTo(s, d, dir, ids, n, Acknowledged(d.ledger), now);
            var d' := ApplyAll(d, o.effects);
            && o.error == None && o.acknowledged == Acknowledged(d'.ledger)
            && AllLegal(s, d, o.effects, Some(now))
            && (dir == CompletedDir ==> d'.files == d.files)
            && (forall id :: id in ids[..n] ==> SettledJob(s, d', id, now))
            && (forall id {:trigger SameFor(d, d', id)} :: id !in ids[..n] ==> SameFor(d, d', id))
            && (Settled(s, d, now) ==> o.effects == [] && o.recovered == 0)
  {
    if n > 0 {
      LoopRecovers(s, d, dir, ids, n - 1, now);
      var before := RecoverUpTo(s, d, dir, ids, n - 1, Acknowledged(d.ledger), now);
      var here, id := ApplyAll(d, before.effects), ids[n - 1];
      AllLegalKeepsInv(s, d, before.effects, Some(now));
      assert id in IdsIn(d, dir);
      assert Path(dir, id) in d.files && SameFor(d, here, id);
      if dir == CompletedDir {
        CompletedOneRecovers(s, here, id, now);
      } else {
        ProcessingOneRecovers(s, here, id, now);
      }
      var one := RecoverOne(s, here, dir, id, before.acknowledged, now);
      RecoverStep(s, d, dir, ids, n - 1, Acknowledged(d.ledger), now, before, one);
      AllLegalConcat(s, d, before.effects, one.effects, Some(now));
      LoopFrame(s, d, here, one.effects, ids, n, now);
    }
  }

  /** File n - 1 of a loop leaves the jobs before it settled and the jobs after it alone. */
  lemma LoopFrame(s: Settings, d: Disk, here: Disk, es: seq<Effect>, ids: seq<JobId>, n: nat, now: int)
    requires 0 < n <= |ids| && AllAbout(es, ids[n - 1])
    requires forall i, j :: 0 <= i < j < |ids| ==> ids[i] < ids[j]
    requires forall id :: id in ids[..n - 1] ==> SettledJob(s, here, id, now)
    requires forall id {:trigger SameFor(d, here, id)} :: id !in ids[..n - 1] ==> SameFor(d, here, id)
    requires SettledJob(s, ApplyAll(here, es), ids[n - 1], now)
    ensures forall id :: id in ids[..n] ==> SettledJob(s, ApplyAll(here, es), id, now)
    ensures forall id {:trigger SameFor(d, ApplyAll(here, es), id)} :: id !in ids[..n] ==> SameFor(d, ApplyAll(here, es), id)
  {
    var d' := ApplyAll(here, es);
    assert ids[..n] == ids[..n - 1] + [ids[n - 1]];
    forall id | id in ids[..n] ensures SettledJob(s, d', id, now) {
      if id != ids[n - 1] {
        OthersUntouched(here, es, ids[n - 1], id);
        SettledTransfers(s, here, d', id, now);
      }
    }
    forall id {:trigger SameFor(d, d', id)} | id !in ids[..n] ensures SameFor(d, d', id) {
      OthersUntouched(here, es, ids[n - 1], id);
      assert SameFor(d, here, id) && SameFor(here, d', id);
    }
  }

  // ---- The whole recovery ----

  /**
   From every valid disk recovery raises no error, keeps every job's goal with each single effect,
   and leaves every job settled; on a settled disk it does nothing and reports no repair.
   */
  lemma RecoverySettles(s: Settings, d: Disk, now: int)
    requires Inv(s, d)
    ensures var o := RecoverExpiredClaims(s, d, now);
            && o.result.Success?
            && AllLegal(s, d, o.effects, Some(now))
            && Settled(s, ApplyAll(d, o.effects), now)
            && (Settled(s, d, now) ==> o == Outcome([], Success(0)))
  {
    var first := RecoverAll(s, d, CompletedDir, Listing(IdsIn(d, CompletedDir)), Acknowledged(d.ledger), now);
    var completed := Listing(IdsIn(d, CompletedDir));
    ListingSorted(IdsIn(d, CompletedDir));
    LoopRecovers(s, d, CompletedDir, completed, |completed|, now);
    assert completed[..|completed|] == completed;
    var between := ApplyAll(d, first.effects);
    AllLegalKeepsInv(s, d, first.effects, Some(now));
    var processing := Listing(IdsIn(between, ProcessingDir));
    ListingSorted(IdsIn(between, ProcessingDir));
    LoopRecovers(s, between, ProcessingDir, processing, |processing|, now);
    assert processing[..|processing|] == processing;
    var second := RecoverAll(s, between, ProcessingDir, processing, first.acknowledged, now);
    AllLegalConcat(s, d, first.effects, second.effects, Some(now));
    ApplyAllConcat(d, first.effects, second.effects);
    var after := ApplyAll(between, second.effects);
    forall id ensures SettledJob(s, after, id, now) {
      if id !in processing {
        UnlistedIsSettled(s, d, between, after, completed, id, now);
      }
    }
  }

  /** A job that neither loop listed was settled between the loops and was left alone by the second. */
  lemma UnlistedIsSettled(s: Settings, d: Disk, between: Disk, after: Disk, completed: seq<JobId>, id: JobId, now: int)
    requires Inv(s, between)
    requires IsListing(completed, IdsIn(d, CompletedDir)) && id !in IdsIn(between, ProcessingDir)
    requires id in completed ==> SettledJob(s, between, id, now)
    requires id !in completed ==> SameFor(d, between, id)
    requires SameFor(between, after, id)
    ensures SettledJob(s, after, id, now)
  {
    assert Path(ProcessingDir, id).id == id && Path(CompletedDir, id).id == id;
    assert Path(ProcessingDir, id) !in between.files;
    if id !in completed {
      assert id !in IdsIn(d, CompletedDir);
      assert Path(CompletedDir, id) !in d.files;
    }
    assert SettledJob(s, between, id, now);
    SettledTransfers(s, between, after, id, now);
  }

  /** Two settled disks on which every job has the same goal hold the same files and acknowledge the same commits. */
  lemma SettledDisksAgree(s: Settings, a: Disk, b: Disk, now: int)
    requires Inv(s, a) && Inv(s, b) && Settled(s, a, now) && Settled(s, b, now) && SameGoal(s, a, b, now)
    ensures a.files == b.files && Acknowledged(a.ledger) == Acknowledged(b.ledger)
  {
    SettledDiskIncludes(s, b, a, now);
    SettledDiskIncludes(s, a, b, now);
  }

  lemma SettledDiskIncludes(s: Settings, a: Disk, b: Disk, now: int)
    requires Inv(s, a) && Inv(s, b) && Settled(s, a, now) && Settled(s, b, now) && SameGoal(s, a, b, now)
    ensures forall p :: p in a.files ==> p in b.files && a.files[p] == b.files[p]
    ensures Acknowledged(a.ledger) <= Acknowledged(b.ledger)
  {
    forall p | p in a.files ensures p in b.files && a.files[p] == b.files[p] {
      ExistingIsUnique(s, a, p);
      assert p == Path(p.dir, p.id) && SettledJob(s, a, p.id, now);
      var q := ExistingJob(b, p.id);
      assert Goal(s, b, p.id, now) == Goal(s, a, p.id, now) == Some((p, a.files[p]));
      assert q.Some? && q.value == Path(q.value.dir, p.id) && SettledJob(s, b, p.id, now);
    }
    forall id | id in Acknowledged(a.ledger) ensures id in Acknowledged(b.ledger) {
      AcknowledgedMeansCounted(a.ledger, id);
      assert Path(CompletedDir, id) in a.files;
      assert SettledJob(s, b, id, now);
    }
  }

  /**
   Crash-idempotence: cut recovery off after any of its effects and run it again at the same time;
   it ends with the files and the acknowledged commits of an uninterrupted recovery.
   */
  lemma RecoveryIsCrashIdempotent(s: Settings, d: Disk, now: int, k: nat)
    requires Inv(s, d) && k <= |RecoverExpiredClaims(s, d, now).effects|
    ensures var es := RecoverExpiredClaims(s, d, now).effects;
            var cut := ApplyAll(d, es[..k]);
            var again := RecoverExpiredClaims(s, cut, now);
            && again.result.Success?
            && ApplyAll(cut, again.effects).files == ApplyAll(d, es).files
            && Acknowledged(ApplyAll(cut, again.effects).ledger) == Acknowledged(ApplyAll(d, es).ledger)
  {
    var es := RecoverExpiredClaims(s, d, now).effects;
    RecoverySettles(s, d, now);
    AllLegalKeepsInv(s, d, es, Some(now));
    AllLegalPrefix(s, d, es, k, Some(now));
    AllLegalKeepsInv(s, d, es[..k], Some(now));
    var cut := ApplyAll(d, es[..k]);
    var again := RecoverExpiredClaims(s, cut, now);
    RecoverySettles(s, cut, now);
    AllLegalKeepsInv(s, cut, again.effects, Some(now));
    var one, two := ApplyAll(d, es), ApplyAll(cut, again.effects);
    assert SameGoal(s, one, two, now) by {
      forall id ensures Goal(s, two, id, now) == Goal(s, one, id, now) {
        assert Goal(s, one, id, now) == Goal(s, d, id, now);
        assert Goal(s, two, id, now) == Goal(s, cut, id, now) == Goal(s, d, id, now);
      }
    }
    SettledDisksAgree(s, one, two, now);
  }

  /** A second recovery at the same time finds nothing left to do. */
  lemma RecoveryIsAFixpoint(s: Settings, d: Disk, now: int)
    requires Inv(s, d)
    ensures var after := ApplyAll(d, RecoverExpiredClaims(s, d, now).effects);
            RecoverExpiredClaims(s, after, now) == Outcome([], Success(0))
  {
    RecoverySettles(s, d, now);
    var es := RecoverExpiredClaims(s, d, now).effects;
    AllLegalKeepsInv(s, d, es, Some(now));
    RecoverySettles(s, ApplyAll(d, es), now);
  }

  /**
   After any finished recovery every committed document is in the completed directory and
   acknowledged, and every job still in the processing directory holds an unexpired lease.
   */
  lemma RecoveryClosesCommitsAndLeases(s: Settings, d: Disk, now: int)
    requires Inv(s, d)
    ensures var after := ApplyAll(d, RecoverExpiredClaims(s, d, now).effects);
            && (forall p :: p in after.files && after.files[p].status == COMMITTED ==>
                  p.dir == CompletedDir && Acknowledgements(after.ledger, p.id) == 1)
            && (forall p :: p in after.files && p.dir == ProcessingDir ==>
                  && after.files[p].status in {CLAIMED, PROCESSING}
                  && after.files[p].claimedAt.Some? && LeaseHolds(s, after.files[p], now))
  {
    var es := RecoverExpiredClaims(s, d, now).effects;
    var after := ApplyAll(d, es);
    RecoverySettles(s, d, now);
    AllLegalKeepsInv(s, d, es, Some(now));
    forall p | p in after.files && (p.dir == ProcessingDir || after.files[p].status == COMMITTED)
      ensures after.files[p].status == COMMITTED ==> p.dir == CompletedDir && Acknowledgements(after.ledger, p.id) == 1
      ensures p.dir == ProcessingDir ==>
                && after.files[p].status in {CLAIMED, PROCESSING}
                && after.files[p].claimedAt.Some? && LeaseHolds(s, after.files[p], now)
    {
      assert p == Path(p.dir, p.id) && SettledJob(s, after, p.id, now);
      AcknowledgedMeansCounted(after.ledger, p.id);
    }
  }
}
