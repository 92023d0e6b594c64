/**
 How often a job can be attempted, and how often it can change status.

 An attempt can be spent without being worked on: a claim that is cut before its rename counts.
 */
module QueueLifecycle {
  import opened Results
  import opened QueueDisk
  import opened QueueOperations
  import opened QueueInvariant
  import opened QueueLegality
  import opened QueueRuns

  // ---- Which documents an operation rewrites ----

  /** Only a claim rewrites a queued document to another status, and only a requeue rewrites a dead letter. */
  predicate Tame(e: Effect) {
    match e
    case Write(p, job) => (p.dir == QueuedDir ==> job.status == QUEUED) && p.dir != DeadLetterDir
    case Rename(p, q) => p.dir != DeadLetterDir
    case Append(_) => true
  }

  predicate AllTame(es: seq<Effect>) {
    forall e :: e in es ==> Tame(e)
  }

  lemma ReconcileTame(d: Disk, p: Path, job: Job, acknowledged: set<JobId>, now: int)
    requires p.dir in {CompletedDir, ProcessingDir}
    ensures AllTame(ReconcileTerminal(d, p, job, acknowledged, now).effects)
  {
  }

  lemma RelocateTame(d: Disk, p: Path, job: Job)
    requires p.dir != DeadLetterDir
    ensures AllTame(Relocate(d, p, job).effects)
  {
  }

  lemma TransferTame<T>(d: Disk, p: Path, q: Path, job: Job, record: Record, value: T)
    requires p.dir == ProcessingDir
    ensures AllTame(Transfer(d, p, q, job, record, value).effects)
  {
  }

  lemma CompletedOneTame(s: Settings, d: Disk, id: JobId, acknowledged: set<JobId>, now: int)
    ensures AllTame(CompletedOne(s, d, id, acknowledged, now).effects)
  {
    match ReadJob(s, d, Path(CompletedDir, id))
    case Failure(_) =>
    case Success(job) => ReconcileTame(d, Path(CompletedDir, id), job, acknowledged, now);
  }

  lemma ProcessingOneTame(s: Settings, d: Disk, id: JobId, acknowledged: set<JobId>, now: int)
    ensures AllTame(ProcessingOne(s, d, id, acknowledged, now).effects)
  {
    var source := Path(ProcessingDir, id);
    match ReadJob(s, d, source)
    case Failure(_) =>
    case Success(job) =>
      ReconcileTame(d, source, job, acknowledged, now);
      RelocateTame(d, source, job);
      TransferTame(d, source, Path(DeadLetterDir, id), DeadLettered(job, LEASE_EXPIRED, now),
                   Record(LedgerDeadLetter, id, job.attempt, Some(LEASE_EXPIRED)), ());
      TransferTame(d, source, Path(QueuedDir, id), Requeued(job, LEASE_EXPIRED, now),
                   Record(LedgerRecovered, id, job.attempt, Some(LEASE_EXPIRED)), ());
  }

  lemma RecoverOneTame(s: Settings, d: Disk, dir: Directory, id: JobId, acknowledged: set<JobId>, now: int)
    requires dir in {CompletedDir, ProcessingDir}
    ensures AllTame(RecoverOne(s, d, dir, id, acknowledged, now).effects)
  {
    CompletedOneTame(s, d, id, acknowledged, now);
    ProcessingOneTame(s, d, id, acknowledged, now);
  }

  lemma {:induction false} RecoverUpToTame(s: Settings, d: Disk, dir: Directory, ids: seq<JobId>, n: nat, acknowledged: set<JobId>, now: int)
    requires n <= |ids| && dir in {CompletedDir, ProcessingDir}
    ensures AllTame(RecoverUpTo(s, d, dir, ids, n, acknowledged, now).effects)
  {
    if n > 0 {
      RecoverUpToTame(s, d, dir, ids, n - 1, acknowledged, now);
      var before := RecoverUpTo(s, d, dir, ids, n - 1, acknowledged, now);
      if before.error == None {
        var one := RecoverOne(s, ApplyAll(d, before.effects), dir, ids[n - 1], before.acknowledged, now);
        RecoverStep(s, d, dir, ids, n - 1, acknowledged, now, before, one);
        RecoverOneTame(s, ApplyAll(d, before.effects), dir, ids[n - 1], before.acknowledged, now);
      } else {
        assert RecoverNext(s, d, dir, ids, n - 1, acknowledged, now) == before;
      }
    }
  }

  lemma RecoveryTame(s: Settings, d: Disk, now: int)
    ensures AllTame(RecoverExpiredClaims(s, d, now).effects)
  {
    var completed := Listing(IdsIn(d, CompletedDir));
    RecoverUpToTame(s, d, CompletedDir, completed, |completed|, Acknowledged(d.ledger), now);
    var first := RecoverAll(s, d, CompletedDir, completed, Acknowledged(d.ledger), now);
    var between := ApplyAll(d, first.effects);
    var processing := Listing(IdsIn(between, ProcessingDir));
    RecoverUpToTame(s, between, ProcessingDir, processing, |processing|, first.acknowledged, now);
  }

  lemma EnqueueTame(s: Settings, d: Disk, op: Operation)
    requires Inv(s, d) && op.OpEnqueue?
    ensures AllTame(Effects(s, d, op))
  {
    var present := ExistingJob(d, s.hash(op.key));
    if present.Some? && present.value.dir in {ProcessingDir, CompletedDir} {
      assert AllTame(ReconcileTerminal(d, present.value, d.files[present.value], Acknowledged(d.ledger), op.now).effects);
    }
  }

  lemma OperationsTame(s: Settings, d: Disk, op: Operation)
    requires Inv(s, d)
    requires !op.OpClaimNext? && !op.OpRequeueDeadLetters?
    ensures AllTame(Effects(s, d, op))
  {
    match op
    case OpEnqueue(key, createdAt, now) => EnqueueTame(s, d, op);
    case OpRecoverExpiredClaims(now) => RecoveryTame(s, d, now);
    case _ =>
  }

  /** What one file of the dead-letter sweep issues: nothing, or the whole revival of that job. */
  lemma RequeueOneShape(s: Settings, d: Disk, id: JobId, codes: set<string>, now: int)
    requires Inv(s, d) && Path(DeadLetterDir, id) in d.files
    ensures var es := RequeueOne(s, d, id, codes, now).effects;
            var p, q := Path(DeadLetterDir, id), Path(QueuedDir, id);
            var job := Revived(d.files[p], now);
            es == [] ||
            (&& d.files[p].status == DEAD_LETTER && q !in d.files
             && es == [Write(p, job), Rename(p, q),
                       Append(Record(LedgerRequeuedFromDeadLetter, id, 0, d.files[p].lastErrorCode))])
  {
    ReadableUnderInv(s, d, Path(DeadLetterDir, id));
  }

  // ---- Attempts ----

  /** The bound on one job's attempt counter when n claims of it were cut before their rename. */
  ghost predicate AttemptsWithin(s: Settings, d: Disk, id: JobId, n: nat) {
    forall dir {:trigger Path(dir, id)} :: Path(dir, id) in d.files ==>
      var job := d.files[Path(dir, id)];
      && job.attempt <= s.maxAttempts + n
      && (dir == QueuedDir && job.status == CLAIMED ==> job.attempt < s.maxAttempts + n)
  }

  lemma TameStep(s: Settings, d: Disk, e: Effect, id: JobId, n: nat)
    requires Inv(s, d) && Legal(s, d, e) && Tame(e) && AttemptsWithin(s, d, id, n)
    ensures AttemptsWithin(s, Apply(d, e), id, n)
  {
    if e.Rename? {
      assert e.source == Path(e.source.dir, e.source.id);
    }
  }

  lemma {:induction false} TameEffects(s: Settings, d: Disk, es: seq<Effect>, id: JobId, n: nat)
    requires Inv(s, d) && AllLegal(s, d, es, None) && AllTame(es) && AttemptsWithin(s, d, id, n)
    ensures AttemptsWithin(s, ApplyAll(d, es), id, n)
    decreases |es|
  {
    if es != [] {
      TameStep(s, d, es[0], id, n);
      LegalKeepsInv(s, d, es[0]);
      TameEffects(s, Apply(d, es[0]), es[1..], id, n);
    }
  }

  /** A dead-letter sweep cut after k effects is some whole revivals and the first effects of at most one more. */
  lemma {:induction false} RequeueCut(s: Settings, d: Disk, ids: seq<JobId>, n: nat, codes: set<string>, now: int, k: nat)
      returns (m: nat, j: nat)
    requires Inv(s, d) && IsListing(ids, IdsIn(d, DeadLetterDir)) && n <= |ids|
    requires 0 < k <= |RequeueUpTo(s, d, ids, n, codes, now).effects|
    ensures m < n && RequeueSplit(s, d, ids, m, j, codes, now, RequeueUpTo(s, d, ids, n, codes, now).effects[..k])
    decreases n
  {
    var before, one := RequeueExtends(s, d, ids, n - 1, codes, now);
    PrefixOfTwo(before, one, k);
    if k <= |before| {
      m, j := RequeueCut(s, d, ids, n - 1, codes, now, k);
    } else {
      m, j := n - 1, k - |before|;
      SplitHere(s, d, ids, m, j, codes, now);
    }
  }

  lemma SplitHere(s: Settings, d: Disk, ids: seq<JobId>, m: nat, j: nat, codes: set<string>, now: int)
    requires m < |ids|
    requires var before := RequeueUpTo(s, d, ids, m, codes, now).effects;
             0 < j <= |RequeueOne(s, ApplyAll(d, before), ids[m], codes, now).effects|
    ensures var before := RequeueUpTo(s, d, ids, m, codes, now).effects;
            RequeueSplit(s, d, ids, m, j, codes, now, before + RequeueOne(s, ApplyAll(d, before), ids[m], codes, now).effects[..j])
  {
  }

  lemma PrefixOfTwo(a: seq<Effect>, b: seq<Effect>, k: nat)
    requires k <= |a + b|
    ensures (a + b)[..k] == if k <= |a| then a[..k] else a + b[..k - |a|]
  {
  }

  /** The sweep over one more file issues what it issued before, then what that file needs. */
  lemma RequeueExtends(s: Settings, d: Disk, ids: seq<JobId>, n: nat, codes: set<string>, now: int)
      returns (before: seq<Effect>, one: seq<Effect>)
    requires Inv(s, d) && IsListing(ids, IdsIn(d, DeadLetterDir)) && n < |ids|
    ensures before == RequeueUpTo(s, d, ids, n, codes, now).effects
    ensures one == RequeueOne(s, ApplyAll(d, before), ids[n], codes, now).effects
    ensures RequeueUpTo(s, d, ids, n + 1, codes, now).effects == before + one
    ensures ApplyAll(d, before + one) == ApplyAll(ApplyAll(d, before), one)
  {
    RequeueUpToLegal(s, d, ids, n, codes, now);
    var first := RequeueUpTo(s, d, ids, n, codes, now);
    var next := RequeueOne(s, ApplyAll(d, first.effects), ids[n], codes, now);
    RequeueStep(s, d, ids, n, codes, now, first, next);
    before, one := first.effects, next.effects;
  }

  ghost predicate RequeueSplit(s: Settings, d: Disk, ids: seq<JobId>, m: nat, j: nat, codes: set<string>, now: int, es: seq<Effect>) {
    && m < |ids|
    && var before := RequeueUpTo(s, d, ids, m, codes, now).effects;
       var one := RequeueOne(s, ApplyAll(d, before), ids[m], codes, now).effects;
       0 < j <= |one| && es == before + one[..j]
  }

  /** What the sweep has left of the next listed job: exactly what was there. */
  lemma RequeueReaches(s: Settings, d: Disk, ids: seq<JobId>, m: nat, codes: set<string>, now: int) returns (here: Disk)
    requires Inv(s, d) && IsListing(ids, IdsIn(d, DeadLetterDir)) && m < |ids|
    ensures here == ApplyAll(d, RequeueUpTo(s, d, ids, m, codes, now).effects)
    ensures Inv(s, here) && Path(DeadLetterDir, ids[m]) in here.files && SameFor(d, here, ids[m])
  {
    var before := RequeueUpTo(s, d, ids, m, codes, now);
    here := ApplyAll(d, before.effects);
    RequeueUpToLegal(s, d, ids, m, codes, now);
    AllLegalKeepsInv(s, d, before.effects, None);
    assert ids[m] in IdsIn(d, DeadLetterDir);
    assert Path(DeadLetterDir, ids[m]) in d.files;
  }

  /** One more job of the sweep starts from a valid disk on which its dead letter is still there. */
  lemma SweepNext(s: Settings, d: Disk, ids: seq<JobId>, m: nat, codes: set<string>, now: int) returns (here: Disk)
    requires Inv(s, d) && IsListing(ids, IdsIn(d, DeadLetterDir)) && m < |ids|
    ensures here == ApplyAll(d, RequeueUpTo(s, d, ids, m, codes, now).effects)
    ensures Inv(s, here) && Path(DeadLetterDir, ids[m]) in here.files
    ensures ApplyAll(d, RequeueUpTo(s, d, ids, m + 1, codes, now).effects)
         == ApplyAll(here, RequeueOne(s, here, ids[m], codes, now).effects)
  {
    here := RequeueReaches(s, d, ids, m, codes, now);
    var before, one := RequeueExtends(s, d, ids, m, codes, now);
  }

  lemma {:induction false} RequeueAttempts(s: Settings, d: Disk, ids: seq<JobId>, m: nat, codes: set<string>, now: int, id: JobId, n: nat)
    requires Inv(s, d) && IsListing(ids, IdsIn(d, DeadLetterDir)) && m <= |ids| && AttemptsWithin(s, d, id, n)
    ensures AttemptsWithin(s, ApplyAll(d, RequeueUpTo(s, d, ids, m, codes, now).effects), id, n)
    decreases m
  {
    if m > 0 {
      RequeueAttempts(s, d, ids, m - 1, codes, now, id, n);
      var here := SweepNext(s, d, ids, m - 1, codes, now);
      WholeRevivalAttempts(s, here, ids[m - 1], codes, now, id, n);
    }
  }

  lemma WholeRevivalAttempts(s: Settings, d: Disk, x: JobId, codes: set<string>, now: int, id: JobId, n: nat)
    requires Inv(s, d) && Path(DeadLetterDir, x) in d.files && AttemptsWithin(s, d, id, n)
    ensures AttemptsWithin(s, ApplyAll(d, RequeueOne(s, d, x, codes, now).effects), id, n)
  {
    var es := RequeueOne(s, d, x, codes, now).effects;
    RevivalAttempts(s, d, x, codes, now, |es|, id, n);
    assert es[..|es|] == es;
  }

  lemma RevivalAttempts(s: Settings, d: Disk, x: JobId, codes: set<string>, now: int, k: nat, id: JobId, n: nat)
    requires Inv(s, d) && Path(DeadLetterDir, x) in d.files && AttemptsWithin(s, d, id, n)
    requires k <= |RequeueOne(s, d, x, codes, now).effects|
    ensures AttemptsWithin(s, ApplyAll(d, RequeueOne(s, d, x, codes, now).effects[..k]), id, n)
  {
    var es := RequeueOne(s, d, x, codes, now).effects;
    RequeueOneShape(s, d, x, codes, now);
    RequeueOneLegal(s, d, x, codes, now);
    if id != x {
      OthersUntouched(d, es[..k], x, id);
    } else if es != [] && k > 0 {
      ApplyOne(d, es[0]);
      ApplyTwo(d, es[0], es[1]);
      ApplyThree(d, es[0], es[1], es[2]);
      assert es[..k] == if k == 1 then [es[0]] else if k == 2 then [es[0], es[1]] else [es[0], es[1], es[2]];
    } else {
      assert es[..k] == [];
    }
  }

  /** The event is a claim of this job that was cut between its document write and its rename. */
  ghost predicate StalledClaim(s: Settings, d: Disk, ev: Event, id: JobId) {
    var es := Issued(s, d, ev);
    ev.op.OpClaimNext? && |es| == 1 && es[0].Write? && es[0].path.id == id
  }

  ghost predicate IsQueued(d: Disk, id: JobId) {
    exists dir :: Path(dir, id) in d.files && d.files[Path(dir, id)].status == QUEUED
  }

  /** How many claims of the job were cut before their rename since its document last said QUEUED. */
  ghost function StalledClaims(s: Settings, run: seq<Event>, id: JobId): nat
    decreases |run|
  {
    if run == [] then 0
    else
      var init, ev := run[..|run| - 1], run[|run| - 1];
      if IsQueued(AfterRun(s, run), id) then 0
      else StalledClaims(s, init, id) + if StalledClaim(s, AfterRun(s, init), ev, id) then 1 else 0
  }

  lemma ClaimAttempts(s: Settings, d: Disk, ev: Event, id: JobId, n: nat)
    requires Inv(s, d) && ev.op.OpClaimNext? && AttemptsWithin(s, d, id, n)
    ensures AttemptsWithin(s, AfterEvent(s, d, ev), id, n + if StalledClaim(s, d, ev, id) then 1 else 0)
  {
    ClaimLegal(s, d, ev.op.now);
    var es, cut := Effects(s, d, ev.op), Issued(s, d, ev);
    if |cut| > 0 {
      ApplyOne(d, es[0]);
      ApplyTwo(d, es[0], es[1]);
      ApplyThree(d, es[0], es[1], es[2]);
      assert cut == if |cut| == 1 then [es[0]] else if |cut| == 2 then [es[0], es[1]] else [es[0], es[1], es[2]];
    }
  }

  lemma QueuedAttempts(s: Settings, d: Disk, id: JobId)
    requires Inv(s, d) && IsQueued(d, id)
    ensures AttemptsWithin(s, d, id, 0)
  {
    var dir :| Path(dir, id) in d.files && d.files[Path(dir, id)].status == QUEUED;
    forall other | Path(other, id) in d.files ensures other == dir {
      assert Path(other, id) == Path(dir, id);
    }
  }

  lemma EventAttempts(s: Settings, d: Disk, ev: Event, id: JobId, n: nat)
    requires Inv(s, d) && AttemptsWithin(s, d, id, n)
    ensures AttemptsWithin(s, AfterEvent(s, d, ev), id, n + if StalledClaim(s, d, ev, id) then 1 else 0)
  {
    if ev.op.OpClaimNext? {
      ClaimAttempts(s, d, ev, id, n);
    } else if ev.op.OpRequeueDeadLetters? {
      var es, ids := Effects(s, d, ev.op), Listing(IdsIn(d, DeadLetterDir));
      ListingSorted(IdsIn(d, DeadLetterDir));
      var k := |Issued(s, d, ev)|;
      assert Issued(s, d, ev) == es[..k];
      if k > 0 {
        var codes := ev.op.codes - {""};
        var m, j := RequeueCut(s, d, ids, |ids|, codes, ev.op.now, k);
        RequeueAttempts(s, d, ids, m, codes, ev.op.now, id, n);
        var here := RequeueReaches(s, d, ids, m, codes, ev.op.now);
        RevivalAttempts(s, here, ids[m], codes, ev.op.now, j, id, n);
        ApplyAllConcat(d, RequeueUpTo(s, d, ids, m, codes, ev.op.now).effects,
                       RequeueOne(s, here, ids[m], codes, ev.op.now).effects[..j]);
      }
    } else {
      EventLegal(s, d, ev);
      OperationsTame(s, d, ev.op);
      assert AllTame(Issued(s, d, ev));
      TameEffects(s, d, Issued(s, d, ev), id, n);
    }
  }

  lemma {:induction false} RunAttempts(s: Settings, run: seq<Event>, id: JobId)
    ensures AttemptsWithin(s, AfterRun(s, run), id, StalledClaims(s, run, id))
    decreases |run|
  {
    RunKeepsInv(s, run);
    if run != [] {
      var init, ev := run[..|run| - 1], run[|run| - 1];
      RunKeepsInv(s, init);
      RunAttempts(s, init, id);
      EventAttempts(s, AfterRun(s, init), ev, id, StalledClaims(s, init, id));
      if IsQueued(AfterRun(s, run), id) {
        QueuedAttempts(s, AfterRun(s, run), id);
      }
    }
  }

  /** Over every run the attempt counter exceeds its maximum only by the claims cut before their rename. */
  lemma AttemptBound(s: Settings, run: seq<Event>, p: Path)
    requires p in AfterRun(s, run).files
    ensures AfterRun(s, run).files[p].attempt <= s.maxAttempts + StalledClaims(s, run, p.id)
  {
    RunAttempts(s, run, p.id);
    assert p == Path(p.dir, p.id);
  }

  // ---- Status changes ----

  /** How many of the effects rewrite the job's document with another status. */
  ghost function StatusChanges(d: Disk, es: seq<Effect>, id: JobId): nat
    decreases |es|
  {
    if es == [] then 0
    else
      (if es[0].Write? && es[0].path.id == id && es[0].path in d.files
          && d.files[es[0].path].status != es[0].job.status then 1 else 0)
      + StatusChanges(Apply(d, es[0]), es[1..], id)
  }

  ghost function RunStatusChanges(s: Settings, run: seq<Event>, id: JobId): nat
    decreases |run|
  {
    if run == [] then 0
    else
      var init := run[..|run| - 1];
      var d := AfterRun(s, init);
      RunStatusChanges(s, init, id) + StatusChanges(d, Issued(s, d, run[|run| - 1]), id)
  }

  /** Remaining attempts first, then how far the current attempt still has to go. */
  function Worth(s: Settings, job: Job): int {
    match job.status
    case QUEUED => 3 * (s.maxAttempts - job.attempt)
    case CLAIMED => 3 * (s.maxAttempts - job.attempt) + 2
    case PROCESSING => 3 * (s.maxAttempts - job.attempt) + 1
    case COMMITTED => 0
    case DEAD_LETTER => 0
  }

  function Potential(s: Settings, d: Disk, id: JobId): int {
    match ExistingJob(d, id)
    case None => 3 * s.maxAttempts
    case Some(p) => Worth(s, d.files[p])
  }

  /** Every rewrite outside the dead-letter directory costs potential if it changes the status. */
  lemma TransitionSpendsWorth(s: Settings, dir: Directory, before: Job, after: Job)
    requires InPlace(s, dir, before) && Transition(s, dir, before, after) && dir != DeadLetterDir
    requires before.attempt <= s.maxAttempts
    ensures Worth(s, after) + (if after.status != before.status then 1 else 0) <= Worth(s, before)
  {
  }

  lemma OtherWriteSpendsNothing(s: Settings, d: Disk, p: Path, job: Job, id: JobId)
    requires Legal(s, d, Write(p, job)) && p.id != id
    ensures StatusChanges(d, [Write(p, job)], id) == 0
    ensures Potential(s, Apply(d, Write(p, job)), id) == Potential(s, d, id)
  {
    assert [Write(p, job)][1..] == [];
    assert ExistingJob(Apply(d, Write(p, job)), id) == ExistingJob(d, id);
  }

  lemma RewriteSpendsPotential(s: Settings, d: Disk, p: Path, job: Job)
    requires Inv(s, d) && Legal(s, d, Write(p, job)) && AttemptsWithin(s, d, p.id, 0) && p.dir != DeadLetterDir
    requires p in d.files
    ensures StatusChanges(d, [Write(p, job)], p.id) + Potential(s, Apply(d, Write(p, job)), p.id) <= Potential(s, d, p.id)
  {
    LegalKeepsInv(s, d, Write(p, job));
    assert [Write(p, job)][1..] == [];
    ExistingIsUnique(s, Apply(d, Write(p, job)), p);
    ExistingIsUnique(s, d, p);
    TransitionSpendsWorth(s, p.dir, d.files[p], job);
  }

  lemma FirstWriteSpendsPotential(s: Settings, d: Disk, p: Path, job: Job)
    requires Inv(s, d) && Legal(s, d, Write(p, job)) && p !in d.files && p.dir != DeadLetterDir
    ensures StatusChanges(d, [Write(p, job)], p.id) + Potential(s, Apply(d, Write(p, job)), p.id) <= Potential(s, d, p.id)
  {
    LegalKeepsInv(s, d, Write(p, job));
    assert [Write(p, job)][1..] == [];
    ExistingIsUnique(s, Apply(d, Write(p, job)), p);
    assert ExistingJob(d, p.id) == None;
  }

  lemma WriteSpendsPotential(s: Settings, d: Disk, p: Path, job: Job, id: JobId)
    requires Inv(s, d) && Legal(s, d, Write(p, job)) && AttemptsWithin(s, d, id, 0) && p.dir != DeadLetterDir
    ensures StatusChanges(d, [Write(p, job)], id) + Potential(s, Apply(d, Write(p, job)), id) <= Potential(s, d, id)
  {
    if p.id != id {
      OtherWriteSpendsNothing(s, d, p, job, id);
    } else if p in d.files {
      RewriteSpendsPotential(s, d, p, job);
    } else {
      FirstWriteSpendsPotential(s, d, p, job);
    }
  }

  lemma MovedKeepsPotential(s: Settings, d: Disk, p: Path, q: Path)
    requires Inv(s, d) && Legal(s, d, Rename(p, q))
    ensures Potential(s, Apply(d, Rename(p, q)), p.id) == Potential(s, d, p.id)
  {
    LegalKeepsInv(s, d, Rename(p, q));
    ExistingIsUnique(s, d, p);
    ExistingIsUnique(s, Apply(d, Rename(p, q)), q);
  }

  lemma OtherKeepsPotential(s: Settings, d: Disk, p: Path, q: Path, id: JobId)
    requires Legal(s, d, Rename(p, q)) && p.id != id
    ensures Potential(s, Apply(d, Rename(p, q)), id) == Potential(s, d, id)
  {
    assert ExistingJob(Apply(d, Rename(p, q)), id) == ExistingJob(d, id);
  }

  lemma RenameKeepsPotential(s: Settings, d: Disk, p: Path, q: Path, id: JobId)
    requires Inv(s, d) && Legal(s, d, Rename(p, q))
    ensures StatusChanges(d, [Rename(p, q)], id) == 0
    ensures Potential(s, Apply(d, Rename(p, q)), id) == Potential(s, d, id)
  {
    assert [Rename(p, q)][1..] == [];
    if p.id == id {
      MovedKeepsPotential(s, d, p, q);
    } else {
      OtherKeepsPotential(s, d, p, q, id);
    }
  }

  lemma EffectSpendsPotential(s: Settings, d: Disk, e: Effect, id: JobId)
    requires Inv(s, d) && Legal(s, d, e) && AttemptsWithin(s, d, id, 0)
    requires e.Write? ==> e.path.dir != DeadLetterDir
    ensures StatusChanges(d, [e], id) + Potential(s, Apply(d, e), id) <= Potential(s, d, id)
  {
    match e
    case Write(p, job) => WriteSpendsPotential(s, d, p, job, id);
    case Rename(p, q) => RenameKeepsPotential(s, d, p, q, id);
    case Append(r) => assert [e][1..] == [];
  }

  lemma StatusChangesCons(d: Disk, es: seq<Effect>, id: JobId)
    requires es != []
    ensures StatusChanges(d, es, id) == StatusChanges(d, [es[0]], id) + StatusChanges(Apply(d, es[0]), es[1..], id)
  {
    assert [es[0]][1..] == [];
  }

  lemma {:induction false} TameEffectsSpendPotential(s: Settings, d: Disk, es: seq<Effect>, id: JobId)
    requires Inv(s, d) && AllLegal(s, d, es, None) && AllTame(es) && AttemptsWithin(s, d, id, 0)
    ensures StatusChanges(d, es, id) + Potential(s, ApplyAll(d, es), id) <= Potential(s, d, id)
    decreases |es|
  {
    if es != [] {
      EffectSpendsPotential(s, d, es[0], id);
      TameStep(s, d, es[0], id, 0);
      LegalKeepsInv(s, d, es[0]);
      StatusChangesCons(d, es, id);
      TameEffectsSpendPotential(s, Apply(d, es[0]), es[1..], id);
    }
  }

  lemma ClaimSpendsPotential(s: Settings, d: Disk, now: int, id: JobId)
    requires Inv(s, d) && AttemptsWithin(s, d, id, 0)
    ensures var es := ClaimNext(s, d, now).effects;
            StatusChanges(d, es, id) + Potential(s, ApplyAll(d, es), id) <= Potential(s, d, id)
  {
    ClaimLegal(s, d, now);
    var es := ClaimNext(s, d, now).effects;
    if es != [] {
      var d1 := Apply(d, es[0]);
      EffectSpendsPotential(s, d, es[0], id);
      LegalKeepsInv(s, d, es[0]);
      StatusChangesCons(d, es, id);
      assert es[1..] == [es[1], es[2]] && AllTame(es[1..]);
      if es[0].path.id != id {
        OthersUntouched(d, [es[0]], es[0].path.id, id);
        ApplyOne(d, es[0]);
        assert AttemptsWithin(s, d1, id, 0);
        TameEffectsSpendPotential(s, d1, es[1..], id);
      } else {
        RelocationKeepsPotential(s, d1, es[1], es[2], id);
      }
    }
  }

  lemma AppendChangesNothing(s: Settings, d: Disk, e: Effect, id: JobId)
    requires e.Append?
    ensures StatusChanges(d, [e], id) == 0 && Potential(s, Apply(d, e), id) == Potential(s, d, id)
  {
    assert [e][1..] == [];
  }

  lemma RelocationKeepsPotential(s: Settings, d: Disk, a: Effect, b: Effect, id: JobId)
    requires Inv(s, d) && a.Rename? && b.Append? && Legal(s, d, a)
    ensures StatusChanges(d, [a, b], id) == 0
    ensures Potential(s, ApplyAll(d, [a, b]), id) == Potential(s, d, id)
  {
    StatusChangesCons(d, [a, b], id);
    AppendChangesNothing(s, Apply(d, a), b, id);
    assert [a, b][1..] == [b];
    ApplyTwo(d, a, b);
    RenameKeepsPotential(s, d, a.source, a.destination, id);
  }

  /** No event of the run crashes and none brings dead letters back. */
  predicate Smooth(run: seq<Event>) {
    forall ev :: ev in run ==> ev.crashAfter == None && !ev.op.OpRequeueDeadLetters?
  }

  lemma {:induction false} SmoothRunAttempts(s: Settings, run: seq<Event>, id: JobId)
    requires Smooth(run)
    ensures StalledClaims(s, run, id) == 0
    decreases |run|
  {
    if run != [] {
      var init, ev := run[..|run| - 1], run[|run| - 1];
      SmoothRunAttempts(s, init, id);
      RunKeepsInv(s, init);
      if ev.op.OpClaimNext? {
        ClaimLegal(s, AfterRun(s, init), ev.op.now);
      }
    }
  }

  lemma {:induction false} SmoothRunSpendsPotential(s: Settings, run: seq<Event>, id: JobId)
    requires Smooth(run)
    ensures RunStatusChanges(s, run, id) + Potential(s, AfterRun(s, run), id) <= 3 * s.maxAttempts
    decreases |run|
  {
    if run != [] {
      var init, ev := run[..|run| - 1], run[|run| - 1];
      SmoothRunSpendsPotential(s, init, id);
      SmoothRunAttempts(s, init, id);
      RunAttempts(s, init, id);
      var d := AfterRun(s, init);
      RunKeepsInv(s, init);
      assert ev in run;
      if ev.op.OpClaimNext? {
        ClaimSpendsPotential(s, d, ev.op.now, id);
      } else {
        EventLegal(s, d, ev);
        OperationsTame(s, d, ev.op);
        TameEffectsSpendPotential(s, d, Issued(s, d, ev), id);
      }
    }
  }

  /** Without crashes and requeues a job changes status at most three times per permitted attempt. */
  lemma LifecycleBound(s: Settings, run: seq<Event>, id: JobId)
    requires Smooth(run)
    ensures RunStatusChanges(s, run, id) <= 3 * s.maxAttempts
  {
    SmoothRunSpendsPotential(s, run, id);
    SmoothRunAttempts(s, run, id);
    RunAttempts(s, run, id);
    var d := AfterRun(s, run);
    var p := ExistingJob(d, id);
    assert p.Some? ==> p.value == Path(p.value.dir, id) && p.value in d.files;
  }
}
