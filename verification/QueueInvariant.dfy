/** The invariant of the spool and the effects that keep it: legal effects may be cut anywhere. */
module QueueInvariant {
  import opened Results
  import opened QueueDisk
  import opened QueueOperations

  /** What a readable document in one directory looks like; the (directory, status) pairs are the point. */
  predicate InPlace(s: Settings, dir: Directory, job: Job) {
    && s.hash(job.key) == job.id
    && (job.status == QUEUED ==> job.attempt < s.maxAttempts)
    && (job.status in {CLAIMED, PROCESSING} ==> job.claimedAt.Some?)
    && (job.status == COMMITTED ==> job.committedAt.Some?)
    && match dir
       case QueuedDir => job.status in {QUEUED, CLAIMED}
       case ProcessingDir => true
       case CompletedDir => job.status == COMMITTED
       case DeadLetterDir => job.status in {DEAD_LETTER, QUEUED}
  }

  ghost predicate Inv(s: Settings, d: Disk) {
    && (forall p :: p in d.files ==> d.files[p].id == p.id && InPlace(s, p.dir, d.files[p]))
    && (forall p, q :: p in d.files && q in d.files && p.id == q.id ==> p == q)
    && (forall id :: Acknowledgements(d.ledger, id) <= 1)
    && (forall id :: Acknowledgements(d.ledger, id) == 1 ==> Path(CompletedDir, id) in d.files)
  }

  /** How one document may be rewritten in place. */
  predicate Transition(s: Settings, dir: Directory, before: Job, after: Job) {
    || (after.status == before.status && after.attempt == before.attempt && (before.status == COMMITTED ==> after == before))
    || (dir == QueuedDir && after.status == CLAIMED && after.attempt == before.attempt + 1)
    || (&& dir == ProcessingDir && before.status in {CLAIMED, PROCESSING}
        && after.attempt == before.attempt && after.status != CLAIMED)
    || (dir == DeadLetterDir && before.status == DEAD_LETTER && after.status == QUEUED && after.attempt == 0)
  }

  ghost predicate Legal(s: Settings, d: Disk, e: Effect) {
    match e
    case Write(p, job) =>
      && job.id == p.id && InPlace(s, p.dir, job)
      && (if p in d.files then Transition(s, p.dir, d.files[p], job)
          else p.dir == QueuedDir && job.status == QUEUED && job.attempt == 0
               && forall q :: q in d.files ==> q.id != p.id)
    case Rename(p, q) =>
      && p in d.files && q.id == p.id && p.dir != CompletedDir
      && q.dir == DirectoryOf(d.files[p].status) && q.dir != p.dir
    case Append(r) =>
      r.action == LedgerCommitted ==>
        Path(CompletedDir, r.id) in d.files && Acknowledgements(d.ledger, r.id) == 0
  }

  lemma LegalKeepsInv(s: Settings, d: Disk, e: Effect)
    requires Inv(s, d) && Legal(s, d, e)
    ensures Inv(s, Apply(d, e))
  {
    match e
    case Write(p, job) =>
    case Rename(p, q) =>
      var d' := Apply(d, e);
      forall id | Acknowledgements(d'.ledger, id) == 1 ensures Path(CompletedDir, id) in d'.files {
        assert Path(CompletedDir, id) in d.files;
      }
    case Append(r) =>
      forall id { AcknowledgementsAppend(d.ledger, r, id); }
  }

  // ---- Where a job is headed when recovery runs ----

  /** The place and document that recovery at the given time leaves a file with. */
  function Settle(s: Settings, p: Path, job: Job, now: int): (Path, Job) {
    if p.dir != ProcessingDir then (p, job)
    else if job.status in {CLAIMED, PROCESSING} then
      if job.claimedAt == None || LeaseHolds(s, job, now) then (p, job)
      else if job.attempt >= s.maxAttempts then (Path(DeadLetterDir, p.id), DeadLettered(job, LEASE_EXPIRED, now))
      else (Path(QueuedDir, p.id), Requeued(job, LEASE_EXPIRED, now))
    else (Path(DirectoryOf(job.status), p.id), job)
  }

  function Goal(s: Settings, d: Disk, id: JobId, now: int): Option<(Path, Job)> {
    match ExistingJob(d, id)
    case None => None
    case Some(p) => Some(Settle(s, p, d.files[p], now))
  }

  lemma ExistingIsUnique(s: Settings, d: Disk, p: Path)
    requires Inv(s, d) && p in d.files
    ensures ExistingJob(d, p.id) == Some(p)
  {
    var q := ExistingJob(d, p.id);
    assert p == Path(p.dir, p.id);
    assert q.Some? && q.value in d.files && q.value.id == p.id;
  }

  ghost predicate SameGoal(s: Settings, d: Disk, d': Disk, now: int) {
    forall id :: Goal(s, d', id, now) == Goal(s, d, id, now)
  }

  // ---- Sequences of legal effects ----

  /** Every effect is legal when its turn comes; under recovery it also keeps every job's goal. */
  ghost predicate AllLegal(s: Settings, d: Disk, es: seq<Effect>, recovering: Option<int>)
    decreases |es|
  {
    es == [] ||
    (&& Legal(s, d, es[0])
     && (recovering.Some? ==> SameGoal(s, d, Apply(d, es[0]), recovering.value))
     && AllLegal(s, Apply(d, es[0]), es[1..], recovering))
  }

  lemma {:induction false} AllLegalKeepsInv(s: Settings, d: Disk, es: seq<Effect>, recovering: Option<int>)
    requires Inv(s, d) && AllLegal(s, d, es, recovering)
    ensures Inv(s, ApplyAll(d, es))
    ensures recovering.Some? ==> SameGoal(s, d, ApplyAll(d, es), recovering.value)
    decreases |es|
  {
    if es != [] {
      LegalKeepsInv(s, d, es[0]);
      AllLegalKeepsInv(s, Apply(d, es[0]), es[1..], recovering);
    }
  }

  /** A crash keeps the effects that reached the disk, and those were legal. */
  lemma {:induction false} AllLegalPrefix(s: Settings, d: Disk, es: seq<Effect>, k: nat, recovering: Option<int>)
    requires k <= |es| && AllLegal(s, d, es, recovering)
    ensures AllLegal(s, d, es[..k], recovering)
    decreases |es|
  {
    if k > 0 {
      AllLegalPrefix(s, Apply(d, es[0]), es[1..], k - 1, recovering);
      assert es[..k][1..] == es[1..][..k - 1];
    }
  }

  lemma {:induction false} AllLegalConcat(s: Settings, d: Disk, es: seq<Effect>, fs: seq<Effect>, recovering: Option<int>)
    requires AllLegal(s, d, es, recovering) && AllLegal(s, ApplyAll(d, es), fs, recovering)
    ensures AllLegal(s, d, es + fs, recovering)
    decreases |es|
  {
    if es == [] {
      assert es + fs == fs;
    } else {
      AllLegalConcat(s, Apply(d, es[0]), es[1..], fs, recovering);
      assert (es + fs)[1..] == es[1..] + fs;
    }
  }

  lemma AllLegalAppend(s: Settings, d: Disk, es: seq<Effect>, e: Effect, recovering: Option<int>)
    requires AllLegal(s, d, es, recovering) && Legal(s, ApplyAll(d, es), e)
    requires recovering.Some? ==> SameGoal(s, ApplyAll(d, es), Apply(ApplyAll(d, es), e), recovering.value)
    ensures AllLegal(s, d, es + [e], recovering)
  {
    AllLegalConcat(s, d, es, [e], recovering);
  }

  // ---- Effects about one job ----

  predicate About(e: Effect, id: JobId) {
    match e
    case Write(p, job) => p.id == id && job.id == id
    case Rename(p, q) => p.id == id && q.id == id
    case Append(r) => r.id == id
  }

  predicate AllAbout(es: seq<Effect>, id: JobId) {
    forall e :: e in es ==> About(e, id)
  }

  /** Nothing about the job differs between the two disks. */
  ghost predicate SameFor(d: Disk, d': Disk, id: JobId) {
    && (forall dir {:trigger Path(dir, id)} :: Path(dir, id) in d'.files <==> Path(dir, id) in d.files)
    && (forall dir {:trigger Path(dir, id)} :: Path(dir, id) in d.files ==> d'.files[Path(dir, id)] == d.files[Path(dir, id)])
    && Acknowledgements(d'.ledger, id) == Acknowledgements(d.ledger, id)
  }

  lemma {:induction false} OthersUntouched(d: Disk, es: seq<Effect>, id: JobId, other: JobId)
    requires AllAbout(es, id) && other != id
    ensures SameFor(d, ApplyAll(d, es), other)
    decreases |es|
  {
    if es != [] {
      assert About(es[0], id);
      var d' := Apply(d, es[0]);
      if es[0].Append? {
        AcknowledgementsAppend(d.ledger, es[0].record, other);
      }
      assert SameFor(d, d', other);
      OthersUntouched(d', es[1..], id, other);
    }
  }

  // ---- The two shapes of transition ----

  /** A change to the files of one job cannot change where another job is headed. */
  lemma GoalElsewhere(s: Settings, d: Disk, d': Disk, id: JobId, now: int)
    requires forall p: Path :: p.id != id ==> (p in d.files <==> p in d'.files)
    requires forall p: Path :: p.id != id && p in d.files ==> d.files[p] == d'.files[p]
    requires Goal(s, d, id, now) == Goal(s, d', id, now)
    ensures SameGoal(s, d, d', now)
  {
  }

  lemma RewriteStep(s: Settings, d: Disk, source: Path, job: Job, recovering: Option<int>)
    requires Inv(s, d) && source in d.files && job.id == source.id
    requires InPlace(s, source.dir, job) && Transition(s, source.dir, d.files[source], job)
    requires recovering.Some? ==>
               Settle(s, source, job, recovering.value) == Settle(s, source, d.files[source], recovering.value)
    ensures AllLegal(s, d, [Write(source, job)], recovering)
    ensures Inv(s, Apply(d, Write(source, job)))
  {
    var d' := Apply(d, Write(source, job));
    LegalKeepsInv(s, d, Write(source, job));
    ExistingIsUnique(s, d, source);
    ExistingIsUnique(s, d', source);
    if recovering.Some? {
      GoalElsewhere(s, d, d', source.id, recovering.value);
    }
  }

  lemma RenameStep(s: Settings, d: Disk, source: Path, destination: Path, recovering: Option<int>)
    requires Inv(s, d) && source in d.files && source.dir != CompletedDir && destination.id == source.id
    requires destination.dir == DirectoryOf(d.files[source].status) && destination.dir != source.dir
    requires recovering.Some? ==>
               Settle(s, destination, d.files[source], recovering.value) == Settle(s, source, d.files[source], recovering.value)
    ensures destination !in d.files
    ensures AllLegal(s, d, [Rename(source, destination)], recovering)
    ensures Inv(s, Apply(d, Rename(source, destination)))
  {
    var d' := Apply(d, Rename(source, destination));
    LegalKeepsInv(s, d, Rename(source, destination));
    ExistingIsUnique(s, d, source);
    ExistingIsUnique(s, d', destination);
    if recovering.Some? {
      GoalElsewhere(s, d, d', source.id, recovering.value);
    }
  }

  lemma AppendStep(s: Settings, d: Disk, record: Record, recovering: Option<int>)
    requires record.action == LedgerCommitted ==>
               Path(CompletedDir, record.id) in d.files && Acknowledgements(d.ledger, record.id) == 0
    ensures AllLegal(s, d, [Append(record)], recovering)
  {
  }

  /** Rename and record, for a job whose document already says where it belongs. */
  lemma RenameLegal(s: Settings, d: Disk, source: Path, destination: Path, record: Record, recovering: Option<int>)
    requires Inv(s, d) && source in d.files && source.dir != CompletedDir
    requires source.id == destination.id == record.id
    requires destination.dir == DirectoryOf(d.files[source].status) && destination.dir != source.dir
    requires record.action == LedgerCommitted ==> destination.dir == CompletedDir
    requires recovering.Some? ==>
               Settle(s, destination, d.files[source], recovering.value) == Settle(s, source, d.files[source], recovering.value)
    ensures var es := [Rename(source, destination), Append(record)];
            && destination !in d.files
            && AllLegal(s, d, es, recovering) && AllAbout(es, source.id)
            && ApplyAll(d, es) == Disk((d.files - {source})[destination := d.files[source]], d.ledger + [record])
  {
    var b, c := Rename(source, destination), Append(record);
    RenameStep(s, d, source, destination, recovering);
    ApplyOne(d, b);
    ApplyTwo(d, b, c);
    AppendStep(s, Apply(d, b), record, recovering);
    AllLegalConcat(s, d, [b], [c], recovering);
    assert [b] + [c] == [b, c];
  }

  lemma TransferLegal<T>(s: Settings, d: Disk, source: Path, destination: Path, job: Job, record: Record, value: T, recovering: Option<int>)
    requires Inv(s, d) && source in d.files && source.dir != CompletedDir
    requires job.id == source.id == destination.id == record.id
    requires InPlace(s, source.dir, job) && Transition(s, source.dir, d.files[source], job)
    requires destination.dir == DirectoryOf(job.status) && destination.dir != source.dir
    requires record.action == LedgerCommitted ==> destination.dir == CompletedDir
    requires recovering.Some? ==>
               && Settle(s, source, job, recovering.value) == Settle(s, source, d.files[source], recovering.value)
               && Settle(s, destination, job, recovering.value) == Settle(s, source, job, recovering.value)
    ensures var o := Transfer(d, source, destination, job, record, value);
            && o == Outcome([Write(source, job), Rename(source, destination), Append(record)], Success(value))
            && AllLegal(s, d, o.effects, recovering) && AllAbout(o.effects, source.id)
            && ApplyAll(d, o.effects)
               == Disk((d.files - {source})[destination := job], d.ledger + [record])
  {
    var a, b, c := Write(source, job), Rename(source, destination), Append(record);
    RewriteStep(s, d, source, job, recovering);
    RenameLegal(s, Apply(d, a), source, destination, record, recovering);
    ApplyOne(d, a);
    AllLegalConcat(s, d, [a], [b, c], recovering);
    assert [a] + [b, c] == [a, b, c];
    TransferResult(d, source, destination, job, record);
  }

  lemma TransferResult(d: Disk, source: Path, destination: Path, job: Job, record: Record)
    requires source in d.files && source != destination
    ensures ApplyAll(d, [Write(source, job), Rename(source, destination), Append(record)])
         == Disk((d.files - {source})[destination := job], d.ledger + [record])
  {
    ApplyThree(d, Write(source, job), Rename(source, destination), Append(record));
    assert d.files[source := job] - {source} == d.files - {source};
  }
}
