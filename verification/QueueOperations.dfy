/**
 What each operation of the capture queue does to a disk in any condition: the exact sequence of
 durable effects it issues and the value or error it ends with. Cutting the sequence short is a crash.
 */
module QueueOperations {
  import opened Results
  import opened QueueDisk

  datatype QueueError = QueueFull | QueueCorrupt | QueueState

  /** The configured bounds and the digest that turns an idempotency key into a job id. */
  datatype RawSettings = RawSettings(
    maxQueuedJobs: nat,
    maxAttempts: nat,
    leaseSeconds: nat,
    hash: Key -> JobId)

  type Settings = s: RawSettings | s.maxQueuedJobs > 0 && s.maxAttempts > 0 && s.leaseSeconds > 0
    witness RawSettings(1, 1, 1, (k: Key) => 0)

  datatype Receipt = Receipt(id: JobId, status: Status, duplicate: bool)

  datatype Outcome<+T> = Outcome(effects: seq<Effect>, result: Result<T, QueueError>)

  /** The same outcome with effects that happened before it. */
  function After<T>(done: seq<Effect>, o: Outcome<T>): Outcome<T> {
    o.(effects := done + o.effects)
  }

  // ---- Reading and naming jobs ----

  function ReadJob(s: Settings, d: Disk, p: Path): Result<Job, QueueError> {
    if p !in d.files then Failure(QueueCorrupt)
    else
      var job := d.files[p];
      if job.id != p.id || s.hash(job.key) != job.id then Failure(QueueCorrupt) else Success(job)
  }

  /** The first directory, in lookup order, that holds a file for the job. */
  function ExistingJob(d: Disk, id: JobId): Option<Path> {
    if Path(QueuedDir, id) in d.files then Some(Path(QueuedDir, id))
    else if Path(ProcessingDir, id) in d.files then Some(Path(ProcessingDir, id))
    else if Path(CompletedDir, id) in d.files then Some(Path(CompletedDir, id))
    else if Path(DeadLetterDir, id) in d.files then Some(Path(DeadLetterDir, id))
    else None
  }

  ghost predicate IsListing(ids: seq<JobId>, all: set<JobId>) {
    && (forall i, j :: 0 <= i < j < |ids| ==> ids[i] < ids[j])
    && (forall id :: id in ids <==> id in all)
  }

  /** A number above every id. */
  ghost function Ceiling(ids: set<JobId>): nat
    decreases ids
  {
    if ids == {} then 0
    else
      var id :| id in ids;
      var rest := Ceiling(ids - {id});
      if id < rest then rest else id + 1
  }

  lemma {:induction false} CeilingBounds(ids: set<JobId>)
    ensures forall id :: id in ids ==> id < Ceiling(ids)
    decreases ids
  {
    if ids != {} {
      var id :| id in ids && Ceiling(ids) == (var rest := Ceiling(ids - {id}); if id < rest then rest else id + 1);
      CeilingBounds(ids - {id});
      forall x | x in ids ensures x < Ceiling(ids) {
        assert x == id || x in ids - {id};
      }
    }
  }

  ghost function ListingBelow(ids: set<JobId>, n: nat): seq<JobId> {
    if n == 0 then []
    else ListingBelow(ids, n - 1) + if n - 1 in ids then [n - 1] else []
  }

  lemma {:induction false} ListingBelowSorted(ids: set<JobId>, n: nat)
    ensures IsListing(ListingBelow(ids, n), set id | id in ids && id < n)
  {
    if n > 0 {
      ListingBelowSorted(ids, n - 1);
      var init, all := ListingBelow(ids, n - 1), ListingBelow(ids, n);
      forall i | 0 <= i < |init| ensures init[i] < n - 1 {
        assert init[i] in init;
      }
      forall id ensures id in all <==> id in ids && id < n {
        assert id in all <==> id in init || (id == n - 1 && id in ids);
      }
    }
  }

  /** The ids in file-name order. */
  ghost function Listing(ids: set<JobId>): seq<JobId> {
    ListingBelow(ids, Ceiling(ids))
  }

  lemma ListingSorted(ids: set<JobId>)
    ensures IsListing(Listing(ids), ids)
  {
    CeilingBounds(ids);
    ListingBelowSorted(ids, Ceiling(ids));
    assert (set id | id in ids && id < Ceiling(ids)) == ids;
  }

  ghost predicate IsLeast(id: JobId, ids: set<JobId>) {
    id in ids && forall x :: x in ids ==> id <= x
  }

  lemma {:induction false} LeastExists(ids: set<JobId>)
    requires ids != {}
    ensures exists id :: IsLeast(id, ids)
    decreases ids
  {
    var x :| x in ids;
    if ids == {x} {
      assert IsLeast(x, ids);
    } else {
      LeastExists(ids - {x});
      var y :| IsLeast(y, ids - {x});
      var least := if x < y then x else y;
      forall z | z in ids ensures least <= z {
        assert z == x || z in ids - {x};
      }
      assert IsLeast(least, ids);
    }
  }

  lemma ListingEmpty(a: seq<JobId>, ids: set<JobId>)
    requires IsListing(a, ids)
    ensures a == [] <==> ids == {}
  {
    if a != [] {
      assert a[0] in ids;
    }
  }

  lemma ListingTail(a: seq<JobId>, ids: set<JobId>)
    requires IsListing(a, ids) && a != []
    ensures IsLeast(a[0], ids) && IsListing(a[1..], ids - {a[0]})
  {
    assert a == [a[0]] + a[1..];
    forall id | id in ids ensures a[0] <= id {
      assert id in a;
    }
    forall id ensures id in a[1..] <==> id in ids - {a[0]} {
      assert id in a <==> id == a[0] || id in a[1..];
      if id in a[1..] {
        var k :| 0 < k < |a| && a[k] == id;
      }
    }
  }

  /** Only one listing of a set is in order. */
  lemma {:induction false} ListingUnique(a: seq<JobId>, b: seq<JobId>, ids: set<JobId>)
    requires IsListing(a, ids) && IsListing(b, ids)
    ensures a == b
    decreases |a|
  {
    ListingEmpty(a, ids);
    ListingEmpty(b, ids);
    if a != [] {
      ListingTail(a, ids);
      ListingTail(b, ids);
      ListingUnique(a[1..], b[1..], ids - {a[0]});
      assert a == [a[0]] + a[1..] && b == [b[0]] + b[1..];
    }
  }

  // ---- Terminal reconciliation ----

  /** What closing a terminal job did, with the in-memory job and acknowledgement set it leaves. */
  datatype Reconciled = Reconciled(
    effects: seq<Effect>,
    repaired: bool,
    job: Job,
    acknowledged: set<JobId>,
    error: Option<QueueError>)

  function CommittedRecord(job: Job): Record {
    Record(LedgerCommitted, job.id, job.attempt, None)
  }

  function ReconcileTerminal(d: Disk, p: Path, job: Job, acknowledged: set<JobId>, now: int): Reconciled {
    var completed := p.dir == CompletedDir;
    if !completed && job.status != COMMITTED then
      Reconciled([], false, job, acknowledged, None)
    else if completed && job.status in {CLAIMED, PROCESSING} then
      if job.claimedAt == None then
        Reconciled([], false, job, acknowledged, Some(QueueCorrupt))
      else
        var at := if job.committedAt.Some? then job.committedAt else Some(now);
        var closed := job.(status := COMMITTED, committedAt := at);
        CloseTerminal(d, p, closed, acknowledged, [Write(p, closed)])
    else if job.status != COMMITTED then
      Reconciled([], false, job, acknowledged, Some(QueueCorrupt))
    else
      CloseTerminal(d, p, job, acknowledged, [])
  }

  /** The part of the reconciliation that follows the status repair. */
  function CloseTerminal(d: Disk, p: Path, job: Job, acknowledged: set<JobId>, done: seq<Effect>): Reconciled {
    var destination := Path(CompletedDir, job.id);
    if job.committedAt == None then
      Reconciled(done, done != [], job, acknowledged, Some(QueueCorrupt))
    else if p.dir != CompletedDir && destination in d.files then
      Reconciled(done, done != [], job, acknowledged, Some(QueueState))
    else
      var moved := done + if p.dir != CompletedDir then [Rename(p, destination)] else [];
      if job.id in acknowledged then
        Reconciled(moved, moved != [], job, acknowledged, None)
      else
        Reconciled(moved + [Append(CommittedRecord(job))], true, job, acknowledged + {job.id}, None)
  }

  // ---- The single-job operations ----

  function NewJob(s: Settings, key: Key, createdAt: int): Job {
    Job(s.hash(key), key, QUEUED, 0, createdAt, None, None, None, None, None, None, None)
  }

  function Enqueue(s: Settings, d: Disk, key: Key, createdAt: int, now: int): Outcome<Receipt> {
    var job := NewJob(s, key, createdAt);
    match ExistingJob(d, job.id)
    case Some(p) =>
      (match ReadJob(s, d, p)
       case Failure(e) => Outcome([], Failure(e))
       case Success(existing) =>
         if existing.key != key then Outcome([], Failure(QueueCorrupt))
         else if p.dir == CompletedDir || existing.status == COMMITTED then
           if p.dir !in {ProcessingDir, CompletedDir} then Outcome([], Failure(QueueCorrupt))
           else
             var r := ReconcileTerminal(d, p, existing, Acknowledged(d.ledger), now);
             if r.error.Some? then Outcome(r.effects, Failure(r.error.value))
             else After(r.effects, Duplicate(r.job))
         else Duplicate(existing))
    case None =>
      if |IdsIn(d, QueuedDir)| >= s.maxQueuedJobs then Outcome([], Failure(QueueFull))
      else
        Outcome([Write(Path(QueuedDir, job.id), job), Append(Record(LedgerEnqueued, job.id, 0, None))],
                Success(Receipt(job.id, QUEUED, false)))
  }

  function Duplicate(job: Job): Outcome<Receipt> {
    Outcome([Append(Record(LedgerDuplicate, job.id, job.attempt, None))],
            Success(Receipt(job.id, job.status, true)))
  }

  /** The document rewrite, rename and ledger append that carry a job from one directory to another. */
  function Transfer<T>(d: Disk, source: Path, destination: Path, job: Job, record: Record, value: T): Outcome<T> {
    if destination in d.files[source := job] then
      Outcome([Write(source, job)], Failure(QueueState))
    else
      Outcome([Write(source, job), Rename(source, destination), Append(record)], Success(value))
  }

  /** The delivery order: older first, then by file name. */
  predicate Before(a: Job, b: Job) {
    a.createdAt < b.createdAt || (a.createdAt == b.createdAt && a.id < b.id)
  }

  ghost predicate IsOldest(d: Disk, id: JobId) {
    && Path(QueuedDir, id) in d.files
    && forall x :: Path(QueuedDir, x) in d.files && x != id ==>
         Before(d.files[Path(QueuedDir, id)], d.files[Path(QueuedDir, x)])
  }

  ghost predicate QueueReadable(s: Settings, d: Disk) {
    forall p :: p in d.files && p.dir == QueuedDir ==> ReadJob(s, d, p).Success?
  }

  lemma {:induction false} OldestExistsAmong(s: Settings, d: Disk, ids: set<JobId>) returns (id: JobId)
    requires ids != {} && QueueReadable(s, d)
    requires forall x :: x in ids ==> Path(QueuedDir, x) in d.files
    ensures id in ids
    ensures forall x :: x in ids && x != id ==>
              Before(d.files[Path(QueuedDir, id)], d.files[Path(QueuedDir, x)])
    decreases ids
  {
    var x :| x in ids;
    if ids == {x} {
      id := x;
    } else {
      var y := OldestExistsAmong(s, d, ids - {x});
      var a, b := Path(QueuedDir, x), Path(QueuedDir, y);
      assert ReadJob(s, d, a).Success? && ReadJob(s, d, b).Success?;
      id := if Before(d.files[a], d.files[b]) then x else y;
    }
  }

  lemma OldestExists(s: Settings, d: Disk)
    requires IdsIn(d, QueuedDir) != {} && QueueReadable(s, d)
    ensures exists id :: IsOldest(d, id)
  {
    var id := OldestExistsAmong(s, d, IdsIn(d, QueuedDir));
    assert IsOldest(d, id) by {
      forall x | Path(QueuedDir, x) in d.files && x != id
        ensures Before(d.files[Path(QueuedDir, id)], d.files[Path(QueuedDir, x)])
      {
        assert Path(QueuedDir, x).id in IdsIn(d, QueuedDir);
      }
    }
  }

  lemma OldestUnique(d: Disk, a: JobId, b: JobId)
    requires IsOldest(d, a) && IsOldest(d, b)
    ensures a == b
  {
  }

  function Claimed(job: Job, now: int): Job {
    job.(status := CLAIMED, attempt := job.attempt + 1, claimedAt := Some(now))
  }

  ghost function ClaimNext(s: Settings, d: Disk, now: int): Outcome<Option<Job>> {
    if !QueueReadable(s, d) then Outcome([], Failure(QueueCorrupt))
    else if IdsIn(d, QueuedDir) == {} then Outcome([], Success(None))
    else
      OldestExists(s, d);
      var id :| IsOldest(d, id);
      var source := Path(QueuedDir, id);
      var job := d.files[source];
      if job.status !in {QUEUED, CLAIMED, PROCESSING} then Outcome([], Failure(QueueCorrupt))
      else
        var claimed := Claimed(job, now);
        Transfer(d, source, Path(ProcessingDir, id), claimed,
                 Record(LedgerClaimed, id, claimed.attempt, None), Some(claimed))
  }

  function Renew(s: Settings, d: Disk, id: JobId, now: int): Outcome<()> {
    var path := Path(ProcessingDir, id);
    match ReadJob(s, d, path)
    case Failure(e) => Outcome([], Failure(e))
    case Success(job) =>
      if job.status !in {CLAIMED, PROCESSING} then Outcome([], Failure(QueueState))
      else Outcome([Write(path, job.(claimedAt := Some(now)))], Success(()))
  }

  function StartProcessing(s: Settings, d: Disk, id: JobId, now: int): Outcome<Job> {
    var path := Path(ProcessingDir, id);
    if path !in d.files then Outcome([], Failure(QueueState))
    else
      match ReadJob(s, d, path)
      case Failure(e) => Outcome([], Failure(e))
      case Success(job) =>
        if job.status != CLAIMED then Outcome([], Failure(QueueState))
        else
          var started := job.(status := PROCESSING, processingAt := Some(now));
          Outcome([Write(path, started), Append(Record(LedgerProcessing, id, job.attempt, None))], Success(started))
  }

  function Commit(s: Settings, d: Disk, id: JobId, now: int): Outcome<Receipt> {
    var source := Path(ProcessingDir, id);
    if source !in d.files then Outcome([], Failure(QueueState))
    else
      match ReadJob(s, d, source)
      case Failure(e) => Outcome([], Failure(e))
      case Success(job) =>
        if job.status !in {CLAIMED, PROCESSING} then Outcome([], Failure(QueueState))
        else
          var closed := job.(status := COMMITTED, committedAt := Some(now));
          Transfer(d, source, Path(CompletedDir, id), closed, CommittedRecord(closed), Receipt(id, COMMITTED, false))
  }

  function DeadLettered(job: Job, code: string, now: int): Job {
    job.(lastErrorCode := Some(code), status := DEAD_LETTER, deadLetteredAt := Some(now))
  }

  function Requeued(job: Job, code: string, now: int): Job {
    job.(lastErrorCode := Some(code), status := QUEUED, retryEnqueuedAt := Some(now))
  }

  function RetryOrDeadLetter(s: Settings, d: Disk, id: JobId, code: string, terminal: bool, now: int): Outcome<Receipt> {
    var source := Path(ProcessingDir, id);
    if code == "" || source !in d.files then Outcome([], Failure(QueueState))
    else
      match ReadJob(s, d, source)
      case Failure(e) => Outcome([], Failure(e))
      case Success(job) =>
        if job.status !in {CLAIMED, PROCESSING} then Outcome([], Failure(QueueState))
        else if terminal || job.attempt >= s.maxAttempts then
          Transfer(d, source, Path(DeadLetterDir, id), DeadLettered(job, code, now),
                   Record(LedgerDeadLetter, id, job.attempt, Some(code)), Receipt(id, DEAD_LETTER, false))
        else
          Transfer(d, source, Path(QueuedDir, id), Requeued(job, code, now),
                   Record(LedgerRequeued, id, job.attempt, Some(code)), Receipt(id, QUEUED, false))
  }

  // ---- Requeueing dead letters ----

  function Revived(job: Job, now: int): Job {
    job.(status := QUEUED, attempt := 0, requeuedAt := Some(now))
  }

  /** One file of the dead-letter sweep; the value says whether the job was requeued. */
  function RequeueOne(s: Settings, d: Disk, id: JobId, codes: set<string>, now: int): Outcome<bool> {
    var source := Path(DeadLetterDir, id);
    match ReadJob(s, d, source)
    case Failure(e) => Outcome([], Failure(e))
    case Success(job) =>
      if job.status != DEAD_LETTER || job.lastErrorCode == None || job.lastErrorCode.value !in codes then
        Outcome([], Success(false))
      else
        Transfer(d, source, Path(QueuedDir, id), Revived(job, now),
                 Record(LedgerRequeuedFromDeadLetter, id, 0, job.lastErrorCode), true)
  }

  /** The sweep over the first n listed files; the first error ends it. */
  function RequeueUpTo(s: Settings, d: Disk, ids: seq<JobId>, n: nat, codes: set<string>, now: int): Outcome<seq<JobId>>
    requires n <= |ids|
    decreases n, 0
  {
    if n == 0 then Outcome([], Success([]))
    else RequeueNext(s, d, ids, n - 1, codes, now)
  }

  function RequeueNext(s: Settings, d: Disk, ids: seq<JobId>, n: nat, codes: set<string>, now: int): Outcome<seq<JobId>>
    requires n < |ids|
    decreases n, 1
  {
    var before := RequeueUpTo(s, d, ids, n, codes, now);
    if before.result.Failure? then before
    else
      var one := RequeueOne(s, ApplyAll(d, before.effects), ids[n], codes, now);
      Outcome(before.effects + one.effects,
              if one.result.Failure? then Failure(one.result.error)
              else Success(before.result.value + if one.result.value then [ids[n]] else []))
  }

  lemma {:induction false} RequeueErrorEnds(s: Settings, d: Disk, ids: seq<JobId>, n: nat, codes: set<string>, now: int)
    requires n <= |ids| && RequeueUpTo(s, d, ids, n, codes, now).result.Failure?
    ensures RequeueUpTo(s, d, ids, |ids|, codes, now) == RequeueUpTo(s, d, ids, n, codes, now)
    decreases |ids| - n
  {
    if n < |ids| {
      assert RequeueUpTo(s, d, ids, n + 1, codes, now) == RequeueUpTo(s, d, ids, n, codes, now);
      RequeueErrorEnds(s, d, ids, n + 1, codes, now);
    }
  }

  /** One more file of a sweep that has not failed. */
  lemma RequeueStep(s: Settings, d: Disk, ids: seq<JobId>, n: nat, codes: set<string>, now: int, before: Outcome<seq<JobId>>, one: Outcome<bool>)
    requires n < |ids|
    requires before == RequeueUpTo(s, d, ids, n, codes, now) && before.result.Success?
    requires one == RequeueOne(s, ApplyAll(d, before.effects), ids[n], codes, now)
    ensures var o := RequeueUpTo(s, d, ids, n + 1, codes, now);
            && o.effects == before.effects + one.effects
            && ApplyAll(d, o.effects) == ApplyAll(ApplyAll(d, before.effects), one.effects)
            && (one.result.Failure? ==>
                  o.result == Failure(one.result.error) && RequeueUpTo(s, d, ids, |ids|, codes, now) == o)
            && (one.result.Success? ==>
                  o.result == Success(before.result.value + if one.result.value then [ids[n]] else []))
  {
    ApplyAllConcat(d, before.effects, one.effects);
    assert RequeueNext(s, d, ids, n, codes, now).effects == before.effects + one.effects;
    if one.result.Failure? {
      RequeueErrorEnds(s, d, ids, n + 1, codes, now);
    }
  }

  ghost function RequeueDeadLetters(s: Settings, d: Disk, codes: set<string>, now: int): Outcome<seq<JobId>> {
    if codes - {""} == {} then Outcome([], Failure(QueueState))
    else
      var ids := Listing(IdsIn(d, DeadLetterDir));
      RequeueUpTo(s, d, ids, |ids|, codes - {""}, now)
  }

  // ---- Recovery ----

  /** The running state of the two recovery loops. */
  datatype Sweep = Sweep(effects: seq<Effect>, acknowledged: set<JobId>, recovered: nat, error: Option<QueueError>)

  function Then(first: Sweep, rest: Sweep): Sweep {
    Sweep(first.effects + rest.effects, rest.acknowledged, first.recovered + rest.recovered, rest.error)
  }

  function SweepReconciled(r: Reconciled): Sweep {
    Sweep(r.effects, r.acknowledged, if r.repaired && r.error == None then 1 else 0, r.error)
  }

  function SweepOutcome(o: Outcome<()>, acknowledged: set<JobId>): Sweep {
    match o.result
    case Success(_) => Sweep(o.effects, acknowledged, 1, None)
    case Failure(e) => Sweep(o.effects, acknowledged, 0, Some(e))
  }

  function CompletedOne(s: Settings, d: Disk, id: JobId, acknowledged: set<JobId>, now: int): Sweep {
    var source := Path(CompletedDir, id);
    match ReadJob(s, d, source)
    case Failure(e) => Sweep([], acknowledged, 0, Some(e))
    case Success(job) => SweepReconciled(ReconcileTerminal(d, source, job, acknowledged, now))
  }

  const LEASE_EXPIRED := "CAPTURE_LEASE_EXPIRED"

  predicate LeaseHolds(s: Settings, job: Job, now: int)
    requires job.claimedAt.Some?
  {
    now - job.claimedAt.value < s.leaseSeconds
  }

  function ProcessingOne(s: Settings, d: Disk, id: JobId, acknowledged: set<JobId>, now: int): Sweep {
    var source := Path(ProcessingDir, id);
    match ReadJob(s, d, source)
    case Failure(e) => Sweep([], acknowledged, 0, Some(e))
    case Success(job) =>
      match job.status
      case COMMITTED => SweepReconciled(ReconcileTerminal(d, source, job, acknowledged, now))
      case QUEUED => SweepOutcome(Relocate(d, source, job), acknowledged)
      case DEAD_LETTER => SweepOutcome(Relocate(d, source, job), acknowledged)
      case _ =>
        if job.claimedAt == None then Sweep([], acknowledged, 0, Some(QueueCorrupt))
        else if LeaseHolds(s, job, now) then Sweep([], acknowledged, 0, None)
        else if job.attempt >= s.maxAttempts then
          SweepOutcome(
            Transfer(d, source, Path(DeadLetterDir, id), DeadLettered(job, LEASE_EXPIRED, now),
                     Record(LedgerDeadLetter, id, job.attempt, Some(LEASE_EXPIRED)), ()),
            acknowledged)
        else
          SweepOutcome(
            Transfer(d, source, Path(QueuedDir, id), Requeued(job, LEASE_EXPIRED, now),
                     Record(LedgerRecovered, id, job.attempt, Some(LEASE_EXPIRED)), ()),
            acknowledged)
  }

  /** Finish a transition whose document was rewritten but whose rename never happened. */
  function Relocate(d: Disk, source: Path, job: Job): Outcome<()> {
    var destination := Path(DirectoryOf(job.status), job.id);
    if destination in d.files then Outcome([], Failure(QueueState))
    else
      Outcome([Rename(source, destination), Append(Record(LedgerRecovered, job.id, job.attempt, job.lastErrorCode))],
              Success(()))
  }

  function RecoverOne(s: Settings, d: Disk, dir: Directory, id: JobId, acknowledged: set<JobId>, now: int): Sweep {
    if dir == CompletedDir then CompletedOne(s, d, id, acknowledged, now)
    else ProcessingOne(s, d, id, acknowledged, now)
  }

  /** One recovery loop over the first n listed files; the first error ends it. */
  function RecoverUpTo(s: Settings, d: Disk, dir: Directory, ids: seq<JobId>, n: nat, acknowledged: set<JobId>, now: int): Sweep
    requires n <= |ids|
    decreases n, 0
  {
    if n == 0 then Sweep([], acknowledged, 0, None)
    else RecoverNext(s, d, dir, ids, n - 1, acknowledged, now)
  }

  function RecoverNext(s: Settings, d: Disk, dir: Directory, ids: seq<JobId>, n: nat, acknowledged: set<JobId>, now: int): Sweep
    requires n < |ids|
    decreases n, 2
  {
    var before := RecoverUpTo(s, d, dir, ids, n, acknowledged, now);
    if before.error.Some? then before else RecoverFrom(s, d, dir, ids, n, acknowledged, now)
  }

  /** The effects of the first n files, then those of file n on the disk they leave. */
  function RecoverFrom(s: Settings, d: Disk, dir: Directory, ids: seq<JobId>, n: nat, acknowledged: set<JobId>, now: int): Sweep
    requires n < |ids|
    decreases n, 1
  {
    var before := RecoverUpTo(s, d, dir, ids, n, acknowledged, now);
    Then(before, RecoverOne(s, ApplyAll(d, before.effects), dir, ids[n], before.acknowledged, now))
  }

  lemma {:induction false} RecoverErrorEnds(s: Settings, d: Disk, dir: Directory, ids: seq<JobId>, n: nat, acknowledged: set<JobId>, now: int)
    requires n <= |ids| && RecoverUpTo(s, d, dir, ids, n, acknowledged, now).error.Some?
    ensures RecoverUpTo(s, d, dir, ids, |ids|, acknowledged, now) == RecoverUpTo(s, d, dir, ids, n, acknowledged, now)
    decreases |ids| - n
  {
    if n < |ids| {
      assert RecoverUpTo(s, d, dir, ids, n + 1, acknowledged, now) == RecoverUpTo(s, d, dir, ids, n, acknowledged, now);
      RecoverErrorEnds(s, d, dir, ids, n + 1, acknowledged, now);
    }
  }

  /** One more file of a recovery loop that has not failed. */
  lemma RecoverStep(s: Settings, d: Disk, dir: Directory, ids: seq<JobId>, n: nat, acknowledged: set<JobId>, now: int, before: Sweep, one: Sweep)
    requires n < |ids|
    requires before == RecoverUpTo(s, d, dir, ids, n, acknowledged, now) && before.error == None
    requires one == RecoverOne(s, ApplyAll(d, before.effects), dir, ids[n], before.acknowledged, now)
    ensures RecoverUpTo(s, d, dir, ids, n + 1, acknowledged, now) == Then(before, one)
    ensures ApplyAll(d, before.effects + one.effects) == ApplyAll(ApplyAll(d, before.effects), one.effects)
    ensures one.error.Some? ==> RecoverAll(s, d, dir, ids, acknowledged, now) == Then(before, one)
  {
    ApplyAllConcat(d, before.effects, one.effects);
    assert RecoverFrom(s, d, dir, ids, n, acknowledged, now) == Then(before, one);
    assert RecoverNext(s, d, dir, ids, n, acknowledged, now) == Then(before, one);
    if one.error.Some? {
      RecoverErrorEnds(s, d, dir, ids, n + 1, acknowledged, now);
    }
  }

  /** A whole recovery loop. */
  function RecoverAll(s: Settings, d: Disk, dir: Directory, ids: seq<JobId>, acknowledged: set<JobId>, now: int): Sweep {
    RecoverUpTo(s, d, dir, ids, |ids|, acknowledged, now)
  }

  /** Both loops; the second lists the processing directory as the first one left it. */
  ghost function RecoverySweep(s: Settings, d: Disk, now: int): Sweep {
    var first := RecoverAll(s, d, CompletedDir, Listing(IdsIn(d, CompletedDir)), Acknowledged(d.ledger), now);
    if first.error.Some? then first
    else
      var between := ApplyAll(d, first.effects);
      Then(first, RecoverAll(s, between, ProcessingDir, Listing(IdsIn(between, ProcessingDir)), first.acknowledged, now))
  }

  ghost function RecoverExpiredClaims(s: Settings, d: Disk, now: int): Outcome<nat> {
    var r := RecoverySweep(s, d, now);
    Outcome(r.effects, if r.error.Some? then Failure(r.error.value) else Success(r.recovered))
  }
}
