/**
 The durable state of the capture queue and the atomic effects that change it.

 A job file is named by its directory and its job id; a document write, a rename and a
 ledger append are each one indivisible effect, and a crash can fall between any two.
 */
module QueueDisk {
  import opened Results

  /** Job ids are fixed-width hexadecimal digests, so their file-name order is an order on numbers. */
  type JobId = nat

  type Key = k: string | k != "" witness "k"

  datatype Status = QUEUED | CLAIMED | PROCESSING | COMMITTED | DEAD_LETTER

  datatype Directory = QueuedDir | ProcessingDir | CompletedDir | DeadLetterDir

  /** Two statuses share the processing directory. */
  function DirectoryOf(status: Status): Directory {
    match status
    case QUEUED => QueuedDir
    case CLAIMED => ProcessingDir
    case PROCESSING => ProcessingDir
    case COMMITTED => CompletedDir
    case DEAD_LETTER => DeadLetterDir
  }

  datatype Job = Job(
    id: JobId,
    key: Key,
    status: Status,
    attempt: nat,
    createdAt: int,
    claimedAt: Option<int>,
    processingAt: Option<int>,
    committedAt: Option<int>,
    retryEnqueuedAt: Option<int>,
    deadLetteredAt: Option<int>,
    requeuedAt: Option<int>,
    lastErrorCode: Option<string>)

  datatype Path = Path(dir: Directory, id: JobId)

  datatype Action =
    | LedgerEnqueued | LedgerDuplicate | LedgerClaimed | LedgerProcessing | LedgerCommitted
    | LedgerDeadLetter | LedgerRequeued | LedgerRequeuedFromDeadLetter | LedgerRecovered

  datatype Record = Record(action: Action, id: JobId, attempt: nat, errorCode: Option<string>)

  datatype Disk = Disk(files: map<Path, Job>, ledger: seq<Record>)

  const EMPTY_DISK := Disk(map[], [])

  datatype Effect =
    | Write(path: Path, job: Job)
    | Rename(source: Path, destination: Path)
    | Append(record: Record)

  /** A rename replaces the destination name, as the operating system's does. */
  function Apply(d: Disk, e: Effect): Disk {
    match e
    case Write(path, job) => d.(files := d.files[path := job])
    case Rename(source, destination) =>
      if source in d.files then
        d.(files := (d.files - {source})[destination := d.files[source]])
      else
        d
    case Append(record) => d.(ledger := d.ledger + [record])
  }

  function ApplyAll(d: Disk, es: seq<Effect>): Disk
    decreases |es|
  {
    if es == [] then d else ApplyAll(Apply(d, es[0]), es[1..])
  }

  lemma {:induction false} ApplyAllConcat(d: Disk, es: seq<Effect>, fs: seq<Effect>)
    ensures ApplyAll(d, es + fs) == ApplyAll(ApplyAll(d, es), fs)
    decreases |es|
  {
    if es == [] {
      assert es + fs == fs;
    } else {
      assert (es + fs)[1..] == es[1..] + fs;
      ApplyAllConcat(Apply(d, es[0]), es[1..], fs);
    }
  }

  lemma ApplyAllLast(d: Disk, es: seq<Effect>, e: Effect)
    ensures ApplyAll(d, es + [e]) == Apply(ApplyAll(d, es), e)
  {
    ApplyAllConcat(d, es, [e]);
  }

  lemma ApplyOne(d: Disk, a: Effect)
    ensures ApplyAll(d, [a]) == Apply(d, a)
  {
    ApplyAllLast(d, [], a);
  }

  lemma ApplyTwo(d: Disk, a: Effect, b: Effect)
    ensures ApplyAll(d, [a, b]) == Apply(Apply(d, a), b)
  {
    ApplyOne(d, a);
    ApplyAllLast(d, [a], b);
    assert [a] + [b] == [a, b];
  }

  lemma ApplyThree(d: Disk, a: Effect, b: Effect, c: Effect)
    ensures ApplyAll(d, [a, b, c]) == Apply(Apply(Apply(d, a), b), c)
  {
    ApplyTwo(d, a, b);
    ApplyAllLast(d, [a, b], c);
    assert [a, b] + [c] == [a, b, c];
  }

  function IdsIn(d: Disk, dir: Directory): set<JobId> {
    set p | p in d.files && p.dir == dir :: p.id
  }

  /** The job ids that the ledger acknowledges as committed. */
  function Acknowledged(ledger: seq<Record>): set<JobId> {
    set r | r in ledger && r.action == LedgerCommitted :: r.id
  }

  /** How many COMMITTED records one job has. */
  function Acknowledgements(ledger: seq<Record>, id: JobId): nat {
    if ledger == [] then 0
    else
      var last := ledger[|ledger| - 1];
      Acknowledgements(ledger[..|ledger| - 1], id)
      + if last.action == LedgerCommitted && last.id == id then 1 else 0
  }

  lemma AcknowledgementsAppend(ledger: seq<Record>, r: Record, id: JobId)
    ensures Acknowledgements(ledger + [r], id)
         == Acknowledgements(ledger, id) + if r.action == LedgerCommitted && r.id == id then 1 else 0
  {
    assert (ledger + [r])[..|ledger|] == ledger;
  }

  lemma {:induction false} AcknowledgedMeansCounted(ledger: seq<Record>, id: JobId)
    ensures id in Acknowledged(ledger) <==> Acknowledgements(ledger, id) > 0
    decreases |ledger|
  {
    if ledger != [] {
      var init, last := ledger[..|ledger| - 1], ledger[|ledger| - 1];
      assert ledger == init + [last];
      AcknowledgedMeansCounted(init, id);
    }
  }
}
