/** All runs of the queue with crashes. */
module QueueRuns {
  import opened Results
  import opened QueueDisk
  import opened QueueOperations
  import opened QueueInvariant
  import opened QueueLegality
  import opened QueueRecovery

  datatype Operation =
    | OpEnqueue(key: Key, createdAt: int, now: int)
    | OpClaimNext(now: int)
    | OpRenew(id: JobId, now: int)
    | OpStartProcessing(id: JobId, now: int)
    | OpCommit(id: JobId, now: int)
    | OpRetryOrDeadLetter(id: JobId, code: string, terminal: bool, now: int)
    | OpRequeueDeadLetters(codes: set<string>, now: int)
    | OpRecoverExpiredClaims(now: int)

  ghost function Effects(s: Settings, d: Disk, op: Operation): seq<Effect> {
    match op
    case OpEnqueue(key, createdAt, now) => Enqueue(s, d, key, createdAt, now).effects
    case OpClaimNext(now) => ClaimNext(s, d, now).effects
    case OpRenew(id, now) => Renew(s, d, id, now).effects
    case OpStartProcessing(id, now) => StartProcessing(s, d, id, now).effects
    case OpCommit(id, now) => Commit(s, d, id, now).effects
    case OpRetryOrDeadLetter(id, code, terminal, now) => RetryOrDeadLetter(s, d, id, code, terminal, now).effects
    case OpRequeueDeadLetters(codes, now) => RequeueDeadLetters(s, d, codes, now).effects
    case OpRecoverExpiredClaims(now) => RecoverExpiredClaims(s, d, now).effects
  }

  /** One call that reaches its end, or that crashes after some of its effects. */
  datatype Event = Event(op: Operation, crashAfter: Option<nat>)

  function Cut<T>(es: seq<T>, crashAfter: Option<nat>): seq<T> {
    if crashAfter.Some? && crashAfter.value < |es| then es[..crashAfter.value] else es
  }

  ghost function Issued(s: Settings, d: Disk, ev: Event): seq<Effect> {
    Cut(Effects(s, d, ev.op), ev.crashAfter)
  }

  ghost function AfterEvent(s: Settings, d: Disk, ev: Event): Disk {
    ApplyAll(d, Issued(s, d, ev))
  }

  /** The disk after a run that starts with an empty spool. */
  ghost function AfterRun(s: Settings, run: seq<Event>): Disk
    decreases |run|
  {
    if run == [] then EMPTY_DISK
    else AfterEvent(s, AfterRun(s, run[..|run| - 1]), run[|run| - 1])
  }

  lemma AfterRunAppend(s: Settings, run: seq<Event>, ev: Event)
    ensures AfterRun(s, run + [ev]) == AfterEvent(s, AfterRun(s, run), ev)
  {
    assert (run + [ev])[..|run|] == run;
  }

  lemma EffectsLegal(s: Settings, d: Disk, op: Operation)
    requires Inv(s, d)
    ensures AllLegal(s, d, Effects(s, d, op), None)
  {
    match op
    case OpEnqueue(key, createdAt, now) => EnqueueLegal(s, d, key, createdAt, now);
    case OpClaimNext(now) => ClaimLegal(s, d, now);
    case OpRenew(id, now) =>
    case OpStartProcessing(id, now) =>
    case OpCommit(id, now) => CommitLegal(s, d, id, now);
    case OpRetryOrDeadLetter(id, code, terminal, now) => RetryLegal(s, d, id, code, terminal, now);
    case OpRequeueDeadLetters(codes, now) => RequeueLegal(s, d, codes, now);
    case OpRecoverExpiredClaims(now) =>
      RecoverySettles(s, d, now);
      ForgetGoals(s, d, Effects(s, d, op), now);
  }

  lemma {:induction false} ForgetGoals(s: Settings, d: Disk, es: seq<Effect>, now: int)
    requires AllLegal(s, d, es, Some(now))
    ensures AllLegal(s, d, es, None)
    decreases |es|
  {
    if es != [] {
      ForgetGoals(s, Apply(d, es[0]), es[1..], now);
    }
  }

  lemma EventLegal(s: Settings, d: Disk, ev: Event)
    requires Inv(s, d)
    ensures AllLegal(s, d, Issued(s, d, ev), None) && Inv(s, AfterEvent(s, d, ev))
  {
    EffectsLegal(s, d, ev.op);
    var es := Effects(s, d, ev.op);
    if ev.crashAfter.Some? && ev.crashAfter.value < |es| {
      AllLegalPrefix(s, d, es, ev.crashAfter.value, None);
    }
    AllLegalKeepsInv(s, d, Issued(s, d, ev), None);
  }

  lemma {:induction false} RunKeepsInv(s: Settings, run: seq<Event>)
    ensures Inv(s, AfterRun(s, run))
    decreases |run|
  {
    if run != [] {
      RunKeepsInv(s, run[..|run| - 1]);
      EventLegal(s, AfterRun(s, run[..|run| - 1]), run[|run| - 1]);
    }
  }

  // ---- Safety of every run ----

  /** Each job is in at most one directory, in one of these (directory, status) pairs. */
  lemma PlacesAndStatuses(s: Settings, run: seq<Event>)
    ensures var d := AfterRun(s, run);
            && (forall p, q :: p in d.files && q in d.files && p.id == q.id ==> p == q)
            && (forall p :: p in d.files ==>
                  var status := d.files[p].status;
                  match p.dir
                  case QueuedDir => status == QUEUED || status == CLAIMED
                  case ProcessingDir => true
                  case CompletedDir => status == COMMITTED
                  case DeadLetterDir => status == DEAD_LETTER || status == QUEUED)
  {
    RunKeepsInv(s, run);
  }

  /** A job has at most one COMMITTED record, and only once its committed document is in the completed directory. */
  lemma LedgerAgrees(s: Settings, run: seq<Event>, id: JobId)
    ensures var d := AfterRun(s, run);
            && Acknowledgements(d.ledger, id) <= 1
            && (id in Acknowledged(d.ledger) ==>
                  Path(CompletedDir, id) in d.files && d.files[Path(CompletedDir, id)].status == COMMITTED)
  {
    RunKeepsInv(s, run);
    AcknowledgedMeansCounted(AfterRun(s, run).ledger, id);
  }

  ghost predicate HasDocument(d: Disk, id: JobId, job: Job) {
    exists dir :: Path(dir, id) in d.files && d.files[Path(dir, id)] == job
  }

  /** The job has a file somewhere. */
  ghost predicate Known(d: Disk, id: JobId) {
    exists dir :: Path(dir, id) in d.files
  }

  lemma {:induction false} LegalNeverLoses(s: Settings, d: Disk, es: seq<Effect>, id: JobId, job: Job)
    requires Inv(s, d) && AllLegal(s, d, es, None)
    ensures Known(d, id) ==> Known(ApplyAll(d, es), id)
    ensures job.status == COMMITTED && HasDocument(d, id, job) ==> HasDocument(ApplyAll(d, es), id, job)
    decreases |es|
  {
    if es != [] {
      var e, d' := es[0], Apply(d, es[0]);
      LegalKeepsInv(s, d, e);
      if Known(d, id) {
        var dir :| Path(dir, id) in d.files;
        if e.Rename? && e.source == Path(dir, id) {
          assert Path(e.destination.dir, id) in d'.files;
        } else {
          assert Path(dir, id) in d'.files;
        }
      }
      if job.status == COMMITTED && HasDocument(d, id, job) {
        var dir :| Path(dir, id) in d.files && d.files[Path(dir, id)] == job;
        if e.Rename? && e.source == Path(dir, id) {
          assert d'.files[Path(e.destination.dir, id)] == job;
        } else {
          assert Path(dir, id) in d'.files && d'.files[Path(dir, id)] == job;
        }
      }
      LegalNeverLoses(s, d', es[1..], id, job);
    }
  }

  /**
   No event loses a job, and none ever changes a committed document again: a committed job is
   never claimed, retried or dead-lettered, whatever runs and crashes follow.
   */
  lemma {:induction false} CommittedIsFinal(s: Settings, run: seq<Event>, more: seq<Event>, id: JobId, job: Job)
    ensures Known(AfterRun(s, run), id) ==> Known(AfterRun(s, run + more), id)
    ensures job.status == COMMITTED && HasDocument(AfterRun(s, run), id, job)
            ==> HasDocument(AfterRun(s, run + more), id, job)
    decreases |more|
  {
    if more == [] {
      assert run + more == run;
    } else {
      var init, last := more[..|more| - 1], more[|more| - 1];
      CommittedIsFinal(s, run, init, id, job);
      assert (run + more)[..|run + more| - 1] == run + init;
      var d := AfterRun(s, run + init);
      RunKeepsInv(s, run + init);
      EventLegal(s, d, last);
      LegalNeverLoses(s, d, Issued(s, d, last), id, job);
    }
  }

  /** Recovery of any reachable queue succeeds, closes commits and leases, and survives its own crashes. */
  lemma ReachableQueueRecovers(s: Settings, run: seq<Event>, now: int, k: nat)
    requires k <= |RecoverExpiredClaims(s, AfterRun(s, run), now).effects|
    ensures var d := AfterRun(s, run);
            var o := RecoverExpiredClaims(s, d, now);
            var cut := ApplyAll(d, o.effects[..k]);
            var again := RecoverExpiredClaims(s, cut, now);
            && o.result.Success? && again.result.Success?
            && ApplyAll(cut, again.effects).files == ApplyAll(d, o.effects).files
            && Acknowledged(ApplyAll(cut, again.effects).ledger) == Acknowledged(ApplyAll(d, o.effects).ledger)
            && RecoverExpiredClaims(s, ApplyAll(d, o.effects), now) == Outcome([], Success(0))
  {
    RunKeepsInv(s, run);
    RecoverySettles(s, AfterRun(s, run), now);
    RecoveryIsCrashIdempotent(s, AfterRun(s, run), now, k);
    RecoveryIsAFixpoint(s, AfterRun(s, run), now);
  }
}
