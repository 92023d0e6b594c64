/**
 The one interruption that recovery does not repair: a dead-letter requeue cut before its rename.
 */
module QueueStranding {
  import opened Results
  import opened QueueDisk
  import opened QueueOperations
  import opened QueueInvariant
  import opened QueueLegality
  import opened QueueRuns
  import opened QueueLifecycle

  /** The document says QUEUED but its file is still among the dead letters. */
  predicate Stranded(d: Disk, id: JobId) {
    Path(DeadLetterDir, id) in d.files && d.files[Path(DeadLetterDir, id)].status == QUEUED
  }

  /** The last of these effects rewrote the job's document among the dead letters. */
  predicate EndsInRevival(es: seq<Effect>, id: JobId) {
    es != [] && es[|es| - 1].Write? && es[|es| - 1].path == Path(DeadLetterDir, id)
  }

  // ---- Operations that leave the dead letters alone ----

  lemma TameStrandsNothing(s: Settings, d: Disk, e: Effect, id: JobId)
    requires Inv(s, d) && Legal(s, d, e)
    requires e.Write? ==> e.path.dir != DeadLetterDir
    requires e.Rename? ==> e.source.dir != DeadLetterDir
    ensures Stranded(Apply(d, e), id) <==> Stranded(d, id)
    ensures Stranded(d, id) ==> Apply(d, e).files[Path(DeadLetterDir, id)] == d.files[Path(DeadLetterDir, id)]
  {
  }

  predicate LeavesDeadLetters(es: seq<Effect>) {
    forall e :: e in es ==> (e.Write? ==> e.path.dir != DeadLetterDir) && (e.Rename? ==> e.source.dir != DeadLetterDir)
  }

  lemma {:induction false} AllTameStrandNothing(s: Settings, d: Disk, es: seq<Effect>, id: JobId)
    requires Inv(s, d) && AllLegal(s, d, es, None) && LeavesDeadLetters(es)
    ensures Stranded(ApplyAll(d, es), id) <==> Stranded(d, id)
    ensures Stranded(d, id) ==> ApplyAll(d, es).files[Path(DeadLetterDir, id)] == d.files[Path(DeadLetterDir, id)]
    decreases |es|
  {
    if es != [] {
      TameStrandsNothing(s, d, es[0], id);
      LegalKeepsInv(s, d, es[0]);
      AllTameStrandNothing(s, Apply(d, es[0]), es[1..], id);
    }
  }

  lemma EventLeavesDeadLetters(s: Settings, d: Disk, ev: Event)
    requires Inv(s, d) && !ev.op.OpRequeueDeadLetters?
    ensures LeavesDeadLetters(Issued(s, d, ev))
  {
    if ev.op.OpClaimNext? {
      ClaimLegal(s, d, ev.op.now);
    } else {
      OperationsTame(s, d, ev.op);
      forall e | e in Issued(s, d, ev)
        ensures (e.Write? ==> e.path.dir != DeadLetterDir) && (e.Rename? ==> e.source.dir != DeadLetterDir)
      {
        assert e in Effects(s, d, ev.op);
        assert Tame(e);
      }
    }
  }

  // ---- The dead-letter sweep ----

  /** The first j effects on one dead letter strand it exactly when they are its document write alone. */
  lemma RevivalStrands(s: Settings, d: Disk, x: JobId, codes: set<string>, now: int, j: nat, id: JobId)
    requires Inv(s, d) && Path(DeadLetterDir, x) in d.files
    requires j <= |RequeueOne(s, d, x, codes, now).effects|
    ensures var es := RequeueOne(s, d, x, codes, now).effects[..j];
            var d' := ApplyAll(d, es);
            && (Stranded(d', id) <==> Stranded(d, id) || EndsInRevival(es, id))
            && (Stranded(d, id) ==> d'.files[Path(DeadLetterDir, id)] == d.files[Path(DeadLetterDir, id)])
  {
    var all := RequeueOne(s, d, x, codes, now).effects;
    RequeueOneShape(s, d, x, codes, now);
    RequeueOneLegal(s, d, x, codes, now);
    if id != x {
      OthersUntouched(d, all[..j], x, id);
      assert Path(DeadLetterDir, id) in ApplyAll(d, all[..j]).files <==> Path(DeadLetterDir, id) in d.files;
    } else if j > 0 {
      ApplyOne(d, all[0]);
      ApplyTwo(d, all[0], all[1]);
      ApplyThree(d, all[0], all[1], all[2]);
      assert all[..j] == if j == 1 then [all[0]] else if j == 2 then [all[0], all[1]] else [all[0], all[1], all[2]];
    }
  }

  /** The job is stranded on both disks, with the same document, or on neither. */
  predicate SameStranding(before: Disk, after: Disk, id: JobId) {
    && (Stranded(after, id) <==> Stranded(before, id))
    && (Stranded(before, id) ==> after.files[Path(DeadLetterDir, id)] == before.files[Path(DeadLetterDir, id)])
  }

  lemma WholeRevivalStrandsNothing(s: Settings, d: Disk, x: JobId, codes: set<string>, now: int, id: JobId)
    requires Inv(s, d) && Path(DeadLetterDir, x) in d.files
    ensures SameStranding(d, ApplyAll(d, RequeueOne(s, d, x, codes, now).effects), id)
  {
    var es := RequeueOne(s, d, x, codes, now).effects;
    RequeueOneShape(s, d, x, codes, now);
    RevivalStrands(s, d, x, codes, now, |es|, id);
    assert es[..|es|] == es;
  }

  lemma {:induction false} FinishedSweepStrandsNothing(s: Settings, d: Disk, ids: seq<JobId>, m: nat, codes: set<string>, now: int, id: JobId)
    requires Inv(s, d) && IsListing(ids, IdsIn(d, DeadLetterDir)) && m <= |ids|
    ensures SameStranding(d, ApplyAll(d, RequeueUpTo(s, d, ids, m, codes, now).effects), id)
    decreases m
  {
    if m > 0 {
      FinishedSweepStrandsNothing(s, d, ids, m - 1, codes, now, id);
      var here := SweepNext(s, d, ids, m - 1, codes, now);
      WholeRevivalStrandsNothing(s, here, ids[m - 1], codes, now, id);
    }
  }

  lemma RequeueStrands(s: Settings, d: Disk, ev: Event, id: JobId)
    requires Inv(s, d) && ev.op.OpRequeueDeadLetters?
    ensures Stranded(AfterEvent(s, d, ev), id) <==> Stranded(d, id) || EndsInRevival(Issued(s, d, ev), id)
    ensures Stranded(d, id) ==>
              AfterEvent(s, d, ev).files[Path(DeadLetterDir, id)] == d.files[Path(DeadLetterDir, id)]
  {
    var es, ids := Effects(s, d, ev.op), Listing(IdsIn(d, DeadLetterDir));
    ListingSorted(IdsIn(d, DeadLetterDir));
    var k, codes, now := |Issued(s, d, ev)|, ev.op.codes - {""}, ev.op.now;
    assert Issued(s, d, ev) == es[..k];
    if k > 0 {
      var m, j := RequeueCut(s, d, ids, |ids|, codes, now, k);
      FinishedSweepStrandsNothing(s, d, ids, m, codes, now, id);
      var here := RequeueReaches(s, d, ids, m, codes, now);
      RevivalStrands(s, here, ids[m], codes, now, j, id);
      ApplyAllConcat(d, RequeueUpTo(s, d, ids, m, codes, now).effects, RequeueOne(s, here, ids[m], codes, now).effects[..j]);
    }
  }

  /**
   A job becomes stranded exactly when a dead-letter requeue crashes between the write of its document
   and the rename of its file; no other operation, finished or cut off, strands a job or frees one.
   */
  lemma StrandedExactlyByCutRequeue(s: Settings, run: seq<Event>, ev: Event, id: JobId)
    ensures Stranded(AfterRun(s, run + [ev]), id) <==>
              || Stranded(AfterRun(s, run), id)
              || (ev.op.OpRequeueDeadLetters? && EndsInRevival(Issued(s, AfterRun(s, run), ev), id))
    ensures Stranded(AfterRun(s, run), id) ==>
              AfterRun(s, run + [ev]).files[Path(DeadLetterDir, id)] == AfterRun(s, run).files[Path(DeadLetterDir, id)]
  {
    var d := AfterRun(s, run);
    RunKeepsInv(s, run);
    assert (run + [ev])[..|run + [ev]| - 1] == run;
    if ev.op.OpRequeueDeadLetters? {
      RequeueStrands(s, d, ev, id);
    } else {
      EventLegal(s, d, ev);
      EventLeavesDeadLetters(s, d, ev);
      AllTameStrandNothing(s, d, Issued(s, d, ev), id);
    }
  }

  lemma StrandedStays(s: Settings, before: seq<Event>, after: seq<Event>, ev: Event, id: JobId)
    requires Stranded(AfterRun(s, before), id) && after == before + [ev]
    ensures Stranded(AfterRun(s, after), id)
    ensures AfterRun(s, after).files[Path(DeadLetterDir, id)] == AfterRun(s, before).files[Path(DeadLetterDir, id)]
  {
    StrandedExactlyByCutRequeue(s, before, ev, id);
  }

  /** A stranded job stays exactly where it is for ever, whatever is called and however it crashes. */
  lemma {:induction false} StrandedForEver(s: Settings, run: seq<Event>, more: seq<Event>, id: JobId)
    requires Stranded(AfterRun(s, run), id)
    ensures var p := Path(DeadLetterDir, id);
            p in AfterRun(s, run + more).files
            && AfterRun(s, run + more).files[p] == AfterRun(s, run).files[p]
    decreases |more|
  {
    if more == [] {
      assert run + more == run;
    } else {
      var init, last := more[..|more| - 1], more[|more| - 1];
      var before, after := run + init, run + more;
      assert after == before + [last];
      StrandedForEver(s, run, init, id);
      StrandedStays(s, before, after, last, id);
    }
  }

  // ---- A run that strands a job ----

  /** Enqueue, claim and dead-letter one job, then crash its requeue right after the document write. */
  function StrandingRun(s: Settings, key: Key, code: string): seq<Event> {
    [Event(OpEnqueue(key, 0, 0), None), Event(OpClaimNext(0), None),
     Event(OpRetryOrDeadLetter(s.hash(key), code, true, 0), None),
     Event(OpRequeueDeadLetters({code}, 0), Some(1))]
  }

  lemma OneFileListing(d: Disk, p: Path)
    requires d.files.Keys == {p}
    ensures IdsIn(d, p.dir) == {p.id} && Listing(IdsIn(d, p.dir)) == [p.id]
  {
    assert p in d.files;
    ListingSorted({p.id});
    assert IsListing([p.id], {p.id});
    ListingUnique(Listing({p.id}), [p.id], {p.id});
  }

  lemma EnqueueAlone(s: Settings, key: Key)
    ensures AfterEvent(s, EMPTY_DISK, Event(OpEnqueue(key, 0, 0), None)).files
            == map[Path(QueuedDir, s.hash(key)) := NewJob(s, key, 0)]
  {
    var q, job := Path(QueuedDir, s.hash(key)), NewJob(s, key, 0);
    assert IdsIn(EMPTY_DISK, QueuedDir) == {};
    ApplyTwo(EMPTY_DISK, Write(q, job), Append(Record(LedgerEnqueued, job.id, 0, None)));
  }

  lemma ClaimAlone(s: Settings, d: Disk, id: JobId, job: Job)
    requires Inv(s, d) && d.files == map[Path(QueuedDir, id) := job]
    ensures AfterEvent(s, d, Event(OpClaimNext(0), None)).files == map[Path(ProcessingDir, id) := Claimed(job, 0)]
  {
    ClaimLegal(s, d, 0);
    OneFileListing(d, Path(QueuedDir, id));
    var o := ClaimNext(s, d, 0);
    ApplyThree(d, o.effects[0], o.effects[1], o.effects[2]);
  }

  lemma DeadLetterAlone(s: Settings, d: Disk, id: JobId, job: Job, code: string)
    requires Inv(s, d) && d.files == map[Path(ProcessingDir, id) := job] && job.status == CLAIMED && code != ""
    ensures AfterEvent(s, d, Event(OpRetryOrDeadLetter(id, code, true, 0), None)).files
            == map[Path(DeadLetterDir, id) := DeadLettered(job, code, 0)]
  {
    var w := Path(ProcessingDir, id);
    ReadableUnderInv(s, d, w);
    assert w in d.files;
    var es := RetryOrDeadLetter(s, d, id, code, true, 0).effects;
    ApplyThree(d, es[0], es[1], es[2]);
  }

  lemma DeadLetteredOnce(s: Settings, key: Key, code: string) returns (d: Disk)
    requires code != ""
    ensures d == AfterRun(s, StrandingRun(s, key, code)[..3])
    ensures var p := Path(DeadLetterDir, s.hash(key));
            && d.files.Keys == {p} && d.files[p].status == DEAD_LETTER && d.files[p].lastErrorCode == Some(code)
  {
    var run, id, job := StrandingRun(s, key, code), s.hash(key), NewJob(s, key, 0);
    assert run[..1] == [] + [run[0]] && run[..2] == run[..1] + [run[1]] && run[..3] == run[..2] + [run[2]];
    AfterRunAppend(s, [], run[0]);
    EnqueueAlone(s, key);
    RunKeepsInv(s, run[..1]);
    AfterRunAppend(s, run[..1], run[1]);
    ClaimAlone(s, AfterRun(s, run[..1]), id, job);
    RunKeepsInv(s, run[..2]);
    AfterRunAppend(s, run[..2], run[2]);
    DeadLetterAlone(s, AfterRun(s, run[..2]), id, Claimed(job, 0), code);
    d := AfterRun(s, run[..3]);
  }

  lemma StrandingIsReachable(s: Settings, key: Key, code: string)
    requires code != ""
    ensures Stranded(AfterRun(s, StrandingRun(s, key, code)), s.hash(key))
  {
    var run, id := StrandingRun(s, key, code), s.hash(key);
    var d := DeadLetteredOnce(s, key, code);
    var p := Path(DeadLetterDir, id);
    assert run[..|run| - 1] == run[..3];
    OneFileListing(d, p);
    RunKeepsInv(s, run[..3]);
    ReadableUnderInv(s, d, p);
    var one := RequeueOne(s, d, id, {code}, 0);
    RequeueStep(s, d, [id], 0, {code}, 0, Outcome([], Success([])), one);
    assert {code} - {""} == {code};
    assert Issued(s, d, run[3]) == [Write(p, Revived(d.files[p], 0))];
    ApplyOne(d, Write(p, Revived(d.files[p], 0)));
  }
}
