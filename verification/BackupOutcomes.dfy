/** When a backup is stable, when it gives up and what it reports, pass by pass. */
module BackupOutcomes {
  import opened Results
  import opened BackupSnapshot

  // ---- One pass ----

  /** A pass that was read holds the canonical store and validates; one that was not saw it absent or did not validate. */
  lemma PassMeans(w: World, c: Clock)
    ensures ReadPass(w, c).Read? ==> CANONICAL in ReadPass(w, c).files && w.valid(ReadPass(w, c).files)
    ensures ReadPass(w, c).Missing? ==>
              || (exists t :: c.now <= t <= ReadPass(w, c).clock.now && CANONICAL !in w.files(t))
              || (exists f :: !w.valid(f) && forall s :: HeldDuring(w, s, ValueOf(f, s), c.now, ReadPass(w, c).clock.now))
  {
    var c1 := Tick(w, c);
    if CANONICAL in w.files(c1.now) {
      var r := ReadUpTo(w, c1, |SOURCES|);
      CanonicalIsRead(w, c1, |SOURCES|);
      ReadHeld(w, c1, |SOURCES|);
      if r.Read? && !w.valid(r.files) {
        assert SOURCES[..|SOURCES|] == SOURCES;
        forall s ensures HeldDuring(w, s, ValueOf(r.files, s), c.now, r.clock.now) {
          EverySource(s);
          var t :| c1.now <= t <= r.clock.now && ValueOf(w.files(t), s) == ValueOf(r.files, s);
        }
      }
    }
  }

  lemma FirstIsCanonical(w: World, c: Clock)
    ensures ReadUpTo(w, c, 1).Read? ==> CANONICAL in ReadUpTo(w, c, 1).files
    ensures ReadUpTo(w, c, 1).Missing? ==> CANONICAL !in w.files(ReadUpTo(w, c, 1).clock.now)
  {
    assert ReadUpTo(w, c, 0) == Read(map[], c);
    assert SOURCES[0] == CANONICAL;
  }

  lemma OthersMayBeAbsent(w: World, c: Clock, n: nat)
    requires 1 < n <= |SOURCES|
    ensures ReadUpTo(w, c, n - 1).Missing? ==> ReadUpTo(w, c, n) == ReadUpTo(w, c, n - 1)
    ensures ReadUpTo(w, c, n - 1).Read? ==> ReadUpTo(w, c, n).Read?
    ensures ReadUpTo(w, c, n - 1).Read? && CANONICAL in ReadUpTo(w, c, n - 1).files ==> CANONICAL in ReadUpTo(w, c, n).files
  {
    assert SOURCES[n - 1] != CANONICAL;
  }

  lemma {:induction false} CanonicalIsRead(w: World, c: Clock, n: nat)
    requires 0 < n <= |SOURCES|
    ensures ReadUpTo(w, c, n).Read? ==> CANONICAL in ReadUpTo(w, c, n).files
    ensures ReadUpTo(w, c, n).Missing? ==> CANONICAL !in w.files(ReadUpTo(w, c, n).clock.now)
  {
    if n == 1 {
      FirstIsCanonical(w, c);
    } else {
      CanonicalIsRead(w, c, n - 1);
      OthersMayBeAbsent(w, c, n);
    }
  }

  // ---- A run, attempt by attempt ----

  /** When attempt k begins: after two passes of every attempt before it. */
  ghost function Start(w: World, c: Clock, k: nat): Clock
    requires k >= 1
    decreases k, c.step
  {
    if k == 1 then c else SecondPass(w, c, k - 1).clock
  }

  ghost function FirstPass(w: World, c: Clock, k: nat): Reading
    requires k >= 1
    decreases k, c.step + 1
  {
    ReadPass(w, Start(w, c, k))
  }

  ghost function SecondPass(w: World, c: Clock, k: nat): Reading
    requires k >= 1
    decreases k, c.step + 2
  {
    ReadPass(w, FirstPass(w, c, k).clock)
  }

  /** The pass ended within the time budget of attempt k. */
  ghost predicate InTime(w: World, c: Clock, k: nat, pass: Reading)
    requires k >= 1
  {
    pass.clock.now <= Start(w, c, k).now + w.budget
  }

  /** Both passes of attempt k were read in time. */
  ghost predicate ReadTwice(w: World, c: Clock, k: nat)
    requires k >= 1
  {
    && FirstPass(w, c, k).Read? && InTime(w, c, k, FirstPass(w, c, k))
    && SecondPass(w, c, k).Read? && InTime(w, c, k, SecondPass(w, c, k))
  }

  ghost predicate TooSlow(w: World, c: Clock, k: nat)
    requires k >= 1
  {
    && FirstPass(w, c, k).Read?
    && (!InTime(w, c, k, FirstPass(w, c, k)) || (SecondPass(w, c, k).Read? && !InTime(w, c, k, SecondPass(w, c, k))))
  }

  ghost predicate NotReadable(w: World, c: Clock, k: nat)
    requires k >= 1
  {
    FirstPass(w, c, k).Missing? || (InTime(w, c, k, FirstPass(w, c, k)) && SecondPass(w, c, k).Missing?)
  }

  /** Attempt k read two different passes. */
  ghost predicate Churned(w: World, c: Clock, k: nat)
    requires k >= 1
  {
    ReadTwice(w, c, k) && FirstPass(w, c, k).files != SecondPass(w, c, k).files
  }

  /** The sources that differed in attempt k; none before the first attempt. */
  ghost function Difference(w: World, c: Clock, k: nat): set<Source> {
    if k == 0 || !ReadTwice(w, c, k) then {}
    else set s: Source | s in SOURCES && ValueOf(FirstPass(w, c, k).files, s) != ValueOf(SecondPass(w, c, k).files, s)
  }

  lemma NothingDiffers(a: Files, b: Files)
    ensures Changed(a, b) == {} <==> a == b
  {
    if Changed(a, b) == {} {
      forall s ensures ValueOf(a, s) == ValueOf(b, s) {
        EverySource(s);
        assert s !in Changed(a, b);
      }
      SameValues(a, b);
    }
  }

  /** What one attempt makes of its two passes. */
  ghost predicate Decides(w: World, c: Clock, k: nat, r: Attempt)
    requires k >= 1
  {
    if NotReadable(w, c, k) then r.Ended? && r.outcome == Unreadable
    else if TooSlow(w, c, k) then r.Ended? && r.outcome == Inconsistent(Difference(w, c, k - 1), k, READ_BUDGET_EXCEEDED)
    else if Churned(w, c, k) then r == Retry(Difference(w, c, k), Start(w, c, k + 1))
    else r.Ended? && ReadTwice(w, c, k) && r.outcome == Stable(SecondPass(w, c, k).files, k)
  }

  lemma AttemptDecides(w: World, c: Clock, k: nat)
    requires k >= 1
    ensures Decides(w, c, k, TryOnce(w, Start(w, c, k), k, Difference(w, c, k - 1)))
  {
    var first := FirstPass(w, c, k);
    if first.Read? && InTime(w, c, k, first) {
      var second := SecondPass(w, c, k);
      if second.Read? {
        NothingDiffers(first.files, second.files);
        assert ReadTwice(w, c, k) ==> Difference(w, c, k) == Changed(first.files, second.files);
      }
    }
  }

  /** Attempt k is made exactly if every earlier one read two different passes in time. */
  ghost predicate Made(w: World, c: Clock, k: nat) {
    1 <= k <= MAX_ATTEMPTS && forall i :: 1 <= i < k ==> Churned(w, c, i)
  }

  /** The last attempt made, and what the run returns for it. */
  ghost predicate Returns(w: World, c: Clock, k: nat, o: Outcome) {
    && Made(w, c, k)
    && match o
       case Unreadable => NotReadable(w, c, k)
       case Stable(f, n) =>
         && n == k && ReadTwice(w, c, k) && FirstPass(w, c, k).files == f && SecondPass(w, c, k).files == f
       case Inconsistent(changed, n, reason) =>
         && n == k
         && (reason.READ_BUDGET_EXCEEDED? ==> !NotReadable(w, c, k) && TooSlow(w, c, k) && changed == Difference(w, c, k - 1))
         && (!reason.READ_BUDGET_EXCEEDED? ==>
               && k == MAX_ATTEMPTS && Churned(w, c, k) && changed == Difference(w, c, k)
               && (reason.SOURCE_CHURN? <==> CANONICAL in changed))
  }

  lemma {:induction false} RunFrom(w: World, c: Clock, k: nat) returns (last: nat)
    requires Made(w, c, k)
    ensures Returns(w, c, last, Attempts(w, Start(w, c, k), k, Difference(w, c, k - 1)).0)
    decreases MAX_ATTEMPTS - k
  {
    var once := TryOnce(w, Start(w, c, k), k, Difference(w, c, k - 1));
    AttemptDecides(w, c, k);
    AttemptsStep(w, Start(w, c, k), k, Difference(w, c, k - 1));
    last := k;
    if once.Retry? && k < MAX_ATTEMPTS {
      last := RunFrom(w, c, k + 1);
    }
  }

  /**
   A run returns the files of two equal passes, both read, valid and in time, of the first attempt that does not
   read two different ones. A pass that is late, absent or invalid never makes it stable.
   */
  lemma SnapshotDecides(w: World, c: Clock) returns (last: nat)
    ensures Returns(w, c, last, Attempts(w, c, 1, {}).0)
  {
    last := RunFrom(w, c, 1);
  }

  /** The converse: the first attempt that reads two equal passes is the one returned. */
  lemma EqualPassesAreReturned(w: World, c: Clock, k: nat)
    requires Made(w, c, k) && ReadTwice(w, c, k) && FirstPass(w, c, k).files == SecondPass(w, c, k).files
    ensures Attempts(w, c, 1, {}).0 == Stable(FirstPass(w, c, k).files, k)
  {
    var last := SnapshotDecides(w, c);
    assert !Churned(w, c, k);
    assert last < k ==> Churned(w, c, last);
  }
}
