/** Backing up files that others keep replacing: two equal passes make one snapshot. */
module BackupSnapshot {
  import opened Results

  datatype Source = CANONICAL | REGISTRY | SETTINGS | STATE

  const SOURCES: seq<Source> := [CANONICAL, REGISTRY, SETTINGS, STATE]
  const MAX_ATTEMPTS := 3

  /** What the sources hold at one instant; an absent source has no entry. */
  type Files = map<Source, string>

  /** Everything outside the program: the files at every instant, how long each step takes, what validates. */
  datatype World = World(files: nat -> Files, pace: nat -> nat, valid: Files -> bool, budget: nat)

  datatype Clock = Clock(now: nat, step: nat)

  function ValueOf(f: Files, s: Source): Option<string> {
    if s in f then Some(f[s]) else None
  }

  // ---- What a run does, as a function of the world ----

  function Tick(w: World, c: Clock): Clock {
    Clock(c.now + w.pace(c.step), c.step + 1)
  }

  /** Look whether the source is there, twice, then read it. It can vanish after each look. */
  function Observe(w: World, c: Clock, s: Source): (Option<string>, Clock) {
    var c1 := Tick(w, c);
    if s !in w.files(c1.now) then (None, c1)
    else
      var c2 := Tick(w, c1);
      if s !in w.files(c2.now) then (None, c2)
      else
        var c3 := Tick(w, c2);
        (ValueOf(w.files(c3.now), s), c3)
  }

  datatype Reading = Missing(clock: Clock) | Read(files: Files, clock: Clock)

  function Store(f: Files, s: Source, v: Option<string>): Files {
    if v.Some? then f[s := v.value] else f
  }

  /** One pass over the first n sources. */
  function ReadUpTo(w: World, c: Clock, n: nat): Reading
    requires n <= |SOURCES|
    decreases n, c.step
  {
    if n == 0 then Read(map[], c)
    else
      var before := ReadUpTo(w, c, n - 1);
      if before.Missing? then before
      else
        var (value, clock) := Observe(w, before.clock, SOURCES[n - 1]);
        if value.None? && SOURCES[n - 1] == CANONICAL then Missing(clock)
        else Read(Store(before.files, SOURCES[n - 1], value), clock)
  }

  /** A whole pass: the canonical store must be there and the payloads must validate. */
  function ReadPass(w: World, c: Clock): Reading {
    var c1 := Tick(w, c);
    if CANONICAL !in w.files(c1.now) then Missing(c1)
    else
      var r := ReadUpTo(w, c1, |SOURCES|);
      if r.Read? && !w.valid(r.files) then Missing(r.clock) else r
  }

  function Changed(a: Files, b: Files): set<Source> {
    set s | s in SOURCES && ValueOf(a, s) != ValueOf(b, s)
  }

  datatype Churn = SOURCE_CHURN | OPTIONAL_SOURCE_CHANGED | READ_BUDGET_EXCEEDED

  datatype Outcome =
    | Unreadable
    | Inconsistent(changed: set<Source>, attempt: nat, reason: Churn)
    | Stable(files: Files, attempt: nat)

  function ChurnReason(changed: set<Source>): Churn {
    if CANONICAL in changed then SOURCE_CHURN else OPTIONAL_SOURCE_CHANGED
  }

  datatype Attempt = Ended(outcome: Outcome, clock: Clock) | Retry(changed: set<Source>, clock: Clock)

  /** One attempt: two passes, compared. */
  function TryOnce(w: World, c: Clock, attempt: nat, last: set<Source>): Attempt {
    var first := ReadPass(w, c);
    if first.Missing? then Ended(Unreadable, first.clock)
    else if first.clock.now - c.now > w.budget then Ended(Inconsistent(last, attempt, READ_BUDGET_EXCEEDED), first.clock)
    else
      var second := ReadPass(w, first.clock);
      if second.Missing? then Ended(Unreadable, second.clock)
      else if second.clock.now - c.now > w.budget then
        Ended(Inconsistent(last, attempt, READ_BUDGET_EXCEEDED), second.clock)
      else
        var changed := Changed(first.files, second.files);
        if changed == {} then Ended(Stable(second.files, attempt), second.clock) else Retry(changed, second.clock)
  }

  function Attempts(w: World, c: Clock, attempt: nat, last: set<Source>): (Outcome, Clock)
    requires 1 <= attempt <= MAX_ATTEMPTS + 1
    decreases MAX_ATTEMPTS + 1 - attempt, 1, c.step
  {
    if attempt > MAX_ATTEMPTS then (Inconsistent(last, MAX_ATTEMPTS, ChurnReason(last)), c)
    else AttemptsFrom(w, c, attempt, last)
  }

  function AttemptsFrom(w: World, c: Clock, attempt: nat, last: set<Source>): (Outcome, Clock)
    requires 1 <= attempt <= MAX_ATTEMPTS
    decreases MAX_ATTEMPTS + 1 - attempt, 0, c.step
  {
    match TryOnce(w, c, attempt, last)
    case Ended(outcome, clock) => (outcome, clock)
    case Retry(changed, clock) => Attempts(w, clock, attempt + 1, changed)
  }

  // ---- The program ----

  /** The vault as the backup sees it: every look at the disk happens at its own, later instant. */
  class Vault {
    const world: World
    var now: nat
    var step: nat

    constructor (world: World, now: nat)
      ensures this.world == world && this.now == now && step == 0
    {
      this.world, this.now, step := world, now, 0;
    }

    function Time(): Clock
      reads this
    {
      Clock(now, step)
    }

    method Advance()
      modifies this
      ensures Time() == Tick(world, old(Time()))
    {
      now, step := now + world.pace(step), step + 1;
    }

    method Exists(s: Source) returns (there: bool)
      modifies this
      ensures Time() == Tick(world, old(Time()))
      ensures there == (s in world.files(now))
    {
      Advance();
      there := s in world.files(now);
    }

    method ReadFile(s: Source) returns (value: Option<string>)
      modifies this
      ensures var c := Tick(world, old(Time()));
              if s !in world.files(c.now) then value == None && Time() == c
              else Time() == Tick(world, c) && value == ValueOf(world.files(now), s)
    {
      var there := Exists(s);
      if !there {
        return None;
      }
      Advance();
      value := ValueOf(world.files(now), s);
    }

    method ReadPayloads() returns (r: Option<Files>)
      modifies this
      ensures var reading := ReadPass(world, old(Time()));
              Time() == reading.clock && r == if reading.Read? then Some(reading.files) else None
    {
      var there := Exists(CANONICAL);
      if !there {
        return None;
      }
      var files: Files := map[];
      ghost var begin := Time();
      for n := 0 to |SOURCES|
        invariant ReadUpTo(world, begin, n) == Read(files, Time())
      {
        var s := SOURCES[n];
        var present := Exists(s);
        var value := None;
        if present {
          value := ReadFile(s);
        }
        if value.None? && s == CANONICAL {
          MissingStays(world, begin, n + 1, |SOURCES|);
          return None;
        }
        files := Store(files, s, value);
      }
      r := if world.valid(files) then Some(files) else None;
    }

    /** One attempt: an outcome, or what differed between the two passes. */
    method Attempt(attempt: nat, last: set<Source>) returns (r: Option<Outcome>, changed: set<Source>)
      requires 1 <= attempt <= MAX_ATTEMPTS
      modifies this
      ensures r.Some? ==> Attempts(world, old(Time()), attempt, last) == (r.value, Time())
      ensures r.None? ==> Attempts(world, old(Time()), attempt, last) == Attempts(world, Time(), attempt + 1, changed)
    {
      var started := now;
      changed := {};
      var first := ReadPayloads();
      if first.None? {
        return Some(Unreadable), {};
      }
      if now - started > world.budget {
        return Some(Inconsistent(last, attempt, READ_BUDGET_EXCEEDED)), {};
      }
      var second := ReadPayloads();
      if second.None? {
        return Some(Unreadable), {};
      }
      if now - started > world.budget {
        return Some(Inconsistent(last, attempt, READ_BUDGET_EXCEEDED)), {};
      }
      changed := Changed(first.value, second.value);
      r := if changed == {} then Some(Stable(second.value, attempt)) else None;
    }

    /** Read everything twice until nothing differs, three times at most. */
    method StableSnapshot() returns (r: Outcome)
      modifies this
      ensures (r, Time()) == Attempts(world, old(Time()), 1, {})
    {
      var last: set<Source> := {};
      ghost var begin := Time();
      for attempt := 1 to MAX_ATTEMPTS + 1
        invariant Attempts(world, begin, 1, {}) == Attempts(world, Time(), attempt, last)
      {
        var outcome, changed := Attempt(attempt, last);
        if outcome.Some? {
          return outcome.value;
        }
        last := changed;
      }
      r := Inconsistent(last, MAX_ATTEMPTS, ChurnReason(last));
    }
  }

  lemma {:induction false} MissingStays(w: World, c: Clock, n: nat, m: nat)
    requires n <= m <= |SOURCES| && ReadUpTo(w, c, n).Missing?
    ensures ReadUpTo(w, c, m) == ReadUpTo(w, c, n)
    decreases m
  {
    if n < m {
      MissingStays(w, c, n, m - 1);
    }
  }

  // ---- Every value read was there at some instant of the pass ----

  ghost predicate HeldDuring(w: World, s: Source, value: Option<string>, from: nat, to: nat) {
    exists t :: from <= t <= to && ValueOf(w.files(t), s) == value
  }

  lemma ObserveHeld(w: World, c: Clock, s: Source)
    ensures c.now <= Observe(w, c, s).1.now
    ensures HeldDuring(w, s, Observe(w, c, s).0, c.now, Observe(w, c, s).1.now)
  {
    var c1 := Tick(w, c);
    var c2 := Tick(w, c1);
    var c3 := Tick(w, c2);
    assert ValueOf(w.files(Observe(w, c, s).1.now), s) == Observe(w, c, s).0;
  }

  lemma {:induction false} ReadHeld(w: World, c: Clock, n: nat)
    requires n <= |SOURCES|
    ensures c.now <= ReadUpTo(w, c, n).clock.now
    ensures ReadUpTo(w, c, n).Read? ==>
              && (forall s :: s in ReadUpTo(w, c, n).files ==> s in SOURCES[..n])
              && (forall s :: s in SOURCES[..n] ==>
                    HeldDuring(w, s, ValueOf(ReadUpTo(w, c, n).files, s), c.now, ReadUpTo(w, c, n).clock.now))
  {
    if n > 0 {
      ReadHeld(w, c, n - 1);
      var before := ReadUpTo(w, c, n - 1);
      if before.Read? {
        ObserveHeld(w, before.clock, SOURCES[n - 1]);
        OneMoreHeld(w, c, n, before.files, before.clock);
      }
    }
  }

  lemma OneMoreHeld(w: World, c: Clock, n: nat, files: Files, clock: Clock)
    requires 0 < n <= |SOURCES| && c.now <= clock.now
    requires forall s :: s in files ==> s in SOURCES[..n - 1]
    requires forall s :: s in SOURCES[..n - 1] ==> HeldDuring(w, s, ValueOf(files, s), c.now, clock.now)
    ensures var (value, end) := Observe(w, clock, SOURCES[n - 1]);
            var longer := Store(files, SOURCES[n - 1], value);
            && (forall s :: s in longer ==> s in SOURCES[..n])
            && (forall s :: s in SOURCES[..n] ==> HeldDuring(w, s, ValueOf(longer, s), c.now, end.now))
  {
    var added := SOURCES[n - 1];
    ObserveHeld(w, clock, added);
    var (value, end) := Observe(w, clock, added);
    var longer := Store(files, added, value);
    assert SOURCES[..n] == SOURCES[..n - 1] + [added];
    assert added !in SOURCES[..n - 1];
    forall s | s in SOURCES[..n] ensures HeldDuring(w, s, ValueOf(longer, s), c.now, end.now) {
      if s == added {
        var t :| clock.now <= t <= end.now && ValueOf(w.files(t), s) == value;
        assert ValueOf(longer, s) == value;
      } else {
        var t :| c.now <= t <= clock.now && ValueOf(w.files(t), s) == ValueOf(files, s);
      }
    }
  }

  lemma EverySource(s: Source)
    ensures s in SOURCES
  {
    assert SOURCES[0] == CANONICAL && SOURCES[1] == REGISTRY && SOURCES[2] == SETTINGS && SOURCES[3] == STATE;
  }

  lemma PassHeld(w: World, c: Clock)
    ensures c.now <= ReadPass(w, c).clock.now
    ensures ReadPass(w, c).Read? ==> forall s ::
              HeldDuring(w, s, ValueOf(ReadPass(w, c).files, s), c.now, ReadPass(w, c).clock.now)
  {
    var c1 := Tick(w, c);
    ReadHeld(w, c1, |SOURCES|);
    assert SOURCES[..|SOURCES|] == SOURCES;
    if ReadPass(w, c).Read? {
      forall s ensures HeldDuring(w, s, ValueOf(ReadPass(w, c).files, s), c.now, ReadPass(w, c).clock.now) {
        EverySource(s);
        var t :| c1.now <= t <= ReadPass(w, c).clock.now
                 && ValueOf(w.files(t), s) == ValueOf(ReadPass(w, c).files, s);
      }
    }
  }

  // ---- The guarantee ----

  /** Within these instants no source takes a value, changes, and takes that value again. */
  ghost predicate NeverReturns(w: World, from: nat, to: nat) {
    forall s, t, u, v :: from <= t <= u <= v <= to && ValueOf(w.files(t), s) == ValueOf(w.files(v), s)
                         ==> ValueOf(w.files(u), s) == ValueOf(w.files(t), s)
  }

  /** A stable attempt returns the files exactly as they were when its first pass ended. */
  lemma StableAttemptIsInstant(w: World, c: Clock, attempt: nat, last: set<Source>)
    requires TryOnce(w, c, attempt, last).Ended? && TryOnce(w, c, attempt, last).outcome.Stable?
    requires NeverReturns(w, c.now, TryOnce(w, c, attempt, last).clock.now)
    ensures var between := ReadPass(w, c).clock.now;
            && c.now <= between <= TryOnce(w, c, attempt, last).clock.now
            && TryOnce(w, c, attempt, last).outcome == Stable(w.files(between), attempt)
  {
    var first := ReadPass(w, c);
    PassHeld(w, c);
    PassHeld(w, first.clock);
    var second := ReadPass(w, first.clock);
    EqualPassesMeet(w, first.files, second.files, c.now, first.clock.now, second.clock.now);
  }

  /** Two equal passes saw what every source held at the moment between them. */
  lemma EqualPassesMeet(w: World, first: Files, second: Files, from: nat, between: nat, to: nat)
    requires NeverReturns(w, from, to) && Changed(first, second) == {}
    requires forall s :: HeldDuring(w, s, ValueOf(first, s), from, between)
    requires forall s :: HeldDuring(w, s, ValueOf(second, s), between, to)
    ensures second == w.files(between)
  {
    forall s ensures ValueOf(second, s) == ValueOf(w.files(between), s) {
      EverySource(s);
      assert s !in Changed(first, second);
      var t :| from <= t <= between && ValueOf(w.files(t), s) == ValueOf(first, s);
      var v :| between <= v <= to && ValueOf(w.files(v), s) == ValueOf(second, s);
    }
    SameValues(second, w.files(between));
  }

  lemma SameValues(a: Files, b: Files)
    requires forall s :: ValueOf(a, s) == ValueOf(b, s)
    ensures a == b
  {
    forall s ensures s in a <==> s in b {
      assert ValueOf(a, s) == ValueOf(b, s);
    }
    forall s | s in a ensures a[s] == b[s] {
      assert ValueOf(a, s) == ValueOf(b, s);
    }
  }

  lemma AttemptAdvances(w: World, c: Clock, attempt: nat, last: set<Source>)
    ensures c.now <= TryOnce(w, c, attempt, last).clock.now
  {
    PassHeld(w, c);
    PassHeld(w, ReadPass(w, c).clock);
  }

  ghost predicate HeldTogether(w: World, f: Files, from: nat, to: nat) {
    exists t :: from <= t <= to && f == w.files(t)
  }

  lemma StableAttemptHeldTogether(w: World, c: Clock, attempt: nat, last: set<Source>)
    requires TryOnce(w, c, attempt, last).Ended? && TryOnce(w, c, attempt, last).outcome.Stable?
    requires NeverReturns(w, c.now, TryOnce(w, c, attempt, last).clock.now)
    ensures var r := TryOnce(w, c, attempt, last);
            r.outcome.attempt == attempt && HeldTogether(w, r.outcome.files, c.now, r.clock.now)
  {
    StableAttemptIsInstant(w, c, attempt, last);
  }

  /** A stable outcome came within the attempts left and holds files of one instant since then. */
  ghost predicate InstantResult(w: World, from: nat, attempt: nat, r: (Outcome, Clock)) {
    r.0.Stable? ==> attempt <= r.0.attempt <= MAX_ATTEMPTS && HeldTogether(w, r.0.files, from, r.1.now)
  }

  lemma AttemptsStep(w: World, c: Clock, attempt: nat, last: set<Source>)
    requires 1 <= attempt <= MAX_ATTEMPTS
    ensures var once := TryOnce(w, c, attempt, last);
            Attempts(w, c, attempt, last)
            == if once.Ended? then (once.outcome, once.clock) else Attempts(w, once.clock, attempt + 1, once.changed)
  {
  }

  lemma {:induction false} AttemptsAdvance(w: World, c: Clock, attempt: nat, last: set<Source>)
    requires 1 <= attempt <= MAX_ATTEMPTS + 1
    ensures c.now <= Attempts(w, c, attempt, last).1.now
    decreases MAX_ATTEMPTS + 1 - attempt
  {
    if attempt <= MAX_ATTEMPTS {
      AttemptAdvances(w, c, attempt, last);
      AttemptsStep(w, c, attempt, last);
      var once := TryOnce(w, c, attempt, last);
      if once.Retry? {
        AttemptsAdvance(w, once.clock, attempt + 1, once.changed);
      }
    }
  }

  /**
   Whatever else the writers do, the payloads of a stable snapshot are all sources together at one instant of the
   run, if no source returns to an earlier value during the run.
   */
  lemma {:induction false} SnapshotsAreInstants(w: World, c: Clock, attempt: nat, last: set<Source>)
    requires 1 <= attempt <= MAX_ATTEMPTS + 1 && NeverReturns(w, c.now, Attempts(w, c, attempt, last).1.now)
    ensures InstantResult(w, c.now, attempt, Attempts(w, c, attempt, last))
    decreases MAX_ATTEMPTS + 1 - attempt
  {
    if attempt <= MAX_ATTEMPTS {
      var once := TryOnce(w, c, attempt, last);
      AttemptsStep(w, c, attempt, last);
      if once.Retry? {
        AttemptAdvances(w, c, attempt, last);
        SnapshotsAreInstants(w, once.clock, attempt + 1, once.changed);
      } else if once.outcome.Stable? {
        StableAttemptHeldTogether(w, c, attempt, last);
      }
    }
  }

  /** The source had two values within these instants. */
  ghost predicate ReallyChanged(w: World, s: Source, from: nat, to: nat) {
    exists t, u :: from <= t <= u <= to && ValueOf(w.files(t), s) != ValueOf(w.files(u), s)
  }

  ghost predicate ChangesAreReal(w: World, changed: set<Source>, from: nat, to: nat) {
    forall s :: s in changed ==> ReallyChanged(w, s, from, to)
  }

  lemma RetryHasCause(w: World, c: Clock, attempt: nat, last: set<Source>)
    requires TryOnce(w, c, attempt, last).Retry?
    ensures var r := TryOnce(w, c, attempt, last);
            r.changed != {} && ChangesAreReal(w, r.changed, c.now, r.clock.now)
  {
    var first := ReadPass(w, c);
    var second := ReadPass(w, first.clock);
    PassHeld(w, c);
    PassHeld(w, first.clock);
    forall s | s in Changed(first.files, second.files) ensures ReallyChanged(w, s, c.now, second.clock.now) {
      var t :| c.now <= t <= first.clock.now && ValueOf(w.files(t), s) == ValueOf(first.files, s);
      var v :| first.clock.now <= v <= second.clock.now && ValueOf(w.files(v), s) == ValueOf(second.files, s);
    }
  }

  /** A report of churn names sources that really changed, and comes at the third attempt unless time ran out. */
  ghost predicate ReportIsReal(w: World, r: (Outcome, Clock), begin: nat) {
    r.0.Inconsistent? ==>
      && ChangesAreReal(w, r.0.changed, begin, r.1.now)
      && (r.0.reason != READ_BUDGET_EXCEEDED ==>
            r.0.attempt == MAX_ATTEMPTS && r.0.changed != {} && r.0.reason == ChurnReason(r.0.changed))
  }

  lemma EndedReportIsReal(w: World, c: Clock, attempt: nat, last: set<Source>, begin: nat)
    requires TryOnce(w, c, attempt, last).Ended? && ChangesAreReal(w, last, begin, c.now)
    ensures ReportIsReal(w, (TryOnce(w, c, attempt, last).outcome, TryOnce(w, c, attempt, last).clock), begin)
  {
    AttemptAdvances(w, c, attempt, last);
    WiderChanges(w, last, begin, begin, c.now, TryOnce(w, c, attempt, last).clock.now);
  }

  lemma RetryIsReal(w: World, c: Clock, attempt: nat, last: set<Source>, begin: nat)
    requires TryOnce(w, c, attempt, last).Retry? && begin <= c.now
    ensures var r := TryOnce(w, c, attempt, last);
            r.changed != {} && begin <= r.clock.now && ChangesAreReal(w, r.changed, begin, r.clock.now)
  {
    RetryHasCause(w, c, attempt, last);
    AttemptAdvances(w, c, attempt, last);
    var r := TryOnce(w, c, attempt, last);
    WiderChanges(w, r.changed, begin, c.now, r.clock.now, r.clock.now);
  }

  /** Whatever a whole run reports as changed has really changed since the run began. */
  lemma {:induction false} ReportedChangesAreReal(w: World, c: Clock, attempt: nat, last: set<Source>, begin: nat)
    requires 1 <= attempt <= MAX_ATTEMPTS + 1 && begin <= c.now && ChangesAreReal(w, last, begin, c.now)
    requires attempt == 1 || last != {}
    ensures ReportIsReal(w, Attempts(w, c, attempt, last), begin)
    decreases MAX_ATTEMPTS + 1 - attempt
  {
    if attempt <= MAX_ATTEMPTS {
      var once := TryOnce(w, c, attempt, last);
      AttemptsStep(w, c, attempt, last);
      if once.Retry? {
        RetryIsReal(w, c, attempt, last, begin);
        ReportedChangesAreReal(w, once.clock, attempt + 1, once.changed, begin);
      } else {
        EndedReportIsReal(w, c, attempt, last, begin);
      }
    }
  }

  lemma WiderChanges(w: World, changed: set<Source>, earlier: nat, from: nat, to: nat, later: nat)
    requires ChangesAreReal(w, changed, from, to) && earlier <= from && to <= later
    ensures ChangesAreReal(w, changed, earlier, later)
  {
    forall s | s in changed ensures ReallyChanged(w, s, earlier, later) {
      var t, u :| from <= t <= u <= to && ValueOf(w.files(t), s) != ValueOf(w.files(u), s);
    }
  }

  /** If nobody writes during the run and it is quick enough, the first attempt returns the files. */
  lemma QuietSourcesAreCaptured(w: World, c: Clock)
    requires forall t :: t >= c.now ==> w.files(t) == w.files(c.now)
    requires CANONICAL in w.files(c.now) && w.valid(w.files(c.now))
    ensures ReadPass(w, c).Read?
    ensures ReadPass(w, ReadPass(w, c).clock).clock.now - c.now <= w.budget ==>
              Attempts(w, c, 1, {}).0 == Stable(w.files(c.now), 1)
  {
    QuietPass(w, c, w.files(c.now));
    var first := ReadPass(w, c);
    QuietPass(w, first.clock, w.files(c.now));
    PassHeld(w, first.clock);
    assert Changed(w.files(c.now), w.files(c.now)) == {};
  }

  lemma QuietPass(w: World, c: Clock, f: Files)
    requires (forall t :: t >= c.now ==> w.files(t) == f) && CANONICAL in f && w.valid(f)
    ensures ReadPass(w, c) == Read(f, ReadPass(w, c).clock) && ReadPass(w, c).clock.now >= c.now
  {
    var c1 := Tick(w, c);
    QuietRead(w, c1, |SOURCES|, f);
    PassHeld(w, c);
    var r := ReadUpTo(w, c1, |SOURCES|);
    assert r.files == f by {
      forall s ensures ValueOf(r.files, s) == ValueOf(f, s) {
        EverySource(s);
        assert SOURCES[..|SOURCES|] == SOURCES;
      }
      SameValues(r.files, f);
    }
  }

  lemma {:induction false} QuietRead(w: World, c: Clock, n: nat, f: Files)
    requires n <= |SOURCES| && (forall t :: t >= c.now ==> w.files(t) == f) && CANONICAL in f
    ensures ReadUpTo(w, c, n).Read? && c.now <= ReadUpTo(w, c, n).clock.now
    ensures forall s :: s in SOURCES[..n] ==> ValueOf(ReadUpTo(w, c, n).files, s) == ValueOf(f, s)
  {
    ReadHeld(w, c, n);
    if n > 0 {
      QuietRead(w, c, n - 1, f);
      var before := ReadUpTo(w, c, n - 1);
      ObserveHeld(w, before.clock, SOURCES[n - 1]);
      ReadHeld(w, c, n - 1);
      assert SOURCES[..n] == SOURCES[..n - 1] + [SOURCES[n - 1]];
    }
    forall s | s in SOURCES[..n] ensures ValueOf(ReadUpTo(w, c, n).files, s) == ValueOf(f, s) {
      var r := ReadUpTo(w, c, n);
      var t :| c.now <= t <= r.clock.now && ValueOf(w.files(t), s) == ValueOf(r.files, s);
    }
  }

  // ---- Without that assumption ----

  /** Two optional sources that take turns, never both there, and each there whenever it is looked at. */
  function TakingTurns(t: nat): Files {
    if t in {5, 6, 7, 16, 17, 18} then map[CANONICAL := "m", REGISTRY := "r"]
    else map[CANONICAL := "m", SETTINGS := "s"]
  }

  function TurningWorld(): World {
    World(TakingTurns, (step: nat) => 1, (f: Files) => true, 100)
  }

  function Mixture(): Files {
    map[CANONICAL := "m", REGISTRY := "r", SETTINGS := "s"]
  }

  lemma TurningPass(n: nat)
    requires n == 0 || n == 11
    ensures ReadPass(TurningWorld(), Clock(n, n)) == Read(Mixture(), Clock(n + 11, n + 11))
  {
    var w := TurningWorld();
    var c := Clock(n + 1, n + 1);
    assert Tick(w, Clock(n, n)) == c;
    assert Observe(w, c, CANONICAL) == (Some("m"), Clock(n + 4, n + 4));
    assert Observe(w, Clock(n + 4, n + 4), REGISTRY) == (Some("r"), Clock(n + 7, n + 7));
    assert Observe(w, Clock(n + 7, n + 7), SETTINGS) == (Some("s"), Clock(n + 10, n + 10));
    assert Observe(w, Clock(n + 10, n + 10), STATE) == (None, Clock(n + 11, n + 11));
    assert ReadUpTo(w, c, 1) == Read(map[CANONICAL := "m"], Clock(n + 4, n + 4));
    assert ReadUpTo(w, c, 2) == Read(map[CANONICAL := "m", REGISTRY := "r"], Clock(n + 7, n + 7));
    assert ReadUpTo(w, c, 3) == Read(Mixture(), Clock(n + 10, n + 10));
    assert ReadUpTo(w, c, 4) == Read(Mixture(), Clock(n + 11, n + 11));
  }

  lemma TurningAttempt()
    ensures TryOnce(TurningWorld(), Clock(0, 0), 1, {}) == Ended(Stable(Mixture(), 1), Clock(22, 22))
  {
    TurningPass(0);
    TurningPass(11);
    assert Changed(Mixture(), Mixture()) == {};
  }

  /** Sources that return to earlier values can make a stable snapshot of a state that never existed. */
  lemma ReturningSourcesCanMix()
    ensures Attempts(TurningWorld(), Clock(0, 0), 1, {}).0 == Stable(Mixture(), 1)
    ensures forall t :: TurningWorld().files(t) != Mixture()
  {
    TurningAttempt();
    forall t ensures TurningWorld().files(t) != Mixture() {
      assert REGISTRY in Mixture() && SETTINGS in Mixture();
      assert REGISTRY !in TakingTurns(t) || SETTINGS !in TakingTurns(t);
    }
  }
}
