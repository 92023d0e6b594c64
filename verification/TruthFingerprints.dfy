/** Exact duplicates: when a commit keeps (scope, fingerprint) pairs unique, and what it reports about repeats. */
module TruthFingerprints {
  import opened Results
  import opened TruthModel
  import opened TruthCommit
  import opened TruthTracking
  import opened TruthEngine
  import opened TruthProperties

  function KeyOf(m: Memory): (Scope, string) {
    (m.scope, m.fingerprint)
  }

  ghost predicate UniqueFingerprints(memories: seq<Memory>) {
    forall i, j {:trigger memories[i], memories[j]} :: 0 <= i < j < |memories| ==> KeyOf(memories[i]) != KeyOf(memories[j])
  }

  // ---- What the running set of seen pairs means ----

  /** The pairs of the snapshot and of every addition applied so far; a supersession does not join it. */
  ghost predicate SeenIs(policy: Policy, base: seq<Memory>, ds: seq<Decision>, es: seq<Envelope>, n: nat, commitNew: bool, seen: set<(Scope, string)>)
    requires n <= |ds| == |es|
  {
    forall key :: key in seen <==>
      key in SeenKeys(base)
      || exists i {:trigger ds[i]} :: 0 <= i < n && ds[i].action == NEW && commitNew && Key(policy, es[i].candidate) == key
  }

  lemma SeenStep(policy: Policy, base: seq<Memory>, ds: seq<Decision>, es: seq<Envelope>, n: nat, commitNew: bool, before: set<(Scope, string)>, seen: set<(Scope, string)>)
    requires n < |ds| == |es| && SeenIs(policy, base, ds, es, n, commitNew, before)
    requires seen == if ds[n].action == NEW && commitNew then before + {Key(policy, es[n].candidate)} else before
    ensures SeenIs(policy, base, ds, es, n + 1, commitNew, seen)
  {
    forall key ensures key in seen <==>
      key in SeenKeys(base)
      || exists i {:trigger ds[i]} :: 0 <= i < n + 1 && ds[i].action == NEW && commitNew && Key(policy, es[i].candidate) == key
    {
      if key in seen && key !in before {
        assert ds[n].action == NEW;
      }
    }
  }

  lemma OneStepSees(policy: Policy, a: Applied, i: nat, e: Envelope, commitNew: bool, minted: MemoryId)
    requires i < |a.decisions|
    ensures ApplyOne(policy, a, i, e, commitNew, minted).seen
         == if a.decisions[i].action == NEW && commitNew then a.seen + {Key(policy, e.candidate)} else a.seen
  {
  }

  lemma {:induction false} SeenTracks(policy: Policy, base: seq<Memory>, ds: seq<Decision>, es: seq<Envelope>, n: nat, commitNew: bool, minted: seq<MemoryId>)
    requires n <= |ds| == |es| == |minted|
    ensures SeenIs(policy, base, ds, es, n, commitNew, ApplyUpTo(policy, base, ds, es, n, commitNew, minted).seen)
    decreases n
  {
    if n > 0 {
      var before := ApplyUpTo(policy, base, ds, es, n - 1, commitNew, minted);
      SeenTracks(policy, base, ds, es, n - 1, commitNew, minted);
      PendingUnchanged(policy, base, ds, es, n - 1, commitNew, minted, n - 1);
      ApplyStep(policy, base, ds, es, n - 1, commitNew, minted);
      OneStepSees(policy, before, n - 1, es[n - 1], commitNew, minted[n - 1]);
      SeenStep(policy, base, ds, es, n - 1, commitNew, before.seen, ApplyUpTo(policy, base, ds, es, n, commitNew, minted).seen);
    }
  }

  /** Every seen pair belongs to a memory that is in the store by then. */
  lemma {:induction false} SeenIsStored(policy: Policy, base: seq<Memory>, ds: seq<Decision>, es: seq<Envelope>, n: nat, commitNew: bool, minted: seq<MemoryId>)
    requires n <= |ds| == |minted| && AllSound(policy, base, es, ds)
    ensures var a := ApplyUpTo(policy, base, ds, es, n, commitNew, minted);
            a.seen <= SeenKeys(a.memories)
    decreases n
  {
    if n > 0 {
      SeenIsStored(policy, base, ds, es, n - 1, commitNew, minted);
      CommitEvolves(policy, base, ds, es, n - 1, commitNew, minted);
      PendingUnchanged(policy, base, ds, es, n - 1, commitNew, minted, n - 1);
      ApplyStep(policy, base, ds, es, n - 1, commitNew, minted);
      OneStepKeepsKeys(policy, base, ApplyUpTo(policy, base, ds, es, n - 1, commitNew, minted), n - 1, es[n - 1], commitNew, minted[n - 1]);
    }
  }

  /** No applied decision changes the id, scope or fingerprint at a position of the store. */
  lemma OneStepKeepsIdentity(policy: Policy, a: Applied, i: nat, e: Envelope, commitNew: bool, minted: MemoryId)
    requires i < |a.decisions|
    ensures var now := ApplyOne(policy, a, i, e, commitNew, minted).memories;
            && |a.memories| <= |now|
            && forall k {:trigger now[k]} :: 0 <= k < |a.memories| ==>
                 now[k].id == a.memories[k].id && KeyOf(now[k]) == KeyOf(a.memories[k])
  {
  }

  /** No applied decision makes a stored pair disappear. */
  lemma OneStepKeepsKeys(policy: Policy, base: seq<Memory>, a: Applied, i: nat, e: Envelope, commitNew: bool, minted: MemoryId)
    requires i < |a.decisions|
    ensures var now := ApplyOne(policy, a, i, e, commitNew, minted);
            && SeenKeys(a.memories) <= SeenKeys(now.memories)
            && (a.seen <= SeenKeys(a.memories) ==> now.seen <= SeenKeys(now.memories))
  {
    var now := ApplyOne(policy, a, i, e, commitNew, minted);
    OneStepKeepsIdentity(policy, a, i, e, commitNew, minted);
    forall key | key in SeenKeys(a.memories) ensures key in SeenKeys(now.memories) {
      var m :| m in a.memories && KeyOf(m) == key;
      var k :| 0 <= k < |a.memories| && a.memories[k] == m;
      assert k < |now.memories| && KeyOf(now.memories[k]) == key && now.memories[k] in now.memories;
    }
    if now.seen != a.seen {
      assert now.memories[|now.memories| - 1] in now.memories;
    }
  }

  // ---- Reports ----

  /** What the caller is told about an addition: it was stored, or it repeats something that is in the store. */
  ghost predicate Reported(policy: Policy, memories: seq<Memory>, e: Envelope, report: Decision) {
    || (&& report.action == NEW && report.successor.Some?
        && exists m :: m in memories && m.id == report.successor.value && KeyOf(m) == Key(policy, e.candidate))
    || (&& report.action == DUPLICATE && report.target.Some?
        && exists m :: m in memories && m.id == report.target.value && KeyOf(m) == Key(policy, e.candidate))
  }

  lemma OneStepReports(policy: Policy, a: Applied, i: nat, e: Envelope, minted: MemoryId)
    requires i < |a.decisions| && a.decisions[i].action == NEW && a.seen <= SeenKeys(a.memories)
    ensures var now := ApplyOne(policy, a, i, e, true, minted);
            Reported(policy, now.memories, e, now.decisions[i])
  {
    var now := ApplyOne(policy, a, i, e, true, minted);
    var key := Key(policy, e.candidate);
    if key in a.seen {
      var m := FirstWithKey(a.memories, key);
      assert m.Some? && m.value in now.memories;
    } else {
      assert now.memories[|now.memories| - 1] in now.memories;
    }
  }

  lemma ReportSurvives(policy: Policy, a: Applied, i: nat, e: Envelope, commitNew: bool, minted: MemoryId, other: Envelope, report: Decision)
    requires i < |a.decisions| && Reported(policy, a.memories, other, report)
    ensures Reported(policy, ApplyOne(policy, a, i, e, commitNew, minted).memories, other, report)
  {
    var now := ApplyOne(policy, a, i, e, commitNew, minted).memories;
    OneStepKeepsIdentity(policy, a, i, e, commitNew, minted);
    var id := if report.action == NEW then report.successor.value else report.target.value;
    var m :| m in a.memories && m.id == id && KeyOf(m) == Key(policy, other.candidate);
    var k :| 0 <= k < |a.memories| && a.memories[k] == m;
    assert k < |now| && now[k].id == id && KeyOf(now[k]) == KeyOf(m) && now[k] in now;
  }

  /** A report made at one point of the batch still holds after the next decision. */
  lemma ReportStays(policy: Policy, base: seq<Memory>, ds: seq<Decision>, es: seq<Envelope>, n: nat, minted: seq<MemoryId>, i: nat)
    requires i < n < |ds| == |es| == |minted|
    requires Reported(policy, ApplyUpTo(policy, base, ds, es, n, true, minted).memories, es[i],
                      ApplyUpTo(policy, base, ds, es, n, true, minted).decisions[i])
    ensures Reported(policy, ApplyUpTo(policy, base, ds, es, n + 1, true, minted).memories, es[i],
                     ApplyUpTo(policy, base, ds, es, n + 1, true, minted).decisions[i])
  {
    var a := ApplyUpTo(policy, base, ds, es, n, true, minted);
    ApplyStep(policy, base, ds, es, n, true, minted);
    ReportSurvives(policy, a, n, es[n], true, minted[n], es[i], a.decisions[i]);
  }

  /** Every committed addition is stored or reported as a duplicate of a memory that is really in the store. */
  lemma {:induction false} AdditionsAreReported(policy: Policy, base: seq<Memory>, ds: seq<Decision>, es: seq<Envelope>, n: nat, minted: seq<MemoryId>, i: nat)
    requires i < n <= |ds| == |minted| && AllSound(policy, base, es, ds) && ds[i].action == NEW
    ensures var a := ApplyUpTo(policy, base, ds, es, n, true, minted);
            Reported(policy, a.memories, es[i], a.decisions[i])
    decreases n
  {
    if i == n - 1 {
      var a := ApplyUpTo(policy, base, ds, es, i, true, minted);
      PendingUnchanged(policy, base, ds, es, i, true, minted, i);
      ApplyStep(policy, base, ds, es, i, true, minted);
      SeenIsStored(policy, base, ds, es, i, true, minted);
      OneStepReports(policy, a, i, es[i], minted[i]);
    } else {
      AdditionsAreReported(policy, base, ds, es, n - 1, minted, i);
      ReportStays(policy, base, ds, es, n - 1, minted, i);
    }
  }

  // ---- Uniqueness ----

  /** The pair of a supersession's successor is new to the snapshot and to every other record of the batch. */
  ghost predicate SuccessorsAreNovel(policy: Policy, base: seq<Memory>, ds: seq<Decision>, es: seq<Envelope>, commitNew: bool)
    requires |ds| == |es|
  {
    forall i {:trigger ds[i]} :: 0 <= i < |ds| && ds[i].action == SUPERSEDE_EXISTING ==>
      var key := Key(policy, es[i].candidate);
      && key !in SeenKeys(base)
      && forall j {:trigger ds[j]} :: 0 <= j < |ds| && j != i && Adds(ds[j], commitNew) ==> Key(policy, es[j].candidate) != key
  }

  lemma PositionOfKey(memories: seq<Memory>, key: (Scope, string)) returns (k: nat)
    requires key in SeenKeys(memories)
    ensures k < |memories| && KeyOf(memories[k]) == key
  {
    var m :| m in memories && KeyOf(m) == key;
    k :| 0 <= k < |memories| && memories[k] == m;
  }

  /** An addition whose record was stored had a pair that nothing before it had. */
  lemma {:induction false} StoredAdditionsWereUnseen(policy: Policy, base: seq<Memory>, ds: seq<Decision>, es: seq<Envelope>, n: nat, commitNew: bool, minted: seq<MemoryId>)
      returns (origins: seq<nat>)
    requires n <= |ds| == |minted| && AllSound(policy, base, es, ds)
    ensures AddedFrom(policy, base, ApplyUpTo(policy, base, ds, es, n, commitNew, minted).memories, ds, es, n, commitNew, minted, origins)
    ensures forall i :: 0 <= i < n && ds[i].action == SUPERSEDE_EXISTING ==> i in origins
    ensures forall o, q {:trigger ds[o], ds[q]} :: o in origins && 0 <= q < o < |ds| && ds[o].action == NEW && ds[q].action == NEW ==>
              Key(policy, es[q].candidate) != Key(policy, es[o].candidate)
    ensures forall q {:trigger ds[q]} :: 0 <= q < n && ds[q].action == NEW && commitNew && q !in origins ==>
              Key(policy, es[q].candidate) in SeenKeys(base)
              || exists o :: o in origins && ds[o].action == NEW && Key(policy, es[o].candidate) == Key(policy, es[q].candidate)
    decreases n
  {
    if n == 0 {
      origins := [];
    } else {
      var before := StoredAdditionsWereUnseen(policy, base, ds, es, n - 1, commitNew, minted);
      var a := ApplyUpTo(policy, base, ds, es, n - 1, commitNew, minted);
      CommitEvolves(policy, base, ds, es, n - 1, commitNew, minted);
      PendingUnchanged(policy, base, ds, es, n - 1, commitNew, minted, n - 1);
      ApplyStep(policy, base, ds, es, n - 1, commitNew, minted);
      SeenTracks(policy, base, ds, es, n - 1, commitNew, minted);
      origins := OneStepAdds(policy, base, a, ds, es, n - 1, commitNew, minted, before);
      StoredStep(policy, base, ds, es, n, commitNew, a.seen, before, origins);
    }
  }

  lemma StoredStep(policy: Policy, base: seq<Memory>, ds: seq<Decision>, es: seq<Envelope>, n: nat, commitNew: bool, seen: set<(Scope, string)>, before: seq<nat>, origins: seq<nat>)
    requires 0 < n <= |ds| == |es| && SeenIs(policy, base, ds, es, n - 1, commitNew, seen)
    requires origins == before || origins == before + [n - 1]
    requires forall o :: o in before ==> o < n - 1
    requires n - 1 in origins ==> Adds(ds[n - 1], commitNew)
    requires ds[n - 1].action == SUPERSEDE_EXISTING ==> origins == before + [n - 1]
    requires ds[n - 1].action == NEW && commitNew ==>
               (origins == before + [n - 1] <==> Key(policy, es[n - 1].candidate) !in seen)
    requires forall i :: 0 <= i < n - 1 && ds[i].action == SUPERSEDE_EXISTING ==> i in before
    requires forall o, q {:trigger ds[o], ds[q]} :: o in before && 0 <= q < o < |ds| && ds[o].action == NEW && ds[q].action == NEW ==>
               Key(policy, es[q].candidate) != Key(policy, es[o].candidate)
    requires forall q {:trigger ds[q]} :: 0 <= q < n - 1 && ds[q].action == NEW && commitNew && q !in before ==>
               Key(policy, es[q].candidate) in SeenKeys(base)
               || exists o :: o in before && ds[o].action == NEW && Key(policy, es[o].candidate) == Key(policy, es[q].candidate)
    ensures forall i :: 0 <= i < n && ds[i].action == SUPERSEDE_EXISTING ==> i in origins
    ensures forall o, q {:trigger ds[o], ds[q]} :: o in origins && 0 <= q < o < |ds| && ds[o].action == NEW && ds[q].action == NEW ==>
              Key(policy, es[q].candidate) != Key(policy, es[o].candidate)
    ensures forall q {:trigger ds[q]} :: 0 <= q < n && ds[q].action == NEW && commitNew && q !in origins ==>
              Key(policy, es[q].candidate) in SeenKeys(base)
              || exists o :: o in origins && ds[o].action == NEW && Key(policy, es[o].candidate) == Key(policy, es[q].candidate)
  {
    assert forall o :: o in before ==> o in origins;
    assert forall o :: o in origins ==> o in before || o == n - 1;
    forall q {:trigger ds[q]} | 0 <= q < n && ds[q].action == NEW && commitNew && q !in origins
      ensures Key(policy, es[q].candidate) in SeenKeys(base)
              || exists o :: o in origins && ds[o].action == NEW && Key(policy, es[o].candidate) == Key(policy, es[q].candidate)
    {
      var key := Key(policy, es[q].candidate);
      if q == n - 1 && key !in SeenKeys(base) {
        var i :| 0 <= i < n - 1 && ds[i].action == NEW && Key(policy, es[i].candidate) == key;
        if i in before {
          assert i in origins;
        } else {
          var o :| o in before && ds[o].action == NEW && Key(policy, es[o].candidate) == Key(policy, es[i].candidate);
          assert o in origins;
        }
      } else if q < n - 1 && key !in SeenKeys(base) {
        var o :| o in before && ds[o].action == NEW && Key(policy, es[o].candidate) == key;
        assert o in origins;
      }
    }
  }

  lemma OriginPosition(origins: seq<nat>, o: nat) returns (j: nat)
    requires o in origins
    ensures j < |origins| && origins[j] == o
  {
    j :| 0 <= j < |origins| && origins[j] == o;
  }

  lemma AddedKey(policy: Policy, base: seq<Memory>, now: seq<Memory>, ds: seq<Decision>, es: seq<Envelope>, n: nat, commitNew: bool, minted: seq<MemoryId>, origins: seq<nat>, j: nat)
    requires n <= |ds| == |es| == |minted| && AddedFrom(policy, base, now, ds, es, n, commitNew, minted, origins) && j < |origins|
    ensures |base| + j < |now| && origins[j] < n && KeyOf(now[|base| + j]) == Key(policy, es[origins[j]].candidate)
    ensures Adds(ds[origins[j]], commitNew)
  {
  }

  /** Novel successors are enough: every pair of records in the committed store differs. */
  lemma NovelSuccessorsSuffice(policy: Policy, base: seq<Memory>, now: seq<Memory>, ds: seq<Decision>, es: seq<Envelope>, commitNew: bool, minted: seq<MemoryId>, origins: seq<nat>)
    requires |ds| == |minted| && AllSound(policy, base, es, ds) && Evolved(base, now) && UniqueFingerprints(base)
    requires AddedFrom(policy, base, now, ds, es, |ds|, commitNew, minted, origins)
    requires forall o, q {:trigger ds[o], ds[q]} :: o in origins && 0 <= q < o < |ds| && ds[o].action == NEW && ds[q].action == NEW ==>
               Key(policy, es[q].candidate) != Key(policy, es[o].candidate)
    requires SuccessorsAreNovel(policy, base, ds, es, commitNew)
    ensures UniqueFingerprints(now)
  {
    forall i, j {:trigger now[i], now[j]} | 0 <= i < j < |now| ensures KeyOf(now[i]) != KeyOf(now[j]) {
      if j < |base| {
        assert Kept(base[i], now[i]) && Kept(base[j], now[j]);
      } else {
        var o := origins[j - |base|];
        AddedKey(policy, base, now, ds, es, |ds|, commitNew, minted, origins, j - |base|);
        assert Sound(policy, base, es[o], ds[o]);
        if i < |base| {
          assert Kept(base[i], now[i]) && base[i] in base;
          assert KeyOf(base[i]) in SeenKeys(base);
        } else {
          AddedKey(policy, base, now, ds, es, |ds|, commitNew, minted, origins, i - |base|);
          assert origins[i - |base|] < o && o in origins;
          assert ds[origins[i - |base|]].action == NEW || ds[origins[i - |base|]].action == SUPERSEDE_EXISTING;
        }
      }
    }
  }

  /** A record whose pair is already somewhere else in the committed store. */
  lemma SharedKeyBreaksUniqueness(memories: seq<Memory>, i: nat, j: nat)
    requires i < |memories| && j < |memories| && i != j && KeyOf(memories[i]) == KeyOf(memories[j])
    ensures !UniqueFingerprints(memories)
  {
    var a, b := if i < j then i else j, if i < j then j else i;
    assert KeyOf(memories[a]) == KeyOf(memories[b]);
  }

  /** The successor of decision i has a pair that decision j of the same batch writes too. */
  lemma RivalsBreakUniqueness(policy: Policy, base: seq<Memory>, now: seq<Memory>, ds: seq<Decision>, es: seq<Envelope>, commitNew: bool, minted: seq<MemoryId>, origins: seq<nat>, i: nat, o: nat)
    requires |ds| == |es| == |minted| && AddedFrom(policy, base, now, ds, es, |ds|, commitNew, minted, origins)
    requires i in origins && o in origins && i != o && i < |ds| && o < |ds|
    requires Key(policy, es[o].candidate) == Key(policy, es[i].candidate)
    ensures !UniqueFingerprints(now)
  {
    var x := OriginPosition(origins, i);
    var y := OriginPosition(origins, o);
    AddedKey(policy, base, now, ds, es, |ds|, commitNew, minted, origins, x);
    AddedKey(policy, base, now, ds, es, |ds|, commitNew, minted, origins, y);
    SharedKeyBreaksUniqueness(now, |base| + x, |base| + y);
  }

  lemma OldKeyBreaksUniqueness(policy: Policy, base: seq<Memory>, now: seq<Memory>, ds: seq<Decision>, es: seq<Envelope>, commitNew: bool, minted: seq<MemoryId>, origins: seq<nat>, i: nat)
    requires |ds| == |es| == |minted| && AddedFrom(policy, base, now, ds, es, |ds|, commitNew, minted, origins)
    requires Evolved(base, now) && i in origins && i < |ds| && Key(policy, es[i].candidate) in SeenKeys(base)
    ensures !UniqueFingerprints(now)
  {
    var x := OriginPosition(origins, i);
    var k := PositionOfKey(base, Key(policy, es[i].candidate));
    AddedKey(policy, base, now, ds, es, |ds|, commitNew, minted, origins, x);
    assert Kept(base[k], now[k]);
    SharedKeyBreaksUniqueness(now, k, |base| + x);
  }

  lemma StaleSuccessorsBreakUniqueness(policy: Policy, base: seq<Memory>, now: seq<Memory>, ds: seq<Decision>, es: seq<Envelope>, commitNew: bool, minted: seq<MemoryId>, origins: seq<nat>)
    requires |ds| == |es| == |minted| && Evolved(base, now)
    requires AddedFrom(policy, base, now, ds, es, |ds|, commitNew, minted, origins)
    requires forall i :: 0 <= i < |ds| && ds[i].action == SUPERSEDE_EXISTING ==> i in origins
    requires forall q {:trigger ds[q]} :: 0 <= q < |ds| && ds[q].action == NEW && commitNew && q !in origins ==>
               Key(policy, es[q].candidate) in SeenKeys(base)
               || exists o :: o in origins && ds[o].action == NEW && Key(policy, es[o].candidate) == Key(policy, es[q].candidate)
    requires !SuccessorsAreNovel(policy, base, ds, es, commitNew)
    ensures !UniqueFingerprints(now)
  {
    var i :| 0 <= i < |ds| && ds[i].action == SUPERSEDE_EXISTING
             && (Key(policy, es[i].candidate) in SeenKeys(base)
                 || exists j {:trigger ds[j]} :: 0 <= j < |ds| && j != i && Adds(ds[j], commitNew)
                      && Key(policy, es[j].candidate) == Key(policy, es[i].candidate));
    var key := Key(policy, es[i].candidate);
    if key in SeenKeys(base) {
      OldKeyBreaksUniqueness(policy, base, now, ds, es, commitNew, minted, origins, i);
    } else {
      var j :| 0 <= j < |ds| && j != i && Adds(ds[j], commitNew) && Key(policy, es[j].candidate) == key;
      var o := j;
      if j !in origins {
        o :| o in origins && ds[o].action == NEW && Key(policy, es[o].candidate) == key;
      }
      RivalsBreakUniqueness(policy, base, now, ds, es, commitNew, minted, origins, i, o);
    }
  }

  /**
   Committing a batch keeps (scope, fingerprint) pairs unique exactly when every accepted supersession
   brings a pair that is new to the store and to the rest of the batch: supersession alone does not check.
   */
  lemma FingerprintsStayUniqueIff(policy: Policy, s: Store, c: Call)
    requires Supplies(c.minted, |c.request.envelopes|) && UniqueFingerprints(s.memories)
    ensures var b := Resolve(policy, c.registry, c.request);
            var ds := DecideAll(policy, s, b, c.minted);
            var a := ApplyUpTo(policy, s.memories, ds, b.envelopes, |ds|, b.commitNew, c.minted.commit);
            UniqueFingerprints(a.memories) <==> SuccessorsAreNovel(policy, s.memories, ds, b.envelopes, b.commitNew)
  {
    var b, ds := CallShape(policy, s, c);
    var now := ApplyUpTo(policy, s.memories, ds, b.envelopes, |ds|, b.commitNew, c.minted.commit).memories;
    CommitEvolves(policy, s.memories, ds, b.envelopes, |ds|, b.commitNew, c.minted.commit);
    var origins := StoredAdditionsWereUnseen(policy, s.memories, ds, b.envelopes, |ds|, b.commitNew, c.minted.commit);
    if SuccessorsAreNovel(policy, s.memories, ds, b.envelopes, b.commitNew) {
      NovelSuccessorsSuffice(policy, s.memories, now, ds, b.envelopes, b.commitNew, c.minted.commit, origins);
    } else {
      StaleSuccessorsBreakUniqueness(policy, s.memories, now, ds, b.envelopes, b.commitNew, c.minted.commit, origins);
    }
  }

  predicate WithoutSupersession(req: Request) {
    forall e :: e in req.envelopes ==> e.candidate.operation != SUPERSEDE_EXISTING
  }

  lemma NoSupersessionDecided(policy: Policy, s: Store, c: Call)
    requires Supplies(c.minted, |c.request.envelopes|) && WithoutSupersession(c.request)
    ensures forall d :: d in DecideAll(policy, s, Resolve(policy, c.registry, c.request), c.minted) ==> d.action != SUPERSEDE_EXISTING
  {
    var b := Resolve(policy, c.registry, c.request);
    forall i | 0 <= i < |b.envelopes| ensures Decide(policy, s, b, c.minted, i).action != SUPERSEDE_EXISTING {
      assert c.request.envelopes[i] in c.request.envelopes;
      assert b.envelopes[i].candidate.operation == c.request.envelopes[i].candidate.operation;
      if b.preflight[i] == None {
        EvaluationIsSound(policy, s.memories, b.envelopes[i], s.revision, c.minted.evaluation[i]);
      }
    }
  }

  /** Over every sequence of commits without supersession no two memories share scope and fingerprint. */
  lemma {:induction false} CommitsKeepFingerprintsUnique(policy: Policy, s: Store, calls: seq<Call>)
    requires Legible(calls) && UniqueFingerprints(s.memories)
    requires forall c :: c in calls ==> WithoutSupersession(c.request)
    ensures UniqueFingerprints(AfterCalls(policy, s, calls).memories)
    decreases |calls|
  {
    if calls != [] {
      var init, last := calls[..|calls| - 1], calls[|calls| - 1];
      assert last in calls;
      CommitsKeepFingerprintsUnique(policy, s, init);
      var before := AfterCalls(policy, s, init);
      NoSupersessionDecided(policy, before, last);
      FingerprintsStayUniqueIff(policy, before, last);
      var b, ds := CallShape(policy, before, last);
    }
  }

  /** Whatever the batch repeats, each addition it commits is stored or reported as a duplicate of a stored memory. */
  lemma RepeatsAreReported(policy: Policy, s: Store, c: Call, i: nat)
    requires Supplies(c.minted, |c.request.envelopes|) && c.request.commitNew && i < |c.request.envelopes|
    requires DecideAll(policy, s, Resolve(policy, c.registry, c.request), c.minted)[i].action == NEW
    ensures var b := Resolve(policy, c.registry, c.request);
            var t := CommitBatch(policy, s, b, c.minted);
            t.result.Success? && i < |t.result.value.0|
            && Reported(policy, t.store.memories, b.envelopes[i], t.result.value.0[i])
  {
    var b, ds := CallShape(policy, s, c);
    AdditionsAreReported(policy, s.memories, ds, b.envelopes, |ds|, c.minted.commit, i);
    var a := ApplyUpTo(policy, s.memories, ds, b.envelopes, |ds|, true, c.minted.commit);
    if !a.mutated {
      UnmutatedKeepsMemories(policy, s.memories, ds, b.envelopes, |ds|, true, c.minted.commit);
    }
  }

  lemma {:induction false} UnmutatedKeepsMemories(policy: Policy, base: seq<Memory>, ds: seq<Decision>, es: seq<Envelope>, n: nat, commitNew: bool, minted: seq<MemoryId>)
    requires n <= |ds| == |es| == |minted|
    ensures !ApplyUpTo(policy, base, ds, es, n, commitNew, minted).mutated ==>
              ApplyUpTo(policy, base, ds, es, n, commitNew, minted).memories == base
    decreases n
  {
    if n > 0 {
      UnmutatedKeepsMemories(policy, base, ds, es, n - 1, commitNew, minted);
      ApplyStep(policy, base, ds, es, n - 1, commitNew, minted);
    }
  }
}
