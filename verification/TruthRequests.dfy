/** What a call will store, read off its request and the store. */
module TruthRequests {
  import opened Results
  import opened Ordering
  import opened TruthModel
  import opened TruthCommit
  import opened TruthTracking
  import opened TruthEngine
  import opened TruthProperties
  import opened TruthFingerprints

  // ---- Foreseeing the decisions ----

  /** The candidate passes every check that does not look at the store. */
  predicate Admitted(policy: Policy, registry: Registry, e: Envelope) {
    var c := e.candidate;
    && policy.refusal(c.content).None? && (c.note == "" || policy.refusal(c.note).None?)
    && (if c.scoped then c.projectId != "" && registry(c.projectId).Enabled? else c.projectId == "" && c.project == "")
    && c.committed && e.approved
  }

  /** The first record with the target's id is active and in the candidate's scope. */
  ghost predicate TargetsActive(memories: seq<Memory>, c: Candidate) {
    exists k {:trigger memories[k]} :: 0 <= k < |memories|
      && memories[k].id == c.target && memories[k].scope == ScopeOf(c) && memories[k].status.word == ActiveWord
      && forall j {:trigger memories[j]} :: 0 <= j < k ==> memories[j].id != c.target
  }

  /** The candidate will supersede a record. */
  ghost predicate WillSupersede(policy: Policy, s: Store, c: Call, i: nat)
    requires Supplies(c.minted, |c.request.envelopes|) && i < |c.request.envelopes|
  {
    var e := c.request.envelopes[i];
    && Admitted(policy, c.registry, e) && e.candidate.operation == SUPERSEDE_EXISTING
    && e.candidate.target != "" && TargetsActive(s.memories, e.candidate)
    && CreatedId(c, i) !in Ids(s.memories)
    && forall m :: m in s.memories && HoldsClaim(m, ScopeOf(e.candidate), e.candidate.claimKey) ==> m.id == e.candidate.target
  }

  /** The candidate will resolve a record. */
  ghost predicate WillResolve(policy: Policy, s: Store, c: Call, i: nat)
    requires i < |c.request.envelopes|
  {
    var e := c.request.envelopes[i];
    && Admitted(policy, c.registry, e) && e.candidate.operation == RESOLVE_EXISTING
    && e.candidate.target != "" && TargetsActive(s.memories, e.candidate)
  }

  /** The candidate will be judged new. */
  ghost predicate WillAdd(policy: Policy, s: Store, c: Call, i: nat)
    requires i < |c.request.envelopes|
  {
    var e := c.request.envelopes[i];
    && Admitted(policy, c.registry, e) && e.candidate.operation == NEW
    && forall m :: m in s.memories && m.scope == ScopeOf(e.candidate) ==>
         m.fingerprint != Fingerprint(policy, e.candidate) && !HoldsClaim(m, ScopeOf(e.candidate), e.candidate.claimKey)
  }

  /** Only an earlier addition of the same batch with the same pair keeps a new candidate out of the store. */
  ghost predicate WillStore(policy: Policy, s: Store, c: Call, i: nat)
    requires Supplies(c.minted, |c.request.envelopes|) && i < |c.request.envelopes|
  {
    || WillSupersede(policy, s, c, i)
    || (&& c.request.commitNew && WillAdd(policy, s, c, i)
        && forall q {:trigger WillAdd(policy, s, c, q)} :: 0 <= q < i && WillAdd(policy, s, c, q) ==>
             PairOf(policy, c, q) != PairOf(policy, c, i))
  }

  function PairOf(policy: Policy, c: Call, i: nat): (Scope, string)
    requires i < |c.request.envelopes|
  {
    Key(policy, c.request.envelopes[i].candidate)
  }

  /** The call reaches the point where decisions are applied. */
  predicate Commits(s: Store, c: Call) {
    && c.request.commit
    && (c.request.operationId.Some? ==> s.schemaVersion == RECEIPT_SCHEMA && c.request.operationId.value !in s.receipts)
    && (c.request.expectedRevision.Some? ==> c.request.expectedRevision.value == s.revision)
  }

  lemma TargetFound(memories: seq<Memory>, c: Candidate)
    ensures TargetsActive(memories, c) <==>
              var k := FindById(memories, c.target);
              k.Some? && memories[k.value].scope == ScopeOf(c) && memories[k.value].status.word == ActiveWord
  {
    var f := FindById(memories, c.target);
    if TargetsActive(memories, c) {
      var k :| 0 <= k < |memories| && memories[k].id == c.target && memories[k].scope == ScopeOf(c)
               && memories[k].status.word == ActiveWord
               && forall j {:trigger memories[j]} :: 0 <= j < k ==> memories[j].id != c.target;
      assert f == Some(k);
    }
  }

  lemma SupersessionForeseen(c: Candidate, memories: seq<Memory>, minted: MemoryId)
    requires c.operation == SUPERSEDE_EXISTING && c.target != ""
    ensures var d := EvaluateLifecycle(c, memories, minted);
            && d.action != NEW && d.action != RESOLVE_EXISTING
            && (d.action == SUPERSEDE_EXISTING <==>
                && TargetsActive(memories, c)
                && (if c.successor != "" then c.successor else minted) !in Ids(memories)
                && forall m :: m in memories && HoldsClaim(m, ScopeOf(c), c.claimKey) ==> m.id == c.target)
  {
    TargetFound(memories, c);
    var successor := if c.successor != "" then c.successor else minted;
    assert successor in Ids(memories) <==> FindById(memories, successor).Some?;
    if TargetsActive(memories, c) {
      var k := FindById(memories, c.target).value;
      assert memories[k] in memories && c.target in Ids(memories);
    }
  }

  lemma ResolutionForeseen(c: Candidate, memories: seq<Memory>, minted: MemoryId)
    requires c.operation != SUPERSEDE_EXISTING && c.operation != NEW && c.target != ""
    ensures EvaluateLifecycle(c, memories, minted).action == RESOLVE_EXISTING
            <==> c.operation == RESOLVE_EXISTING && TargetsActive(memories, c)
  {
    TargetFound(memories, c);
  }

  lemma AdditionForeseen(policy: Policy, c: Candidate, memories: seq<Memory>)
    ensures EvaluateAddition(policy, c, memories).action == NEW <==>
              forall m :: m in memories && m.scope == ScopeOf(c) ==>
                m.fingerprint != Fingerprint(policy, c) && !HoldsClaim(m, ScopeOf(c), c.claimKey)
    ensures EvaluateAddition(policy, c, memories).action !in {SUPERSEDE_EXISTING, RESOLVE_EXISTING}
  {
  }

  /** Without an early refusal the store decides, and what it decides is foreseen. */
  lemma EvaluationForeseen(policy: Policy, e: Envelope, memories: seq<Memory>, revision: nat, minted: MemoryId)
    requires ValidateCandidate(policy, e) == None
    ensures var c := e.candidate;
            var d := EvaluateOne(policy, e, memories, revision, minted);
            && (d.action == SUPERSEDE_EXISTING <==>
                && c.operation == SUPERSEDE_EXISTING && TargetsActive(memories, c)
                && (if c.successor != "" then c.successor else minted) !in Ids(memories)
                && forall m :: m in memories && HoldsClaim(m, ScopeOf(c), c.claimKey) ==> m.id == c.target)
            && (d.action == RESOLVE_EXISTING <==>
                && c.operation == RESOLVE_EXISTING && c.target != "" && TargetsActive(memories, c))
            && (d.action == NEW <==>
                && c.operation == NEW
                && forall m :: m in memories && m.scope == ScopeOf(c) ==>
                     m.fingerprint != Fingerprint(policy, c) && !HoldsClaim(m, ScopeOf(c), c.claimKey))
  {
    if e.candidate.operation == NEW {
      AdditionForeseen(policy, e.candidate, memories);
    } else if e.candidate.operation == SUPERSEDE_EXISTING {
      SupersessionForeseen(e.candidate, memories, minted);
    } else if e.candidate.target != "" {
      ResolutionForeseen(e.candidate, memories, minted);
    }
  }

  /** Preflight and validation let exactly the admitted candidates through, and otherwise neither add nor supersede. */
  lemma AdmissionForeseen(policy: Policy, registry: Registry, e: Envelope)
    ensures var (after, decided) := PreflightOne(policy, registry, e);
            && after == e.(candidate := e.candidate.(project := after.candidate.project))
            && (decided.Some? ==> decided.value.action == REJECT)
            && (decided.None? && ValidateCandidate(policy, after) == None <==>
                && Admitted(policy, registry, e)
                && (e.candidate.operation in {SUPERSEDE_EXISTING, RESOLVE_EXISTING, CONFIRM_EXISTING} ==> e.candidate.target != ""))
  {
  }

  /** The decisions of a batch are the ones its guards foresee. */
  lemma DecisionsForeseen(policy: Policy, s: Store, c: Call, i: nat)
    requires Supplies(c.minted, |c.request.envelopes|) && i < |c.request.envelopes|
    ensures var d := Decide(policy, s, Resolve(policy, c.registry, c.request), c.minted, i);
            && (d.action == SUPERSEDE_EXISTING <==> WillSupersede(policy, s, c, i))
            && (d.action == RESOLVE_EXISTING <==> WillResolve(policy, s, c, i))
            && (d.action == NEW <==> WillAdd(policy, s, c, i))
            && ((WillSupersede(policy, s, c, i) || WillResolve(policy, s, c, i)) ==>
                  d.target == Some(c.request.envelopes[i].candidate.target))
            && (WillSupersede(policy, s, c, i) ==> d.successor == Some(CreatedId(c, i)))
  {
    var b := Resolve(policy, c.registry, c.request);
    var before, after := c.request.envelopes[i], b.envelopes[i];
    AdmissionForeseen(policy, c.registry, before);
    if b.preflight[i] == None && ValidateCandidate(policy, after) == None {
      EvaluationForeseen(policy, after, s.memories, s.revision, c.minted.evaluation[i]);
      assert TargetsActive(s.memories, after.candidate) <==> TargetsActive(s.memories, before.candidate);
    }
  }

  // ---- What a call leaves behind ----

  /** The memories after the decisions of a call have been applied. */
  function AppliedMemories(policy: Policy, s: Store, c: Call): seq<Memory>
    requires Supplies(c.minted, |c.request.envelopes|)
  {
    var b := Resolve(policy, c.registry, c.request);
    var ds := DecideAll(policy, s, b, c.minted);
    ApplyUpTo(policy, s.memories, ds, b.envelopes, |ds|, b.commitNew, c.minted.commit).memories
  }

  lemma {:induction false} RejectedBatchKeeps(policy: Policy, base: seq<Memory>, ds: seq<Decision>, es: seq<Envelope>, n: nat, commitNew: bool, minted: seq<MemoryId>)
    requires n <= |ds| == |es| == |minted| && forall i :: 0 <= i < |ds| ==> ds[i].action == REJECT
    ensures ApplyUpTo(policy, base, ds, es, n, commitNew, minted).memories == base
    decreases n
  {
    if n > 0 {
      RejectedBatchKeeps(policy, base, ds, es, n - 1, commitNew, minted);
      PendingUnchanged(policy, base, ds, es, n - 1, commitNew, minted, n - 1);
      ApplyStep(policy, base, ds, es, n - 1, commitNew, minted);
    }
  }

  lemma CommittedMemories(policy: Policy, s: Store, c: Call)
    requires Supplies(c.minted, |c.request.envelopes|)
    ensures CommitBatch(policy, s, Resolve(policy, c.registry, c.request), c.minted).store.memories == AppliedMemories(policy, s, c)
  {
    var b, ds := CallShape(policy, s, c);
    UnmutatedKeepsMemories(policy, s.memories, ds, b.envelopes, |ds|, b.commitNew, c.minted.commit);
  }

  lemma TransactedMemories(policy: Policy, s: Store, c: Call)
    requires Supplies(c.minted, |c.request.envelopes|) && c.request.commit
    ensures Transact(policy, s, Resolve(policy, c.registry, c.request), c.minted).store.memories
         == if Commits(s, c) then AppliedMemories(policy, s, c) else s.memories
  {
    CommittedMemories(policy, s, c);
  }

  lemma PreemptedMemories(policy: Policy, s: Store, c: Call)
    requires Supplies(c.minted, |c.request.envelopes|) && AllDecided(Resolve(policy, c.registry, c.request))
    ensures AppliedMemories(policy, s, c) == s.memories
  {
    var b, ds := CallShape(policy, s, c);
    forall i | 0 <= i < |ds| ensures ds[i].action == REJECT {
      assert b.preflight[i] in b.preflight;
    }
    RejectedBatchKeeps(policy, s.memories, ds, b.envelopes, |ds|, b.commitNew, c.minted.commit);
  }

  /** A call applies its decisions exactly if it commits, is not a replay and its revision is current. */
  lemma CallAppliesIff(policy: Policy, s: Store, c: Call)
    requires Supplies(c.minted, |c.request.envelopes|)
    ensures AfterCall(policy, s, c).memories == if Commits(s, c) then AppliedMemories(policy, s, c) else s.memories
  {
    var b := Resolve(policy, c.registry, c.request);
    if AllDecided(b) {
      PreemptedMemories(policy, s, c);
    }
    if c.request.commit {
      TransactedMemories(policy, s, c);
    }
  }

  // ---- Fingerprints ----

  /** Every candidate that will supersede brings a pair that the store and the rest of the batch do not have. */
  ghost predicate BringsNovelPairs(policy: Policy, s: Store, c: Call)
    requires Supplies(c.minted, |c.request.envelopes|)
  {
    forall i {:trigger WillSupersede(policy, s, c, i)} :: 0 <= i < |c.request.envelopes| && WillSupersede(policy, s, c, i) ==>
      && PairOf(policy, c, i) !in SeenKeys(s.memories)
      && forall j {:trigger PairOf(policy, c, j)} :: 0 <= j < |c.request.envelopes| && j != i
           && (WillSupersede(policy, s, c, j) || (c.request.commitNew && WillAdd(policy, s, c, j)))
           ==> PairOf(policy, c, j) != PairOf(policy, c, i)
  }

  lemma NovelPairsForeseen(policy: Policy, s: Store, c: Call)
    requires Supplies(c.minted, |c.request.envelopes|)
    ensures var b := Resolve(policy, c.registry, c.request);
            BringsNovelPairs(policy, s, c)
            <==> SuccessorsAreNovel(policy, s.memories, DecideAll(policy, s, b, c.minted), b.envelopes, b.commitNew)
  {
    var b := Resolve(policy, c.registry, c.request);
    var ds := DecideAll(policy, s, b, c.minted);
    forall i | 0 <= i < |ds|
      ensures (ds[i].action == SUPERSEDE_EXISTING <==> WillSupersede(policy, s, c, i))
      ensures ds[i].action == NEW <==> WillAdd(policy, s, c, i)
      ensures Key(policy, b.envelopes[i].candidate) == PairOf(policy, c, i)
    {
      DecisionsForeseen(policy, s, c, i);
      ResolvedClaim(policy, c, i);
    }
  }

  /** In terms of the request and the store: a call keeps the pairs unique exactly if its supersessions bring novel ones. */
  lemma CallKeepsFingerprintsUniqueIff(policy: Policy, s: Store, c: Call)
    requires Supplies(c.minted, |c.request.envelopes|) && UniqueFingerprints(s.memories)
    ensures UniqueFingerprints(AfterCall(policy, s, c).memories) <==> (Commits(s, c) ==> BringsNovelPairs(policy, s, c))
  {
    CallAppliesIff(policy, s, c);
    NovelPairsForeseen(policy, s, c);
    FingerprintsStayUniqueIff(policy, s, c);
  }

  // ---- Claim keys ----

  /** The positions of the candidates that will be stored. */
  ghost function Stored(policy: Policy, s: Store, c: Call): set<nat>
    requires Supplies(c.minted, |c.request.envelopes|)
  {
    set i: nat | i < |c.request.envelopes| && WillStore(policy, s, c, i)
  }

  predicate Compete(c: Call, i: nat, j: nat)
    requires i < |c.request.envelopes| && j < |c.request.envelopes|
  {
    var a, b := c.request.envelopes[i].candidate, c.request.envelopes[j].candidate;
    a.claimKey != "" && a.claimKey == b.claimKey && ScopeOf(a) == ScopeOf(b)
  }

  /** Two of the stored candidates claim one key in one scope. */
  ghost predicate HasRivals(c: Call, stored: set<nat>) {
    exists i, j {:trigger i in stored, j in stored} ::
      i in stored && j in stored && i < j < |c.request.envelopes| && Compete(c, i, j)
  }

  /** The added records come from exactly the candidates that are foreseen to be stored. */
  lemma OriginsForeseen(policy: Policy, s: Store, c: Call) returns (origins: seq<nat>)
    requires Supplies(c.minted, |c.request.envelopes|)
    ensures var b := Resolve(policy, c.registry, c.request);
            var ds := DecideAll(policy, s, b, c.minted);
            AddedFrom(policy, s.memories, AppliedMemories(policy, s, c), ds, b.envelopes, |ds|, b.commitNew, c.minted.commit, origins)
    ensures Elements(origins) == Stored(policy, s, c)
  {
    var b, ds := CallShape(policy, s, c);
    origins := StoredAdditionsWereUnseen(policy, s.memories, ds, b.envelopes, |ds|, b.commitNew, c.minted.commit);
    forall i: nat ensures i in Elements(origins) <==> i in Stored(policy, s, c) {
      if i in origins {
        var j := OriginPosition(origins, i);
      }
      if i < |ds| {
        StoredIsForeseen(policy, s, c, b, ds, origins, i);
      }
    }
  }

  lemma StoredIsForeseen(policy: Policy, s: Store, c: Call, b: Batch, ds: seq<Decision>, origins: seq<nat>, i: nat)
    requires Supplies(c.minted, |c.request.envelopes|) && i < |c.request.envelopes|
    requires b == Resolve(policy, c.registry, c.request) && ds == DecideAll(policy, s, b, c.minted)
    requires forall o :: o in origins ==> o < |ds| && Adds(ds[o], b.commitNew)
    requires ds[i].action == SUPERSEDE_EXISTING ==> i in origins
    requires forall o, q {:trigger ds[o], ds[q]} :: o in origins && 0 <= q < o < |ds| && ds[o].action == NEW && ds[q].action == NEW ==>
               Key(policy, b.envelopes[q].candidate) != Key(policy, b.envelopes[o].candidate)
    requires ds[i].action == NEW && b.commitNew && i !in origins ==>
               Key(policy, b.envelopes[i].candidate) in SeenKeys(s.memories)
               || exists o :: o in origins && ds[o].action == NEW && Key(policy, b.envelopes[o].candidate) == Key(policy, b.envelopes[i].candidate)
    ensures i in origins <==> WillStore(policy, s, c, i)
  {
    forall q | 0 <= q < |ds|
      ensures (ds[q].action == SUPERSEDE_EXISTING <==> WillSupersede(policy, s, c, q))
      ensures ds[q].action == NEW <==> WillAdd(policy, s, c, q)
      ensures Key(policy, b.envelopes[q].candidate) == PairOf(policy, c, q)
    {
      DecisionsForeseen(policy, s, c, q);
      ResolvedClaim(policy, c, q);
    }
  }

  /** The added records, in order, are those of the candidates that are foreseen to be stored. */
  ghost predicate StoredFrom(base: seq<Memory>, c: Call, stored: set<nat>, now: seq<Memory>, origins: seq<nat>) {
    && |now| == |base| + |origins| && Elements(origins) == stored
    && (forall x, y :: 0 <= x < y < |origins| ==> origins[x] < origins[y])
    && (forall x :: 0 <= x < |origins| ==> IsActiveRecordOf(now[|base| + x], c, origins[x]))
  }

  predicate IsActiveRecordOf(m: Memory, c: Call, i: nat) {
    && i < |c.request.envelopes| && m.status == ACTIVE
    && m.scope == ScopeOf(c.request.envelopes[i].candidate) && m.claimKey == c.request.envelopes[i].candidate.claimKey
  }

  lemma AppliedIsStored(policy: Policy, s: Store, c: Call) returns (origins: seq<nat>)
    requires Supplies(c.minted, |c.request.envelopes|)
    ensures StoredFrom(s.memories, c, Stored(policy, s, c), AppliedMemories(policy, s, c), origins)
    ensures UniqueIds(s.memories) ==> OldHoldNoAddedClaim(s.memories, AppliedMemories(policy, s, c))
  {
    origins := OriginsForeseen(policy, s, c);
    var now := AppliedMemories(policy, s, c);
    forall x | 0 <= x < |origins| ensures IsActiveRecordOf(now[|s.memories| + x], c, origins[x]) {
      ResolvedClaim(policy, c, origins[x]);
    }
    if UniqueIds(s.memories) {
      OldClaimsYield(policy, s, c, origins);
    }
  }

  /** Old records keep scope and claim key, none becomes active, and none that is active claims what an added record claims. */
  ghost predicate OldHoldNoAddedClaim(base: seq<Memory>, now: seq<Memory>) {
    && |base| <= |now|
    && (forall i {:trigger now[i]} :: 0 <= i < |base| ==> Kept(base[i], now[i]))
    && (forall i, j {:trigger now[i], now[j]} :: 0 <= i < |base| <= j < |now| ==> !HoldsClaim(now[i], now[j].scope, now[j].claimKey))
  }

  lemma OldClaimsYield(policy: Policy, s: Store, c: Call, origins: seq<nat>)
    requires Supplies(c.minted, |c.request.envelopes|) && UniqueIds(s.memories)
    requires var b := Resolve(policy, c.registry, c.request);
             var ds := DecideAll(policy, s, b, c.minted);
             AddedFrom(policy, s.memories, AppliedMemories(policy, s, c), ds, b.envelopes, |ds|, b.commitNew, c.minted.commit, origins)
    ensures OldHoldNoAddedClaim(s.memories, AppliedMemories(policy, s, c))
  {
    var b, ds := CallShape(policy, s, c);
    var now := AppliedMemories(policy, s, c);
    CommitEvolves(policy, s.memories, ds, b.envelopes, |ds|, b.commitNew, c.minted.commit);
    forall i, j {:trigger now[i], now[j]} | 0 <= i < |s.memories| <= j < |now|
      ensures !HoldsClaim(now[i], now[j].scope, now[j].claimKey)
    {
      var o := origins[j - |s.memories|];
      assert now[|s.memories| + (j - |s.memories|)] == NewRecord(policy, b.envelopes[o], RecordId(ds[o], b.envelopes[o], c.minted.commit[o]));
      AdditionMeetsNoHolder(policy, s.memories, ds, b.envelopes, b.commitNew, c.minted.commit, o, i);
    }
  }

  lemma SharedClaim(memories: seq<Memory>, c: Call, k: nat, l: nat, i: nat, j: nat)
    requires k < l < |memories| && IsActiveRecordOf(memories[k], c, i) && IsActiveRecordOf(memories[l], c, j) && Compete(c, i, j)
    ensures !UniqueClaims(memories)
  {
    assert HoldsClaim(memories[k], memories[l].scope, memories[l].claimKey);
  }

  lemma RivalsShareAClaim(base: seq<Memory>, c: Call, stored: set<nat>, now: seq<Memory>, origins: seq<nat>)
    requires StoredFrom(base, c, stored, now, origins) && HasRivals(c, stored)
    ensures !UniqueClaims(now)
  {
    var i, j :| i in stored && j in stored && i < j < |c.request.envelopes| && Compete(c, i, j);
    assert i in Elements(origins) && j in Elements(origins);
    var x := OriginPosition(origins, i);
    var y := OriginPosition(origins, j);
    SharedClaim(now, c, |base| + x, |base| + y, i, j);
  }

  lemma WithoutRivalsClaimsStay(base: seq<Memory>, c: Call, stored: set<nat>, now: seq<Memory>, origins: seq<nat>)
    requires StoredFrom(base, c, stored, now, origins) && !HasRivals(c, stored)
    requires UniqueClaims(base) && OldHoldNoAddedClaim(base, now)
    ensures UniqueClaims(now)
  {
    forall i, j {:trigger now[i], now[j]} | 0 <= i < j < |now|
      ensures !(HoldsClaim(now[i], now[j].scope, now[j].claimKey) && now[j].status == ACTIVE)
    {
      if j < |base| {
        assert Kept(base[i], now[i]) && Kept(base[j], now[j]);
      } else if |base| <= i {
        var o, q := origins[i - |base|], origins[j - |base|];
        assert o in Elements(origins) && q in Elements(origins);
        assert IsActiveRecordOf(now[|base| + (i - |base|)], c, o) && IsActiveRecordOf(now[|base| + (j - |base|)], c, q);
        assert !Compete(c, o, q);
      }
    }
  }

  /** A call keeps one active holder per claim key exactly if no two candidates that it will store compete for one. */
  lemma CallKeepsClaimsUniqueIff(policy: Policy, s: Store, c: Call)
    requires Supplies(c.minted, |c.request.envelopes|) && UniqueIds(s.memories) && UniqueClaims(s.memories)
    ensures UniqueClaims(AfterCall(policy, s, c).memories) <==> (Commits(s, c) ==> !HasRivals(c, Stored(policy, s, c)))
  {
    CallAppliesIff(policy, s, c);
    var origins := AppliedIsStored(policy, s, c);
    if HasRivals(c, Stored(policy, s, c)) {
      RivalsShareAClaim(s.memories, c, Stored(policy, s, c), AppliedMemories(policy, s, c), origins);
    } else {
      WithoutRivalsClaimsStay(s.memories, c, Stored(policy, s, c), AppliedMemories(policy, s, c), origins);
    }
  }

  // ---- Whole runs ----

  /** Each call meets the exact conditions on the store it finds. */
  ghost predicate AlwaysDistinct(policy: Policy, s: Store, calls: seq<Call>)
    requires Legible(calls)
    decreases |calls|
  {
    calls == [] ||
    (var init, last := calls[..|calls| - 1], calls[|calls| - 1];
     assert last in calls;
     var before := AfterCalls(policy, s, init);
     && AlwaysDistinct(policy, s, init)
     && (Commits(before, last) ==> BringsNovelPairs(policy, before, last) && !HasRivals(last, Stored(policy, before, last))))
  }

  /** With fresh ids, such calls keep ids, pairs and claim keys unique for ever. */
  lemma {:induction false} DistinctCallsKeepUniqueness(policy: Policy, s: Store, calls: seq<Call>)
    requires Legible(calls) && AlwaysFresh(policy, s, calls) && AlwaysDistinct(policy, s, calls)
    requires UniqueIds(s.memories) && UniqueFingerprints(s.memories) && UniqueClaims(s.memories)
    ensures var now := AfterCalls(policy, s, calls).memories;
            UniqueIds(now) && UniqueFingerprints(now) && UniqueClaims(now)
    decreases |calls|
  {
    if calls != [] {
      var init, last := calls[..|calls| - 1], calls[|calls| - 1];
      assert last in calls;
      DistinctCallsKeepUniqueness(policy, s, init);
      var before := AfterCalls(policy, s, init);
      CallKeepsIdsUnique(policy, before, last);
      CallKeepsFingerprintsUniqueIff(policy, before, last);
      CallKeepsClaimsUniqueIff(policy, before, last);
    }
  }

  // ---- It happens ----

  function PlainPolicy(): Policy {
    Policy((text: string) => None, (note: string) => false, (content: string, scope: Scope, kind: string) => content)
  }

  function GlobalRecord(id: MemoryId, text: string): Memory {
    Memory(id, GlobalScope, text, "observation", ACTIVE, "", "", text, "", "", "", "user", true)
  }

  function GlobalCandidate(text: string, key: string, operation: Action, target: MemoryId, successor: MemoryId): Envelope {
    Envelope(Candidate("candidate", text, "observation", false, "", "", "", key, true, operation, target, successor, "", ""),
             "user", true, true, true)
  }

  function TwoRecords(): Store {
    Store(1, RECEIPT_SCHEMA, [GlobalRecord("a", "known"), GlobalRecord("b", "other")], map[])
  }

  /** The second record is superseded by the text of the first. */
  function Repetition(): Call {
    Call((id: string) => Unregistered,
         Request([GlobalCandidate("known", "", SUPERSEDE_EXISTING, "b", "c")], None, true, false, None),
         Minted(["m"], ["n"]))
  }

  /** Two additions of one call claim the same key. */
  function Competition(): Call {
    Call((id: string) => Unregistered,
         Request([GlobalCandidate("first", "key", NEW, "", "c"), GlobalCandidate("second", "key", NEW, "", "d")],
                 None, true, true, None),
         Minted(["m", "m"], ["n", "n"]))
  }

  lemma RepetitionSharesAFingerprint()
    ensures Supplies(Repetition().minted, 1) && UniqueFingerprints(TwoRecords().memories)
    ensures !UniqueFingerprints(AfterCall(PlainPolicy(), TwoRecords(), Repetition()).memories)
  {
    var s, c := TwoRecords(), Repetition();
    var e := c.request.envelopes[0];
    assert "a" != "b" && "c" != "a" && "c" != "b" && "known" != "other";
    assert s.memories[1].id == "b" && TargetsActive(s.memories, e.candidate);
    assert WillSupersede(PlainPolicy(), s, c, 0);
    assert KeyOf(s.memories[0]) in SeenKeys(s.memories);
    assert PairOf(PlainPolicy(), c, 0) == KeyOf(s.memories[0]);
    CallKeepsFingerprintsUniqueIff(PlainPolicy(), s, c);
  }

  lemma CompetitorIsNew(i: nat)
    requires i < 2
    ensures WillAdd(PlainPolicy(), TwoRecords(), Competition(), i)
  {
    assert "known" != "first" && "known" != "second" && "other" != "first" && "other" != "second";
  }

  lemma CompetitionSharesAClaim()
    ensures Supplies(Competition().minted, 2) && UniqueIds(TwoRecords().memories) && UniqueClaims(TwoRecords().memories)
    ensures !UniqueClaims(AfterCall(PlainPolicy(), TwoRecords(), Competition()).memories)
  {
    var s, c := TwoRecords(), Competition();
    assert "a" != "b" && "first" != "second";
    CompetitorIsNew(0);
    CompetitorIsNew(1);
    assert 0 in Stored(PlainPolicy(), s, c) && 1 in Stored(PlainPolicy(), s, c) && Compete(c, 0, 1);
    CallKeepsClaimsUniqueIff(PlainPolicy(), s, c);
  }
}
