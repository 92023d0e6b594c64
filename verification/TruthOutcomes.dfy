/** What a call does to every record of the store. */
module TruthOutcomes {
  import opened Results
  import opened Ordering
  import opened TruthModel
  import opened TruthCommit
  import opened TruthTracking
  import opened TruthEngine
  import opened TruthProperties
  import opened TruthFingerprints
  import opened TruthRequests

  // ---- Who touches a record ----

  /** The record at position k is the first with the candidate's target id. */
  ghost predicate Targets(memories: seq<Memory>, c: Candidate, k: nat) {
    && k < |memories| && memories[k].id == c.target
    && forall j {:trigger memories[j]} :: 0 <= j < k ==> memories[j].id != c.target
  }

  /** The candidates that supersede the record at position k. */
  ghost function Superseders(policy: Policy, s: Store, c: Call, k: nat): set<nat>
    requires Supplies(c.minted, |c.request.envelopes|)
  {
    set i: nat | i < |c.request.envelopes| && WillSupersede(policy, s, c, i) && Targets(s.memories, c.request.envelopes[i].candidate, k)
  }

  /** The candidates that resolve it. */
  ghost function Resolvers(policy: Policy, s: Store, c: Call, k: nat): set<nat> {
    set i: nat | i < |c.request.envelopes| && WillResolve(policy, s, c, i) && Targets(s.memories, c.request.envelopes[i].candidate, k)
  }

  /** The greatest of these positions below n. */
  function LastBelow(positions: set<nat>, n: nat): (r: Option<nat>)
    ensures r.Some? ==> r.value in positions && r.value < n && forall j :: j in positions && j < n ==> j <= r.value
    ensures r.None? ==> forall j :: j in positions ==> n <= j
  {
    if n == 0 then None
    else if n - 1 in positions then Some(n - 1)
    else LastBelow(positions, n - 1)
  }

  // ---- What is left of an old record ----

  /** What no call changes about a record. */
  predicate SameSubstance(before: Memory, now: Memory) {
    && now.id == before.id && now.scope == before.scope && now.content == before.content && now.kind == before.kind
    && now.claimKey == before.claimKey && now.fingerprint == before.fingerprint
    && now.source == before.source && now.approved == before.approved
  }

  /** Status and resolver are those of the last of the first n candidates that touches the record. */
  ghost predicate StatusFollows(c: Call, superseders: set<nat>, resolvers: set<nat>, n: nat, before: Memory, now: Memory)
    requires n <= |c.request.envelopes|
  {
    match LastBelow(superseders + resolvers, n)
    case None => now.status == before.status && now.resolvedBy == before.resolvedBy
    case Some(i) =>
      && now.status == (if i in superseders then SUPERSEDED else RESOLVED)
      && now.resolvedBy == c.request.envelopes[i].candidate.resolvedBy
  }

  /** The link and its note are those of the last of the first n candidates that supersedes the record. */
  ghost predicate LinkFollows(c: Call, superseders: set<nat>, n: nat, before: Memory, now: Memory)
    requires Supplies(c.minted, |c.request.envelopes|) && n <= |c.request.envelopes|
  {
    match LastBelow(superseders, n)
    case None => now.supersededBy == before.supersededBy && now.supersessionNote == before.supersessionNote
    case Some(i) => now.supersededBy == CreatedId(c, i) && now.supersessionNote == c.request.envelopes[i].candidate.note
  }

  /** The resolution note is that of the last of the first n candidates that resolves the record. */
  ghost predicate NoteFollows(c: Call, resolvers: set<nat>, n: nat, before: Memory, now: Memory)
    requires n <= |c.request.envelopes|
  {
    match LastBelow(resolvers, n)
    case None => now.resolutionNote == before.resolutionNote
    case Some(i) => now.resolutionNote == c.request.envelopes[i].candidate.note
  }

  ghost predicate RecordFollows(c: Call, superseders: set<nat>, resolvers: set<nat>, n: nat, before: Memory, now: Memory)
    requires Supplies(c.minted, |c.request.envelopes|) && n <= |c.request.envelopes|
  {
    && SameSubstance(before, now) && StatusFollows(c, superseders, resolvers, n, before, now)
    && LinkFollows(c, superseders, n, before, now) && NoteFollows(c, resolvers, n, before, now)
  }

  // ---- One more decision ----

  lemma LastStep(positions: set<nat>, n: nat)
    ensures LastBelow(positions, n + 1) == if n in positions then Some(n) else LastBelow(positions, n)
  {
  }

  lemma SupersededFollows(c: Call, superseders: set<nat>, resolvers: set<nat>, n: nat, before: Memory, mid: Memory, now: Memory)
    requires Supplies(c.minted, |c.request.envelopes|) && n < |c.request.envelopes|
    requires RecordFollows(c, superseders, resolvers, n, before, mid) && n in superseders && n !in resolvers
    requires var e := c.request.envelopes[n].candidate;
             now == mid.(status := SUPERSEDED, supersededBy := CreatedId(c, n), resolvedBy := e.resolvedBy, supersessionNote := e.note)
    ensures RecordFollows(c, superseders, resolvers, n + 1, before, now)
  {
    LastStep(superseders, n);
    LastStep(resolvers, n);
    LastStep(superseders + resolvers, n);
  }

  lemma ResolvedFollows(c: Call, superseders: set<nat>, resolvers: set<nat>, n: nat, before: Memory, mid: Memory, now: Memory)
    requires Supplies(c.minted, |c.request.envelopes|) && n < |c.request.envelopes|
    requires RecordFollows(c, superseders, resolvers, n, before, mid) && n !in superseders && n in resolvers
    requires var e := c.request.envelopes[n].candidate;
             now == mid.(status := RESOLVED, resolvedBy := e.resolvedBy, resolutionNote := e.note)
    ensures RecordFollows(c, superseders, resolvers, n + 1, before, now)
  {
    LastStep(superseders, n);
    LastStep(resolvers, n);
    LastStep(superseders + resolvers, n);
  }

  lemma UntouchedFollows(c: Call, superseders: set<nat>, resolvers: set<nat>, n: nat, before: Memory, now: Memory)
    requires Supplies(c.minted, |c.request.envelopes|) && n < |c.request.envelopes|
    requires RecordFollows(c, superseders, resolvers, n, before, now) && n !in superseders && n !in resolvers
    ensures RecordFollows(c, superseders, resolvers, n + 1, before, now)
  {
    LastStep(superseders, n);
    LastStep(resolvers, n);
    LastStep(superseders + resolvers, n);
  }

  // ---- The whole batch ----

  /** The memories after the first n decisions. */
  function MemoriesAfter(policy: Policy, s: Store, c: Call, n: nat): seq<Memory>
    requires Supplies(c.minted, |c.request.envelopes|) && n <= |c.request.envelopes|
  {
    var b := Resolve(policy, c.registry, c.request);
    ApplyUpTo(policy, s.memories, DecideAll(policy, s, b, c.minted), b.envelopes, n, b.commitNew, c.minted.commit).memories
  }

  lemma TargetIsFirst(memories: seq<Memory>, c: Candidate, k: nat)
    ensures Targets(memories, c, k) <==> FindById(memories, c.target) == Some(k)
  {
  }

  /** One decision: the target of a supersession or resolution is rewritten, every other old record stays. */
  lemma OneStepRewrites(policy: Policy, s: Store, c: Call, n: nat, k: nat)
    requires Supplies(c.minted, |c.request.envelopes|) && n < |c.request.envelopes| && k < |s.memories|
    ensures var e := c.request.envelopes[n].candidate;
            var mid, now := MemoriesAfter(policy, s, c, n), MemoriesAfter(policy, s, c, n + 1);
            && |s.memories| <= |mid| && |s.memories| <= |now|
            && (n in Superseders(policy, s, c, k) ==>
                  now[k] == mid[k].(status := SUPERSEDED, supersededBy := CreatedId(c, n), resolvedBy := e.resolvedBy, supersessionNote := e.note))
            && (n in Resolvers(policy, s, c, k) ==>
                  now[k] == mid[k].(status := RESOLVED, resolvedBy := e.resolvedBy, resolutionNote := e.note))
            && (n !in Superseders(policy, s, c, k) && n !in Resolvers(policy, s, c, k) ==> now[k] == mid[k])
  {
    var b, ds := CallShape(policy, s, c);
    var a := ApplyUpTo(policy, s.memories, ds, b.envelopes, n, b.commitNew, c.minted.commit);
    CommitEvolves(policy, s.memories, ds, b.envelopes, n, b.commitNew, c.minted.commit);
    PendingUnchanged(policy, s.memories, ds, b.envelopes, n, b.commitNew, c.minted.commit, n);
    ApplyStep(policy, s.memories, ds, b.envelopes, n, b.commitNew, c.minted.commit);
    DecisionsForeseen(policy, s, c, n);
    AdmissionForeseen(policy, c.registry, c.request.envelopes[n]);
    TargetIsFirst(s.memories, c.request.envelopes[n].candidate, k);
    AppliedStep(policy, s.memories, a, n, b.envelopes[n], b.commitNew, c.minted.commit[n], k);
  }

  lemma AppliedStep(policy: Policy, base: seq<Memory>, a: Applied, n: nat, e: Envelope, commitNew: bool, minted: MemoryId, k: nat)
    requires n < |a.decisions| && Evolved(base, a.memories) && Sound(policy, base, e, a.decisions[n]) && k < |base|
    ensures var d := a.decisions[n];
            var now := ApplyOne(policy, a, n, e, commitNew, minted).memories;
            && |base| <= |now|
            && (d.action == SUPERSEDE_EXISTING && FindById(base, OrEmpty(d.target)) == Some(k) ==>
                  now[k] == a.memories[k].(status := SUPERSEDED, supersededBy := OrEmpty(d.successor),
                                           resolvedBy := e.candidate.resolvedBy, supersessionNote := e.candidate.note))
            && (d.action == RESOLVE_EXISTING && FindById(base, OrEmpty(d.target)) == Some(k) ==>
                  now[k] == a.memories[k].(status := RESOLVED, resolvedBy := e.candidate.resolvedBy, resolutionNote := e.candidate.note))
            && (d.action !in {SUPERSEDE_EXISTING, RESOLVE_EXISTING} || FindById(base, OrEmpty(d.target)) != Some(k) ==> now[k] == a.memories[k])
  {
    var d := a.decisions[n];
    if d.action == SUPERSEDE_EXISTING {
      SameFind(base, a.memories, d.target.value);
      SupersededStep(policy, base, a, d, e, k);
    } else if d.action == RESOLVE_EXISTING {
      SameFind(base, a.memories, d.target.value);
      ResolvedStep(base, a, d, e, k);
    } else {
      OtherStep(policy, a, n, e, commitNew, minted, k);
    }
  }

  lemma SupersededStep(policy: Policy, base: seq<Memory>, a: Applied, d: Decision, e: Envelope, k: nat)
    requires k < |base| <= |a.memories| && d.target.Some? && FindById(base, d.target.value).Some?
    requires FindById(a.memories, d.target.value) == FindById(base, d.target.value)
    ensures var now := ApplySupersession(policy, a, d, e).memories;
            && |base| <= |now|
            && now[k] == if FindById(base, d.target.value) == Some(k)
                         then a.memories[k].(status := SUPERSEDED, supersededBy := OrEmpty(d.successor),
                                             resolvedBy := e.candidate.resolvedBy, supersessionNote := e.candidate.note)
                         else a.memories[k]
  {
  }

  lemma ResolvedStep(base: seq<Memory>, a: Applied, d: Decision, e: Envelope, k: nat)
    requires k < |base| <= |a.memories| && d.target.Some? && FindById(base, d.target.value).Some?
    requires FindById(a.memories, d.target.value) == FindById(base, d.target.value)
    ensures var now := ApplyResolution(a, d, e).memories;
            && |base| <= |now|
            && now[k] == if FindById(base, d.target.value) == Some(k)
                         then a.memories[k].(status := RESOLVED, resolvedBy := e.candidate.resolvedBy, resolutionNote := e.candidate.note)
                         else a.memories[k]
  {
  }

  lemma OtherStep(policy: Policy, a: Applied, n: nat, e: Envelope, commitNew: bool, minted: MemoryId, k: nat)
    requires n < |a.decisions| && a.decisions[n].action !in {SUPERSEDE_EXISTING, RESOLVE_EXISTING} && k < |a.memories|
    ensures var now := ApplyOne(policy, a, n, e, commitNew, minted).memories;
            |a.memories| <= |now| && now[k] == a.memories[k]
  {
  }

  lemma {:induction false} RecordsFollow(policy: Policy, s: Store, c: Call, n: nat, k: nat)
    requires Supplies(c.minted, |c.request.envelopes|) && n <= |c.request.envelopes| && k < |s.memories|
    ensures |s.memories| <= |MemoriesAfter(policy, s, c, n)|
    ensures RecordFollows(c, Superseders(policy, s, c, k), Resolvers(policy, s, c, k), n, s.memories[k], MemoriesAfter(policy, s, c, n)[k])
  {
    if n > 0 {
      RecordsFollow(policy, s, c, n - 1, k);
      NextFollows(policy, s, c, n - 1, k);
    }
  }

  lemma NextFollows(policy: Policy, s: Store, c: Call, n: nat, k: nat)
    requires Supplies(c.minted, |c.request.envelopes|) && n < |c.request.envelopes| && k < |s.memories|
    requires |s.memories| <= |MemoriesAfter(policy, s, c, n)|
    requires RecordFollows(c, Superseders(policy, s, c, k), Resolvers(policy, s, c, k), n, s.memories[k], MemoriesAfter(policy, s, c, n)[k])
    ensures |s.memories| <= |MemoriesAfter(policy, s, c, n + 1)|
    ensures RecordFollows(c, Superseders(policy, s, c, k), Resolvers(policy, s, c, k), n + 1, s.memories[k], MemoriesAfter(policy, s, c, n + 1)[k])
  {
    OneStepRewrites(policy, s, c, n, k);
    NotBoth(policy, s, c, n, k);
    var superseders, resolvers := Superseders(policy, s, c, k), Resolvers(policy, s, c, k);
    var mid, now := MemoriesAfter(policy, s, c, n)[k], MemoriesAfter(policy, s, c, n + 1)[k];
    if n in superseders {
      SupersededFollows(c, superseders, resolvers, n, s.memories[k], mid, now);
    } else if n in resolvers {
      ResolvedFollows(c, superseders, resolvers, n, s.memories[k], mid, now);
    } else {
      UntouchedFollows(c, superseders, resolvers, n, s.memories[k], now);
    }
  }

  lemma NotBoth(policy: Policy, s: Store, c: Call, n: nat, k: nat)
    requires Supplies(c.minted, |c.request.envelopes|)
    ensures n !in Superseders(policy, s, c, k) || n !in Resolvers(policy, s, c, k)
  {
  }

  /**
   After a call every old record is what its last superseder and resolver of the batch make of it; a record that none
   of them targets is what it was.
   */
  lemma OldRecordsAfterCall(policy: Policy, s: Store, c: Call, k: nat)
    requires Supplies(c.minted, |c.request.envelopes|) && k < |s.memories|
    ensures var now := AfterCall(policy, s, c).memories;
            var superseders, resolvers := Superseders(policy, s, c, k), Resolvers(policy, s, c, k);
            && |s.memories| <= |now|
            && (!Commits(s, c) ==> now[k] == s.memories[k])
            && (Commits(s, c) ==> RecordFollows(c, superseders, resolvers, |c.request.envelopes|, s.memories[k], now[k]))
            && (superseders + resolvers == {} ==> now[k] == s.memories[k])
  {
    CallAppliesIff(policy, s, c);
    RecordsFollow(policy, s, c, |c.request.envelopes|, k);
    assert MemoriesAfter(policy, s, c, |c.request.envelopes|) == AppliedMemories(policy, s, c);
    var superseders, resolvers := Superseders(policy, s, c, k), Resolvers(policy, s, c, k);
    if superseders + resolvers == {} {
      assert superseders == {} && resolvers == {};
    }
  }

  // ---- What is added ----

  /** The active record that a stored candidate gives. */
  predicate IsRecordOf(policy: Policy, c: Call, i: nat, m: Memory)
    requires i < |c.request.envelopes| == |c.minted.evaluation| == |c.minted.commit|
  {
    var e := c.request.envelopes[i];
    var scope := if e.candidate.scoped then ProjectScope(e.candidate.projectId) else GlobalScope;
    && m.id == CreatedId(c, i) && m.scope == scope && m.content == e.candidate.content && m.kind == e.candidate.kind
    && m.status == Status(ActiveWord, true) && m.supersededBy == "" && m.claimKey == e.candidate.claimKey
    && m.fingerprint == (if e.candidate.dedupFingerprint != "" then e.candidate.dedupFingerprint
                         else policy.digest(e.candidate.content, scope, e.candidate.kind))
    && m.resolvedBy == m.resolutionNote == m.supersessionNote == "" && m.source == e.source && m.approved == e.approved
  }

  lemma RecordOfOrigin(policy: Policy, s: Store, c: Call, i: nat, m: Memory)
    requires Supplies(c.minted, |c.request.envelopes|) && i < |c.request.envelopes|
    requires var b := Resolve(policy, c.registry, c.request);
             var d := Decide(policy, s, b, c.minted, i);
             Adds(d, b.commitNew) && m == NewRecord(policy, b.envelopes[i], RecordId(d, b.envelopes[i], c.minted.commit[i]))
    ensures IsRecordOf(policy, c, i, m)
  {
    AddedIdIsCreatedId(policy, s, c, i);
    AdmissionForeseen(policy, c.registry, c.request.envelopes[i]);
  }

  /** A committing call adds, in their order, the records of exactly the candidates that it will store. */
  lemma NewRecordsAfterCall(policy: Policy, s: Store, c: Call) returns (origins: seq<nat>)
    requires Supplies(c.minted, |c.request.envelopes|) && Commits(s, c)
    ensures forall x, y :: 0 <= x < y < |origins| ==> origins[x] < origins[y]
    ensures forall i :: i in origins <==> 0 <= i < |c.request.envelopes| && WillStore(policy, s, c, i)
    ensures var now := AfterCall(policy, s, c).memories;
            && |now| == |s.memories| + |origins|
            && forall x :: 0 <= x < |origins| ==>
                 origins[x] < |c.request.envelopes| && IsRecordOf(policy, c, origins[x], now[|s.memories| + x])
  {
    CallAppliesIff(policy, s, c);
    origins := OriginsForeseen(policy, s, c);
    var b, ds := CallShape(policy, s, c);
    var now := AppliedMemories(policy, s, c);
    forall i ensures i in origins <==> 0 <= i < |c.request.envelopes| && WillStore(policy, s, c, i) {
      assert i in origins <==> i in Elements(origins);
      assert i in Stored(policy, s, c) <==> 0 <= i < |c.request.envelopes| && WillStore(policy, s, c, i);
    }
    forall x | 0 <= x < |origins|
      ensures origins[x] < |c.request.envelopes| && IsRecordOf(policy, c, origins[x], now[|s.memories| + x])
    {
      RecordOfOrigin(policy, s, c, origins[x], now[|s.memories| + x]);
    }
  }

  // ---- What is reported ----

  /** The decisions that a committing call returns. */
  function Reports(policy: Policy, s: Store, c: Call): (r: seq<Decision>)
    requires Supplies(c.minted, |c.request.envelopes|)
    ensures |r| == |c.request.envelopes|
  {
    var b := Resolve(policy, c.registry, c.request);
    var ds := DecideAll(policy, s, b, c.minted);
    ApplyUpTo(policy, s.memories, ds, b.envelopes, |ds|, b.commitNew, c.minted.commit).decisions
  }

  /** After its own turn a decision is never changed. */
  lemma {:induction false} ReportIsFinal(policy: Policy, base: seq<Memory>, ds: seq<Decision>, es: seq<Envelope>, n: nat, commitNew: bool, minted: seq<MemoryId>, i: nat)
    requires i < n <= |ds| == |es| == |minted|
    ensures ApplyUpTo(policy, base, ds, es, n, commitNew, minted).decisions[i]
         == ApplyUpTo(policy, base, ds, es, i + 1, commitNew, minted).decisions[i]
    decreases n
  {
    if i + 1 < n {
      ReportIsFinal(policy, base, ds, es, n - 1, commitNew, minted, i);
      ApplyStep(policy, base, ds, es, n - 1, commitNew, minted);
    }
  }

  /** Whether an addition repeats an earlier one of its batch. */
  ghost predicate RepeatsEarlier(policy: Policy, s: Store, c: Call, i: nat)
    requires i < |c.request.envelopes|
  {
    exists q {:trigger WillAdd(policy, s, c, q)} ::
      0 <= q < i && WillAdd(policy, s, c, q) && PairOf(policy, c, q) == PairOf(policy, c, i)
  }

  lemma OwnTurn(policy: Policy, s: Store, c: Call, i: nat)
    requires Supplies(c.minted, |c.request.envelopes|) && i < |c.request.envelopes|
    ensures var b := Resolve(policy, c.registry, c.request);
            var d := Decide(policy, s, b, c.minted, i);
            var r := Reports(policy, s, c)[i];
            && (!(c.request.commitNew && WillAdd(policy, s, c, i)) ==> r == d)
            && (c.request.commitNew && WillAdd(policy, s, c, i) && !RepeatsEarlier(policy, s, c, i) ==>
                  r.action == NEW && r.successor == Some(CreatedId(c, i)) && r.candidateId == c.request.envelopes[i].candidate.id)
            && (c.request.commitNew && WillAdd(policy, s, c, i) && RepeatsEarlier(policy, s, c, i) ==>
                  r.action == DUPLICATE && r.candidateId == c.request.envelopes[i].candidate.id)
  {
    var b, ds := CallShape(policy, s, c);
    DecisionsForeseen(policy, s, c, i);
    AdmissionForeseen(policy, c.registry, c.request.envelopes[i]);
    ReportIsFinal(policy, s.memories, ds, b.envelopes, |ds|, b.commitNew, c.minted.commit, i);
    PendingUnchanged(policy, s.memories, ds, b.envelopes, i, b.commitNew, c.minted.commit, i);
    ApplyStep(policy, s.memories, ds, b.envelopes, i, b.commitNew, c.minted.commit);
    if c.request.commitNew && WillAdd(policy, s, c, i) {
      SeenMeansRepeats(policy, s, c, i);
    }
  }

  lemma SeenMeansRepeats(policy: Policy, s: Store, c: Call, i: nat)
    requires Supplies(c.minted, |c.request.envelopes|) && i < |c.request.envelopes| && c.request.commitNew && WillAdd(policy, s, c, i)
    ensures var b := Resolve(policy, c.registry, c.request);
            var ds := DecideAll(policy, s, b, c.minted);
            Key(policy, b.envelopes[i].candidate) in ApplyUpTo(policy, s.memories, ds, b.envelopes, i, b.commitNew, c.minted.commit).seen
            <==> RepeatsEarlier(policy, s, c, i)
  {
    var b, ds := CallShape(policy, s, c);
    SeenTracks(policy, s.memories, ds, b.envelopes, i, b.commitNew, c.minted.commit);
    ResolvedClaim(policy, c, i);
    var key := PairOf(policy, c, i);
    assert key !in SeenKeys(s.memories);
    forall q | 0 <= q < i
      ensures (ds[q].action == NEW <==> WillAdd(policy, s, c, q)) && Key(policy, b.envelopes[q].candidate) == PairOf(policy, c, q)
    {
      DecisionsForeseen(policy, s, c, q);
      ResolvedClaim(policy, c, q);
    }
  }

  /** Each candidate is told what was done: superseded, resolved, stored under its id, or the duplicate of a stored record. */
  lemma CallReports(policy: Policy, s: Store, c: Call, i: nat)
    requires Supplies(c.minted, |c.request.envelopes|) && i < |c.request.envelopes|
    ensures var e := c.request.envelopes[i].candidate;
            var r := Reports(policy, s, c)[i];
            && (WillSupersede(policy, s, c, i) ==>
                  r.action == SUPERSEDE_EXISTING && r.target == Some(e.target) && r.successor == Some(CreatedId(c, i)))
            && (WillResolve(policy, s, c, i) ==> r.action == RESOLVE_EXISTING && r.target == Some(e.target))
            && (c.request.commitNew && WillAdd(policy, s, c, i) && WillStore(policy, s, c, i) ==>
                  r.action == NEW && r.successor == Some(CreatedId(c, i)))
            && (c.request.commitNew && WillAdd(policy, s, c, i) && !WillStore(policy, s, c, i) ==>
                  && r.action == DUPLICATE && r.target.Some?
                  && exists m :: m in AppliedMemories(policy, s, c) && m.id == r.target.value && KeyOf(m) == PairOf(policy, c, i))
            && (r.action == SUPERSEDE_EXISTING ==> WillSupersede(policy, s, c, i))
            && (r.action == RESOLVE_EXISTING ==> WillResolve(policy, s, c, i))
            && (r.action == NEW ==> WillAdd(policy, s, c, i))
  {
    OwnTurn(policy, s, c, i);
    DecisionsForeseen(policy, s, c, i);
    if c.request.commitNew && WillAdd(policy, s, c, i) && RepeatsEarlier(policy, s, c, i) {
      RepeatedIsStored(policy, s, c, i);
    }
  }

  lemma RepeatedIsStored(policy: Policy, s: Store, c: Call, i: nat)
    requires Supplies(c.minted, |c.request.envelopes|) && i < |c.request.envelopes| && c.request.commitNew && WillAdd(policy, s, c, i)
    requires Reports(policy, s, c)[i].action == DUPLICATE
    ensures var r := Reports(policy, s, c)[i];
            && r.target.Some?
            && exists m :: m in AppliedMemories(policy, s, c) && m.id == r.target.value && KeyOf(m) == PairOf(policy, c, i)
  {
    DecisionsForeseen(policy, s, c, i);
    var b, ds := CallShape(policy, s, c);
    AdditionsAreReported(policy, s.memories, ds, b.envelopes, |ds|, c.minted.commit, i);
    ResolvedClaim(policy, c, i);
  }

  // ---- Revision, receipt and result ----

  /** A decision that is marked as a change resolves a record or adds one. */
  lemma ChangeShows(policy: Policy, a: Applied, i: nat, e: Envelope, commitNew: bool, minted: MemoryId)
    requires i < |a.decisions|
    ensures var now := ApplyOne(policy, a, i, e, commitNew, minted);
            && |a.memories| <= |now.memories|
            && (now.mutated && !a.mutated && a.decisions[i].action != RESOLVE_EXISTING ==> |a.memories| < |now.memories|)
  {
  }

  ghost predicate ChangeSeen(base: seq<Memory>, a: Applied, ds: seq<Decision>, n: nat)
    requires n <= |ds|
  {
    a.mutated ==> |a.memories| > |base| || exists i :: 0 <= i < n && ds[i].action == RESOLVE_EXISTING
  }

  lemma NextShows(policy: Policy, base: seq<Memory>, ds: seq<Decision>, es: seq<Envelope>, n: nat, commitNew: bool, minted: seq<MemoryId>)
    requires n < |ds| == |es| == |minted|
    requires |base| <= |ApplyUpTo(policy, base, ds, es, n, commitNew, minted).memories|
    requires ChangeSeen(base, ApplyUpTo(policy, base, ds, es, n, commitNew, minted), ds, n)
    ensures |base| <= |ApplyUpTo(policy, base, ds, es, n + 1, commitNew, minted).memories|
    ensures ChangeSeen(base, ApplyUpTo(policy, base, ds, es, n + 1, commitNew, minted), ds, n + 1)
  {
    PendingUnchanged(policy, base, ds, es, n, commitNew, minted, n);
    ApplyStep(policy, base, ds, es, n, commitNew, minted);
    ChangeShows(policy, ApplyUpTo(policy, base, ds, es, n, commitNew, minted), n, es[n], commitNew, minted[n]);
  }

  lemma {:induction false} MutationShows(policy: Policy, base: seq<Memory>, ds: seq<Decision>, es: seq<Envelope>, n: nat, commitNew: bool, minted: seq<MemoryId>)
    requires n <= |ds| == |es| == |minted|
    ensures |base| <= |ApplyUpTo(policy, base, ds, es, n, commitNew, minted).memories|
    ensures ChangeSeen(base, ApplyUpTo(policy, base, ds, es, n, commitNew, minted), ds, n)
    decreases n
  {
    if n > 0 {
      MutationShows(policy, base, ds, es, n - 1, commitNew, minted);
      NextShows(policy, base, ds, es, n - 1, commitNew, minted);
    }
  }

  lemma ResolutionShows(policy: Policy, s: Store, c: Call, i: nat)
    requires Supplies(c.minted, |c.request.envelopes|) && i < |c.request.envelopes| && WillResolve(policy, s, c, i)
    ensures AppliedMemories(policy, s, c) != s.memories
  {
    var e := c.request.envelopes[i].candidate;
    TargetFound(s.memories, e);
    var k := FindById(s.memories, e.target).value;
    TargetIsFirst(s.memories, e, k);
    assert i in Resolvers(policy, s, c, k);
    RecordsFollow(policy, s, c, |c.request.envelopes|, k);
    assert MemoriesAfter(policy, s, c, |c.request.envelopes|) == AppliedMemories(policy, s, c);
    assert LastBelow(Superseders(policy, s, c, k) + Resolvers(policy, s, c, k), |c.request.envelopes|).Some?;
  }

  /** The engine's flag says exactly whether the memories differ. */
  lemma MutatedMeansChanged(policy: Policy, s: Store, c: Call)
    requires Supplies(c.minted, |c.request.envelopes|)
    ensures var b := Resolve(policy, c.registry, c.request);
            var ds := DecideAll(policy, s, b, c.minted);
            ApplyUpTo(policy, s.memories, ds, b.envelopes, |ds|, b.commitNew, c.minted.commit).mutated
            <==> AppliedMemories(policy, s, c) != s.memories
  {
    var b, ds := CallShape(policy, s, c);
    if ApplyUpTo(policy, s.memories, ds, b.envelopes, |ds|, b.commitNew, c.minted.commit).mutated {
      MutationShows(policy, s.memories, ds, b.envelopes, |ds|, b.commitNew, c.minted.commit);
      if i :| 0 <= i < |ds| && ds[i].action == RESOLVE_EXISTING {
        DecisionsForeseen(policy, s, c, i);
        ResolutionShows(policy, s, c, i);
      }
    } else {
      UnmutatedKeepsMemories(policy, s.memories, ds, b.envelopes, |ds|, b.commitNew, c.minted.commit);
    }
  }

  /** None of these decisions turns a candidate away. */
  predicate NoneTurnedAway(ds: seq<Decision>) {
    forall d :: d in ds ==> d.action != REJECT && d.action != REVIEW_REQUIRED && d.action != CONFLICT
  }

  function ReceiptOf(policy: Policy, s: Store, c: Call): Receipt
    requires Supplies(c.minted, |c.request.envelopes|)
  {
    var es := c.request.envelopes;
    Receipt(seq(|es|, (i: nat) requires i < |es| => es[i].candidate),
            Some(seq(|es|, (i: nat) requires i < |es| => (es[i].source, es[i].approved))), Reports(policy, s, c))
  }

  lemma ReceiptIsOfRequest(policy: Policy, s: Store, c: Call)
    requires Supplies(c.minted, |c.request.envelopes|)
    ensures var b := Resolve(policy, c.registry, c.request);
            b.original == ReceiptOf(policy, s, c).request && Some(Provenance(b.envelopes)) == ReceiptOf(policy, s, c).provenance
  {
    var b := Resolve(policy, c.registry, c.request);
    assert b.original == ReceiptOf(policy, s, c).request;
    assert Provenance(b.envelopes) == ReceiptOf(policy, s, c).provenance.value;
  }

  /** A committed operation that turned no candidate away leaves its receipt; whatever changes, the revision grows by one. */
  lemma CommittedStore(policy: Policy, s: Store, c: Call)
    requires Supplies(c.minted, |c.request.envelopes|)
    requires c.request.operationId.Some? ==> c.request.operationId.value !in s.receipts
    ensures var t := CommitBatch(policy, s, Resolve(policy, c.registry, c.request), c.minted);
            var recorded := c.request.operationId.Some? && NoneTurnedAway(Reports(policy, s, c));
            && t.store.memories == AppliedMemories(policy, s, c) && t.store.schemaVersion == s.schemaVersion
            && t.store.receipts == (if recorded then s.receipts[c.request.operationId.value := ReceiptOf(policy, s, c)] else s.receipts)
            && t.store.revision == s.revision + (if recorded || t.store.memories != s.memories then 1 else 0)
            && t.result == Success((Reports(policy, s, c), recorded || t.store.memories != s.memories))
  {
    CommittedMemories(policy, s, c);
    MutatedMeansChanged(policy, s, c);
    ReceiptIsOfRequest(policy, s, c);
  }

  lemma PreemptedIsTurnedAway(policy: Policy, s: Store, c: Call)
    requires Supplies(c.minted, |c.request.envelopes|) && c.request.envelopes != []
    requires AllDecided(Resolve(policy, c.registry, c.request))
    ensures !NoneTurnedAway(Reports(policy, s, c))
  {
    var b, ds := CallShape(policy, s, c);
    assert b.preflight[0] in b.preflight;
    assert ds[0].action == REJECT;
    OwnTurn(policy, s, c, 0);
    DecisionsForeseen(policy, s, c, 0);
    assert Reports(policy, s, c)[0] in Reports(policy, s, c);
  }

  lemma TransactedStore(policy: Policy, s: Store, c: Call)
    requires Supplies(c.minted, |c.request.envelopes|) && c.request.commit
    ensures var b := Resolve(policy, c.registry, c.request);
            var t := Transact(policy, s, b, c.minted);
            if Commits(s, c) then t == CommitBatch(policy, s, b, c.minted)
            else t.store == s && (t.result.Success? ==> !t.result.value.1)
  {
  }

  /** What a call leaves of the store beside its memories. */
  lemma StoreAfterCall(policy: Policy, s: Store, c: Call)
    requires Supplies(c.minted, |c.request.envelopes|)
    ensures var now := AfterCall(policy, s, c);
            var recorded := Commits(s, c) && c.request.envelopes != [] && c.request.operationId.Some?
                            && NoneTurnedAway(Reports(policy, s, c));
            && now.schemaVersion == s.schemaVersion
            && now.receipts == (if recorded then s.receipts[c.request.operationId.value := ReceiptOf(policy, s, c)] else s.receipts)
            && now.revision == s.revision + (if now.receipts != s.receipts || now.memories != s.memories then 1 else 0)
            && (!Commits(s, c) ==> now == s)
  {
    var b := Resolve(policy, c.registry, c.request);
    if c.request.envelopes != [] && c.request.commit && !(AllDecided(b) && !MayReplay(b)) {
      TransactedStore(policy, s, c);
      if Commits(s, c) {
        CommittedStore(policy, s, c);
      }
    } else if c.request.envelopes != [] && AllDecided(b) {
      PreemptedIsTurnedAway(policy, s, c);
    }
  }

  /** A committing call with a candidate that preflight let through returns its reports and says whether any was turned away. */
  lemma ResultOfCall(policy: Policy, s: Store, c: Call, i: nat)
    requires Supplies(c.minted, |c.request.envelopes|) && Commits(s, c) && i < |c.request.envelopes|
    requires PreflightOne(policy, c.registry, c.request.envelopes[i]).1 == None
    ensures var (now, r) := Process(policy, s, c.registry, c.request, c.minted);
            && r.decisions == Reports(policy, s, c) && r.error == None
            && r.status == (if NoneTurnedAway(Reports(policy, s, c)) then SUCCESS else DEGRADED)
            && r.sourceRevision == Some(s.revision) && r.producedRevision == Some(now.revision)
  {
    var b := Resolve(policy, c.registry, c.request);
    assert b.preflight[i] in b.preflight;
    TransactedStore(policy, s, c);
    CommittedStore(policy, s, c);
  }

  /** A call that does not commit changes nothing and returns the decisions it would act on. */
  lemma PreviewOfCall(policy: Policy, s: Store, c: Call, i: nat)
    requires Supplies(c.minted, |c.request.envelopes|) && !c.request.commit && i < |c.request.envelopes|
    requires PreflightOne(policy, c.registry, c.request.envelopes[i]).1 == None
    ensures var (now, r) := Process(policy, s, c.registry, c.request, c.minted);
            && now == s && r.status == SUCCESS && |r.decisions| == |c.request.envelopes|
            && (r.decisions[i].action == SUPERSEDE_EXISTING <==> WillSupersede(policy, s, c, i))
            && (r.decisions[i].action == RESOLVE_EXISTING <==> WillResolve(policy, s, c, i))
            && (r.decisions[i].action == NEW <==> WillAdd(policy, s, c, i))
  {
    var b := Resolve(policy, c.registry, c.request);
    assert b.preflight[i] in b.preflight;
    DecisionsForeseen(policy, s, c, i);
  }

  // ---- The other verdicts ----

  /** The content policy and the project registry have nothing against the candidate. */
  predicate Safe(policy: Policy, registry: Registry, c: Candidate) {
    && policy.refusal(c.content).None? && (c.note == "" || policy.refusal(c.note).None?)
    && (if c.scoped then c.projectId != "" && registry(c.projectId).Enabled? else c.projectId == "" && c.project == "")
  }

  /** Unsafe candidates are rejected, safe ones that nobody committed and approved are kept for review. */
  lemma UnadmittedVerdict(policy: Policy, s: Store, c: Call, i: nat)
    requires Supplies(c.minted, |c.request.envelopes|) && i < |c.request.envelopes|
    requires !Admitted(policy, c.registry, c.request.envelopes[i])
    ensures Decide(policy, s, Resolve(policy, c.registry, c.request), c.minted, i).action
         == if Safe(policy, c.registry, c.request.envelopes[i].candidate) then REVIEW_REQUIRED else REJECT
  {
  }

  /** The record repeats the candidate's fingerprint or holds its claim key, in its scope. */
  predicate Clashes(policy: Policy, c: Candidate, m: Memory) {
    m.scope == ScopeOf(c) && (m.fingerprint == Fingerprint(policy, c) || (c.claimKey != "" && m.claimKey == c.claimKey && m.status == ACTIVE))
  }

  lemma {:induction false} FirstClashIsFirst(policy: Policy, c: Candidate, memories: seq<Memory>, k: nat)
    requires k < |memories| && Clashes(policy, c, memories[k])
    requires forall j {:trigger memories[j]} :: 0 <= j < k ==> !Clashes(policy, c, memories[j])
    ensures FirstClash(policy, c, memories) == Some(memories[k])
  {
    if k > 0 {
      assert !Clashes(policy, c, memories[0]);
      assert forall j {:trigger memories[1..][j]} :: 0 <= j < k - 1 ==> memories[1..][j] == memories[j + 1];
      FirstClashIsFirst(policy, c, memories[1..], k - 1);
    }
  }

  /** The text of the candidate passes the content policy. */
  predicate CleanText(policy: Policy, c: Candidate) {
    policy.refusal(c.content).None? && (c.note == "" || policy.refusal(c.note).None?)
  }

  lemma DecidedByPreflight(policy: Policy, s: Store, c: Call, i: nat)
    requires Supplies(c.minted, |c.request.envelopes|) && i < |c.request.envelopes|
    ensures var (_, stopped) := PreflightOne(policy, c.registry, c.request.envelopes[i]);
            var d := Decide(policy, s, Resolve(policy, c.registry, c.request), c.minted, i);
            && (stopped.Some? ==> d.reason == stopped.value.reason)
            && (stopped.Some? && stopped.value.reason == REGISTRY_UNAVAILABLE ==> d.sourceRevision == stopped.value.sourceRevision)
            && (stopped.None? || stopped.value.reason != REGISTRY_UNAVAILABLE ==> d.sourceRevision == Some(s.revision))
  {
  }

  /** A rejection names the first thing that is wrong with the text, the scope or the project of the candidate. */
  lemma RejectionNamesCause(policy: Policy, s: Store, c: Call, i: nat)
    requires Supplies(c.minted, |c.request.envelopes|) && i < |c.request.envelopes|
    ensures var e := c.request.envelopes[i].candidate;
            var reason := Decide(policy, s, Resolve(policy, c.registry, c.request), c.minted, i).reason;
            && (policy.refusal(e.content).Some? ==> reason == policy.refusal(e.content).value)
            && (policy.refusal(e.content).None? && !CleanText(policy, e) ==> reason == policy.refusal(e.note).value)
            && (CleanText(policy, e) && !e.scoped && (e.projectId != "" || e.project != "") ==> reason == "GLOBAL_PROJECT_METADATA")
            && (CleanText(policy, e) && e.scoped && e.projectId == "" ==> reason == "SCOPE_UNRESOLVED")
            && (CleanText(policy, e) && e.scoped && e.projectId != "" ==>
                  && (c.registry(e.projectId).Unregistered? ==> reason == "PROJECT_UNREGISTERED")
                  && (c.registry(e.projectId).Archived? ==> reason == "PROJECT_ARCHIVED")
                  && (c.registry(e.projectId).CaptureDisabled? ==> reason == "PROJECT_CAPTURE_DISABLED")
                  && (c.registry(e.projectId).Unreadable? ==> reason == "PROJECT_REGISTRY_UNAVAILABLE"))
  {
    DecidedByPreflight(policy, s, c, i);
  }

  /** Every decision carries the revision it was made on; only a rejection for an unreadable registry leaves it open. */
  lemma DecisionsNoteTheRevision(policy: Policy, s: Store, c: Call, i: nat)
    requires Supplies(c.minted, |c.request.envelopes|) && i < |c.request.envelopes|
    ensures var d := Decide(policy, s, Resolve(policy, c.registry, c.request), c.minted, i);
            d.sourceRevision
            == if !Safe(policy, c.registry, c.request.envelopes[i].candidate) && d.reason == "PROJECT_REGISTRY_UNAVAILABLE"
               then None else Some(s.revision)
  {
    DecidedByPreflight(policy, s, c, i);
  }

  /** An admitted addition is judged by the first record that it repeats or contradicts. */
  lemma AdditionVerdict(policy: Policy, s: Store, c: Call, i: nat, k: nat)
    requires Supplies(c.minted, |c.request.envelopes|) && i < |c.request.envelopes|
    requires Admitted(policy, c.registry, c.request.envelopes[i]) && c.request.envelopes[i].candidate.operation == NEW
    requires k < |s.memories| && Clashes(policy, c.request.envelopes[i].candidate, s.memories[k])
    requires forall j {:trigger s.memories[j]} :: 0 <= j < k ==> !Clashes(policy, c.request.envelopes[i].candidate, s.memories[j])
    ensures var e := c.request.envelopes[i].candidate;
            var d := Decide(policy, s, Resolve(policy, c.registry, c.request), c.minted, i);
            && d.target == Some(s.memories[k].id)
            && d.action == (if s.memories[k].fingerprint != Fingerprint(policy, e) then CONFLICT
                            else if policy.isConfirmNote(e.note) then CONFIRM_EXISTING else DUPLICATE)
  {
    var b := Resolve(policy, c.registry, c.request);
    AdmissionForeseen(policy, c.registry, c.request.envelopes[i]);
    ResolvedClaim(policy, c, i);
    var after := b.envelopes[i].candidate;
    forall m ensures Clashes(policy, after, m) <==> Clashes(policy, c.request.envelopes[i].candidate, m) {
    }
    FirstClashIsFirst(policy, after, s.memories, k);
  }

  /** A lifecycle request is judged by the first record with its target id. */
  lemma LifecycleVerdict(policy: Policy, s: Store, c: Call, i: nat, k: nat)
    requires Supplies(c.minted, |c.request.envelopes|) && i < |c.request.envelopes|
    requires Admitted(policy, c.registry, c.request.envelopes[i])
    requires c.request.envelopes[i].candidate.operation in {SUPERSEDE_EXISTING, RESOLVE_EXISTING, CONFIRM_EXISTING}
    requires c.request.envelopes[i].candidate.target != "" && Targets(s.memories, c.request.envelopes[i].candidate, k)
    ensures var e := c.request.envelopes[i].candidate;
            var m := s.memories[k];
            var d := Decide(policy, s, Resolve(policy, c.registry, c.request), c.minted, i);
            && (m.scope != ScopeOf(e) || m.status.word == UnknownWord ==> d.action == REVIEW_REQUIRED)
            && (m.scope == ScopeOf(e) && m.status.word != UnknownWord && e.operation == CONFIRM_EXISTING ==> d.action == CONFIRM_EXISTING)
            && (m.status.word != ActiveWord && e.operation != CONFIRM_EXISTING ==> d.action == REVIEW_REQUIRED)
            && (m.scope == ScopeOf(e) && m.status.word == ActiveWord && e.operation == RESOLVE_EXISTING ==> d.action == RESOLVE_EXISTING)
            && (m.scope == ScopeOf(e) && m.status.word == ActiveWord && e.operation == SUPERSEDE_EXISTING ==>
                  if CreatedId(c, i) in Ids(s.memories) then d.action == REVIEW_REQUIRED
                  else if exists x :: x in s.memories && HoldsClaim(x, ScopeOf(e), e.claimKey) && x.id != e.target
                  then d.action == CONFLICT else d.action == SUPERSEDE_EXISTING)
  {
    var b := Resolve(policy, c.registry, c.request);
    AdmissionForeseen(policy, c.registry, c.request.envelopes[i]);
    TargetIsFirst(s.memories, c.request.envelopes[i].candidate, k);
    var e := b.envelopes[i].candidate;
    assert s.memories[k] in s.memories;
    if e.operation == SUPERSEDE_EXISTING {
      assert CreatedId(c, i) in Ids(s.memories) <==> FindById(s.memories, CreatedId(c, i)).Some?;
    }
  }

  /** A lifecycle request for an id that no record has is kept for review. */
  lemma UnknownTargetVerdict(policy: Policy, s: Store, c: Call, i: nat)
    requires Supplies(c.minted, |c.request.envelopes|) && i < |c.request.envelopes|
    requires Admitted(policy, c.registry, c.request.envelopes[i])
    requires c.request.envelopes[i].candidate.operation in {SUPERSEDE_EXISTING, RESOLVE_EXISTING, CONFIRM_EXISTING}
    requires c.request.envelopes[i].candidate.target == "" || c.request.envelopes[i].candidate.target !in Ids(s.memories)
    ensures Decide(policy, s, Resolve(policy, c.registry, c.request), c.minted, i).action == REVIEW_REQUIRED
  {
    AdmissionForeseen(policy, c.registry, c.request.envelopes[i]);
    var e := c.request.envelopes[i].candidate;
    if FindById(s.memories, e.target).Some? {
      assert s.memories[FindById(s.memories, e.target).value] in s.memories;
    }
  }
}
