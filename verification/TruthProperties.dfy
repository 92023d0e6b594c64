/** What commits of the truth engine keep, over every sequence of batches. */
module TruthProperties {
  import opened Results
  import opened TruthModel
  import opened TruthCommit
  import opened TruthTracking
  import opened TruthEngine

  /** One call: the registry it sees, the request, and the ids it would mint. */
  datatype Call = Call(registry: Registry, request: Request, minted: Minted)

  ghost predicate Legible(calls: seq<Call>) {
    forall c :: c in calls ==> Supplies(c.minted, |c.request.envelopes|)
  }

  function AfterCall(policy: Policy, s: Store, c: Call): Store
    requires Supplies(c.minted, |c.request.envelopes|)
  {
    Process(policy, s, c.registry, c.request, c.minted).0
  }

  ghost function AfterCalls(policy: Policy, s: Store, calls: seq<Call>): Store
    requires Legible(calls)
    decreases |calls|
  {
    if calls == [] then s
    else
      var init, last := calls[..|calls| - 1], calls[|calls| - 1];
      assert last in calls;
      AfterCall(policy, AfterCalls(policy, s, init), last)
  }

  /** A call either leaves the memories alone or applies its decisions on the snapshot, all of them sound. */
  lemma CallShape(policy: Policy, s: Store, c: Call) returns (b: Batch, ds: seq<Decision>)
    requires Supplies(c.minted, |c.request.envelopes|)
    ensures b == Resolve(policy, c.registry, c.request)
    ensures AllSound(policy, s.memories, b.envelopes, ds) && |ds| == |c.minted.commit|
    ensures ds == DecideAll(policy, s, b, c.minted)
    ensures var now := AfterCall(policy, s, c).memories;
            || now == s.memories
            || now == ApplyUpTo(policy, s.memories, ds, b.envelopes, |ds|, b.commitNew, c.minted.commit).memories
  {
    b := Resolve(policy, c.registry, c.request);
    ds := DecideAll(policy, s, b, c.minted);
    DecisionsAreSound(policy, s, b, c.minted);
  }

  lemma CallEvolves(policy: Policy, s: Store, c: Call)
    requires Supplies(c.minted, |c.request.envelopes|)
    ensures Evolved(s.memories, AfterCall(policy, s, c).memories)
  {
    var b, ds := CallShape(policy, s, c);
    CommitEvolves(policy, s.memories, ds, b.envelopes, 0, b.commitNew, c.minted.commit);
    CommitEvolves(policy, s.memories, ds, b.envelopes, |ds|, b.commitNew, c.minted.commit);
  }

  // ---- The supersession graph ----

  ghost predicate Edge(memories: seq<Memory>, u: MemoryId, v: MemoryId) {
    v != "" && exists m :: m in memories && m.id == u && m.supersededBy == v
  }

  ghost predicate Walk(memories: seq<Memory>, p: seq<MemoryId>) {
    forall i {:trigger p[i]} :: 0 <= i < |p| - 1 ==> Edge(memories, p[i], p[i + 1])
  }

  ghost predicate IsCycle(memories: seq<Memory>, p: seq<MemoryId>) {
    |p| >= 2 && p[0] == p[|p| - 1] && Walk(memories, p)
  }

  ghost predicate Acyclic(memories: seq<Memory>) {
    forall p :: !IsCycle(memories, p)
  }

  ghost predicate NoDangling(memories: seq<Memory>) {
    forall m :: m in memories && m.supersededBy != "" ==> m.supersededBy in Ids(memories)
  }

  lemma IdsGrow(base: seq<Memory>, now: seq<Memory>)
    requires Evolved(base, now)
    ensures Ids(base) <= Ids(now)
  {
    forall id | id in Ids(base) ensures id in Ids(now) {
      var m :| m in base && m.id == id;
      var k :| 0 <= k < |base| && base[k] == m;
      assert now[k].id == id && now[k] in now;
    }
  }

  lemma EvolvedStaysAcyclic(base: seq<Memory>, now: seq<Memory>)
    requires Evolved(base, now) && Acyclic(base)
    ensures Acyclic(now)
  {
    forall p ensures !IsCycle(now, p) {
      if IsCycle(now, p) {
        forall i {:trigger p[i]} | 0 <= i < |p| - 1 ensures Edge(base, p[i], p[i + 1]) {
          assert Edge(now, p[i], p[i + 1]);
          var next := if i + 2 < |p| then i + 1 else 0;
          assert p[next] == p[i + 1];
          assert Edge(now, p[next], p[next + 1]);
        }
        assert IsCycle(base, p);
      }
    }
  }

  lemma EvolvedStaysAnchored(base: seq<Memory>, now: seq<Memory>)
    requires Evolved(base, now) && NoDangling(base)
    ensures NoDangling(now)
  {
    IdsGrow(base, now);
    forall m | m in now && m.supersededBy != "" ensures m.supersededBy in Ids(now) {
      assert Edge(now, m.id, m.supersededBy);
      if Edge(base, m.id, m.supersededBy) {
        var x :| x in base && x.id == m.id && x.supersededBy == m.supersededBy;
      }
    }
  }

  /** Arbitrary batches never close a supersession cycle and never leave a link without its target. */
  lemma {:induction false} CommitsKeepSupersessionSound(policy: Policy, s: Store, calls: seq<Call>)
    requires Legible(calls) && Acyclic(s.memories) && NoDangling(s.memories)
    ensures Acyclic(AfterCalls(policy, s, calls).memories) && NoDangling(AfterCalls(policy, s, calls).memories)
    decreases |calls|
  {
    if calls != [] {
      var init, last := calls[..|calls| - 1], calls[|calls| - 1];
      assert last in calls;
      CommitsKeepSupersessionSound(policy, s, init);
      var before := AfterCalls(policy, s, init);
      CallEvolves(policy, before, last);
      EvolvedStaysAcyclic(before.memories, AfterCall(policy, before, last).memories);
      EvolvedStaysAnchored(before.memories, AfterCall(policy, before, last).memories);
    }
  }

  // ---- Identities and scopes ----

  ghost predicate UniqueIds(memories: seq<Memory>) {
    forall i, j {:trigger memories[i], memories[j]} :: 0 <= i < j < |memories| ==> memories[i].id != memories[j].id
  }

  /** A superseded memory and its successor are in one scope. */
  ghost predicate LinksStayInScope(memories: seq<Memory>) {
    forall m, t {:trigger m in memories, t in memories} ::
      m in memories && t in memories && m.supersededBy != "" && t.id == m.supersededBy ==> t.scope == m.scope
  }

  /** The id that candidate i would give a record: supplied, or minted at the point of its use. */
  function CreatedId(c: Call, i: nat): MemoryId
    requires i < |c.request.envelopes| == |c.minted.evaluation| == |c.minted.commit|
  {
    var candidate := c.request.envelopes[i].candidate;
    if candidate.successor != "" then candidate.successor
    else if candidate.operation == SUPERSEDE_EXISTING then c.minted.evaluation[i]
    else c.minted.commit[i]
  }

  predicate Creates(c: Candidate) {
    c.operation == SUPERSEDE_EXISTING || c.operation == NEW
  }

  /** The ids that a call may create are new to the store and to each other. */
  ghost predicate FreshIds(s: Store, c: Call)
    requires Supplies(c.minted, |c.request.envelopes|)
  {
    var es := c.request.envelopes;
    && (forall i :: 0 <= i < |es| && Creates(es[i].candidate) ==> CreatedId(c, i) !in Ids(s.memories))
    && (forall i, j :: 0 <= i < j < |es| && Creates(es[i].candidate) && Creates(es[j].candidate) ==>
          CreatedId(c, i) != CreatedId(c, j))
  }

  ghost predicate AlwaysFresh(policy: Policy, s: Store, calls: seq<Call>)
    requires Legible(calls)
    decreases |calls|
  {
    calls == [] ||
    (var init, last := calls[..|calls| - 1], calls[|calls| - 1];
     assert last in calls;
     AlwaysFresh(policy, s, init) && FreshIds(AfterCalls(policy, s, init), last))
  }

  /** An adding decision comes from an adding candidate and uses the id that the candidate would create. */
  lemma AddedIdIsCreatedId(policy: Policy, s: Store, c: Call, i: nat)
    requires Supplies(c.minted, |c.request.envelopes|) && i < |c.request.envelopes|
    ensures var b := Resolve(policy, c.registry, c.request);
            var d := Decide(policy, s, b, c.minted, i);
            Adds(d, true) ==>
              && Creates(c.request.envelopes[i].candidate)
              && RecordId(d, b.envelopes[i], c.minted.commit[i]) == CreatedId(c, i)
              && b.envelopes[i].candidate.successor == c.request.envelopes[i].candidate.successor
  {
    var b := Resolve(policy, c.registry, c.request);
    var e := b.envelopes[i];
    var d := Decide(policy, s, b, c.minted, i);
    if b.preflight[i] == None {
      assert d == EvaluateOne(policy, e, s.memories, s.revision, c.minted.evaluation[i]);
      EvaluationIsSound(policy, s.memories, e, s.revision, c.minted.evaluation[i]);
      if ValidateCandidate(policy, e) == None && e.candidate.operation != NEW {
      }
    }
  }

  lemma CallKeepsIdsUnique(policy: Policy, s: Store, c: Call)
    requires Supplies(c.minted, |c.request.envelopes|) && FreshIds(s, c) && UniqueIds(s.memories)
    ensures UniqueIds(AfterCall(policy, s, c).memories)
  {
    var b, ds := CallShape(policy, s, c);
    var base, now := s.memories, AfterCall(policy, s, c).memories;
    if now != base {
      CallEvolves(policy, s, c);
      var origins := CommitAdds(policy, base, ds, b.envelopes, |ds|, b.commitNew, c.minted.commit);
      forall i, j | 0 <= i < j < |now| ensures now[i].id != now[j].id {
        if i < |base| {
          assert now[i].id == base[i].id && base[i] in base;
        } else {
          var o := origins[i - |base|];
          assert now[|base| + (i - |base|)].id == RecordId(ds[o], b.envelopes[o], c.minted.commit[o]);
          AddedIdIsCreatedId(policy, s, c, o);
        }
        if j < |base| {
          assert now[j].id == base[j].id;
        } else {
          var o := origins[j - |base|];
          assert now[|base| + (j - |base|)].id == RecordId(ds[o], b.envelopes[o], c.minted.commit[o]);
          AddedIdIsCreatedId(policy, s, c, o);
        }
      }
    }
  }

  lemma EvolvedStaysInScope(base: seq<Memory>, now: seq<Memory>)
    requires Evolved(base, now) && UniqueIds(now) && NoDangling(base) && LinksStayInScope(base)
    ensures LinksStayInScope(now)
  {
    forall m, t {:trigger m in now, t in now} | m in now && t in now && m.supersededBy != "" && t.id == m.supersededBy
      ensures t.scope == m.scope
    {
      var k :| 0 <= k < |now| && now[k] == m;
      var l :| 0 <= l < |now| && now[l] == t;
      assert k < |base| && Kept(base[k], now[k]) && Linked(base, now, k);
      if now[k].supersededBy == base[k].supersededBy {
        assert base[k] in base;
        var x :| x in base && x.id == base[k].supersededBy;
        var i :| 0 <= i < |base| && base[i] == x;
        assert Kept(base[i], now[i]) && now[i].id == now[l].id;
        assert i == l;
      } else {
        var j :| |base| <= j < |now| && now[j].id == now[k].supersededBy && now[j].scope == now[k].scope;
        assert now[j].id == now[l].id;
        assert j == l;
      }
    }
  }

  /** With fresh ids, every sequence of commits keeps ids unique and every supersession inside one scope. */
  lemma {:induction false} CommitsStayInScope(policy: Policy, s: Store, calls: seq<Call>)
    requires Legible(calls) && AlwaysFresh(policy, s, calls)
    requires UniqueIds(s.memories) && LinksStayInScope(s.memories) && Acyclic(s.memories) && NoDangling(s.memories)
    ensures var now := AfterCalls(policy, s, calls).memories;
            UniqueIds(now) && LinksStayInScope(now) && NoDangling(now)
    decreases |calls|
  {
    if calls != [] {
      var init, last := calls[..|calls| - 1], calls[|calls| - 1];
      assert last in calls;
      CommitsStayInScope(policy, s, init);
      CommitsKeepSupersessionSound(policy, s, calls);
      var before := AfterCalls(policy, s, init);
      CallEvolves(policy, before, last);
      CallKeepsIdsUnique(policy, before, last);
      EvolvedStaysInScope(before.memories, AfterCall(policy, before, last).memories);
    }
  }

  // ---- Claim keys ----

  /** At most one exactly active memory holds a claim key in a scope. */
  ghost predicate UniqueClaims(memories: seq<Memory>) {
    forall i, j {:trigger memories[i], memories[j]} :: 0 <= i < j < |memories| ==>
      !(HoldsClaim(memories[i], memories[j].scope, memories[j].claimKey) && memories[j].status == ACTIVE)
  }

  /** No two candidates of the batch carry one claim key in one scope. */
  ghost predicate DistinctClaims(es: seq<Envelope>) {
    forall i, j {:trigger es[i], es[j]} :: 0 <= i < j < |es| ==>
      es[i].candidate.claimKey == "" || es[i].candidate.claimKey != es[j].candidate.claimKey
      || ScopeOf(es[i].candidate) != ScopeOf(es[j].candidate)
  }

  /** One applied decision never makes an old memory active again, and a supersession retires its target. */
  lemma OneStepRetires(policy: Policy, base: seq<Memory>, a: Applied, i: nat, e: Envelope, commitNew: bool, minted: MemoryId)
    requires i < |a.decisions| && Evolved(base, a.memories) && Sound(policy, base, e, a.decisions[i])
    ensures var now := ApplyOne(policy, a, i, e, commitNew, minted).memories;
            && |a.memories| <= |now|
            && (forall k {:trigger now[k]} :: 0 <= k < |base| ==> now[k] == a.memories[k] || now[k].status != ACTIVE)
            && (a.decisions[i].action == SUPERSEDE_EXISTING ==>
                  now[FindById(base, e.candidate.target).value].status == SUPERSEDED)
  {
    var d := a.decisions[i];
    if d.action == SUPERSEDE_EXISTING {
      SameFind(base, a.memories, d.target.value);
      SupersessionRetires(policy, base, a, d, e);
    } else if d.action == RESOLVE_EXISTING {
      SameFind(base, a.memories, d.target.value);
    }
  }

  lemma SupersessionRetires(policy: Policy, base: seq<Memory>, a: Applied, d: Decision, e: Envelope)
    requires Evolved(base, a.memories) && Sound(policy, base, e, d) && d.action == SUPERSEDE_EXISTING
    requires FindById(a.memories, d.target.value) == FindById(base, d.target.value)
    ensures var now := ApplySupersession(policy, a, d, e).memories;
            && |a.memories| <= |now|
            && (forall k {:trigger now[k]} :: 0 <= k < |base| ==> now[k] == a.memories[k] || now[k].status != ACTIVE)
            && now[FindById(base, e.candidate.target).value].status == SUPERSEDED
  {
  }

  /** The same for one more decision of a batch. */
  lemma NextRetires(policy: Policy, base: seq<Memory>, ds: seq<Decision>, es: seq<Envelope>, n: nat, commitNew: bool, minted: seq<MemoryId>)
    requires n < |ds| == |minted| && AllSound(policy, base, es, ds)
    ensures var before := ApplyUpTo(policy, base, ds, es, n, commitNew, minted).memories;
            var now := ApplyUpTo(policy, base, ds, es, n + 1, commitNew, minted).memories;
            && |base| <= |before| <= |now|
            && (forall k {:trigger now[k]} :: 0 <= k < |base| ==> now[k] == before[k] || now[k].status != ACTIVE)
            && (ds[n].action == SUPERSEDE_EXISTING ==>
                  && FindById(base, es[n].candidate.target).Some?
                  && now[FindById(base, es[n].candidate.target).value].status == SUPERSEDED)
  {
    CommitEvolves(policy, base, ds, es, n, commitNew, minted);
    PendingUnchanged(policy, base, ds, es, n, commitNew, minted, n);
    ApplyStep(policy, base, ds, es, n, commitNew, minted);
    OneStepRetires(policy, base, ApplyUpTo(policy, base, ds, es, n, commitNew, minted), n, es[n], commitNew, minted[n]);
  }

  /** After n decisions the memory that decision i supersedes is not active. */
  ghost predicate TargetRetired(policy: Policy, base: seq<Memory>, ds: seq<Decision>, es: seq<Envelope>, n: nat, commitNew: bool, minted: seq<MemoryId>, i: nat)
    requires i < n <= |ds| == |es| == |minted|
  {
    var now := ApplyUpTo(policy, base, ds, es, n, commitNew, minted).memories;
    var t := FindById(base, es[i].candidate.target);
    t.Some? && |base| <= |now| && now[t.value].status != ACTIVE
  }

  lemma RetiredStays(policy: Policy, base: seq<Memory>, ds: seq<Decision>, es: seq<Envelope>, n: nat, commitNew: bool, minted: seq<MemoryId>, i: nat)
    requires i < n < |ds| == |minted| && AllSound(policy, base, es, ds) && TargetRetired(policy, base, ds, es, n, commitNew, minted, i)
    ensures TargetRetired(policy, base, ds, es, n + 1, commitNew, minted, i)
  {
    NextRetires(policy, base, ds, es, n, commitNew, minted);
  }

  /** The memory that a supersession names is no longer active once the decision has been applied. */
  lemma {:induction false} SupersededTargetsRetire(policy: Policy, base: seq<Memory>, ds: seq<Decision>, es: seq<Envelope>, n: nat, commitNew: bool, minted: seq<MemoryId>, i: nat)
    requires i < n <= |ds| == |minted| && AllSound(policy, base, es, ds) && ds[i].action == SUPERSEDE_EXISTING
    ensures TargetRetired(policy, base, ds, es, n, commitNew, minted, i)
    decreases n
  {
    if i == n - 1 {
      NextRetires(policy, base, ds, es, i, commitNew, minted);
    } else {
      SupersededTargetsRetire(policy, base, ds, es, n - 1, commitNew, minted, i);
      RetiredStays(policy, base, ds, es, n - 1, commitNew, minted, i);
    }
  }

  /** A commit keeps claim keys unique when its own candidates do not compete for one. */
  lemma CallKeepsClaimsUnique(policy: Policy, s: Store, c: Call)
    requires Supplies(c.minted, |c.request.envelopes|)
    requires UniqueIds(s.memories) && UniqueClaims(s.memories) && DistinctClaims(c.request.envelopes)
    ensures UniqueClaims(AfterCall(policy, s, c).memories)
  {
    var b, ds := CallShape(policy, s, c);
    var base, now := s.memories, AfterCall(policy, s, c).memories;
    if now != base {
      CallEvolves(policy, s, c);
      var origins := CommitAdds(policy, base, ds, b.envelopes, |ds|, b.commitNew, c.minted.commit);
      forall i, j {:trigger now[i], now[j]} | 0 <= i < j < |now|
        ensures !(HoldsClaim(now[i], now[j].scope, now[j].claimKey) && now[j].status == ACTIVE)
      {
        if j < |base| {
          assert Kept(base[i], now[i]) && Kept(base[j], now[j]);
        } else {
          var o := origins[j - |base|];
          assert now[|base| + (j - |base|)] == NewRecord(policy, b.envelopes[o], RecordId(ds[o], b.envelopes[o], c.minted.commit[o]));
          if i < |base| {
            AdditionMeetsNoHolder(policy, base, ds, b.envelopes, b.commitNew, c.minted.commit, o, i);
          } else {
            var q := origins[i - |base|];
            assert now[|base| + (i - |base|)] == NewRecord(policy, b.envelopes[q], RecordId(ds[q], b.envelopes[q], c.minted.commit[q]));
            assert q < o;
            ResolvedClaim(policy, c, q);
            ResolvedClaim(policy, c, o);
            assert c.request.envelopes[q].candidate.claimKey == "" || c.request.envelopes[q].candidate.claimKey != c.request.envelopes[o].candidate.claimKey
                   || ScopeOf(c.request.envelopes[q].candidate) != ScopeOf(c.request.envelopes[o].candidate);
          }
        }
      }
    }
  }

  /** Preflight changes neither the scope nor the claim key of a candidate. */
  lemma ResolvedClaim(policy: Policy, c: Call, i: nat)
    requires i < |c.request.envelopes|
    ensures var before, after := c.request.envelopes[i].candidate, Resolve(policy, c.registry, c.request).envelopes[i].candidate;
            ScopeOf(after) == ScopeOf(before) && after.claimKey == before.claimKey
            && Fingerprint(policy, after) == Fingerprint(policy, before)
  {
  }

  /** After the batch, an old memory that is still active does not hold the claim key of an added record. */
  lemma AdditionMeetsNoHolder(policy: Policy, base: seq<Memory>, ds: seq<Decision>, es: seq<Envelope>, commitNew: bool, minted: seq<MemoryId>, o: nat, i: nat)
    requires o < |ds| == |minted| && AllSound(policy, base, es, ds) && Adds(ds[o], commitNew)
    requires i < |base| && UniqueIds(base)
    ensures var now := ApplyUpTo(policy, base, ds, es, |ds|, commitNew, minted).memories;
            |base| <= |now| && !HoldsClaim(now[i], ScopeOf(es[o].candidate), es[o].candidate.claimKey)
  {
    var now := ApplyUpTo(policy, base, ds, es, |ds|, commitNew, minted).memories;
    CommitEvolves(policy, base, ds, es, |ds|, commitNew, minted);
    assert Kept(base[i], now[i]) && base[i] in base && Sound(policy, base, es[o], ds[o]);
    if ds[o].action == SUPERSEDE_EXISTING {
      SupersededTargetsRetire(policy, base, ds, es, |ds|, commitNew, minted, o);
      var t := FindById(base, es[o].candidate.target).value;
      assert t != i ==> base[t].id != base[i].id;
    }
  }

  ghost predicate AlwaysDistinctClaims(calls: seq<Call>) {
    forall c :: c in calls ==> DistinctClaims(c.request.envelopes)
  }

  /** Over every sequence of commits with fresh ids and non-competing batches, claim keys stay unique. */
  lemma {:induction false} CommitsKeepClaimsUnique(policy: Policy, s: Store, calls: seq<Call>)
    requires Legible(calls) && AlwaysFresh(policy, s, calls) && AlwaysDistinctClaims(calls)
    requires UniqueIds(s.memories) && UniqueClaims(s.memories)
    ensures UniqueIds(AfterCalls(policy, s, calls).memories) && UniqueClaims(AfterCalls(policy, s, calls).memories)
    decreases |calls|
  {
    if calls != [] {
      var init, last := calls[..|calls| - 1], calls[|calls| - 1];
      assert last in calls;
      CommitsKeepClaimsUnique(policy, s, init);
      var before := AfterCalls(policy, s, init);
      CallKeepsIdsUnique(policy, before, last);
      CallKeepsClaimsUnique(policy, before, last);
    }
  }
}
