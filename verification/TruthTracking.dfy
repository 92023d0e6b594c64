/** The partly updated store, and the snapshot decisions were made on. */
module TruthTracking {
  import opened Results
  import opened TruthModel
  import opened TruthCommit

  /** What a decision on the snapshot establishes about the snapshot. */
  ghost predicate Sound(policy: Policy, base: seq<Memory>, e: Envelope, d: Decision) {
    var c := e.candidate;
    && (d.action == SUPERSEDE_EXISTING ==>
          && c.operation == SUPERSEDE_EXISTING
          && d.target == Some(c.target) && d.successor.Some? && FindById(base, c.target).Some?
          && base[FindById(base, c.target).value].scope == ScopeOf(c)
          && d.successor.value != "" && d.successor.value !in Ids(base)
          && forall m :: m in base && HoldsClaim(m, ScopeOf(c), c.claimKey) ==> m.id == c.target)
    && (d.action == RESOLVE_EXISTING ==> d.target.Some? && FindById(base, d.target.value).Some?)
    && (d.action == NEW ==>
          forall m :: m in base && m.scope == ScopeOf(c) ==>
            m.fingerprint != Fingerprint(policy, c) && !HoldsClaim(m, ScopeOf(c), c.claimKey))
  }

  ghost predicate AllSound(policy: Policy, base: seq<Memory>, es: seq<Envelope>, ds: seq<Decision>) {
    |es| == |ds| && forall i {:trigger ds[i]} :: 0 <= i < |ds| ==> Sound(policy, base, es[i], ds[i])
  }

  lemma SupersessionIsSound(policy: Policy, base: seq<Memory>, e: Envelope, k: nat, minted: MemoryId)
    requires minted != "" && e.candidate.operation == SUPERSEDE_EXISTING
    requires FindById(base, e.candidate.target) == Some(k) && base[k].scope == ScopeOf(e.candidate)
    ensures Sound(policy, base, e, EvaluateSupersession(e.candidate, base[k], base, minted))
  {
    var c := e.candidate;
  }

  lemma EvaluationIsSound(policy: Policy, base: seq<Memory>, e: Envelope, revision: nat, minted: MemoryId)
    requires minted != ""
    ensures Sound(policy, base, e, EvaluateOne(policy, e, base, revision, minted))
  {
    if ValidateCandidate(policy, e) == None {
      if e.candidate.operation != NEW {
      } else {
        assert Sound(policy, base, e, EvaluateAddition(policy, e.candidate, base));
      }
    }
  }

  /** Preflight only ever rejects. */
  ghost predicate PreflightRejects(b: Batch) {
    forall i :: 0 <= i < |b.preflight| && b.preflight[i].Some? ==> b.preflight[i].value.action == REJECT
  }

  lemma DecisionsAreSound(policy: Policy, s: Store, b: Batch, minted: Minted)
    requires WellFormed(b) && Supplies(minted, |b.envelopes|) && PreflightRejects(b)
    ensures AllSound(policy, s.memories, b.envelopes, DecideAll(policy, s, b, minted))
  {
    var ds := DecideAll(policy, s, b, minted);
    forall i {:trigger ds[i]} | 0 <= i < |ds| ensures Sound(policy, s.memories, b.envelopes[i], ds[i]) {
      if b.preflight[i] == None {
        EvaluationIsSound(policy, s.memories, b.envelopes[i], s.revision, minted.evaluation[i]);
      }
    }
  }

  // ---- The old part of the store ----

  /** A memory of the snapshot as it may look now: same identity, and no status ever becomes active. */
  predicate Kept(before: Memory, now: Memory) {
    && now.id == before.id && now.scope == before.scope && now.content == before.content
    && now.claimKey == before.claimKey && now.fingerprint == before.fingerprint
    && ((now.status == before.status && now.supersededBy == before.supersededBy)
        || now.status == RESOLVED || now.status == SUPERSEDED)
  }

  /** The link is the old one, or it leads to a record of the same scope that this commit added. */
  ghost predicate Linked(base: seq<Memory>, now: seq<Memory>, k: nat)
    requires k < |base| <= |now|
  {
    || now[k].supersededBy == base[k].supersededBy
    || (&& now[k].supersededBy !in Ids(base)
        && exists j {:trigger now[j]} :: |base| <= j < |now|
             && now[j].id == now[k].supersededBy && now[j].scope == now[k].scope)
  }

  ghost predicate Evolved(base: seq<Memory>, now: seq<Memory>) {
    && |base| <= |now|
    && (forall k {:trigger now[k]} :: 0 <= k < |base| ==> Kept(base[k], now[k]) && Linked(base, now, k))
    && (forall j {:trigger now[j]} :: |base| <= j < |now| ==> now[j].supersededBy == "" && now[j].status == ACTIVE)
  }

  /** Looking up a snapshot id finds the same position in the evolved store. */
  lemma {:induction false} SameFind(base: seq<Memory>, now: seq<Memory>, id: MemoryId)
    requires |base| <= |now| && forall k {:trigger now[k]} :: 0 <= k < |base| ==> now[k].id == base[k].id
    requires FindById(base, id).Some?
    ensures FindById(now, id) == FindById(base, id)
  {
    var k := FindById(base, id).value;
    assert now[k].id == id;
    forall j | 0 <= j < k ensures now[j].id != id {
      assert now[j].id == base[j].id;
    }
  }

  lemma OneStepEvolves(policy: Policy, base: seq<Memory>, a: Applied, i: nat, e: Envelope, commitNew: bool, minted: MemoryId)
    requires i < |a.decisions| && Evolved(base, a.memories) && Sound(policy, base, e, a.decisions[i])
    ensures Evolved(base, ApplyOne(policy, a, i, e, commitNew, minted).memories)
  {
    var d := a.decisions[i];
    if d.action == SUPERSEDE_EXISTING {
      SameFind(base, a.memories, d.target.value);
      SupersessionEvolves(policy, base, a, d, e);
    } else if d.action == RESOLVE_EXISTING {
      SameFind(base, a.memories, d.target.value);
      ResolutionEvolves(policy, base, a, d, e);
    } else if d.action == NEW && commitNew {
      AdditionEvolves(policy, base, a, i, e, minted);
    }
  }

  lemma ResolutionEvolves(policy: Policy, base: seq<Memory>, a: Applied, d: Decision, e: Envelope)
    requires Evolved(base, a.memories) && Sound(policy, base, e, d) && d.action == RESOLVE_EXISTING
    requires FindById(a.memories, d.target.value) == FindById(base, d.target.value)
    ensures Evolved(base, ApplyResolution(a, d, e).memories)
  {
    var now := ApplyResolution(a, d, e).memories;
    forall k {:trigger now[k]} | 0 <= k < |base| ensures Kept(base[k], now[k]) && Linked(base, now, k) {
      assert Kept(base[k], a.memories[k]) && Linked(base, a.memories, k);
      LinkSurvives(base, a.memories, now, k);
    }
    forall j {:trigger now[j]} | |base| <= j < |now| ensures now[j].supersededBy == "" && now[j].status == ACTIVE {
      assert now[j] == a.memories[j];
    }
  }

  lemma AdditionEvolves(policy: Policy, base: seq<Memory>, a: Applied, i: nat, e: Envelope, minted: MemoryId)
    requires i < |a.decisions| && Evolved(base, a.memories)
    ensures Evolved(base, ApplyAddition(policy, a, i, e, minted).memories)
  {
    var now := ApplyAddition(policy, a, i, e, minted).memories;
    forall k {:trigger now[k]} | 0 <= k < |base| ensures Kept(base[k], now[k]) && Linked(base, now, k) {
      assert Kept(base[k], a.memories[k]) && Linked(base, a.memories, k);
      LinkSurvives(base, a.memories, now, k);
    }
    forall j {:trigger now[j]} | |base| <= j < |now| ensures now[j].supersededBy == "" && now[j].status == ACTIVE {
      assert j < |a.memories| ==> now[j] == a.memories[j];
    }
  }

  /** A link stays good while the added records keep their ids and scopes and it is not itself rewritten. */
  lemma LinkSurvives(base: seq<Memory>, before: seq<Memory>, now: seq<Memory>, k: nat)
    requires k < |base| <= |before| <= |now| && Linked(base, before, k)
    requires now[k].supersededBy == before[k].supersededBy && now[k].scope == before[k].scope
    requires forall j {:trigger now[j]} :: |base| <= j < |before| ==> now[j] == before[j]
    ensures Linked(base, now, k)
  {
    if now[k].supersededBy != base[k].supersededBy {
      var j :| |base| <= j < |before| && before[j].id == before[k].supersededBy && before[j].scope == before[k].scope;
      assert now[j] == before[j];
    }
  }

  lemma SupersessionEvolves(policy: Policy, base: seq<Memory>, a: Applied, d: Decision, e: Envelope)
    requires Evolved(base, a.memories) && Sound(policy, base, e, d) && d.action == SUPERSEDE_EXISTING
    requires FindById(a.memories, d.target.value) == FindById(base, d.target.value)
    ensures Evolved(base, ApplySupersession(policy, a, d, e).memories)
  {
    var now := ApplySupersession(policy, a, d, e).memories;
    var t := FindById(base, d.target.value).value;
    assert Kept(base[t], a.memories[t]);
    forall k {:trigger now[k]} | 0 <= k < |base| ensures Kept(base[k], now[k]) && Linked(base, now, k) {
      assert Kept(base[k], a.memories[k]) && Linked(base, a.memories, k);
      if k == t {
        assert now[|now| - 1].id == now[k].supersededBy && now[|now| - 1].scope == now[k].scope;
      } else {
        LinkSurvives(base, a.memories, now, k);
      }
    }
    forall j {:trigger now[j]} | |base| <= j < |now| ensures now[j].supersededBy == "" && now[j].status == ACTIVE {
      assert j < |a.memories| ==> now[j] == a.memories[j];
    }
  }

  /** Decisions that have not been applied yet are still the ones made on the snapshot. */
  lemma {:induction false} PendingUnchanged(policy: Policy, base: seq<Memory>, ds: seq<Decision>, es: seq<Envelope>, n: nat, commitNew: bool, minted: seq<MemoryId>, i: nat)
    requires n <= i < |ds| == |es| == |minted|
    ensures ApplyUpTo(policy, base, ds, es, n, commitNew, minted).decisions[i] == ds[i]
    decreases n
  {
    if n > 0 {
      PendingUnchanged(policy, base, ds, es, n - 1, commitNew, minted, i);
      ApplyStep(policy, base, ds, es, n - 1, commitNew, minted);
    }
  }

  lemma NextEvolves(policy: Policy, base: seq<Memory>, ds: seq<Decision>, es: seq<Envelope>, n: nat, commitNew: bool, minted: seq<MemoryId>)
    requires n < |ds| == |minted| && AllSound(policy, base, es, ds)
    requires Evolved(base, ApplyUpTo(policy, base, ds, es, n, commitNew, minted).memories)
    ensures Evolved(base, ApplyUpTo(policy, base, ds, es, n + 1, commitNew, minted).memories)
  {
    PendingUnchanged(policy, base, ds, es, n, commitNew, minted, n);
    ApplyStep(policy, base, ds, es, n, commitNew, minted);
    OneStepEvolves(policy, base, ApplyUpTo(policy, base, ds, es, n, commitNew, minted), n, es[n], commitNew, minted[n]);
  }

  lemma {:induction false} CommitEvolves(policy: Policy, base: seq<Memory>, ds: seq<Decision>, es: seq<Envelope>, n: nat, commitNew: bool, minted: seq<MemoryId>)
    requires n <= |ds| == |minted| && AllSound(policy, base, es, ds)
    ensures Evolved(base, ApplyUpTo(policy, base, ds, es, n, commitNew, minted).memories)
    decreases n
  {
    if n > 0 {
      CommitEvolves(policy, base, ds, es, n - 1, commitNew, minted);
      NextEvolves(policy, base, ds, es, n - 1, commitNew, minted);
    }
  }

  // ---- The added part of the store ----

  /** The id under which decision i adds a record, if it adds one. */
  function RecordId(d: Decision, e: Envelope, minted: MemoryId): MemoryId {
    if d.action == SUPERSEDE_EXISTING then OrEmpty(d.successor) else AddedId(e.candidate, minted)
  }

  predicate Adds(d: Decision, commitNew: bool) {
    d.action == SUPERSEDE_EXISTING || (d.action == NEW && commitNew)
  }

  /** Which batch positions, in order, the added records come from. */
  ghost predicate AddedFrom(policy: Policy, base: seq<Memory>, now: seq<Memory>, ds: seq<Decision>, es: seq<Envelope>, n: nat, commitNew: bool, minted: seq<MemoryId>, origins: seq<nat>)
    requires n <= |ds| == |es| == |minted|
  {
    && |now| == |base| + |origins|
    && (forall i, j :: 0 <= i < j < |origins| ==> origins[i] < origins[j])
    && (forall j {:trigger origins[j]} :: 0 <= j < |origins| ==>
          var o := origins[j];
          && o < n && Adds(ds[o], commitNew)
          && now[|base| + j] == NewRecord(policy, es[o], RecordId(ds[o], es[o], minted[o])))
  }

  lemma OneStepAdds(policy: Policy, base: seq<Memory>, a: Applied, ds: seq<Decision>, es: seq<Envelope>, n: nat, commitNew: bool, minted: seq<MemoryId>, origins: seq<nat>)
      returns (more: seq<nat>)
    requires n < |ds| == |es| == |minted| == |a.decisions| && a.decisions[n] == ds[n]
    requires Evolved(base, a.memories) && Sound(policy, base, es[n], ds[n])
    requires AddedFrom(policy, base, a.memories, ds, es, n, commitNew, minted, origins)
    ensures AddedFrom(policy, base, ApplyOne(policy, a, n, es[n], commitNew, minted[n]).memories, ds, es, n + 1, commitNew, minted, more)
    ensures more == origins || more == origins + [n]
    ensures ds[n].action == SUPERSEDE_EXISTING ==> more == origins + [n]
    ensures ds[n].action == NEW && commitNew && Key(policy, es[n].candidate) !in a.seen ==> more == origins + [n]
  {
    var now := ApplyOne(policy, a, n, es[n], commitNew, minted[n]).memories;
    OneStepAppends(policy, base, a, n, es[n], commitNew, minted[n]);
    more := if |now| > |a.memories| then origins + [n] else origins;
    forall j {:trigger more[j]} | 0 <= j < |more|
      ensures more[j] < n + 1 && Adds(ds[more[j]], commitNew)
              && now[|base| + j] == NewRecord(policy, es[more[j]], RecordId(ds[more[j]], es[more[j]], minted[more[j]]))
    {
      if j < |origins| {
        assert more[j] == origins[j] && now[|base| + j] == a.memories[|base| + j];
      }
    }
  }

  /** One decision leaves the records added before it alone and appends at most its own. */
  lemma OneStepAppends(policy: Policy, base: seq<Memory>, a: Applied, i: nat, e: Envelope, commitNew: bool, minted: MemoryId)
    requires i < |a.decisions| && Evolved(base, a.memories) && Sound(policy, base, e, a.decisions[i])
    ensures var d := a.decisions[i];
            var now := ApplyOne(policy, a, i, e, commitNew, minted).memories;
            && |a.memories| <= |now| <= |a.memories| + 1
            && (forall j {:trigger now[j]} :: |base| <= j < |a.memories| ==> now[j] == a.memories[j])
            && (|now| > |a.memories| ==> Adds(d, commitNew) && now[|a.memories|] == NewRecord(policy, e, RecordId(d, e, minted)))
            && (d.action == SUPERSEDE_EXISTING ==> |now| > |a.memories|)
            && (d.action == NEW && commitNew && Key(policy, e.candidate) !in a.seen ==> |now| > |a.memories|)
  {
    var d := a.decisions[i];
    if d.action == SUPERSEDE_EXISTING || d.action == RESOLVE_EXISTING {
      SameFind(base, a.memories, d.target.value);
    }
  }

  lemma HoldsStep(ds: seq<Decision>, n: nat, before: seq<nat>, origins: seq<nat>)
    requires n < |ds| && HoldsSupersessions(ds, n, before) && (origins == before || origins == before + [n])
    requires ds[n].action == SUPERSEDE_EXISTING ==> origins == before + [n]
    ensures HoldsSupersessions(ds, n + 1, origins)
  {
  }

  lemma NextAdds(policy: Policy, base: seq<Memory>, ds: seq<Decision>, es: seq<Envelope>, n: nat, commitNew: bool, minted: seq<MemoryId>, before: seq<nat>)
      returns (origins: seq<nat>)
    requires n < |ds| == |minted| && AllSound(policy, base, es, ds)
    requires AddedFrom(policy, base, ApplyUpTo(policy, base, ds, es, n, commitNew, minted).memories, ds, es, n, commitNew, minted, before)
    ensures AddedFrom(policy, base, ApplyUpTo(policy, base, ds, es, n + 1, commitNew, minted).memories, ds, es, n + 1, commitNew, minted, origins)
    ensures origins == before || origins == before + [n]
    ensures ds[n].action == SUPERSEDE_EXISTING ==> origins == before + [n]
  {
    CommitEvolves(policy, base, ds, es, n, commitNew, minted);
    PendingUnchanged(policy, base, ds, es, n, commitNew, minted, n);
    ApplyStep(policy, base, ds, es, n, commitNew, minted);
    origins := OneStepAdds(policy, base, ApplyUpTo(policy, base, ds, es, n, commitNew, minted), ds, es, n, commitNew, minted, before);
  }

  lemma {:induction false} CommitAdds(policy: Policy, base: seq<Memory>, ds: seq<Decision>, es: seq<Envelope>, n: nat, commitNew: bool, minted: seq<MemoryId>)
      returns (origins: seq<nat>)
    requires n <= |ds| == |minted| && AllSound(policy, base, es, ds)
    ensures AddedFrom(policy, base, ApplyUpTo(policy, base, ds, es, n, commitNew, minted).memories, ds, es, n, commitNew, minted, origins)
    ensures HoldsSupersessions(ds, n, origins)
    decreases n
  {
    if n == 0 {
      origins := [];
    } else {
      var before := CommitAdds(policy, base, ds, es, n - 1, commitNew, minted);
      origins := NextAdds(policy, base, ds, es, n - 1, commitNew, minted, before);
      HoldsStep(ds, n - 1, before, origins);
    }
  }

  /** Every supersession among the first n decisions added a record. */
  ghost predicate HoldsSupersessions(ds: seq<Decision>, n: nat, origins: seq<nat>)
    requires n <= |ds|
  {
    forall i :: 0 <= i < n && ds[i].action == SUPERSEDE_EXISTING ==> i in origins
  }
}
