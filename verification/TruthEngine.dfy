/** The truth engine over its canonical store: preflight, transaction, result. */
module TruthEngine {
  import opened Results
  import opened TruthModel
  import opened TruthCommit

  datatype TruthStatus = SUCCESS | DEGRADED | EMPTY | STALE_INPUT | INVALID_INPUT | SCOPE_ERROR

  datatype TruthResult = TruthResult(
    status: TruthStatus,
    sourceRevision: Option<nat>,
    producedRevision: Option<nat>,
    decisions: seq<Decision>,
    error: Option<string>)

  datatype Request = Request(
    envelopes: seq<Envelope>,
    expectedRevision: Option<nat>,
    commit: bool,
    commitNew: bool,
    operationId: Option<string>)

  // ---- What a call computes ----

  /** The request with every envelope through preflight. */
  function Resolve(policy: Policy, registry: Registry, req: Request): (b: Batch)
    ensures |b.envelopes| == |b.preflight| == |b.original| == |req.envelopes|
  {
    var n := |req.envelopes|;
    Batch(seq(n, i requires 0 <= i < n => req.envelopes[i].candidate),
          seq(n, i requires 0 <= i < n => PreflightOne(policy, registry, req.envelopes[i]).0),
          seq(n, i requires 0 <= i < n => PreflightOne(policy, registry, req.envelopes[i]).1),
          req.expectedRevision, req.commit, req.commitNew, req.operationId)
  }

  predicate AllDecided(b: Batch) {
    forall p :: p in b.preflight ==> p.Some?
  }

  function PreflightDecisions(b: Batch): seq<Decision>
    requires AllDecided(b)
  {
    seq(|b.preflight|, i requires 0 <= i < |b.preflight| => b.preflight[i].value)
  }

  function Failed(e: TruthError): TruthResult {
    match e
    case ReplayMismatch => TruthResult(INVALID_INPUT, None, None, [], Some("OPERATION_REPLAY_MISMATCH"))
    case ReceiptMigrationRequired => TruthResult(INVALID_INPUT, None, None, [], Some("MEMORY_TRUTH_INVALID"))
    case RevisionConflict => TruthResult(STALE_INPUT, None, None, [], Some("MEMORY_STORE_CONFLICT"))
  }

  function Committed(t: Transaction): TruthResult {
    match t.result
    case Failure(e) => Failed(e)
    case Success((ds, mutated)) =>
      var revision := t.store.revision;
      TruthResult(if Clean(ds) then SUCCESS else DEGRADED,
                  Some(if mutated && revision > 0 then revision - 1 else revision), Some(revision), ds, None)
  }

  /** The result when preflight has already decided every candidate. */
  function Preempted(s: Store, b: Batch): TruthResult
    requires AllDecided(b)
  {
    var ds := PreflightDecisions(b);
    if exists d :: d in ds && d.reason == REGISTRY_UNAVAILABLE then
      TruthResult(SCOPE_ERROR, None, None, ds, Some(REGISTRY_UNAVAILABLE))
    else
      TruthResult(if b.commit then DEGRADED else SUCCESS, Some(s.revision), Some(s.revision), ds, None)
  }

  /** A fully rejected batch may still be the replay of an operation that was accepted earlier. */
  predicate MayReplay(b: Batch)
    requires AllDecided(b)
  {
    b.commit && b.operationId.Some? && forall d :: d in PreflightDecisions(b) ==> ReplayableReason(d.reason)
  }

  function Process(policy: Policy, s: Store, registry: Registry, req: Request, minted: Minted): (Store, TruthResult)
    requires Supplies(minted, |req.envelopes|)
  {
    var b := Resolve(policy, registry, req);
    if req.envelopes == [] then (s, TruthResult(EMPTY, Some(s.revision), Some(s.revision), [], None))
    else if AllDecided(b) && !MayReplay(b) then (s, Preempted(s, b))
    else if b.commit then
      var t := Transact(policy, s, b, minted);
      (t.store, Committed(t))
    else (s, TruthResult(SUCCESS, Some(s.revision), Some(s.revision), DecideAll(policy, s, b, minted), None))
  }

  // ---- The engine ----

  class MemoryTruthEngine {
    const policy: Policy
    var store: Store

    constructor (policy: Policy, store: Store)
      ensures this.policy == policy && this.store == store
    {
      this.policy, this.store := policy, store;
    }

    method Preflight(registry: Registry, req: Request) returns (b: Batch)
      ensures b == Resolve(policy, registry, req)
    {
      var original: seq<Candidate> := [];
      var resolved: seq<Envelope> := [];
      var decided: seq<Option<Decision>> := [];
      for i := 0 to |req.envelopes|
        invariant |original| == |resolved| == |decided| == i
        invariant forall j :: 0 <= j < i ==>
                    && original[j] == req.envelopes[j].candidate
                    && (resolved[j], decided[j]) == PreflightOne(policy, registry, req.envelopes[j])
      {
        var (envelope, decision) := PreflightOne(policy, registry, req.envelopes[i]);
        original, resolved, decided := original + [req.envelopes[i].candidate], resolved + [envelope], decided + [decision];
      }
      b := Batch(original, resolved, decided, req.expectedRevision, req.commit, req.commitNew, req.operationId);
      var r := Resolve(policy, registry, req);
      assert b.original == r.original && b.envelopes == r.envelopes && b.preflight == r.preflight;
    }

    /** Every decision is made on the store as it is now, before any of them is applied. */
    method DecideOnSnapshot(b: Batch, minted: Minted) returns (ds: seq<Decision>)
      requires WellFormed(b) && |minted.evaluation| == |b.envelopes|
      ensures ds == DecideAll(policy, store, b, minted)
    {
      ds := [];
      for i := 0 to |b.envelopes|
        invariant |ds| == i && forall j :: 0 <= j < i ==> ds[j] == Decide(policy, store, b, minted, j)
      {
        var d;
        if b.preflight[i] == None {
          d := EvaluateOne(policy, b.envelopes[i], store.memories, store.revision, minted.evaluation[i]);
        } else {
          d := b.preflight[i].value;
          if d.reason != REGISTRY_UNAVAILABLE {
            d := d.(sourceRevision := Some(store.revision));
          }
        }
        ds := ds + [d];
      }
      assert ds == DecideAll(policy, store, b, minted);
    }

    /** Apply the decisions one by one to memories that are changing. */
    method ApplyDecisions(b: Batch, decided: seq<Decision>, minted: Minted)
      returns (memories: seq<Memory>, decisions: seq<Decision>, seen: set<(Scope, string)>, mutated: bool)
      requires WellFormed(b) && Supplies(minted, |b.envelopes|) && |decided| == |b.envelopes|
      ensures Applied(memories, decisions, seen, mutated)
              == ApplyUpTo(policy, store.memories, decided, b.envelopes, |decided|, b.commitNew, minted.commit)
    {
      memories, decisions, seen, mutated := store.memories, decided, SeenKeys(store.memories), false;
      for i := 0 to |decided|
        invariant |decisions| == |decided|
        invariant Applied(memories, decisions, seen, mutated)
               == ApplyUpTo(policy, store.memories, decided, b.envelopes, i, b.commitNew, minted.commit)
      {
        var d, e := decisions[i], b.envelopes[i];
        var c := e.candidate;
        if d.action == SUPERSEDE_EXISTING {
          var target := FindById(memories, OrEmpty(d.target));
          if target.Some? {
            var successor := OrEmpty(d.successor);
            var k := target.value;
            memories := memories[k := Superseded(memories[k], c, successor)] + [NewRecord(policy, e, successor)];
            mutated := true;
          }
        } else if d.action == RESOLVE_EXISTING {
          var target := FindById(memories, OrEmpty(d.target));
          if target.Some? {
            memories := memories[target.value := Resolved(memories[target.value], c)];
            mutated := true;
          }
        } else if d.action == NEW && b.commitNew {
          var key := Key(policy, c);
          if key in seen {
            var existing := FirstWithKey(memories, key);
            var repeated := if existing.Some? then Some(existing.value.id) else None;
            decisions := decisions[i := Decision(c.id, DUPLICATE, "EXACT_SCOPED_FINGERPRINT", repeated, None, d.sourceRevision)];
          } else {
            var id := AddedId(c, minted.commit[i]);
            memories := memories + [NewRecord(policy, e, id)];
            seen := seen + {key};
            decisions := decisions[i := Decision(c.id, NEW, d.reason, None, Some(id), d.sourceRevision)];
            mutated := true;
          }
        }
      }
    }

    method Transact(b: Batch, minted: Minted) returns (r: Result<(seq<Decision>, bool), TruthError>)
      requires WellFormed(b) && Supplies(minted, |b.envelopes|) && b.commit
      modifies this
      ensures Transaction(store, r) == TruthCommit.Transact(policy, old(store), b, minted)
    {
      if b.operationId.Some? {
        if store.schemaVersion != RECEIPT_SCHEMA {
          return Failure(ReceiptMigrationRequired);
        }
        var replay := Replay(store, b);
        if replay.Some? {
          if replay.value.Failure? {
            return Failure(replay.value.error);
          }
          return Success((replay.value.value, false));
        }
      }
      if b.expectedRevision.Some? && b.expectedRevision.value != store.revision {
        return Failure(RevisionConflict);
      }
      var decided := DecideOnSnapshot(b, minted);
      var memories, decisions, seen, mutated := ApplyDecisions(b, decided, minted);
      var receipts := store.receipts;
      if b.operationId.Some? && Clean(decisions) {
        receipts := receipts[b.operationId.value := Receipt(b.original, Some(Provenance(b.envelopes)), decisions)];
        mutated := true;
      }
      if mutated {
        store := store.(revision := store.revision + 1, memories := memories, receipts := receipts);
      }
      return Success((decisions, mutated));
    }

    method ProcessBatch(registry: Registry, req: Request, minted: Minted) returns (r: TruthResult)
      requires Supplies(minted, |req.envelopes|)
      modifies this
      ensures (store, r) == Process(policy, old(store), registry, req, minted)
    {
      if req.envelopes == [] {
        return TruthResult(EMPTY, Some(store.revision), Some(store.revision), [], None);
      }
      var b := Preflight(registry, req);
      if AllDecided(b) && !MayReplay(b) {
        return Preempted(store, b);
      }
      if b.commit {
        var t := Transact(b, minted);
        return Committed(Transaction(store, t));
      }
      var ds := DecideOnSnapshot(b, minted);
      return TruthResult(SUCCESS, Some(store.revision), Some(store.revision), ds, None);
    }
  }
}
