/** Receipts, replays and what they return. */
module TruthReplay {
  import opened Results
  import opened TruthModel
  import opened TruthCommit
  import opened TruthTracking
  import opened TruthEngine
  import opened TruthProperties

  /** The request committed under this operation id and left its receipt. */
  ghost predicate Recorded(policy: Policy, s: Store, c: Call, op: string)
    requires Supplies(c.minted, |c.request.envelopes|)
  {
    && c.request.commit && c.request.operationId == Some(op) && op !in s.receipts
    && op in AfterCall(policy, s, c).receipts
  }

  function Candidates(req: Request): seq<Candidate> {
    seq(|req.envelopes|, i requires 0 <= i < |req.envelopes| => req.envelopes[i].candidate)
  }

  lemma {:induction false} CallsKeepReceipts(policy: Policy, s: Store, calls: seq<Call>, op: string)
    requires Legible(calls) && op in s.receipts
    ensures var now := AfterCalls(policy, s, calls);
            op in now.receipts && now.receipts[op] == s.receipts[op] && now.schemaVersion == s.schemaVersion
    decreases |calls|
  {
    if calls != [] {
      var init, last := calls[..|calls| - 1], calls[|calls| - 1];
      assert last in calls;
      CallsKeepReceipts(policy, s, init, op);
    }
  }

  /** A preflight rejection blocks the batch, so a receipt proves that every candidate passed preflight. */
  lemma RejectedBatchIsUnclean(policy: Policy, s: Store, b: Batch, minted: Minted, i: nat)
    requires WellFormed(b) && Supplies(minted, |b.envelopes|) && PreflightRejects(b)
    requires i < |b.preflight| && b.preflight[i].Some?
    ensures var ds := DecideAll(policy, s, b, minted);
            !Clean(ApplyUpTo(policy, s.memories, ds, b.envelopes, |ds|, b.commitNew, minted.commit).decisions)
  {
    var ds := DecideAll(policy, s, b, minted);
    var a := ApplyUpTo(policy, s.memories, ds, b.envelopes, |ds|, b.commitNew, minted.commit);
    BlockingDecisionsStay(policy, s.memories, ds, b.envelopes, |ds|, b.commitNew, minted.commit, i);
    assert a.decisions[i] in a.decisions;
  }

  lemma {:induction false} BlockingDecisionsStay(policy: Policy, base: seq<Memory>, ds: seq<Decision>, es: seq<Envelope>, n: nat, commitNew: bool, minted: seq<MemoryId>, i: nat)
    requires n <= |ds| == |es| == |minted| && i < |ds| && Blocking(ds[i])
    ensures ApplyUpTo(policy, base, ds, es, n, commitNew, minted).decisions[i] == ds[i]
    decreases n
  {
    if n > 0 {
      BlockingDecisionsStay(policy, base, ds, es, n - 1, commitNew, minted, i);
      ApplyStep(policy, base, ds, es, n - 1, commitNew, minted);
    }
  }

  /** What is known about the call that left a receipt. */
  lemma ReceiptRemembers(policy: Policy, s: Store, c: Call, op: string)
    requires Supplies(c.minted, |c.request.envelopes|) && Recorded(policy, s, c, op)
    ensures var b := Resolve(policy, c.registry, c.request);
            var receipt := AfterCall(policy, s, c).receipts[op];
            && receipt.request == Candidates(c.request)
            && receipt.provenance == Some(Provenance(b.envelopes))
            && Process(policy, s, c.registry, c.request, c.minted).1.decisions == receipt.decisions
            && c.request.envelopes != [] && s.schemaVersion == RECEIPT_SCHEMA
            && (forall i :: 0 <= i < |b.preflight| ==> b.preflight[i] == None)
  {
    var b := Resolve(policy, c.registry, c.request);
    assert b.original == Candidates(c.request);
    forall i | 0 <= i < |b.preflight| ensures b.preflight[i] == None {
      if b.preflight[i].Some? {
        RejectedBatchIsUnclean(policy, s, b, c.minted, i);
      }
    }
  }

  /** The registry can be read for every project the batch names. */
  predicate ReadableFor(registry: Registry, req: Request) {
    forall e :: e in req.envelopes && e.candidate.scoped ==> registry(e.candidate.projectId) != Unreadable
  }

  /** A candidate that once passed preflight is later stopped only by a readable change of project policy. */
  lemma PreflightAgain(policy: Policy, before: Registry, after: Registry, e: Envelope)
    requires PreflightOne(policy, before, e).1 == None
    requires e.candidate.scoped ==> after(e.candidate.projectId) != Unreadable
    ensures var d := PreflightOne(policy, after, e).1;
            d == None || (ReplayableReason(d.value.reason) && d.value.reason != REGISTRY_UNAVAILABLE)
  {
  }

  /**
   Once an operation has its receipt, the same candidates under the same operation id get the recorded
   decisions back and change nothing: after any commits in between, with any expected revision, and
   after any readable change of the registry.
   */
  lemma ReplayReturnsTheReceipt(policy: Policy, s: Store, c: Call, op: string, between: seq<Call>, again: Call)
    requires Supplies(c.minted, |c.request.envelopes|) && Recorded(policy, s, c, op) && Legible(between)
    requires Supplies(again.minted, |again.request.envelopes|)
    requires again.request.envelopes == c.request.envelopes && again.request.commit && again.request.operationId == Some(op)
    requires ReadableFor(again.registry, again.request)
    ensures var now := AfterCalls(policy, AfterCall(policy, s, c), between);
            var first := Process(policy, s, c.registry, c.request, c.minted).1;
            var second := Process(policy, now, again.registry, again.request, again.minted);
            && second.0 == now && second.1.decisions == first.decisions
            && (second.1.status == SUCCESS || second.1.status == DEGRADED)
  {
    ReceiptRemembers(policy, s, c, op);
    CallsKeepReceipts(policy, AfterCall(policy, s, c), between, op);
    var now := AfterCalls(policy, AfterCall(policy, s, c), between);
    SameRequestAgain(policy, c, again);
    RecordedReplays(now, Resolve(policy, again.registry, again.request), op);
  }

  /** Whatever the registry says by then, the request resolves to the same batch, possibly stopped by replayable reasons. */
  lemma SameRequestAgain(policy: Policy, c: Call, again: Call)
    requires again.request.envelopes == c.request.envelopes && ReadableFor(again.registry, again.request)
    requires forall i :: 0 <= i < |c.request.envelopes| ==> Resolve(policy, c.registry, c.request).preflight[i] == None
    ensures var first, b := Resolve(policy, c.registry, c.request), Resolve(policy, again.registry, again.request);
            && b.original == Candidates(c.request) && Provenance(b.envelopes) == Provenance(first.envelopes)
            && forall p :: p in b.preflight && p.Some? ==>
                 ReplayableReason(p.value.reason) && p.value.reason != REGISTRY_UNAVAILABLE
  {
    var first, b := Resolve(policy, c.registry, c.request), Resolve(policy, again.registry, again.request);
    assert b.original == Candidates(c.request);
    assert Provenance(b.envelopes) == Provenance(first.envelopes);
    forall i | 0 <= i < |b.preflight| && b.preflight[i].Some?
      ensures ReplayableReason(b.preflight[i].value.reason) && b.preflight[i].value.reason != REGISTRY_UNAVAILABLE
    {
      assert first.preflight[i] == None && c.request.envelopes[i] in again.request.envelopes;
      PreflightAgain(policy, c.registry, again.registry, c.request.envelopes[i]);
    }
  }

  lemma RecordedReplays(s: Store, b: Batch, op: string)
    requires b.operationId == Some(op) && op in s.receipts
    requires s.receipts[op].request == b.original && s.receipts[op].provenance == Some(Provenance(b.envelopes))
    ensures Replay(s, b) == Some(Success(s.receipts[op].decisions))
  {
  }

  /** The receipt was left by another request, or under another provenance. */
  ghost predicate Mismatched(receipt: Receipt, request: Request, envelopes: seq<Envelope>) {
    || receipt.request != Candidates(request)
    || (receipt.provenance.Some? && receipt.provenance.value != Provenance(envelopes))
    || (receipt.provenance == None && exists e :: e in request.envelopes && (e.hasSource || e.hasApproval))
  }

  lemma MismatchFails(policy: Policy, s: Store, op: string, again: Call)
    requires op in s.receipts && again.request.operationId == Some(op)
    requires Mismatched(s.receipts[op], again.request, Resolve(policy, again.registry, again.request).envelopes)
    ensures Replay(s, Resolve(policy, again.registry, again.request)) == Some(Failure(ReplayMismatch))
  {
    var b := Resolve(policy, again.registry, again.request);
    assert b.original == Candidates(again.request);
    MetadataStays(policy, again);
  }

  lemma MetadataStays(policy: Policy, c: Call)
    ensures (exists e :: e in c.request.envelopes && (e.hasSource || e.hasApproval)) ==>
              exists e :: e in Resolve(policy, c.registry, c.request).envelopes && (e.hasSource || e.hasApproval)
  {
    var b := Resolve(policy, c.registry, c.request);
    if e :| e in c.request.envelopes && (e.hasSource || e.hasApproval) {
      var i :| 0 <= i < |c.request.envelopes| && c.request.envelopes[i] == e;
      assert b.envelopes[i] in b.envelopes && b.envelopes[i].hasSource == e.hasSource && b.envelopes[i].hasApproval == e.hasApproval;
    }
  }

  /** A different request or provenance under a recorded operation id changes nothing and is turned away. */
  lemma MismatchIsRejected(policy: Policy, s: Store, op: string, again: Call)
    requires op in s.receipts && Supplies(again.minted, |again.request.envelopes|)
    requires again.request.commit && again.request.operationId == Some(op)
    requires Mismatched(s.receipts[op], again.request, Resolve(policy, again.registry, again.request).envelopes)
    ensures var (now, r) := Process(policy, s, again.registry, again.request, again.minted);
            && now == s
            && (r.status == EMPTY || r.status == INVALID_INPUT || r.status == SCOPE_ERROR
                || (r.status == DEGRADED && forall d :: d in r.decisions ==> d.action == REJECT))
  {
    MismatchFails(policy, s, op, again);
  }
}
