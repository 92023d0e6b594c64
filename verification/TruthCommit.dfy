/**
 One transaction of the truth engine: every decision is made on the snapshot, then the decisions are
 applied one after another to the store they are changing.
 */
module TruthCommit {
  import opened Results
  import opened TruthModel

  datatype Receipt = Receipt(request: seq<Candidate>, provenance: Option<seq<(string, bool)>>, decisions: seq<Decision>)

  datatype Store = Store(revision: nat, schemaVersion: nat, memories: seq<Memory>, receipts: map<string, Receipt>)

  const RECEIPT_SCHEMA := 3

  datatype TruthError = ReplayMismatch | ReceiptMigrationRequired | RevisionConflict

  /** Ids that a random source would hand out, one per candidate and use. */
  datatype Minted = Minted(evaluation: seq<MemoryId>, commit: seq<MemoryId>)

  ghost predicate Supplies(minted: Minted, n: nat) {
    && |minted.evaluation| == n && |minted.commit| == n
    && (forall i :: 0 <= i < n ==> minted.evaluation[i] != "" && minted.commit[i] != "")
  }

  /** What the caller asked for, after preflight resolved its envelopes. */
  datatype Batch = Batch(
    original: seq<Candidate>,
    envelopes: seq<Envelope>,
    preflight: seq<Option<Decision>>,
    expectedRevision: Option<nat>,
    commit: bool,
    commitNew: bool,
    operationId: Option<string>)

  ghost predicate WellFormed(b: Batch) {
    |b.envelopes| == |b.preflight| == |b.original|
  }

  function Provenance(es: seq<Envelope>): seq<(string, bool)> {
    seq(|es|, i requires 0 <= i < |es| => (es[i].source, es[i].approved))
  }

  // ---- Decisions on the snapshot ----

  function Decide(policy: Policy, s: Store, b: Batch, minted: Minted, i: nat): Decision
    requires |b.envelopes| == |b.preflight| && i < |b.envelopes| && |minted.evaluation| == |b.envelopes|
  {
    match b.preflight[i]
    case None => EvaluateOne(policy, b.envelopes[i], s.memories, s.revision, minted.evaluation[i])
    case Some(d) => if d.reason != REGISTRY_UNAVAILABLE then d.(sourceRevision := Some(s.revision)) else d
  }

  function DecideAll(policy: Policy, s: Store, b: Batch, minted: Minted): seq<Decision>
    requires |b.envelopes| == |b.preflight| && |minted.evaluation| == |b.envelopes|
  {
    seq(|b.envelopes|, i requires 0 <= i < |b.envelopes| => Decide(policy, s, b, minted, i))
  }

  // ---- Applying the decisions ----

  datatype Applied = Applied(memories: seq<Memory>, decisions: seq<Decision>, seen: set<(Scope, string)>, mutated: bool)

  function SeenKeys(memories: seq<Memory>): set<(Scope, string)> {
    set m | m in memories :: (m.scope, m.fingerprint)
  }

  function Key(policy: Policy, c: Candidate): (Scope, string) {
    (ScopeOf(c), Fingerprint(policy, c))
  }

  function OrEmpty(id: Option<MemoryId>): MemoryId {
    if id.Some? then id.value else ""
  }

  /** The id that a committed addition gets. */
  function AddedId(c: Candidate, minted: MemoryId): MemoryId {
    if c.successor != "" then c.successor else minted
  }

  function FirstWithKey(memories: seq<Memory>, key: (Scope, string)): (r: Option<Memory>)
    ensures r.Some? ==> r.value in memories && (r.value.scope, r.value.fingerprint) == key
    ensures r.None? ==> key !in SeenKeys(memories)
  {
    if memories == [] then None
    else if (memories[0].scope, memories[0].fingerprint) == key then Some(memories[0])
    else
      assert memories == [memories[0]] + memories[1..];
      FirstWithKey(memories[1..], key)
  }

  function Superseded(m: Memory, c: Candidate, successor: MemoryId): Memory {
    m.(status := SUPERSEDED, supersededBy := successor, resolvedBy := c.resolvedBy, supersessionNote := c.note)
  }

  function Resolved(m: Memory, c: Candidate): Memory {
    m.(status := RESOLVED, resolvedBy := c.resolvedBy, resolutionNote := c.note)
  }

  function ApplySupersession(policy: Policy, a: Applied, d: Decision, e: Envelope): Applied {
    match FindById(a.memories, OrEmpty(d.target))
    case None => a
    case Some(k) =>
      var successor := OrEmpty(d.successor);
      a.(memories := a.memories[k := Superseded(a.memories[k], e.candidate, successor)]
                     + [NewRecord(policy, e, successor)],
         mutated := true)
  }

  function ApplyResolution(a: Applied, d: Decision, e: Envelope): Applied {
    match FindById(a.memories, OrEmpty(d.target))
    case None => a
    case Some(k) => a.(memories := a.memories[k := Resolved(a.memories[k], e.candidate)], mutated := true)
  }

  function ApplyAddition(policy: Policy, a: Applied, i: nat, e: Envelope, minted: MemoryId): Applied
    requires i < |a.decisions|
  {
    var c, d := e.candidate, a.decisions[i];
    var key := Key(policy, c);
    if key in a.seen then
      var existing := FirstWithKey(a.memories, key);
      var repeat := Decision(c.id, DUPLICATE, "EXACT_SCOPED_FINGERPRINT",
                             if existing.Some? then Some(existing.value.id) else None, None, d.sourceRevision);
      a.(decisions := a.decisions[i := repeat])
    else
      var id := AddedId(c, minted);
      Applied(a.memories + [NewRecord(policy, e, id)],
              a.decisions[i := Decision(c.id, NEW, d.reason, None, Some(id), d.sourceRevision)],
              a.seen + {key}, true)
  }

  function ApplyOne(policy: Policy, a: Applied, i: nat, e: Envelope, commitNew: bool, minted: MemoryId): Applied
    requires i < |a.decisions|
  {
    var d := a.decisions[i];
    if d.action == SUPERSEDE_EXISTING then ApplySupersession(policy, a, d, e)
    else if d.action == RESOLVE_EXISTING then ApplyResolution(a, d, e)
    else if d.action == NEW && commitNew then ApplyAddition(policy, a, i, e, minted)
    else a
  }

  /** The first n decisions applied to the store they were made on. */
  function ApplyUpTo(policy: Policy, base: seq<Memory>, ds: seq<Decision>, es: seq<Envelope>, n: nat, commitNew: bool, minted: seq<MemoryId>): (a: Applied)
    requires n <= |ds| == |es| == |minted|
    ensures |a.decisions| == |ds|
    decreases n, 0
  {
    if n == 0 then Applied(base, ds, SeenKeys(base), false)
    else ApplyNext(policy, base, ds, es, n - 1, commitNew, minted)
  }

  /** Decision n applied after the first n. */
  function ApplyNext(policy: Policy, base: seq<Memory>, ds: seq<Decision>, es: seq<Envelope>, n: nat, commitNew: bool, minted: seq<MemoryId>): (a: Applied)
    requires n < |ds| == |es| == |minted|
    ensures |a.decisions| == |ds|
    decreases n, 1
  {
    ApplyOne(policy, ApplyUpTo(policy, base, ds, es, n, commitNew, minted), n, es[n], commitNew, minted[n])
  }

  lemma ApplyStep(policy: Policy, base: seq<Memory>, ds: seq<Decision>, es: seq<Envelope>, n: nat, commitNew: bool, minted: seq<MemoryId>)
    requires n < |ds| == |es| == |minted|
    ensures ApplyUpTo(policy, base, ds, es, n + 1, commitNew, minted)
         == ApplyOne(policy, ApplyUpTo(policy, base, ds, es, n, commitNew, minted), n, es[n], commitNew, minted[n])
  {
  }

  // ---- The transaction ----

  datatype Transaction = Transaction(store: Store, result: Result<(seq<Decision>, bool), TruthError>)

  predicate Blocking(d: Decision) {
    d.action == REJECT || d.action == REVIEW_REQUIRED || d.action == CONFLICT
  }

  predicate Clean(ds: seq<Decision>) {
    forall d :: d in ds ==> !Blocking(d)
  }

  /** An earlier effect of the same operation: nothing, its decisions, or an identity mismatch. */
  function Replay(s: Store, b: Batch): Option<Result<seq<Decision>, TruthError>> {
    if b.operationId == None || b.operationId.value !in s.receipts then None
    else
      var prior := s.receipts[b.operationId.value];
      var metadata := exists e :: e in b.envelopes && (e.hasSource || e.hasApproval);
      if prior.request != b.original then Some(Failure(ReplayMismatch))
      else if prior.provenance == None then
        if metadata then Some(Failure(ReplayMismatch)) else Some(Success(prior.decisions))
      else if prior.provenance.value != Provenance(b.envelopes) then Some(Failure(ReplayMismatch))
      else Some(Success(prior.decisions))
  }

  function CommitBatch(policy: Policy, s: Store, b: Batch, minted: Minted): Transaction
    requires WellFormed(b) && Supplies(minted, |b.envelopes|)
  {
    var ds := DecideAll(policy, s, b, minted);
    var a := ApplyUpTo(policy, s.memories, ds, b.envelopes, |ds|, b.commitNew, minted.commit);
    var recorded := b.operationId.Some? && Clean(a.decisions);
    if recorded then
      var receipt := Receipt(b.original, Some(Provenance(b.envelopes)), a.decisions);
      Transaction(s.(revision := s.revision + 1, memories := a.memories, receipts := s.receipts[b.operationId.value := receipt]),
                  Success((a.decisions, true)))
    else if a.mutated then
      Transaction(s.(revision := s.revision + 1, memories := a.memories), Success((a.decisions, true)))
    else Transaction(s, Success((a.decisions, false)))
  }

  /** The transaction of a committing call. */
  function Transact(policy: Policy, s: Store, b: Batch, minted: Minted): Transaction
    requires WellFormed(b) && Supplies(minted, |b.envelopes|) && b.commit
  {
    if b.operationId.Some? && s.schemaVersion != RECEIPT_SCHEMA then Transaction(s, Failure(ReceiptMigrationRequired))
    else
      match Replay(s, b)
      case Some(Failure(e)) => Transaction(s, Failure(e))
      case Some(Success(ds)) => Transaction(s, Success((ds, false)))
      case None =>
        if b.expectedRevision.Some? && b.expectedRevision.value != s.revision then
          Transaction(s, Failure(RevisionConflict))
        else CommitBatch(policy, s, b, minted)
  }
}
