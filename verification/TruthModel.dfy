/**
 Memories, candidates and decisions of the truth engine, and the evaluation of one candidate.

 Evaluation is pure: it reads a snapshot of the store and the candidate's envelope and decides what
 should happen, without seeing the other candidates of its batch.
 */
module TruthModel {
  import opened Results

  type MemoryId = string

  /** The normalised (scope, project id) pair of a record or candidate. */
  datatype Scope = GlobalScope | ProjectScope(projectId: string)

  /** A stored status: what it says ignoring letter case, and whether it is spelled in lower case. */
  datatype Status = Status(word: Word, exact: bool)

  datatype Word = ActiveWord | ResolvedWord | SupersededWord | UnknownWord

  const ACTIVE := Status(ActiveWord, true)
  const RESOLVED := Status(ResolvedWord, true)
  const SUPERSEDED := Status(SupersededWord, true)

  datatype Memory = Memory(
    id: MemoryId,
    scope: Scope,
    content: string,
    kind: string,
    status: Status,
    supersededBy: MemoryId,
    claimKey: string,
    fingerprint: string,
    resolvedBy: string,
    resolutionNote: string,
    supersessionNote: string,
    source: string,
    approved: bool)

  datatype Action =
    | NEW | DUPLICATE | CONFIRM_EXISTING | SUPERSEDE_EXISTING | RESOLVE_EXISTING
    | CONFLICT | REVIEW_REQUIRED | REJECT

  datatype Candidate = Candidate(
    id: string,
    content: string,
    kind: string,
    scoped: bool,
    projectId: string,
    project: string,
    dedupFingerprint: string,
    claimKey: string,
    committed: bool,
    operation: Action,
    target: MemoryId,
    successor: MemoryId,
    resolvedBy: string,
    note: string)

  /** A candidate with the provenance that came beside it. */
  datatype Envelope = Envelope(candidate: Candidate, source: string, approved: bool, hasSource: bool, hasApproval: bool)

  datatype Decision = Decision(
    candidateId: string,
    action: Action,
    reason: string,
    target: Option<MemoryId>,
    successor: Option<MemoryId>,
    sourceRevision: Option<nat>)

  /** The content policy and the digest used for fingerprints. */
  datatype Policy = Policy(
    refusal: string -> Option<string>,
    isConfirmNote: string -> bool,
    digest: (string, Scope, string) -> string)

  datatype Registration = Unregistered | Archived | CaptureDisabled | Enabled(name: string) | Unreadable

  type Registry = string -> Registration

  function ScopeOf(c: Candidate): Scope {
    if c.scoped then ProjectScope(c.projectId) else GlobalScope
  }

  function Fingerprint(policy: Policy, c: Candidate): string {
    if c.dedupFingerprint != "" then c.dedupFingerprint else policy.digest(c.content, ScopeOf(c), c.kind)
  }

  function NewRecord(policy: Policy, e: Envelope, id: MemoryId): Memory {
    var c := e.candidate;
    Memory(id, ScopeOf(c), c.content, c.kind, ACTIVE, "", c.claimKey, Fingerprint(policy, c), "", "", "", e.source, e.approved)
  }

  // ---- Looking a snapshot up ----

  function Ids(memories: seq<Memory>): set<MemoryId> {
    set m | m in memories :: m.id
  }

  /** The position of the first memory with the id. */
  function FindById(memories: seq<Memory>, id: MemoryId): (r: Option<nat>)
    ensures r.Some? ==> r.value < |memories| && memories[r.value].id == id
                        && forall j :: 0 <= j < r.value ==> memories[j].id != id
    ensures r.None? ==> forall j :: 0 <= j < |memories| ==> memories[j].id != id
  {
    if memories == [] then None
    else if memories[0].id == id then Some(0)
    else
      match FindById(memories[1..], id)
      case None => None
      case Some(k) =>
        assert memories[1..][k] == memories[k + 1];
        Some(k + 1)
  }

  /** An exactly active memory of the scope that holds the claim key. */
  predicate HoldsClaim(m: Memory, scope: Scope, key: string) {
    m.scope == scope && key != "" && m.claimKey == key && m.status == ACTIVE
  }

  function ActiveClaimHolder(c: Candidate, memories: seq<Memory>, exclude: MemoryId): (r: Option<Memory>)
    ensures r.Some? ==> r.value in memories && HoldsClaim(r.value, ScopeOf(c), c.claimKey) && r.value.id != exclude
    ensures r.None? ==> forall m :: m in memories && HoldsClaim(m, ScopeOf(c), c.claimKey) ==> m.id == exclude
  {
    if memories == [] then None
    else if HoldsClaim(memories[0], ScopeOf(c), c.claimKey) && memories[0].id != exclude then Some(memories[0])
    else
      assert memories == [memories[0]] + memories[1..];
      ActiveClaimHolder(c, memories[1..], exclude)
  }

  /** The first memory that an addition would repeat or contradict. */
  function FirstClash(policy: Policy, c: Candidate, memories: seq<Memory>): (r: Option<Memory>)
    ensures r.Some? ==> r.value in memories && r.value.scope == ScopeOf(c)
                        && (r.value.fingerprint == Fingerprint(policy, c) || HoldsClaim(r.value, ScopeOf(c), c.claimKey))
    ensures r.None? ==> forall m :: m in memories && m.scope == ScopeOf(c) ==>
                          m.fingerprint != Fingerprint(policy, c) && !HoldsClaim(m, ScopeOf(c), c.claimKey)
  {
    if memories == [] then None
    else if memories[0].scope == ScopeOf(c)
            && (memories[0].fingerprint == Fingerprint(policy, c) || HoldsClaim(memories[0], ScopeOf(c), c.claimKey)) then
      Some(memories[0])
    else
      assert memories == [memories[0]] + memories[1..];
      FirstClash(policy, c, memories[1..])
  }

  // ---- Judging one candidate ----

  function Plain(c: Candidate, action: Action, reason: string): Decision {
    Decision(c.id, action, reason, None, None, None)
  }

  /** The safety, approval and completeness checks that need no snapshot. */
  function ValidateCandidate(policy: Policy, e: Envelope): Option<Decision> {
    var c := e.candidate;
    if policy.refusal(c.content).Some? then Some(Plain(c, REJECT, policy.refusal(c.content).value))
    else if c.note != "" && policy.refusal(c.note).Some? then Some(Plain(c, REJECT, policy.refusal(c.note).value))
    else if e.hasApproval && !e.approved then Some(Plain(c, REVIEW_REQUIRED, "UNAPPROVED_CANDIDATE"))
    else if !c.committed then Some(Plain(c, REVIEW_REQUIRED, "UNCOMMITTED_CANDIDATE"))
    else if !e.approved then Some(Plain(c, REVIEW_REQUIRED, "UNAPPROVED_CANDIDATE"))
    else if c.scoped && c.projectId == "" then Some(Plain(c, REJECT, "SCOPE_UNRESOLVED"))
    else if c.operation in {SUPERSEDE_EXISTING, RESOLVE_EXISTING, CONFIRM_EXISTING} && c.target == "" then
      Some(Plain(c, REVIEW_REQUIRED, "LIFECYCLE_TARGET_UNKNOWN"))
    else None
  }

  function EvaluateSupersession(c: Candidate, target: Memory, memories: seq<Memory>, minted: MemoryId): Decision {
    var successor := if c.successor != "" then c.successor else minted;
    if target.status.word != ActiveWord then
      Decision(c.id, REVIEW_REQUIRED, "TARGET_NOT_ACTIVE", Some(c.target), Some(successor), None)
    else if successor == c.target || FindById(memories, successor).Some? then
      Decision(c.id, REVIEW_REQUIRED, "SUPERSESSION_CYCLE_OR_DUPLICATE", Some(c.target), Some(successor), None)
    else
      match ActiveClaimHolder(c, memories, c.target)
      case Some(other) => Decision(c.id, CONFLICT, "ACTIVE_CLAIM_KEY_CONFLICT", Some(other.id), None, None)
      case None => Decision(c.id, SUPERSEDE_EXISTING, "EXPLICIT_SUPERSESSION", Some(c.target), Some(successor), None)
  }

  function EvaluateLifecycle(c: Candidate, memories: seq<Memory>, minted: MemoryId): Decision {
    var k := if c.target != "" then FindById(memories, c.target) else None;
    if k == None then Plain(c, REVIEW_REQUIRED, "LIFECYCLE_TARGET_UNKNOWN")
    else
      var target := memories[k.value];
      var about := Plain(c, REVIEW_REQUIRED, "").(target := Some(c.target));
      if target.scope != ScopeOf(c) then about.(reason := "SCOPE_MISMATCH")
      else if target.status.word == UnknownWord then about.(reason := "UNKNOWN_LIFECYCLE")
      else if c.operation == SUPERSEDE_EXISTING then EvaluateSupersession(c, target, memories, minted)
      else if c.operation == CONFIRM_EXISTING then
        about.(action := CONFIRM_EXISTING, reason := "EXPLICIT_CONFIRMATION")
      else if target.status.word != ActiveWord then about.(reason := "TARGET_NOT_ACTIVE")
      else about.(action := c.operation, reason := "EXPLICIT_LIFECYCLE_MUTATION")
  }

  function EvaluateAddition(policy: Policy, c: Candidate, memories: seq<Memory>): Decision {
    match FirstClash(policy, c, memories)
    case None => Plain(c, NEW, "NO_SCOPED_MATCH")
    case Some(m) =>
      if m.fingerprint == Fingerprint(policy, c) then
        Plain(c, if policy.isConfirmNote(c.note) then CONFIRM_EXISTING else DUPLICATE, "EXACT_SCOPED_FINGERPRINT")
          .(target := Some(m.id))
      else Plain(c, CONFLICT, "ACTIVE_CLAIM_KEY_CONFLICT").(target := Some(m.id))
  }

  /** The decision on one candidate, from the snapshot alone. */
  function EvaluateOne(policy: Policy, e: Envelope, memories: seq<Memory>, revision: nat, minted: MemoryId): Decision {
    var c := e.candidate;
    var invalid := ValidateCandidate(policy, e);
    var d :=
      if invalid.Some? then invalid.value
      else if c.operation != NEW then EvaluateLifecycle(c, memories, minted)
      else EvaluateAddition(policy, c, memories);
    d.(sourceRevision := Some(revision))
  }

  // ---- Preflight ----

  /** The project-authority check of one envelope: the resolved envelope, or a decision that ends it. */
  function PreflightOne(policy: Policy, registry: Registry, e: Envelope): (Envelope, Option<Decision>) {
    var c := e.candidate;
    var refused :=
      if policy.refusal(c.content).Some? then policy.refusal(c.content)
      else if c.note != "" then policy.refusal(c.note)
      else None;
    if refused.Some? then (e, Some(Plain(c, REJECT, refused.value)))
    else if !c.scoped then
      (e, if c.projectId != "" || c.project != "" then Some(Plain(c, REJECT, "GLOBAL_PROJECT_METADATA")) else None)
    else if c.projectId == "" then (e, Some(Plain(c, REJECT, "SCOPE_UNRESOLVED")))
    else
      match registry(c.projectId)
      case Unregistered => (e, Some(Plain(c, REJECT, "PROJECT_UNREGISTERED")))
      case Archived => (e, Some(Plain(c, REJECT, "PROJECT_ARCHIVED")))
      case CaptureDisabled => (e, Some(Plain(c, REJECT, "PROJECT_CAPTURE_DISABLED")))
      case Unreadable => (e, Some(Plain(c, REJECT, REGISTRY_UNAVAILABLE)))
      case Enabled(name) => (e.(candidate := c.(project := name)), None)
  }

  const REGISTRY_UNAVAILABLE := "PROJECT_REGISTRY_UNAVAILABLE"

  predicate ReplayableReason(reason: string) {
    reason == "PROJECT_UNREGISTERED" || reason == "PROJECT_ARCHIVED" || reason == "PROJECT_CAPTURE_DISABLED"
  }
}
