/**
 Candidates, drafts, text sizes and token estimates of the context compiler.

 Sizes are in bytes of UTF-8; the conservative estimate of a text is a third of them, rounded up,
 and one token of framing.
 */
module ContextModel {
  import opened Results
  import opened Ordering

  datatype Role =
    | TASK | CURRENT_STATE | DECISION | REQUIREMENT | CONSTRAINT | PREFERENCE | LESSON
    | IMPLEMENTATION_FACT | IMPLEMENTATION_GAP | OPEN_LOOP | CONFLICT | HISTORICAL_CONTEXT
    | SUPPORTING_EVIDENCE

  datatype ResolutionStatus =
    | AUTHORITATIVE | SUPPORTING | STATUS_GAP | CONTESTED | UNRESOLVED | HISTORICAL
    | OtherStatus(name: string)

  /** A candidate as it was resolved and rehydrated. */
  datatype Evidence = Evidence(
    id: string,
    status: ResolutionStatus,
    stateKind: Option<string>,
    recordKind: string,
    text: string,
    projectId: Option<string>,
    fingerprint: string)

  // ---- Text ----

  /** The width of one character in UTF-8. */
  function Width(c: char): nat {
    if c as int < 0x80 then 1 else if c as int < 0x800 then 2 else if c as int < 0x10000 then 3 else 4
  }

  function Bytes(s: string): nat {
    if s == "" then 0 else Width(s[0]) + Bytes(s[1..])
  }

  lemma {:induction false} BytesConcat(a: string, b: string)
    ensures Bytes(a + b) == Bytes(a) + Bytes(b)
  {
    if a == "" {
      assert a + b == b;
    } else {
      assert (a + b)[1..] == a[1..] + b;
      BytesConcat(a[1..], b);
    }
  }

  lemma {:induction false} BytesAtLeastLength(s: string)
    ensures Bytes(s) >= |s|
  {
    if s != "" {
      BytesAtLeastLength(s[1..]);
    }
  }

  predicate IsAscii(s: string) {
    forall i :: 0 <= i < |s| ==> s[i] as int < 0x80
  }

  lemma {:induction false} AsciiBytes(s: string)
    requires IsAscii(s)
    ensures Bytes(s) == |s|
  {
    if s != "" {
      assert forall i :: 0 <= i < |s| - 1 ==> s[1..][i] == s[i + 1];
      AsciiBytes(s[1..]);
    }
  }

  /** Lines with a newline between them. */
  function Join(lines: seq<string>): string {
    if lines == [] then ""
    else if |lines| == 1 then lines[0]
    else lines[0] + "\n" + Join(lines[1..])
  }

  function LineBytes(lines: seq<string>): nat {
    if lines == [] then 0 else Bytes(lines[0]) + 1 + LineBytes(lines[1..])
  }

  lemma {:induction false} JoinBytes(lines: seq<string>)
    requires lines != []
    ensures Bytes(Join(lines)) + 1 == LineBytes(lines)
  {
    if |lines| > 1 {
      JoinBytes(lines[1..]);
      BytesConcat(lines[0], "\n");
      BytesConcat(lines[0] + "\n", Join(lines[1..]));
      AsciiBytes("\n");
    }
  }

  lemma {:induction false} LineBytesConcat(a: seq<string>, b: seq<string>)
    ensures LineBytes(a + b) == LineBytes(a) + LineBytes(b)
    decreases |a|
  {
    if a == [] {
      assert a + b == b;
    } else {
      assert (a + b)[1..] == a[1..] + b;
      LineBytesConcat(a[1..], b);
    }
  }

  // ---- Token estimates ----

  datatype Estimate = Estimate(count: nat, bytes: nat)

  function CeilThird(n: nat): nat {
    (n + 2) / 3
  }

  /** The conservative estimator: a third of the bytes, rounded up, and one token of framing. */
  function ConservativeEstimate(text: string): Estimate {
    Estimate(if text == "" then 0 else CeilThird(Bytes(text)) + 1, Bytes(text))
  }

  // ---- Roles and tiers ----

  function MemoryRole(kind: string): (r: Role)
    ensures r != TASK
  {
    if kind == "decision" then DECISION
    else if kind == "preference" then PREFERENCE
    else if kind == "lesson" then LESSON
    else if kind == "open_loop" then OPEN_LOOP
    else if kind == "requirement" then REQUIREMENT
    else if kind == "constraint" then CONSTRAINT
    else if kind == "fact" then IMPLEMENTATION_FACT
    else SUPPORTING_EVIDENCE
  }

  function StateRole(kind: string): (r: Role)
    ensures r != TASK
  {
    if kind == "requirement" then REQUIREMENT
    else if kind == "constraint" || kind == "risk" then CONSTRAINT
    else if kind == "blocker" then IMPLEMENTATION_GAP
    else CURRENT_STATE
  }

  function RoleFor(e: Evidence): (r: Role)
    ensures r != TASK
    ensures r == LESSON ==> e.status !in {STATUS_GAP, CONTESTED, UNRESOLVED, HISTORICAL}
  {
    match e.status
    case STATUS_GAP => IMPLEMENTATION_GAP
    case CONTESTED => CONFLICT
    case UNRESOLVED => CONFLICT
    case HISTORICAL => HISTORICAL_CONTEXT
    case _ => if e.stateKind.Some? then StateRole(e.stateKind.value) else MemoryRole(e.recordKind)
  }

  /** The compilation profile, as far as tiers depend on it. */
  datatype Profile = CONTINUATION | IMPLEMENTATION | DEBUGGING | ARCHITECTURE | REVIEW | RESEARCH | GENERAL

  function TierFor(role: Role, status: ResolutionStatus, profile: Profile, mandatoryRoles: set<Role>): (nat, bool) {
    if role in mandatoryRoles then (0, true)
    else
      match role
      case CURRENT_STATE => (1, false)
      case DECISION => (if profile in {IMPLEMENTATION, ARCHITECTURE, REVIEW, CONTINUATION} then 1 else 2, false)
      case IMPLEMENTATION_FACT => (if profile in {IMPLEMENTATION, DEBUGGING, REVIEW} then 2 else 3, false)
      case LESSON => (if profile in {IMPLEMENTATION, DEBUGGING, REVIEW} then 2 else 3, false)
      case PREFERENCE => (3, false)
      case OPEN_LOOP => (if profile in {CONTINUATION, DEBUGGING} then 3 else 4, false)
      case HISTORICAL_CONTEXT => (4, false)
      case _ => (if status == HISTORICAL then 4 else 3, false)
  }

  function RoleLabel(role: Role): string {
    match role
    case TASK => "TASK"
    case CURRENT_STATE => "CURRENT STATE"
    case DECISION => "DECISION"
    case REQUIREMENT => "REQUIREMENT"
    case CONSTRAINT => "CONSTRAINT"
    case PREFERENCE => "PREFERENCE"
    case LESSON => "LESSON"
    case IMPLEMENTATION_FACT => "IMPLEMENTATION FACT"
    case IMPLEMENTATION_GAP => "IMPLEMENTATION GAP"
    case OPEN_LOOP => "OPEN LOOP"
    case CONFLICT => "CONFLICT"
    case HISTORICAL_CONTEXT => "HISTORICAL CONTEXT"
    case SUPPORTING_EVIDENCE => "SUPPORTING EVIDENCE"
  }

  function StatusLabel(status: ResolutionStatus): string {
    match status
    case AUTHORITATIVE => "AUTHORITATIVE"
    case SUPPORTING => "SUPPORTING"
    case STATUS_GAP => "IMPLEMENTATION GAP"
    case CONTESTED => "CONTESTED"
    case UNRESOLVED => "UNRESOLVED"
    case HISTORICAL => "HISTORICAL"
    case OtherStatus(name) => name
  }

  // ---- Drafts ----

  datatype Draft = Draft(
    id: string,
    status: ResolutionStatus,
    text: string,
    role: Role,
    tier: nat,
    mandatory: bool,
    group: Option<string>,
    rendered: string,
    cost: Estimate)

  /** One line that binds the source text as data. */
  function RenderFragment(role: Role, status: ResolutionStatus, id: string, text: string): string {
    "- [" + RoleLabel(role) + "; " + StatusLabel(status) + "; " + id + "] " + text
  }

  /** No two drafts have one candidate id. */
  predicate UniqueIds(drafts: seq<Draft>) {
    forall i, j {:trigger drafts[i], drafts[j]} :: 0 <= i < j < |drafts| ==> drafts[i].id != drafts[j].id
  }

  predicate UniqueIdsIn(drafts: set<Draft>) {
    forall a, b :: a in drafts && b in drafts && a.id == b.id ==> a == b
  }

  lemma UniqueIdsOfElements(drafts: seq<Draft>)
    requires UniqueIds(drafts)
    ensures UniqueIdsIn(Elements(drafts)) && NoRepeats(drafts)
  {
  }

  // ---- The size of a fragment ----

  predicate Eligible(status: ResolutionStatus) {
    !status.OtherStatus?
  }

  lemma LabelSizes(role: Role, status: ResolutionStatus)
    requires role != TASK && Eligible(status)
    requires role == LESSON ==> status !in {STATUS_GAP, CONTESTED, UNRESOLVED, HISTORICAL}
    ensures Bytes(RoleLabel(role)) + Bytes(StatusLabel(status)) >= 16
  {
    BytesAtLeastLength(RoleLabel(role));
    BytesAtLeastLength(StatusLabel(status));
  }

  /** The fragment of an eligible candidate is never shorter than its frame. */
  lemma FragmentSize(e: Evidence, text: string)
    requires Eligible(e.status)
    ensures Bytes(RenderFragment(RoleFor(e), e.status, e.id, text)) >= 25 + Bytes(e.id) + Bytes(text)
  {
    var a, b := RoleLabel(RoleFor(e)), StatusLabel(e.status);
    LabelSizes(RoleFor(e), e.status);
    BytesAtLeastLength("- [");
    BytesAtLeastLength("; ");
    BytesAtLeastLength("] ");
    BytesConcat("- [", a);
    BytesConcat("- [" + a, "; ");
    BytesConcat("- [" + a + "; ", b);
    BytesConcat("- [" + a + "; " + b, "; ");
    BytesConcat("- [" + a + "; " + b + "; ", e.id);
    BytesConcat("- [" + a + "; " + b + "; " + e.id, "] ");
    BytesConcat("- [" + a + "; " + b + "; " + e.id + "] ", text);
  }
}
