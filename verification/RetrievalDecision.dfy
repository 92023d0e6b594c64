/** Choosing retrieved candidates for the needs of a task, and the coverage of critical needs. */
module RetrievalDecision {
  import opened Results
  import opened KeyedSorting

  datatype Kind = RECORD | STATE | DECISION | CONSTRAINT | LESSON | GENERAL | TASK

  datatype Need = Need(id: string, kind: Kind, critical: bool, domain: Option<string>)

  /** An eligible candidate; scores are counted in millionths. */
  datatype Candidate = Candidate(
    id: string,
    projectId: Option<string>,
    fromState: bool,
    contentType: string,
    signals: set<string>,
    itemId: Option<string>,
    retrieval: int)

  datatype Authority = Authority(status: string, projectId: Option<string>, fingerprint: string)

  /** What a decision depends on besides its candidates; without texts or query there are no lexical scores. */
  datatype Context = Context(
    needs: set<Need>,
    authorities: map<string, Authority>,
    lexical: Option<map<string, nat>>,
    best: nat,
    maxSelected: nat)

  datatype Reason =
    | AUTHORITY_FILTERED | AUTHORITY_SCOPE_MISMATCH | INSUFFICIENT_TASK_RELEVANCE
    | REDUNDANT_CLAIM | DECISION_BUDGET

  datatype Ranked = Ranked(candidate: Candidate, needs: set<string>, score: int, backfill: bool)

  // ---- Needs ----

  predicate Matches(c: Candidate, n: Need) {
    match n.kind
    case RECORD => c.itemId == n.domain
    case STATE =>
      c.fromState
      || c.contentType in {"blocker", "work_item", "requirement", "risk", "milestone", "objective", "state"}
    case DECISION =>
      c.contentType in {"decision", "preference", "observation", "open_loop"} || "decision" in c.signals
    case CONSTRAINT => c.contentType in {"constraint", "requirement", "risk"} || "constraint" in c.signals
    case LESSON => c.contentType == "lesson"
    case GENERAL => true
    case TASK => false
  }

  function NeedsOf(c: Candidate, ctx: Context): set<string> {
    set n | n in ctx.needs && Matches(c, n) :: n.id
  }

  function Critical(ctx: Context): set<string> {
    set n | n in ctx.needs && n.critical :: n.id
  }

  /** A critical need that names a record which this candidate is. */
  predicate PreciselyCritical(needs: set<string>, ctx: Context) {
    exists n :: n in ctx.needs && n.critical && n.id in needs && n.kind == RECORD
  }

  // ---- The judgement of one candidate ----

  predicate HardRejection(status: string) {
    status in {"SUPERSEDED", "HISTORICAL", "INAPPLICABLE", "INVALID"}
  }

  function Clamp(x: int): int {
    if x < 0 then 0 else if x > 1000000 then 1000000 else x
  }

  function AtMostOne(x: int): int {
    if x > 1000000 then 1000000 else x
  }

  function CriticalBonus(needs: set<string>, ctx: Context): int {
    if Critical(ctx) * needs != {} then 150000 else 0
  }

  function PlainScore(c: Candidate, needs: set<string>, ctx: Context): int {
    AtMostOne(Clamp(c.retrieval) / 2 + (if needs != {} then 350000 else 0) + CriticalBonus(needs, ctx))
  }

  function LexicalScore(c: Candidate, lexical: nat, needs: set<string>, ctx: Context): int {
    AtMostOne((85 * lexical + 10 * Clamp(c.retrieval)) / 100 + CriticalBonus(needs, ctx))
  }

  function LexicalOf(c: Candidate, ctx: Context): nat
    requires ctx.lexical.Some?
  {
    if c.id in ctx.lexical.value then ctx.lexical.value[c.id] else 0
  }

  datatype Verdict = Rejected(reason: Reason) | Irrelevant(parked: Ranked) | Ranks(item: Ranked)

  function AuthorityReason(c: Candidate, ctx: Context): Option<Reason> {
    if c.id !in ctx.authorities then None
    else if HardRejection(ctx.authorities[c.id].status) then Some(AUTHORITY_FILTERED)
    else if ctx.authorities[c.id].projectId != c.projectId then Some(AUTHORITY_SCOPE_MISMATCH)
    else None
  }

  function Judge(c: Candidate, ctx: Context): Verdict {
    var needs := NeedsOf(c, ctx);
    var plain := Ranked(c, needs, PlainScore(c, needs, ctx), false);
    if AuthorityReason(c, ctx).Some? then Rejected(AuthorityReason(c, ctx).value)
    else if ctx.lexical.None? then Ranks(plain)
    else
      var lexical := LexicalOf(c, ctx);
      if !PreciselyCritical(needs, ctx) && (lexical == 0 || 100 * lexical < 35 * ctx.best) then Irrelevant(plain)
      else Ranks(plain.(score := LexicalScore(c, lexical, needs, ctx)))
  }

  // ---- Selecting ----

  datatype State = State(
    selected: seq<Ranked>,
    groups: set<string>,
    covered: set<string>,
    omitted: map<string, Reason>)

  function GroupOf(c: Candidate, ctx: Context): string {
    if c.id in ctx.authorities && ctx.authorities[c.id].fingerprint != ""
    then ctx.authorities[c.id].fingerprint
    else c.id
  }

  /** The candidate is taken unless it repeats a claim to no use or the selection is full. */
  function Refusal(st: State, item: Ranked, ctx: Context): Option<Reason> {
    if GroupOf(item.candidate, ctx) in st.groups && Critical(ctx) * item.needs <= st.covered then Some(REDUNDANT_CLAIM)
    else if |st.selected| >= ctx.maxSelected then Some(DECISION_BUDGET)
    else None
  }

  function Take(st: State, item: Ranked, ctx: Context): State {
    State(st.selected + [item],
          st.groups + {GroupOf(item.candidate, ctx)},
          st.covered + Critical(ctx) * item.needs,
          st.omitted)
  }

  function TrySelect(st: State, item: Ranked, ctx: Context): State {
    match Refusal(st, item, ctx)
    case Some(reason) => st.(omitted := st.omitted[item.candidate.id := reason])
    case None => Take(st, item, ctx)
  }

  function RankKey(ctx: Context): Ranked -> Key {
    (item: Ranked) =>
      Key(if Critical(ctx) * item.needs != {} then 0 else 1, -item.score, -item.candidate.retrieval, item.candidate.id)
  }

  function PoolKey(item: Ranked): Key {
    Key(0, -item.score, -item.candidate.retrieval, item.candidate.id)
  }

  function NeedKey(id: string): Key {
    Key(0, 0, 0, id)
  }

  ghost predicate UniqueIds(s: set<Candidate>) {
    forall a, b :: a in s && b in s && a.id == b.id ==> a == b
  }

  ghost function RankedOf(s: set<Candidate>, ctx: Context): set<Ranked> {
    set c | c in s && Judge(c, ctx).Ranks? :: Judge(c, ctx).item
  }

  /** The irrelevant candidates that match a critical need. */
  ghost function Pool(s: set<Candidate>, ctx: Context, need: string): set<Ranked> {
    set c | c in s && Judge(c, ctx).Irrelevant? && need in Critical(ctx) * NeedsOf(c, ctx) :: Judge(c, ctx).parked
  }

  function DropReason(c: Candidate, ctx: Context): Option<Reason> {
    match Judge(c, ctx)
    case Rejected(reason) => Some(reason)
    case Irrelevant(_) => Some(INSUFFICIENT_TASK_RELEVANCE)
    case Ranks(_) => None
  }

  ghost function Dropped(s: set<Candidate>, ctx: Context): map<string, Reason>
    requires UniqueIds(s)
  {
    map c | c in s && DropReason(c, ctx).Some? :: c.id := DropReason(c, ctx).value
  }

  /** The main loop over the first n ranked candidates. */
  function MainUpTo(start: State, ranked: seq<Ranked>, n: nat, ctx: Context): State
    requires n <= |ranked|
    decreases n, 0
  {
    if n == 0 then start else MainNext(start, ranked, n - 1, ctx)
  }

  /** Ranked candidate n offered after the first n. */
  function MainNext(start: State, ranked: seq<Ranked>, n: nat, ctx: Context): State
    requires n < |ranked|
    decreases n, 1
  {
    TrySelect(MainUpTo(start, ranked, n, ctx), ranked[n], ctx)
  }

  lemma MainStep(start: State, ranked: seq<Ranked>, n: nat, ctx: Context)
    requires n < |ranked|
    ensures MainUpTo(start, ranked, n + 1, ctx) == TrySelect(MainUpTo(start, ranked, n, ctx), ranked[n], ctx)
  {
  }

  /** An uncovered critical need gets the best candidate that only lost the relevance filter. */
  function Backfill(st: State, pool: Option<Ranked>, ctx: Context): State {
    match pool
    case None => st
    case Some(best) =>
      var id := best.candidate.id;
      var cleared := if id in st.omitted && st.omitted[id] == INSUFFICIENT_TASK_RELEVANCE
                     then st.(omitted := st.omitted - {id}) else st;
      if Refusal(cleared, best, ctx).None? then Take(cleared, best.(backfill := true), ctx)
      else cleared.(omitted := cleared.omitted[id := INSUFFICIENT_TASK_RELEVANCE])
  }

  ghost function HeadOf(pool: set<Ranked>): Option<Ranked>
    requires Injective(PoolKey, pool)
  {
    SortedNoRepeats(PoolKey, pool);
    if pool == {} then None else Some(Sorted(PoolKey, pool)[0])
  }

  lemma OnePerCandidate(s: set<Candidate>, ctx: Context, need: string)
    requires UniqueIds(s)
    ensures Injective(PoolKey, Pool(s, ctx, need)) && Injective(RankKey(ctx), RankedOf(s, ctx))
  {
  }

  ghost function Leader(s: set<Candidate>, ctx: Context, need: string): Option<Ranked>
    requires UniqueIds(s)
  {
    OnePerCandidate(s, ctx, need);
    HeadOf(Pool(s, ctx, need))
  }

  /** The backfill for the first n needs left over. */
  ghost function BackfillUpTo(start: State, s: set<Candidate>, pending: seq<string>, n: nat, ctx: Context): State
    requires UniqueIds(s) && n <= |pending|
    decreases n, 0
  {
    if n == 0 then start else BackfillNext(start, s, pending, n - 1, ctx)
  }

  /** Need n served after the first n. */
  ghost function BackfillNext(start: State, s: set<Candidate>, pending: seq<string>, n: nat, ctx: Context): State
    requires UniqueIds(s) && n < |pending|
    decreases n, 1
  {
    Backfill(BackfillUpTo(start, s, pending, n, ctx), Leader(s, ctx, pending[n]), ctx)
  }

  lemma BackfillsStep(start: State, s: set<Candidate>, pending: seq<string>, n: nat, ctx: Context)
    requires UniqueIds(s) && n < |pending|
    ensures BackfillUpTo(start, s, pending, n + 1, ctx)
         == Backfill(BackfillUpTo(start, s, pending, n, ctx), Leader(s, ctx, pending[n]), ctx)
  {
  }

  ghost function AfterMain(s: set<Candidate>, ctx: Context): State
    requires UniqueIds(s)
  {
    OnePerCandidate(s, ctx, "");
    var ranked := Sorted(RankKey(ctx), RankedOf(s, ctx));
    MainUpTo(State([], {}, {}, Dropped(s, ctx)), ranked, |ranked|, ctx)
  }

  ghost function Pending(st: State, ctx: Context): seq<string> {
    Sorted(NeedKey, Critical(ctx) - st.covered)
  }

  /** The decision on a set of candidates. */
  ghost function Decision(s: set<Candidate>, ctx: Context): State
    requires UniqueIds(s)
  {
    var main := AfterMain(s, ctx);
    var pending := Pending(main, ctx);
    BackfillUpTo(main, s, pending, |pending|, ctx)
  }
}
