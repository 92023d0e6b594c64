/** Why each candidate is selected or omitted. */
module DecisionReasons {
  import opened Results
  import opened Ordering
  import opened KeyedSorting
  import opened RetrievalDecision
  import opened DecisionCoverage
  import opened DecisionReport

  // ---- The filters, on one candidate ----

  predicate HardStatus(c: Candidate, ctx: Context) {
    c.id in ctx.authorities && ctx.authorities[c.id].status in {"SUPERSEDED", "HISTORICAL", "INAPPLICABLE", "INVALID"}
  }

  predicate OtherProject(c: Candidate, ctx: Context) {
    c.id in ctx.authorities && ctx.authorities[c.id].projectId != c.projectId
  }

  predicate Allowed(c: Candidate, ctx: Context) {
    !HardStatus(c, ctx) && !OtherProject(c, ctx)
  }

  /** A critical need for one record is matched by the candidate. */
  predicate NamesCriticalRecord(c: Candidate, ctx: Context) {
    exists n :: n in ctx.needs && n.critical && n.kind == RECORD && n.id in NeedsOf(c, ctx)
  }

  /** The candidate's share of the words of the request; nothing without texts. */
  function Lexical(c: Candidate, ctx: Context): nat {
    if ctx.lexical.Some? && c.id in ctx.lexical.value then ctx.lexical.value[c.id] else 0
  }

  /** Without texts everything is relevant; with them, what shares 35 percent of the best or names a critical record. */
  predicate Relevant(c: Candidate, ctx: Context) {
    || ctx.lexical.None? || NamesCriticalRecord(c, ctx)
    || (Lexical(c, ctx) > 0 && 100 * Lexical(c, ctx) >= 35 * ctx.best)
  }

  predicate MatchesCritical(c: Candidate, ctx: Context) {
    exists n :: n in ctx.needs && n.critical && n.id in NeedsOf(c, ctx)
  }

  function Bounded(x: int): int {
    if x < 0 then 0 else if x > 1000000 then 1000000 else x
  }

  /** The score without texts: half the retrieval score, 35 hundredths for a need, 15 for a critical one, at most one. */
  function ScoreWithoutTexts(c: Candidate, ctx: Context): int {
    Bounded(Bounded(c.retrieval) / 2 + (if NeedsOf(c, ctx) != {} then 350000 else 0) + (if MatchesCritical(c, ctx) then 150000 else 0))
  }

  /** The score with texts: 85 hundredths of the words, 10 of the retrieval score, 15 for a critical need, at most one. */
  function ScoreWithTexts(c: Candidate, ctx: Context): int {
    Bounded((85 * Lexical(c, ctx) + 10 * Bounded(c.retrieval)) / 100 + (if MatchesCritical(c, ctx) then 150000 else 0))
  }

  lemma CriticalMeans(c: Candidate, ctx: Context)
    ensures MatchesCritical(c, ctx) <==> Critical(ctx) * NeedsOf(c, ctx) != {}
  {
    if MatchesCritical(c, ctx) {
      var n :| n in ctx.needs && n.critical && n.id in NeedsOf(c, ctx);
      assert n.id in Critical(ctx) * NeedsOf(c, ctx);
    }
    if Critical(ctx) * NeedsOf(c, ctx) != {} {
      var id :| id in Critical(ctx) * NeedsOf(c, ctx);
      var n :| n in ctx.needs && n.critical && n.id == id;
    }
  }

  /** The verdict on a candidate: refused by authority, irrelevant, or ranked with its score. */
  lemma VerdictMeans(c: Candidate, ctx: Context)
    ensures Judge(c, ctx).Rejected? <==> !Allowed(c, ctx)
    ensures Judge(c, ctx).Irrelevant? <==> Allowed(c, ctx) && !Relevant(c, ctx)
    ensures HardStatus(c, ctx) ==> Judge(c, ctx) == Rejected(AUTHORITY_FILTERED)
    ensures OtherProject(c, ctx) && !HardStatus(c, ctx) ==> Judge(c, ctx) == Rejected(AUTHORITY_SCOPE_MISMATCH)
    ensures Allowed(c, ctx) && !Relevant(c, ctx) ==>
              Judge(c, ctx) == Irrelevant(Ranked(c, NeedsOf(c, ctx), ScoreWithoutTexts(c, ctx), false))
    ensures Allowed(c, ctx) && Relevant(c, ctx) ==>
              Judge(c, ctx) == Ranks(Ranked(c, NeedsOf(c, ctx),
                                            if ctx.lexical.None? then ScoreWithoutTexts(c, ctx) else ScoreWithTexts(c, ctx), false))
  {
    CriticalMeans(c, ctx);
    assert NamesCriticalRecord(c, ctx) <==> PreciselyCritical(NeedsOf(c, ctx), ctx);
  }

  /** A need is matched by its kind: a record by its item id, the others by content type, source or signal. */
  lemma NeedMeans(c: Candidate, ctx: Context, n: Need)
    requires n in ctx.needs && forall m :: m in ctx.needs && m.id == n.id ==> m == n
    ensures n.kind == RECORD ==> (n.id in NeedsOf(c, ctx) <==> c.itemId == n.domain)
    ensures n.kind == LESSON ==> (n.id in NeedsOf(c, ctx) <==> c.contentType == "lesson")
    ensures n.kind == CONSTRAINT ==>
              (n.id in NeedsOf(c, ctx) <==> c.contentType in {"constraint", "requirement", "risk"} || "constraint" in c.signals)
    ensures n.kind == DECISION ==>
              (n.id in NeedsOf(c, ctx) <==>
                 c.contentType in {"decision", "preference", "observation", "open_loop"} || "decision" in c.signals)
    ensures n.kind == STATE ==>
              (n.id in NeedsOf(c, ctx) <==>
                 || c.fromState
                 || c.contentType in {"blocker", "work_item", "requirement", "risk", "milestone", "objective", "state"})
    ensures n.kind == GENERAL ==> n.id in NeedsOf(c, ctx)
    ensures n.kind == TASK ==> n.id !in NeedsOf(c, ctx)
  {
  }

  // ---- The order of the selection ----

  /** The order of the main loop: candidates for critical needs first, then by score, retrieval score and id. */
  predicate GoesBefore(a: Ranked, b: Ranked, ctx: Context) {
    var x, y := MatchesCritical(a.candidate, ctx), MatchesCritical(b.candidate, ctx);
    || (x && !y)
    || (x == y && a.score > b.score)
    || (x == y && a.score == b.score && a.candidate.retrieval > b.candidate.retrieval)
    || (x == y && a.score == b.score && a.candidate.retrieval == b.candidate.retrieval && StringLess(a.candidate.id, b.candidate.id))
  }

  lemma OrderMeans(a: Ranked, b: Ranked, ctx: Context)
    requires a.needs == NeedsOf(a.candidate, ctx) && b.needs == NeedsOf(b.candidate, ctx)
    ensures KeyLess(RankKey(ctx)(a), RankKey(ctx)(b)) <==> GoesBefore(a, b, ctx)
  {
    CriticalMeans(a.candidate, ctx);
    CriticalMeans(b.candidate, ctx);
  }

  // ---- The main loop ----

  /** What the main loop has done with the first n candidates. */
  ghost predicate SoFar(st: State, ranked: seq<Ranked>, n: nat, ctx: Context)
    requires n <= |ranked|
  {
    && Increasing(ByKey(RankKey(ctx)), st.selected)
    && (forall item :: item in st.selected ==> item in ranked[..n])
    && (forall k {:trigger Placed(st, ranked[k], ctx)} :: 0 <= k < n ==> Placed(st, ranked[k], ctx))
  }

  /** A ranked candidate is selected, or omitted for a reason that holds. */
  ghost predicate Placed(st: State, item: Ranked, ctx: Context) {
    var id := item.candidate.id;
    || item in st.selected
    || (id in st.omitted && st.omitted[id] == REDUNDANT_CLAIM && RedundantAmong(st.selected, item, ctx))
    || (id in st.omitted && st.omitted[id] == DECISION_BUDGET && |st.selected| >= ctx.maxSelected
        && AllBefore(st.selected, item, ctx))
  }

  /** Everything selected goes before the candidate. */
  ghost predicate AllBefore(selected: seq<Ranked>, item: Ranked, ctx: Context) {
    forall other :: other in selected ==> ByKey(RankKey(ctx))(other, item)
  }

  /** The claim of the candidate: the fingerprint that authority found, or else its own id. */
  function ClaimOf(c: Candidate, ctx: Context): string {
    if c.id in ctx.authorities && ctx.authorities[c.id].fingerprint != "" then ctx.authorities[c.id].fingerprint else c.id
  }

  /** The selected candidates make this claim already and cover every critical need that the candidate matches. */
  ghost predicate RedundantAmong(selected: seq<Ranked>, item: Ranked, ctx: Context) {
    && (exists other :: other in selected && ClaimOf(other.candidate, ctx) == ClaimOf(item.candidate, ctx))
    && (forall need :: need in Critical(ctx) * item.needs ==> Covers(selected, need))
  }

  /** The groups that block repeats are the claims of what is selected. */
  ghost predicate GroupsAreClaims(st: State, ctx: Context) {
    forall g :: g in st.groups ==> exists item :: item in st.selected && ClaimOf(item.candidate, ctx) == g
  }

  lemma GrowthKeepsPlace(st: State, r: State, item: Ranked, ctx: Context)
    requires Placed(st, item, ctx)
    requires item.candidate.id in st.omitted ==> item.candidate.id in r.omitted && r.omitted[item.candidate.id] == st.omitted[item.candidate.id]
    requires r.selected == st.selected || (|st.selected| < ctx.maxSelected && st.selected <= r.selected)
    ensures Placed(r, item, ctx)
  {
    forall other | other in st.selected ensures other in r.selected {
    }
    if item !in st.selected && item.candidate.id in st.omitted && st.omitted[item.candidate.id] == REDUNDANT_CLAIM {
      forall need | need in Critical(ctx) * item.needs ensures Covers(r.selected, need) {
        var i :| i in st.selected && need in i.needs;
        assert i in r.selected;
      }
    }
  }

  lemma TakingPlaces(st: State, item: Ranked, ctx: Context)
    requires GroupsAreClaims(st, ctx)
    ensures Placed(Take(st, item, ctx), item, ctx) && GroupsAreClaims(Take(st, item, ctx), ctx)
  {
    var r := Take(st, item, ctx);
    assert item in r.selected;
    forall g | g in r.groups ensures exists i :: i in r.selected && ClaimOf(i.candidate, ctx) == g {
      if g in st.groups {
        var i :| i in st.selected && ClaimOf(i.candidate, ctx) == g;
        assert i in r.selected;
      } else {
        assert ClaimOf(item.candidate, ctx) == g;
      }
    }
  }

  lemma ClaimIsRepeated(selected: seq<Ranked>, groups: set<string>, covered: set<string>, item: Ranked, ctx: Context)
    requires forall g :: g in groups ==> exists i :: i in selected && ClaimOf(i.candidate, ctx) == g
    requires forall need :: need in covered ==> Covers(selected, need)
    requires ClaimOf(item.candidate, ctx) in groups && Critical(ctx) * item.needs <= covered
    ensures RedundantAmong(selected, item, ctx)
  {
    forall need | need in Critical(ctx) * item.needs ensures Covers(selected, need) {
      assert need in covered;
    }
  }

  lemma RefusalPlaces(st: State, item: Ranked, ctx: Context)
    requires GroupsAreClaims(st, ctx) && AllBefore(st.selected, item, ctx)
    requires forall need :: need in st.covered ==> Covers(st.selected, need)
    requires Refusal(st, item, ctx).Some?
    ensures Placed(TrySelect(st, item, ctx), item, ctx)
  {
    if Refusal(st, item, ctx) == Some(REDUNDANT_CLAIM) {
      ClaimIsRepeated(st.selected, st.groups, st.covered, item, ctx);
    }
  }

  lemma EarlierGoBefore(st: State, ranked: seq<Ranked>, n: nat, ctx: Context)
    requires n < |ranked| && (forall item :: item in st.selected ==> item in ranked[..n]) && Increasing(ByKey(RankKey(ctx)), ranked)
    ensures AllBefore(st.selected, ranked[n], ctx)
  {
    forall other | other in st.selected ensures ByKey(RankKey(ctx))(other, ranked[n]) {
      var k :| 0 <= k < n && ranked[k] == other;
    }
  }

  lemma AppendInOrder(selected: seq<Ranked>, item: Ranked, ctx: Context)
    requires Increasing(ByKey(RankKey(ctx)), selected) && AllBefore(selected, item, ctx)
    ensures Increasing(ByKey(RankKey(ctx)), selected + [item])
  {
    forall i, j {:trigger (selected + [item])[i], (selected + [item])[j]} | 0 <= i < j < |selected + [item]|
      ensures ByKey(RankKey(ctx))((selected + [item])[i], (selected + [item])[j])
    {
      assert (selected + [item])[i] == selected[i] && selected[i] in selected;
    }
  }

  lemma OfferSelects(st: State, ranked: seq<Ranked>, n: nat, ctx: Context)
    requires n < |ranked| && Increasing(ByKey(RankKey(ctx)), ranked)
    requires (forall need :: need in st.covered ==> Covers(st.selected, need)) && GroupsAreClaims(st, ctx)
    requires Increasing(ByKey(RankKey(ctx)), st.selected) && forall item :: item in st.selected ==> item in ranked[..n]
    ensures var r := TrySelect(st, ranked[n], ctx);
            && GroupsAreClaims(r, ctx) && Placed(r, ranked[n], ctx)
            && Increasing(ByKey(RankKey(ctx)), r.selected) && forall item :: item in r.selected ==> item in ranked[..n + 1]
  {
    var item := ranked[n];
    EarlierGoBefore(st, ranked, n, ctx);
    assert ranked[..n + 1] == ranked[..n] + [item];
    if Refusal(st, item, ctx).None? {
      TakingPlaces(st, item, ctx);
      AppendInOrder(st.selected, item, ctx);
    } else {
      RefusalPlaces(st, item, ctx);
    }
  }

  lemma OfferLeavesPlaces(st: State, item: Ranked, other: Ranked, ctx: Context)
    requires Placed(st, other, ctx) && other.candidate.id != item.candidate.id
    ensures Placed(TrySelect(st, item, ctx), other, ctx)
  {
    GrowthKeepsPlace(st, TrySelect(st, item, ctx), other, ctx);
  }

  lemma OfferSoFar(st: State, ranked: seq<Ranked>, n: nat, ctx: Context)
    requires n < |ranked| && Increasing(ByKey(RankKey(ctx)), ranked)
    requires (forall need :: need in st.covered ==> Covers(st.selected, need)) && GroupsAreClaims(st, ctx) && SoFar(st, ranked, n, ctx)
    requires forall k {:trigger ranked[k]} :: 0 <= k < n ==> ranked[k].candidate.id != ranked[n].candidate.id
    ensures var r := TrySelect(st, ranked[n], ctx); GroupsAreClaims(r, ctx) && SoFar(r, ranked, n + 1, ctx)
  {
    OfferSelects(st, ranked, n, ctx);
    var r := TrySelect(st, ranked[n], ctx);
    forall k {:trigger Placed(r, ranked[k], ctx)} | 0 <= k < n + 1 ensures Placed(r, ranked[k], ctx) {
      if k < n {
        assert Placed(st, ranked[k], ctx);
        OfferLeavesPlaces(st, ranked[n], ranked[k], ctx);
      }
    }
  }

  ghost function MainState(ranked: seq<Ranked>, n: nat, s: set<Candidate>, ctx: Context): State
    requires UniqueIds(s) && n <= |ranked|
  {
    MainUpTo(State([], {}, {}, Dropped(s, ctx)), ranked, n, ctx)
  }

  lemma StartIsTruthful(s: set<Candidate>, ctx: Context)
    requires UniqueIds(s)
    ensures Truthful(State([], {}, {}, Dropped(s, ctx)), s, ctx)
  {
  }

  lemma NextSoFar(ranked: seq<Ranked>, n: nat, s: set<Candidate>, ctx: Context)
    requires UniqueIds(s) && n < |ranked| && NoRepeats(ranked) && Offerable(ranked, s, ctx)
    requires Increasing(ByKey(RankKey(ctx)), ranked)
    requires GroupsAreClaims(MainState(ranked, n, s, ctx), ctx) && SoFar(MainState(ranked, n, s, ctx), ranked, n, ctx)
    ensures GroupsAreClaims(MainState(ranked, n + 1, s, ctx), ctx) && SoFar(MainState(ranked, n + 1, s, ctx), ranked, n + 1, ctx)
  {
    var start := State([], {}, {}, Dropped(s, ctx));
    MainStep(start, ranked, n, ctx);
    RankedIdsDiffer(ranked, n + 1, s, ctx);
    StartIsTruthful(s, ctx);
    MainIsTruthful(start, ranked, n, s, ctx);
    OfferSoFar(MainState(ranked, n, s, ctx), ranked, n, ctx);
  }

  lemma {:induction false} MainSoFar(ranked: seq<Ranked>, n: nat, s: set<Candidate>, ctx: Context)
    requires UniqueIds(s) && n <= |ranked| && NoRepeats(ranked) && Offerable(ranked, s, ctx)
    requires Increasing(ByKey(RankKey(ctx)), ranked)
    ensures GroupsAreClaims(MainState(ranked, n, s, ctx), ctx) && SoFar(MainState(ranked, n, s, ctx), ranked, n, ctx)
    decreases n
  {
    if n > 0 {
      MainSoFar(ranked, n - 1, s, ctx);
      NextSoFar(ranked, n - 1, s, ctx);
    }
  }

  // ---- The backfill ----

  ghost predicate LeadsOneOf(s: set<Candidate>, ctx: Context, needs: set<string>, c: Candidate)
    requires UniqueIds(s)
  {
    exists need :: need in needs && Leads(s, ctx, need, c)
  }

  /** What the backfill may do to a decision: append candidates that were irrelevant, and report such candidates anew. */
  ghost predicate Backfilled(main: State, st: State, s: set<Candidate>, ctx: Context)
    requires UniqueIds(s)
  {
    && main.selected <= st.selected
    && (forall k {:trigger st.selected[k]} :: |main.selected| <= k < |st.selected| ==>
          var item := st.selected[k];
          && item.backfill && item.candidate in s && Judge(item.candidate, ctx) == Irrelevant(item.(backfill := false))
          && LeadsOneOf(s, ctx, Critical(ctx) - main.covered, item.candidate))
    && (forall c :: c in s && !Judge(c, ctx).Irrelevant? ==>
          && (c.id in st.omitted <==> c.id in main.omitted)
          && (c.id in main.omitted ==> st.omitted[c.id] == main.omitted[c.id]))
  }

  lemma BackfillIsBackfilled(main: State, st: State, s: set<Candidate>, ctx: Context, need: string)
    requires UniqueIds(s) && Backfilled(main, st, s, ctx) && need in Critical(ctx) - main.covered
    ensures Backfilled(main, Backfill(st, Leader(s, ctx, need), ctx), s, ctx)
  {
    HeadIsIn(s, ctx, need);
    var head := Leader(s, ctx, need);
    if head.Some? {
      var best := head.value;
      var r := Backfill(st, head, ctx);
      assert Judge(best.candidate, ctx) == Irrelevant(best) && !best.backfill;
      assert Leads(s, ctx, need, best.candidate);
      forall c | c in s && !Judge(c, ctx).Irrelevant? ensures c.id != best.candidate.id {
      }
      assert r.selected == st.selected || r.selected == st.selected + [best.(backfill := true)];
    }
  }

  lemma {:induction false} BackfillsAreBackfilled(main: State, s: set<Candidate>, pending: seq<string>, n: nat, ctx: Context)
    requires UniqueIds(s) && n <= |pending| && forall need :: need in pending ==> need in Critical(ctx) - main.covered
    ensures Backfilled(main, BackfillUpTo(main, s, pending, n, ctx), s, ctx)
  {
    if n > 0 {
      BackfillsAreBackfilled(main, s, pending, n - 1, ctx);
      BackfillsStep(main, s, pending, n - 1, ctx);
      BackfillIsBackfilled(main, BackfillUpTo(main, s, pending, n - 1, ctx), s, ctx, pending[n - 1]);
    }
  }

  /** After the main loop: in order, from the ranked candidates, each of them in its place. */
  lemma MainPlacesAll(s: set<Candidate>, ctx: Context)
    requires UniqueIds(s)
    ensures Increasing(ByKey(RankKey(ctx)), AfterMain(s, ctx).selected)
    ensures forall item :: item in AfterMain(s, ctx).selected ==> item in RankedOf(s, ctx)
    ensures forall item {:trigger Placed(AfterMain(s, ctx), item, ctx)} ::
              item in RankedOf(s, ctx) ==> Placed(AfterMain(s, ctx), item, ctx)
  {
    RankedIsOfferable(s, ctx);
    var ranked := Sorted(RankKey(ctx), RankedOf(s, ctx));
    SortedNoRepeats(RankKey(ctx), RankedOf(s, ctx));
    MainSoFar(ranked, |ranked|, s, ctx);
    assert ranked[..|ranked|] == ranked;
    PlacedByIndex(AfterMain(s, ctx), ranked, RankedOf(s, ctx), ctx);
  }

  lemma PlacedByIndex(st: State, ranked: seq<Ranked>, all: set<Ranked>, ctx: Context)
    requires SoFar(st, ranked, |ranked|, ctx) && Elements(ranked) == all && ranked[..|ranked|] == ranked
    ensures forall item :: item in st.selected ==> item in all
    ensures forall item {:trigger Placed(st, item, ctx)} :: item in all ==> Placed(st, item, ctx)
  {
    forall item | item in st.selected ensures item in all {
      assert item in Elements(ranked);
    }
    forall item {:trigger Placed(st, item, ctx)} | item in all ensures Placed(st, item, ctx) {
      assert item in Elements(ranked);
      var k :| 0 <= k < |ranked| && ranked[k] == item;
      assert Placed(st, ranked[k], ctx);
    }
  }

  lemma DecisionIsBackfilled(s: set<Candidate>, ctx: Context)
    requires UniqueIds(s)
    ensures Backfilled(AfterMain(s, ctx), Decision(s, ctx), s, ctx)
  {
    var main := AfterMain(s, ctx);
    SortedNoRepeats(NeedKey, Critical(ctx) - main.covered);
    forall need | need in Pending(main, ctx) ensures need in Critical(ctx) - main.covered {
      assert need in Elements(Pending(main, ctx));
    }
    BackfillsAreBackfilled(main, s, Pending(main, ctx), |Pending(main, ctx)|, ctx);
  }

  // ---- The account of every candidate ----

  ghost predicate OmittedFor(st: State, c: Candidate, reason: Reason) {
    c.id in st.omitted && st.omitted[c.id] == reason
  }

  /** Selected in the main loop, with the score that its words and needs give it. */
  ghost predicate SelectedByRank(st: State, c: Candidate, ctx: Context) {
    Ranked(c, NeedsOf(c, ctx), if ctx.lexical.None? then ScoreWithoutTexts(c, ctx) else ScoreWithTexts(c, ctx), false) in st.selected
  }

  ghost predicate SelectedAsBackfill(st: State, c: Candidate, ctx: Context) {
    Ranked(c, NeedsOf(c, ctx), ScoreWithoutTexts(c, ctx), true) in st.selected
  }

  lemma SelectedWhere(s: set<Candidate>, ctx: Context, item: Ranked)
    requires UniqueIds(s) && item in Decision(s, ctx).selected
    ensures item in AfterMain(s, ctx).selected
         || (item.backfill && item.candidate in s && Judge(item.candidate, ctx) == Irrelevant(item.(backfill := false))
             && LeadsOneOf(s, ctx, Critical(ctx) - AfterMain(s, ctx).covered, item.candidate))
  {
    DecisionIsBackfilled(s, ctx);
    var main, final := AfterMain(s, ctx), Decision(s, ctx);
    var k :| 0 <= k < |final.selected| && final.selected[k] == item;
    if k < |main.selected| {
      assert main.selected[k] == item;
    }
  }

  lemma MainListsAll(s: set<Candidate>, ctx: Context, c: Candidate)
    requires UniqueIds(s) && c in s
    ensures Judge(c, ctx).Rejected? ==> OmittedFor(AfterMain(s, ctx), c, Judge(c, ctx).reason)
    ensures forall item :: item in AfterMain(s, ctx).selected ==> item.candidate.id !in AfterMain(s, ctx).omitted
  {
    RankedIsOfferable(s, ctx);
    var ranked := Sorted(RankKey(ctx), RankedOf(s, ctx));
    SortedNoRepeats(RankKey(ctx), RankedOf(s, ctx));
    MainKeepsApart(ranked, |ranked|, s, ctx);
  }

  /** A candidate that authority refuses is never selected and reported with authority's reason. */
  lemma RefusedAreReported(s: set<Candidate>, ctx: Context, c: Candidate)
    requires UniqueIds(s) && c in s && !Allowed(c, ctx)
    ensures !IsSelected(Decision(s, ctx), c)
    ensures OmittedFor(Decision(s, ctx), c, if HardStatus(c, ctx) then AUTHORITY_FILTERED else AUTHORITY_SCOPE_MISMATCH)
  {
    VerdictMeans(c, ctx);
    DecisionServes(s, ctx);
    MainListsAll(s, ctx, c);
    DecisionIsBackfilled(s, ctx);
  }

  /** An irrelevant candidate comes in by backfill only, and is reported as irrelevant unless it does. */
  lemma IrrelevantAreReported(s: set<Candidate>, ctx: Context, c: Candidate)
    requires UniqueIds(s) && c in s && Allowed(c, ctx) && !Relevant(c, ctx)
    ensures SelectedAsBackfill(Decision(s, ctx), c, ctx) || OmittedFor(Decision(s, ctx), c, INSUFFICIENT_TASK_RELEVANCE)
    ensures c.id in Decision(s, ctx).omitted ==> OmittedFor(Decision(s, ctx), c, INSUFFICIENT_TASK_RELEVANCE)
    ensures forall item :: item in Decision(s, ctx).selected && item.candidate == c ==> item.backfill
  {
    VerdictMeans(c, ctx);
    MainIsServed(s, ctx);
    MainListsOnce(s, ctx);
    var main := AfterMain(s, ctx);
    BackfillsList(s, ctx, main, Pending(main, ctx), |Pending(main, ctx)|, c);
    MainPlacesAll(s, ctx);
    forall item | item in Decision(s, ctx).selected && item.candidate == c
      ensures item == Ranked(c, NeedsOf(c, ctx), ScoreWithoutTexts(c, ctx), true)
    {
      SelectedWhere(s, ctx, item);
      assert item !in RankedOf(s, ctx);
    }
  }

  lemma PlacedFinally(s: set<Candidate>, ctx: Context, item: Ranked)
    requires UniqueIds(s) && Placed(AfterMain(s, ctx), item, ctx) && item.candidate in s && Judge(item.candidate, ctx).Ranks?
    ensures (item in Decision(s, ctx).selected && item.candidate.id !in Decision(s, ctx).omitted)
         || (OmittedFor(Decision(s, ctx), item.candidate, REDUNDANT_CLAIM) && RedundantAmong(AfterMain(s, ctx).selected, item, ctx))
         || (OmittedFor(Decision(s, ctx), item.candidate, DECISION_BUDGET) && |AfterMain(s, ctx).selected| >= ctx.maxSelected
             && AllBefore(AfterMain(s, ctx).selected, item, ctx))
  {
    DecisionIsBackfilled(s, ctx);
    MainListsAll(s, ctx, item.candidate);
    if item in AfterMain(s, ctx).selected {
      assert item in Decision(s, ctx).selected;
    }
  }

  /** Everything selected is better than the candidate: for a critical need first, then by score, retrieval score and id. */
  ghost predicate AllBetter(selected: seq<Ranked>, item: Ranked, ctx: Context) {
    forall other :: other in selected ==> !other.backfill && GoesBefore(other, item, ctx)
  }

  /**
   A relevant candidate is selected with its score, or its claim is there already with all its critical needs, or the
   selection is full of better ones.
   */
  lemma RelevantAreReported(s: set<Candidate>, ctx: Context, c: Candidate)
    requires UniqueIds(s) && c in s && Allowed(c, ctx) && Relevant(c, ctx)
    ensures var st := Decision(s, ctx);
            var item := Ranked(c, NeedsOf(c, ctx), if ctx.lexical.None? then ScoreWithoutTexts(c, ctx) else ScoreWithTexts(c, ctx), false);
            || (item in st.selected && c.id !in st.omitted)
            || (OmittedFor(st, c, REDUNDANT_CLAIM) && RedundantAmong(st.selected, item, ctx))
            || (OmittedFor(st, c, DECISION_BUDGET) && |st.selected| == ctx.maxSelected && AllBetter(st.selected, item, ctx))
  {
    VerdictMeans(c, ctx);
    var item := Judge(c, ctx).item;
    assert item in RankedOf(s, ctx);
    MainPlacesAll(s, ctx);
    assert Placed(AfterMain(s, ctx), item, ctx);
    PlacedFinally(s, ctx, item);
    DecisionIsBackfilled(s, ctx);
    DecisionServes(s, ctx);
    var main, st := AfterMain(s, ctx), Decision(s, ctx);
    if OmittedFor(st, c, REDUNDANT_CLAIM) && RedundantAmong(main.selected, item, ctx) {
      RedundancyStays(main.selected, st.selected, item, ctx);
    } else if OmittedFor(st, c, DECISION_BUDGET) && |main.selected| >= ctx.maxSelected && AllBefore(main.selected, item, ctx) {
      assert st.selected == main.selected;
      BeforeIsBetter(s, ctx, item);
    }
  }

  lemma RedundancyStays(a: seq<Ranked>, b: seq<Ranked>, item: Ranked, ctx: Context)
    requires a <= b && RedundantAmong(a, item, ctx)
    ensures RedundantAmong(b, item, ctx)
  {
    assert forall other :: other in a ==> other in b;
    forall need | need in Critical(ctx) * item.needs ensures Covers(b, need) {
      var i :| i in a && need in i.needs;
      assert i in b;
    }
  }

  lemma BeforeIsBetter(s: set<Candidate>, ctx: Context, item: Ranked)
    requires UniqueIds(s) && item.needs == NeedsOf(item.candidate, ctx) && AllBefore(AfterMain(s, ctx).selected, item, ctx)
    ensures AllBetter(AfterMain(s, ctx).selected, item, ctx)
  {
    MainPlacesAll(s, ctx);
    forall other | other in AfterMain(s, ctx).selected ensures !other.backfill && GoesBefore(other, item, ctx) {
      assert other in RankedOf(s, ctx);
      assert ByKey(RankKey(ctx))(other, item);
      OrderMeans(other, item, ctx);
    }
  }

  /** What the main loop selected comes first and in order; what the backfill brought back comes after it. */
  lemma SelectionIsOrdered(s: set<Candidate>, ctx: Context, i: nat, j: nat)
    requires UniqueIds(s) && i < j < |Decision(s, ctx).selected|
    ensures var selected := Decision(s, ctx).selected;
            && (selected[i].backfill ==> selected[j].backfill)
            && (!selected[j].backfill ==> GoesBefore(selected[i], selected[j], ctx))
  {
    DecisionIsBackfilled(s, ctx);
    MainPlacesAll(s, ctx);
    var main, selected := AfterMain(s, ctx).selected, Decision(s, ctx).selected;
    if j < |main| {
      assert selected[i] == main[i] && selected[j] == main[j];
      assert main[i] in RankedOf(s, ctx) && main[j] in RankedOf(s, ctx);
      assert ByKey(RankKey(ctx))(main[i], main[j]);
      OrderMeans(main[i], main[j], ctx);
    }
  }

  // ---- Relevance ----

  /** Of two candidates without a critical record, the one with at least as many words is kept whenever the other is. */
  lemma RelevanceIsMonotone(s: set<Candidate>, ctx: Context, a: Candidate, b: Candidate)
    requires UniqueIds(s) && a in s && b in s && Allowed(a, ctx) && ctx.lexical.Some?
    requires !NamesCriticalRecord(b, ctx) && Lexical(a, ctx) >= Lexical(b, ctx)
    requires exists item :: item in Decision(s, ctx).selected && item.candidate == b && !item.backfill
    ensures !OmittedFor(Decision(s, ctx), a, INSUFFICIENT_TASK_RELEVANCE)
  {
    if !Allowed(b, ctx) {
      RefusedAreReported(s, ctx, b);
    } else if !Relevant(b, ctx) {
      IrrelevantAreReported(s, ctx, b);
    }
    RelevantAreReported(s, ctx, a);
  }

  /** The candidate with the most words of all texts is never reported as irrelevant. */
  lemma BestIsRelevant(s: set<Candidate>, ctx: Context, c: Candidate)
    requires UniqueIds(s) && c in s && Allowed(c, ctx) && Lexical(c, ctx) == ctx.best > 0
    ensures !OmittedFor(Decision(s, ctx), c, INSUFFICIENT_TASK_RELEVANCE)
  {
    RelevantAreReported(s, ctx, c);
  }

  /** Every candidate makes a claim of its own. */
  ghost predicate DistinctClaims(s: set<Candidate>, ctx: Context) {
    forall a, b :: a in s && b in s && ClaimOf(a, ctx) == ClaimOf(b, ctx) ==> a == b
  }

  function CandidatesOf(selected: seq<Ranked>): seq<Candidate> {
    seq(|selected|, (i: nat) requires i < |selected| => selected[i].candidate)
  }

  lemma SelectedAreFewer(selected: seq<Ranked>, s: set<Candidate>, c: Candidate, ctx: Context)
    requires UniqueIds(s) && c in s && forall item :: item in selected ==> item in RankedOf(s, ctx) && item.candidate in s && item.candidate != c
    requires NoRepeats(selected)
    ensures |selected| < |s|
  {
    var cs := CandidatesOf(selected);
    forall i, j {:trigger cs[i], cs[j]} | 0 <= i < j < |cs| ensures cs[i] != cs[j] {
      assert selected[i] in selected && selected[j] in selected;
      assert selected[i] != selected[j];
    }
    NoRepeatsCounts(cs);
    forall x | x in Elements(cs) ensures x in s - {c} {
      var i :| 0 <= i < |cs| && cs[i] == x;
      assert selected[i] in selected;
    }
    SubsetSize(Elements(cs), s - {c});
  }

  lemma IncreasingHasNoRepeats(selected: seq<Ranked>, s: set<Candidate>, ctx: Context)
    requires UniqueIds(s) && Increasing(ByKey(RankKey(ctx)), selected)
    ensures NoRepeats(selected)
  {
    ByKeyOrders(RankKey(ctx), {});
    forall i, j {:trigger selected[i], selected[j]} | 0 <= i < j < |selected| ensures selected[i] != selected[j] {
      assert ByKey(RankKey(ctx))(selected[i], selected[j]);
    }
  }

  /**
   With room for all and no claim made twice, the main loop selects exactly the candidates that authority allows and
   that reach 35 percent of the best words or name a critical record.
   */
  lemma SelectedExactlyRelevant(s: set<Candidate>, ctx: Context, c: Candidate)
    requires UniqueIds(s) && c in s && DistinctClaims(s, ctx) && |s| <= ctx.maxSelected
    ensures (exists item :: item in Decision(s, ctx).selected && item.candidate == c && !item.backfill)
            <==> Allowed(c, ctx) && Relevant(c, ctx)
  {
    if !Allowed(c, ctx) {
      RefusedAreReported(s, ctx, c);
    } else if !Relevant(c, ctx) {
      IrrelevantAreReported(s, ctx, c);
    } else {
      RelevantIsSelected(s, ctx, c);
    }
  }

  lemma RelevantIsSelected(s: set<Candidate>, ctx: Context, c: Candidate)
    requires UniqueIds(s) && c in s && DistinctClaims(s, ctx) && |s| <= ctx.maxSelected && Allowed(c, ctx) && Relevant(c, ctx)
    ensures exists item :: item in Decision(s, ctx).selected && item.candidate == c && !item.backfill
  {
    VerdictMeans(c, ctx);
    var item := Judge(c, ctx).item;
    assert item in RankedOf(s, ctx);
    MainPlacesAll(s, ctx);
    assert Placed(AfterMain(s, ctx), item, ctx);
    var main := AfterMain(s, ctx);
    IncreasingHasNoRepeats(main.selected, s, ctx);
    if item !in main.selected {
      forall other | other in main.selected ensures other.candidate in s && other.candidate != c {
        assert other in RankedOf(s, ctx);
      }
      SelectedAreFewer(main.selected, s, c, ctx);
    }
    DecisionIsBackfilled(s, ctx);
    assert item in Decision(s, ctx).selected;
  }

  // ---- The candidates brought back ----

  /** A candidate that the relevance filter dropped although it matches this need. */
  predicate Dormant(c: Candidate, ctx: Context, need: string) {
    Allowed(c, ctx) && !Relevant(c, ctx) && need in NeedsOf(c, ctx)
  }

  /** By score without texts, then retrieval score, then id. */
  predicate BetterBackfill(a: Candidate, b: Candidate, ctx: Context) {
    var x, y := ScoreWithoutTexts(a, ctx), ScoreWithoutTexts(b, ctx);
    x > y || (x == y && a.retrieval > b.retrieval) || (x == y && a.retrieval == b.retrieval && StringLess(a.id, b.id))
  }

  lemma LeaderIsBest(s: set<Candidate>, ctx: Context, need: string, c: Candidate, other: Candidate)
    requires UniqueIds(s) && Leads(s, ctx, need, c) && need in Critical(ctx) && other in s && other != c && Dormant(other, ctx, need)
    ensures Dormant(c, ctx, need) && BetterBackfill(c, other, ctx)
  {
    HeadIsIn(s, ctx, need);
    VerdictMeans(c, ctx);
    VerdictMeans(other, ctx);
    OnePerCandidate(s, ctx, need);
    var pool := Pool(s, ctx, need);
    assert Judge(other, ctx).parked in pool;
    var order := Sorted(PoolKey, pool);
    SortedNoRepeats(PoolKey, pool);
    assert Judge(other, ctx).parked in Elements(order);
    var k :| 0 <= k < |order| && order[k] == Judge(other, ctx).parked;
    assert k > 0 && ByKey(PoolKey)(order[0], order[k]);
  }

  /** The candidate is the best that the filter dropped for this critical need, and no other selection by rank meets it. */
  ghost predicate BroughtBackFor(s: set<Candidate>, ctx: Context, selected: seq<Ranked>, c: Candidate, need: string) {
    && need in Critical(ctx) && Dormant(c, ctx, need)
    && (forall other :: other in selected && !other.backfill ==> need !in other.needs)
    && (forall d :: d in s && d != c && Dormant(d, ctx, need) ==> BetterBackfill(c, d, ctx))
  }

  lemma LedIsBroughtBack(s: set<Candidate>, ctx: Context, c: Candidate, need: string)
    requires UniqueIds(s) && need in Critical(ctx) - AfterMain(s, ctx).covered && Leads(s, ctx, need, c)
    ensures BroughtBackFor(s, ctx, Decision(s, ctx).selected, c, need)
  {
    var main := AfterMain(s, ctx);
    MainIsServed(s, ctx);
    HeadIsIn(s, ctx, need);
    VerdictMeans(c, ctx);
    forall other | other in Decision(s, ctx).selected && !other.backfill ensures need !in other.needs {
      SelectedWhere(s, ctx, other);
      assert other in main.selected;
    }
    forall d | d in s && d != c && Dormant(d, ctx, need) ensures BetterBackfill(c, d, ctx) {
      LeaderIsBest(s, ctx, need, c, d);
    }
  }

  lemma MainNeverBackfills(s: set<Candidate>, ctx: Context, item: Ranked)
    requires UniqueIds(s) && item in AfterMain(s, ctx).selected
    ensures !item.backfill
  {
    MainPlacesAll(s, ctx);
    assert item in RankedOf(s, ctx);
  }

  /** A candidate is brought back only for a critical need that the main loop left open, as the best that the filter dropped for it. */
  lemma BackfillIsBest(s: set<Candidate>, ctx: Context, item: Ranked)
    requires UniqueIds(s) && item in Decision(s, ctx).selected && item.backfill
    ensures exists need :: BroughtBackFor(s, ctx, Decision(s, ctx).selected, item.candidate, need)
  {
    SelectedWhere(s, ctx, item);
    if item in AfterMain(s, ctx).selected {
      MainNeverBackfills(s, ctx, item);
    }
    var need :| need in Critical(ctx) - AfterMain(s, ctx).covered && Leads(s, ctx, need, item.candidate);
    LedIsBroughtBack(s, ctx, item.candidate, need);
  }
}
