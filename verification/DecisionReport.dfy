/**
 What the decision reports: when a claim is repeated, and when one candidate is on both lists.
 */
module DecisionReport {
  import opened Results
  import opened Ordering
  import opened KeyedSorting
  import opened RetrievalDecision
  import opened DecisionCoverage

  // ---- Repeated claims ----

  lemma NextIsPurposeful(start: State, ranked: seq<Ranked>, n: nat, s: set<Candidate>, ctx: Context)
    requires n < |ranked| && Truthful(MainUpTo(start, ranked, n, ctx), s, ctx)
    requires Purposeful(MainUpTo(start, ranked, n, ctx).selected, ctx)
    ensures Purposeful(MainUpTo(start, ranked, n + 1, ctx).selected, ctx)
  {
    MainStep(start, ranked, n, ctx);
    TryIsPurposeful(MainUpTo(start, ranked, n, ctx), ranked[n], s, ctx);
  }

  lemma {:induction false} MainIsPurposeful(start: State, ranked: seq<Ranked>, n: nat, s: set<Candidate>, ctx: Context)
    requires n <= |ranked| && Truthful(start, s, ctx) && Offerable(ranked, s, ctx) && Purposeful(start.selected, ctx)
    ensures Purposeful(MainUpTo(start, ranked, n, ctx).selected, ctx)
  {
    if n > 0 {
      MainIsPurposeful(start, ranked, n - 1, s, ctx);
      MainIsTruthful(start, ranked, n - 1, s, ctx);
      NextIsPurposeful(start, ranked, n - 1, s, ctx);
    }
  }

  lemma TryIsPurposeful(st: State, item: Ranked, s: set<Candidate>, ctx: Context)
    requires Truthful(st, s, ctx) && Purposeful(st.selected, ctx)
    ensures Purposeful(TrySelect(st, item, ctx).selected, ctx)
  {
    if Refusal(st, item, ctx).None? {
      TakeIsPurposeful(st, item, s, ctx);
    }
  }

  lemma BackfillIsPurposeful(st: State, head: Option<Ranked>, s: set<Candidate>, ctx: Context)
    requires Truthful(st, s, ctx) && Purposeful(st.selected, ctx)
    ensures Purposeful(Backfill(st, head, ctx).selected, ctx)
  {
    if head.Some? {
      var best := head.value;
      if Refusal(st, best, ctx).None? {
        TakeIsPurposeful(st, best.(backfill := true), s, ctx);
      }
    }
  }

  lemma NextBackfillIsPurposeful(start: State, s: set<Candidate>, pending: seq<string>, n: nat, ctx: Context)
    requires UniqueIds(s) && n < |pending| && Truthful(BackfillUpTo(start, s, pending, n, ctx), s, ctx)
    requires Purposeful(BackfillUpTo(start, s, pending, n, ctx).selected, ctx)
    ensures Purposeful(BackfillUpTo(start, s, pending, n + 1, ctx).selected, ctx)
  {
    BackfillsStep(start, s, pending, n, ctx);
    BackfillIsPurposeful(BackfillUpTo(start, s, pending, n, ctx), Leader(s, ctx, pending[n]), s, ctx);
  }

  lemma {:induction false} BackfillsArePurposeful(start: State, s: set<Candidate>, pending: seq<string>, n: nat, ctx: Context)
    requires UniqueIds(s) && n <= |pending| && Truthful(start, s, ctx) && Purposeful(start.selected, ctx)
    ensures Purposeful(BackfillUpTo(start, s, pending, n, ctx).selected, ctx)
  {
    if n > 0 {
      BackfillsArePurposeful(start, s, pending, n - 1, ctx);
      BackfillsAreTruthful(start, s, pending, n - 1, ctx);
      NextBackfillIsPurposeful(start, s, pending, n - 1, ctx);
    }
  }

  /** In the whole decision a claim appears again only with a critical need that nothing before it covers. */
  lemma ClaimsRepeatOnlyForNeeds(s: set<Candidate>, ctx: Context)
    requires UniqueIds(s)
    ensures Purposeful(Decision(s, ctx).selected, ctx)
  {
    RankedIsOfferable(s, ctx);
    MainIsServed(s, ctx);
    var ranked := Sorted(RankKey(ctx), RankedOf(s, ctx));
    MainIsPurposeful(State([], {}, {}, Dropped(s, ctx)), ranked, |ranked|, s, ctx);
    var main := AfterMain(s, ctx);
    BackfillsArePurposeful(main, s, Pending(main, ctx), |Pending(main, ctx)|, ctx);
  }

  // ---- Both lists ----

  ghost predicate IsSelected(st: State, c: Candidate) {
    exists item :: item in st.selected && item.candidate == c
  }

  ghost predicate OnBothLists(st: State, c: Candidate) {
    IsSelected(st, c) && c.id in st.omitted
  }

  /** Omissions of irrelevant candidates: absent ones are listed, and always as irrelevant. */
  ghost predicate IrrelevantListed(st: State, s: set<Candidate>, ctx: Context) {
    forall c :: c in s && Judge(c, ctx).Irrelevant? ==>
      && (c.id in st.omitted ==> st.omitted[c.id] == INSUFFICIENT_TASK_RELEVANCE)
      && (!IsSelected(st, c) ==> c.id in st.omitted)
  }

  /** During the main loop an offered candidate goes to one list. */
  ghost predicate MainSeparates(st: State, ranked: seq<Ranked>, n: nat, s: set<Candidate>, ctx: Context)
    requires UniqueIds(s) && n <= |ranked|
  {
    && (forall item :: item in st.selected ==> item in ranked[..n] && item.candidate.id !in st.omitted)
    && (forall id :: id in st.omitted ==>
          id in Dropped(s, ctx) || exists k {:trigger ranked[k]} :: 0 <= k < n && ranked[k].candidate.id == id)
    && (forall id :: id in Dropped(s, ctx) ==> id in st.omitted && st.omitted[id] == Dropped(s, ctx)[id])
  }

  lemma {:induction false} MainKeepsApart(ranked: seq<Ranked>, n: nat, s: set<Candidate>, ctx: Context)
    requires UniqueIds(s) && n <= |ranked| && NoRepeats(ranked) && Offerable(ranked, s, ctx)
    ensures MainSeparates(MainUpTo(State([], {}, {}, Dropped(s, ctx)), ranked, n, ctx), ranked, n, s, ctx)
  {
    if n > 0 {
      MainKeepsApart(ranked, n - 1, s, ctx);
      MainStep(State([], {}, {}, Dropped(s, ctx)), ranked, n - 1, ctx);
      OfferKeepsApart(MainUpTo(State([], {}, {}, Dropped(s, ctx)), ranked, n - 1, ctx), ranked, n, s, ctx);
    }
  }

  lemma RankedIdsDiffer(ranked: seq<Ranked>, n: nat, s: set<Candidate>, ctx: Context)
    requires UniqueIds(s) && 0 < n <= |ranked| && NoRepeats(ranked) && Offerable(ranked, s, ctx)
    ensures forall k {:trigger ranked[k]} :: 0 <= k < n - 1 ==> ranked[k].candidate.id != ranked[n - 1].candidate.id
    ensures ranked[n - 1].candidate.id !in Dropped(s, ctx)
  {
    var item := ranked[n - 1];
    assert item in ranked && Judge(item.candidate, ctx).Ranks?;
    forall k {:trigger ranked[k]} | 0 <= k < n - 1 ensures ranked[k].candidate.id != item.candidate.id {
      assert ranked[k] in ranked && ranked[k] != item;
    }
  }

  lemma OfferIsNew(st: State, ranked: seq<Ranked>, n: nat, s: set<Candidate>, ctx: Context)
    requires UniqueIds(s) && 0 < n <= |ranked| && NoRepeats(ranked) && Offerable(ranked, s, ctx)
    requires MainSeparates(st, ranked, n - 1, s, ctx)
    ensures ranked[n - 1].candidate.id !in st.omitted && ranked[n - 1].candidate.id !in Dropped(s, ctx)
    ensures forall other :: other in st.selected ==> other.candidate.id != ranked[n - 1].candidate.id
  {
    var item := ranked[n - 1];
    RankedIdsDiffer(ranked, n, s, ctx);
    forall other | other in st.selected ensures other.candidate.id != item.candidate.id {
      var k :| 0 <= k < n - 1 && ranked[k] == other;
    }
  }

  lemma OfferKeepsApart(st: State, ranked: seq<Ranked>, n: nat, s: set<Candidate>, ctx: Context)
    requires UniqueIds(s) && 0 < n <= |ranked| && NoRepeats(ranked) && Offerable(ranked, s, ctx)
    requires MainSeparates(st, ranked, n - 1, s, ctx)
    ensures MainSeparates(TrySelect(st, ranked[n - 1], ctx), ranked, n, s, ctx)
  {
    var item := ranked[n - 1];
    var r := TrySelect(st, item, ctx);
    OfferIsNew(st, ranked, n, s, ctx);
    assert ranked[..n] == ranked[..n - 1] + [item];
    forall id | id in r.omitted
      ensures id in Dropped(s, ctx) || exists k {:trigger ranked[k]} :: 0 <= k < n && ranked[k].candidate.id == id
    {
      if id == item.candidate.id {
        assert ranked[n - 1].candidate.id == id;
      }
    }
  }

  lemma MainListsOnce(s: set<Candidate>, ctx: Context)
    requires UniqueIds(s)
    ensures IrrelevantListed(AfterMain(s, ctx), s, ctx)
    ensures forall c :: c in s ==> !OnBothLists(AfterMain(s, ctx), c)
  {
    RankedIsOfferable(s, ctx);
    var ranked := Sorted(RankKey(ctx), RankedOf(s, ctx));
    SortedNoRepeats(RankKey(ctx), RankedOf(s, ctx));
    MainKeepsApart(ranked, |ranked|, s, ctx);
    forall c | c in s && Judge(c, ctx).Irrelevant?
      ensures c.id in Dropped(s, ctx) && Dropped(s, ctx)[c.id] == INSUFFICIENT_TASK_RELEVANCE
    {
    }
  }

  /** A need that is still on the backfill list is headed by a candidate that was brought back before. */
  ghost predicate HeadsAgain(start: State, s: set<Candidate>, pending: seq<string>, n: nat, ctx: Context, c: Candidate)
    requires UniqueIds(s) && n <= |pending|
  {
    exists j {:trigger BackfillUpTo(start, s, pending, j, ctx)} ::
      0 <= j < n && IsSelected(BackfillUpTo(start, s, pending, j, ctx), c) && Leads(s, ctx, pending[j], c)
  }

  ghost predicate Leads(s: set<Candidate>, ctx: Context, need: string, c: Candidate)
    requires UniqueIds(s)
  {
    Leader(s, ctx, need).Some? && Leader(s, ctx, need).value.candidate == c
  }

  /** One backfill puts a candidate on both lists exactly if it leads and is selected already. */
  lemma BackfillLists(st: State, s: set<Candidate>, ctx: Context, need: string, c: Candidate)
    requires UniqueIds(s) && Truthful(st, s, ctx) && IrrelevantListed(st, s, ctx) && c in s
    ensures var r := Backfill(st, Leader(s, ctx, need), ctx);
            && (OnBothLists(r, c) <==> OnBothLists(st, c) || (IsSelected(st, c) && Leads(s, ctx, need, c)))
            && (Judge(c, ctx).Irrelevant? && c.id in r.omitted ==> r.omitted[c.id] == INSUFFICIENT_TASK_RELEVANCE)
            && (Judge(c, ctx).Irrelevant? && !IsSelected(r, c) ==> c.id in r.omitted)
            && (IsSelected(st, c) ==> IsSelected(r, c))
  {
    HeadIsIn(s, ctx, need);
    var head := Leader(s, ctx, need);
    if head.Some? {
      var best := head.value;
      var r := Backfill(st, head, ctx);
      if Refusal(st, best, ctx).None? {
        assert r.selected == st.selected + [best.(backfill := true)];
        assert IsSelected(r, c) <==> IsSelected(st, c) || c == best.candidate by {
          if c == best.candidate {
            assert best.(backfill := true) in r.selected;
          }
        }
      } else {
        assert r.selected == st.selected;
      }
    }
  }

  lemma NextBackfillLists(s: set<Candidate>, ctx: Context, start: State, pending: seq<string>, n: nat, c: Candidate)
    requires UniqueIds(s) && n < |pending| && c in s
    requires Truthful(BackfillUpTo(start, s, pending, n, ctx), s, ctx)
    requires IrrelevantListed(BackfillUpTo(start, s, pending, n, ctx), s, ctx)
    ensures IrrelevantListed(BackfillUpTo(start, s, pending, n + 1, ctx), s, ctx)
    ensures OnBothLists(BackfillUpTo(start, s, pending, n + 1, ctx), c) <==>
              || OnBothLists(BackfillUpTo(start, s, pending, n, ctx), c)
              || (IsSelected(BackfillUpTo(start, s, pending, n, ctx), c) && Leads(s, ctx, pending[n], c))
  {
    var before := BackfillUpTo(start, s, pending, n, ctx);
    BackfillsStep(start, s, pending, n, ctx);
    forall d | d in s
      ensures var r := BackfillUpTo(start, s, pending, n + 1, ctx);
              && (Judge(d, ctx).Irrelevant? && d.id in r.omitted ==> r.omitted[d.id] == INSUFFICIENT_TASK_RELEVANCE)
              && (Judge(d, ctx).Irrelevant? && !IsSelected(r, d) ==> d.id in r.omitted)
    {
      BackfillLists(before, s, ctx, pending[n], d);
    }
    BackfillLists(before, s, ctx, pending[n], c);
  }

  /** After n needs the overlaps are those of candidates that headed a need again. */
  ghost predicate ListedSoFar(start: State, s: set<Candidate>, pending: seq<string>, n: nat, ctx: Context, c: Candidate)
    requires UniqueIds(s) && n <= |pending|
  {
    && IrrelevantListed(BackfillUpTo(start, s, pending, n, ctx), s, ctx)
    && (OnBothLists(BackfillUpTo(start, s, pending, n, ctx), c) <==> HeadsAgain(start, s, pending, n, ctx, c))
  }

  lemma ListedStep(s: set<Candidate>, ctx: Context, start: State, pending: seq<string>, n: nat, c: Candidate)
    requires UniqueIds(s) && n < |pending| && c in s
    requires Truthful(BackfillUpTo(start, s, pending, n, ctx), s, ctx) && ListedSoFar(start, s, pending, n, ctx, c)
    ensures ListedSoFar(start, s, pending, n + 1, ctx, c)
  {
    NextBackfillLists(s, ctx, start, pending, n, c);
    HeadsAgainStep(s, ctx, start, pending, n + 1, c);
  }

  lemma {:induction false} BackfillsList(s: set<Candidate>, ctx: Context, start: State, pending: seq<string>, n: nat, c: Candidate)
    requires UniqueIds(s) && n <= |pending| && c in s
    requires Truthful(start, s, ctx) && IrrelevantListed(start, s, ctx) && !OnBothLists(start, c)
    ensures ListedSoFar(start, s, pending, n, ctx, c)
  {
    if n > 0 {
      BackfillsList(s, ctx, start, pending, n - 1, c);
      BackfillsAreTruthful(start, s, pending, n - 1, ctx);
      ListedStep(s, ctx, start, pending, n - 1, c);
    }
  }

  lemma HeadsAgainStep(s: set<Candidate>, ctx: Context, start: State, pending: seq<string>, n: nat, c: Candidate)
    requires UniqueIds(s) && 0 < n <= |pending|
    ensures HeadsAgain(start, s, pending, n, ctx, c) <==>
              || HeadsAgain(start, s, pending, n - 1, ctx, c)
              || (IsSelected(BackfillUpTo(start, s, pending, n - 1, ctx), c) && Leads(s, ctx, pending[n - 1], c))
  {
  }

  // ---- In terms of the needs a candidate leads ----

  /** Two of the first n needs left over are led by the candidate. */
  ghost predicate LeadsTwo(s: set<Candidate>, ctx: Context, pending: seq<string>, n: nat, c: Candidate)
    requires UniqueIds(s) && n <= |pending|
  {
    exists i, j {:trigger pending[i], pending[j]} ::
      0 <= i < j < n && Leads(s, ctx, pending[i], c) && Leads(s, ctx, pending[j], c)
  }

  lemma BackfillSelects(st: State, s: set<Candidate>, ctx: Context, need: string, c: Candidate)
    requires UniqueIds(s)
    ensures Leads(s, ctx, need, c) ==> Judge(c, ctx) == Irrelevant(Leader(s, ctx, need).value)
    ensures IsSelected(Backfill(st, Leader(s, ctx, need), ctx), c) <==>
              || IsSelected(st, c)
              || (Leads(s, ctx, need, c) && Refusal(st, Leader(s, ctx, need).value, ctx).None?)
  {
    HeadIsIn(s, ctx, need);
    var head := Leader(s, ctx, need);
    if head.Some? && Refusal(st, head.value, ctx).None? {
      var r := Backfill(st, head, ctx);
      assert r.selected == st.selected + [head.value.(backfill := true)];
      assert head.value.(backfill := true) in r.selected;
      assert IsSelected(st, c) ==> IsSelected(r, c);
    }
  }

  lemma {:induction false} SelectedWasLed(start: State, s: set<Candidate>, pending: seq<string>, n: nat, ctx: Context, c: Candidate)
    requires UniqueIds(s) && n <= |pending| && !IsSelected(start, c)
    requires IsSelected(BackfillUpTo(start, s, pending, n, ctx), c)
    ensures exists i {:trigger pending[i]} :: 0 <= i < n && Leads(s, ctx, pending[i], c)
  {
    if n > 0 {
      BackfillsStep(start, s, pending, n - 1, ctx);
      BackfillSelects(BackfillUpTo(start, s, pending, n - 1, ctx), s, ctx, pending[n - 1], c);
      if IsSelected(BackfillUpTo(start, s, pending, n - 1, ctx), c) {
        SelectedWasLed(start, s, pending, n - 1, ctx, c);
      }
    }
  }

  lemma {:induction false} BackfillsGrow(start: State, s: set<Candidate>, pending: seq<string>, i: nat, n: nat, ctx: Context)
    requires UniqueIds(s) && i <= n <= |pending| && Truthful(start, s, ctx)
    ensures Grows(BackfillUpTo(start, s, pending, i, ctx), BackfillUpTo(start, s, pending, n, ctx))
    decreases n
  {
    if i < n {
      BackfillsGrow(start, s, pending, i, n - 1, ctx);
      BackfillsAreTruthful(start, s, pending, n - 1, ctx);
      NextBackfillServes(start, s, pending, n - 1, ctx);
    }
  }

  lemma RefusalStays(a: State, b: State, item: Ranked, ctx: Context)
    requires Grows(a, b) && Refusal(a, item, ctx).Some?
    ensures Refusal(b, item, ctx).Some?
  {
  }

  /** A candidate refused once is never brought back. */
  lemma {:induction false} RefusedForEver(
    start: State, s: set<Candidate>, pending: seq<string>, i: nat, n: nat, ctx: Context, c: Candidate)
    requires UniqueIds(s) && i <= n <= |pending| && Truthful(start, s, ctx) && Judge(c, ctx).Irrelevant?
    requires Refusal(BackfillUpTo(start, s, pending, i, ctx), Judge(c, ctx).parked, ctx).Some?
    requires !IsSelected(BackfillUpTo(start, s, pending, i, ctx), c)
    ensures !IsSelected(BackfillUpTo(start, s, pending, n, ctx), c)
    decreases n
  {
    if i < n {
      var before := BackfillUpTo(start, s, pending, n - 1, ctx);
      RefusedForEver(start, s, pending, i, n - 1, ctx, c);
      BackfillsGrow(start, s, pending, i, n - 1, ctx);
      RefusalStays(BackfillUpTo(start, s, pending, i, ctx), before, Judge(c, ctx).parked, ctx);
      BackfillsStep(start, s, pending, n - 1, ctx);
      BackfillSelects(before, s, ctx, pending[n - 1], c);
    }
  }

  lemma SelectedStays(a: State, b: State, c: Candidate)
    requires Grows(a, b) && IsSelected(a, c)
    ensures IsSelected(b, c)
  {
  }

  /** Among the first needs it leads, a candidate that ends up selected is selected at once. */
  lemma LedIsSelected(start: State, s: set<Candidate>, pending: seq<string>, i: nat, n: nat, ctx: Context, c: Candidate)
    requires UniqueIds(s) && i < n <= |pending| && Truthful(start, s, ctx) && Leads(s, ctx, pending[i], c)
    requires IsSelected(BackfillUpTo(start, s, pending, n, ctx), c)
    ensures IsSelected(BackfillUpTo(start, s, pending, i + 1, ctx), c)
  {
    BackfillsStep(start, s, pending, i, ctx);
    BackfillSelects(BackfillUpTo(start, s, pending, i, ctx), s, ctx, pending[i], c);
    if !IsSelected(BackfillUpTo(start, s, pending, i + 1, ctx), c) {
      RefusedForEver(start, s, pending, i, n, ctx, c);
    }
  }

  lemma AgainIsSecond(start: State, s: set<Candidate>, pending: seq<string>, n: nat, ctx: Context, c: Candidate)
    requires UniqueIds(s) && n <= |pending| && !IsSelected(start, c) && HeadsAgain(start, s, pending, n, ctx, c)
    ensures LeadsTwo(s, ctx, pending, n, c)
  {
    var j :| 0 <= j < n && IsSelected(BackfillUpTo(start, s, pending, j, ctx), c) && Leads(s, ctx, pending[j], c);
    SelectedWasLed(start, s, pending, j, ctx, c);
  }

  lemma SelectedBySecond(start: State, s: set<Candidate>, pending: seq<string>, i: nat, j: nat, n: nat, ctx: Context, c: Candidate)
    requires UniqueIds(s) && i < j < n <= |pending| && Truthful(start, s, ctx) && Leads(s, ctx, pending[i], c)
    requires IsSelected(BackfillUpTo(start, s, pending, n, ctx), c)
    ensures IsSelected(BackfillUpTo(start, s, pending, j, ctx), c)
  {
    LedIsSelected(start, s, pending, i, n, ctx, c);
    BackfillsGrow(start, s, pending, i + 1, j, ctx);
    SelectedStays(BackfillUpTo(start, s, pending, i + 1, ctx), BackfillUpTo(start, s, pending, j, ctx), c);
  }

  lemma SecondIsAgain(start: State, s: set<Candidate>, pending: seq<string>, n: nat, ctx: Context, c: Candidate)
    requires UniqueIds(s) && n <= |pending| && Truthful(start, s, ctx) && LeadsTwo(s, ctx, pending, n, c)
    requires IsSelected(BackfillUpTo(start, s, pending, n, ctx), c)
    ensures HeadsAgain(start, s, pending, n, ctx, c)
  {
    var i, j :| 0 <= i < j < n && Leads(s, ctx, pending[i], c) && Leads(s, ctx, pending[j], c);
    SelectedBySecond(start, s, pending, i, j, n, ctx, c);
  }

  /** What leads a need is irrelevant, and nothing irrelevant is selected before the backfill. */
  lemma LeadersComeLater(s: set<Candidate>, ctx: Context, c: Candidate)
    requires UniqueIds(s)
    ensures forall need :: Leads(s, ctx, need, c) ==> Judge(c, ctx).Irrelevant?
    ensures Judge(c, ctx).Irrelevant? ==> !IsSelected(AfterMain(s, ctx), c)
  {
    forall need | Leads(s, ctx, need, c) ensures Judge(c, ctx).Irrelevant? {
      HeadIsIn(s, ctx, need);
    }
    RankedIsOfferable(s, ctx);
    var ranked := Sorted(RankKey(ctx), RankedOf(s, ctx));
    SortedNoRepeats(RankKey(ctx), RankedOf(s, ctx));
    MainKeepsApart(ranked, |ranked|, s, ctx);
    assert ranked[..|ranked|] == ranked;
  }

  /** The final report lists a selected candidate as omitted too exactly if it leads two of the needs the main loop left over. */
  lemma BothListsExactly(s: set<Candidate>, ctx: Context, c: Candidate)
    requires UniqueIds(s) && c in s
    ensures var pending := Pending(AfterMain(s, ctx), ctx);
            OnBothLists(Decision(s, ctx), c)
            <==> IsSelected(Decision(s, ctx), c) && LeadsTwo(s, ctx, pending, |pending|, c)
  {
    MainIsServed(s, ctx);
    MainListsOnce(s, ctx);
    var main := AfterMain(s, ctx);
    var pending := Pending(main, ctx);
    BackfillsList(s, ctx, main, pending, |pending|, c);
    LeadersComeLater(s, ctx, c);
    if OnBothLists(Decision(s, ctx), c) {
      AgainIsSecond(main, s, pending, |pending|, ctx, c);
    } else if IsSelected(Decision(s, ctx), c) && LeadsTwo(s, ctx, pending, |pending|, c) {
      SecondIsAgain(main, s, pending, |pending|, ctx, c);
    }
  }

  /** If no candidate leads two critical needs, nothing is on both lists. */
  lemma DistinctLeadersSeparate(s: set<Candidate>, ctx: Context, c: Candidate)
    requires UniqueIds(s) && c in s
    requires forall a, b :: a in Critical(ctx) && b in Critical(ctx) && Leads(s, ctx, a, c) && Leads(s, ctx, b, c) ==> a == b
    ensures !OnBothLists(Decision(s, ctx), c)
  {
    BothListsExactly(s, ctx, c);
    var main := AfterMain(s, ctx);
    var pending := Pending(main, ctx);
    SortedNoRepeats(NeedKey, Critical(ctx) - main.covered);
    forall i | 0 <= i < |pending| ensures pending[i] in Critical(ctx) {
      assert pending[i] in Elements(pending);
    }
  }

  // ---- It happens ----

  const CONSTRAINTS := "need_constraints"
  const STATES := "need_state"

  /** One irrelevant candidate that matches two critical needs. */
  function SharedCandidate(): Candidate {
    Candidate("x", None, false, "requirement", {}, None, 0)
  }

  function SharedContext(): Context {
    Context({Need(CONSTRAINTS, CONSTRAINT, true, None), Need(STATES, STATE, true, None)},
            map["x" := Authority("AUTHORITATIVE", None, "")], Some(map[]), 0, 1)
  }

  lemma SharedPool(need: string)
    requires need == CONSTRAINTS || need == STATES
    ensures UniqueIds({SharedCandidate()})
    ensures Leads({SharedCandidate()}, SharedContext(), need, SharedCandidate())
  {
    var x, ctx := SharedCandidate(), SharedContext();
    assert Need(CONSTRAINTS, CONSTRAINT, true, None) in ctx.needs && Need(STATES, STATE, true, None) in ctx.needs;
    assert CONSTRAINTS in NeedsOf(x, ctx) && STATES in NeedsOf(x, ctx);
    assert CONSTRAINTS in Critical(ctx) && STATES in Critical(ctx);
    assert LexicalOf(x, ctx) == 0;
    assert Judge(x, ctx).Irrelevant?;
    assert Judge(x, ctx).parked in Pool({x}, ctx, need);
    HeadIsIn({x}, ctx, need);
  }

  lemma SharedMain()
    ensures UniqueIds({SharedCandidate()})
    ensures AfterMain({SharedCandidate()}, SharedContext()).selected == []
    ensures AfterMain({SharedCandidate()}, SharedContext()).covered == {}
    ensures AfterMain({SharedCandidate()}, SharedContext()).groups == {}
  {
    var x, ctx := SharedCandidate(), SharedContext();
    SharedPool(CONSTRAINTS);
    HeadIsIn({x}, ctx, CONSTRAINTS);
    assert RankedOf({x}, ctx) == {};
    RankedIsOfferable({x}, ctx);
    SortingEmpty(ByKey(RankKey(ctx)), {}, Sorted(RankKey(ctx), RankedOf({x}, ctx)));
  }

  lemma SharedPending()
    ensures UniqueIds({SharedCandidate()})
    ensures var pending := Pending(AfterMain({SharedCandidate()}, SharedContext()), SharedContext());
            |pending| == 2 && pending[0] in {CONSTRAINTS, STATES} && pending[1] in {CONSTRAINTS, STATES}
  {
    var ctx := SharedContext();
    SharedMain();
    var main := AfterMain({SharedCandidate()}, ctx);
    assert Need(CONSTRAINTS, CONSTRAINT, true, None) in ctx.needs && Need(STATES, STATE, true, None) in ctx.needs;
    assert Critical(ctx) == {CONSTRAINTS, STATES};
    SortedNoRepeats(NeedKey, Critical(ctx) - main.covered);
    var pending := Pending(main, ctx);
    assert pending[0] in Elements(pending) && pending[1] in Elements(pending);
  }

  lemma FirstBackfill(main: State, ctx: Context, need: string)
    requires need == CONSTRAINTS || need == STATES
    requires ctx == SharedContext() && main.selected == [] && main.groups == {}
    ensures UniqueIds({SharedCandidate()})
    ensures IsSelected(Backfill(main, Leader({SharedCandidate()}, ctx, need), ctx), SharedCandidate())
  {
    SharedPool(need);
    var best := Leader({SharedCandidate()}, ctx, need).value;
    var r := Backfill(main, Some(best), ctx);
    assert r.selected == [best.(backfill := true)];
    assert best.(backfill := true) in r.selected;
  }

  lemma SharedSelected()
    ensures UniqueIds({SharedCandidate()})
    ensures IsSelected(Decision({SharedCandidate()}, SharedContext()), SharedCandidate())
  {
    var x, ctx := SharedCandidate(), SharedContext();
    SharedMain();
    SharedPending();
    var main := AfterMain({x}, ctx);
    var pending := Pending(main, ctx);
    FirstBackfill(main, ctx, pending[0]);
    BackfillsStep(main, {x}, pending, 0, ctx);
    MainIsServed({x}, ctx);
    BackfillsGrow(main, {x}, pending, 1, |pending|, ctx);
    SelectedStays(BackfillUpTo(main, {x}, pending, 1, ctx), Decision({x}, ctx), x);
  }

  /** The two lists of a report can overlap. */
  lemma BothListsHappen()
    ensures UniqueIds({SharedCandidate()})
    ensures OnBothLists(Decision({SharedCandidate()}, SharedContext()), SharedCandidate())
  {
    SharedSelected();
    SharedPending();
    var pending := Pending(AfterMain({SharedCandidate()}, SharedContext()), SharedContext());
    SharedPool(pending[0]);
    SharedPool(pending[1]);
    BothListsExactly({SharedCandidate()}, SharedContext(), SharedCandidate());
  }
}
