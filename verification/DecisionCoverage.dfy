/** The decision loops and what they guarantee: coverage, soundness, and where the report contradicts itself. */
module DecisionCoverage {
  import opened Results
  import opened Ordering
  import opened KeyedSorting
  import opened RetrievalDecision

  // ---- The loops ----

  /** The table of irrelevant candidates by critical need. */
  ghost predicate PoolTable(pools: map<string, seq<Ranked>>, s: set<Candidate>, ctx: Context) {
    && (forall need :: need in pools ==> NoRepeats(pools[need]) && Elements(pools[need]) == Pool(s, ctx, need))
    && (forall need :: need !in pools ==> Pool(s, ctx, need) == {})
  }

  /** The table between two candidates: the needs still to do hold the pools of before. */
  ghost predicate PartlyParked(pools: map<string, seq<Ranked>>, s: set<Candidate>, c: Candidate, ctx: Context,
                               todo: set<string>)
  {
    && (forall need :: need in pools ==>
          NoRepeats(pools[need]) && Elements(pools[need]) == PoolDuring(s, c, ctx, need, todo))
    && (forall need :: need !in pools ==> PoolDuring(s, c, ctx, need, todo) == {})
  }

  ghost function PoolDuring(s: set<Candidate>, c: Candidate, ctx: Context, need: string, todo: set<string>): set<Ranked> {
    if need in todo then Pool(s, ctx, need) else Pool(s + {c}, ctx, need)
  }

  lemma ParkOne(pools: map<string, seq<Ranked>>, s: set<Candidate>, c: Candidate, ctx: Context,
                todo: set<string>, need: string, values: seq<Ranked>)
    requires PartlyParked(pools, s, c, ctx, todo) && need in todo
    requires Judge(c, ctx).Irrelevant? && need in Critical(ctx) * NeedsOf(c, ctx)
    requires c !in s && UniqueIds(s + {c}) && values == if need in pools then pools[need] else []
    ensures PartlyParked(pools[need := values + [Judge(c, ctx).parked]], s, c, ctx, todo - {need})
  {
    assert Elements(values) == Pool(s, ctx, need);
    Appended(values, Judge(c, ctx).parked);
    assert forall other :: other != need ==> PoolDuring(s, c, ctx, other, todo - {need}) == PoolDuring(s, c, ctx, other, todo);
  }

  /** Park an irrelevant candidate under each critical need it matches. */
  method Park(pools: map<string, seq<Ranked>>, c: Candidate, ctx: Context, ghost s: set<Candidate>)
    returns (r: map<string, seq<Ranked>>)
    requires c !in s && UniqueIds(s + {c}) && PoolTable(pools, s, ctx) && Judge(c, ctx).Irrelevant?
    ensures PoolTable(r, s + {c}, ctx)
  {
    r := pools;
    var todo := Critical(ctx) * NeedsOf(c, ctx);
    forall need ensures PoolDuring(s, c, ctx, need, todo) == Pool(s, ctx, need) {
    }
    while todo != {}
      invariant todo <= Critical(ctx) * NeedsOf(c, ctx)
      invariant PartlyParked(r, s, c, ctx, todo)
      decreases |todo|
    {
      var need :| need in todo;
      var values := if need in r then r[need] else [];
      ParkOne(r, s, c, ctx, todo, need, values);
      r := r[need := values + [Judge(c, ctx).parked]];
      todo := todo - {need};
    }
    assert forall need :: PoolDuring(s, c, ctx, need, {}) == Pool(s + {c}, ctx, need);
  }

  lemma RankedStep(s: set<Candidate>, c: Candidate, ctx: Context)
    requires c !in s && UniqueIds(s + {c})
    ensures Judge(c, ctx).Ranks? ==>
              RankedOf(s + {c}, ctx) == RankedOf(s, ctx) + {Judge(c, ctx).item} && Judge(c, ctx).item !in RankedOf(s, ctx)
    ensures !Judge(c, ctx).Ranks? ==> RankedOf(s + {c}, ctx) == RankedOf(s, ctx)
  {
    if Judge(c, ctx).Ranks? {
      assert Judge(c, ctx).item in RankedOf(s + {c}, ctx);
      assert Judge(c, ctx).item.candidate == c;
    }
  }

  lemma DroppedStep(s: set<Candidate>, c: Candidate, ctx: Context)
    requires c !in s && UniqueIds(s + {c})
    ensures UniqueIds(s)
    ensures Dropped(s + {c}, ctx)
         == if DropReason(c, ctx).Some? then Dropped(s, ctx)[c.id := DropReason(c, ctx).value] else Dropped(s, ctx)
  {
    assert forall d :: d in s ==> d in s + {c};
    if DropReason(c, ctx).Some? {
      assert c.id in Dropped(s + {c}, ctx);
    }
  }

  method Classify(eligible: seq<Candidate>, ctx: Context)
    returns (ranked: seq<Ranked>, pools: map<string, seq<Ranked>>, omitted: map<string, Reason>)
    requires NoRepeats(eligible) && UniqueIds(Elements(eligible))
    ensures NoRepeats(ranked) && Elements(ranked) == RankedOf(Elements(eligible), ctx)
    ensures PoolTable(pools, Elements(eligible), ctx)
    ensures omitted == Dropped(Elements(eligible), ctx)
  {
    ranked, pools, omitted := [], map[], map[];
    for n := 0 to |eligible|
      invariant UniqueIds(Elements(eligible[..n]))
      invariant NoRepeats(ranked) && Elements(ranked) == RankedOf(Elements(eligible[..n]), ctx)
      invariant PoolTable(pools, Elements(eligible[..n]), ctx)
      invariant omitted == Dropped(Elements(eligible[..n]), ctx)
    {
      var c := eligible[n];
      ghost var seen := Elements(eligible[..n]);
      PrefixStep(eligible, n);
      RankedStep(seen, c, ctx);
      DroppedStep(seen, c, ctx);
      match Judge(c, ctx)
      case Rejected(reason) =>
        PoolsUnchanged(pools, seen, c, ctx);
        omitted := omitted[c.id := reason];
      case Irrelevant(_) =>
        pools := Park(pools, c, ctx, seen);
        omitted := omitted[c.id := INSUFFICIENT_TASK_RELEVANCE];
      case Ranks(item) =>
        PoolsUnchanged(pools, seen, c, ctx);
        Appended(ranked, item);
        ranked := ranked + [item];
    }
    assert eligible[..|eligible|] == eligible;
  }

  lemma PoolsUnchanged(pools: map<string, seq<Ranked>>, s: set<Candidate>, c: Candidate, ctx: Context)
    requires c !in s && UniqueIds(s + {c}) && PoolTable(pools, s, ctx) && !Judge(c, ctx).Irrelevant?
    ensures PoolTable(pools, s + {c}, ctx)
  {
    forall need ensures Pool(s + {c}, ctx, need) == Pool(s, ctx, need) {
    }
  }

  lemma HeadIs(pool: seq<Ranked>, sorted: seq<Ranked>)
    requires Injective(PoolKey, Elements(pool)) && sorted == Sorted(PoolKey, Elements(pool))
    ensures HeadOf(Elements(pool)) == if pool == [] then None else if sorted == [] then None else Some(sorted[0])
    ensures pool != [] ==> sorted != []
  {
    SortedNoRepeats(PoolKey, Elements(pool));
    if pool != [] {
      assert pool[0] in Elements(pool);
    }
  }

  /** The decision is a function of the set of eligible candidates. */
  method Select(eligible: seq<Candidate>, ctx: Context) returns (st: State)
    requires NoRepeats(eligible) && UniqueIds(Elements(eligible))
    ensures st == Decision(Elements(eligible), ctx)
  {
    ghost var s := Elements(eligible);
    var found, pools, omitted := Classify(eligible, ctx);
    OnePerCandidate(s, ctx, "");
    var ranked := SortBy(RankKey(ctx), found);
    st := State([], {}, {}, omitted);
    ghost var start := st;
    for n := 0 to |ranked|
      invariant st == MainUpTo(start, ranked, n, ctx)
    {
      MainStep(start, ranked, n, ctx);
      st := TrySelect(st, ranked[n], ctx);
    }
    st := BackfillAll(st, pools, ctx, s);
  }

  /** Serve the critical needs that the main loop left over, in the order of their ids. */
  method BackfillAll(main: State, pools: map<string, seq<Ranked>>, ctx: Context, ghost s: set<Candidate>) returns (st: State)
    requires UniqueIds(s) && PoolTable(pools, s, ctx)
    ensures st == BackfillUpTo(main, s, Pending(main, ctx), |Pending(main, ctx)|, ctx)
  {
    st := main;
    var open := SetToSeq(Critical(ctx) - st.covered);
    var pending := SortBy(NeedKey, open);
    for n := 0 to |pending|
      invariant st == BackfillUpTo(main, s, pending, n, ctx)
    {
      var pool := if pending[n] in pools then pools[pending[n]] else [];
      OnePerCandidate(s, ctx, pending[n]);
      assert Elements(pool) == Pool(s, ctx, pending[n]);
      var sorted := SortBy(PoolKey, pool);
      HeadIs(pool, sorted);
      BackfillsStep(main, s, pending, n, ctx);
      if pool != [] {
        st := Backfill(st, Some(sorted[0]), ctx);
      }
    }
  }

  method SetToSeq(s: set<string>) returns (r: seq<string>)
    ensures NoRepeats(r) && Elements(r) == s
  {
    r := [];
    var todo := s;
    while todo != {}
      invariant todo <= s && NoRepeats(r) && Elements(r) == s - todo
      decreases |todo|
    {
      var x :| x in todo;
      Appended(r, x);
      r := r + [x];
      todo := todo - {x};
    }
  }

  // ---- Coverage ----

  ghost predicate Covers(items: seq<Ranked>, need: string) {
    exists item :: item in items && need in item.needs
  }

  predicate Full(st: State, ctx: Context) {
    |st.selected| >= ctx.maxSelected
  }

  /** Every offered item has its critical needs covered, unless there is no room. */
  predicate Served(st: State, needs: set<string>, ctx: Context) {
    Critical(ctx) * needs <= st.covered || Full(st, ctx)
  }

  /** Selections only grow. */
  predicate Grows(a: State, b: State) {
    a.selected <= b.selected && a.covered <= b.covered && a.groups <= b.groups
  }

  /** The j-th selected item brought a critical need that nothing before it had. */
  ghost predicate AddsNeed(selected: seq<Ranked>, j: nat, ctx: Context)
    requires j < |selected|
  {
    exists need :: need in Critical(ctx) * selected[j].needs
                   && forall k {:trigger selected[k]} :: 0 <= k < j ==> need !in selected[k].needs
  }

  /** A claim is repeated only for a critical need that was still open. */
  ghost predicate Purposeful(selected: seq<Ranked>, ctx: Context) {
    forall i, j {:trigger selected[i], selected[j]} ::
      (0 <= i < j < |selected| && GroupOf(selected[i].candidate, ctx) == GroupOf(selected[j].candidate, ctx))
      ==> AddsNeed(selected, j, ctx)
  }

  lemma AddsNeedStays(selected: seq<Ranked>, item: Ranked, j: nat, ctx: Context)
    requires j < |selected| && AddsNeed(selected, j, ctx)
    ensures AddsNeed(selected + [item], j, ctx)
  {
    var need :| need in Critical(ctx) * selected[j].needs
                && forall k {:trigger selected[k]} :: 0 <= k < j ==> need !in selected[k].needs;
    assert (selected + [item])[j] == selected[j];
    forall k {:trigger (selected + [item])[k]} | 0 <= k < j ensures need !in (selected + [item])[k].needs {
      assert (selected + [item])[k] == selected[k];
    }
  }

  lemma TakeIsPurposeful(st: State, item: Ranked, s: set<Candidate>, ctx: Context)
    requires Truthful(st, s, ctx) && Purposeful(st.selected, ctx) && Refusal(st, item, ctx).None?
    ensures Purposeful(Take(st, item, ctx).selected, ctx)
  {
    var r := st.selected + [item];
    var last := |st.selected|;
    forall i, j {:trigger r[i], r[j]} | 0 <= i < j < |r| && GroupOf(r[i].candidate, ctx) == GroupOf(r[j].candidate, ctx)
      ensures AddsNeed(r, j, ctx)
    {
      assert r[i] == st.selected[i] && st.selected[i] in st.selected;
      if j < last {
        assert st.selected[j] == r[j];
        AddsNeedStays(st.selected, item, j, ctx);
      } else {
        var need :| need in Critical(ctx) * item.needs && need !in st.covered;
        forall k {:trigger r[k]} | 0 <= k < j ensures need !in r[k].needs {
          assert r[k] == st.selected[k] && st.selected[k] in st.selected;
        }
      }
    }
  }

  /** The state tells the truth about its selection. */
  ghost predicate Truthful(st: State, s: set<Candidate>, ctx: Context) {
    && |st.selected| <= ctx.maxSelected
    && (forall item :: item in st.selected ==>
          item.candidate in s && item.needs == NeedsOf(item.candidate, ctx) && !Judge(item.candidate, ctx).Rejected?)
    && (forall need :: need in st.covered ==> need in Critical(ctx) && Covers(st.selected, need))
    && (forall item :: item in st.selected ==> Critical(ctx) * item.needs <= st.covered)
    && (forall item :: item in st.selected ==> GroupOf(item.candidate, ctx) in st.groups)
  }

  lemma TakeIsTruthful(st: State, item: Ranked, s: set<Candidate>, ctx: Context)
    requires Truthful(st, s, ctx) && !Full(st, ctx)
    requires item.candidate in s && item.needs == NeedsOf(item.candidate, ctx) && !Judge(item.candidate, ctx).Rejected?
    ensures Truthful(Take(st, item, ctx), s, ctx)
  {
    var r := Take(st, item, ctx);
    forall need | need in r.covered ensures Covers(r.selected, need) {
      if need in st.covered {
        var i :| i in st.selected && need in i.needs;
        assert i in r.selected;
      } else {
        assert item in r.selected;
      }
    }
  }

  lemma TryServes(st: State, item: Ranked, s: set<Candidate>, ctx: Context)
    requires Truthful(st, s, ctx) && item.candidate in s && Judge(item.candidate, ctx) == Ranks(item)
    ensures Truthful(TrySelect(st, item, ctx), s, ctx) && Grows(st, TrySelect(st, item, ctx))
    ensures Served(TrySelect(st, item, ctx), item.needs, ctx)
  {
    if Refusal(st, item, ctx).None? {
      TakeIsTruthful(st, item, s, ctx);
    }
  }

  ghost predicate Offerable(ranked: seq<Ranked>, s: set<Candidate>, ctx: Context) {
    forall item :: item in ranked ==> item.candidate in s && Judge(item.candidate, ctx) == Ranks(item)
  }

  lemma {:induction false} MainIsTruthful(start: State, ranked: seq<Ranked>, n: nat, s: set<Candidate>, ctx: Context)
    requires n <= |ranked| && Truthful(start, s, ctx) && Offerable(ranked, s, ctx)
    ensures Truthful(MainUpTo(start, ranked, n, ctx), s, ctx)
  {
    if n > 0 {
      MainIsTruthful(start, ranked, n - 1, s, ctx);
      MainStep(start, ranked, n - 1, ctx);
      TryServes(MainUpTo(start, ranked, n - 1, ctx), ranked[n - 1], s, ctx);
    }
  }

  lemma ServedStays(st: State, item: Ranked, needs: set<string>, ctx: Context)
    requires Served(st, needs, ctx)
    ensures Served(TrySelect(st, item, ctx), needs, ctx)
  {
  }

  lemma OfferedIsServed(start: State, ranked: seq<Ranked>, i: nat, s: set<Candidate>, ctx: Context)
    requires i < |ranked| && Truthful(MainUpTo(start, ranked, i, ctx), s, ctx) && Offerable(ranked, s, ctx)
    ensures Served(MainUpTo(start, ranked, i + 1, ctx), ranked[i].needs, ctx)
  {
    MainStep(start, ranked, i, ctx);
    TryServes(MainUpTo(start, ranked, i, ctx), ranked[i], s, ctx);
  }

  lemma ServedNext(start: State, ranked: seq<Ranked>, n: nat, needs: set<string>, ctx: Context)
    requires n < |ranked| && Served(MainUpTo(start, ranked, n, ctx), needs, ctx)
    ensures Served(MainUpTo(start, ranked, n + 1, ctx), needs, ctx)
  {
    MainStep(start, ranked, n, ctx);
    ServedStays(MainUpTo(start, ranked, n, ctx), ranked[n], needs, ctx);
  }

  lemma {:induction false} MainServes(start: State, ranked: seq<Ranked>, n: nat, s: set<Candidate>, ctx: Context, i: nat)
    requires i < n <= |ranked| && Truthful(start, s, ctx) && Offerable(ranked, s, ctx)
    ensures Served(MainUpTo(start, ranked, n, ctx), ranked[i].needs, ctx)
    decreases n
  {
    if i == n - 1 {
      MainIsTruthful(start, ranked, i, s, ctx);
      OfferedIsServed(start, ranked, i, s, ctx);
    } else {
      MainServes(start, ranked, n - 1, s, ctx, i);
      ServedNext(start, ranked, n - 1, ranked[i].needs, ctx);
    }
  }

  lemma HeadIsIn(s: set<Candidate>, ctx: Context, need: string)
    requires UniqueIds(s)
    ensures Pool(s, ctx, need) == {} <==> Leader(s, ctx, need) == None
    ensures Leader(s, ctx, need).Some? ==>
              var best := Leader(s, ctx, need).value;
              && best in Pool(s, ctx, need) && best.candidate in s && Judge(best.candidate, ctx) == Irrelevant(best)
              && need in Critical(ctx) * best.needs && best.needs == NeedsOf(best.candidate, ctx)
  {
    OnePerCandidate(s, ctx, need);
    SortedNoRepeats(PoolKey, Pool(s, ctx, need));
    if Pool(s, ctx, need) != {} {
      var best := Sorted(PoolKey, Pool(s, ctx, need))[0];
      assert best in Elements(Sorted(PoolKey, Pool(s, ctx, need)));
    }
  }

  /** The need is covered, or nothing could cover it, or there is no room. */
  ghost predicate Handled(st: State, s: set<Candidate>, ctx: Context, need: string) {
    Pool(s, ctx, need) == {} || need in st.covered || Full(st, ctx)
  }

  lemma BackfillStep(st: State, s: set<Candidate>, ctx: Context, need: string)
    requires UniqueIds(s) && Truthful(st, s, ctx)
    ensures var r := Backfill(st, Leader(s, ctx, need), ctx);
            Truthful(r, s, ctx) && Grows(st, r) && Handled(r, s, ctx, need)
  {
    HeadIsIn(s, ctx, need);
    var head := Leader(s, ctx, need);
    if head.Some? {
      var best := head.value;
      var cleared := if best.candidate.id in st.omitted && st.omitted[best.candidate.id] == INSUFFICIENT_TASK_RELEVANCE
                     then st.(omitted := st.omitted - {best.candidate.id}) else st;
      if Refusal(cleared, best, ctx).None? {
        TakeIsTruthful(cleared, best.(backfill := true), s, ctx);
      }
    }
  }

  /** Serving one more need. */
  lemma NextBackfillServes(start: State, s: set<Candidate>, pending: seq<string>, n: nat, ctx: Context)
    requires UniqueIds(s) && n < |pending| && Truthful(BackfillUpTo(start, s, pending, n, ctx), s, ctx)
    ensures Truthful(BackfillUpTo(start, s, pending, n + 1, ctx), s, ctx)
    ensures Grows(BackfillUpTo(start, s, pending, n, ctx), BackfillUpTo(start, s, pending, n + 1, ctx))
    ensures Handled(BackfillUpTo(start, s, pending, n + 1, ctx), s, ctx, pending[n])
  {
    BackfillsStep(start, s, pending, n, ctx);
    BackfillStep(BackfillUpTo(start, s, pending, n, ctx), s, ctx, pending[n]);
  }

  lemma {:induction false} BackfillsAreTruthful(start: State, s: set<Candidate>, pending: seq<string>, n: nat, ctx: Context)
    requires UniqueIds(s) && n <= |pending| && Truthful(start, s, ctx)
    ensures Truthful(BackfillUpTo(start, s, pending, n, ctx), s, ctx)
    ensures Grows(start, BackfillUpTo(start, s, pending, n, ctx))
  {
    if n > 0 {
      BackfillsAreTruthful(start, s, pending, n - 1, ctx);
      NextBackfillServes(start, s, pending, n - 1, ctx);
      GrowsTransitive(start, BackfillUpTo(start, s, pending, n - 1, ctx), BackfillUpTo(start, s, pending, n, ctx));
    }
  }

  lemma GrowsTransitive(a: State, b: State, c: State)
    requires Grows(a, b) && Grows(b, c)
    ensures Grows(a, c)
  {
  }

  lemma HandledStays(a: State, b: State, s: set<Candidate>, ctx: Context, need: string)
    requires Handled(a, s, ctx, need) && Grows(a, b)
    ensures Handled(b, s, ctx, need)
  {
  }

  lemma {:induction false} BackfillHandles(
    start: State, s: set<Candidate>, pending: seq<string>, n: nat, ctx: Context, i: nat)
    requires UniqueIds(s) && i < n <= |pending| && Truthful(start, s, ctx)
    ensures Handled(BackfillUpTo(start, s, pending, n, ctx), s, ctx, pending[i])
    decreases n
  {
    BackfillsAreTruthful(start, s, pending, n - 1, ctx);
    NextBackfillServes(start, s, pending, n - 1, ctx);
    if i < n - 1 {
      BackfillHandles(start, s, pending, n - 1, ctx, i);
      HandledStays(BackfillUpTo(start, s, pending, n - 1, ctx), BackfillUpTo(start, s, pending, n, ctx), s, ctx, pending[i]);
    }
  }

  lemma RankedIsOfferable(s: set<Candidate>, ctx: Context)
    requires UniqueIds(s)
    ensures Injective(RankKey(ctx), RankedOf(s, ctx))
    ensures Offerable(Sorted(RankKey(ctx), RankedOf(s, ctx)), s, ctx)
    ensures Elements(Sorted(RankKey(ctx), RankedOf(s, ctx))) == RankedOf(s, ctx)
  {
    OnePerCandidate(s, ctx, "");
    SortedNoRepeats(RankKey(ctx), RankedOf(s, ctx));
    var ranked := Sorted(RankKey(ctx), RankedOf(s, ctx));
    forall item | item in ranked ensures item.candidate in s && Judge(item.candidate, ctx) == Ranks(item) {
      assert item in Elements(ranked);
    }
  }

  lemma MainIsServed(s: set<Candidate>, ctx: Context)
    requires UniqueIds(s)
    ensures Truthful(AfterMain(s, ctx), s, ctx)
    ensures forall c :: c in s && Judge(c, ctx).Ranks? ==> Served(AfterMain(s, ctx), NeedsOf(c, ctx), ctx)
  {
    RankedIsOfferable(s, ctx);
    var start := State([], {}, {}, Dropped(s, ctx));
    var ranked := Sorted(RankKey(ctx), RankedOf(s, ctx));
    MainIsTruthful(start, ranked, |ranked|, s, ctx);
    forall c | c in s && Judge(c, ctx).Ranks? ensures Served(AfterMain(s, ctx), NeedsOf(c, ctx), ctx) {
      PositionOf(s, ctx, c, ranked, start);
    }
  }

  lemma PositionOf(s: set<Candidate>, ctx: Context, c: Candidate, ranked: seq<Ranked>, start: State)
    requires c in s && Judge(c, ctx).Ranks? && Elements(ranked) == RankedOf(s, ctx)
    requires Truthful(start, s, ctx) && Offerable(ranked, s, ctx)
    ensures Served(MainUpTo(start, ranked, |ranked|, ctx), NeedsOf(c, ctx), ctx)
  {
    assert Judge(c, ctx).item in Elements(ranked);
    var i :| 0 <= i < |ranked| && ranked[i] == Judge(c, ctx).item;
    MainServes(start, ranked, |ranked|, s, ctx, i);
  }

  lemma ParkedIsServed(s: set<Candidate>, ctx: Context, main: State, final: State, c: Candidate)
    requires UniqueIds(s) && Truthful(main, s, ctx) && c in s && Judge(c, ctx).Irrelevant?
    requires final == BackfillUpTo(main, s, Pending(main, ctx), |Pending(main, ctx)|, ctx)
    ensures Served(final, NeedsOf(c, ctx), ctx)
  {
    var pending := Pending(main, ctx);
    BackfillsAreTruthful(main, s, pending, |pending|, ctx);
    forall need | need in Critical(ctx) * NeedsOf(c, ctx) ensures need in final.covered || Full(final, ctx) {
      if need !in main.covered {
        assert need in Elements(pending);
        var i :| 0 <= i < |pending| && pending[i] == need;
        BackfillHandles(main, s, pending, |pending|, ctx, i);
        assert Judge(c, ctx).parked in Pool(s, ctx, need);
      }
    }
  }

  lemma DecisionServes(s: set<Candidate>, ctx: Context)
    requires UniqueIds(s)
    ensures Truthful(Decision(s, ctx), s, ctx)
    ensures forall c :: c in s && !Judge(c, ctx).Rejected? ==> Served(Decision(s, ctx), NeedsOf(c, ctx), ctx)
  {
    MainIsServed(s, ctx);
    var main, final := AfterMain(s, ctx), Decision(s, ctx);
    var pending := Pending(main, ctx);
    BackfillsAreTruthful(main, s, pending, |pending|, ctx);
    forall c | c in s && !Judge(c, ctx).Rejected? ensures Served(final, NeedsOf(c, ctx), ctx) {
      if Judge(c, ctx).Irrelevant? {
        ParkedIsServed(s, ctx, main, final, c);
      }
    }
  }

  /** While there is room, a critical need is covered exactly if some candidate that authority does not reject matches it. */
  lemma CriticalNeedsAreCovered(s: set<Candidate>, ctx: Context, need: string)
    requires UniqueIds(s) && need in Critical(ctx)
    ensures |Decision(s, ctx).selected| <= ctx.maxSelected
    ensures |Decision(s, ctx).selected| == ctx.maxSelected
         || (Covers(Decision(s, ctx).selected, need)
             <==> exists c :: c in s && !Judge(c, ctx).Rejected? && need in NeedsOf(c, ctx))
  {
    DecisionServes(s, ctx);
    var st := Decision(s, ctx);
    if Covers(st.selected, need) {
      var item :| item in st.selected && need in item.needs;
      assert item.candidate in s && need in NeedsOf(item.candidate, ctx);
    }
  }

  /** A need for the explicit words of the request is matched by nothing, so it is never covered. */
  lemma ExplicitNeedsStayOpen(s: set<Candidate>, ctx: Context, need: string)
    requires UniqueIds(s) && forall n :: n in ctx.needs && n.id == need ==> n.kind == TASK
    ensures !Covers(Decision(s, ctx).selected, need)
  {
    DecisionServes(s, ctx);
  }
}
