/** When the final pass gives up, and every exit of a compilation. */
module ContextOutcomes {
  import opened Results
  import opened Ordering
  import opened KeyedSorting
  import opened ContextModel
  import opened ContextPlanner
  import opened ContextChoose
  import opened ContextPlans
  import opened ContextRender
  import opened ContextCompiler
  import opened ContextGuarantees

  // ---- Who goes first ----

  /** The higher tier goes first, then the dearer item, then the later id. */
  predicate GoesFirst(d: Draft, e: Draft) {
    || d.tier > e.tier
    || (d.tier == e.tier && d.cost.count > e.cost.count)
    || (d.tier == e.tier && d.cost.count == e.cost.count && StringLess(e.id, d.id))
  }

  lemma RemovalOrder(d: Draft, e: Draft)
    ensures KeyLess(RemovalKey(e), RemovalKey(d)) <==> GoesFirst(d, e)
  {
  }

  lemma GoesFirstOrders(d: Draft, e: Draft)
    ensures !(GoesFirst(d, e) && GoesFirst(e, d))
    ensures GoesFirst(d, e) || GoesFirst(e, d) || d.id == e.id
  {
    RemovalOrder(d, e);
    RemovalOrder(e, d);
    KeyLessTotal(RemovalKey(d), RemovalKey(e));
    if GoesFirst(d, e) {
      KeyLessAsymmetric(RemovalKey(e), RemovalKey(d));
    }
  }

  lemma GoesFirstChains(d: Draft, e: Draft, f: Draft)
    requires GoesFirst(d, e) && GoesFirst(e, f)
    ensures GoesFirst(d, f)
  {
    RemovalOrder(d, e);
    RemovalOrder(e, f);
    RemovalOrder(d, f);
    KeyLessTransitive(RemovalKey(f), RemovalKey(e), RemovalKey(d));
  }

  lemma WorstGoesFirst(s: set<Draft>, e: Draft)
    requires UniqueIdsIn(s) && e in s
    ensures e == Worst(s) || GoesFirst(Worst(s), e)
  {
    RemovalOrder(Worst(s), e);
  }

  // ---- The first j to go ----

  ghost function Ahead(d: Draft, s: set<Draft>): set<Draft> {
    set e | e in s && GoesFirst(e, d)
  }

  /** The j drafts of the set that go first. */
  ghost function FirstOut(s: set<Draft>, j: nat): set<Draft> {
    set d | d in s && |Ahead(d, s)| < j
  }

  lemma FirstOutEnds(s: set<Draft>)
    ensures FirstOut(s, 0) == {} && FirstOut(s, |s|) == s
  {
    forall d | d in s ensures |Ahead(d, s)| < |s| {
      GoesFirstOrders(d, d);
      SubsetSize(Ahead(d, s), s - {d});
    }
  }

  lemma AheadWithout(s: set<Draft>, d: Draft, e: Draft)
    requires UniqueIdsIn(s) && d in s && e in s && e != d && GoesFirst(d, e)
    ensures |Ahead(e, s)| == |Ahead(e, s - {d})| + 1
  {
    assert Ahead(e, s) == Ahead(e, s - {d}) + {d};
  }

  lemma FirstOutNext(s: set<Draft>, d: Draft, j: nat)
    requires UniqueIdsIn(s) && d in s && forall e :: e in s && e != d ==> GoesFirst(d, e)
    ensures FirstOut(s, j + 1) == {d} + FirstOut(s - {d}, j)
  {
    assert Ahead(d, s) == {} by {
      GoesFirstOrders(d, d);
      forall e | e in s && e != d ensures !GoesFirst(e, d) {
        GoesFirstOrders(d, e);
      }
    }
    forall e | e in s && e != d ensures |Ahead(e, s)| == |Ahead(e, s - {d})| + 1 {
      AheadWithout(s, d, e);
    }
  }

  /** What is among the first to go goes before everything that stays. */
  lemma FirstOutGoFirst(s: set<Draft>, j: nat, d: Draft, e: Draft)
    requires UniqueIdsIn(s) && d in FirstOut(s, j) && e in s && e !in FirstOut(s, j)
    ensures GoesFirst(d, e)
  {
    GoesFirstOrders(d, e);
    if GoesFirst(e, d) {
      GoesFirstOrders(e, e);
      forall f | f in Ahead(e, s) ensures f in Ahead(d, s) {
        GoesFirstChains(f, e, d);
      }
      SubsetSize(Ahead(e, s) + {e}, Ahead(d, s));
    }
  }

  // ---- The final pass ----

  /** The selection once its first j optional drafts are gone. */
  ghost function Remaining(kept: set<Draft>, j: nat): set<Draft> {
    kept - FirstOut(Optional(kept), j)
  }

  ghost function Reported(gone: set<Draft>): set<Omission> {
    set d | d in gone :: Omission(d.id, BUDGET_EXHAUSTED, d.role, d.tier)
  }

  /** How many removals lead to a selection that fits. */
  ghost function Fitters(kept: set<Draft>, fit: set<Draft> -> bool): set<nat> {
    set j: nat | j <= |Optional(kept)| && fit(Remaining(kept, j))
  }

  /** The outcome when the pass ends after the first j optional drafts are gone. */
  ghost predicate EndsAfter(kept: set<Draft>, omitted: set<Omission>, j: nat, o: Outcome) {
    var out := omitted + Reported(FirstOut(Optional(kept), j));
    && j <= |Optional(kept)|
    && match o
       case Fitting(k, x) => k == Remaining(kept, j) && x == out
       case MandatoryTooLarge(x) => j == |Optional(kept)| && x == out
       case Exhausted(x) => x == out
       case Disallowed => false
  }

  /** The pass ends at j: no smaller number of removals fits, and j fits, or nothing optional or no round is left. */
  ghost predicate EndsAt(fits: set<nat>, rounds: nat, j: nat, o: Outcome) {
    && j <= rounds
    && (forall i: nat {:trigger i in fits} :: i < j ==> i !in fits)
    && (o.Fitting? <==> j < rounds && j in fits)
    && (o.Exhausted? <==> j == rounds)
  }

  lemma NothingGone(kept: set<Draft>)
    ensures FirstOut(Optional(kept), 0) == {} && Remaining(kept, 0) == kept
  {
    FirstOutEnds(Optional(kept));
  }

  lemma AllOut(kept: set<Draft>)
    ensures Remaining(kept, |Optional(kept)|) == Mandatory(kept)
  {
    FirstOutEnds(Optional(kept));
  }

  lemma FittersEnds(kept: set<Draft>, fit: set<Draft> -> bool)
    ensures 0 in Fitters(kept, fit) <==> fit(kept)
    ensures |Optional(kept)| in Fitters(kept, fit) <==> fit(Mandatory(kept))
  {
    NothingGone(kept);
    AllOut(kept);
  }

  /** The optional draft goes before all other optional ones. */
  ghost predicate Foremost(kept: set<Draft>, d: Draft) {
    d in Optional(kept) && forall e :: e in Optional(kept) && e != d ==> GoesFirst(d, e)
  }

  lemma RemainingNext(kept: set<Draft>, d: Draft, j: nat)
    requires UniqueIdsIn(kept) && Foremost(kept, d)
    ensures FirstOut(Optional(kept), j + 1) == {d} + FirstOut(Optional(kept - {d}), j)
    ensures Remaining(kept, j + 1) == Remaining(kept - {d}, j)
    ensures |Optional(kept)| == |Optional(kept - {d})| + 1
  {
    FirstOutNext(Optional(kept), d, j);
    assert Optional(kept - {d}) == Optional(kept) - {d};
    assert Remaining(kept, j + 1) == Remaining(kept - {d}, j);
  }

  lemma FittersNext(kept: set<Draft>, fit: set<Draft> -> bool, d: Draft, j: nat)
    requires UniqueIdsIn(kept) && Foremost(kept, d)
    ensures j + 1 in Fitters(kept, fit) <==> j in Fitters(kept - {d}, fit)
  {
    RemainingNext(kept, d, j);
  }

  lemma ReportedNext(omitted: set<Omission>, d: Draft, gone: set<Draft>)
    ensures omitted + Reported({d} + gone) == omitted + {Omit(d, BUDGET_EXHAUSTED)} + Reported(gone)
  {
  }

  lemma EndsAfterNext(kept: set<Draft>, omitted: set<Omission>, d: Draft, j: nat, o: Outcome)
    requires UniqueIdsIn(kept) && Foremost(kept, d)
    requires EndsAfter(kept - {d}, omitted + {Omit(d, BUDGET_EXHAUSTED)}, j, o)
    ensures EndsAfter(kept, omitted, j + 1, o)
  {
    RemainingNext(kept, d, j);
    ReportedNext(omitted, d, FirstOut(Optional(kept - {d}), j));
  }

  /** One more removal shifts the numbers of removals by one. */
  ghost predicate Shifted(fits: set<nat>, later: set<nat>) {
    0 !in fits && forall j: nat {:trigger j in later} :: j in later <==> j + 1 in fits
  }

  lemma FittersShift(kept: set<Draft>, fit: set<Draft> -> bool, d: Draft)
    requires UniqueIdsIn(kept) && Foremost(kept, d) && !fit(kept)
    ensures Shifted(Fitters(kept, fit), Fitters(kept - {d}, fit))
  {
    FittersEnds(kept, fit);
    forall j: nat {:trigger j in Fitters(kept - {d}, fit)}
      ensures j in Fitters(kept - {d}, fit) <==> j + 1 in Fitters(kept, fit)
    {
      FittersNext(kept, fit, d, j);
    }
  }

  lemma EndsAtNext(fits: set<nat>, later: set<nat>, rounds: nat, j: nat, o: Outcome)
    requires Shifted(fits, later) && rounds > 0 && EndsAt(later, rounds - 1, j, o)
    ensures EndsAt(fits, rounds, j + 1, o)
  {
    assert j in later <==> j + 1 in fits;
    forall i: nat {:trigger i in fits} | i < j + 1 ensures i !in fits {
      if i > 0 {
        assert i - 1 !in later;
      }
    }
  }

  /** The number of removals after which the pass ended, as a set. */
  ghost function Ends(kept: set<Draft>, omitted: set<Omission>, fit: set<Draft> -> bool, rounds: nat, o: Outcome): set<nat> {
    set j: nat | j <= rounds && EndsAfter(kept, omitted, j, o) && EndsAt(Fitters(kept, fit), rounds, j, o)
  }

  lemma EndsAtOnce(kept: set<Draft>, omitted: set<Omission>, fit: set<Draft> -> bool, rounds: nat, o: Outcome)
    requires o == if rounds == 0 then Exhausted(omitted) else if fit(kept) then Fitting(kept, omitted) else MandatoryTooLarge(omitted)
    requires rounds == 0 || fit(kept) || Optional(kept) == {}
    ensures 0 in Ends(kept, omitted, fit, rounds, o)
  {
    FittersEnds(kept, fit);
    assert EndsAt(Fitters(kept, fit), rounds, 0, o);
    NothingGone(kept);
    assert Reported({}) == {};
    assert omitted + {} == omitted;
    assert EndsAfter(kept, omitted, 0, o);
  }

  lemma EndsNext(kept: set<Draft>, omitted: set<Omission>, fit: set<Draft> -> bool, rounds: nat, o: Outcome, d: Draft, j: nat)
    requires UniqueIdsIn(kept) && rounds > 0 && !fit(kept) && Optional(kept) != {} && d == Worst(Optional(kept))
    requires j in Ends(kept - {d}, omitted + {Omit(d, BUDGET_EXHAUSTED)}, fit, rounds - 1, o)
    ensures j + 1 in Ends(kept, omitted, fit, rounds, o)
  {
    WorstIsForemost(kept);
    FittersShift(kept, fit, d);
    EndsAfterNext(kept, omitted, d, j, o);
    EndsAtNext(Fitters(kept, fit), Fitters(kept - {d}, fit), rounds, j, o);
  }

  lemma WorstIsForemost(kept: set<Draft>)
    requires UniqueIdsIn(kept) && Optional(kept) != {}
    ensures Foremost(kept, Worst(Optional(kept)))
  {
    var d := Worst(Optional(kept));
    forall e | e in Optional(kept) && e != d ensures GoesFirst(d, e) {
      WorstGoesFirst(Optional(kept), e);
    }
  }

  ghost predicate Stops(kept: set<Draft>, fit: set<Draft> -> bool, rounds: nat) {
    rounds == 0 || fit(kept) || Optional(kept) == {}
  }

  ghost function StopsWith(kept: set<Draft>, omitted: set<Omission>, fit: set<Draft> -> bool, rounds: nat): Outcome {
    if rounds == 0 then Exhausted(omitted) else if fit(kept) then Fitting(kept, omitted) else MandatoryTooLarge(omitted)
  }

  ghost predicate AtStops(p: (set<Draft>, set<Omission>, nat, Outcome) -> bool, fit: set<Draft> -> bool) {
    forall k, x, r: nat {:trigger p(k, x, r, StopsWith(k, x, fit, r))} ::
      UniqueIdsIn(k) && Stops(k, fit, r) ==> p(k, x, r, StopsWith(k, x, fit, r))
  }

  ghost predicate ThroughRemovals(p: (set<Draft>, set<Omission>, nat, Outcome) -> bool, fit: set<Draft> -> bool) {
    forall k, x, r: nat, o {:trigger p(k, x, r, o)} ::
      (&& UniqueIdsIn(k) && !Stops(k, fit, r)
       && p(k - {Worst(Optional(k))}, x + {Omit(Worst(Optional(k)), BUDGET_EXHAUSTED)}, r - 1, o)) ==> p(k, x, r, o)
  }

  /** What holds wherever the pass stops and is handed back through every removal holds of the whole pass. */
  lemma {:induction false} TrimInduction(p: (set<Draft>, set<Omission>, nat, Outcome) -> bool,
                                         kept: set<Draft>, omitted: set<Omission>, fit: set<Draft> -> bool, rounds: nat)
    requires UniqueIdsIn(kept) && AtStops(p, fit) && ThroughRemovals(p, fit)
    ensures p(kept, omitted, rounds, Trim(kept, omitted, fit, rounds))
    decreases rounds
  {
    if Stops(kept, fit, rounds) {
      assert Trim(kept, omitted, fit, rounds) == StopsWith(kept, omitted, fit, rounds);
    } else {
      var d := Worst(Optional(kept));
      TrimInduction(p, kept - {d}, omitted + {Omit(d, BUDGET_EXHAUSTED)}, fit, rounds - 1);
    }
  }

  ghost predicate SomeEnd(kept: set<Draft>, omitted: set<Omission>, fit: set<Draft> -> bool, rounds: nat, o: Outcome) {
    Ends(kept, omitted, fit, rounds, o) != {}
  }

  lemma SomeEndNext(kept: set<Draft>, omitted: set<Omission>, fit: set<Draft> -> bool, rounds: nat, o: Outcome, d: Draft)
    requires UniqueIdsIn(kept) && !Stops(kept, fit, rounds) && d == Worst(Optional(kept))
    requires SomeEnd(kept - {d}, omitted + {Omit(d, BUDGET_EXHAUSTED)}, fit, rounds - 1, o)
    ensures SomeEnd(kept, omitted, fit, rounds, o)
  {
    var j :| j in Ends(kept - {d}, omitted + {Omit(d, BUDGET_EXHAUSTED)}, fit, rounds - 1, o);
    EndsNext(kept, omitted, fit, rounds, o, d, j);
  }

  ghost function EndRelation(fit: set<Draft> -> bool): (set<Draft>, set<Omission>, nat, Outcome) -> bool {
    (k: set<Draft>, x: set<Omission>, r: nat, o: Outcome) => SomeEnd(k, x, fit, r, o)
  }

  lemma EndsAtStops(fit: set<Draft> -> bool)
    ensures AtStops(EndRelation(fit), fit)
  {
    forall k, x, r: nat | UniqueIdsIn(k) && Stops(k, fit, r)
      ensures SomeEnd(k, x, fit, r, StopsWith(k, x, fit, r))
    {
      EndsAtOnce(k, x, fit, r, StopsWith(k, x, fit, r));
    }
  }

  lemma EndsThroughRemovals(fit: set<Draft> -> bool)
    ensures ThroughRemovals(EndRelation(fit), fit)
  {
    var p := EndRelation(fit);
    forall k, x, r: nat, o {:trigger p(k, x, r, o)}
      | UniqueIdsIn(k) && !Stops(k, fit, r)
        && p(k - {Worst(Optional(k))}, x + {Omit(Worst(Optional(k)), BUDGET_EXHAUSTED)}, r - 1, o)
      ensures p(k, x, r, o)
    {
      SomeEndNext(k, x, fit, r, o, Worst(Optional(k)));
    }
  }

  /** The final pass ends at the fullest selection that fits, or when nothing optional or no round is left. */
  lemma PassEnds(task: string, kept: set<Draft>, omitted: set<Omission>, budget: Budget, rounds: nat, o: Outcome) returns (j: nat)
    requires UniqueIdsIn(kept) && budget.allowOmission && o == Rebalance(task, kept, omitted, budget, rounds)
    ensures j in Ends(kept, omitted, FitAsRendered(task, budget), rounds, o)
  {
    var fit := FitAsRendered(task, budget);
    EndsAtStops(fit);
    EndsThroughRemovals(fit);
    TrimInduction(EndRelation(fit), kept, omitted, fit, rounds);
    assert SomeEnd(kept, omitted, fit, rounds, o);
    j :| j in Ends(kept, omitted, fit, rounds, o);
  }

  /** Some selection that the rounds reach fits as rendered. */
  ghost predicate CanFit(task: string, kept: set<Draft>, budget: Budget, rounds: nat)
    requires UniqueIdsIn(kept)
  {
    exists j :: j in Fitters(kept, FitAsRendered(task, budget)) && j < rounds
  }

  lemma EndDecides(kept: set<Draft>, omitted: set<Omission>, fits: set<nat>, rounds: nat, j: nat, o: Outcome)
    requires EndsAt(fits, rounds, j, o) && EndsAfter(kept, omitted, j, o)
    requires forall i :: i in fits ==> i <= |Optional(kept)|
    ensures o.Fitting? <==> exists i :: i in fits && i < rounds
    ensures o.MandatoryTooLarge? <==> !o.Fitting? && |Optional(kept)| < rounds
    ensures o.MandatoryTooLarge? ==> |Optional(kept)| !in fits
  {
  }

  /** When drafts may be left out, the outcome is a selection that fits exactly if some round would reach one. */
  lemma FinalPassDecides(task: string, kept: set<Draft>, omitted: set<Omission>, budget: Budget, rounds: nat, o: Outcome)
    requires UniqueIdsIn(kept) && budget.allowOmission && o == Rebalance(task, kept, omitted, budget, rounds)
    ensures o.Fitting? <==> CanFit(task, kept, budget, rounds)
    ensures o.MandatoryTooLarge? <==> !CanFit(task, kept, budget, rounds) && |Optional(kept)| < rounds
    ensures o.MandatoryTooLarge? ==> !Shown(task, Mandatory(kept), budget)
    ensures !o.Disallowed?
  {
    var j := PassEnds(task, kept, omitted, budget, rounds, o);
    FittersEnds(kept, FitAsRendered(task, budget));
    EndDecides(kept, omitted, Fitters(kept, FitAsRendered(task, budget)), rounds, j, o);
  }

  /** If the mandatory drafts fit and the rounds outnumber the optional ones, the final pass delivers. */
  lemma MandatorySuffices(task: string, kept: set<Draft>, omitted: set<Omission>, budget: Budget, rounds: nat)
    requires UniqueIdsIn(kept) && budget.allowOmission
    requires Shown(task, Mandatory(kept), budget) && |Optional(kept)| < rounds
    ensures Rebalance(task, kept, omitted, budget, rounds).Fitting?
  {
    FittersEnds(kept, FitAsRendered(task, budget));
    FinalPassDecides(task, kept, omitted, budget, rounds, Rebalance(task, kept, omitted, budget, rounds));
  }

  /** When nothing may be left out, only the whole selection is delivered, and a refusal names its cause. */
  lemma StrictPassDecides(task: string, kept: set<Draft>, omitted: set<Omission>, budget: Budget, rounds: nat)
    requires UniqueIdsIn(kept) && !budget.allowOmission && rounds > 0
    ensures Rebalance(task, kept, omitted, budget, rounds)
         == if Shown(task, kept, budget) then Fitting(kept, omitted)
            else if Shown(task, Mandatory(kept), budget) then Disallowed
            else MandatoryTooLarge(omitted)
  {
    if Optional(kept) == {} {
      assert Mandatory(kept) == kept by {
        assert forall d :: d in kept && !d.mandatory ==> d in Optional(kept);
      }
    }
  }

  /** What stays never goes before what went, and what went was optional. */
  lemma StayersGoLater(task: string, kept: set<Draft>, omitted: set<Omission>, budget: Budget, rounds: nat, gone: Draft, stays: Draft)
    requires UniqueIdsIn(kept) && Rebalance(task, kept, omitted, budget, rounds).Fitting?
    requires var k := Rebalance(task, kept, omitted, budget, rounds).kept;
             gone in kept && gone !in k && stays in k
    ensures !gone.mandatory && (!stays.mandatory ==> GoesFirst(gone, stays))
  {
    if budget.allowOmission {
      var o := Rebalance(task, kept, omitted, budget, rounds);
      var j := PassEnds(task, kept, omitted, budget, rounds, Rebalance(task, kept, omitted, budget, rounds));
      assert stays in kept;
      if !stays.mandatory {
        FirstOutGoFirst(Optional(kept), j, gone, stays);
      }
    } else {
      StrictPassDecides(task, kept, omitted, budget, rounds);
      assert false;
    }
  }

  // ---- The exits of a compilation ----

  /** The drafts of the candidates that an upstream selection, if any, leaves in. */
  ghost function KeptDrafts(s: set<Evidence>, request: Request): set<Draft> {
    Kept(DraftsOf(Chosen(s, request), request), RulesFor(request))
  }

  /** Every id of the selection belongs to a candidate. */
  ghost predicate KnownIds(s: set<Evidence>, request: Request) {
    request.selection.Some? ==> forall id :: id in request.selection.value.ids ==> exists e :: e in s && e.id == id
  }

  lemma InScopeMeans(s: set<Evidence>, request: Request)
    ensures InScope(s, request) <==> KnownIds(s, request)
  {
    if request.selection.Some? {
      forall id | id in request.selection.value.ids ensures HasId(s, id) <==> exists e :: e in s && e.id == id {
      }
    }
  }

  lemma JoinNext(line: string, rest: seq<string>)
    requires rest != []
    ensures Join([line] + rest) == line + "\n" + Join(rest)
  {
    assert ([line] + rest)[1..] == rest;
  }

  lemma SixLines(a: string, b: string, task: string, z: string)
    ensures Join([a, "", b, task, "", z]) == a + "\n" + ("\n" + (b + "\n" + (task + "\n" + ("\n" + z))))
  {
    JoinNext("", [z]);
    JoinNext(task, ["", z]);
    JoinNext(b, [task, "", z]);
    JoinNext("", [b, task, "", z]);
    JoinNext(a, ["", b, task, "", z]);
    assert [task] + ["", z] == [task, "", z] && [b] + [task, "", z] == [b, task, "", z];
    assert [""] + [b, task, "", z] == ["", b, task, "", z] && [""] + [z] == ["", z];
    assert [a] + ["", b, task, "", z] == [a, "", b, task, "", z];
    assert "" + "\n" == "\n";
  }

  /** The text of a task without context, line by line. */
  lemma BareText(task: string)
    ensures BareBundle(task)
         == "[BRAIN-ELEVEN TASK CONTEXT v2]" + "\n" + ("\n" + ("TASK" + "\n" + (task + "\n" + ("\n" + "[END BRAIN-ELEVEN CONTEXT]"))))
  {
    SixLines("[BRAIN-ELEVEN TASK CONTEXT v2]", "TASK", task, "[END BRAIN-ELEVEN CONTEXT]");
    assert Head(task) + Tail() == ["[BRAIN-ELEVEN TASK CONTEXT v2]", "", "TASK", task, "", "[END BRAIN-ELEVEN CONTEXT]"];
  }

  /** The text is within the token budget and the byte limit. */
  predicate TextFits(text: string, budget: Budget) {
    && (if text == "" then 0 else (Bytes(text) + 2) / 3 + 1) <= budget.usable
    && Bytes(text) <= budget.hardBytes
  }

  lemma ShownMeans(task: string, kept: set<Draft>, budget: Budget)
    requires UniqueIdsIn(kept)
    ensures Shown(task, kept, budget) <==> TextFits(Bundle(task, kept), budget)
  {
  }

  /** What the tokens of a bare task and the mandatory drafts come to. */
  ghost function MandatoryTokens(s: set<Evidence>, request: Request): int {
    ConservativeEstimate(BareBundle(request.task)).count + Total(Cost, Mandatory(KeptDrafts(s, request)))
  }

  /** The compilation gets as far as planning: ids known, bare task and mandatory estimates within the budget. */
  ghost predicate Plannable(s: set<Evidence>, request: Request) {
    && KnownIds(s, request)
    && TextFits(BareBundle(request.task), request.budget)
    && MandatoryTokens(s, request) <= request.budget.usable
  }

  lemma ChosenAreUnique(s: set<Evidence>, request: Request)
    requires UniqueEvidence(s)
    ensures UniqueEvidence(Chosen(s, request)) && UniqueIdsIn(DraftsOf(Chosen(s, request), request))
    ensures UniqueIdsIn(KeptDrafts(s, request)) && UniqueIdsIn(Mandatory(KeptDrafts(s, request)))
  {
    DraftIds(Chosen(s, request), request);
  }

  lemma PlanTokens(s: set<Evidence>, request: Request)
    requires UniqueEvidence(s)
    ensures UniqueEvidence(Chosen(s, request)) && PlanOf(Chosen(s, request), request).mandatoryCost == MandatoryTokens(s, request)
  {
    ChosenAreUnique(s, request);
    PlanCost(DraftsOf(Chosen(s, request), request), RulesFor(request), request.budget, BaseEstimate(request).count);
  }

  lemma PlannedExits(c: set<Evidence>, request: Request, r: Compilation)
    requires UniqueEvidence(c) && PlannedTo(c, request, r)
    ensures !r.ScopeError? && !r.TaskOverflow?
    ensures r.MandatoryOverflow? <==> PlanOf(c, request).mandatoryCost > request.budget.usable
  {
  }

  /** The exits before any planning, each under its own condition and only then. */
  lemma EarlyExits(s: set<Evidence>, request: Request, r: Compilation)
    requires UniqueEvidence(s) && CompilesTo(s, request, r)
    ensures r.ScopeError? <==> !KnownIds(s, request)
    ensures r.TaskOverflow? <==> KnownIds(s, request) && !TextFits(BareBundle(request.task), request.budget)
    ensures r.MandatoryOverflow? <==>
              && KnownIds(s, request) && TextFits(BareBundle(request.task), request.budget)
              && MandatoryTokens(s, request) > request.budget.usable
  {
    InScopeMeans(s, request);
    PlanTokens(s, request);
    if InScope(s, request) && Within(BaseEstimate(request), request.budget) {
      PlannedExits(Chosen(s, request), request, r);
    }
  }

  /** What the plan hands to the final pass. */
  ghost function Planned(s: set<Evidence>, request: Request): set<Draft>
    requires UniqueEvidence(s)
  {
    ChosenAreUnique(s, request);
    Elements(PlanOf(Chosen(s, request), request).selected)
  }

  /** Every kept draft is in the plan: they all have room together. */
  ghost predicate RoomForAll(s: set<Evidence>, request: Request) {
    AllFit(DraftsOf(Chosen(s, request), request), RulesFor(request), request.budget,
           ConservativeEstimate(BareBundle(request.task)).count)
  }

  /** The compilation reached the final pass. */
  ghost predicate Finishes(s: set<Evidence>, request: Request, r: Compilation)
    requires UniqueEvidence(s)
  {
    ChosenAreUnique(s, request);
    && Normal(PlanOf(Chosen(s, request), request), request.budget)
    && UniqueIdsIn(Planned(s, request)) && Mandatory(Planned(s, request)) == Mandatory(KeptDrafts(s, request))
    && Reports(r, Rebalance(request.task, Planned(s, request), Elements(PlanOf(Chosen(s, request), request).omitted),
                            request.budget, request.maxRebalance + 1), request)
  }

  /** A plannable compilation is refused by the plan or reaches the final pass. */
  lemma PlanOrFinish(s: set<Evidence>, request: Request, r: Compilation)
    requires UniqueEvidence(s) && CompilesTo(s, request, r) && Plannable(s, request)
    ensures if request.budget.allowOmission || RoomForAll(s, request) then Finishes(s, request, r) else r.OmissionDisallowed?
  {
    InScopeMeans(s, request);
    PlanTokens(s, request);
    ChosenAreUnique(s, request);
    RefusedExactly(DraftsOf(Chosen(s, request), request), RulesFor(request), request.budget, BaseEstimate(request).count);
    if request.budget.allowOmission || RoomForAll(s, request) {
      PlanFacts(Chosen(s, request), request);
      SameMandatory(KeptDrafts(s, request), Planned(s, request));
    }
  }

  lemma SameMandatory(kept: set<Draft>, planned: set<Draft>)
    requires Mandatory(kept) <= planned <= kept
    ensures Mandatory(planned) == Mandatory(kept)
  {
  }

  /** When drafts may be left out: delivered exactly if a round reaches a selection that fits, refused only with cause. */
  lemma LenientExits(s: set<Evidence>, request: Request, r: Compilation)
    requires UniqueEvidence(s) && CompilesTo(s, request, r) && Plannable(s, request) && request.budget.allowOmission
    ensures UniqueIdsIn(Planned(s, request)) && UniqueIdsIn(Mandatory(KeptDrafts(s, request)))
    ensures r.Compiled? <==> CanFit(request.task, Planned(s, request), request.budget, request.maxRebalance + 1)
    ensures r.RenderedOverflow? <==> !r.Compiled? && |Optional(Planned(s, request))| <= request.maxRebalance
    ensures r.Unverified? <==> !r.Compiled? && |Optional(Planned(s, request))| > request.maxRebalance
    ensures r.RenderedOverflow? ==> !Shown(request.task, Mandatory(KeptDrafts(s, request)), request.budget)
  {
    PlanOrFinish(s, request, r);
    ChosenAreUnique(s, request);
    var o := Rebalance(request.task, Planned(s, request), Elements(PlanOf(Chosen(s, request), request).omitted),
                       request.budget, request.maxRebalance + 1);
    FinalPassDecides(request.task, Planned(s, request), Elements(PlanOf(Chosen(s, request), request).omitted),
                     request.budget, request.maxRebalance + 1, o);
  }

  /** When the mandatory drafts fit as rendered and the rounds suffice for the optional ones, a context is delivered. */
  lemma MandatoryContextIsDelivered(s: set<Evidence>, request: Request, r: Compilation)
    requires UniqueEvidence(s) && CompilesTo(s, request, r) && Plannable(s, request) && request.budget.allowOmission
    requires UniqueIdsIn(Mandatory(KeptDrafts(s, request))) && Shown(request.task, Mandatory(KeptDrafts(s, request)), request.budget)
    requires |Optional(Planned(s, request))| <= request.maxRebalance
    ensures r.Compiled?
  {
    LenientExits(s, request, r);
  }

  /** When nothing may be left out: everything is delivered, or the refusal says whether the mandatory drafts alone would do. */
  lemma StrictExits(s: set<Evidence>, request: Request, r: Compilation)
    requires UniqueEvidence(s) && CompilesTo(s, request, r) && Plannable(s, request) && !request.budget.allowOmission
    ensures UniqueIdsIn(KeptDrafts(s, request)) && UniqueIdsIn(Mandatory(KeptDrafts(s, request)))
    ensures r.Compiled? <==> RoomForAll(s, request) && Shown(request.task, KeptDrafts(s, request), request.budget)
    ensures r.RenderedOverflow? <==>
              && RoomForAll(s, request) && !Shown(request.task, KeptDrafts(s, request), request.budget)
              && !Shown(request.task, Mandatory(KeptDrafts(s, request)), request.budget)
    ensures r.OmissionDisallowed? <==> !r.Compiled? && !r.RenderedOverflow?
    ensures r.Compiled? ==> Elements(r.selected) == KeptDrafts(s, request)
  {
    PlanOrFinish(s, request, r);
    ChosenAreUnique(s, request);
    if RoomForAll(s, request) {
      EverythingIsPlanned(s, request);
      StrictPassDecides(request.task, Planned(s, request), Elements(PlanOf(Chosen(s, request), request).omitted),
                        request.budget, request.maxRebalance + 1);
    }
  }

  lemma EverythingIsPlanned(s: set<Evidence>, request: Request)
    requires UniqueEvidence(s) && Plannable(s, request) && RoomForAll(s, request)
    ensures Planned(s, request) == KeptDrafts(s, request)
  {
    ChosenAreUnique(s, request);
    PlanTokens(s, request);
    var c := Chosen(s, request);
    var base := BaseEstimate(request).count;
    RefusedExactly(DraftsOf(c, request), RulesFor(request), request.budget, base);
    NormalShape(DraftsOf(c, request), RulesFor(request), request.budget, base);
    AllTakenIfAllFit(DraftsOf(c, request), RulesFor(request), request.budget, base);
    var kept := KeptDrafts(s, request);
    assert kept == Mandatory(kept) + Optional(kept);
  }

  /** The status of a delivered context. */
  lemma DeliveredStatus(s: set<Evidence>, request: Request, r: Compilation)
    requires UniqueEvidence(s) && CompilesTo(s, request, r) && r.Compiled?
    ensures r.status.DEGRADED? <==>
              || (request.selection.Some? && request.selection.value.degraded)
              || (request.degraded && r.selected != [])
    ensures r.status.EMPTY? <==> r.selected == [] && !(request.selection.Some? && request.selection.value.degraded)
  {
    DeliveredFrom(s, request, r);
    var o := FinalOutcome(Chosen(s, request), request);
    SortedNoRepeats(ShowKey, o.kept);
    EmptyElements(r.selected);
  }

  lemma PlanReaches(s: set<Evidence>, request: Request, r: Compilation)
    requires UniqueEvidence(s) && CompilesTo(s, request, r) && r.Compiled?
    ensures Plannable(s, request)
  {
    EarlyExits(s, request, r);
  }

  /** A delivered context is the plan without the first few to go, no fuller selection fitted, and those are reported. */
  lemma DeliveredIsFullest(s: set<Evidence>, request: Request, r: Compilation) returns (j: nat)
    requires UniqueEvidence(s) && CompilesTo(s, request, r) && r.Compiled? && request.budget.allowOmission
    ensures UniqueEvidence(Chosen(s, request)) && UniqueIdsIn(Planned(s, request)) && j <= request.maxRebalance
    ensures Elements(r.selected) == Remaining(Planned(s, request), j)
    ensures Elements(r.omitted)
         == Elements(PlanOf(Chosen(s, request), request).omitted) + Reported(FirstOut(Optional(Planned(s, request)), j))
    ensures forall i: nat :: i < j ==> !Shown(request.task, Remaining(Planned(s, request), i), request.budget)
  {
    PlanReaches(s, request, r);
    PlanOrFinish(s, request, r);
    ChosenAreUnique(s, request);
    var planned, left := Planned(s, request), Elements(PlanOf(Chosen(s, request), request).omitted);
    var o := Rebalance(request.task, planned, left, request.budget, request.maxRebalance + 1);
    j := PassEnds(request.task, planned, left, request.budget, request.maxRebalance + 1, o);
    SortedNoRepeats(ShowKey, o.kept);
    SortedNoRepeats(OmissionKey, o.omitted);
    FitsNoEarlier(request.task, planned, request.budget, request.maxRebalance + 1, j, o);
  }

  lemma FitsNoEarlier(task: string, kept: set<Draft>, budget: Budget, rounds: nat, j: nat, o: Outcome)
    requires UniqueIdsIn(kept) && EndsAt(Fitters(kept, FitAsRendered(task, budget)), rounds, j, o) && j <= |Optional(kept)|
    ensures forall i: nat :: i < j ==> !Shown(task, Remaining(kept, i), budget)
  {
    forall i: nat | i < j ensures !Shown(task, Remaining(kept, i), budget) {
      assert i !in Fitters(kept, FitAsRendered(task, budget));
    }
  }

  // ---- What a request's limits mean for the delivered context ----

  lemma FittingIsPart(task: string, kept: set<Draft>, omitted: set<Omission>, budget: Budget, rounds: nat, r: Compilation, request: Request)
    requires UniqueIdsIn(kept) && Ids(kept) !! OmittedIds(omitted)
    requires Reports(r, Rebalance(task, kept, omitted, budget, rounds), request) && r.Compiled?
    ensures Elements(r.selected) <= kept
  {
    RebalanceConserves(task, kept, omitted, budget, rounds);
    SortedNoRepeats(ShowKey, Rebalance(task, kept, omitted, budget, rounds).kept);
  }

  lemma DeliveredIsPlanned(s: set<Evidence>, request: Request, r: Compilation)
    requires UniqueEvidence(s) && CompilesTo(s, request, r) && r.Compiled?
    ensures UniqueEvidence(Chosen(s, request)) && Normal(PlanOf(Chosen(s, request), request), request.budget)
    ensures Elements(r.selected) <= Planned(s, request)
  {
    DeliveredFrom(s, request, r);
    PlanFacts(Chosen(s, request), request);
    FittingIsPart(request.task, Planned(s, request), Elements(PlanOf(Chosen(s, request), request).omitted),
                  request.budget, request.maxRebalance + 1, r, request);
  }

  /** The optional items of a delivered context keep within the profile's share of the budget and its number of items. */
  lemma DeliveredWithinShares(s: set<Evidence>, request: Request, r: Compilation)
    requires UniqueEvidence(s) && CompilesTo(s, request, r) && r.Compiled?
    ensures Total(Cost, Optional(Elements(r.selected))) <= request.budget.usable * request.percent / 100
    ensures |Optional(Elements(r.selected))| <= request.maxItems
  {
    DeliveredIsPlanned(s, request, r);
    ChosenAreUnique(s, request);
    PlanIsMaximalWithinBudget(DraftsOf(Chosen(s, request), request), RulesFor(request), request.budget, BaseEstimate(request).count);
    TotalOfPart(Optional(Elements(r.selected)), Optional(Planned(s, request)));
  }

  /** What a delivered context shows may be shown: known statuses, history only on request, nothing that looks like a credential. */
  lemma DeliveredMayBeShown(s: set<Evidence>, request: Request, r: Compilation, d: Draft)
    requires UniqueEvidence(s) && CompilesTo(s, request, r) && r.Compiled? && d in r.selected
    ensures d.status in STATUS_ORDER && (d.status == HISTORICAL ==> request.allowHistory) && !request.secret(d.text)
  {
    CompiledIsSound(s, request, r);
    ChosenAreUnique(s, request);
    assert d in Elements(r.selected);
    KeptMeans(DraftsOf(Chosen(s, request), request), RulesFor(request), d);
  }

  /** The wanted position of an id is where the selection names it last. */
  lemma {:induction false} PositionsMean(ids: seq<string>, n: nat, id: string)
    requires n <= |ids|
    ensures id in OrderUpTo(ids, n) <==> id in ids[..n]
    ensures id in OrderUpTo(ids, n) ==>
              && OrderUpTo(ids, n)[id] < n && ids[OrderUpTo(ids, n)[id]] == id
              && forall j {:trigger ids[j]} :: OrderUpTo(ids, n)[id] < j < n ==> ids[j] != id
  {
    if n > 0 {
      PositionsMean(ids, n - 1, id);
      assert ids[..n] == ids[..n - 1] + [ids[n - 1]];
    }
  }
}
