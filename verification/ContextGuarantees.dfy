/** What holds of every compilation, whatever the candidates, limits and order. */
module ContextGuarantees {
  import opened Ordering
  import opened KeyedSorting
  import opened ContextModel
  import opened ContextPlanner
  import opened ContextChoose
  import opened ContextRender
  import opened ContextCompiler

  lemma RemovalConserves(kept: set<Draft>, omitted: set<Omission>, d: Draft)
    requires UniqueIdsIn(kept) && d in Optional(kept) && Ids(kept) !! OmittedIds(omitted)
    ensures var o := omitted + {Omit(d, BUDGET_EXHAUSTED)};
            && UniqueIdsIn(kept - {d}) && Mandatory(kept - {d}) == Mandatory(kept)
            && Ids(kept - {d}) !! OmittedIds(o)
            && Ids(kept - {d}) + OmittedIds(o) == Ids(kept) + OmittedIds(omitted)
  {
    var o := Omit(d, BUDGET_EXHAUSTED);
    OmittedIdsUnion(omitted, {o});
    assert OmittedIds({o}) == {d.id};
    assert kept == kept - {d} + {d};
    assert Ids({d}) == {d.id};
    DisjointIds(kept, kept - {d}, {d});
  }

  /** The outcome accounts for what the final pass started with. */
  ghost predicate Conserves(task: string, kept: set<Draft>, omitted: set<Omission>, budget: Budget, o: Outcome) {
    match o
    case Fitting(k, out) =>
      && k <= kept && Mandatory(k) == Mandatory(kept) && UniqueIdsIn(k) && Shown(task, k, budget)
      && Ids(k) !! OmittedIds(out) && Ids(k) + OmittedIds(out) == Ids(kept) + OmittedIds(omitted)
    case MandatoryTooLarge(left) => omitted <= left && OmittedIds(left) <= Ids(kept) + OmittedIds(omitted)
    case Exhausted(left) => omitted <= left && OmittedIds(left) <= Ids(kept) + OmittedIds(omitted)
    case Disallowed => !budget.allowOmission
  }

  /** The final pass moves drafts from one side to the other and never a mandatory one. */
  lemma {:induction false} RebalanceConserves(
    task: string, kept: set<Draft>, omitted: set<Omission>, budget: Budget, rounds: nat)
    requires UniqueIdsIn(kept) && Ids(kept) !! OmittedIds(omitted)
    ensures Conserves(task, kept, omitted, budget, Rebalance(task, kept, omitted, budget, rounds))
    decreases rounds
  {
    if rounds > 0 && !Shown(task, kept, budget) && Optional(kept) != {} && budget.allowOmission {
      var d := Worst(Optional(kept));
      var longer := omitted + {Omit(d, BUDGET_EXHAUSTED)};
      RemovalConserves(kept, omitted, d);
      RebalanceConserves(task, kept - {d}, longer, budget, rounds - 1);
    }
  }

  /** The last draft the final pass dropped had to go: with it the rendering did not fit. */
  lemma {:induction false} RemovalsAreNeeded(
    task: string, kept: set<Draft>, omitted: set<Omission>, budget: Budget, rounds: nat)
    requires UniqueIdsIn(kept) && Rebalance(task, kept, omitted, budget, rounds).Fitting?
    ensures var k := Rebalance(task, kept, omitted, budget, rounds).kept;
            k == kept || exists d :: d in kept - k && UniqueIdsIn(k + {d}) && !Shown(task, k + {d}, budget)
    decreases rounds
  {
    if !Shown(task, kept, budget) {
      var d := Worst(Optional(kept));
      var rest, longer := kept - {d}, omitted + {Omit(d, BUDGET_EXHAUSTED)};
      RemovalsAreNeeded(task, rest, longer, budget, rounds - 1);
      var k := Rebalance(task, rest, longer, budget, rounds - 1).kept;
      if k == rest {
        assert k + {d} == kept;
      } else {
        var e :| e in rest - k && UniqueIdsIn(k + {e}) && !Shown(task, k + {e}, budget);
        assert e in kept - k;
      }
    }
  }

  /** A selection whose estimates fit is at most forty tokens over once it is rendered. */
  lemma EstimatesBoundRendering(task: string, kept: set<Draft>, budget: Budget)
    requires UniqueIdsIn(kept) && forall d :: d in kept ==> Measured(d)
    requires budget.hardBytes >= 3 * budget.usable
    requires ConservativeEstimate(BareBundle(task)).count + Total(Cost, kept) + 40 <= budget.usable
    ensures Shown(task, kept, budget)
  {
    RenderingBound(task, kept);
    TokensBoundBytes(Bundle(task, kept), budget.usable);
  }

  /** Every removal frees ten tokens, so the rounds cannot run out. */
  lemma {:induction false} RoundsSuffice(
    task: string, kept: set<Draft>, omitted: set<Omission>, budget: Budget, rounds: nat)
    requires UniqueIdsIn(kept) && forall d :: d in kept ==> Measured(d) && Cost(d) >= 10
    requires budget.hardBytes >= 3 * budget.usable && rounds > 0
    requires ConservativeEstimate(BareBundle(task)).count + Total(Cost, kept) + 40
          <= budget.usable + 10 * (rounds - 1)
    ensures !Rebalance(task, kept, omitted, budget, rounds).Exhausted?
    decreases rounds
  {
    if rounds == 1 {
      EstimatesBoundRendering(task, kept, budget);
    } else if !Shown(task, kept, budget) && Optional(kept) != {} && budget.allowOmission {
      var d := Worst(Optional(kept));
      TotalWithout(Cost, kept, d);
      RoundsSuffice(task, kept - {d}, omitted + {Omit(d, BUDGET_EXHAUSTED)}, budget, rounds - 1);
    }
  }

  lemma PlanFacts(s: set<Evidence>, request: Request)
    requires UniqueEvidence(s) && Normal(PlanOf(s, request), request.budget)
    ensures var plan := PlanOf(s, request);
            var drafts := DraftsOf(s, request);
            && UniqueIdsIn(drafts) && Elements(plan.selected) <= drafts
            && Ids(Elements(plan.selected)) !! OmittedIds(Elements(plan.omitted))
            && Ids(Elements(plan.selected)) + OmittedIds(Elements(plan.omitted)) == Ids(drafts)
            && Mandatory(Kept(drafts, RulesFor(request))) <= Elements(plan.selected) <= Kept(drafts, RulesFor(request))
            && BaseEstimate(request).count + Total(Cost, Elements(plan.selected)) <= request.budget.usable
  {
    DraftIds(s, request);
    PlanPartitions(DraftsOf(s, request), RulesFor(request), request.budget, BaseEstimate(request).count);
    PlanIsMaximalWithinBudget(DraftsOf(s, request), RulesFor(request), request.budget, BaseEstimate(request).count);
  }

  ghost function CandidateIds(s: set<Evidence>): set<string> {
    set e | e in s :: e.id
  }

  /** A delivered result comes from a plan that fitted and a final pass that ended in a fitting selection. */
  lemma DeliveredFrom(s: set<Evidence>, request: Request, r: Compilation)
    requires UniqueEvidence(s) && CompilesTo(s, request, r) && (r.Compiled? || r.Unverified?)
    ensures UniqueEvidence(Chosen(s, request)) && Normal(PlanOf(Chosen(s, request), request), request.budget)
    ensures Reports(r, FinalOutcome(Chosen(s, request), request), request)
  {
  }

  /** What the final pass makes of the plan. */
  ghost predicate SoundSelection(kept: set<Draft>, omitted: set<Omission>, drafts: set<Draft>, request: Request) {
    && UniqueIdsIn(kept) && Shown(request.task, kept, request.budget)
    && Ids(kept) !! OmittedIds(omitted) && Ids(kept) + OmittedIds(omitted) == Ids(drafts)
    && Mandatory(Kept(drafts, RulesFor(request))) <= kept <= Kept(drafts, RulesFor(request))
  }

  lemma OutcomeIsSound(c: set<Evidence>, request: Request)
    requires UniqueEvidence(c) && Normal(PlanOf(c, request), request.budget)
    ensures var o := FinalOutcome(c, request);
            o.Fitting? ==> SoundSelection(o.kept, o.omitted, DraftsOf(c, request), request)
  {
    PlanFacts(c, request);
    var plan := PlanOf(c, request);
    PassIsSound(DraftsOf(c, request), request, Elements(plan.selected), Elements(plan.omitted),
                FinalOutcome(c, request));
  }

  lemma PassIsSound(drafts: set<Draft>, request: Request, planned: set<Draft>, left: set<Omission>, o: Outcome)
    requires UniqueIdsIn(planned) && Ids(planned) !! OmittedIds(left)
    requires Ids(planned) + OmittedIds(left) == Ids(drafts)
    requires Mandatory(Kept(drafts, RulesFor(request))) <= planned <= Kept(drafts, RulesFor(request))
    requires o == Rebalance(request.task, planned, left, request.budget, request.maxRebalance + 1)
    ensures o.Fitting? ==> SoundSelection(o.kept, o.omitted, drafts, request)
  {
    RebalanceConserves(request.task, planned, left, request.budget, request.maxRebalance + 1);
    if o.Fitting? {
      MandatoryStays(Kept(drafts, RulesFor(request)), planned, o.kept);
    }
  }

  /** A returned bundle fits as rendered, accounts for every candidate once and holds all mandatory context. */
  lemma CompiledIsSound(s: set<Evidence>, request: Request, r: Compilation)
    requires UniqueEvidence(s) && CompilesTo(s, request, r) && r.Compiled?
    ensures UniqueEvidence(Chosen(s, request))
    ensures Within(ConservativeEstimate(r.text), request.budget)
    ensures UniqueIdsIn(Elements(r.selected)) && r.text == Bundle(request.task, Elements(r.selected))
    ensures Ids(Elements(r.selected)) !! OmittedIds(Elements(r.omitted))
    ensures Ids(Elements(r.selected)) + OmittedIds(Elements(r.omitted)) == CandidateIds(Chosen(s, request))
    ensures Mandatory(Kept(DraftsOf(Chosen(s, request), request), RulesFor(request))) <= Elements(r.selected)
    ensures Elements(r.selected) <= Kept(DraftsOf(Chosen(s, request), request), RulesFor(request))
  {
    var c := Chosen(s, request);
    DeliveredFrom(s, request, r);
    var o := FinalOutcome(c, request);
    OutcomeIsSound(c, request);
    DraftIds(c, request);
  }

  lemma MandatoryStays(all: set<Draft>, planned: set<Draft>, kept: set<Draft>)
    requires Mandatory(all) <= planned && kept <= planned && Mandatory(kept) == Mandatory(planned)
    ensures Mandatory(all) <= kept
  {
    forall d | d in Mandatory(all) ensures d in kept {
      assert d in Mandatory(planned);
    }
  }

  /** With three bytes a token and four rebalance rounds the compiler always verifies its final budget. */
  lemma VerificationNeverFails(s: set<Evidence>, request: Request, r: Compilation)
    requires UniqueEvidence(s) && CompilesTo(s, request, r)
    requires request.budget.hardBytes >= 3 * request.budget.usable && request.maxRebalance >= 4
    ensures !r.Unverified?
  {
    if r.Unverified? {
      DeliveredFrom(s, request, r);
      OutcomeIsReached(Chosen(s, request), request);
    }
  }

  /** A selection of measured fragments whose estimates fit beside the bare task. */
  ghost predicate Affordable(planned: set<Draft>, request: Request) {
    && UniqueIdsIn(planned)
    && (forall d :: d in planned ==> Measured(d) && Cost(d) >= 10)
    && BaseEstimate(request).count + Total(Cost, planned) <= request.budget.usable
  }

  lemma PlanIsAffordable(c: set<Evidence>, request: Request)
    requires UniqueEvidence(c) && Normal(PlanOf(c, request), request.budget)
    ensures Affordable(Elements(PlanOf(c, request).selected), request)
  {
    PlanFacts(c, request);
    KeptAreCostly(c, request, Elements(PlanOf(c, request).selected));
  }

  lemma OutcomeIsReached(c: set<Evidence>, request: Request)
    requires UniqueEvidence(c) && Normal(PlanOf(c, request), request.budget)
    requires request.budget.hardBytes >= 3 * request.budget.usable && request.maxRebalance >= 4
    ensures !FinalOutcome(c, request).Exhausted?
  {
    var plan := PlanOf(c, request);
    PlanIsAffordable(c, request);
    FourRemovalsSuffice(request, Elements(plan.selected), Elements(plan.omitted), FinalOutcome(c, request));
  }

  lemma FourRemovalsSuffice(request: Request, planned: set<Draft>, left: set<Omission>, o: Outcome)
    requires Affordable(planned, request)
    requires request.budget.hardBytes >= 3 * request.budget.usable && request.maxRebalance >= 4
    requires o == Rebalance(request.task, planned, left, request.budget, request.maxRebalance + 1)
    ensures !o.Exhausted?
  {
    var rounds := request.maxRebalance + 1;
    assert BaseEstimate(request).count + Total(Cost, planned) + 40 <= request.budget.usable + 10 * (rounds - 1);
    RoundsSuffice(request.task, planned, left, request.budget, rounds);
  }

  lemma KeptAreCostly(c: set<Evidence>, request: Request, chosen: set<Draft>)
    requires UniqueEvidence(c) && chosen <= Kept(DraftsOf(c, request), RulesFor(request))
    ensures forall d :: d in chosen ==> Measured(d) && Cost(d) >= 10
  {
    forall d | d in chosen ensures Measured(d) && Cost(d) >= 10 {
      assert d in DraftsOf(c, request) && Eligible(d.status);
      DraftsAreMeasured(c, request, d);
    }
  }

  /** The candidates and the request determine the result on every exit. */
  lemma CompilationIsDetermined(s: set<Evidence>, request: Request, a: Compilation, b: Compilation)
    requires UniqueEvidence(s) && CompilesTo(s, request, a) && CompilesTo(s, request, b)
    ensures a == b
  {
    var c := Chosen(s, request);
    if InScope(s, request) && Within(BaseEstimate(request), request.budget)
       && Normal(PlanOf(c, request), request.budget)
    {
      ReportIsDetermined(FinalOutcome(c, request), request, a, b);
    }
  }

  lemma ReportIsDetermined(o: Outcome, request: Request, a: Compilation, b: Compilation)
    requires Reports(a, o, request) && Reports(b, o, request)
    ensures a == b
  {
  }
}
