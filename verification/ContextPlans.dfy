/** What the planner decides, draft by draft. */
module ContextPlans {
  import opened Results
  import opened Ordering
  import opened KeyedSorting
  import opened ContextModel
  import opened ContextPlanner
  import opened ContextChoose

  // ---- Orders ----

  /** The statuses that may be shown, the strongest first. */
  const STATUS_ORDER := [AUTHORITATIVE, STATUS_GAP, CONTESTED, UNRESOLVED, SUPPORTING, HISTORICAL]

  predicate Outranks(a: ResolutionStatus, b: ResolutionStatus) {
    exists i, j :: 0 <= i < j < |STATUS_ORDER| && STATUS_ORDER[i] == a && STATUS_ORDER[j] == b
  }

  lemma RankIsPlace(a: ResolutionStatus, i: nat)
    requires Eligible(a) && i < |STATUS_ORDER|
    ensures Rank(a) < |STATUS_ORDER| && (STATUS_ORDER[i] == a <==> i == Rank(a))
  {
  }

  lemma RankMeans(a: ResolutionStatus, b: ResolutionStatus)
    requires Eligible(a) && Eligible(b)
    ensures a in STATUS_ORDER
    ensures Rank(a) < Rank(b) <==> Outranks(a, b)
    ensures Rank(a) == Rank(b) <==> a == b
  {
    RankIsPlace(a, Rank(a));
    RankIsPlace(b, Rank(b));
    assert STATUS_ORDER[Rank(a)] == a && STATUS_ORDER[Rank(b)] == b;
    if Outranks(a, b) {
      var i, j :| 0 <= i < j < |STATUS_ORDER| && STATUS_ORDER[i] == a && STATUS_ORDER[j] == b;
      RankIsPlace(a, i);
      RankIsPlace(b, j);
    }
  }

  /** Of two duplicates the stronger status wins, then the lower tier, then the first id. */
  predicate Wins(a: Draft, b: Draft) {
    || Outranks(a.status, b.status)
    || (a.status == b.status && (a.tier < b.tier || (a.tier == b.tier && StringLess(a.id, b.id))))
  }

  lemma DuplicateOrder(a: Draft, b: Draft)
    requires Eligible(a.status) && Eligible(b.status)
    ensures KeyLess(DuplicateKey(a), DuplicateKey(b)) <==> Wins(a, b)
  {
    RankMeans(a.status, b.status);
    RankMeans(b.status, a.status);
  }

  /** The wanted position of a draft; what is not wanted anywhere counts as first. */
  function Position(d: Draft, order: map<string, nat>): nat {
    if d.id in order then order[d.id] else 0
  }

  /** Optional drafts are offered by wanted position, then tier, then status, then id. */
  predicate OfferedBefore(a: Draft, b: Draft, order: map<string, nat>) {
    var x, y := Position(a, order), Position(b, order);
    || x < y
    || (x == y && a.tier < b.tier)
    || (x == y && a.tier == b.tier && Outranks(a.status, b.status))
    || (x == y && a.tier == b.tier && a.status == b.status && StringLess(a.id, b.id))
  }

  lemma OfferOrder(a: Draft, b: Draft, order: map<string, nat>)
    requires Eligible(a.status) && Eligible(b.status)
    ensures KeyLess(OptionalKey(order)(a), OptionalKey(order)(b)) <==> OfferedBefore(a, b, order)
  {
    RankMeans(a.status, b.status);
    RankMeans(b.status, a.status);
  }

  // ---- Who is kept ----

  /** The draft may be shown: an eligible status, no history unless it is wanted, nothing that looks like a credential. */
  predicate MayBeShown(d: Draft, rules: Rules) {
    && d.status in STATUS_ORDER
    && (d.status == HISTORICAL ==> rules.allowHistory)
    && !rules.secret(d.text)
  }

  lemma UsableMeans(d: Draft, rules: Rules)
    ensures Exclusion(d, rules).None? <==> MayBeShown(d, rules)
    ensures !Eligible(d.status) ==> Exclusion(d, rules) == Some(INELIGIBLE_LIFECYCLE)
    ensures d.status == HISTORICAL && !rules.allowHistory ==> Exclusion(d, rules) == Some(HISTORICAL_NOT_REQUESTED)
    ensures Eligible(d.status) && (d.status == HISTORICAL ==> rules.allowHistory) && rules.secret(d.text) ==>
              Exclusion(d, rules) == Some(SENSITIVE_CONTENT_DETECTED)
    ensures d.status in STATUS_ORDER <==> Eligible(d.status)
  {
    if Eligible(d.status) {
      RankMeans(d.status, d.status);
    }
  }

  /** A draft is kept exactly if it may be shown and wins against every other such member of its group. */
  lemma KeptMeans(s: set<Draft>, rules: Rules, d: Draft)
    requires UniqueIdsIn(s)
    ensures d in Kept(s, rules) <==>
              && d in s && MayBeShown(d, rules)
              && (d.group.Some? ==> forall w :: w in s && w != d && w.group == d.group && MayBeShown(w, rules) ==> Wins(d, w))
  {
    forall w | w in s ensures w in Usable(s, rules) <==> MayBeShown(w, rules) {
      UsableMeans(w, rules);
    }
    if d in Usable(s, rules) && d.group.Some? {
      UsableMeans(d, rules);
      forall w | w in Usable(s, rules) && w != d && w.group == d.group
        ensures KeyLess(DuplicateKey(w), DuplicateKey(d)) <==> !Wins(d, w)
      {
        UsableMeans(w, rules);
        DuplicateOrder(d, w);
        KeyLessTotal(DuplicateKey(d), DuplicateKey(w));
        if KeyLess(DuplicateKey(w), DuplicateKey(d)) {
          KeyLessAsymmetric(DuplicateKey(w), DuplicateKey(d));
        }
      }
      NotBeaten(Usable(s, rules), d);
    }
  }

  lemma NotBeaten(s: set<Draft>, d: Draft)
    requires d in s && d.group.Some?
    ensures Beaten(d, s) <==> exists w :: w in s && w != d && w.group == d.group && KeyLess(DuplicateKey(w), DuplicateKey(d))
  {
    StringLessIrreflexive(d.id);
  }

  // ---- Who fits ----

  /** The optional drafts of the final choice that were offered before this one. */
  ghost function ChosenBefore(d: Draft, chosen: set<Draft>, order: map<string, nat>): set<Draft> {
    set t | t in Optional(chosen) && OfferedBefore(t, d, order)
  }

  /** Beside these optional drafts there is room for one more under every limit. */
  ghost predicate HasRoom(d: Draft, beside: set<Draft>, mandatoryCost: int, rules: Rules, budget: Budget) {
    && mandatoryCost + Total(Cost, beside) + Cost(d) <= budget.usable
    && (rules.percent.Some? ==> Total(Cost, beside) + Cost(d) <= budget.usable * rules.percent.value / 100)
    && (rules.maxItems.Some? ==> |beside| < rules.maxItems.value)
  }

  /** Why there is no room: the profile's share is spent, its number of items is reached, or the budget is spent. */
  ghost function NoRoomReason(d: Draft, beside: set<Draft>, mandatoryCost: int, rules: Rules, budget: Budget): Reason {
    if rules.percent.Some?
       && (Total(Cost, beside) + Cost(d) > budget.usable * rules.percent.value / 100
           || mandatoryCost + Total(Cost, beside) + Cost(d) > budget.usable)
    then PROFILE_BUDGET_EXHAUSTED
    else if rules.maxItems.Some? && |beside| >= rules.maxItems.value then PROFILE_ITEM_LIMIT
    else BUDGET_EXHAUSTED
  }

  lemma RoomMeans(count: nat, spent: nat, d: Draft, mandatoryCost: nat, rules: Rules, budget: Budget, beside: set<Draft>)
    requires mandatoryCost <= budget.usable && spent == Total(Cost, beside) && count == |beside|
    ensures Fits(count, spent, d, LimitsFor(mandatoryCost, budget, rules)) <==> HasRoom(d, beside, mandatoryCost, rules, budget)
    ensures !HasRoom(d, beside, mandatoryCost, rules, budget) ==>
              DropReason(count, spent, d, LimitsFor(mandatoryCost, budget, rules)) == NoRoomReason(d, beside, mandatoryCost, rules, budget)
  {
  }

  lemma TakenNext(optional: seq<Draft>, n: nat, limits: Limits)
    requires n < |optional|
    ensures var p, q := PassUpTo(optional, n, limits), PassUpTo(optional, n + 1, limits);
            if Fits(|p.taken|, p.spent, optional[n], limits) then Elements(q.taken) == Elements(p.taken) + {optional[n]}
            else q.taken == p.taken
  {
    Appended(PassUpTo(optional, n, limits).taken, optional[n]);
  }

  lemma {:induction false} TakenAreOffered(optional: seq<Draft>, n: nat, limits: Limits)
    requires n <= |optional|
    ensures Elements(PassUpTo(optional, n, limits).taken) <= Elements(optional[..n])
  {
    if n > 0 {
      TakenAreOffered(optional, n - 1, limits);
      TakenNext(optional, n - 1, limits);
      PrefixStep(optional, n - 1);
    }
  }

  /** What the greedy pass had taken when it came to draft k is what it finally took of the drafts before it. */
  lemma {:induction false} TakenSoFar(optional: seq<Draft>, k: nat, n: nat, limits: Limits)
    requires k <= n <= |optional| && NoRepeats(optional)
    ensures Elements(PassUpTo(optional, k, limits).taken) == Elements(PassUpTo(optional, n, limits).taken) * Elements(optional[..k])
    decreases n
  {
    if k < n {
      TakenSoFar(optional, k, n - 1, limits);
      TakenNext(optional, n - 1, limits);
      assert optional[n - 1] !in optional[..k];
    } else {
      TakenAreOffered(optional, n, limits);
    }
  }

  /** What was dropped at its turn is reported with the reason it had then. */
  lemma {:induction false} DroppedStays(optional: seq<Draft>, k: nat, n: nat, limits: Limits)
    requires k < n <= |optional|
    ensures var p := PassUpTo(optional, k, limits);
            !Fits(|p.taken|, p.spent, optional[k], limits) ==>
              Omit(optional[k], DropReason(|p.taken|, p.spent, optional[k], limits)) in PassUpTo(optional, n, limits).dropped
    ensures var p := PassUpTo(optional, k, limits);
            Fits(|p.taken|, p.spent, optional[k], limits) ==> optional[k] in PassUpTo(optional, n, limits).taken
    decreases n
  {
    if k < n - 1 {
      DroppedStays(optional, k, n - 1, limits);
    }
  }

  // ---- The pass over the optional drafts ----

  ghost function OfferList(s: set<Draft>, rules: Rules): seq<Draft>
    requires UniqueIdsIn(s)
  {
    Sorted(OptionalKey(rules.order), Optional(Kept(s, rules)))
  }

  lemma OfferListOrder(s: set<Draft>, rules: Rules, k: nat, t: Draft)
    requires UniqueIdsIn(s) && k < |OfferList(s, rules)| && t in Optional(Kept(s, rules))
    ensures t in OfferList(s, rules)[..k] <==> OfferedBefore(t, OfferList(s, rules)[k], rules.order)
  {
    var order := OfferList(s, rules);
    var key := OptionalKey(rules.order);
    SortedNoRepeats(key, Optional(Kept(s, rules)));
    assert order[k] in Elements(order) && t in Elements(order);
    UsableMeans(t, rules);
    UsableMeans(order[k], rules);
    OfferOrder(t, order[k], rules.order);
    var j :| 0 <= j < |order| && order[j] == t;
    if j < k {
      assert ByKey(key)(order[j], order[k]) && order[..k][j] == t;
    } else if j == k {
      StringLessIrreflexive(t.id);
      assert t !in order[..k];
    } else {
      assert ByKey(key)(order[k], order[j]);
      KeyLessAsymmetric(key(order[k]), key(t));
      assert t !in order[..k];
    }
  }

  lemma TakenAmongEarlier(s: set<Draft>, rules: Rules, k: nat, taken: set<Draft>)
    requires UniqueIdsIn(s) && k < |OfferList(s, rules)| && taken <= Optional(Kept(s, rules))
    ensures taken * Elements(OfferList(s, rules)[..k]) == ChosenBefore(OfferList(s, rules)[k], taken, rules.order)
  {
    var order := OfferList(s, rules);
    forall t | t in taken ensures t in order[..k] <==> OfferedBefore(t, order[k], rules.order) {
      OfferListOrder(s, rules, k, t);
    }
  }

  /** What had been taken when the pass came to draft k. */
  lemma TakenBefore(s: set<Draft>, rules: Rules, limits: Limits, k: nat)
    requires UniqueIdsIn(s) && k < |OfferList(s, rules)|
    ensures var order := OfferList(s, rules);
            var p := PassUpTo(order, k, limits);
            var before := ChosenBefore(order[k], Elements(PassUpTo(order, |order|, limits).taken), rules.order);
            Elements(p.taken) == before && |p.taken| == |before| && p.spent == Total(Cost, before)
  {
    var order := OfferList(s, rules);
    SortedNoRepeats(OptionalKey(rules.order), Optional(Kept(s, rules)));
    PassAccounts(order, k, limits);
    TakenSoFar(order, k, |order|, limits);
    TakenAreOffered(order, |order|, limits);
    assert order[..|order|] == order;
    TakenAmongEarlier(s, rules, k, Elements(PassUpTo(order, |order|, limits).taken));
    NoRepeatsCounts(PassUpTo(order, k, limits).taken);
  }

  /** An optional draft is taken exactly if there is room for it beside what was taken before it; otherwise the reason is reported. */
  ghost predicate Decided(d: Draft, taken: set<Draft>, reported: set<Omission>, cost: int, rules: Rules, budget: Budget) {
    var before := ChosenBefore(d, taken, rules.order);
    && (d in taken <==> HasRoom(d, before, cost, rules, budget))
    && (d !in taken ==> Omission(d.id, NoRoomReason(d, before, cost, rules, budget), d.role, d.tier) in reported)
  }

  lemma DecidedAlike(d: Draft, a: set<Draft>, b: set<Draft>, x: set<Omission>, y: set<Omission>, cost: int, rules: Rules, budget: Budget)
    requires Decided(d, a, x, cost, rules, budget) && Optional(a) == Optional(b) && x <= y && !d.mandatory
    ensures Decided(d, b, y, cost, rules, budget)
  {
    assert ChosenBefore(d, a, rules.order) == ChosenBefore(d, b, rules.order);
    assert d in a <==> d in Optional(a);
    assert d in b <==> d in Optional(b);
  }

  lemma PassDecides(s: set<Draft>, rules: Rules, budget: Budget, base: nat, d: Draft)
    requires UniqueIdsIn(s) && 0 <= MandatoryCost(s, rules, base) <= budget.usable && d in Optional(Kept(s, rules))
    ensures var pass := OptionalPass(s, rules, budget, base);
            Decided(d, Elements(pass.taken), Elements(pass.dropped), MandatoryCost(s, rules, base), rules, budget)
  {
    var order := OfferList(s, rules);
    var limits := LimitsFor(MandatoryCost(s, rules, base), budget, rules);
    SortedNoRepeats(OptionalKey(rules.order), Optional(Kept(s, rules)));
    assert d in Elements(order);
    var k :| 0 <= k < |order| && order[k] == d;
    TakenBefore(s, rules, limits, k);
    var p := PassUpTo(order, k, limits);
    RoomMeans(|p.taken|, p.spent, d, MandatoryCost(s, rules, base), rules, budget, Elements(p.taken));
    DroppedStays(order, k, |order|, limits);
    OptionalAccounts(s, rules, budget, base);
    if !Fits(|p.taken|, p.spent, d, limits) {
      DroppedIsNotTaken(OptionalPass(s, rules, budget, base), Optional(Kept(s, rules)), d, DropReason(|p.taken|, p.spent, d, limits));
    }
  }

  lemma DroppedIsNotTaken(pass: Pass, seen: set<Draft>, d: Draft, reason: Reason)
    requires PassAccount(pass, seen) && Omit(d, reason) in pass.dropped
    ensures d !in pass.taken
  {
    assert Omit(d, reason) in Elements(pass.dropped);
    assert d.id in OmittedIds(Elements(pass.dropped));
    assert d in pass.taken ==> d.id in Ids(Elements(pass.taken));
  }

  // ---- The whole plan ----

  lemma PlanCost(s: set<Draft>, rules: Rules, budget: Budget, base: nat)
    requires UniqueIdsIn(s)
    ensures PlanFor(s, rules, budget, base).mandatoryCost == base + Total(Cost, Mandatory(Kept(s, rules)))
  {
    CostIsNat(s, rules, base);
  }

  /** On the normal return an optional draft is chosen exactly if it has room beside the chosen ones offered before it. */
  lemma ChosenExactly(s: set<Draft>, rules: Rules, budget: Budget, base: nat, d: Draft)
    requires UniqueIdsIn(s) && Normal(PlanFor(s, rules, budget, base), budget) && d in Optional(Kept(s, rules))
    ensures var plan := PlanFor(s, rules, budget, base);
            Decided(d, Elements(plan.selected), Elements(plan.omitted), plan.mandatoryCost, rules, budget)
  {
    var plan := PlanFor(s, rules, budget, base);
    var pass := OptionalPass(s, rules, budget, base);
    NormalShape(s, rules, budget, base);
    PassDecides(s, rules, budget, base, d);
    OptionalPart(Kept(s, rules), Elements(pass.taken));
    DecidedAlike(d, Elements(pass.taken), Elements(plan.selected), Elements(pass.dropped), Elements(plan.omitted),
                 plan.mandatoryCost, rules, budget);
  }

  lemma OptionalPart(kept: set<Draft>, taken: set<Draft>)
    requires taken <= Optional(kept)
    ensures Optional(Mandatory(kept) + taken) == taken == Optional(taken)
  {
  }

  /** Why a draft is not even a candidate for the budget. */
  function EarlyReason(d: Draft, rules: Rules): Reason {
    if d.status !in STATUS_ORDER then INELIGIBLE_LIFECYCLE
    else if d.status == HISTORICAL && !rules.allowHistory then HISTORICAL_NOT_REQUESTED
    else if rules.secret(d.text) then SENSITIVE_CONTENT_DETECTED
    else REDUNDANT_EXACT_DUPLICATE
  }

  lemma EarlyIsReported(s: set<Draft>, rules: Rules, d: Draft)
    requires UniqueIdsIn(s) && d in s && d !in Kept(s, rules)
    ensures Omission(d.id, EarlyReason(d, rules), d.role, d.tier) in EarlyOmissions(s, rules)
  {
    UsableMeans(d, rules);
    if d in Usable(s, rules) {
      assert Omit(d, REDUNDANT_EXACT_DUPLICATE) in Duplicates(Usable(s, rules));
    } else {
      assert Omit(d, Exclusion(d, rules).value) in Excluded(s, rules);
    }
  }

  /** Whatever may not be shown or is redundant is reported so, whether the plan is made or the mandatory drafts overflow. */
  lemma EarlyOmissionsAreReported(s: set<Draft>, rules: Rules, budget: Budget, base: nat, d: Draft)
    requires UniqueIdsIn(s) && d in s && d !in Kept(s, rules) && PlanFor(s, rules, budget, base).disallowed.None?
    ensures d !in PlanFor(s, rules, budget, base).selected
    ensures Omission(d.id, EarlyReason(d, rules), d.role, d.tier) in PlanFor(s, rules, budget, base).omitted
  {
    var plan := PlanFor(s, rules, budget, base);
    var o := Omission(d.id, EarlyReason(d, rules), d.role, d.tier);
    EarlyIsReported(s, rules, d);
    if plan.mandatoryCost > budget.usable {
      OverflowAccounts(s, rules);
      SortedNoRepeats(OmissionKey, EarlyOmissions(s, rules) + Overflowing(Mandatory(Kept(s, rules))));
      assert o in Elements(plan.omitted);
    } else {
      NormalShape(s, rules, budget, base);
      PlanIsMaximalWithinBudget(s, rules, budget, base);
      assert o in Elements(plan.omitted);
      assert d in plan.selected ==> d in Elements(plan.selected);
    }
  }

  /** If the mandatory drafts overflow the budget, each of them is reported and nothing is selected. */
  lemma OverflowIsReported(s: set<Draft>, rules: Rules, budget: Budget, base: nat, d: Draft)
    requires UniqueIdsIn(s) && PlanFor(s, rules, budget, base).mandatoryCost > budget.usable
    ensures PlanFor(s, rules, budget, base).selected == [] && PlanFor(s, rules, budget, base).disallowed.None?
    ensures d in Kept(s, rules) && d.mandatory ==>
              Omission(d.id, MANDATORY_OVERFLOW, d.role, d.tier) in PlanFor(s, rules, budget, base).omitted
  {
    var kept := Kept(s, rules);
    OverflowAccounts(s, rules);
    SortedNoRepeats(OmissionKey, EarlyOmissions(s, rules) + Overflowing(Mandatory(kept)));
    if d in kept && d.mandatory {
      assert Omit(d, MANDATORY_OVERFLOW) in Overflowing(Mandatory(kept));
      assert Omit(d, MANDATORY_OVERFLOW) in Elements(PlanFor(s, rules, budget, base).omitted);
    }
  }

  // ---- When nothing may be left out ----

  /** All kept drafts have room together. */
  ghost predicate AllFit(s: set<Draft>, rules: Rules, budget: Budget, base: nat) {
    && base + Total(Cost, Kept(s, rules)) <= budget.usable
    && (rules.percent.Some? ==> Total(Cost, Optional(Kept(s, rules))) <= budget.usable * rules.percent.value / 100)
    && (rules.maxItems.Some? ==> |Optional(Kept(s, rules))| <= rules.maxItems.value)
  }

  lemma KeptTotal(s: set<Draft>, rules: Rules)
    ensures Total(Cost, Kept(s, rules)) == Total(Cost, Mandatory(Kept(s, rules))) + Total(Cost, Optional(Kept(s, rules)))
  {
    var kept := Kept(s, rules);
    assert kept == Mandatory(kept) + Optional(kept);
    TotalUnion(Cost, Mandatory(kept), Optional(kept));
  }

  lemma TotalOfPart(a: set<Draft>, b: set<Draft>)
    requires a <= b
    ensures Total(Cost, a) <= Total(Cost, b) && |a| <= |b|
  {
    assert b == a + (b - a);
    TotalUnion(Cost, a, b - a);
    TotalAtLeast(Cost, b - a, 0);
    SubsetSize(a, b);
  }

  lemma TotalGrows(a: set<Draft>, d: Draft, b: set<Draft>)
    requires a <= b && d in b && d !in a
    ensures Total(Cost, a) + Cost(d) <= Total(Cost, b)
    ensures |a| < |b|
  {
    TotalWith(Cost, a, d);
    TotalOfPart(a + {d}, b);
  }

  lemma RoomIfAllFit(s: set<Draft>, rules: Rules, budget: Budget, base: nat, d: Draft, before: set<Draft>)
    requires AllFit(s, rules, budget, base) && d in Optional(Kept(s, rules)) && before <= Optional(Kept(s, rules)) && d !in before
    ensures HasRoom(d, before, MandatoryCost(s, rules, base), rules, budget)
  {
    KeptTotal(s, rules);
    TotalGrows(before, d, Optional(Kept(s, rules)));
  }

  lemma TakenIfAllFit(s: set<Draft>, rules: Rules, budget: Budget, base: nat, d: Draft)
    requires UniqueIdsIn(s) && 0 <= MandatoryCost(s, rules, base) <= budget.usable
    requires AllFit(s, rules, budget, base) && d in Optional(Kept(s, rules))
    ensures d in Elements(OptionalPass(s, rules, budget, base).taken)
  {
    var taken := Elements(OptionalPass(s, rules, budget, base).taken);
    OptionalAccounts(s, rules, budget, base);
    PassDecides(s, rules, budget, base, d);
    StringLessIrreflexive(d.id);
    NotBeforeItself(d, taken, rules.order);
    RoomIfAllFit(s, rules, budget, base, d, ChosenBefore(d, taken, rules.order));
  }

  lemma NotBeforeItself(d: Draft, taken: set<Draft>, order: map<string, nat>)
    ensures d !in ChosenBefore(d, taken, order) && ChosenBefore(d, taken, order) <= taken
  {
    StringLessIrreflexive(d.id);
  }

  lemma AllFitIfAllTaken(s: set<Draft>, rules: Rules, budget: Budget, base: nat)
    requires UniqueIdsIn(s) && 0 <= MandatoryCost(s, rules, base) <= budget.usable
    requires Elements(OptionalPass(s, rules, budget, base).taken) == Optional(Kept(s, rules))
    ensures AllFit(s, rules, budget, base)
  {
    OptionalAccounts(s, rules, budget, base);
    KeptTotal(s, rules);
    PassWithin(s, rules, budget, base);
    NoRepeatsCounts(OptionalPass(s, rules, budget, base).taken);
  }

  lemma AllTakenIfAllFit(s: set<Draft>, rules: Rules, budget: Budget, base: nat)
    requires UniqueIdsIn(s) && 0 <= MandatoryCost(s, rules, base) <= budget.usable
    ensures Elements(OptionalPass(s, rules, budget, base).taken) == Optional(Kept(s, rules)) <==> AllFit(s, rules, budget, base)
  {
    OptionalAccounts(s, rules, budget, base);
    if AllFit(s, rules, budget, base) {
      forall d | d in Optional(Kept(s, rules)) ensures d in Elements(OptionalPass(s, rules, budget, base).taken) {
        TakenIfAllFit(s, rules, budget, base, d);
      }
    } else if Elements(OptionalPass(s, rules, budget, base).taken) == Optional(Kept(s, rules)) {
      AllFitIfAllTaken(s, rules, budget, base);
    }
  }

  lemma NothingDropped(pass: Pass, seen: set<Draft>)
    requires UniqueIdsIn(seen) && PassAccount(pass, seen)
    ensures pass.dropped == [] <==> Elements(pass.taken) == seen
  {
    if pass.dropped == [] {
      assert Elements(pass.dropped) == {};
      forall d | d in seen ensures d in Elements(pass.taken) {
        assert d.id in Ids(seen);
        var t :| t in Elements(pass.taken) && t.id == d.id;
      }
    } else {
      assert pass.dropped[0] in Elements(pass.dropped);
      assert pass.dropped[0].id in OmittedIds(Elements(pass.dropped));
    }
  }

  /** The plan is refused exactly if the mandatory drafts fit, nothing may be left out, and not everything fits. */
  lemma RefusedExactly(s: set<Draft>, rules: Rules, budget: Budget, base: nat)
    requires UniqueIdsIn(s)
    ensures var plan := PlanFor(s, rules, budget, base);
            && (plan.disallowed.Some? <==>
                  plan.mandatoryCost <= budget.usable && !budget.allowOmission && !AllFit(s, rules, budget, base))
            && (plan.disallowed.Some? ==> plan.selected == [] && plan.omitted == [])
  {
    CostIsNat(s, rules, base);
    if MandatoryCost(s, rules, base) <= budget.usable {
      OptionalAccounts(s, rules, budget, base);
      AllTakenIfAllFit(s, rules, budget, base);
      NothingDropped(OptionalPass(s, rules, budget, base), Optional(Kept(s, rules)));
    }
  }

  /** What is shown is in order of tier and id, what is left out in order of id. */
  predicate InOrder(shown: seq<Draft>, omitted: seq<Omission>) {
    && (forall i, j {:trigger shown[i], shown[j]} :: 0 <= i < j < |shown| ==>
          shown[i].tier < shown[j].tier || (shown[i].tier == shown[j].tier && StringLess(shown[i].id, shown[j].id)))
    && (forall i, j {:trigger omitted[i], omitted[j]} :: 0 <= i < j < |omitted| ==> StringLess(omitted[i].id, omitted[j].id))
  }

  lemma SortedInOrder(shown: seq<Draft>, omitted: seq<Omission>)
    requires Increasing(ByKey(ShowKey), shown) && Increasing(ByKey(OmissionKey), omitted)
    ensures InOrder(shown, omitted)
  {
    forall i, j {:trigger shown[i], shown[j]} | 0 <= i < j < |shown|
      ensures shown[i].tier < shown[j].tier || (shown[i].tier == shown[j].tier && StringLess(shown[i].id, shown[j].id))
    {
      assert KeyLess(ShowKey(shown[i]), ShowKey(shown[j]));
    }
    forall i, j {:trigger omitted[i], omitted[j]} | 0 <= i < j < |omitted|
      ensures StringLess(omitted[i].id, omitted[j].id)
    {
      assert KeyLess(OmissionKey(omitted[i]), OmissionKey(omitted[j]));
    }
  }

  /** Both lists of every plan are in order. */
  lemma PlanIsSorted(s: set<Draft>, rules: Rules, budget: Budget, base: nat)
    requires UniqueIdsIn(s)
    ensures InOrder(PlanFor(s, rules, budget, base).selected, PlanFor(s, rules, budget, base).omitted)
  {
    var plan := PlanFor(s, rules, budget, base);
    CostIsNat(s, rules, base);
    if plan.mandatoryCost > budget.usable {
      OverflowAccounts(s, rules);
    } else {
      OptionalAccounts(s, rules, budget, base);
    }
    assert Increasing(ByKey(ShowKey), plan.selected) && Increasing(ByKey(OmissionKey), plan.omitted);
    SortedInOrder(plan.selected, plan.omitted);
  }
}
