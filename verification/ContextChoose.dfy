/** The planner's loops, and what every plan guarantees. */
module ContextChoose {
  import opened Results
  import opened Ordering
  import opened KeyedSorting
  import opened ContextModel
  import opened ContextPlanner

  // ---- The loops ----

  method Classify(drafts: seq<Draft>, rules: Rules) returns (eligible: seq<Draft>, omitted: seq<Omission>)
    requires UniqueIds(drafts)
    ensures Elements(eligible) == Usable(Elements(drafts), rules)
    ensures Elements(omitted) == Excluded(Elements(drafts), rules)
    ensures NoRepeats(eligible) && NoRepeats(omitted)
  {
    UniqueIdsOfElements(drafts);
    eligible, omitted := [], [];
    for n := 0 to |drafts|
      invariant Elements(eligible) == Usable(Elements(drafts[..n]), rules)
      invariant Elements(omitted) == Excluded(Elements(drafts[..n]), rules)
      invariant NoRepeats(eligible) && NoRepeats(omitted)
    {
      var d := drafts[n];
      PrefixStep(drafts, n);
      match Exclusion(d, rules)
      case None =>
        Appended(eligible, d);
        eligible := eligible + [d];
      case Some(reason) =>
        Appended(omitted, Omit(d, reason));
        omitted := omitted + [Omit(d, reason)];
    }
    assert drafts[..|drafts|] == drafts;
  }

  ghost function InGroup(s: set<Draft>, g: string): set<Draft> {
    set d | d in s && d.group == Some(g)
  }

  ghost function Ungrouped(s: set<Draft>): set<Draft> {
    set d | d in s && d.group.None?
  }

  /** The table of groups holds exactly the grouped drafts. */
  ghost predicate GroupTable(groups: map<string, seq<Draft>>, s: set<Draft>) {
    && (forall g :: g in groups ==> groups[g] != [] && NoRepeats(groups[g]) && Elements(groups[g]) == InGroup(s, g))
    && (forall d :: d in s && d.group.Some? ==> d.group.value in groups)
  }

  lemma GroupStep(groups: map<string, seq<Draft>>, s: set<Draft>, d: Draft, g: string, values: seq<Draft>)
    requires GroupTable(groups, s) && d !in s && d.group == Some(g)
    requires values == if g in groups then groups[g] else []
    ensures GroupTable(groups[g := values + [d]], s + {d})
  {
    assert Elements(values) == InGroup(s, g);
    Appended(values, d);
    assert InGroup(s + {d}, g) == InGroup(s, g) + {d};
    forall h | h in groups && h != g ensures InGroup(s + {d}, h) == InGroup(s, h) {
    }
  }

  method Group(drafts: seq<Draft>) returns (ungrouped: seq<Draft>, groups: map<string, seq<Draft>>)
    requires NoRepeats(drafts)
    ensures NoRepeats(ungrouped) && Elements(ungrouped) == Ungrouped(Elements(drafts))
    ensures GroupTable(groups, Elements(drafts))
  {
    ungrouped, groups := [], map[];
    for n := 0 to |drafts|
      invariant NoRepeats(ungrouped) && Elements(ungrouped) == Ungrouped(Elements(drafts[..n]))
      invariant GroupTable(groups, Elements(drafts[..n]))
    {
      var d := drafts[n];
      PrefixStep(drafts, n);
      match d.group
      case None =>
        Appended(ungrouped, d);
        ungrouped := ungrouped + [d];
      case Some(g) =>
        var values := if g in groups then groups[g] else [];
        GroupStep(groups, Elements(drafts[..n]), d, g, values);
        assert Ungrouped(Elements(drafts[..n + 1])) == Ungrouped(Elements(drafts[..n]));
        groups := groups[g := values + [d]];
    }
    assert drafts[..|drafts|] == drafts;
  }

  ghost function LosersOf(s: set<Draft>, winner: Draft): set<Omission> {
    set d | d in s && d != winner :: Omit(d, REDUNDANT_EXACT_DUPLICATE)
  }

  /** The member of a group that stays, and the others. */
  method CloseGroup(values: seq<Draft>) returns (winner: Draft, losers: seq<Omission>)
    requires values != [] && NoRepeats(values) && UniqueIdsIn(Elements(values))
    ensures winner in values && forall y :: y in values && y != winner ==> KeyLess(DuplicateKey(winner), DuplicateKey(y))
    ensures NoRepeats(losers) && Elements(losers) == LosersOf(Elements(values), winner)
  {
    winner := Least(DuplicateKey, values);
    losers := [];
    for n := 0 to |values|
      invariant NoRepeats(losers) && Elements(losers) == LosersOf(Elements(values[..n]), winner)
    {
      var d := values[n];
      PrefixStep(values, n);
      if d != winner {
        Appended(losers, Omit(d, REDUNDANT_EXACT_DUPLICATE));
        losers := losers + [Omit(d, REDUNDANT_EXACT_DUPLICATE)];
      } else {
        assert LosersOf(Elements(values[..n + 1]), winner) == LosersOf(Elements(values[..n]), winner);
      }
    }
    assert values[..|values|] == values;
  }

  /** Only a member of the same group beats a draft, so the least member alone is retained. */
  lemma LeastIsRetained(s: set<Draft>, g: string, winner: Draft)
    requires winner in InGroup(s, g)
    requires forall y :: y in InGroup(s, g) && y != winner ==> KeyLess(DuplicateKey(winner), DuplicateKey(y))
    ensures forall d :: d in InGroup(s, g) ==> (Beaten(d, s) <==> d != winner)
  {
    forall d | d in InGroup(s, g) ensures Beaten(d, s) <==> d != winner {
      if d == winner && Beaten(d, s) {
        var w :| w in s && w.group == d.group && KeyLess(DuplicateKey(w), DuplicateKey(d));
        assert w in InGroup(s, g);
        KeyLessAsymmetric(DuplicateKey(w), DuplicateKey(winner));
      }
    }
  }

  ghost predicate Settled(d: Draft, pending: set<string>) {
    d.group.None? || d.group.value !in pending
  }

  ghost function RetainedOf(s: set<Draft>, pending: set<string>): set<Draft> {
    set d | d in s && Settled(d, pending) && !Beaten(d, s)
  }

  ghost function DuplicatesOf(s: set<Draft>, pending: set<string>): set<Omission> {
    set d | d in s && Settled(d, pending) && Beaten(d, s) :: Omit(d, REDUNDANT_EXACT_DUPLICATE)
  }

  lemma GroupSettles(s: set<Draft>, pending: set<string>, g: string, winner: Draft)
    requires g in pending && winner in InGroup(s, g)
    requires forall y :: y in InGroup(s, g) && y != winner ==> KeyLess(DuplicateKey(winner), DuplicateKey(y))
    ensures RetainedOf(s, pending - {g}) == RetainedOf(s, pending) + {winner}
    ensures DuplicatesOf(s, pending - {g}) == DuplicatesOf(s, pending) + LosersOf(InGroup(s, g), winner)
    ensures winner !in RetainedOf(s, pending)
    ensures UniqueIdsIn(s) ==> OmittedIds(DuplicatesOf(s, pending)) !! OmittedIds(LosersOf(InGroup(s, g), winner))
  {
    LeastIsRetained(s, g, winner);
    assert forall d :: d in s ==> (Settled(d, pending - {g}) <==> Settled(d, pending) || d in InGroup(s, g));
    forall o ensures o in DuplicatesOf(s, pending - {g})
                 <==> o in DuplicatesOf(s, pending) || o in LosersOf(InGroup(s, g), winner)
    {
      if o in DuplicatesOf(s, pending - {g}) {
        var d :| d in s && Settled(d, pending - {g}) && Beaten(d, s) && o == Omit(d, REDUNDANT_EXACT_DUPLICATE);
        assert d in InGroup(s, g) || Settled(d, pending);
      }
    }
  }

  method Dedupe(drafts: seq<Draft>) returns (retained: seq<Draft>, omitted: seq<Omission>)
    requires NoRepeats(drafts) && UniqueIdsIn(Elements(drafts))
    ensures NoRepeats(retained) && Elements(retained) == Retained(Elements(drafts))
    ensures NoRepeats(omitted) && Elements(omitted) == Duplicates(Elements(drafts))
  {
    ghost var s := Elements(drafts);
    var groups;
    retained, groups := Group(drafts);
    omitted := [];
    var pending := groups.Keys;
    assert RetainedOf(s, pending) == Ungrouped(s) && DuplicatesOf(s, pending) == {};
    while pending != {}
      invariant pending <= groups.Keys
      invariant NoRepeats(retained) && Elements(retained) == RetainedOf(s, pending)
      invariant NoRepeats(omitted) && Elements(omitted) == DuplicatesOf(s, pending)
      decreases |pending|
    {
      var g :| g in pending;
      var winner, losers := CloseGroup(groups[g]);
      assert forall y :: y in InGroup(s, g) <==> y in Elements(groups[g]);
      GroupSettles(s, pending, g, winner);
      OmissionsDisjoint(omitted, losers);
      Appended(retained, winner);
      retained := retained + [winner];
      omitted := omitted + losers;
      pending := pending - {g};
    }
    assert RetainedOf(s, {}) == Retained(s) && DuplicatesOf(s, {}) == Duplicates(s);
  }

  lemma OmissionsDisjoint(a: seq<Omission>, b: seq<Omission>)
    requires NoRepeats(a) && NoRepeats(b) && OmittedIds(Elements(a)) !! OmittedIds(Elements(b))
    ensures NoRepeats(a + b) && Elements(a + b) == Elements(a) + Elements(b)
  {
    assert forall o :: o in Elements(a) ==> o.id in OmittedIds(Elements(a));
    assert forall o :: o in Elements(b) ==> o.id in OmittedIds(Elements(b));
    Concatenated(a, b);
  }

  lemma SplitStep(s: set<Draft>, d: Draft)
    requires d !in s
    ensures d !in Mandatory(s) && d !in Optional(s)
    ensures d.mandatory ==> Mandatory(s + {d}) == Mandatory(s) + {d} && Optional(s + {d}) == Optional(s)
    ensures !d.mandatory ==> Mandatory(s + {d}) == Mandatory(s) && Optional(s + {d}) == Optional(s) + {d}
    ensures Total(Cost, Mandatory(s) + {d}) == Total(Cost, Mandatory(s)) + d.cost.count
  {
    TotalWith(Cost, Mandatory(s), d);
  }

  method SplitMandatory(drafts: seq<Draft>) returns (mandatory: seq<Draft>, optional: seq<Draft>, total: nat)
    requires NoRepeats(drafts)
    ensures NoRepeats(mandatory) && Elements(mandatory) == Mandatory(Elements(drafts))
    ensures NoRepeats(optional) && Elements(optional) == Optional(Elements(drafts))
    ensures total == Total(Cost, Mandatory(Elements(drafts)))
  {
    mandatory, optional, total := [], [], 0;
    for n := 0 to |drafts|
      invariant NoRepeats(mandatory) && Elements(mandatory) == Mandatory(Elements(drafts[..n]))
      invariant NoRepeats(optional) && Elements(optional) == Optional(Elements(drafts[..n]))
      invariant total == Total(Cost, Mandatory(Elements(drafts[..n])))
    {
      var d := drafts[n];
      PrefixStep(drafts, n);
      SplitStep(Elements(drafts[..n]), d);
      if d.mandatory {
        Appended(mandatory, d);
        mandatory, total := mandatory + [d], total + d.cost.count;
      } else {
        Appended(optional, d);
        optional := optional + [d];
      }
    }
    assert drafts[..|drafts|] == drafts;
  }

  /** Reasons are added in the order of the drafts, so a first one stays first. */
  lemma {:induction false} FirstDropStays(optional: seq<Draft>, n: nat, m: nat, limits: Limits)
    requires n <= m <= |optional| && PassUpTo(optional, n, limits).dropped != []
    ensures PassUpTo(optional, m, limits).dropped != []
    ensures PassUpTo(optional, m, limits).dropped[0] == PassUpTo(optional, n, limits).dropped[0]
    decreases m
  {
    if n < m {
      FirstDropStays(optional, n, m - 1, limits);
    }
  }

  /** The greedy loop; it stops at the first draft that may not be left out. */
  method TakeOptional(optional: seq<Draft>, limits: Limits, allowOmission: bool)
    returns (taken: seq<Draft>, dropped: seq<Omission>, disallowed: Option<Reason>)
    ensures var pass := PassUpTo(optional, |optional|, limits);
            if pass.dropped != [] && !allowOmission then disallowed == Some(pass.dropped[0].reason)
            else disallowed == None && taken == pass.taken && dropped == pass.dropped
  {
    taken, dropped, disallowed := [], [], None;
    var spent: nat := 0;
    for n := 0 to |optional|
      invariant Pass(taken, spent, dropped) == PassUpTo(optional, n, limits)
      invariant disallowed == None && (dropped == [] || allowOmission)
    {
      var d := optional[n];
      if Fits(|taken|, spent, d, limits) {
        taken, spent := taken + [d], spent + d.cost.count;
      } else {
        var reason := DropReason(|taken|, spent, d, limits);
        if !allowOmission {
          disallowed := Some(reason);
          FirstDropStays(optional, n + 1, |optional|, limits);
          return;
        }
        dropped := dropped + [Omit(d, reason)];
      }
    }
  }

  method MarkOverflow(mandatory: seq<Draft>) returns (omitted: seq<Omission>)
    requires NoRepeats(mandatory) && UniqueIdsIn(Elements(mandatory))
    ensures NoRepeats(omitted) && Elements(omitted) == Overflowing(Elements(mandatory))
  {
    omitted := [];
    for n := 0 to |mandatory|
      invariant NoRepeats(omitted) && Elements(omitted) == Overflowing(Elements(mandatory[..n]))
    {
      var d := mandatory[n];
      PrefixStep(mandatory, n);
      Appended(omitted, Omit(d, MANDATORY_OVERFLOW));
      omitted := omitted + [Omit(d, MANDATORY_OVERFLOW)];
    }
    assert mandatory[..|mandatory|] == mandatory;
  }

  /** The part of the planner after the mandatory drafts turned out to fit. */
  method ChooseOptional(mandatory: seq<Draft>, optional: seq<Draft>, early: seq<Omission>, ghost s: set<Draft>,
                        rules: Rules, budget: Budget, base: nat, cost: nat)
    returns (plan: Plan)
    requires UniqueIdsIn(s) && cost == MandatoryCost(s, rules, base) <= budget.usable
    requires NoRepeats(mandatory) && Elements(mandatory) == Mandatory(Kept(s, rules))
    requires NoRepeats(optional) && Elements(optional) == Optional(Kept(s, rules))
    requires NoRepeats(early) && Elements(early) == EarlyOmissions(s, rules)
    ensures plan == PlanFor(s, rules, budget, base)
  {
    ghost var kept := Kept(s, rules);
    OptionalAccounts(s, rules, budget, base);
    EarlyAccounts(s, rules);
    DisjointIds(s, s - kept, Optional(kept));
    var order := SortBy(OptionalKey(rules.order), optional);
    var taken, dropped, disallowed := TakeOptional(order, LimitsFor(cost, budget, rules), budget.allowOmission);
    ghost var pass := OptionalPass(s, rules, budget, base);
    if disallowed.Some? {
      plan := Plan([], [], cost, disallowed);
    } else {
      assert Elements(mandatory) !! Elements(taken);
      Concatenated(mandatory, taken);
      var selected := SortBy(ShowKey, mandatory + taken);
      OmissionsDisjoint(early, dropped);
      var shown := SortBy(OmissionKey, early + dropped);
      plan := Plan(selected, shown, cost, None);
    }
  }

  /** The planner chooses the plan of the set of its drafts. */
  method Choose(drafts: seq<Draft>, rules: Rules, budget: Budget, base: nat) returns (plan: Plan)
    requires UniqueIds(drafts)
    ensures UniqueIdsIn(Elements(drafts)) && plan == PlanFor(Elements(drafts), rules, budget, base)
  {
    UniqueIdsOfElements(drafts);
    ghost var s := Elements(drafts);
    CostIsNat(s, rules, base);
    var eligible, omitted := Classify(drafts, rules);
    var retained, duplicates := Dedupe(eligible);
    OmissionsDisjoint(omitted, duplicates);
    omitted := omitted + duplicates;
    var mandatory, optional, total := SplitMandatory(retained);
    var cost := base + total;
    if cost > budget.usable {
      EarlyAccounts(s, rules);
      OverflowAccounts(s, rules);
      var overflow := MarkOverflow(mandatory);
      DisjointIds(s, s - Kept(s, rules), Mandatory(Kept(s, rules)));
      OmissionsDisjoint(omitted, overflow);
      var shown := SortBy(OmissionKey, omitted + overflow);
      plan := Plan([], shown, cost, None);
    } else {
      plan := ChooseOptional(mandatory, optional, omitted, s, rules, budget, base, cost);
    }
  }

  // ---- What every plan guarantees ----

  /** The planner returned normally: neither mandatory overflow nor a disallowed omission. */
  predicate Normal(plan: Plan, budget: Budget) {
    plan.mandatoryCost <= budget.usable && plan.disallowed.None?
  }

  /** The order in which the drafts arrive changes nothing, on any exit. */
  lemma PlanIgnoresOrder(a: seq<Draft>, b: seq<Draft>, rules: Rules, budget: Budget, base: nat)
    requires UniqueIds(a) && multiset(a) == multiset(b)
    ensures UniqueIds(b) && UniqueIdsIn(Elements(a)) && UniqueIdsIn(Elements(b))
    ensures PlanFor(Elements(a), rules, budget, base) == PlanFor(Elements(b), rules, budget, base)
  {
    UniqueIdsOfElements(a);
    assert forall d :: d in a <==> d in multiset(a);
    assert forall d :: d in b <==> d in multiset(b);
    assert Elements(a) == Elements(b);
    UniqueByCount(a, b);
  }

  lemma UniqueByCount(a: seq<Draft>, b: seq<Draft>)
    requires UniqueIds(a) && multiset(a) == multiset(b)
    ensures UniqueIds(b)
  {
    forall i, j {:trigger b[i], b[j]} | 0 <= i < j < |b| ensures b[i].id != b[j].id {
      assert b[i] in multiset(b) && b[j] in multiset(b);
      var p :| 0 <= p < |a| && a[p] == b[i];
      var q :| 0 <= q < |a| && a[q] == b[j];
      if p == q {
        OnceByCount(a, b, p, i, j);
      }
    }
  }

  lemma OnceByCount(a: seq<Draft>, b: seq<Draft>, p: nat, i: nat, j: nat)
    requires UniqueIds(a)
    requires p < |a| && i < j < |b| && b[i] == b[j] == a[p]
    ensures multiset(a) != multiset(b)
  {
    var d := a[p];
    var left, right := b[..i + 1], b[i + 1..];
    assert b == left + right && left[i] == d && right[j - i - 1] == d;
    assert multiset(left)[d] >= 1 && multiset(right)[d] >= 1;
    assert multiset(b)[d] >= 2;
    var before, after := a[..p], a[p + 1..];
    assert a == before + [d] + after;
    assert forall q {:trigger a[q]} :: 0 <= q < |a| && q != p ==> a[q] != d;
    assert d !in before && d !in after;
    assert multiset(a)[d] == 1;
  }

  /** What a normal return consists of. */
  lemma NormalShape(s: set<Draft>, rules: Rules, budget: Budget, base: nat)
    requires UniqueIdsIn(s) && Normal(PlanFor(s, rules, budget, base), budget)
    ensures 0 <= MandatoryCost(s, rules, base) <= budget.usable
    ensures PassAccount(OptionalPass(s, rules, budget, base), Optional(Kept(s, rules)))
    ensures var plan := PlanFor(s, rules, budget, base);
            var pass := OptionalPass(s, rules, budget, base);
            && plan.mandatoryCost == MandatoryCost(s, rules, base)
            && Elements(plan.selected) == Mandatory(Kept(s, rules)) + Elements(pass.taken)
            && Elements(plan.omitted) == EarlyOmissions(s, rules) + Elements(pass.dropped)
            && NoRepeats(plan.selected) && NoRepeats(plan.omitted)
            && Injective(OmissionKey, Elements(plan.omitted))
  {
    CostIsNat(s, rules, base);
    var pass := OptionalPass(s, rules, budget, base);
    OptionalAccounts(s, rules, budget, base);
    SortedNoRepeats(ShowKey, Mandatory(Kept(s, rules)) + Elements(pass.taken));
    SortedNoRepeats(OmissionKey, EarlyOmissions(s, rules) + Elements(pass.dropped));
  }

  lemma SidesPartition(s: set<Draft>, rules: Rules, pass: Pass, selected: set<Draft>, omitted: set<Omission>)
    requires UniqueIdsIn(s) && PassAccount(pass, Optional(Kept(s, rules)))
    requires selected == Mandatory(Kept(s, rules)) + Elements(pass.taken)
    requires omitted == EarlyOmissions(s, rules) + Elements(pass.dropped)
    ensures selected <= s
    ensures Ids(selected) + OmittedIds(omitted) == Ids(s)
    ensures Ids(selected) !! OmittedIds(omitted)
  {
    var kept := Kept(s, rules);
    var m, o := Mandatory(kept), Optional(kept);
    EarlyAccounts(s, rules);
    DisjointIds(s, s - kept, m);
    DisjointIds(s, s - kept, o);
    DisjointIds(s, m, o);
    OmittedIdsUnion(EarlyOmissions(s, rules), Elements(pass.dropped));
    assert kept == m + o && s == (s - kept) + kept;
  }

  lemma OmittedIdsUnion(a: set<Omission>, b: set<Omission>)
    ensures OmittedIds(a + b) == OmittedIds(a) + OmittedIds(b)
  {
  }

  /** On the normal return every draft is selected or omitted, never both, and only once. */
  lemma PlanPartitions(s: set<Draft>, rules: Rules, budget: Budget, base: nat)
    requires UniqueIdsIn(s) && Normal(PlanFor(s, rules, budget, base), budget)
    ensures var plan := PlanFor(s, rules, budget, base);
            && Ids(Elements(plan.selected)) + OmittedIds(Elements(plan.omitted)) == Ids(s)
            && Ids(Elements(plan.selected)) !! OmittedIds(Elements(plan.omitted))
            && Elements(plan.selected) <= s
            && NoRepeats(plan.selected) && NoRepeats(plan.omitted)
            && Injective(OmissionKey, Elements(plan.omitted))
  {
    var plan := PlanFor(s, rules, budget, base);
    NormalShape(s, rules, budget, base);
    SidesPartition(s, rules, OptionalPass(s, rules, budget, base), Elements(plan.selected), Elements(plan.omitted));
  }

  lemma OverflowIds(s: set<Draft>, rules: Rules)
    requires UniqueIdsIn(s)
    ensures OmittedIds(EarlyOmissions(s, rules) + Overflowing(Mandatory(Kept(s, rules))))
         == Ids(s - Optional(Kept(s, rules)))
  {
    var kept := Kept(s, rules);
    EarlyAccounts(s, rules);
    OmittedIdsUnion(EarlyOmissions(s, rules), Overflowing(Mandatory(kept)));
    OverflowingIds(Mandatory(kept));
    assert s - Optional(kept) == (s - kept) + Mandatory(kept);
  }

  lemma OverflowingIds(m: set<Draft>)
    ensures OmittedIds(Overflowing(m)) == Ids(m)
  {
    forall d | d in m ensures d.id in OmittedIds(Overflowing(m)) {
      assert Omit(d, MANDATORY_OVERFLOW) in Overflowing(m);
    }
  }

  /** Mandatory overflow selects nothing and reports every draft but the optional ones it never looked at. */
  lemma OverflowReports(s: set<Draft>, rules: Rules, budget: Budget, base: nat)
    requires UniqueIdsIn(s) && PlanFor(s, rules, budget, base).mandatoryCost > budget.usable
    ensures PlanFor(s, rules, budget, base).selected == []
    ensures OmittedIds(Elements(PlanFor(s, rules, budget, base).omitted)) == Ids(s - Optional(Kept(s, rules)))
  {
    OverflowAccounts(s, rules);
    OverflowIds(s, rules);
    SortedNoRepeats(OmissionKey, EarlyOmissions(s, rules) + Overflowing(Mandatory(Kept(s, rules))));
  }

  lemma {:induction false} PassBounded(optional: seq<Draft>, n: nat, limits: Limits)
    requires n <= |optional|
    ensures var p := PassUpTo(optional, n, limits);
            && (p.taken == [] || (p.spent <= limits.room && p.spent <= limits.optional))
            && (limits.maxItems.Some? ==> |p.taken| <= limits.maxItems.value)
            && (p.taken == [] ==> p.spent == 0)
  {
    if n > 0 {
      PassBounded(optional, n - 1, limits);
    }
  }

  /** A dropped draft does not fit beside what was finally taken either. */
  lemma {:induction false} PassMaximal(optional: seq<Draft>, n: nat, limits: Limits, d: Draft)
    requires n <= |optional| && d in optional[..n] && d !in PassUpTo(optional, n, limits).taken
    ensures !Fits(|PassUpTo(optional, n, limits).taken|, PassUpTo(optional, n, limits).spent, d, limits)
  {
    assert optional[..n] == optional[..n - 1] + [optional[n - 1]];
    if d in optional[..n - 1] {
      PassMaximal(optional, n - 1, limits, d);
    }
  }

  /** The most that optional drafts may spend under the profile. */
  function Cap(rules: Rules, budget: Budget): nat {
    if rules.percent.Some? then budget.usable * rules.percent.value / 100 else budget.usable
  }

  /** One more optional draft would break a limit. */
  ghost predicate BreaksALimit(d: Draft, chosen: set<Draft>, rules: Rules, budget: Budget, base: nat) {
    || base + Total(Cost, chosen) + Cost(d) > budget.usable
    || Total(Cost, Optional(chosen)) + Cost(d) > Cap(rules, budget)
    || (rules.maxItems.Some? && |Optional(chosen)| >= rules.maxItems.value)
  }

  ghost predicate WithinLimits(chosen: set<Draft>, rules: Rules, budget: Budget, base: nat) {
    && base + Total(Cost, chosen) <= budget.usable
    && Total(Cost, Optional(chosen)) <= Cap(rules, budget)
    && (rules.maxItems.Some? ==> |Optional(chosen)| <= rules.maxItems.value)
  }

  lemma PassTotals(s: set<Draft>, rules: Rules, budget: Budget, base: nat, chosen: set<Draft>)
    requires UniqueIdsIn(s) && 0 <= MandatoryCost(s, rules, base) <= budget.usable
    requires PassAccount(OptionalPass(s, rules, budget, base), Optional(Kept(s, rules)))
    requires chosen == Mandatory(Kept(s, rules)) + Elements(OptionalPass(s, rules, budget, base).taken)
    ensures Optional(chosen) == Elements(OptionalPass(s, rules, budget, base).taken)
    ensures Total(Cost, Optional(chosen)) == OptionalPass(s, rules, budget, base).spent
    ensures |Optional(chosen)| == |OptionalPass(s, rules, budget, base).taken|
    ensures base + Total(Cost, chosen) == MandatoryCost(s, rules, base) + OptionalPass(s, rules, budget, base).spent
  {
    var pass := OptionalPass(s, rules, budget, base);
    assert Optional(chosen) == Elements(pass.taken);
    TotalUnion(Cost, Mandatory(Kept(s, rules)), Elements(pass.taken));
    NoRepeatsCounts(pass.taken);
  }

  lemma FitsWithinLimits(count: nat, spent: nat, d: Draft, mandatoryCost: nat, rules: Rules, budget: Budget)
    requires mandatoryCost <= budget.usable
    ensures Fits(count, spent, d, LimitsFor(mandatoryCost, budget, rules)) <==>
              && mandatoryCost + spent + Cost(d) <= budget.usable
              && spent + Cost(d) <= Cap(rules, budget)
              && (rules.maxItems.Some? ==> count < rules.maxItems.value)
  {
  }

  lemma PassWithin(s: set<Draft>, rules: Rules, budget: Budget, base: nat)
    requires UniqueIdsIn(s) && 0 <= MandatoryCost(s, rules, base) <= budget.usable
    ensures var pass := OptionalPass(s, rules, budget, base);
            && MandatoryCost(s, rules, base) + pass.spent <= budget.usable
            && pass.spent <= Cap(rules, budget)
            && (rules.maxItems.Some? ==> |pass.taken| <= rules.maxItems.value)
  {
    var order := Sorted(OptionalKey(rules.order), Optional(Kept(s, rules)));
    PassBounded(order, |order|, LimitsFor(MandatoryCost(s, rules, base), budget, rules));
  }

  lemma PassLeavesNothing(s: set<Draft>, rules: Rules, budget: Budget, base: nat, d: Draft)
    requires UniqueIdsIn(s) && 0 <= MandatoryCost(s, rules, base) <= budget.usable
    requires d in Optional(Kept(s, rules)) && d !in OptionalPass(s, rules, budget, base).taken
    ensures var pass := OptionalPass(s, rules, budget, base);
            !Fits(|pass.taken|, pass.spent, d, LimitsFor(MandatoryCost(s, rules, base), budget, rules))
  {
    var order := Sorted(OptionalKey(rules.order), Optional(Kept(s, rules)));
    assert order[..|order|] == order;
    assert d in Elements(order);
    PassMaximal(order, |order|, LimitsFor(MandatoryCost(s, rules, base), budget, rules), d);
  }

  /** The plan keeps every mandatory draft, keeps within every budget, and nothing it left out would still fit. */
  lemma PlanIsMaximalWithinBudget(s: set<Draft>, rules: Rules, budget: Budget, base: nat)
    requires UniqueIdsIn(s) && Normal(PlanFor(s, rules, budget, base), budget)
    ensures var chosen := Elements(PlanFor(s, rules, budget, base).selected);
            && Mandatory(Kept(s, rules)) <= chosen <= Kept(s, rules)
            && WithinLimits(chosen, rules, budget, base)
            && forall d :: d in Kept(s, rules) && d !in chosen ==> BreaksALimit(d, chosen, rules, budget, base)
  {
    var chosen := Elements(PlanFor(s, rules, budget, base).selected);
    var pass := OptionalPass(s, rules, budget, base);
    NormalShape(s, rules, budget, base);
    PassTotals(s, rules, budget, base, chosen);
    PassWithin(s, rules, budget, base);
    forall d | d in Kept(s, rules) && d !in chosen ensures BreaksALimit(d, chosen, rules, budget, base) {
      assert d !in Elements(pass.taken);
      PassLeavesNothing(s, rules, budget, base, d);
      FitsWithinLimits(|pass.taken|, pass.spent, d, MandatoryCost(s, rules, base), rules, budget);
    }
  }

  /** Every redundancy group of usable drafts keeps exactly its least member. */
  lemma OneWinnerPerGroup(s: set<Draft>, g: string) returns (winner: Draft)
    requires UniqueIdsIn(s) && InGroup(s, g) != {}
    ensures InGroup(Retained(s), g) == {winner}
    ensures forall y :: y in InGroup(s, g) && y != winner ==> KeyLess(DuplicateKey(winner), DuplicateKey(y))
  {
    winner := LeastExists(DuplicateKey, InGroup(s, g));
    LeastIsRetained(s, g, winner);
  }

  lemma {:induction false} DropReasons(optional: seq<Draft>, n: nat, limits: Limits)
    requires n <= |optional| && limits.profile && limits.optional <= limits.room
    ensures forall o :: o in PassUpTo(optional, n, limits).dropped ==>
              o.reason == PROFILE_BUDGET_EXHAUSTED || o.reason == PROFILE_ITEM_LIMIT
  {
    if n > 0 {
      DropReasons(optional, n - 1, limits);
    }
  }

  /** With a profile percentage the planner never reports plain budget exhaustion. */
  lemma PercentageHidesExhaustion(s: set<Draft>, rules: Rules, budget: Budget, base: nat, o: Omission)
    requires UniqueIdsIn(s) && rules.percent.Some?
    requires o in PlanFor(s, rules, budget, base).omitted
    ensures o.reason != BUDGET_EXHAUSTED
  {
    var plan := PlanFor(s, rules, budget, base);
    CostIsNat(s, rules, base);
    EarlyAccounts(s, rules);
    assert o in Elements(plan.omitted);
    if plan.mandatoryCost > budget.usable {
      OverflowAccounts(s, rules);
    } else {
      OptionalAccounts(s, rules, budget, base);
      var order := Sorted(OptionalKey(rules.order), Optional(Kept(s, rules)));
      DropReasons(order, |order|, LimitsFor(plan.mandatoryCost, budget, rules));
    }
  }
}
