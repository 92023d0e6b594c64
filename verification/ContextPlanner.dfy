/**
 The constrained selection of the context compiler: what is kept, what is left out and why.

 The plan is defined on the set of drafts. The lemmas here say that every draft is accounted for
 exactly once, which is also what makes the sorted omission list well defined.
 */
module ContextPlanner {
  import opened Results
  import opened Ordering
  import opened KeyedSorting
  import opened ContextModel

  datatype Reason =
    | INELIGIBLE_LIFECYCLE | HISTORICAL_NOT_REQUESTED | SENSITIVE_CONTENT_DETECTED
    | REDUNDANT_EXACT_DUPLICATE | MANDATORY_OVERFLOW
    | BUDGET_EXHAUSTED | PROFILE_BUDGET_EXHAUSTED | PROFILE_ITEM_LIMIT

  datatype Omission = Omission(id: string, reason: Reason, role: Role, tier: nat)

  datatype Budget = Budget(usable: nat, hardBytes: nat, allowOmission: bool)

  /** What the caller decides: history, the credential scan, the profile limits, the wanted order. */
  datatype Rules = Rules(
    allowHistory: bool,
    secret: string -> bool,
    percent: Option<nat>,
    maxItems: Option<nat>,
    order: map<string, nat>)

  datatype Plan = Plan(
    selected: seq<Draft>,
    omitted: seq<Omission>,
    mandatoryCost: nat,
    disallowed: Option<Reason>)

  // ---- Keys ----

  function Rank(status: ResolutionStatus): nat {
    match status
    case AUTHORITATIVE => 0
    case STATUS_GAP => 1
    case CONTESTED => 2
    case UNRESOLVED => 3
    case SUPPORTING => 4
    case HISTORICAL => 5
    case OtherStatus(_) => 99
  }

  function DuplicateKey(d: Draft): Key {
    Key(Rank(d.status), d.tier, 0, d.id)
  }

  function ShowKey(d: Draft): Key {
    Key(d.tier, 0, 0, d.id)
  }

  function OptionalKey(order: map<string, nat>): Draft -> Key {
    (d: Draft) => Key(if d.id in order then order[d.id] else 0, d.tier, Rank(d.status), d.id)
  }

  function OmissionKey(o: Omission): Key {
    Key(0, 0, 0, o.id)
  }

  function Cost(d: Draft): int {
    d.cost.count
  }

  // ---- What the plan for a set of drafts is ----

  function Exclusion(d: Draft, rules: Rules): Option<Reason> {
    if !Eligible(d.status) then Some(INELIGIBLE_LIFECYCLE)
    else if d.status == HISTORICAL && !rules.allowHistory then Some(HISTORICAL_NOT_REQUESTED)
    else if rules.secret(d.text) then Some(SENSITIVE_CONTENT_DETECTED)
    else None
  }

  function Omit(d: Draft, reason: Reason): Omission {
    Omission(d.id, reason, d.role, d.tier)
  }

  ghost function Usable(s: set<Draft>, rules: Rules): set<Draft> {
    set d | d in s && Exclusion(d, rules).None?
  }

  ghost function Excluded(s: set<Draft>, rules: Rules): set<Omission> {
    set d | d in s && Exclusion(d, rules).Some? :: Omit(d, Exclusion(d, rules).value)
  }

  /** Another member of the redundancy group goes before this draft. */
  ghost predicate Beaten(d: Draft, s: set<Draft>) {
    d.group.Some? && exists w :: w in s && w.group == d.group && KeyLess(DuplicateKey(w), DuplicateKey(d))
  }

  ghost function Retained(s: set<Draft>): set<Draft> {
    set d | d in s && !Beaten(d, s)
  }

  ghost function Duplicates(s: set<Draft>): set<Omission> {
    set d | d in s && Beaten(d, s) :: Omit(d, REDUNDANT_EXACT_DUPLICATE)
  }

  ghost function Kept(s: set<Draft>, rules: Rules): set<Draft> {
    Retained(Usable(s, rules))
  }

  ghost function Mandatory(s: set<Draft>): set<Draft> {
    set d | d in s && d.mandatory
  }

  ghost function Optional(s: set<Draft>): set<Draft> {
    set d | d in s && !d.mandatory
  }

  ghost function Overflowing(s: set<Draft>): set<Omission> {
    set d | d in s :: Omit(d, MANDATORY_OVERFLOW)
  }

  /** What optional drafts may still spend. */
  datatype Limits = Limits(room: nat, optional: nat, profile: bool, maxItems: Option<nat>)

  function LimitsFor(mandatoryCost: nat, budget: Budget, rules: Rules): Limits
    requires mandatoryCost <= budget.usable
  {
    var room := budget.usable - mandatoryCost;
    match rules.percent
    case None => Limits(room, room, false, rules.maxItems)
    case Some(p) =>
      var cap := budget.usable * p / 100;
      Limits(room, if cap < room then cap else room, true, rules.maxItems)
  }

  datatype Pass = Pass(taken: seq<Draft>, spent: nat, dropped: seq<Omission>)

  predicate Fits(count: nat, spent: nat, d: Draft, limits: Limits) {
    && spent + d.cost.count <= limits.room
    && spent + d.cost.count <= limits.optional
    && (limits.maxItems.Some? ==> count < limits.maxItems.value)
  }

  function DropReason(count: nat, spent: nat, d: Draft, limits: Limits): Reason {
    if limits.profile && spent + d.cost.count > limits.optional then PROFILE_BUDGET_EXHAUSTED
    else if limits.maxItems.Some? && count >= limits.maxItems.value then PROFILE_ITEM_LIMIT
    else BUDGET_EXHAUSTED
  }

  function Offer(p: Pass, d: Draft, limits: Limits): Pass {
    if Fits(|p.taken|, p.spent, d, limits)
    then Pass(p.taken + [d], p.spent + d.cost.count, p.dropped)
    else Pass(p.taken, p.spent, p.dropped + [Omit(d, DropReason(|p.taken|, p.spent, d, limits))])
  }

  /** The greedy pass over the first n optional drafts. */
  function PassUpTo(optional: seq<Draft>, n: nat, limits: Limits): Pass
    requires n <= |optional|
  {
    if n == 0 then Pass([], 0, []) else Offer(PassUpTo(optional, n - 1, limits), optional[n - 1], limits)
  }

  ghost function Ids(s: set<Draft>): set<string> {
    set d | d in s :: d.id
  }

  ghost function OmittedIds(s: set<Omission>): set<string> {
    set o | o in s :: o.id
  }

  ghost function MandatoryCost(s: set<Draft>, rules: Rules, base: nat): int {
    base + Total(Cost, Mandatory(Kept(s, rules)))
  }

  ghost function OptionalPass(s: set<Draft>, rules: Rules, budget: Budget, base: nat): Pass
    requires UniqueIdsIn(s) && 0 <= MandatoryCost(s, rules, base) <= budget.usable
  {
    var optional := Sorted(OptionalKey(rules.order), Optional(Kept(s, rules)));
    PassUpTo(optional, |optional|, LimitsFor(MandatoryCost(s, rules, base), budget, rules))
  }

  ghost function EarlyOmissions(s: set<Draft>, rules: Rules): set<Omission> {
    Excluded(s, rules) + Duplicates(Usable(s, rules))
  }

  /** The plan is a function of the set of drafts: their order does not appear in it. */
  ghost function PlanFor(s: set<Draft>, rules: Rules, budget: Budget, base: nat): Plan
    requires UniqueIdsIn(s)
  {
    CostIsNat(s, rules, base);
    EarlyAccounts(s, rules);
    var kept := Kept(s, rules);
    var cost := MandatoryCost(s, rules, base);
    if cost > budget.usable then
      OverflowAccounts(s, rules);
      Plan([], Sorted(OmissionKey, EarlyOmissions(s, rules) + Overflowing(Mandatory(kept))), cost, None)
    else
      var pass := OptionalPass(s, rules, budget, base);
      OptionalAccounts(s, rules, budget, base);
      if pass.dropped != [] && !budget.allowOmission then Plan([], [], cost, Some(pass.dropped[0].reason))
      else
        Plan(
          Sorted(ShowKey, Mandatory(kept) + Elements(pass.taken)),
          Sorted(OmissionKey, EarlyOmissions(s, rules) + Elements(pass.dropped)),
          cost, None)
  }

  // ---- Every draft is accounted for once ----

  lemma CostIsNat(s: set<Draft>, rules: Rules, base: nat)
    ensures MandatoryCost(s, rules, base) >= base
  {
    TotalAtLeast(Cost, Mandatory(Kept(s, rules)), 0);
  }

  lemma DisjointIds(s: set<Draft>, a: set<Draft>, b: set<Draft>)
    requires UniqueIdsIn(s) && a <= s && b <= s && a !! b
    ensures Ids(a) !! Ids(b)
  {
  }

  lemma EarlyAccounts(s: set<Draft>, rules: Rules)
    requires UniqueIdsIn(s)
    ensures OmittedIds(EarlyOmissions(s, rules)) == Ids(s - Kept(s, rules))
    ensures Injective(OmissionKey, EarlyOmissions(s, rules))
  {
    var omissions := EarlyOmissions(s, rules);
    forall id | id in Ids(s - Kept(s, rules)) ensures id in OmittedIds(omissions) {
      var d :| d in s - Kept(s, rules) && d.id == id;
      if d in Usable(s, rules) {
        assert Omit(d, REDUNDANT_EXACT_DUPLICATE) in Duplicates(Usable(s, rules));
        assert Omit(d, REDUNDANT_EXACT_DUPLICATE) in omissions;
      } else {
        assert Omit(d, Exclusion(d, rules).value) in Excluded(s, rules);
        assert Omit(d, Exclusion(d, rules).value) in omissions;
      }
    }
    assert Excluded(s, rules) <= omissions && Duplicates(Usable(s, rules)) <= omissions;
  }

  lemma OverflowAccounts(s: set<Draft>, rules: Rules)
    requires UniqueIdsIn(s)
    ensures Injective(OmissionKey, EarlyOmissions(s, rules) + Overflowing(Mandatory(Kept(s, rules))))
  {
    EarlyAccounts(s, rules);
    var m := Mandatory(Kept(s, rules));
    DisjointIds(s, s - Kept(s, rules), m);
    InjectiveUnion(EarlyOmissions(s, rules), Overflowing(m));
  }

  lemma InjectiveUnion(a: set<Omission>, b: set<Omission>)
    requires Injective(OmissionKey, a) && Injective(OmissionKey, b) && OmittedIds(a) !! OmittedIds(b)
    ensures Injective(OmissionKey, a + b)
  {
    forall o, p | o in a + b && p in a + b && OmissionKey(o) == OmissionKey(p) ensures o == p {
      assert o in a ==> o.id in OmittedIds(a);
      assert o in b ==> o.id in OmittedIds(b);
      assert p in a ==> p.id in OmittedIds(a);
      assert p in b ==> p.id in OmittedIds(b);
    }
  }

  ghost predicate PassAccount(p: Pass, seen: set<Draft>) {
    && Elements(p.taken) <= seen
    && NoRepeats(p.taken)
    && NoRepeats(p.dropped)
    && p.spent == Total(Cost, Elements(p.taken))
    && Ids(Elements(p.taken)) !! OmittedIds(Elements(p.dropped))
    && Ids(Elements(p.taken)) + OmittedIds(Elements(p.dropped)) == Ids(seen)
    && Injective(OmissionKey, Elements(p.dropped))
  }

  lemma TakingAccounts(p: Pass, d: Draft, seen: set<Draft>)
    requires d !in seen && UniqueIdsIn(seen + {d}) && PassAccount(p, seen)
    ensures PassAccount(Pass(p.taken + [d], p.spent + d.cost.count, p.dropped), seen + {d})
  {
    assert d.id !in Ids(seen);
    Appended(p.taken, d);
    TotalWith(Cost, Elements(p.taken), d);
  }

  lemma DroppingAccounts(p: Pass, d: Draft, reason: Reason, seen: set<Draft>)
    requires d !in seen && UniqueIdsIn(seen + {d}) && PassAccount(p, seen)
    ensures PassAccount(Pass(p.taken, p.spent, p.dropped + [Omit(d, reason)]), seen + {d})
  {
    var o := Omit(d, reason);
    assert d.id !in Ids(seen);
    assert o in Elements(p.dropped) ==> o.id in OmittedIds(Elements(p.dropped));
    Appended(p.dropped, o);
    assert OmittedIds({o}) == {d.id};
    InjectiveUnion(Elements(p.dropped), {o});
    assert OmittedIds(Elements(p.dropped) + {o}) == OmittedIds(Elements(p.dropped)) + {d.id};
  }

  /** One offered draft goes to one side of the pass. */
  lemma OfferAccounts(p: Pass, d: Draft, limits: Limits, seen: set<Draft>)
    requires d !in seen && UniqueIdsIn(seen + {d}) && PassAccount(p, seen)
    ensures PassAccount(Offer(p, d, limits), seen + {d})
  {
    if Fits(|p.taken|, p.spent, d, limits) {
      TakingAccounts(p, d, seen);
    } else {
      DroppingAccounts(p, d, DropReason(|p.taken|, p.spent, d, limits), seen);
    }
  }

  lemma {:induction false} PassAccounts(optional: seq<Draft>, n: nat, limits: Limits)
    requires n <= |optional| && NoRepeats(optional) && UniqueIdsIn(Elements(optional))
    ensures PassAccount(PassUpTo(optional, n, limits), Elements(optional[..n]))
  {
    if n == 0 {
      assert Elements<Draft>([]) == {} && Elements<Omission>([]) == {};
    } else {
      var d := optional[n - 1];
      PassAccounts(optional, n - 1, limits);
      assert optional[..n] == optional[..n - 1] + [d];
      assert Elements(optional[..n]) == Elements(optional[..n - 1]) + {d};
      assert Elements(optional[..n]) <= Elements(optional);
      assert d !in optional[..n - 1];
      OfferAccounts(PassUpTo(optional, n - 1, limits), d, limits, Elements(optional[..n - 1]));
    }
  }

  lemma OptionalAccounts(s: set<Draft>, rules: Rules, budget: Budget, base: nat)
    requires UniqueIdsIn(s) && 0 <= MandatoryCost(s, rules, base) <= budget.usable
    ensures PassAccount(OptionalPass(s, rules, budget, base), Optional(Kept(s, rules)))
    ensures Injective(OmissionKey,
                      EarlyOmissions(s, rules) + Elements(OptionalPass(s, rules, budget, base).dropped))
  {
    var kept := Kept(s, rules);
    var optional := Sorted(OptionalKey(rules.order), Optional(kept));
    SortedNoRepeats(OptionalKey(rules.order), Optional(kept));
    PassAccounts(optional, |optional|, LimitsFor(MandatoryCost(s, rules, base), budget, rules));
    assert optional[..|optional|] == optional;
    EarlyAccounts(s, rules);
    DisjointIds(s, s - kept, Optional(kept));
    InjectiveUnion(EarlyOmissions(s, rules), Elements(OptionalPass(s, rules, budget, base).dropped));
  }
}
