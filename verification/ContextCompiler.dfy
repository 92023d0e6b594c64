/** From resolved evidence to a rendered context: drafts, plan, rendering and the bounded rebalance. */
module ContextCompiler {
  import opened Results
  import opened Ordering
  import opened KeyedSorting
  import opened ContextModel
  import opened ContextPlanner
  import opened ContextChoose
  import opened ContextRender

  /** What a decision engine handed over: its candidates in order, and those that cover mandatory needs. */
  datatype Selection = Selection(ids: seq<string>, mandatory: set<string>, degraded: bool)

  datatype Request = Request(
    task: string,
    profile: Profile,
    mandatoryRoles: set<Role>,
    selection: Option<Selection>,
    budget: Budget,
    allowHistory: bool,
    percent: nat,
    maxItems: nat,
    maxRebalance: nat,
    degraded: bool,
    escape: string -> string,
    secret: string -> bool)

  datatype Status = SUCCESS | DEGRADED | EMPTY

  datatype Compilation =
    | ScopeError
    | TaskOverflow(base: nat)
    | MandatoryOverflow(planned: seq<Omission>)
    | OmissionDisallowed
    | RenderedOverflow(dropped: seq<Omission>)
    | Unverified(dropped: seq<Omission>)
    | Compiled(status: Status, selected: seq<Draft>, omitted: seq<Omission>, text: string)

  // ---- Drafts ----

  function EvidenceKey(e: Evidence): Key {
    Key(0, 0, 0, e.id)
  }

  ghost predicate SameClaim(e: Evidence, f: Evidence) {
    e.projectId == f.projectId && e.fingerprint == f.fingerprint
  }

  /** A candidate is grouped if another one of its project shares the fingerprint; the group is named by the fingerprint alone. */
  ghost function GroupOf(e: Evidence, s: set<Evidence>): Option<string> {
    if e.fingerprint != "" && exists f :: f in s && f != e && SameClaim(e, f)
    then Some("dup_" + e.fingerprint)
    else None
  }

  function DraftWith(e: Evidence, group: Option<string>, request: Request): Draft {
    var role := RoleFor(e);
    var (tier, mandatory) := TierFor(role, e.status, request.profile, request.mandatoryRoles);
    var rendered := RenderFragment(role, e.status, e.id, request.escape(e.text));
    var wanted := request.selection.Some? && e.id in request.selection.value.mandatory;
    Draft(e.id, e.status, e.text, role, tier, mandatory || wanted, group, rendered, ConservativeEstimate(rendered))
  }

  ghost function DraftOf(e: Evidence, s: set<Evidence>, request: Request): Draft {
    DraftWith(e, GroupOf(e, s), request)
  }

  ghost function DraftsOf(s: set<Evidence>, request: Request): set<Draft> {
    set e | e in s :: DraftOf(e, s, request)
  }

  /** The candidates of a resolution have distinct ids. */
  ghost predicate UniqueEvidence(s: set<Evidence>) {
    Injective(EvidenceKey, s)
  }

  lemma DraftsAreMeasured(s: set<Evidence>, request: Request, d: Draft)
    requires UniqueEvidence(s) && d in DraftsOf(s, request)
    ensures Measured(d) && (Eligible(d.status) ==> Cost(d) >= 10)
  {
    var e :| e in s && d == DraftOf(e, s, request);
    assert d.rendered[0] == '-';
    if Eligible(e.status) {
      FragmentSize(e, request.escape(e.text));
    }
  }

  lemma DraftIds(s: set<Evidence>, request: Request)
    requires UniqueEvidence(s)
    ensures UniqueIdsIn(DraftsOf(s, request))
    ensures Ids(DraftsOf(s, request)) == set e | e in s :: e.id
  {
    forall a, b | a in DraftsOf(s, request) && b in DraftsOf(s, request) && a.id == b.id ensures a == b {
      var e :| e in s && a == DraftOf(e, s, request);
      var f :| f in s && b == DraftOf(f, s, request);
      assert EvidenceKey(e) == EvidenceKey(f);
    }
    forall e | e in s ensures e.id in Ids(DraftsOf(s, request)) {
      assert DraftOf(e, s, request) in DraftsOf(s, request);
    }
  }

  type Claim = (Option<string>, string)

  ghost function Claimants(s: set<Evidence>, c: Claim): set<Evidence> {
    set e | e in s && e.fingerprint != "" && (e.projectId, e.fingerprint) == c
  }

  /** Group the candidates by project and fingerprint. */
  method RedundancyGroups(items: seq<Evidence>) returns (claims: map<Claim, seq<Evidence>>)
    requires NoRepeats(items)
    ensures ClaimTable(claims, Elements(items))
  {
    claims := map[];
    for n := 0 to |items|
      invariant ClaimTable(claims, Elements(items[..n]))
    {
      var e := items[n];
      PrefixStep(items, n);
      ghost var seen := Elements(items[..n]);
      ClaimStep(seen, e);
      if e.fingerprint != "" {
        var claim := (e.projectId, e.fingerprint);
        var values := if claim in claims then claims[claim] else [];
        assert Elements(values) == Claimants(seen, claim);
        Appended(values, e);
        claims := claims[claim := values + [e]];
        assert e in Claimants(seen + {e}, claim);
      }
    }
    assert items[..|items|] == items;
  }

  lemma ClaimStep(s: set<Evidence>, e: Evidence)
    requires e !in s
    ensures e.fingerprint != "" ==>
              var c := (e.projectId, e.fingerprint);
              Claimants(s + {e}, c) == Claimants(s, c) + {e} && e !in Claimants(s, c)
    ensures forall c: Claim {:trigger Claimants(s + {e}, c)} ::
              e.fingerprint == "" || c != (e.projectId, e.fingerprint) ==> Claimants(s + {e}, c) == Claimants(s, c)
  {
    forall c: Claim | e.fingerprint == "" || c != (e.projectId, e.fingerprint)
      ensures Claimants(s + {e}, c) == Claimants(s, c)
    {
    }
  }

  lemma GroupIsShared(e: Evidence, s: set<Evidence>)
    requires e in s && e.fingerprint != ""
    ensures GroupOf(e, s).Some? <==> |Claimants(s, (e.projectId, e.fingerprint))| > 1
  {
    var c := Claimants(s, (e.projectId, e.fingerprint));
    assert e in c;
    if GroupOf(e, s).Some? {
      var f :| f in s && f != e && SameClaim(e, f);
      assert {e, f} <= c;
      SubsetSize({e, f}, c);
    } else {
      assert c == {e};
    }
  }

  function GroupFrom(claims: map<Claim, seq<Evidence>>, e: Evidence): Option<string> {
    var claim := (e.projectId, e.fingerprint);
    if claim in claims && |claims[claim]| > 1 then Some("dup_" + e.fingerprint) else None
  }

  ghost predicate ClaimTable(claims: map<Claim, seq<Evidence>>, s: set<Evidence>) {
    && (forall c :: c in claims <==> Claimants(s, c) != {})
    && (forall c :: c in claims ==> NoRepeats(claims[c]) && Elements(claims[c]) == Claimants(s, c))
  }

  lemma GroupFromIs(claims: map<Claim, seq<Evidence>>, s: set<Evidence>, e: Evidence)
    requires ClaimTable(claims, s) && e in s
    ensures GroupFrom(claims, e) == GroupOf(e, s)
  {
    var claim := (e.projectId, e.fingerprint);
    if e.fingerprint == "" {
      assert Claimants(s, claim) == {};
    } else {
      GroupIsShared(e, s);
      assert e in Claimants(s, claim);
      NoRepeatsCounts(claims[claim]);
    }
  }

  lemma DraftFromIs(claims: map<Claim, seq<Evidence>>, s: set<Evidence>, e: Evidence, request: Request)
    requires ClaimTable(claims, s) && e in s
    ensures DraftWith(e, GroupFrom(claims, e), request) == DraftOf(e, s, request)
  {
    GroupFromIs(claims, s, e);
  }

  method BuildDrafts(items: seq<Evidence>, request: Request) returns (drafts: seq<Draft>)
    requires NoRepeats(items) && UniqueEvidence(Elements(items))
    ensures UniqueIds(drafts) && Elements(drafts) == DraftsOf(Elements(items), request)
  {
    ghost var s := Elements(items);
    var claims := RedundancyGroups(items);
    var sorted := SortBy(EvidenceKey, items);
    SortedNoRepeats(EvidenceKey, s);
    drafts := [];
    for n := 0 to |sorted|
      invariant |drafts| == n
      invariant forall k {:trigger drafts[k]} :: 0 <= k < n ==> drafts[k] == DraftOf(sorted[k], s, request)
    {
      var e := sorted[n];
      assert e in Elements(sorted);
      DraftFromIs(claims, s, e, request);
      drafts := drafts + [DraftWith(e, GroupFrom(claims, e), request)];
    }
    DraftsInOrder(sorted, s, request, drafts);
  }

  lemma DraftsInOrder(sorted: seq<Evidence>, s: set<Evidence>, request: Request, drafts: seq<Draft>)
    requires UniqueEvidence(s) && Elements(sorted) == s && NoRepeats(sorted) && |drafts| == |sorted|
    requires forall k {:trigger drafts[k]} :: 0 <= k < |drafts| ==> drafts[k] == DraftOf(sorted[k], s, request)
    ensures UniqueIds(drafts) && Elements(drafts) == DraftsOf(s, request)
  {
    forall i, j {:trigger drafts[i], drafts[j]} | 0 <= i < j < |drafts| ensures drafts[i].id != drafts[j].id {
      assert sorted[i] in s && sorted[j] in s && sorted[i] != sorted[j];
      assert EvidenceKey(sorted[i]) != EvidenceKey(sorted[j]);
    }
    forall d ensures d in Elements(drafts) <==> d in DraftsOf(s, request) {
      if d in DraftsOf(s, request) {
        var e :| e in s && d == DraftOf(e, s, request);
        assert e in Elements(sorted);
        var k :| 0 <= k < |sorted| && sorted[k] == e;
        assert drafts[k] == d;
      }
    }
  }

  // ---- The rebalance ----

  datatype Outcome =
    | Fitting(kept: set<Draft>, omitted: set<Omission>)
    | MandatoryTooLarge(left: set<Omission>)
    | Disallowed
    | Exhausted(left: set<Omission>)

  predicate Within(e: Estimate, budget: Budget) {
    e.count <= budget.usable && e.bytes <= budget.hardBytes
  }

  ghost predicate Shown(task: string, kept: set<Draft>, budget: Budget)
    requires UniqueIdsIn(kept)
  {
    Within(ConservativeEstimate(Bundle(task, kept)), budget)
  }

  function RemovalKey(d: Draft): Key {
    Key(d.tier, d.cost.count, 0, d.id)
  }

  /** The draft has the greatest removal key of the set. */
  ghost predicate IsWorst(d: Draft, s: set<Draft>) {
    d in s && forall y :: y in s && y != d ==> KeyLess(RemovalKey(y), RemovalKey(d))
  }

  lemma WorstExists(s: set<Draft>)
    requires s != {} && UniqueIdsIn(s)
    ensures exists d :: IsWorst(d, s)
  {
    var order := Sorted(RemovalKey, s);
    SortedNoRepeats(RemovalKey, s);
    assert |order| > 0;
    var d := order[|order| - 1];
    assert d in Elements(order);
    forall y | y in s && y != d ensures KeyLess(RemovalKey(y), RemovalKey(d)) {
      assert y in Elements(order);
      var k :| 0 <= k < |order| && order[k] == y;
      assert ByKey(RemovalKey)(order[k], order[|order| - 1]);
    }
    assert IsWorst(d, s);
  }

  /** The optional draft that goes first: highest tier, then dearest, then last by id. */
  ghost function Worst(s: set<Draft>): (d: Draft)
    requires s != {} && UniqueIdsIn(s)
    ensures d in s
  {
    WorstExists(s);
    var d :| IsWorst(d, s);
    d
  }

  lemma WorstIs(s: set<Draft>, d: Draft)
    requires UniqueIdsIn(s) && IsWorst(d, s)
    ensures d == Worst(s)
  {
    if d != Worst(s) {
      KeyLessAsymmetric(RemovalKey(d), RemovalKey(Worst(s)));
    }
  }

  /** The selections that fit as rendered. */
  ghost function FitAsRendered(task: string, budget: Budget): set<Draft> -> bool {
    kept => UniqueIdsIn(kept) && Shown(task, kept, budget)
  }

  /** The rounds of the final pass when drafts may be left out. */
  ghost function Trim(kept: set<Draft>, omitted: set<Omission>, fit: set<Draft> -> bool, rounds: nat): Outcome
    requires UniqueIdsIn(kept)
    decreases rounds
  {
    if rounds == 0 then Exhausted(omitted)
    else if fit(kept) then Fitting(kept, omitted)
    else if Optional(kept) == {} then MandatoryTooLarge(omitted)
    else
      var d := Worst(Optional(kept));
      Trim(kept - {d}, omitted + {Omit(d, BUDGET_EXHAUSTED)}, fit, rounds - 1)
  }

  /** What the remaining rounds of the final pass make of a selection. */
  ghost function Rebalance(task: string, kept: set<Draft>, omitted: set<Omission>, budget: Budget, rounds: nat): Outcome
    requires UniqueIdsIn(kept)
  {
    if budget.allowOmission then Trim(kept, omitted, FitAsRendered(task, budget), rounds)
    else if rounds == 0 then Exhausted(omitted)
    else if Shown(task, kept, budget) then Fitting(kept, omitted)
    else if Optional(kept) != {} && Shown(task, Mandatory(kept), budget) then Disallowed
    else MandatoryTooLarge(omitted)
  }

  method Costliest(xs: seq<Draft>) returns (d: Draft)
    requires xs != [] && UniqueIdsIn(Elements(xs))
    ensures Elements(xs) != {} && d == Worst(Elements(xs))
  {
    d := xs[0];
    assert d in Elements(xs);
    for n := 1 to |xs|
      invariant d in xs[..n]
      invariant forall y :: y in xs[..n] && y != d ==> KeyLess(RemovalKey(y), RemovalKey(d))
    {
      assert xs[..n + 1] == xs[..n] + [xs[n]];
      KeyLessTotal(RemovalKey(xs[n]), RemovalKey(d));
      assert xs[n] in Elements(xs) && d in Elements(xs);
      if KeyLess(RemovalKey(d), RemovalKey(xs[n])) {
        forall y | y in xs[..n] && y != d ensures KeyLess(RemovalKey(y), RemovalKey(xs[n])) {
          KeyLessTransitive(RemovalKey(y), RemovalKey(d), RemovalKey(xs[n]));
        }
        d := xs[n];
      }
    }
    assert xs[..|xs|] == xs;
    WorstIs(Elements(xs), d);
  }

  // ---- The compiler ----

  /** The candidates that an upstream selection leaves in the compilation. */
  ghost function Chosen(s: set<Evidence>, request: Request): set<Evidence> {
    if request.selection.None? then s else set e | e in s && e.id in request.selection.value.ids
  }

  ghost predicate HasId(s: set<Evidence>, id: string) {
    exists e :: e in s && e.id == id
  }

  ghost predicate InScope(s: set<Evidence>, request: Request) {
    request.selection.Some? ==> forall id :: id in request.selection.value.ids ==> HasId(s, id)
  }

  /** The position of each id in the selection; a repeated id counts where it stands last. */
  function OrderUpTo(ids: seq<string>, n: nat): map<string, nat>
    requires n <= |ids|
  {
    if n == 0 then map[] else OrderUpTo(ids, n - 1)[ids[n - 1] := n - 1]
  }

  function RulesFor(request: Request): Rules {
    var order := if request.selection.Some?
                 then OrderUpTo(request.selection.value.ids, |request.selection.value.ids|)
                 else map[];
    Rules(request.allowHistory, request.secret, Some(request.percent), Some(request.maxItems), order)
  }

  ghost function BaseEstimate(request: Request): Estimate {
    ConservativeEstimate(BareBundle(request.task))
  }

  ghost function PlanOf(s: set<Evidence>, request: Request): Plan
    requires UniqueEvidence(s)
  {
    DraftIds(s, request);
    PlanFor(DraftsOf(s, request), RulesFor(request), request.budget, BaseEstimate(request).count)
  }

  ghost function FinalOutcome(s: set<Evidence>, request: Request): Outcome
    requires UniqueEvidence(s) && Normal(PlanOf(s, request), request.budget)
  {
    DraftIds(s, request);
    PlanPartitions(DraftsOf(s, request), RulesFor(request), request.budget, BaseEstimate(request).count);
    var plan := PlanOf(s, request);
    Rebalance(request.task, Elements(plan.selected), Elements(plan.omitted), request.budget, request.maxRebalance + 1)
  }

  function FinalStatus(empty: bool, request: Request): Status {
    if request.selection.Some? && request.selection.value.degraded then DEGRADED
    else if empty then EMPTY
    else if request.degraded then DEGRADED
    else SUCCESS
  }

  /** An omission list sorted by id. */
  ghost predicate Listed(list: seq<Omission>, s: set<Omission>) {
    Injective(OmissionKey, s) && list == Sorted(OmissionKey, s)
  }

  ghost predicate Reports(r: Compilation, o: Outcome, request: Request) {
    match o
    case Fitting(kept, omitted) =>
      && r.Compiled?
      && UniqueIdsIn(kept)
      && r.selected == Sorted(ShowKey, kept)
      && Listed(r.omitted, omitted)
      && r.text == Bundle(request.task, kept)
      && r.status == FinalStatus(kept == {}, request)
    case MandatoryTooLarge(left) => r.RenderedOverflow? && Listed(r.dropped, left)
    case Disallowed => r.OmissionDisallowed?
    case Exhausted(left) => r.Unverified? && Listed(r.dropped, left)
  }

  /** What follows once the bare task is known to fit. */
  ghost predicate PlannedTo(c: set<Evidence>, request: Request, r: Compilation)
    requires UniqueEvidence(c)
  {
    var plan := PlanOf(c, request);
    if plan.mandatoryCost > request.budget.usable then r == MandatoryOverflow(plan.omitted)
    else if plan.disallowed.Some? then r == OmissionDisallowed
    else Reports(r, FinalOutcome(c, request), request)
  }

  /** The result that a request and its candidates determine, exit by exit. */
  ghost predicate CompilesTo(s: set<Evidence>, request: Request, r: Compilation)
    requires UniqueEvidence(s)
  {
    var base := BaseEstimate(request);
    if !InScope(s, request) then r == ScopeError
    else if !Within(base, request.budget) then r == TaskOverflow(base.count)
    else PlannedTo(Chosen(s, request), request, r)
  }

  lemma WithoutOne(xs: seq<Draft>, k: nat)
    requires NoRepeats(xs) && k < |xs|
    ensures var r := xs[..k] + xs[k + 1..];
            && NoRepeats(r) && Elements(r) == Elements(xs) - {xs[k]}
            && forall i {:trigger r[i]} :: 0 <= i < |r| ==> r[i] == xs[if i < k then i else i + 1]
  {
    var r := xs[..k] + xs[k + 1..];
    forall y ensures y in r <==> y in xs && y != xs[k] {
      if y in xs && y != xs[k] {
        var i :| 0 <= i < |xs| && xs[i] == y;
        assert r[if i < k then i else i - 1] == y;
      }
    }
  }

  method Remove(xs: seq<Draft>, d: Draft) returns (r: seq<Draft>)
    requires NoRepeats(xs) && d in xs
    ensures NoRepeats(r) && Elements(r) == Elements(xs) - {d}
    ensures forall key: Draft -> Key :: Increasing(ByKey(key), xs) ==> Increasing(ByKey(key), r)
  {
    var k := 0;
    while k < |xs| && xs[k] != d
      invariant 0 <= k <= |xs| && d !in xs[..k]
    {
      k := k + 1;
    }
    r := xs[..k] + xs[k + 1..];
    WithoutOne(xs, k);
  }

  /** The lists that the final pass works on. */
  ghost predicate Lists(selected: seq<Draft>, omissions: seq<Omission>) {
    && NoRepeats(selected) && UniqueIdsIn(Elements(selected)) && Increasing(ByKey(ShowKey), selected)
    && NoRepeats(omissions) && Injective(OmissionKey, Elements(omissions))
    && Ids(Elements(selected)) !! OmittedIds(Elements(omissions))
  }

  /** Moving a draft from the selection to the omissions. */
  lemma ListsAfterRemoval(selected: seq<Draft>, omissions: seq<Omission>, d: Draft, rest: seq<Draft>)
    requires Lists(selected, omissions) && d in selected
    requires NoRepeats(rest) && Elements(rest) == Elements(selected) - {d} && Increasing(ByKey(ShowKey), rest)
    ensures Lists(rest, omissions + [Omit(d, BUDGET_EXHAUSTED)])
    ensures Elements(omissions + [Omit(d, BUDGET_EXHAUSTED)]) == Elements(omissions) + {Omit(d, BUDGET_EXHAUSTED)}
  {
    var o := Omit(d, BUDGET_EXHAUSTED);
    assert d in Elements(selected) && d.id in Ids(Elements(selected));
    assert o in Elements(omissions) ==> o.id in OmittedIds(Elements(omissions));
    Appended(omissions, o);
    assert OmittedIds({o}) == {d.id};
    InjectiveUnion(Elements(omissions), {o});
    OmittedIdsUnion(Elements(omissions), {o});
    assert d.id !in Ids(Elements(rest));
  }

  method ListOmissions(omissions: seq<Omission>) returns (list: seq<Omission>)
    requires NoRepeats(omissions) && Injective(OmissionKey, Elements(omissions))
    ensures Listed(list, Elements(omissions))
  {
    list := SortBy(OmissionKey, omissions);
  }

  method Deliver(selected: seq<Draft>, omissions: seq<Omission>, text: string, request: Request) returns (r: Compilation)
    requires Lists(selected, omissions) && text == Bundle(request.task, Elements(selected))
    ensures Reports(r, Fitting(Elements(selected), Elements(omissions)), request)
  {
    var list := ListOmissions(omissions);
    SortedIs(ShowKey, Elements(selected), selected);
    EmptyElements(selected);
    r := Compiled(FinalStatus(selected == [], request), selected, list, text);
  }

  /** A rendering that did not fit when nothing may be dropped. */
  method RefuseRemoval(mandatory: seq<Draft>, omissions: seq<Omission>, request: Request) returns (r: Compilation)
    requires NoRepeats(mandatory) && UniqueIdsIn(Elements(mandatory))
    requires NoRepeats(omissions) && Injective(OmissionKey, Elements(omissions))
    ensures Reports(r, if Shown(request.task, Elements(mandatory), request.budget) then Disallowed
                       else MandatoryTooLarge(Elements(omissions)), request)
  {
    var text := RenderBundle(request.task, mandatory);
    if Within(ConservativeEstimate(text), request.budget) {
      r := OmissionDisallowed;
    } else {
      var list := ListOmissions(omissions);
      r := RenderedOverflow(list);
    }
  }

  method DropWorst(selected: seq<Draft>, optional: seq<Draft>, omissions: seq<Omission>)
    returns (rest: seq<Draft>, longer: seq<Omission>)
    requires Lists(selected, omissions) && optional != [] && Elements(optional) == Optional(Elements(selected))
    ensures Optional(Elements(selected)) != {} && Lists(rest, longer)
    ensures var d := Worst(Optional(Elements(selected)));
            Elements(rest) == Elements(selected) - {d} && Elements(longer) == Elements(omissions) + {Omit(d, BUDGET_EXHAUSTED)}
  {
    var d := Costliest(optional);
    assert d in Elements(selected);
    rest := Remove(selected, d);
    ListsAfterRemoval(selected, omissions, d, rest);
    longer := omissions + [Omit(d, BUDGET_EXHAUSTED)];
  }

  /** One round of the final pass: a result, or the lists for the next round. */
  method OneRound(selected: seq<Draft>, omissions: seq<Omission>, request: Request, ghost rounds: nat)
    returns (result: Option<Compilation>, rest: seq<Draft>, longer: seq<Omission>)
    requires Lists(selected, omissions) && rounds > 0
    ensures result.Some? ==>
              Reports(result.value,
                      Rebalance(request.task, Elements(selected), Elements(omissions), request.budget, rounds), request)
    ensures result.None? ==>
              && Lists(rest, longer)
              && Rebalance(request.task, Elements(rest), Elements(longer), request.budget, rounds - 1)
              == Rebalance(request.task, Elements(selected), Elements(omissions), request.budget, rounds)
  {
    rest, longer := selected, omissions;
    var text := RenderBundle(request.task, selected);
    if Within(ConservativeEstimate(text), request.budget) {
      var r := Deliver(selected, omissions, text, request);
      return Some(r), rest, longer;
    }
    var mandatory, optional, _ := SplitMandatory(selected);
    EmptyElements(optional);
    if optional == [] {
      var list := ListOmissions(omissions);
      return Some(RenderedOverflow(list)), rest, longer;
    }
    if !request.budget.allowOmission {
      var r := RefuseRemoval(mandatory, omissions, request);
      return Some(r), rest, longer;
    }
    rest, longer := DropWorst(selected, optional, omissions);
    result := None;
  }

  /** The final pass: measure the rendering, drop the least wanted optional item, measure again. */
  method FinalPass(planned: seq<Draft>, left: seq<Omission>, request: Request) returns (r: Compilation)
    requires Lists(planned, left)
    ensures Reports(r, Rebalance(request.task, Elements(planned), Elements(left), request.budget, request.maxRebalance + 1), request)
  {
    var rounds := request.maxRebalance + 1;
    var selected, omissions := planned, left;
    for round := 0 to rounds
      invariant Lists(selected, omissions)
      invariant Rebalance(request.task, Elements(planned), Elements(left), request.budget, rounds)
             == Rebalance(request.task, Elements(selected), Elements(omissions), request.budget, rounds - round)
    {
      var result, rest, longer := OneRound(selected, omissions, request, rounds - round);
      if result.Some? {
        return result.value;
      }
      selected, omissions := rest, longer;
    }
    var list := ListOmissions(omissions);
    r := Unverified(list);
  }

  lemma EmptyElements<T>(xs: seq<T>)
    ensures xs == [] <==> Elements(xs) == {}
  {
    if xs != [] {
      assert xs[0] in Elements(xs);
    }
  }

  method Filter(items: seq<Evidence>, request: Request) returns (chosen: seq<Evidence>)
    requires NoRepeats(items)
    ensures NoRepeats(chosen) && Elements(chosen) == Chosen(Elements(items), request)
  {
    if request.selection.None? {
      return items;
    }
    chosen := [];
    for n := 0 to |items|
      invariant NoRepeats(chosen) && Elements(chosen) == Chosen(Elements(items[..n]), request)
    {
      PrefixStep(items, n);
      Appended(chosen, items[n]);
      if items[n].id in request.selection.value.ids {
        chosen := chosen + [items[n]];
      }
    }
    assert items[..|items|] == items;
  }

  method CheckScope(items: seq<Evidence>, request: Request) returns (ok: bool)
    ensures ok == InScope(Elements(items), request)
  {
    ok := true;
    if request.selection.Some? {
      var ids := request.selection.value.ids;
      for n := 0 to |ids|
        invariant ok == forall id :: id in ids[..n] ==> HasId(Elements(items), id)
      {
        assert ids[..n + 1] == ids[..n] + [ids[n]];
        var found := false;
        for k := 0 to |items|
          invariant found == HasId(Elements(items[..k]), ids[n])
        {
          PrefixStep(items, k);
          found := found || items[k].id == ids[n];
        }
        assert items[..|items|] == items;
        ok := ok && found;
      }
      assert ids[..|ids|] == ids;
    }
  }

  method CompileCandidates(candidates: seq<Evidence>, request: Request, base: nat) returns (r: Compilation)
    requires NoRepeats(candidates) && UniqueEvidence(Elements(candidates)) && base == BaseEstimate(request).count
    ensures PlannedTo(Elements(candidates), request, r)
  {
    ghost var c := Elements(candidates);
    DraftIds(c, request);
    var drafts := BuildDrafts(candidates, request);
    var plan := Choose(drafts, RulesFor(request), request.budget, base);
    if plan.mandatoryCost > request.budget.usable {
      return MandatoryOverflow(plan.omitted);
    }
    if plan.disallowed.Some? {
      return OmissionDisallowed;
    }
    PlanLists(c, request);
    r := FinalPass(plan.selected, plan.omitted, request);
  }

  /** Compile: scope, base cost, plan, final pass. */
  method Compile(items: seq<Evidence>, request: Request) returns (r: Compilation)
    requires NoRepeats(items) && UniqueEvidence(Elements(items))
    ensures CompilesTo(Elements(items), request, r)
  {
    var inScope := CheckScope(items, request);
    if !inScope {
      return ScopeError;
    }
    var candidates := Filter(items, request);
    var bare := RenderBundle(request.task, []);
    assert Elements<Draft>([]) == {};
    NothingToRender(request.task);
    var base := ConservativeEstimate(bare);
    if !Within(base, request.budget) {
      return TaskOverflow(base.count);
    }
    r := CompileCandidates(candidates, request, base.count);
  }

  // ---- The contract of a resolution result ----

  predicate DistinctIds(items: seq<Evidence>) {
    forall i, j {:trigger items[i], items[j]} :: 0 <= i < j < |items| ==> items[i].id != items[j].id
  }

  /** A resolution result refuses candidates that share an id. */
  method IsDeduplicated(items: seq<Evidence>) returns (unique: bool)
    ensures unique == DistinctIds(items)
  {
    unique := true;
    var seen: set<string> := {};
    for n := 0 to |items|
      invariant forall id :: id in seen <==> exists k {:trigger items[k]} :: 0 <= k < n && items[k].id == id
      invariant unique == DistinctIds(items[..n])
    {
      DistinctStep(items, n, seen);
      unique := unique && items[n].id !in seen;
      seen := seen + {items[n].id};
    }
    assert items[..|items|] == items;
  }

  lemma DistinctStep(items: seq<Evidence>, n: nat, seen: set<string>)
    requires n < |items|
    requires forall id :: id in seen <==> exists k {:trigger items[k]} :: 0 <= k < n && items[k].id == id
    ensures DistinctIds(items[..n + 1]) <==> DistinctIds(items[..n]) && items[n].id !in seen
  {
    var shorter, longer := items[..n], items[..n + 1];
    assert forall k {:trigger items[k]} :: 0 <= k < n ==> shorter[k] == items[k] == longer[k];
    assert longer[n] == items[n];
    if DistinctIds(longer) {
      assert forall i, j {:trigger shorter[i], shorter[j]} :: 0 <= i < j < n ==> longer[i].id != longer[j].id;
    }
  }

  /** Compile whatever candidates come: repeated ids are refused, all others are compiled. */
  method CompileResolution(items: seq<Evidence>, request: Request) returns (r: Option<Compilation>)
    ensures r.Some? <==> DistinctIds(items)
    ensures r.Some? ==> UniqueEvidence(Elements(items)) && CompilesTo(Elements(items), request, r.value)
  {
    var unique := IsDeduplicated(items);
    if !unique {
      return None;
    }
    var compilation := Compile(items, request);
    r := Some(compilation);
  }

  lemma PlanLists(s: set<Evidence>, request: Request)
    requires UniqueEvidence(s) && Normal(PlanOf(s, request), request.budget)
    ensures Lists(PlanOf(s, request).selected, PlanOf(s, request).omitted)
  {
    DraftIds(s, request);
    PlanPartitions(DraftsOf(s, request), RulesFor(request), request.budget, BaseEstimate(request).count);
    var plan := PlanOf(s, request);
    assert Increasing(ByKey(ShowKey), plan.selected);
  }
}
