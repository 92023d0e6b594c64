/**
 Thinning keeps every critical need, and so does the whole path from the candidates.

 The mandatory pass is counted item by item, which gives the exact condition under which it gives up.
 */
module DensityCoverage {
  import opened Ordering
  import opened KeyedSorting
  import opened ContextDensity
  import RetrievalDecision
  import DecisionCoverage

  /** The state tells the truth about its choice, and every offered item went to one list. */
  ghost predicate Faithful(st: State, offered: set<Item>, omitted: map<string, Reason>) {
    && Elements(st.chosen) <= offered && NoRepeats(st.chosen)
    && st.covered == Carried(Elements(st.chosen))
    && (forall item :: item in st.chosen ==> item.group in st.groups)
    && (forall item :: item in offered && item !in st.chosen ==> item.id in st.omitted)
    && (forall id :: id in st.omitted && id !in omitted ==> HasId(offered - Elements(st.chosen), id))
  }

  lemma CarriedWith(s: set<Item>, item: Item)
    ensures Carried(s + {item}) == Carried(s) + item.needs
  {
  }

  lemma ChooseIsFaithful(st: State, item: Item, offered: set<Item>, omitted: map<string, Reason>)
    requires Faithful(st, offered, omitted) && item !in offered
    ensures Faithful(Choose(st, item), offered + {item}, omitted)
  {
    Appended(st.chosen, item);
    CarriedWith(Elements(st.chosen), item);
    assert offered + {item} - (Elements(st.chosen) + {item}) == offered - Elements(st.chosen);
  }

  lemma LeaveIsFaithful(st: State, item: Item, reason: Reason, offered: set<Item>, omitted: map<string, Reason>)
    requires Faithful(st, offered, omitted) && item !in offered
    ensures Faithful(Leave(st, item, reason), offered + {item}, omitted)
  {
    assert item !in Elements(st.chosen);
    var rest := offered + {item} - Elements(st.chosen);
    assert item in rest;
    forall id | id in Leave(st, item, reason).omitted && id !in omitted ensures HasId(rest, id) {
      if id != item.id {
        var a :| a in offered - Elements(st.chosen) && a.id == id;
        assert a in rest;
      }
    }
  }

  /** Among mandatory items what is covered is all that was offered: a redundant item adds no need. */
  lemma OfferMandatoryIsFaithful(st: State, item: Item, offered: set<Item>, omitted: map<string, Reason>)
    requires Faithful(st, offered, omitted) && item !in offered && st.covered == Carried(offered)
    ensures Faithful(OfferMandatory(st, item), offered + {item}, omitted)
    ensures OfferMandatory(st, item).covered == Carried(offered + {item})
  {
    CarriedWith(offered, item);
    if Redundant(st, item) {
      LeaveIsFaithful(st, item, REDUNDANT_CONTEXT, offered, omitted);
    } else {
      ChooseIsFaithful(st, item, offered, omitted);
    }
  }

  ghost predicate CoversOffered(st: State, offered: set<Item>, omitted: map<string, Reason>) {
    Faithful(st, offered, omitted) && st.covered == Carried(offered)
  }

  lemma {:induction false} MandatoryIsFaithful(start: State, omitted: map<string, Reason>, order: seq<Item>, n: nat)
    requires n <= |order| && NoRepeats(order) && CoversOffered(start, {}, omitted)
    ensures CoversOffered(MandatoryUpTo(start, order, n), Elements(order[..n]), omitted)
  {
    if n == 0 {
      assert Elements(order[..0]) == {};
    } else {
      MandatoryIsFaithful(start, omitted, order, n - 1);
      PrefixStep(order, n - 1);
      OfferMandatoryIsFaithful(MandatoryUpTo(start, order, n - 1), order[n - 1], Elements(order[..n - 1]), omitted);
    }
  }

  predicate Extends(st: State, r: State, options: Options) {
    |r.chosen| <= options.maxSelected && st.chosen <= r.chosen && st.covered <= r.covered
  }

  lemma OptionalIsFaithful(st: State, item: Item, options: Options, offered: set<Item>, omitted: map<string, Reason>)
    requires Faithful(st, offered, omitted) && item !in offered && |st.chosen| <= options.maxSelected
    ensures var r := OfferOptional(st, item, options);
            Faithful(r, offered + {item}, omitted) && Extends(st, r, options)
  {
    if |st.chosen| >= options.maxSelected {
      LeaveIsFaithful(st, item, DENSITY_BUDGET, offered, omitted);
    } else if Redundant(st, item) {
      LeaveIsFaithful(st, item, REDUNDANT_CONTEXT, offered, omitted);
    } else {
      ChooseIsFaithful(st, item, offered, omitted);
    }
  }

  lemma {:induction false} DiversifiedIsFaithful(
    st: State, optional: set<Item>, options: Options, offered: set<Item>, omitted: map<string, Reason>)
    requires UniqueItems(optional) && offered !! optional
    requires Faithful(st, offered, omitted) && |st.chosen| <= options.maxSelected
    ensures var r := Diversified(st, optional, options);
            Faithful(r, offered + optional, omitted) && Extends(st, r, options)
    decreases |optional|
  {
    if optional == {} {
      assert offered + optional == offered;
    } else {
      var item := NextItem(st, optional, options);
      var next := OfferOptional(st, item, options);
      OptionalIsFaithful(st, item, options, offered, omitted);
      OneLess(optional, item, offered);
      DiversifiedIsFaithful(next, optional - {item}, options, offered + {item}, omitted);
      ExtendsTransitive(st, next, Diversified(next, optional - {item}, options), options);
    }
  }

  lemma OneLess(optional: set<Item>, item: Item, offered: set<Item>)
    requires item in optional && offered !! optional
    ensures offered + {item} !! optional - {item} && offered + {item} + (optional - {item}) == offered + optional
    ensures item !in offered && |optional - {item}| < |optional|
    ensures UniqueItems(optional) ==> UniqueItems(optional - {item})
  {
  }

  lemma ExtendsTransitive(a: State, b: State, c: State, options: Options)
    requires Extends(a, b, options) && Extends(b, c, options)
    ensures Extends(a, c, options)
  {
  }

  lemma FirstPass(s: set<Item>, omitted: map<string, Reason>, critical: set<string>)
    requires UniqueItems(s)
    ensures Faithful(AfterMandatory(s, omitted, critical), Mandatory(s, critical), omitted)
    ensures AfterMandatory(s, omitted, critical).covered == Carried(Mandatory(s, critical))
  {
    var order := Sorted(MandatoryKey, Mandatory(s, critical));
    SortedNoRepeats(MandatoryKey, Mandatory(s, critical));
    assert Elements<Item>([]) == {};
    MandatoryIsFaithful(Begin(omitted), omitted, order, |order|);
    assert order[..|order|] == order;
  }

  /** A thinned selection carries exactly the critical needs that came in, within the limit, and loses no item silently. */
  lemma ThinningKeepsCriticalNeeds(s: set<Item>, omitted: map<string, Reason>, critical: set<string>, options: Options)
    requires UniqueItems(s) && Density(s, omitted, critical, options).Thinned?
    ensures var r := Density(s, omitted, critical, options);
            && |r.chosen| <= options.maxSelected
            && Elements(r.chosen) <= s && NoRepeats(r.chosen)
            && critical * Carried(Elements(r.chosen)) == critical * Carried(s)
            && r.missing == critical - Carried(s)
            && (forall item :: item in s && item !in r.chosen ==> item.id in r.omitted)
            && (forall item :: item in r.chosen && item.id in r.omitted ==> item.id in omitted)
  {
    var m := Mandatory(s, critical);
    var first := AfterMandatory(s, omitted, critical);
    FirstPass(s, omitted, critical);
    DiversifiedIsFaithful(first, s - m, options, m, omitted);
    assert m + (s - m) == s;
    var r := Density(s, omitted, critical, options);
    forall need | need in critical * Carried(s) ensures need in Carried(Elements(r.chosen)) {
      var item :| item in s && need in item.needs;
      assert need in item.needs * critical && item in m;
    }
    forall item | item in r.chosen && item.id in r.omitted ensures item.id in omitted {
      assert item in Elements(r.chosen);
    }
  }

  // ---- When thinning gives up ----

  /** An earlier item has the group of item k. */
  ghost predicate GroupSeen(order: seq<Item>, k: nat)
    requires k < |order|
  {
    exists j {:trigger order[j]} :: 0 <= j < k && order[j].group == order[k].group
  }

  /** Item k is the first of its group, or carries a need that no earlier item carries. */
  ghost predicate Irredundant(order: seq<Item>, k: nat)
    requires k < |order|
  {
    !GroupSeen(order, k) || !(order[k].needs <= Carried(Elements(order[..k])))
  }

  /** The irredundant positions among the first n. */
  ghost function IrredundantBefore(order: seq<Item>, n: nat): set<nat>
    requires n <= |order|
  {
    set k: nat | k < n && Irredundant(order, k)
  }

  ghost function GroupsOf(s: set<Item>): set<string> {
    set item | item in s :: item.group
  }

  /** The mandatory pass knows the needs and groups of all it was offered, and keeps as many items as are irredundant. */
  ghost predicate Counts(st: State, order: seq<Item>, n: nat)
    requires n <= |order|
  {
    && st.covered == Carried(Elements(order[..n]))
    && st.groups == GroupsOf(Elements(order[..n]))
    && |st.groups| <= |st.chosen| == |IrredundantBefore(order, n)|
  }

  lemma IrredundantStep(order: seq<Item>, n: nat)
    requires n < |order|
    ensures |IrredundantBefore(order, n + 1)| == |IrredundantBefore(order, n)| + if Irredundant(order, n) then 1 else 0
  {
    var before := IrredundantBefore(order, n);
    assert IrredundantBefore(order, n + 1) == if Irredundant(order, n) then before + {n} else before;
  }

  lemma SeenIsOffered(order: seq<Item>, n: nat)
    requires n < |order|
    ensures GroupSeen(order, n) <==> order[n].group in GroupsOf(Elements(order[..n]))
  {
    if GroupSeen(order, n) {
      var j :| 0 <= j < n && order[j].group == order[n].group;
      assert order[..n][j] in Elements(order[..n]);
    }
  }

  lemma OfferCounts(st: State, order: seq<Item>, n: nat)
    requires n < |order| && Counts(st, order, n)
    ensures Counts(OfferMandatory(st, order[n]), order, n + 1)
  {
    PrefixStep(order, n);
    CarriedWith(Elements(order[..n]), order[n]);
    IrredundantStep(order, n);
    SeenIsOffered(order, n);
    assert GroupsOf(Elements(order[..n]) + {order[n]}) == GroupsOf(Elements(order[..n])) + {order[n].group};
  }

  lemma {:induction false} MandatoryCounts(omitted: map<string, Reason>, order: seq<Item>, n: nat)
    requires n <= |order|
    ensures Counts(MandatoryUpTo(Begin(omitted), order, n), order, n)
  {
    if n == 0 {
      assert IrredundantBefore(order, 0) == {};
    } else {
      MandatoryCounts(omitted, order, n - 1);
      OfferCounts(MandatoryUpTo(Begin(omitted), order, n - 1), order, n - 1);
    }
  }

  /**
   It gives up exactly when more than the limit of the mandatory items, taken by score, group and id, are the
   first of their group or carry a need that none before them carries; in particular when they have more groups
   than the limit, and never when they are within it.
   */
  lemma ThinningFailsExactly(s: set<Item>, omitted: map<string, Reason>, critical: set<string>, options: Options)
    requires UniqueItems(s)
    ensures var order := Sorted(MandatoryKey, Mandatory(s, critical));
            Density(s, omitted, critical, options).MandatoryUnsatisfied?
            <==> |IrredundantBefore(order, |order|)| > options.maxSelected
    ensures |GroupsOf(Mandatory(s, critical))| > options.maxSelected
            ==> Density(s, omitted, critical, options).MandatoryUnsatisfied?
    ensures Density(s, omitted, critical, options).MandatoryUnsatisfied? ==> |Mandatory(s, critical)| > options.maxSelected
  {
    var first := AfterMandatory(s, omitted, critical);
    var order := Sorted(MandatoryKey, Mandatory(s, critical));
    FirstPass(s, omitted, critical);
    SortedNoRepeats(MandatoryKey, Mandatory(s, critical));
    MandatoryCounts(omitted, order, |order|);
    assert order[..|order|] == order;
    NoRepeatsCounts(first.chosen);
    SubsetSize(Elements(first.chosen), Mandatory(s, critical));
  }

  // ---- From the candidates to the thinned selection ----

  /** The items of a decision: what was selected, with the needs it carries. */
  ghost predicate ItemsOf(st: RetrievalDecision.State, items: seq<Item>) {
    && |items| == |st.selected|
    && forall k {:trigger items[k]} :: 0 <= k < |items| ==>
         items[k].id == st.selected[k].candidate.id && items[k].needs == st.selected[k].needs
  }

  /** A critical need that a candidate matches is still carried after thinning, unless a limit was reached. */
  lemma CriticalNeedsSurvive(s: set<RetrievalDecision.Candidate>, ctx: RetrievalDecision.Context, items: seq<Item>,
                             kept: seq<Item>, omitted: map<string, Reason>, options: Options, need: string)
    requires RetrievalDecision.UniqueIds(s) && forall c :: c in s ==> c.id != ""
    requires need in RetrievalDecision.Critical(ctx)
    requires exists c :: c in s && !RetrievalDecision.Judge(c, ctx).Rejected? && need in RetrievalDecision.NeedsOf(c, ctx)
    requires ItemsOf(RetrievalDecision.Decision(s, ctx), items)
    requires FirstOfIds(items, Elements(kept)) && NoRepeats(kept)
    ensures UniqueItems(Elements(kept))
    ensures var r := Density(Elements(kept), omitted, RetrievalDecision.Critical(ctx), options);
            || |items| == ctx.maxSelected
            || r.MandatoryUnsatisfied?
            || (need in Carried(Elements(r.chosen)) && need !in r.missing)
  {
    DecisionCoverage.CriticalNeedsAreCovered(s, ctx, need);
    DecisionCoverage.DecisionServes(s, ctx);
    var st := RetrievalDecision.Decision(s, ctx);
    if |items| < ctx.maxSelected {
      SelectedNeedIsKept(s, ctx, items, Elements(kept), need);
      if Density(Elements(kept), omitted, RetrievalDecision.Critical(ctx), options).Thinned? {
        ThinningKeepsCriticalNeeds(Elements(kept), omitted, RetrievalDecision.Critical(ctx), options);
      }
    }
  }

  lemma SelectedNeedIsKept(s: set<RetrievalDecision.Candidate>, ctx: RetrievalDecision.Context, items: seq<Item>,
                           kept: set<Item>, need: string)
    requires RetrievalDecision.UniqueIds(s) && forall c :: c in s ==> c.id != ""
    requires DecisionCoverage.Truthful(RetrievalDecision.Decision(s, ctx), s, ctx)
    requires ItemsOf(RetrievalDecision.Decision(s, ctx), items) && FirstOfIds(items, kept)
    requires DecisionCoverage.Covers(RetrievalDecision.Decision(s, ctx).selected, need)
    ensures need in Carried(kept)
  {
    var st := RetrievalDecision.Decision(s, ctx);
    var ranked :| ranked in st.selected && need in ranked.needs;
    var k :| 0 <= k < |st.selected| && st.selected[k] == ranked;
    assert items[k] in items && items[k].id != "";
    assert HasId(kept, items[k].id);
    var a :| a in kept && a.id == items[k].id;
    assert a in items;
    var j :| 0 <= j < |items| && items[j] == a;
    assert st.selected[j] in st.selected;
    assert st.selected[j].candidate == st.selected[k].candidate;
    assert need in a.needs;
  }
}
