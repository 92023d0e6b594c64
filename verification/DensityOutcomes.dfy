/** What the density engine chooses, turn by turn, and why it leaves the others out. */
module DensityOutcomes {
  import opened Results
  import opened Ordering
  import opened KeyedSorting
  import opened ContextDensity
  import opened DensityCoverage

  // ---- Orders ----

  /** Mandatory items go by score, the highest first, then by group and id. */
  predicate EarlierMandatory(a: Item, b: Item) {
    || a.score > b.score
    || (a.score == b.score && a.group != b.group && StringLess(a.group, b.group))
    || (a.score == b.score && a.group == b.group && StringLess(a.id, b.id))
  }

  lemma MandatoryOrder(a: Item, b: Item)
    ensures KeyLess(MandatoryKey(a), MandatoryKey(b)) <==> EarlierMandatory(a, b)
  {
  }

  /** How alike two items are: fully within a group, else as far as their texts overlap. */
  predicate Alike(a: Item, b: Item, options: Options, n: nat) {
    (a.group == b.group ==> n == 1000000) && (a.group != b.group ==> n == options.overlap(a.id, b.id))
  }

  /** The similarity to what is chosen is the greatest to any chosen item, and nothing if none is chosen. */
  lemma {:induction false} MostSimilarMeans(item: Item, chosen: seq<Item>, options: Options)
    ensures chosen == [] ==> MostSimilar(item, chosen, options) == 0
    ensures chosen != [] ==> exists c :: c in chosen && Alike(item, c, options, MostSimilar(item, chosen, options))
    ensures forall c, n: nat :: c in chosen && Alike(item, c, options, n) ==> n <= MostSimilar(item, chosen, options)
    decreases |chosen|
  {
    if chosen != [] {
      var init, last := chosen[..|chosen| - 1], chosen[|chosen| - 1];
      MostSimilarMeans(item, init, options);
      assert chosen == init + [last];
      assert last in chosen && Alike(item, last, options, Similarity(item, last, options));
      if init != [] && MostSimilar(item, init, options) >= Similarity(item, last, options) {
        var c :| c in init && Alike(item, c, options, MostSimilar(item, init, options));
        assert c in chosen && Alike(item, c, options, MostSimilar(item, chosen, options));
      } else {
        assert Alike(item, last, options, MostSimilar(item, chosen, options));
      }
    }
  }

  /** What an item is worth beside what is chosen: its weighted score less its weighted similarity. */
  function Worth(item: Item, chosen: seq<Item>, options: Options): int {
    options.weight * item.score - (100 - options.weight) * MostSimilar(item, chosen, options)
  }

  predicate WorthMore(a: Item, b: Item, chosen: seq<Item>, options: Options) {
    var x, y := Worth(a, chosen, options), Worth(b, chosen, options);
    x > y || (x == y && StringLess(a.id, b.id))
  }

  lemma DiversityOrder(a: Item, b: Item, chosen: seq<Item>, options: Options)
    ensures KeyLess(DiversityKey(chosen, options)(a), DiversityKey(chosen, options)(b)) <==> WorthMore(a, b, chosen, options)
  {
  }

  // ---- Turns ----

  /** A chosen item has the group, and the chosen items carry all its needs. */
  ghost predicate Stale(item: Item, chosen: seq<Item>) {
    (exists c :: c in chosen && c.group == item.group) && forall need :: need in item.needs ==> exists c :: c in chosen && need in c.needs
  }

  /** One item's turn: left out if there is no room, left out if it adds nothing, chosen otherwise. */
  ghost predicate Turn(item: Item, before: seq<Item>, after: seq<Item>, limit: Option<nat>, omitted: map<string, Reason>) {
    if limit.Some? && |before| >= limit.value then after == before && item.id in omitted && omitted[item.id] == DENSITY_BUDGET
    else if Stale(item, before) then after == before && item.id in omitted && omitted[item.id] == REDUNDANT_CONTEXT
    else after == before + [item]
  }

  /** The items had their turns in this order; steps holds what was chosen before each, and at the end. */
  ghost predicate Turns(order: seq<Item>, steps: seq<seq<Item>>, limit: Option<nat>, omitted: map<string, Reason>) {
    && |steps| == |order| + 1
    && forall k {:trigger order[k]} :: 0 <= k < |order| ==> Turn(order[k], steps[k], steps[k + 1], limit, omitted)
  }

  /** The state knows the groups and needs of what is chosen. */
  ghost predicate Consistent(st: State) {
    && (forall g :: g in st.groups <==> exists c :: c in st.chosen && c.group == g)
    && (forall need :: need in st.covered <==> exists c :: c in st.chosen && need in c.needs)
  }

  lemma RedundantMeans(st: State, item: Item)
    requires Consistent(st)
    ensures Redundant(st, item) <==> Stale(item, st.chosen)
  {
  }

  lemma ChoiceIsConsistent(st: State, item: Item)
    requires Consistent(st)
    ensures Consistent(Choose(st, item))
  {
    var r := Choose(st, item);
    assert item in r.chosen;
    assert forall c :: c in st.chosen ==> c in r.chosen;
  }

  lemma OfferTurns(st: State, item: Item)
    requires Consistent(st)
    ensures Consistent(OfferMandatory(st, item))
    ensures Turn(item, st.chosen, OfferMandatory(st, item).chosen, None, OfferMandatory(st, item).omitted)
  {
    RedundantMeans(st, item);
    ChoiceIsConsistent(st, item);
  }

  lemma OfferOptionalTurns(st: State, item: Item, options: Options)
    requires Consistent(st)
    ensures Consistent(OfferOptional(st, item, options))
    ensures Turn(item, st.chosen, OfferOptional(st, item, options).chosen, Some(options.maxSelected),
                 OfferOptional(st, item, options).omitted)
  {
    RedundantMeans(st, item);
    ChoiceIsConsistent(st, item);
  }

  /** Reasons once given to these items stay as they are. */
  ghost predicate Keeps(a: map<string, Reason>, b: map<string, Reason>, items: set<Item>) {
    forall item :: item in items && item.id in a ==> item.id in b && b[item.id] == a[item.id]
  }

  lemma TurnStays(item: Item, before: seq<Item>, after: seq<Item>, limit: Option<nat>, a: map<string, Reason>, b: map<string, Reason>)
    requires Turn(item, before, after, limit, a) && Keeps(a, b, {item})
    ensures Turn(item, before, after, limit, b)
  {
    assert item in {item};
  }

  lemma OfferKeeps(st: State, item: Item, options: Options, others: set<Item>)
    requires forall a :: a in others ==> a.id != item.id
    ensures Keeps(st.omitted, OfferMandatory(st, item).omitted, others)
    ensures Keeps(st.omitted, OfferOptional(st, item, options).omitted, others)
  {
  }

  // ---- The mandatory pass ----

  /** The mandatory pass over the first n items took these turns. */
  ghost predicate TookTurns(omitted: map<string, Reason>, order: seq<Item>, n: nat, steps: seq<seq<Item>>)
    requires n <= |order|
  {
    var st := MandatoryUpTo(Begin(omitted), order, n);
    Turns(order[..n], steps, None, st.omitted) && steps[0] == [] && steps[n] == st.chosen
  }

  lemma {:induction false} MandatoryConsistent(omitted: map<string, Reason>, order: seq<Item>, n: nat)
    requires n <= |order|
    ensures Consistent(MandatoryUpTo(Begin(omitted), order, n))
  {
    if n > 0 {
      MandatoryConsistent(omitted, order, n - 1);
      OfferTurns(MandatoryUpTo(Begin(omitted), order, n - 1), order[n - 1]);
    }
  }

  lemma MandatoryTurn(omitted: map<string, Reason>, order: seq<Item>, n: nat, steps: seq<seq<Item>>) returns (longer: seq<seq<Item>>)
    requires n < |order| && UniqueItems(Elements(order)) && NoRepeats(order) && TookTurns(omitted, order, n, steps)
    ensures TookTurns(omitted, order, n + 1, longer)
  {
    var st := MandatoryUpTo(Begin(omitted), order, n);
    var next := OfferMandatory(st, order[n]);
    MandatoryConsistent(omitted, order, n);
    OfferTurns(st, order[n]);
    NewIds(order, n);
    OfferKeeps(st, order[n], Options(0, 0, (a: string, b: string) => 0), Elements(order[..n]));
    MoreTurns(order, n, steps, next.chosen, None, st.omitted, next.omitted);
    longer := steps + [next.chosen];
  }

  lemma {:induction false} MandatoryTurns(omitted: map<string, Reason>, order: seq<Item>, n: nat) returns (steps: seq<seq<Item>>)
    requires n <= |order| && UniqueItems(Elements(order)) && NoRepeats(order)
    ensures TookTurns(omitted, order, n, steps)
  {
    if n == 0 {
      steps := [[]];
    } else {
      var earlier := MandatoryTurns(omitted, order, n - 1);
      steps := MandatoryTurn(omitted, order, n - 1, earlier);
    }
  }

  lemma NewIds(order: seq<Item>, n: nat)
    requires n < |order| && UniqueItems(Elements(order)) && NoRepeats(order)
    ensures forall a :: a in Elements(order[..n]) ==> a.id != order[n].id
  {
    assert order[n] in Elements(order);
    forall a | a in Elements(order[..n]) ensures a.id != order[n].id {
      assert a in Elements(order);
      var i :| 0 <= i < n && order[i] == a;
    }
  }

  lemma MoreTurns(order: seq<Item>, n: nat, steps: seq<seq<Item>>, next: seq<Item>, limit: Option<nat>,
                  a: map<string, Reason>, b: map<string, Reason>)
    requires n < |order| && Turns(order[..n], steps, limit, a) && Keeps(a, b, Elements(order[..n]))
    requires Turn(order[n], steps[n], next, limit, b)
    ensures Turns(order[..n + 1], steps + [next], limit, b)
  {
    var longer := steps + [next];
    forall k {:trigger order[..n + 1][k]} | 0 <= k < n + 1
      ensures Turn(order[..n + 1][k], longer[k], longer[k + 1], limit, b)
    {
      if k < n {
        assert order[..n][k] == order[k] && order[k] in Elements(order[..n]);
        TurnStays(order[k], steps[k], steps[k + 1], limit, a, b);
      }
    }
  }

  // ---- The diversity loop ----

  lemma NextIsWorthMost(st: State, optional: set<Item>, options: Options, other: Item)
    requires UniqueItems(optional) && other in optional && other != NextItem(st, optional, options)
    ensures WorthMore(NextItem(st, optional, options), other, st.chosen, options)
  {
    var key := DiversityKey(st.chosen, options);
    var order := Sorted(key, optional);
    SortedNoRepeats(key, optional);
    assert other in Elements(order);
    var k :| 0 <= k < |order| && order[k] == other;
    assert ByKey(key)(order[0], order[k]);
    DiversityOrder(order[0], other, st.chosen, options);
  }

  /** At its turn each item is worth more than all that follow. */
  ghost predicate WorthFirst(order: seq<Item>, steps: seq<seq<Item>>, options: Options)
    requires |steps| == |order| + 1
  {
    forall i, j {:trigger order[i], order[j]} :: 0 <= i < j < |order| ==> WorthMore(order[i], order[j], steps[i], options)
  }

  /** The next item has its turn, and the reason it may get stays to the end. */
  lemma NextTurn(st: State, optional: set<Item>, options: Options)
    requires UniqueItems(optional) && optional != {} && Consistent(st)
    ensures var next := OfferOptional(st, NextItem(st, optional, options), options);
            && Consistent(next)
            && Turn(NextItem(st, optional, options), st.chosen, next.chosen, Some(options.maxSelected),
                    Diversified(st, optional, options).omitted)
  {
    var item := NextItem(st, optional, options);
    var next := OfferOptional(st, item, options);
    OfferOptionalTurns(st, item, options);
    LeftStays(next, optional - {item}, options, {item});
    TurnStays(item, st.chosen, next.chosen, Some(options.maxSelected), next.omitted, Diversified(st, optional, options).omitted);
  }

  lemma {:induction false} DiversityTurns(st: State, optional: set<Item>, options: Options) returns (order: seq<Item>, steps: seq<seq<Item>>)
    requires UniqueItems(optional) && Consistent(st)
    ensures NoRepeats(order) && Elements(order) == optional
    ensures Turns(order, steps, Some(options.maxSelected), Diversified(st, optional, options).omitted)
    ensures WorthFirst(order, steps, options)
    ensures steps[0] == st.chosen && steps[|order|] == Diversified(st, optional, options).chosen
    decreases |optional|
  {
    if optional == {} {
      order, steps := [], [st.chosen];
    } else {
      var item := NextItem(st, optional, options);
      var next := OfferOptional(st, item, options);
      NextTurn(st, optional, options);
      assert |optional - {item}| < |optional|;
      var later, rest := DiversityTurns(next, optional - {item}, options);
      order, steps := [item] + later, [st.chosen] + rest;
      FirstTurn(item, later, st.chosen, rest, Some(options.maxSelected), Diversified(st, optional, options).omitted);
      FirstIsWorthMost(st, optional, options, later, rest);
    }
  }

  lemma FirstTurn(item: Item, later: seq<Item>, chosen: seq<Item>, rest: seq<seq<Item>>, limit: Option<nat>, omitted: map<string, Reason>)
    requires Turns(later, rest, limit, omitted) && Turn(item, chosen, rest[0], limit, omitted)
    requires NoRepeats(later) && item !in later
    ensures Turns([item] + later, [chosen] + rest, limit, omitted)
    ensures NoRepeats([item] + later) && Elements([item] + later) == {item} + Elements(later)
  {
    var order, steps := [item] + later, [chosen] + rest;
    forall k {:trigger order[k]} | 0 <= k < |order| ensures Turn(order[k], steps[k], steps[k + 1], limit, omitted) {
      if k > 0 {
        assert order[k] == later[k - 1] && steps[k] == rest[k - 1] && steps[k + 1] == rest[k];
      }
    }
    assert forall k {:trigger order[k]} :: 0 < k < |order| ==> order[k] == later[k - 1];
  }

  lemma FirstIsWorthMost(st: State, optional: set<Item>, options: Options, later: seq<Item>, rest: seq<seq<Item>>)
    requires optional != {} && UniqueItems(optional) && Elements(later) == optional - {NextItem(st, optional, options)}
    requires |rest| == |later| + 1 && WorthFirst(later, rest, options)
    ensures WorthFirst([NextItem(st, optional, options)] + later, [st.chosen] + rest, options)
  {
    var order, steps := [NextItem(st, optional, options)] + later, [st.chosen] + rest;
    forall i, j {:trigger order[i], order[j]} | 0 <= i < j < |order| ensures WorthMore(order[i], order[j], steps[i], options) {
      assert order[j] == later[j - 1] && later[j - 1] in Elements(later);
      if i == 0 {
        NextIsWorthMost(st, optional, options, order[j]);
      } else {
        assert order[i] == later[i - 1] && steps[i] == rest[i - 1];
      }
    }
  }

  lemma {:induction false} LeftStays(st: State, optional: set<Item>, options: Options, others: set<Item>)
    requires UniqueItems(optional) && forall a, b :: a in others && b in optional ==> a.id != b.id
    ensures Keeps(st.omitted, Diversified(st, optional, options).omitted, others)
    decreases |optional|
  {
    if optional != {} {
      var item := NextItem(st, optional, options);
      OfferKeeps(st, item, options, others);
      assert |optional - {item}| < |optional|;
      LeftStays(OfferOptional(st, item, options), optional - {item}, options, others);
    }
  }

  // ---- The whole engine ----

  /** The items in order of score, group and id, each once. */
  ghost predicate MandatorySequence(order: seq<Item>, s: set<Item>, critical: set<string>) {
    && Elements(order) == (set item | item in s && exists need :: need in item.needs && need in critical)
    && forall i, j {:trigger order[i], order[j]} :: 0 <= i < j < |order| ==> EarlierMandatory(order[i], order[j])
  }

  lemma MandatoryInOrder(s: set<Item>, critical: set<string>)
    requires UniqueItems(s)
    ensures MandatorySequence(Sorted(MandatoryKey, Mandatory(s, critical)), s, critical)
  {
    var order := Sorted(MandatoryKey, Mandatory(s, critical));
    forall item | item in s ensures item in Mandatory(s, critical) <==> exists need :: need in item.needs && need in critical {
      if need :| need in item.needs && need in critical {
        assert need in item.needs * critical;
      }
      if item.needs * critical != {} {
        var need :| need in item.needs * critical;
      }
    }
    forall i, j {:trigger order[i], order[j]} | 0 <= i < j < |order| ensures EarlierMandatory(order[i], order[j]) {
      assert ByKey(MandatoryKey)(order[i], order[j]);
      MandatoryOrder(order[i], order[j]);
    }
  }

  /**
   A thinned selection is what two series of turns leave: the mandatory items by score, then the others, always the
   one worth most beside what is already chosen.
   */
  lemma ThinningTakesTurns(s: set<Item>, omitted: map<string, Reason>, critical: set<string>, options: Options)
    returns (first: seq<Item>, early: seq<seq<Item>>, order: seq<Item>, steps: seq<seq<Item>>)
    requires UniqueItems(s) && Density(s, omitted, critical, options).Thinned?
    ensures var r := Density(s, omitted, critical, options);
            && MandatorySequence(first, s, critical) && Turns(first, early, None, r.omitted) && early[0] == []
            && NoRepeats(order) && Elements(order) == s - Elements(first)
            && Turns(order, steps, Some(options.maxSelected), r.omitted) && WorthFirst(order, steps, options)
            && steps[0] == early[|first|] && steps[|order|] == r.chosen
  {
    var m := Mandatory(s, critical);
    first := Sorted(MandatoryKey, m);
    SortedNoRepeats(MandatoryKey, m);
    MandatoryInOrder(s, critical);
    var st := AfterMandatory(s, omitted, critical);
    early := MandatoryTurns(omitted, first, |first|);
    MandatoryConsistent(omitted, first, |first|);
    assert first[..|first|] == first;
    order, steps := DiversityTurns(st, s - m, options);
    LeftStays(st, s - m, options, m);
    KeptTurns(first, early, None, st.omitted, Diversified(st, s - m, options).omitted);
  }

  lemma KeptTurns(order: seq<Item>, steps: seq<seq<Item>>, limit: Option<nat>, a: map<string, Reason>, b: map<string, Reason>)
    requires Turns(order, steps, limit, a) && Keeps(a, b, Elements(order))
    ensures Turns(order, steps, limit, b)
  {
    forall k {:trigger order[k]} | 0 <= k < |order| ensures Turn(order[k], steps[k], steps[k + 1], limit, b) {
      assert order[k] in Elements(order);
      TurnStays(order[k], steps[k], steps[k + 1], limit, a, b);
    }
  }
}
