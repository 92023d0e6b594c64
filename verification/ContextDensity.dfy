/** Thinning a selection for diversity: mandatory items first, then the others by a value computed anew each time. */
module ContextDensity {
  import opened Ordering
  import opened KeyedSorting

  /** A selected candidate; scores and similarities are counted in millionths. */
  datatype Item = Item(id: string, needs: set<string>, group: string, score: int, tokens: nat)

  /** The weight of the score in hundredths, and the overlap of the texts behind two ids. */
  datatype Options = Options(maxSelected: nat, weight: nat, overlap: (string, string) -> nat)

  datatype Reason = DUPLICATE_CANDIDATE | REDUNDANT_CONTEXT | DENSITY_BUDGET

  datatype State = State(chosen: seq<Item>, groups: set<string>, covered: set<string>, omitted: map<string, Reason>)

  datatype Thinned =
    | MandatoryUnsatisfied
    | Thinned(chosen: seq<Item>, omitted: map<string, Reason>, missing: set<string>)

  // ---- Normalising ----

  /** The first item of every nonempty id. */
  ghost predicate FirstOfIds(items: seq<Item>, s: set<Item>) {
    && (forall a :: a in s ==> a in items && IsFirst(items, a))
    && (forall a, b :: a in s && b in s && a.id == b.id ==> a == b)
    && (forall a :: a in items && a.id != "" ==> HasId(s, a.id))
    && (forall a :: a in s ==> a.id != "")
  }

  ghost predicate IsFirst(items: seq<Item>, a: Item) {
    exists i {:trigger items[i]} :: 0 <= i < |items| && items[i] == a && forall k {:trigger items[k]} :: 0 <= k < i ==> items[k].id != a.id
  }

  lemma FirstStays(items: seq<Item>, item: Item, a: Item)
    requires IsFirst(items, a)
    ensures IsFirst(items + [item], a)
  {
    var i :| 0 <= i < |items| && items[i] == a && forall k {:trigger items[k]} :: 0 <= k < i ==> items[k].id != a.id;
    var longer := items + [item];
    assert longer[i] == a && forall k {:trigger longer[k]} :: 0 <= k < i ==> longer[k] == items[k];
  }

  ghost predicate HasId(s: set<Item>, id: string) {
    exists a :: a in s && a.id == id
  }

  ghost predicate UniqueItems(s: set<Item>) {
    forall a, b :: a in s && b in s && a.id == b.id ==> a == b
  }

  /** Two of the items have this id. */
  ghost predicate Repeated(items: seq<Item>, id: string) {
    id != "" && exists i, j {:trigger items[i], items[j]} :: 0 <= i < j < |items| && items[i].id == items[j].id == id
  }

  ghost predicate Reported(omitted: map<string, Reason>, items: seq<Item>) {
    && (forall id :: id in omitted <==> Repeated(items, id))
    && (forall id :: id in omitted ==> omitted[id] == DUPLICATE_CANDIDATE)
  }

  method Normalize(items: seq<Item>) returns (kept: seq<Item>, omitted: map<string, Reason>)
    ensures NoRepeats(kept) && FirstOfIds(items, Elements(kept))
    ensures Reported(omitted, items)
  {
    kept, omitted := [], map[];
    var seen: set<string> := {};
    for n := 0 to |items|
      invariant NoRepeats(kept) && FirstOfIds(items[..n], Elements(kept))
      invariant forall id :: id in seen <==> HasId(Elements(kept), id)
      invariant Reported(omitted, items[..n])
    {
      var item := items[n];
      PrefixStep(items, n);
      RepeatStep(items[..n], item, Elements(kept));
      if item.id == "" || item.id in seen {
        KeptStays(items[..n], item, Elements(kept));
        if item.id != "" {
          omitted := omitted[item.id := DUPLICATE_CANDIDATE];
        }
      } else {
        KeptGrows(items[..n], item, Elements(kept));
        Appended(kept, item);
        kept, seen := kept + [item], seen + {item.id};
      }
    }
    assert items[..|items|] == items;
  }

  lemma RepeatStep(items: seq<Item>, item: Item, s: set<Item>)
    requires FirstOfIds(items, s)
    ensures forall id {:trigger Repeated(items + [item], id)} ::
              Repeated(items + [item], id) <==> Repeated(items, id) || (id == item.id != "" && HasId(s, id))
  {
    var longer := items + [item];
    forall id {:trigger Repeated(longer, id)}
      ensures Repeated(longer, id) <==> Repeated(items, id) || (id == item.id != "" && HasId(s, id))
    {
      if Repeated(longer, id) {
        var i, j :| 0 <= i < j < |longer| && longer[i].id == longer[j].id == id;
        assert longer[i] == items[i];
        if j < |items| {
          assert longer[j] == items[j];
        } else {
          assert items[i] in items;
        }
      }
      if Repeated(items, id) {
        var i, j :| 0 <= i < j < |items| && items[i].id == items[j].id == id;
        assert longer[i] == items[i] && longer[j] == items[j];
      }
      if id == item.id != "" && HasId(s, id) {
        var a :| a in s && a.id == id;
        assert a in Elements(items);
        var i :| 0 <= i < |items| && items[i] == a;
        assert longer[i] == a && longer[|items|] == item;
      }
    }
  }

  lemma KeptStays(items: seq<Item>, item: Item, s: set<Item>)
    requires FirstOfIds(items, s) && (item.id == "" || HasId(s, item.id))
    ensures FirstOfIds(items + [item], s)
  {
    Appended(items, item);
    forall a | a in s ensures IsFirst(items + [item], a) {
      FirstStays(items, item, a);
    }
  }

  lemma KeptGrows(items: seq<Item>, item: Item, s: set<Item>)
    requires FirstOfIds(items, s) && item.id != "" && !HasId(s, item.id)
    ensures FirstOfIds(items + [item], s + {item}) && item !in s
    ensures forall id :: HasId(s + {item}, id) <==> HasId(s, id) || id == item.id
  {
    Appended(items, item);
    assert item in s + {item};
    var longer := items + [item];
    assert longer[|items|] == item;
    forall k {:trigger longer[k]} | 0 <= k < |items| ensures longer[k].id != item.id {
      assert items[k] in items;
    }
    forall a | a in s ensures IsFirst(longer, a) {
      FirstStays(items, item, a);
    }
    forall id | HasId(s, id) ensures HasId(s + {item}, id) {
      var a :| a in s && a.id == id;
      assert a in s + {item};
    }
  }

  // ---- Choosing ----

  ghost function Mandatory(s: set<Item>, critical: set<string>): set<Item> {
    set item | item in s && item.needs * critical != {}
  }

  function MandatoryKey(item: Item): Key {
    Key(-item.score, 0, 0, item.id, item.group)
  }

  predicate Redundant(st: State, item: Item) {
    item.group in st.groups && item.needs <= st.covered
  }

  function Choose(st: State, item: Item): State {
    State(st.chosen + [item], st.groups + {item.group}, st.covered + item.needs, st.omitted)
  }

  function Leave(st: State, item: Item, reason: Reason): State {
    st.(omitted := st.omitted[item.id := reason])
  }

  function OfferMandatory(st: State, item: Item): State {
    if Redundant(st, item) then Leave(st, item, REDUNDANT_CONTEXT) else Choose(st, item)
  }

  function OfferOptional(st: State, item: Item, options: Options): State {
    if |st.chosen| >= options.maxSelected then Leave(st, item, DENSITY_BUDGET)
    else OfferMandatory(st, item)
  }

  function MandatoryUpTo(start: State, mandatory: seq<Item>, n: nat): State
    requires n <= |mandatory|
  {
    if n == 0 then start else OfferMandatory(MandatoryUpTo(start, mandatory, n - 1), mandatory[n - 1])
  }

  function Similarity(a: Item, b: Item, options: Options): nat {
    if a.group == b.group then 1000000 else options.overlap(a.id, b.id)
  }

  function MostSimilar(item: Item, chosen: seq<Item>, options: Options): nat {
    if chosen == [] then 0
    else
      var rest := MostSimilar(item, chosen[..|chosen| - 1], options);
      var last := Similarity(item, chosen[|chosen| - 1], options);
      if last > rest then last else rest
  }

  /** The most valuable item is the one of high score that is least like what is chosen. */
  function DiversityKey(chosen: seq<Item>, options: Options): Item -> Key {
    (item: Item) =>
      Key(-(options.weight * item.score - (100 - options.weight) * MostSimilar(item, chosen, options)), 0, 0, item.id)
  }

  ghost function NextItem(st: State, optional: set<Item>, options: Options): (item: Item)
    requires optional != {} && UniqueItems(optional)
    ensures item in optional
  {
    var key := DiversityKey(st.chosen, options);
    SortedNoRepeats(key, optional);
    assert Sorted(key, optional)[0] in Elements(Sorted(key, optional));
    Sorted(key, optional)[0]
  }

  /** Offer the optional items, the most valuable one first, valued anew after each. */
  ghost function Diversified(st: State, optional: set<Item>, options: Options): State
    requires UniqueItems(optional)
    decreases |optional|
  {
    if optional == {} then st
    else
      var item := NextItem(st, optional, options);
      Diversified(OfferOptional(st, item, options), optional - {item}, options)
  }

  function Begin(omitted: map<string, Reason>): State {
    State([], {}, {}, omitted)
  }

  ghost function AfterMandatory(s: set<Item>, omitted: map<string, Reason>, critical: set<string>): State
    requires UniqueItems(s)
  {
    var mandatory := Sorted(MandatoryKey, Mandatory(s, critical));
    MandatoryUpTo(Begin(omitted), mandatory, |mandatory|)
  }

  ghost function Carried(items: set<Item>): set<string> {
    set item, need | item in items && need in item.needs :: need
  }

  ghost function Density(s: set<Item>, omitted: map<string, Reason>, critical: set<string>, options: Options): Thinned
    requires UniqueItems(s)
  {
    var first := AfterMandatory(s, omitted, critical);
    if |first.chosen| > options.maxSelected then MandatoryUnsatisfied
    else
      var st := Diversified(first, s - Mandatory(s, critical), options);
      Thinned(st.chosen, st.omitted, critical - Carried(Elements(st.chosen)))
  }

  // ---- The loops ----

  method SplitItems(items: seq<Item>, critical: set<string>) returns (mandatory: seq<Item>, optional: seq<Item>)
    requires NoRepeats(items)
    ensures NoRepeats(mandatory) && Elements(mandatory) == Mandatory(Elements(items), critical)
    ensures NoRepeats(optional) && Elements(optional) == Elements(items) - Mandatory(Elements(items), critical)
  {
    mandatory, optional := [], [];
    for n := 0 to |items|
      invariant NoRepeats(mandatory) && Elements(mandatory) == Mandatory(Elements(items[..n]), critical)
      invariant NoRepeats(optional)
             && Elements(optional) == Elements(items[..n]) - Mandatory(Elements(items[..n]), critical)
    {
      var item := items[n];
      PrefixStep(items, n);
      if item.needs * critical != {} {
        Appended(mandatory, item);
        mandatory := mandatory + [item];
      } else {
        Appended(optional, item);
        optional := optional + [item];
      }
    }
    assert items[..|items|] == items;
  }

  method Diversify(start: State, items: seq<Item>, options: Options) returns (st: State)
    requires NoRepeats(items) && UniqueItems(Elements(items))
    ensures st == Diversified(start, Elements(items), options)
  {
    st := start;
    var optional := items;
    while optional != []
      invariant NoRepeats(optional) && UniqueItems(Elements(optional))
      invariant Diversified(start, Elements(items), options) == Diversified(st, Elements(optional), options)
      decreases |optional|
    {
      var order := SortBy(DiversityKey(st.chosen, options), optional);
      SortedNoRepeats(DiversityKey(st.chosen, options), Elements(optional));
      NoRepeatsCounts(optional);
      assert order[0] == NextItem(st, Elements(optional), options);
      TailElements(order);
      st := OfferOptional(st, order[0], options);
      optional := order[1..];
    }
    assert Elements(optional) == {};
  }

  lemma TailElements(xs: seq<Item>)
    requires xs != [] && NoRepeats(xs)
    ensures NoRepeats(xs[1..]) && Elements(xs[1..]) == Elements(xs) - {xs[0]}
  {
    assert xs == [xs[0]] + xs[1..];
    assert forall k {:trigger xs[k]} :: 0 < k < |xs| ==> xs[k] != xs[0];
  }

  method CarriedBy(items: seq<Item>) returns (carried: set<string>)
    ensures carried == Carried(Elements(items))
  {
    carried := {};
    for n := 0 to |items|
      invariant carried == Carried(Elements(items[..n]))
    {
      PrefixStep(items, n);
      assert Carried(Elements(items[..n]) + {items[n]}) == Carried(Elements(items[..n])) + items[n].needs;
      carried := carried + items[n].needs;
    }
    assert items[..|items|] == items;
  }

  /** The density engine on a normalised selection. */
  method SelectDiverse(items: seq<Item>, omitted: map<string, Reason>, critical: set<string>, options: Options)
    returns (r: Thinned)
    requires NoRepeats(items) && UniqueItems(Elements(items))
    ensures r == Density(Elements(items), omitted, critical, options)
  {
    var mandatory, optional := SplitItems(items, critical);
    var order := SortBy(MandatoryKey, mandatory);
    var st := Begin(omitted);
    ghost var start := st;
    for n := 0 to |order|
      invariant st == MandatoryUpTo(start, order, n)
    {
      st := OfferMandatory(st, order[n]);
    }
    if |st.chosen| > options.maxSelected {
      return MandatoryUnsatisfied;
    }
    st := Diversify(st, optional, options);
    var carried := CarriedBy(st.chosen);
    r := Thinned(st.chosen, st.omitted, critical - carried);
  }
}
