/** On which line of the rendered context every heading and every item stands. */
module ContextLines {
  import opened Ordering
  import opened KeyedSorting
  import opened ContextModel
  import opened ContextPlanner
  import opened ContextRender

  ghost function BundleLines(task: string, s: set<Draft>): seq<string>
    requires UniqueIdsIn(s)
  {
    Head(task) + SectionsUpTo(s, 8) + Tail()
  }

  /** The sections before section k that hold an item. */
  ghost function UsedBefore(s: set<Draft>, k: nat): set<nat> {
    set i: nat | i < k && InSection(s, i) != {}
  }

  /** Two lines for each section in use, and one for each item. */
  ghost function LinesBefore(s: set<Draft>, k: nat): nat {
    2 * |UsedBefore(s, k)| + |Before(s, k)|
  }

  predicate Precedes(e: Draft, d: Draft) {
    e.tier < d.tier || (e.tier == d.tier && StringLess(e.id, d.id))
  }

  /** The items of the same section with a lower tier, or with the same tier and an earlier id. */
  ghost function ShownBefore(s: set<Draft>, d: Draft): set<Draft> {
    set e | e in s && SectionFor(e.role) == SectionFor(d.role) && Precedes(e, d)
  }

  /** The line of the empty line before the heading of section k. */
  ghost function GapLine(s: set<Draft>, k: nat): nat {
    4 + LinesBefore(s, k)
  }

  ghost function ItemLine(s: set<Draft>, d: Draft): nat {
    GapLine(s, SectionFor(d.role)) + 2 + |ShownBefore(s, d)|
  }

  lemma {:induction false} TextsAre(items: seq<Draft>)
    ensures |Texts(items)| == |items| && forall i {:trigger items[i]} :: 0 <= i < |items| ==> Texts(items)[i] == items[i].rendered
  {
    if items != [] {
      var init := items[..|items| - 1];
      TextsAre(init);
      forall i {:trigger items[i]} | 0 <= i < |items| ensures Texts(items)[i] == items[i].rendered {
        if i < |items| - 1 {
          assert init[i] == items[i];
        }
      }
    }
  }

  lemma UsedNext(s: set<Draft>, k: nat)
    ensures |UsedBefore(s, k + 1)| == |UsedBefore(s, k)| + if InSection(s, k) == {} then 0 else 1
  {
    if InSection(s, k) == {} {
      assert UsedBefore(s, k + 1) == UsedBefore(s, k);
    } else {
      assert UsedBefore(s, k + 1) == UsedBefore(s, k) + {k};
    }
  }

  lemma SectionLength(s: set<Draft>, k: nat)
    requires UniqueIdsIn(s) && k < 8
    ensures |SectionLines(s, k)| == (if InSection(s, k) == {} then 0 else 2) + |InSection(s, k)|
  {
    if InSection(s, k) != {} {
      SortedNoRepeats(ShowKey, InSection(s, k));
      TextsAre(Sorted(ShowKey, InSection(s, k)));
    }
  }

  lemma BeforeNext(s: set<Draft>, k: nat)
    ensures |Before(s, k + 1)| == |Before(s, k)| + |InSection(s, k)|
  {
    assert Before(s, k + 1) == Before(s, k) + InSection(s, k);
    assert Before(s, k) !! InSection(s, k);
  }

  lemma LinesNext(s: set<Draft>, k: nat)
    requires UniqueIdsIn(s) && k < 8
    ensures LinesBefore(s, k + 1) == LinesBefore(s, k) + |SectionLines(s, k)|
  {
    SectionLength(s, k);
    UsedNext(s, k);
    BeforeNext(s, k);
  }

  lemma SectionsNext(s: set<Draft>, k: nat)
    requires UniqueIdsIn(s) && k < 8
    ensures SectionsUpTo(s, k + 1) == SectionsUpTo(s, k) + SectionLines(s, k)
    ensures |SectionsUpTo(s, k + 1)| == |SectionsUpTo(s, k)| + |SectionLines(s, k)|
  {
  }

  lemma {:induction false} SectionsLength(s: set<Draft>, k: nat)
    requires UniqueIdsIn(s) && k <= 8
    ensures |SectionsUpTo(s, k)| == LinesBefore(s, k)
  {
    if k == 0 {
      assert UsedBefore(s, 0) == {} && Before(s, 0) == {};
    } else {
      SectionsLength(s, k - 1);
      SectionsNext(s, k - 1);
      LinesNext(s, k - 1);
    }
  }

  lemma Prefixed(a: seq<string>, b: seq<string>, more: seq<string>)
    requires a <= b
    ensures a <= b + more
  {
  }

  lemma {:induction false} SectionsGrow(s: set<Draft>, k: nat, n: nat)
    requires UniqueIdsIn(s) && k < n <= 8
    ensures SectionsUpTo(s, k) + SectionLines(s, k) <= SectionsUpTo(s, n)
    decreases n
  {
    SectionsNext(s, n - 1);
    if k < n - 1 {
      SectionsGrow(s, k, n - 1);
      Prefixed(SectionsUpTo(s, k) + SectionLines(s, k), SectionsUpTo(s, n - 1), SectionLines(s, n - 1));
    }
  }

  lemma InTheMiddle(head: seq<string>, all: seq<string>, tail: seq<string>, before: seq<string>, part: seq<string>, i: nat)
    requires before + part <= all && i < |part|
    ensures |head| + |before| + i < |head + all + tail| && (head + all + tail)[|head| + |before| + i] == part[i]
  {
    assert all[|before| + i] == (before + part)[|before| + i];
  }

  /** Where the lines of section k stand. */
  lemma SectionStands(task: string, s: set<Draft>, k: nat, i: nat)
    requires UniqueIdsIn(s) && k < 8 && i < |SectionLines(s, k)|
    ensures GapLine(s, k) + i < |BundleLines(task, s)| && BundleLines(task, s)[GapLine(s, k) + i] == SectionLines(s, k)[i]
  {
    SectionsLength(s, k);
    SectionsGrow(s, k, 8);
    InTheMiddle(Head(task), SectionsUpTo(s, 8), Tail(), SectionsUpTo(s, k), SectionLines(s, k), i);
  }

  lemma ShowOrder(e: Draft, d: Draft)
    ensures KeyLess(ShowKey(e), ShowKey(d)) <==> Precedes(e, d)
  {
  }

  lemma PlaceDecides(r: seq<Draft>, i: nat, j: nat)
    requires i < |r| && j < |r| && NoRepeats(r) && Increasing(ByKey(ShowKey), r)
    ensures Precedes(r[j], r[i]) <==> j < i
    ensures r[j] in r[..i] <==> j < i
  {
    ShowOrder(r[j], r[i]);
    if j < i {
      assert ByKey(ShowKey)(r[j], r[i]);
      assert r[..i][j] == r[j];
    } else if i < j {
      assert ByKey(ShowKey)(r[i], r[j]);
      KeyLessAsymmetric(ShowKey(r[i]), ShowKey(r[j]));
    } else {
      StringLessIrreflexive(r[i].id);
    }
  }

  ghost function Preceding(t: set<Draft>, d: Draft): set<Draft> {
    set e | e in t && Precedes(e, d)
  }

  lemma PlaceInList(r: seq<Draft>, i: nat)
    requires i < |r| && NoRepeats(r) && Increasing(ByKey(ShowKey), r)
    ensures |Preceding(Elements(r), r[i])| == i
  {
    forall e ensures e in Elements(r[..i]) <==> e in Preceding(Elements(r), r[i]) {
      if e in r {
        var j :| 0 <= j < |r| && r[j] == e;
        PlaceDecides(r, i, j);
      }
    }
    assert Elements(r[..i]) == Preceding(Elements(r), r[i]);
    NoRepeatsCounts(r[..i]);
  }

  lemma PlaceInSection(t: set<Draft>, d: Draft)
    requires UniqueIdsIn(t) && d in t
    ensures |Preceding(t, d)| < |Sorted(ShowKey, t)| && Sorted(ShowKey, t)[|Preceding(t, d)|] == d
  {
    var r := Sorted(ShowKey, t);
    SortedNoRepeats(ShowKey, t);
    assert d in Elements(r);
    var i :| 0 <= i < |r| && r[i] == d;
    PlaceInList(r, i);
  }

  lemma LineInSection(s: set<Draft>, d: Draft)
    requires UniqueIdsIn(s) && d in s
    ensures var k, n := SectionFor(d.role), |ShownBefore(s, d)|;
            2 + n < |SectionLines(s, k)| && SectionLines(s, k)[2 + n] == d.rendered
  {
    var t := InSection(s, SectionFor(d.role));
    assert d in t;
    PlaceInSection(t, d);
    assert Preceding(t, d) == ShownBefore(s, d);
    TextsAre(Sorted(ShowKey, t));
  }

  /** Every item stands under the heading of its section, after the items of lower tier or earlier id there. */
  lemma ItemStands(task: string, s: set<Draft>, d: Draft)
    requires UniqueIdsIn(s) && d in s
    ensures ItemLine(s, d) < |BundleLines(task, s)| && BundleLines(task, s)[ItemLine(s, d)] == d.rendered
  {
    LineInSection(s, d);
    SectionStands(task, s, SectionFor(d.role), 2 + |ShownBefore(s, d)|);
  }

  /** Every section in use has its heading after an empty line; the other sections have none. */
  lemma HeadingStands(task: string, s: set<Draft>, k: nat)
    requires UniqueIdsIn(s) && k < 8 && exists d :: d in s && SectionFor(d.role) == k
    ensures GapLine(s, k) + 1 < |BundleLines(task, s)|
    ensures BundleLines(task, s)[GapLine(s, k)] == "" && BundleLines(task, s)[GapLine(s, k) + 1] == SectionName(k)
  {
    var d :| d in s && SectionFor(d.role) == k;
    assert d in InSection(s, k);
    SectionStands(task, s, k, 0);
    SectionStands(task, s, k, 1);
  }

  /** The context is these lines: four at the head, the headings in use and the items, two at the end. */
  lemma LinesOfBundle(task: string, s: set<Draft>)
    requires UniqueIdsIn(s)
    ensures Bundle(task, s) == Join(BundleLines(task, s))
    ensures |BundleLines(task, s)| == 6 + 2 * |UsedBefore(s, 8)| + |s|
    ensures BundleLines(task, s)[..4] == ["[BRAIN-ELEVEN TASK CONTEXT v2]", "", "TASK", task]
    ensures BundleLines(task, s)[|BundleLines(task, s)| - 2..] == ["", "[END BRAIN-ELEVEN CONTEXT]"]
  {
    SectionsLength(s, 8);
    assert Before(s, 8) == s;
  }
}
