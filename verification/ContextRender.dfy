/**
 The rendered context, its exact size and the bound on its token estimate.

 Sections stand in a fixed order; within one, items stand by tier and id.
 */
module ContextRender {
  import opened Ordering
  import opened KeyedSorting
  import opened ContextModel
  import opened ContextPlanner

  /** The sections in the order in which they are shown. */
  function SectionName(k: nat): string
    requires k < 8
  {
    match k
    case 0 => "TASK"
    case 1 => "CRITICAL CONTEXT"
    case 2 => "CURRENT STATE"
    case 3 => "DECISIONS"
    case 4 => "REQUIREMENTS & CONSTRAINTS"
    case 5 => "KNOWN GAPS / CONFLICTS"
    case 6 => "RELEVANT LESSONS"
    case _ => "OPTIONAL SUPPORT"
  }

  function Head(task: string): seq<string> {
    ["[BRAIN-ELEVEN TASK CONTEXT v2]", "", "TASK", task]
  }

  function Tail(): seq<string> {
    ["", "[END BRAIN-ELEVEN CONTEXT]"]
  }

  /** The position of a role's section in the section order. */
  function SectionFor(role: Role): (k: nat)
    ensures k < 8 && (k == 0 <==> role == TASK)
  {
    match role
    case TASK => 0
    case IMPLEMENTATION_FACT => 1
    case CURRENT_STATE => 2
    case DECISION => 3
    case CONSTRAINT => 4
    case REQUIREMENT => 4
    case IMPLEMENTATION_GAP => 5
    case CONFLICT => 5
    case LESSON => 6
    case PREFERENCE => 6
    case OPEN_LOOP => 6
    case HISTORICAL_CONTEXT => 7
    case SUPPORTING_EVIDENCE => 7
  }

  // ---- What is rendered ----

  ghost function InSection(s: set<Draft>, k: nat): set<Draft> {
    set d | d in s && SectionFor(d.role) == k
  }

  function Texts(items: seq<Draft>): seq<string> {
    if items == [] then [] else Texts(items[..|items| - 1]) + [items[|items| - 1].rendered]
  }

  ghost function SectionLines(s: set<Draft>, k: nat): seq<string>
    requires UniqueIdsIn(s) && k < 8
  {
    if InSection(s, k) == {} then []
    else ["", SectionName(k)] + Texts(Sorted(ShowKey, InSection(s, k)))
  }

  ghost function SectionsUpTo(s: set<Draft>, k: nat): seq<string>
    requires UniqueIdsIn(s) && k <= 8
    decreases k, s
  {
    if k == 0 then [] else SectionsUpTo(s, k - 1) + SectionLines(s, k - 1)
  }

  ghost function Bundle(task: string, s: set<Draft>): string
    requires UniqueIdsIn(s)
  {
    Join(Head(task) + SectionsUpTo(s, 8) + Tail())
  }

  /** The context of a task without any item. */
  function BareBundle(task: string): string {
    Join(Head(task) + Tail())
  }

  // ---- The renderer's loops ----

  method GroupBySection(items: seq<Draft>) returns (sections: map<nat, seq<Draft>>)
    requires NoRepeats(items)
    ensures forall k :: k in sections <==> InSection(Elements(items), k) != {}
    ensures forall k :: k in sections ==> NoRepeats(sections[k]) && Elements(sections[k]) == InSection(Elements(items), k)
  {
    sections := map[];
    for n := 0 to |items|
      invariant forall k :: k in sections <==> InSection(Elements(items[..n]), k) != {}
      invariant forall k :: k in sections ==>
                  NoRepeats(sections[k]) && Elements(sections[k]) == InSection(Elements(items[..n]), k)
    {
      var d := items[n];
      PrefixStep(items, n);
      var section := SectionFor(d.role);
      var records := if section in sections then sections[section] else [];
      ghost var seen := Elements(items[..n]);
      assert Elements(records) == InSection(seen, section);
      Appended(records, d);
      SectionStep(seen, d);
      sections := sections[section := records + [d]];
      assert d in InSection(seen + {d}, section);
    }
    assert items[..|items|] == items;
  }

  lemma SectionStep(s: set<Draft>, d: Draft)
    requires d !in s
    ensures InSection(s + {d}, SectionFor(d.role)) == InSection(s, SectionFor(d.role)) + {d}
    ensures d !in InSection(s, SectionFor(d.role))
    ensures forall k {:trigger InSection(s + {d}, k)} :: k != SectionFor(d.role) ==> InSection(s + {d}, k) == InSection(s, k)
  {
    forall k | k != SectionFor(d.role) ensures InSection(s + {d}, k) == InSection(s, k) {
    }
  }

  method TextsOf(items: seq<Draft>) returns (texts: seq<string>)
    ensures texts == Texts(items)
  {
    texts := [];
    for n := 0 to |items|
      invariant texts == Texts(items[..n])
    {
      assert items[..n + 1][..n] == items[..n];
      texts := texts + [items[n].rendered];
    }
    assert items[..|items|] == items;
  }

  method RenderSection(sections: map<nat, seq<Draft>>, k: nat, ghost s: set<Draft>) returns (lines: seq<string>)
    requires UniqueIdsIn(s) && k < 8
    requires k in sections <==> InSection(s, k) != {}
    requires k in sections ==> NoRepeats(sections[k]) && Elements(sections[k]) == InSection(s, k)
    ensures lines == SectionLines(s, k)
  {
    if k !in sections {
      return [];
    }
    var records := SortBy(ShowKey, sections[k]);
    var texts := TextsOf(records);
    lines := ["", SectionName(k)] + texts;
  }

  /** The rendering depends on the set of items alone. */
  method RenderBundle(task: string, items: seq<Draft>) returns (text: string)
    requires NoRepeats(items) && UniqueIdsIn(Elements(items))
    ensures text == Bundle(task, Elements(items))
  {
    ghost var s := Elements(items);
    var sections := GroupBySection(items);
    var lines := [];
    for k := 0 to 8
      invariant lines == SectionsUpTo(s, k)
    {
      var more := RenderSection(sections, k, s);
      lines := lines + more;
    }
    text := Join(Head(task) + lines + Tail());
  }

  // ---- Its size ----

  function LineSize(d: Draft): int {
    Bytes(d.rendered) + 1
  }

  lemma {:induction false} TextsBytes(items: seq<Draft>)
    requires NoRepeats(items)
    ensures LineBytes(Texts(items)) == Total(LineSize, Elements(items))
    decreases |items|
  {
    if items != [] {
      var init, last := items[..|items| - 1], items[|items| - 1];
      TextsBytes(init);
      LineBytesConcat(Texts(init), [last.rendered]);
      assert items == init + [last];
      Appended(init, last);
      assert last !in init;
      TotalWith(LineSize, Elements(init), last);
    }
  }

  /** What a section costs besides its items: an empty line and its name. */
  ghost function Frame(s: set<Draft>, k: nat): nat
    requires k < 8
  {
    if InSection(s, k) == {} then 0 else Bytes(SectionName(k)) + 2
  }

  ghost function FramesUpTo(s: set<Draft>, k: nat): nat
    requires k <= 8
    decreases k, s
  {
    if k == 0 then 0 else FramesUpTo(s, k - 1) + Frame(s, k - 1)
  }

  ghost function Before(s: set<Draft>, k: nat): set<Draft> {
    set d | d in s && SectionFor(d.role) < k
  }

  lemma SectionBytes(s: set<Draft>, k: nat)
    requires UniqueIdsIn(s) && k < 8
    ensures LineBytes(SectionLines(s, k)) == Frame(s, k) + Total(LineSize, InSection(s, k))
  {
    if InSection(s, k) != {} {
      var records := Sorted(ShowKey, InSection(s, k));
      SortedNoRepeats(ShowKey, InSection(s, k));
      TextsBytes(records);
      LineBytesConcat(["", SectionName(k)], Texts(records));
      assert LineBytes([SectionName(k)]) == Bytes(SectionName(k)) + 1;
      assert ["", SectionName(k)][1..] == [SectionName(k)];
    }
  }

  lemma {:induction false} SectionsBytes(s: set<Draft>, k: nat)
    requires UniqueIdsIn(s) && k <= 8
    ensures LineBytes(SectionsUpTo(s, k)) == FramesUpTo(s, k) + Total(LineSize, Before(s, k))
  {
    if k == 0 {
      assert Before(s, 0) == {};
    } else {
      SectionsBytes(s, k - 1);
      SectionBytes(s, k - 1);
      LineBytesConcat(SectionsUpTo(s, k - 1), SectionLines(s, k - 1));
      assert Before(s, k) == Before(s, k - 1) + InSection(s, k - 1);
      TotalUnion(LineSize, Before(s, k - 1), InSection(s, k - 1));
    }
  }

  lemma {:induction false} NoSections(k: nat)
    requires k <= 8
    ensures SectionsUpTo({}, k) == []
  {
    if k > 0 {
      NoSections(k - 1);
    }
  }

  lemma FramedBytes(head: seq<string>, lines: seq<string>, tail: seq<string>)
    requires |head| + |tail| > 1
    ensures Bytes(Join(head + lines + tail)) == Bytes(Join(head + tail)) + LineBytes(lines)
    ensures Bytes(Join(head + lines + tail)) >= LineBytes(head) - 1
  {
    JoinBytes(head + lines + tail);
    LineBytesConcat(head + lines, tail);
    LineBytesConcat(head, lines);
    JoinBytes(head + tail);
    LineBytesConcat(head, tail);
  }

  lemma SectionsBetween(head: seq<string>, tail: seq<string>, s: set<Draft>, k: nat)
    requires UniqueIdsIn(s) && |head| + |tail| > 1 && k <= 8
    ensures Bytes(Join(head + SectionsUpTo(s, k) + tail))
         == Bytes(Join(head + tail)) + Total(LineSize, Before(s, k)) + FramesUpTo(s, k)
  {
    FramedBytes(head, SectionsUpTo(s, k), tail);
    SectionsBytes(s, k);
  }

  /** The exact size: the bare task, the items and the frames of the sections in use. */
  lemma BundleBytes(task: string, s: set<Draft>)
    requires UniqueIdsIn(s)
    ensures Bytes(Bundle(task, s)) == Bytes(BareBundle(task)) + Total(LineSize, s) + FramesUpTo(s, 8)
  {
    SectionsBetween(Head(task), Tail(), s, 8);
    assert Before(s, 8) == s;
  }

  function NameSize(k: nat): nat {
    match k
    case 1 => 16
    case 2 => 13
    case 3 => 9
    case 4 => 26
    case 5 => 22
    case 6 => 16
    case 7 => 16
    case _ => 0
  }

  lemma EarlyNameIsAscii(k: nat)
    requires 1 <= k < 5
    ensures IsAscii(SectionName(k)) && |SectionName(k)| == NameSize(k)
  {
  }

  lemma LateNameIsAscii(k: nat)
    requires 5 <= k < 8
    ensures IsAscii(SectionName(k)) && |SectionName(k)| == NameSize(k)
  {
  }

  lemma NameSizes(k: nat)
    requires 1 <= k < 8
    ensures Bytes(SectionName(k)) == NameSize(k)
  {
    if k < 5 {
      EarlyNameIsAscii(k);
    } else {
      LateNameIsAscii(k);
    }
    AsciiBytes(SectionName(k));
  }

  function NameSizesUpTo(k: nat): nat {
    if k == 0 then 0 else NameSizesUpTo(k - 1) + NameSize(k - 1)
  }

  /** Every section in use holds an item, and an item's estimate already overpays by two bytes. */
  lemma {:induction false} FramesArePaid(s: set<Draft>, k: nat)
    requires k <= 8 && forall d :: d in s ==> d.role != TASK
    ensures FramesUpTo(s, k) <= NameSizesUpTo(k) + 2 * |Before(s, k)|
  {
    if k > 0 {
      FramesArePaid(s, k - 1);
      assert Before(s, k) == Before(s, k - 1) + InSection(s, k - 1);
      assert |Before(s, k)| == |Before(s, k - 1)| + |InSection(s, k - 1)|;
      if k - 1 == 0 {
        assert InSection(s, 0) == {};
      } else {
        NameSizes(k - 1);
      }
    }
  }

  // ---- The rendering bound ----

  /** A draft whose cost is the estimate of the line that shows it. */
  predicate Measured(d: Draft) {
    d.cost == ConservativeEstimate(d.rendered) && d.rendered != "" && d.role != TASK
  }

  /** Rendering never costs more than the bare task, the estimates of the items and 40 tokens. */
  lemma RenderingBound(task: string, s: set<Draft>)
    requires UniqueIdsIn(s) && forall d :: d in s ==> Measured(d)
    ensures ConservativeEstimate(Bundle(task, s)).count
         <= ConservativeEstimate(BareBundle(task)).count + Total(Cost, s) + 40
  {
    BundleBytes(task, s);
    FramesArePaid(s, 8);
    assert Before(s, 8) == s;
    TotalLinear(LineSize, Cost, s, 3, -2);
  }

  lemma NothingToRender(task: string)
    ensures Bundle(task, {}) == BareBundle(task)
  {
    NoSections(8);
    assert Head(task) + [] == Head(task);
  }

  /** A rendering within the token budget is within three bytes a token. */
  lemma TokensBoundBytes(text: string, usable: nat)
    requires text != "" && ConservativeEstimate(text).count <= usable
    ensures ConservativeEstimate(text).bytes < 3 * usable
  {
  }
}
