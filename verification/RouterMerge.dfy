/** Merging raw retrieval hits into bounded candidates, independent of the order in which they were found. */
module RouterMerge {
  import opened Ordering
  import opened KeyedSorting

  /** One hit of one query; scores are counted in millionths. */
  datatype Raw = Raw(id: string, source: string, identity: string, query: string, signal: string, score: int)

  datatype Candidate = Candidate(
    id: string,
    source: string,
    identity: string,
    queries: set<string>,
    signals: set<string>,
    score: int)

  type Budget = map<string, nat>

  function Allowance(budget: Budget, bucket: string): nat {
    if bucket in budget then budget[bucket] else 0
  }

  /** A candidate that only the graph found has a budget of its own. */
  function Bucket(c: Candidate): string {
    if c.signals == {"graph_relation"} then "graph" else c.source
  }

  function ScoreKey(c: Candidate): Key {
    Key(-c.score, 0, 0, c.id)
  }

  function FinalKey(c: Candidate): Key {
    Key(-c.score, 0, 0, c.id, c.source)
  }

  // ---- What a set of hits amounts to ----

  /** Hits with one id come from one record. */
  ghost predicate Coherent(s: set<Raw>) {
    forall a, b :: a in s && b in s && a.id == b.id ==> a.source == b.source && a.identity == b.identity
  }

  ghost predicate Found(s: set<Raw>, id: string) {
    exists r :: r in s && r.id == id
  }

  function QueriesOf(s: set<Raw>, id: string): set<string> {
    set r | r in s && r.id == id :: r.query
  }

  function SignalsOf(s: set<Raw>, id: string): set<string> {
    set r | r in s && r.id == id :: r.signal
  }

  /** The candidate joins everything the hits with its id say. */
  ghost predicate Describes(c: Candidate, s: set<Raw>) {
    && c.queries == QueriesOf(s, c.id) && c.signals == SignalsOf(s, c.id)
    && (exists r :: r in s && r.id == c.id && r.source == c.source && r.identity == c.identity)
    && (exists r :: r in s && r.id == c.id && r.score == c.score)
    && (forall r :: r in s && r.id == c.id ==> r.score <= c.score)
  }

  function FromRaw(r: Raw): Candidate {
    Candidate(r.id, r.source, r.identity, {r.query}, {r.signal}, r.score)
  }

  function Absorb(c: Candidate, r: Raw): Candidate {
    Candidate(c.id, c.source, c.identity, c.queries + {r.query}, c.signals + {r.signal},
              if r.score > c.score then r.score else c.score)
  }

  lemma {:induction false} SomethingDescribes(s: set<Raw>, id: string) returns (c: Candidate)
    requires Found(s, id)
    ensures c.id == id && Describes(c, s)
    decreases |s|
  {
    var r :| r in s;
    var rest := s - {r};
    assert s == rest + {r};
    if r.id == id && !Found(rest, id) {
      c := FromRaw(r);
    } else if r.id == id {
      var d := SomethingDescribes(rest, id);
      c := Absorb(d, r);
    } else {
      var q :| q in s && q.id == id;
      assert q in rest;
      c := SomethingDescribes(rest, id);
    }
  }

  ghost function CandidateOf(s: set<Raw>, id: string): (c: Candidate)
    requires Coherent(s) && Found(s, id)
    ensures c.id == id && Describes(c, s)
  {
    assert exists c: Candidate :: c.id == id && Describes(c, s) by {
      var c := SomethingDescribes(s, id);
    }
    var c: Candidate :| c.id == id && Describes(c, s);
    c
  }

  ghost function Candidates(s: set<Raw>): set<Candidate>
    requires Coherent(s)
  {
    set r | r in s :: CandidateOf(s, r.id)
  }

  lemma CandidatesAreDescribed(s: set<Raw>, c: Candidate)
    requires Coherent(s)
    ensures c in Candidates(s) <==> Describes(c, s)
  {
    if Describes(c, s) {
      var r :| r in s && r.id == c.id && r.score == c.score;
      assert CandidateOf(s, r.id) in Candidates(s);
    }
  }

  // ---- What is kept ----

  /** The ids of the same bucket that go before a candidate. */
  ghost function Better(all: set<Candidate>, c: Candidate): set<string> {
    set d | d in all && Bucket(d) == Bucket(c) && KeyLess(ScoreKey(d), ScoreKey(c)) :: d.id
  }

  /** The candidates with fewer betters than their bucket has places. */
  ghost function KeptOf(s: set<Raw>, budget: Budget): set<Candidate>
    requires Coherent(s)
  {
    set c | c in Candidates(s) && |Better(Candidates(s), c)| < Allowance(budget, Bucket(c))
  }

  ghost function Normalized(s: set<Raw>, budget: Budget): seq<Candidate>
    requires Coherent(s)
  {
    Sorted(FinalKey, KeptOf(s, budget))
  }

  ghost function InBucket(all: set<Candidate>, bucket: string): set<Candidate> {
    set c | c in all && Bucket(c) == bucket
  }

  ghost function FirstIds(order: seq<Candidate>, k: nat): seq<string>
    requires k <= |order|
  {
    if k == 0 then [] else FirstIds(order, k - 1) + [order[k - 1].id]
  }

  lemma {:induction false} FirstIdsHold(order: seq<Candidate>, k: nat, id: string)
    requires k <= |order|
    ensures id in FirstIds(order, k) <==> exists i {:trigger order[i]} :: 0 <= i < k && order[i].id == id
  {
    if k > 0 {
      FirstIdsHold(order, k - 1, id);
      if order[k - 1].id == id {
        assert order[k - 1].id == id;
      }
    }
  }

  lemma {:induction false} FirstIdsCount(order: seq<Candidate>, k: nat)
    requires k <= |order| && Increasing(ByKey(ScoreKey), order)
    requires forall a, b :: a in order && b in order && a.id == b.id ==> a == b
    ensures |FirstIds(order, k)| == k && NoRepeats(FirstIds(order, k))
  {
    if k > 0 {
      FirstIdsCount(order, k - 1);
      FirstIdsHold(order, k - 1, order[k - 1].id);
      if order[k - 1].id in FirstIds(order, k - 1) {
        var i :| 0 <= i < k - 1 && order[i].id == order[k - 1].id;
        SameIdNotAhead(order, i, k - 1);
      }
      Appended(FirstIds(order, k - 1), order[k - 1].id);
    }
  }

  lemma SameIdNotAhead(order: seq<Candidate>, i: nat, j: nat)
    requires i < j < |order| && Increasing(ByKey(ScoreKey), order)
    requires forall a, b :: a in order && b in order && a.id == b.id ==> a == b
    ensures order[i].id != order[j].id
  {
    assert ByKey(ScoreKey)(order[i], order[j]);
    assert order[i] in order && order[j] in order;
    ByKeyOrders(ScoreKey, {});
  }

  /** A place in the sorted bucket is the number of better candidates. */
  lemma PlaceIsBetterCount(all: set<Candidate>, bucket: string, order: seq<Candidate>, k: nat)
    requires Injective(ScoreKey, all) && forall a, b :: a in all && b in all && a.id == b.id ==> a == b
    requires IsSorting(ByKey(ScoreKey), InBucket(all, bucket), order) && k < |order|
    ensures |Better(all, order[k])| == k
  {
    var c := order[k];
    assert forall d :: d in order ==> d in Elements(order);
    assert c in Elements(order);
    forall id ensures id in Better(all, c) <==> id in FirstIds(order, k) {
      FirstIdsHold(order, k, id);
      BetterIsEarlier(all, bucket, order, k, id);
    }
    assert Better(all, c) == Elements(FirstIds(order, k));
    FirstIdsCount(order, k);
    NoRepeatsCounts(FirstIds(order, k));
  }

  lemma BetterIsEarlier(all: set<Candidate>, bucket: string, order: seq<Candidate>, k: nat, id: string)
    requires IsSorting(ByKey(ScoreKey), InBucket(all, bucket), order) && k < |order|
    ensures id in Better(all, order[k]) <==> exists i {:trigger order[i]} :: 0 <= i < k && order[i].id == id
  {
    var c := order[k];
    assert c in Elements(order);
    if id in Better(all, c) {
      var d :| d in all && Bucket(d) == Bucket(c) && KeyLess(ScoreKey(d), ScoreKey(c)) && d.id == id;
      assert d in Elements(order);
      var i :| 0 <= i < |order| && order[i] == d;
      if i == k {
        StringLessIrreflexive(c.id);
      } else if i > k {
        assert ByKey(ScoreKey)(order[k], order[i]);
        KeyLessAsymmetric(ScoreKey(d), ScoreKey(c));
      }
    }
    if i :| 0 <= i < k && order[i].id == id {
      assert order[i] in Elements(order) && ByKey(ScoreKey)(order[i], order[k]);
    }
  }

  // ---- The first hit of an id decides its record ----

  /** The first hit with the id of r, or r itself. */
  function FirstHit(raws: seq<Raw>, r: Raw): Raw {
    if raws == [] then r else if raws[0].id == r.id then raws[0] else FirstHit(raws[1..], r)
  }

  function Adopt(raws: seq<Raw>, r: Raw): Raw {
    r.(source := FirstHit(raws, r).source, identity := FirstHit(raws, r).identity)
  }

  /** The hits, each with the source and record of the first hit of its id. */
  function Adopted(raws: seq<Raw>): seq<Raw> {
    seq(|raws|, (n: nat) requires n < |raws| => Adopt(raws, raws[n]))
  }

  lemma {:induction false} FirstHitIsFirst(raws: seq<Raw>, n: nat, r: Raw)
    requires n < |raws| && raws[n].id == r.id
    requires forall k {:trigger raws[k]} :: 0 <= k < n ==> raws[k].id != r.id
    ensures FirstHit(raws, r) == raws[n]
  {
    if n > 0 {
      assert raws[0].id != r.id;
      FirstHitIsFirst(raws[1..], n - 1, r);
    }
  }

  lemma FirstHitOfAll(raws: seq<Raw>, r: Raw) returns (n: nat)
    requires exists k {:trigger raws[k]} :: 0 <= k < |raws| && raws[k].id == r.id
    ensures n < |raws| && raws[n].id == r.id
    ensures forall k {:trigger raws[k]} :: 0 <= k < n ==> raws[k].id != r.id
  {
    n := 0;
    while raws[n].id != r.id
      invariant 0 <= n < |raws|
      invariant exists k {:trigger raws[k]} :: n <= k < |raws| && raws[k].id == r.id
      invariant forall k {:trigger raws[k]} :: 0 <= k < n ==> raws[k].id != r.id
      decreases |raws| - n
    {
      n := n + 1;
    }
  }

  /** Of the hits with one id the first gives the source and the record; with hits that agree nothing is adopted. */
  lemma FirstHitDecides(raws: seq<Raw>)
    ensures Coherent(Elements(Adopted(raws)))
    ensures forall n, k {:trigger raws[n], raws[k]} ::
              0 <= k <= n < |raws| && raws[k].id == raws[n].id && (forall j {:trigger raws[j]} :: 0 <= j < k ==> raws[j].id != raws[k].id)
              ==> Adopted(raws)[n] == raws[n].(source := raws[k].source, identity := raws[k].identity)
    ensures Coherent(Elements(raws)) ==> Adopted(raws) == raws
  {
    forall a, b | a in Elements(Adopted(raws)) && b in Elements(Adopted(raws)) && a.id == b.id
      ensures a.source == b.source && a.identity == b.identity
    {
      var i :| 0 <= i < |raws| && Adopted(raws)[i] == a;
      var j :| 0 <= j < |raws| && Adopted(raws)[j] == b;
      assert raws[i].id == raws[j].id;
      var n := FirstHitOfAll(raws, raws[i]);
      FirstHitIsFirst(raws, n, raws[i]);
      FirstHitIsFirst(raws, n, raws[j]);
    }
    forall n, k {:trigger raws[n], raws[k]} |
      0 <= k <= n < |raws| && raws[k].id == raws[n].id && (forall j {:trigger raws[j]} :: 0 <= j < k ==> raws[j].id != raws[k].id)
      ensures Adopted(raws)[n] == raws[n].(source := raws[k].source, identity := raws[k].identity)
    {
      FirstHitIsFirst(raws, k, raws[n]);
    }
    if Coherent(Elements(raws)) {
      forall n | 0 <= n < |raws| ensures Adopted(raws)[n] == raws[n] {
        var k := FirstHitOfAll(raws, raws[n]);
        FirstHitIsFirst(raws, k, raws[n]);
        assert raws[k] in Elements(raws) && raws[n] in Elements(raws);
      }
    }
  }

  // ---- The normaliser's loops ----

  /** The table of merged candidates describes the hits seen so far. */
  ghost predicate MergeTable(merged: map<string, Candidate>, s: set<Raw>) {
    && (forall id :: id in merged <==> Found(s, id))
    && (forall id :: id in merged ==> merged[id].id == id && Describes(merged[id], s))
  }

  lemma DescribesBeside(c: Candidate, s: set<Raw>, r: Raw)
    requires Describes(c, s) && c.id != r.id
    ensures Describes(c, s + {r})
  {
  }

  lemma DescribesAbsorbed(c: Candidate, s: set<Raw>, r: Raw)
    requires Describes(c, s) && c.id == r.id
    ensures Describes(Absorb(c, r), s + {r})
  {
  }

  lemma DescribesFirst(s: set<Raw>, r: Raw)
    requires !Found(s, r.id)
    ensures Describes(FromRaw(r), s + {r})
  {
  }

  lemma FoundStep(s: set<Raw>, r: Raw)
    ensures forall id :: Found(s + {r}, id) <==> Found(s, id) || id == r.id
  {
    forall id ensures Found(s + {r}, id) <==> Found(s, id) || id == r.id {
      if Found(s, id) {
        var q :| q in s && q.id == id;
        assert q in s + {r};
      }
      assert r in s + {r};
    }
  }

  lemma MergeTableStep(merged: map<string, Candidate>, s: set<Raw>, r: Raw)
    requires MergeTable(merged, s)
    ensures MergeTable(merged[r.id := if r.id in merged then Absorb(merged[r.id], r) else FromRaw(r)], s + {r})
  {
    FoundStep(s, r);
    if r.id in merged {
      DescribesAbsorbed(merged[r.id], s, r);
    } else {
      DescribesFirst(s, r);
    }
    forall id | id in merged && id != r.id ensures Describes(merged[id], s + {r}) {
      DescribesBeside(merged[id], s, r);
    }
  }

  /** A hit of a known id adds nothing but its query, signal and score; a new id brings its own record. */
  lemma MergeNext(merged: map<string, Candidate>, raws: seq<Raw>, n: nat)
    requires n < |raws| && MergeTable(merged, Elements(Adopted(raws)[..n]))
    ensures raws[n].id in merged ==> Absorb(merged[raws[n].id], raws[n]) == Absorb(merged[raws[n].id], Adopted(raws)[n])
    ensures raws[n].id !in merged ==> FromRaw(raws[n]) == FromRaw(Adopted(raws)[n])
  {
    if raws[n].id !in merged {
      forall k {:trigger raws[k]} | 0 <= k < n ensures raws[k].id != raws[n].id {
        assert Adopted(raws)[..n][k] in Elements(Adopted(raws)[..n]);
      }
      FirstHitIsFirst(raws, n, raws[n]);
    }
  }

  lemma MergeStep(merged: map<string, Candidate>, raws: seq<Raw>, n: nat, r: Raw)
    requires n < |raws| && raws[n] == r && MergeTable(merged, Elements(Adopted(raws)[..n]))
    ensures MergeTable(merged[r.id := if r.id in merged then Absorb(merged[r.id], r) else FromRaw(r)],
                       Elements(Adopted(raws)[..n + 1]))
  {
    PrefixStep(Adopted(raws), n);
    MergeNext(merged, raws, n);
    MergeTableStep(merged, Elements(Adopted(raws)[..n]), Adopted(raws)[n]);
  }

  method MergeById(raws: seq<Raw>) returns (merged: map<string, Candidate>)
    ensures MergeTable(merged, Elements(Adopted(raws)))
  {
    merged := map[];
    for n := 0 to |raws|
      invariant MergeTable(merged, Elements(Adopted(raws)[..n]))
    {
      var r := raws[n];
      MergeStep(merged, raws, n, r);
      merged := merged[r.id := if r.id in merged then Absorb(merged[r.id], r) else FromRaw(r)];
    }
    assert Adopted(raws)[..|raws|] == Adopted(raws);
  }

  lemma TableHoldsCandidates(merged: map<string, Candidate>, s: set<Raw>)
    requires Coherent(s) && MergeTable(merged, s)
    ensures forall id :: id in merged ==> merged[id] == CandidateOf(s, id)
    ensures merged.Values == Candidates(s)
  {
    forall id | id in merged ensures merged[id] == CandidateOf(s, id) {
    }
    forall c ensures c in merged.Values <==> c in Candidates(s) {
      if c in merged.Values {
        var id :| id in merged && merged[id] == c;
        var r :| r in s && r.id == id;
        assert CandidateOf(s, r.id) in Candidates(s);
      }
      if c in Candidates(s) {
        var r :| r in s && c == CandidateOf(s, r.id);
        assert Found(s, r.id);
        assert merged[r.id] in merged.Values;
      }
    }
  }

  /** The table of buckets holds exactly the candidates handed out so far. */
  ghost predicate BucketTable(buckets: map<string, seq<Candidate>>, done: set<Candidate>) {
    && (forall b :: b in buckets ==> NoRepeats(buckets[b]) && Elements(buckets[b]) == InBucket(done, b))
    && (forall b :: b !in buckets ==> InBucket(done, b) == {})
  }

  lemma BucketStep(buckets: map<string, seq<Candidate>>, done: set<Candidate>, c: Candidate, values: seq<Candidate>)
    requires BucketTable(buckets, done) && c !in done
    requires values == if Bucket(c) in buckets then buckets[Bucket(c)] else []
    ensures BucketTable(buckets[Bucket(c) := values + [c]], done + {c})
  {
    assert Elements(values) == InBucket(done, Bucket(c));
    Appended(values, c);
    assert InBucket(done + {c}, Bucket(c)) == InBucket(done, Bucket(c)) + {c};
    forall b | b != Bucket(c) ensures InBucket(done + {c}, b) == InBucket(done, b) {
    }
  }

  method SplitByBucket(merged: map<string, Candidate>) returns (buckets: map<string, seq<Candidate>>)
    requires forall id :: id in merged ==> merged[id].id == id
    ensures BucketTable(buckets, merged.Values)
  {
    buckets := map[];
    var todo := merged.Keys;
    ghost var done: set<Candidate> := {};
    while todo != {}
      invariant todo <= merged.Keys
      invariant done == set id | id in merged && id !in todo :: merged[id]
      invariant BucketTable(buckets, done)
      decreases |todo|
    {
      var id :| id in todo;
      var c := merged[id];
      var values := if Bucket(c) in buckets then buckets[Bucket(c)] else [];
      BucketStep(buckets, done, c, values);
      buckets := buckets[Bucket(c) := values + [c]];
      todo, done := todo - {id}, done + {c};
    }
    assert done == merged.Values;
  }

  /** The first places of one bucket. */
  ghost function TopOf(all: set<Candidate>, bucket: string, budget: Budget): set<Candidate> {
    set c | c in all && Bucket(c) == bucket && |Better(all, c)| < Allowance(budget, bucket)
  }

  method Top(values: seq<Candidate>, bucket: string, budget: Budget, ghost all: set<Candidate>)
    returns (top: seq<Candidate>)
    requires Injective(ScoreKey, all) && forall a, b :: a in all && b in all && a.id == b.id ==> a == b
    requires NoRepeats(values) && Elements(values) == InBucket(all, bucket)
    ensures NoRepeats(top) && Elements(top) == TopOf(all, bucket, budget)
  {
    var order := SortBy(ScoreKey, values);
    SortedNoRepeats(ScoreKey, InBucket(all, bucket));
    var places := Allowance(budget, bucket);
    top := if places < |order| then order[..places] else order;
    forall c ensures c in top <==> c in TopOf(all, bucket, budget) {
      if c in TopOf(all, bucket, budget) {
        assert c in Elements(order);
        var k :| 0 <= k < |order| && order[k] == c;
        PlaceIsBetterCount(all, bucket, order, k);
        assert k < |top| && top[k] == c;
      }
      if c in top {
        var k :| 0 <= k < |top| && top[k] == c;
        assert order[k] == c && c in Elements(order);
        PlaceIsBetterCount(all, bucket, order, k);
      }
    }
  }

  ghost function KeptIn(s: set<Raw>, budget: Budget, names: set<string>): set<Candidate>
    requires Coherent(s)
  {
    set c | c in KeptOf(s, budget) && Bucket(c) in names
  }

  lemma AllBucketsKept(s: set<Raw>, budget: Budget, buckets: map<string, seq<Candidate>>)
    requires Coherent(s) && BucketTable(buckets, Candidates(s))
    ensures KeptIn(s, budget, buckets.Keys - {}) == KeptOf(s, budget)
  {
    forall c | c in KeptOf(s, budget) ensures Bucket(c) in buckets {
      assert c in InBucket(Candidates(s), Bucket(c));
    }
  }

  /** Merge, split into buckets, keep the first places of each, and sort the rest together. */
  method Normalize(raws: seq<Raw>, budget: Budget) returns (r: seq<Candidate>)
    ensures Coherent(Elements(Adopted(raws))) && r == Normalized(Elements(Adopted(raws)), budget)
  {
    ghost var s := Elements(Adopted(raws));
    FirstHitDecides(raws);
    ghost var all := Candidates(s);
    var merged := MergeById(raws);
    TableHoldsCandidates(merged, s);
    var buckets := SplitByBucket(merged);
    var bounded := [];
    var todo := buckets.Keys;
    while todo != {}
      invariant todo <= buckets.Keys && NoRepeats(bounded)
      invariant Elements(bounded) == KeptIn(s, budget, buckets.Keys - todo)
      decreases |todo|
    {
      var bucket :| bucket in todo;
      var top := Top(buckets[bucket], bucket, budget, all);
      Concatenated(bounded, top);
      bounded := bounded + top;
      assert buckets.Keys - (todo - {bucket}) == buckets.Keys - todo + {bucket};
      todo := todo - {bucket};
    }
    AllBucketsKept(s, budget, buckets);
    r := SortBy(FinalKey, bounded);
  }
}
