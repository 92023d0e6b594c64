/** Which candidates the router returns, and in which order. */
module RouterOutcomes {
  import opened Ordering
  import opened KeyedSorting
  import opened RouterMerge

  /** Within a bucket the higher score wins, then the earlier id. */
  predicate Outscores(d: Candidate, c: Candidate) {
    d.score > c.score || (d.score == c.score && StringLess(d.id, c.id))
  }

  lemma ScoreOrder(d: Candidate, c: Candidate)
    ensures KeyLess(ScoreKey(d), ScoreKey(c)) <==> Outscores(d, c)
  {
  }

  /** In the result the higher score comes first, then the earlier source, then the earlier id. */
  predicate Precedes(d: Candidate, c: Candidate) {
    || d.score > c.score
    || (d.score == c.score && d.source != c.source && StringLess(d.source, c.source))
    || (d.score == c.score && d.source == c.source && StringLess(d.id, c.id))
  }

  lemma FinalOrder(d: Candidate, c: Candidate)
    ensures KeyLess(FinalKey(d), FinalKey(c)) <==> Precedes(d, c)
  {
  }

  /** Candidates that only the graph found compete with each other, all others with those of their source. */
  predicate Compete(d: Candidate, c: Candidate) {
    var x := if d.signals == {"graph_relation"} then "graph" else d.source;
    var y := if c.signals == {"graph_relation"} then "graph" else c.source;
    x == y
  }

  /** The candidates that compete with this one and outscore it. */
  ghost function Rivals(s: set<Raw>, c: Candidate): set<string>
    requires Coherent(s)
  {
    set d | d in Candidates(s) && Compete(d, c) && Outscores(d, c) :: d.id
  }

  lemma RivalsAreBetter(s: set<Raw>, c: Candidate)
    requires Coherent(s)
    ensures Better(Candidates(s), c) == Rivals(s, c)
  {
    forall d ensures KeyLess(ScoreKey(d), ScoreKey(c)) <==> Outscores(d, c) {
      ScoreOrder(d, c);
    }
    forall id | id in Rivals(s, c) ensures id in Better(Candidates(s), c) {
      var d :| d in Candidates(s) && Compete(d, c) && Outscores(d, c) && d.id == id;
      assert KeyLess(ScoreKey(d), ScoreKey(c));
    }
  }

  /** The places of the bucket that the candidate competes in. */
  function Places(c: Candidate, budget: Budget): nat {
    var bucket := if c.signals == {"graph_relation"} then "graph" else c.source;
    if bucket in budget then budget[bucket] else 0
  }

  /** A candidate is returned exactly if the hits describe it and its bucket has more places than it has rivals. */
  lemma ReturnedExactly(raws: seq<Raw>, budget: Budget, c: Candidate)
    ensures Coherent(Elements(Adopted(raws)))
    ensures var s := Elements(Adopted(raws));
            c in Normalized(s, budget) <==> Describes(c, s) && |Rivals(s, c)| < Places(c, budget)
  {
    FirstHitDecides(raws);
    var s := Elements(Adopted(raws));
    CandidatesAreDescribed(s, c);
    RivalsAreBetter(s, c);
    assert c in Normalized(s, budget) <==> c in Elements(Normalized(s, budget));
  }

  /** The result is in order, and no id occurs twice in it. */
  lemma ReturnedInOrder(raws: seq<Raw>, budget: Budget, i: nat, j: nat)
    requires Coherent(Elements(Adopted(raws)))
    requires i < j < |Normalized(Elements(Adopted(raws)), budget)|
    ensures var r := Normalized(Elements(Adopted(raws)), budget);
            Precedes(r[i], r[j]) && r[i].id != r[j].id
  {
    var s := Elements(Adopted(raws));
    var r := Normalized(s, budget);
    assert ByKey(FinalKey)(r[i], r[j]);
    FinalOrder(r[i], r[j]);
    assert r[i] in Elements(r) && r[j] in Elements(r);
    CandidatesAreDescribed(s, r[i]);
    CandidatesAreDescribed(s, r[j]);
    StringLessIrreflexive(r[i].id);
    StringLessIrreflexive(r[i].source);
  }
}
