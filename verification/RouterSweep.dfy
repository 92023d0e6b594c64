/**
 What a scope-complete sweep can push out of the memory candidates.

 The sweep's hits score below every piece of evidence, so only a record that moves between buckets can push.
 */
module RouterSweep {
  import opened Ordering
  import opened KeyedSorting
  import opened RouterMerge

  const SWEEP_SCORE := 100000

  // ---- Scores of the memory adapter ----

  datatype Strategy = DIRECT_ID | EXACT_ENTITY | RECENT_CONTINUITY | SCOPE_SWEEP | ARTIFACT | CONCEPT | DOMAIN | OTHER

  function AtMost(limit: int, x: int): int {
    if x > limit then limit else x
  }

  /** The score of a match: how many of the terms were found, or how many days old the record is. */
  function MatchScore(strategy: Strategy, matched: nat, total: nat, days: nat): int
    requires 0 < matched <= total && days <= 30
  {
    match strategy
    case DIRECT_ID => 1000000
    case EXACT_ENTITY => AtMost(990000, 820000 + 180000 * matched / total)
    case RECENT_CONTINUITY =>
      var recency := 1000000 - 600000 * days / 30;
      if recency < 200000 then 200000 else recency
    case SCOPE_SWEEP => SWEEP_SCORE
    case ARTIFACT => AtMost(990000, 780000 + 180000 * matched / total)
    case CONCEPT => AtMost(990000, 500000 + 180000 * matched / total)
    case DOMAIN => AtMost(990000, 450000 + 180000 * matched / total)
    case OTHER => AtMost(990000, 400000 + 180000 * matched / total)
  }

  /** Every match that is evidence scores above the sweep. */
  lemma EvidenceOutscoresTheSweep(strategy: Strategy, matched: nat, total: nat, days: nat)
    requires 0 < matched <= total && days <= 30
    ensures strategy == SCOPE_SWEEP <==> MatchScore(strategy, matched, total, days) <= SWEEP_SCORE
    ensures strategy != SCOPE_SWEEP ==> MatchScore(strategy, matched, total, days) >= 200000
  {
  }

  lemma Multiples(total: nat, a: int, b: int)
    requires a <= b
    ensures total * a <= total * b
  {
  }

  lemma Quotient(x: nat, total: nat, q: nat)
    requires total > 0 && total * q <= x < total * (q + 1)
    ensures x / total == q
  {
    var r := x / total;
    assert total * r <= x < total * (r + 1) by {
      assert x == total * r + x % total;
    }
    if r < q {
      Multiples(total, r + 1, q);
    } else if r > q {
      Multiples(total, q + 1, r);
    }
  }

  lemma SharesGrow(m: nat, n: nat, total: nat)
    requires m <= n && total > 0
    ensures 180000 * m / total <= 180000 * n / total
  {
    Quotients(180000 * m, 180000 * n, total);
  }

  lemma Quotients(x: nat, y: nat, total: nat)
    requires x <= y && total > 0
    ensures x / total <= y / total
  {
    var q, r := x / total, y / total;
    assert total * q <= x && y < total * (r + 1) by {
      assert x == total * q + x % total && y == total * r + y % total;
    }
    if r < q {
      Multiples(total, r + 1, q);
    }
  }

  /** More matched terms and a younger record never lower the score, and no strategy outscores a direct id. */
  lemma BetterMatchesScoreHigher(strategy: Strategy, m: nat, n: nat, total: nat, older: nat, younger: nat)
    requires 0 < m <= n <= total && younger <= older <= 30
    ensures MatchScore(strategy, m, total, older) <= MatchScore(strategy, n, total, younger) <= MatchScore(DIRECT_ID, m, total, older)
  {
    SharesGrow(m, n, total);
  }

  lemma WholeShare(total: nat)
    requires total > 0
    ensures 180000 * total / total == 180000
  {
    Quotient(180000 * total, total, 180000);
  }

  /** What a full match, and a record of today or of thirty days ago, scores. */
  lemma FullMatches(total: nat, days: nat)
    requires total > 0 && days <= 30
    ensures MatchScore(EXACT_ENTITY, total, total, days) == 990000
    ensures MatchScore(ARTIFACT, total, total, days) == 960000
    ensures MatchScore(CONCEPT, total, total, days) == 680000
    ensures MatchScore(DOMAIN, total, total, days) == 630000
    ensures MatchScore(OTHER, total, total, days) == 580000
  {
    WholeShare(total);
  }

  lemma RecencyEnds(total: nat)
    requires total > 0
    ensures MatchScore(RECENT_CONTINUITY, total, total, 0) == 1000000
    ensures MatchScore(RECENT_CONTINUITY, total, total, 30) == 400000
  {
  }

  // ---- Adding sweep hits ----

  ghost predicate IsSweep(w: set<Raw>) {
    forall r :: r in w ==> r.source == "memory" && r.signal == "scope_sweep" && r.score == SWEEP_SCORE
  }

  /** Hits of the other queries: memory hits carry evidence. */
  ghost predicate IsEvidence(s: set<Raw>) {
    forall r :: r in s ==> r.signal != "scope_sweep" && (r.source == "memory" ==> r.score > SWEEP_SCORE)
  }

  /** A swept id whose only evidence is the graph moves into the memory bucket, ahead of this candidate. */
  ghost predicate Displaces(s: set<Raw>, w: set<Raw>, g: Candidate, c: Candidate)
    requires Coherent(s)
  {
    && g in Candidates(s) && Bucket(g) == "graph" && g.source == "memory" && Found(w, g.id)
    && c in Candidates(s) && Bucket(c) == "memory" && KeyLess(ScoreKey(g), ScoreKey(c))
  }

  /** A candidate with evidence keeps its score, and gains the sweep's signal if it was swept. */
  lemma EvidenceKeepsScore(s: set<Raw>, w: set<Raw>, c: Candidate)
    requires Coherent(s + w) && IsSweep(w) && IsEvidence(s) && Describes(c, s)
    requires c.source == "memory" || !Found(w, c.id)
    ensures Coherent(s)
    ensures var d := c.(queries := QueriesOf(s + w, c.id), signals := SignalsOf(s + w, c.id));
            && Describes(d, s + w) && d in Candidates(s + w)
            && d.signals == if Found(w, c.id) then c.signals + {"scope_sweep"} else c.signals
  {
    var d := c.(queries := QueriesOf(s + w, c.id), signals := SignalsOf(s + w, c.id));
    var best :| best in s && best.id == c.id && best.score == c.score;
    var first :| first in s && first.id == c.id && first.source == c.source && first.identity == c.identity;
    assert best in s + w && first in s + w;
    forall r | r in s + w && r.id == c.id ensures r.score <= c.score {
      assert r in w ==> best.source == r.source;
    }
    assert SignalsOf(s + w, c.id) == SignalsOf(s, c.id) + SignalsOf(w, c.id);
    if Found(w, c.id) {
      var r :| r in w && r.id == c.id;
      assert "scope_sweep" in SignalsOf(w, c.id);
    }
    assert SignalsOf(w, c.id) == if Found(w, c.id) then {"scope_sweep"} else {};
    CandidatesAreDescribed(s + w, d);
  }

  /** The candidate with a memory candidate's id after the sweep. */
  ghost function Swept(s: set<Raw>, w: set<Raw>, c: Candidate): Candidate {
    c.(queries := QueriesOf(s + w, c.id), signals := SignalsOf(s + w, c.id))
  }

  lemma MemoryStaysMemory(s: set<Raw>, w: set<Raw>, c: Candidate)
    requires Coherent(s + w) && IsSweep(w) && IsEvidence(s)
    requires Describes(c, s) && Bucket(c) == "memory"
    ensures Swept(s, w, c) in Candidates(s + w) && Bucket(Swept(s, w, c)) == "memory"
    ensures Swept(s, w, c).id == c.id && Swept(s, w, c).score == c.score && c.score > SWEEP_SCORE
  {
    EvidenceKeepsScore(s, w, c);
    var best :| best in s && best.id == c.id && best.score == c.score;
    var first :| first in s && first.id == c.id && first.source == c.source && first.identity == c.identity;
    assert best in s + w && first in s + w;
    assert "graph_relation" != "scope_sweep";
    assert "memory" != "graph";
    if Found(w, c.id) {
      assert "scope_sweep" in Swept(s, w, c).signals;
    }
  }

  /** After the sweep, whatever goes before a memory candidate went before it already or displaces it. */
  lemma NewBettersDisplace(s: set<Raw>, w: set<Raw>, c: Candidate, id: string)
    requires Coherent(s + w) && IsSweep(w) && IsEvidence(s)
    requires Describes(c, s) && Bucket(c) == "memory"
    requires id in Better(Candidates(s + w), Swept(s, w, c))
    ensures Coherent(s) && c in Candidates(s)
    ensures id in Better(Candidates(s), c) || exists g: Candidate :: g.id == id && Displaces(s, w, g, c)
  {
    CandidatesAreDescribed(s, c);
    MemoryStaysMemory(s, w, c);
    var d :| d in Candidates(s + w) && Bucket(d) == Bucket(Swept(s, w, c))
             && KeyLess(ScoreKey(d), ScoreKey(Swept(s, w, c))) && d.id == id;
    CandidatesAreDescribed(s + w, d);
    OldBetter(s, w, c, d);
  }

  lemma OldBetter(s: set<Raw>, w: set<Raw>, c: Candidate, d: Candidate)
    requires Coherent(s + w) && Coherent(s) && IsSweep(w) && IsEvidence(s)
    requires c in Candidates(s) && Bucket(c) == "memory" && c.score > SWEEP_SCORE
    requires Describes(d, s + w) && Bucket(d) == "memory" && KeyLess(ScoreKey(d), ScoreKey(c))
    ensures d.id in Better(Candidates(s), c) || exists g: Candidate :: g.id == d.id && Displaces(s, w, g, c)
  {
    var best :| best in s + w && best.id == d.id && best.score == d.score;
    assert best in s;
    assert Found(s, d.id);
    var e := CandidateOf(s, d.id);
    assert e in Candidates(s) by {
      assert CandidateOf(s, best.id) in Candidates(s);
    }
    assert "memory" != "graph";
    var known :| known in s + w && known.id == d.id && known.source == d.source && known.identity == d.identity;
    assert best in s + w && best.source == "memory";
    var first :| first in s && first.id == e.id && first.source == e.source && first.identity == e.identity;
    assert first in s + w && e.source == "memory";
    EvidenceKeepsScore(s, w, e);
    if Bucket(e) != "memory" {
      assert e.signals == {"graph_relation"};
      assert Found(w, e.id);
      assert Displaces(s, w, e, c);
    }
  }

  /** A memory candidate that nothing displaces is still kept after the sweep. */
  lemma UndisplacedStay(s: set<Raw>, w: set<Raw>, budget: Budget, c: Candidate)
    requires Coherent(s + w) && Coherent(s) && IsSweep(w) && IsEvidence(s)
    requires c in KeptOf(s, budget) && Bucket(c) == "memory"
    requires forall g :: !Displaces(s, w, g, c)
    ensures Swept(s, w, c) in KeptOf(s + w, budget)
  {
    CandidatesAreDescribed(s, c);
    MemoryStaysMemory(s, w, c);
    forall id | id in Better(Candidates(s + w), Swept(s, w, c)) ensures id in Better(Candidates(s), c) {
      NewBettersDisplace(s, w, c, id);
    }
    SubsetSize(Better(Candidates(s + w), Swept(s, w, c)), Better(Candidates(s), c));
  }

  lemma OldBettersStay(s: set<Raw>, w: set<Raw>, c: Candidate, id: string)
    requires Coherent(s + w) && Coherent(s) && IsSweep(w) && IsEvidence(s)
    requires c in Candidates(s) && Bucket(c) == "memory"
    requires id in Better(Candidates(s), c) || exists g: Candidate :: g.id == id && Displaces(s, w, g, c)
    ensures id in Better(Candidates(s + w), Swept(s, w, c))
  {
    CandidatesAreDescribed(s, c);
    MemoryStaysMemory(s, w, c);
    if id in Better(Candidates(s), c) {
      var d :| d in Candidates(s) && Bucket(d) == Bucket(c) && KeyLess(ScoreKey(d), ScoreKey(c)) && d.id == id;
      CandidatesAreDescribed(s, d);
      MemoryStaysMemory(s, w, d);
      assert Swept(s, w, d) in Candidates(s + w);
    } else {
      var g: Candidate :| g.id == id && Displaces(s, w, g, c);
      CandidatesAreDescribed(s, g);
      EvidenceKeepsScore(s, w, g);
      var e := Swept(s, w, g);
      assert "scope_sweep" in e.signals && "graph_relation" != "scope_sweep";
      assert e in Candidates(s + w) && Bucket(e) == "memory";
    }
  }

  /** A displaced candidate is dropped as soon as its bucket has no more places than it needed. */
  lemma DisplacedGo(s: set<Raw>, w: set<Raw>, g: Candidate, c: Candidate)
    requires Coherent(s + w) && Coherent(s) && IsSweep(w) && IsEvidence(s) && Displaces(s, w, g, c)
    ensures var budget: Budget := map["memory" := |Better(Candidates(s), c)| + 1];
            c in KeptOf(s, budget) && Swept(s, w, c) !in KeptOf(s + w, budget)
  {
    var before, after := Better(Candidates(s), c), Better(Candidates(s + w), Swept(s, w, c));
    CandidatesAreDescribed(s, c);
    MemoryStaysMemory(s, w, c);
    forall id | id in before + {g.id} ensures id in after {
      OldBettersStay(s, w, c, id);
    }
    SubsetSize(before + {g.id}, after);
  }

  /** Under every budget the memory candidates kept without the sweep are kept with it. */
  ghost predicate DropsNothing(s: set<Raw>, w: set<Raw>)
    requires Coherent(s + w) && Coherent(s)
  {
    forall budget: Budget, c :: c in KeptOf(s, budget) && Bucket(c) == "memory" ==> Swept(s, w, c) in KeptOf(s + w, budget)
  }

  /** A sweep drops no kept memory candidate under any budget exactly if it displaces none. */
  lemma SweepsDropNothingExactly(s: set<Raw>, w: set<Raw>)
    requires Coherent(s + w) && Coherent(s) && IsSweep(w) && IsEvidence(s)
    ensures DropsNothing(s, w) <==> forall g, c :: !Displaces(s, w, g, c)
  {
    if forall g, c :: !Displaces(s, w, g, c) {
      forall budget: Budget, c | c in KeptOf(s, budget) && Bucket(c) == "memory"
        ensures Swept(s, w, c) in KeptOf(s + w, budget)
      {
        UndisplacedStay(s, w, budget, c);
      }
    } else {
      var g, c :| Displaces(s, w, g, c);
      DisplacementDrops(s, w, g, c);
    }
  }

  lemma DisplacementDrops(s: set<Raw>, w: set<Raw>, g: Candidate, c: Candidate)
    requires Coherent(s + w) && Coherent(s) && IsSweep(w) && IsEvidence(s) && Displaces(s, w, g, c)
    ensures !DropsNothing(s, w)
  {
    DisplacedGo(s, w, g, c);
    var budget: Budget := map["memory" := |Better(Candidates(s), c)| + 1];
    assert c in KeptOf(s, budget) && Swept(s, w, c) !in KeptOf(s + w, budget);
  }

  /** In particular, if no swept record is known from the graph alone, nothing is dropped. */
  lemma SweepsDropNoEvidence(s: set<Raw>, w: set<Raw>, budget: Budget, c: Candidate)
    requires Coherent(s + w) && Coherent(s) && IsSweep(w) && IsEvidence(s)
    requires forall g :: g in Candidates(s) && Found(w, g.id) ==> Bucket(g) != "graph"
    requires c in KeptOf(s, budget) && Bucket(c) == "memory"
    ensures Swept(s, w, c) in KeptOf(s + w, budget)
  {
    UndisplacedStay(s, w, budget, c);
  }

  // ---- It happens ----

  /** A record that only the graph found, and one that matches half of the words of a domain query. */
  function FoundHits(): set<Raw> {
    {Raw("g", "memory", "g", "query_graph", "graph_relation", 580000),
     Raw("m", "memory", "m", "query_domain", "domain_match", MatchScore(DOMAIN, 1, 2, 0))}
  }

  function SweptHits(): set<Raw> {
    {Raw("g", "memory", "g", "query_sweep", "scope_sweep", SWEEP_SCORE),
     Raw("m", "memory", "m", "query_sweep", "scope_sweep", SWEEP_SCORE)}
  }

  function GraphOnly(): Candidate {
    Candidate("g", "memory", "g", {"query_graph"}, {"graph_relation"}, 580000)
  }

  function DomainMatch(): Candidate {
    Candidate("m", "memory", "m", {"query_domain"}, {"domain_match"}, 540000)
  }

  lemma HitsAgree()
    ensures Coherent(FoundHits()) && Coherent(FoundHits() + SweptHits())
    ensures IsSweep(SweptHits()) && IsEvidence(FoundHits())
    ensures Found(SweptHits(), "g")
  {
    assert "graph_relation" != "scope_sweep" && "domain_match" != "scope_sweep" && "g" != "m";
    assert Raw("g", "memory", "g", "query_sweep", "scope_sweep", SWEEP_SCORE) in SweptHits();
  }

  lemma GraphOnlyIsFound()
    ensures Coherent(FoundHits()) && GraphOnly() in Candidates(FoundHits())
  {
    HitsAgree();
    var s := FoundHits();
    var g := Raw("g", "memory", "g", "query_graph", "graph_relation", 580000);
    assert g in s && "g" != "m";
    assert QueriesOf(s, "g") == {g.query} && SignalsOf(s, "g") == {g.signal};
    CandidatesAreDescribed(s, GraphOnly());
  }

  lemma DomainMatchIsFound()
    ensures Coherent(FoundHits()) && DomainMatch() in Candidates(FoundHits())
  {
    HitsAgree();
    var s := FoundHits();
    var m := Raw("m", "memory", "m", "query_domain", "domain_match", MatchScore(DOMAIN, 1, 2, 0));
    assert m in s && "g" != "m";
    assert QueriesOf(s, "m") == {m.query} && SignalsOf(s, "m") == {m.signal};
    CandidatesAreDescribed(s, DomainMatch());
  }

  lemma NothingBetter()
    ensures Coherent(FoundHits()) && Better(Candidates(FoundHits()), DomainMatch()) == {}
  {
    HitsAgree();
    StringLessIrreflexive("m");
    assert Bucket(GraphOnly()) != Bucket(DomainMatch()) by {
      assert "graph_relation" != "domain_match" && "graph" != "memory";
    }
    forall c | c in Candidates(FoundHits()) ensures c == GraphOnly() || c == DomainMatch() {
      TwoIds(c);
    }
  }

  lemma TwoIds(c: Candidate)
    requires Coherent(FoundHits()) && c in Candidates(FoundHits())
    ensures c == GraphOnly() || c == DomainMatch()
  {
    var s := FoundHits();
    var r :| r in s && c == CandidateOf(s, r.id);
    GraphOnlyIsFound();
    DomainMatchIsFound();
    CandidatesAreDescribed(s, GraphOnly());
    CandidatesAreDescribed(s, DomainMatch());
  }

  lemma SweepDisplaces()
    ensures Coherent(FoundHits()) && Displaces(FoundHits(), SweptHits(), GraphOnly(), DomainMatch())
  {
    HitsAgree();
    GraphOnlyIsFound();
    DomainMatchIsFound();
    assert Bucket(DomainMatch()) == "memory" by {
      assert "graph_relation" != "domain_match";
    }
  }

  /** With one place for memory candidates the sweep replaces the match by the record that the graph found. */
  lemma SweepCanDrop()
    ensures Coherent(FoundHits()) && Coherent(FoundHits() + SweptHits())
    ensures IsSweep(SweptHits()) && IsEvidence(FoundHits())
    ensures Displaces(FoundHits(), SweptHits(), GraphOnly(), DomainMatch())
    ensures var budget: Budget := map["memory" := 1];
            && DomainMatch() in KeptOf(FoundHits(), budget)
            && Swept(FoundHits(), SweptHits(), DomainMatch()) !in KeptOf(FoundHits() + SweptHits(), budget)
  {
    HitsAgree();
    SweepDisplaces();
    NothingBetter();
    DisplacedGo(FoundHits(), SweptHits(), GraphOnly(), DomainMatch());
  }
}
