/** The two readers of supersession links: authority resolution and the provenance trace. */
module SupersessionChain {
  import opened Results
  import opened TruthModel
  import opened TruthCommit
  import opened TruthProperties

  /** Records by id as a dictionary is built from the list: the last record with an id wins. */
  function RecordsById(memories: seq<Memory>): (r: map<MemoryId, Memory>)
    ensures forall id :: id in r ==> id != "" && r[id] in memories && r[id].id == id
    ensures forall m :: m in memories && m.id != "" ==> m.id in r
  {
    if memories == [] then map[]
    else
      var init, last := memories[..|memories| - 1], memories[|memories| - 1];
      assert memories == init + [last];
      if last.id == "" then RecordsById(init) else RecordsById(init)[last.id := last]
  }

  /** The position of the id in the visited list. */
  function IndexOf(ids: seq<MemoryId>, id: MemoryId): (k: nat)
    requires id in ids
    ensures k < |ids| && ids[k] == id
  {
    if ids[0] == id then 0 else 1 + IndexOf(ids[1..], id)
  }

  function Unvisited(records: map<MemoryId, Memory>, visited: seq<MemoryId>): set<MemoryId> {
    set id | id in records && id !in visited
  }

  lemma VisitShrinks(records: map<MemoryId, Memory>, visited: seq<MemoryId>, id: MemoryId)
    requires id in records && id !in visited
    ensures Unvisited(records, visited + [id]) < Unvisited(records, visited)
  {
    assert id in Unvisited(records, visited) && id !in Unvisited(records, visited + [id]);
  }

  /** The chain from the current id on; a revisited id fails with the cycle it closes. */
  function ChainFrom(records: map<MemoryId, Memory>, current: MemoryId, visited: seq<MemoryId>): Result<seq<MemoryId>, seq<MemoryId>>
    decreases Unvisited(records, visited)
  {
    if current == "" then Success(visited)
    else if current in visited then Failure(visited[IndexOf(visited, current)..] + [current])
    else if current !in records then Success(visited + [current])
    else
      VisitShrinks(records, visited, current);
      ChainFrom(records, records[current].supersededBy, visited + [current])
  }

  method Chain(records: map<MemoryId, Memory>, start: MemoryId) returns (r: Result<seq<MemoryId>, seq<MemoryId>>)
    ensures r == ChainFrom(records, start, [])
  {
    var visited: seq<MemoryId> := [];
    var current := start;
    while current != ""
      invariant ChainFrom(records, current, visited) == ChainFrom(records, start, [])
      decreases Unvisited(records, visited)
    {
      if current in visited {
        return Failure(visited[IndexOf(visited, current)..] + [current]);
      }
      if current !in records {
        return Success(visited + [current]);
      }
      VisitShrinks(records, visited, current);
      visited := visited + [current];
      current := records[current].supersededBy;
    }
    return Success(visited);
  }

  // ---- The chain fails exactly on a revisited id ----

  function Next(records: map<MemoryId, Memory>, id: MemoryId): MemoryId {
    if id in records then records[id].supersededBy else ""
  }

  /** A list of non-empty ids in which each leads to the next. */
  ghost predicate Trail(records: map<MemoryId, Memory>, p: seq<MemoryId>) {
    && (forall i {:trigger p[i]} :: 0 <= i < |p| ==> p[i] != "")
    && (forall i {:trigger p[i]} :: 0 <= i < |p| - 1 ==> p[i + 1] == Next(records, p[i]))
  }

  ghost predicate Revisits(p: seq<MemoryId>) {
    exists i, j :: 0 <= i < j < |p| && p[i] == p[j]
  }

  /** The state of the walk: where it has been, and where it stands. */
  ghost predicate Under(records: map<MemoryId, Memory>, start: MemoryId, visited: seq<MemoryId>, current: MemoryId) {
    && Trail(records, visited) && !Revisits(visited)
    && (if visited == [] then current == start
        else visited[0] == start && current == Next(records, visited[|visited| - 1]))
  }

  lemma TrailExtends(records: map<MemoryId, Memory>, visited: seq<MemoryId>, current: MemoryId)
    requires Trail(records, visited) && current != ""
    requires visited != [] ==> current == Next(records, visited[|visited| - 1])
    ensures Trail(records, visited + [current])
  {
    var longer := visited + [current];
    forall i {:trigger longer[i]} | 0 <= i < |longer| - 1 ensures longer[i + 1] == Next(records, longer[i]) {
      if i + 1 < |visited| {
        assert longer[i] == visited[i] && longer[i + 1] == visited[i + 1];
      }
    }
  }

  lemma RevisitIffMember(visited: seq<MemoryId>, current: MemoryId)
    requires !Revisits(visited)
    ensures Revisits(visited + [current]) <==> current in visited
  {
    var longer := visited + [current];
    if current in visited {
      var k := IndexOf(visited, current);
      assert longer[k] == longer[|visited|];
    } else {
      forall i, j | 0 <= i < j < |longer| ensures longer[i] != longer[j] {
        assert longer[i] == visited[i];
        if j < |visited| {
          assert longer[j] == visited[j];
        }
      }
    }
  }

  lemma TrailSuffix(records: map<MemoryId, Memory>, p: seq<MemoryId>, k: nat)
    requires Trail(records, p) && k <= |p|
    ensures Trail(records, p[k..])
  {
    forall i {:trigger p[k..][i]} | 0 <= i < |p[k..]| - 1 ensures p[k..][i + 1] == Next(records, p[k..][i]) {
      assert p[k + i + 1] == Next(records, p[k + i]);
    }
  }

  /** What the outcome of a chain walk means. */
  ghost predicate ChainMeans(records: map<MemoryId, Memory>, start: MemoryId, r: Result<seq<MemoryId>, seq<MemoryId>>) {
    match r
    case Success(p) =>
      && Trail(records, p) && !Revisits(p) && (p == [] <==> start == "")
      && (p != [] ==> p[0] == start && Next(records, p[|p| - 1]) == "")
    case Failure(c) =>
      && |c| >= 2 && c[0] == c[|c| - 1] && Trail(records, c)
      && exists p :: Trail(records, p) && p != [] && p[0] == start && Revisits(p)
  }

  /** A member met again closes a cycle of the trail. */
  lemma CycleCloses(records: map<MemoryId, Memory>, visited: seq<MemoryId>, current: MemoryId)
    requires current in visited && Trail(records, visited + [current])
    ensures var cycle := visited[IndexOf(visited, current)..] + [current];
            |cycle| >= 2 && cycle[0] == current && Trail(records, cycle)
  {
    var k := IndexOf(visited, current);
    TrailSuffix(records, visited + [current], k);
    assert visited[k..] + [current] == (visited + [current])[k..];
  }

  lemma {:induction false} ChainFromMeaning(records: map<MemoryId, Memory>, start: MemoryId, current: MemoryId, visited: seq<MemoryId>)
    requires Under(records, start, visited, current)
    ensures ChainMeans(records, start, ChainFrom(records, current, visited))
    decreases Unvisited(records, visited)
  {
    if current != "" {
      var longer := visited + [current];
      TrailExtends(records, visited, current);
      RevisitIffMember(visited, current);
      if current in visited {
        CycleCloses(records, visited, current);
      } else if current in records {
        VisitShrinks(records, visited, current);
        ChainFromMeaning(records, start, records[current].supersededBy, longer);
      }
    }
  }

  /** Two trails from one id never part before the shorter ends. */
  lemma {:induction false} TrailsAgree(records: map<MemoryId, Memory>, p: seq<MemoryId>, q: seq<MemoryId>, n: nat)
    requires Trail(records, p) && Trail(records, q) && p != [] && q != [] && p[0] == q[0]
    requires n < |p| && n < |q|
    ensures p[n] == q[n]
  {
    if n > 0 {
      TrailsAgree(records, p, q, n - 1);
      assert p[n - 1 + 1] == Next(records, p[n - 1]) && q[n - 1 + 1] == Next(records, q[n - 1]);
    }
  }

  /** The chain is refused if and only if following the links from the id comes back to an id already seen. */
  lemma ChainFailsIffRevisiting(records: map<MemoryId, Memory>, start: MemoryId)
    ensures ChainFrom(records, start, []).Failure? <==>
              exists p :: Trail(records, p) && p != [] && p[0] == start && Revisits(p)
  {
    ChainFromMeaning(records, start, start, []);
    var r := ChainFrom(records, start, []);
    if r.Success? {
      forall p | Trail(records, p) && p != [] && p[0] == start ensures !Revisits(p) {
        var q := r.value;
        assert p[0] != "";
        if |p| > |q| {
          TrailsAgree(records, p, q, |q| - 1);
        }
        forall i, j | 0 <= i < j < |p| ensures p[i] != p[j] {
          TrailsAgree(records, p, q, i);
          TrailsAgree(records, p, q, j);
        }
      }
    }
  }

  /** A cycle among the records is a cycle of the store's supersession graph. */
  lemma RecordCycleIsStoreCycle(memories: seq<Memory>, c: seq<MemoryId>)
    requires |c| >= 2 && c[0] == c[|c| - 1] && Trail(RecordsById(memories), c)
    ensures IsCycle(memories, c)
  {
    var records := RecordsById(memories);
    forall i {:trigger c[i]} | 0 <= i < |c| - 1 ensures Edge(memories, c[i], c[i + 1]) {
      assert c[i + 1] != "" && c[i + 1] == Next(records, c[i]);
      assert records[c[i]] in memories;
    }
  }

  lemma AcyclicStoreChains(memories: seq<Memory>, start: MemoryId)
    requires Acyclic(memories)
    ensures ChainFrom(RecordsById(memories), start, []).Success?
  {
    ChainFromMeaning(RecordsById(memories), start, start, []);
    var r := ChainFrom(RecordsById(memories), start, []);
    if r.Failure? {
      RecordCycleIsStoreCycle(memories, r.error);
    }
  }

  // ---- The supersession part of authority resolution ----

  datatype Verdict = Current | Dangling | SupersededBy(successor: MemoryId)

  datatype PolicyError = SupersessionCycle | CrossesScope

  function ResolveSupersession(records: map<MemoryId, Memory>, item: Memory): Result<Verdict, PolicyError> {
    if ChainFrom(records, item.id, []).Failure? then Failure(SupersessionCycle)
    else if item.supersededBy == "" then Success(Current)
    else if item.supersededBy !in records then Success(Dangling)
    else if records[item.supersededBy].scope != item.scope then Failure(CrossesScope)
    else Success(SupersededBy(item.supersededBy))
  }

  /** Of several records with one id the last of the list counts. */
  lemma {:induction false} LastRecordCounts(memories: seq<Memory>, id: MemoryId) returns (k: nat)
    requires id in RecordsById(memories)
    ensures k < |memories| && RecordsById(memories)[id] == memories[k] && memories[k].id == id
    ensures forall j :: k < j < |memories| ==> memories[j].id != id
  {
    var init, last := memories[..|memories| - 1], memories[|memories| - 1];
    assert memories == init + [last];
    if last.id == id {
      k := |memories| - 1;
    } else {
      k := LastRecordCounts(init, id);
      assert forall j :: k < j < |init| ==> memories[j] == init[j];
    }
  }

  /** Some walk along the links from this id comes back to an id already seen. */
  ghost predicate Circles(memories: seq<Memory>, id: MemoryId) {
    exists p :: Trail(RecordsById(memories), p) && p != [] && p[0] == id && Revisits(p)
  }

  /** The verdict on a record says where its link leads: nowhere, to no record, to another scope, to its successor, or round in a circle. */
  lemma VerdictMeans(memories: seq<Memory>, item: Memory)
    ensures var r := ResolveSupersession(RecordsById(memories), item);
            var link := item.supersededBy;
            && (r == Failure(SupersessionCycle) <==> Circles(memories, item.id))
            && (r == Success(Current) <==> !Circles(memories, item.id) && link == "")
            && (r == Success(Dangling) <==>
                  !Circles(memories, item.id) && link != "" && !(exists m :: m in memories && m.id == link))
            && (r == Failure(CrossesScope) <==>
                  && !Circles(memories, item.id) && link != "" && link in RecordsById(memories)
                  && RecordsById(memories)[link].scope != item.scope)
            && (r == Success(SupersededBy(link)) <==>
                  && !Circles(memories, item.id) && link != "" && link in RecordsById(memories)
                  && RecordsById(memories)[link].scope == item.scope)
  {
    ChainFailsIffRevisiting(RecordsById(memories), item.id);
    assert forall m :: m in memories && m.id != "" ==> m.id in RecordsById(memories);
  }

  /**
   After any sequence of truth-engine commits authority resolution never meets a supersession cycle or
   a dangling link, and with fresh ids it never meets a link that crosses scopes.
   */
  lemma CommitsNeverBreakAuthority(policy: Policy, s: Store, calls: seq<Call>, item: Memory)
    requires Legible(calls) && Acyclic(s.memories) && NoDangling(s.memories)
    requires item in AfterCalls(policy, s, calls).memories
    ensures var r := ResolveSupersession(RecordsById(AfterCalls(policy, s, calls).memories), item);
            && r != Failure(SupersessionCycle) && r != Success(Dangling)
            && (AlwaysFresh(policy, s, calls) && UniqueIds(s.memories) && LinksStayInScope(s.memories) ==>
                  r == Success(if item.supersededBy == "" then Current else SupersededBy(item.supersededBy)))
  {
    var now := AfterCalls(policy, s, calls).memories;
    CommitsKeepSupersessionSound(policy, s, calls);
    AcyclicStoreChains(now, item.id);
    if item.supersededBy != "" {
      var t :| t in now && t.id == item.supersededBy;
      if AlwaysFresh(policy, s, calls) && UniqueIds(s.memories) && LinksStayInScope(s.memories) {
        CommitsStayInScope(policy, s, calls);
        var x := RecordsById(now)[item.supersededBy];
        assert x in now && x.id == item.supersededBy;
      }
    }
  }

  // ---- The provenance trace ----

  class MemoryLifecycle {
    var memories: seq<Memory>

    constructor (memories: seq<Memory>)
      ensures this.memories == memories
    {
      this.memories := memories;
    }

    /**
     Follow the links forward without any guard against revisiting. It stops because the store is
     acyclic, and returns the whole chain.
     */
    method TraceProvenance(id: MemoryId) returns (chain: seq<Memory>)
      requires Acyclic(memories)
      ensures chain == [] <==> id !in Ids(memories)
      ensures chain != [] ==> chain[0].id == id
      ensures forall m :: m in chain ==> m in memories
      ensures forall i {:trigger chain[i]} :: 0 <= i < |chain| - 1 ==> chain[i].supersededBy == chain[i + 1].id
      ensures chain != [] ==>
                var last := chain[|chain| - 1]; last.supersededBy == "" || last.supersededBy !in Ids(memories)
      ensures forall i, j :: 0 <= i < j < |chain| ==> chain[i].id != chain[j].id
    {
      var k := FindById(memories, id);
      if k == None {
        return [];
      }
      var current := memories[k.value];
      chain := [current];
      while current.supersededBy != ""
        invariant chain != [] && chain[0].id == id && chain[|chain| - 1] == current
        invariant Chained(memories, chain)
        invariant forall i, j :: 0 <= i < j < |chain| ==> chain[i].id != chain[j].id
        decreases Ids(memories) - Ids(chain)
      {
        var next := FindById(memories, current.supersededBy);
        if next == None {
          break;
        }
        ChainGrows(memories, chain, memories[next.value]);
        current := memories[next.value];
        chain := chain + [current];
      }
    }
  }

  lemma IdsAppend(chain: seq<Memory>, m: Memory)
    ensures Ids(chain + [m]) == Ids(chain) + {m.id}
    ensures forall i :: 0 <= i < |chain| ==> chain[i].id in Ids(chain)
  {
    assert m in chain + [m];
    forall id | id in Ids(chain) ensures id in Ids(chain + [m]) {
      var x :| x in chain && x.id == id;
      assert x in chain + [m];
    }
  }

  /** Following one more link keeps the chain free of repeats and leaves one id less to visit. */
  lemma ChainGrows(memories: seq<Memory>, chain: seq<Memory>, next: Memory)
    requires Acyclic(memories) && Chained(memories, chain) && chain != [] && next in memories
    requires chain[|chain| - 1].supersededBy == next.id != ""
    requires forall i, j :: 0 <= i < j < |chain| ==> chain[i].id != chain[j].id
    ensures Chained(memories, chain + [next])
    ensures forall i, j :: 0 <= i < j < |chain + [next]| ==> (chain + [next])[i].id != (chain + [next])[j].id
    ensures next.id in Ids(memories) - Ids(chain) && Ids(chain + [next]) == Ids(chain) + {next.id}
  {
    LinksNeverReturn(memories, chain, next);
    IdsAppend(chain, next);
  }

  /** Memories of the store, each superseded by the next. */
  ghost predicate Chained(memories: seq<Memory>, chain: seq<Memory>) {
    && (forall m :: m in chain ==> m in memories)
    && (forall i {:trigger chain[i]} :: 0 <= i < |chain| - 1 ==>
          chain[i].supersededBy == chain[i + 1].id && chain[i + 1].id != "")
  }

  function LinkIds(chain: seq<Memory>): seq<MemoryId> {
    seq(|chain|, i requires 0 <= i < |chain| => chain[i].id)
  }

  lemma LoopedChainIsCycle(memories: seq<Memory>, chain: seq<Memory>)
    requires Chained(memories, chain) && |chain| >= 2 && chain[0].id == chain[|chain| - 1].id
    ensures IsCycle(memories, LinkIds(chain))
  {
    var p := LinkIds(chain);
    forall i {:trigger p[i]} | 0 <= i < |p| - 1 ensures Edge(memories, p[i], p[i + 1]) {
      assert chain[i] in chain;
    }
  }

  lemma LinksNeverReturn(memories: seq<Memory>, chain: seq<Memory>, next: Memory)
    requires Acyclic(memories) && Chained(memories, chain + [next]) && chain != []
    ensures next.id !in Ids(chain)
  {
    if next.id in Ids(chain) {
      var m :| m in chain && m.id == next.id;
      var k :| 0 <= k < |chain| && chain[k] == m;
      var loop := chain[k..] + [next];
      ChainedSuffix(memories, chain + [next], k);
      assert (chain + [next])[k..] == loop;
      LoopedChainIsCycle(memories, loop);
    }
  }

  lemma ChainedSuffix(memories: seq<Memory>, chain: seq<Memory>, k: nat)
    requires Chained(memories, chain) && k <= |chain|
    ensures Chained(memories, chain[k..])
  {
    var tail := chain[k..];
    forall i {:trigger tail[i]} | 0 <= i < |tail| - 1
      ensures tail[i].supersededBy == tail[i + 1].id && tail[i + 1].id != ""
    {
      assert tail[i] == chain[k + i] && tail[i + 1] == chain[k + i + 1];
    }
  }
}
