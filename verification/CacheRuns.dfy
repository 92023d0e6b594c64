/** Runs of any number of generators on one cache file. */
module CacheRuns {
  import opened EmbeddingCache

  datatype World = World(file: File, writers: map<string, Writer>)

  datatype Event =
    | Start(name: string)
    | Put(name: string, id: string, entry: Entry)
    | Save(name: string, writable: bool)
    | Clear(name: string, writable: bool)
    | Refresh(name: string)

  function Step(w: World, e: Event): World {
    if e.Start? then World(w.file, w.writers[e.name := LoadedFrom(w.file)])
    else if e.name !in w.writers then w
    else
      var writer := w.writers[e.name];
      match e
      case Put(name, id, entry) => World(w.file, w.writers[name := AfterPut(writer, id, entry)])
      case Save(name, writable) =>
        var (file, after, _) := AfterSave(w.file, writer, writable);
        World(file, w.writers[name := after])
      case Clear(name, writable) =>
        var (file, after, _) := AfterClear(w.file, writer, writable);
        World(file, w.writers[name := after])
      case Refresh(name) => World(w.file, w.writers[name := AfterRefresh(w.file, writer)])
      case Start(_) => w
  }

  function Run(w: World, events: seq<Event>): World {
    if events == [] then w else Step(Run(w, events[..|events| - 1]), events[|events| - 1])
  }

  // ---- Where published entries come from ----

  /** Some generator has this entry in memory and has not published it. */
  ghost predicate Unpublished(w: World, id: string, entry: Entry) {
    exists name :: name in w.writers && id in DirtyOf(w.writers[name]) && DirtyOf(w.writers[name])[id] == entry
  }

  ghost predicate OnDisk(w: World, id: string, entry: Entry) {
    id in EntriesOf(w.file) && EntriesOf(w.file)[id] == entry
  }

  ghost predicate PutIn(events: seq<Event>, id: string, entry: Entry) {
    exists name :: Put(name, id, entry) in events
  }

  ghost predicate PutBy(e: Event, id: string, entry: Entry) {
    e.Put? && e.id == id && e.entry == entry
  }

  /** On every run, a published entry was on disk or in some memory at the start, or was put during the run. */
  lemma {:induction false} EntriesHaveSources(w: World, events: seq<Event>, id: string, entry: Entry)
    requires OnDisk(Run(w, events), id, entry) || Unpublished(Run(w, events), id, entry)
    ensures OnDisk(w, id, entry) || Unpublished(w, id, entry) || PutIn(events, id, entry)
    decreases |events|
  {
    if events != [] {
      var init, last := events[..|events| - 1], events[|events| - 1];
      assert events == init + [last];
      if PutBy(last, id, entry) {
        assert last == Put(last.name, id, entry) && last in events;
      } else {
        EntriesHaveSources(w, init, id, entry);
        if PutIn(init, id, entry) {
          var name :| Put(name, id, entry) in init;
          assert Put(name, id, entry) in events;
        }
      }
    }
  }

  /** After a clear, an entry comes back only if another generator had not published it yet or somebody puts it anew. */
  lemma ClearedEntriesStayAway(w: World, name: string, events: seq<Event>, id: string, entry: Entry)
    requires name in w.writers && OnDisk(Run(Step(w, Clear(name, true)), events), id, entry)
    ensures PutIn(events, id, entry)
         || exists other :: other in w.writers && other != name
                            && id in DirtyOf(w.writers[other]) && DirtyOf(w.writers[other])[id] == entry
  {
    var cleared := Step(w, Clear(name, true));
    EntriesHaveSources(cleared, events, id, entry);
    if !PutIn(events, id, entry) {
      assert Unpublished(cleared, id, entry);
      var other :| other in cleared.writers && id in DirtyOf(cleared.writers[other])
                   && DirtyOf(cleared.writers[other])[id] == entry;
      assert other != name && w.writers[other] == cleared.writers[other];
    }
  }

  /** The event publishes this entry as its generator's own work: the snapshot it started from does not hold it. */
  ghost predicate PublishesOwn(w: World, e: Event, id: string, entry: Entry) {
    && e.Save? && e.writable && e.name in w.writers
    && (var writer := w.writers[e.name];
        && id in writer.embeddings && writer.embeddings[id] == entry
        && !(id in writer.base && writer.base[id] == entry))
  }

  lemma NewOnDisk(w: World, e: Event, id: string, entry: Entry)
    requires OnDisk(Step(w, e), id, entry) && !OnDisk(w, id, entry)
    ensures PublishesOwn(w, e, id, entry)
  {
  }

  /** An entry that is not in the file comes into it only as the own work of the generator that saves it. */
  lemma {:induction false} EntriesArriveAsOwnWork(w: World, events: seq<Event>, id: string, entry: Entry)
    requires OnDisk(Run(w, events), id, entry) && !OnDisk(w, id, entry)
    ensures exists k {:trigger events[k]} ::
              0 <= k < |events| && PublishesOwn(Run(w, events[..k]), events[k], id, entry)
    decreases |events|
  {
    var init, last := events[..|events| - 1], events[|events| - 1];
    if OnDisk(Run(w, init), id, entry) {
      EntriesArriveAsOwnWork(w, init, id, entry);
      var k :| 0 <= k < |init| && PublishesOwn(Run(w, init[..k]), init[k], id, entry);
      assert init[..k] == events[..k] && init[k] == events[k];
    } else {
      NewOnDisk(Run(w, init), last, id, entry);
      assert events[..|events| - 1] == init;
    }
  }

  /** Whatever is in the cache at any time after a clear, no generator has brought it back from the snapshot it loaded. */
  lemma StaleWritersPublishOwnWork(w: World, name: string, events: seq<Event>, id: string, entry: Entry)
    requires name in w.writers && OnDisk(Run(Step(w, Clear(name, true)), events), id, entry)
    ensures exists k {:trigger events[k]} ::
              && 0 <= k < |events|
              && PublishesOwn(Run(Step(w, Clear(name, true)), events[..k]), events[k], id, entry)
  {
    EntriesArriveAsOwnWork(Step(w, Clear(name, true)), events, id, entry);
  }

  // ---- Unpublished work ----

  /** After this event the generator has nothing unpublished: it loaded, saved, cleared or reloaded. */
  ghost predicate Synchronises(w: World, e: Event, name: string) {
    || e == Start(name)
    || (name in w.writers && e == Save(name, true) && forall id :: !Conflicts(w.file, w.writers[name], id))
    || (name in w.writers && e == Clear(name, true))
    || (name in w.writers && e == Refresh(name) && w.writers[name].fingerprint != SignatureOf(w.file))
  }

  /** The generator put this entry with event k and has not synchronised since. */
  ghost predicate OwnUnpublished(w: World, events: seq<Event>, name: string, k: nat, id: string, entry: Entry) {
    && k < |events| && events[k] == Put(name, id, entry)
    && forall j {:trigger events[j]} :: k < j < |events| ==> !Synchronises(Run(w, events[..j]), events[j], name)
  }

  lemma StepKeepsWork(w: World, e: Event, name: string, id: string, entry: Entry)
    requires name in Step(w, e).writers && Changed(Step(w, e).writers[name], id)
    requires Step(w, e).writers[name].embeddings[id] == entry
    ensures !Synchronises(w, e, name)
    ensures e == Put(name, id, entry)
         || (name in w.writers && Changed(w.writers[name], id) && w.writers[name].embeddings[id] == entry)
  {
    if name in w.writers && e == Save(name, true) {
      SaveFailsExactly(w.file, w.writers[name], true);
    }
  }

  lemma OwnWorkStays(w: World, init: seq<Event>, last: Event, name: string, k: nat, id: string, entry: Entry)
    requires OwnUnpublished(w, init, name, k, id, entry) && !Synchronises(Run(w, init), last, name)
    ensures OwnUnpublished(w, init + [last], name, k, id, entry)
  {
    var events := init + [last];
    forall j {:trigger events[j]} | k < j < |events| ensures !Synchronises(Run(w, events[..j]), events[j], name) {
      if j < |init| {
        assert events[..j] == init[..j] && events[j] == init[j];
      } else {
        assert events[..j] == init;
      }
    }
  }

  /** In a run that begins without generators, what one has not published it has put itself since it last synchronised. */
  lemma {:induction false} UnpublishedIsOwn(w: World, events: seq<Event>, name: string, id: string, entry: Entry) returns (k: nat)
    requires w.writers == map[] && name in Run(w, events).writers
    requires Changed(Run(w, events).writers[name], id) && Run(w, events).writers[name].embeddings[id] == entry
    ensures OwnUnpublished(w, events, name, k, id, entry)
    decreases |events|
  {
    var init, last := events[..|events| - 1], events[|events| - 1];
    assert events == init + [last];
    StepKeepsWork(Run(w, init), last, name, id, entry);
    if last == Put(name, id, entry) {
      k := |events| - 1;
    } else {
      k := UnpublishedIsOwn(w, init, name, id, entry);
      OwnWorkStays(w, init, last, name, k, id, entry);
    }
  }

  /**
   An entry that is in the cache after a clear was put after it, or before it by another generator that had neither
   published nor given up that work by then.
   */
  lemma ClearedEntriesWerePut(w: World, before: seq<Event>, name: string, events: seq<Event>, id: string, entry: Entry)
    requires w.writers == map[] && name in Run(w, before).writers
    requires OnDisk(Run(Step(Run(w, before), Clear(name, true)), events), id, entry)
    ensures PutIn(events, id, entry)
         || exists other, k: nat {:trigger OwnUnpublished(w, before, other, k, id, entry)} ::
              other != name && OwnUnpublished(w, before, other, k, id, entry)
  {
    ClearedEntriesStayAway(Run(w, before), name, events, id, entry);
    if !PutIn(events, id, entry) {
      var now := Run(w, before);
      var other :| other in now.writers && other != name
                   && id in DirtyOf(now.writers[other]) && DirtyOf(now.writers[other])[id] == entry;
      var k := UnpublishedIsOwn(w, before, other, id, entry);
    }
  }

  // ---- What nobody can change without clearing ----

  ghost predicate NoClear(events: seq<Event>) {
    forall e :: e in events ==> !e.Clear?
  }

  /** Until somebody clears, a published id stays and keeps its provenance, whatever is put and saved. */
  lemma {:induction false} ProvenanceIsFrozen(w: World, events: seq<Event>, id: string)
    requires NoClear(events) && id in EntriesOf(w.file)
    ensures id in EntriesOf(Run(w, events).file)
    ensures EntriesOf(Run(w, events).file)[id].provenance == EntriesOf(w.file)[id].provenance
    decreases |events|
  {
    if events != [] {
      var init, last := events[..|events| - 1], events[|events| - 1];
      assert forall e :: e in init ==> e in events;
      assert last in events;
      ProvenanceIsFrozen(w, init, id);
    }
  }

  /** So a generator that embeds changed content of a published id cannot save anything until the cache is cleared. */
  lemma ChangedContentBlocksSaving(w: World, events: seq<Event>, name: string, id: string, writable: bool)
    requires NoClear(events) && id in EntriesOf(w.file)
    requires name in Run(w, events).writers
    requires var dirty := DirtyOf(Run(w, events).writers[name]);
             id in dirty && dirty[id].provenance != EntriesOf(w.file)[id].provenance
    ensures !AfterSave(Run(w, events).file, Run(w, events).writers[name], writable).2
    ensures Step(Run(w, events), Save(name, writable)) == Run(w, events)
  {
    ProvenanceIsFrozen(w, events, id);
    var now := Run(w, events);
    assert !Agree(EntriesOf(now.file)[id], DirtyOf(now.writers[name])[id]);
    assert now.writers[name := now.writers[name]] == now.writers;
  }
}
