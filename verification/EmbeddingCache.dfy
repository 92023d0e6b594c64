/** A cache file that several generators share: publishing, merging and clearing. */
module EmbeddingCache {
  import opened Results
  import opened Ordering

  /** An entry with its provenance and its serialised form, by which equal provenances are told apart. */
  datatype Entry = Entry(provenance: string, serial: string)

  type Entries = map<string, Entry>

  /** The cache file; every write gives it a new signature. */
  datatype File = Absent | File(entries: Entries, signature: nat)

  function EntriesOf(f: File): Entries {
    if f.Absent? then map[] else f.entries
  }

  function SignatureOf(f: File): Option<nat> {
    if f.Absent? then None else Some(f.signature)
  }

  // ---- What is published ----

  /** Local additions and changes since the last snapshot. */
  function Dirty(embeddings: Entries, base: Entries): Entries {
    map id | id in embeddings && (id !in base || base[id] != embeddings[id]) :: embeddings[id]
  }

  predicate Agree(a: Entry, b: Entry) {
    a == b || a.provenance == b.provenance
  }

  /** No shared id has two provenances. */
  predicate Compatible(a: Entries, b: Entries) {
    forall id :: id in a && id in b ==> Agree(a[id], b[id])
  }

  function Pick(existing: Entry, entry: Entry): Entry {
    if existing != entry && StringLess(entry.serial, existing.serial) then entry else existing
  }

  function Merged(disk: Entries, incoming: Entries): Entries {
    map id | id in disk.Keys + incoming.Keys ::
      if id !in disk then incoming[id] else if id !in incoming then disk[id] else Pick(disk[id], incoming[id])
  }

  /** The entries on disk after an attempt to publish: all of the incoming ones or none. */
  function Published(disk: Entries, incoming: Entries): Entries {
    if Compatible(disk, incoming) then Merged(disk, incoming) else disk
  }

  /** What a generator holds in memory: its embeddings, the snapshot they started from, that file's signature. */
  datatype Writer = Writer(embeddings: Entries, base: Entries, fingerprint: Option<nat>)

  function LoadedFrom(f: File): Writer {
    Writer(EntriesOf(f), EntriesOf(f), SignatureOf(f))
  }

  function Written(f: File, entries: Entries): File {
    File(entries, if f.Absent? then 0 else f.signature + 1)
  }

  function DirtyOf(w: Writer): Entries {
    Dirty(w.embeddings, w.base)
  }

  /** Publishing: all dirty entries merged into the file, or nothing changed. */
  function AfterSave(f: File, w: Writer, writable: bool): (File, Writer, bool) {
    if writable && Compatible(EntriesOf(f), DirtyOf(w)) then
      var g := Written(f, Merged(EntriesOf(f), DirtyOf(w)));
      (g, LoadedFrom(g), true)
    else (f, w, false)
  }

  /** Clearing: an empty file whatever it held, or nothing changed. */
  function AfterClear(f: File, w: Writer, writable: bool): (File, Writer, bool) {
    if writable then
      var g := Written(f, map[]);
      (g, LoadedFrom(g), true)
    else (f, w, false)
  }

  function AfterRefresh(f: File, w: Writer): Writer {
    if w.fingerprint != SignatureOf(f) then LoadedFrom(f) else w
  }

  function AfterPut(w: Writer, id: string, entry: Entry): Writer {
    w.(embeddings := w.embeddings[id := entry])
  }

  // ---- The program ----

  class CacheFile {
    var file: File

    constructor ()
      ensures file == Absent
    {
      file := Absent;
    }

    /** Replace the file as a whole. */
    method Write(entries: Entries)
      modifies this
      ensures file == Written(old(file), entries)
    {
      file := File(entries, if file.Absent? then 0 else file.signature + 1);
    }
  }

  class EmbeddingGenerator {
    const disk: CacheFile
    var embeddings: Entries
    var base: Entries
    var fingerprint: Option<nat>

    function Memory(): Writer
      reads this
    {
      Writer(embeddings, base, fingerprint)
    }

    constructor (disk: CacheFile)
      ensures this.disk == disk && Memory() == LoadedFrom(disk.file)
    {
      this.disk := disk;
      embeddings, base, fingerprint := EntriesOf(disk.file), EntriesOf(disk.file), SignatureOf(disk.file);
    }

    method Load()
      modifies this
      ensures Memory() == LoadedFrom(disk.file)
    {
      embeddings, base := EntriesOf(disk.file), EntriesOf(disk.file);
      fingerprint := SignatureOf(disk.file);
    }

    /** Reload if another process published; unpublished work is given up then. */
    method Refresh() returns (reloaded: bool)
      modifies this
      ensures Memory() == AfterRefresh(disk.file, old(Memory()))
      ensures reloaded == (old(fingerprint) != SignatureOf(disk.file))
    {
      reloaded := fingerprint != SignatureOf(disk.file);
      if reloaded {
        Load();
      }
    }

    /** Keep a new embedding in memory. */
    method Put(id: string, entry: Entry)
      modifies this
      ensures Memory() == AfterPut(old(Memory()), id, entry)
    {
      embeddings := embeddings[id := entry];
    }

    method Merge(onDisk: Entries, incoming: Entries) returns (r: Option<Entries>)
      ensures r == if Compatible(onDisk, incoming) then Some(Merged(onDisk, incoming)) else None
    {
      var merged := onDisk;
      var todo := incoming.Keys;
      while todo != {}
        invariant todo <= incoming.Keys
        invariant forall id :: id in incoming && id !in todo && id in onDisk ==> Agree(onDisk[id], incoming[id])
        invariant merged == Merged(onDisk, Done(incoming, todo))
        decreases |todo|
      {
        var id :| id in todo;
        MergeOne(onDisk, incoming, todo, id);
        var entry := incoming[id];
        if id in merged && merged[id] != entry && merged[id].provenance != entry.provenance {
          return None;
        }
        merged := merged[id := if id in merged then Pick(merged[id], entry) else entry];
        todo := todo - {id};
      }
      assert Done(incoming, {}) == incoming;
      r := Some(merged);
    }

    /** Publish the dirty entries under the file lock; a failed write leaves everything as it was. */
    method Save(writable: bool) returns (ok: bool)
      modifies this, disk
      ensures (disk.file, Memory(), ok) == AfterSave(old(disk.file), old(Memory()), writable)
    {
      var merged := Merge(EntriesOf(disk.file), Dirty(embeddings, base));
      if merged.None? || !writable {
        return false;
      }
      disk.Write(merged.value);
      embeddings, base, fingerprint := merged.value, merged.value, SignatureOf(disk.file);
      ok := true;
    }

    /** Empty the file; on failure the embeddings in memory come back. */
    method Clear(writable: bool) returns (ok: bool)
      modifies this, disk
      ensures (disk.file, Memory(), ok) == AfterClear(old(disk.file), old(Memory()), writable)
    {
      var previous := embeddings;
      embeddings := map[];
      if !writable {
        embeddings := previous;
        return false;
      }
      disk.Write(map[]);
      embeddings, base, fingerprint := map[], map[], SignatureOf(disk.file);
      ok := true;
    }
  }

  function Done(incoming: Entries, todo: set<string>): Entries {
    map id | id in incoming && id !in todo :: incoming[id]
  }

  lemma MergeOne(disk: Entries, incoming: Entries, todo: set<string>, id: string)
    requires id in todo && todo <= incoming.Keys
    ensures var merged := Merged(disk, Done(incoming, todo));
            && (id in merged <==> id in disk) && (id in disk ==> merged[id] == disk[id])
            && Merged(disk, Done(incoming, todo - {id}))
            == merged[id := if id in merged then Pick(merged[id], incoming[id]) else incoming[id]]
  {
  }

  // ---- Publishing in either order ----

  lemma PickCommutes(a: Entry, b: Entry)
    requires a.provenance == b.provenance
    ensures Pick(a, b) == Pick(b, a)
  {
    StringLessTotal(a.serial, b.serial);
    if StringLess(a.serial, b.serial) && StringLess(b.serial, a.serial) {
      StringLessTransitive(a.serial, b.serial, a.serial);
      StringLessIrreflexive(a.serial);
    }
  }

  lemma PickAssociates(a: Entry, b: Entry, c: Entry)
    requires a.provenance == b.provenance == c.provenance
    ensures Pick(Pick(a, b), c) == Pick(Pick(a, c), b)
  {
    StringLessTotal(a.serial, b.serial);
    StringLessTotal(a.serial, c.serial);
    StringLessTotal(b.serial, c.serial);
    PickCommutes(a, b);
    PickCommutes(a, c);
    PickCommutes(b, c);
    if StringLess(b.serial, a.serial) && StringLess(c.serial, b.serial) {
      StringLessTransitive(c.serial, b.serial, a.serial);
    }
    if StringLess(c.serial, a.serial) && StringLess(b.serial, c.serial) {
      StringLessTransitive(b.serial, c.serial, a.serial);
    }
    if StringLess(a.serial, b.serial) && StringLess(c.serial, a.serial) {
      StringLessTransitive(c.serial, a.serial, b.serial);
    }
    if StringLess(a.serial, c.serial) && StringLess(b.serial, a.serial) {
      StringLessTransitive(b.serial, a.serial, c.serial);
    }
  }

  lemma MergesCommute(disk: Entries, a: Entries, b: Entries)
    requires Compatible(disk, a) && Compatible(disk, b) && Compatible(a, b)
    ensures Merged(Merged(disk, a), b) == Merged(Merged(disk, b), a)
  {
    var x, y := Merged(Merged(disk, a), b), Merged(Merged(disk, b), a);
    assert x.Keys == y.Keys;
    forall id | id in x ensures x[id] == y[id] {
      if id in a && id in b {
        PickCommutes(a[id], b[id]);
        if id in disk {
          PickAssociates(disk[id], a[id], b[id]);
        }
      }
    }
  }

  /** Publishing A then B leaves what B then A leaves, except when only A and B themselves disagree. */
  lemma PublicationOrder(disk: Entries, a: Entries, b: Entries)
    ensures Published(Published(disk, a), b) == Published(Published(disk, b), a)
            <==> !(Compatible(disk, a) && Compatible(disk, b) && !Compatible(a, b))
  {
    if !Compatible(disk, a) && Compatible(disk, b) {
    } else if !Compatible(disk, b) && Compatible(disk, a) {
    } else if Compatible(disk, a) && Compatible(disk, b) {
      if Compatible(a, b) {
        MergesCommute(disk, a, b);
      } else {
        FirstWins(disk, a, b);
      }
    }
  }

  lemma FirstWins(disk: Entries, a: Entries, b: Entries)
    requires Compatible(disk, a) && Compatible(disk, b) && !Compatible(a, b)
    ensures Merged(disk, a) != Merged(disk, b)
  {
    var id :| id in a && id in b && !Agree(a[id], b[id]);
    assert Merged(disk, a)[id].provenance == a[id].provenance;
    assert Merged(disk, b)[id].provenance == b[id].provenance;
  }

  // ---- What saving does ----

  /** The generator added or changed this id since its snapshot. */
  predicate Changed(w: Writer, id: string) {
    id in w.embeddings && (id !in w.base || w.base[id] != w.embeddings[id])
  }

  /** A changed id whose entry on disk has another provenance. */
  predicate Conflicts(f: File, w: Writer, id: string) {
    Changed(w, id) && f.File? && id in f.entries && f.entries[id].provenance != w.embeddings[id].provenance
  }

  /** The entry on disk after publishing an id: the only one there is, or of two the one with the lesser serialised form. */
  predicate IsMerged(f: File, w: Writer, id: string, entry: Entry) {
    var here := f.File? && id in f.entries;
    && (here || Changed(w, id))
    && (here && !Changed(w, id) ==> entry == f.entries[id])
    && (!here ==> entry == w.embeddings[id])
    && (here && Changed(w, id) ==>
          || (entry == f.entries[id] && !StringLess(w.embeddings[id].serial, f.entries[id].serial))
          || (entry == w.embeddings[id] && StringLess(entry.serial, f.entries[id].serial)))
  }

  /** Saving fails exactly on a conflict or an unwritable file; then nothing changes. */
  lemma SaveFailsExactly(f: File, w: Writer, writable: bool)
    ensures AfterSave(f, w, writable).2 <==> writable && forall id :: !Conflicts(f, w, id)
    ensures !AfterSave(f, w, writable).2 ==> AfterSave(f, w, writable) == (f, w, false)
  {
    forall id ensures Conflicts(f, w, id) <==> id in EntriesOf(f) && id in DirtyOf(w) && !Agree(EntriesOf(f)[id], DirtyOf(w)[id]) {
    }
  }

  /** After a save every change is published and the generator holds exactly the file: it has nothing left to publish. */
  lemma SavePublishesAll(f: File, w: Writer, writable: bool)
    requires AfterSave(f, w, writable).2
    ensures var (g, after, _) := AfterSave(f, w, writable);
            && g.File? && SignatureOf(g) != SignatureOf(f)
            && (forall id :: id in g.entries <==> (f.File? && id in f.entries) || Changed(w, id))
            && (forall id :: id in g.entries ==> IsMerged(f, w, id, g.entries[id]))
            && after.embeddings == after.base == g.entries && after.fingerprint == SignatureOf(g)
            && (forall id :: !Changed(after, id))
  {
  }

  /** A cleared file is empty, and so is the memory of the generator that cleared it. */
  lemma ClearEmpties(f: File, w: Writer, writable: bool)
    ensures var (g, after, ok) := AfterClear(f, w, writable);
            && ok == writable
            && (ok ==> g.File? && g.entries == map[] && SignatureOf(g) != SignatureOf(f)
                       && after.embeddings == after.base == map[] && after.fingerprint == SignatureOf(g))
            && (!ok ==> g == f && after == w)
  {
  }

  /** A refresh takes the file over exactly if its signature is another one, and gives up unpublished work only then. */
  lemma RefreshFollowsFile(f: File, w: Writer)
    ensures var after := AfterRefresh(f, w);
            if w.fingerprint == SignatureOf(f) then after == w
            else after.embeddings == after.base == EntriesOf(f) && after.fingerprint == SignatureOf(f)
  {
  }
}
