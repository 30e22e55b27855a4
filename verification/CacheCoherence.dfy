/** Dropping entries, and writing chunks that may have one. A read of a data chunk by way of the
    cache returns what the source holds, and these operations keep it so of parity chunks. */
module CacheCoherence {
  import opened Bytes
  import opened Wrappers
  import opened Tables
  import opened Database
  import opened Sequences
  import opened Layout
  import opened Allocation
  import opened ChunkStore
  import opened Release
  import opened ReadCache

  // ----- dropping entries -----

  ghost function CopiesGone(p: Pool, gone: set<ChunkId>): set<Loc> {
    set c | c in gone && c in p.caches && p.caches[c].path.Some? :: CopyFile(p.caches[c])
  }

  /** The entries are gone, and their copies with them. */
  ghost predicate Evicted(p: Pool, q: Pool, gone: set<ChunkId>) {
    q == p.(caches := p.caches - gone, files := p.files - CopiesGone(p, gone))
  }

  lemma EvictKeeps(p: Pool, q: Pool, gone: set<ChunkId>)
    requires CacheSound(p) && Evicted(p, q, gone)
    ensures CacheSound(q) && (AllAgree(p) ==> AllAgree(q))
    ensures forall c | 0 <= c < |p.chunks| :: SameFile(p.files, q.files, p.chunks[c].loc)
  {
    EvictSpares(p, gone);
    if AllAgree(p) { EvictAgrees(p, q, gone); }
  }

  lemma EvictSpares(p: Pool, gone: set<ChunkId>)
    requires CopiesApart(p)
    ensures forall c | 0 <= c < |p.chunks| :: p.chunks[c].loc !in CopiesGone(p, gone)
    ensures forall c | c in p.caches && c !in gone && p.caches[c].path.Some? ::
              CopyFile(p.caches[c]) !in CopiesGone(p, gone)
  {
  }

  lemma EvictAgrees(p: Pool, q: Pool, gone: set<ChunkId>)
    requires CopiesApart(p) && AllAgree(p) && Evicted(p, q, gone)
    ensures AllAgree(q)
  {
    hide CopiesGone;
    EvictSpares(p, gone);
    forall c | 0 <= c < |q.chunks| ensures ReadOne(q, c) == SourceRead(q, c) {
      assert ReadOne(p, c) == SourceRead(p, c);
    }
  }

  /** Removes the files of the entries. */
  method DeleteCacheFiles(db: PoolDb, entries: seq<CacheEntry>)
    modifies db`files
    ensures db.files == old(db.files) - set e | e in entries && e.path.Some? :: CopyFile(e)
  {
    ghost var was := db.files;
    for i := 0 to |entries|
      invariant db.files == was - set e | e in entries[..i] && e.path.Some? :: CopyFile(e)
    {
      assert entries[..i + 1] == entries[..i] + [entries[i]];
      if entries[i].path.Some? {
        db.files := db.files - {CopyFile(entries[i])};
      }
    }
    assert entries[..|entries|] == entries;
  }

  ghost function WithEntry(caches: map<ChunkId, CacheEntry>, ids: set<ChunkId>): set<ChunkId> {
    set c | c in ids && c in caches
  }

  lemma LoadedMore(caches: map<ChunkId, CacheEntry>, ids: set<ChunkId>, rest: set<ChunkId>, c: ChunkId)
    requires rest <= ids && c in rest
    ensures |WithEntry(caches, ids - (rest - {c}))| == |WithEntry(caches, ids - rest)| + if c in caches then 1 else 0
  {
    var was, now := WithEntry(caches, ids - rest), WithEntry(caches, ids - (rest - {c}));
    if c in caches {
      assert c !in was && now == was + {c};
    } else {
      assert now == was;
    }
  }

  /** The entries of the given chunks, in no particular order. */
  method LoadCaches(db: PoolDb, ids: set<ChunkId>) returns (entries: seq<CacheEntry>)
    ensures forall e :: e in entries <==> exists c :: c in ids && c in db.caches && db.caches[c] == e
    ensures |entries| == |WithEntry(db.caches, ids)|
  {
    entries := [];
    var rest := ids;
    while rest != {}
      invariant rest <= ids
      invariant forall e :: e in entries <==> exists c :: c in ids - rest && c in db.caches && db.caches[c] == e
      invariant |entries| == |WithEntry(db.caches, ids - rest)|
      decreases |rest|
    {
      var c :| c in rest;
      LoadedMore(db.caches, ids, rest, c);
      rest := rest - {c};
      if c in db.caches {
        entries := entries + [db.caches[c]];
      }
      assert ids - rest == (ids - (rest + {c})) + {c};
    }
    assert ids - {} == ids;
  }

  lemma EntryFiles(p: Pool, ids: set<ChunkId>, entries: seq<CacheEntry>)
    requires forall e :: e in entries <==> exists c :: c in ids && c in p.caches && p.caches[c] == e
    ensures (set e | e in entries && e.path.Some? :: CopyFile(e)) == CopiesGone(p, ids)
  {
  }

  /** Before chunks are overwritten. */
  method DropCaches(db: PoolDb, ids: set<ChunkId>)
    modifies db`caches, db`files
    ensures Evicted(old(db.State()), db.State(), ids)
  {
    var entries := LoadCaches(db, ids);
    EntryFiles(db.State(), ids, entries);
    if |entries| == 0 {
      NothingCached(db.State(), ids, entries);
      return;
    }
    db.caches := db.caches - ids;
    DeleteCacheFiles(db, entries);
  }

  lemma NothingCached(p: Pool, ids: set<ChunkId>, entries: seq<CacheEntry>)
    requires forall e :: e in entries <==> exists c :: c in ids && c in p.caches && p.caches[c] == e
    requires entries == []
    ensures Evicted(p, p, ids)
  {
    assert forall c | c in ids && c in p.caches :: p.caches[c] in entries;
    assert p.caches - ids == p.caches;
    assert CopiesGone(p, ids) == {};
    assert p.files - {} == p.files;
  }

  /** `cold` are the chunks whose entries have been idle for longer than `cacheIdleTTL`. */
  method CleanupColdCache(db: PoolDb, cold: set<ChunkId>)
    requires CacheSound(db.State()) && cold <= db.caches.Keys
    modifies db`caches, db`files
    ensures Evicted(old(db.State()), db.State(), cold) && CacheSound(db.State())
    ensures AllAgree(old(db.State())) ==> AllAgree(db.State())
  {
    ghost var p := db.State();
    var entries := LoadCaches(db, cold);
    EntryFiles(p, cold, entries);
    db.caches := db.caches - cold;
    DeleteCacheFiles(db, entries);
    EvictKeeps(p, db.State(), cold);
  }

  ghost function OnDisk(caches: map<ChunkId, CacheEntry>, disk: DiskId): set<ChunkId> {
    set c | c in caches && caches[c].disk == disk
  }

  /** Deletes a cache disk with its copies and entries; refused for other disks. */
  method DeleteCacheDisk(db: PoolDb, disk: DiskId, isCacheDisk: bool) returns (removed: Option<nat>)
    requires CacheSound(db.State())
    modifies db`caches, db`files
    ensures removed.None? <==> !isCacheDisk
    ensures removed.None? ==> db.State() == old(db.State())
    ensures removed.Some? ==>
              Evicted(old(db.State()), db.State(), OnDisk(old(db.caches), disk))
    ensures removed.Some? ==> forall c | c in db.caches :: db.caches[c].disk != disk
    ensures removed.Some? ==> removed.value == |OnDisk(old(db.caches), disk)|
    ensures CacheSound(db.State()) && (AllAgree(old(db.State())) ==> AllAgree(db.State()))
  {
    hide CacheSound, AllAgree;
    if !isCacheDisk {
      return None;
    }
    ghost var p := db.State();
    var gone := set c | c in db.caches && db.caches[c].disk == disk;
    var entries := LoadCaches(db, gone);
    EntryFiles(p, gone, entries);
    DeleteCacheFiles(db, entries);
    db.caches := db.caches - gone;
    assert WithEntry(p.caches, gone) == gone;
    removed := Some(|entries|);
    EvictKeeps(p, db.State(), gone);
  }

  // ----- writing chunks -----

  /** A write keeps the cache sound as long as no written chunk has a copy: all other chunks
      keep their bytes, and so do all copies. */
  lemma WriteKeeps(p: Pool, q: Pool, ids: seq<ChunkId>)
    requires CacheSound(p) && PathsApart(q) && SlotsEmpty(q) && p.paths <= q.paths && q.caches == p.caches
    requires OthersKept(p, q, ids) && forall c | c in ids :: !IsCached(p, c)
    requires forall c | 0 <= c < |p.chunks| :: q.chunks[c].loc == p.chunks[c].loc
    requires forall c | |p.chunks| <= c < |q.chunks| :: q.chunks[c].loc.path >= p.paths
    requires forall l: Loc | l.path < p.paths && NoChunkAt(p, l) :: SameFile(p.files, q.files, l)
    ensures CacheSound(q) && (AllAgree(p) ==> AllAgree(q))
  {
    forall c | c in q.caches && p.caches[c].path.Some? ensures SameFile(p.files, q.files, CopyFile(p.caches[c])) {
      assert NoChunkAt(p, CopyFile(p.caches[c]));
    }
    forall c: nat | c < |p.chunks| && c !in ids
      ensures ReadOne(q, c) == ReadOne(p, c) && SourceRead(q, c) == SourceRead(p, c)
    {
    }
  }

  ghost predicate NoChunkAt(p: Pool, l: Loc) { forall k | 0 <= k < |p.chunks| :: p.chunks[k].loc != l }

  datatype WriteItem = WriteItem(chunk: ChunkId, data: Data)

  datatype WriteResult = Overwritten(ids: seq<ChunkId>) | NotWritten(error: WriteError)

  datatype WriteError = EmptyItems | UnknownChunk | PoolIsOffline | TooLong | DiskFailed

  function IdsOf(items: seq<WriteItem>): (r: seq<ChunkId>)
    ensures |r| == |items| && forall k | 0 <= k < |r| :: r[k] == items[k].chunk
  {
    seq(|items|, k requires 0 <= k < |items| => items[k].chunk)
  }

  function DataOf(items: seq<WriteItem>): (r: seq<Data>)
    ensures |r| == |items| && forall k | 0 <= k < |r| :: r[k] == items[k].data
  {
    seq(|items|, k requires 0 <= k < |items| => items[k].data)
  }

  /** The rows describe the items from now on. */
  ghost predicate RowsFilled(p: Pool, q: Pool, items: seq<WriteItem>) {
    && q == p.(chunks := q.chunks) && |q.chunks| == |p.chunks|
    && (forall k | 0 <= k < |items| :: items[k].chunk < |p.chunks| &&
          q.chunks[items[k].chunk] == Filled(p.chunks[items[k].chunk], items[k].data))
    && (forall c | 0 <= c < |p.chunks| && c !in IdsOf(items) :: q.chunks[c] == p.chunks[c])
  }

  method FillRows(db: PoolDb, items: seq<WriteItem>)
    requires Distinct(IdsOf(items)) && forall k | 0 <= k < |items| :: items[k].chunk < |db.chunks|
    modifies db`chunks
    ensures RowsFilled(old(db.State()), db.State(), items)
  {
    ghost var cs := db.chunks;
    for i := 0 to |items|
      invariant |db.chunks| == |cs|
      invariant forall k | 0 <= k < i :: db.chunks[items[k].chunk] == Filled(cs[items[k].chunk], items[k].data)
      invariant forall k | i <= k < |items| :: db.chunks[items[k].chunk] == cs[items[k].chunk]
      invariant forall c | 0 <= c < |cs| && c !in IdsOf(items) :: db.chunks[c] == cs[c]
    {
      assert forall k | 0 <= k < |items| && k != i :: IdsOf(items)[k] != IdsOf(items)[i];
      assert IdsOf(items)[i] in IdsOf(items);
      db.chunks := db.chunks[items[i].chunk := Filled(db.chunks[items[i].chunk], items[i].data)];
    }
  }

  /** Chunks are overwritten, whatever their disks do: their entries go, their rows describe the
      new bytes, and they are written as any others. */
  ghost predicate Overwrites(p: Pool, q: Pool, items: seq<WriteItem>, outcomes: seq<Outcome>) {
    && items != [] && Distinct(IdsOf(items)) && (forall k | 0 <= k < |items| :: items[k].chunk < |p.chunks|)
    && exists d: Pool, f: Pool, t: Trace ::
         && Evicted(p, d, set c | c in IdsOf(items)) && RowsFilled(d, f, items)
         && Persisted(f, q, IdsOf(items), DataOf(items), outcomes, t)
  }

  lemma OverwriteAgrees(p: Pool, q: Pool, items: seq<WriteItem>, outcomes: seq<Outcome>)
    requires CacheSound(p) && Overwrites(p, q, items, outcomes)
    ensures CacheSound(q) && (AllAgree(p) ==> AllAgree(q))
  {
    hide CacheSound, Persisted, RowsFilled;
    var d, f, t :| Evicted(p, d, set c | c in IdsOf(items)) && RowsFilled(d, f, items)
      && Persisted(f, q, IdsOf(items), DataOf(items), outcomes, t);
    EvictKeeps(p, d, set c | c in IdsOf(items));
    OverwriteKeeps(d, f, q, items, outcomes, t);
  }

  /** Writes to given chunks, of either kind, or refuses for the first reason there is. Their cache
      entries go first. */
  method WriteChunks(db: PoolDb, online: bool, limit: nat, items: seq<WriteItem>, outcomes: seq<Outcome>)
    returns (r: WriteResult, ghost t: Trace)
    requires CacheSound(db.State()) && |outcomes| == |items|
    modifies db`chunks, db`log, db`rows, db`files, db`tasks, db`caches
    ensures r == NotWritten(EmptyItems) <==> |items| == 0 || exists k | 0 <= k < |items| :: |items[k].data| == 0
    ensures r == NotWritten(UnknownChunk) <==> !AnyEmpty(DataOf(items)) && !AllFound(IdsOf(items), |old(db.chunks)|)
    ensures r == NotWritten(PoolIsOffline) <==>
              !AnyEmpty(DataOf(items)) && AllFound(IdsOf(items), |old(db.chunks)|) && !online
    ensures r == NotWritten(TooLong) <==>
              && !AnyEmpty(DataOf(items)) && AllFound(IdsOf(items), |old(db.chunks)|) && online
              && TooLarge(DataOf(items), limit)
    ensures r.NotWritten? && r.error != DiskFailed ==> db.State() == old(db.State())
    ensures r.Overwritten? || r.error == DiskFailed ==> Overwrites(old(db.State()), db.State(), items, outcomes)
    ensures r.Overwritten? <==>
              && !AnyEmpty(DataOf(items)) && AllFound(IdsOf(items), |old(db.chunks)|) && online
              && !TooLarge(DataOf(items), limit) && AllWritten(outcomes)
    ensures r.Overwritten? ==> r.ids == IdsOf(items) && Distinct(r.ids)
    ensures r.Overwritten? ==>
              HoldsBytes(db.State(), r.ids, DataOf(items)) && OthersKept(old(db.State()), db.State(), r.ids)
    ensures r.Overwritten? ==> forall c | c in r.ids :: c !in db.caches
    ensures CacheSound(db.State()) && (AllAgree(old(db.State())) ==> AllAgree(db.State()))
  {
    t := Trace(db.State(), db.State(), db.State(), []);
    assert forall k | 0 <= k < |items| :: DataOf(items)[k] == items[k].data;
    var empty := HasEmpty(DataOf(items));
    if empty {
      return NotWritten(EmptyItems), t;
    }
    var ids := IdsOf(items);
    var found := set c | c in ids && c < |db.chunks|;
    FoundIff(ids, |db.chunks|, found);
    if |found| != |ids| {
      return NotWritten(UnknownChunk), t;
    }
    if !online {
      return NotWritten(PoolIsOffline), t;
    }
    var tooLarge := AnyTooLarge(DataOf(items), limit);
    if tooLarge {
      return NotWritten(TooLong), t;
    }
    forall k | 0 <= k < |items| ensures items[k].chunk < |db.chunks| { assert ids[k] < |db.chunks|; }
    ghost var p := db.State();
    DropCaches(db, set c | c in ids);
    ghost var dropped := db.State();
    EvictKeeps(p, dropped, set c | c in ids);
    FillRows(db, items);
    ghost var filled := db.State();
    FilledPaths(dropped, filled, items);
    var ok;
    ok, t := PersistChunkData(db, ids, DataOf(items), outcomes);
    OverwriteKeeps(dropped, filled, db.State(), items, outcomes, t);
    OverwriteHolds(p, dropped, filled, db.State(), items, outcomes, t);
    r := if ok then Overwritten(ids) else NotWritten(DiskFailed);
  }

  lemma FilledPaths(p: Pool, f: Pool, items: seq<WriteItem>)
    requires PathsApart(p) && RowsFilled(p, f, items)
    ensures PathsApart(f)
    ensures forall c | 0 <= c < |p.chunks| :: f.chunks[c].loc == p.chunks[c].loc && f.chunks[c].kind == p.chunks[c].kind
  {
    forall c | 0 <= c < |p.chunks| ensures f.chunks[c].loc == p.chunks[c].loc && f.chunks[c].kind == p.chunks[c].kind {
      if c in IdsOf(items) { var k :| 0 <= k < |items| && IdsOf(items)[k] == c; }
    }
  }

  lemma OverwriteKeeps(p: Pool, f: Pool, q: Pool, items: seq<WriteItem>, outcomes: seq<Outcome>, t: Trace)
    requires CacheSound(p) && items != [] && RowsFilled(p, f, items) && forall c | c in IdsOf(items) :: c !in p.caches
    requires Persisted(f, q, IdsOf(items), DataOf(items), outcomes, t)
    ensures CacheSound(q) && (AllAgree(p) ==> AllAgree(q))
  {
    var ids := IdsOf(items);
    FilledPaths(p, f, items);
    PersistedOthers(f, q, ids, DataOf(items), outcomes, t);
    forall l: Loc | NoChunkAt(p, l) ensures SameFile(p.files, q.files, l) {
      assert Elsewhere(f.chunks, ids, |ids|, l);
    }
    OverwriteSlots(p, f, q, items);
    WriteKeeps(p, q, ids);
  }

  lemma OverwriteSlots(p: Pool, f: Pool, q: Pool, items: seq<WriteItem>)
    requires SlotsEmpty(p) && PathsApart(p) && RowsFilled(p, f, items)
    requires |q.chunks| == |f.chunks| && q.paths == p.paths && OthersKept(f, q, IdsOf(items))
    requires forall c | 0 <= c < |f.chunks| :: SameSlot(f.chunks[c], q.chunks[c])
    requires forall c | 0 <= c < |f.chunks| :: q.chunks[c].loc == f.chunks[c].loc &&
               q.chunks[c].status == f.chunks[c].status
    requires forall l: Loc | NoChunkAt(p, l) :: SameFile(p.files, q.files, l)
    requires forall c | 0 <= c < |p.chunks| :: f.chunks[c].loc == p.chunks[c].loc
    ensures SlotsEmpty(q)
  {
    forall c | 0 <= c < |q.chunks| && q.chunks[c].kind == DataChunk && q.chunks[c].status == Reserved
      ensures q.chunks[c].loc !in q.files
    {
      if c in IdsOf(items) {
        var k :| 0 <= k < |items| && IdsOf(items)[k] == c;
      }
    }
    forall l | l in q.files ensures l.path < q.paths {
      if NoChunkAt(p, l) { assert SameFile(p.files, q.files, l); }
    }
  }

  lemma OverwriteHolds(p: Pool, d: Pool, f: Pool, q: Pool, items: seq<WriteItem>, outcomes: seq<Outcome>, t: Trace)
    requires CacheSound(p) && items != [] && Evicted(p, d, set c | c in IdsOf(items)) && RowsFilled(d, f, items)
    requires Persisted(f, q, IdsOf(items), DataOf(items), outcomes, t)
    ensures OthersKept(p, q, IdsOf(items)) && forall c | c in IdsOf(items) :: c !in q.caches
    ensures AllWritten(outcomes) ==> HoldsBytes(q, IdsOf(items), DataOf(items))
  {
    hide SlotsEmpty, CopiesApart, Coherent, EntriesKnown;
    hide Persisted, HoldsBytes;
    FilledPaths(d, f, items);
    PersistedOthers(f, q, IdsOf(items), DataOf(items), outcomes, t);
    EvictKeeps(p, d, set c | c in IdsOf(items));
    if AllWritten(outcomes) {
      PersistedHolds(f, q, IdsOf(items), DataOf(items), outcomes, t);
    }
  }
}
