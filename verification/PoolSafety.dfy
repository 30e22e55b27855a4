/** What each step on the pool leaves of the chunks that versions map to, and of the files
    that wait to be deleted. */
module PoolSafety {
  import opened Bytes
  import opened Wrappers
  import opened Tables
  import opened Database
  import opened Sequences
  import opened Layout
  import opened ErasureCode
  import opened Allocation
  import opened ChunkStore
  import opened Release
  import opened ParityWorker
  import opened ReadCache
  import opened CacheCoherence

  // ----- what every state keeps -----

  /** The chunk is written, and its file is what was written to it. */
  predicate Stored(p: Pool, c: ChunkId) {
    c < |p.chunks| && IsData(p.chunks[c]) && p.chunks[c].loc in p.files &&
      p.chunks[c].hash == Some(p.files[p.chunks[c].loc])
  }

  ghost predicate RefsSafe(p: Pool) { forall s | s in p.refs :: Stored(p, p.refs[s]) }

  /** No file waiting to be deleted is in use, or can come into use. */
  ghost predicate PendingDead(p: Pool, pending: set<Loc>) {
    forall l | l in pending :: l.path < p.paths && NoChunkAt(p, l) && NoCopyAt(p, l)
  }

  ghost predicate NoCopyAt(p: Pool, l: Loc) {
    forall c | c in p.caches && p.caches[c].path.Some? :: CopyFile(p.caches[c]) != l
  }

  ghost predicate PoolSafe(p: Pool) { LaidOut(p) && CacheSound(p) && RefsSafe(p) }

  /** The chunks keep their rows and their bytes. */
  ghost predicate Keeps(p: Pool, q: Pool, ids: set<ChunkId>) {
    |p.chunks| <= |q.chunks| &&
    forall c | c in ids && c < |p.chunks| :: q.chunks[c] == p.chunks[c] && SameFile(p.files, q.files, p.chunks[c].loc)
  }

  // ----- the pool's part of each step -----

  /** One chunk is stored; whatever was written before stays. */
  ghost predicate StoresOne(p: Pool, q: Pool, data: Data, c: ChunkId) {
    exists g: Pool, reserved: seq<ChunkId>, outcomes: seq<Outcome>, t: Trace ::
      && IsPick(p.chunks, reserved, 1) && AllWritten(outcomes) && LaidOut(g)
      && Grants(p, g, [data], reserved, [c]) && Persisted(g, q, [c], [data], outcomes, t)
  }

  /** One chunk is given out and its disk is told to write it, whatever the disk does. */
  ghost predicate TriesOne(p: Pool, q: Pool, data: Data, c: ChunkId) {
    exists g: Pool, reserved: seq<ChunkId>, outcomes: seq<Outcome>, t: Trace ::
      && IsPick(p.chunks, reserved, 1) && LaidOut(g)
      && Grants(p, g, [data], reserved, [c]) && Persisted(g, q, [c], [data], outcomes, t)
  }

  /** One chunk is stored and mapped to a slot. */
  ghost predicate PutsOne(p: Pool, q: Pool, data: Data, c: ChunkId, s: Slot) {
    exists m: Pool :: StoresOne(p, m, data, c) && q == m.(refs := m.refs[s := c])
  }

  lemma StoreAdds(p: Pool, q: Pool, data: Data, c: ChunkId)
    requires StoresOne(p, q, data, c)
    ensures AddsOne(p, q, data, c) && LaidOut(q)
  {
    var g, reserved, outcomes, t :| IsPick(p.chunks, reserved, 1) && AllWritten(outcomes) && LaidOut(g) &&
      Grants(p, g, [data], reserved, [c]) && Persisted(g, q, [c], [data], outcomes, t);
    AddedHolds(p, g, q, [data], reserved, [c], outcomes, t);
    StoredOne(p, g, q, data, c, reserved, outcomes, t);
  }

  lemma StoreKeeps(p: Pool, q: Pool, data: Data, c: ChunkId, pending: set<Loc>)
    requires PoolSafe(p) && StoresOne(p, q, data, c) && PendingDead(p, pending)
    ensures PoolSafe(q) && AddsOne(p, q, data, c) && Stored(q, c) && c !in p.refs.Values
    ensures Keeps(p, q, p.refs.Values) && PendingDead(q, pending)
  {
    hide PoolSafe, PendingDead, StoresOne;
    StoreAdds(p, q, data, c);
    TakeKeeps(p, q, c, pending);
  }

  lemma TakeKeeps(p: Pool, q: Pool, c: ChunkId, pending: set<Loc>)
    requires PoolSafe(p) && LaidOut(q) && TakesOne(p, q, c) && PendingDead(p, pending)
    ensures PoolSafe(q) && PendingDead(q, pending) && c !in p.refs.Values && Keeps(p, q, p.refs.Values)
  {
    TakeKeepsSlots(p, q, c);
    TakeKeepsRefs(p, q, c);
    TakeKeepsCache(p, q, c);
    TakeKeepsPending(p, q, c, pending);
  }

  /** A write that fails, or leaves anything in its file, harms no chunk that a version maps. */
  lemma TryKeeps(p: Pool, q: Pool, data: Data, c: ChunkId, pending: set<Loc>)
    requires PoolSafe(p) && TriesOne(p, q, data, c) && PendingDead(p, pending)
    ensures PoolSafe(q) && PendingDead(q, pending) && q.refs == p.refs && Keeps(p, q, p.refs.Values)
  {
    TryTakes(p, q, data, c);
    TakeKeeps(p, q, c, pending);
  }

  lemma TryTakes(p: Pool, q: Pool, data: Data, c: ChunkId)
    requires TriesOne(p, q, data, c)
    ensures TakesOne(p, q, c) && LaidOut(q)
  {
    var g, reserved, outcomes, t :| IsPick(p.chunks, reserved, 1) && LaidOut(g) &&
      Grants(p, g, [data], reserved, [c]) && Persisted(g, q, [c], [data], outcomes, t);
    AddedOthers(p, g, q, [data], reserved, [c], outcomes, t);
    TriedOne(p, g, q, data, c, outcomes, t, reserved);
  }

  lemma TriedOne(p: Pool, g: Pool, q: Pool, data: Data, c: ChunkId, outcomes: seq<Outcome>, t: Trace,
                 reserved: seq<ChunkId>)
    requires LaidOut(g) && Grants(p, g, [data], reserved, [c]) && Persisted(g, q, [c], [data], outcomes, t)
    requires OthersKept(p, q, [c]) && q.refs == p.refs && q.caches == p.caches
    requires forall d | d in [c] && d < |p.chunks| :: p.chunks[d].status == Reserved
    ensures TakesOne(p, q, c)
  {
    PersistedOthers(g, q, [c], [data], outcomes, t);
    assert [c][0] == c && c in [c];
    assert Carries(g.chunks[[c][0]], [data][0]);
    forall l: Loc | l != q.chunks[c].loc ensures SameFile(p.files, q.files, l) {
      assert Elsewhere(g.chunks, [c], 1, l);
    }
  }

  /** One slot is given out and written to, well or badly; nothing else changes. */
  ghost predicate TakesOne(p: Pool, q: Pool, c: ChunkId) {
    && p.paths <= q.paths && q.refs == p.refs && q.caches == p.caches
    && c < |q.chunks| && |p.chunks| <= |q.chunks| && IsData(q.chunks[c])
    && (c < |p.chunks| ==> p.chunks[c].status == Reserved)
    && (forall d | 0 <= d < |p.chunks| ::
          q.chunks[d].loc == p.chunks[d].loc && q.chunks[d].kind == p.chunks[d].kind &&
            (d != c ==> q.chunks[d] == p.chunks[d]))
    && (forall d | |p.chunks| <= d < |q.chunks| :: q.chunks[d].loc.path >= p.paths)
    && (forall l | l != q.chunks[c].loc :: SameFile(p.files, q.files, l))
  }

  /** What storing one chunk comes to. */
  ghost predicate AddsOne(p: Pool, q: Pool, data: Data, c: ChunkId) {
    TakesOne(p, q, c) && Carries(q.chunks[c], data) && q.chunks[c].loc in q.files && q.files[q.chunks[c].loc] == data
  }

  lemma StoredOne(p: Pool, g: Pool, q: Pool, data: Data, c: ChunkId, reserved: seq<ChunkId>, outcomes: seq<Outcome>,
                  t: Trace)
    requires LaidOut(g) && Grants(p, g, [data], reserved, [c]) && Persisted(g, q, [c], [data], outcomes, t)
    requires HoldsItems(q, [c], [data]) && OthersKept(p, q, [c]) && q.refs == p.refs && q.caches == p.caches
    requires q.chunks == g.chunks
    requires forall d | d in [c] && d < |p.chunks| :: p.chunks[d].status == Reserved
    ensures AddsOne(p, q, data, c)
  {
    PersistedOthers(g, q, [c], [data], outcomes, t);
    assert [c][0] == c && c in [c];
    forall l: Loc | l != q.chunks[c].loc ensures SameFile(p.files, q.files, l) {
      assert Elsewhere(g.chunks, [c], 1, l);
    }
  }

  lemma TakeKeepsSlots(p: Pool, q: Pool, c: ChunkId)
    requires SlotsEmpty(p) && PathsApart(q) && TakesOne(p, q, c)
    ensures SlotsEmpty(q)
  {
    forall d | 0 <= d < |q.chunks| && q.chunks[d].kind == DataChunk && q.chunks[d].status == Reserved
      ensures q.chunks[d].loc !in q.files
    {
      assert SameFile(p.files, q.files, q.chunks[d].loc);
    }
    forall l | l in q.files ensures l.path < q.paths {
      if l != q.chunks[c].loc { assert SameFile(p.files, q.files, l); }
    }
  }

  lemma TakeKeepsPending(p: Pool, q: Pool, c: ChunkId, pending: set<Loc>)
    requires TakesOne(p, q, c) && PendingDead(p, pending)
    ensures PendingDead(q, pending)
  {
  }

  lemma TakeKeepsRefs(p: Pool, q: Pool, c: ChunkId)
    requires TakesOne(p, q, c) && RefsSafe(p) && PathsApart(q)
    ensures RefsSafe(q) && c !in p.refs.Values && Keeps(p, q, p.refs.Values)
  {
    forall d | 0 <= d < |p.chunks| && d != c ensures SameFile(p.files, q.files, p.chunks[d].loc) {
    }
  }

  lemma TakeKeepsCache(p: Pool, q: Pool, c: ChunkId)
    requires CacheSound(p) && SlotsEmpty(q) && PathsApart(q) && TakesOne(p, q, c)
    ensures CacheSound(q) && (AllAgree(p) ==> AllAgree(q))
  {
    forall d | 0 <= d < |p.chunks| && d !in [c]
      ensures q.chunks[d] == p.chunks[d] && SameFile(p.files, q.files, p.chunks[d].loc)
    {
      assert d != c;
    }
    assert !IsCached(p, c) || c >= |p.chunks|;
    forall l: Loc | l.path < p.paths && NoChunkAt(p, l) ensures SameFile(p.files, q.files, l) {
    }
    WriteKeeps(p, q, [c]);
  }

  // ----- reading and evicting -----

  lemma AccessKeeps(p: Pool, q: Pool, disks: seq<DiskId>, ids: seq<ChunkId>, data: seq<Data>, copies: map<ChunkId, nat>,
                    pending: set<Loc>)
    requires PoolSafe(p) && PendingDead(p, pending) && Accessed(p, q, disks, ids, data, copies) && |data| == |ids|
    requires forall k | 0 <= k < |ids| :: ids[k] < |p.chunks| && ReadOne(p, ids[k]) == Some(data[k])
    ensures PoolSafe(q) && PendingDead(q, pending) && q.refs == p.refs && Keeps(p, q, p.refs.Values)
  {
    AccessKeepsSoundness(p, q, disks, ids, data, copies);
    if disks != [] {
      AccessKeepsRefs(p, q, disks, ids, data, copies);
      AccessKeepsPending(p, q, disks, ids, data, copies, pending);
    }
  }

  lemma AccessKeepsRefs(p: Pool, q: Pool, disks: seq<DiskId>, ids: seq<ChunkId>, data: seq<Data>,
                        copies: map<ChunkId, nat>)
    requires disks != [] && LaidOut(p) && RefsSafe(p) && Accessed(p, q, disks, ids, data, copies)
    ensures LaidOut(q) && RefsSafe(q) && Keeps(p, q, p.refs.Values)
  {
    forall c | 0 <= c < |p.chunks| ensures SameFile(p.files, q.files, p.chunks[c].loc) {
    }
    SameSlotsKeep(p, q);
  }

  lemma AccessKeepsPending(p: Pool, q: Pool, disks: seq<DiskId>, ids: seq<ChunkId>, data: seq<Data>,
                           copies: map<ChunkId, nat>, pending: set<Loc>)
    requires disks != [] && PendingDead(p, pending) && Accessed(p, q, disks, ids, data, copies)
    ensures PendingDead(q, pending)
  {
    forall c | c in q.caches && q.caches[c].path.Some? ensures CopyFile(q.caches[c]) !in pending {
      AccessedPath(p, q, disks, ids, data, copies, c);
      if c !in copies { AccessedCopy(p, q, disks, ids, data, copies, c); }
    }
  }

  lemma AccessedCopy(p: Pool, q: Pool, disks: seq<DiskId>, ids: seq<ChunkId>, data: seq<Data>,
                     copies: map<ChunkId, nat>, c: ChunkId)
    requires disks != [] && Accessed(p, q, disks, ids, data, copies) && c in q.caches && q.caches[c].path.Some?
    requires c !in copies
    ensures c in p.caches && CopyFile(q.caches[c]) == CopyFile(p.caches[c])
  {
  }

  lemma EvictKeepsAll(p: Pool, q: Pool, gone: set<ChunkId>, pending: set<Loc>)
    requires PoolSafe(p) && PendingDead(p, pending) && Evicted(p, q, gone)
    ensures PoolSafe(q) && PendingDead(q, pending) && q.refs == p.refs && Keeps(p, q, p.refs.Values)
  {
    EvictKeeps(p, q, gone);
    SameSlotsKeep(p, q);
  }

  // ----- overwriting -----

  /** Overwriting chunks, whatever their disks do, leaves every mapped chunk with the digest of its
      bytes, and changes no other chunk. */
  lemma OverwriteKeepsAll(p: Pool, q: Pool, items: seq<WriteItem>, outcomes: seq<Outcome>, pending: set<Loc>)
    requires PoolSafe(p) && PendingDead(p, pending) && Overwrites(p, q, items, outcomes)
    ensures PoolSafe(q) && PendingDead(q, pending) && q.refs == p.refs
    ensures Keeps(p, q, p.refs.Values - Members(IdsOf(items)))
  {
    hide CacheSound, Persisted, LaidOut;
    OverwriteAgrees(p, q, items, outcomes);
    OverwriteFrame(p, q, items, outcomes);
    forall s | s in q.refs ensures Stored(q, q.refs[s]) {
      OverwrittenIsStored(p, q, items, outcomes, p.refs[s]);
    }
  }

  lemma OverwriteFrame(p: Pool, q: Pool, items: seq<WriteItem>, outcomes: seq<Outcome>)
    requires LaidOut(p) && CacheSound(p) && Overwrites(p, q, items, outcomes)
    ensures LaidOut(q) && OthersKept(p, q, IdsOf(items)) && q.refs == p.refs && q.paths == p.paths
    ensures |q.chunks| == |p.chunks| && forall c | 0 <= c < |p.chunks| :: q.chunks[c].loc == p.chunks[c].loc
    ensures forall c | c in q.caches :: c in p.caches && q.caches[c] == p.caches[c]
  {
    hide Persisted, CacheSound, LaidOut;
    var d, f, t :| Evicted(p, d, set c | c in IdsOf(items)) && RowsFilled(d, f, items)
      && Persisted(f, q, IdsOf(items), DataOf(items), outcomes, t);
    EvictKeeps(p, d, set c | c in IdsOf(items));
    FilledSlots(p, f, items);
    FilledPaths(d, f, items);
    PersistedOthers(f, q, IdsOf(items), DataOf(items), outcomes, t);
    SameSlotsKeep(f, q);
  }

  lemma FilledSlots(p: Pool, f: Pool, items: seq<WriteItem>)
    requires LaidOut(p) && f == p.(chunks := f.chunks, caches := f.caches, files := f.files)
    requires RowsFilled(p.(caches := f.caches, files := f.files), f, items)
    ensures LaidOut(f)
  {
    forall c | 0 <= c < |p.chunks| ensures SameSlot(p.chunks[c], f.chunks[c]) && f.chunks[c].loc == p.chunks[c].loc {
      if c in IdsOf(items) { var k :| 0 <= k < |items| && IdsOf(items)[k] == c; }
    }
    SameSlotsKeep(p, f);
  }

  lemma OverwrittenIsStored(p: Pool, q: Pool, items: seq<WriteItem>, outcomes: seq<Outcome>, c: ChunkId)
    requires CacheSound(p) && LaidOut(p) && Overwrites(p, q, items, outcomes) && Stored(p, c)
    ensures Stored(q, c)
  {
    hide Persisted, CacheSound, LaidOut;
    OverwriteFrame(p, q, items, outcomes);
    if c in IdsOf(items) {
      var k :| 0 <= k < |items| && IdsOf(items)[k] == c;
      var d, f, t :| Evicted(p, d, set c | c in IdsOf(items)) && RowsFilled(d, f, items)
        && Persisted(f, q, IdsOf(items), DataOf(items), outcomes, t);
      EvictKeeps(p, d, set c | c in IdsOf(items));
      FilledPaths(d, f, items);
      PersistedOthers(f, q, IdsOf(items), DataOf(items), outcomes, t);
      PersistedDescribes(f, q, IdsOf(items), DataOf(items), outcomes, t, k);
    }
  }

  // ----- parity -----

  lemma RoundKeeps(code: Code, p: Pool, q: Pool, pending: set<Loc>)
    requires PoolSafe(p) && PendingDead(p, pending) && RoundDone(code, p, q)
    ensures PoolSafe(q) && PendingDead(q, pending) && q.refs == p.refs && Keeps(p, q, p.refs.Values)
  {
    hide LaidOut, CacheSound;
    RoundKeepsSlots(code, p, q);
    RoundKeepsData(code, p, q);
  }

  lemma RoundKeepsSlots(code: Code, p: Pool, q: Pool)
    requires LaidOut(p) && CacheSound(p) && RoundDone(code, p, q)
    ensures LaidOut(q) && SlotsEmpty(p) && CacheSound(q)
  {
    hide Encoded, ParityShard, Computed, FilesComputed;
    RoundKeepsData(code, p, q);
    forall c | c in q.caches && c < |q.chunks| && q.chunks[c].kind == DataChunk && IsCached(q, c)
      ensures IsData(q.chunks[c]) && SourceRead(q, c) == ReadOne(q, c)
    {
      assert NoChunkAt(p, CopyFile(p.caches[c]));
      assert SameFile(p.files, q.files, CopyFile(p.caches[c]));
    }
  }

  // ----- deleting files released before -----

  lemma DeleteKeeps(p: Pool, q: Pool, l: Loc, pending: set<Loc>)
    requires PoolSafe(p) && PendingDead(p, pending) && l in pending && q == p.(files := p.files - {l})
    ensures PoolSafe(q) && PendingDead(q, pending - {l}) && q.refs == p.refs && Keeps(p, q, p.refs.Values)
  {
    hide LaidOut, SlotsEmpty, PathsApart, CopiesApart, Coherent, EntriesKnown;
    assert NoChunkAt(p, l) && NoCopyAt(p, l);
    DeleteKeepsLayout(p, q);
    DeleteKeepsCache(p, q, l);
  }

  lemma DeleteKeepsLayout(p: Pool, q: Pool)
    requires LaidOut(p) && q == p.(files := q.files)
    ensures LaidOut(q)
  {
    SameSlotsKeep(p, q);
  }

  lemma DeleteKeepsCache(p: Pool, q: Pool, l: Loc)
    requires CacheSound(p) && NoChunkAt(p, l) && NoCopyAt(p, l) && q == p.(files := p.files - {l})
    ensures CacheSound(q)
  {
  }

  // ----- changing the mapping -----

  lemma RefsKeep(p: Pool, q: Pool, pending: set<Loc>)
    requires PoolSafe(p) && PendingDead(p, pending) && q == p.(refs := q.refs)
    requires forall s | s in q.refs :: Stored(p, q.refs[s])
    ensures PoolSafe(q) && PendingDead(q, pending)
  {
    hide LaidOut, CacheSound;
    RefsKeepSlots(p, q);
  }

  lemma RefsKeepSlots(p: Pool, q: Pool)
    requires LaidOut(p) && CacheSound(p) && q == p.(refs := q.refs)
    ensures LaidOut(q) && CacheSound(q)
  {
    SameSlotsKeep(p, q);
  }

  // ----- releasing -----

  /** The files a release leaves to be deleted later, other than parity files: the path of
      a parity chunk stays its own, and is written again. */
  ghost function StaleData(p: Pool, ids: seq<ChunkId>, dropped: set<ChunkId>): set<Loc> {
    FilesOf(p, Freed(p, ids), dropped)
  }

  lemma ReleaseKeepsSlots(p: Pool, q: Pool, ids: seq<ChunkId>, stale: seq<Loc>, dropped: set<ChunkId>)
    requires LaidOut(p) && SlotsEmpty(p) && Released(p, q, ids, stale, dropped)
    ensures LaidOut(q) && SlotsEmpty(q)
    ensures forall c | c in p.refs.Values && c < |p.chunks| && p.chunks[c].kind == DataChunk ::
              q.chunks[c] == p.chunks[c]
    ensures forall c | 0 <= c < |p.chunks| ::
              q.chunks[c].kind == p.chunks[c].kind &&
                (q.chunks[c].loc == p.chunks[c].loc || q.chunks[c].loc.path >= p.paths)
  {
    ReleaseKeepsLayout(p, q, ids, stale, dropped);
  }

  lemma ReleaseKeepsCache(p: Pool, q: Pool, ids: seq<ChunkId>, stale: seq<Loc>, dropped: set<ChunkId>)
    requires LaidOut(p) && CacheSound(p) && Released(p, q, ids, stale, dropped)
    ensures CacheSound(q)
  {
    ReleaseKeepsSlots(p, q, ids, stale, dropped);
    forall c | c in q.caches && c < |q.chunks| && q.chunks[c].kind == DataChunk && IsCached(q, c)
      ensures IsData(q.chunks[c]) && SourceRead(q, c) == ReadOne(q, c)
    {
      assert c !in Freed(p, ids) && q.chunks[c] == p.chunks[c];
      assert IsCached(p, c);
    }
  }

  /** Whatever a release leaves to be deleted, except parity files, is not in use any more. */
  lemma ReleasePending(p: Pool, q: Pool, ids: seq<ChunkId>, stale: seq<Loc>, dropped: set<ChunkId>, l: Loc)
    requires LaidOut(p) && CacheSound(p) && Released(p, q, ids, stale, dropped) && l in StaleData(p, ids, dropped)
    ensures l.path < q.paths && NoChunkAt(q, l) && NoCopyAt(q, l)
  {
    if c :| c in Freed(p, ids) && c < |p.chunks| && p.chunks[c].loc == l {
      FreedFile(p, q, ids, stale, dropped, c);
    } else {
      var c :| c in dropped && c in p.caches && p.caches[c].path.Some? && CopyFile(p.caches[c]) == l;
      DroppedCopy(p, q, ids, stale, dropped, c);
    }
  }

  lemma FreedFile(p: Pool, q: Pool, ids: seq<ChunkId>, stale: seq<Loc>, dropped: set<ChunkId>, c: ChunkId)
    requires PathsApart(p) && CopiesApart(p) && Released(p, q, ids, stale, dropped) && c in Freed(p, ids)
    requires c < |p.chunks|
    ensures var l := p.chunks[c].loc; l.path < q.paths && NoChunkAt(q, l) && NoCopyAt(q, l)
  {
    forall k | 0 <= k < |q.chunks| ensures q.chunks[k].loc != p.chunks[c].loc {
      assert k < c ==> p.chunks[k].loc.path != p.chunks[c].loc.path;
      assert c < k ==> p.chunks[c].loc.path != p.chunks[k].loc.path;
    }
  }

  lemma DroppedCopy(p: Pool, q: Pool, ids: seq<ChunkId>, stale: seq<Loc>, dropped: set<ChunkId>, c: ChunkId)
    requires CopiesApart(p) && Released(p, q, ids, stale, dropped) && c in dropped && c in p.caches
    requires p.caches[c].path.Some?
    ensures var l := CopyFile(p.caches[c]); l.path < q.paths && NoChunkAt(q, l) && NoCopyAt(q, l)
  {
  }

  lemma ReleaseKeepsPending(p: Pool, q: Pool, ids: seq<ChunkId>, stale: seq<Loc>, dropped: set<ChunkId>,
                            pending: set<Loc>)
    requires LaidOut(p) && CacheSound(p) && Released(p, q, ids, stale, dropped) && PendingDead(p, pending)
    ensures PendingDead(q, pending + StaleData(p, ids, dropped))
  {
    ReleaseKeepsSlots(p, q, ids, stale, dropped);
    forall l | l in pending + StaleData(p, ids, dropped) ensures l.path < q.paths && NoChunkAt(q, l) && NoCopyAt(q, l) {
      if l in StaleData(p, ids, dropped) {
        ReleasePending(p, q, ids, stale, dropped, l);
      } else {
        assert NoChunkAt(p, l);
      }
    }
  }

  lemma ReleaseKeepsAll(p: Pool, q: Pool, ids: seq<ChunkId>, stale: seq<Loc>, dropped: set<ChunkId>, pending: set<Loc>)
    requires PoolSafe(p) && PendingDead(p, pending) && Released(p, q, ids, stale, dropped)
    ensures PoolSafe(q) && PendingDead(q, pending + StaleData(p, ids, dropped)) && q.refs == p.refs
    ensures Keeps(p, q, p.refs.Values)
  {
    ReleaseKeepsSlots(p, q, ids, stale, dropped);
    ReleaseKeepsCache(p, q, ids, stale, dropped);
    ReleaseKeepsPending(p, q, ids, stale, dropped, pending);
    assert forall s | s in p.refs :: p.refs[s] in p.refs.Values;
  }
}
