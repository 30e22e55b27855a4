/** The read cache: copies of hot chunks on cache disks. */
module ReadCache {
  import opened Bytes
  import opened Wrappers
  import opened Tables
  import opened Database
  import opened Sequences
  import opened Layout
  import opened Release

  /** A chunk read more often than this is copied to a cache disk. */
  const CACHE_PROMOTE_THRESHOLD := 5

  /** Where a copy of chunk `c` goes. */
  function PickCacheDisk(disks: seq<DiskId>, c: ChunkId): DiskId
    requires disks != []
  {
    disks[c % |disks|]
  }

  function IsCached(p: Pool, c: ChunkId): bool {
    c in p.caches && p.caches[c].path.Some? && CopyFile(p.caches[c]) in p.files
  }

  /** A read: the cached copy if there is one, else the source disk. */
  function ReadOne(p: Pool, c: ChunkId): Option<Data>
    requires c < |p.chunks|
  {
    if IsCached(p, c) then Some(p.files[CopyFile(p.caches[c])])
    else SourceRead(p, c)
  }

  /** A read that goes to the source disk directly. */
  function SourceRead(p: Pool, c: ChunkId): Option<Data>
    requires c < |p.chunks|
  {
    if p.chunks[c].loc in p.files then Some(p.files[p.chunks[c].loc]) else None
  }

  // ----- what every state keeps -----

  /** Copies are in files of their own. */
  ghost predicate CopiesApart(p: Pool) {
    && (forall c | c in p.caches && p.caches[c].path.Some? :: p.caches[c].path.value < p.paths)
    && (forall c, k | c in p.caches && p.caches[c].path.Some? && 0 <= k < |p.chunks| ::
              p.chunks[k].loc.path != p.caches[c].path.value)
    && (forall c, d | c in p.caches && d in p.caches && c != d && p.caches[c].path.Some? && p.caches[d].path.Some? ::
          p.caches[c].path.value != p.caches[d].path.value)
  }

  /** A read by way of the cache, of a chunk of either kind, returns what the source disk holds.
      Not every step keeps this for parity chunks. */
  ghost predicate AllAgree(p: Pool) { forall c | 0 <= c < |p.chunks| :: ReadOne(p, c) == SourceRead(p, c) }

  /** A cached copy of a data chunk has the bytes of the source. */
  ghost predicate Coherent(p: Pool) {
    forall c | c in p.caches && c < |p.chunks| && p.chunks[c].kind == DataChunk && IsCached(p, c) ::
      IsData(p.chunks[c]) && SourceRead(p, c) == ReadOne(p, c)
  }

  ghost predicate EntriesKnown(p: Pool) { forall c | c in p.caches :: c < |p.chunks| }

  ghost predicate CacheSound(p: Pool) {
    PathsApart(p) && SlotsEmpty(p) && CopiesApart(p) && Coherent(p) && EntriesKnown(p)
  }

  // ----- reading -----

  predicate Promotes(caches: map<ChunkId, CacheEntry>, c: ChunkId) {
    c in caches && caches[c].path.None? && caches[c].count > CACHE_PROMOTE_THRESHOLD
  }

  function CopyAt(disks: seq<DiskId>, c: ChunkId, path: nat): Loc
    requires disks != []
  {
    Loc(PickCacheDisk(disks, c), path)
  }

  /** The entry of a chunk after it was read; `copies` are the copies made. */
  function Read(disks: seq<DiskId>, caches: map<ChunkId, CacheEntry>, c: ChunkId, copies: map<ChunkId, nat>): CacheEntry
    requires disks != []
  {
    if c !in caches then CacheEntry(PickCacheDisk(disks, c), 1, None)
    else if !Promotes(caches, c) then caches[c].(count := caches[c].count + 1)
    else if c in copies then CacheEntry(PickCacheDisk(disks, c), caches[c].count, Some(copies[c]))
    else caches[c]
  }

  /** Copies are made of chunks that are hot enough, at new paths. */
  ghost predicate CopiesOf(caches: map<ChunkId, CacheEntry>, start: nat, paths: nat, ids: seq<ChunkId>,
                           copies: map<ChunkId, nat>)
  {
    && start <= paths
    && (forall c | c in copies :: c in ids && Promotes(caches, c) && start <= copies[c] < paths)
    && (forall c, d | c in copies && d in copies && c != d :: copies[c] != copies[d])
  }

  /** A copy holds the data that was read. */
  ghost predicate CopiesHold(files: Files, disks: seq<DiskId>, ids: seq<ChunkId>, data: seq<Data>,
                             copies: map<ChunkId, nat>)
    requires disks != [] && |data| == |ids|
  {
    forall k | 0 <= k < |ids| && ids[k] in copies ::
      CopyAt(disks, ids[k], copies[ids[k]]) in files && files[CopyAt(disks, ids[k], copies[ids[k]])] == data[k]
  }

  /** What reading some chunks does to the cache. */
  ghost predicate Accessed(p: Pool, q: Pool, disks: seq<DiskId>, ids: seq<ChunkId>, data: seq<Data>,
                           copies: map<ChunkId, nat>)
  {
    if disks == [] then q == p
    else
      && |data| == |ids| && q == p.(caches := q.caches, files := q.files, paths := q.paths)
      && CopiesOf(p.caches, p.paths, q.paths, ids, copies) && CopiesHold(q.files, disks, ids, data, copies)
      && (forall c :: c in q.caches <==> c in p.caches || c in ids)
      && (forall c | c in q.caches :: q.caches[c] == if c in ids then Read(disks, p.caches, c, copies) else p.caches[c])
      && (forall l: Loc | l.path < p.paths || l.path >= q.paths :: SameFile(p.files, q.files, l))
  }

  /** The entry of a chunk after an update; `seen` are the entries as they were loaded before the
      chunks were read, `caches` those there are now. */
  function UpdatedEntry(disks: seq<DiskId>, seen: map<ChunkId, CacheEntry>, caches: map<ChunkId, CacheEntry>,
                        read: bool, c: ChunkId, copies: map<ChunkId, nat>): CacheEntry
    requires disks != [] && (c in copies ==> c in seen)
  {
    if c in copies then CacheEntry(PickCacheDisk(disks, c), seen[c].count, Some(copies[c]))
    else if c !in caches then CacheEntry(PickCacheDisk(disks, c), 1, None)
    else if read && c in seen && !Promotes(seen, c) then caches[c].(count := caches[c].count + 1)
    else caches[c]
  }

  /** What an update does to the cache, whatever has become of the entries since. */
  ghost predicate CacheUpdated(p: Pool, q: Pool, disks: seq<DiskId>, seen: map<ChunkId, CacheEntry>, ids: seq<ChunkId>,
                          data: seq<Data>, copies: map<ChunkId, nat>)
  {
    if disks == [] then q == p
    else
      && |data| == |ids| && q == p.(caches := q.caches, files := q.files, paths := q.paths)
      && CopiesOf(seen, p.paths, q.paths, ids, copies) && CopiesHold(q.files, disks, ids, data, copies)
      && (forall c :: c in q.caches <==> c in p.caches || c in copies || (c in ids && c !in seen))
      && (forall c | c in q.caches :: q.caches[c] == UpdatedEntry(disks, seen, p.caches, c in ids, c, copies))
      && (forall l: Loc | l.path < p.paths || l.path >= q.paths :: SameFile(p.files, q.files, l))
  }

  /** An access is an update at once. */
  lemma AccessIsUpdate(p: Pool, q: Pool, disks: seq<DiskId>, ids: seq<ChunkId>, data: seq<Data>,
                       copies: map<ChunkId, nat>)
    ensures Accessed(p, q, disks, ids, data, copies) <==> CacheUpdated(p, q, disks, p.caches, ids, data, copies)
  {
  }

  // ----- an access keeps the cache sound -----

  lemma AccessedPath(p: Pool, q: Pool, disks: seq<DiskId>, ids: seq<ChunkId>, data: seq<Data>,
                     copies: map<ChunkId, nat>, c: ChunkId)
    requires disks != [] && Accessed(p, q, disks, ids, data, copies) && c in q.caches && q.caches[c].path.Some?
    ensures if c in copies then q.caches[c].path.value == copies[c]
            else c in p.caches && q.caches[c].path == p.caches[c].path
  {
  }

  lemma AccessKeepsSoundness(p: Pool, q: Pool, disks: seq<DiskId>, ids: seq<ChunkId>, data: seq<Data>,
                             copies: map<ChunkId, nat>)
    requires CacheSound(p) && Accessed(p, q, disks, ids, data, copies)
    requires |data| == |ids| && forall k | 0 <= k < |ids| :: ids[k] < |p.chunks| && ReadOne(p, ids[k]) == Some(data[k])
    ensures CacheSound(q)
  {
    AccessIsUpdate(p, q, disks, ids, data, copies);
    UpdateKeepsBooks(p, q, disks, p.caches, ids, data, copies);
    if disks != [] {
      forall c | c in q.caches && c < |q.chunks| && q.chunks[c].kind == DataChunk && IsCached(q, c)
        ensures IsData(q.chunks[c]) && SourceRead(q, c) == ReadOne(q, c)
      {
        AccessKeepsCoherent(p, q, disks, ids, data, copies, c);
      }
    }
  }

  lemma AccessKeepsCoherent(p: Pool, q: Pool, disks: seq<DiskId>, ids: seq<ChunkId>, data: seq<Data>,
                            copies: map<ChunkId, nat>, c: ChunkId)
    requires disks != [] && CacheSound(p) && Accessed(p, q, disks, ids, data, copies)
    requires forall k | 0 <= k < |ids| :: ids[k] < |p.chunks| && ReadOne(p, ids[k]) == Some(data[k])
    requires c in q.caches && c < |q.chunks| && q.chunks[c].kind == DataChunk && IsCached(q, c)
    ensures IsData(q.chunks[c]) && SourceRead(q, c) == ReadOne(q, c)
  {
    assert SameFile(p.files, q.files, p.chunks[c].loc);
    if c in copies {
      var k :| 0 <= k < |ids| && ids[k] == c;
      assert CopyFile(q.caches[c]) == CopyAt(disks, c, copies[c]);
    } else {
      assert c in p.caches && q.caches[c].path == p.caches[c].path;
      assert SameFile(p.files, q.files, CopyFile(p.caches[c]));
    }
  }

  // ----- when copies agree -----

  /** Agreement of both kinds includes that of data chunks. */
  lemma AgreeIsCoherent(p: Pool)
    requires AllAgree(p) && SlotsEmpty(p)
    ensures Coherent(p)
  {
    forall c | c in p.caches && c < |p.chunks| && p.chunks[c].kind == DataChunk && IsCached(p, c)
      ensures IsData(p.chunks[c]) && SourceRead(p, c) == ReadOne(p, c)
    {
      assert ReadOne(p, c) == SourceRead(p, c);
    }
  }

  /** An update made late, with the bytes that were read before, keeps the cache in agreement
      exactly when each chunk it copies still has those bytes. */
  lemma UpdateIff(p: Pool, q: Pool, disks: seq<DiskId>, seen: map<ChunkId, CacheEntry>, ids: seq<ChunkId>,
                  data: seq<Data>, copies: map<ChunkId, nat>)
    requires CacheSound(p) && AllAgree(p) && CacheUpdated(p, q, disks, seen, ids, data, copies) && disks != []
    requires forall k | 0 <= k < |ids| :: ids[k] < |p.chunks|
    ensures AllAgree(q) <==> forall k | 0 <= k < |ids| && ids[k] in copies :: SourceRead(p, ids[k]) == Some(data[k])
  {
    hide CacheSound;
    forall c | 0 <= c < |p.chunks|
      ensures SourceRead(q, c) == SourceRead(p, c)
      ensures c !in copies ==> ReadOne(q, c) == ReadOne(p, c)
    {
      UpdatedReads(p, q, disks, seen, ids, data, copies, c);
    }
    forall k | 0 <= k < |ids| && ids[k] in copies ensures ReadOne(q, ids[k]) == Some(data[k]) {
      CopyReads(p, q, disks, seen, ids, data, copies, k);
    }
    forall c | c in copies ensures exists k :: 0 <= k < |ids| && ids[k] == c {
    }
    if AllAgree(q) {
      forall k | 0 <= k < |ids| && ids[k] in copies ensures SourceRead(p, ids[k]) == Some(data[k]) {
        assert ReadOne(q, ids[k]) == SourceRead(q, ids[k]);
      }
    }
    if forall k | 0 <= k < |ids| && ids[k] in copies :: SourceRead(p, ids[k]) == Some(data[k]) {
      forall c | 0 <= c < |q.chunks| ensures ReadOne(q, c) == SourceRead(q, c) {
        assert ReadOne(p, c) == SourceRead(p, c);
      }
    }
  }

  /** Chunks keep their bytes, and those without a new copy are read as before. */
  lemma UpdatedReads(p: Pool, q: Pool, disks: seq<DiskId>, seen: map<ChunkId, CacheEntry>, ids: seq<ChunkId>,
                     data: seq<Data>, copies: map<ChunkId, nat>, c: ChunkId)
    requires CacheSound(p) && CacheUpdated(p, q, disks, seen, ids, data, copies) && disks != [] && c < |p.chunks|
    ensures SourceRead(q, c) == SourceRead(p, c)
    ensures c !in copies ==> ReadOne(q, c) == ReadOne(p, c)
  {
    assert SameFile(p.files, q.files, p.chunks[c].loc);
    if c in p.caches && p.caches[c].path.Some? {
      assert SameFile(p.files, q.files, CopyFile(p.caches[c]));
    }
  }

  lemma CopyReads(p: Pool, q: Pool, disks: seq<DiskId>, seen: map<ChunkId, CacheEntry>, ids: seq<ChunkId>,
                  data: seq<Data>, copies: map<ChunkId, nat>, k: nat)
    requires CacheUpdated(p, q, disks, seen, ids, data, copies) && disks != [] && k < |ids| && ids[k] in copies
    requires ids[k] < |q.chunks|
    ensures ReadOne(q, ids[k]) == Some(data[k])
  {
    assert CopyFile(q.caches[ids[k]]) == CopyAt(disks, ids[k], copies[ids[k]]);
  }

  /** The rest of what a sound cache keeps an update keeps in any case. */
  lemma UpdateKeepsBooks(p: Pool, q: Pool, disks: seq<DiskId>, seen: map<ChunkId, CacheEntry>, ids: seq<ChunkId>,
                         data: seq<Data>, copies: map<ChunkId, nat>)
    requires CacheSound(p) && CacheUpdated(p, q, disks, seen, ids, data, copies)
    requires forall k | 0 <= k < |ids| :: ids[k] < |p.chunks|
    ensures PathsApart(q) && SlotsEmpty(q) && EntriesKnown(q) && CopiesApart(q)
  {
    if disks != [] {
      UpdateKeepsCopies(p, q, disks, seen, ids, data, copies);
      forall c | c in q.caches ensures c < |q.chunks| {
        if c in ids { var k :| 0 <= k < |ids| && ids[k] == c; }
      }
      forall l | l in q.files ensures l.path < q.paths {
        assert l.path >= q.paths ==> SameFile(p.files, q.files, l);
      }
      forall k | 0 <= k < |p.chunks| ensures SameFile(p.files, q.files, p.chunks[k].loc) {
      }
    }
  }

  lemma UpdateKeepsCopies(p: Pool, q: Pool, disks: seq<DiskId>, seen: map<ChunkId, CacheEntry>, ids: seq<ChunkId>,
                          data: seq<Data>, copies: map<ChunkId, nat>)
    requires disks != [] && PathsApart(p) && CopiesApart(p) && CacheUpdated(p, q, disks, seen, ids, data, copies)
    ensures CopiesApart(q)
  {
    forall c | c in q.caches && q.caches[c].path.Some?
      ensures if c in copies then q.caches[c].path.value == copies[c]
              else c in p.caches && q.caches[c].path == p.caches[c].path
    {
    }
  }

  /** Reading keeps the copies in agreement. */
  lemma AccessAgrees(p: Pool, q: Pool, disks: seq<DiskId>, ids: seq<ChunkId>, data: seq<Data>,
                     copies: map<ChunkId, nat>)
    requires CacheSound(p) && AllAgree(p) && Accessed(p, q, disks, ids, data, copies)
    requires |data| == |ids| && forall k | 0 <= k < |ids| :: ids[k] < |p.chunks| && ReadOne(p, ids[k]) == Some(data[k])
    ensures AllAgree(q)
  {
    hide CacheSound;
    if disks != [] {
      AccessIsUpdate(p, q, disks, ids, data, copies);
      UpdateIff(p, q, disks, p.caches, ids, data, copies);
    }
  }

  // ----- reading by way of the cache -----

  /** Sorts the chunks read into first accesses, chunks to copy and others. */
  method Classify(caches: map<ChunkId, CacheEntry>, ids: seq<ChunkId>)
    returns (inserts: set<ChunkId>, promoteAt: seq<nat>, bump: set<ChunkId>)
    requires Distinct(ids)
    ensures forall c :: c in inserts <==> c in ids && c !in caches
    ensures forall c :: c in bump <==> c in ids && c in caches && !Promotes(caches, c)
    ensures Distinct(promoteAt) && forall k: nat :: k in promoteAt <==> k < |ids| && Promotes(caches, ids[k])
  {
    inserts, promoteAt, bump := {}, [], {};
    for i := 0 to |ids|
      invariant forall c :: c in inserts <==> c in ids[..i] && c !in caches
      invariant forall c :: c in bump <==> c in ids[..i] && c in caches && !Promotes(caches, c)
      invariant Distinct(promoteAt) && forall k: nat :: k in promoteAt <==> k < i && Promotes(caches, ids[k])
    {
      var c := ids[i];
      assert ids[..i + 1] == ids[..i] + [c];
      if c !in caches {
        inserts := inserts + {c};
      } else if caches[c].path.None? && caches[c].count > CACHE_PROMOTE_THRESHOLD {
        promoteAt := promoteAt + [i];
      } else {
        bump := bump + {c};
      }
    }
    assert ids[..|ids|] == ids;
  }

  /** Writes copies of hot chunks; `broken` are those the cache disk refused. */
  method Promote(db: PoolDb, disks: seq<DiskId>, seen: map<ChunkId, CacheEntry>, ids: seq<ChunkId>, data: seq<Data>,
                 promoteAt: seq<nat>, broken: set<ChunkId>)
    returns (copies: map<ChunkId, nat>)
    requires disks != [] && Distinct(ids) && |data| == |ids| && Distinct(promoteAt)
    requires forall m | 0 <= m < |promoteAt| :: promoteAt[m] < |ids| && Promotes(seen, ids[promoteAt[m]])
    modifies db`files, db`paths
    ensures CopiesOf(seen, old(db.paths), db.paths, ids, copies) && CopiesHold(db.files, disks, ids, data, copies)
    ensures forall c :: c in copies <==> c !in broken && exists m :: 0 <= m < |promoteAt| && ids[promoteAt[m]] == c
    ensures forall l: Loc | l.path < old(db.paths) || l.path >= db.paths :: SameFile(old(db.files), db.files, l)
  {
    hide Promotes, CopiesOf, CopiesHold, Made;
    copies := map[];
    ghost var p := db.State();
    NothingCopied(p, seen, disks, ids, data, promoteAt, broken);
    for k := 0 to |promoteAt|
      invariant p.paths + k == db.paths
      invariant CopiesOf(seen, p.paths, db.paths, ids, copies) && CopiesHold(db.files, disks, ids, data, copies)
      invariant Made(ids, promoteAt, broken, k, copies)
      invariant forall l: Loc | l.path < p.paths || l.path >= db.paths :: SameFile(p.files, db.files, l)
    {
      var i := promoteAt[k];
      var c := ids[i];
      OnlyOnce(ids, promoteAt, k);
      MadeMore(ids, promoteAt, broken, k, copies, db.paths);
      CopyMore(seen, p.paths, db.files, db.paths, disks, ids, data, copies, i);
      if c !in broken {
        db.files := db.files[CopyAt(disks, c, db.paths) := data[i]];
        copies := copies[c := db.paths];
      }
      db.paths := db.paths + 1;
    }
    AllMade(ids, promoteAt, broken, copies);
  }

  /** Of the first `k` chunks to promote, those whose copy was written. */
  ghost predicate Made(ids: seq<ChunkId>, promoteAt: seq<nat>, broken: set<ChunkId>, k: nat,
                       copies: map<ChunkId, nat>)
  {
    && k <= |promoteAt| && (forall m | 0 <= m < k :: promoteAt[m] < |ids|)
    && forall c :: c in copies <==> c !in broken && exists m :: 0 <= m < k && ids[promoteAt[m]] == c
  }

  lemma MadeMore(ids: seq<ChunkId>, promoteAt: seq<nat>, broken: set<ChunkId>, k: nat, copies: map<ChunkId, nat>,
                 path: nat)
    requires k < |promoteAt| && promoteAt[k] < |ids| && Made(ids, promoteAt, broken, k, copies)
    requires forall m | 0 <= m < k :: ids[promoteAt[m]] != ids[promoteAt[k]]
    ensures ids[promoteAt[k]] !in copies
    ensures var c := ids[promoteAt[k]];
            Made(ids, promoteAt, broken, k + 1, if c in broken then copies else copies[c := path])
  {
  }

  lemma AllMade(ids: seq<ChunkId>, promoteAt: seq<nat>, broken: set<ChunkId>, copies: map<ChunkId, nat>)
    requires Made(ids, promoteAt, broken, |promoteAt|, copies)
    requires forall m | 0 <= m < |promoteAt| :: promoteAt[m] < |ids|
    ensures forall c :: c in copies <==> c !in broken && exists m :: 0 <= m < |promoteAt| && ids[promoteAt[m]] == c
  {
  }

  lemma NothingCopied(p: Pool, seen: map<ChunkId, CacheEntry>, disks: seq<DiskId>, ids: seq<ChunkId>, data: seq<Data>,
                      promoteAt: seq<nat>, broken: set<ChunkId>)
    requires disks != [] && |data| == |ids|
    ensures CopiesOf(seen, p.paths, p.paths, ids, map[]) && CopiesHold(p.files, disks, ids, data, map[])
    ensures Made(ids, promoteAt, broken, 0, map[])
  {
  }

  /** One more copy, at a path of its own. */
  lemma CopyMore(seen: map<ChunkId, CacheEntry>, start: nat, files: Files, paths: nat, disks: seq<DiskId>,
                 ids: seq<ChunkId>, data: seq<Data>, copies: map<ChunkId, nat>, i: nat)
    requires disks != [] && |data| == |ids| && Distinct(ids) && i < |ids| && ids[i] !in copies
    requires Promotes(seen, ids[i])
    requires CopiesOf(seen, start, paths, ids, copies) && CopiesHold(files, disks, ids, data, copies)
    ensures CopiesOf(seen, start, paths + 1, ids, copies)
    ensures CopiesOf(seen, start, paths + 1, ids, copies[ids[i] := paths])
    ensures CopiesHold(files[CopyAt(disks, ids[i], paths) := data[i]], disks, ids, data, copies[ids[i] := paths])
  {
    hide Promotes;
  }

  lemma OnlyOnce(ids: seq<ChunkId>, at: seq<nat>, k: nat)
    requires Distinct(ids) && Distinct(at) && (forall m | 0 <= m < |at| :: at[m] < |ids|) && k < |at|
    ensures forall m | 0 <= m < k :: ids[at[m]] != ids[at[k]]
  {
    forall m | 0 <= m < k ensures ids[at[m]] != ids[at[k]] {
      assert if at[m] < at[k] then ids[at[m]] != ids[at[k]] else ids[at[k]] != ids[at[m]];
    }
  }

  /** Counts the reads and copies what is hot. `seen` are the entries loaded before the chunks
      were read; chunks that are read for the first time get an entry unless they have one by
      now, and an entry that is gone is not counted. */
  method UpdateCacheAccess(db: PoolDb, disks: seq<DiskId>, seen: map<ChunkId, CacheEntry>, ids: seq<ChunkId>,
                           data: seq<Data>, broken: set<ChunkId>)
    returns (ghost copies: map<ChunkId, nat>)
    requires Distinct(ids) && |data| == |ids|
    modifies db`caches, db`files, db`paths
    ensures CacheUpdated(old(db.State()), db.State(), disks, seen, ids, data, copies)
    ensures disks == [] ==> db.State() == old(db.State())
    ensures disks != [] ==> forall c :: c in copies <==>
              c in ids && c in seen && seen[c].path.None? && seen[c].count > 5 && c !in broken
    ensures disks != [] ==> forall c | c in copies ::
              c in db.caches && db.caches[c] == CacheEntry(disks[c % |disks|], seen[c].count, Some(copies[c]))
    ensures disks != [] ==> forall c | c in ids && c !in seen && c !in old(db.caches) ::
              c in db.caches && db.caches[c] == CacheEntry(disks[c % |disks|], 1, None)
    ensures disks != [] ==> forall c | c in old(db.caches) && c !in copies ::
              c in db.caches && db.caches[c] == old(db.caches)[c].(count := old(db.caches)[c].count +
                if c in ids && c in seen && !(seen[c].path.None? && seen[c].count > 5) then 1 else 0)
    ensures disks != [] ==> forall k | 0 <= k < |ids| && ids[k] in copies ::
              var l := Loc(disks[ids[k] % |disks|], copies[ids[k]]); l in db.files && db.files[l] == data[k]
    ensures forall c | c in db.caches :: c in old(db.caches) || (c in ids && (c in copies || c !in seen))
    ensures forall l | l in old(db.files) && l.path < old(db.paths) :: l in db.files && db.files[l] == old(db.files)[l]
  {
    hide CopiesOf, CopiesHold, Distinct, CacheUpdated, Saved;
    if |disks| == 0 {
      NothingUpdated(db.State(), seen, ids, data);
      return map[];
    }
    HotIs(seen);
    var inserts, promoteAt, bump := Classify(seen, ids);
    forall m | 0 <= m < |promoteAt| ensures promoteAt[m] < |ids| && Promotes(seen, ids[promoteAt[m]]) {
      assert promoteAt[m] in promoteAt;
    }
    ghost var p := db.State();
    var made := Promote(db, disks, seen, ids, data, promoteAt, broken);
    copies := made;
    MadeWereSeen(seen, p.paths, db.paths, ids, made);
    db.caches := Saved(disks, seen, db.caches, inserts, bump, made);
    SavedIsUpdated(p, db.State(), disks, seen, ids, data, inserts, bump, made);
    UpdatedRows(p, db.State(), disks, seen, ids, data, made);
  }

  /** A chunk is hot when it was read more than five times and has no copy. */
  lemma HotIs(caches: map<ChunkId, CacheEntry>)
    ensures forall c :: Promotes(caches, c) <==> c in caches && caches[c].path.None? && caches[c].count > 5
  {
  }

  /** The rows an update leaves, one by one. */
  lemma UpdatedRows(p: Pool, q: Pool, disks: seq<DiskId>, seen: map<ChunkId, CacheEntry>, ids: seq<ChunkId>,
                    data: seq<Data>, copies: map<ChunkId, nat>)
    requires disks != [] && CacheUpdated(p, q, disks, seen, ids, data, copies)
    ensures forall c | c in copies ::
              c in seen && c in q.caches &&
                q.caches[c] == CacheEntry(disks[c % |disks|], seen[c].count, Some(copies[c]))
    ensures forall c | c in ids && c !in seen && c !in p.caches ::
              c in q.caches && q.caches[c] == CacheEntry(disks[c % |disks|], 1, None)
    ensures forall c | c in p.caches && c !in copies ::
              c in q.caches && q.caches[c] == p.caches[c].(count := p.caches[c].count +
                if c in ids && c in seen && !(seen[c].path.None? && seen[c].count > 5) then 1 else 0)
    ensures forall k | 0 <= k < |ids| && ids[k] in copies ::
              var l := Loc(disks[ids[k] % |disks|], copies[ids[k]]); l in q.files && q.files[l] == data[k]
    ensures forall c | c in q.caches :: c in p.caches || (c in ids && (c in copies || c !in seen))
    ensures forall l | l in p.files && l.path < p.paths :: l in q.files && q.files[l] == p.files[l]
  {
    forall l | l in p.files && l.path < p.paths ensures l in q.files && q.files[l] == p.files[l] {
      assert SameFile(p.files, q.files, l);
    }
  }

  lemma NothingUpdated(p: Pool, seen: map<ChunkId, CacheEntry>, ids: seq<ChunkId>, data: seq<Data>)
    ensures CacheUpdated(p, p, [], seen, ids, data, map[])
  {
  }

  lemma MadeWereSeen(seen: map<ChunkId, CacheEntry>, start: nat, paths: nat, ids: seq<ChunkId>,
                     made: map<ChunkId, nat>)
    requires CopiesOf(seen, start, paths, ids, made)
    ensures forall c | c in made :: c in seen
  {
  }

  /** The entries with the copies, the first reads and the counts written back. */
  function Saved(disks: seq<DiskId>, seen: map<ChunkId, CacheEntry>, caches: map<ChunkId, CacheEntry>,
                 inserts: set<ChunkId>, bump: set<ChunkId>, made: map<ChunkId, nat>): map<ChunkId, CacheEntry>
    requires disks != [] && forall c | c in made :: c in seen
  {
    map c | c in caches.Keys + made.Keys + inserts ::
      if c in made then CacheEntry(PickCacheDisk(disks, c), seen[c].count, Some(made[c]))
      else if c !in caches then CacheEntry(PickCacheDisk(disks, c), 1, None)
      else if c in bump then caches[c].(count := caches[c].count + 1)
      else caches[c]
  }

  lemma SavedIsUpdated(p: Pool, q: Pool, disks: seq<DiskId>, seen: map<ChunkId, CacheEntry>, ids: seq<ChunkId>,
                       data: seq<Data>, inserts: set<ChunkId>, bump: set<ChunkId>, made: map<ChunkId, nat>)
    requires disks != [] && |data| == |ids| && forall c | c in made :: c in seen
    requires forall c :: c in inserts <==> c in ids && c !in seen
    requires forall c :: c in bump <==> c in ids && c in seen && !Promotes(seen, c)
    requires q == p.(caches := Saved(disks, seen, p.caches, inserts, bump, made), files := q.files, paths := q.paths)
    requires CopiesOf(seen, p.paths, q.paths, ids, made) && CopiesHold(q.files, disks, ids, data, made)
    requires forall l: Loc | l.path < p.paths || l.path >= q.paths :: SameFile(p.files, q.files, l)
    ensures CacheUpdated(p, q, disks, seen, ids, data, made)
  {
    hide CopiesOf, CopiesHold, Promotes;
  }

  datatype ReadResult = Chunks(data: seq<Data>) | NoIds | Offline | NotFound | Unreadable

  /** A list has as many distinct members as it is long exactly when none repeats. */
  lemma {:induction false} DistinctCount(ids: seq<ChunkId>)
    ensures |Members(ids)| <= |ids|
    ensures |Members(ids)| == |ids| <==> Distinct(ids)
  {
    if ids != [] {
      var init, last := ids[..|ids| - 1], ids[|ids| - 1];
      assert ids == init + [last];
      DistinctCount(init);
      if last in init {
        assert Members(ids) == Members(init);
      } else {
        assert Members(ids) == Members(init) + {last};
      }
    }
  }

  lemma FoundAll(ids: seq<ChunkId>, n: nat, found: set<ChunkId>)
    requires found == (set c | c in ids && c < n) && |found| == |ids|
    ensures Distinct(ids) && forall k | 0 <= k < |ids| :: ids[k] < n
  {
    DistinctCount(ids);
    assert found <= Members(ids);
    SubsetOfSize(found, Members(ids));
    forall k | 0 <= k < |ids| ensures ids[k] < n { assert ids[k] in Members(ids); }
  }

  lemma SubsetOfSize(a: set<nat>, b: set<nat>)
    requires a <= b
    ensures |a| <= |b| && (|a| == |b| ==> a == b)
  {
    if a != {} {
      var x :| x in a;
      SubsetOfSize(a - {x}, b - {x});
    } else if b != {} {
      var x :| x in b;
    }
  }

  /** The ids are those of different chunks there are. */
  ghost predicate AllFound(ids: seq<ChunkId>, n: nat) { Distinct(ids) && forall k | 0 <= k < |ids| :: ids[k] < n }

  lemma FoundIff(ids: seq<ChunkId>, n: nat, found: set<ChunkId>)
    requires found == set c | c in ids && c < n
    ensures |found| == |ids| <==> AllFound(ids, n)
  {
    if |found| == |ids| { FoundAll(ids, n, found); }
    if AllFound(ids, n) {
      DistinctCount(ids);
      assert found == Members(ids);
    }
  }

  /** Reads chunks by way of the cache, or refuses for the first reason there is. What comes back
      for data chunks is what the source disks hold, and for parity chunks as long as the copies
      made of them agree. */
  method ReadChunks(db: PoolDb, online: bool, disks: seq<DiskId>, ids: seq<ChunkId>, broken: set<ChunkId>)
    returns (r: ReadResult, ghost copies: map<ChunkId, nat>)
    requires CacheSound(db.State())
    modifies db`caches, db`files, db`paths
    ensures r.NoIds? <==> |ids| == 0
    ensures r.Offline? <==> |ids| > 0 && !online
    ensures r.NotFound? <==> |ids| > 0 && online && !AllFound(ids, |old(db.chunks)|)
    ensures r.Unreadable? <==>
              && |ids| > 0 && online && AllFound(ids, |old(db.chunks)|)
              && exists k :: 0 <= k < |ids| && ReadOne(old(db.State()), ids[k]) == None
    ensures !r.Chunks? ==> db.State() == old(db.State())
    ensures r.Chunks? ==> online && Distinct(ids) && ids != [] && |r.data| == |ids|
    ensures r.Chunks? ==> forall k | 0 <= k < |ids| ::
              ids[k] < |db.chunks| && ReadOne(old(db.State()), ids[k]) == Some(r.data[k])
    ensures r.Chunks? ==> forall k | 0 <= k < |ids| && db.chunks[ids[k]].kind == DataChunk ::
              SourceRead(old(db.State()), ids[k]) == Some(r.data[k])
    ensures r.Chunks? && AllAgree(old(db.State())) ==>
              forall k | 0 <= k < |ids| :: SourceRead(old(db.State()), ids[k]) == Some(r.data[k])
    ensures AllAgree(old(db.State())) ==> AllAgree(db.State())
    ensures r.Chunks? ==> Accessed(old(db.State()), db.State(), disks, ids, r.data, copies)
    ensures CacheSound(db.State())
  {
    hide CacheSound, AllAgree, CacheUpdated, Accessed;
    copies := map[];
    if |ids| == 0 {
      return NoIds, copies;
    }
    if !online {
      return Offline, copies;
    }
    var found := set c | c in ids && c < |db.chunks|;
    FoundIff(ids, |db.chunks|, found);
    if |found| != |ids| {
      return NotFound, copies;
    }
    var seen := db.caches;
    var results: seq<Data> := [];
    for i := 0 to |ids|
      invariant |results| == i && forall k | 0 <= k < i :: ReadOne(db.State(), ids[k]) == Some(results[k])
    {
      var c := ids[i];
      if c in seen && seen[c].path.Some? && CopyFile(seen[c]) in db.files {
        results := results + [db.files[CopyFile(seen[c])]];
      } else if db.chunks[c].loc in db.files {
        results := results + [db.files[db.chunks[c].loc]];
      } else {
        return Unreadable, copies;
      }
    }
    ghost var p := db.State();
    ReadsSource(p, ids, results);
    copies := UpdateCacheAccess(db, disks, seen, ids, results, broken);
    AccessIsUpdate(p, db.State(), disks, ids, results, copies);
    AccessKeepsSoundness(p, db.State(), disks, ids, results, copies);
    if AllAgree(p) { AccessAgrees(p, db.State(), disks, ids, results, copies); }
    r := Chunks(results);
  }

  lemma ReadsSource(p: Pool, ids: seq<ChunkId>, data: seq<Data>)
    requires CacheSound(p) && |data| == |ids|
    requires forall k | 0 <= k < |ids| :: ids[k] < |p.chunks| && ReadOne(p, ids[k]) == Some(data[k])
    ensures forall k | 0 <= k < |ids| && p.chunks[ids[k]].kind == DataChunk :: SourceRead(p, ids[k]) == Some(data[k])
    ensures AllAgree(p) ==> forall k | 0 <= k < |ids| :: SourceRead(p, ids[k]) == Some(data[k])
  {
    forall k | 0 <= k < |ids| && p.chunks[ids[k]].kind == DataChunk ensures SourceRead(p, ids[k]) == Some(data[k]) {
      if IsCached(p, ids[k]) { assert SourceRead(p, ids[k]) == ReadOne(p, ids[k]); }
    }
  }
}
