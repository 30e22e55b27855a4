/** Whether reads by way of the cache return what the source disks hold, over whole runs: those of
    Lifecycle with chunks overwritten, parity files deleted, missing chunks rewritten and cache
    updates that come late. Exactly which steps keep it so. */
module CacheRuns {
  import opened Bytes
  import opened Wrappers
  import opened Sequences
  import opened Tables
  import opened Database
  import opened Layout
  import opened ErasureCode
  import opened ChunkStore
  import opened Release
  import opened ParityWorker
  import opened ReadCache
  import opened CacheCoherence
  import opened PoolSafety
  import opened Rebuilding
  import opened Lifecycle

  // ----- the steps -----

  /** `Late` is the update that ends a read, with the entries and the bytes the read began with. */
  datatype Act =
    | Do(e: Event)
    | Overwrite(items: seq<WriteItem>, outcomes: seq<Outcome>)
    | DeleteParity(l: Loc)
    | Repair(written: map<ChunkId, Data>, saved: bool)
    | Late(disks: seq<DiskId>, seen: map<ChunkId, CacheEntry>, ids: seq<ChunkId>, data: seq<Data>,
           copies: map<ChunkId, nat>)

  /** A parity chunk has the file, computed or reset. */
  ghost predicate ParityAt(p: Pool, l: Loc) {
    exists c :: 0 <= c < |p.chunks| && p.chunks[c].kind == ParityChunk && p.chunks[c].loc == l
  }

  ghost predicate Acts(a: Life, x: Act, b: Life) {
    var p, q := a.pool, b.pool;
    match x
    case Do(e) => Step(a, e, b)
    case Overwrite(items, outcomes) => Overwrites(p, q, items, outcomes) && b == a.(pool := q)
    case DeleteParity(l) => ParityAt(p, l) && b == a.(pool := p.(files := p.files - {l}))
    case Repair(written, saved) => Repaired(p, q, written, saved) && b == a.(pool := q)
    case Late(disks, seen, ids, data, copies) =>
      && disks != [] && (forall k | 0 <= k < |ids| :: ids[k] < |p.chunks|)
      && CacheUpdated(p, q, disks, seen, ids, data, copies) && b == a.(pool := q)
  }

  // ----- the steps that can break agreement -----

  /** A copy of a parity chunk says what a round computes, a parity file that is deleted has no
      copy, a copy of a rewritten chunk says what is written, and a late update copies what is
      still there. Nothing is asked of the other steps. */
  ghost predicate Careful(a: Life, x: Act) {
    var p := a.pool;
    match x
    case Do(Round(code)) =>
      forall c | 0 <= c < |p.chunks| && IsCached(p, c) && Computed(p, Members(p.tasks), p.chunks[c]) ::
        ReadOne(p, c) == Some(ParityShard(code, p, p.chunks[c]))
    case DeleteParity(l) => forall c | 0 <= c < |p.chunks| && p.chunks[c].loc == l :: !IsCached(p, c)
    case Repair(written, _) =>
      forall c | c in written && IsCached(p, c) && c < |p.chunks| :: ReadOne(p, c) == Some(written[c])
    case Late(_, _, ids, data, copies) =>
      forall k | 0 <= k < |ids| && ids[k] in copies && ids[k] < |p.chunks| && k < |data| ::
        SourceRead(p, ids[k]) == Some(data[k])
    case _ => true
  }

  // ----- each step -----

  lemma TakeAgrees(p: Pool, q: Pool, c: ChunkId)
    requires LaidOut(q) && CacheSound(p) && AllAgree(p) && TakesOne(p, q, c)
    ensures AllAgree(q)
  {
    hide AllAgree;
    TakeKeepsSlots(p, q, c);
    TakeKeepsCache(p, q, c);
  }

  lemma PutAgrees(a: Life, e: Event, b: Life)
    requires Safe(a) && AllAgree(a.pool) && (e.Put? || e.StoreFailed?) && Step(a, e, b)
    ensures AllAgree(b.pool)
  {
    hide AllAgree, CacheSound, TakesOne, LaidOut;
    if e.Put? {
      var m: Pool :| StoresOne(a.pool, m, e.plain, e.c) && b.pool == m.(refs := m.refs[Slot(e.v, e.idx) := e.c]);
      StoreAdds(a.pool, m, e.plain, e.c);
      TakeAgrees(a.pool, m, e.c);
      RefsAgree(m, b.pool);
    } else {
      TryTakes(a.pool, b.pool, e.plain, e.c);
      TakeAgrees(a.pool, b.pool, e.c);
    }
  }

  /** The mapping does not matter. */
  lemma RefsAgree(p: Pool, q: Pool)
    requires AllAgree(p) && q == p.(refs := q.refs)
    ensures AllAgree(q)
  {
    forall c | 0 <= c < |q.chunks| ensures ReadOne(q, c) == SourceRead(q, c) {
      assert ReadOne(p, c) == SourceRead(p, c);
    }
  }

  /** A release drops the entries of what it frees, and resets parity at the same path. */
  lemma ReleaseAgrees(p: Pool, q: Pool, ids: seq<ChunkId>, stale: seq<Loc>, dropped: set<ChunkId>)
    requires AllAgree(p) && Released(p, q, ids, stale, dropped)
    ensures AllAgree(q)
  {
    forall c: nat | c < |q.chunks| ensures ReadOne(q, c) == SourceRead(q, c) {
      assert ReadOne(p, c) == SourceRead(p, c);
      if c !in Freed(p, ids) { assert q.chunks[c].loc == p.chunks[c].loc; }
    }
  }

  lemma DropAgrees(a: Life, b: Life, vs: set<VersionId>, ids: seq<ChunkId>, stale: seq<Loc>, dropped: set<ChunkId>)
    requires AllAgree(a.pool) && Drops(a, b, vs, ids, stale, dropped)
    ensures AllAgree(b.pool)
  {
    hide AllAgree, Released;
    var m := a.pool.(refs := a.pool.refs - SlotsOf(a.pool, vs));
    RefsAgree(a.pool, m);
    ReleaseAgrees(m, b.pool, ids, stale, dropped);
  }

  /** Deleting a file nobody uses. */
  lemma DeleteAgrees(p: Pool, l: Loc)
    requires AllAgree(p) && NoChunkAt(p, l) && NoCopyAt(p, l)
    ensures AllAgree(p.(files := p.files - {l}))
  {
    forall c | 0 <= c < |p.chunks|
      ensures ReadOne(p.(files := p.files - {l}), c) == SourceRead(p.(files := p.files - {l}), c)
    {
      assert ReadOne(p, c) == SourceRead(p, c);
    }
  }

  /** What a step that leaves entries and copies alone does to one chunk. */
  lemma CopyStays(p: Pool, q: Pool, c: nat)
    requires c < |p.chunks| && c < |q.chunks| && q.caches == p.caches
    requires c in p.caches && p.caches[c].path.Some? ==> SameFile(p.files, q.files, CopyFile(p.caches[c]))
    ensures IsCached(q, c) <==> IsCached(p, c)
    ensures IsCached(p, c) ==> ReadOne(q, c) == ReadOne(p, c)
  {
  }

  lemma RoundCopies(code: Code, p: Pool, q: Pool, c: nat)
    requires CopiesApart(p) && RoundDone(code, p, q) && c in p.caches && p.caches[c].path.Some?
    ensures SameFile(p.files, q.files, CopyFile(p.caches[c]))
  {
    assert !ComputedAt(p, Members(p.tasks), CopyFile(p.caches[c]));
  }

  lemma RoundSource(code: Code, p: Pool, q: Pool, c: nat)
    requires PathsApart(p) && RoundDone(code, p, q) && c < |p.chunks|
    ensures SourceRead(q, c) == if Computed(p, Members(p.tasks), p.chunks[c])
                                then Some(ParityShard(code, p, p.chunks[c])) else SourceRead(p, c)
  {
    if !Computed(p, Members(p.tasks), p.chunks[c]) {
      forall k | 0 <= k < |p.chunks| && p.chunks[k].loc == p.chunks[c].loc ensures k == c {
      }
      assert !ComputedAt(p, Members(p.tasks), p.chunks[c].loc);
    }
  }

  /** The worker rewrites parity files in place: the copies of exactly those that are to hold
      something else go stale. */
  lemma RoundAgreesIff(code: Code, a: Life, b: Life)
    requires Safe(a) && AllAgree(a.pool) && Step(a, Round(code), b)
    ensures AllAgree(b.pool) <==> Careful(a, Do(Round(code)))
  {
    hide Computed, ParityShard, RefsSafe, Coherent, SlotsEmpty;
    var p, q := a.pool, b.pool;
    forall c: nat | c < |p.chunks|
      ensures ReadOne(p, c) == SourceRead(p, c)
      ensures IsCached(q, c) <==> IsCached(p, c)
      ensures IsCached(p, c) ==> ReadOne(q, c) == ReadOne(p, c)
      ensures SourceRead(q, c) == if Computed(p, Members(p.tasks), p.chunks[c])
                                  then Some(ParityShard(code, p, p.chunks[c])) else SourceRead(p, c)
    {
      if c in p.caches && p.caches[c].path.Some? { RoundCopies(code, p, q, c); }
      CopyStays(p, q, c);
      RoundSource(code, p, q, c);
    }
    SameVerdicts(p, q);
  }

  /** Reads agree exactly where the cached ones do. */
  lemma SameVerdicts(p: Pool, q: Pool)
    ensures AllAgree(q) <==> forall c | 0 <= c < |q.chunks| && IsCached(q, c) :: ReadOne(q, c) == SourceRead(q, c)
  {
  }

  /** Deleting a parity file breaks agreement exactly when the chunk has a copy. */
  lemma DeleteParityAgreesIff(a: Life, l: Loc, b: Life)
    requires Safe(a) && AllAgree(a.pool) && Acts(a, DeleteParity(l), b)
    ensures AllAgree(b.pool) <==> Careful(a, DeleteParity(l))
  {
    hide RefsSafe, Coherent, SlotsEmpty;
    var p, q := a.pool, b.pool;
    var d :| 0 <= d < |p.chunks| && p.chunks[d].kind == ParityChunk && p.chunks[d].loc == l;
    forall c: nat | c < |p.chunks|
      ensures ReadOne(p, c) == SourceRead(p, c)
      ensures IsCached(q, c) <==> IsCached(p, c)
      ensures IsCached(p, c) ==> ReadOne(q, c) == ReadOne(p, c)
      ensures SourceRead(q, c) == if p.chunks[c].loc == l then None else SourceRead(p, c)
    {
      CopyStays(p, q, c);
    }
    SameVerdicts(p, q);
  }

  lemma RepairCopies(p: Pool, q: Pool, written: map<ChunkId, Data>, saved: bool, c: nat)
    requires CopiesApart(p) && Repaired(p, q, written, saved) && c in p.caches && p.caches[c].path.Some?
    ensures SameFile(p.files, q.files, CopyFile(p.caches[c]))
  {
    assert !WrittenAt(p, written, CopyFile(p.caches[c]));
  }

  lemma RepairSource(p: Pool, q: Pool, written: map<ChunkId, Data>, saved: bool, c: nat)
    requires PathsApart(p) && Repaired(p, q, written, saved) && c < |p.chunks|
    ensures SourceRead(q, c) == if c in written then Some(written[c]) else SourceRead(p, c)
    ensures q.chunks[c].loc == p.chunks[c].loc
  {
    if c !in written {
      forall k | 0 <= k < |p.chunks| && p.chunks[k].loc == p.chunks[c].loc ensures k == c {
      }
      assert !WrittenAt(p, written, p.chunks[c].loc);
    }
  }

  lemma RepairAgreesIff(a: Life, written: map<ChunkId, Data>, saved: bool, b: Life)
    requires Safe(a) && AllAgree(a.pool) && Acts(a, Repair(written, saved), b)
    ensures AllAgree(b.pool) <==> Careful(a, Repair(written, saved))
  {
    hide RefsSafe, Coherent, SlotsEmpty;
    var p, q := a.pool, b.pool;
    forall c: nat | c < |p.chunks|
      ensures ReadOne(p, c) == SourceRead(p, c)
      ensures IsCached(q, c) <==> IsCached(p, c)
      ensures IsCached(p, c) ==> ReadOne(q, c) == ReadOne(p, c)
      ensures SourceRead(q, c) == if c in written then Some(written[c]) else SourceRead(p, c)
    {
      if c in p.caches && p.caches[c].path.Some? { RepairCopies(p, q, written, saved, c); }
      CopyStays(p, q, c);
      RepairSource(p, q, written, saved, c);
    }
    SameVerdicts(p, q);
  }

  lemma LateAgreesIff(a: Life, x: Act, b: Life)
    requires Safe(a) && AllAgree(a.pool) && x.Late? && Acts(a, x, b)
    ensures AllAgree(b.pool) <==> Careful(a, x)
  {
    hide AllAgree, CacheSound, LaidOut;
    UpdateIff(a.pool, b.pool, x.disks, x.seen, x.ids, x.data, x.copies);
  }

  // ----- what stays in any case -----

  /** Rewriting chunks that are missing harms none that is mapped. */
  lemma RepairKeeps(p: Pool, q: Pool, written: map<ChunkId, Data>, saved: bool, pending: set<Loc>)
    requires PoolSafe(p) && PendingDead(p, pending) && Repaired(p, q, written, saved)
    ensures LaidOut(q) && SlotsEmpty(q) && CopiesApart(q) && EntriesKnown(q) && RefsSafe(q) && PendingDead(q, pending)
  {
    RepairSlots(p, q, written, saved);
    forall s | s in q.refs ensures Stored(q, q.refs[s]) {
      assert Stored(p, p.refs[s]);
      RepairSource(p, q, written, saved, p.refs[s]);
    }
  }

  lemma RepairSlots(p: Pool, q: Pool, written: map<ChunkId, Data>, saved: bool)
    requires LaidOut(p) && SlotsEmpty(p) && Repaired(p, q, written, saved)
    ensures LaidOut(q) && SlotsEmpty(q)
  {
    SameSlotsKeep(p, q);
    forall c: nat | c < |q.chunks| && q.chunks[c].kind == DataChunk && q.chunks[c].status == Reserved
      ensures q.chunks[c].loc !in q.files
    {
      RepairSource(p, q, written, saved, c);
      assert SourceRead(q, c) == SourceRead(p, c);
    }
    forall l | l in q.files ensures l.path < q.paths {
      if !WrittenAt(p, written, l) { assert SameFile(p.files, q.files, l); }
    }
  }

  lemma DeleteParityKeeps(p: Pool, l: Loc, pending: set<Loc>)
    requires PoolSafe(p) && PendingDead(p, pending) && ParityAt(p, l)
    ensures var q := p.(files := p.files - {l});
            && LaidOut(q) && SlotsEmpty(q) && CopiesApart(q) && EntriesKnown(q) && RefsSafe(q)
            && PendingDead(q, pending)
  {
    hide LaidOut, CopiesApart, PendingDead;
    var q := p.(files := p.files - {l});
    FilesLaidOut(p, q);
    FilesOnly(p, q, pending);
    forall s | s in q.refs ensures Stored(q, q.refs[s]) {
      assert Stored(p, p.refs[s]);
      NotDataFile(p, l, p.refs[s]);
    }
  }

  lemma NotDataFile(p: Pool, l: Loc, c: ChunkId)
    requires PathsApart(p) && ParityAt(p, l) && c < |p.chunks| && IsData(p.chunks[c])
    ensures p.chunks[c].loc != l
  {
  }

  /** What does not look at the files. */
  lemma FilesLaidOut(p: Pool, q: Pool)
    requires LaidOut(p) && q == p.(files := q.files)
    ensures LaidOut(q) && PathsApart(p)
  {
    SameSlotsKeep(p, q);
  }

  lemma FilesOnly(p: Pool, q: Pool, pending: set<Loc>)
    requires q == p.(files := q.files) && CopiesApart(p) && EntriesKnown(p) && PendingDead(p, pending)
    ensures CopiesApart(q) && EntriesKnown(q) && PendingDead(q, pending)
  {
  }

  lemma LateKeeps(a: Life, x: Act, b: Life)
    requires Safe(a) && x.Late? && Acts(a, x, b)
    ensures var q := b.pool;
            && LaidOut(q) && SlotsEmpty(q) && CopiesApart(q) && EntriesKnown(q) && RefsSafe(q)
            && PendingDead(q, b.pending)
  {
    hide CopiesApart, SlotsEmpty, EntriesKnown, Coherent;
    var p, q := a.pool, b.pool;
    UpdateKeepsBooks(p, q, x.disks, x.seen, x.ids, x.data, x.copies);
    LateSlots(p, q);
    LateRefs(p, q, x);
    LatePending(p, q, x, a.pending);
  }

  lemma LateSlots(p: Pool, q: Pool)
    requires LaidOut(p) && PathsApart(q) && q == p.(caches := q.caches, files := q.files, paths := q.paths)
    ensures LaidOut(q)
  {
    SameSlotsKeep(p, q);
  }

  lemma LateRefs(p: Pool, q: Pool, x: Act)
    requires RefsSafe(p) && PathsApart(p) && x.Late? && x.disks != []
    requires CacheUpdated(p, q, x.disks, x.seen, x.ids, x.data, x.copies)
    ensures RefsSafe(q)
  {
    forall s | s in q.refs ensures Stored(q, q.refs[s]) {
      assert SameFile(p.files, q.files, p.chunks[p.refs[s]].loc);
    }
  }

  lemma LatePending(p: Pool, q: Pool, x: Act, pending: set<Loc>)
    requires PendingDead(p, pending) && x.Late? && x.disks != []
    requires CacheUpdated(p, q, x.disks, x.seen, x.ids, x.data, x.copies)
    ensures PendingDead(q, pending)
  {
    forall c | c in q.caches && q.caches[c].path.Some? ensures CopyFile(q.caches[c]) !in pending {
      if c !in x.copies { assert c in p.caches && CopyFile(q.caches[c]) == CopyFile(p.caches[c]); }
    }
  }

  /** The bytes of mapped chunks are safe whatever the cache says. */
  ghost predicate Stable(a: Life) {
    && LaidOut(a.pool) && SlotsEmpty(a.pool) && CopiesApart(a.pool) && EntriesKnown(a.pool) && RefsSafe(a.pool)
    && PendingDead(a.pool, a.pending)
    && (forall s | s in a.pool.refs :: s.version < a.used)
    && (forall v | v in a.versions :: v < a.used)
    && (forall v | v in a.writing :: v < a.used)
  }

  lemma StableIsSafe(a: Life)
    requires Stable(a) && AllAgree(a.pool)
    ensures Safe(a)
  {
    AgreeIsCoherent(a.pool);
  }

  lemma ActKeeps(a: Life, x: Act, b: Life)
    requires Safe(a) && Acts(a, x, b)
    ensures Stable(b)
  {
    match x
    case Do(e) => StepSafe(a, e, b);
    case Overwrite(items, outcomes) => OverwriteKeepsAll(a.pool, b.pool, items, outcomes, a.pending);
    case DeleteParity(l) => DeleteParityKeeps(a.pool, l, a.pending);
    case Repair(written, saved) => RepairKeeps(a.pool, b.pool, written, saved, a.pending);
    case Late(_, _, _, _, _) => LateKeeps(a, x, b);
  }

  lemma PlainAgrees(a: Life, e: Event, b: Life)
    requires Safe(a) && AllAgree(a.pool) && Step(a, e, b) && !e.Round?
    ensures AllAgree(b.pool)
  {
    hide AllAgree, CacheSound, LaidOut, RefsSafe, Released, Accessed, Evicted;
    match e
    case Put(_, _, _, _) => PutAgrees(a, e, b);
    case StoreFailed(_, _) => PutAgrees(a, e, b);
    case Purge(gone, ids, stale, dropped) => DropAgrees(a, b, VersionsOf(a, gone), ids, stale, dropped);
    case Trim(_, drop, ids, stale, dropped) => DropAgrees(a, b, drop, ids, stale, dropped);
    case Collect(ids, stale, dropped) => ReleaseAgrees(a.pool, b.pool, ids, stale, dropped);
    case DeleteFile(l) => DeleteAgrees(a.pool, l);
    case ReadFiles(disks, ids, data, copies) => AccessAgrees(a.pool, b.pool, disks, ids, data, copies);
    case Evict(entries) => EvictKeeps(a.pool, b.pool, entries);
    case _ => RefsAgree(a.pool, b.pool);
  }

  // ----- whole runs -----

  /** Mapped chunks are safe, and a read by way of the cache returns what the source holds. */
  ghost predicate Agreed(a: Life) { Safe(a) && AllAgree(a.pool) }

  /** A step keeps that exactly when it is careful. */
  lemma ActAgreesIff(a: Life, x: Act, b: Life)
    requires Agreed(a) && Acts(a, x, b)
    ensures Agreed(b) <==> Careful(a, x)
  {
    hide AllAgree, Step;
    ActKeeps(a, x, b);
    match x {
      case Do(e) => if e.Round? { RoundAgreesIff(e.code, a, b); } else { PlainAgrees(a, e, b); }
      case Overwrite(items, outcomes) => OverwriteAgrees(a.pool, b.pool, items, outcomes);
      case DeleteParity(l) => DeleteParityAgreesIff(a, l, b);
      case Repair(written, saved) => RepairAgreesIff(a, written, saved, b);
      case Late(_, _, _, _, _) => LateAgreesIff(a, x, b);
    }
    if AllAgree(b.pool) { StableIsSafe(b); }
  }

  /** Overwriting chunks and deleting parity keep mapped chunks and the copies of data chunks safe,
      careful or not. */
  lemma ActSafe(a: Life, x: Act, b: Life)
    requires Safe(a) && Acts(a, x, b) && (x.Do? || x.Overwrite? || x.DeleteParity?)
    ensures Safe(b)
  {
    hide Step, Overwrites;
    match x
    case Do(e) => StepSafe(a, e, b);
    case Overwrite(items, outcomes) => OverwriteKeepsAll(a.pool, b.pool, items, outcomes, a.pending);
    case DeleteParity(l) =>
      DeleteParityKeeps(a.pool, l, a.pending);
      DeleteParityCoherent(a.pool, l);
  }

  lemma DeleteParityCoherent(p: Pool, l: Loc)
    requires CacheSound(p) && ParityAt(p, l)
    ensures Coherent(p.(files := p.files - {l}))
  {
  }

  ghost predicate IsActRun(states: seq<Life>, acts: seq<Act>) {
    |states| == |acts| + 1 && forall i | 0 <= i < |acts| :: Acts(states[i], acts[i], states[i + 1])
  }

  lemma {:induction false} CarefulRunAgrees(states: seq<Life>, acts: seq<Act>, n: nat)
    requires IsActRun(states, acts) && Agreed(states[0]) && n < |states|
    requires forall i | 0 <= i < n :: Careful(states[i], acts[i])
    ensures Agreed(states[n])
  {
    hide Agreed, Acts, Careful;
    if n > 0 {
      CarefulRunAgrees(states, acts, n - 1);
      ActAgreesIff(states[n - 1], acts[n - 1], states[n]);
    }
  }

  /** In every state of a run reads return what the source disks hold exactly when all its steps
      are careful. */
  lemma RunAgreesIff(states: seq<Life>, acts: seq<Act>)
    requires IsActRun(states, acts) && Agreed(states[0])
    ensures (forall n | 0 <= n < |states| :: Agreed(states[n])) <==>
            (forall i | 0 <= i < |acts| :: Careful(states[i], acts[i]))
  {
    hide Agreed, Acts, Careful;
    if forall n | 0 <= n < |states| :: Agreed(states[n]) {
      forall i | 0 <= i < |acts| ensures Careful(states[i], acts[i]) {
        ActAgreesIff(states[i], acts[i], states[i + 1]);
      }
    }
    if forall i | 0 <= i < |acts| :: Careful(states[i], acts[i]) {
      forall n | 0 <= n < |states| ensures Agreed(states[n]) { CarefulRunAgrees(states, acts, n); }
    }
  }

  /** In every state of a run with overwrites and deletions of parity, every mapped chunk is a
      written data chunk with the digest of its bytes, and a read of a data chunk returns what the
      source disk holds. */
  lemma {:induction false} RunWithOverwritesStaysSafe(states: seq<Life>, acts: seq<Act>, n: nat)
    requires IsActRun(states, acts) && Safe(states[0]) && n < |states|
    requires forall i | 0 <= i < n :: acts[i].Do? || acts[i].Overwrite? || acts[i].DeleteParity?
    ensures Safe(states[n])
  {
    hide Safe, Acts;
    if n > 0 {
      RunWithOverwritesStaysSafe(states, acts, n - 1);
      ActSafe(states[n - 1], acts[n - 1], states[n]);
    }
  }

  /** A run of careful steps from one state to another. */
  ghost predicate CarefulTo(states: seq<Life>, acts: seq<Act>, a: Life, b: Life) {
    && IsActRun(states, acts) && states[0] == a && states[|acts|] == b
    && forall i | 0 <= i < |acts| :: Careful(states[i], acts[i])
  }

  lemma CarefulNone(a: Life)
    ensures CarefulTo([a], [], a, a)
  {
  }

  lemma CarefulMore(states: seq<Life>, acts: seq<Act>, a: Life, b: Life, x: Act, c: Life)
    requires CarefulTo(states, acts, a, b) && Acts(b, x, c) && Careful(b, x)
    ensures CarefulTo(states + [c], acts + [x], a, c)
  {
    hide Acts, Careful;
    var ss, xs := states + [c], acts + [x];
    forall i | 0 <= i < |xs| ensures Acts(ss[i], xs[i], ss[i + 1]) && Careful(ss[i], xs[i]) {
      if i < |acts| { assert Acts(states[i], acts[i], states[i + 1]) && Careful(states[i], acts[i]); }
    }
  }

  lemma CarefulToAgrees(states: seq<Life>, acts: seq<Act>, a: Life, b: Life)
    requires CarefulTo(states, acts, a, b) && Agreed(a)
    ensures Agreed(b)
  {
    hide Agreed, Acts, Careful;
    CarefulRunAgrees(states, acts, |acts|);
  }
}
