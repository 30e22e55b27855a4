/** Versions over the pool as a state machine: open, write or fail to, truncate, commit,
    discard, restore, purge, trim, collect. No chunk that a version maps to is ever given up. */
module Lifecycle {
  import opened Bytes
  import opened Wrappers
  import opened Tables
  import opened Database
  import opened ErasureCode
  import opened Release
  import opened ParityWorker
  import opened ReadCache
  import opened CacheCoherence
  import opened PoolSafety

  /** `current` has every file with its current version, `writing` the versions of handles
      open for writing; `pending` are data files and copies released and not yet deleted. */
  datatype Life = Life(pool: Pool, versions: map<VersionId, Version>, used: nat, writing: map<VersionId, InodeId>,
                       current: map<InodeId, Option<VersionId>>, pending: set<Loc>)

  ghost predicate Safe(a: Life) {
    && PoolSafe(a.pool) && PendingDead(a.pool, a.pending)
    && (forall s | s in a.pool.refs :: s.version < a.used)
    && (forall v | v in a.versions :: v < a.used)
    && (forall v | v in a.writing :: v < a.used)
  }

  // ----- the steps -----

  ghost function SlotsOf(p: Pool, vs: set<VersionId>): set<Slot> { set s | s in p.refs && s.version in vs }

  /** The chunks some versions map to. */
  ghost function MappedBy(p: Pool, vs: set<VersionId>): set<ChunkId> {
    set s | s in p.refs && s.version in vs :: p.refs[s]
  }

  /** The mapping with every slice of version `o` mapped under `v` as well. */
  ghost function Inherit(p: Pool, o: VersionId, v: VersionId): map<Slot, ChunkId> {
    map s | s in p.refs.Keys + (set t | t in p.refs && t.version == o :: Slot(v, t.idx)) ::
      if s in p.refs then p.refs[s] else p.refs[Slot(o, s.idx)]
  }

  ghost function VersionsOf(a: Life, gone: set<InodeId>): set<VersionId> {
    set v | v in a.versions && a.versions[v].inode in gone
  }

  /** The version a handle on the file is opened on, if there is one. */
  function OpenedOn(a: Life, inode: InodeId): Option<VersionId> {
    if inode in a.current && a.current[inode].Some? && a.current[inode].value in a.versions
    then a.current[inode] else None
  }

  function OpenedSize(a: Life, inode: InodeId): nat {
    if OpenedOn(a, inode).Some? then a.versions[OpenedOn(a, inode).value].size else 0
  }

  datatype Event =
    | CreateFile(inode: InodeId)
    | Open(inode: InodeId, v: VersionId)
    | Put(v: VersionId, idx: nat, plain: Data, c: ChunkId)
    | StoreFailed(plain: Data, c: ChunkId)
    | Unmap(v: VersionId, idxs: set<nat>)
    | Commit(v: VersionId, size: nat)
    | Discard(v: VersionId)
    | Restore(v: VersionId)
    | Purge(gone: set<InodeId>, ids: seq<ChunkId>, stale: seq<Loc>, dropped: set<ChunkId>)
    | Trim(inode: InodeId, drop: set<VersionId>, ids: seq<ChunkId>, stale: seq<Loc>, dropped: set<ChunkId>)
    | Collect(ids: seq<ChunkId>, stale: seq<Loc>, dropped: set<ChunkId>)
    | DeleteFile(l: Loc)
    | ReadFiles(disks: seq<DiskId>, ids: seq<ChunkId>, data: seq<Data>, copies: map<ChunkId, nat>)
    | Evict(entries: set<ChunkId>)
    | Round(code: Code)

  /** The rows of some versions are deleted and the chunks they mapped are released. */
  ghost predicate Drops(a: Life, b: Life, vs: set<VersionId>, ids: seq<ChunkId>, stale: seq<Loc>,
                        dropped: set<ChunkId>)
  {
    var m := a.pool.(refs := a.pool.refs - SlotsOf(a.pool, vs));
    && (forall c: nat :: c in ids <==> c in MappedBy(a.pool, vs))
    && Released(m, b.pool, ids, stale, dropped)
    && b.pending == a.pending + StaleData(m, ids, dropped)
    && b.versions == a.versions - vs && b.used == a.used && b.writing == a.writing
  }

  /** A new version of the file with the size and the mappings of the one that is current. */
  ghost predicate Opens(a: Life, b: Life, inode: InodeId, v: VersionId) {
    && inode in a.current && v == a.used
    && b == a.(pool := b.pool, versions := a.versions[v := Version(inode, OpenedSize(a, inode))],
               used := v + 1, writing := a.writing[v := inode])
    && b.pool == if OpenedOn(a, inode).Some? then a.pool.(refs := Inherit(a.pool, OpenedOn(a, inode).value, v))
         else a.pool
  }

  ghost predicate Step(a: Life, e: Event, b: Life) {
    var p, q := a.pool, b.pool;
    match e
    case CreateFile(inode) => inode !in a.current && b == a.(current := a.current[inode := None])
    case Open(inode, v) => Opens(a, b, inode, v)
    case Put(v, idx, plain, c) =>
      v in a.writing && b == a.(pool := q) && PutsOne(p, q, plain, c, Slot(v, idx))
    case StoreFailed(plain, c) => TriesOne(p, q, plain, c) && b == a.(pool := q)
    case Unmap(v, idxs) =>
      v in a.writing && b == a.(pool := p.(refs := p.refs - set i | i in idxs :: Slot(v, i)))
    case Commit(v, size) =>
      && v in a.writing
      && b == a.(versions := if v in a.versions then a.versions[v := a.versions[v].(size := size)] else a.versions,
                 current := if a.writing[v] in a.current then a.current[a.writing[v] := Some(v)] else a.current,
                 writing := a.writing - {v})
    case Discard(v) => v in a.writing && b == a.(versions := a.versions - {v}, writing := a.writing - {v})
    case Restore(v) =>
      && v in a.versions && a.versions[v].inode in a.current
      && b == a.(current := a.current[a.versions[v].inode := Some(v)])
    case Purge(gone, ids, stale, dropped) =>
      Drops(a, b, VersionsOf(a, gone), ids, stale, dropped) && b.current == a.current - gone
    case Trim(inode, drop, ids, stale, dropped) =>
      && drop <= VersionsOf(a, {inode})
      && Drops(a, b, drop, ids, stale, dropped) && b.current == a.current
    case Collect(ids, stale, dropped) =>
      Released(p, q, ids, stale, dropped) && b == a.(pool := q, pending := a.pending + StaleData(p, ids, dropped))
    case DeleteFile(l) => l in a.pending && b == a.(pool := p.(files := p.files - {l}), pending := a.pending - {l})
    case ReadFiles(disks, ids, data, copies) =>
      && |data| == |ids| && (forall k | 0 <= k < |ids| :: ids[k] < |p.chunks| && ReadOne(p, ids[k]) == Some(data[k]))
      && Accessed(p, q, disks, ids, data, copies) && b == a.(pool := q)
    case Evict(entries) => Evicted(p, q, entries) && b == a.(pool := q)
    case Round(code) => RoundDone(code, p, q) && b == a.(pool := q)
  }

  // ----- each step is safe -----

  lemma OpenKeeps(a: Life, e: Event, b: Life)
    requires Safe(a) && e.Open? && Step(a, e, b)
    ensures Safe(b)
  {
    var p, q := a.pool, b.pool;
    forall s | s in q.refs ensures Stored(p, q.refs[s]) && s.version < b.used {
      if s !in p.refs { assert Slot(OpenedOn(a, e.inode).value, s.idx) in p.refs; }
    }
    RefsKeep(p, q, a.pending);
  }

  lemma PutKeeps(a: Life, e: Event, b: Life)
    requires Safe(a) && e.Put? && Step(a, e, b)
    ensures Safe(b) && Keeps(a.pool, b.pool, a.pool.refs.Values)
    ensures b.pool.refs == a.pool.refs[Slot(e.v, e.idx) := e.c]
  {
    var m: Pool :| StoresOne(a.pool, m, e.plain, e.c) && b.pool == m.(refs := m.refs[Slot(e.v, e.idx) := e.c]);
    StoreKeeps(a.pool, m, e.plain, e.c, a.pending);
    MapKeeps(a.pool, m, b.pool, Slot(e.v, e.idx), e.c, a.pending);
  }

  lemma MapKeeps(p: Pool, m: Pool, q: Pool, s: Slot, c: ChunkId, pending: set<Loc>)
    requires PoolSafe(m) && PendingDead(m, pending) && Stored(m, c) && Keeps(p, m, p.refs.Values) && m.refs == p.refs
    requires q == m.(refs := m.refs[s := c])
    ensures PoolSafe(q) && PendingDead(q, pending) && Keeps(p, q, p.refs.Values)
  {
    RefsKeep(m, q, pending);
  }

  lemma DropsKeep(a: Life, b: Life, vs: set<VersionId>, ids: seq<ChunkId>, stale: seq<Loc>, dropped: set<ChunkId>)
    requires Safe(a) && Drops(a, b, vs, ids, stale, dropped)
    ensures Safe(b) && b.pool.refs == a.pool.refs - SlotsOf(a.pool, vs)
    ensures Keeps(a.pool, b.pool, b.pool.refs.Values)
  {
    var m := a.pool.(refs := a.pool.refs - SlotsOf(a.pool, vs));
    RefsKeep(a.pool, m, a.pending);
    ReleaseKeepsAll(m, b.pool, ids, stale, dropped, a.pending);
  }

  /** The step leaves versions and their mapping alone. */
  predicate OnPoolOnly(e: Event) {
    e.StoreFailed? || e.Collect? || e.DeleteFile? || e.ReadFiles? || e.Evict? || e.Round?
  }

  lemma PoolStepKeeps(a: Life, e: Event, b: Life)
    requires Safe(a) && Step(a, e, b) && OnPoolOnly(e)
    ensures Safe(b) && b.pool.refs == a.pool.refs && Keeps(a.pool, b.pool, a.pool.refs.Values)
  {
    hide PoolSafe, PendingDead, Keeps;
    PoolStepKeepsPool(a, e, b);
    OnPoolOnlyKeeps(a, e, b);
  }

  lemma OnPoolOnlyKeeps(a: Life, e: Event, b: Life)
    requires Step(a, e, b) && OnPoolOnly(e)
    ensures b == a.(pool := b.pool, pending := b.pending)
  {
    hide Released, Accessed, Evicted, RoundDone, TriesOne;
  }

  lemma PoolStepKeepsPool(a: Life, e: Event, b: Life)
    requires PoolSafe(a.pool) && PendingDead(a.pool, a.pending) && Step(a, e, b) && OnPoolOnly(e)
    ensures PoolSafe(b.pool) && PendingDead(b.pool, b.pending) && b.pool.refs == a.pool.refs
    ensures Keeps(a.pool, b.pool, a.pool.refs.Values)
  {
    hide PoolSafe, PendingDead, Released, Accessed, Evicted, RoundDone, TriesOne, Keeps;
    var p, q := a.pool, b.pool;
    match e
    case StoreFailed(plain, c) => TryKeeps(p, q, plain, c, a.pending);
    case Collect(ids, stale, dropped) => ReleaseKeepsAll(p, q, ids, stale, dropped, a.pending);
    case DeleteFile(l) => DeleteKeeps(p, q, l, a.pending);
    case ReadFiles(disks, ids, data, copies) => AccessKeeps(p, q, disks, ids, data, copies, a.pending);
    case Evict(entries) => EvictKeepsAll(p, q, entries, a.pending);
    case Round(code) => RoundKeeps(code, p, q, a.pending);
  }

  lemma StepSafe(a: Life, e: Event, b: Life)
    requires Safe(a) && Step(a, e, b)
    ensures Safe(b)
  {
    if OnPoolOnly(e) {
      PoolStepKeeps(a, e, b);
    } else if e.Open? {
      OpenKeeps(a, e, b);
    } else if e.Put? {
      PutKeeps(a, e, b);
    } else if e.Unmap? {
      RefsKeep(a.pool, b.pool, a.pending);
    } else if e.Purge? {
      DropsKeep(a, b, VersionsOf(a, e.gone), e.ids, e.stale, e.dropped);
    } else if e.Trim? {
      DropsKeep(a, b, e.drop, e.ids, e.stale, e.dropped);
    }
  }

  // ----- whole runs -----

  ghost predicate IsRun(states: seq<Life>, events: seq<Event>) {
    |states| == |events| + 1 && forall i | 0 <= i < |events| :: Step(states[i], events[i], states[i + 1])
  }

  /** A run from one state to another. */
  ghost predicate RunTo(states: seq<Life>, events: seq<Event>, a: Life, b: Life) {
    IsRun(states, events) && states[0] == a && states[|events|] == b
  }

  lemma RunNone(a: Life)
    ensures RunTo([a], [], a, a)
  {
  }

  lemma RunMore(states: seq<Life>, events: seq<Event>, a: Life, b: Life, e: Event, c: Life)
    requires RunTo(states, events, a, b) && Step(b, e, c)
    ensures RunTo(states + [c], events + [e], a, c)
  {
    hide Step;
    var ss, es := states + [c], events + [e];
    forall i | 0 <= i < |es| ensures Step(ss[i], es[i], ss[i + 1]) {
      if i < |events| { assert Step(states[i], events[i], states[i + 1]); }
    }
  }

  /** In every state of every run, every chunk a version maps to is a written data chunk with
      its bytes on the disk, no file waiting to be deleted is in use, and the cache agrees
      with the source. */
  lemma {:induction false} RunStaysSafe(states: seq<Life>, events: seq<Event>, n: nat)
    requires IsRun(states, events) && Safe(states[0]) && n < |states|
    ensures Safe(states[n])
  {
    if n > 0 {
      RunStaysSafe(states, events, n - 1);
      StepSafe(states[n - 1], events[n - 1], states[n]);
    }
  }

  // ----- snapshots -----

  /** The step changes or removes the mapping of the slot. */
  ghost predicate Touches(a: Life, e: Event, s: Slot) {
    match e
    case Put(v, idx, _, _) => s == Slot(v, idx)
    case Unmap(v, idxs) => s.version == v && s.idx in idxs
    case _ => Removes(a, e, s.version)
  }

  /** The step deletes the version. */
  ghost predicate Removes(a: Life, e: Event, v: VersionId) {
    match e
    case Purge(gone, _, _, _) => v in VersionsOf(a, gone)
    case Trim(_, drop, _, _, _) => v in drop
    case _ => false
  }

  /** The slot maps to the same chunk, with the same row and the same bytes. */
  ghost predicate SameSlice(p: Pool, q: Pool, s: Slot) {
    && (s in q.refs <==> s in p.refs)
    && (s in p.refs ==>
          && q.refs[s] == p.refs[s] && p.refs[s] < |p.chunks| && p.refs[s] < |q.chunks|
          && q.chunks[p.refs[s]] == p.chunks[p.refs[s]] && SameFile(p.files, q.files, p.chunks[p.refs[s]].loc))
  }

  /** No step changes a chunk that is mapped before and after it. */
  lemma StepKeepsChunks(a: Life, e: Event, b: Life)
    requires Safe(a) && Step(a, e, b)
    ensures Keeps(a.pool, b.pool, a.pool.refs.Values * b.pool.refs.Values)
  {
    if OnPoolOnly(e) {
      PoolStepKeeps(a, e, b);
    } else if e.Put? {
      PutKeeps(a, e, b);
    } else if e.Purge? {
      DropsKeep(a, b, VersionsOf(a, e.gone), e.ids, e.stale, e.dropped);
    } else if e.Trim? {
      DropsKeep(a, b, e.drop, e.ids, e.stale, e.dropped);
    }
  }

  lemma StepKeepsMapping(a: Life, e: Event, b: Life, s: Slot)
    requires Safe(a) && Step(a, e, b) && s.version < a.used && !Touches(a, e, s)
    ensures s in b.pool.refs <==> s in a.pool.refs
    ensures s in a.pool.refs ==> b.pool.refs[s] == a.pool.refs[s]
  {
    hide PoolSafe, PendingDead, Accessed, Released, Evicted, RoundDone, TriesOne;
    if OnPoolOnly(e) {
      PoolStepKeeps(a, e, b);
    } else if e.Put? {
      PutKeeps(a, e, b);
    } else if e.Purge? {
      DropsKeep(a, b, VersionsOf(a, e.gone), e.ids, e.stale, e.dropped);
    } else if e.Trim? {
      DropsKeep(a, b, e.drop, e.ids, e.stale, e.dropped);
    }
  }

  lemma KeptSlice(p: Pool, q: Pool, s: Slot)
    requires RefsSafe(p) && (s in q.refs <==> s in p.refs) && (s in p.refs ==> q.refs[s] == p.refs[s])
    requires Keeps(p, q, p.refs.Values * q.refs.Values)
    ensures SameSlice(p, q, s)
  {
    if s in p.refs {
      assert p.refs[s] in p.refs.Values && q.refs[s] in q.refs.Values;
    }
  }

  lemma StepKeepsSlice(a: Life, e: Event, b: Life, s: Slot)
    requires Safe(a) && Step(a, e, b) && s.version < a.used && !Touches(a, e, s)
    ensures SameSlice(a.pool, b.pool, s)
  {
    StepKeepsChunks(a, e, b);
    StepKeepsMapping(a, e, b, s);
    KeptSlice(a.pool, b.pool, s);
  }

  lemma SameSliceTwice(p: Pool, m: Pool, q: Pool, s: Slot)
    requires SameSlice(p, m, s) && SameSlice(m, q, s)
    ensures SameSlice(p, q, s)
  {
  }

  /** A slice that no step of a run writes, unmaps or purges keeps its chunk and its bytes,
      whatever else is written, released and reused meanwhile. In particular a slice that a
      writer inherits and never touches has the old version's chunk in the new version. */
  lemma {:induction false} SliceStays(states: seq<Life>, events: seq<Event>, n: nat, s: Slot)
    requires IsRun(states, events) && Safe(states[0]) && n < |states| && s.version < states[0].used
    requires forall i | 0 <= i < n :: !Touches(states[i], events[i], s)
    ensures SameSlice(states[0].pool, states[n].pool, s) && s.version < states[n].used
  {
    if n == 0 {
      if s in states[0].pool.refs { assert Stored(states[0].pool, states[0].pool.refs[s]); }
    } else {
      var m := n - 1;
      SliceStays(states, events, m, s);
      RunStaysSafe(states, events, m);
      StepKeepsSlice(states[m], events[m], states[n], s);
      SameSliceTwice(states[0].pool, states[m].pool, states[n].pool, s);
    }
  }

  /** A version that no handle writes is never written again. */
  lemma {:induction false} ClosedStaysClosed(states: seq<Life>, events: seq<Event>, n: nat, o: VersionId)
    requires IsRun(states, events) && n < |states| && o < states[0].used && o !in states[0].writing
    ensures o < states[n].used && o !in states[n].writing
  {
    if n > 0 {
      ClosedStaysClosed(states, events, n - 1, o);
      assert Step(states[n - 1], events[n - 1], states[n]);
    }
  }

  /** A handle opened on a version reads the same slices through any run that does not purge
      or trim that version. */
  lemma SnapshotStays(states: seq<Life>, events: seq<Event>, n: nat, o: VersionId, idx: nat)
    requires IsRun(states, events) && Safe(states[0]) && n < |states| && o < states[0].used && o !in states[0].writing
    requires forall i | 0 <= i < n :: !Removes(states[i], events[i], o)
    ensures SameSlice(states[0].pool, states[n].pool, Slot(o, idx))
  {
    forall i | 0 <= i < n ensures !Touches(states[i], events[i], Slot(o, idx)) {
      ClosedStaysClosed(states, events, i, o);
      assert Step(states[i], events[i], states[i + 1]);
    }
    SliceStays(states, events, n, Slot(o, idx));
  }

  /** Reading a mapped chunk by way of the cache gives the bytes its row has the digest of. */
  lemma ReadsWhatWasWritten(a: Life, s: Slot)
    requires Safe(a) && s in a.pool.refs
    ensures var c := a.pool.refs[s];
            && c < |a.pool.chunks| && ReadOne(a.pool, c) == SourceRead(a.pool, c) == a.pool.chunks[c].hash
            && a.pool.chunks[c].hash.Some?
  {
    assert Stored(a.pool, a.pool.refs[s]);
  }

  /** Opening a file for writing maps every slice of the current version to the same chunk. */
  lemma OpenInherits(a: Life, e: Event, b: Life, idx: nat)
    requires Safe(a) && e.Open? && Step(a, e, b) && OpenedOn(a, e.inode).Some?
    ensures var o := OpenedOn(a, e.inode).value;
            && (Slot(e.v, idx) in b.pool.refs <==> Slot(o, idx) in a.pool.refs)
            && (Slot(o, idx) in a.pool.refs ==> b.pool.refs[Slot(e.v, idx)] == a.pool.refs[Slot(o, idx)])
  {
  }

  // ----- what a purge releases -----

  /** A chunk that the purged versions mapped becomes a reserved slot exactly when no row of
      any other version maps to it; a chunk they did not map is not touched. */
  lemma DropsExactly(a: Life, b: Life, vs: set<VersionId>, ids: seq<ChunkId>, stale: seq<Loc>, dropped: set<ChunkId>,
                     c: ChunkId)
    requires Safe(a) && Drops(a, b, vs, ids, stale, dropped) && c < |a.pool.chunks|
    requires a.pool.chunks[c].kind == DataChunk
    ensures c in MappedBy(a.pool, vs) ==>
              (b.pool.chunks[c].status == Reserved <==>
                forall s | s in a.pool.refs && a.pool.refs[s] == c :: s.version in vs)
    ensures c !in MappedBy(a.pool, vs) ==> b.pool.chunks[c] == a.pool.chunks[c]
  {
    var m := a.pool.(refs := a.pool.refs - SlotsOf(a.pool, vs));
    ReleasedExactly(m, b.pool, ids, stale, dropped, c);
    if c in MappedBy(a.pool, vs) {
      var s :| s in a.pool.refs && s.version in vs && a.pool.refs[s] == c;
      assert Stored(a.pool, c);
    }
    if c in m.refs.Values {
      var s :| s in m.refs && m.refs[s] == c;
      assert s in a.pool.refs && s.version !in vs;
    }
    if s :| s in a.pool.refs && a.pool.refs[s] == c && s.version !in vs {
      assert s in m.refs && m.refs[s] == c;
    }
  }

  lemma GoneStaysGone(a: Life, e: Event, b: Life, v: VersionId)
    requires Step(a, e, b) && v < a.used && v !in a.versions && v !in a.writing
    ensures v !in b.versions && v !in b.writing
    ensures forall idx :: !Touches(a, e, Slot(v, idx))
  {
  }

  // ----- what a discarded version leaves behind -----

  /** The version is in no table and no handle writes it. */
  predicate Forgotten(a: Life, v: VersionId) { v < a.used && v !in a.versions && v !in a.writing }

  /** Committing does not ask whether the version still has its row. If a trim or a purge has
      taken it, the file, if it is still there, is left pointing at a version without a row: it
      reads as empty, and what was written for it is forgotten. */
  lemma CommitIff(a: Life, v: VersionId, size: nat, b: Life)
    requires Safe(a) && Step(a, Commit(v, size), b)
    ensures a.writing[v] in a.current ==> OpenedOn(b, a.writing[v]) == if v in a.versions then Some(v) else None
    ensures v in a.versions && a.writing[v] in a.current ==> OpenedSize(b, a.writing[v]) == size
    ensures v !in a.versions ==> OpenedSize(b, a.writing[v]) == 0
    ensures Forgotten(b, v) <==> v !in a.versions
  {
  }

  /** A version that a trim or a purge takes from under its writer is committed without a row,
      whatever happens in between. */
  lemma {:induction false} RemovedStaysRemoved(states: seq<Life>, events: seq<Event>, n: nat, v: VersionId)
    requires IsRun(states, events) && n < |states| && v < states[0].used && v !in states[0].versions
    ensures v < states[n].used && v !in states[n].versions
  {
    if n > 0 {
      RemovedStaysRemoved(states, events, n - 1, v);
      assert Step(states[n - 1], events[n - 1], states[n]);
    }
  }

  /** Trimmed while it is written, then written on and committed: the file ends empty. */
  lemma TrimmedWriterCommitsNothing(states: seq<Life>, events: seq<Event>, n: nat, v: VersionId, size: nat)
    requires IsRun(states, events) && Safe(states[0]) && 0 < n < |events|
    requires Removes(states[0], events[0], v) && v in states[0].versions && events[n] == Commit(v, size)
    requires v in states[n].writing && states[n].writing[v] in states[n].current
    ensures OpenedOn(states[n + 1], states[n].writing[v]) == None
    ensures OpenedSize(states[n + 1], states[n].writing[v]) == 0
    ensures forall s | s in states[n + 1].pool.refs && s.version == v ::
              Leaked(states[n + 1], states[n + 1].pool.refs[s])
  {
    assert Step(states[0], events[0], states[1]) && Step(states[n], events[n], states[n + 1]);
    RemovedStaysRemoved(states[1..], events[1..], n - 1, v);
    RunStaysSafe(states, events, n);
    CommitIff(states[n], v, size, states[n + 1]);
  }

  /** A row of a forgotten version maps the chunk. */
  ghost predicate Leaked(a: Life, c: ChunkId) {
    exists s :: s in a.pool.refs && a.pool.refs[s] == c && Forgotten(a, s.version)
  }

  /** No version in a table, and none being written, maps the chunk. */
  ghost predicate Unused(a: Life, c: ChunkId) {
    forall s | s in a.pool.refs && a.pool.refs[s] == c :: Forgotten(a, s.version)
  }

  /** Rows of a forgotten version are never deleted, and the chunks they map never released. */
  lemma {:induction false} ForgottenRowsStay(states: seq<Life>, events: seq<Event>, n: nat, s: Slot)
    requires IsRun(states, events) && Safe(states[0]) && n < |states|
    requires s in states[0].pool.refs && Forgotten(states[0], s.version)
    ensures SameSlice(states[0].pool, states[n].pool, s) && Forgotten(states[n], s.version)
    ensures states[n].pool.chunks[states[0].pool.refs[s]].status == Allocated
  {
    if n == 0 {
      assert Stored(states[0].pool, states[0].pool.refs[s]);
    } else {
      var m := n - 1;
      ForgottenRowsStay(states, events, m, s);
      RunStaysSafe(states, events, m);
      ForgottenRowStays(states[m], events[m], states[n], s);
      SameSliceTwice(states[0].pool, states[m].pool, states[n].pool, s);
    }
  }

  lemma ForgottenRowStays(a: Life, e: Event, b: Life, s: Slot)
    requires Safe(a) && Step(a, e, b) && s in a.pool.refs && Forgotten(a, s.version)
    ensures SameSlice(a.pool, b.pool, s) && Forgotten(b, s.version) && b.pool.chunks[a.pool.refs[s]].status == Allocated
  {
    GoneStaysGone(a, e, b, s.version);
    assert s == Slot(s.version, s.idx);
    StepKeepsSlice(a, e, b, s);
    assert Stored(a.pool, a.pool.refs[s]);
  }

  /** When versions go and leave a chunk of theirs to nobody, it stays allocated exactly when a
      row of a forgotten version maps it. */
  lemma DroppedStaysIff(a: Life, b: Life, vs: set<VersionId>, ids: seq<ChunkId>, stale: seq<Loc>, dropped: set<ChunkId>,
                        c: ChunkId)
    requires Safe(a) && Drops(a, b, vs, ids, stale, dropped) && c in MappedBy(a.pool, vs) && Unused(b, c)
    ensures c < |b.pool.chunks|
    ensures b.pool.chunks[c].status == Allocated <==> Leaked(b, c)
  {
    DropsKeep(a, b, vs, ids, stale, dropped);
    var s :| s in a.pool.refs && s.version in vs && a.pool.refs[s] == c;
    assert Stored(a.pool, c);
    DropsExactly(a, b, vs, ids, stale, dropped, c);
    if t :| t in a.pool.refs && a.pool.refs[t] == c && t.version !in vs {
      assert t in b.pool.refs && b.pool.refs[t] == c;
    }
  }

  /** Collecting garbage makes the same difference. */
  lemma CollectedStaysIff(a: Life, b: Life, ids: seq<ChunkId>, stale: seq<Loc>, dropped: set<ChunkId>, c: ChunkId)
    requires Safe(a) && Step(a, Collect(ids, stale, dropped), b) && c in ids && c < |a.pool.chunks|
    requires IsData(a.pool.chunks[c]) && Unused(a, c)
    ensures b.pool.chunks[c].status == Allocated <==> Leaked(a, c)
  {
    ReleasedExactly(a.pool, b.pool, ids, stale, dropped, c);
    if c in a.pool.refs.Values {
      var s :| s in a.pool.refs && a.pool.refs[s] == c;
      assert Forgotten(a, s.version);
    }
  }
}
