/** Runs from nothing after which a read by way of the cache returns bytes that are long gone: a
    copy of a parity chunk whose file was rewritten or deleted, and a copy that was made late. */
module StaleCopies {
  import opened Bytes
  import opened Wrappers
  import opened Sequences
  import opened Tables
  import opened Database
  import opened Layout
  import opened ErasureCode
  import opened Allocation
  import opened ChunkStore
  import opened Flushing
  import opened Release
  import opened ParityState
  import opened ParityWorker
  import opened ReadCache
  import opened PoolSafety
  import opened Lifecycle
  import opened ParityRuns
  import opened LeakRun
  import opened CacheRuns

  // ----- steps that do not look at the mapping and the cache -----

  function On(p: Pool, refs: map<Slot, ChunkId>, caches: map<ChunkId, CacheEntry>): Pool {
    p.(refs := refs, caches := caches)
  }

  lemma ContentOn(p: Pool, refs: map<Slot, ChunkId>, caches: map<ChunkId, CacheEntry>, s: StripeId)
    requires SlotsApart(p.chunks)
    ensures Content(On(p, refs, caches), s) == Content(p, s)
  {
    assert SameStripe(p, On(p, refs, caches), s);
    SameStripeSameParity(Mirror(), p, On(p, refs, caches), s);
  }

  lemma RoundOn(code: Code, p: Pool, q: Pool, refs: map<Slot, ChunkId>, caches: map<ChunkId, CacheEntry>)
    requires SlotsApart(p.chunks) && RoundDone(code, p, q)
    ensures RoundDone(code, On(p, refs, caches), On(q, refs, caches))
  {
    var p', done := On(p, refs, caches), Members(p.tasks);
    forall s ensures Encodable(p', s) <==> Encodable(p, s) {
    }
    forall c | 0 <= c < |p.chunks|
      ensures Computed(p', done, p.chunks[c]) <==> Computed(p, done, p.chunks[c])
      ensures ParityShard(code, p', p.chunks[c]) == ParityShard(code, p, p.chunks[c])
    {
      ContentOn(p, refs, caches, p.chunks[c].stripe);
    }
    forall l ensures ComputedAt(p', done, l) <==> ComputedAt(p, done, l) {
    }
  }

  function TraceOn(t: Trace, refs: map<Slot, ChunkId>, caches: map<ChunkId, CacheEntry>): Trace {
    Trace(On(t.logged, refs, caches), On(t.written, refs, caches), On(t.reported, refs, caches), t.queued)
  }

  lemma PersistedOn(p: Pool, q: Pool, ids: seq<ChunkId>, data: seq<Data>, outcomes: seq<Outcome>, t: Trace,
                    refs: map<Slot, ChunkId>, caches: map<ChunkId, CacheEntry>)
    requires Persisted(p, q, ids, data, outcomes, t)
    ensures Persisted(On(p, refs, caches), On(q, refs, caches), ids, data, outcomes, TraceOn(t, refs, caches))
  {
    assert NewRows(On(p, refs, caches), ids, Intents(|ids|)) == NewRows(p, ids, Intents(|ids|));
    assert NewRows(On(t.written, refs, caches), ids, Results(outcomes)) == NewRows(t.written, ids, Results(outcomes));
  }

  lemma GrantsOn(p: Pool, q: Pool, items: seq<Data>, reserved: seq<ChunkId>, ids: seq<ChunkId>,
                 refs: map<Slot, ChunkId>, caches: map<ChunkId, CacheEntry>)
    requires Grants(p, q, items, reserved, ids) && LaidOut(q)
    ensures Grants(On(p, refs, caches), On(q, refs, caches), items, reserved, ids) && LaidOut(On(q, refs, caches))
  {
    SameSlotsKeep(q, On(q, refs, caches));
  }

  lemma ReleasedOn(p: Pool, q: Pool, ids: seq<ChunkId>, stale: seq<Loc>, dropped: set<ChunkId>,
                   caches: map<ChunkId, CacheEntry>)
    requires Released(p, q, ids, stale, dropped) && p.caches == map[]
    requires forall c | c in dropped && c in caches :: caches[c].path.None?
    ensures Released(On(p, p.refs, caches), On(q, q.refs, caches - dropped), ids, stale, dropped)
    ensures StaleData(On(p, p.refs, caches), ids, dropped) == StaleData(p, ids, dropped)
  {
    var p' := On(p, p.refs, caches);
    forall c ensures Frees(p', c) <==> Frees(p, c) {
    }
    assert Freed(p', ids) == Freed(p, ids);
    forall s ensures Touched(p', Freed(p, ids), s) <==> Touched(p, Freed(p, ids), s) {
    }
    forall s ensures Emptied(p', Freed(p, ids), s) <==> Emptied(p, Freed(p, ids), s) {
    }
    assert ParityFreed(p', Freed(p, ids)) == ParityFreed(p, Freed(p, ids));
    assert FilesOf(p', Freed(p, ids), dropped) == FilesOf(p, Freed(p, ids), dropped);
    assert LocsOf(p', ParityFreed(p, Freed(p, ids))) == LocsOf(p, ParityFreed(p, Freed(p, ids)));
  }

  // ----- the states -----

  const MAPPED: map<Slot, ChunkId> := map[Slot(0, 0) := 0]
  const ENCODED: Files := map[Loc(0, 0) := [1], PARITY_AT := [1]]
  const COPY: Loc := Loc(9, 2)

  /** The file of one slice, written; `files` and `caches` are what reading makes of the rest. */
  function Read(paths: nat, files: Files, caches: map<ChunkId, CacheEntry>): Life {
    FileOf(On(Settled([1], 0, paths, files, 2).pool, MAPPED, caches), map[0 := Version(0, 1)], 1, map[], Some(0))
  }

  /** A chunk has been read `n` times; a parity chunk has been copied. */
  function Warm(c: ChunkId, n: nat): Life {
    Read(2, ENCODED, if n == 0 then map[] else map[c := CacheEntry(9, n, None)])
  }

  const HOT: map<ChunkId, CacheEntry> := map[1 := CacheEntry(9, 6, Some(2))]

  const COPIED: Life := Read(3, ENCODED[COPY := [1]], HOT)

  /** The file has been purged; another one is created, opened, and written in the slot. */
  function Emptied1(paths: nat, files: Files, caches: map<ChunkId, CacheEntry>): Pool {
    On(OneStripe(EmptySlot(paths), None, paths + 1, files, [], 2, []), map[], caches)
  }

  function Purged(paths: nat, files: Files, caches: map<ChunkId, CacheEntry>): Life {
    Life(Emptied1(paths, files, caches), map[], 1, map[], map[], {Loc(0, 0)})
  }

  function Created(paths: nat, files: Files, caches: map<ChunkId, CacheEntry>): Life {
    Purged(paths, files, caches).(current := map[1 := None])
  }

  function Started(paths: nat, files: Files, caches: map<ChunkId, CacheEntry>): Life {
    Created(paths, files, caches).(versions := map[1 := Version(1, 0)], used := 2, writing := map[1 := 1])
  }

  function Refilled(paths: nat, files: Files, caches: map<ChunkId, CacheEntry>): Life {
    Started(paths, files, caches).(pool := On(Waiting([2], paths, paths + 1, files[Loc(0, paths) := [2]], 4).pool,
                                              map[Slot(1, 0) := 0], caches))
  }

  // ----- the steps -----

  lemma EncodeStep()
    ensures Step(COMMITTED, Lifecycle.Event.Round(Mirror()), Warm(1, 0)) && Warm(0, 0) == Warm(1, 0)
  {
    hide RoundDone;
    ParityRuns.Round([1], 0, 2, WRITTEN, 2);
    assert WRITTEN[PARITY_AT := [1]] == ENCODED;
    RoundOn(Mirror(), Waiting([1], 0, 2, WRITTEN, 2).pool, Settled([1], 0, 2, ENCODED, 2).pool, MAPPED, map[]);
  }

  /** The first read makes an entry, the next ones count. */
  lemma ReadStep(c: ChunkId, n: nat)
    requires c < 2 && n < 6
    ensures Step(Warm(c, n), ReadFiles([9], [c], [[1]], map[]), Warm(c, n + 1))
  {
  }

  /** A chunk of either kind that was read often enough is copied. */
  lemma CopyStep()
    ensures Step(Warm(1, 6), ReadFiles([9], [1], [[1]], map[1 := 2]), COPIED)
  {
  }

  lemma PurgeParts(p: Pool)
    requires p.refs == MAPPED
    ensures SlotsOf(p, {0}) == {Slot(0, 0)} && MappedBy(p, {0}) == {0} && p.refs - SlotsOf(p, {0}) == map[]
  {
    assert Slot(0, 0) in p.refs && p.refs[Slot(0, 0)] == 0;
  }

  /** The release drops what the cache knows of the data chunk, and nothing of the parity chunk. */
  lemma PurgeStepOf(paths: nat, files: Files, caches: map<ChunkId, CacheEntry>)
    requires 0 in caches ==> caches[0].path.None?
    ensures Step(Read(paths, files, caches), Purge({0}, [0], [Loc(0, 0), PARITY_AT], {0}),
                 Purged(paths, files, caches - {0}))
  {
    hide Drops, Emptied1;
    PurgeDropsOf(paths, files, caches);
    assert Read(paths, files, caches).current - {0} == map[];
  }

  lemma PurgeDropsOf(paths: nat, files: Files, caches: map<ChunkId, CacheEntry>)
    requires 0 in caches ==> caches[0].path.None?
    ensures Drops(Read(paths, files, caches), Purged(paths, files, caches - {0}), {0}, [0], [Loc(0, 0), PARITY_AT], {0})
    ensures VersionsOf(Read(paths, files, caches), {0}) == {0}
  {
    hide Released, StaleData, MappedBy, Lifecycle.SlotsOf;
    var a := Read(paths, files, caches);
    PurgeParts(a.pool);
    ReleaseOf(paths, files, caches);
    assert a.pool.(refs := map[]) == On(Settled([1], 0, paths, files, 2).pool, map[], caches);
    assert a.versions - {0} == map[];
  }

  lemma ReleaseOf(paths: nat, files: Files, caches: map<ChunkId, CacheEntry>)
    requires 0 in caches ==> caches[0].path.None?
    ensures Released(On(Settled([1], 0, paths, files, 2).pool, map[], caches), Emptied1(paths, files, caches - {0}),
                     [0], [Loc(0, 0), PARITY_AT], {0})
    ensures StaleData(On(Settled([1], 0, paths, files, 2).pool, map[], caches), [0], {0}) == {Loc(0, 0)}
  {
    hide Released, StaleData;
    var p, q := Settled([1], 0, paths, files, 2).pool, OneStripe(EmptySlot(paths), None, paths + 1, files, [], 2, []);
    Releasing([1], paths, files, 2);
    ReleasedOn(p, q, [0], [Loc(0, 0), PARITY_AT], {0}, caches);
    FreedFiles(p);
  }

  lemma FreedFiles(p: Pool)
    requires |p.chunks| == 2 && p.refs == map[] && p.caches == map[] && IsData(p.chunks[0])
    requires p.chunks[0].loc == Loc(0, 0)
    ensures StaleData(p, [0], {0}) == {Loc(0, 0)}
  {
    assert Frees(p, 0) && Freed(p, [0]) == {0};
    assert p.chunks[0].loc in FilesOf(p, {0}, {0});
  }

  lemma OpenStepsOf(paths: nat, files: Files, caches: map<ChunkId, CacheEntry>)
    ensures Step(Purged(paths, files, caches), CreateFile(1), Created(paths, files, caches))
    ensures Step(Created(paths, files, caches), Open(1, 1), Started(paths, files, caches))
  {
  }

  function TraceOf(paths: nat, files: Files): Trace {
    var more := files[Loc(0, paths) := [2]];
    Trace(Begun([2], paths, paths + 1, files, 2).pool, Begun([2], paths, paths + 1, more, 2).pool,
          Ended([2], paths, paths + 1, more, 2).pool, [0])
  }

  lemma RefillPersists(paths: nat, files: Files)
    requires paths > 1
    ensures Persisted(Given([2], paths, paths + 1, files, 2).pool,
                      Waiting([2], paths, paths + 1, files[Loc(0, paths) := [2]], 4).pool, [0], [[2]], [Written],
                      TraceOf(paths, files))
  {
    hide RowsLogged, FilesWritten, Flushed;
    Intent([2], paths, paths + 1, files, 2);
    Writing([2], paths, paths + 1, files, 2);
    Outcomes([2], paths, paths + 1, files[Loc(0, paths) := [2]], 2);
    FlushStep([2], paths, paths + 1, files[Loc(0, paths) := [2]], 2);
  }

  lemma RefillStores(paths: nat, files: Files, caches: map<ChunkId, CacheEntry>)
    requires paths > 1
    ensures StoresOne(Emptied1(paths, files, caches),
                      On(Waiting([2], paths, paths + 1, files[Loc(0, paths) := [2]], 4).pool, map[], caches), [2], 0)
  {
    hide Grants, Persisted, LaidOut;
    var p := OneStripe(EmptySlot(paths), None, paths + 1, files, [], 2, []);
    var g := Given([2], paths, paths + 1, files, 2).pool;
    var q := Waiting([2], paths, paths + 1, files[Loc(0, paths) := [2]], 4).pool;
    SecondGrant([2], paths, paths + 1, files, 2);
    GrantsOn(p, g, [[2]], [0], [0], map[], caches);
    RefillPersists(paths, files);
    PersistedOn(g, q, [0], [[2]], [Written], TraceOf(paths, files), map[], caches);
    assert IsPick(Emptied1(paths, files, caches).chunks, [0], 1) && AllWritten([Written]);
  }

  lemma RefillStep(paths: nat, files: Files, caches: map<ChunkId, CacheEntry>)
    requires paths > 1
    ensures Step(Started(paths, files, caches), Put(1, 0, [2], 0), Refilled(paths, files, caches))
  {
    hide StoresOne;
    RefillStores(paths, files, caches);
    var m := On(Waiting([2], paths, paths + 1, files[Loc(0, paths) := [2]], 4).pool, map[], caches);
    assert Refilled(paths, files, caches).pool == m.(refs := m.refs[Slot(1, 0) := 0]);
  }

  /** The parity of the new data goes where the old one was. */
  lemma SecondRoundStep(paths: nat, files: Files, caches: map<ChunkId, CacheEntry>)
    ensures Step(Refilled(paths, files, caches), Lifecycle.Event.Round(Mirror()),
                 Refilled(paths, files, caches).(
                   pool := On(Settled([2], paths, paths + 1, files[Loc(0, paths) := [2]][PARITY_AT := [2]], 4).pool,
                              map[Slot(1, 0) := 0], caches)))
  {
    hide RoundDone;
    var more := files[Loc(0, paths) := [2]];
    ParityRuns.Round([2], paths, paths + 1, more, 4);
    RoundOn(Mirror(), Waiting([2], paths, paths + 1, more, 4).pool,
            Settled([2], paths, paths + 1, more[PARITY_AT := [2]], 4).pool, map[Slot(1, 0) := 0], caches);
  }

  // ----- the runs -----

  /** A step that is always careful goes on. */
  lemma Then(states: seq<Life>, acts: seq<Act>, a: Life, e: Event, b: Life) returns (ss: seq<Life>, xs: seq<Act>)
    requires CarefulTo(states, acts, NOTHING, a) && Step(a, e, b) && (e.Round? ==> a.pool.caches == map[])
    ensures CarefulTo(ss, xs, NOTHING, b) && states <= ss
  {
    hide Step, CarefulTo;
    CarefulMore(states, acts, NOTHING, a, Do(e), b);
    ss, xs := states + [b], acts + [Do(e)];
  }

  /** A file of one slice is written, and its parity computed. */
  lemma Encoding() returns (ss: seq<Life>, xs: seq<Act>)
    ensures CarefulTo(ss, xs, NOTHING, Warm(0, 0))
  {
    hide Step, CarefulTo;
    OpenSteps();
    CloseSteps();
    PutStep();
    EncodeStep();
    CarefulNone(NOTHING);
    ss, xs := Then([NOTHING], [], NOTHING, CreateFile(0), CREATED);
    ss, xs := Then(ss, xs, CREATED, Open(0, 0), OPENED);
    ss, xs := Then(ss, xs, OPENED, Put(0, 0, [1], 0), PUT);
    ss, xs := Then(ss, xs, PUT, Commit(0, 1), COMMITTED);
    ss, xs := Then(ss, xs, COMMITTED, Lifecycle.Event.Round(Mirror()), Warm(1, 0));
  }

  /** One of its chunks is read. */
  lemma {:induction false} Reading(c: ChunkId, n: nat) returns (ss: seq<Life>, xs: seq<Act>)
    requires c < 2 && n <= 6
    ensures CarefulTo(ss, xs, NOTHING, Warm(c, n))
  {
    hide Step, CarefulTo;
    if n == 0 {
      ss, xs := Encoding();
    } else {
      ss, xs := Reading(c, n - 1);
      ReadStep(c, n - 1);
      ss, xs := Then(ss, xs, Warm(c, n - 1), ReadFiles([9], [c], [[1]], map[]), Warm(c, n));
    }
  }

  /** The file is purged, and with it what the cache knows of its data. */
  lemma Purging1(ss0: seq<Life>, xs0: seq<Act>, paths: nat, files: Files, caches: map<ChunkId, CacheEntry>)
    returns (ss: seq<Life>, xs: seq<Act>)
    requires CarefulTo(ss0, xs0, NOTHING, Read(paths, files, caches)) && (0 in caches ==> caches[0].path.None?)
    ensures CarefulTo(ss, xs, NOTHING, Purged(paths, files, caches - {0})) && ss0 <= ss
  {
    hide Step, CarefulTo;
    PurgeStepOf(paths, files, caches);
    ss, xs := Then(ss0, xs0, Read(paths, files, caches), Purge({0}, [0], [Loc(0, 0), PARITY_AT], {0}),
                   Purged(paths, files, caches - {0}));
  }

  /** A new file is written in the same slot. */
  lemma Refilling(ss0: seq<Life>, xs0: seq<Act>, paths: nat, files: Files, caches: map<ChunkId, CacheEntry>)
    returns (ss: seq<Life>, xs: seq<Act>)
    requires CarefulTo(ss0, xs0, NOTHING, Purged(paths, files, caches)) && paths > 1
    ensures CarefulTo(ss, xs, NOTHING, Refilled(paths, files, caches)) && ss0 <= ss
  {
    hide Step, CarefulTo;
    OpenStepsOf(paths, files, caches);
    RefillStep(paths, files, caches);
    ss, xs := Then(ss0, xs0, Purged(paths, files, caches), CreateFile(1), Created(paths, files, caches));
    ss, xs := Then(ss, xs, Created(paths, files, caches), Open(1, 1), Started(paths, files, caches));
    ss, xs := Then(ss, xs, Started(paths, files, caches), Put(1, 0, [2], 0), Refilled(paths, files, caches));
  }

  lemma NothingAgrees()
    ensures Agreed(NOTHING)
  {
  }

  /** The parity chunk is read seven times and copied, and the file is purged. */
  lemma CopyingAndPurging() returns (ss: seq<Life>, xs: seq<Act>)
    ensures CarefulTo(ss, xs, NOTHING, Purged(3, ENCODED[COPY := [1]], HOT))
  {
    hide Step, CarefulTo;
    ss, xs := Reading(1, 6);
    CopyStep();
    ss, xs := Then(ss, xs, Warm(1, 6), ReadFiles([9], [1], [[1]], map[1 := 2]), COPIED);
    ss, xs := Purging1(ss, xs, 3, ENCODED[COPY := [1]], HOT);
    assert HOT - {0} == HOT;
  }

  /** From nothing: a file is written and encoded, its parity chunk is read seven times, which
      makes a copy, and the file is purged. Another file is written in the same slot. Up to here
      reads return what the disks hold. The next worker round rewrites the parity file, and the
      copy still has the parity of the file that is gone. */
  lemma RoundLeavesStaleCopy() returns (states: seq<Life>, acts: seq<Act>, a: Life, b: Life)
    ensures CarefulTo(states, acts, NOTHING, a) && Agreed(NOTHING) && Agreed(a)
    ensures Acts(a, Do(Lifecycle.Event.Round(Mirror())), b) && Safe(b) && !AllAgree(b.pool)
    ensures |b.pool.chunks| == 2 && ReadOne(b.pool, 1) == Some([1]) && SourceRead(b.pool, 1) == Some([2])
  {
    hide Step, CarefulTo, Agreed, Safe;
    states, acts := CopyingAndPurging();
    states, acts := Refilling(states, acts, 3, ENCODED[COPY := [1]], HOT);
    a := Refilled(3, ENCODED[COPY := [1]], HOT);
    SecondRoundStep(3, ENCODED[COPY := [1]], HOT);
    var files := ENCODED[COPY := [1]][Loc(0, 3) := [2]][PARITY_AT := [2]];
    b := a.(pool := On(Settled([2], 3, 4, files, 4).pool, map[Slot(1, 0) := 0], HOT));
    NothingAgrees();
    CarefulToAgrees(states, acts, NOTHING, a);
    AgreedIsSafe(a);
    ActSafe(a, Do(Lifecycle.Event.Round(Mirror())), b);
    assert ReadOne(b.pool, 1) != SourceRead(b.pool, 1);
  }

  lemma AgreedIsSafe(a: Life)
    requires Agreed(a)
    ensures Safe(a)
  {
  }

  /** The same, but the parity file the purge left behind is deleted: the copy still has the bytes
      of the file that was purged, though nothing else has. */
  lemma DeletionLeavesCopy() returns (states: seq<Life>, acts: seq<Act>, a: Life, b: Life)
    ensures CarefulTo(states, acts, NOTHING, a) && Agreed(NOTHING) && Agreed(a)
    ensures Acts(a, DeleteParity(PARITY_AT), b) && b.versions == map[] && b.current == map[] && b.pool.refs == map[]
    ensures |b.pool.chunks| == 2 && ReadOne(b.pool, 1) == Some([1]) && SourceRead(b.pool, 1) == None
  {
    hide Step, CarefulTo, Agreed;
    states, acts := CopyingAndPurging();
    a := Purged(3, ENCODED[COPY := [1]], HOT);
    b := a.(pool := a.pool.(files := a.pool.files - {PARITY_AT}));
    NothingAgrees();
    CarefulToAgrees(states, acts, NOTHING, a);
    assert a.pool.chunks[1].kind == ParityChunk && a.pool.chunks[1].loc == PARITY_AT;
  }

  const SEEN: map<ChunkId, CacheEntry> := map[0 := CacheEntry(9, 6, None)]

  /** From nothing: a file is written, and its data chunk read six times. A seventh read has read
      the bytes and not updated the cache yet when the file is purged and another one is written
      in the same slot. The update then copies the old bytes, and the slice of the new file reads
      as that of the old one. */
  lemma LateUpdateServesOldBytes() returns (states: seq<Life>, acts: seq<Act>, a: Life, b: Life)
    ensures CarefulTo(states, acts, NOTHING, a) && Agreed(NOTHING) && Agreed(a)
    ensures exists i :: 0 <= i < |states| && ReadBefore(states[i].pool)
    ensures Acts(a, Late([9], SEEN, [0], [[1]], map[0 := 3]), b)
    ensures Slot(1, 0) in b.pool.refs && b.pool.refs[Slot(1, 0)] == 0 && b.versions == map[1 := Version(1, 0)]
    ensures |b.pool.chunks| == 2 && ReadOne(b.pool, 0) == Some([1]) && SourceRead(b.pool, 0) == Some([2])
  {
    hide Step, CarefulTo, Agreed, Acts, ReadOne, SourceRead, ReadBefore;
    var s0, x0 := Reading(0, 6);
    var s1, x1 := Purging1(s0, x0, 2, ENCODED, SEEN);
    assert SEEN - {0} == map[];
    states, acts := Refilling(s1, x1, 2, ENCODED, map[]);
    a := Refilled(2, ENCODED, map[]);
    b := a.(pool := LateUpdated(a.pool));
    NothingAgrees();
    CarefulToAgrees(states, acts, NOTHING, a);
    EndOf(s0, x0, Warm(0, 6));
    BeginsHere();
    assert ReadBefore(states[|x0|].pool);
    LateStep();
  }

  lemma BeginsHere()
    ensures ReadBefore(Warm(0, 6).pool)
  {
  }

  lemma LateStep()
    ensures var a := Refilled(2, ENCODED, map[]); var b := a.(pool := LateUpdated(a.pool));
            && Acts(a, Late([9], SEEN, [0], [[1]], map[0 := 3]), b)
            && Slot(1, 0) in b.pool.refs && b.pool.refs[Slot(1, 0)] == 0 && b.versions == map[1 := Version(1, 0)]
            && |b.pool.chunks| == 2 && ReadOne(b.pool, 0) == Some([1]) && SourceRead(b.pool, 0) == Some([2])
  {
    hide CacheUpdated, LateUpdated, ReadOne, SourceRead;
    LateUpdates(Refilled(2, ENCODED, map[]).pool);
  }

  lemma LateUpdates(p: Pool)
    requires p.paths == 3 && p.caches == map[] && |p.chunks| == 2 && p.chunks[0].loc == Loc(0, 2)
    requires Loc(0, 2) in p.files && p.files[Loc(0, 2)] == [2]
    ensures CacheUpdated(p, LateUpdated(p), [9], SEEN, [0], [[1]], map[0 := 3])
    ensures LateUpdated(p).refs == p.refs && LateUpdated(p).chunks == p.chunks
    ensures ReadOne(LateUpdated(p), 0) == Some([1]) && SourceRead(LateUpdated(p), 0) == Some([2])
  {
  }

  /** A read that begins here sees these entries, and reads these bytes. */
  predicate ReadBefore(p: Pool) { p.caches == SEEN && |p.chunks| == 2 && ReadOne(p, 0) == Some([1]) }

  lemma EndOf(states: seq<Life>, acts: seq<Act>, b: Life)
    requires CarefulTo(states, acts, NOTHING, b)
    ensures |states| == |acts| + 1 && states[|acts|] == b
  {
  }

  function LateUpdated(p: Pool): Pool {
    p.(caches := map[0 := CacheEntry(9, 6, Some(3))], files := p.files[Loc(9, 3) := [1]], paths := 4)
  }
}
