/** A run from nothing that ends with a chunk nobody can read and nobody will release: a file
    of one slice is opened for writing again, closed untouched, and purged. */
module LeakRun {
  import opened Wrappers
  import opened Tables
  import opened Database
  import opened Layout
  import opened Allocation
  import opened ChunkStore
  import opened Flushing
  import opened Release
  import opened PoolSafety
  import opened Lifecycle
  import opened ParityRuns

  /** The pool once the slice is stored, mapped as given. */
  function Stored1(refs: map<Slot, ChunkId>): Pool { Waiting([1], 0, 2, map[Loc(0, 0) := [1]], 2).pool.(refs := refs) }

  function FileOf(pool: Pool, versions: map<VersionId, Version>, used: nat, writing: map<VersionId, InodeId>,
                  current: Option<VersionId>): Life
  {
    Life(pool, versions, used, writing, map[0 := current], {})
  }

  const NOTHING: Life := Life(EMPTY, map[], 0, map[], map[], {})
  const CREATED: Life := FileOf(EMPTY, map[], 0, map[], None)
  const OPENED: Life := FileOf(EMPTY, map[0 := Version(0, 0)], 1, map[0 := 0], None)
  const PUT: Life := FileOf(Stored1(map[Slot(0, 0) := 0]), map[0 := Version(0, 0)], 1, map[0 := 0], None)
  const COMMITTED: Life := FileOf(Stored1(map[Slot(0, 0) := 0]), map[0 := Version(0, 1)], 1, map[], Some(0))
  const REOPENED: Life := FileOf(Stored1(map[Slot(0, 0) := 0, Slot(1, 0) := 0]),
                                 map[0 := Version(0, 1), 1 := Version(0, 1)], 2, map[1 := 0], Some(0))
  const DISCARDED: Life :=
    FileOf(Stored1(map[Slot(0, 0) := 0, Slot(1, 0) := 0]), map[0 := Version(0, 1)], 2, map[], Some(0))
  const PURGED: Life := Life(Stored1(map[Slot(1, 0) := 0]), map[], 2, map[], map[], {})

  const WRITTEN: Files := map[Loc(0, 0) := [1]]
  const TRACE: Trace := Trace(Begun([1], 0, 2, map[], 0).pool, Begun([1], 0, 2, WRITTEN, 0).pool,
                               Ended([1], 0, 2, WRITTEN, 0).pool, [0])

  lemma Persisting()
    ensures Persisted(Given([1], 0, 2, map[], 0).pool, Stored1(map[]), [0], [[1]], [Written], TRACE)
  {
    hide RowsLogged, FilesWritten, Flushed;
    Intent([1], 0, 2, map[], 0);
    Writing([1], 0, 2, map[], 0);
    assert map[][Loc(0, 0) := [1]] == WRITTEN;
    Outcomes([1], 0, 2, WRITTEN, 0);
    FlushStep([1], 0, 2, WRITTEN, 0);
  }

  lemma StoreSlice()
    ensures PutsOne(EMPTY, PUT.pool, [1], 0, Slot(0, 0))
  {
    hide Grants, Persisted;
    FirstGrant([1]);
    Persisting();
    var g, m, reserved, outcomes := Given([1], 0, 2, map[], 0).pool, Stored1(map[]), [], [Written];
    assert IsPick(EMPTY.chunks, reserved, 1) && AllWritten(outcomes) && LaidOut(g)
      && Grants(EMPTY, g, [[1]], reserved, [0]) && Persisted(g, m, [0], [[1]], outcomes, TRACE);
    assert StoresOne(EMPTY, m, [1], 0);
  }

  lemma ReopenStep()
    ensures Opens(COMMITTED, REOPENED, 0, 1)
  {
    var p := COMMITTED.pool;
    assert (set t | t in p.refs && t.version == 0 :: Slot(1, t.idx)) == {Slot(1, 0)} by { assert Slot(0, 0) in p.refs; }
    assert Inherit(p, 0, 1) == REOPENED.pool.refs;
  }

  lemma PurgeDrops()
    ensures Drops(DISCARDED, PURGED, {0}, [0], [], {}) && VersionsOf(DISCARDED, {0}) == {0}
  {
    hide Released, StaleData;
    var p := DISCARDED.pool;
    var m := p.(refs := p.refs - SlotsOf(p, {0}));
    assert SlotsOf(p, {0}) == {Slot(0, 0)} && m == PURGED.pool;
    assert MappedBy(p, {0}) == {0} by { assert Slot(0, 0) in p.refs && p.refs[Slot(0, 0)] == 0; }
    assert m.refs[Slot(1, 0)] == 0 && 0 in m.refs.Values;
    NothingFreed(m);
  }

  lemma NothingFreed(m: Pool)
    requires 0 in m.refs.Values && m.log == []
    ensures Freed(m, [0]) == {} && Released(m, m, [0], [], {}) && StaleData(m, [0], {}) == {}
  {
    assert Freed(m, [0]) == {} && ParityFreed(m, {}) == {};
    assert m.caches - {} == m.caches && m.tasks[|m.tasks|..] == [];
    assert FilesOf(m, {}, {}) == {} && LocsOf(m, {}) == {};
  }

  lemma PutStep()
    ensures Step(OPENED, Put(0, 0, [1], 0), PUT)
  {
    hide PutsOne;
    StoreSlice();
  }

  lemma PurgeStep()
    ensures Step(DISCARDED, Purge({0}, [0], [], {}), PURGED)
  {
    hide Drops;
    PurgeDrops();
    assert DISCARDED.current - {0} == map[];
  }

  lemma OpenSteps()
    ensures Step(CREATED, Open(0, 0), OPENED) && Step(COMMITTED, Open(0, 1), REOPENED)
  {
    ReopenStep();
  }

  lemma CloseSteps()
    ensures Step(NOTHING, CreateFile(0), CREATED) && Step(PUT, Commit(0, 1), COMMITTED)
    ensures Step(REOPENED, Discard(1), DISCARDED)
  {
  }

  lemma Committing() returns (states: seq<Life>, events: seq<Event>)
    ensures RunTo(states, events, NOTHING, COMMITTED)
  {
    hide Step, RunTo;
    OpenSteps();
    CloseSteps();
    PutStep();
    RunNone(NOTHING);
    states, events := [NOTHING], [];
    RunMore(states, events, NOTHING, NOTHING, CreateFile(0), CREATED);
    states, events := states + [CREATED], events + [CreateFile(0)];
    RunMore(states, events, NOTHING, CREATED, Open(0, 0), OPENED);
    states, events := states + [OPENED], events + [Open(0, 0)];
    RunMore(states, events, NOTHING, OPENED, Put(0, 0, [1], 0), PUT);
    states, events := states + [PUT], events + [Put(0, 0, [1], 0)];
    RunMore(states, events, NOTHING, PUT, Commit(0, 1), COMMITTED);
    states, events := states + [COMMITTED], events + [Commit(0, 1)];
  }

  /** At the end there is no file, no version and no handle, and the chunk is still allocated,
      because of a row of the version that was discarded. */
  lemma DiscardedVersionLeaks() returns (states: seq<Life>, events: seq<Event>)
    ensures RunTo(states, events, NOTHING, PURGED) && Safe(NOTHING)
    ensures PURGED.versions == map[] && PURGED.writing == map[] && PURGED.current == map[]
    ensures PURGED.pool.chunks[0].status == Allocated && Unused(PURGED, 0) && Leaked(PURGED, 0)
  {
    hide Step, RunTo;
    states, events := Committing();
    OpenSteps();
    CloseSteps();
    PurgeStep();
    RunMore(states, events, NOTHING, COMMITTED, Open(0, 1), REOPENED);
    states, events := states + [REOPENED], events + [Open(0, 1)];
    RunMore(states, events, NOTHING, REOPENED, Discard(1), DISCARDED);
    states, events := states + [DISCARDED], events + [Discard(1)];
    RunMore(states, events, NOTHING, DISCARDED, Purge({0}, [0], [], {}), PURGED);
    states, events := states + [PURGED], events + [Purge({0}, [0], [], {})];
    PurgedLeaks();
  }

  lemma PurgedLeaks()
    ensures PURGED.pool.chunks[0].status == Allocated && Unused(PURGED, 0) && Leaked(PURGED, 0) && Safe(NOTHING)
  {
    assert Slot(1, 0) in PURGED.pool.refs && PURGED.pool.refs[Slot(1, 0)] == 0 && Forgotten(PURGED, 1);
  }

  /** And it stays so, whatever is done afterwards. */
  lemma NeverReleased(states: seq<Life>, events: seq<Event>, n: nat)
    requires IsRun(states, events) && states[0] == PURGED && n < |states|
    ensures |states[n].pool.chunks| > 0 && states[n].pool.chunks[0].status == Allocated
  {
    var ss, es := DiscardedVersionLeaks();
    RunStaysSafe(ss, es, |es|);
    ForgottenRowsStay(states, events, n, Slot(1, 0));
  }
}
