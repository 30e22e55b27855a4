/** Two runs from an empty pool, of one data and one parity disk, that end with parity nobody
    is going to write: a write cut off by a crash, and a deletion that comes too late. */
module ParityRuns {
  import opened Bytes
  import opened Wrappers
  import opened Tables
  import opened Database
  import opened Sequences
  import opened Layout
  import opened ErasureCode
  import opened Stripes
  import opened ChunkStore
  import opened WriteQueue
  import opened Flushing
  import opened Release
  import opened ParityState
  import opened ParityWorker
  import opened Freshness

  const PARITY_AT: Loc := Loc(1, 1)

  function DataRow(path: nat, d: Data): Chunk { Chunk(Allocated, DataChunk, 0, 0, Loc(0, path), |d|, Some(d)) }

  function EmptySlot(path: nat): Chunk { Chunk(Reserved, DataChunk, 0, 0, Loc(0, path), 0, None) }

  function ParityRow(d: Option<Data>): Chunk {
    if d.Some? then Chunk(Allocated, ParityChunk, 0, 0, PARITY_AT, |d.value|, d)
    else Chunk(Reserved, ParityChunk, 0, 0, PARITY_AT, 0, None)
  }

  /** The pool with one stripe. */
  function OneStripe(data: Chunk, parity: Option<Data>, paths: nat, files: Files, log: Log, rows: nat,
                     tasks: seq<StripeId>): Pool
  {
    Pool(1, 1, 2, [data, ParityRow(parity)], 1, paths, files, log, rows, tasks, map[], map[])
  }

  /** A chunk has been given out; a write of it is open; its outcome is logged; its stripe waits
      for parity; the parity is computed. */
  function Given(d: Data, path: nat, paths: nat, files: Files, rows: nat): State {
    State(OneStripe(DataRow(path, d), None, paths, files, [], rows, []), multiset{})
  }

  function Begun(d: Data, path: nat, paths: nat, files: Files, rows: nat): State {
    State(OneStripe(DataRow(path, d), None, paths, files, [LogRow(rows, 0, 0, Pending)], rows + 1, []), multiset{0})
  }

  function Ended(d: Data, path: nat, paths: nat, files: Files, rows: nat): State {
    State(OneStripe(DataRow(path, d), None, paths, files, Both(rows), rows + 2, []), multiset{})
  }

  function Waiting(d: Data, path: nat, paths: nat, files: Files, rows: nat): State {
    State(OneStripe(DataRow(path, d), None, paths, files, [], rows, [0]), multiset{})
  }

  function Settled(d: Data, path: nat, paths: nat, files: Files, rows: nat): State {
    State(OneStripe(DataRow(path, d), Some(d), paths, files, [], rows, []), multiset{})
  }

  function Both(rows: nat): Log { [LogRow(rows, 0, 0, Pending), LogRow(rows + 1, 0, 0, Success)] }

  const EMPTY: Pool := Pool(1, 1, 2, [], 0, 0, map[], [], 0, [], map[], map[])

  // ----- the steps -----

  lemma OneStripeIsLaidOut(p: Pool)
    requires p.ds == p.ps == p.stripes == 1 && p.disks == 2 && |p.chunks| == 2 && p.paths > 1
    requires IsSlot(p.chunks[0], 0, DataChunk, 0) && p.chunks[0].loc.disk == 0 && p.chunks[0].loc.path < p.paths
    requires p.chunks[0].loc.path != 1
    requires IsSlot(p.chunks[1], 0, ParityChunk, 0) && p.chunks[1].loc == PARITY_AT
    ensures LaidOut(p)
  {
    forall s: nat, kind, i: nat | s < p.stripes && i < Shards(p, kind) ensures HasSlot(p.chunks, s, kind, i) {
      assert kind == DataChunk ==> IsSlot(p.chunks[0], s, kind, i);
      assert kind == ParityChunk ==> IsSlot(p.chunks[1], s, kind, i);
    }
  }

  lemma FirstGrant(d: Data)
    ensures Step(Mirror(), State(EMPTY, multiset{}), Grant([d], [], [0]), Given(d, 0, 2, map[], 0))
  {
    var q := OneStripe(DataRow(0, d), None, 2, map[], [], 0, []);
    OneStripeIsLaidOut(q);
    assert [0][..0] == [];
  }

  lemma SecondGrant(d: Data, path: nat, paths: nat, files: Files, rows: nat)
    requires 1 < path < paths
    ensures Step(Mirror(), State(OneStripe(EmptySlot(path), None, paths, files, [], rows, []), multiset{}),
                 Grant([d], [0], [0]), Given(d, path, paths, files, rows))
  {
    OneStripeIsLaidOut(OneStripe(DataRow(path, d), None, paths, files, [], rows, []));
  }

  lemma Intent(d: Data, path: nat, paths: nat, files: Files, rows: nat)
    ensures Step(Mirror(), Given(d, path, paths, files, rows), LogIntents([0]),
                 Begun(d, path, paths, files, rows))
  {
    var p := OneStripe(DataRow(path, d), None, paths, files, [], rows, []);
    assert NewRows(p, [0], Intents(1)) == [LogRow(rows, 0, 0, Pending)];
    assert Members([0]) == {0};
  }

  lemma Writing(d: Data, path: nat, paths: nat, files: Files, rows: nat)
    ensures Step(Mirror(), Begun(d, path, paths, files, rows),
                 WriteFiles([0], [d], [Written]),
                 Begun(d, path, paths, files[Loc(0, path) := d], rows))
  {
    var p := OneStripe(DataRow(path, d), None, paths, files, [LogRow(rows, 0, 0, Pending)], rows + 1, []);
    forall l | Elsewhere(p.chunks, [0], 1, l) ensures l != Loc(0, path) { assert p.chunks[[0][0]].loc == Loc(0, path); }
  }

  lemma Outcomes(d: Data, path: nat, paths: nat, files: Files, rows: nat)
    ensures Step(Mirror(), Begun(d, path, paths, files, rows),
                 LogResults([0], [Written]),
                 Ended(d, path, paths, files, rows))
  {
    var p := OneStripe(DataRow(path, d), None, paths, files, [LogRow(rows, 0, 0, Pending)], rows + 1, []);
    assert NewRows(p, [0], Results([Written])) == [LogRow(rows + 1, 0, 0, Success)];
    assert Members([0]) == {0};
  }

  lemma OfOne(r: LogRow, c: ChunkId)
    ensures Of([r], c) == if r.chunk == c then [r] else []
  {
    assert [r][..0] == [];
  }

  lemma OfBoth(rows: nat, c: ChunkId)
    ensures Of(Both(rows), c) == if c == 0 then Both(rows) else []
  {
    assert Both(rows)[..1] == [Both(rows)[0]];
    OfOne(Both(rows)[0], c);
  }

  /** The entries are the log if all of its rows are of chunk 0. */
  lemma EntriesOfLog(log: Log, ids: seq<ChunkId>, n: nat)
    requires n == 2 && Selected(ids, 0) && Of(log, 0) == log && Of(log, 1) == []
    ensures Entries(log, ids, n) == log
  {
    assert Entries(log, ids, n - 2) == [];
    assert Entries(log, ids, n - 1) == [] + Of(log, 0) == log;
    assert log + [] == log;
  }

  lemma {:induction false} KeptNone(log: Log, del: set<nat>)
    requires forall r | r in log :: r.id in del
    ensures Kept(log, del) == []
  {
    if log != [] {
      assert log[0] in log;
      KeptNone(log[1..], del);
    }
  }

  lemma FlushStep(d: Data, path: nat, paths: nat, files: Files, rows: nat)
    ensures Step(Mirror(), Ended(d, path, paths, files, rows), FlushQueue([0], [0]),
                 Waiting(d, path, paths, files, rows + 2))
  {
    hide Entries, Of, Kept, DoneSet, FailedSet, ClosedStripes;
    OfBoth(rows, 0);
    OfBoth(rows, 1);
    EntriesOfLog(Both(rows), [0], 2);
    OnePairFlushes(Ended(d, path, paths, files, rows).pool, rows);
  }

  lemma BothIsOnePair(rows: nat)
    ensures ClosedStripes(Both(rows)) == {0} && FailedSet(Both(rows)) == {}
    ensures Kept(Both(rows), DoneSet(Both(rows))) == []
  {
    var e := Both(rows);
    assert Closes(e, 1) && Done(e, 0) && Done(e, 1);
    assert e[0].id in DoneSet(e) && e[1].id in DoneSet(e);
    assert e[1].stripe in ClosedStripes(e);
    KeptNone(e, DoneSet(e));
  }

  /** A finished write is flushed whole, and its stripe queued. */
  lemma OnePairFlushes(p: Pool, rows: nat)
    requires p.log == Both(rows) && Entries(p.log, [0], |p.chunks|) == p.log
    ensures Flushed(p, p.(log := [], tasks := p.tasks + [0]), [0], [0])
  {
    hide Entries, Kept, DoneSet, FailedSet, ClosedStripes;
    BothIsOnePair(rows);
  }

  lemma ParityOfOne(p: Pool, d: Data)
    requires p.ds == 1 && |p.chunks| == 2 && p.chunks[1].kind == ParityChunk && IsData(p.chunks[0])
    requires p.chunks[0].stripe == p.chunks[0].index == 0
    requires p.chunks[0].loc in p.files && p.files[p.chunks[0].loc] == d
    ensures Content(p, 0) == [Some(d)] && Parity(Mirror(), Content(p, 0)) == [d]
  {
    assert HoldsData(p, 0, 0, 0);
    var slots := Content(p, 0);
    var c: nat :| HoldsData(p, c, 0, 0) && SlotContent(p, 0, 0) == Some(p.files[p.chunks[c].loc]);
    assert slots == [Some(d)] && slots[..0] == [];
    assert Width(slots) == |d|;
    assert Pad(d, |d|) == d;
    assert Fill(slots, |d|)[0] == d;
    assert Fill(slots, |d|) == [d];
  }

  lemma Round(d: Data, path: nat, paths: nat, files: Files, rows: nat)
    requires Loc(0, path) in files && files[Loc(0, path)] == d
    ensures Step(Mirror(), Waiting(d, path, paths, files, rows), WorkerRound,
                 Settled(d, path, paths, files[PARITY_AT := d], rows))
    ensures Plain(Waiting(d, path, paths, files, rows), WorkerRound)
  {
    var p := OneStripe(DataRow(path, d), None, paths, files, [], rows, [0]);
    ParityOfOne(p, d);
    assert IsData(p.chunks[0]) && HasData(p.chunks, 0) && !Unwritten(p, 0) && Encodable(p, 0);
    assert Members(p.tasks) == {0};
    assert Computed(p, {0}, p.chunks[1]) && !Computed(p, {0}, p.chunks[0]);
    forall l | !ComputedAt(p, {0}, l) ensures l != PARITY_AT { assert p.chunks[1].loc == PARITY_AT; }
  }

  lemma FreedByRelease(p: Pool)
    requires |p.chunks| == 2 && p.refs == map[] && p.caches == map[] && IsData(p.chunks[0]) && IsParity(p.chunks[1])
    requires p.chunks[0].stripe == p.chunks[1].stripe == 0
    ensures Freed(p, [0]) == {0} && Touched(p, {0}, 0) && Emptied(p, {0}, 0) && ParityFreed(p, {0}) == {1}
    ensures forall s :: Touched(p, {0}, s) <==> s == 0
    ensures forall l :: l in FilesOf(p, {0}, {0}) <==> l == p.chunks[0].loc
    ensures forall l :: l in LocsOf(p, {1}) <==> l == p.chunks[1].loc
  {
    assert Frees(p, 0) && Freed(p, [0]) == {0};
    assert p.chunks[0].stripe == 0 && 0 in {0};
    assert p.chunks[0].loc in FilesOf(p, {0}, {0}) && p.chunks[1].loc in LocsOf(p, {1});
  }

  lemma Releasing(d: Data, paths: nat, files: Files, rows: nat)
    ensures Step(Mirror(), Settled(d, 0, paths, files, rows),
                 ReleaseSlots([0], [Loc(0, 0), PARITY_AT], {0}),
                 State(OneStripe(EmptySlot(paths), None, paths + 1, files, [], rows, []), multiset{}))
  {
    hide Freed, ParityFreed, Touched, Emptied, FilesOf, LocsOf;
    var p := Settled(d, 0, paths, files, rows).pool;
    var q := OneStripe(EmptySlot(paths), None, paths + 1, files, [], rows, []);
    FreedByRelease(p);
    assert q.tasks[0..] == [];
  }

  // ----- runs -----

  /** A run of careful steps from the empty pool to `end`, without deletions and clean-ups. */
  ghost predicate Leads(states: seq<State>, events: seq<Event>, end: State) {
    && IsRun(Mirror(), states, events) && states[0] == State(EMPTY, multiset{}) && states[|events|] == end
    && forall i | 0 <= i < |events| :: Plain(states[i], events[i])
  }

  ghost predicate Plain(a: State, e: Event) { Careful(Mirror(), a, e) && !e.CleanUp? && !e.DeleteFile? }

  lemma Extend(states: seq<State>, events: seq<Event>, a: State, e: Event, b: State)
    requires Leads(states, events, a) && Step(Mirror(), a, e, b) && Plain(a, e)
    ensures Leads(states + [b], events + [e], b)
  {
    hide Step, Plain;
    var ss, es := states + [b], events + [e];
    forall i | 0 <= i < |es| ensures Step(Mirror(), ss[i], es[i], ss[i + 1]) && Plain(ss[i], es[i]) {
      if i < |events| { assert Step(Mirror(), states[i], events[i], states[i + 1]) && Plain(states[i], events[i]); }
    }
  }

  lemma LeadsIsTracked(states: seq<State>, events: seq<Event>, end: State)
    requires Leads(states, events, end)
    ensures Tracked(Mirror(), end)
  {
    MirrorIsLawful();
    EmptyPoolIsTracked(Mirror(), EMPTY);
    RunStaysProtected(Mirror(), states, events, |events|);
  }

  /** The write reaches the disk and its outcome is not logged. */
  lemma WriteUnlogged(states: seq<State>, events: seq<Event>, d: Data, path: nat, paths: nat, files: Files, rows: nat)
    returns (ss: seq<State>, es: seq<Event>, end: State)
    requires Leads(states, events, Given(d, path, paths, files, rows))
    ensures end == Begun(d, path, paths, files[Loc(0, path) := d], rows)
    ensures Leads(ss, es, end) && events <= es
  {
    hide Step, Leads;
    var a := Given(d, path, paths, files, rows);
    var b := Begun(d, path, paths, files, rows);
    end := Begun(d, path, paths, files[Loc(0, path) := d], rows);
    Intent(d, path, paths, files, rows);
    Extend(states, events, a, LogIntents([0]), b);
    Writing(d, path, paths, files, rows);
    Extend(states + [b], events + [LogIntents([0])], b, WriteFiles([0], [d], [Written]), end);
    ss, es := states + [b] + [end], events + [LogIntents([0])] + [WriteFiles([0], [d], [Written])];
  }

  /** A chunk given out is written, and its parity is computed. */
  lemma WriteAndEncode(states: seq<State>, events: seq<Event>, d: Data, path: nat, paths: nat, files: Files, rows: nat)
    returns (ss: seq<State>, es: seq<Event>, end: State)
    requires Leads(states, events, Given(d, path, paths, files, rows))
    ensures end == Settled(d, path, paths, files[Loc(0, path) := d][PARITY_AT := d], rows + 2)
    ensures Leads(ss, es, end) && events <= es
  {
    hide Step, Leads;
    var b;
    ss, es, b := WriteUnlogged(states, events, d, path, paths, files, rows);
    var more := files[Loc(0, path) := d];
    var c := Ended(d, path, paths, more, rows);
    Outcomes(d, path, paths, more, rows);
    Extend(ss, es, b, LogResults([0], [Written]), c);
    ss, es := ss + [c], es + [LogResults([0], [Written])];
    var f := Waiting(d, path, paths, more, rows + 2);
    FlushStep(d, path, paths, more, rows);
    Extend(ss, es, c, FlushQueue([0], [0]), f);
    ss, es := ss + [f], es + [FlushQueue([0], [0])];
    end := Settled(d, path, paths, more[PARITY_AT := d], rows + 2);
    Round(d, path, paths, more, rows + 2);
    Extend(ss, es, f, WorkerRound, end);
    ss, es := ss + [end], es + [WorkerRound];
  }

  lemma FirstChunk(d: Data) returns (ss: seq<State>, es: seq<Event>, end: State)
    ensures end == Given(d, 0, 2, map[], 0) && Leads(ss, es, end)
  {
    hide Step;
    var a := State(EMPTY, multiset{});
    end := Given(d, 0, 2, map[], 0);
    FirstGrant(d);
    assert Leads([a], [], a);
    Extend([a], [], a, Grant([d], [], [0]), end);
    ss, es := [a] + [end], [] + [Grant([d], [], [0])];
  }

  // ----- a write that was cut off -----

  /** From an empty pool: a chunk is given out, its intent is logged, its file is written, and
      the process stops. Cleaning up then forgets the intent. The chunk is still allocated, and
      its stripe has no parity and nothing that would ever compute it. */
  lemma CutOffWriteIsForgotten() returns (states: seq<State>, events: seq<Event>, queued: seq<StripeId>, b: State)
    ensures IsRun(Mirror(), states, events) && states[0] == State(EMPTY, multiset{})
    ensures Tracked(Mirror(), states[|events|])
    ensures Step(Mirror(), states[|events|], CleanUp(states[|events|].pool, queued), b)
    ensures |b.pool.chunks| == 2 && IsData(b.pool.chunks[0]) && b.pool.chunks[0].loc in b.pool.files
    ensures !Fresh(Mirror(), b.pool, 0) && !Covered(b.pool, 0)
  {
    var s0, e0, g := FirstChunk([1]);
    var a;
    states, events, a := WriteUnlogged(s0, e0, [1], 0, 2, map[], 0);
    LeadsIsTracked(states, events, a);
    queued := [];
    b := State(a.pool.(log := []), multiset{});
    NothingClosed(a.pool);
    ParityOfOne(b.pool, [1]);
    assert !ParityIs(Mirror(), b.pool.chunks[1], b.pool.files, Content(b.pool, 0)) by {
      assert Content(b.pool, 0)[0].Some?;
    }
  }

  lemma NothingClosed(p: Pool)
    requires p.log == [LogRow(0, 0, 0, Pending)] && |p.chunks| == 2
    ensures Flushed(p, p, [], [])
  {
    OfOne(p.log[0], 0);
    OfOne(p.log[0], 1);
    EntriesOfLog(p.log, [], 2);
    var e := Entries(p.log, [], 2);
    assert DoneSet(e) == {} && FailedSet(e) == {} && ClosedStripes(e) == {};
    KeptAll(p.log, {});
  }

  // ----- a deletion that comes too late -----

  /** From an empty pool: a chunk is written and encoded, and released, which leaves the parity
      file to be deleted. The slot is given out, written and encoded again, to the same parity
      file. Then the deletion of the release takes the new parity. */
  lemma LateDeletionTakesNewParity() returns (states: seq<State>, events: seq<Event>, released: nat, b: State)
    ensures IsRun(Mirror(), states, events) && states[0] == State(EMPTY, multiset{})
    ensures Tracked(Mirror(), states[|events|])
    ensures released < |events| && events[released].ReleaseSlots? && PARITY_AT in events[released].stale
    ensures Fresh(Mirror(), states[|events|].pool, 0)
    ensures Step(Mirror(), states[|events|], DeleteFile(PARITY_AT), b)
    ensures !Fresh(Mirror(), b.pool, 0) && !Covered(b.pool, 0)
  {
    var s0, e0, g := FirstChunk([1]);
    var s1, e1, w := WriteAndEncode(s0, e0, [1], 0, 2, map[], 0);
    var s2, e2, files := ReleaseAndGrant(s1, e1, w);
    var a;
    released := |e1|;
    states, events, a := WriteAndEncode(s2, e2, [2], 2, 3, files, 2);
    LeadsIsTracked(states, events, a);
    ParityOfOne(a.pool, [2]);
    assert Fresh(Mirror(), a.pool, 0);
    b := State(a.pool.(files := a.pool.files - {PARITY_AT}), multiset{});
    assert !ParityIs(Mirror(), b.pool.chunks[1], b.pool.files, Content(b.pool, 0));
  }

  lemma ReleaseAndGrant(states: seq<State>, events: seq<Event>, w: State)
    returns (ss: seq<State>, es: seq<Event>, files: Files)
    requires w == Settled([1], 0, 2, map[Loc(0, 0) := [1]][PARITY_AT := [1]], 2)
    requires Leads(states, events, w)
    ensures Leads(ss, es, Given([2], 2, 3, files, 2))
    ensures events + [ReleaseSlots([0], [Loc(0, 0), PARITY_AT], {0})] <= es
  {
    hide Step, Leads;
    files := w.pool.files;
    var r := State(OneStripe(EmptySlot(2), None, 3, files, [], 2, []), multiset{});
    var g := Given([2], 2, 3, files, 2);
    var release := ReleaseSlots([0], [Loc(0, 0), PARITY_AT], {0});
    Releasing([1], 2, files, 2);
    Extend(states, events, w, release, r);
    SecondGrant([2], 2, 3, files, 2);
    Extend(states + [r], events + [release], r, Grant([[2]], [0], [0]), g);
    ss, es := states + [r] + [g], events + [release] + [Grant([[2]], [0], [0])];
  }
}
