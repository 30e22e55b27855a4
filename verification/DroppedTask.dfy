/** A run from an empty pool, of two data and one parity disk, in which every write succeeds
    and a parity task is lost all the same. */
module DroppedTask {
  import opened Bytes
  import opened Wrappers
  import opened Tables
  import opened Database
  import opened Layout
  import opened ErasureCode
  import opened ChunkStore
  import opened WriteQueue
  import opened Flushing
  import opened Sequences
  import opened ParityState
  import opened Freshness
  import opened ParityRuns

  function DataSlot(i: nat, d: Option<Data>): Chunk {
    if d.Some? then Chunk(Allocated, DataChunk, 0, i, Loc(i, i), |d.value|, d)
    else Chunk(Reserved, DataChunk, 0, i, Loc(i, i), 0, None)
  }

  const BLANK_PARITY: Chunk := Chunk(Reserved, ParityChunk, 0, 0, Loc(2, 2), 0, None)

  const NO_CHUNKS: Pool := Pool(2, 1, 3, [], 0, 0, map[], [], 0, [], map[], map[])

  /** The pool with one stripe: its first slot holds `d`, its second maybe `e`. */
  function Two(d: Data, e: Option<Data>, files: Files, log: Log, rows: nat, tasks: seq<StripeId>): Pool {
    Pool(2, 1, 3, [DataSlot(0, Some(d)), DataSlot(1, e), BLANK_PARITY], 1, 3, files, log, rows, tasks, map[], map[])
  }

  const OPEN: Log := [LogRow(0, 0, 0, Pending)]

  function Stored(d: Data): Files { map[Loc(0, 0) := d] }

  /** The states of the run, one after the other. */
  function Stage(d: Data, e: Data, n: nat): State {
    if n == 0 then State(NO_CHUNKS, multiset{})
    else if n == 1 then State(Two(d, None, map[], [], 0, []), multiset{})
    else if n == 2 then State(Two(d, None, map[], OPEN, 1, []), multiset{0})
    else if n == 3 then State(Two(d, None, Stored(d), OPEN, 1, []), multiset{0})
    else if n == 4 then State(Two(d, None, Stored(d), Both(0), 2, []), multiset{})
    else if n == 5 then State(Two(d, None, Stored(d), [], 2, [0]), multiset{})
    else if n == 6 then State(Two(d, Some(e), Stored(d), [], 2, [0]), multiset{})
    else State(Two(d, Some(e), Stored(d), [], 2, []), multiset{})
  }

  /** A chunk is given out, written and flushed; a second one is given out; and the parity
      worker makes its round. */
  function Acts(d: Data, e: Data): seq<Event> {
    [Grant([d], [], [0]), LogIntents([0]), WriteFiles([0], [d], [Written]), LogResults([0], [Written]),
     FlushQueue([0], [0]), Grant([e], [1], [1]), WorkerRound]
  }

  lemma TwoIsLaidOut(p: Pool)
    requires p.ds == 2 && p.ps == p.stripes == 1 && p.disks == p.paths == |p.chunks| == 3
    requires IsSlot(p.chunks[0], 0, DataChunk, 0) && IsSlot(p.chunks[1], 0, DataChunk, 1)
    requires IsSlot(p.chunks[2], 0, ParityChunk, 0)
    requires forall c | 0 <= c < 3 :: p.chunks[c].loc == Loc(c, c)
    ensures LaidOut(p)
  {
    forall s: nat, kind, i: nat | s < p.stripes && i < Shards(p, kind) ensures HasSlot(p.chunks, s, kind, i) {
      assert kind == DataChunk ==> IsSlot(p.chunks[i], s, kind, i);
      assert kind == ParityChunk ==> IsSlot(p.chunks[2], s, kind, i);
    }
  }

  lemma FirstGrantOfTwo(code: Code, d: Data, e: Data)
    ensures Step(code, Stage(d, e, 0), Acts(d, e)[0], Stage(d, e, 1))
  {
    hide LaidOut;
    TwoIsLaidOut(Stage(d, e, 1).pool);
    assert [0][..0] == [];
  }

  lemma SecondGrantOfTwo(code: Code, d: Data, e: Data)
    ensures Step(code, Stage(d, e, 5), Acts(d, e)[5], Stage(d, e, 6))
  {
    hide LaidOut;
    TwoIsLaidOut(Stage(d, e, 6).pool);
  }

  lemma WriteSteps(code: Code, d: Data, e: Data)
    ensures Step(code, Stage(d, e, 1), Acts(d, e)[1], Stage(d, e, 2))
    ensures Step(code, Stage(d, e, 2), Acts(d, e)[2], Stage(d, e, 3))
    ensures Step(code, Stage(d, e, 3), Acts(d, e)[3], Stage(d, e, 4))
  {
    var p, q := Stage(d, e, 1).pool, Stage(d, e, 3).pool;
    assert Members([0]) == {0};
    assert NewRows(p, [0], Intents(1)) == OPEN;
    assert NewRows(q, [0], Results([Written])) == [LogRow(1, 0, 0, Success)];
    forall l | Elsewhere(q.chunks, [0], 1, l) ensures l != Loc(0, 0) { assert q.chunks[[0][0]].loc == Loc(0, 0); }
  }

  lemma EntriesOfTwo(log: Log)
    requires Of(log, 0) == log && Of(log, 1) == [] && Of(log, 2) == []
    ensures Entries(log, [0], 3) == log
  {
    assert Entries(log, [0], 0) == [] && 0 in [0];
    assert Entries(log, [0], 1) == [] + Of(log, 0) == log;
    assert Entries(log, [0], 2) == log;
  }

  lemma FlushStepOfTwo(code: Code, d: Data, e: Data)
    ensures Step(code, Stage(d, e, 4), FlushQueue([0], [0]), Stage(d, e, 5))
  {
    hide Entries, Flushed, Stage, Both;
    BothEntries();
    LogOfFour(d, e);
    OnePairFlushes(Stage(d, e, 4).pool, 0);
  }

  lemma BothEntries()
    ensures Entries(Both(0), [0], 3) == Both(0)
  {
    hide Entries;
    OfBoth(0, 0);
    OfBoth(0, 1);
    OfBoth(0, 2);
    EntriesOfTwo(Both(0));
  }

  lemma LogOfFour(d: Data, e: Data)
    ensures var p := Stage(d, e, 4).pool;
            && p.log == Both(0) && |p.chunks| == 3 && Stage(d, e, 4).inflight == multiset{}
            && Stage(d, e, 5) == State(p.(log := [], tasks := p.tasks + [0]), multiset{})
  {
  }

  lemma RoundStepOfTwo(code: Code, d: Data, e: Data)
    ensures Step(code, Stage(d, e, 6), Acts(d, e)[6], Stage(d, e, 7))
  {
    var p := Stage(d, e, 6).pool;
    assert p.chunks[1].loc !in p.files && Unwritten(p, 0);
  }

  function Stages(d: Data, e: Data): seq<State> { seq(8, n requires n >= 0 => Stage(d, e, n)) }

  lemma ActsAreRun(code: Code, d: Data, e: Data)
    ensures IsRun(code, Stages(d, e), Acts(d, e))
  {
    hide Step, Stage;
    FirstGrantOfTwo(code, d, e);
    SecondGrantOfTwo(code, d, e);
    WriteSteps(code, d, e);
    FlushStepOfTwo(code, d, e);
    RoundStepOfTwo(code, d, e);
    forall i | 0 <= i < 7 ensures Step(code, Stages(d, e)[i], Acts(d, e)[i], Stages(d, e)[i + 1]) {
    }
  }

  /** The first chunk is on the disk, and its stripe waits for parity. */
  lemma WaitsForParity(code: Code, d: Data, e: Data)
    ensures !Fresh(code, Stage(d, e, 5).pool, 0) && !Intended(Stage(d, e, 5).pool, 0)
  {
    var p := Stage(d, e, 5).pool;
    assert HoldsData(p, 0, 0, 0) && SlotContent(p, 0, 0).Some? && Content(p, 0)[0].Some?;
    assert !ParityIs(code, p.chunks[2], p.files, Content(p, 0));
  }

  /** The run starts empty, all its writes succeed, and the first of them is on the disk in the end. */
  lemma Ends(d: Data, e: Data)
    ensures Stage(d, e, 0) == State(NO_CHUNKS, multiset{})
    ensures forall i | 0 <= i < 7 && Acts(d, e)[i].WriteFiles? :: AllWritten(Acts(d, e)[i].outcomes)
    ensures Holds(Stage(d, e, 7).pool, d) && Stage(d, e, 7).pool.tasks == [] && Stage(d, e, 7).pool.log == []
    ensures |Stage(d, e, 5).pool.chunks| == 3 && Stage(d, e, 5).pool.chunks[1].stripe == 0
  {
  }

  ghost predicate Holds(p: Pool, d: Data) {
    |p.chunks| > 0 && IsData(p.chunks[0]) && p.chunks[0].stripe == 0
    && p.chunks[0].loc in p.files && p.files[p.chunks[0].loc] == d
  }

  /** From an empty pool of two data and one parity disk, with any lawful code: a chunk is
      written and its stripe queued for parity; then a second chunk of the stripe is given out,
      and the worker makes its round before that chunk is on the disk. The first chunk, written
      and flushed, then has no parity, no task, and no intent in the write queue. */
  lemma RoundDropsTask(code: Code, d: Data, e: Data) returns (states: seq<State>, events: seq<Event>)
    requires Lawful(code) && code.ds == 2 && code.ps == 1
    ensures IsRun(code, states, events) && |events| == 7 && states[0] == State(NO_CHUNKS, multiset{})
    ensures forall i | 0 <= i < 7 && events[i].WriteFiles? :: AllWritten(events[i].outcomes)
    ensures Tracked(code, states[6]) && events[6].WorkerRound?
    ensures Holds(states[7].pool, d) && states[7].pool.tasks == [] && states[7].pool.log == []
    ensures Grounded(code, states[7]) && !Guarded(code, states[7].pool, 0)
  {
    hide Step, Stage, Tracked, Guarded, Grounded, Fresh, Intended, Holds;
    states, events := Stages(d, e), Acts(d, e);
    ActsAreRun(code, d, e);
    Ends(d, e);
    EmptyPoolIsTracked(code, NO_CHUNKS);
    RunStaysProtected(code, states, events, 6);
    WaitsForParity(code, d, e);
    RunStaysProtected(code, states, events, 5);
    GrantThenRound(code, states[5], events[5], states[6], states[7], 0);
  }
}
