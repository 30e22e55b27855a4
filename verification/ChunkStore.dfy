/** Writing chunks: slots are given out, the intent is logged, the files are written, the
    outcome is logged and finished writes are moved on to the parity worker. */
module ChunkStore {
  import opened Bytes
  import opened Wrappers
  import opened Tables
  import opened Database
  import opened Sequences
  import opened Layout
  import opened Allocation
  import opened WriteQueue
  import opened Flushing

  /** What the disk did with a write; a broken one may leave anything in the file. */
  datatype Outcome = Written | Broken(left: Option<Data>)

  // ----- the steps -----

  function NewRows(p: Pool, ids: seq<ChunkId>, statuses: seq<WriteStatus>): (rows: seq<LogRow>)
    requires |statuses| == |ids| && forall k | 0 <= k < |ids| :: ids[k] < |p.chunks|
    ensures |rows| == |ids|
  {
    seq(|ids|, k requires 0 <= k < |ids| => LogRow(p.rows + k, ids[k], p.chunks[ids[k]].stripe, statuses[k]))
  }

  ghost predicate Known(p: Pool, ids: seq<ChunkId>) { forall k | 0 <= k < |ids| :: ids[k] < |p.chunks| }

  ghost predicate RowsLogged(p: Pool, q: Pool, ids: seq<ChunkId>, statuses: seq<WriteStatus>) {
    && Known(p, ids) && |statuses| == |ids|
    && q == p.(log := p.log + NewRows(p, ids, statuses), rows := p.rows + |ids|)
  }

  function Intents(n: nat): (r: seq<WriteStatus>)
    ensures |r| == n && forall k | 0 <= k < n :: r[k] == Pending
  {
    seq(n, _ => Pending)
  }

  function Results(outcomes: seq<Outcome>): (r: seq<WriteStatus>)
    ensures |r| == |outcomes| && forall k | 0 <= k < |r| :: r[k] == if outcomes[k] == Written then Success else Fail
  {
    seq(|outcomes|, k requires 0 <= k < |outcomes| => if outcomes[k] == Written then Success else Fail)
  }

  ghost predicate FileAfter(before: Files, after: Files, l: Loc, data: Data, o: Outcome) {
    match o
    case Written => l in after && after[l] == data
    case Broken(Some(left)) => l in after && after[l] == left
    case Broken(None) => SameFile(before, after, l)
  }

  ghost predicate FilesWritten(p: Pool, q: Pool, ids: seq<ChunkId>, data: seq<Data>, outcomes: seq<Outcome>) {
    && Known(p, ids) && |data| == |outcomes| == |ids|
    && q == p.(files := q.files)
    && (forall k | 0 <= k < |ids| :: FileAfter(p.files, q.files, p.chunks[ids[k]].loc, data[k], outcomes[k]))
    && (forall l | Elsewhere(p.chunks, ids, |ids|, l) :: SameFile(p.files, q.files, l))
  }

  /** None of the first `n` chunks lives in the file. */
  ghost predicate Elsewhere(chunks: seq<Chunk>, ids: seq<ChunkId>, n: nat, l: Loc)
    requires n <= |ids| && forall k | 0 <= k < |ids| :: ids[k] < |chunks|
  {
    forall k | 0 <= k < n :: chunks[ids[k]].loc != l
  }

  // ----- the operations -----

  method CreateWriteQueue(db: PoolDb, ids: seq<ChunkId>, statuses: seq<WriteStatus>)
    requires Known(db.State(), ids) && |statuses| == |ids|
    modifies db`log, db`rows
    ensures RowsLogged(old(db.State()), db.State(), ids, statuses)
  {
    ghost var p := db.State();
    var entries: seq<LogRow> := [];
    for i := 0 to |ids|
      invariant |entries| == i && forall k | 0 <= k < i ::
                  entries[k] == LogRow(db.rows + k, ids[k], db.chunks[ids[k]].stripe, statuses[k])
    {
      entries := entries + [LogRow(db.rows + i, ids[i], db.chunks[ids[i]].stripe, statuses[i])];
    }
    assert entries == NewRows(p, ids, statuses);
    db.log := db.log + entries;
    db.rows := db.rows + |entries|;
  }

  lemma ElsewhereNext(chunks: seq<Chunk>, ids: seq<ChunkId>, i: nat, l: Loc)
    requires i < |ids| && forall k | 0 <= k < |ids| :: ids[k] < |chunks|
    ensures Elsewhere(chunks, ids, i + 1, l) <==> Elsewhere(chunks, ids, i, l) && chunks[ids[i]].loc != l
  {
  }

  method WriteChunkFiles(db: PoolDb, ids: seq<ChunkId>, data: seq<Data>, outcomes: seq<Outcome>)
    requires Known(db.State(), ids) && |data| == |outcomes| == |ids| && Distinct(ids) && PathsApart(db.State())
    modifies db`files
    ensures FilesWritten(old(db.State()), db.State(), ids, data, outcomes)
  {
    for i := 0 to |ids|
      invariant forall k | 0 <= k < i :: FileAfter(old(db.files), db.files, db.chunks[ids[k]].loc, data[k], outcomes[k])
      invariant forall l | Elsewhere(db.chunks, ids, i, l) :: SameFile(old(db.files), db.files, l)
    {
      var l := db.chunks[ids[i]].loc;
      ghost var before := db.files;
      match outcomes[i] {
        case Written => db.files := db.files[l := data[i]];
        case Broken(Some(left)) => db.files := db.files[l := left];
        case Broken(None) =>
      }
      forall m | Elsewhere(db.chunks, ids, i + 1, m) ensures SameFile(old(db.files), db.files, m) {
        ElsewhereNext(db.chunks, ids, i, m);
        assert SameFile(old(db.files), before, m);
      }
    }
  }

  ghost predicate AllWritten(outcomes: seq<Outcome>) { forall k | 0 <= k < |outcomes| :: outcomes[k] == Written }

  method FirstError(outcomes: seq<Outcome>) returns (ok: bool)
    ensures ok <==> AllWritten(outcomes)
  {
    for i := 0 to |outcomes|
      invariant forall k | 0 <= k < i :: outcomes[k] == Written
    {
      if outcomes[i] != Written {
        return false;
      }
    }
    ok := true;
  }

  /** The states a write goes through. */
  datatype Trace = Trace(logged: Pool, written: Pool, reported: Pool, queued: seq<StripeId>)

  ghost predicate Persisted(p: Pool, q: Pool, ids: seq<ChunkId>, data: seq<Data>, outcomes: seq<Outcome>, t: Trace) {
    && RowsLogged(p, t.logged, ids, Intents(|ids|))
    && FilesWritten(t.logged, t.written, ids, data, outcomes)
    && RowsLogged(t.written, t.reported, ids, Results(outcomes))
    && Flushed(t.reported, q, ids, t.queued)
  }

  method PersistChunkData(db: PoolDb, ids: seq<ChunkId>, data: seq<Data>, outcomes: seq<Outcome>)
    returns (ok: bool, ghost t: Trace)
    requires Known(db.State(), ids) && |data| == |outcomes| == |ids| && Distinct(ids) && PathsApart(db.State())
    modifies db`chunks, db`log, db`rows, db`files, db`tasks
    ensures Persisted(old(db.State()), db.State(), ids, data, outcomes, t)
    ensures ok <==> AllWritten(outcomes)
  {
    CreateWriteQueue(db, ids, Intents(|ids|));
    ghost var logged := db.State();
    WriteChunkFiles(db, ids, data, outcomes);
    ghost var written := db.State();
    CreateWriteQueue(db, ids, Results(outcomes));
    ghost var reported := db.State();
    var queued := Flush(db, ids);
    t := Trace(logged, written, reported, queued);
    ok := FirstError(outcomes);
  }

  datatype StoreResult =
    | Saved(ids: seq<ChunkId>) | EmptyInput | Denied(error: AllocError) | WriteFailed(ids: seq<ChunkId>)

  /** There is nothing to store, or an item without bytes. */
  ghost predicate AnyEmpty(items: seq<Data>) { items == [] || exists k | 0 <= k < |items| :: items[k] == [] }

  method HasEmpty(items: seq<Data>) returns (b: bool)
    ensures b <==> |items| == 0 || exists k | 0 <= k < |items| :: |items[k]| == 0
  {
    if |items| == 0 {
      return true;
    }
    for i := 0 to |items|
      invariant forall k | 0 <= k < i :: |items[k]| > 0
    {
      if |items[i]| == 0 {
        return true;
      }
    }
    b := false;
  }

  /** Stores new chunks. It fails for the first reason there is, and only then; on success they
      hold the items in order and no other written chunk has changed. */
  method AddChunks(db: PoolDb, online: bool, limit: nat, disks: seq<DiskId>, items: seq<Data>,
                   reserved: seq<ChunkId>, shuffle: nat -> seq<DiskId>, outcomes: seq<Outcome>)
    returns (r: StoreResult, ghost granted: Pool, ghost t: Trace)
    requires LaidOut(db.State()) && IsPick(db.chunks, reserved, |items|) && |outcomes| == |items|
    requires (forall d | d in disks :: d < db.disks) && forall s :: Shuffled(shuffle(s), disks)
    modifies db`chunks, db`stripes, db`paths, db`log, db`rows, db`files, db`tasks
    ensures r.EmptyInput? <==> |items| == 0 || exists k | 0 <= k < |items| :: |items[k]| == 0
    ensures r.EmptyInput? || r.Denied? ==> db.State() == old(db.State())
    ensures r.Denied? <==>
              !AnyEmpty(items) && (!online || TooLarge(items, limit) ||
                (|items| > |reserved| && !(|disks| == db.ds + db.ps > 0)))
    ensures r.Denied? ==>
              r.error == if !online then PoolOffline else if TooLarge(items, limit) then ChunkTooLarge
                         else if db.ds + db.ps == 0 then BadStripeCapacity else DisksOffline
    ensures r.Saved? <==>
              && !AnyEmpty(items) && online && !TooLarge(items, limit)
              && (|items| == |reserved| || |disks| == db.ds + db.ps > 0) && AllWritten(outcomes)
    ensures r.WriteFailed? <==> !r.EmptyInput? && !r.Denied? && !AllWritten(outcomes)
    ensures r.Saved? || r.WriteFailed? ==> LaidOut(granted) && Grants(old(db.State()), granted, items, reserved, r.ids)
    ensures r.Saved? || r.WriteFailed? ==> Persisted(granted, db.State(), r.ids, items, outcomes, t)
  {
    granted, t := db.State(), Trace(db.State(), db.State(), db.State(), []);
    var empty := HasEmpty(items);
    if empty {
      return EmptyInput, granted, t;
    }
    var g := GetNewChunks(db, online, limit, disks, items, reserved, shuffle);
    if g.Refused? {
      return Denied(g.error), granted, t;
    }
    granted := db.State();
    var ok;
    ok, t := PersistChunkData(db, g.ids, items, outcomes);
    r := if ok then Saved(g.ids) else WriteFailed(g.ids);
  }

  /** What the pool does when one chunk is stored: whether it is online, its data disks online and
      their order in a new stripe, the free slot its query picks, and what the disk does. */
  datatype Storing = Storing(online: bool, disks: seq<DiskId>, order: seq<DiskId>, pick: seq<Chunk> -> seq<ChunkId>,
                             outcome: Outcome)

  /** A pool with so many disks can do that: at most one slot is picked, and a free one. */
  ghost predicate Possible(disks: nat, s: Storing) {
    && (forall d | d in s.disks :: d < disks) && Shuffled(s.order, s.disks)
    && forall chunks: seq<Chunk> :: IsPick(chunks, s.pick(chunks), 1)
  }

  /** The pool is online, a free slot is picked or all disks for a new stripe are there, and the
      disk writes. */
  predicate Takes(p: Pool, s: Storing) {
    s.online && (|s.pick(p.chunks)| == 1 || |s.disks| == p.ds + p.ps > 0) && s.outcome == Written
  }

  // ----- what a successful write leaves -----

  /** The chunks are written, with these bytes. */
  ghost predicate HoldsBytes(q: Pool, ids: seq<ChunkId>, items: seq<Data>) {
    && |ids| == |items|
    && forall k | 0 <= k < |ids| ::
         ids[k] < |q.chunks| && IsRowOf(q.chunks[ids[k]], items[k]) &&
         q.chunks[ids[k]].loc in q.files && q.files[q.chunks[ids[k]].loc] == items[k]
  }

  predicate IsRowOf(c: Chunk, data: Data) { c.status == Allocated && c.size == |data| && c.hash == Some(data) }

  /** And they are data chunks. */
  ghost predicate HoldsItems(q: Pool, ids: seq<ChunkId>, items: seq<Data>) {
    HoldsBytes(q, ids, items) && forall k | 0 <= k < |ids| :: IsData(q.chunks[ids[k]])
  }

  /** Every other chunk keeps its row and its bytes. */
  ghost predicate OthersKept(p: Pool, q: Pool, ids: seq<ChunkId>) {
    && |p.chunks| <= |q.chunks|
    && forall c | 0 <= c < |p.chunks| && c !in ids ::
         q.chunks[c] == p.chunks[c] && SameFile(p.files, q.files, p.chunks[c].loc)
  }

  lemma FailedAreSelected(log: Log, ids: seq<ChunkId>, n: nat, c: ChunkId)
    requires ids != [] && c in FailedSet(Entries(log, ids, n))
    ensures c in ids
  {
    var e := Entries(log, ids, n);
    var k :| 0 <= k < |e| && Closes(e, k) && e[k].status == Fail && e[k].chunk == c;
    EntriesRow(log, ids, n, e[k]);
  }

  /** Files of chunks that are not written stay as they are. */
  lemma FilesElsewhere(p: Pool, q: Pool, ids: seq<ChunkId>, data: seq<Data>, outcomes: seq<Outcome>)
    requires PathsApart(p) && FilesWritten(p, q, ids, data, outcomes)
    ensures forall c | 0 <= c < |p.chunks| && c !in ids :: SameFile(p.files, q.files, p.chunks[c].loc)
  {
    forall c | 0 <= c < |p.chunks| && c !in ids ensures SameFile(p.files, q.files, p.chunks[c].loc) {
      forall k | 0 <= k < |ids| ensures p.chunks[ids[k]].loc != p.chunks[c].loc {
        assert ids[k] in ids;
      }
      assert Elsewhere(p.chunks, ids, |ids|, p.chunks[c].loc);
    }
  }

  lemma FilesHold(p: Pool, q: Pool, ids: seq<ChunkId>, data: seq<Data>, outcomes: seq<Outcome>)
    requires AllWritten(outcomes) && FilesWritten(p, q, ids, data, outcomes)
    ensures forall k | 0 <= k < |ids| :: p.chunks[ids[k]].loc in q.files && q.files[p.chunks[ids[k]].loc] == data[k]
  {
    forall k | 0 <= k < |ids| ensures p.chunks[ids[k]].loc in q.files && q.files[p.chunks[ids[k]].loc] == data[k] {
      assert FileAfter(p.files, q.files, p.chunks[ids[k]].loc, data[k], outcomes[k]);
    }
  }

  /** Whatever the disks do, other chunks keep row and bytes, and no row moves. */
  lemma PersistedOthers(p: Pool, q: Pool, ids: seq<ChunkId>, data: seq<Data>, outcomes: seq<Outcome>, t: Trace)
    requires PathsApart(p) && ids != [] && Persisted(p, q, ids, data, outcomes, t)
    ensures OthersKept(p, q, ids) && |q.chunks| == |p.chunks|
    ensures forall c | 0 <= c < |p.chunks| ::
              SameSlot(p.chunks[c], q.chunks[c]) && q.chunks[c].loc == p.chunks[c].loc &&
                q.chunks[c].status == p.chunks[c].status
    ensures q == p.(chunks := q.chunks, log := q.log, rows := q.rows, files := q.files, tasks := q.tasks)
    ensures forall l | Elsewhere(p.chunks, ids, |ids|, l) :: SameFile(p.files, q.files, l)
  {
    FilesElsewhere(t.logged, t.written, ids, data, outcomes);
    var r := t.reported;
    forall c | 0 <= c < |p.chunks| && c !in ids ensures q.chunks[c] == p.chunks[c] {
      if c in FailedSet(Entries(r.log, ids, |r.chunks|)) {
        FailedAreSelected(r.log, ids, |r.chunks|, c);
      }
    }
  }

  /** Rows that already describe what was written stay as they are. */
  lemma PersistedHolds(p: Pool, q: Pool, ids: seq<ChunkId>, data: seq<Data>, outcomes: seq<Outcome>, t: Trace)
    requires PathsApart(p) && ids != [] && AllWritten(outcomes) && Persisted(p, q, ids, data, outcomes, t)
    requires forall k | 0 <= k < |ids| :: IsRowOf(p.chunks[ids[k]], data[k])
    ensures HoldsBytes(q, ids, data) && OthersKept(p, q, ids) && q.chunks == p.chunks
    ensures q == p.(log := q.log, rows := q.rows, files := q.files, tasks := q.tasks)
  {
    PersistedOthers(p, q, ids, data, outcomes, t);
    FilesHold(t.logged, t.written, ids, data, outcomes);
    forall c | 0 <= c < |p.chunks| ensures q.chunks[c] == p.chunks[c] {
      if c in ids {
        var k :| 0 <= k < |ids| && ids[k] == c;
      }
    }
  }

  /** The row of a chunk whose write failed is recalculated. */
  lemma BrokenIsFailed(p: Pool, q: Pool, ids: seq<ChunkId>, data: seq<Data>, outcomes: seq<Outcome>, t: Trace, k: nat)
    requires Persisted(p, q, ids, data, outcomes, t) && Distinct(ids) && k < |ids| && outcomes[k] != Written
    ensures ids[k] in FailedSet(Entries(t.reported.log, ids, |t.reported.chunks|))
  {
    var c, w := ids[k], Of(p.log, ids[k]);
    var intents, results := NewRows(p, ids, Intents(|ids|)), NewRows(t.written, ids, Results(outcomes));
    OfAppend(p.log, intents, c);
    OfAppend(p.log + intents, results, c);
    OneRowEach(intents, c);
    OneRowEach(results, c);
    assert Of(t.reported.log, c) == w + [intents[k]] + [results[k]];
    var at := PairInEntries(t.reported.log, ids, |t.reported.chunks|, c, |w| + 1);
  }

  /** Whatever the disks do, rows that described what was to be written describe in the end what
      was. */
  lemma PersistedDescribes(p: Pool, q: Pool, ids: seq<ChunkId>, data: seq<Data>, outcomes: seq<Outcome>, t: Trace,
                           k: nat)
    requires Persisted(p, q, ids, data, outcomes, t) && Distinct(ids) && k < |ids|
    requires IsRowOf(p.chunks[ids[k]], data[k])
    ensures var c := q.chunks[ids[k]];
            && c.loc == p.chunks[ids[k]].loc && (c.loc in p.files ==> c.loc in q.files)
            && (c.loc in q.files ==> c.hash == Some(q.files[c.loc]) && c.size == |q.files[c.loc]|)
  {
    assert FileAfter(p.files, t.written.files, p.chunks[ids[k]].loc, data[k], outcomes[k]);
    if outcomes[k] != Written { BrokenIsFailed(p, q, ids, data, outcomes, t, k); }
  }

  /** Whatever the disks do, chunks that were written before keep row and bytes. */
  lemma AddedOthers(p: Pool, g: Pool, q: Pool, items: seq<Data>, reserved: seq<ChunkId>, ids: seq<ChunkId>,
                    outcomes: seq<Outcome>, t: Trace)
    requires LaidOut(g) && IsPick(p.chunks, reserved, |items|) && items != []
    requires Grants(p, g, items, reserved, ids) && Persisted(g, q, ids, items, outcomes, t)
    ensures OthersKept(p, q, ids) && LaidOut(q) && q.refs == p.refs && q.caches == p.caches
    ensures forall c | c in ids && c < |p.chunks| :: p.chunks[c].status == Reserved
  {
    PersistedOthers(g, q, ids, items, outcomes, t);
    SameSlotsKeep(g, q);
    forall c | c in ids && c < |p.chunks| ensures p.chunks[c].status == Reserved && c in reserved {
      var k :| 0 <= k < |ids| && ids[k] == c;
      assert ids[..|reserved|][k] == c;
    }
    forall c | 0 <= c < |p.chunks| && c !in ids ensures g.chunks[c] == p.chunks[c] {
      forall k | 0 <= k < |reserved| ensures reserved[k] != c { assert ids[k] == reserved[k] && ids[k] in ids; }
    }
  }

  /** New chunks hold the items; every chunk that was written before keeps row and bytes. */
  lemma AddedHolds(p: Pool, g: Pool, q: Pool, items: seq<Data>, reserved: seq<ChunkId>, ids: seq<ChunkId>,
                   outcomes: seq<Outcome>, t: Trace)
    requires LaidOut(g) && IsPick(p.chunks, reserved, |items|) && items != [] && AllWritten(outcomes)
    requires Grants(p, g, items, reserved, ids) && Persisted(g, q, ids, items, outcomes, t)
    ensures HoldsItems(q, ids, items) && OthersKept(p, q, ids) && LaidOut(q)
    ensures forall c | c in ids && c < |p.chunks| :: p.chunks[c].status == Reserved
    ensures q.refs == p.refs && q.caches == p.caches && q.chunks == g.chunks
  {
    AddedOthers(p, g, q, items, reserved, ids, outcomes, t);
    PersistedHolds(g, q, ids, items, outcomes, t);
  }

  // ----- starting up -----

  /** Moves finished writes on and forgets the rest; returns how many rows were forgotten. */
  method CleanupWriteQueueOnStartup(db: PoolDb) returns (removed: nat, ghost flushed: Pool, ghost queued: seq<StripeId>)
    modifies db`chunks, db`log, db`tasks
    ensures Flushed(old(db.State()), flushed, [], queued)
    ensures db.State() == flushed.(log := []) && removed == |flushed.log|
  {
    queued := Flush(db, []);
    flushed := db.State();
    removed := |db.log|;
    db.log := [];
  }
}
