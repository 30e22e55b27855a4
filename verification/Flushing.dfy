/** Moving finished writes from the write queue to the stripe queue. */
module Flushing {
  import opened Wrappers
  import opened Tables
  import opened Database
  import opened Sequences
  import opened WriteQueue

  /** A write whose outcome is known. */
  datatype DoneWrite = DoneWrite(chunk: ChunkId, stripe: StripeId, pendingId: nat, resultId: nat, failed: bool)

  /** Row `k` closes the write the row before it opened. */
  predicate Closes(e: Log, k: nat) { 0 < k < |e| && IsPair(e[k - 1], e[k]) }

  function DoneWriteAt(e: Log, k: nat): DoneWrite
    requires 0 < k < |e|
  {
    DoneWrite(e[k].chunk, e[k].stripe, e[k - 1].id, e[k].id, e[k].status == Fail)
  }

  /** The finished writes among the first `n` rows. */
  function Finished(e: Log, n: nat): seq<DoneWrite>
    requires n <= |e|
  {
    if n < 2 then []
    else Finished(e, n - 1) + if Closes(e, n - 1) then [DoneWriteAt(e, n - 1)] else []
  }

  ghost function DoneSet(e: Log): set<nat> { set k | 0 <= k < |e| && Done(e, k) :: e[k].id }

  ghost function FailedSet(e: Log): set<ChunkId> {
    set k | 0 <= k < |e| && Closes(e, k) && e[k].status == Fail :: e[k].chunk
  }

  ghost function ClosedStripes(e: Log): set<StripeId> { set k | 0 <= k < |e| && Closes(e, k) :: e[k].stripe }

  /** Chunks whose write failed are described by what is on the disk, if it can be read. */
  function Recalculated(c: Chunk, files: Files): Chunk {
    if c.loc in files then c.(size := |files[c.loc]|, hash := Some(files[c.loc])) else c
  }

  /** The rows of all pairs are gone, the stripe of each pair is queued once, and the rows
      of chunks whose write failed are recalculated. */
  ghost predicate Flushed(p: Pool, q: Pool, ids: seq<ChunkId>, queued: seq<StripeId>) {
    var e := Entries(p.log, ids, |p.chunks|);
    && q == p.(chunks := q.chunks, log := q.log, tasks := q.tasks)
    && q.log == Kept(p.log, DoneSet(e))
    && q.tasks == p.tasks + queued && Distinct(queued) && (forall s :: s in queued <==> s in ClosedStripes(e))
    && |q.chunks| == |p.chunks|
    && forall c | 0 <= c < |p.chunks| ::
         q.chunks[c] == if c in FailedSet(e) then Recalculated(p.chunks[c], p.files) else p.chunks[c]
  }

  /** A chunk without a file that can be read keeps its row. */
  method RecalcChunksFromDisk(db: PoolDb, ids: set<ChunkId>)
    modifies db`chunks
    ensures |db.chunks| == |old(db.chunks)|
    ensures forall c | 0 <= c < |db.chunks| ::
              db.chunks[c] == if c in ids then Recalculated(old(db.chunks)[c], db.files) else old(db.chunks)[c]
    ensures forall c | c in ids && c < |db.chunks| && old(db.chunks)[c].loc in db.files ::
              var data := db.files[old(db.chunks)[c].loc];
              db.chunks[c] == old(db.chunks)[c].(size := |data|, hash := Some(data))
    ensures forall c | 0 <= c < |db.chunks| && (c !in ids || old(db.chunks)[c].loc !in db.files) ::
              db.chunks[c] == old(db.chunks)[c]
  {
    for c := 0 to |db.chunks|
      invariant |db.chunks| == |old(db.chunks)|
      invariant forall k | 0 <= k < c ::
                  db.chunks[k] == if k in ids then Recalculated(old(db.chunks)[k], db.files) else old(db.chunks)[k]
      invariant forall k | c <= k < |db.chunks| :: db.chunks[k] == old(db.chunks)[k]
    {
      if c in ids {
        db.chunks := db.chunks[c := Recalculated(db.chunks[c], db.files)];
      }
    }
  }

  method FindFinished(entries: Log) returns (done: seq<DoneWrite>)
    ensures done == Finished(entries, |entries|)
  {
    done := [];
    var i := 1;
    while i < |entries|
      invariant 1 <= i && (i <= |entries| || entries == [])
      invariant done == if entries == [] then [] else Finished(entries, i)
    {
      var prev, cur := entries[i - 1], entries[i];
      if prev.chunk == cur.chunk && prev.status == Pending && (cur.status == Success || cur.status == Fail) {
        done := done + [DoneWrite(cur.chunk, cur.stripe, prev.id, cur.id, cur.status == Fail)];
      }
      i := i + 1;
    }
  }

  /** Splits the finished writes into rows to delete and stripes to queue. */
  method Collect(done: seq<DoneWrite>) returns (failed: set<ChunkId>, del: set<nat>, queued: seq<StripeId>)
    ensures failed == set d | d in done && d.failed :: d.chunk
    ensures del == (set d | d in done :: d.pendingId) + (set d | d in done :: d.resultId)
    ensures Distinct(queued) && forall s :: s in queued <==> s in (set d | d in done :: d.stripe)
  {
    failed, del, queued := {}, {}, [];
    var seen: set<StripeId> := {};
    for i := 0 to |done|
      invariant failed == set d | d in done[..i] && d.failed :: d.chunk
      invariant del == (set d | d in done[..i] :: d.pendingId) + (set d | d in done[..i] :: d.resultId)
      invariant Distinct(queued) && seen == (set d | d in done[..i] :: d.stripe)
      invariant forall s :: s in queued <==> s in seen
    {
      var d := done[i];
      assert done[..i + 1] == done[..i] + [d];
      if d.failed {
        failed := failed + {d.chunk};
      }
      del := del + {d.pendingId, d.resultId};
      if d.stripe !in seen {
        seen := seen + {d.stripe};
        queued := queued + [d.stripe];
      }
    }
    assert done[..|done|] == done;
  }

  lemma {:induction false} FinishedAre(e: Log, n: nat, d: DoneWrite)
    requires n <= |e|
    ensures d in Finished(e, n) <==> exists k :: 0 < k < n && Closes(e, k) && DoneWriteAt(e, k) == d
  {
    if n >= 2 {
      FinishedAre(e, n - 1, d);
    }
  }

  /** What the finished writes say about the log. */
  lemma FinishedSets(e: Log, done: seq<DoneWrite>)
    requires done == Finished(e, |e|)
    ensures (set d | d in done && d.failed :: d.chunk) == FailedSet(e)
    ensures (set d | d in done :: d.stripe) == ClosedStripes(e)
    ensures (set d | d in done :: d.pendingId) + (set d | d in done :: d.resultId) == DoneSet(e)
  {
    forall d ensures d in done <==> exists k :: 0 < k < |e| && Closes(e, k) && DoneWriteAt(e, k) == d {
      FinishedAre(e, |e|, d);
    }
    forall k | 0 <= k < |e| && Closes(e, k) ensures DoneWriteAt(e, k) in done {
    }
    forall k | 0 <= k < |e| && Done(e, k)
      ensures e[k].id in (set d | d in done :: d.pendingId) + (set d | d in done :: d.resultId)
    {
      var m := if Closes(e, k) then k else k + 1;
      assert DoneWriteAt(e, m) in done;
    }
    forall d | d in done ensures d.pendingId in DoneSet(e) && d.resultId in DoneSet(e) {
      var k :| 0 < k < |e| && Closes(e, k) && DoneWriteAt(e, k) == d;
      assert Done(e, k) && Done(e, k - 1);
    }
  }

  method Flush(db: PoolDb, ids: seq<ChunkId>) returns (queued: seq<StripeId>)
    modifies db`chunks, db`log, db`tasks
    ensures Flushed(old(db.State()), db.State(), ids, queued)
  {
    var entries := Entries(db.log, ids, |db.chunks|);
    var done := FindFinished(entries);
    var failed, del;
    failed, del, queued := Collect(done);
    FinishedSets(entries, done);
    if |done| == 0 {
      NothingDone(db.log, del, queued);
      return;
    }
    if failed != {} {
      RecalcChunksFromDisk(db, failed);
    }
    db.tasks := db.tasks + queued;
    db.log := Kept(db.log, del);
  }

  lemma NothingDone(log: Log, del: set<nat>, queued: seq<StripeId>)
    requires del == {} && forall s :: s !in queued
    ensures Kept(log, del) == log && queued == []
  {
    KeptAll(log, del);
    HasMember(queued);
  }

  // ----- flushing again and again -----

  /** The log after one flush of the whole table, and after flushing until nothing changes. */
  ghost function FlushLog(log: Log, n: nat): Log { Kept(log, DoneSet(Entries(log, [], n))) }

  ghost function SettleLog(log: Log, n: nat): Log
    decreases |log|
  {
    if |FlushLog(log, n)| < |log| then SettleLog(FlushLog(log, n), n) else log
  }

  ghost predicate WellLogged(log: Log, n: nat) { Ascending(log) && forall r | r in log :: r.chunk < n }

  lemma DoneSetIs(e: Log)
    ensures DoneIds(e, DoneSet(e))
  {
  }

  /** A flush of the table is one pass of cancellation on the log of every chunk. */
  lemma FlushLogProjects(log: Log, n: nat, c: ChunkId)
    requires WellLogged(log, n)
    ensures Of(FlushLog(log, n), c) == Cancel(Of(log, c))
  {
    DoneSetIs(Entries(log, [], n));
    FlushProjects(log, [], n, DoneSet(Entries(log, [], n)), c);
  }

  lemma {:induction false} KeptShorter(log: Log, del: set<nat>)
    ensures |Kept(log, del)| <= |log|
    ensures |Kept(log, del)| == |log| ==> Kept(log, del) == log
  {
    if log != [] { KeptShorter(log[1..], del); }
  }

  lemma {:induction false} KeptAscends(log: Log, del: set<nat>)
    requires Ascending(log)
    ensures Ascending(Kept(log, del))
  {
    if log != [] {
      var t, k := log[1..], Kept(log[1..], del);
      assert Ascending(t) by { forall i, j | 0 <= i < j < |t| ensures t[i].id < t[j].id { assert t[i] == log[i + 1]; } }
      KeptAscends(t, del);
      KeptSelects(t, del);
      forall j | 0 <= j < |k| ensures log[0].id < k[j].id {
        assert k[j] in k && k[j] in t;
      }
    }
  }

  lemma KeptKeeps(log: Log, n: nat, del: set<nat>)
    requires WellLogged(log, n)
    ensures WellLogged(Kept(log, del), n) && |Kept(log, del)| <= |log|
    ensures |Kept(log, del)| == |log| ==> Kept(log, del) == log
  {
    hide Kept, Ascending;
    KeptShorter(log, del);
    KeptAscends(log, del);
    KeptSelects(log, del);
  }

  lemma SettleCancels(w: Log)
    ensures Settle(Cancel(w)) == Settle(w)
  {
    CancelKeepsBalance(w);
    CancelShrinks(w);
  }

  /** Flushing again and again ends, and what it leaves of each chunk's log is what
      cancelling pairs in that log leaves. */
  lemma {:induction false} SettleLogProjects(log: Log, n: nat, c: ChunkId)
    requires WellLogged(log, n)
    ensures Of(SettleLog(log, n), c) == Settle(Of(log, c))
    decreases |log|
  {
    var next := FlushOnce(log, n, c);
    if |next| < |log| {
      SettleLogProjects(next, n, c);
    }
  }

  lemma FlushOnce(log: Log, n: nat, c: ChunkId) returns (next: Log)
    requires WellLogged(log, n)
    ensures next == FlushLog(log, n) && WellLogged(next, n)
    ensures |next| < |log| ==> Settle(Of(next, c)) == Settle(Of(log, c))
    ensures |next| >= |log| ==> Settle(Of(log, c)) == Of(log, c)
  {
    next := FlushLog(log, n);
    FlushLogProjects(log, n, c);
    KeptKeeps(log, n, DoneSet(Entries(log, [], n)));
    SettleCancels(Of(log, c));
  }

  lemma EmptyLog(log: Log)
    ensures log == [] <==> forall c :: Of(log, c) == []
  {
    if log == [] {
      forall c ensures Of(log, c) == [] {}
    } else {
      var c := log[0].chunk;
      OfSelects(log, c);
      assert log[0] in log;
      assert log[0] in Of(log, c);
      assert Of(log, c) != [];
    }
  }

  /** Repeated flushing empties exactly the logs in which every chunk's writes are all
      closed and no result comes before its intent; no pair is left in any case. */
  lemma RepeatedFlushEmptiesIff(log: Log, n: nat)
    requires WellLogged(log, n)
    ensures forall c :: NoPair(Of(SettleLog(log, n), c)) && Balance(Of(SettleLog(log, n), c)) == Balance(Of(log, c))
    ensures SettleLog(log, n) == [] <==> forall c :: Balance(Of(log, c)) == 0 && Low(Of(log, c)) == 0
  {
    var end := SettleLog(log, n);
    forall c ensures Of(end, c) == Settle(Of(log, c)) && NoPair(Of(end, c)) &&
      Balance(Of(end, c)) == Balance(Of(log, c))
      ensures Of(end, c) == [] <==> Balance(Of(log, c)) == 0 && Low(Of(log, c)) == 0
    {
      SettleLogProjects(log, n, c);
      OfSelects(log, c);
      SettleIff(Of(log, c), c);
    }
    EmptyLog(end);
  }

  // ----- pairs in the queue -----

  lemma PairInEntries(log: Log, ids: seq<ChunkId>, n: nat, c: ChunkId, i: nat) returns (k: nat)
    requires c < n && Selected(ids, c) && 0 < i < |Of(log, c)| && IsPair(Of(log, c)[i - 1], Of(log, c)[i])
    ensures Closes(Entries(log, ids, n), k) && Entries(log, ids, n)[k] == Of(log, c)[i]
  {
    var a, b := EntriesSplit(log, ids, n, c);
    k := |a| + i;
    PairInSegment(a, Of(log, c), b, i);
  }

  lemma PairInSegment(a: Log, w: Log, b: Log, i: nat)
    requires 0 < i < |w| && IsPair(w[i - 1], w[i])
    ensures Closes(a + w + b, |a| + i) && (a + w + b)[|a| + i] == w[i]
  {
    assert (a + w + b)[|a| + i - 1] == w[i - 1];
  }

  /** What a flush does for a finished write of a chunk it was asked about: its stripe is queued, once
      in the flush, and if it failed and the file can be read, the row describes that. */
  lemma FlushedPair(p: Pool, q: Pool, ids: seq<ChunkId>, queued: seq<StripeId>, c: ChunkId, i: nat)
    requires Flushed(p, q, ids, queued) && c < |p.chunks| && (ids == [] || c in ids) && 0 < i < |Of(p.log, c)|
    requires Of(p.log, c)[i - 1].status == Pending && Of(p.log, c)[i].status != Pending
    ensures Of(p.log, c)[i].stripe in queued && q.tasks == p.tasks + queued && Distinct(queued)
    ensures Of(p.log, c)[i].status == Fail && p.chunks[c].loc in p.files ==>
              var data := p.files[p.chunks[c].loc]; q.chunks[c] == p.chunks[c].(size := |data|, hash := Some(data))
  {
    OfSelects(p.log, c);
    assert Of(p.log, c)[i - 1] in Of(p.log, c) && Of(p.log, c)[i] in Of(p.log, c);
    var k := PairInEntries(p.log, ids, |p.chunks|, c, i);
    var e := Entries(p.log, ids, |p.chunks|);
    assert e[k].stripe in ClosedStripes(e);
    if Of(p.log, c)[i].status == Fail { assert c in FailedSet(e); }
  }
}
