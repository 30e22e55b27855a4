/** One round of the parity worker: every queued stripe that can be read gets new parity. */
module ParityWorker {
  import opened Bytes
  import opened Wrappers
  import opened Tables
  import opened Database
  import opened Sequences
  import opened Layout
  import opened ErasureCode
  import opened Stripes
  import opened StripeWorker
  import opened ParityState
  import Release

  // ----- preparing a stripe -----

  /** The job has the written data rows of the stripe, found by their slot, and its parity rows. */
  ghost predicate IsJob(p: Pool, s: StripeId, job: Job) {
    && (forall k | 0 <= k < |job.data| :: job.data[k] in p.chunks && IsData(job.data[k]) && job.data[k].stripe == s)
    && (forall k, m | 0 <= k < m < |job.data| :: job.data[k].index < job.data[m].index)
    && (forall c | 0 <= c < |p.chunks| && IsData(p.chunks[c]) && p.chunks[c].stripe == s ::
          ChunkAt(job.data, p.chunks[c].index) == Some(p.chunks[c]))
    && (forall j | j in job.parity :: IsSlot(job.parity[j], s, ParityChunk, j) && job.parity[j] in p.chunks)
    && (forall c | 0 <= c < |p.chunks| && p.chunks[c].kind == ParityChunk && p.chunks[c].stripe == s ::
          p.chunks[c].index in job.parity && job.parity[p.chunks[c].index] == p.chunks[c])
  }

  method IndexRows(db: PoolDb, s: StripeId) returns (data: map<nat, Chunk>, parity: map<nat, Chunk>)
    requires LaidOut(db.State())
    ensures forall i | i in data :: IsSlot(data[i], s, DataChunk, i) && IsData(data[i]) && data[i] in db.chunks
    ensures forall c | 0 <= c < |db.chunks| && IsData(db.chunks[c]) && db.chunks[c].stripe == s ::
              db.chunks[c].index in data && data[db.chunks[c].index] == db.chunks[c]
    ensures forall j | j in parity :: IsSlot(parity[j], s, ParityChunk, j) && parity[j] in db.chunks
    ensures forall c | 0 <= c < |db.chunks| && db.chunks[c].kind == ParityChunk && db.chunks[c].stripe == s ::
              db.chunks[c].index in parity && parity[db.chunks[c].index] == db.chunks[c]
  {
    data, parity := map[], map[];
    for c := 0 to |db.chunks|
      invariant forall i | i in data :: IsSlot(data[i], s, DataChunk, i) && IsData(data[i]) && data[i] in db.chunks
      invariant forall k | 0 <= k < c && IsData(db.chunks[k]) && db.chunks[k].stripe == s ::
                  db.chunks[k].index in data && data[db.chunks[k].index] == db.chunks[k]
      invariant forall j | j in parity :: IsSlot(parity[j], s, ParityChunk, j) && parity[j] in db.chunks
      invariant forall k | 0 <= k < c && db.chunks[k].kind == ParityChunk && db.chunks[k].stripe == s ::
                  db.chunks[k].index in parity && parity[db.chunks[k].index] == db.chunks[k]
    {
      var row := db.chunks[c];
      assert row in db.chunks;
      if row.stripe == s {
        if row.kind == ParityChunk {
          parity := parity[row.index := row];
        } else if row.status != Reserved {
          data := data[row.index := row];
        }
      }
    }
  }

  lemma ChunkAtAppend(data: seq<Chunk>, c: Chunk, i: nat)
    ensures ChunkAt(data + [c], i) == if c.index == i then Some(c) else ChunkAt(data, i)
  {
    assert (data + [c])[..|data|] == data;
  }

  /** The rows with an index below `n`, in order. */
  ghost predicate Ordered(byIndex: map<nat, Chunk>, n: nat, rows: seq<Chunk>) {
    && (forall k | 0 <= k < |rows| :: rows[k].index < n && rows[k].index in byIndex &&
          rows[k] == byIndex[rows[k].index])
    && (forall k, m | 0 <= k < m < |rows| :: rows[k].index < rows[m].index)
    && forall m: nat | m < n && m in byIndex :: ChunkAt(rows, m) == Some(byIndex[m])
  }

  lemma OrderedMore(byIndex: map<nat, Chunk>, n: nat, rows: seq<Chunk>)
    requires n in byIndex ==> byIndex[n].index == n
    requires Ordered(byIndex, n, rows)
    ensures Ordered(byIndex, n + 1, if n in byIndex then rows + [byIndex[n]] else rows)
  {
    hide ChunkAt;
    if n in byIndex {
      forall m: nat ensures ChunkAt(rows + [byIndex[n]], m) == if n == m then Some(byIndex[n]) else ChunkAt(rows, m) {
        ChunkAtAppend(rows, byIndex[n], m);
      }
    }
  }

  method InOrder(byIndex: map<nat, Chunk>, n: nat) returns (rows: seq<Chunk>)
    requires forall i | i in byIndex :: byIndex[i].index == i
    ensures Ordered(byIndex, n, rows)
  {
    rows := [];
    for i := 0 to n
      invariant Ordered(byIndex, i, rows)
    {
      OrderedMore(byIndex, i, rows);
      if i in byIndex {
        rows := rows + [byIndex[i]];
      }
    }
  }

  method BuildStripeJob(db: PoolDb, s: StripeId) returns (job: Job)
    requires LaidOut(db.State())
    ensures IsJob(db.State(), s, job)
  {
    var byIndex, parity := IndexRows(db, s);
    var ordered := InOrder(byIndex, db.ds);
    job := Job(ordered, parity);
  }

  lemma DifferentRows(p: Pool, a: Chunk, b: Chunk)
    requires PathsApart(p) && a in p.chunks && b in p.chunks && a != b
    ensures a.loc != b.loc
  {
  }

  lemma JobIsValid(code: Code, p: Pool, s: StripeId, job: Job)
    requires LaidOut(p) && code.ds == p.ds && code.ps == p.ps && s < p.stripes && IsJob(p, s, job)
    ensures ValidJob(code, job)
  {
    forall k, m | 0 <= k < m < |job.data| ensures job.data[k].loc != job.data[m].loc {
      DifferentRows(p, job.data[k], job.data[m]);
    }
    forall j, m | j in job.parity && m in job.parity && j != m ensures job.parity[j].loc != job.parity[m].loc {
      DifferentRows(p, job.parity[j], job.parity[m]);
    }
    forall k, j | 0 <= k < |job.data| && j in job.parity ensures job.data[k].loc != job.parity[j].loc {
      DifferentRows(p, job.data[k], job.parity[j]);
    }
    forall k | 0 <= k < |job.data| ensures job.data[k].index < code.ds {
      var c :| 0 <= c < |p.chunks| && p.chunks[c] == job.data[k];
    }
    forall j: nat ensures j in job.parity <==> j < code.ps {
      if j < code.ps {
        assert HasSlot(p.chunks, s, ParityChunk, j);
        var c :| 0 <= c < |p.chunks| && IsSlot(p.chunks[c], s, ParityChunk, j);
      }
    }
  }

  /** What the worker reads is what the slots hold. */
  lemma JobReadsContent(p: Pool, files: Files, s: StripeId, job: Job)
    requires LaidOut(p) && IsJob(p, s, job) && Readable(job.data, files)
    requires forall k | 0 <= k < |job.data| :: SameFile(p.files, files, job.data[k].loc)
    ensures SlotsOf(p.ds, job.data, files) == Content(p, s)
  {
    forall i | 0 <= i < p.ds ensures SlotsOf(p.ds, job.data, files)[i] == SlotContent(p, s, i) {
      JobReadsSlot(p, files, s, job, i);
    }
  }

  lemma JobReadsSlot(p: Pool, files: Files, s: StripeId, job: Job, i: nat)
    requires LaidOut(p) && IsJob(p, s, job) && Readable(job.data, files)
    requires forall k | 0 <= k < |job.data| :: SameFile(p.files, files, job.data[k].loc)
    ensures SlotContent(p, s, i) == if ChunkAt(job.data, i).Some? then Some(files[ChunkAt(job.data, i).value.loc])
              else None
  {
    var at := ChunkAt(job.data, i);
    if at.Some? {
      var k :| 0 <= k < |job.data| && job.data[k] == at.value;
      var c :| 0 <= c < |p.chunks| && p.chunks[c] == at.value;
      SlotContentIs(p, s, i, c);
    }
  }

  // ----- one round -----

  /** The stripe has data, and all of it can be read. */
  ghost predicate Encodable(p: Pool, s: StripeId) {
    Release.HasData(p.chunks, s) && !Unwritten(p, s)
  }

  /** A parity chunk that the round computes. */
  ghost predicate Computed(p: Pool, done: set<StripeId>, c: Chunk) {
    c.kind == ParityChunk && c.stripe in done && Encodable(p, c.stripe)
  }

  /** The parity shard that belongs into a chunk. */
  ghost function ParityShard(code: Code, p: Pool, c: Chunk): Data {
    var parity := Parity(code, Content(p, c.stripe));
    if c.index < |parity| then parity[c.index] else []
  }

  ghost predicate FilesComputed(code: Code, p: Pool, done: set<StripeId>, files: Files) {
    && (forall c | 0 <= c < |p.chunks| && Computed(p, done, p.chunks[c]) ::
          p.chunks[c].loc in files && files[p.chunks[c].loc] == ParityShard(code, p, p.chunks[c]))
    && (forall l | !ComputedAt(p, done, l) :: SameFile(p.files, files, l))
  }

  ghost predicate ComputedAt(p: Pool, done: set<StripeId>, l: Loc) {
    exists c :: 0 <= c < |p.chunks| && Computed(p, done, p.chunks[c]) && p.chunks[c].loc == l
  }

  function Encoded(c: Chunk, shard: Data): Chunk { c.(status := Allocated, size := |shard|, hash := Some(shard)) }

  /** What a round does: files and rows of the parity of every queued stripe whose data can
      be read; no task is left. */
  ghost predicate RoundDone(code: Code, p: Pool, q: Pool) {
    var done := Members(p.tasks);
    && q == p.(chunks := q.chunks, files := q.files, tasks := [])
    && FilesComputed(code, p, done, q.files)
    && |q.chunks| == |p.chunks|
    && forall c | 0 <= c < |p.chunks| ::
         q.chunks[c] == if Computed(p, done, p.chunks[c])
           then Encoded(p.chunks[c], ParityShard(code, p, p.chunks[c])) else p.chunks[c]
  }

  /** Computed parity never overwrites a data file. */
  lemma DataUntouched(code: Code, p: Pool, done: set<StripeId>, files: Files, c: Chunk)
    requires PathsApart(p) && FilesComputed(code, p, done, files) && c in p.chunks && IsData(c)
    ensures SameFile(p.files, files, c.loc)
  {
    forall k | 0 <= k < |p.chunks| && Computed(p, done, p.chunks[k]) ensures p.chunks[k].loc != c.loc {
      DifferentRows(p, p.chunks[k], c);
    }
  }

  lemma JobHasData(p: Pool, s: StripeId, job: Job)
    requires SlotsWithin(p) && IsJob(p, s, job)
    ensures Release.HasData(p.chunks, s) <==> |job.data| > 0
    ensures |job.data| > 0 ==> s < p.stripes
  {
    if |job.data| > 0 {
      var c :| 0 <= c < |p.chunks| && p.chunks[c] == job.data[0];
    }
    if Release.HasData(p.chunks, s) {
      var c :| 0 <= c < |p.chunks| && IsData(p.chunks[c]) && p.chunks[c].stripe == s;
      assert p.chunks[c] in job.data;
    }
  }

  lemma JobUnwritten(p: Pool, s: StripeId, job: Job)
    requires IsJob(p, s, job)
    ensures Unwritten(p, s) <==> !Readable(job.data, p.files)
  {
    if Unwritten(p, s) {
      var c :| 0 <= c < |p.chunks| && IsData(p.chunks[c]) && p.chunks[c].stripe == s && p.chunks[c].loc !in p.files;
      assert p.chunks[c] in job.data;
    } else {
      forall k | 0 <= k < |job.data| ensures job.data[k].loc in p.files {
        var c :| 0 <= c < |p.chunks| && p.chunks[c] == job.data[k];
      }
    }
  }

  /** The data of a stripe is as it was before the round. */
  lemma JobUntouched(code: Code, p: Pool, done: set<StripeId>, files: Files, s: StripeId, job: Job)
    requires PathsApart(p) && FilesComputed(code, p, done, files) && IsJob(p, s, job)
    ensures forall k | 0 <= k < |job.data| :: SameFile(p.files, files, job.data[k].loc)
    ensures Readable(job.data, files) <==> !Unwritten(p, s)
  {
    forall k | 0 <= k < |job.data| ensures SameFile(p.files, files, job.data[k].loc) {
      DataUntouched(code, p, done, files, job.data[k]);
    }
    JobUnwritten(p, s, job);
  }

  lemma NothingComputed(code: Code, p: Pool, done: set<StripeId>, files: Files, s: StripeId)
    requires FilesComputed(code, p, done, files) && (!Encodable(p, s) || p.ps == 0) && SlotsWithin(p)
    ensures FilesComputed(code, p, done + {s}, files)
  {
    forall c | 0 <= c < |p.chunks| ensures Computed(p, done + {s}, p.chunks[c]) == Computed(p, done, p.chunks[c]) {
    }
    forall l ensures ComputedAt(p, done + {s}, l) == ComputedAt(p, done, l) {
    }
  }

  /** The files of the other stripes' parity are left alone. */
  lemma OtherParityKept(code: Code, p: Pool, done: set<StripeId>, before: Files, after: Files, s: StripeId, job: Job,
                        c: nat)
    requires PathsApart(p) && FilesComputed(code, p, done, before) && IsJob(p, s, job)
    requires (forall j: nat :: j in job.parity <==> j < code.ps) && c < |p.chunks|
    requires Computed(p, done + {s}, p.chunks[c]) && p.chunks[c].stripe != s
    requires forall l | (forall j: nat | j < code.ps :: l != job.parity[j].loc) :: SameFile(before, after, l)
    ensures p.chunks[c].loc in after && after[p.chunks[c].loc] == ParityShard(code, p, p.chunks[c])
  {
    forall j: nat | j < code.ps ensures p.chunks[c].loc != job.parity[j].loc {
      DifferentRows(p, p.chunks[c], job.parity[j]);
    }
    assert SameFile(before, after, p.chunks[c].loc);
    assert Computed(p, done, p.chunks[c]);
  }

  lemma OtherFilesKept(code: Code, p: Pool, done: set<StripeId>, before: Files, after: Files, s: StripeId, job: Job,
                       l: Loc)
    requires FilesComputed(code, p, done, before) && IsJob(p, s, job) && Encodable(p, s)
    requires (forall j: nat :: j in job.parity <==> j < code.ps) && !ComputedAt(p, done + {s}, l)
    requires forall l | (forall j: nat | j < code.ps :: l != job.parity[j].loc) :: SameFile(before, after, l)
    ensures SameFile(p.files, after, l)
  {
    forall j: nat | j < code.ps ensures l != job.parity[j].loc {
      var c :| 0 <= c < |p.chunks| && p.chunks[c] == job.parity[j];
      assert Computed(p, done + {s}, p.chunks[c]);
    }
    MoreComputed(p, done, s, l);
    assert SameFile(before, after, l);
  }

  lemma MoreComputed(p: Pool, done: set<StripeId>, s: StripeId, l: Loc)
    ensures ComputedAt(p, done, l) ==> ComputedAt(p, done + {s}, l)
  {
    if c :| 0 <= c < |p.chunks| && Computed(p, done, p.chunks[c]) && p.chunks[c].loc == l {
      assert Computed(p, done + {s}, p.chunks[c]);
    }
  }

  lemma StripeComputed(code: Code, p: Pool, done: set<StripeId>, before: Files, after: Files, s: StripeId, job: Job)
    requires PathsApart(p) && FilesComputed(code, p, done, before) && IsJob(p, s, job) && ValidJob(code, job)
    requires Encodable(p, s) && |Parity(code, Content(p, s))| == code.ps == p.ps
    requires after == ParityWritten(before, job, Parity(code, Content(p, s)), code.ps)
    ensures FilesComputed(code, p, done + {s}, after)
  {
    ParityWrittenAt(code, before, job, Parity(code, Content(p, s)), code.ps);
    forall c | 0 <= c < |p.chunks| && Computed(p, done + {s}, p.chunks[c])
      ensures p.chunks[c].loc in after && after[p.chunks[c].loc] == ParityShard(code, p, p.chunks[c])
    {
      if p.chunks[c].stripe == s {
        assert job.parity[p.chunks[c].index] == p.chunks[c];
      } else {
        OtherParityKept(code, p, done, before, after, s, job, c);
      }
    }
    forall l | !ComputedAt(p, done + {s}, l) ensures SameFile(p.files, after, l) {
      OtherFilesKept(code, p, done, before, after, s, job, l);
    }
  }

  /** What encoding a stripe came to. */
  ghost predicate EncodeOutcome(code: Code, p: Pool, s: StripeId, ok: bool, results: seq<Data>) {
    && (ok <==> Release.HasData(p.chunks, s) && (code.ps == 0 || Encodable(p, s)))
    && (ok ==> |results| == code.ps && (code.ps > 0 ==> results == Parity(code, Content(p, s))))
  }

  /** Encodes a stripe that has data. */
  method EncodeJob(db: PoolDb, code: Code, s: StripeId, job: Job, ghost p: Pool, ghost done: set<StripeId>)
    returns (ok: bool, results: seq<Data>)
    requires LaidOut(p) && Lawful(code) && code.ds == p.ds && code.ps == p.ps && IsJob(p, s, job) && |job.data| > 0
    requires FilesComputed(code, p, done, db.files)
    modifies db`files
    ensures FilesComputed(code, p, done + {s}, db.files)
    ensures EncodeOutcome(code, p, s, ok, results)
  {
    ghost var before := db.files;
    JobHasData(p, s, job);
    JobUntouched(code, p, done, before, s, job);
    JobIsValid(code, p, s, job);
    ok, results := ComputeStripe(db, code, job);
    if ok && code.ps > 0 {
      JobReadsContent(p, before, s, job);
      StripeComputed(code, p, done, before, db.files, s, job);
    } else {
      NothingComputed(code, p, done, before, s);
    }
  }

  /** Computes the parity of one queued stripe, if it has data and all of it can be read. */
  method EncodeStripe(db: PoolDb, code: Code, s: StripeId, ghost p: Pool, ghost done: set<StripeId>)
    returns (ok: bool, results: seq<Data>)
    requires LaidOut(p) && Lawful(code) && code.ds == p.ds && code.ps == p.ps
    requires db.State() == p.(files := db.files) && FilesComputed(code, p, done, db.files)
    modifies db`files
    ensures FilesComputed(code, p, done + {s}, db.files)
    ensures EncodeOutcome(code, p, s, ok, results)
  {
    var job := BuildStripeJob(db, s);
    assert IsJob(p, s, job);
    JobHasData(p, s, job);
    if |job.data| == 0 {
      NothingComputed(code, p, done, db.files, s);
      return false, [];
    }
    ok, results := EncodeJob(db, code, s, job, p, done);
  }

  /** Writes the digests of new parity into its rows. */
  method SaveParity(db: PoolDb, updates: map<StripeId, seq<Data>>)
    modifies db`chunks
    ensures |db.chunks| == |old(db.chunks)|
    ensures forall c | 0 <= c < |db.chunks| :: db.chunks[c] == Updated(old(db.chunks)[c], updates)
  {
    ghost var cs := db.chunks;
    for c := 0 to |db.chunks|
      invariant |db.chunks| == |cs|
      invariant forall k | 0 <= k < c :: db.chunks[k] == Updated(cs[k], updates)
      invariant forall k | c <= k < |cs| :: db.chunks[k] == cs[k]
    {
      db.chunks := db.chunks[c := Updated(db.chunks[c], updates)];
    }
  }

  function Updated(c: Chunk, updates: map<StripeId, seq<Data>>): Chunk {
    if c.kind == ParityChunk && c.stripe in updates && c.index < |updates[c.stripe]|
      then Encoded(c, updates[c.stripe][c.index]) else c
  }

  ghost predicate UpdatesFor(code: Code, p: Pool, done: set<StripeId>, updates: map<StripeId, seq<Data>>) {
    && (forall s | s in updates :: s in done && (code.ps == 0 || Encodable(p, s)) && |updates[s]| == code.ps)
    && (forall s | s in updates && code.ps > 0 :: updates[s] == Parity(code, Content(p, s)))
    && (forall s | s in done && Encodable(p, s) :: s in updates)
  }

  lemma MoreUpdates(code: Code, p: Pool, done: set<StripeId>, updates: map<StripeId, seq<Data>>, s: StripeId, ok: bool,
                    results: seq<Data>)
    requires UpdatesFor(code, p, done, updates) && EncodeOutcome(code, p, s, ok, results)
    ensures UpdatesFor(code, p, done + {s}, if ok then updates[s := results] else updates)
  {
  }

  method EncodeStripes(db: PoolDb, code: Code, ids: seq<StripeId>) returns (updates: map<StripeId, seq<Data>>)
    requires LaidOut(db.State()) && Lawful(code) && code.ds == db.ds && code.ps == db.ps
    modifies db`files
    ensures FilesComputed(code, old(db.State()), Members(ids), db.files)
    ensures UpdatesFor(code, old(db.State()), Members(ids), updates)
  {
    ghost var p := db.State();
    updates := map[];
    assert p.(files := db.files) == p;
    for i := 0 to |ids|
      invariant db.State() == p.(files := db.files)
      invariant FilesComputed(code, p, Members(ids[..i]), db.files)
      invariant UpdatesFor(code, p, Members(ids[..i]), updates)
    {
      ghost var done := Members(ids[..i]);
      MembersSnoc(ids, i);
      var ok, results := EncodeStripe(db, code, ids[i], p, done);
      MoreUpdates(code, p, done, updates, ids[i], ok, results);
      if ok {
        updates := updates[ids[i] := results];
      }
    }
    assert ids[..|ids|] == ids;
  }

  lemma RowsUpdated(code: Code, p: Pool, done: set<StripeId>, updates: map<StripeId, seq<Data>>, c: nat)
    requires SlotsWithin(p) && code.ds == p.ds && code.ps == p.ps && UpdatesFor(code, p, done, updates)
    requires c < |p.chunks|
    ensures Updated(p.chunks[c], updates) ==
            if Computed(p, done, p.chunks[c]) then Encoded(p.chunks[c], ParityShard(code, p, p.chunks[c]))
              else p.chunks[c]
  {
  }

  /** One round; false when no task is queued. */
  method CalculateStripeParity(db: PoolDb, code: Code) returns (hadWork: bool)
    requires LaidOut(db.State()) && Lawful(code) && code.ds == db.ds && code.ps == db.ps
    modifies db`files, db`chunks, db`tasks
    ensures hadWork <==> old(db.tasks) != []
    ensures RoundDone(code, old(db.State()), db.State())
  {
    ghost var p := db.State();
    var stripeIds := Release.Listed(Members(db.tasks));
    SameMembers(stripeIds, db.tasks);
    var updates := EncodeStripes(db, code, stripeIds);
    SaveParity(db, updates);
    forall c | 0 <= c < |p.chunks|
      ensures Updated(p.chunks[c], updates) == if Computed(p, Members(p.tasks), p.chunks[c])
                then Encoded(p.chunks[c], ParityShard(code, p, p.chunks[c])) else p.chunks[c]
    {
      RowsUpdated(code, p, Members(p.tasks), updates, c);
    }
    db.tasks := [];
    hadWork := |stripeIds| > 0;
  }

  /** The row of a parity chunk after a round. If its stripe was queued, and has written data all of
      which is on the disk, it describes its file, which is new; otherwise it stays as it is. */
  lemma RoundRow(code: Code, p: Pool, q: Pool, c: nat)
    requires PathsApart(p) && RoundDone(code, p, q) && c < |p.chunks| && p.chunks[c].kind == ParityChunk
    ensures c < |q.chunks|
    ensures var s, l := p.chunks[c].stripe, p.chunks[c].loc;
            if s in p.tasks && Release.HasWritten(p, s) &&
              forall d | 0 <= d < |p.chunks| && p.chunks[d].stripe == s && p.chunks[d].kind == DataChunk &&
                p.chunks[d].status == Allocated :: p.chunks[d].loc in p.files
            then l in q.files && q.files[l] == ParityShard(code, p, p.chunks[c]) &&
              q.chunks[c] == p.chunks[c].(status := Allocated, size := |q.files[l]|, hash := Some(q.files[l]))
            else q.chunks[c] == p.chunks[c] && SameFile(p.files, q.files, l)
  {
    hide ParityShard;
    var done, s := Members(p.tasks), p.chunks[c].stripe;
    assert s in done <==> s in p.tasks;
    if !Computed(p, done, p.chunks[c]) {
      forall k | 0 <= k < |p.chunks| && Computed(p, done, p.chunks[k]) ensures p.chunks[k].loc != p.chunks[c].loc {
        assert k != c;
      }
      assert !ComputedAt(p, done, p.chunks[c].loc);
    }
  }

  /** A round changes nothing but parity rows and parity files. */
  lemma RoundKeepsData(code: Code, p: Pool, q: Pool)
    requires LaidOut(p) && SlotsEmpty(p) && RoundDone(code, p, q)
    ensures LaidOut(q) && SlotsEmpty(q)
    ensures forall c | 0 <= c < |p.chunks| :: q.chunks[c].loc == p.chunks[c].loc && q.chunks[c].kind == p.chunks[c].kind
    ensures forall c | 0 <= c < |p.chunks| && p.chunks[c].kind == DataChunk ::
              q.chunks[c] == p.chunks[c] && SameFile(p.files, q.files, p.chunks[c].loc)
    ensures forall l | (forall c | 0 <= c < |p.chunks| :: p.chunks[c].loc != l) :: SameFile(p.files, q.files, l)
  {
    hide Encodable, ParityShard;
    SameSlotsKeep(p, q);
    forall c | 0 <= c < |p.chunks| && p.chunks[c].kind == DataChunk
      ensures SameFile(p.files, q.files, p.chunks[c].loc)
    {
      assert !ComputedAt(p, Members(p.tasks), p.chunks[c].loc);
    }
    forall l | (forall c | 0 <= c < |p.chunks| :: p.chunks[c].loc != l) ensures SameFile(p.files, q.files, l) {
      assert !ComputedAt(p, Members(p.tasks), l);
    }
    forall l | l in q.files ensures l.path < q.paths {
      if !ComputedAt(p, Members(p.tasks), l) { assert SameFile(p.files, q.files, l); }
    }
  }
}
