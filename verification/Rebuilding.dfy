/** A rebuild of a stripe of the pool, with the rows it saves, and what it does to the chunks. */
module Rebuilding {
  import opened Bytes
  import opened Wrappers
  import opened Tables
  import opened Database
  import opened Layout
  import opened ErasureCode
  import opened Allocation
  import opened ChunkStore
  import opened Stripes
  import opened StripeWorker
  import opened ParityWorker
  import opened DiskLoss

  // ----- what happens to the chunks -----

  /** Chunks whose file did not have the recorded digest have new bytes, and if these were saved
      their rows say so. */
  ghost predicate Repaired(p: Pool, q: Pool, written: map<ChunkId, Data>, saved: bool) {
    && q == p.(chunks := q.chunks, files := q.files) && |q.chunks| == |p.chunks|
    && (forall c | c in written ::
          && c < |p.chunks| && p.chunks[c].status == Allocated && !Verified(p.chunks[c], p.files)
          && p.chunks[c].loc in q.files && q.files[p.chunks[c].loc] == written[c])
    && (forall c | 0 <= c < |p.chunks| ::
          q.chunks[c] == if saved && c in written then Filled(p.chunks[c], written[c]) else p.chunks[c])
    && (forall l | !WrittenAt(p, written, l) :: SameFile(p.files, q.files, l))
  }

  ghost predicate WrittenAt(p: Pool, written: map<ChunkId, Data>, l: Loc) {
    exists c :: c in written && c < |p.chunks| && p.chunks[c].loc == l
  }

  // ----- the rebuild -----

  /** The shard a written chunk is. */
  function ShardOf(ds: nat, c: Chunk): nat { if c.kind == DataChunk then c.index else ds + c.index }

  predicate IsOf(c: Chunk, s: StripeId) { c.stripe == s && c.status == Allocated }

  /** The row of a chunk once the rebuilt shards have been saved. */
  function SavedRow(ds: nat, s: StripeId, c: Chunk, rebuilt: map<nat, Data>): Chunk {
    if IsOf(c, s) && ShardOf(ds, c) in rebuilt then Filled(c, rebuilt[ShardOf(ds, c)]) else c
  }

  method SaveRebuilt(db: PoolDb, s: StripeId, rebuilt: map<nat, Data>)
    modifies db`chunks
    ensures |db.chunks| == |old(db.chunks)|
    ensures forall c | 0 <= c < |db.chunks| :: db.chunks[c] == SavedRow(db.ds, s, old(db.chunks)[c], rebuilt)
  {
    for c := 0 to |db.chunks|
      invariant |db.chunks| == |old(db.chunks)|
      invariant forall k | 0 <= k < |db.chunks| ::
                  db.chunks[k] == if k < c then SavedRow(db.ds, s, old(db.chunks)[k], rebuilt) else old(db.chunks)[k]
    {
      db.chunks := db.chunks[c := SavedRow(db.ds, s, db.chunks[c], rebuilt)];
    }
  }

  /** Rebuilds a stripe. What came out of it is saved if all of it was written. */
  method RebuildStripe(db: PoolDb, code: Code, s: StripeId, outcome: nat -> Outcome)
    returns (ok: bool, ghost job: Job, ghost written: map<ChunkId, Data>)
    requires LaidOut(db.State()) && Lawful(code) && code.ds == db.ds && code.ps == db.ps && s < db.stripes
    modifies db`files, db`chunks
    ensures IsJob(old(db.State()), s, job)
    ensures Repaired(old(db.State()), db.State(), written, ok)
    ensures written == WrittenBy(code, job, outcome, s, old(db.State()))
    ensures ok <==> MissingCount(code, job, old(db.files), code.ds + code.ps) == 0
                    || (Decoded(code, job, old(db.files)).Some?
                        && forall i | 0 <= i < code.ds + code.ps && IsMissing(code, job, old(db.files), i) ::
                             outcome(i) == Written)
  {
    hide LaidOut, IsJob, Decoded, MissingCount, IsMissing, WrittenBy, Repaired, Rebuilt, Lawful, ValidJob, SavedRow;
    ghost var p := db.State();
    var j := BuildStripeJob(db, s);
    job := j;
    JobIsValid(code, p, s, job);
    var rebuilt;
    ok, rebuilt := RebuildStripeJob(db, code, j, outcome);
    ghost var m := db.State();
    written := WrittenBy(code, job, outcome, s, p);
    if ok {
      SaveRebuilt(db, s, rebuilt);
    }
    RebuildRepairs(code, p, m, db.State(), s, job, outcome, ok, rebuilt);
    RebuiltOk(code, job, outcome, p.files, m.files, ok, rebuilt);
  }

  lemma RebuiltOk(code: Code, job: Job, outcome: nat -> Outcome, before: Files, after: Files, ok: bool,
                  rebuilt: map<nat, Data>)
    requires Rebuilt(code, job, outcome, before, after, ok, rebuilt)
    ensures ok <==> MissingCount(code, job, before, code.ds + code.ps) == 0
                    || (Decoded(code, job, before).Some?
                        && forall i | 0 <= i < code.ds + code.ps && IsMissing(code, job, before, i) ::
                             outcome(i) == Written)
  {
    hide Decoded, MissingCount, IsMissing;
  }

  /** What is in the file of a missing shard afterwards, if anything was written to it. */
  ghost function LeftIn(c: Chunk, shard: Data, o: Outcome): Option<Data> {
    match o
    case Written => Some(Recovered(c, shard))
    case Broken(left) => left
  }

  ghost predicate GetsBytes(code: Code, job: Job, outcome: nat -> Outcome, s: StripeId, p: Pool, c: ChunkId) {
    && c < |p.chunks| && IsOf(p.chunks[c], s) && !Verified(p.chunks[c], p.files)
    && Decoded(code, job, p.files).Some? && ShardOf(code.ds, p.chunks[c]) < |Decoded(code, job, p.files).value|
    && LeftIn(p.chunks[c], Decoded(code, job, p.files).value[ShardOf(code.ds, p.chunks[c])],
              outcome(ShardOf(code.ds, p.chunks[c]))).Some?
  }

  ghost function WrittenBy(code: Code, job: Job, outcome: nat -> Outcome, s: StripeId, p: Pool): map<ChunkId, Data> {
    map c: ChunkId | c < |p.chunks| && GetsBytes(code, job, outcome, s, p, c) ::
      LeftIn(p.chunks[c], Decoded(code, job, p.files).value[ShardOf(code.ds, p.chunks[c])],
             outcome(ShardOf(code.ds, p.chunks[c]))).value
  }

  /** Written rows and shards are the same thing. */
  lemma RowIsShard(code: Code, p: Pool, s: StripeId, job: Job, c: nat)
    requires LaidOut(p) && code.ds == p.ds && code.ps == p.ps && IsJob(p, s, job) && c < |p.chunks|
    requires IsOf(p.chunks[c], s)
    ensures ShardOf(code.ds, p.chunks[c]) < code.ds + code.ps
    ensures ShardChunk(code, job, ShardOf(code.ds, p.chunks[c])) == Some(p.chunks[c])
  {
  }

  /** A shard is missing exactly when the file of its row does not have the digest. */
  lemma MissingRow(code: Code, p: Pool, s: StripeId, job: Job, c: nat)
    requires LaidOut(p) && code.ds == p.ds && code.ps == p.ps && IsJob(p, s, job) && c < |p.chunks|
    requires IsOf(p.chunks[c], s)
    ensures IsMissing(code, job, p.files, ShardOf(code.ds, p.chunks[c])) <==> !Verified(p.chunks[c], p.files)
  {
    RowIsShard(code, p, s, job, c);
  }

  lemma NothingWrittenBy(code: Code, job: Job, outcome: nat -> Outcome, s: StripeId, p: Pool)
    requires LaidOut(p) && code.ds == p.ds && code.ps == p.ps && IsJob(p, s, job)
    requires MissingCount(code, job, p.files, code.ds + code.ps) == 0 || Decoded(code, job, p.files).None?
    ensures WrittenBy(code, job, outcome, s, p) == map[]
  {
    hide LaidOut, IsJob, Decoded;
    NothingMissing(code, job, p.files, code.ds + code.ps);
    forall c: nat ensures !GetsBytes(code, job, outcome, s, p, c) {
      if c < |p.chunks| && IsOf(p.chunks[c], s) {
        RowIsShard(code, p, s, job, c);
        MissingRow(code, p, s, job, c);
      }
    }
  }

  /** A rebuild that writes something. */
  ghost predicate Writes(code: Code, p: Pool, m: Pool, s: StripeId, job: Job, outcome: nat -> Outcome, ok: bool,
                         rebuilt: map<nat, Data>)
  {
    && LaidOut(p) && code.ds == p.ds && code.ps == p.ps && IsJob(p, s, job) && m == p.(files := m.files)
    && Rebuilt(code, job, outcome, p.files, m.files, ok, rebuilt)
    && MissingCount(code, job, p.files, code.ds + code.ps) > 0 && Decoded(code, job, p.files).Some?
  }

  lemma ChunkBack(code: Code, p: Pool, m: Pool, s: StripeId, job: Job, outcome: nat -> Outcome, ok: bool,
                  rebuilt: map<nat, Data>, c: ChunkId)
    requires Writes(code, p, m, s, job, outcome, ok, rebuilt) && c in WrittenBy(code, job, outcome, s, p)
    ensures Holds(m.files, p.chunks[c].loc, WrittenBy(code, job, outcome, s, p)[c])
  {
    hide LaidOut, IsJob, Decoded, MissingCount, Recovered;
    RowIsShard(code, p, s, job, c);
    MissingRow(code, p, s, job, c);
    assert ShardBack(code, job, Decoded(code, job, p.files).value, outcome, p.files, m.files,
                     ShardOf(code.ds, p.chunks[c]));
  }

  lemma ChunkSaved(code: Code, p: Pool, m: Pool, s: StripeId, job: Job, outcome: nat -> Outcome,
                   rebuilt: map<nat, Data>, c: nat)
    requires Writes(code, p, m, s, job, outcome, true, rebuilt) && c < |p.chunks|
    ensures var written := WrittenBy(code, job, outcome, s, p);
            SavedRow(p.ds, s, p.chunks[c], rebuilt) ==
            if c in written then Filled(p.chunks[c], written[c]) else p.chunks[c]
  {
    hide LaidOut, IsJob, Decoded, MissingCount, Recovered;
    if IsOf(p.chunks[c], s) {
      RowIsShard(code, p, s, job, c);
      MissingRow(code, p, s, job, c);
    }
  }

  lemma FileSpared(code: Code, p: Pool, m: Pool, s: StripeId, job: Job, outcome: nat -> Outcome, ok: bool,
                   rebuilt: map<nat, Data>, l: Loc)
    requires Writes(code, p, m, s, job, outcome, ok, rebuilt) && !WrittenAt(p, WrittenBy(code, job, outcome, s, p), l)
    ensures SameFile(p.files, m.files, l)
  {
    hide LaidOut, IsJob, Decoded, MissingCount, Recovered;
    if MissingFile(code, job, p.files, l) {
      var i :| 0 <= i < code.ds + code.ps && IsMissing(code, job, p.files, i) &&
        ShardChunk(code, job, i).value.loc == l;
      var c := ShardIsRow(code, p, s, job, i);
      assert ShardOf(code.ds, p.chunks[c]) == i;
      assert ShardBack(code, job, Decoded(code, job, p.files).value, outcome, p.files, m.files, i);
      assert c !in WrittenBy(code, job, outcome, s, p);
    }
  }

  lemma RebuildRepairs(code: Code, p: Pool, m: Pool, q: Pool, s: StripeId, job: Job, outcome: nat -> Outcome, ok: bool,
                       rebuilt: map<nat, Data>)
    requires LaidOut(p) && code.ds == p.ds && code.ps == p.ps && IsJob(p, s, job)
    requires m == p.(files := m.files) && Rebuilt(code, job, outcome, p.files, m.files, ok, rebuilt)
    requires q == m.(chunks := q.chunks) && |q.chunks| == |p.chunks|
    requires if ok then forall c | 0 <= c < |p.chunks| :: q.chunks[c] == SavedRow(p.ds, s, p.chunks[c], rebuilt)
             else q.chunks == p.chunks
    ensures Repaired(p, q, WrittenBy(code, job, outcome, s, p), ok)
  {
    hide LaidOut, IsJob, Decoded, MissingCount, WrittenBy, Repaired, Rebuilt, SavedRow;
    if MissingCount(code, job, p.files, code.ds + code.ps) == 0 || Decoded(code, job, p.files).None? {
      NothingWrittenBy(code, job, outcome, s, p);
      NothingRebuilt(code, job, outcome, p.files, m.files, ok, rebuilt);
      forall c | 0 <= c < |p.chunks| ensures q.chunks[c] == p.chunks[c] { NothingSaved(p.ds, s, p.chunks[c]); }
      NothingRepaired(p, q, ok);
    } else {
      WritesRepair(code, p, m, q, s, job, outcome, ok, rebuilt);
    }
  }

  lemma NothingRebuilt(code: Code, job: Job, outcome: nat -> Outcome, before: Files, after: Files, ok: bool,
                       rebuilt: map<nat, Data>)
    requires Rebuilt(code, job, outcome, before, after, ok, rebuilt)
    requires MissingCount(code, job, before, code.ds + code.ps) == 0 || Decoded(code, job, before).None?
    ensures after == before && rebuilt == map[]
  {
    hide Decoded, MissingCount;
  }

  lemma NothingSaved(ds: nat, s: StripeId, c: Chunk)
    ensures SavedRow(ds, s, c, map[]) == c
  {
  }

  lemma NothingRepaired(p: Pool, q: Pool, ok: bool)
    requires q == p.(chunks := q.chunks) && |q.chunks| == |p.chunks|
    requires forall c | 0 <= c < |p.chunks| :: q.chunks[c] == p.chunks[c]
    ensures Repaired(p, q, map[], ok)
  {
  }

  lemma WritesRepair(code: Code, p: Pool, m: Pool, q: Pool, s: StripeId, job: Job, outcome: nat -> Outcome, ok: bool,
                     rebuilt: map<nat, Data>)
    requires Writes(code, p, m, s, job, outcome, ok, rebuilt) && m == p.(files := m.files)
    requires q == m.(chunks := q.chunks) && |q.chunks| == |p.chunks|
    requires if ok then forall c | 0 <= c < |p.chunks| :: q.chunks[c] == SavedRow(p.ds, s, p.chunks[c], rebuilt)
             else q.chunks == p.chunks
    ensures Repaired(p, q, WrittenBy(code, job, outcome, s, p), ok)
  {
    hide Writes, SavedRow, LeftIn;
    var written := WrittenBy(code, job, outcome, s, p);
    forall c | c in written ensures Holds(q.files, p.chunks[c].loc, written[c]) {
      ChunkBack(code, p, m, s, job, outcome, ok, rebuilt, c);
    }
    forall c: nat | c < |p.chunks| && ok
      ensures q.chunks[c] == if c in written then Filled(p.chunks[c], written[c]) else p.chunks[c]
    {
      ChunkSaved(code, p, m, s, job, outcome, rebuilt, c);
    }
    forall l | !WrittenAt(p, written, l) ensures SameFile(p.files, q.files, l) {
      FileSpared(code, p, m, s, job, outcome, ok, rebuilt, l);
    }
  }

  ghost predicate Holds(files: Files, l: Loc, data: Data) { l in files && files[l] == data }
}
