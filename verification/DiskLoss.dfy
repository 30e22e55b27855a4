/** Losing disks and rebuilding what was on them. */
module DiskLoss {
  import opened Bytes
  import opened Wrappers
  import opened Tables
  import opened Database
  import opened Layout
  import opened ErasureCode
  import opened ChunkStore
  import opened Stripes
  import opened StripeWorker
  import opened ParityState
  import opened ParityWorker

  /** The files on the disks are gone. */
  function WithoutDisks(files: Files, lost: set<DiskId>): Files { map l | l in files && l.disk !in lost :: files[l] }

  /** Every written data chunk of the stripe is on its disk as its row describes it. */
  ghost predicate Intact(p: Pool, s: StripeId) {
    forall c | 0 <= c < |p.chunks| && IsData(p.chunks[c]) && p.chunks[c].stripe == s ::
      && p.chunks[c].loc in p.files && |p.files[p.chunks[c].loc]| > 0
      && p.chunks[c].hash == Some(p.files[p.chunks[c].loc]) && p.chunks[c].size == |p.files[p.chunks[c].loc]|
  }

  /** The stripe is whole: data and parity are on the disks and agree. */
  ghost predicate Whole(code: Code, p: Pool, s: StripeId) {
    && Lawful(code) && code.ds == p.ds && code.ps == p.ps && s < p.stripes && LaidOut(p)
    && Fresh(code, p, s) && Intact(p, s)
    && (forall c | 0 <= c < |p.chunks| && IsParity(p.chunks[c]) && p.chunks[c].stripe == s ::
          Release.HasData(p.chunks, s))
  }

  /** The chunk behind a shard is a row of the stripe. */
  lemma ShardIsRow(code: Code, p: Pool, s: StripeId, job: Job, i: nat) returns (c: nat)
    requires IsJob(p, s, job) && i < code.ds + code.ps && ShardChunk(code, job, i).Some?
    ensures c < |p.chunks| && p.chunks[c] == ShardChunk(code, job, i).value && p.chunks[c].stripe == s
    ensures p.chunks[c].status == Allocated
    ensures p.chunks[c].kind == if i < code.ds then DataChunk else ParityChunk
    ensures p.chunks[c].index == if i < code.ds then i else i - code.ds
  {
    var chunk := ShardChunk(code, job, i).value;
    if i < code.ds {
      var k :| 0 <= k < |job.data| && job.data[k] == chunk;
    }
    assert chunk in p.chunks;
    c :| 0 <= c < |p.chunks| && p.chunks[c] == chunk;
  }

  lemma WholeSlot(code: Code, p: Pool, s: StripeId, job: Job, i: nat)
    requires Whole(code, p, s) && IsJob(p, s, job) && i < p.ds
    ensures SlotContent(p, s, i).Some? <==> ChunkAt(job.data, i).Some?
    ensures SlotContent(p, s, i).Some? ==>
              var c := ChunkAt(job.data, i).value;
              && c.loc in p.files && SlotContent(p, s, i).value == p.files[c.loc]
              && c.hash == Some(p.files[c.loc]) && c.size == |p.files[c.loc]| > 0
  {
    JobUnwritten(p, s, job);
    JobReadsSlot(p, p.files, s, job, i);
    if ChunkAt(job.data, i).Some? {
      var c := ShardIsRow(code, p, s, job, i);
    }
  }

  lemma WholeParity(code: Code, p: Pool, s: StripeId, job: Job, i: nat)
    requires Whole(code, p, s) && IsJob(p, s, job) && code.ds <= i < code.ds + code.ps && ShardChunk(code, job, i).Some?
    ensures var c := ShardChunk(code, job, i).value;
            c.loc in p.files && c.hash == Some(p.files[c.loc]) && p.files[c.loc] == ShardContent(code, Content(p, s), i)
  {
    var c := ShardIsRow(code, p, s, job, i);
    assert ParityIs(code, p.chunks[c], p.files, Content(p, s));
  }

  /** A stripe with computed parity has written data. */
  lemma ParityMeansData(code: Code, p: Pool, s: StripeId, job: Job, i: nat)
    requires Whole(code, p, s) && IsJob(p, s, job) && code.ds <= i < code.ds + code.ps && ShardChunk(code, job, i).Some?
    ensures Width(Content(p, s)) > 0
  {
    var c := ShardIsRow(code, p, s, job, i);
    JobHasData(p, s, job);
    var d := job.data[0];
    var k :| 0 <= k < |p.chunks| && p.chunks[k] == d;
    assert ChunkAt(job.data, d.index) == Some(d);
    WholeSlot(code, p, s, job, d.index);
    assert Len(Content(p, s)[d.index]) > 0;
  }

  lemma WholeDescribes(code: Code, p: Pool, s: StripeId, job: Job)
    requires Whole(code, p, s) && IsJob(p, s, job)
    ensures Describes(code, job, Content(p, s))
  {
    var slots := Content(p, s);
    forall i | 0 <= i < p.ds ensures slots[i].Some? <==> ChunkAt(job.data, i).Some? {
      WholeSlot(code, p, s, job, i);
    }
    forall i | 0 <= i < p.ds && slots[i].Some?
      ensures ChunkAt(job.data, i).value.hash == Some(slots[i].value)
      ensures ChunkAt(job.data, i).value.size == |slots[i].value| > 0
    {
      WholeSlot(code, p, s, job, i);
    }
    forall i | code.ds <= i < code.ds + code.ps && ShardChunk(code, job, i).Some?
      ensures ShardChunk(code, job, i).value.hash == Some(ShardContent(code, slots, i))
    {
      WholeParity(code, p, s, job, i);
    }
    forall i | code.ds <= i < code.ds + code.ps && ShardChunk(code, job, i).Some? ensures Width(slots) > 0 {
      ParityMeansData(code, p, s, job, i);
    }
  }

  // ----- counting what is lost -----

  /** A written shard reads as it should as long as its disk is there. */
  lemma LostWithItsDisk(code: Code, p: Pool, s: StripeId, job: Job, lost: set<DiskId>, i: nat)
    requires Whole(code, p, s) && IsJob(p, s, job) && i < code.ds + code.ps
    requires IsMissing(code, job, WithoutDisks(p.files, lost), i)
    ensures ShardChunk(code, job, i).value.loc.disk in lost
  {
    if i < code.ds { WholeSlot(code, p, s, job, i); } else { WholeParity(code, p, s, job, i); }
    var c := ShardIsRow(code, p, s, job, i);
  }

  /** The disks of the missing shards among the first `n`. */
  ghost function MissingDisks(code: Code, job: Job, files: Files, n: nat): set<DiskId> {
    if n == 0 then {}
    else MissingDisks(code, job, files, n - 1) +
         if IsMissing(code, job, files, n - 1) then {ShardChunk(code, job, n - 1).value.loc.disk} else {}
  }

  lemma {:induction false} MissingDiskOf(code: Code, job: Job, files: Files, n: nat, d: DiskId)
    requires d in MissingDisks(code, job, files, n)
    ensures exists i :: 0 <= i < n && IsMissing(code, job, files, i) && ShardChunk(code, job, i).value.loc.disk == d
  {
    if d in MissingDisks(code, job, files, n - 1) {
      MissingDiskOf(code, job, files, n - 1, d);
    } else {
      assert IsMissing(code, job, files, n - 1);
    }
  }

  lemma ShardsOnOwnDisks(code: Code, p: Pool, s: StripeId, job: Job, i: nat, j: nat)
    requires LaidOut(p) && IsJob(p, s, job) && i < j < code.ds + code.ps
    requires ShardChunk(code, job, i).Some? && ShardChunk(code, job, j).Some?
    ensures ShardChunk(code, job, i).value.loc.disk != ShardChunk(code, job, j).value.loc.disk
  {
    var a := ShardIsRow(code, p, s, job, i);
    var b := ShardIsRow(code, p, s, job, j);
    RowsOnOwnDisks(p, a, b);
  }

  lemma RowsOnOwnDisks(p: Pool, a: nat, b: nat)
    requires LaidOut(p) && a < |p.chunks| && b < |p.chunks| && p.chunks[a].stripe == p.chunks[b].stripe && a != b
    ensures p.chunks[a].loc.disk != p.chunks[b].loc.disk
  {
    assert if a < b then Apart(p.chunks[a], p.chunks[b]) else Apart(p.chunks[b], p.chunks[a]);
  }

  lemma {:induction false} MissingAreCounted(code: Code, p: Pool, s: StripeId, job: Job, files: Files, n: nat)
    requires LaidOut(p) && IsJob(p, s, job) && n <= code.ds + code.ps
    ensures MissingCount(code, job, files, n) == |MissingDisks(code, job, files, n)|
  {
    hide LaidOut, IsJob, IsMissing;
    if n > 0 {
      MissingAreCounted(code, p, s, job, files, n - 1);
      if IsMissing(code, job, files, n - 1) {
        NewMissingDisk(code, p, s, job, files, n - 1);
      }
    }
  }

  lemma NewMissingDisk(code: Code, p: Pool, s: StripeId, job: Job, files: Files, n: nat)
    requires LaidOut(p) && IsJob(p, s, job) && n < code.ds + code.ps && IsMissing(code, job, files, n)
    ensures ShardChunk(code, job, n).value.loc.disk !in MissingDisks(code, job, files, n)
  {
    var d := ShardChunk(code, job, n).value.loc.disk;
    if d in MissingDisks(code, job, files, n) {
      MissingDiskOf(code, job, files, n, d);
      var i :| 0 <= i < n && IsMissing(code, job, files, i) && ShardChunk(code, job, i).value.loc.disk == d;
      ShardsOnOwnDisks(code, p, s, job, i, n);
    }
  }

  lemma SubsetSize(a: set<DiskId>, b: set<DiskId>)
    requires a <= b
    ensures |a| <= |b|
  {
    if a != {} {
      var x :| x in a;
      SubsetSize(a - {x}, b - {x});
    }
  }

  /** Losing disks is recoverable as long as they are at most as many as the parity shards
      less the slots that were never written. */
  lemma DisksLost(code: Code, p: Pool, s: StripeId, job: Job, lost: set<DiskId>)
    requires Whole(code, p, s) && IsJob(p, s, job)
    requires |lost| + UnwrittenCount(code, job, code.ds + code.ps) <= code.ps
    ensures Recoverable(code, job, WithoutDisks(p.files, lost))
  {
    var total, files := code.ds + code.ps, WithoutDisks(p.files, lost);
    MissingAreCounted(code, p, s, job, files, total);
    forall d | d in MissingDisks(code, job, files, total) ensures d in lost {
      MissingDiskOf(code, job, files, total, d);
      var i :| 0 <= i < total && IsMissing(code, job, files, i) && ShardChunk(code, job, i).value.loc.disk == d;
      LostWithItsDisk(code, p, s, job, lost, i);
    }
    SubsetSize(MissingDisks(code, job, files, total), lost);
  }

  /** Every written chunk of the stripe has its bytes back. */
  ghost predicate Restored(p: Pool, files: Files, s: StripeId) {
    forall c | 0 <= c < |p.chunks| && p.chunks[c].status == Allocated && p.chunks[c].stripe == s ::
      p.chunks[c].loc in p.files && p.chunks[c].loc in files && files[p.chunks[c].loc] == p.files[p.chunks[c].loc]
  }

  lemma AllRestoredRestores(code: Code, p: Pool, files: Files, s: StripeId, job: Job)
    requires Whole(code, p, s) && IsJob(p, s, job) && AllRestored(code, job, Content(p, s), files)
    ensures Restored(p, files, s)
  {
    hide Fresh, Intact, Lawful, SlotsFilled, PathsApart, SlotsApart;
    forall c | 0 <= c < |p.chunks| && p.chunks[c].status == Allocated && p.chunks[c].stripe == s
      ensures p.chunks[c].loc in p.files && p.chunks[c].loc in files
      ensures files[p.chunks[c].loc] == p.files[p.chunks[c].loc]
    {
      var row := p.chunks[c];
      var i := if row.kind == DataChunk then row.index else code.ds + row.index;
      assert ShardChunk(code, job, i) == Some(row);
      if row.kind == DataChunk { WholeSlot(code, p, s, job, i); } else { WholeParity(code, p, s, job, i); }
    }
  }

  /** After any `lost` disks are gone from a whole stripe, with at most `ps` shards lost or
      never written, rebuilding brings every byte of it back if the disks take what is written; and
      if it says that it has, it has. */
  method RebuildLostStripe(db: PoolDb, code: Code, s: StripeId, outcome: nat -> Outcome, ghost p: Pool,
                           ghost lost: set<DiskId>)
    returns (ok: bool, ghost job: Job)
    requires Whole(code, p, s) && db.State() == p.(files := WithoutDisks(p.files, lost))
    modifies db`files
    ensures IsJob(p, s, job)
    ensures |lost| + UnwrittenCount(code, job, code.ds + code.ps) <= code.ps && AllTaken(code, outcome) ==> ok
    ensures ok ==> Restored(p, db.files, s)
  {
    hide Whole, RebuildOutcome, Rebuilt, Recoverable, Restored, Describes, ValidJob, Lawful, LaidOut, UnwrittenCount,
         WithoutDisks, AllTaken;
    LostIsLaidOut(code, p, s, lost);
    var j := BuildStripeJob(db, s);
    job := j;
    JobOfWhole(code, p, s, job);
    ghost var files := db.files;
    if |lost| + UnwrittenCount(code, job, code.ds + code.ps) <= code.ps { DisksLost(code, p, s, job, lost); }
    var rebuilt;
    ok, rebuilt := RebuildStripeJob(db, code, j, outcome);
    if ok || AllTaken(code, outcome) {
      DescribedOutcome(code, job, Content(p, s), outcome, files, db.files, ok, rebuilt);
      WholeOutcome(code, p, s, job, files, db.files, ok, rebuilt);
    }
  }

  lemma LostIsLaidOut(code: Code, p: Pool, s: StripeId, lost: set<DiskId>)
    requires Whole(code, p, s)
    ensures LaidOut(p.(files := WithoutDisks(p.files, lost)))
  {
    SameSlotsKeep(p, p.(files := WithoutDisks(p.files, lost)));
  }

  lemma JobOfWhole(code: Code, p: Pool, s: StripeId, job: Job)
    requires Whole(code, p, s) && IsJob(p, s, job)
    ensures ValidJob(code, job) && Lawful(code) && Describes(code, job, Content(p, s))
  {
    JobIsValid(code, p, s, job);
    WholeDescribes(code, p, s, job);
  }

  lemma WholeOutcome(code: Code, p: Pool, s: StripeId, job: Job, before: Files, after: Files, ok: bool,
                     rebuilt: map<nat, Data>)
    requires Whole(code, p, s) && IsJob(p, s, job)
    requires RebuildOutcome(code, job, Content(p, s), before, after, ok, rebuilt)
    ensures Recoverable(code, job, before) ==> ok
    ensures ok ==> Restored(p, after, s)
  {
    if ok { AllRestoredRestores(code, p, after, s, job); }
  }
}
