/** A rebuild while the stripe waits for new parity: a disk is lost, and what is written in the
    place of its chunk, with a matching digest, was never there. */
module StaleRebuild {
  import opened Bytes
  import opened Wrappers
  import opened Tables
  import opened Database
  import opened Layout
  import opened ErasureCode
  import opened ChunkStore
  import opened Stripes
  import opened StripeWorker
  import opened ParityWorker
  import opened DiskLoss
  import opened Rebuilding
  import Freshness

  function Holding(i: nat, path: nat, d: Data): Chunk { Chunk(Allocated, DataChunk, 0, i, Loc(i, path), |d|, Some(d)) }

  const OLD_PARITY: Chunk := Chunk(Allocated, ParityChunk, 0, 0, Loc(2, 2), 1, Some([3]))

  /** The stripe held [1], [2] and their parity [3]; the first slot was released and holds [5] now,
      and a parity task is queued. */
  const WAITING: Pool :=
    Pool(2, 1, 3, [Holding(0, 3, [5]), Holding(1, 1, [2]), OLD_PARITY], 1, 4,
         map[Loc(0, 3) := [5], Loc(1, 1) := [2], Loc(2, 2) := [3]], [], 0, [0], map[], map[])

  const LEFT: Files := map[Loc(0, 3) := [5], Loc(2, 2) := [3]]

  lemma WaitingIsLaidOut(p: Pool)
    requires p == WAITING.(files := p.files)
    ensures LaidOut(p)
  {
    forall s: nat, kind, i: nat | s < p.stripes && i < Shards(p, kind) ensures HasSlot(p.chunks, s, kind, i) {
      assert kind == DataChunk ==> IsSlot(p.chunks[i], s, kind, i);
      assert kind == ParityChunk ==> IsSlot(p.chunks[2], s, kind, i);
    }
  }

  /** The parity protocol is in order: the stripe is queued. */
  lemma WaitingIsTracked()
    ensures Freshness.Tracked(Xor(), Freshness.State(WAITING, multiset{}))
  {
    XorIsLawful();
    WaitingIsLaidOut(WAITING);
    assert IsData(WAITING.chunks[0]) && WAITING.chunks[0].stripe == 0;
  }

  lemma TheJob(p: Pool, job: Job)
    requires p == WAITING.(files := p.files) && IsJob(p, 0, job)
    ensures ChunkAt(job.data, 0) == Some(Holding(0, 3, [5])) && ChunkAt(job.data, 1) == Some(Holding(1, 1, [2]))
    ensures 0 in job.parity && job.parity[0] == OLD_PARITY
  {
    assert IsData(p.chunks[0]) && IsData(p.chunks[1]) && p.chunks[2].kind == ParityChunk;
  }

  lemma WhatIsLeft(job: Job)
    requires IsJob(WAITING.(files := LEFT), 0, job)
    ensures Remnant(Xor(), job, LEFT) == [Some([5]), None, Some([3])]
    ensures MissingCount(Xor(), job, LEFT, 3) == 1
  {
    TheJob(WAITING.(files := LEFT), job);
    assert !IsMissing(Xor(), job, LEFT, 0) && IsMissing(Xor(), job, LEFT, 1) && !IsMissing(Xor(), job, LEFT, 2);
    assert MissingCount(Xor(), job, LEFT, 1) == 0;
    assert MissingCount(Xor(), job, LEFT, 2) == 1;
  }

  lemma WhatComesOut(job: Job)
    requires IsJob(WAITING.(files := LEFT), 0, job)
    ensures Decoded(Xor(), job, LEFT) == Some([[5], [6], [3]])
  {
    WhatIsLeft(job);
    var raw: Slots := [Some([5]), None, Some([3])];
    assert Len(raw[0]) == 1;
    WidthIs(raw, 1);
    assert Pad([5], 1) == [5] && Pad([3], 1) == [3];
    assert PadShards(raw, 1) == raw;
    assert XorData([5], [3]) == [6];
  }

  /** The disk of the second chunk is lost and the stripe rebuilt before its new parity is
      computed. The rebuild succeeds, and the chunk holds [6] now, with a row that says so; it held
      [2], and so said its row. */
  lemma RebuildReplacesChunk(q: Pool, job: Job, outcome: nat -> Outcome)
    requires IsJob(WAITING.(files := LEFT), 0, job) && outcome(1) == Written
    requires Repaired(WAITING.(files := LEFT), q, WrittenBy(Xor(), job, outcome, 0, WAITING.(files := LEFT)), true)
    ensures LEFT == WithoutDisks(WAITING.files, {1}) && Recoverable(Xor(), job, LEFT)
    ensures !RestoresDigests(Xor(), job, LEFT)
    ensures WAITING.chunks[1].hash == Some([2]) && |q.chunks| == 3 && q.chunks[1].hash == Some([6])
    ensures Verified(q.chunks[1], q.files)
  {
    hide Recoverable, Repaired, WrittenBy, RestoresDigests, IsJob, WithoutDisks;
    LostFiles();
    StillRecoverable(job);
    NotRestored(job);
    SixIsWritten(job, outcome);
    NewRow(q, WrittenBy(Xor(), job, outcome, 0, WAITING.(files := LEFT)));
  }

  lemma LostFiles()
    ensures LEFT == WithoutDisks(WAITING.files, {1})
  {
  }

  lemma NotRestored(job: Job)
    requires IsJob(WAITING.(files := LEFT), 0, job)
    ensures !RestoresDigests(Xor(), job, LEFT)
  {
    hide Decoded, IsJob;
    WhatComesOut(job);
    TheJob(WAITING.(files := LEFT), job);
    assert IsMissing(Xor(), job, LEFT, 1);
    assert Recovered(Holding(1, 1, [2]), [6]) == [6];
  }

  lemma SixIsWritten(job: Job, outcome: nat -> Outcome)
    requires IsJob(WAITING.(files := LEFT), 0, job) && outcome(1) == Written
    ensures var written := WrittenBy(Xor(), job, outcome, 0, WAITING.(files := LEFT)); 1 in written && written[1] == [6]
  {
    hide Decoded, IsJob;
    WhatComesOut(job);
    assert Recovered(Holding(1, 1, [2]), [6]) == [6];
    assert GetsBytes(Xor(), job, outcome, 0, WAITING.(files := LEFT), 1);
  }

  lemma NewRow(q: Pool, written: map<ChunkId, Data>)
    requires Repaired(WAITING.(files := LEFT), q, written, true) && 1 in written && written[1] == [6]
    ensures |q.chunks| == 3 && q.chunks[1].hash == Some([6]) && Verified(q.chunks[1], q.files)
  {
  }

  lemma StillRecoverable(job: Job)
    requires IsJob(WAITING.(files := LEFT), 0, job)
    ensures Recoverable(Xor(), job, LEFT)
  {
    WhatIsLeft(job);
    TheJob(WAITING.(files := LEFT), job);
    assert UnwrittenCount(Xor(), job, 0) == 0;
    assert !IsUnwritten(Xor(), job, 0) && UnwrittenCount(Xor(), job, 1) == 0;
    assert !IsUnwritten(Xor(), job, 1) && UnwrittenCount(Xor(), job, 2) == 0;
  }
}
