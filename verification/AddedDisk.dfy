/** What a whole stripe is after a disk has been added: nothing queues new parity for it. */
module AddedDisk {
  import opened Wrappers
  import opened Tables
  import opened Database
  import opened Layout
  import opened ErasureCode
  import opened Stripes
  import opened StripeWorker
  import opened ParityState
  import opened ParityWorker
  import opened DiskLoss
  import Release

  /** Rows that were there are unchanged, and the new ones are empty slots of the new shard. */
  lemma NewRows(p: Pool, parity: bool, c: nat)
    requires c < |WithDisk(p, parity).chunks|
    ensures c < |p.chunks| ==> WithDisk(p, parity).chunks[c] == p.chunks[c]
    ensures c >= |p.chunks| ==> WithDisk(p, parity).chunks[c] == NewShard(p, parity, c - |p.chunks|)
  {
  }

  lemma SameSlotContent(p: Pool, parity: bool, s: StripeId, i: nat)
    requires LaidOut(p) && (parity ==> p.ds > 0)
    ensures SlotContent(WithDisk(p, parity), s, i) == SlotContent(p, s, i)
  {
    var q := WithDisk(p, parity);
    AddShards(p, parity);
    if c: nat :| HoldsData(p, c, s, i) {
      NewRows(p, parity, c);
      assert HoldsData(q, c, s, i);
      SlotContentIs(p, s, i, c);
      SlotContentIs(q, s, i, c);
    } else if c: nat :| HoldsData(q, c, s, i) {
      NewRows(p, parity, c);
      assert HoldsData(p, c, s, i);
    }
  }

  /** A data disk gives the stripe a slot with nothing in it. */
  lemma ContentAfter(p: Pool, parity: bool, s: StripeId)
    requires LaidOut(p) && (parity ==> p.ds > 0)
    ensures Content(WithDisk(p, parity), s) == Content(p, s) + if parity then [] else [None]
  {
    var q := WithDisk(p, parity);
    forall i | 0 <= i < q.ds
      ensures Content(q, s)[i] == (Content(p, s) + if parity then [] else [None])[i]
    {
      SameSlotContent(p, parity, s, i);
      if i == p.ds { NothingBeyond(p, s); }
    }
  }

  lemma NothingBeyond(p: Pool, s: StripeId)
    requires SlotsWithin(p)
    ensures SlotContent(p, s, p.ds).None?
  {
  }

  /** Adding a disk queues nothing. */
  lemma NothingQueued(p: Pool, parity: bool, s: StripeId)
    ensures Covered(WithDisk(p, parity), s) <==> Covered(p, s)
  {
  }

  lemma ParityRow(p: Pool, s: StripeId, j: nat) returns (c: nat)
    requires LaidOut(p) && s < p.stripes && j < p.ps
    ensures c < |p.chunks| && IsSlot(p.chunks[c], s, ParityChunk, j)
  {
    assert HasSlot(p.chunks, s, ParityChunk, j);
    c :| 0 <= c < |p.chunks| && IsSlot(p.chunks[c], s, ParityChunk, j);
  }

  lemma WrittenIsContent(code: Code, p: Pool, s: StripeId)
    requires Whole(code, p, s)
    ensures NothingWritten(Content(p, s)) <==> !Release.HasData(p.chunks, s)
  {
    if c :| 0 <= c < |p.chunks| && IsData(p.chunks[c]) && p.chunks[c].stripe == s {
      assert HoldsData(p, c, s, p.chunks[c].index);
      assert Content(p, s)[p.chunks[c].index].Some?;
    }
    if i :| 0 <= i < p.ds && Content(p, s)[i].Some? {
      var c: nat :| HoldsData(p, c, s, i);
    }
  }

  /** After a parity disk is added, the parity of a stripe is what the new code asks for exactly
      when nothing is written to it: the new shard is missing, and no task makes it. */
  lemma ParityDiskIff(code: Code, p: Pool, s: StripeId, more: Code)
    requires Whole(code, p, s)
    ensures Fresh(more, WithDisk(p, true), s) <==> NothingWritten(Content(p, s))
    ensures Covered(WithDisk(p, true), s) <==> Covered(p, s)
  {
    NothingQueued(p, true, s);
    var q, n := WithDisk(p, true), |p.chunks| + s;
    ContentAfter(p, true, s);
    assert Content(p, s) + [] == Content(p, s);
    NewRows(p, true, n);
    assert q.chunks[n].kind == ParityChunk && q.chunks[n].stripe == s && q.chunks[n].status == Reserved;
    if Fresh(more, q, s) {
      assert ParityIs(more, q.chunks[n], q.files, Content(q, s));
    }
    if NothingWritten(Content(p, s)) {
      WrittenIsContent(code, p, s);
      forall c | 0 <= c < |q.chunks| && q.chunks[c].kind == ParityChunk && q.chunks[c].stripe == s
        ensures ParityIs(more, q.chunks[c], q.files, Content(q, s))
      {
        NewRows(p, true, c);
      }
    }
  }

  /** After a data disk is added, it is so exactly when nothing is written or the new code has
      the same parity for the data with nothing in the new slot. */
  lemma DataDiskIff(code: Code, p: Pool, s: StripeId, more: Code)
    requires Whole(code, p, s) && Lawful(more) && more.ds == code.ds + 1 && more.ps == code.ps
    ensures Fresh(more, WithDisk(p, false), s) <==>
            NothingWritten(Content(p, s)) || Parity(more, Content(p, s) + [None]) == Parity(code, Content(p, s))
    ensures Covered(WithDisk(p, false), s) <==> Covered(p, s)
  {
    NothingQueued(p, false, s);
    var q, slots := WithDisk(p, false), Content(p, s);
    ContentAfter(p, false, s);
    if Fresh(more, q, s) && !NothingWritten(slots) {
      FreshMeansSame(code, p, s, more);
    }
    if NothingWritten(slots) || Parity(more, slots + [None]) == Parity(code, slots) {
      SameMeansFresh(code, p, s, more);
    }
  }

  lemma FreshMeansSame(code: Code, p: Pool, s: StripeId, more: Code)
    requires Whole(code, p, s) && Lawful(more) && more.ds == code.ds + 1 && more.ps == code.ps
    requires Content(WithDisk(p, false), s) == Content(p, s) + [None]
    requires Fresh(more, WithDisk(p, false), s) && !NothingWritten(Content(p, s))
    ensures Parity(more, Content(p, s) + [None]) == Parity(code, Content(p, s))
  {
    hide Parity, Fresh, Intact, LaidOut, Lawful, WithDisk;
    WordIsCodeword(code, Content(p, s));
    WordIsCodeword(more, Content(p, s) + [None]);
    forall j | 0 <= j < p.ps ensures Parity(more, Content(p, s) + [None])[j] == Parity(code, Content(p, s))[j] {
      SameShardOfParity(code, p, s, more, j);
    }
  }

  lemma SameShardOfParity(code: Code, p: Pool, s: StripeId, more: Code, j: nat)
    requires LaidOut(p) && s < p.stripes && j < p.ps && Fresh(code, p, s) && Fresh(more, WithDisk(p, false), s)
    requires Content(WithDisk(p, false), s) == Content(p, s) + [None] && !NothingWritten(Content(p, s))
    requires j < |Parity(code, Content(p, s))| && j < |Parity(more, Content(p, s) + [None])|
    ensures Parity(more, Content(p, s) + [None])[j] == Parity(code, Content(p, s))[j]
  {
    hide Parity, LaidOut;
    var q, slots := WithDisk(p, false), Content(p, s);
    var i :| 0 <= i < |slots| && slots[i].Some?;
    assert (slots + [None])[i].Some?;
    var c := ParityRow(p, s, j);
    NewRows(p, false, c);
    assert ParityIs(code, p.chunks[c], p.files, slots) && ParityIs(more, q.chunks[c], q.files, slots + [None]);
  }

  lemma SameMeansFresh(code: Code, p: Pool, s: StripeId, more: Code)
    requires Whole(code, p, s)
    requires Content(WithDisk(p, false), s) == Content(p, s) + [None]
    requires NothingWritten(Content(p, s)) || Parity(more, Content(p, s) + [None]) == Parity(code, Content(p, s))
    ensures Fresh(more, WithDisk(p, false), s)
  {
    hide Parity;
    var q, slots := WithDisk(p, false), Content(p, s);
    WrittenIsContent(code, p, s);
    forall c | 0 <= c < |q.chunks| && q.chunks[c].kind == ParityChunk && q.chunks[c].stripe == s
      ensures ParityIs(more, q.chunks[c], q.files, slots + [None])
    {
      NewRows(p, false, c);
      assert ParityIs(code, p.chunks[c], p.files, slots);
    }
  }

  /** What else makes a stripe whole is kept. */
  lemma DataDiskWhole(code: Code, p: Pool, s: StripeId, more: Code)
    requires Whole(code, p, s) && Lawful(more) && more.ds == code.ds + 1 && more.ps == code.ps
    ensures Whole(more, WithDisk(p, false), s) <==> Fresh(more, WithDisk(p, false), s)
  {
    hide Fresh;
    var q := WithDisk(p, false);
    AddShards(p, false);
    forall c: nat | c < |q.chunks| && q.chunks[c].status == Allocated && q.chunks[c].stripe == s
      ensures c < |p.chunks| && q.chunks[c] == p.chunks[c]
    {
      NewRows(p, false, c);
    }
    forall c | 0 <= c < |q.chunks| && IsParity(q.chunks[c]) && q.chunks[c].stripe == s
      ensures Release.HasData(q.chunks, s)
    {
      var d :| 0 <= d < |p.chunks| && IsData(p.chunks[d]) && p.chunks[d].stripe == s;
      NewRows(p, false, d);
    }
  }

  /** The written rows of the stripe are the same. */
  lemma SameJob(p: Pool, s: StripeId, job: Job)
    requires IsJob(p, s, job)
    ensures IsJob(WithDisk(p, false), s, job)
  {
    var q := WithDisk(p, false);
    forall c: nat | c < |q.chunks| ensures c >= |p.chunks| ==> !IsData(q.chunks[c]) && q.chunks[c].kind != ParityChunk {
      NewRows(p, false, c);
    }
    forall x | x in p.chunks ensures x in q.chunks {
      var c :| 0 <= c < |p.chunks| && p.chunks[c] == x;
      NewRows(p, false, c);
    }
  }

  lemma NothingAtNewSlot(code: Code, p: Pool, s: StripeId, job: Job)
    requires Whole(code, p, s) && IsJob(p, s, job)
    ensures ChunkAt(job.data, code.ds).None?
  {
    forall k | 0 <= k < |job.data| ensures job.data[k].index < code.ds {
      assert job.data[k] in p.chunks;
      var c :| 0 <= c < |p.chunks| && p.chunks[c] == job.data[k];
    }
  }

  /** The new slot is one more that was never written. */
  lemma {:induction false} OneMoreUnwritten(code: Code, more: Code, job: Job, n: nat)
    requires more.ds == code.ds + 1 && ChunkAt(job.data, code.ds).None?
    ensures n <= code.ds ==> UnwrittenCount(more, job, n) == UnwrittenCount(code, job, n)
    ensures n > code.ds ==> UnwrittenCount(more, job, n) == UnwrittenCount(code, job, n - 1) + 1
  {
    if n > 0 {
      OneMoreUnwritten(code, more, job, n - 1);
      if n - 1 > code.ds { assert ShardChunk(more, job, n - 1) == ShardChunk(code, job, n - 2); }
    }
  }

  /** Even if the parity is what the new code asks for, one disk less may be lost. */
  lemma DataDiskSurvives(code: Code, p: Pool, s: StripeId, more: Code, job: Job, lost: set<DiskId>)
    requires Whole(code, p, s) && Lawful(more) && more.ds == code.ds + 1 && more.ps == code.ps && IsJob(p, s, job)
    requires NothingWritten(Content(p, s)) || Parity(more, Content(p, s) + [None]) == Parity(code, Content(p, s))
    ensures UnwrittenCount(more, job, more.ds + more.ps) == UnwrittenCount(code, job, code.ds + code.ps) + 1
    ensures |lost| + UnwrittenCount(code, job, code.ds + code.ps) < code.ps ==>
              IsJob(WithDisk(p, false), s, job) && Recoverable(more, job, WithoutDisks(p.files, lost))
  {
    hide Whole, NothingWritten, IsJob, Recoverable, UnwrittenCount, WithoutDisks, Lawful;
    DataDiskIff(code, p, s, more);
    DataDiskWhole(code, p, s, more);
    NothingAtNewSlot(code, p, s, job);
    OneMoreUnwritten(code, more, job, more.ds + more.ps);
    SameJob(p, s, job);
    if |lost| + UnwrittenCount(code, job, code.ds + code.ps) < code.ps {
      DisksLost(more, WithDisk(p, false), s, job, lost);
    }
  }
}
