/** Adding a data or parity disk to a pool that may already hold stripes. */
module Disks {
  import opened Wrappers
  import opened Tables
  import opened Database
  import opened Layout

  /** The rows of a pool with the new disk. */
  lemma NewRows(p: Pool, parity: bool)
    ensures var cs := WithDisk(p, parity).chunks;
            && |cs| == |p.chunks| + p.stripes && cs[..|p.chunks|] == p.chunks
            && forall c | |p.chunks| <= c < |cs| ::
                 var s := c - |p.chunks|;
                 cs[c] == Chunk(Reserved, if parity then ParityChunk else DataChunk, s, if parity then p.ps else p.ds,
                                Loc(p.disks, p.paths + s), 0, None)
  {
  }

  /** The new disk gets one reserved slot of every stripe there is. Refused only when it is
      to hold parity and the pool has no data disk yet. */
  method AddDisk(db: PoolDb, addParity: bool) returns (disk: Option<DiskId>)
    requires LaidOut(db.State())
    modifies db`ds, db`ps, db`disks, db`chunks, db`paths
    ensures disk == if addParity && old(db.ds) == 0 then None else Some(old(db.disks))
    ensures disk.None? ==> db.State() == old(db.State())
    ensures disk.Some? ==> db.State() == WithDisk(old(db.State()), addParity)
    ensures disk.Some? ==>
              && db.disks == old(db.disks) + 1 && db.ds + db.ps == old(db.ds + db.ps) + 1
              && db.ps == old(db.ps) + (if addParity then 1 else 0)
              && |db.chunks| == |old(db.chunks)| + db.stripes && db.chunks[..|old(db.chunks)|] == old(db.chunks)
              && forall c | |old(db.chunks)| <= c < |db.chunks| ::
                   var s := c - |old(db.chunks)|;
                   db.chunks[c] ==
                   Chunk(Reserved, if addParity then ParityChunk else DataChunk, s,
                         if addParity then old(db.ps) else old(db.ds), Loc(old(db.disks), old(db.paths) + s), 0, None)
    ensures LaidOut(db.State())
  {
    hide LaidOut;
    ghost var p := db.State();
    if addParity && db.ds == 0 {
      return None;
    }
    AddShards(p, addParity);
    NewRows(p, addParity);
    disk := Some(db.disks);
    db.disks := db.disks + 1;
    var kind, idx := DataChunk, db.ds;
    if addParity {
      kind, idx := ParityChunk, db.ps;
      db.ps := db.ps + 1;
    } else {
      db.ds := db.ds + 1;
    }
    var allocs: seq<Chunk> := [];
    for s := 0 to db.stripes
      invariant db.State() == p.(ds := db.ds, ps := db.ps, disks := db.disks)
      invariant |allocs| == s && forall m | 0 <= m < s :: allocs[m] == NewShard(p, addParity, m)
    {
      allocs := allocs + [Chunk(Reserved, kind, s, idx, Loc(disk.value, db.paths + s), 0, None)];
    }
    db.chunks := db.chunks + allocs;
    db.paths := db.paths + |allocs|;
    assert db.chunks == WithDisk(p, addParity).chunks;
    assert db.State() == WithDisk(p, addParity);
  }
}
