/** Purging files: their versions and mappings go, and the pool takes back what no other
    version maps. */
module Recycle {
  import opened Sequences
  import opened Subtree
  import opened Tables
  import opened Database
  import opened Release
  import opened PoolSafety
  import opened Lifecycle
  import opened FileHandles

  /** A share and its pool with the handles that are open and the files still to be deleted. */
  ghost function LifeOf(share: Share, db: PoolDb, writing: map<VersionId, InodeId>, pending: set<Loc>): Life
    reads share, db
  {
    Life(db.State(), share.versions, share.used, writing, share.current, pending)
  }

  // ----- what is referenced -----

  /** The versions of some files, a batch of files at a time. */
  method PluckVersionIds(versions: map<VersionId, Version>, inodes: seq<InodeId>) returns (out: seq<VersionId>)
    requires Distinct(inodes)
    ensures Distinct(out) && forall v :: v in out <==> v in versions && versions[v].inode in inodes
  {
    out := ChildrenOf(map v | v in versions :: versions[v].inode, inodes);
  }

  ghost function Mapped(refs: map<Slot, ChunkId>, ids: seq<VersionId>): set<ChunkId> {
    set s | s in refs && s.version in ids :: refs[s]
  }

  lemma MappedMore(refs: map<Slot, ChunkId>, a: seq<VersionId>, b: seq<VersionId>)
    ensures Mapped(refs, a + b) == Mapped(refs, a) + Mapped(refs, b)
  {
  }

  /** The chunks of the rows of a batch of versions; a chunk may come up more than once. */
  method PluckBatch(refs: map<Slot, ChunkId>, batch: seq<VersionId>) returns (got: seq<ChunkId>)
    ensures Members(got) == Mapped(refs, batch)
  {
    var rows := set s | s in refs && s.version in batch;
    got := [];
    while rows != {}
      invariant forall s | s in rows :: s in refs && s.version in batch
      invariant Mapped(refs, batch) == Members(got) + set s | s in rows :: refs[s]
      decreases rows
    {
      var s :| s in rows;
      ghost var was, left := got, rows - {s};
      got := got + [refs[s]];
      assert Members(got) == Members(was) + {refs[s]};
      assert (set t | t in rows :: refs[t]) == (set t | t in left :: refs[t]) + {refs[s]};
      rows := rows - {s};
    }
  }

  /** Each chunk that one of the versions maps to, once. */
  method PluckChunkIds(refs: map<Slot, ChunkId>, ids: seq<VersionId>) returns (out: seq<ChunkId>)
    ensures Distinct(out) && Members(out) == Mapped(refs, ids)
  {
    out := [];
    var start := 0;
    while start < |ids|
      invariant 0 <= start <= |ids| && Distinct(out) && Members(out) == Mapped(refs, ids[..start])
    {
      var end := if start + PURGE_BATCH > |ids| then |ids| else start + PURGE_BATCH;
      var got := PluckBatch(refs, ids[start..end]);
      MappedMore(refs, ids[..start], ids[start..end]);
      assert ids[..end] == ids[..start] + ids[start..end];
      out := AppendNew(out, got);
      start := end;
    }
    assert ids[..start] == ids;
  }

  method AppendNew(out: seq<ChunkId>, got: seq<ChunkId>) returns (r: seq<ChunkId>)
    requires Distinct(out)
    ensures Distinct(r) && Members(r) == Members(out) + Members(got)
  {
    r := out;
    for i := 0 to |got|
      invariant Distinct(r) && Members(r) == Members(out) + Members(got[..i])
    {
      MembersSnoc(got, i);
      if got[i] !in r {
        ghost var was := r;
        r := r + [got[i]];
        assert Members(r) == Members(was) + {got[i]};
      }
    }
    assert got[..|got|] == got;
  }

  // ----- dropping versions -----

  ghost function RowsOfAll(refs: map<Slot, ChunkId>, ids: seq<VersionId>): set<Slot> {
    set s | s in refs && s.version in ids
  }

  /** Deletes the mapping rows of some versions, a batch at a time. */
  method DeleteMappings(db: PoolDb, ids: seq<VersionId>)
    modifies db`refs
    ensures db.refs == old(db.refs) - RowsOfAll(old(db.refs), ids)
  {
    var start := 0;
    while start < |ids|
      invariant 0 <= start <= |ids| && db.refs == old(db.refs) - RowsOfAll(old(db.refs), ids[..start])
    {
      var end := if start + PURGE_BATCH > |ids| then |ids| else start + PURGE_BATCH;
      var batch := ids[start..end];
      assert ids[..end] == ids[..start] + batch;
      db.refs := db.refs - set s | s in db.refs && s.version in batch;
      start := end;
    }
    assert ids[..start] == ids;
  }

  method DeleteVersions(share: Share, ids: seq<VersionId>)
    modifies share`versions
    ensures share.versions == old(share.versions) - Members(ids)
  {
    var start := 0;
    while start < |ids|
      invariant 0 <= start <= |ids| && share.versions == old(share.versions) - Members(ids[..start])
    {
      var end := if start + PURGE_BATCH > |ids| then |ids| else start + PURGE_BATCH;
      assert ids[..end] == ids[..start] + ids[start..end];
      share.versions := share.versions - Members(ids[start..end]);
      start := end;
    }
    assert ids[..start] == ids;
  }

  /** The versions and their mappings go in one transaction with the release, so a chunk that
      another version maps is seen to be in use. */
  method DropVersions(share: Share, db: PoolDb, ids: seq<VersionId>, ghost writing: map<VersionId, InodeId>,
                      ghost pending: set<Loc>)
    returns (stale: seq<Loc>, ghost chunks: seq<ChunkId>, ghost dropped: set<ChunkId>)
    modifies share`versions, db
    ensures share.current == old(share.current)
    ensures Drops(old(LifeOf(share, db, writing, pending)),
                  LifeOf(share, db, writing,
                         pending + StaleData(Unmapped(old(db.State()), Members(ids)), chunks, dropped)),
                  Members(ids), chunks, stale, dropped)
  {
    ghost var p := db.State();
    var chunkIds := PluckChunkIds(db.refs, ids);
    DeleteMappings(db, ids);
    DeleteVersions(share, ids);
    assert RowsOfAll(p.refs, ids) == SlotsOf(p, Members(ids));
    assert Mapped(p.refs, ids) == MappedBy(p, Members(ids));
    assert db.State() == Unmapped(p, Members(ids));
    var res;
    ghost var candidates;
    res, dropped, candidates := ReleaseChunks(db, chunkIds);
    stale, chunks := res.stale, chunkIds;
  }

  ghost function Unmapped(p: Pool, vs: set<VersionId>): Pool { p.(refs := p.refs - SlotsOf(p, vs)) }

  /** Purges some files of the share: the files below an entry of the trash, or all of them
      when the share is deleted. */
  method PurgeFiles(share: Share, db: PoolDb, inodes: seq<InodeId>, ghost writing: map<VersionId, InodeId>,
                    ghost pending: set<Loc>)
    returns (stale: seq<Loc>, ghost e: Event, ghost left: set<Loc>)
    requires Distinct(inodes)
    modifies share, db
    ensures e.Purge? && e.gone == Members(inodes) && e.stale == stale
    ensures Step(old(LifeOf(share, db, writing, pending)), e, LifeOf(share, db, writing, left))
  {
    ghost var a := LifeOf(share, db, writing, pending);
    var versionIds := PluckVersionIds(share.versions, inodes);
    assert Members(versionIds) == VersionsOf(a, Members(inodes));
    ghost var chunks, dropped;
    stale, chunks, dropped := DropVersions(share, db, versionIds, writing, pending);
    share.current := share.current - Members(inodes);
    left := pending + StaleData(Unmapped(a.pool, Members(versionIds)), chunks, dropped);
    e := Purge(Members(inodes), chunks, stale, dropped);
  }

  /** Deletes the files that a release left behind, after the transaction. */
  method DeleteStaleFiles(db: PoolDb, stale: seq<Loc>)
    modifies db`files
    ensures db.files == old(db.files) - set l | l in stale
  {
    for i := 0 to |stale|
      invariant db.files == old(db.files) - set l | l in stale[..i]
    {
      assert stale[..i + 1] == stale[..i] + [stale[i]];
      db.files := db.files - {stale[i]};
    }
    assert stale[..|stale|] == stale;
  }
}
