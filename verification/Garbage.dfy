/** Collecting chunks that no version maps to: leftovers of transactions that never mapped
    what they had stored, and of purges before there was a release. */
module Garbage {
  import opened Sequences
  import opened Tables
  import opened Database
  import opened Layout
  import opened Release
  import opened ReadCache

  const GC_BATCH_LIMIT := 5000

  /** The write queue has a row of the chunk. */
  predicate InLog(p: Pool, c: ChunkId) { exists k | 0 <= k < |p.log| :: p.log[k].chunk == c }

  /** A written data chunk that no version maps to, that is old enough, and that has no row in
      the write queue. `young` are the chunks whose rows were made within the grace period. */
  predicate Orphan(p: Pool, young: set<ChunkId>, c: ChunkId) {
    Frees(p, c) && c !in young && !InLog(p, c)
  }

  /** What makes an orphan, row by row. */
  lemma OrphanIs(p: Pool, young: set<ChunkId>)
    ensures forall c: nat :: Orphan(p, young, c) <==>
              && c < |p.chunks| && p.chunks[c].kind == DataChunk && p.chunks[c].status == Allocated
              && c !in p.refs.Values && c !in young && !InLog(p, c)
  {
  }

  /** The first `limit` orphans the table yields. */
  method OrphanIds(db: PoolDb, young: set<ChunkId>, limit: nat) returns (ids: seq<ChunkId>)
    ensures Distinct(ids) && |ids| <= limit
    ensures forall c | c in ids :: Orphan(db.State(), young, c)
    ensures |ids| < limit ==> forall c: nat | Orphan(db.State(), young, c) :: c in ids
  {
    OrphanIs(db.State(), young);
    ids := [];
    var c := 0;
    while c < |db.chunks| && |ids| < limit
      invariant 0 <= c <= |db.chunks| && |ids| <= limit && Distinct(ids)
      invariant forall d: nat :: d in ids <==> d < c && Orphan(db.State(), young, d)
    {
      if IsData(db.chunks[c]) && c !in db.refs.Values && c !in young
         && forall k | 0 <= k < |db.log| :: db.log[k].chunk != c {
        Snoc(ids, c);
        ids := ids + [c];
      }
      c := c + 1;
    }
  }

  lemma OrphansAreFreed(p: Pool, young: set<ChunkId>, ids: seq<ChunkId>)
    requires Distinct(ids) && forall c | c in ids :: Orphan(p, young, c)
    ensures Freed(p, ids) == Members(ids) && |Freed(p, ids)| == |ids|
  {
    DistinctSize(ids, Members(ids));
  }

  /** A data chunk that is young, mapped, or named by a row of the write queue. */
  ghost predicate Spared(p: Pool, young: set<ChunkId>, c: ChunkId)
    requires c < |p.chunks|
  {
    p.chunks[c].kind == DataChunk && (c in young || c in p.refs.Values || InLog(p, c))
  }

  /** The rows that stay and those that go, given the ids that were released. */
  lemma CollectedRows(p: Pool, q: Pool, young: set<ChunkId>, ids: seq<ChunkId>, stale: seq<Loc>, dropped: set<ChunkId>)
    requires Released(p, q, ids, stale, dropped) && forall c | c in ids :: Orphan(p, young, c)
    ensures |q.chunks| == |p.chunks|
    ensures forall c | 0 <= c < |p.chunks| && Spared(p, young, c) ::
              q.chunks[c] == p.chunks[c] && (c in q.caches <==> c in p.caches)
    ensures LaidOut(p) && CopiesApart(p) ==> forall c | 0 <= c < |p.chunks| && Spared(p, young, c) ::
              p.chunks[c].loc !in stale
    ensures forall c | c in ids :: c < |p.chunks| && q.chunks[c].status == Reserved && p.chunks[c].loc in stale
  {
    hide Released, LaidOut, CopiesApart;
    ReleaseKeepsCount(p, q, ids, stale, dropped);
    forall c | 0 <= c < |p.chunks| && Spared(p, young, c)
      ensures q.chunks[c] == p.chunks[c] && (c in q.caches <==> c in p.caches)
      ensures LaidOut(p) && CopiesApart(p) ==> p.chunks[c].loc !in stale
    {
      ReleasedExactly(p, q, ids, stale, dropped, c);
      if LaidOut(p) && CopiesApart(p) { OthersNotListed(p, q, ids, stale, dropped, c); }
    }
    forall c | c in ids ensures c < |p.chunks| && q.chunks[c].status == Reserved && p.chunks[c].loc in stale {
      ReleasedRow(p, q, ids, stale, dropped, c);
    }
  }

  /** The file of a data chunk that is not released is not listed for deletion. */
  lemma OthersNotListed(p: Pool, q: Pool, ids: seq<ChunkId>, stale: seq<Loc>, dropped: set<ChunkId>, c: ChunkId)
    requires LaidOut(p) && CopiesApart(p) && Released(p, q, ids, stale, dropped)
    requires c < |p.chunks| && c !in ids && p.chunks[c].kind == DataChunk
    ensures p.chunks[c].loc !in stale
  {
  }

  /** Releases every orphan found, and nothing else; below the limit no orphan is left. */
  method GarbageCollect(db: PoolDb, young: set<ChunkId>, limit: int)
    returns (scanned: nat, res: ReleaseResult, ghost ids: seq<ChunkId>, ghost dropped: set<ChunkId>)
    modifies db`chunks, db`paths, db`caches, db`log, db`tasks
    ensures scanned == |ids| == res.chunks <= GC_BATCH_LIMIT && (0 < limit ==> scanned <= limit)
    ensures forall c | c in ids :: Orphan(old(db.State()), young, c)
    ensures scanned == 0 ==> db.State() == old(db.State())
    ensures scanned > 0 ==> Released(old(db.State()), db.State(), ids, res.stale, dropped)
    ensures |db.chunks| == |old(db.chunks)| && (scanned == 0 ==> res.stale == [])
    ensures forall c | 0 <= c < |db.chunks| && old(db.chunks)[c].kind == DataChunk &&
              (c in young || c in db.refs.Values || exists k :: 0 <= k < |old(db.log)| && old(db.log)[k].chunk == c) ::
              db.chunks[c] == old(db.chunks)[c] && (c in db.caches <==> c in old(db.caches))
    ensures LaidOut(old(db.State())) && CopiesApart(old(db.State())) ==>
              forall c | 0 <= c < |db.chunks| && old(db.chunks)[c].kind == DataChunk &&
                (c in young || c in db.refs.Values ||
                 exists k :: 0 <= k < |old(db.log)| && old(db.log)[k].chunk == c) ::
                old(db.chunks)[c].loc !in res.stale
    ensures scanned < (if limit <= 0 || limit > 5000 then 5000 else limit) ==>
              forall c | 0 <= c < |db.chunks| && old(db.chunks)[c].kind == DataChunk &&
                old(db.chunks)[c].status == Allocated && c !in young && c !in db.refs.Values &&
                (forall k | 0 <= k < |old(db.log)| :: old(db.log)[k].chunk != c) ::
                db.chunks[c].status == Reserved && old(db.chunks)[c].loc in res.stale
    ensures scanned < (if limit <= 0 || limit > GC_BATCH_LIMIT then GC_BATCH_LIMIT else limit) ==>
              forall c: nat | Orphan(old(db.State()), young, c) :: c in ids
  {
    var most := if limit <= 0 || limit > GC_BATCH_LIMIT then GC_BATCH_LIMIT else limit;
    var found := OrphanIds(db, young, most);
    ids, dropped, scanned := found, {}, |found|;
    OrphanIs(db.State(), young);
    if |found| == 0 {
      return 0, ReleaseResult([], 0, 0), [], {};
    }
    OrphansAreFreed(db.State(), young, found);
    ghost var candidates;
    ghost var p := db.State();
    res, dropped, candidates := ReleaseChunks(db, found);
    CollectedRows(p, db.State(), young, found, res.stale, dropped);
  }
}
