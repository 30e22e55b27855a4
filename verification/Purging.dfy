/** Purging an entry of the trash: its rows in the tree, its versions and its chunks go together,
    and nothing that is live loses any. */
module Purging {
  import opened Wrappers
  import opened Subtree
  import opened Namespace
  import opened Trees
  import opened Tables
  import opened Database
  import opened Lifecycle
  import opened FileHandles
  import opened Recycle

  /** The files the tree knows are those that have a current version, if only an empty one. */
  ghost predicate SameFiles(inodes: Inodes, current: map<Tables.InodeId, Option<VersionId>>) {
    forall id :: id in current <==> id in inodes && inodes[id].kind == File
  }

  /** The purge of a whole subtree of the trash. */
  ghost predicate PurgesSubtree(inodes: Inodes, id: Namespace.InodeId, a: Life, e: Event, b: Life) {
    && e.Purge? && e.gone == Descendants(LinksOf(inodes), id) && Step(a, e, b)
    && id in inodes && inodes[id].deleted
  }

  /** The transaction: the subtree is collected once, and its files, versions, mappings and rows
      go; or nothing changes. */
  method PurgeEntry(tree: Tree, share: Share, db: PoolDb, id: Namespace.InodeId,
                    ghost writing: map<VersionId, Tables.InodeId>, ghost pending: set<Loc>)
    returns (r: Outcome, stale: seq<Loc>, ghost e: Event, ghost left: set<Loc>)
    requires Sane(tree.inodes, tree.next)
    modifies tree`inodes, share, db
    ensures Sane(tree.inodes, tree.next) && KeepsLive(old(tree.inodes), tree.inodes)
    ensures r == Done <==> (
      && tree.writable && id in old(tree.inodes) && old(tree.inodes)[id].deleted
      && !OnCycle(LinksOf(old(tree.inodes)), id) && |Descendants(LinksOf(old(tree.inodes)), id)| <= 100_000)
    ensures r != Done ==>
              r == if !tree.writable then Denied else if id !in old(tree.inodes) then NotFound
                   else if !old(tree.inodes)[id].deleted then NotDeleted else TooMany
    ensures r == Done ==> tree.inodes == old(tree.inodes) - Descendants(LinksOf(old(tree.inodes)), id)
    ensures r == Done ==>
              PurgesSubtree(old(tree.inodes), id, old(LifeOf(share, db, writing, pending)), e,
                            LifeOf(share, db, writing, left))
    ensures r == Done ==> e.stale == stale
    ensures r != Done ==> tree.inodes == old(tree.inodes) && stale == []
    ensures r != Done ==> LifeOf(share, db, writing, pending) == old(LifeOf(share, db, writing, pending))
    ensures SameFiles(old(tree.inodes), old(share.current)) ==> SameFiles(tree.inodes, share.current)
  {
    hide Step, Sane;
    stale, e, left := [], CreateFile(0), pending;
    var gone;
    r, gone := tree.Purge(id);
    if r == Done {
      stale, e, left := PurgeFiles(share, db, gone, writing, pending);
    }
  }

  /** No live file is touched: it keeps its current version, each of its versions keeps its row,
      and every slice of them its chunk and its bytes. */
  lemma PurgeSparesLive(inodes: Inodes, next: Namespace.InodeId, id: Namespace.InodeId, a: Life, e: Event, b: Life,
                        x: Namespace.InodeId, v: VersionId, idx: nat)
    requires Sane(inodes, next) && PurgesSubtree(inodes, id, a, e, b) && Safe(a) && x in inodes && !inodes[x].deleted
    ensures x in a.current ==> x in b.current && b.current[x] == a.current[x]
    ensures v in a.versions && a.versions[v].inode == x ==>
              && v in b.versions && b.versions[v] == a.versions[v]
              && SameSlice(a.pool, b.pool, Slot(v, idx))
  {
    PurgeKeeps(inodes, next, id);
    assert x !in e.gone;
    if v in a.versions && a.versions[v].inode == x { StepKeepsSlice(a, e, b, Slot(v, idx)); }
  }

  /** Nothing of the subtree is left: no version of any entry below it, and no mapping of theirs. */
  lemma PurgeLeavesNothing(inodes: Inodes, id: Namespace.InodeId, a: Life, e: Event, b: Life,
                           x: Namespace.InodeId, v: VersionId)
    requires PurgesSubtree(inodes, id, a, e, b) && Safe(a) && x in Descendants(LinksOf(inodes), id)
    ensures x !in b.current && (v in b.versions ==> b.versions[v].inode != x)
    ensures v in a.versions && a.versions[v].inode == x ==> forall s | s in b.pool.refs :: s.version != v
  {
    DropsKeep(a, b, VersionsOf(a, e.gone), e.ids, e.stale, e.dropped);
  }
}
