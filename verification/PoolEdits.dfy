/** What one handle does to the pool: it stores slices, or fails to, and makes holes, all in
    the version it writes. Chunks that are written and other versions are not touched. */
module PoolEdits {
  import opened Bytes
  import opened Tables
  import opened Database
  import opened Layout
  import opened PoolSafety

  datatype Edit = Stores(data: Data, c: ChunkId, idx: nat) | Fails(data: Data, c: ChunkId) | Drops(idxs: set<nat>)

  ghost predicate EditBy(p: Pool, e: Edit, q: Pool, v: VersionId) {
    match e
    case Stores(data, c, idx) => PutsOne(p, q, data, c, Slot(v, idx))
    case Fails(data, c) => TriesOne(p, q, data, c)
    case Drops(idxs) => q == p.(refs := p.refs - set i | i in idxs :: Slot(v, i))
  }

  ghost predicate EditRun(pools: seq<Pool>, edits: seq<Edit>, v: VersionId) {
    |pools| == |edits| + 1 && forall i | 0 <= i < |edits| :: EditBy(pools[i], edits[i], pools[i + 1], v)
  }

  /** Any number of edits of one version lead from one pool to the other. */
  ghost predicate Edits(p: Pool, q: Pool, v: VersionId) {
    exists pools, edits :: EditRun(pools, edits, v) && pools[0] == p && pools[|edits|] == q
  }

  lemma EditsNone(p: Pool, v: VersionId)
    ensures Edits(p, p, v)
  {
    assert EditRun([p], [], v);
  }

  lemma EditsOne(p: Pool, e: Edit, q: Pool, v: VersionId)
    requires EditBy(p, e, q, v)
    ensures Edits(p, q, v)
  {
    hide EditBy;
    assert EditRun([p, q], [e], v);
  }

  lemma EditsThen(p: Pool, m: Pool, q: Pool, v: VersionId)
    requires Edits(p, m, v) && Edits(m, q, v)
    ensures Edits(p, q, v)
  {
    hide EditBy;
    var ps, es :| EditRun(ps, es, v) && ps[0] == p && ps[|es|] == m;
    var qs, fs :| EditRun(qs, fs, v) && qs[0] == m && qs[|fs|] == q;
    var pools, edits := ps + qs[1..], es + fs;
    forall i | 0 <= i < |edits| ensures EditBy(pools[i], edits[i], pools[i + 1], v) {
      if i < |es| {
        assert EditBy(ps[i], es[i], ps[i + 1], v);
      } else {
        assert EditBy(qs[i - |es|], fs[i - |es|], qs[i - |es| + 1], v);
        assert pools[i] == qs[i - |es|];
      }
    }
    assert EditRun(pools, edits, v);
  }

  // ----- what edits leave alone -----

  lemma EditSameDisks(p: Pool, e: Edit, q: Pool, v: VersionId)
    requires EditBy(p, e, q, v)
    ensures q.disks == p.disks && q.ds == p.ds && q.ps == p.ps
  {
  }

  /** Edits add no disk. */
  lemma SameDisks(p: Pool, q: Pool, v: VersionId)
    requires Edits(p, q, v)
    ensures q.disks == p.disks && q.ds == p.ds && q.ps == p.ps
  {
    hide EditBy;
    var pools: seq<Pool>, edits :| EditRun(pools, edits, v) && pools[0] == p && pools[|edits|] == q;
    for i := 0 to |edits|
      invariant pools[i].disks == p.disks && pools[i].ds == p.ds && pools[i].ps == p.ps
    {
      EditSameDisks(pools[i], edits[i], pools[i + 1], v);
    }
  }

  /** The chunk has the same row and the same bytes. */
  ghost predicate SameChunk(p: Pool, q: Pool, c: ChunkId) {
    c < |p.chunks| && c < |q.chunks| && q.chunks[c] == p.chunks[c] && SameFile(p.files, q.files, p.chunks[c].loc)
  }

  ghost predicate OthersKeptAllocated(p: Pool, q: Pool) {
    forall c | 0 <= c < |p.chunks| && p.chunks[c].status == Allocated :: SameChunk(p, q, c)
  }

  lemma KeptTwice(p: Pool, m: Pool, q: Pool)
    requires OthersKeptAllocated(p, m) && OthersKeptAllocated(m, q)
    ensures OthersKeptAllocated(p, q)
  {
    forall c | 0 <= c < |p.chunks| && p.chunks[c].status == Allocated ensures SameChunk(p, q, c) {
      assert SameChunk(p, m, c);
      assert SameChunk(m, q, c);
    }
  }

  /** What all other versions map. */
  ghost function OtherVersions(refs: map<Slot, ChunkId>, v: VersionId): map<Slot, ChunkId> {
    map s | s in refs && s.version != v :: refs[s]
  }

  lemma TakenKept(p: Pool, q: Pool, c: ChunkId)
    requires TakesOne(p, q, c) && PathsApart(q)
    ensures OthersKeptAllocated(p, q)
  {
  }

  lemma EditKeeps(p: Pool, e: Edit, q: Pool, v: VersionId)
    requires LaidOut(p) && EditBy(p, e, q, v)
    ensures LaidOut(q) && OthersKeptAllocated(p, q) && OtherVersions(q.refs, v) == OtherVersions(p.refs, v)
  {
    match e
    case Stores(data, c, idx) => StoreEditKeeps(p, q, data, c, Slot(v, idx));
    case Fails(data, c) =>
      TryTakes(p, q, data, c);
      TakenKept(p, q, c);
    case Drops(idxs) => SameSlotsKeep(p, q);
  }

  lemma StoreEditKeeps(p: Pool, q: Pool, data: Data, c: ChunkId, s: Slot)
    requires PutsOne(p, q, data, c, s)
    ensures LaidOut(q) && OthersKeptAllocated(p, q)
    ensures OtherVersions(q.refs, s.version) == OtherVersions(p.refs, s.version)
  {
    hide StoresOne;
    var m: Pool :| StoresOne(p, m, data, c) && q == m.(refs := m.refs[s := c]);
    StoreAdds(p, m, data, c);
    TakenKept(p, m, c);
    SameSlotsKeep(m, q);
  }

  /** Edits of one version keep the bytes of every written chunk and the slices of every other
      version. */
  lemma EditsKeep(p: Pool, q: Pool, v: VersionId)
    requires LaidOut(p) && Edits(p, q, v)
    ensures LaidOut(q) && OthersKeptAllocated(p, q) && OtherVersions(q.refs, v) == OtherVersions(p.refs, v)
  {
    hide LaidOut, OthersKeptAllocated, OtherVersions, EditBy;
    var pools, edits :| EditRun(pools, edits, v) && pools[0] == p && pools[|edits|] == q;
    EditRunKeeps(pools, edits, v, |edits|);
  }

  lemma {:induction false} EditRunKeeps(pools: seq<Pool>, edits: seq<Edit>, v: VersionId, n: nat)
    requires EditRun(pools, edits, v) && n <= |edits| && LaidOut(pools[0])
    ensures LaidOut(pools[n]) && OthersKeptAllocated(pools[0], pools[n])
    ensures OtherVersions(pools[n].refs, v) == OtherVersions(pools[0].refs, v)
  {
    hide LaidOut, EditBy;
    if n > 0 {
      EditRunKeeps(pools, edits, v, n - 1);
      EditKeeps(pools[n - 1], edits[n - 1], pools[n], v);
      KeptTwice(pools[0], pools[n - 1], pools[n]);
    }
  }
}
