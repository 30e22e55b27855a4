/** Giving slots back: chunks that no version maps to any more become reserved slots. */
module Release {
  import opened Wrappers
  import opened Tables
  import opened Database
  import opened Sequences
  import opened Layout

  /** The most ids one statement handles. */
  const RELEASE_BATCH := 500

  // ----- what a release does -----

  /** A written data chunk that no version maps to. */
  predicate Frees(p: Pool, c: ChunkId) {
    c < |p.chunks| && IsData(p.chunks[c]) && c !in p.refs.Values
  }

  ghost function Freed(p: Pool, ids: seq<ChunkId>): set<ChunkId> { set c | c in ids && Frees(p, c) }

  predicate HasData(chunks: seq<Chunk>, s: StripeId) {
    exists c | 0 <= c < |chunks| :: IsData(chunks[c]) && chunks[c].stripe == s
  }

  /** An empty slot in place of the chunk, at a path of its own. */
  function FreeRow(c: Chunk, path: nat): Chunk {
    c.(status := Reserved, size := 0, hash := None, loc := Loc(c.loc.disk, path))
  }

  function ResetRow(c: Chunk): Chunk { c.(status := Reserved, size := 0, hash := None) }

  function CopyFile(e: CacheEntry): Loc
    requires e.path.Some?
  {
    Loc(e.disk, e.path.value)
  }

  /** The files of freed chunks and of cached copies. */
  ghost function FilesOf(p: Pool, freed: set<ChunkId>, dropped: set<ChunkId>): set<Loc> {
    (set c | c in freed && c < |p.chunks| :: p.chunks[c].loc) +
    (set c | c in dropped && c in p.caches && p.caches[c].path.Some? :: CopyFile(p.caches[c]))
  }

  function Without(log: seq<LogRow>, dropped: set<ChunkId>): seq<LogRow> {
    if log == [] then [] else (if log[0].chunk in dropped then [] else [log[0]]) + Without(log[1..], dropped)
  }

  /** The rows of `freed` are reserved slots at new paths; cache entries and write queue
      rows of `dropped` are gone; nothing else has changed. */
  ghost predicate Detached(p: Pool, q: Pool, freed: set<ChunkId>, dropped: set<ChunkId>) {
    && q == p.(chunks := q.chunks, paths := q.paths, caches := q.caches, log := q.log)
    && |q.chunks| == |p.chunks| && p.paths <= q.paths
    && (forall c | 0 <= c < |p.chunks| && c in freed ::
          q.chunks[c] == FreeRow(p.chunks[c], q.chunks[c].loc.path) && p.paths <= q.chunks[c].loc.path < q.paths)
    && (forall c | 0 <= c < |p.chunks| && c !in freed :: q.chunks[c] == p.chunks[c])
    && (forall a, b | 0 <= a < b < |p.chunks| && a in freed && b in freed ::
          q.chunks[a].loc.path != q.chunks[b].loc.path)
    && q.caches == p.caches - dropped && q.log == Without(p.log, dropped)
  }

  /** A stripe that lost a chunk, and one that lost its last. */
  ghost predicate Touched(p: Pool, freed: set<ChunkId>, s: StripeId) {
    exists c :: c in freed && c < |p.chunks| && p.chunks[c].stripe == s
  }

  ghost predicate Emptied(p: Pool, freed: set<ChunkId>, s: StripeId) {
    Touched(p, freed, s) && forall c | 0 <= c < |p.chunks| && IsData(p.chunks[c]) && p.chunks[c].stripe == s ::
      c in freed
  }

  /** The parity chunks that protected nothing but freed chunks. */
  ghost function ParityFreed(p: Pool, freed: set<ChunkId>): set<ChunkId> {
    set c | 0 <= c < |p.chunks| && IsParity(p.chunks[c]) && Emptied(p, freed, p.chunks[c].stripe)
  }

  ghost function LocsOf(p: Pool, ids: set<ChunkId>): set<Loc> { set c | c in ids && c < |p.chunks| :: p.chunks[c].loc }

  datatype ReleaseResult = ReleaseResult(stale: seq<Loc>, chunks: nat, bytes: nat)

  function FreedBytes(p: Pool, ids: seq<ChunkId>): nat {
    if ids == [] then 0
    else FreedBytes(p, ids[..|ids| - 1]) + if Frees(p, ids[|ids| - 1]) then p.chunks[ids[|ids| - 1]].size else 0
  }

  /** What becomes of each row: freed chunks are reserved slots at new paths, parity that
      protects nothing any more is reset at its old path, and no other row changes. */
  ghost predicate RowsReleased(p: Pool, q: Pool, freed: set<ChunkId>) {
    && |q.chunks| == |p.chunks| && p.paths <= q.paths
    && (forall c | 0 <= c < |p.chunks| && c in freed ::
          q.chunks[c] == FreeRow(p.chunks[c], q.chunks[c].loc.path) && p.paths <= q.chunks[c].loc.path < q.paths)
    && (forall c | 0 <= c < |p.chunks| && c !in freed ::
          q.chunks[c] == if c in ParityFreed(p, freed) then ResetRow(p.chunks[c]) else p.chunks[c])
    && (forall a, b | 0 <= a < b < |p.chunks| && a in freed && b in freed ::
          q.chunks[a].loc.path != q.chunks[b].loc.path)
  }

  /** Touched stripes that still have data are queued for new parity, once each and only if
      they are not queued already. */
  ghost predicate ParityQueued(p: Pool, tasks: seq<StripeId>, freed: set<ChunkId>) {
    && |p.tasks| <= |tasks| && tasks[..|p.tasks|] == p.tasks && Distinct(tasks[|p.tasks|..])
    && forall s: nat :: s in tasks[|p.tasks|..] <==> Touched(p, freed, s) && !Emptied(p, freed, s) && s !in p.tasks
  }

  /** A release in one go, without batches. `dropped` are the chunks whose cache entries
      and write queue rows went: the freed ones, and at most other unmapped candidates. */
  ghost predicate Released(p: Pool, q: Pool, ids: seq<ChunkId>, stale: seq<Loc>, dropped: set<ChunkId>) {
    var freed := Freed(p, ids);
    && q == p.(chunks := q.chunks, paths := q.paths, caches := q.caches, log := q.log, tasks := q.tasks)
    && RowsReleased(p, q, freed)
    && q.caches == p.caches - dropped && q.log == Without(p.log, dropped)
    && freed <= dropped && (forall c | c in dropped :: c in ids && c !in p.refs.Values) &&
         (freed == {} ==> dropped == {})
    && ParityQueued(p, q.tasks, freed)
    && forall l :: l in stale <==> l in FilesOf(p, freed, dropped) + LocsOf(p, ParityFreed(p, freed))
  }

  // ----- choosing what to release -----

  method UniqueIds(ids: seq<ChunkId>) returns (out: seq<ChunkId>)
    ensures Distinct(out) && forall c :: c in out <==> c in ids
  {
    out := [];
    var seen: set<ChunkId> := {};
    for i := 0 to |ids|
      invariant Distinct(out) && (forall c :: c in out <==> c in seen) && (forall c :: c in seen <==> c in ids[..i])
    {
      if ids[i] !in seen {
        seen := seen + {ids[i]};
        out := out + [ids[i]];
      }
    }
  }

  method FilterUnreferenced(db: PoolDb, ids: seq<ChunkId>) returns (out: seq<ChunkId>)
    requires Distinct(ids)
    ensures Distinct(out) && forall c :: c in out <==> c in ids && c !in db.refs.Values
  {
    var referenced: set<ChunkId> := {};
    var start := 0;
    while start < |ids|
      invariant 0 <= start
      invariant forall c :: c in referenced <==>
                  c in db.refs.Values && c in ids[..if start < |ids| then start else |ids|]
    {
      var end := start + RELEASE_BATCH;
      if end > |ids| {
        end := |ids|;
      }
      var batch := ids[start..end];
      assert ids[..end] == ids[..start] + batch;
      referenced := referenced + set c | c in batch && c in db.refs.Values;
      start := start + RELEASE_BATCH;
    }
    assert ids[..|ids|] == ids;
    out := [];
    for i := 0 to |ids|
      invariant Distinct(out) && forall c :: c in out <==> c in ids[..i] && c !in db.refs.Values
    {
      assert ids[i] in ids && ids[..i + 1] == ids[..i] + [ids[i]];
      if ids[i] !in referenced {
        assert ids[i] !in ids[..i];
        out := out + [ids[i]];
      }
    }
  }

  // ----- one batch -----

  lemma FreedSnoc(p: Pool, ids: seq<ChunkId>, i: nat)
    requires Distinct(ids) && i < |ids|
    ensures ids[i] !in Freed(p, ids[..i]) && ids[i] in ids
    ensures Freed(p, ids[..i + 1]) == Freed(p, ids[..i]) + if Frees(p, ids[i]) then {ids[i]} else {}
    ensures FreedBytes(p, ids[..i + 1]) ==
            FreedBytes(p, ids[..i]) + if Frees(p, ids[i]) then p.chunks[ids[i]].size else 0
    ensures Frees(p, ids[i]) ==>
              LocsOf(p, Freed(p, ids[..i]) + {ids[i]}) == LocsOf(p, Freed(p, ids[..i])) + {p.chunks[ids[i]].loc}
  {
    assert ids[..i + 1] == ids[..i] + [ids[i]];
    assert ids[..i + 1][..i] == ids[..i];
  }

  lemma ListSnoc(s: seq<Loc>, x: Loc)
    ensures (set l | l in s + [x]) == (set l | l in s) + {x}
  {
  }

  /** Empties the slots of a batch that hold written data. */
  method FreeRows(db: PoolDb, batch: seq<ChunkId>) returns (stale: seq<Loc>, freed: set<ChunkId>, bytes: nat)
    requires Distinct(batch) && forall c | c in batch :: c !in db.refs.Values
    modifies db`chunks, db`paths
    ensures freed == Freed(old(db.State()), batch) && Detached(old(db.State()), db.State(), freed, {})
    ensures (set l | l in stale) == LocsOf(old(db.State()), freed)
    ensures bytes == FreedBytes(old(db.State()), batch)
  {
    ghost var p := db.State();
    stale, freed, bytes := [], {}, 0;
    NothingDetached(p);
    for i := 0 to |batch|
      invariant db.State() == p.(chunks := db.chunks, paths := db.paths)
      invariant freed == Freed(p, batch[..i]) && Detached(p, db.State(), freed, {})
      invariant (set l | l in stale) == LocsOf(p, freed)
      invariant bytes == FreedBytes(p, batch[..i])
    {
      var c := batch[i];
      FreedSnoc(p, batch, i);
      if c < |db.chunks| && IsData(db.chunks[c]) {
        FreeOneMore(p, db.State(), freed, c);
        ListSnoc(stale, p.chunks[c].loc);
        stale := stale + [db.chunks[c].loc];
        bytes := bytes + db.chunks[c].size;
        db.chunks := db.chunks[c := FreeRow(db.chunks[c], db.paths)];
        db.paths := db.paths + 1;
        freed := freed + {c};
      }
    }
    assert batch[..|batch|] == batch;
  }

  lemma {:induction false} WithoutNone(log: seq<LogRow>)
    ensures Without(log, {}) == log
  {
    if log != [] {
      WithoutNone(log[1..]);
      assert log == [log[0]] + log[1..];
    }
  }

  lemma NothingDetached(p: Pool)
    ensures Detached(p, p, {}, {})
  {
    WithoutNone(p.log);
    assert p.caches - {} == p.caches;
  }

  lemma FreeOneMore(p: Pool, q: Pool, freed: set<ChunkId>, c: ChunkId)
    requires Detached(p, q, freed, {}) && c < |p.chunks| && c !in freed
    ensures Detached(p, q.(chunks := q.chunks[c := FreeRow(q.chunks[c], q.paths)], paths := q.paths + 1),
              freed + {c}, {})
  {
  }

  /** Drops the cache entries of a batch and lists their files. */
  method DropCacheRows(db: PoolDb, batch: seq<ChunkId>) returns (files: seq<Loc>)
    modifies db`caches
    ensures db.caches == old(db.caches) - set c | c in batch
    ensures forall l :: l in files <==> exists c ::
              c in batch && c in old(db.caches) && old(db.caches)[c].path.Some? && CopyFile(old(db.caches)[c]) == l
  {
    files := [];
    for i := 0 to |batch|
      invariant db.caches == old(db.caches)
      invariant forall l :: l in files <==> exists c ::
                c in batch[..i] && c in db.caches && db.caches[c].path.Some? && CopyFile(db.caches[c]) == l
    {
      var c := batch[i];
      assert batch[..i + 1] == batch[..i] + [c];
      if c in db.caches && db.caches[c].path.Some? {
        files := files + [CopyFile(db.caches[c])];
      }
    }
    assert batch[..|batch|] == batch;
    db.caches := db.caches - set c | c in batch;
  }

  /** Two releases of different chunks are one. */
  lemma DetachedTwice(p: Pool, m: Pool, q: Pool, freed: set<ChunkId>, dropped: set<ChunkId>, freed': set<ChunkId>,
                      dropped': set<ChunkId>)
    requires Detached(p, m, freed, dropped) && Detached(m, q, freed', dropped') && freed !! freed'
    ensures Detached(p, q, freed + freed', dropped + dropped')
  {
    WithoutTwice(p.log, dropped, dropped');
    assert q.caches == p.caches - (dropped + dropped');
  }

  lemma {:induction false} WithoutTwice(log: seq<LogRow>, a: set<ChunkId>, b: set<ChunkId>)
    ensures Without(Without(log, a), b) == Without(log, a + b)
  {
    if log != [] {
      WithoutTwice(log[1..], a, b);
      var t := Without(log[1..], a);
      if log[0].chunk !in a { assert ([log[0]] + t)[1..] == t; } else { assert [] + t == t; }
    }
  }

  lemma FilesTwice(p: Pool, m: Pool, freed: set<ChunkId>, dropped: set<ChunkId>, freed': set<ChunkId>,
                   dropped': set<ChunkId>)
    requires Detached(p, m, freed, dropped) && freed !! freed' && dropped !! dropped'
    ensures FilesOf(p, freed + freed', dropped + dropped') == FilesOf(p, freed, dropped) + FilesOf(m, freed', dropped')
  {
    assert forall c | c in dropped' && c in p.caches :: c in m.caches && m.caches[c] == p.caches[c];
    assert forall c | c in dropped' && c in m.caches :: c in p.caches;
    assert forall c | c in freed' && c < |p.chunks| :: m.chunks[c] == p.chunks[c];
  }

  // ----- all batches -----

  ghost function StripesOf(p: Pool, freed: set<ChunkId>): set<StripeId> {
    set c | c in freed && c < |p.chunks| :: p.chunks[c].stripe
  }

  /** What was counted while emptying slots. */
  ghost predicate Tallied(p: Pool, freed: set<ChunkId>, dropped: set<ChunkId>, bytes: nat, res: ReleaseResult,
                          stripes: set<StripeId>)
  {
    && (set l | l in res.stale) == FilesOf(p, freed, dropped)
    && res.chunks == |freed| && res.bytes == bytes && stripes == StripesOf(p, freed)
  }

  ghost predicate DropsOf(ids: seq<ChunkId>, freed: set<ChunkId>, dropped: set<ChunkId>) {
    freed <= dropped && (forall c | c in dropped :: c in ids) && (freed == {} ==> dropped == {})
  }

  /** The candidates `done` have been dealt with. */
  ghost predicate Progress(p: Pool, q: Pool, done: seq<ChunkId>, freed: set<ChunkId>, dropped: set<ChunkId>,
                           res: ReleaseResult, stripes: set<StripeId>) {
    && freed == Freed(p, done) && Detached(p, q, freed, dropped) && DropsOf(done, freed, dropped)
    && Tallied(p, freed, dropped, FreedBytes(p, done), res, stripes)
  }

  lemma {:induction false} BatchUnchanged(p: Pool, m: Pool, freed: set<ChunkId>, dropped: set<ChunkId>,
                                          batch: seq<ChunkId>)
    requires Detached(p, m, freed, dropped) && forall c | c in batch :: c !in freed
    ensures Freed(m, batch) == Freed(p, batch) && FreedBytes(m, batch) == FreedBytes(p, batch)
    ensures StripesOf(m, Freed(p, batch)) == StripesOf(p, Freed(p, batch))
  {
    assert forall c | c in batch :: Frees(m, c) == Frees(p, c) && (c < |p.chunks| ==> m.chunks[c] == p.chunks[c]);
    if batch != [] {
      assert batch[|batch| - 1] in batch;
      BatchUnchanged(p, m, freed, dropped, batch[..|batch| - 1]);
    }
  }

  lemma {:induction false} BytesAppend(p: Pool, a: seq<ChunkId>, b: seq<ChunkId>)
    ensures FreedBytes(p, a + b) == FreedBytes(p, a) + FreedBytes(p, b)
  {
    if b == [] {
      assert a + b == a;
    } else {
      BytesAppend(p, a, b[..|b| - 1]);
      assert (a + b)[..|a + b| - 1] == a + b[..|b| - 1];
    }
  }

  lemma Segment(ids: seq<ChunkId>, k: nat, e: nat)
    requires Distinct(ids) && k <= e <= |ids|
    ensures Distinct(ids[k..e]) && ids[..e] == ids[..k] + ids[k..e]
    ensures forall c | c in ids[k..e] :: c in ids && c !in ids[..k]
  {
  }

  lemma FreedAppend(p: Pool, a: seq<ChunkId>, b: seq<ChunkId>)
    ensures Freed(p, a + b) == Freed(p, a) + Freed(p, b)
  {
  }

  lemma StripesAppend(p: Pool, a: set<ChunkId>, b: set<ChunkId>)
    ensures StripesOf(p, a + b) == StripesOf(p, a) + StripesOf(p, b)
  {
  }

  lemma DropsAppend(a: seq<ChunkId>, b: seq<ChunkId>, freed: set<ChunkId>, dropped: set<ChunkId>, freed': set<ChunkId>,
                    dropped': set<ChunkId>)
    requires DropsOf(a, freed, dropped) && DropsOf(b, freed', dropped')
    ensures DropsOf(a + b, freed + freed', dropped + dropped')
  {
    assert freed + freed' == {} ==> freed == {} && freed' == {} by {
      assert freed <= freed + freed' && freed' <= freed + freed';
    }
  }

  lemma TallyAppend(p: Pool, m: Pool, freed: set<ChunkId>, dropped: set<ChunkId>, done: seq<ChunkId>,
                    res: ReleaseResult, stripes: set<StripeId>,
                    batch: seq<ChunkId>, freed': set<ChunkId>, dropped': set<ChunkId>,
                    more: ReleaseResult, stripes': set<StripeId>)
    requires Detached(p, m, freed, dropped) && freed !! freed' && dropped !! dropped'
    requires StripesOf(m, freed') == StripesOf(p, freed')
    requires Tallied(p, freed, dropped, FreedBytes(p, done), res, stripes)
    requires Tallied(m, freed', dropped', FreedBytes(p, batch), more, stripes')
    ensures Tallied(p, freed + freed', dropped + dropped', FreedBytes(p, done + batch),
                    ReleaseResult(res.stale + more.stale, res.chunks + more.chunks, res.bytes + more.bytes),
                    stripes + stripes')
  {
    BytesAppend(p, done, batch);
    FilesTwice(p, m, freed, dropped, freed', dropped');
    StripesAppend(p, freed, freed');
    ListAppend(res.stale, more.stale);
  }

  lemma NextBatch(p: Pool, m: Pool, q: Pool, done: seq<ChunkId>, freed: set<ChunkId>, dropped: set<ChunkId>,
                  res: ReleaseResult, stripes: set<StripeId>,
                  batch: seq<ChunkId>, freed': set<ChunkId>, dropped': set<ChunkId>, more: ReleaseResult,
                  stripes': set<StripeId>)
    requires Progress(p, m, done, freed, dropped, res, stripes) && forall c | c in batch :: c !in done
    requires Progress(m, q, batch, freed', dropped', more, stripes')
    ensures Progress(p, q, done + batch, freed + freed', dropped + dropped',
                     ReleaseResult(res.stale + more.stale, res.chunks + more.chunks, res.bytes + more.bytes),
                     stripes + stripes')
  {
    BatchUnchanged(p, m, freed, dropped, batch);
    FreedAppend(p, done, batch);
    DropsAppend(done, batch, freed, dropped, freed', dropped');
    DetachedTwice(p, m, q, freed, dropped, freed', dropped');
    TallyAppend(p, m, freed, dropped, done, res, stripes, batch, freed', dropped', more, stripes');
  }

  lemma ListAppend(s: seq<Loc>, t: seq<Loc>)
    ensures (set l | l in s + t) == (set l | l in s) + (set l | l in t)
  {
  }

  method ReleaseBatch(db: PoolDb, batch: seq<ChunkId>)
    returns (res: ReleaseResult, stripes: set<StripeId>, freed: set<ChunkId>, dropped: set<ChunkId>)
    requires Distinct(batch) && forall c | c in batch :: c !in db.refs.Values
    modifies db`chunks, db`paths, db`caches, db`log
    ensures Progress(old(db.State()), db.State(), batch, freed, dropped, res, stripes)
  {
    hide FreedBytes, Frees, Without, Detached, Tallied;
    var stale, bytes;
    stale, freed, bytes := FreeRows(db, batch);
    stripes := set c | c in freed && c < |db.chunks| :: db.chunks[c].stripe;
    if freed == {} {
      NothingTallied(old(db.State()), stale, bytes);
      assert stripes == {};
      return ReleaseResult(stale, 0, bytes), stripes, freed, {};
    }
    ghost var m := db.State();
    var files := DropCacheRows(db, batch);
    dropped := set c | c in batch;
    db.log := Without(db.log, dropped);
    res := ReleaseResult(stale + files, |freed|, bytes);
    BatchTallied(old(db.State()), m, freed, dropped, stale, files, bytes);
    DetachAlso(old(db.State()), m, db.State(), freed, dropped);
  }

  lemma NothingTallied(p: Pool, stale: seq<Loc>, bytes: nat)
    requires (set l | l in stale) == LocsOf(p, {})
    ensures Tallied(p, {}, {}, bytes, ReleaseResult(stale, 0, bytes), {})
  {
  }

  lemma BatchTallied(p: Pool, m: Pool, freed: set<ChunkId>, dropped: set<ChunkId>, stale: seq<Loc>, files: seq<Loc>,
                     bytes: nat)
    requires Detached(p, m, freed, {}) && (set l | l in stale) == LocsOf(p, freed)
    requires forall l :: l in files <==> exists c ::
               c in dropped && c in m.caches && m.caches[c].path.Some? && CopyFile(m.caches[c]) == l
    ensures Tallied(p, freed, dropped, bytes, ReleaseResult(stale + files, |freed|, bytes), StripesOf(m, freed))
  {
    ListAppend(stale, files);
    assert m.caches == p.caches;
  }

  /** Dropping the cache entries and the write queue rows comes on top. */
  lemma DetachAlso(p: Pool, m: Pool, q: Pool, freed: set<ChunkId>, dropped: set<ChunkId>)
    requires Detached(p, m, freed, {})
    requires q == m.(caches := m.caches - dropped, log := Without(m.log, dropped))
    ensures Detached(p, q, freed, dropped)
  {
    WithoutNone(p.log);
  }

  method ReleaseRows(db: PoolDb, ids: seq<ChunkId>)
    returns (res: ReleaseResult, stripes: set<StripeId>, ghost freed: set<ChunkId>, ghost dropped: set<ChunkId>)
    requires Distinct(ids) && forall c | c in ids :: c !in db.refs.Values
    modifies db`chunks, db`paths, db`caches, db`log
    ensures Progress(old(db.State()), db.State(), ids, freed, dropped, res, stripes)
  {
    ghost var p := db.State();
    res, stripes, freed, dropped := ReleaseResult([], 0, 0), {}, {}, {};
    NothingDetached(p);
    var start := 0;
    while start < |ids|
      invariant 0 <= start && db.refs == p.refs
      invariant Progress(p, db.State(), ids[..if start < |ids| then start else |ids|], freed, dropped, res, stripes)
    {
      var end := start + RELEASE_BATCH;
      if end > |ids| {
        end := |ids|;
      }
      Segment(ids, start, end);
      ghost var m := db.State();
      var more, stripes', freed', dropped' := ReleaseBatch(db, ids[start..end]);
      NextBatch(p, m, db.State(), ids[..start], freed, dropped, res, stripes, ids[start..end], freed', dropped', more,
                stripes');
      res := ReleaseResult(res.stale + more.stale, res.chunks + more.chunks, res.bytes + more.bytes);
      stripes := stripes + stripes';
      freed, dropped := freed + freed', dropped + dropped';
      start := start + RELEASE_BATCH;
    }
    assert ids[..|ids|] == ids;
  }

  // ----- parity of the stripes touched -----

  method Listed(s: set<StripeId>) returns (ids: seq<StripeId>)
    ensures Distinct(ids) && forall x :: x in ids <==> x in s
  {
    ids := [];
    var rest := s;
    while rest != {}
      invariant rest <= s && Distinct(ids) && forall x :: x in ids <==> x in s && x !in rest
      decreases |rest|
    {
      var x :| x in rest;
      ids := ids + [x];
      rest := rest - {x};
    }
  }

  /** Stripes that still have written data. */
  method LiveStripes(db: PoolDb, ids: seq<StripeId>) returns (live: set<StripeId>)
    ensures forall s :: s in live <==> s in ids && HasData(db.chunks, s)
  {
    live := {};
    var start := 0;
    while start < |ids|
      invariant 0 <= start
      invariant forall s :: s in live <==> s in ids[..if start < |ids| then start else |ids|] && HasData(db.chunks, s)
    {
      var end := start + RELEASE_BATCH;
      if end > |ids| {
        end := |ids|;
      }
      var batch := ids[start..end];
      assert ids[..end] == ids[..start] + batch;
      live := live + set s | s in batch && HasData(db.chunks, s);
      start := start + RELEASE_BATCH;
    }
    assert ids[..|ids|] == ids;
  }

  ghost predicate HasComputedParityAt(chunks: seq<Chunk>, stripes: seq<StripeId>, n: nat, l: Loc)
    requires n <= |chunks|
  {
    exists k :: 0 <= k < n && IsParity(chunks[k]) && chunks[k].stripe in stripes && chunks[k].loc == l
  }

  /** Resets the computed parity of a batch of stripes and lists its files. */
  method ResetParity(db: PoolDb, batch: seq<StripeId>) returns (stale: seq<Loc>)
    modifies db`chunks
    ensures |db.chunks| == |old(db.chunks)|
    ensures forall c | 0 <= c < |db.chunks| :: db.chunks[c] ==
              if IsParity(old(db.chunks)[c]) && old(db.chunks)[c].stripe in batch
                then ResetRow(old(db.chunks)[c]) else old(db.chunks)[c]
    ensures forall l :: l in stale <==> HasComputedParityAt(old(db.chunks), batch, |db.chunks|, l)
  {
    stale := [];
    ghost var cs := db.chunks;
    for c := 0 to |db.chunks|
      invariant |db.chunks| == |cs|
      invariant forall k | 0 <= k < c ::
                db.chunks[k] == if IsParity(cs[k]) && cs[k].stripe in batch then ResetRow(cs[k]) else cs[k]
      invariant forall k | c <= k < |cs| :: db.chunks[k] == cs[k]
      invariant forall l :: l in stale <==> HasComputedParityAt(cs, batch, c, l)
    {
      if db.chunks[c].kind == ParityChunk && db.chunks[c].stripe in batch && db.chunks[c].status != Reserved {
        stale := stale + [db.chunks[c].loc];
        db.chunks := db.chunks[c := ResetRow(db.chunks[c])];
      }
    }
  }

  ghost predicate ParityReset(before: seq<Chunk>, after: seq<Chunk>, stripes: seq<StripeId>) {
    && |after| == |before|
    && forall c | 0 <= c < |before| ::
         after[c] == if IsParity(before[c]) && before[c].stripe in stripes then ResetRow(before[c]) else before[c]
  }

  lemma ResetTwice(cs: seq<Chunk>, mid: seq<Chunk>, after: seq<Chunk>, a: seq<StripeId>, b: seq<StripeId>, l: Loc)
    requires ParityReset(cs, mid, a) && ParityReset(mid, after, b)
    ensures ParityReset(cs, after, a + b)
    ensures HasComputedParityAt(cs, a + b, |cs|, l) <==>
          HasComputedParityAt(cs, a, |cs|, l) || HasComputedParityAt(mid, b, |cs|, l)
  {
    if HasComputedParityAt(cs, a + b, |cs|, l) {
      var k :| 0 <= k < |cs| && IsParity(cs[k]) && cs[k].stripe in a + b && cs[k].loc == l;
      assert cs[k].stripe in a || mid[k] == cs[k];
    }
    if HasComputedParityAt(mid, b, |cs|, l) {
      var k :| 0 <= k < |cs| && IsParity(mid[k]) && mid[k].stripe in b && mid[k].loc == l;
      assert mid[k] == cs[k];
    }
  }

  method ResetEmptied(db: PoolDb, empty: seq<StripeId>) returns (stale: seq<Loc>)
    modifies db`chunks
    ensures ParityReset(old(db.chunks), db.chunks, empty)
    ensures forall l :: l in stale <==> HasComputedParityAt(old(db.chunks), empty, |old(db.chunks)|, l)
  {
    stale := [];
    ghost var cs := db.chunks;
    var start := 0;
    while start < |empty|
      invariant 0 <= start && ParityReset(cs, db.chunks, empty[..if start < |empty| then start else |empty|])
      invariant forall l :: l in stale <==> 
                  HasComputedParityAt(cs, empty[..if start < |empty| then start else |empty|], |cs|, l)
    {
      var end := start + RELEASE_BATCH;
      if end > |empty| {
        end := |empty|;
      }
      var batch := empty[start..end];
      assert empty[..end] == empty[..start] + batch;
      ghost var mid := db.chunks;
      var more := ResetParity(db, batch);
      assert ParityReset(mid, db.chunks, batch);
      forall l ensures HasComputedParityAt(cs, empty[..end], |cs|, l) <==> l in stale || l in more {
        ResetTwice(cs, mid, db.chunks, empty[..start], batch, l);
      }
      ResetTwice(cs, mid, db.chunks, empty[..start], batch, Loc(0, 0));
      stale := stale + more;
      start := start + RELEASE_BATCH;
    }
    assert empty[..|empty|] == empty;
  }

  /** Queues the stripes that have no parity task yet. */
  method EnqueueParityRecompute(db: PoolDb, ids: seq<StripeId>)
    requires Distinct(ids)
    modifies db`tasks
    ensures |old(db.tasks)| <= |db.tasks| && db.tasks[..|old(db.tasks)|] == old(db.tasks)
    ensures Distinct(db.tasks[|old(db.tasks)|..])
    ensures forall s :: s in db.tasks[|old(db.tasks)|..] <==> s in ids && s !in old(db.tasks)
  {
    var existing: set<StripeId> := {};
    var start := 0;
    while start < |ids|
      invariant 0 <= start
      invariant forall s :: s in existing <==> s in ids[..if start < |ids| then start else |ids|] && s in db.tasks
      invariant db.tasks == old(db.tasks)
    {
      var end := start + RELEASE_BATCH;
      if end > |ids| {
        end := |ids|;
      }
      var batch := ids[start..end];
      assert ids[..end] == ids[..start] + batch;
      existing := existing + set s | s in batch && s in db.tasks;
      start := start + RELEASE_BATCH;
    }
    assert ids[..|ids|] == ids;
    var batch: seq<StripeId> := [];
    for i := 0 to |ids|
      invariant Distinct(batch) && forall s :: s in batch <==> s in ids[..i] && s !in db.tasks
      invariant db.tasks == old(db.tasks)
    {
      assert ids[i] in ids && ids[..i + 1] == ids[..i] + [ids[i]];
      if ids[i] !in existing {
        assert ids[i] !in ids[..i];
        batch := batch + [ids[i]];
      }
    }
    db.tasks := db.tasks + batch;
    assert db.tasks[|old(db.tasks)|..] == batch;
  }

  method EmptyStripes(ids: seq<StripeId>, live: set<StripeId>) returns (empty: seq<StripeId>)
    ensures forall s :: s in empty <==> s in ids && s !in live
  {
    empty := [];
    for i := 0 to |ids|
      invariant forall s :: s in empty <==> s in ids[..i] && s !in live
    {
      assert ids[..i + 1] == ids[..i] + [ids[i]];
      if ids[i] !in live {
        empty := empty + [ids[i]];
      }
    }
    assert ids[..|ids|] == ids;
  }

  /** What becomes of the parity of the stripes touched. */
  ghost predicate Requeued(m: Pool, q: Pool, stripes: set<StripeId>, stale: seq<Loc>) {
    && q == m.(chunks := q.chunks, tasks := q.tasks) && |q.chunks| == |m.chunks|
    && (forall c | 0 <= c < |m.chunks| ::
          q.chunks[c] == if IsParity(m.chunks[c]) && m.chunks[c].stripe in stripes &&
            !HasData(m.chunks, m.chunks[c].stripe)
                         then ResetRow(m.chunks[c]) else m.chunks[c])
    && (forall l :: l in stale <==> exists c :: 0 <= c < |m.chunks| && IsParity(m.chunks[c]) && m.chunks[c].loc == l &&
                                      m.chunks[c].stripe in stripes && !HasData(m.chunks, m.chunks[c].stripe))
    && |m.tasks| <= |q.tasks| && q.tasks[..|m.tasks|] == m.tasks && Distinct(q.tasks[|m.tasks|..])
    && (forall s :: s in q.tasks[|m.tasks|..] <==> s in stripes && HasData(m.chunks, s) && s !in m.tasks)
  }

  method RequeueParity(db: PoolDb, stripes: set<StripeId>) returns (stale: seq<Loc>)
    modifies db`chunks, db`tasks
    ensures Requeued(old(db.State()), db.State(), stripes, stale)
  {
    if stripes == {} {
      return [];
    }
    ghost var m := db.State();
    var stripeIds := Listed(stripes);
    var live := LiveStripes(db, stripeIds);
    var empty := EmptyStripes(stripeIds, live);
    stale := ResetEmptied(db, empty);
    if live != {} {
      var ids := Listed(live);
      EnqueueParityRecompute(db, ids);
    }
  }

  /** `candidates` are the ids given that no version maps to, each once. */
  method ReleaseChunks(db: PoolDb, chunkIds: seq<ChunkId>)
    returns (res: ReleaseResult, ghost dropped: set<ChunkId>, ghost candidates: seq<ChunkId>)
    modifies db`chunks, db`paths, db`caches, db`log, db`tasks
    ensures Released(old(db.State()), db.State(), chunkIds, res.stale, dropped)
    ensures Distinct(candidates) && forall c :: c in candidates <==> c in chunkIds && c !in db.refs.Values
    ensures res.chunks == |Freed(old(db.State()), chunkIds)| && res.bytes == FreedBytes(old(db.State()), candidates)
  {
    var ids := UniqueIds(chunkIds);
    ids := FilterUnreferenced(db, ids);
    candidates := ids;
    ghost var p := db.State();
    var stripes;
    ghost var freed;
    res, stripes, freed, dropped := ReleaseRows(db, ids);
    ghost var m := db.State();
    var parityStale := RequeueParity(db, stripes);
    assert freed == Freed(p, chunkIds);
    RowsAndParity(p, m, db.State(), chunkIds, freed, dropped, ids, res, stripes, parityStale);
    res := res.(stale := res.stale + parityStale);
  }

  /** A touched stripe is emptied exactly when it has no written data left. */
  lemma EmptiedIff(p: Pool, m: Pool, freed: set<ChunkId>, dropped: set<ChunkId>, s: StripeId)
    requires Detached(p, m, freed, dropped)
    ensures s in StripesOf(p, freed) <==> Touched(p, freed, s)
    ensures Emptied(p, freed, s) <==> s in StripesOf(p, freed) && !HasData(m.chunks, s)
  {
    if c :| 0 <= c < |p.chunks| && IsData(p.chunks[c]) && p.chunks[c].stripe == s && c !in freed {
      assert IsData(m.chunks[c]) && m.chunks[c].stripe == s;
    }
  }

  lemma RowsAndParity(p: Pool, m: Pool, q: Pool, ids: seq<ChunkId>, freed: set<ChunkId>, dropped: set<ChunkId>,
                      done: seq<ChunkId>,
                      res: ReleaseResult, stripes: set<StripeId>, stale: seq<Loc>)
    requires freed == Freed(p, ids) && Progress(p, m, done, freed, dropped, res, stripes)
    requires forall c :: c in done <==> c in ids && c !in p.refs.Values
    requires Requeued(m, q, stripes, stale)
    ensures Released(p, q, ids, res.stale + stale, dropped)
  {
    hide FreedBytes, Without, HasData, Touched, StripesOf;
    forall s: nat ensures s in stripes <==> Touched(p, freed, s)
      ensures Emptied(p, freed, s) <==> s in stripes && !HasData(m.chunks, s)
    {
      EmptiedIff(p, m, freed, dropped, s);
    }
    forall l ensures l in stale <==> l in LocsOf(p, ParityFreed(p, freed)) {
    }
    forall l ensures l in res.stale <==> l in FilesOf(p, freed, dropped) {
      assert l in res.stale <==> l in (set x | x in res.stale);
    }
  }

  // ----- what a release means -----

  lemma ReleaseKeepsCount(p: Pool, q: Pool, ids: seq<ChunkId>, stale: seq<Loc>, dropped: set<ChunkId>)
    requires Released(p, q, ids, stale, dropped)
    ensures |q.chunks| == |p.chunks|
  {
  }

  /** Exactly the unmapped candidates become reserved; mapped chunks and chunks that are no
      candidates keep their rows, whatever the batches were. */
  lemma ReleasedExactly(p: Pool, q: Pool, ids: seq<ChunkId>, stale: seq<Loc>, dropped: set<ChunkId>, c: ChunkId)
    requires Released(p, q, ids, stale, dropped) && c < |p.chunks|
    ensures IsData(p.chunks[c]) && c in ids ==> (q.chunks[c].status == Reserved <==> c !in q.refs.Values)
    ensures p.chunks[c].kind == DataChunk && (c !in ids || c in q.refs.Values) ==> q.chunks[c] == p.chunks[c]
    ensures c !in ids || c in q.refs.Values ==> (c in q.caches <==> c in p.caches)
  {
  }

  /** What is left of a written data chunk that is released: an empty slot at a new path on the
      same disk. Its file is listed for deletion, and no cache entry and no write queue row of it
      is left. */
  lemma ReleasedRow(p: Pool, q: Pool, ids: seq<ChunkId>, stale: seq<Loc>, dropped: set<ChunkId>, c: ChunkId)
    requires Released(p, q, ids, stale, dropped) && c < |p.chunks| && c in ids && c !in p.refs.Values
    requires p.chunks[c].kind == DataChunk && p.chunks[c].status == Allocated
    ensures q.chunks[c] == p.chunks[c].(status := Reserved, size := 0, hash := None, loc := q.chunks[c].loc)
    ensures q.chunks[c].loc.disk == p.chunks[c].loc.disk && p.paths <= q.chunks[c].loc.path < q.paths
    ensures p.chunks[c].loc in stale && c !in q.caches && forall k | 0 <= k < |q.log| :: q.log[k].chunk != c
    ensures c in p.caches && p.caches[c].path.Some? ==> Loc(p.caches[c].disk, p.caches[c].path.value) in stale
  {
    hide RowsReleased, ParityQueued, Emptied;
    ReleasedFiles(p, q, ids, stale, dropped, c);
    WithoutGone(p.log, dropped);
    assert c in Freed(p, ids);
    RowOfFreed(p, q, Freed(p, ids), c);
  }

  lemma RowOfFreed(p: Pool, q: Pool, freed: set<ChunkId>, c: ChunkId)
    requires RowsReleased(p, q, freed) && c in freed && c < |p.chunks|
    ensures |q.chunks| == |p.chunks| && q.chunks[c] == FreeRow(p.chunks[c], q.chunks[c].loc.path)
    ensures p.paths <= q.chunks[c].loc.path < q.paths
  {
  }

  lemma ReleasedFiles(p: Pool, q: Pool, ids: seq<ChunkId>, stale: seq<Loc>, dropped: set<ChunkId>, c: ChunkId)
    requires Released(p, q, ids, stale, dropped) && Frees(p, c) && c in ids
    ensures p.chunks[c].loc in stale && c in dropped && c < |q.chunks|
    ensures RowsReleased(p, q, Freed(p, ids)) && q.log == Without(p.log, dropped)
    ensures c in p.caches && p.caches[c].path.Some? ==> CopyFile(p.caches[c]) in stale
  {
    assert c in Freed(p, ids);
    assert p.chunks[c].loc in FilesOf(p, Freed(p, ids), dropped);
    if c in p.caches && p.caches[c].path.Some? { assert CopyFile(p.caches[c]) in FilesOf(p, Freed(p, ids), dropped); }
  }

  lemma {:induction false} WithoutGone(log: seq<LogRow>, dropped: set<ChunkId>)
    ensures forall r :: r in Without(log, dropped) <==> r in log && r.chunk !in dropped
  {
    if log != [] { WithoutGone(log[1..], dropped); }
  }

  /** A stripe that loses a data chunk in the release. */
  ghost predicate Loses(p: Pool, q: Pool, s: StripeId)
    requires |q.chunks| == |p.chunks|
  {
    exists c | 0 <= c < |p.chunks| ::
      p.chunks[c].stripe == s && p.chunks[c].kind == DataChunk && p.chunks[c].status == Allocated &&
      q.chunks[c].status == Reserved
  }

  /** A stripe with written data. */
  ghost predicate HasWritten(q: Pool, s: StripeId) {
    exists c | 0 <= c < |q.chunks| ::
      q.chunks[c].stripe == s && q.chunks[c].kind == DataChunk && q.chunks[c].status == Allocated
  }

  /** A stripe is queued for new parity if it lost data and has some left; if it has none left its
      parity is reset, and the files are listed. All other parity rows and tasks stay. */
  lemma ReleasedParity(p: Pool, q: Pool, ids: seq<ChunkId>, stale: seq<Loc>, dropped: set<ChunkId>)
    requires Released(p, q, ids, stale, dropped)
    ensures |q.chunks| == |p.chunks|
    ensures forall s :: s in q.tasks <==> s in p.tasks || (Loses(p, q, s) && HasWritten(q, s))
    ensures forall c | 0 <= c < |p.chunks| && p.chunks[c].kind == ParityChunk ::
              if p.chunks[c].status == Allocated && Loses(p, q, p.chunks[c].stripe) &&
                !HasWritten(q, p.chunks[c].stripe)
              then q.chunks[c] == p.chunks[c].(status := Reserved, size := 0, hash := None) &&
                p.chunks[c].loc in stale
              else q.chunks[c] == p.chunks[c]
  {
    hide Without, FilesOf, Freed, LocsOf, ParityQueued, Loses, HasWritten, Touched, Emptied;
    var freed := Freed(p, ids);
    forall s: StripeId ensures s in q.tasks <==> s in p.tasks || (Loses(p, q, s) && HasWritten(q, s)) {
      StripeLoses(p, q, ids, stale, dropped, s);
      QueuedAre(p, q.tasks, freed);
    }
    forall c | 0 <= c < |p.chunks| && p.chunks[c].kind == ParityChunk
      ensures if p.chunks[c].status == Allocated && Loses(p, q, p.chunks[c].stripe) &&
                !HasWritten(q, p.chunks[c].stripe)
              then q.chunks[c] == p.chunks[c].(status := Reserved, size := 0, hash := None) &&
                p.chunks[c].loc in stale
              else q.chunks[c] == p.chunks[c]
    {
      ParityRow(p, q, ids, stale, dropped, c);
    }
  }

  lemma ParityRow(p: Pool, q: Pool, ids: seq<ChunkId>, stale: seq<Loc>, dropped: set<ChunkId>, c: ChunkId)
    requires Released(p, q, ids, stale, dropped) && c < |p.chunks| && p.chunks[c].kind == ParityChunk
    ensures |q.chunks| == |p.chunks|
    ensures if p.chunks[c].status == Allocated && Loses(p, q, p.chunks[c].stripe) && !HasWritten(q, p.chunks[c].stripe)
            then q.chunks[c] == p.chunks[c].(status := Reserved, size := 0, hash := None) && p.chunks[c].loc in stale
            else q.chunks[c] == p.chunks[c]
  {
    hide Without, FilesOf, LocsOf, ParityQueued, Loses, HasWritten, Touched, Emptied;
    var freed, s := Freed(p, ids), p.chunks[c].stripe;
    StripeLoses(p, q, ids, stale, dropped, s);
    if Emptied(p, freed, s) {
      EmptiedIsTouched(p, freed, s);
      if IsParity(p.chunks[c]) { ParityListed(p, q, ids, stale, dropped, c); }
    }
  }

  lemma EmptiedIsTouched(p: Pool, freed: set<ChunkId>, s: StripeId)
    requires Emptied(p, freed, s)
    ensures Touched(p, freed, s)
  {
  }

  lemma QueuedAre(p: Pool, tasks: seq<StripeId>, freed: set<ChunkId>)
    requires ParityQueued(p, tasks, freed)
    ensures forall s :: s in tasks <==> s in p.tasks || (Touched(p, freed, s) && !Emptied(p, freed, s))
  {
    hide Touched, Emptied;
    assert tasks == tasks[..|p.tasks|] + tasks[|p.tasks|..];
  }

  lemma ParityListed(p: Pool, q: Pool, ids: seq<ChunkId>, stale: seq<Loc>, dropped: set<ChunkId>, c: ChunkId)
    requires Released(p, q, ids, stale, dropped) && c < |p.chunks| && IsParity(p.chunks[c])
    requires Emptied(p, Freed(p, ids), p.chunks[c].stripe)
    ensures p.chunks[c].loc in stale
  {
    hide RowsReleased, ParityQueued, Emptied, FilesOf, Freed;
    assert c in ParityFreed(p, Freed(p, ids));
    assert p.chunks[c].loc in LocsOf(p, ParityFreed(p, Freed(p, ids)));
  }

  lemma StripeLoses(p: Pool, q: Pool, ids: seq<ChunkId>, stale: seq<Loc>, dropped: set<ChunkId>, s: StripeId)
    requires Released(p, q, ids, stale, dropped)
    ensures |q.chunks| == |p.chunks|
    ensures Touched(p, Freed(p, ids), s) <==> Loses(p, q, s)
    ensures Loses(p, q, s) ==> (Emptied(p, Freed(p, ids), s) <==> !HasWritten(q, s))
  {
    hide Without, FilesOf, LocsOf, ParityQueued;
    var freed := Freed(p, ids);
    forall c | 0 <= c < |p.chunks| && IsData(p.chunks[c])
      ensures c in freed <==> q.chunks[c].status == Reserved
      ensures q.chunks[c].stripe == p.chunks[c].stripe && q.chunks[c].kind == p.chunks[c].kind
    {
    }
    forall c | 0 <= c < |p.chunks| && IsData(q.chunks[c])
      ensures IsData(p.chunks[c]) && c !in freed && q.chunks[c].stripe == p.chunks[c].stripe
    {
    }
    forall c | c in freed && c < |p.chunks| ensures IsData(p.chunks[c]) {}
  }

  /** Releasing the same chunks again does nothing. */
  lemma ReleaseTwice(p: Pool, q: Pool, r: Pool, ids: seq<ChunkId>, stale: seq<Loc>, dropped: set<ChunkId>,
                     again: seq<Loc>, dropped': set<ChunkId>)
    requires Released(p, q, ids, stale, dropped) && Released(q, r, ids, again, dropped')
    ensures again == [] && r.chunks == q.chunks && r.caches == q.caches && r.log == q.log && r.tasks == q.tasks
  {
    forall c | c in ids ensures !Frees(q, c) {
      if c < |p.chunks| { ReleasedExactly(p, q, ids, stale, dropped, c); }
    }
    assert Freed(q, ids) == {};
    NothingReleased(q, r, ids, again, dropped');
  }

  lemma NothingReleased(q: Pool, r: Pool, ids: seq<ChunkId>, stale: seq<Loc>, dropped: set<ChunkId>)
    requires Released(q, r, ids, stale, dropped) && Freed(q, ids) == {}
    ensures stale == [] && r.chunks == q.chunks && r.caches == q.caches && r.log == q.log && r.tasks == q.tasks
  {
    assert ParityFreed(q, {}) == {};
    assert q.caches - {} == q.caches;
    WithoutNone(q.log);
    HasMember(stale);
    HasMember(r.tasks[|q.tasks|..]);
    assert r.tasks == r.tasks[..|q.tasks|] + r.tasks[|q.tasks|..];
  }

  lemma ReleaseKeepsLayout(p: Pool, q: Pool, ids: seq<ChunkId>, stale: seq<Loc>, dropped: set<ChunkId>)
    requires LaidOut(p) && Released(p, q, ids, stale, dropped)
    ensures LaidOut(q)
  {
    forall a, b | 0 <= a < b < |q.chunks| ensures q.chunks[a].loc.path != q.chunks[b].loc.path {
      assert p.chunks[a].loc.path != p.chunks[b].loc.path;
    }
    SameSlotsKeep(p, q);
  }
}
