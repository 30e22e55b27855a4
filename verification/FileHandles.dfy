/** The file handle of a share, as an object that is edited in place. Its methods are tied
    to the functions of SliceView, which say what a handle shows. */
module FileHandles {
  import opened Bytes
  import opened Wrappers
  import opened Tables
  import opened Database
  import opened Layout
  import opened Allocation
  import opened ChunkStore
  import opened PoolSafety
  import opened PoolEdits
  import opened SliceCodec
  import opened SliceView
  import opened FailedStores

  datatype FileError = Fine | Permission | BadArgument | NoSpace | Eof | Oversize | StorageFailed

  /** How the slices of a share are stored; `slice` is the slice size, looked up once. */
  datatype Format = Format(codec: Codec, chunkSize: int, comp: int, enc: int, slice: nat)

  ghost predicate GoodFormat(f: Format) {
    && SliceCodec.Sound(f.codec) && Usable(f.codec, f.comp, f.enc)
    && f.chunkSize >= 1 && f.slice == SliceSize(Some(f.chunkSize), f.comp, f.enc)
  }

  lemma SliceIsPositive(f: Format)
    requires GoodFormat(f)
    ensures f.slice > 0
  {
  }

  // ----- slices in the pool -----

  /** The plain bytes of a slice, if its chunk can be read and decoded. */
  function PlainOf(chunks: seq<Chunk>, files: Files, f: Format, c: ChunkId): Option<Data> {
    if c < |chunks| && IsData(chunks[c]) && chunks[c].loc in files
      then Decode(f.codec, f.comp, f.enc, files[chunks[c].loc]) else None
  }

  /** Every slice can be read, is no longer than a slice and is not all zero. */
  ghost predicate HoldsSlices(p: Pool, f: Format, chunks: map<nat, ChunkId>) {
    forall k | k in chunks ::
      var plain := PlainOf(p.chunks, p.files, f, chunks[k]); plain.Some? && GoodSlice(plain.value, f.slice)
  }

  ghost function Plains(p: Pool, f: Format, chunks: map<nat, ChunkId>): (r: map<nat, Data>)
    requires HoldsSlices(p, f, chunks)
    ensures r.Keys == chunks.Keys && forall k | k in chunks :: Some(r[k]) == PlainOf(p.chunks, p.files, f, chunks[k])
  {
    map k | k in chunks :: PlainOf(p.chunks, p.files, f, chunks[k]).value
  }

  lemma PlainsKept(p: Pool, q: Pool, f: Format, chunks: map<nat, ChunkId>)
    requires HoldsSlices(p, f, chunks) && forall k | k in chunks :: SameChunk(p, q, chunks[k])
    ensures HoldsSlices(q, f, chunks) && Plains(q, f, chunks) == Plains(p, f, chunks)
  {
  }

  // ----- storing one slice -----

  /** The pool stores a slice exactly when it is not too long and pool and disk take it; either
      way chunks written before stay. */
  method StoreOne(db: PoolDb, limit: nat, data: Data, s: Storing) returns (c: ChunkId, err: FileError)
    requires LaidOut(db.State()) && Possible(db.disks, s)
    modifies db`chunks, db`stripes, db`paths, db`log, db`rows, db`files, db`tasks
    ensures err == Fine <==> 0 < |data| <= limit && Takes(old(db.State()), s)
    ensures err == Oversize <==> |data| == 0 || (s.online && |data| > limit)
    ensures err == Fine || err == Oversize || err == StorageFailed
    ensures err == Fine ==>
              StoresOne(old(db.State()), db.State(), data, c) && AddsOne(old(db.State()), db.State(), data, c)
    ensures err != Fine ==>
              db.State() == old(db.State()) ||
                (s.outcome != Written && exists c: ChunkId :: TriesOne(old(db.State()), db.State(), data, c))
    ensures OthersKeptAllocated(old(db.State()), db.State()) && LaidOut(db.State()) && db.State().refs == old(db.refs)
  {
    hide Takes, AnyEmpty, TooLarge, AllWritten, LaidOut, Grants, Persisted, OthersKept, OthersKeptAllocated, AddsOne;
    c := 0;
    NothingLost(db.State());
    ghost var p := db.State();
    OneItem(p, limit, data, s);
    var shuffle: nat -> seq<DiskId> := _ => s.order;
    var reserved := s.pick(db.chunks);
    var r, g, t := AddChunks(db, s.online, limit, s.disks, [data], reserved, shuffle, [s.outcome]);
    if r.Saved? || r.WriteFailed? {
      AddedOthers(p, g, db.State(), [data], reserved, r.ids, [s.outcome], t);
      AllocatedKept(p, db.State(), r.ids);
      GivenOne(p, g, db.State(), reserved, r.ids, data, s.outcome, t);
    }
    match r
    case Saved(ids) =>
      c, err := ids[0], Fine;
      StoreAdds(p, db.State(), data, c);
    case EmptyInput => err := Oversize;
    case Denied(e) => err := if e == ChunkTooLarge then Oversize else StorageFailed;
    case WriteFailed(ids) => err := StorageFailed;
  }

  lemma OneItem(p: Pool, limit: nat, data: Data, s: Storing)
    ensures AnyEmpty([data]) <==> |data| == 0
    ensures TooLarge([data], limit) <==> |data| > limit
    ensures AllWritten([s.outcome]) <==> s.outcome == Written
    ensures Takes(p, s) <==> s.online && (|[data]| == |s.pick(p.chunks)| || |s.disks| == p.ds + p.ps > 0) &&
                             AllWritten([s.outcome])
  {
    assert [data][0] == data && [s.outcome][0] == s.outcome;
  }

  lemma GivenOne(p: Pool, g: Pool, q: Pool, reserved: seq<ChunkId>, ids: seq<ChunkId>, data: Data, o: Outcome, t: Trace)
    requires IsPick(p.chunks, reserved, 1) && LaidOut(g) && Grants(p, g, [data], reserved, ids)
    requires Persisted(g, q, ids, [data], [o], t)
    ensures |ids| == 1 && TriesOne(p, q, data, ids[0]) && (AllWritten([o]) ==> StoresOne(p, q, data, ids[0]))
  {
    hide LaidOut, Persisted, AllWritten;
    assert ids == [ids[0]];
  }

  lemma NothingLost(p: Pool)
    ensures OthersKeptAllocated(p, p)
  {
  }

  lemma AllocatedKept(p: Pool, q: Pool, ids: seq<ChunkId>)
    requires OthersKept(p, q, ids) && forall c | c in ids && c < |p.chunks| :: p.chunks[c].status == Reserved
    ensures OthersKeptAllocated(p, q)
  {
  }

  lemma AllPlainsKept(p: Pool, q: Pool, f: Format, chunks: map<nat, ChunkId>)
    requires HoldsSlices(p, f, chunks) && OthersKeptAllocated(p, q)
    ensures HoldsSlices(q, f, chunks) && Plains(q, f, chunks) == Plains(p, f, chunks)
  {
    PlainsKept(p, q, f, chunks);
  }

  /** One slice more, stored in a chunk that no slice was in. */
  lemma PlainAdded(p: Pool, q: Pool, f: Format, chunks: map<nat, ChunkId>, idx: nat, c: ChunkId, stored: Data,
                   plain: Data)
    requires HoldsSlices(p, f, chunks) && OthersKeptAllocated(p, q) && AddsOne(p, q, stored, c)
    requires Decode(f.codec, f.comp, f.enc, stored) == Some(plain) && GoodSlice(plain, f.slice)
    ensures HoldsSlices(q, f, chunks[idx := c]) && Plains(q, f, chunks[idx := c]) == Plains(p, f, chunks)[idx := plain]
  {
    AllPlainsKept(p, q, f, chunks);
    assert PlainOf(q.chunks, q.files, f, c) == Some(plain);
  }

  lemma PlainDropped(p: Pool, f: Format, chunks: map<nat, ChunkId>, idx: nat)
    requires HoldsSlices(p, f, chunks)
    ensures HoldsSlices(p, f, chunks - {idx}) && Plains(p, f, chunks - {idx}) == Plains(p, f, chunks) - {idx}
  {
  }

  /** The slices a version maps. */
  function RowsOf(refs: map<Slot, ChunkId>, v: VersionId): (r: map<nat, ChunkId>)
    ensures forall i: nat :: (i in r <==> Slot(v, i) in refs) && (i in r ==> r[i] == refs[Slot(v, i)])
  {
    map i | i in (set s | s in refs && s.version == v :: s.idx) :: refs[Slot(v, i)]
  }

  lemma RowsAre(refs: map<Slot, ChunkId>, v: VersionId, chunks: map<nat, ChunkId>)
    requires forall i: nat :: (i in chunks <==> Slot(v, i) in refs) && (i in chunks ==> chunks[i] == refs[Slot(v, i)])
    ensures RowsOf(refs, v) == chunks
  {
  }

  /** The chunks of all other slices. */
  ghost function OtherSlices(chunks: map<nat, ChunkId>, idx: nat): map<nat, ChunkId> {
    map k | k in chunks && k != idx :: chunks[k]
  }

  lemma OtherSlicesKept(chunks: map<nat, ChunkId>, idx: nat, c: ChunkId)
    ensures OtherSlices(chunks - {idx}, idx) == OtherSlices(chunks, idx)
    ensures OtherSlices(chunks[idx := c], idx) == OtherSlices(chunks, idx)
  {
  }

  /** The pool has the slices a handle knows; `attached` when a version is being written. */
  ghost predicate Held(p: Pool, f: Format, base: map<nat, ChunkId>, cur: map<nat, ChunkId>, v: VersionId,
                       attached: bool)
  {
    && GoodFormat(f) && LaidOut(p) && HoldsSlices(p, f, base) && HoldsSlices(p, f, cur)
    && (attached ==> cur == RowsOf(p.refs, v))
  }

  /** The plain slices of the version at open and of the version being written. */
  datatype Slices = Slices(base: map<nat, Data>, cur: map<nat, Data>)

  /** What a handle knows of the file, provided the pool has it. */
  ghost function SlicesOf(p: Pool, f: Format, base: map<nat, ChunkId>, cur: map<nat, ChunkId>, v: VersionId,
                          attached: bool): Option<Slices>
  {
    if Held(p, f, base, cur, v, attached) then Some(Slices(Plains(p, f, base), Plains(p, f, cur))) else None
  }

  lemma SlicesAreGood(p: Pool, f: Format, base: map<nat, ChunkId>, cur: map<nat, ChunkId>, v: VersionId, attached: bool)
    requires SlicesOf(p, f, base, cur, v, attached).Some?
    ensures var k := SlicesOf(p, f, base, cur, v, attached).value;
            && GoodFormat(f) && k.base.Keys == base.Keys && k.cur.Keys == cur.Keys
            && (forall i | i in k.base ::
                      GoodSlice(k.base[i], f.slice) && PlainOf(p.chunks, p.files, f, base[i]) == Some(k.base[i]))
            && (forall i | i in k.cur :: GoodSlice(k.cur[i], f.slice) &&
                  PlainOf(p.chunks, p.files, f, cur[i]) == Some(k.cur[i]))
  {
  }

  /** Changing only the mapping changes no slice. */
  lemma RefsOnly(p: Pool, q: Pool, f: Format, chunks: map<nat, ChunkId>)
    requires HoldsSlices(p, f, chunks) && q.chunks == p.chunks && q.files == p.files
    ensures HoldsSlices(q, f, chunks) && Plains(q, f, chunks) == Plains(p, f, chunks)
  {
  }

  lemma RefsLaidOut(p: Pool, q: Pool)
    requires LaidOut(p) && q == p.(refs := q.refs)
    ensures LaidOut(q)
  {
    SameSlotsKeep(p, q);
  }

  lemma RowsDropped(refs: map<Slot, ChunkId>, v: VersionId, idx: nat)
    ensures RowsOf(refs - {Slot(v, idx)}, v) == RowsOf(refs, v) - {idx}
    ensures OtherVersions(refs - {Slot(v, idx)}, v) == OtherVersions(refs, v)
  {
    RowsAre(refs - {Slot(v, idx)}, v, RowsOf(refs, v) - {idx});
  }

  lemma RowsPut(refs: map<Slot, ChunkId>, v: VersionId, idx: nat, c: ChunkId)
    ensures RowsOf(refs[Slot(v, idx) := c], v) == RowsOf(refs, v)[idx := c]
    ensures OtherVersions(refs[Slot(v, idx) := c], v) == OtherVersions(refs, v)
  {
    RowsAre(refs[Slot(v, idx) := c], v, RowsOf(refs, v)[idx := c]);
  }

  lemma DropStep(p: Pool, q: Pool, f: Format, base: map<nat, ChunkId>, cur: map<nat, ChunkId>, v: VersionId, idx: nat)
    requires SlicesOf(p, f, base, cur, v, true).Some? && q == p.(refs := p.refs - {Slot(v, idx)})
    ensures var k := SlicesOf(p, f, base, cur, v, true).value;
            SlicesOf(q, f, base, cur - {idx}, v, true) == Some(Slices(k.base, k.cur - {idx}))
    ensures OtherVersions(q.refs, v) == OtherVersions(p.refs, v)
  {
    PlainDropped(p, f, cur, idx);
    RowsDropped(p.refs, v, idx);
    RefsLaidOut(p, q);
    RefsOnly(p, q, f, base);
    RefsOnly(p, q, f, cur - {idx});
  }

  lemma DropEdit(p: Pool, q: Pool, v: VersionId, idx: nat)
    requires q == p.(refs := p.refs - {Slot(v, idx)})
    ensures Edits(p, q, v)
  {
    assert (set i | i in {idx} :: Slot(v, i)) == {Slot(v, idx)};
    EditsOne(p, Drops({idx}), q, v);
  }

  /** The pool stored something or failed to. */
  lemma PoolStep(p: Pool, q: Pool, f: Format, base: map<nat, ChunkId>, cur: map<nat, ChunkId>, v: VersionId,
                 attached: bool)
    requires SlicesOf(p, f, base, cur, v, attached).Some? && OthersKeptAllocated(p, q) && LaidOut(q) && q.refs == p.refs
    ensures SlicesOf(q, f, base, cur, v, attached) == SlicesOf(p, f, base, cur, v, attached)
  {
    AllPlainsKept(p, q, f, base);
    AllPlainsKept(p, q, f, cur);
  }

  lemma StoreStep(p: Pool, q: Pool, r: Pool, f: Format, base: map<nat, ChunkId>, cur: map<nat, ChunkId>, v: VersionId,
                  idx: nat, c: ChunkId, stored: Data, plain: Data)
    requires SlicesOf(p, f, base, cur, v, true).Some? && OthersKeptAllocated(p, q) && LaidOut(q)
    requires AddsOne(p, q, stored, c)
    requires Decode(f.codec, f.comp, f.enc, stored) == Some(plain) && GoodSlice(plain, f.slice)
    requires r == q.(refs := q.refs[Slot(v, idx) := c])
    ensures var k := SlicesOf(p, f, base, cur, v, true).value;
            SlicesOf(r, f, base, cur[idx := c], v, true) == Some(Slices(k.base, k.cur[idx := plain]))
    ensures OtherVersions(r.refs, v) == OtherVersions(p.refs, v)
  {
    AllPlainsKept(p, q, f, base);
    PlainAdded(p, q, f, cur, idx, c, stored, plain);
    RowsPut(q.refs, v, idx, c);
    RefsLaidOut(q, r);
    RefsOnly(q, r, f, base);
    RefsOnly(q, r, f, cur[idx := c]);
  }

  /** Opening maps slices and changes none. */
  lemma OpenStep(p: Pool, q: Pool, f: Format, rows: map<nat, ChunkId>, v: VersionId, attached: bool)
    requires GoodFormat(f) && LaidOut(p) && HoldsSlices(p, f, rows) && q == p.(refs := q.refs)
    requires attached ==> RowsOf(q.refs, v) == rows
    ensures SlicesOf(q, f, rows, if attached then rows else map[], v, attached) ==
            Some(Slices(Plains(p, f, rows), if attached then Plains(p, f, rows) else map[]))
  {
    RefsLaidOut(p, q);
    RefsOnly(p, q, f, rows);
  }

  /** Stores an encoded slice and maps it under the version. */
  method StoreMapped(db: PoolDb, f: Format, ghost base: map<nat, ChunkId>, ghost cur: map<nat, ChunkId>, v: VersionId,
                     idx: nat, ghost plain: Data, stored: Data, s: Storing) returns (c: ChunkId, err: FileError)
    requires SlicesOf(db.State(), f, base, cur, v, true).Some? && 0 < |stored| <= f.chunkSize * 1024
    requires Possible(db.disks, s)
    requires Decode(f.codec, f.comp, f.enc, stored) == Some(plain) && GoodSlice(plain, f.slice)
    modifies db
    ensures err == if Takes(old(db.State()), s) then Fine else StorageFailed
    ensures var k := old(SlicesOf(db.State(), f, base, cur, v, true)).value;
            if err == Fine
            then SlicesOf(db.State(), f, base, cur[idx := c], v, true) == Some(Slices(k.base, k.cur[idx := plain]))
            else SlicesOf(db.State(), f, base, cur, v, true) == Some(k)
    ensures Edits(old(db.State()), db.State(), v)
  {
    hide Edits, Takes, Possible;
    ghost var p := db.State();
    ghost var q;
    c, err, q := StoreInSlot(db, f.chunkSize * 1024, v, idx, stored, s);
    if err == Fine {
      StoreStep(p, q, db.State(), f, base, cur, v, idx, c, stored, plain);
    } else {
      PoolStep(p, db.State(), f, base, cur, v, true);
    }
  }

  /** Stores bytes and maps the chunk to a slot. */
  method StoreInSlot(db: PoolDb, limit: nat, v: VersionId, idx: nat, stored: Data, s: Storing)
    returns (c: ChunkId, err: FileError, ghost q: Pool)
    requires LaidOut(db.State()) && 0 < |stored| <= limit && Possible(db.disks, s)
    modifies db
    ensures err == if Takes(old(db.State()), s) then Fine else StorageFailed
    ensures OthersKeptAllocated(old(db.State()), q) && LaidOut(q) && q.refs == old(db.refs)
    ensures err != Fine ==> db.State() == q
    ensures err == Fine ==>
              AddsOne(old(db.State()), q, stored, c) && db.State() == q.(refs := q.refs[Slot(v, idx) := c])
    ensures Edits(old(db.State()), db.State(), v)
  {
    hide StoresOne, TriesOne, Edits, OthersKeptAllocated, LaidOut, AddsOne, Takes, Possible;
    ghost var p := db.State();
    c, err := StoreOne(db, limit, stored, s);
    q := db.State();
    if err == Fine {
      db.refs := db.refs[Slot(v, idx) := c];
      assert db.State() == q.(refs := q.refs[Slot(v, idx) := c]);
      EditsOne(p, Stores(stored, c, idx), db.State(), v);
    } else {
      FailedEdit(p, q, stored, v);
    }
  }

  lemma FailedEdit(p: Pool, q: Pool, data: Data, v: VersionId)
    requires q == p || exists c: ChunkId :: TriesOne(p, q, data, c)
    ensures Edits(p, q, v)
  {
    hide TriesOne, Edits;
    if q == p {
      EditsNone(p, v);
    } else {
      var c: ChunkId :| TriesOne(p, q, data, c);
      EditsOne(p, Fails(data, c), q, v);
    }
  }

  // ----- the version tables -----

  class Share {
    var versions: map<VersionId, Version>
    var used: nat
    var current: map<InodeId, Option<VersionId>>

    constructor ()
      ensures versions == map[] && used == 0 && current == map[]
    {
      versions, used, current := map[], 0, map[];
    }
  }

  method CollectRows(refs: map<Slot, ChunkId>, v: VersionId) returns (chunks: map<nat, ChunkId>)
    ensures chunks == RowsOf(refs, v)
  {
    chunks := map[];
    var rows := set s | s in refs && s.version == v;
    while rows != {}
      invariant rows <= refs.Keys && forall s | s in rows :: s.version == v
      invariant forall i: nat :: i in chunks <==> Slot(v, i) in refs && Slot(v, i) !in rows
      invariant forall i | i in chunks :: chunks[i] == refs[Slot(v, i)]
      decreases |rows|
    {
      var s :| s in rows;
      chunks := chunks[s.idx := refs[s]];
      rows := rows - {s};
      assert s == Slot(v, s.idx);
    }
    RowsAre(refs, v, chunks);
  }

  /** Maps the slices under a version that maps nothing yet. */
  method InheritRows(refs: map<Slot, ChunkId>, v: VersionId, inherited: map<nat, ChunkId>)
    returns (more: map<Slot, ChunkId>, chunks: map<nat, ChunkId>)
    requires forall s | s in refs :: s.version != v
    ensures chunks == inherited && RowsOf(more, v) == inherited && OtherVersions(more, v) == refs
  {
    more, chunks := refs, map[];
    var left := inherited.Keys;
    while left != {}
      invariant left <= inherited.Keys
      invariant forall i: nat :: (i in chunks <==> i in inherited && i !in left) &&
                  (i in chunks ==> chunks[i] == inherited[i])
      invariant forall s | s in refs :: s in more && more[s] == refs[s]
      invariant forall s | s in more :: s in refs || s.version == v
      invariant forall i: nat :: (i in chunks <==> Slot(v, i) in more) &&
                  (i in chunks ==> chunks[i] == more[Slot(v, i)])
      decreases |left|
    {
      var i :| i in left;
      more := more[Slot(v, i) := inherited[i]];
      chunks := chunks[i := inherited[i]];
      left := left - {i};
    }
    RowsAre(more, v, chunks);
  }

  method IsAllZero(b: Data) returns (zero: bool)
    ensures zero <==> AllZero(b)
  {
    for i := 0 to |b|
      invariant AllZero(b[..i])
    {
      if b[i] != 0 {
        return false;
      }
    }
    assert b[..|b|] == b;
    zero := true;
  }

  /** Copying into a buffer that is grown first is a splice. */
  lemma GrownSplice(buf: Data, intra: nat, data: Data, grown: Data)
    requires grown == if intra + |data| > |buf| then Pad(buf, intra + |data|) else buf
    ensures grown[..intra] + data + grown[intra + |data|..] == Splice(buf, intra, data)
  {
  }

  /** The version a file is opened on, its size and its slices. */
  function OpenVersion(share: Share, inode: InodeId): Option<VersionId>
    reads share
  {
    if inode in share.current && share.current[inode].Some? && share.current[inode].value in share.versions
    then share.current[inode] else None
  }

  function SnapshotSize(share: Share, inode: InodeId): nat
    reads share
  {
    var v := OpenVersion(share, inode);
    if v.Some? then share.versions[v.value].size else 0
  }

  function SnapshotRows(db: PoolDb, share: Share, inode: InodeId): map<nat, ChunkId>
    reads db, share
  {
    var v := OpenVersion(share, inode);
    if v.Some? then RowsOf(db.refs, v.value) else map[]
  }

  ghost predicate SnapshotHeld(db: PoolDb, share: Share, format: Format, inode: InodeId)
    reads db, share
  {
    HoldsSlices(db.State(), format, SnapshotRows(db, share, inode))
  }

  /** The plain slices of the version a file is opened on. */
  ghost function Snapshot(db: PoolDb, share: Share, format: Format, inode: InodeId): map<nat, Data>
    requires SnapshotHeld(db, share, format, inode)
    reads db, share
  {
    Plains(db.State(), format, SnapshotRows(db, share, inode))
  }

  lemma VisibleFits(v: View, idx: nat)
    requires WellFormed(v)
    ensures |Visible(v, idx)| <= v.slice
  {
  }

  /** Copies data into a buffer at a place, growing the buffer with zeroes as needed. */
  method CopyInto(buf: Data, intra: nat, data: Data) returns (r: Data)
    ensures r == Splice(buf, intra, data)
  {
    var end, grown := intra + |data|, buf;
    if end > |grown| {
      grown := Pad(grown, end);
    }
    GrownSplice(buf, intra, data, grown);
    r := grown[..intra] + data + grown[end..];
  }

  lemma LoadIs(v: View, w: View, idx: nat)
    requires if Editing(v, idx) then w == v else w == Flush(v).(active := Some(Active(idx, Visible(v, idx))))
    ensures w == SliceView.Load(v, idx)
  {
  }

  lemma WriteIs(v: View, w: View, idx: nat, intra: nat, data: Data)
    requires w == SliceView.Load(v, idx).(active := Some(Active(idx, Splice(Visible(v, idx), intra, data))))
    ensures w == SliceView.WriteIntoSlice(v, idx, intra, data)
  {
  }

  lemma PositionIs(slice: nat, pos: nat)
    requires slice > 0
    ensures pos / slice >= 0 && 0 <= pos % slice < slice
  {
    DivMod(slice, pos);
  }

  lemma PieceIs(v: View, p: Data, k: nat, off: nat, u: View, w: View, idx: nat, intra: nat, n: nat)
    requires Partway(v, p, k, off, u) && k < |p|
    requires idx == (off + k) / v.slice && intra == (off + k) % v.slice
    requires n == if |p[k..]| > v.slice - intra then v.slice - intra else |p[k..]|
    requires w == SliceView.WriteIntoSlice(u, idx, intra, p[k..][..n])
    ensures Partway(v, p, k + n, off, w)
  {
    DivMod(v.slice, off + k);
    PartwayMore(v, p, k, off, u, n, w);
  }

  lemma WrittenIs(v: View, u: View, w: View, p: Data, off: nat)
    requires p != [] && Partway(v, p, |p|, off, u)
    requires w == u.(size := if off + |p| > u.size then off + |p| else u.size)
    ensures w == SliceView.Write(v, p, off)
  {
    assert p[..|p|] == p;
  }

  lemma PositionOf(slice: nat, size: nat)
    requires slice > 0
    ensures size / slice >= 0 && size / slice == SliceOf(slice, size) && size % slice == SlotOf(slice, size)
    ensures (size + slice - 1) / slice >= 0 && (size + slice - 1) / slice == LastKept(slice, size)
  {
    DivMod(slice, size);
    DivMod(slice, size + slice - 1);
  }

  lemma TrimmedIs(v: View, w: View, size: nat)
    requires v.slice > 0
    requires if v.active.Some? && v.active.value.idx >= LastKept(v.slice, size) then w == v.(active := None)
             else if v.active.Some? && SlotOf(v.slice, size) != 0 && v.active.value.idx == SliceOf(v.slice, size) &&
                     SlotOf(v.slice, size) < |v.active.value.buf|
             then w == v.(active := Some(Active(v.active.value.idx, v.active.value.buf[..SlotOf(v.slice, size)])))
             else w == v
    ensures w == TrimActive(v, size)
  {
  }

  lemma CutIs(v: View, w: View, idx: nat, len: nat)
    requires if |Visible(v, idx)| <= len then w == v
             else if Editing(v, idx) then w == v.(active := Some(Active(idx, v.active.value.buf[..len])))
             else w == Put(v, idx, Visible(v, idx)[..len])
    ensures w == SliceView.TrimSlice(v, idx, len)
  {
  }

  lemma StoredCutIs(v: View, w: View, idx: nat, len: nat, buf: Data)
    requires !Editing(v, idx) && buf == Visible(v, idx)
    requires w == if |buf| <= len then v else v.(cur := WithSlice(v.cur, idx, buf[..len]))
    ensures w == SliceView.TrimSlice(v, idx, len)
  {
  }

  /** The slices below an index. */
  function KeepBelow<T>(m: map<nat, T>, n: nat): map<nat, T> { map k | k in m && k < n :: m[k] }

  method DeleteFrom(chunks: map<nat, ChunkId>, n: nat) returns (kept: map<nat, ChunkId>)
    ensures kept == KeepBelow(chunks, n)
  {
    kept := chunks;
    var left := chunks.Keys;
    while left != {}
      invariant left <= chunks.Keys
      invariant forall k :: k in kept <==> k in chunks && (k in left || k < n)
      invariant forall k | k in kept :: kept[k] == chunks[k]
      decreases |left|
    {
      var k :| k in left;
      if k >= n {
        kept := kept - {k};
      }
      left := left - {k};
    }
  }

  /** The mapping without the slices of a version from an index on. */
  function UnmapFrom(refs: map<Slot, ChunkId>, v: VersionId, n: nat): map<Slot, ChunkId> {
    map s | s in refs && !(s.version == v && s.idx >= n) :: refs[s]
  }

  lemma TailStep(p: Pool, q: Pool, f: Format, base: map<nat, ChunkId>, cur: map<nat, ChunkId>, v: VersionId, n: nat)
    requires SlicesOf(p, f, base, cur, v, true).Some?
    requires q == p.(refs := UnmapFrom(p.refs, v, n))
    ensures var k := SlicesOf(p, f, base, cur, v, true).value;
            SlicesOf(q, f, base, KeepBelow(cur, n), v, true) == Some(Slices(k.base, KeepBelow(k.cur, n)))
    ensures OtherVersions(q.refs, v) == OtherVersions(p.refs, v)
  {
    RowsAre(q.refs, v, KeepBelow(cur, n));
    RefsLaidOut(p, q);
    RefsOnly(p, q, f, base);
    FewerPlains(p, f, cur, n);
    RefsOnly(p, q, f, KeepBelow(cur, n));
  }

  lemma TailEdit(p: Pool, q: Pool, v: VersionId, n: nat)
    requires q == p.(refs := UnmapFrom(p.refs, v, n))
    ensures Edits(p, q, v)
  {
    var idxs := set s | s in p.refs && s.version == v && s.idx >= n :: s.idx;
    assert forall s | s in p.refs && s.version == v && s.idx >= n :: s == Slot(v, s.idx) && s.idx in idxs;
    assert p.refs - (set i | i in idxs :: Slot(v, i)) == UnmapFrom(p.refs, v, n);
    EditsOne(p, Drops(idxs), q, v);
  }

  lemma FewerPlains(p: Pool, f: Format, cur: map<nat, ChunkId>, n: nat)
    requires HoldsSlices(p, f, cur)
    ensures HoldsSlices(p, f, KeepBelow(cur, n)) && Plains(p, f, KeepBelow(cur, n)) == KeepBelow(Plains(p, f, cur), n)
  {
  }

  /** What lies behind the new end is gone; the size is not set yet. */
  ghost predicate Shrunk(v: View, u: View, size: nat) {
    && v.slice > 0 && u.size == v.size
    && var d := DropTail(TrimActive(v, size), size);
       u == if SlotOf(v.slice, size) != 0
            then SliceView.TrimSlice(d, SliceOf(v.slice, size), SlotOf(v.slice, size)) else d
  }

  lemma ShrunkIs(v: View, d: View, u: View, size: nat)
    requires v.slice > 0 && d == FailedTruncate(v, size)
    requires u == if SlotOf(v.slice, size) != 0
                  then SliceView.TrimSlice(d, SliceOf(v.slice, size), SlotOf(v.slice, size)) else d
    ensures Shrunk(v, u, size)
  {
  }

  ghost predicate Cut(v: View, u: View, size: nat) { if size < v.size then Shrunk(v, u, size) else u == v }

  lemma TruncatedIs(v: View, u: View, w: View, size: nat)
    requires v.slice > 0 && Cut(v, u, size) && w == u.(size := size)
    ensures w == SliceView.Truncate(v, size)
  {
  }

  lemma SameSizeIs(v: View)
    requires v.slice > 0
    ensures SliceView.Truncate(v, v.size) == v
  {
  }

  /** Copies a stretch of a slice out, with zeroes past its end. */
  method CopyOut(p: array<Byte>, at: nat, n: nat, buf: Data, intra: nat)
    requires at + n <= p.Length
    modifies p
    ensures forall k | at <= k < at + n :: p[k] == At(buf, intra + (k - at))
    ensures forall k | 0 <= k < at || at + n <= k < p.Length :: p[k] == old(p[k])
  {
    for i := 0 to n
      invariant forall k | at <= k < at + i :: p[k] == At(buf, intra + (k - at))
      invariant forall k | 0 <= k < at || at + i <= k < p.Length :: p[k] == old(p[k])
    {
      var pos := intra + i;
      if pos < |buf| {
        p[at + i] := buf[pos];
      } else {
        p[at + i] := 0;
      }
    }
  }

  lemma SliceByte(v: View, pos: nat, idx: nat, intra: nat, n: nat, k: nat)
    requires v.slice > 0 && idx == pos / v.slice && intra == pos % v.slice && intra + n <= v.slice && k < n
    ensures ByteAt(v, pos + k) == At(Visible(v, idx), intra + k)
  {
    DivMod(v.slice, pos);
    PieceRange(v.slice, pos, n, pos + k);
  }

  lemma PieceRead(v: View, s: Data, at: nat, n: nat, off: nat, idx: nat, intra: nat)
    requires v.slice > 0 && idx == (off + at) / v.slice && intra == (off + at) % v.slice && intra + n <= v.slice
    requires at + n <= |s|
    requires forall k | at <= k < at + n :: s[k] == At(Visible(v, idx), intra + (k - at))
    ensures forall i | at <= i < at + n :: s[i] == ByteAt(v, off + i)
  {
    forall i | at <= i < at + n ensures s[i] == ByteAt(v, off + i) {
      SliceByte(v, off + at, idx, intra, n, i - at);
    }
  }

  /** A version that is not written any more still has its slices. */
  lemma DetachStep(p: Pool, f: Format, base: map<nat, ChunkId>, cur: map<nat, ChunkId>, v: VersionId)
    requires SlicesOf(p, f, base, cur, v, true).Some?
    ensures SlicesOf(p, f, base, cur, v, false) == SlicesOf(p, f, base, cur, v, true)
    ensures MappedSlices(p, f, cur, v) == Some(SlicesOf(p, f, base, cur, v, true).value.cur)
  {
  }

  /** The plain slices of a version that maps `chunks`. */
  ghost function MappedSlices(p: Pool, f: Format, chunks: map<nat, ChunkId>, v: VersionId): Option<map<nat, Data>> {
    if RowsOf(p.refs, v) == chunks && HoldsSlices(p, f, chunks) then Some(Plains(p, f, chunks)) else None
  }

  /** The size of a version is set, if it has a row; a file is pointed to a version, if it has one. */
  function Sized(versions: map<VersionId, Version>, v: VersionId, size: nat): map<VersionId, Version> {
    if v in versions then versions[v := versions[v].(size := size)] else versions
  }

  function Pointed(current: map<InodeId, Option<VersionId>>, inode: InodeId, v: VersionId)
    : map<InodeId, Option<VersionId>>
  {
    if inode in current then current[inode := Some(v)] else current
  }

  /** What a handle shows when the file is opened. */
  ghost function OpenedView(db: PoolDb, share: Share, format: Format, inode: InodeId, write: bool): View
    requires SnapshotHeld(db, share, format, inode)
    reads db, share
  {
    var slices := Snapshot(db, share, format, inode);
    SliceView.View(format.slice, SnapshotSize(share, inode), slices, if write then slices else map[], None)
  }

  // ----- the handle -----

  class FileHandle {
    const db: PoolDb
    const share: Share
    const format: Format
    const inode: InodeId
    const quota: int
    const readable: bool
    const writable: bool
    const append: bool

    var offset: int
    var closed: bool
    var oldVer: Option<VersionId>
    var oldSize: nat
    var oldChunks: map<nat, ChunkId>
    var newVer: VersionId
    var newSize: nat
    var newChunks: map<nat, ChunkId>
    var dirty: bool
    var hasActive: bool
    var activeIdx: nat
    var activeBuf: Data

    /** The plain slices of the version at open, and of the version being written. */
    ghost var base: map<nat, Data>
    ghost var cur: map<nat, Data>

    /** The pool holds the slices the handle knows, and the version being written maps
        exactly those. */
    ghost predicate Synced()
      reads `oldChunks, `newChunks, `newVer, `closed, `base, `cur, db, share
    {
      && format.slice > 0
      && SlicesOf(db.State(), format, oldChunks, newChunks, newVer, writable && !closed) == Some(Slices(base, cur))
      && (!writable ==> newChunks == map[])
      && (writable && !closed ==> newVer < share.used)
    }

    /** The buffer is at most one slice. */
    ghost predicate Valid()
      reads this, db, share
    {
      && Synced()
      && (hasActive ==> writable && |activeBuf| <= format.slice)
    }

    ghost function View(): (v: View)
      reads this
    {
      SliceView.View(format.slice, if writable then newSize else oldSize, base, cur,
                     if hasActive then Some(Active(activeIdx, activeBuf)) else None)
    }

    /** Every state of a handle is well formed. */
    lemma ViewIsWellFormed()
      requires Valid()
      ensures WellFormed(View()) && GoodFormat(format)
    {
      SlicesAreGood(db.State(), format, oldChunks, newChunks, newVer, writable && !closed);
    }

    constructor (db: PoolDb, share: Share, format: Format, inode: InodeId, quota: int, read: bool, write: bool,
                 append: bool)
      ensures this.db == db && this.share == share && this.format == format && this.inode == inode
      ensures this.quota == quota
      ensures readable == (read || !write) && writable == write && this.append == append
      ensures offset == 0 && !closed && !dirty && !hasActive && newChunks == map[]
    {
      this.db, this.share, this.format, this.inode, this.quota := db, share, format, inode, quota;
      readable, writable, this.append := read || !write, write, append;
      offset, closed, dirty, hasActive, activeIdx, activeBuf := 0, false, false, false, 0, [];
      oldVer, oldSize, oldChunks, newVer, newSize, newChunks := None, 0, map[], 0, 0, map[];
      base, cur := map[], map[];
    }

    /** Loads the current version of the file, if it has one. A handle for writing starts a
        new version that maps every slice of the old one. */
    method Begin()
      requires GoodFormat(format) && LaidOut(db.State()) && inode in share.current
      requires SnapshotHeld(db, share, format, inode)
      requires forall s | s in db.refs :: s.version < share.used
      requires !closed && !hasActive && newChunks == map[]
      modifies `oldVer, `oldSize, `oldChunks, `newVer, `newSize, `newChunks, `base, `cur, db`refs, share`versions,
               share`used
      ensures Valid() && View() == old(OpenedView(db, share, format, inode, writable))
      ensures oldChunks == old(SnapshotRows(db, share, inode)) && newChunks == if writable then oldChunks else map[]
      ensures !writable ==> db.refs == old(db.refs) && share.used == old(share.used)
      ensures !writable ==> share.versions == old(share.versions)
      ensures writable ==>
                newVer == old(share.used) && share.used == newVer + 1 && OtherVersions(db.refs, newVer) == old(db.refs)
      ensures writable ==> RowsOf(db.refs, newVer) == oldChunks
      ensures oldVer == old(OpenVersion(share, inode))
      ensures writable ==>
                share.versions == old(share.versions)[newVer := Version(inode, old(SnapshotSize(share, inode)))]
    {
      hide SlicesOf, Plains, HoldsSlices, LaidOut, GoodFormat, SnapshotRows, SnapshotSize, RowsOf, OtherVersions;
      ghost var p := db.State();
      LoadTables();
      Attach(p);
    }

    /** The plain slices of the rows that were loaded. */
    ghost method Attach(p: Pool)
      requires GoodFormat(format) && LaidOut(p) && HoldsSlices(p, format, oldChunks)
      requires db.State() == p.(refs := db.refs)
      requires !closed && !hasActive && newChunks == if writable then oldChunks else map[]
      requires writable ==> RowsOf(db.refs, newVer) == oldChunks && newVer < share.used
      modifies `base, `cur
      ensures Valid() && base == Plains(p, format, oldChunks) && cur == if writable then base else map[]
    {
      hide SlicesOf, Plains, HoldsSlices, LaidOut, GoodFormat, RowsOf;
      SliceIsPositive(format);
      OpenStep(p, db.State(), format, oldChunks, newVer, writable);
      base := Plains(p, format, oldChunks);
      cur := if writable then base else map[];
    }

    /** The rows of the old version, and of the new one for a handle that writes. */
    method LoadTables()
      requires inode in share.current && newChunks == map[] && forall s | s in db.refs :: s.version < share.used
      modifies `oldVer, `oldSize, `oldChunks, `newVer, `newSize, `newChunks, db`refs, share`versions, share`used
      ensures oldVer == old(OpenVersion(share, inode))
      ensures oldChunks == old(SnapshotRows(db, share, inode)) && newChunks == (if writable then oldChunks else map[])
      ensures oldSize == old(SnapshotSize(share, inode)) && (writable ==> newSize == oldSize)
      ensures !writable ==> db.refs == old(db.refs) && share.used == old(share.used)
      ensures !writable ==> share.versions == old(share.versions)
      ensures writable ==>
                newVer == old(share.used) && share.used == newVer + 1 && OtherVersions(db.refs, newVer) == old(db.refs)
      ensures writable ==> RowsOf(db.refs, newVer) == oldChunks
      ensures writable ==> share.versions == old(share.versions)[newVer := Version(inode, oldSize)]
    {
      hide SnapshotRows, SnapshotSize, RowsOf, OtherVersions;
      LoadSnapshot();
      if writable {
        BeginWrite();
      }
    }

    method LoadSnapshot()
      requires inode in share.current
      modifies `oldVer, `oldSize, `oldChunks
      ensures oldVer == OpenVersion(share, inode) && oldSize == SnapshotSize(share, inode)
      ensures oldChunks == SnapshotRows(db, share, inode)
    {
      oldVer, oldSize, oldChunks := None, 0, map[];
      if share.current[inode].None? {
        return;
      }
      var v := share.current[inode].value;
      if v !in share.versions {
        return;
      }
      oldVer, oldSize := Some(v), share.versions[v].size;
      oldChunks := CollectRows(db.refs, v);
    }

    /** Starts the new version and maps every slice of the old one under it. */
    method BeginWrite()
      requires forall s | s in db.refs :: s.version < share.used
      modifies `newVer, `newSize, `newChunks, db`refs, share`versions, share`used
      ensures newVer == old(share.used) && newSize == oldSize && newChunks == oldChunks && share.used == newVer + 1
      ensures RowsOf(db.refs, newVer) == newChunks && OtherVersions(db.refs, newVer) == old(db.refs)
      ensures share.versions == old(share.versions)[newVer := Version(inode, oldSize)]
    {
      newVer, newSize := share.used, oldSize;
      share.versions := share.versions[newVer := Version(inode, newSize)];
      share.used := share.used + 1;
      var refs, chunks := InheritRows(db.refs, newVer, oldChunks);
      db.refs, newChunks := refs, chunks;
    }

    /** The plain bytes of a slice: the buffer, else the slice written, else the old slice,
        else a hole. */
    method SlicePlain(idx: nat) returns (buf: Data)
      requires Valid()
      ensures buf == Visible(View(), idx)
    {
      if hasActive && activeIdx == idx {
        return activeBuf;
      }
      SlicesAreGood(db.State(), format, oldChunks, newChunks, newVer, writable && !closed);
      if idx in newChunks {
        return PlainOf(db.chunks, db.files, format, newChunks[idx]).value;
      }
      if idx in oldChunks {
        return PlainOf(db.chunks, db.files, format, oldChunks[idx]).value;
      }
      buf := [];
    }

    // ----- writing -----

    /** A slice becomes a hole. */
    method DropSlice(idx: nat)
      requires Synced() && writable && !closed
      modifies `newChunks, `cur, db`refs
      ensures Synced() && cur == old(cur) - {idx}
      ensures db.refs == old(db.refs) - {Slot(newVer, idx)}
      ensures OtherSlices(newChunks, idx) == old(OtherSlices(newChunks, idx))
      ensures Edits(old(db.State()), db.State(), newVer)
    {
      hide SlicesOf, Edits;
      ghost var p := db.State();
      OtherSlicesKept(newChunks, idx, 0);
      newChunks := newChunks - {idx};
      db.refs := db.refs - {Slot(newVer, idx)};
      DropStep(p, db.State(), format, oldChunks, old(newChunks), newVer, idx);
      DropEdit(p, db.State(), newVer, idx);
      cur := cur - {idx};
    }

    /** Stores an encoded slice and maps it. */
    method StoreSlice(idx: nat, ghost plain: Data, stored: Data, s: Storing) returns (err: FileError)
      requires Synced() && writable && !closed && GoodSlice(plain, format.slice) && Possible(db.disks, s)
      requires Decode(format.codec, format.comp, format.enc, stored) == Some(plain)
      requires 0 < |stored| <= format.chunkSize * 1024
      modifies `newChunks, `cur, db
      ensures Synced() && err == if Takes(old(db.State()), s) then Fine else StorageFailed
      ensures cur == if err == Fine then old(cur)[idx := plain] else old(cur)
      ensures OtherSlices(newChunks, idx) == old(OtherSlices(newChunks, idx))
      ensures Edits(old(db.State()), db.State(), newVer)
    {
      hide SlicesOf, Edits, Takes, Possible;
      var c;
      c, err := StoreMapped(db, format, oldChunks, newChunks, newVer, idx, plain, stored, s);
      if err == Fine {
        OtherSlicesKept(newChunks, idx, c);
        newChunks := newChunks[idx := c];
        cur := cur[idx := plain];
      }
    }

    /** Stores the plain bytes of a slice as a new chunk; a slice of zeroes becomes a hole. The
        pool never refuses a slice for its length. */
    method PutSlice(idx: nat, plain: Data, s: Storing) returns (err: FileError)
      requires Synced() && writable && !closed && |plain| <= format.slice && Possible(db.disks, s)
      modifies `newChunks, `cur, db
      ensures Synced() && err == if AllZero(plain) || Takes(old(db.State()), s) then Fine else StorageFailed
      ensures cur == if err == Fine then WithSlice(old(cur), idx, plain) else old(cur)
      ensures OtherSlices(newChunks, idx) == old(OtherSlices(newChunks, idx))
      ensures Edits(old(db.State()), db.State(), newVer)
    {
      hide SlicesOf, Edits, Takes, Possible;
      var zero := IsAllZero(plain);
      if zero {
        DropSlice(idx);
        return Fine;
      }
      var stored := EncodeSlice(plain);
      err := StoreSlice(idx, plain, stored, s);
    }

    method EncodeSlice(plain: Data) returns (stored: Data)
      requires Synced() && 0 < |plain| <= format.slice
      ensures Decode(format.codec, format.comp, format.enc, stored) == Some(plain)
      ensures 0 < |stored| <= format.chunkSize * 1024
    {
      SlicesAreGood(db.State(), format, oldChunks, newChunks, newVer, writable && !closed);
      var nonce: nat := *;
      EncodeDecode(format.codec, format.comp, format.enc, plain, nonce);
      stored := Encode(format.codec, format.comp, format.enc, plain, nonce).value;
      EncodedSliceFits(format.codec, format.chunkSize, format.comp, format.enc, plain, nonce);
    }

    /** Writes the buffer out. */
    method FlushActive(s: Storing) returns (err: FileError)
      requires Valid() && (writable ==> !closed) && Possible(db.disks, s)
      modifies `newChunks, `cur, `hasActive, `activeBuf, db
      ensures Valid() && !hasActive && (err == Fine || err == StorageFailed)
      ensures err == Fine ==> View() == SliceView.Flush(old(View()))
      ensures err != Fine ==> View() == Unstored(old(View()))
      ensures err != Fine <==> CanFail(old(View())) && !Takes(old(db.State()), s)
      ensures Edits(old(db.State()), db.State(), newVer)
    {
      hide SlicesOf, Edits, Takes, Possible;
      EditsNone(db.State(), newVer);
      if !hasActive {
        return Fine;
      }
      var idx, buf := activeIdx, activeBuf;
      hasActive, activeBuf := false, [];
      err := PutSlice(idx, buf, s);
    }

    /** Makes a slice the one in the buffer. */
    method Load(idx: nat, s: Storing) returns (err: FileError)
      requires Valid() && writable && !closed && Possible(db.disks, s)
      modifies `newChunks, `cur, `hasActive, `activeBuf, `activeIdx, db
      ensures Valid() && (err == Fine || err == StorageFailed)
      ensures err == Fine ==> View() == SliceView.Load(old(View()), idx) && Buffered(idx, Visible(old(View()), idx))
      ensures err != Fine ==> View() == Unstored(old(View()))
      ensures err != Fine <==> CanFail(old(View())) && !Editing(old(View()), idx) && !Takes(old(db.State()), s)
      ensures Edits(old(db.State()), db.State(), newVer)
    {
      hide SlicesOf, Edits, Takes, Possible;
      EditsNone(db.State(), newVer);
      ghost var v := View();
      err := Fine;
      if !hasActive || activeIdx != idx {
        err := Reload(idx, s);
      }
      if err == Fine {
        LoadIs(v, View(), idx);
      }
    }

    /** Writes the buffer out and reads another slice into it. */
    method Reload(idx: nat, s: Storing) returns (err: FileError)
      requires Valid() && writable && !closed && Possible(db.disks, s)
      modifies `newChunks, `cur, `hasActive, `activeBuf, `activeIdx, db
      ensures Valid() && (err == Fine || err == StorageFailed)
      ensures err == Fine ==>
                View() == SliceView.Flush(old(View())).(active := Some(Active(idx, Visible(old(View()), idx))))
      ensures err == Fine ==> Buffered(idx, Visible(old(View()), idx))
      ensures err != Fine ==> View() == Unstored(old(View()))
      ensures err != Fine <==> CanFail(old(View())) && !Takes(old(db.State()), s)
      ensures Edits(old(db.State()), db.State(), newVer)
    {
      hide SlicesOf, Edits, Takes, Possible;
      ghost var v := View();
      var buf := SlicePlain(idx);
      ViewIsWellFormed();
      VisibleFits(v, idx);
      err := FlushActive(s);
      if err == Fine {
        activeIdx, activeBuf, hasActive := idx, buf, true;
      }
    }

    /** The slice is in the buffer, with these bytes. */
    ghost predicate Buffered(idx: nat, buf: Data)
      reads `hasActive, `activeIdx, `activeBuf
    {
      hasActive && activeIdx == idx && activeBuf == buf
    }

    /** Writes into one slice, which becomes the one in the buffer. */
    method WriteIntoSlice(idx: nat, intra: nat, data: Data, s: Storing) returns (err: FileError)
      requires Valid() && writable && !closed && intra + |data| <= format.slice && Possible(db.disks, s)
      modifies `newChunks, `cur, `hasActive, `activeBuf, `activeIdx, db
      ensures Valid() && (err == Fine || err == StorageFailed)
      ensures err == Fine ==> View() == SliceView.WriteIntoSlice(old(View()), idx, intra, data)
      ensures err != Fine ==> View() == Unstored(old(View()))
      ensures err != Fine <==> CanFail(old(View())) && !Editing(old(View()), idx) && !Takes(old(db.State()), s)
      ensures Edits(old(db.State()), db.State(), newVer)
    {
      hide SlicesOf, Edits, Takes, Possible;
      ghost var v := View();
      err := Load(idx, s);
      if err == Fine {
        activeBuf := CopyInto(activeBuf, intra, data);
        WriteIs(v, View(), idx, intra, data);
      }
    }

    /** Growing beyond the quota of the share, in megabytes, of which `used` bytes are taken. */
    predicate OverQuota(grow: int, used: nat) { quota > 0 && grow > 0 && used + grow > quota * 0x10_0000 }

    /** Size of the file as the handle sees it. */
    function Size(): (r: nat)
      reads this
      ensures r == View().size
    {
      if writable then newSize else oldSize
    }

    /** Writes at an offset, slice by slice. It fails only where the pool does not take a slice:
        the one before slice `k`, when `store(k)` is what the pool does at that time. */
    method WriteAt(p: Data, off: int, used: nat, store: nat -> Storing) returns (written: nat, err: FileError)
      requires Valid() && !closed && forall k :: Possible(db.disks, store(k))
      modifies `newChunks, `cur, `hasActive, `activeBuf, `activeIdx, `newSize, `dirty, db
      ensures Valid()
      ensures err == Permission <==> !writable
      ensures err == BadArgument <==> writable && off < 0
      ensures err == NoSpace <==>
                && writable && off >= 0 && p != [] && quota > 0 && off + |p| > old(View().size)
                && used + off + |p| - old(View().size) > quota * 1_048_576
      ensures err == Fine || err == Permission || err == BadArgument || err == NoSpace || err == StorageFailed
      ensures err == Fine ==> off >= 0 && written == |p| && View() == SliceView.Write(old(View()), p, off)
      ensures err == Fine && p != [] ==> dirty
      ensures err != Fine || p == [] ==> dirty == old(dirty)
      ensures err == StorageFailed ==> off >= 0 && FailsAfter(old(View()), p, off, written, View())
      ensures err == StorageFailed ==> Declined(old(db.State()), store, off + written)
      ensures err != Fine && err != StorageFailed ==>
                written == 0 && View() == old(View()) && db.State() == old(db.State())
      ensures Edits(old(db.State()), db.State(), newVer)
    {
      hide SlicesOf, Edits, Declined, Possible;
      EditsNone(db.State(), newVer);
      if !writable {
        return 0, Permission;
      }
      if off < 0 {
        return 0, BadArgument;
      }
      if |p| == 0 {
        return 0, Fine;
      }
      if OverQuota(off + |p| - newSize, used) {
        return 0, NoSpace;
      }
      written, err := WriteAll(p, off, store);
    }

    /** The version has come to where the pool does not take what slice `pos` is in needs stored. */
    ghost predicate Declined(p: Pool, store: nat -> Storing, pos: nat)
      requires format.slice > 0
      reads `newVer
    {
      exists m: Pool :: Edits(p, m, newVer) && !Takes(m, store(SliceOf(format.slice, pos)))
    }

    /** Writes at an offset that has been checked. */
    method WriteAll(p: Data, off: nat, store: nat -> Storing) returns (written: nat, err: FileError)
      requires Valid() && writable && !closed && p != [] && forall k :: Possible(db.disks, store(k))
      modifies `newChunks, `cur, `hasActive, `activeBuf, `activeIdx, `newSize, `dirty, db
      ensures Valid() && (err == Fine || err == StorageFailed)
      ensures err == Fine ==> written == |p| && dirty && View() == SliceView.Write(old(View()), p, off)
      ensures err != Fine ==> FailsAfter(old(View()), p, off, written, View()) && dirty == old(dirty)
      ensures err != Fine ==> Declined(old(db.State()), store, off + written)
      ensures Edits(old(db.State()), db.State(), newVer)
    {
      hide SlicesOf, Edits, Declined, Possible;
      ghost var v := View();
      written, err := WriteSlices(p, off, store);
      if err == Fine {
        ghost var u := View();
        if off + |p| > newSize {
          newSize := off + |p|;
        }
        dirty := true;
        WrittenIs(v, u, View(), p, off);
      }
    }

    /** Writes as much as fits into one slice: the piece after the first `k` bytes of a write. */
    method WritePiece(rest: Data, pos: nat, store: nat -> Storing, ghost v: View, ghost p: Data, ghost k: nat,
                      ghost off: nat)
      returns (n: nat, err: FileError)
      requires Valid() && writable && !closed && rest != [] && Partway(v, p, k, off, View())
      requires rest == p[k..] && pos == off + k && forall i :: Possible(db.disks, store(i))
      modifies `newChunks, `cur, `hasActive, `activeBuf, `activeIdx, db
      ensures Valid() && (err == Fine || err == StorageFailed)
      ensures 0 < n <= |rest| && (err == Fine ==> Partway(v, p, k + n, off, View()))
      ensures err != Fine ==> FailsAfter(v, p, off, k, View())
      ensures err != Fine ==> !Takes(old(db.State()), store(SliceOf(format.slice, pos)))
      ensures Edits(old(db.State()), db.State(), newVer)
    {
      hide SlicesOf, Edits, Takes, Possible;
      ghost var u := View();
      PositionIs(format.slice, pos);
      PositionOf(format.slice, pos);
      var idx: nat, intra: nat := pos / format.slice, pos % format.slice;
      n := |rest|;
      var remain := format.slice - intra;
      if n > remain {
        n := remain;
      }
      err := WriteIntoSlice(idx, intra, rest[..n], store(idx));
      if err == Fine {
        PieceIs(v, p, k, off, u, View(), idx, intra, n);
      }
    }

    method WriteSlices(p: Data, off: nat, store: nat -> Storing) returns (written: nat, err: FileError)
      requires Valid() && writable && !closed && forall k :: Possible(db.disks, store(k))
      modifies `newChunks, `cur, `hasActive, `activeBuf, `activeIdx, db
      ensures Valid() && (err == Fine || err == StorageFailed)
      ensures err == Fine ==> written == |p| && Partway(old(View()), p, |p|, off, View())
      ensures err != Fine ==> FailsAfter(old(View()), p, off, written, View())
      ensures err != Fine ==> Declined(old(db.State()), store, off + written)
      ensures Edits(old(db.State()), db.State(), newVer)
    {
      hide SlicesOf, Edits, Partway, FailsAfter, Takes, Possible;
      EditsNone(db.State(), newVer);
      ghost var v := View();
      var rest: Data, pos: nat := p, off;
      written := 0;
      PartwayAtFirst(v, p, off);
      while |rest| > 0
        invariant Valid() && written <= |p| && rest == p[written..] && pos == off + written
        invariant Partway(v, p, written, off, View())
        invariant Edits(old(db.State()), db.State(), newVer) && db.disks == old(db.disks)
        decreases |rest|
      {
        var n;
        ghost var m := db.State();
        n, err := WritePiece(rest, pos, store, v, p, written, off);
        SameDisks(m, db.State(), newVer);
        EditsThen(old(db.State()), m, db.State(), newVer);
        if err != Fine {
          return;
        }
        pos := pos + n;
        written := written + n;
        rest := rest[n..];
      }
      err := Fine;
    }

    // ----- truncating -----

    /** Cuts or drops the buffer. */
    method TrimBuffer(size: nat, lastKept: nat, intra: nat)
      requires Valid() && lastKept == LastKept(format.slice, size) && intra == SlotOf(format.slice, size)
      modifies `hasActive, `activeBuf
      ensures Valid() && View() == TrimActive(old(View()), size)
    {
      hide SlicesOf, Edits;
      ghost var v := View();
      PositionOf(format.slice, size);
      if hasActive && activeIdx >= lastKept {
        hasActive, activeBuf := false, [];
      } else if hasActive && intra != 0 && activeIdx == size / format.slice && intra < |activeBuf| {
        activeBuf := activeBuf[..intra];
      }
      TrimmedIs(v, View(), size);
    }

    /** Drops every slice from an index on. */
    method DropFrom(lastKept: nat)
      requires Synced() && writable && !closed
      modifies `newChunks, `cur, db`refs
      ensures Synced() && cur == KeepBelow(old(cur), lastKept)
      ensures Edits(old(db.State()), db.State(), newVer)
    {
      hide SlicesOf, Edits;
      ghost var p := db.State();
      newChunks := DeleteFrom(newChunks, lastKept);
      db.refs := UnmapFrom(db.refs, newVer, lastKept);
      TailStep(p, db.State(), format, oldChunks, old(newChunks), newVer, lastKept);
      TailEdit(p, db.State(), newVer, lastKept);
      cur := KeepBelow(cur, lastKept);
    }

    /** Cuts a slice to a length and stores what is left. */
    method TrimSlice(idx: nat, len: nat, s: Storing) returns (err: FileError)
      requires Valid() && writable && !closed && len <= format.slice && Possible(db.disks, s)
      modifies `newChunks, `cur, `activeBuf, db
      ensures Valid() && (err == Fine || err == StorageFailed)
      ensures err == Fine ==> View() == SliceView.TrimSlice(old(View()), idx, len)
      ensures err != Fine ==> View() == old(View())
      ensures err != Fine <==> CutStores(old(View()), idx, len) && !Takes(old(db.State()), s)
      ensures Edits(old(db.State()), db.State(), newVer)
    {
      hide SlicesOf, Edits, Takes, Possible;
      EditsNone(db.State(), newVer);
      ghost var v := View();
      if hasActive && activeIdx == idx {
        if |activeBuf| > len {
          activeBuf := activeBuf[..len];
        }
        CutIs(v, View(), idx, len);
        return Fine;
      }
      err := TrimStored(idx, len, s);
    }

    method TrimStored(idx: nat, len: nat, s: Storing) returns (err: FileError)
      requires Valid() && writable && !closed && len <= format.slice && !(hasActive && activeIdx == idx)
      requires Possible(db.disks, s)
      modifies `newChunks, `cur, db
      ensures Synced() && (err == Fine || err == StorageFailed)
      ensures err == Fine ==> View() == SliceView.TrimSlice(old(View()), idx, len)
      ensures err != Fine ==> View() == old(View())
      ensures err != Fine <==> CutStores(old(View()), idx, len) && !Takes(old(db.State()), s)
      ensures Edits(old(db.State()), db.State(), newVer)
    {
      hide SlicesOf, Edits, Takes, Possible;
      EditsNone(db.State(), newVer);
      ghost var v := View();
      var buf := SlicePlain(idx);
      if |buf| <= len {
        StoredCutIs(v, v, idx, len, buf);
        return Fine;
      }
      err := PutSlice(idx, buf[..len], s);
      if err == Fine { StoredCutIs(v, View(), idx, len, buf); }
    }

    /** Drops what lies behind the new end. */
    method Shrink(size: nat, s: Storing) returns (err: FileError)
      requires Valid() && writable && !closed && size < newSize && Possible(db.disks, s)
      modifies `newChunks, `cur, `hasActive, `activeBuf, db
      ensures Valid() && (err == Fine || err == StorageFailed)
      ensures err == Fine ==> Shrunk(old(View()), View(), size)
      ensures err != Fine ==> TruncateFails(old(View()), size, View())
      ensures err != Fine <==> BoundaryStores(old(View()), size) && !Takes(old(db.State()), s)
      ensures Edits(old(db.State()), db.State(), newVer)
    {
      hide SlicesOf, Edits, Shrunk, TruncateFails, FailedTruncate, Valid, Possible;
      ghost var v := View();
      DropBehind(size);
      ghost var d, m := View(), db.State();
      PositionOf(format.slice, size);
      BoundaryStoresIff(v, d, size);
      err := Fine;
      if size % format.slice != 0 {
        err := TrimSlice(size / format.slice, size % format.slice, s);
        EditsThen(old(db.State()), m, db.State(), newVer);
      }
      if err == Fine {
        ShrunkIs(v, d, View(), size);
      } else {
        ShrinkFails(v, d, size);
      }
    }

    /** Drops the slices that lie behind the new end whole. */
    method DropBehind(size: nat)
      requires Valid() && writable && !closed
      modifies `newChunks, `cur, `hasActive, `activeBuf, db`refs
      ensures Valid() && View() == FailedTruncate(old(View()), size) && format.slice > 0
      ensures Edits(old(db.State()), db.State(), newVer)
    {
      hide SlicesOf, Edits;
      var lastKept: nat, intra: nat := (size + format.slice - 1) / format.slice, size % format.slice;
      PositionOf(format.slice, size);
      TrimBuffer(size, lastKept, intra);
      DropFrom(lastKept);
    }

    /** Sets the size of the file. */
    method TruncateTo(size: int, used: nat, s: Storing) returns (err: FileError)
      requires Valid() && !closed && Possible(db.disks, s)
      modifies `newChunks, `cur, `hasActive, `activeBuf, `newSize, `dirty, db
      ensures Valid()
      ensures err == Permission <==> !writable
      ensures err == BadArgument <==> writable && size < 0
      ensures err == NoSpace <==>
                && writable && size > old(View().size) && quota > 0
                && used + size - old(View().size) > quota * 1_048_576
      ensures err == Fine || err == Permission || err == BadArgument || err == NoSpace || err == StorageFailed
      ensures err == Fine ==> size >= 0 && newSize == size && View() == SliceView.Truncate(old(View()), size)
      ensures err == Fine ==> dirty == (old(dirty) || size != old(newSize))
      ensures err != Fine ==> newSize == old(newSize) && dirty == old(dirty)
      ensures err == StorageFailed ==> 0 <= size < old(newSize) && TruncateFails(old(View()), size, View())
      ensures err == StorageFailed <==>
                && writable && 0 <= size < old(View().size) && BoundaryStores(old(View()), size)
                && !Takes(old(db.State()), s)
      ensures err != Fine && err != StorageFailed ==> View() == old(View()) && db.State() == old(db.State())
      ensures Edits(old(db.State()), db.State(), newVer)
    {
      hide SlicesOf, Edits, Takes, Possible, BoundaryStores;
      EditsNone(db.State(), newVer);
      if !writable {
        return Permission;
      }
      if size < 0 {
        return BadArgument;
      }
      if size == newSize {
        SameSizeIs(View());
        return Fine;
      }
      if OverQuota(size - newSize, used) {
        return NoSpace;
      }
      err := Resize(size, s);
    }

    /** Sets the size to one that has been checked. */
    method Resize(size: nat, s: Storing) returns (err: FileError)
      requires Valid() && writable && !closed && Possible(db.disks, s)
      modifies `newChunks, `cur, `hasActive, `activeBuf, `newSize, `dirty, db
      ensures Valid() && (err == Fine || err == StorageFailed)
      ensures err == Fine ==> newSize == size && dirty && View() == SliceView.Truncate(old(View()), size)
      ensures err != Fine ==> newSize == old(newSize) && dirty == old(dirty)
      ensures err != Fine ==> TruncateFails(old(View()), size, View())
      ensures err != Fine <==>
                size < old(View().size) && BoundaryStores(old(View()), size) && !Takes(old(db.State()), s)
      ensures Edits(old(db.State()), db.State(), newVer)
    {
      hide SlicesOf, Edits, Takes, Possible, BoundaryStores;
      EditsNone(db.State(), newVer);
      ghost var v := View();
      err := Fine;
      if size < newSize {
        err := Shrink(size, s);
        if err != Fine {
          return;
        }
      }
      SetSize(size, v);
    }

    method SetSize(size: nat, ghost v: View)
      requires Valid() && writable && v.slice > 0 && Cut(v, View(), size)
      modifies `newSize, `dirty
      ensures Valid() && newSize == size && dirty && View() == SliceView.Truncate(v, size)
    {
      hide SlicesOf, Edits;
      ghost var u := View();
      newSize := size;
      dirty := true;
      TruncatedIs(v, u, View(), size);
    }

    // ----- reading -----

    /** Reads at an offset, slice by slice, up to the end of the file. Holes read zero. */
    method ReadAt(p: array<Byte>, off: int) returns (got: nat, err: FileError)
      requires Valid()
      modifies p
      ensures err == Permission <==> !readable
      ensures err == BadArgument <==> readable && off < 0
      ensures err == Eof <==> readable && off >= 0 && p.Length > 0 && off >= View().size
      ensures err == Fine || err == Permission || err == BadArgument || err == Eof
      ensures err != Fine || p.Length == 0 ==> got == 0
      ensures err == Fine && p.Length > 0 ==>
                got == if p.Length > View().size - off then View().size - off else p.Length
      ensures err == Fine ==> forall i | 0 <= i < got :: p[i] == ByteAt(View(), off + i)
      ensures forall i | got <= i < p.Length :: p[i] == old(p[i])
    {
      if !readable {
        return 0, Permission;
      }
      if off < 0 {
        return 0, BadArgument;
      }
      if p.Length == 0 {
        return 0, Fine;
      }
      if off >= Size() {
        return 0, Eof;
      }
      var len := p.Length;
      if len > Size() - off {
        len := Size() - off;
      }
      ReadSlices(p, len, off);
      got, err := len, Fine;
    }

    method ReadSlices(p: array<Byte>, len: nat, off: nat)
      requires Valid() && len <= p.Length
      modifies p
      ensures forall i | 0 <= i < len :: p[i] == ByteAt(View(), off + i)
      ensures forall i | len <= i < p.Length :: p[i] == old(p[i])
    {
      var got := 0;
      while got < len
        invariant got <= len
        invariant forall i | 0 <= i < got :: p[i] == ByteAt(View(), off + i)
        invariant forall i | got <= i < p.Length :: p[i] == old(p[i])
      {
        var n := ReadPiece(p, got, len, off);
        got := got + n;
      }
    }

    /** Reads as much as there is in one slice. */
    method ReadPiece(p: array<Byte>, got: nat, len: nat, off: nat) returns (n: nat)
      requires Valid() && got < len <= p.Length
      modifies p
      ensures 0 < n <= len - got
      ensures forall i | got <= i < got + n :: p[i] == ByteAt(View(), off + i)
      ensures forall i | 0 <= i < got || got + n <= i < p.Length :: p[i] == old(p[i])
    {
      PositionIs(format.slice, off + got);
      var idx: nat, intra: nat := (off + got) / format.slice, (off + got) % format.slice;
      n := len - got;
      var remain := format.slice - intra;
      if n > remain {
        n := remain;
      }
      var buf := SlicePlain(idx);
      CopyOut(p, got, n, buf, intra);
      PieceRead(View(), p[..], got, n, off, idx, intra);
    }

    // ----- committing -----

    /** Writes the buffer out. */
    method Sync(s: Storing) returns (err: FileError)
      requires Valid() && !closed && Possible(db.disks, s)
      modifies `newChunks, `cur, `hasActive, `activeBuf, db
      ensures Valid() && (err == Fine || err == StorageFailed)
      ensures err == Fine ==> View() == SliceView.Flush(old(View()))
      ensures err != Fine ==> View() == Unstored(old(View()))
      ensures err != Fine <==> CanFail(old(View())) && !Takes(old(db.State()), s)
      ensures Edits(old(db.State()), db.State(), newVer)
    {
      hide SlicesOf, Edits, Takes, Possible;
      EditsNone(db.State(), newVer);
      if !writable {
        return Fine;
      }
      err := FlushActive(s);
    }

    /** Makes the version that was written the current one. A version nothing was written to
        is dropped, though its slices stay mapped. */
    method Close(s: Storing) returns (err: FileError)
      requires Valid() && Possible(db.disks, s)
      modifies `newChunks, `cur, `hasActive, `activeBuf, `closed, db, share`versions, share`current
      ensures Valid() && closed && (err == Fine || err == StorageFailed)
      ensures err != Fine ==> View() == Unstored(old(View()))
      ensures err != Fine <==> !old(closed) && CanFail(old(View())) && !Takes(old(db.State()), s)
      ensures old(closed) ==> View() == old(View()) && db.State() == old(db.State())
      ensures err == Fine && !old(closed) ==> View() == SliceView.Flush(old(View()))
      ensures err == Fine && writable && dirty && !old(closed) && newVer in old(share.versions) &&
                inode in old(share.current) ==>
                Committed()
      ensures err != Fine || !writable || !dirty || old(closed) ==> share.current == old(share.current)
      ensures err == Fine && writable && dirty && !old(closed) ==>
                && share.versions == Sized(old(share.versions), newVer, newSize)
                && share.current == Pointed(old(share.current), inode, newVer)
      ensures err == Fine && writable && dirty && !old(closed) ==>
                && share.versions.Keys == old(share.versions).Keys && share.current.Keys == old(share.current).Keys
                && (forall v | v in share.versions :: share.versions[v] == if v == newVer
                      then old(share.versions)[v].(size := newSize) else old(share.versions)[v])
                && (forall i | i in share.current :: share.current[i] == if i == inode
                      then Some(newVer) else old(share.current)[i])
      ensures err == Fine && writable && !dirty && !old(closed) ==> share.versions == old(share.versions) - {newVer}
      ensures err != Fine || !writable || old(closed) ==> share.versions == old(share.versions)
      ensures Edits(old(db.State()), db.State(), newVer)
    {
      hide SlicesOf, Edits, Takes, Possible;
      EditsNone(db.State(), newVer);
      if closed {
        return Fine;
      }
      err := Finish(s);
      if !writable || err != Fine {
        return;
      }
      if !dirty {
        share.versions := share.versions - {newVer};
        return;
      }
      Publish();
    }

    /** Writes the buffer out for the last time. */
    method Finish(s: Storing) returns (err: FileError)
      requires Valid() && !closed && Possible(db.disks, s)
      modifies `newChunks, `cur, `hasActive, `activeBuf, `closed, db
      ensures Valid() && closed && (err == Fine || err == StorageFailed)
      ensures err == Fine ==> View() == SliceView.Flush(old(View()))
      ensures err != Fine ==> View() == Unstored(old(View()))
      ensures err != Fine <==> CanFail(old(View())) && !Takes(old(db.State()), s)
      ensures writable ==> Written()
      ensures Edits(old(db.State()), db.State(), newVer)
    {
      hide SlicesOf, Edits, Takes, Possible;
      err := Sync(s);
      Detaches();
      closed := true;
    }

    lemma Detaches()
      requires Synced()
      ensures SlicesOf(db.State(), format, oldChunks, newChunks, newVer, false) == Some(Slices(base, cur))
      ensures writable && !closed ==> Written()
    {
      if writable && !closed { DetachStep(db.State(), format, oldChunks, newChunks, newVer); }
    }

    /** The rows of the version hold what the handle wrote. */
    ghost predicate Written()
      reads `newVer, `newChunks, `cur, db
    {
      MappedSlices(db.State(), format, newChunks, newVer) == Some(cur)
    }

    /** The version gets its size and the file is pointed to it. */
    method Publish()
      requires Written()
      modifies share`versions, share`current
      ensures share.versions == Sized(old(share.versions), newVer, newSize)
      ensures share.current == Pointed(old(share.current), inode, newVer)
      ensures newVer in old(share.versions) && inode in old(share.current) ==> Committed()
    {
      share.versions := Sized(share.versions, newVer, newSize);
      share.current := Pointed(share.current, inode, newVer);
    }

    /** The slices of the current version, if it is the one the handle wrote. */
    ghost function CommittedSlices(): Option<map<nat, Data>>
      reads this, db, share
    {
      if inode in share.current && SnapshotSize(share, inode) == newSize && SnapshotRows(db, share, inode) == newChunks
         && SnapshotHeld(db, share, format, inode)
      then Some(Snapshot(db, share, format, inode)) else None
    }

    /** The current version of the file is what the handle wrote. */
    ghost predicate Committed()
      reads this, db, share
    {
      CommittedSlices() == Some(cur)
    }

    // ----- the file position -----

    /** Writes at the current position, or at the end in append mode, and moves behind it. */
    method Write(p: Data, used: nat, store: nat -> Storing) returns (n: nat, err: FileError)
      requires Valid() && !closed && offset >= 0 && forall k :: Possible(db.disks, store(k))
      modifies `newChunks, `cur, `hasActive, `activeBuf, `activeIdx, `newSize, `dirty, `offset, db
      ensures Valid() && offset >= 0
      ensures offset == (if append then old(View().size) else old(offset)) + n
      ensures err == Fine ==> writable && n == |p|
      ensures dirty == (old(dirty) || (err == Fine && p != []))
      ensures err == Fine ==>
                View() == SliceView.Write(old(View()), p, if append then old(View().size) else old(offset))
      ensures err == StorageFailed ==>
                FailsAfter(old(View()), p, if append then old(View().size) else old(offset), n, View())
      ensures err == StorageFailed ==>
                Declined(old(db.State()), store, (if append then old(View().size) else old(offset)) + n)
      ensures err == Permission <==> !writable
      ensures err == NoSpace <==>
                var end := (if append then old(View().size) else old(offset)) + |p|;
                && writable && p != [] && quota > 0 && end > old(View().size)
                && used + end - old(View().size) > quota * 1_048_576
      ensures err == Fine || err == Permission || err == NoSpace || err == StorageFailed
      ensures err != Fine && err != StorageFailed ==> n == 0 && View() == old(View())
      ensures Edits(old(db.State()), db.State(), newVer)
    {
      hide SlicesOf, Edits, Declined, Possible;
      if append {
        offset := Size();
      }
      n, err := WriteAt(p, offset, used, store);
      offset := offset + n;
    }
  }
}
