/** What a handle does to the tables is a run of the life of the versions, so what holds of all
    runs holds beside handles: a handle that reads goes on reading the same bytes. */
module HandleSteps {
  import opened Bytes
  import opened Wrappers
  import opened Layout
  import opened ChunkStore
  import opened Tables
  import opened Database
  import opened SliceView
  import opened Lifecycle
  import opened PoolEdits
  import opened FileHandles
  import opened FailedStores
  import opened FileSessions
  import opened Recycle

  /** Mapping the slices of one version under a new one is inheriting them. */
  lemma InheritedRows(p: Pool, refs: map<Slot, ChunkId>, o: VersionId, v: VersionId)
    requires (forall s | s in p.refs :: s.version < v) && OtherVersions(refs, v) == p.refs
    requires RowsOf(refs, v) == RowsOf(p.refs, o)
    ensures refs == Inherit(p, o, v)
  {
    forall s: Slot ensures s in refs <==> s in Inherit(p, o, v) {
      if s.version == v {
        assert s == Slot(v, s.idx);
        assert s in refs <==> s.idx in RowsOf(p.refs, o);
        if Slot(o, s.idx) in p.refs { assert Slot(v, Slot(o, s.idx).idx) == s; }
      } else {
        assert s in refs <==> s in OtherVersions(refs, v);
      }
    }
    forall s | s in refs ensures refs[s] == Inherit(p, o, v)[s] {
      if s.version == v {
        assert s == Slot(v, s.idx);
        assert s.idx in RowsOf(refs, v);
      } else {
        assert s in OtherVersions(refs, v);
      }
    }
  }

  lemma NoRows(refs: map<Slot, ChunkId>, more: map<Slot, ChunkId>, v: VersionId)
    requires OtherVersions(more, v) == refs && RowsOf(more, v) == map[] && forall s | s in refs :: s.version != v
    ensures more == refs
  {
    forall s | s in more ensures s.version != v {
      assert s == Slot(s.version, s.idx);
      assert s.idx !in RowsOf(more, v);
    }
    forall s: Slot ensures s in more <==> s in refs {
      assert s in OtherVersions(more, v) <==> s in more && s.version != v;
    }
    forall s | s in more ensures more[s] == refs[s] { assert s in OtherVersions(more, v); }
  }

  /** The pool with the rows mapped under the new version is the pool that inherits them. */
  lemma BeginMaps(p: Pool, q: Pool, o: Option<VersionId>, v: VersionId, rows: map<nat, ChunkId>)
    requires q == p.(refs := q.refs) && OtherVersions(q.refs, v) == p.refs && RowsOf(q.refs, v) == rows
    requires (forall s | s in p.refs :: s.version < v) && rows == if o.Some? then RowsOf(p.refs, o.value) else map[]
    ensures q == if o.Some? then p.(refs := Inherit(p, o.value, v)) else p
  {
    if o.Some? {
      InheritedRows(p, q.refs, o.value, v);
    } else {
      NoRows(p.refs, q.refs, v);
    }
  }

  /** A new version with the slices of the current one is a step. */
  lemma BeginOpens(a: Life, b: Life, inode: InodeId, v: VersionId, size: nat)
    requires inode in a.current && v == a.used && size == OpenedSize(a, inode)
    requires b.versions == a.versions[v := Version(inode, size)] && b.used == v + 1
    requires b.writing == a.writing[v := inode]
    requires b.current == a.current && b.pending == a.pending
    requires b.pool == if OpenedOn(a, inode).Some? then a.pool.(refs := Inherit(a.pool, OpenedOn(a, inode).value, v))
               else a.pool
    ensures Opens(a, b, inode, v)
  {
  }

  lemma BeginIsOpen(a: Life, b: Life, inode: InodeId, v: VersionId, size: nat, rows: map<nat, ChunkId>)
    requires inode in a.current && v == a.used && size == OpenedSize(a, inode)
    requires b.versions == a.versions[v := Version(inode, size)] && b.used == v + 1
    requires b.writing == a.writing[v := inode]
    requires b.current == a.current && b.pending == a.pending && b.pool == a.pool.(refs := b.pool.refs)
    requires OtherVersions(b.pool.refs, v) == a.pool.refs && RowsOf(b.pool.refs, v) == rows
    requires forall s | s in a.pool.refs :: s.version < v
    requires rows == if OpenedOn(a, inode).Some? then RowsOf(a.pool.refs, OpenedOn(a, inode).value) else map[]
    ensures Opens(a, b, inode, v)
  {
    BeginMaps(a.pool, b.pool, OpenedOn(a, inode), v, rows);
    BeginOpens(a, b, inode, v, size);
  }

  /** Opening a file for writing is a step, which starts a new version with the mappings of the
      current one; truncating it at once is a run of steps of that version. */
  method OpenForWriting(db: PoolDb, share: Share, format: Format, inode: InodeId, quota: int, flags: Flags, used: nat,
                        ghost writing: map<VersionId, InodeId>, ghost pending: set<Loc>)
    returns (f: FileHandle, ghost m: Life)
    requires Openable(db, share, format, inode) && flags.write
    modifies db, share`versions, share`used
    ensures fresh(f) && f.Valid()
    ensures f.View() == if flags.truncate then Truncate(old(OpenedView(db, share, format, inode, true)), 0)
                        else old(OpenedView(db, share, format, inode, true))
    ensures Opens(old(LifeOf(share, db, writing, pending)), m, inode, f.newVer)
    ensures RunOn(m, LifeOf(share, db, writing[f.newVer := inode], pending), f.newVer)
  {
    hide Edits, RunOn, Opens, RowsOf, OtherVersions, OpenedView, HoldsSlices, LaidOut, GoodFormat;
    ghost var a := LifeOf(share, db, writing, pending);
    ghost var size, rows := SnapshotSize(share, inode), SnapshotRows(db, share, inode);
    var err;
    ghost var started;
    f, err, started := OpenFile(db, share, format, inode, quota, flags, used);
    ghost var b := LifeOf(share, db, writing[f.newVer := inode], pending);
    m := b.(pool := started);
    BeginIsOpen(a, m, inode, f.newVer, size, rows);
    EditsAreSteps(m, db.State(), f.newVer);
  }

  // ----- handles that write -----

  /** The steps a handle that writes version `v` makes. */
  predicate OwnEvent(e: Event, v: VersionId) {
    match e
    case Open(_, w) => w == v
    case Put(w, _, _, _) => w == v
    case StoreFailed(_, _) => true
    case Unmap(w, _) => w == v
    case Commit(w, _) => w == v
    case Discard(w) => w == v
    case _ => false
  }

  ghost predicate RunOn(a: Life, b: Life, v: VersionId) {
    exists states, events :: RunTo(states, events, a, b) && OwnEvents(events, v)
  }

  ghost predicate OwnEvents(events: seq<Event>, v: VersionId) { forall i | 0 <= i < |events| :: OwnEvent(events[i], v) }

  function EventOf(e: Edit, v: VersionId): Event {
    match e
    case Stores(data, c, idx) => Put(v, idx, data, c)
    case Fails(data, c) => StoreFailed(data, c)
    case Drops(idxs) => Unmap(v, idxs)
  }

  lemma EditIsStep(a: Life, e: Edit, q: Pool, v: VersionId)
    requires v in a.writing && EditBy(a.pool, e, q, v)
    ensures Step(a, EventOf(e, v), a.(pool := q)) && OwnEvent(EventOf(e, v), v)
  {
  }

  /** Whatever a handle's methods do to the pool is a run of steps of its version. */
  lemma EditsAreSteps(a: Life, q: Pool, v: VersionId)
    requires v in a.writing && Edits(a.pool, q, v)
    ensures RunOn(a, a.(pool := q), v)
  {
    hide Step, EditBy;
    var pools, edits :| EditRun(pools, edits, v) && pools[0] == a.pool && pools[|edits|] == q;
    var states := seq(|pools|, i requires 0 <= i < |pools| => a.(pool := pools[i]));
    var events := seq(|edits|, i requires 0 <= i < |edits| => EventOf(edits[i], v));
    forall i | 0 <= i < |events| ensures Step(states[i], events[i], states[i + 1]) && OwnEvent(events[i], v) {
      EditIsStep(states[i], edits[i], pools[i + 1], v);
    }
    assert RunTo(states, events, a, a.(pool := q)) && OwnEvents(events, v);
  }

  lemma RunOnMore(a: Life, b: Life, e: Event, c: Life, v: VersionId)
    requires RunOn(a, b, v) && Step(b, e, c) && OwnEvent(e, v)
    ensures RunOn(a, c, v)
  {
    hide Step, RunTo;
    var states, events :| RunTo(states, events, a, b) && OwnEvents(events, v);
    RunMore(states, events, a, b, e, c);
  }

  /** What closing does to the versions commits or discards the handle's own. */
  lemma CloseIsStep(a: Life, b: Life, v: VersionId, inode: InodeId, size: nat, dirty: bool)
    requires v in a.writing && a.writing[v] == inode
    requires b.versions == if dirty then Sized(a.versions, v, size) else a.versions - {v}
    requires b.current == if dirty then Pointed(a.current, inode, v) else a.current
    requires b.pool == a.pool && b.used == a.used && b.writing == a.writing - {v} && b.pending == a.pending
    ensures Step(a, if dirty then Commit(v, size) else Discard(v), b)
  {
  }

  lemma CloseIsRun(a: Life, b: Life, v: VersionId, inode: InodeId, size: nat, dirty: bool)
    requires v in a.writing && a.writing[v] == inode && Edits(a.pool, b.pool, v)
    requires b.versions == if dirty then Sized(a.versions, v, size) else a.versions - {v}
    requires b.current == if dirty then Pointed(a.current, inode, v) else a.current
    requires b.used == a.used && b.writing == a.writing - {v} && b.pending == a.pending
    ensures RunOn(a, b, v)
  {
    hide Step, Edits, RunOn;
    var m := a.(pool := b.pool);
    EditsAreSteps(a, b.pool, v);
    CloseIsStep(m, b, v, inode, size, dirty);
    RunOnMore(a, m, if dirty then Commit(v, size) else Discard(v), b, v);
  }

  /** Closing is a run that ends in a commit or a discard, or fails before that. */
  method CloseHandle(f: FileHandle, s: Storing, ghost writing: map<VersionId, InodeId>, ghost pending: set<Loc>)
    returns (err: FileError)
    requires Possible(f.db.disks, s)
    requires f.Valid() && !f.closed && f.writable && f.newVer in writing && writing[f.newVer] == f.inode
    modifies f`newChunks, f`cur, f`hasActive, f`activeBuf, f`closed, f.db, f.share`versions, f.share`current
    ensures f.Valid() && f.closed
    ensures err != Fine <==> CanFail(old(f.View())) && !Takes(old(f.db.State()), s)
    ensures var left := if err == Fine then writing - {f.newVer} else writing;
            RunOn(old(LifeOf(f.share, f.db, writing, pending)), LifeOf(f.share, f.db, left, pending), f.newVer)
  {
    hide SlicesOf, Edits, RunOn;
    ghost var a := LifeOf(f.share, f.db, writing, pending);
    err := f.Close(s);
    if err == Fine {
      CloseIsRun(a, LifeOf(f.share, f.db, writing - {f.newVer}, pending), f.newVer, f.inode, f.newSize, f.dirty);
    } else {
      EditsAreSteps(a, f.db.State(), f.newVer);
    }
  }

  // ----- handles that read -----

  /** The slices of a handle that reads are the rows of a version nobody writes. */
  ghost predicate Pinned(a: Life, o: Option<VersionId>, rows: map<nat, ChunkId>) {
    if o.Some? then rows == RowsOf(a.pool.refs, o.value) && o.value < a.used && o.value !in a.writing else rows == map[]
  }

  ghost predicate RemovesNone(states: seq<Life>, events: seq<Event>, o: Option<VersionId>) {
    |states| == |events| + 1 && (o.Some? ==> forall i | 0 <= i < |events| :: !Removes(states[i], events[i], o.value))
  }

  /** A handle that reads knows the same slices, with the same bytes, at the end of any run that
      neither purges nor trims its version. */
  lemma ReaderStays(states: seq<Life>, events: seq<Event>, a: Life, b: Life, o: Option<VersionId>, f: Format,
                    rows: map<nat, ChunkId>, v: VersionId)
    requires RunTo(states, events, a, b) && Safe(a) && Pinned(a, o, rows) && RemovesNone(states, events, o)
    requires SlicesOf(a.pool, f, rows, map[], v, false).Some?
    ensures SlicesOf(b.pool, f, rows, map[], v, false) == SlicesOf(a.pool, f, rows, map[], v, false)
  {
    hide Step;
    RunStaysSafe(states, events, |events|);
    forall k | k in rows ensures SameChunk(a.pool, b.pool, rows[k]) {
      SnapshotStays(states, events, |events|, o.value, k);
      RowIsChunk(a.pool, b.pool, o.value, k);
    }
    SameSlices(a.pool, b.pool, f, rows, v);
  }

  lemma RowIsChunk(p: Pool, q: Pool, o: VersionId, k: nat)
    requires k in RowsOf(p.refs, o) && SameSlice(p, q, Slot(o, k))
    ensures SameChunk(p, q, RowsOf(p.refs, o)[k])
  {
  }

  lemma SameSlices(p: Pool, q: Pool, f: Format, rows: map<nat, ChunkId>, v: VersionId)
    requires SlicesOf(p, f, rows, map[], v, false).Some? && LaidOut(q)
    requires forall k | k in rows :: SameChunk(p, q, rows[k])
    ensures SlicesOf(q, f, rows, map[], v, false) == SlicesOf(p, f, rows, map[], v, false)
  {
    PlainsKept(p, q, f, rows);
    PlainsKept(p, q, f, map[]);
  }

  lemma ReaderBesideEdits(p: Pool, q: Pool, w: VersionId, f: Format, rows: map<nat, ChunkId>, v: VersionId)
    requires SlicesOf(p, f, rows, map[], v, false).Some? && LaidOut(p) && Edits(p, q, w)
    ensures SlicesOf(q, f, rows, map[], v, false) == SlicesOf(p, f, rows, map[], v, false)
  {
    hide Edits, LaidOut;
    EditsKeep(p, q, w);
    forall k | k in rows ensures SameChunk(p, q, rows[k]) {
      assert PlainOf(p.chunks, p.files, f, rows[k]).Some?;
    }
    SameSlices(p, q, f, rows, v);
  }

  /** As an object: a handle that reads stays valid and shows the same, whatever other handles,
      purges of other files and the collector have done since. */
  twostate lemma ReaderStaysValid(r: FileHandle, states: seq<Life>, events: seq<Event>,
                                  writing: map<VersionId, InodeId>, pending: set<Loc>,
                                  writing': map<VersionId, InodeId>, pending': set<Loc>)
    requires old(r.Valid()) && !r.writable && unchanged(r)
    requires RunTo(states, events, old(LifeOf(r.share, r.db, writing, pending)),
               LifeOf(r.share, r.db, writing', pending'))
    requires old(Safe(LifeOf(r.share, r.db, writing, pending)))
    requires old(Pinned(LifeOf(r.share, r.db, writing, pending), r.oldVer, r.oldChunks))
    requires RemovesNone(states, events, r.oldVer)
    ensures r.Valid() && r.View() == old(r.View())
  {
    hide RunTo, Safe, SlicesOf, Pinned, RemovesNone;
    ReaderStays(states, events, old(LifeOf(r.share, r.db, writing, pending)), LifeOf(r.share, r.db, writing', pending'),
                r.oldVer, r.format, r.oldChunks, r.newVer);
  }

  /** One handle writes and another one, opened before, reads: it reads what it would have read. */
  method WriteThenRead(w: FileHandle, r: FileHandle, p: Data, off: int, used: nat, store: nat -> Storing,
                       buf: array<Byte>, at: int)
    returns (written: nat, err: FileError, got: nat, readErr: FileError)
    requires w.Valid() && !w.closed && r.Valid() && !r.writable && r != w && r.db == w.db && LaidOut(r.db.State())
    requires forall k :: Possible(w.db.disks, store(k))
    modifies w`newChunks, w`cur, w`hasActive, w`activeBuf, w`activeIdx, w`newSize, w`dirty, w.db, buf
    ensures w.Valid() && r.Valid() && r.View() == old(r.View())
    ensures Edits(old(w.db.State()), w.db.State(), w.newVer)
    ensures readErr == Fine ==> at >= 0 && got <= buf.Length && forall i | 0 <= i < got ::
              buf[i] == ByteAt(old(r.View()), at + i)
  {
    hide SlicesOf, Edits;
    ghost var a := w.db.State();
    written, err := w.WriteAt(p, off, used, store);
    ReaderBesideEdits(a, w.db.State(), w.newVer, r.format, r.oldChunks, r.newVer);
    got, readErr := r.ReadAt(buf, at);
  }
}
