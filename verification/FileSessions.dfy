/** Opening, closing and opening again: what one handle commits is what the next one shows. */
module FileSessions {
  import opened Bytes
  import opened Wrappers
  import opened Tables
  import opened Database
  import opened Layout
  import opened ChunkStore
  import opened SliceView
  import opened PoolEdits
  import opened FileHandles
  import opened FailedStores
  import FlatArray

  /** A pool that stores nothing. */
  const NO_STORE: Storing := Storing(false, [], [], _ => [], Broken(None))

  datatype Flags = Flags(read: bool, write: bool, truncate: bool, append: bool)

  /** What opening a file needs of the tables. */
  ghost predicate Openable(db: PoolDb, share: Share, format: Format, inode: InodeId)
    reads db, share
  {
    && GoodFormat(format) && LaidOut(db.State()) && inode in share.current && SnapshotHeld(db, share, format, inode)
    && forall s | s in db.refs :: s.version < share.used
  }

  /** The tables before and after a handle on the file has started version `v`: it has the size
      and the mappings of the current one. */
  twostate predicate Starts(db: PoolDb, share: Share, inode: InodeId, v: VersionId, started: Pool)
    requires old(inode in share.current)
    reads share
  {
    && v == old(share.used) && share.used == v + 1
    && share.versions == old(share.versions)[v := Version(inode, old(SnapshotSize(share, inode)))]
    && started == old(db.State()).(refs := started.refs) && OtherVersions(started.refs, v) == old(db.refs)
    && RowsOf(started.refs, v) == old(SnapshotRows(db, share, inode))
  }

  /** A handle with the snapshot loaded and, for writing, its version started. */
  method StartHandle(db: PoolDb, share: Share, format: Format, inode: InodeId, quota: int, flags: Flags)
    returns (f: FileHandle)
    requires Openable(db, share, format, inode)
    modifies db`refs, share`versions, share`used
    ensures fresh(f) && f.Valid() && !f.closed && f.db == db && f.share == share && f.inode == inode
    ensures f.format == format && f.quota == quota && f.append == flags.append && f.offset == 0 && !f.dirty
    ensures f.writable == flags.write && f.readable == (flags.read || !flags.write)
    ensures f.View() == old(OpenedView(db, share, format, inode, flags.write))
    ensures !flags.write ==> db.refs == old(db.refs)
    ensures flags.write ==> Starts(db, share, inode, f.newVer, db.State())
    ensures !flags.write ==> share.versions == old(share.versions) && share.used == old(share.used)
  {
    hide SlicesOf, HoldsSlices, LaidOut, GoodFormat, SnapshotRows, OpenedView, RowsOf, OpenVersion, OtherVersions;
    f := new FileHandle(db, share, format, inode, quota, flags.read, flags.write, flags.append);
    f.Begin();
  }

  lemma ViewHasSize(db: PoolDb, share: Share, format: Format, inode: InodeId, write: bool)
    requires SnapshotHeld(db, share, format, inode)
    ensures OpenedView(db, share, format, inode, write).size == SnapshotSize(share, inode)
  {
  }

  /** Opens a file that exists. Truncating at once needs a handle for writing, and never fails:
      it stores nothing. A handle for writing starts a version and then edits it. */
  method OpenFile(db: PoolDb, share: Share, format: Format, inode: InodeId, quota: int, flags: Flags, used: nat)
    returns (f: FileHandle, err: FileError, ghost started: Pool)
    requires Openable(db, share, format, inode)
    modifies db, share`versions, share`used
    ensures fresh(f) && f.Valid() && !f.closed && f.db == db && f.share == share && f.inode == inode
    ensures f.format == format && f.quota == quota && f.append == flags.append && f.offset == 0 && err == Fine
    ensures f.dirty <==> flags.write && flags.truncate && old(SnapshotSize(share, inode)) > 0
    ensures f.writable == flags.write && f.readable == (flags.read || !flags.write)
    ensures f.View() == if flags.write && flags.truncate
              then Truncate(old(OpenedView(db, share, format, inode, true)), 0)
                        else old(OpenedView(db, share, format, inode, flags.write))
    ensures !flags.write ==> db.State() == old(db.State())
    ensures flags.write ==> Starts(db, share, inode, f.newVer, started) && Edits(started, db.State(), f.newVer)
    ensures !flags.write ==> share.versions == old(share.versions) && share.used == old(share.used)
  {
    hide SlicesOf, HoldsSlices, LaidOut, GoodFormat, SnapshotRows, OpenedView, Edits, RowsOf, OtherVersions, Starts;
    ViewHasSize(db, share, format, inode, flags.write);
    f := StartHandle(db, share, format, inode, quota, flags);
    started := db.State();
    EditsNone(started, f.newVer);
    err := Fine;
    if flags.write && flags.truncate {
      err := f.TruncateTo(0, used, NO_STORE);
    }
  }

  lemma StillBelow(before: map<Slot, ChunkId>, after: map<Slot, ChunkId>, v: VersionId, used: nat)
    requires OtherVersions(after, v) == OtherVersions(before, v) && v < used
    requires forall s | s in before :: s.version < used
    ensures forall s | s in after :: s.version < used
  {
    forall s | s in after ensures s.version < used {
      if s.version != v { assert s in OtherVersions(after, v); }
    }
  }

  lemma CommittedIsOpenable(f: FileHandle)
    requires f.Valid() && f.Committed() && forall s | s in f.db.refs :: s.version < f.share.used
    ensures Openable(f.db, f.share, f.format, f.inode)
    ensures forall write :: OpenedView(f.db, f.share, f.format, f.inode, write) ==
                            SliceView.View(f.format.slice, f.newSize, f.cur, if write then f.cur else map[], None)
  {
  }

  /** Closing a handle that was written to and opening the file again shows what the handle
      showed, as far as the slices of the version it wrote go. */
  method CloseAndReopen(f: FileHandle, flags: Flags, used: nat, s: Storing) returns (r: FileHandle, err: FileError)
    requires f.Valid() && !f.closed && f.writable && f.dirty && !flags.truncate
    requires f.newVer in f.share.versions && f.inode in f.share.current
    requires (forall s | s in f.db.refs :: s.version < f.share.used) && Possible(f.db.disks, s)
    modifies f, f.db, f.share
    ensures err != Fine <==> CanFail(old(f.View())) && !Takes(old(f.db.State()), s)
    ensures err == Fine ==> r.Valid() && !r.closed && r.View() == FlatArray.Reopened(Flush(old(f.View())), flags.write)
  {
    r := f;
    err := f.Close(s);
    if err != Fine {
      return;
    }
    EditsKeep(old(f.db.State()), f.db.State(), f.newVer);
    StillBelow(old(f.db.refs), f.db.refs, f.newVer, f.share.used);
    CommittedIsOpenable(f);
    ghost var started;
    r, err, started := OpenFile(f.db, f.share, f.format, f.inode, f.quota, flags, used);
  }

  /** One handle writes and reads where it wrote: it reads the bytes back exactly when no old
      slice shows through there. */
  method WriteAndReadBack(f: FileHandle, p: Data, off: int, used: nat, store: nat -> Storing, buf: array<Byte>)
    returns (err: FileError, got: nat, readErr: FileError)
    requires f.Valid() && !f.closed && f.readable && |p| == buf.Length > 0
    requires forall k :: Possible(f.db.disks, store(k))
    modifies f`newChunks, f`cur, f`hasActive, f`activeBuf, f`activeIdx, f`newSize, f`dirty, f.db, buf
    ensures f.Valid()
    ensures err == Fine ==> off >= 0 && readErr == Fine && got == |p| && WellFormed(old(f.View()))
    ensures err == Fine ==>
              (buf[..] == p <==> FlatArray.NoneShows(old(f.View()), p, off))
    ensures err == Fine && !FlatArray.WriteHazard(old(f.View()), p, off) ==> buf[..] == p
  {
    hide SlicesOf, Edits, FlatArray.NoneShows, FlatArray.WriteHazard, Possible;
    ghost var v := f.View();
    f.ViewIsWellFormed();
    ghost var written;
    written, err := f.WriteAt(p, off, used, store);
    got, readErr := f.ReadAt(buf, off);
    if err == Fine {
      FlatArray.ReadsBackIff(v, p, off);
      assert forall i | 0 <= i < |p| :: buf[..][i] == ByteAt(Write(v, p, off), off + i);
    }
  }

  /** Two writes of a handle that appends put one behind the other at the end of the file. */
  method AppendTwice(f: FileHandle, p: Data, q: Data, used: nat, store: nat -> Storing, ghost c: Data)
    returns (err: FileError)
    requires f.Valid() && !f.closed && f.append && f.offset >= 0 && FlatArray.Represents(f.View(), c)
    requires forall k :: Possible(f.db.disks, store(k))
    modifies f`newChunks, f`cur, f`hasActive, f`activeBuf, f`activeIdx, f`newSize, f`dirty, f`offset, f.db
    ensures f.Valid()
    ensures err == Fine && !FlatArray.Hazard(old(f.View()), FlatArray.WriteOp(p, |c|)) &&
              !FlatArray.Hazard(Write(old(f.View()), p, |c|), FlatArray.WriteOp(q, |c + p|)) ==>
              FlatArray.Represents(f.View(), c + p + q)
  {
    hide SlicesOf, Edits, FlatArray.Hazard, FlatArray.Represents, Possible;
    var n;
    ghost var a := f.db.State();
    ghost var v := f.View();
    f.ViewIsWellFormed();
    Sizes(v, c);
    n, err := f.Write(p, used, store);
    SameDisks(a, f.db.State(), f.newVer);
    if err != Fine {
      return;
    }
    ghost var w := f.View();
    f.ViewIsWellFormed();
    n, err := f.Write(q, used, store);
    if !FlatArray.Hazard(v, FlatArray.WriteOp(p, |c|)) {
      AppendOnce(v, w, c, p);
      Sizes(w, c + p);
      if err == Fine && !FlatArray.Hazard(w, FlatArray.WriteOp(q, |c + p|)) { AppendOnce(w, f.View(), c + p, q); }
    }
  }

  lemma Sizes(v: View, c: Data)
    requires v.slice > 0 && FlatArray.Represents(v, c)
    ensures v.size == |c|
  {
  }

  lemma AppendOnce(v: View, w: View, c: Data, p: Data)
    requires WellFormed(v) && FlatArray.Represents(v, c) && w == Write(v, p, |c|)
    requires !FlatArray.Hazard(v, FlatArray.WriteOp(p, |c|))
    ensures FlatArray.Represents(w, c + p)
  {
    FlatArray.SafeStep(v, c, FlatArray.WriteOp(p, |c|));
    FlatArray.AppendIsConcat(c, p);
  }
}
