/** A mounted share: making, deleting, renaming, restoring and purging entries. */
module Trees {
  import opened Wrappers
  import opened Sequences
  import opened Forest
  import opened Subtree
  import opened Namespace

  class Tree {
    const writable: bool
    var inodes: Inodes
    var next: InodeId

    constructor (writable: bool)
      ensures this.writable == writable && inodes == map[] && next == 1 && Sane(inodes, next)
      ensures Acyclic(LinksOf(inodes))
    {
      this.writable, inodes, next := writable, map[], 1;
    }

    // ----- finding -----

    /** Finds exactly what the path resolves to. */
    method Lookup(path: seq<string>) returns (r: LookupResult)
      requires Sane(inodes, next)
      ensures r.Found? ==> Resolves(inodes, path, r.id)
      ensures r.Found? <==> Names(inodes, path)
      ensures r.Failed? ==> path != [] && r.error == Missing(inodes, DirOf(path))
    {
      hide Resolves, Names, Blocked, Along;
      var cur: InodeId := 0;
      AlongAtFirst(inodes, path);
      for i := 0 to |path|
        invariant Along(inodes, path, i, cur) && (i < |path| ==> IsDir(inodes, cur))
      {
        var found := FindChild(cur, path[i]);
        if found.None? {
          AlongNowhere(inodes, path, i, cur);
          return Failed(NotFound);
        }
        AlongNext(inodes, path, i, cur, found.value);
        cur := found.value;
        if i < |path| - 1 && inodes[cur].kind != Dir {
          AlongFile(inodes, path, i + 1, cur);
          return Failed(NotADir);
        }
      }
      AlongToEnd(inodes, path, cur);
      r := Found(cur);
    }

    method FindChild(dir: InodeId, name: string) returns (r: Option<InodeId>)
      requires Sane(inodes, next)
      ensures forall id: InodeId :: IsChild(inodes, id, dir, name) <==> r == Some(id)
    {
      var ids := set id | id in inodes && !inodes[id].deleted && inodes[id].parent == dir && inodes[id].name == name;
      if ids == {} {
        assert forall id :: IsChild(inodes, id, dir, name) ==> id in ids;
        return None;
      }
      var id :| id in ids;
      r := Some(id);
    }

    /** Finds exactly what the path resolves to, if it is a directory. */
    method RequireDir(path: seq<string>) returns (r: LookupResult)
      requires Sane(inodes, next)
      ensures r.Found? ==> Resolves(inodes, path, r.id) && IsDir(inodes, r.id) && IsLive(inodes, r.id)
      ensures r.Found? <==> NamesDir(inodes, path)
      ensures r.Failed? ==> r.error == Missing(inodes, path)
    {
      r := Lookup(path);
      if r.Found? {
        LiveEntry(inodes, path, r.id);
        if r.id != 0 && inodes[r.id].kind != Dir {
          forall d: InodeId ensures !(Resolves(inodes, path, d) && IsDir(inodes, d)) {
            if Resolves(inodes, path, d) { ResolvesOnce(inodes, path, d, r.id); }
          }
          assert path[..|path|] == path;
          r := Failed(NotADir);
        }
      } else {
        BlockedOnTheWay(inodes, path);
      }
    }

    // ----- adding -----

    /** A new entry in a directory that does not have the name. */
    method CreateRow(ghost path: seq<string>, dir: InodeId, name: string, kind: Kind)
      requires Sane(inodes, next) && InDir(inodes, path, dir) && IsLive(inodes, dir) && name == Last(path)
      requires forall id: InodeId :: !IsChild(inodes, id, dir, name)
      modifies this
      ensures Sane(inodes, next) && (old(Acyclic(LinksOf(inodes))) ==> Acyclic(LinksOf(inodes)))
      ensures inodes == old(inodes)[old(next) := Inode(dir, name, kind, false)] && next == old(next) + 1
      ensures Resolves(inodes, path, old(next))
    {
      ghost var was, row := inodes, Inode(dir, name, kind, false);
      AddKeeps(inodes, next, row);
      ghost var more := inodes[next := row];
      forall k: nat ensures SameRow(was, more, Up(LinksOf(was), dir, k)) { }
      ResolvesStill(was, more, DirOf(path), dir);
      inodes := inodes[next := Inode(dir, name, kind, false)];
      next := next + 1;
    }

    /** Makes a directory exactly where the path leads to a free name. */
    method Mkdir(path: seq<string>) returns (r: Outcome, ghost dir: InodeId)
      requires Sane(inodes, next)
      modifies this
      ensures Sane(inodes, next) && (old(Acyclic(LinksOf(inodes))) ==> Acyclic(LinksOf(inodes)))
      ensures r == Done <==> writable && Addable(old(inodes), path)
      ensures r == if !writable then Denied else if path == [] then Exists
                   else if !NamesDir(old(inodes), DirOf(path)) then Missing(old(inodes), DirOf(path))
                   else if CheckName(Last(path)) != Done then CheckName(Last(path))
                   else if Names(old(inodes), path) then Exists else Done
      ensures r == Done ==> InDir(old(inodes), path, dir) && Resolves(inodes, path, old(next))
      ensures r == Done ==>
                inodes == old(inodes)[old(next) := Inode(dir, Last(path), Dir, false)] && next == old(next) + 1
      ensures r != Done ==> inodes == old(inodes) && next == old(next)
    {
      dir := 0;
      if !writable {
        return Denied, 0;
      }
      if path == [] {
        return Exists, 0;
      }
      var p := RequireDir(DirOf(path));
      if p.Failed? {
        return p.error, 0;
      }
      if CheckName(Last(path)) != Done {
        return CheckName(Last(path)), 0;
      }
      var l := Lookup(path);
      if l.Found? {
        return Exists, 0;
      }
      forall id: InodeId ensures !IsChild(inodes, id, p.id, Last(path)) { ChildIff(inodes, path, p.id, id); }
      assert InDir(inodes, path, p.id);
      CreateRow(path, p.id, Last(path), Dir);
      r, dir := Done, p.id;
    }

    /** The entry a handle is opened on, made first when asked for and missing. */
    method OpenEntry(path: seq<string>, write: bool, create: bool, exclusive: bool)
      returns (r: Outcome, id: InodeId, ghost dir: InodeId)
      requires Sane(inodes, next)
      modifies this
      ensures Sane(inodes, next) && (old(Acyclic(LinksOf(inodes))) ==> Acyclic(LinksOf(inodes)))
      ensures r == Done <==> (
        && (write ==> writable)
        && if Addable(old(inodes), path) then create else NamesFile(old(inodes), path) && !(create && exclusive))
      ensures r == if write && !writable then Denied else if path == [] then IsADir
                   else if NamesFile(old(inodes), path) then if create && exclusive then Exists else Done
                   else if Names(old(inodes), path) then IsADir
                   else if Blocked(old(inodes), DirOf(path)) then NotADir
                   else if !create then NotFound
                   else if CheckName(Last(path)) != Done then CheckName(Last(path))
                   else if !NamesDir(old(inodes), DirOf(path)) then NotFound else Done
      ensures r == Done ==> Resolves(inodes, path, id) && id in inodes && inodes[id].kind == File
      ensures r == Done && Addable(old(inodes), path) ==> (
        && id == old(next) && next == id + 1 && InDir(old(inodes), path, dir)
        && inodes == old(inodes)[id := Inode(dir, Last(path), File, false)])
      ensures !(r == Done && Addable(old(inodes), path)) ==> inodes == old(inodes) && next == old(next)
    {
      id, dir := 0, 0;
      if write && !writable {
        return Denied, 0, 0;
      }
      var l := Lookup(path);
      assert path == [] ==> Resolves(inodes, path, 0);
      if l.Found? {
        forall f: InodeId ensures Resolves(inodes, path, f) <==> f == l.id {
          if Resolves(inodes, path, f) { ResolvesOnce(inodes, path, f, l.id); }
        }
        LiveEntry(inodes, path, l.id);
        if l.id == 0 || inodes[l.id].kind == Dir {
          return IsADir, 0, 0;
        }
        if create && exclusive {
          return Exists, 0, 0;
        }
        return Done, l.id, 0;
      }
      if l.error != NotFound {
        BlockedIsNoDir(inodes, DirOf(path));
        r := l.error;
        return;
      }
      if !create {
        return NotFound, 0, 0;
      }
      r, id, dir := CreateFile(path);
    }

    method CreateFile(path: seq<string>) returns (r: Outcome, id: InodeId, ghost dir: InodeId)
      requires Sane(inodes, next) && path != [] && forall f: InodeId :: !Resolves(inodes, path, f)
      modifies this
      ensures Sane(inodes, next) && (old(Acyclic(LinksOf(inodes))) ==> Acyclic(LinksOf(inodes)))
      ensures r == Done <==> Addable(old(inodes), path)
      ensures r == if CheckName(Last(path)) != Done then CheckName(Last(path))
                   else if !NamesDir(old(inodes), DirOf(path)) then Missing(old(inodes), DirOf(path)) else Done
      ensures r == Done ==>
                id == old(next) && next == id + 1 && InDir(old(inodes), path, dir) && Resolves(inodes, path, id)
      ensures r == Done ==> inodes == old(inodes)[id := Inode(dir, Last(path), File, false)]
      ensures r != Done ==> inodes == old(inodes) && next == old(next)
    {
      if CheckName(Last(path)) != Done {
        return CheckName(Last(path)), 0, 0;
      }
      var p := RequireDir(DirOf(path));
      if p.Failed? {
        return p.error, 0, 0;
      }
      forall f: InodeId ensures !IsChild(inodes, f, p.id, Last(path)) { ChildIff(inodes, path, p.id, f); }
      assert InDir(inodes, path, p.id);
      id, dir := next, p.id;
      CreateRow(path, p.id, Last(path), File);
      r := Done;
    }

    // ----- deleting -----

    /** Marks what the path names as deleted, unless it is a directory with something in it. */
    method Remove(path: seq<string>) returns (r: Outcome, ghost id: InodeId)
      requires Sane(inodes, next)
      modifies this`inodes
      ensures Sane(inodes, next) && LinksOf(inodes) == LinksOf(old(inodes))
      ensures r == if !writable then Denied else if path == [] then IsADir
                   else if !Names(old(inodes), path) then Missing(old(inodes), DirOf(path))
                   else if NamesFull(old(inodes), path) then NotEmpty else Done
      ensures r == Done ==>
                Resolves(old(inodes), path, id) && id in old(inodes) &&
                  inodes == old(inodes)[id := old(inodes)[id].(deleted := true)]
      ensures r == Done ==> forall x: InodeId :: !Resolves(inodes, path, x)
      ensures r != Done ==> inodes == old(inodes)
    {
      id := 0;
      if !writable {
        return Denied, 0;
      }
      if path == [] {
        return IsADir, 0;
      }
      var l := Lookup(path);
      if l.Failed? {
        return l.error, 0;
      }
      forall f: InodeId ensures Resolves(inodes, path, f) <==> f == l.id {
        if Resolves(inodes, path, f) { ResolvesOnce(inodes, path, f, l.id); }
      }
      LiveEntry(inodes, path, l.id);
      if inodes[l.id].kind == Dir {
        if HasLiveChild(inodes, l.id) {
          return NotEmpty, 0;
        }
      } else {
        FileHasNoChild(inodes, l.id);
      }
      DeleteKeeps(inodes, next, l.id);
      ghost var was := inodes;
      inodes := Deleted(inodes, l.id);
      r, id := Done, l.id;
      forall x: InodeId ensures !Resolves(inodes, path, x) { DeletedIsGone(was, id, path, x); }
    }

    // ----- renaming -----

    /** Whether `ancestor` is above `node`, looking at most MAX_PATH_DEPTH levels up. */
    method IsDescendant(ancestor: InodeId, node: InodeId) returns (r: bool)
      requires Sane(inodes, next) && ancestor != 0
      ensures r <==> exists k: nat :: 1 <= k <= 256 && Up(LinksOf(inodes), node, k) == ancestor
    {
      ghost var links := LinksOf(inodes);
      var id := node;
      for depth := 0 to MAX_PATH_DEPTH
        invariant id == Up(links, node, depth) && forall k: nat | 1 <= k <= depth :: Up(links, node, k) != ancestor
      {
        UpNext(links, node, depth);
        if id == 0 || id !in inodes || inodes[id].parent == 0 {
          forall k: nat | k >= depth + 1 ensures Up(links, node, k) == 0 {
            UpAdd(links, node, depth + 1, k - depth - 1);
            UpRoot(links, k - depth - 1);
          }
          return false;
        }
        if inodes[id].parent == ancestor {
          return true;
        }
        id := inodes[id].parent;
      }
      r := false;
    }

    /** Whether an entry may take the place of another. */
    method CheckReplace(src: InodeId, dst: InodeId) returns (r: Outcome)
      requires Sane(inodes, next) && src in inodes && dst in inodes
      ensures r == ReplaceOutcome(inodes, src, dst)
      ensures r == Done <==> Replaces(inodes, src, dst)
    {
      if inodes[src].kind == Dir && inodes[dst].kind != Dir {
        return NotADir;
      }
      if inodes[src].kind != Dir && inodes[dst].kind == Dir {
        return IsADir;
      }
      if inodes[dst].kind == Dir {
        return if HasLiveChild(inodes, dst) then NotEmpty else Done;
      }
      FileHasNoChild(inodes, dst);
      r := Done;
    }

    /** Whether the entry would go into or below itself. */
    method CheckBelow(src: InodeId, dir: InodeId) returns (below: bool)
      requires Sane(inodes, next) && src in inodes && IsDir(inodes, dir)
      ensures below <==> Near(LinksOf(inodes), dir, src)
    {
      ghost var links := LinksOf(inodes);
      if inodes[src].kind == Dir && dir != 0 {
        if dir == src {
          assert Up(links, dir, 0) == src;
          return true;
        }
        below := IsDescendant(src, dir);
        assert Up(links, dir, 0) == dir;
        if below {
          ghost var k: nat :| 1 <= k <= MAX_PATH_DEPTH && Up(links, dir, k) == src;
        } else {
          forall k: nat | k <= MAX_PATH_DEPTH ensures Up(links, dir, k) != src { }
        }
      } else {
        forall k: nat ensures Up(links, dir, k) != src {
          UpIsDir(inodes, dir, k);
          if dir == 0 { UpRoot(links, k); }
        }
        below := false;
      }
    }

    /** Renames or moves; what had the new name is deleted. Refused exactly when the entry would
        be found above its new directory, or what has the name cannot be replaced. */
    method Rename(oldPath: seq<string>, newPath: seq<string>)
      returns (r: Outcome, ghost src: InodeId, ghost dir: InodeId)
      requires Sane(inodes, next)
      modifies this`inodes
      ensures Sane(inodes, next)
      ensures r == Done <==> (
        && writable && oldPath != [] && newPath != []
        && (oldPath == newPath || exists s: InodeId, d: InodeId ::
              Resolves(old(inodes), oldPath, s) && InDir(old(inodes), newPath, d)
              && Movable(old(inodes), s, d, Last(newPath))))
      ensures r != Done || oldPath == newPath ==> inodes == old(inodes)
      ensures r == Done && oldPath != newPath ==> (
        && Resolves(old(inodes), oldPath, src) && src in old(inodes) && InDir(old(inodes), newPath, dir)
        && inodes == Renamed(old(inodes), src, dir, Last(newPath)) &&
             RenamedWell(old(inodes), src, dir, newPath, inodes))
      ensures r == Done && oldPath != newPath ==> RowsRenamed(old(inodes), inodes, src, dir, Last(newPath))
      ensures r == Denied <==> !writable
      ensures writable && oldPath != [] && newPath != [] && oldPath != newPath ==>
                if !Names(old(inodes), oldPath) then r == Missing(old(inodes), DirOf(oldPath))
                else if !NamesDir(old(inodes), DirOf(newPath)) then r == Missing(old(inodes), DirOf(newPath))
                else (
                  && Resolves(old(inodes), oldPath, src) && InDir(old(inodes), newPath, dir)
                  && src in old(inodes) && MoveComesTo(old(inodes), src, dir, Last(newPath), r))
      ensures writable && (oldPath == [] || newPath == []) ==> r == BadMove
    {
      hide Resolves, Movable, Renamed, RenamedWell, RowsRenamed, MoveComesTo, Blocked;
      src, dir := 0, 0;
      if !writable {
        return Denied, 0, 0;
      }
      if oldPath == [] || newPath == [] {
        return BadMove, 0, 0;
      }
      if oldPath == newPath {
        return Done, 0, 0;
      }
      var l := Lookup(oldPath);
      if l.Failed? {
        return l.error, 0, 0;
      }
      LiveEntry(inodes, oldPath, l.id);
      var p := RequireDir(DirOf(newPath));
      if p.Failed? {
        return p.error, 0, 0;
      }
      forall s: InodeId, d: InodeId | Resolves(inodes, oldPath, s) && InDir(inodes, newPath, d)
        ensures s == l.id && d == p.id
      {
        ResolvesOnce(inodes, oldPath, s, l.id);
        ResolvesOnce(inodes, DirOf(newPath), d, p.id);
      }
      assert InDir(inodes, newPath, p.id);
      r := MoveTo(l.id, p.id, newPath);
      src, dir := l.id, p.id;
    }

    method MoveTo(src: InodeId, dir: InodeId, newPath: seq<string>) returns (r: Outcome)
      requires Sane(inodes, next) && src in inodes && !inodes[src].deleted && InDir(inodes, newPath, dir)
      requires IsLive(inodes, dir)
      modifies this`inodes
      ensures Sane(inodes, next)
      ensures r == Done <==> Movable(old(inodes), src, dir, Last(newPath))
      ensures r != Denied
      ensures MoveComesTo(old(inodes), src, dir, Last(newPath), r)
      ensures r != Done ==> inodes == old(inodes)
      ensures r == Done ==> inodes == Renamed(old(inodes), src, dir, Last(newPath))
      ensures r == Done ==> RenamedWell(old(inodes), src, dir, newPath, inodes)
      ensures r == Done ==> RowsRenamed(old(inodes), inodes, src, dir, Last(newPath))
    {
      var name := Last(newPath);
      if CheckName(name) != Done {
        return CheckName(name);
      }
      var below := CheckBelow(src, dir);
      if below {
        return BadMove;
      }
      var dst := FindChild(dir, name);
      if dst.Some? && dst.value != src {
        r := CheckReplace(src, dst.value);
        if r != Done {
          return;
        }
      }
      RenamedIsWell(inodes, next, src, dir, newPath);
      RenamedRows(inodes, src, dir, name);
      ApplyRename(src, dir, name, dst);
      r := Done;
    }

    /** The rows are written: what has the name is marked deleted, then the entry takes it. */
    method ApplyRename(src: InodeId, dir: InodeId, name: string, dst: Option<InodeId>)
      requires UniqueNames(inodes) && src in inodes
      requires forall id: InodeId :: IsChild(inodes, id, dir, name) <==> dst == Some(id)
      modifies this`inodes
      ensures inodes == Renamed(old(inodes), src, dir, name)
    {
      if dst == Some(src) {
        return;
      }
      if dst.Some? {
        ClearedIsDeleted(inodes, dir, name, dst.value);
        inodes := Deleted(inodes, dst.value);
      }
      assert inodes == Cleared(old(inodes), dir, name);
      inodes := Moved(inodes, src, dir, name);
    }

    // ----- the trash -----

    function DeletedInode(id: InodeId): (r: Outcome)
      reads this
      ensures r == Done <==> id in inodes && inodes[id].deleted
      ensures r == NotFound <==> id !in inodes
      ensures r == NotDeleted <==> id in inodes && !inodes[id].deleted
    {
      if id !in inodes then NotFound else if !inodes[id].deleted then NotDeleted else Done
    }

    /** Puts a deleted entry back where it was, or into the root when its directory is gone. */
    method Restore(id: InodeId) returns (r: Outcome, ghost dir: InodeId)
      requires Sane(inodes, next)
      modifies this`inodes
      ensures Sane(inodes, next) && (old(Acyclic(LinksOf(inodes))) ==> Acyclic(LinksOf(inodes)))
      ensures id in old(inodes) ==>
                var p := old(inodes)[id].parent;
                dir == if p in old(inodes) && !old(inodes)[p].deleted && old(inodes)[p].kind == Dir then p else 0
      ensures r == if !writable then Denied else if id !in old(inodes) then NotFound
                   else if !old(inodes)[id].deleted then NotDeleted
                   else if exists x: InodeId :: IsChild(old(inodes), x, dir, old(inodes)[id].name) then Exists
                   else Done
      ensures r == Done ==> inodes == old(inodes)[id := old(inodes)[id].(parent := dir, deleted := false)]
      ensures r != Done ==> inodes == old(inodes)
    {
      dir := if id in inodes && IsDir(inodes, inodes[id].parent) && IsLive(inodes, inodes[id].parent)
        then inodes[id].parent else 0;
      if !writable {
        return Denied, dir;
      }
      if DeletedInode(id) != Done {
        return DeletedInode(id), dir;
      }
      var home := 0;
      var p := inodes[id].parent;
      if p != 0 {
        if p in inodes && !inodes[p].deleted && inodes[p].kind == Dir {
          home := p;
        }
      }
      var taken := FindChild(home, inodes[id].name);
      if taken.Some? {
        assert IsChild(inodes, taken.value, home, inodes[id].name);
        return Exists, dir;
      }
      assert forall x: InodeId :: !IsChild(inodes, x, home, inodes[id].name);
      RestoreKeeps(inodes, next, id, home);
      inodes := inodes[id := inodes[id].(parent := home, deleted := false)];
      r := Done;
    }

    /** What was deleted and is restored is back: every row is as before, so the path names the
        entry again. */
    method RemoveThenRestore(path: seq<string>) returns (removed: Outcome, r: Outcome)
      requires Sane(inodes, next)
      modifies this`inodes
      ensures removed == Done <==> writable && path != [] && Names(old(inodes), path) && !NamesFull(old(inodes), path)
      ensures removed == Done ==> r == Done
      ensures inodes == old(inodes)
    {
      var l := Lookup(path);
      ghost var id, dir;
      removed, id := Remove(path);
      if removed != Done {
        return removed, removed;
      }
      ResolvesOnce(old(inodes), path, id, l.id);
      ghost var gone := inodes;
      r, dir := Restore(l.id);
      WasInLiveDirectory(old(inodes), next, id);
      DeletedThenRestored(old(inodes), id);
    }

    /** Removes a deleted entry with everything below it, which is all deleted. */
    method Purge(id: InodeId) returns (r: Outcome, gone: seq<InodeId>)
      requires Sane(inodes, next)
      modifies this`inodes
      ensures Sane(inodes, next) && (old(Acyclic(LinksOf(inodes))) ==> Acyclic(LinksOf(inodes)))
      ensures r == Done <==> (
        && writable && id in old(inodes) && old(inodes)[id].deleted
        && !OnCycle(LinksOf(old(inodes)), id) && |Descendants(LinksOf(old(inodes)), id)| <= 100_000)
      ensures r != Done ==>
                r == if !writable then Denied else if id !in old(inodes) then NotFound
                     else if !old(inodes)[id].deleted then NotDeleted else TooMany
      ensures r == Done ==> inodes == old(inodes) - Descendants(LinksOf(old(inodes)), id) && id !in inodes
      ensures r == Done ==> Distinct(gone) && Members(gone) == Descendants(LinksOf(old(inodes)), id)
      ensures KeepsLive(old(inodes), inodes)
      ensures r != Done ==> inodes == old(inodes) && gone == []
    {
      gone := [];
      if !writable {
        return Denied, gone;
      }
      if DeletedInode(id) != Done {
        return DeletedInode(id), gone;
      }
      ghost var links := LinksOf(inodes);
      var found := CollectSubtree(map x | x in inodes :: inodes[x].parent, id);
      if found.None? {
        return TooMany, gone;
      }
      PurgeKeeps(inodes, next, id);
      assert Up(links, id, 0) == id;
      gone := found.value;
      inodes := inodes - Members(gone);
      r := Done;
    }

    /** Empties the trash: when it completes, exactly the live entries are left. It counts the
        entries it purged one by one, `tops`; the others went with one of those. It stops only at
        an entry with too much below it, or one on a cycle. */
    method PurgeAll() returns (r: Outcome, n: nat, ghost tops: seq<InodeId>)
      requires Sane(inodes, next)
      modifies this`inodes
      ensures Sane(inodes, next) && (old(Acyclic(LinksOf(inodes))) ==> Acyclic(LinksOf(inodes)))
      ensures KeepsLive(old(inodes), inodes)
      ensures r == Denied <==> !writable
      ensures r == Done || r == Denied || r == TooMany
      ensures r == Done ==> forall x | x in inodes :: x in old(inodes) && !old(inodes)[x].deleted
      ensures r == TooMany ==> exists x :: x in old(inodes) && old(inodes)[x].deleted && Unpurgeable(old(inodes), x)
      ensures (exists x :: x in old(inodes) && old(inodes)[x].deleted && OnCycle(LinksOf(old(inodes)), x)) ==> r != Done
      ensures n == |tops| && Purged(old(inodes), inodes, tops)
    {
      n, tops := 0, [];
      NothingPurged(inodes);
      if !writable {
        return Denied, 0, [];
      }
      var left := set id | id in inodes && inodes[id].deleted;
      while left != {}
        invariant Sane(inodes, next) && (old(Acyclic(LinksOf(inodes))) ==> Acyclic(LinksOf(inodes)))
        invariant Emptying(old(inodes), inodes, left) && left <= old(inodes).Keys
        invariant forall x | x in left :: old(inodes)[x].deleted
        invariant n == |tops| && Purged(old(inodes), inodes, tops)
        decreases left
      {
        hide Purged, Unpurgeable, Emptying;
        var id :| id in left;
        ghost var was := inodes;
        var gone;
        r, gone := Purge(id);
        if r != Done && r != NotFound {
          StillUnpurgeable(old(inodes), was, tops, id);
          return;
        }
        EmptiesMore(old(inodes), was, inodes, left, id);
        if r == Done {
          PurgedMore(old(inodes), was, inodes, tops, id);
          tops := tops + [id];
        }
        left := left - {id};
        n := if r == Done then n + 1 else n;
      }
      CyclesStay(old(inodes), inodes, tops);
      r := Done;
    }
  }
}
