/** The rows of a share's directory tree: entries that name their parents. Deleting only marks
    an entry; purging removes it with everything below it. */
module Namespace {
  import opened Forest
  import opened Subtree

  type InodeId = nat

  datatype Kind = File | Dir

  /** A row of the table; parent 0 is the root of the share, which has no row. */
  datatype Inode = Inode(parent: InodeId, name: string, kind: Kind, deleted: bool)

  type Inodes = map<InodeId, Inode>

  datatype Outcome =
    | Done | Denied | NotFound | Exists | NotADir | IsADir | NotEmpty | BadName | NameTooLong | BadMove | NotDeleted
      | TooMany

  const MAX_PATH_DEPTH: nat := 256
  const MAX_NAME_LEN: nat := 255

  function LinksOf(inodes: Inodes): Links { map id | id in inodes :: inodes[id].parent }

  predicate IsDir(inodes: Inodes, id: InodeId) { id == 0 || (id in inodes && inodes[id].kind == Dir) }

  predicate IsLive(inodes: Inodes, id: InodeId) { id == 0 || (id in inodes && !inodes[id].deleted) }

  predicate IsChild(inodes: Inodes, id: InodeId, dir: InodeId, name: string) {
    id in inodes && !inodes[id].deleted && inodes[id].parent == dir && inodes[id].name == name
  }

  // ----- what every operation keeps -----

  ghost predicate ParentsKnown(inodes: Inodes) {
    0 !in inodes && forall id | id in inodes :: IsDir(inodes, inodes[id].parent)
  }

  /** Every live entry is in a live directory. */
  ghost predicate LiveParents(inodes: Inodes) {
    forall id | id in inodes && !inodes[id].deleted :: IsLive(inodes, inodes[id].parent)
  }

  /** No two live entries of a directory have the same name. */
  ghost predicate UniqueNames(inodes: Inodes) {
    forall a, b | a in inodes && b in inodes && a != b && !inodes[a].deleted && !inodes[b].deleted ::
      inodes[a].parent != inodes[b].parent || inodes[a].name != inodes[b].name
  }

  ghost predicate Sane(inodes: Inodes, next: InodeId) {
    && ParentsKnown(inodes) && LiveParents(inodes) && UniqueNames(inodes)
    && next > 0 && forall id | id in inodes :: id < next
  }

  predicate HasLiveChild(inodes: Inodes, id: InodeId) {
    exists c | c in inodes :: !inodes[c].deleted && inodes[c].parent == id
  }

  function Deleted(inodes: Inodes, id: InodeId): Inodes
    requires id in inodes
  {
    inodes[id := inodes[id].(deleted := true)]
  }

  /** The entry of that name in the directory, if there is one, is deleted. */
  function Cleared(inodes: Inodes, dir: InodeId, name: string): Inodes {
    map x | x in inodes :: if IsChild(inodes, x, dir, name) then inodes[x].(deleted := true) else inodes[x]
  }

  function Moved(inodes: Inodes, id: InodeId, dir: InodeId, name: string): Inodes
    requires id in inodes
  {
    inodes[id := inodes[id].(parent := dir, name := name)]
  }

  /** What a rename makes of the rows: the entry takes the place of the one that had the name. */
  function Renamed(inodes: Inodes, src: InodeId, dir: InodeId, name: string): Inodes
    requires src in inodes
  {
    if IsChild(inodes, src, dir, name) then inodes else Moved(Cleared(inodes, dir, name), src, dir, name)
  }

  predicate Replaces(inodes: Inodes, src: InodeId, dst: InodeId)
    requires src in inodes && dst in inodes
  {
    inodes[src].kind == inodes[dst].kind && !HasLiveChild(inodes, dst)
  }

  /** `src` is met on the first steps up from `dir`, as far as the code looks. */
  ghost predicate Near(links: Links, dir: InodeId, src: InodeId) {
    exists k: nat :: k <= 256 && Up(links, dir, k) == src
  }

  /** `src` is met only further up. */
  ghost predicate Deep(links: Links, dir: InodeId, src: InodeId) { Below(links, dir, src) && !Near(links, dir, src) }

  ghost predicate Movable(inodes: Inodes, src: InodeId, dir: InodeId, name: string) {
    && src in inodes && CheckName(name) == Done && !Near(LinksOf(inodes), dir, src)
    && forall dst | IsChild(inodes, dst, dir, name) :: dst == src || Replaces(inodes, src, dst)
  }

  /** Whether an entry may take the place of another, or why not. */
  ghost function ReplaceOutcome(inodes: Inodes, src: InodeId, dst: InodeId): Outcome
    requires src in inodes && dst in inodes
  {
    if inodes[src].kind == Dir && inodes[dst].kind == File then NotADir
    else if inodes[src].kind == File && inodes[dst].kind == Dir then IsADir
    else if exists c :: c in inodes && !inodes[c].deleted && inodes[c].parent == dst then NotEmpty
    else Done
  }

  /** What a move comes to: the first of the reasons there are against it. */
  ghost predicate MoveComesTo(inodes: Inodes, src: InodeId, dir: InodeId, name: string, r: Outcome)
    requires src in inodes
  {
    if CheckName(name) != Done then r == CheckName(name)
    else if Near(LinksOf(inodes), dir, src) then r == BadMove
    else
      && (forall dst | IsChild(inodes, dst, dir, name) && dst != src :: r == ReplaceOutcome(inodes, src, dst))
      && ((forall dst | IsChild(inodes, dst, dir, name) :: dst == src) ==> r == Done)
  }

  /** An entry that is live is in a live directory. */
  lemma WasInLiveDirectory(inodes: Inodes, next: InodeId, id: InodeId)
    requires Sane(inodes, next) && id in inodes && !inodes[id].deleted
    ensures inodes[id].parent == 0 ||
              (inodes[id].parent in inodes && !inodes[inodes[id].parent].deleted &&
                 inodes[inodes[id].parent].kind == Dir)
    ensures forall x | x in inodes && x != id && !inodes[x].deleted ::
              inodes[x].parent != inodes[id].parent || inodes[x].name != inodes[id].name
  {
  }

  /** What a rename makes of each row: the entry has the name in the directory, and what had it is
      deleted. */
  ghost predicate RowsRenamed(inodes: Inodes, more: Inodes, src: InodeId, dir: InodeId, name: string) {
    && src in inodes && more.Keys == inodes.Keys && more[src] == inodes[src].(parent := dir, name := name)
    && forall x | x in inodes && x != src ::
         more[x] == inodes[x].(deleted := inodes[x].deleted || (inodes[x].parent == dir && inodes[x].name == name))
  }

  lemma RenamedRows(inodes: Inodes, src: InodeId, dir: InodeId, name: string)
    requires UniqueNames(inodes) && src in inodes && !inodes[src].deleted
    ensures RowsRenamed(inodes, Renamed(inodes, src, dir, name), src, dir, name)
  {
  }

  // ----- what the changes keep -----

  lemma AddKeeps(inodes: Inodes, next: InodeId, row: Inode)
    requires Sane(inodes, next) && IsDir(inodes, row.parent) && IsLive(inodes, row.parent)
    requires forall x: InodeId :: !IsChild(inodes, x, row.parent, row.name)
    ensures Sane(inodes[next := row], next + 1)
    ensures Acyclic(LinksOf(inodes)) ==> Acyclic(LinksOf(inodes[next := row]))
  {
    AddKeepsNames(inodes, next, row);
    var more := inodes[next := row];
    assert LinksOf(more) == LinksOf(inodes)[next := row.parent];
    if Acyclic(LinksOf(inodes)) { LeafKeeps(LinksOf(inodes), next, row.parent); }
  }

  lemma AddKeepsNames(inodes: Inodes, next: InodeId, row: Inode)
    requires UniqueNames(inodes) && next !in inodes && forall x: InodeId :: !IsChild(inodes, x, row.parent, row.name)
    ensures UniqueNames(inodes[next := row])
  {
    var more := inodes[next := row];
    forall a, b | a in more && b in more && a != b && !more[a].deleted && !more[b].deleted
      ensures more[a].parent != more[b].parent || more[a].name != more[b].name
    {
      if a == next { assert !IsChild(inodes, b, row.parent, row.name); }
      if b == next { assert !IsChild(inodes, a, row.parent, row.name); }
    }
  }

  /** Deleting an entry without live children strands nothing. */
  lemma DeleteKeeps(inodes: Inodes, next: InodeId, id: InodeId)
    requires Sane(inodes, next) && id in inodes && !HasLiveChild(inodes, id)
    ensures Sane(Deleted(inodes, id), next) && LinksOf(Deleted(inodes, id)) == LinksOf(inodes)
  {
  }

  lemma ClearedIsDeleted(inodes: Inodes, dir: InodeId, name: string, x: InodeId)
    requires UniqueNames(inodes) && IsChild(inodes, x, dir, name)
    ensures Cleared(inodes, dir, name) == Deleted(inodes, x)
  {
  }

  lemma ClearKeeps(inodes: Inodes, next: InodeId, dir: InodeId, name: string)
    requires Sane(inodes, next) && IsDir(inodes, dir) && IsLive(inodes, dir)
    requires forall x | IsChild(inodes, x, dir, name) :: !HasLiveChild(inodes, x)
    ensures Sane(Cleared(inodes, dir, name), next) && LinksOf(Cleared(inodes, dir, name)) == LinksOf(inodes)
    ensures IsDir(Cleared(inodes, dir, name), dir) && IsLive(Cleared(inodes, dir, name), dir)
    ensures forall x: InodeId :: !IsChild(Cleared(inodes, dir, name), x, dir, name)
  {
    if x: InodeId :| IsChild(inodes, x, dir, name) {
      DeleteKeeps(inodes, next, x);
      ClearedIsDeleted(inodes, dir, name, x);
    } else {
      assert Cleared(inodes, dir, name) == inodes;
    }
  }

  /** Files have no children at all. */
  lemma FileHasNoChild(inodes: Inodes, id: InodeId)
    requires ParentsKnown(inodes) && id in inodes && inodes[id].kind == File
    ensures !HasLiveChild(inodes, id)
  {
  }

  /** A live entry can go into any live directory that does not have its name. */
  lemma MoveKeeps(inodes: Inodes, next: InodeId, id: InodeId, dir: InodeId, name: string)
    requires Sane(inodes, next) && id in inodes && IsDir(inodes, dir) && IsLive(inodes, dir)
    requires forall x: InodeId :: !IsChild(inodes, x, dir, name)
    ensures Sane(Moved(inodes, id, dir, name), next)
    ensures LinksOf(Moved(inodes, id, dir, name)) == LinksOf(inodes)[id := dir]
  {
    var more := Moved(inodes, id, dir, name);
    forall a, b | a in more && b in more && a != b && !more[a].deleted && !more[b].deleted
      ensures more[a].parent != more[b].parent || more[a].name != more[b].name
    {
      if a == id { assert !IsChild(inodes, b, dir, name); }
      if b == id { assert !IsChild(inodes, a, dir, name); }
    }
  }

  /** A rename keeps names, live parents and kinds; it keeps the forest exactly when the entry
      does not go below itself further down than the code looks. */
  lemma RenameKeeps(inodes: Inodes, next: InodeId, src: InodeId, dir: InodeId, name: string)
    requires Sane(inodes, next) && IsDir(inodes, dir) && IsLive(inodes, dir) && Movable(inodes, src, dir, name)
    requires !inodes[src].deleted
    ensures Sane(Renamed(inodes, src, dir, name), next)
    ensures Acyclic(LinksOf(inodes)) ==> (Acyclic(LinksOf(Renamed(inodes, src, dir, name))) <==>
              !Deep(LinksOf(inodes), dir, src))
  {
    if IsChild(inodes, src, dir, name) {
      var links := LinksOf(inodes);
      if Acyclic(links) && Below(links, dir, src) {
        var k: nat :| Up(links, dir, k) == src;
        assert Up(links, src, k + 1) == Up(links, dir, k);
        NotOwnAncestor(links, src, k + 1);
      }
    } else {
      ClearKeeps(inodes, next, dir, name);
      MoveKeeps(Cleared(inodes, dir, name), next, src, dir, name);
      if Acyclic(LinksOf(inodes)) { MoveIff(LinksOf(inodes), src, dir); }
    }
  }

  /** While no chain of parents is longer than the code looks, every rename keeps the forest. */
  lemma ShallowNeverDeep(links: Links, dir: InodeId, src: InodeId)
    requires 0 !in links && src != 0 && Up(links, dir, MAX_PATH_DEPTH) == 0
    ensures !Deep(links, dir, src)
  {
    if Below(links, dir, src) {
      var k: nat :| Up(links, dir, k) == src;
      if k > MAX_PATH_DEPTH {
        UpAdd(links, dir, MAX_PATH_DEPTH, k - MAX_PATH_DEPTH);
        UpRoot(links, k - MAX_PATH_DEPTH);
      }
    }
  }

  /** `n` nested directories: 1 in the root, 2 in 1, and so on. */
  function Nested(n: nat): Inodes { if n == 0 then map[] else Nested(n - 1)[n := Inode(n - 1, "d", Dir, false)] }

  lemma {:induction false} NestedRows(n: nat)
    ensures Sane(Nested(n), n + 1) && Acyclic(LinksOf(Nested(n)))
    ensures forall id :: id in Nested(n) <==> 1 <= id <= n
    ensures forall id | id in Nested(n) :: Nested(n)[id] == Inode(id - 1, "d", Dir, false)
  {
    if n > 0 {
      NestedRows(n - 1);
      AddKeeps(Nested(n - 1), n, Inode(n - 1, "d", Dir, false));
    }
  }

  lemma ParentNested(n: nat, id: nat)
    requires 1 <= id <= n
    ensures id in LinksOf(Nested(n)) && LinksOf(Nested(n))[id] == id - 1
  {
    NestedRows(n);
  }

  lemma {:induction false} UpNested(n: nat, id: nat, k: nat)
    requires k <= id <= n
    ensures Up(LinksOf(Nested(n)), id, k) == id - k
    decreases k
  {
    hide Nested, LinksOf;
    if k > 0 {
      ParentNested(n, id);
      UpNested(n, id - 1, k - 1);
    }
  }

  lemma NestedIsDeep(n: nat)
    requires n > MAX_PATH_DEPTH + 1
    ensures Deep(LinksOf(Nested(n)), n, 1)
  {
    ghost var links := LinksOf(Nested(n));
    forall k: nat | k <= MAX_PATH_DEPTH ensures Up(links, n, k) != 1 { UpNested(n, n, k); }
    UpNested(n, n, n - 1);
    assert Up(links, n, n - 1) == 1;
  }

  /** From 258 nested directories on, the outermost can be moved into the innermost: it becomes
      its own ancestor. */
  lemma DeepRenameMakesCycle(n: nat, name: string)
    requires n > MAX_PATH_DEPTH + 1 && CheckName(name) == Done && name != "d"
    ensures Sane(Nested(n), n + 1) && Acyclic(LinksOf(Nested(n))) && IsDir(Nested(n), n) && IsLive(Nested(n), n)
    ensures Movable(Nested(n), 1, n, name) && !Acyclic(LinksOf(Renamed(Nested(n), 1, n, name)))
  {
    NestedRows(n);
    NestedIsDeep(n);
    RenameKeeps(Nested(n), n + 1, 1, n, name);
  }

  /** A deleted entry comes back under a live directory. */
  lemma RestoreKeeps(inodes: Inodes, next: InodeId, id: InodeId, dir: InodeId)
    requires Sane(inodes, next) && id in inodes && inodes[id].deleted && IsDir(inodes, dir) && IsLive(inodes, dir)
    requires forall x: InodeId :: !IsChild(inodes, x, dir, inodes[id].name)
    requires dir == inodes[id].parent || dir == 0
    ensures Sane(inodes[id := inodes[id].(parent := dir, deleted := false)], next)
    ensures Acyclic(LinksOf(inodes)) ==> Acyclic(LinksOf(inodes[id := inodes[id].(parent := dir, deleted := false)]))
  {
    var more := inodes[id := inodes[id].(parent := dir, deleted := false)];
    var name := inodes[id].name;
    forall a, b | a in more && b in more && a != b && !more[a].deleted && !more[b].deleted
      ensures more[a].parent != more[b].parent || more[a].name != more[b].name
    {
      if a == id { assert !IsChild(inodes, b, dir, name); }
      if b == id { assert !IsChild(inodes, a, dir, name); }
    }
    assert LinksOf(more) == LinksOf(inodes)[id := dir];
    if Acyclic(LinksOf(inodes)) {
      if dir == 0 {
        UpStaysRoot(LinksOf(inodes), id);
        MoveIff(LinksOf(inodes), id, 0);
      } else {
        assert LinksOf(more) == LinksOf(inodes);
      }
    }
  }

  lemma UpStaysRoot(links: Links, id: InodeId)
    requires 0 !in links && id != 0
    ensures !Below(links, 0, id)
  {
    forall k: nat ensures Up(links, 0, k) != id { UpRoot(links, k); }
  }

  /** A deleted entry whose directory is live, put back there: the rows are as before it was
      deleted. */
  lemma DeletedThenRestored(inodes: Inodes, id: InodeId)
    requires id in inodes && !inodes[id].deleted
    ensures var gone := Deleted(inodes, id);
            gone[id := gone[id].(parent := inodes[id].parent, deleted := false)] == inodes
  {
  }

  // ----- purging -----

  /** Nothing is added, and every live entry is as it was. */
  ghost predicate KeepsLive(inodes: Inodes, less: Inodes) {
    && (forall x | x in less :: x in inodes && less[x] == inodes[x])
    && forall x | x in inodes && !inodes[x].deleted :: x in less
  }

  /** Below a deleted entry nothing is live, so purging it removes nothing live. */
  lemma {:induction false} DeletedBelow(inodes: Inodes, x: InodeId, id: InodeId, k: nat)
    requires LiveParents(inodes) && id in inodes && inodes[id].deleted && 0 !in inodes
    requires x in inodes && Up(LinksOf(inodes), x, k) == id
    ensures inodes[x].deleted
    decreases k
  {
    if k > 0 {
      var p := inodes[x].parent;
      assert Up(LinksOf(inodes), x, k) == Up(LinksOf(inodes), p, k - 1);
      if p in inodes {
        DeletedBelow(inodes, p, id, k - 1);
      } else {
        UpUnknown(LinksOf(inodes), p, k - 1);
      }
    }
  }

  /** Only deleted entries go, and what is left is a tree as before. */
  lemma PurgeKeeps(inodes: Inodes, next: InodeId, id: InodeId)
    requires Sane(inodes, next) && id in inodes && inodes[id].deleted
    ensures forall x | x in Descendants(LinksOf(inodes), id) :: inodes[x].deleted
    ensures Sane(inodes - Descendants(LinksOf(inodes), id), next)
    ensures Acyclic(LinksOf(inodes)) ==> Acyclic(LinksOf(inodes - Descendants(LinksOf(inodes), id)))
  {
    var links := LinksOf(inodes);
    var gone := Descendants(links, id);
    forall x | x in gone ensures inodes[x].deleted {
      var k: nat :| Up(links, x, k) == id;
      DeletedBelow(inodes, x, id, k);
    }
    forall x | x in inodes && inodes[x].parent in gone ensures x in gone {
      var k: nat :| Up(links, inodes[x].parent, k) == id;
      assert Up(links, x, k + 1) == id;
    }
    assert LinksOf(inodes - gone) == links - gone;
    if Acyclic(links) { WithoutKeeps(links, gone); }
  }

  /** Part of the trash is gone: what is left of it is among `left`. */
  ghost predicate Emptying(inodes: Inodes, less: Inodes, left: set<InodeId>) {
    KeepsLive(inodes, less) && forall x | x in less && less[x].deleted :: x in left
  }

  lemma EmptiesMore(inodes: Inodes, some: Inodes, less: Inodes, left: set<InodeId>, id: InodeId)
    requires Emptying(inodes, some, left) && KeepsLive(some, less) && id !in less
    ensures Emptying(inodes, less, left - {id})
  {
  }

  lemma {:induction false} UpWithout(links: Links, gone: set<nat>, id: nat, k: nat)
    requires 0 !in gone && id !in gone && forall x | x in links && links[x] in gone :: x in gone
    ensures Up(links - gone, id, k) == Up(links, id, k)
    decreases k
  {
    if k > 0 { UpWithout(links, gone, Parent(links, id), k - 1); }
  }

  lemma WithoutKeeps(links: Links, gone: set<nat>)
    requires Acyclic(links) && gone <= links.Keys && forall x | x in links && links[x] in gone :: x in gone
    ensures Acyclic(links - gone)
  {
    forall id | id in links - gone ensures exists k: nat :: Up(links - gone, id, k) == 0 {
      var k: nat :| Up(links, id, k) == 0;
      UpWithout(links, gone, id, k);
    }
  }

  /** Purging the entry fails: it is on a cycle, or there is too much below it. */
  ghost predicate Unpurgeable(inodes: Inodes, id: InodeId) {
    OnCycle(LinksOf(inodes), id) || |Descendants(LinksOf(inodes), id)| > 100_000
  }

  /** What is below one of the entries is gone, and nothing else; each of them was deleted, not on
      a cycle, and not below one before it. */
  ghost predicate Purged(inodes: Inodes, less: Inodes, tops: seq<InodeId>) {
    && (forall i | 0 <= i < |tops| ::
          tops[i] in inodes && inodes[tops[i]].deleted && !OnCycle(LinksOf(inodes), tops[i]))
    && (forall i, j | 0 <= i < j < |tops| :: !Below(LinksOf(inodes), tops[j], tops[i]))
    && (forall x :: x in less <==> x in inodes && !UnderAny(inodes, x, tops))
    && (forall x | x in less :: less[x] == inodes[x])
  }

  ghost predicate UnderAny(inodes: Inodes, x: InodeId, tops: seq<InodeId>) {
    exists i :: 0 <= i < |tops| && Below(LinksOf(inodes), x, tops[i])
  }

  lemma NothingPurged(inodes: Inodes)
    ensures Purged(inodes, inodes, [])
  {
  }

  /** What is below an entry that is left is, of what is left, what was below it. */
  lemma BelowAmongLeft(inodes: Inodes, less: Inodes, tops: seq<InodeId>, x: InodeId, id: InodeId)
    requires Purged(inodes, less, tops) && 0 !in inodes && x in less
    ensures Below(LinksOf(less), x, id) <==> Below(LinksOf(inodes), x, id)
  {
    forall k: nat ensures Up(LinksOf(less), x, k) == Up(LinksOf(inodes), x, k) {
      UpAmongLeft(inodes, less, tops, x, k);
    }
    if Below(LinksOf(inodes), x, id) {
      var k: nat :| Up(LinksOf(inodes), x, k) == id;
      assert Up(LinksOf(less), x, k) == id;
    }
  }

  lemma UpAmongLeft(inodes: Inodes, less: Inodes, tops: seq<InodeId>, x: InodeId, k: nat)
    requires Purged(inodes, less, tops) && 0 !in inodes && (x in less || x !in inodes)
    ensures Up(LinksOf(less), x, k) == Up(LinksOf(inodes), x, k)
  {
    var links, gone := LinksOf(inodes), inodes.Keys - less.Keys;
    assert LinksOf(less) == links - gone;
    forall y | y in links && links[y] in gone ensures y in gone {
      var i :| 0 <= i < |tops| && Below(links, links[y], tops[i]);
      UpOneMore(links, y, tops[i]);
    }
    UpWithout(links, gone, x, k);
  }

  lemma UpOneMore(links: Links, y: nat, top: nat)
    requires y in links && Below(links, links[y], top)
    ensures Below(links, y, top)
  {
    var m: nat :| Up(links, links[y], m) == top;
    assert Up(links, y, m + 1) == top;
  }

  lemma OnCycleAmongLeft(inodes: Inodes, less: Inodes, tops: seq<InodeId>, id: InodeId)
    requires Purged(inodes, less, tops) && 0 !in inodes && id in less
    ensures OnCycle(LinksOf(less), id) <==> OnCycle(LinksOf(inodes), id)
  {
    forall k: nat ensures Up(LinksOf(less), id, k) == Up(LinksOf(inodes), id, k) {
      UpAmongLeft(inodes, less, tops, id, k);
    }
    if OnCycle(LinksOf(inodes), id) {
      var m: nat :| m > 0 && Up(LinksOf(inodes), id, m) == id;
      assert Up(LinksOf(less), id, m) == id;
    }
  }

  lemma PurgedMore(inodes: Inodes, some: Inodes, less: Inodes, tops: seq<InodeId>, id: InodeId)
    requires Purged(inodes, some, tops) && 0 !in inodes && id in some && some[id].deleted
    requires !OnCycle(LinksOf(some), id) && less == some - Descendants(LinksOf(some), id)
    ensures Purged(inodes, less, tops + [id])
  {
    hide Below, OnCycle, Up, LinksOf, Descendants;
    var more := tops + [id];
    OnCycleAmongLeft(inodes, some, tops, id);
    forall x: InodeId
      ensures UnderAny(inodes, x, more) <==> UnderAny(inodes, x, tops) || Below(LinksOf(inodes), x, id)
    {
      UnderSnoc(inodes, x, tops, id);
    }
    forall x | x in some ensures x in less <==> !Below(LinksOf(inodes), x, id) {
      BelowAmongLeft(inodes, some, tops, x, id);
      DescendantIff(some, x, id);
    }
    assert !UnderAny(inodes, id, tops);
  }

  lemma DescendantIff(inodes: Inodes, x: InodeId, id: InodeId)
    ensures x in Descendants(LinksOf(inodes), id) <==> x in inodes && Below(LinksOf(inodes), x, id)
  {
  }

  lemma UnderSnoc(inodes: Inodes, x: InodeId, tops: seq<InodeId>, id: InodeId)
    ensures UnderAny(inodes, x, tops + [id]) <==> UnderAny(inodes, x, tops) || Below(LinksOf(inodes), x, id)
  {
    hide Below;
    var more := tops + [id];
    if i :| 0 <= i < |tops| && Below(LinksOf(inodes), x, tops[i]) { assert more[i] == tops[i]; }
    assert more[|tops|] == id;
  }

  /** What cannot be purged now could not before. */
  lemma StillUnpurgeable(inodes: Inodes, less: Inodes, tops: seq<InodeId>, id: InodeId)
    requires Purged(inodes, less, tops) && 0 !in inodes && id in less && Unpurgeable(less, id)
    ensures Unpurgeable(inodes, id)
  {
    OnCycleAmongLeft(inodes, less, tops, id);
    var after, before := Descendants(LinksOf(less), id), Descendants(LinksOf(inodes), id);
    forall x | x in after ensures x in before { BelowAmongLeft(inodes, less, tops, x, id); }
    SubsetCount(after, before);
  }

  lemma SubsetCount(a: set<InodeId>, b: set<InodeId>)
    requires a <= b
    ensures |a| <= |b|
  {
    if a != {} {
      var x :| x in a;
      SubsetCount(a - {x}, b - {x});
    }
  }

  /** What is on a cycle is never purged. */
  lemma CyclesStay(inodes: Inodes, less: Inodes, tops: seq<InodeId>)
    requires Purged(inodes, less, tops)
    ensures forall x | x in inodes && OnCycle(LinksOf(inodes), x) :: x in less
  {
    hide Purged, OnCycle, Up, LinksOf;
    forall x | x in inodes && OnCycle(LinksOf(inodes), x) ensures x in less {
      CycleStays(inodes, less, tops, x);
    }
  }

  lemma CycleStays(inodes: Inodes, less: Inodes, tops: seq<InodeId>, x: InodeId)
    requires Purged(inodes, less, tops) && x in inodes && OnCycle(LinksOf(inodes), x)
    ensures x in less
  {
    hide OnCycle, Below, Up, LinksOf;
    forall i | 0 <= i < |tops| ensures !Below(LinksOf(inodes), x, tops[i]) {
      if Below(LinksOf(inodes), x, tops[i]) { UpOnCycle(LinksOf(inodes), x, tops[i]); }
    }
  }

  /** Above an entry on a cycle there is only the cycle. */
  lemma UpOnCycle(links: Links, x: nat, y: nat)
    requires OnCycle(links, x) && Below(links, x, y)
    ensures OnCycle(links, y)
  {
    var m: nat :| m > 0 && Up(links, x, m) == x;
    var k: nat :| Up(links, x, k) == y;
    UpAdd(links, x, m, k);
    UpAdd(links, x, k, m);
    assert Up(links, y, m) == y;
  }

  // ----- paths -----

  function DirOf(path: seq<string>): seq<string>
    requires path != []
  {
    path[..|path| - 1]
  }

  function Last(path: seq<string>): string
    requires path != []
  {
    path[|path| - 1]
  }

  /** The live entry a path names; the empty path names the root. */
  ghost predicate Resolves(inodes: Inodes, path: seq<string>, id: InodeId)
    decreases |path|
  {
    if path == [] then id == 0
    else exists d: InodeId :: Resolves(inodes, DirOf(path), d) && IsDir(inodes, d) && IsChild(inodes, id, d, Last(path))
  }

  /** The path leads to a name in directory `dir`. */
  ghost predicate InDir(inodes: Inodes, path: seq<string>, dir: InodeId) {
    path != [] && Resolves(inodes, DirOf(path), dir) && IsDir(inodes, dir)
  }

  /** The path leads to a free and valid name in a directory. */
  ghost predicate Addable(inodes: Inodes, path: seq<string>) {
    && path != [] && CheckName(Last(path)) == Done && (exists dir: InodeId :: InDir(inodes, path, dir))
    && forall id: InodeId :: !Resolves(inodes, path, id)
  }

  /** The path names an entry, or the root. */
  ghost predicate Names(inodes: Inodes, path: seq<string>) { exists id: InodeId :: Resolves(inodes, path, id) }

  ghost predicate NamesDir(inodes: Inodes, path: seq<string>) {
    exists d: InodeId :: Resolves(inodes, path, d) && IsDir(inodes, d)
  }

  /** What the path names has something live in it. */
  ghost predicate NamesFull(inodes: Inodes, path: seq<string>) {
    exists x: InodeId, c :: Resolves(inodes, path, x) && c in inodes && !inodes[c].deleted && inodes[c].parent == x
  }

  ghost predicate NamesFile(inodes: Inodes, path: seq<string>) {
    exists f: InodeId :: f in inodes && inodes[f].kind == File && Resolves(inodes, path, f)
  }

  lemma LiveEntry(inodes: Inodes, path: seq<string>, id: InodeId)
    requires Resolves(inodes, path, id)
    ensures IsLive(inodes, id) && (path != [] ==> id in inodes)
  {
  }

  lemma {:induction false} ResolvesOnce(inodes: Inodes, path: seq<string>, a: InodeId, b: InodeId)
    requires UniqueNames(inodes) && Resolves(inodes, path, a) && Resolves(inodes, path, b)
    ensures a == b
    decreases |path|
  {
    if path != [] {
      var d: InodeId :| Resolves(inodes, DirOf(path), d) && IsDir(inodes, d) && IsChild(inodes, a, d, Last(path));
      var e: InodeId :| Resolves(inodes, DirOf(path), e) && IsDir(inodes, e) && IsChild(inodes, b, e, Last(path));
      ResolvesOnce(inodes, DirOf(path), d, e);
    }
  }

  /** In a known directory the path names exactly the live child of that name. */
  lemma ChildIff(inodes: Inodes, path: seq<string>, dir: InodeId, id: InodeId)
    requires UniqueNames(inodes) && InDir(inodes, path, dir)
    ensures Resolves(inodes, path, id) <==> IsChild(inodes, id, dir, Last(path))
  {
    if Resolves(inodes, path, id) {
      var d: InodeId :| Resolves(inodes, DirOf(path), d) && IsDir(inodes, d) && IsChild(inodes, id, d, Last(path));
      ResolvesOnce(inodes, DirOf(path), d, dir);
    }
  }

  /** A path through something that cannot be resolved, or is no directory, cannot either. */
  lemma {:induction false} Unresolved(inodes: Inodes, path: seq<string>, n: nat)
    requires n <= |path| && forall d: InodeId :: !(Resolves(inodes, path[..n], d) && (n == |path| || IsDir(inodes, d)))
    ensures forall id: InodeId :: !Resolves(inodes, path, id)
    decreases |path| - n
  {
    if n == |path| {
      assert path[..n] == path;
    } else {
      var longer := path[..n + 1];
      assert DirOf(longer) == path[..n];
      forall d: InodeId ensures !Resolves(inodes, longer, d) {
      }
      Unresolved(inodes, path, n + 1);
    }
  }

  /** Some directory on the way is a file. */
  ghost predicate Blocked(inodes: Inodes, path: seq<string>) {
    exists i, f: InodeId :: 0 < i <= |path| && Resolves(inodes, path[..i], f) && !IsDir(inodes, f)
  }

  /** What a path that leads nowhere is refused with. */
  ghost function Missing(inodes: Inodes, dirs: seq<string>): Outcome {
    if Blocked(inodes, dirs) then NotADir else NotFound
  }

  /** The first `n` names of a path lead through directories, to `cur`. */
  ghost predicate Along(inodes: Inodes, path: seq<string>, n: nat, cur: InodeId) {
    && n <= |path| && Resolves(inodes, path[..n], cur)
    && forall i, f: InodeId | 0 <= i < n && Resolves(inodes, path[..i], f) :: IsDir(inodes, f)
  }

  lemma AlongAtFirst(inodes: Inodes, path: seq<string>)
    ensures Along(inodes, path, 0, 0)
  {
  }

  lemma AlongToEnd(inodes: Inodes, path: seq<string>, id: InodeId)
    requires Along(inodes, path, |path|, id)
    ensures Resolves(inodes, path, id) && Names(inodes, path)
  {
    assert path[..|path|] == path;
  }

  lemma AlongNext(inodes: Inodes, path: seq<string>, n: nat, cur: InodeId, id: InodeId)
    requires UniqueNames(inodes) && Along(inodes, path, n, cur) && n < |path| && IsDir(inodes, cur)
    requires IsChild(inodes, id, cur, path[n])
    ensures Along(inodes, path, n + 1, id)
  {
    var longer := path[..n + 1];
    assert DirOf(longer) == path[..n] && Last(longer) == path[n];
    forall i, f: InodeId | 0 <= i < n + 1 && Resolves(inodes, path[..i], f) ensures IsDir(inodes, f) {
      if i == n { ResolvesOnce(inodes, path[..n], f, cur); }
    }
  }

  lemma AlongNowhere(inodes: Inodes, path: seq<string>, n: nat, cur: InodeId)
    requires UniqueNames(inodes) && Along(inodes, path, n, cur) && n < |path| && IsDir(inodes, cur)
    requires forall id: InodeId :: !IsChild(inodes, id, cur, path[n])
    ensures !Names(inodes, path) && !Blocked(inodes, DirOf(path))
  {
    var longer, dirs := path[..n + 1], DirOf(path);
    assert DirOf(longer) == path[..n] && Last(longer) == path[n];
    forall d: InodeId ensures !Resolves(inodes, longer, d) { ChildIff(inodes, longer, cur, d); }
    forall i, f: InodeId | 0 < i <= |dirs| && Resolves(inodes, dirs[..i], f) ensures IsDir(inodes, f) {
      assert dirs[..i] == path[..i];
      if i > n {
        assert path[..i][..n + 1] == longer;
        Unresolved(inodes, path[..i], n + 1);
      } else if i == n {
        ResolvesOnce(inodes, path[..n], f, cur);
      }
    }
    Unresolved(inodes, path, n + 1);
  }

  lemma AlongFile(inodes: Inodes, path: seq<string>, n: nat, cur: InodeId)
    requires UniqueNames(inodes) && Along(inodes, path, n, cur) && 0 < n < |path| && !IsDir(inodes, cur)
    ensures !Names(inodes, path) && Blocked(inodes, DirOf(path))
  {
    assert DirOf(path)[..n] == path[..n];
    forall d: InodeId ensures !(Resolves(inodes, path[..n], d) && IsDir(inodes, d)) {
      if Resolves(inodes, path[..n], d) { ResolvesOnce(inodes, path[..n], d, cur); }
    }
    Unresolved(inodes, path, n);
  }

  /** What is blocked leads to no directory. */
  lemma BlockedIsNoDir(inodes: Inodes, path: seq<string>)
    requires UniqueNames(inodes) && Blocked(inodes, path)
    ensures !NamesDir(inodes, path)
  {
    var i, f: InodeId :| 0 < i <= |path| && Resolves(inodes, path[..i], f) && !IsDir(inodes, f);
    forall d: InodeId ensures !(Resolves(inodes, path[..i], d) && IsDir(inodes, d)) {
      if Resolves(inodes, path[..i], d) { ResolvesOnce(inodes, path[..i], d, f); }
    }
    assert path[..|path|] == path;
    if i < |path| { Unresolved(inodes, path, i); }
  }

  /** What cannot be resolved is blocked on the way to its directory, if at all. */
  lemma BlockedOnTheWay(inodes: Inodes, path: seq<string>)
    requires path != [] && forall id: InodeId :: !Resolves(inodes, path, id)
    ensures Blocked(inodes, path) <==> Blocked(inodes, DirOf(path))
  {
    forall i | 0 <= i < |path| ensures DirOf(path)[..i] == path[..i] { }
    assert path[..|path|] == path;
  }

  predicate SameRow(inodes: Inodes, more: Inodes, x: InodeId) {
    x in inodes && !inodes[x].deleted ==> x in more && more[x] == inodes[x]
  }

  /** What is found stays found while no live row on the way up changes. */
  lemma {:induction false} ResolvesStill(inodes: Inodes, more: Inodes, path: seq<string>, id: InodeId)
    requires Resolves(inodes, path, id) && forall k: nat :: SameRow(inodes, more, Up(LinksOf(inodes), id, k))
    ensures Resolves(more, path, id)
    decreases |path|
  {
    if path != [] {
      var d: InodeId :| Resolves(inodes, DirOf(path), d) && IsDir(inodes, d) && IsChild(inodes, id, d, Last(path));
      LiveEntry(inodes, DirOf(path), d);
      var links := LinksOf(inodes);
      assert SameRow(inodes, more, Up(links, id, 0));
      forall k: nat ensures SameRow(inodes, more, Up(links, d, k)) { assert Up(links, id, k + 1) == Up(links, d, k); }
      ResolvesStill(inodes, more, DirOf(path), d);
      assert SameRow(inodes, more, Up(links, d, 0));
      assert Resolves(more, DirOf(path), d) && IsDir(more, d) && IsChild(more, id, d, Last(path));
    }
  }

  /** What is found among fewer live rows is found among more. */
  lemma {:induction false} DeletedIsGone(inodes: Inodes, id: InodeId, path: seq<string>, x: InodeId)
    requires UniqueNames(inodes) && 0 !in inodes && id in inodes && Resolves(inodes, path, id)
    ensures !Resolves(Deleted(inodes, id), path, x)
  {
    var less := Deleted(inodes, id);
    if Resolves(less, path, x) {
      forall k: nat ensures SameRow(less, inodes, Up(LinksOf(less), x, k)) { }
      ResolvesStill(less, inodes, path, x);
      ResolvesOnce(inodes, path, x, id);
      LiveEntry(less, path, x);
    }
  }

  /** Everything above a directory is a directory. */
  lemma {:induction false} UpIsDir(inodes: Inodes, dir: InodeId, k: nat)
    requires ParentsKnown(inodes) && IsDir(inodes, dir)
    ensures IsDir(inodes, Up(LinksOf(inodes), dir, k))
    decreases k
  {
    if k > 0 { UpIsDir(inodes, Parent(LinksOf(inodes), dir), k - 1); }
  }

  lemma {:induction false} LiveUp(inodes: Inodes, id: InodeId, k: nat)
    requires LiveParents(inodes) && IsLive(inodes, id) && 0 !in inodes
    ensures IsLive(inodes, Up(LinksOf(inodes), id, k))
    decreases k
  {
    if k > 0 { LiveUp(inodes, Parent(LinksOf(inodes), id), k - 1); }
  }

  /** The new path of a renamed entry names it, unless the entry went below itself. */
  lemma RenamedResolves(inodes: Inodes, next: InodeId, src: InodeId, dir: InodeId, path: seq<string>)
    requires Sane(inodes, next) && InDir(inodes, path, dir) && Movable(inodes, src, dir, Last(path))
    requires !inodes[src].deleted
    requires !Deep(LinksOf(inodes), dir, src)
    ensures Resolves(Renamed(inodes, src, dir, Last(path)), path, src)
  {
    var links, name := LinksOf(inodes), Last(path);
    LiveEntry(inodes, DirOf(path), dir);
    if !IsChild(inodes, src, dir, name) {
      var more := Renamed(inodes, src, dir, name);
      forall k: nat ensures SameRow(inodes, more, Up(links, dir, k)) {
        assert Up(links, dir, k) != src;
        NotReplaced(inodes, dir, name, k);
      }
      ResolvesStill(inodes, more, DirOf(path), dir);
    }
  }

  /** A directory above `dir`, or `dir` itself, is not an entry of `dir` without live children. */
  lemma NotReplaced(inodes: Inodes, dir: InodeId, name: string, k: nat)
    requires LiveParents(inodes) && 0 !in inodes && IsLive(inodes, dir)
    requires IsChild(inodes, Up(LinksOf(inodes), dir, k), dir, name) ==>
               !HasLiveChild(inodes, Up(LinksOf(inodes), dir, k))
    ensures !IsChild(inodes, Up(LinksOf(inodes), dir, k), dir, name)
  {
    var links := LinksOf(inodes);
    var x := Up(links, dir, k);
    if x != 0 && k > 0 {
      var y := Up(links, dir, k - 1);
      UpNext(links, dir, k - 1);
      LiveUp(inodes, dir, k - 1);
      assert y in inodes && !inodes[y].deleted && inodes[y].parent == x;
    }
  }

  /** After a rename the tree is a forest still, and the new path names the entry, unless the
      entry went below itself further down than the code looks. */
  ghost predicate RenamedWell(inodes: Inodes, src: InodeId, dir: InodeId, path: seq<string>, more: Inodes) {
    && (Acyclic(LinksOf(inodes)) ==> (Acyclic(LinksOf(more)) <==> !Deep(LinksOf(inodes), dir, src)))
    && (!Deep(LinksOf(inodes), dir, src) ==> Resolves(more, path, src))
  }

  lemma RenamedIsWell(inodes: Inodes, next: InodeId, src: InodeId, dir: InodeId, path: seq<string>)
    requires Sane(inodes, next) && InDir(inodes, path, dir) && Movable(inodes, src, dir, Last(path))
    requires !inodes[src].deleted
    ensures Sane(Renamed(inodes, src, dir, Last(path)), next)
    ensures RenamedWell(inodes, src, dir, path, Renamed(inodes, src, dir, Last(path)))
  {
    LiveEntry(inodes, DirOf(path), dir);
    RenameKeeps(inodes, next, src, dir, Last(path));
    if !Deep(LinksOf(inodes), dir, src) { RenamedResolves(inodes, next, src, dir, path); }
  }

  datatype LookupResult = Found(id: InodeId) | Failed(error: Outcome)

  /** The length of a name in UTF-8. */
  function ByteLength(name: string): nat {
    if name == "" then 0
    else
      var c := name[0] as int;
      (if c < 0x80 then 1 else if c < 0x800 then 2 else if c < 0x1_0000 then 3 else 4) + ByteLength(name[1..])
  }

  lemma {:induction false} ByteLengthAppend(a: string, b: string)
    ensures ByteLength(a + b) == ByteLength(a) + ByteLength(b)
  {
    if a == "" {
      assert a + b == b;
    } else {
      ByteLengthAppend(a[1..], b);
      assert (a + b)[1..] == a[1..] + b && (a + b)[0] == a[0];
    }
  }

  /** What one character takes in UTF-8 (section 3 of RFC 3629). */
  lemma ByteLengthOne(c: char)
    ensures ByteLength([c]) == if c as int <= 0x7F then 1 else if c as int <= 0x7FF then 2
                               else if c as int <= 0xFFFF then 3 else 4
  {
    assert [c][1..] == "";
  }

  /** Names of ASCII characters are as long as they look. */
  lemma {:induction false} ByteLengthAscii(name: string)
    requires forall i | 0 <= i < |name| :: name[i] as int < 128
    ensures ByteLength(name) == |name|
  {
    if name != "" { ByteLengthAscii(name[1..]); }
  }

  /** A valid name is not empty, not a dot or two, has no slash and no zero, and at most 255
      bytes. */
  function CheckName(name: string): (r: Outcome)
    ensures r == Done || r == BadName || r == NameTooLong
    ensures r == BadName <==>
              |name| == 0 || name == ['.'] || name == ['.', '.'] ||
              exists i | 0 <= i < |name| :: name[i] == '/' || name[i] as int == 0
    ensures r == Done ==> ByteLength(name) <= 255
    ensures r == NameTooLong ==> ByteLength(name) > 255
  {
    if name == "" || name == "." || name == ".." || '/' in name || '\0' in name then BadName
    else if ByteLength(name) > MAX_NAME_LEN then NameTooLong
    else Done
  }
}
