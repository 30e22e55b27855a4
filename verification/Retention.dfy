/** Trimming the versions of a file: the current version and the newest others stay. */
module Retention {
  import opened Wrappers
  import opened Sequences
  import opened Tables
  import opened Database
  import opened PoolSafety
  import opened Lifecycle
  import opened FileHandles
  import opened Recycle

  // ----- which versions go -----

  predicate Descending(ids: seq<VersionId>) { forall i, j | 0 <= i < j < |ids| :: ids[i] > ids[j] }

  /** The current version is not among the versions of the file: it was trimmed before, or
      never had a row. It is counted all the same. */
  predicate Dangling(ids: seq<VersionId>, current: Option<VersionId>) { current.Some? && current.value !in ids }

  /** The current version is kept, of the others the newest, and `keep` in all. */
  ghost predicate KeepsNewest(ids: seq<VersionId>, current: Option<VersionId>, keep: nat, drop: seq<VersionId>) {
    && Distinct(drop) && (forall v | v in drop :: v in ids && current != Some(v))
    && (forall v, w | v in ids && v !in drop && current != Some(v) && w in drop :: v > w)
    && var room := if current.Some? && current.value !in ids then keep - 1 else keep;
       |ids| - |drop| == if room < |ids| then room else |ids|
  }

  function Of(current: Option<VersionId>): set<VersionId> { if current.Some? then {current.value} else {} }

  lemma DescendingDistinct(ids: seq<VersionId>)
    requires Descending(ids)
    ensures Distinct(ids)
  {
    forall i, j | 0 <= i < j < |ids| ensures ids[i] != ids[j] { assert ids[i] > ids[j]; }
  }

  lemma PrefixSize(ids: seq<VersionId>, i: nat)
    requires Distinct(ids) && i <= |ids|
    ensures |Members(ids[..i])| == i
  {
    DistinctPrefix(ids, i);
    DistinctSize(ids[..i], Members(ids[..i]));
  }

  lemma PrefixNewer(ids: seq<VersionId>, i: nat, v: VersionId, w: VersionId)
    requires Descending(ids) && i <= |ids| && v in Members(ids[..i]) && w in Members(ids) && w !in Members(ids[..i])
    ensures v > w
  {
    var j :| 0 <= j < i && ids[j] == v;
    assert ids == ids[..i] + ids[i..];
    var k :| i <= k < |ids| && ids[k] == w;
  }

  lemma Parts(s: set<VersionId>, t: set<VersionId>)
    ensures |s - t| == |s| - |s * t|
  {
    assert s == (s - t) + (s * t);
  }

  /** The versions without those kept. */
  method NotIn(ids: seq<VersionId>, keepSet: set<VersionId>) returns (drop: seq<VersionId>)
    requires Distinct(ids)
    ensures Distinct(drop) && Members(drop) == Members(ids) - keepSet
  {
    drop := [];
    for i := 0 to |ids|
      invariant Distinct(drop) && Members(drop) == Members(ids[..i]) - keepSet
    {
      MembersSnoc(ids, i);
      DistinctPrefix(ids, i);
      if ids[i] !in keepSet {
        assert ids[i] !in Members(ids[..i]);
        assert ids[i] !in Members(drop);
        Snoc(drop, ids[i]);
        drop := drop + [ids[i]];
      }
    }
    assert ids[..|ids|] == ids;
  }

  /** Fills the places: the current version has one, the others from the newest on. */
  method Fill(ids: seq<VersionId>, current: Option<VersionId>, keep: nat)
    returns (keepSet: set<VersionId>, ghost n: nat)
    requires keep > 0
    ensures Filled(ids, current, keep, n, keepSet) && (n == |ids| || |keepSet| == keep)
  {
    keepSet := if current.Some? then {current.value} else {};
    var i := 0;
    NothingFilled(ids, current, keep);
    while i < |ids| && |keepSet| < keep
      invariant 0 <= i && Filled(ids, current, keep, i, keepSet)
    {
      FilledMore(ids, current, keep, i, keepSet);
      keepSet := keepSet + {ids[i]};
      i := i + 1;
    }
    n := i;
  }

  /** The versions without a place. */
  method SelectDrop(ids: seq<VersionId>, current: Option<VersionId>, keep: nat) returns (drop: seq<VersionId>)
    requires Descending(ids) && keep > 0
    ensures KeepsNewest(ids, current, keep, drop)
  {
    var keepSet;
    ghost var n;
    keepSet, n := Fill(ids, current, keep);
    DescendingDistinct(ids);
    drop := NotIn(ids, keepSet);
    Selected(ids, current, keep, n, keepSet, drop);
  }

  /** The current version and the first `i` have their places. */
  ghost predicate Filled(ids: seq<VersionId>, current: Option<VersionId>, keep: nat, i: nat, keepSet: set<VersionId>) {
    i <= |ids| && keepSet == Of(current) + Members(ids[..i]) && |keepSet| <= keep
  }

  lemma NothingFilled(ids: seq<VersionId>, current: Option<VersionId>, keep: nat)
    requires keep > 0
    ensures Filled(ids, current, keep, 0, Of(current))
  {
    assert Members(ids[..0]) == {};
  }

  lemma FilledMore(ids: seq<VersionId>, current: Option<VersionId>, keep: nat, i: nat, keepSet: set<VersionId>)
    requires i < |ids| && Filled(ids, current, keep, i, keepSet) && |keepSet| < keep
    ensures Filled(ids, current, keep, i + 1, keepSet + {ids[i]})
  {
    MembersSnoc(ids, i);
    assert |keepSet + {ids[i]}| <= |keepSet| + 1;
  }

  lemma Selected(ids: seq<VersionId>, current: Option<VersionId>, keep: nat, i: nat, keepSet: set<VersionId>,
                 drop: seq<VersionId>)
    requires Descending(ids) && Filled(ids, current, keep, i, keepSet)
    requires i == |ids| || |keepSet| == keep
    requires Distinct(drop) && Members(drop) == Members(ids) - keepSet
    ensures KeepsNewest(ids, current, keep, drop)
  {
    forall v | v in drop ensures v in ids && current != Some(v) { assert v in Members(drop); }
    forall v, w | v in ids && v !in drop && current != Some(v) && w in drop ensures v > w {
      assert v in Members(ids) && v !in Members(drop) && w in Members(drop);
      PrefixNewer(ids, i, v, w);
    }
    SelectedCount(ids, current, keep, i, keepSet, drop);
  }

  lemma SelectedCount(ids: seq<VersionId>, current: Option<VersionId>, keep: nat, i: nat, keepSet: set<VersionId>,
                      drop: seq<VersionId>)
    requires Descending(ids) && Filled(ids, current, keep, i, keepSet)
    requires i == |ids| || |keepSet| == keep
    requires Distinct(drop) && Members(drop) == Members(ids) - keepSet
    ensures var room := if Dangling(ids, current) then keep - 1 else keep;
            |ids| - |drop| == if room < |ids| then room else |ids|
  {
    hide Descending, Distinct;
    var all, head := Members(ids), Members(ids[..i]);
    DescendingDistinct(ids);
    assert ids[..|ids|] == ids;
    PrefixSize(ids, |ids|);
    PrefixSize(ids, i);
    DistinctSize(drop, Members(drop));
    Parts(all, keepSet);
    assert head <= all;
    KeptSize(all, head, current, keepSet);
    assert Dangling(ids, current) <==> current.Some? && current.value !in all;
    if i == |ids| { assert head == all; }
  }

  lemma KeptSize(all: set<VersionId>, head: set<VersionId>, current: Option<VersionId>, keepSet: set<VersionId>)
    requires head <= all && keepSet == Of(current) + head
    ensures |keepSet| == |head| + if current.Some? && current.value !in head then 1 else 0
    ensures |all * keepSet| == |keepSet| - if current.Some? && current.value !in all then 1 else 0
  {
    if current.Some? && current.value !in head {
      assert keepSet == head + {current.value};
    } else {
      assert keepSet == head;
    }
    if current.Some? && current.value !in all {
      assert all * keepSet == head;
    } else {
      assert all * keepSet == keepSet;
    }
  }

  // ----- which version of a writer goes -----

  /** The versions of the file newer than `v`, without the current one. */
  ghost function Newer(ids: seq<VersionId>, current: Option<VersionId>, v: VersionId): set<VersionId> {
    set w | w in ids && w > v && current != Some(w)
  }

  /** Whoever writes it, a version goes exactly when it is not current and the places are taken by
      the current version and newer ones. */
  lemma DroppedIff(ids: seq<VersionId>, current: Option<VersionId>, keep: nat, drop: seq<VersionId>, v: VersionId)
    requires Distinct(ids) && keep > 0 && KeepsNewest(ids, current, keep, drop) && v in ids
    ensures v in drop <==> current != Some(v) && |Newer(ids, current, v)| + |Of(current)| >= keep
  {
    hide Distinct, Newer, Of;
    var others := Members(ids) - Members(drop) - Of(current);
    OthersKept(ids, current, keep, drop, others);
    OthersAndNewer(ids, current, keep, drop, v, others);
    if v in drop {
      SubsetSize(others, Newer(ids, current, v));
    } else if current != Some(v) {
      SubsetSize(Newer(ids, current, v), others - {v});
    }
  }

  lemma OthersAndNewer(ids: seq<VersionId>, current: Option<VersionId>, keep: nat, drop: seq<VersionId>, v: VersionId,
                       others: set<VersionId>)
    requires KeepsNewest(ids, current, keep, drop) && v in ids
    requires others == Members(ids) - Members(drop) - Of(current)
    ensures v in drop ==> others <= Newer(ids, current, v)
    ensures v !in drop && current != Some(v) ==> v in others && Newer(ids, current, v) <= others - {v}
  {
    hide Distinct;
    forall w | v in drop && w in others ensures w in Newer(ids, current, v) {
      assert w in ids && w !in drop && current != Some(w);
    }
    forall w | v !in drop && current != Some(v) && w in Newer(ids, current, v) ensures w in others - {v} {
      assert w in ids && w !in drop;
    }
  }

  /** How many versions besides the current one are kept. */
  lemma OthersKept(ids: seq<VersionId>, current: Option<VersionId>, keep: nat, drop: seq<VersionId>,
                   others: set<VersionId>)
    requires Distinct(ids) && keep > 0 && KeepsNewest(ids, current, keep, drop)
    requires others == Members(ids) - Members(drop) - Of(current)
    ensures |others| + |Of(current)| <= keep
    ensures drop != [] ==> |others| + |Of(current)| == keep
  {
    var all, gone := Members(ids), Members(drop);
    DistinctSize(ids, all);
    DistinctSize(drop, gone);
    assert gone <= all;
    assert |all - gone| == |all| - |gone|;
    if drop != [] { assert drop[0] in drop; }
    if current.Some? && current.value in ids {
      assert current.value in all - gone && others == (all - gone) - {current.value};
    } else {
      assert others == all - gone;
    }
  }

  lemma SubsetSize(s: set<VersionId>, t: set<VersionId>)
    requires s <= t
    ensures |s| <= |t|
  {
    assert t == s + (t - s);
  }

  // ----- the transaction -----

  lemma HasMaximum(s: set<VersionId>) returns (m: VersionId)
    requires s != {}
    ensures m in s && forall w | w in s :: w <= m
  {
    var x :| x in s;
    var rest := s - {x};
    m := x;
    if rest != {} {
      var n := HasMaximum(rest);
      m := if x < n then n else x;
    }
    assert s == rest + {x};
  }

  /** The versions of a file, newest first. */
  method VersionsDescending(versions: map<VersionId, Version>, inode: InodeId) returns (ids: seq<VersionId>)
    ensures Descending(ids) && forall v :: v in ids <==> v in versions && versions[v].inode == inode
  {
    var all := set v | v in versions && versions[v].inode == inode;
    var left := all;
    ids := [];
    while left != {}
      invariant left <= all && Descending(ids) && forall v :: v in ids <==> v in all && v !in left
      invariant forall v, w | v in ids && w in left :: v > w
      decreases left
    {
      ghost var m := HasMaximum(left);
      var v :| v in left && forall w | w in left :: w <= v;
      assert forall i | 0 <= i < |ids| :: ids[i] in ids;
      ids := ids + [v];
      left := left - {v};
    }
  }

  datatype Trimming = Unknown | Trimmed(n: nat)

  /** Trims a file to `keep` versions. The versions that go are taken from the tables with
      their mappings and their chunks are released, in one step. */
  method TrimVersions(share: Share, db: PoolDb, inode: InodeId, keep: int, ghost writing: map<VersionId, InodeId>,
                      ghost pending: set<Loc>)
    returns (r: Trimming, stale: seq<Loc>, ghost drop: seq<VersionId>, ghost e: Event, ghost left: set<Loc>)
    modifies share`versions, db
    ensures r.Unknown? <==> keep > 0 && inode !in share.current
    ensures share.current == old(share.current)
    ensures r.Unknown? || drop == [] ==> stale == []
    ensures r.Unknown? || drop == [] ==> LifeOf(share, db, writing, pending) == old(LifeOf(share, db, writing, pending))
    ensures r.Trimmed? ==> r.n == |drop|
    ensures keep <= 0 ==> drop == []
    ensures keep > 0 && inode in share.current ==> exists ids: seq<VersionId> ::
              && Descending(ids) && Members(ids) == VersionsOf(old(LifeOf(share, db, writing, pending)), {inode})
              && KeepsNewest(ids, share.current[inode], keep, drop)
    ensures drop != [] ==> e.Trim? && e.inode == inode && e.drop == Members(drop) && e.stale == stale
    ensures drop != [] ==>
              Step(old(LifeOf(share, db, writing, pending)), e, LifeOf(share, db, writing, left))
  {
    ghost var a := LifeOf(share, db, writing, pending);
    r, stale, drop, e, left := Trimmed(0), [], [], CreateFile(0), pending;
    if keep <= 0 {
      return;
    }
    if inode !in share.current {
      r := Unknown;
      return;
    }
    var ids := VersionsDescending(share.versions, inode);
    var going := SelectDrop(ids, share.current[inode], keep);
    assert Members(ids) == VersionsOf(a, {inode});
    drop := going;
    if |going| == 0 {
      return;
    }
    assert going[0] in Members(going);
    ghost var chunks, dropped;
    stale, chunks, dropped := DropVersions(share, db, going, writing, pending);
    r := Trimmed(|going|);
    left := pending + StaleData(Unmapped(a.pool, Members(going)), chunks, dropped);
    e := Trim(inode, Members(going), chunks, stale, dropped);
    assert Members(going) <= VersionsOf(a, {inode});
  }

  /** The current version survives with all its bytes: what the file reads as is unchanged. */
  lemma TrimKeepsContent(a: Life, e: Event, b: Life, ids: seq<VersionId>, keep: nat, drop: seq<VersionId>, idx: nat)
    requires Safe(a) && e.Trim? && Step(a, e, b) && e.inode in a.current && a.current[e.inode].Some?
    requires e.drop == Members(drop)
    requires KeepsNewest(ids, a.current[e.inode], keep, drop) && OpenedOn(a, e.inode).Some?
    ensures OpenedOn(b, e.inode) == OpenedOn(a, e.inode)
    ensures b.versions[OpenedOn(b, e.inode).value] == a.versions[OpenedOn(a, e.inode).value]
    ensures SameSlice(a.pool, b.pool, Slot(OpenedOn(a, e.inode).value, idx))
  {
    StepKeepsSlice(a, e, b, Slot(OpenedOn(a, e.inode).value, idx));
  }
}
