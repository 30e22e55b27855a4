/** Collecting an entry with everything below it, level by level. */
module Subtree {
  import opened Wrappers
  import opened Sequences
  import opened Forest

  const MAX_PURGE_NODES: nat := 100000
  const PURGE_BATCH: nat := 500

  /** All nodes from which the chain of parents leads to `top`, with `top` itself. */
  ghost function Descendants(links: Links, top: nat): set<nat> { set x | x in links && Below(links, x, top) }

  ghost predicate OnCycle(links: Links, id: nat) { exists m: nat :: m > 0 && Up(links, id, m) == id }

  ghost predicate AtDepth(links: Links, x: nat, top: nat, d: nat) { x in links && Up(links, x, d) == top }

  ghost predicate IsLevel(links: Links, s: seq<nat>, top: nat, d: nat) {
    Distinct(s) && forall x :: x in s <==> AtDepth(links, x, top, d)
  }

  ghost predicate Within(links: Links, x: nat, top: nat, d: nat) {
    exists j: nat :: j <= d && AtDepth(links, x, top, j)
  }

  ghost predicate IsTop(links: Links, s: seq<nat>, top: nat, d: nat) {
    (!OnCycle(links, top) ==> Distinct(s)) && forall x :: x in s <==> Within(links, x, top, d)
  }

  /** A level holds the nodes whose parents are in the level above. */
  lemma NextLevel(links: Links, s: seq<nat>, next: seq<nat>, top: nat, d: nat)
    requires 0 !in links && top in links && IsLevel(links, s, top, d)
    requires Distinct(next) && forall x :: x in next <==> x in links && links[x] in s
    ensures IsLevel(links, next, top, d + 1)
  {
    forall x ensures x in next <==> AtDepth(links, x, top, d + 1) {
      if x in links {
        assert Up(links, x, d + 1) == Up(links, links[x], d);
        if Up(links, x, d + 1) == top && links[x] !in links { UpUnknown(links, links[x], d); }
      }
    }
  }

  lemma UpUnknown(links: Links, id: nat, k: nat)
    requires 0 !in links && id !in links
    ensures Up(links, id, k) == 0 || Up(links, id, k) == id
  {
    if k > 0 { UpRoot(links, k - 1); }
  }

  /** Nodes at two depths exist only below a cycle. */
  lemma TwoDepths(links: Links, x: nat, top: nat, d: nat, e: nat)
    requires AtDepth(links, x, top, d) && AtDepth(links, x, top, e) && d < e
    ensures OnCycle(links, top)
  {
    UpAdd(links, x, d, e - d);
  }

  lemma GrowTop(links: Links, s: seq<nat>, next: seq<nat>, top: nat, d: nat)
    requires IsTop(links, s, top, d) && IsLevel(links, next, top, d + 1)
    ensures IsTop(links, s + next, top, d + 1)
  {
    var both := s + next;
    forall x ensures x in both <==> Within(links, x, top, d + 1) {
      if Within(links, x, top, d + 1) {
        var j: nat :| j <= d + 1 && AtDepth(links, x, top, j);
        assert j <= d ==> Within(links, x, top, d);
      }
      if x in s {
        var j: nat :| j <= d && AtDepth(links, x, top, j);
      }
    }
    if !OnCycle(links, top) {
      forall x | x in s ensures x !in next {
        var j: nat :| j <= d && AtDepth(links, x, top, j);
        if x in next { TwoDepths(links, x, top, j, d + 1); }
      }
      DistinctAppend(s, next);
    }
  }

  /** Below an empty level there is nothing, and above a cycle no level is empty. */
  lemma {:induction false} EmptyBelow(links: Links, top: nat, d: nat, e: nat, x: nat)
    requires 0 !in links && top in links && (forall y :: !AtDepth(links, y, top, d)) && d <= e
    ensures !AtDepth(links, x, top, e)
    decreases e
  {
    if AtDepth(links, x, top, e) {
      if d < e {
        var p := links[x];
        assert Up(links, x, e) == Up(links, p, e - 1);
        if p !in links { UpUnknown(links, p, e - 1); }
        EmptyBelow(links, top, d, e - 1, p);
      }
    }
  }

  lemma AllFound(links: Links, s: seq<nat>, top: nat, d: nat)
    requires 0 !in links && top in links && IsTop(links, s, top, d) && forall y :: !AtDepth(links, y, top, d)
    ensures Distinct(s) && Members(s) == Descendants(links, top) && !OnCycle(links, top)
  {
    if OnCycle(links, top) {
      var m: nat :| m > 0 && Up(links, top, m) == top;
      RoundAndRound(links, top, m, d);
      Times(d, m);
      EmptyBelow(links, top, d, d * m, top);
    }
    forall x ensures x in s <==> x in Descendants(links, top) {
      if x in Descendants(links, top) {
        var k: nat :| Up(links, x, k) == top;
        if d <= k { EmptyBelow(links, top, d, k, x); }
        assert AtDepth(links, x, top, k);
      }
      if x in s {
        var j: nat :| j <= d && AtDepth(links, x, top, j);
      }
    }
  }

  lemma TooLarge(links: Links, s: seq<nat>, top: nat, d: nat)
    requires IsTop(links, s, top, d) && !OnCycle(links, top)
    ensures |s| <= |Descendants(links, top)|
  {
    forall x | x in s ensures x in Descendants(links, top) {
      var j: nat :| j <= d && AtDepth(links, x, top, j);
    }
    DistinctSize(s, Descendants(links, top));
  }

  /** The rows whose parent is one of `parents`, in the order the table yields them. */
  method PluckChildren(links: Links, parents: seq<nat>) returns (got: seq<nat>)
    ensures Distinct(got) && forall x :: x in got <==> x in links && links[x] in parents
  {
    var left := set x | x in links && links[x] in parents;
    ghost var all := left;
    got := [];
    while left != {}
      invariant left <= all && Distinct(got) && forall x :: x in got <==> x in all && x !in left
      decreases left
    {
      var x :| x in left;
      got := got + [x];
      left := left - {x};
    }
  }

  method ChildrenOf(links: Links, frontier: seq<nat>) returns (children: seq<nat>)
    requires Distinct(frontier)
    ensures Distinct(children) && forall x :: x in children <==> x in links && links[x] in frontier
  {
    children := [];
    var start := 0;
    while start < |frontier|
      invariant 0 <= start <= |frontier|
      invariant Distinct(children) && forall x :: x in children <==> x in links && links[x] in frontier[..start]
    {
      var end := if start + PURGE_BATCH > |frontier| then |frontier| else start + PURGE_BATCH;
      var batch := frontier[start..end];
      var got := PluckChildren(links, batch);
      assert frontier[..end] == frontier[..start] + batch;
      forall x | x in children ensures x !in got {
        DistinctBatches(frontier, start, end, links[x]);
      }
      DistinctAppend(children, got);
      children := children + got;
      start := end;
    }
  }

  /** On any graph: stops, and yields every node below `id` once, unless `id` is on a cycle or
      there are too many. */
  method CollectSubtree(links: Links, id: nat) returns (r: Option<seq<nat>>)
    requires 0 !in links && id in links
    ensures r.Some? <==> !OnCycle(links, id) && |Descendants(links, id)| <= 100_000
    ensures r.Some? ==> Distinct(r.value) && Members(r.value) == Descendants(links, id)
  {
    var ids := [id];
    var frontier := [id];
    ghost var d := 0;
    while |frontier| > 0
      invariant IsLevel(links, frontier, id, d) && IsTop(links, ids, id, d) && |ids| <= MAX_PURGE_NODES
      decreases MAX_PURGE_NODES - |ids|, |frontier|
    {
      var children := ChildrenOf(links, frontier);
      NextLevel(links, frontier, children, id, d);
      GrowTop(links, ids, children, id, d);
      if |ids| + |children| > MAX_PURGE_NODES {
        if !OnCycle(links, id) { TooLarge(links, ids + children, id, d + 1); }
        return None;
      }
      ids := ids + children;
      frontier := children;
      d := d + 1;
    }
    forall y ensures !AtDepth(links, y, id, d) { assert y !in frontier; }
    AllFound(links, ids, id, d);
    DistinctSize(ids, Descendants(links, id));
    r := Some(ids);
  }
}
