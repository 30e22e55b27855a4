/** Parent links. Node 0 is the root and its own parent, and so is every unknown node's. */
module Forest {

  type Links = map<nat, nat>

  function Parent(links: Links, id: nat): nat { if id in links then links[id] else 0 }

  /** The k-th ancestor. */
  function Up(links: Links, id: nat, k: nat): nat
    decreases k
  {
    if k == 0 then id else Up(links, Parent(links, id), k - 1)
  }

  /** Every chain of parents ends at the root. */
  ghost predicate Acyclic(links: Links) {
    0 !in links && forall id | id in links :: exists k: nat :: Up(links, id, k) == 0
  }

  ghost predicate Below(links: Links, id: nat, top: nat) { exists k: nat :: Up(links, id, k) == top }

  lemma {:induction false} UpAdd(links: Links, id: nat, j: nat, k: nat)
    ensures Up(links, id, j + k) == Up(links, Up(links, id, j), k)
    decreases j
  {
    if j > 0 {
      UpAdd(links, Parent(links, id), j - 1, k);
    }
  }

  lemma {:induction false} UpRoot(links: Links, k: nat)
    requires 0 !in links
    ensures Up(links, 0, k) == 0
  {
    if k > 0 {
      UpRoot(links, k - 1);
    }
  }

  lemma UpNext(links: Links, id: nat, k: nat)
    ensures Up(links, id, k + 1) == Parent(links, Up(links, id, k))
  {
    UpAdd(links, id, k, 1);
    assert Up(links, Up(links, id, k), 1) == Up(links, Parent(links, Up(links, id, k)), 0);
  }

  /** Chains that do not meet `s` do not notice that `s` has another parent. */
  lemma {:induction false} UpUnchanged(links: Links, more: Links, s: nat, id: nat, n: nat)
    requires forall x | x != s :: Parent(more, x) == Parent(links, x)
    requires forall j: nat | j < n :: Up(links, id, j) != s
    ensures Up(more, id, n) == Up(links, id, n)
    decreases n
  {
    if n > 0 {
      assert Up(links, id, 0) != s;
      forall j: nat | j < n - 1 ensures Up(links, Parent(links, id), j) != s {
        assert Up(links, id, j + 1) != s;
      }
      UpUnchanged(links, more, s, Parent(links, id), n - 1);
    }
  }

  /** The first time a chain meets a node. */
  lemma {:induction false} FirstMeeting(links: Links, id: nat, s: nat, n: nat) returns (j: nat)
    requires Up(links, id, n) == s
    ensures j <= n && Up(links, id, j) == s && forall i: nat | i < j :: Up(links, id, i) != s
  {
    if i: nat :| i < n && Up(links, id, i) == s {
      j := FirstMeeting(links, id, s, i);
    } else {
      j := n;
    }
  }

  // ----- cycles -----

  lemma {:induction false} RoundAndRound(links: Links, id: nat, m: nat, q: nat)
    requires m > 0 && Up(links, id, m) == id
    ensures Up(links, id, q * m) == id
    decreases q
  {
    if q > 0 {
      RoundAndRound(links, id, m, q - 1);
      assert q * m == (q - 1) * m + m;
      UpAdd(links, id, (q - 1) * m, m);
    }
  }

  /** A node that is its own ancestor never reaches the root. */
  lemma CycleNeverEnds(links: Links, id: nat, m: nat)
    requires 0 !in links && m > 0 && id != 0 && Up(links, id, m) == id
    ensures forall k: nat :: Up(links, id, k) != 0
  {
    forall k: nat ensures Up(links, id, k) != 0 {
      if Up(links, id, k) == 0 {
        RoundAndRound(links, id, m, k);
        assert k * m >= k by { Times(k, m); }
        UpAdd(links, id, k, k * m - k);
        UpRoot(links, k * m - k);
      }
    }
  }

  lemma {:induction false} Times(k: nat, m: nat)
    requires m > 0
    ensures k * m >= k
  {
    if k > 0 {
      Times(k - 1, m);
      assert k * m == (k - 1) * m + m;
    }
  }

  /** No node of a forest is its own ancestor. */
  lemma NotOwnAncestor(links: Links, id: nat, m: nat)
    requires Acyclic(links) && id in links && m > 0
    ensures Up(links, id, m) != id
  {
    if Up(links, id, m) == id {
      CycleNeverEnds(links, id, m);
    }
  }

  // ----- moving a node -----

  /** Moving a node keeps the forest exactly when it does not move below itself. */
  lemma MoveIff(links: Links, s: nat, d: nat)
    requires Acyclic(links) && s in links && (d == 0 || d in links)
    ensures Acyclic(links[s := d]) <==> !Below(links, d, s)
  {
    var more := links[s := d];
    if Below(links, d, s) {
      var n: nat :| Up(links, d, n) == s;
      var j := FirstMeeting(links, d, s, n);
      UpUnchanged(links, more, s, d, j);
      assert Up(more, s, j + 1) == Up(more, d, j);
      CycleNeverEnds(more, s, j + 1);
    } else {
      forall id | id in more ensures exists k: nat :: Up(more, id, k) == 0 {
        var k := MovedEnds(links, s, d, id);
      }
    }
  }

  lemma EndsAvoiding(links: Links, s: nat, d: nat) returns (k: nat)
    requires Acyclic(links) && (d == 0 || d in links) && !Below(links, d, s)
    ensures Up(links[s := d], d, k) == 0
  {
    k := 0;
    if d != 0 {
      k :| Up(links, d, k) == 0;
    }
    assert forall j: nat | j < k :: Up(links, d, j) != s;
    UpUnchanged(links, links[s := d], s, d, k);
  }

  lemma MovedEnds(links: Links, s: nat, d: nat, id: nat) returns (k: nat)
    requires Acyclic(links) && s in links && (d == 0 || d in links) && !Below(links, d, s) && id in links
    ensures Up(links[s := d], id, k) == 0
  {
    var more := links[s := d];
    var n: nat :| Up(links, id, n) == 0;
    if m: nat :| m < n && Up(links, id, m) == s {
      var j := FirstMeeting(links, id, s, m);
      UpUnchanged(links, more, s, id, j);
      var e := EndsAvoiding(links, s, d);
      UpAdd(more, id, j, 1 + e);
      assert Up(more, s, 1 + e) == Up(more, d, e);
      k := j + (1 + e);
    } else {
      UpUnchanged(links, more, s, id, n);
      k := n;
    }
  }

  /** A new leaf. */
  lemma LeafKeeps(links: Links, leaf: nat, d: nat)
    requires Acyclic(links) && leaf !in links && leaf != 0 && (d == 0 || d in links)
    requires forall id | id in links :: links[id] != leaf
    ensures Acyclic(links[leaf := d])
  {
    var more := links[leaf := d];
    forall id | id in more ensures exists k: nat :: Up(more, id, k) == 0 {
      if id == leaf {
        var k := LeafEnds(links, leaf, d, d);
        assert Up(more, leaf, k + 1) == 0;
      } else {
        var k := LeafEnds(links, leaf, d, id);
      }
    }
  }

  lemma {:induction false} NeverLeaf(links: Links, leaf: nat, id: nat, j: nat)
    requires leaf !in links && leaf != 0 && (forall x | x in links :: links[x] != leaf) && id != leaf
    ensures Up(links, id, j) != leaf
    decreases j
  {
    if j > 0 {
      NeverLeaf(links, leaf, Parent(links, id), j - 1);
    }
  }

  lemma LeafEnds(links: Links, leaf: nat, d: nat, id: nat) returns (k: nat)
    requires Acyclic(links) && leaf !in links && leaf != 0 && (id == 0 || id in links)
    requires forall x | x in links :: links[x] != leaf
    ensures Up(links[leaf := d], id, k) == 0
  {
    k := 0;
    if id != 0 {
      k :| Up(links, id, k) == 0;
    }
    forall j: nat | j < k ensures Up(links, id, j) != leaf { NeverLeaf(links, leaf, id, j); }
    UpUnchanged(links, links[leaf := d], leaf, id, k);
  }
}
