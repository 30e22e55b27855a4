/** The write queue as a log of brackets: a Pending row opens a write, a Success or Fail row
    closes it. `Flush` takes out every adjacent pair and queues the stripes for parity. */
module WriteQueue {
  import opened Tables

  type Log = seq<LogRow>

  // ----- one chunk's log -----

  /** The rows of one chunk, in the order they were inserted. */
  function Of(log: Log, c: ChunkId): Log {
    if log == [] then []
    else Of(log[..|log| - 1], c) + if log[|log| - 1].chunk == c then [log[|log| - 1]] else []
  }

  predicate IsPair(prev: LogRow, cur: LogRow) {
    prev.chunk == cur.chunk && prev.status == Pending && cur.status != Pending
  }

  /** One pass of cancellation. */
  function Cancel(w: Log): Log {
    if |w| < 2 then w
    else if IsPair(w[0], w[1]) then Cancel(w[2..])
    else [w[0]] + Cancel(w[1..])
  }

  function Weight(r: LogRow): int { if r.status == Pending then 1 else -1 }

  /** Writes opened minus writes closed. */
  function Balance(w: Log): int { if w == [] then 0 else Weight(w[0]) + Balance(w[1..]) }

  /** The lowest balance of any prefix. */
  function Low(w: Log): (m: int)
    ensures m <= 0
  {
    if w == [] then 0
    else
      var m := Weight(w[0]) + Low(w[1..]);
      if m < 0 then m else 0
  }

  ghost predicate OneChunk(w: Log, c: ChunkId) { forall r | r in w :: r.chunk == c }

  ghost predicate NoPair(w: Log) { forall i | 0 < i < |w| :: !IsPair(w[i - 1], w[i]) }

  lemma {:induction false} CancelKeepsBalance(w: Log)
    ensures Balance(Cancel(w)) == Balance(w) && Low(Cancel(w)) == Low(w) && |Cancel(w)| <= |w|
    ensures forall r | r in Cancel(w) :: r in w
  {
    if |w| >= 2 {
      if IsPair(w[0], w[1]) {
        CancelKeepsBalance(w[2..]);
        assert w[1..][1..] == w[2..];
      } else {
        CancelKeepsBalance(w[1..]);
        var c := [w[0]] + Cancel(w[1..]);
        assert c[1..] == Cancel(w[1..]);
      }
    }
  }

  /** A pass that takes nothing out met no pair; otherwise it takes out at least two rows. */
  lemma {:induction false} CancelShrinks(w: Log)
    ensures |Cancel(w)| == |w| ==> Cancel(w) == w
    ensures |Cancel(w)| == |w| <==> NoPair(w)
    ensures |Cancel(w)| < |w| ==> |Cancel(w)| + 2 <= |w|
  {
    if |w| >= 2 {
      if IsPair(w[0], w[1]) {
        CancelKeepsBalance(w[2..]);
      } else {
        CancelShrinks(w[1..]);
        assert w == [w[0]] + w[1..];
        if NoPair(w[1..]) {
          forall i | 0 < i < |w| ensures !IsPair(w[i - 1], w[i]) {
            if i > 1 { assert !IsPair(w[1..][i - 2], w[1..][i - 1]); }
          }
        } else {
          var i :| 0 < i < |w[1..]| && IsPair(w[1..][i - 1], w[1..][i]);
          assert IsPair(w[i], w[i + 1]);
        }
      }
    }
  }

  /** What repeated passes leave. */
  function Settle(w: Log): (r: Log)
    decreases |w|
  {
    if |Cancel(w)| < |w| then Settle(Cancel(w)) else w
  }

  /** Without adjacent pairs the closing rows all come first. */
  lemma {:induction false} NoPairShape(w: Log, c: ChunkId)
    requires OneChunk(w, c) && NoPair(w) && w != []
    ensures w[0].status == Pending ==> Balance(w) == |w|
    ensures w[0].status != Pending ==> Low(w) < 0
  {
    if |w| > 1 {
      var t := w[1..];
      forall i | 0 < i < |t| ensures !IsPair(t[i - 1], t[i]) { assert !IsPair(w[i], w[i + 1]); }
      NoPairShape(t, c);
      assert !IsPair(w[0], w[1]);
    }
  }

  /** Repeated passes end without a pair, keep the balance, and empty exactly the logs that
      are balanced with no negative prefix. */
  lemma {:induction false} SettleIff(w: Log, c: ChunkId)
    requires OneChunk(w, c)
    ensures NoPair(Settle(w)) && Balance(Settle(w)) == Balance(w) && Low(Settle(w)) == Low(w)
    ensures Settle(w) == [] <==> Balance(w) == 0 && Low(w) == 0
    decreases |w|
  {
    CancelKeepsBalance(w);
    CancelShrinks(w);
    if |Cancel(w)| < |w| {
      SettleIff(Cancel(w), c);
    } else if w != [] {
      NoPairShape(w, c);
    }
  }

  // ----- one flush over the table -----

  /** An empty selection means the whole table. */
  predicate Selected(ids: seq<ChunkId>, c: ChunkId) { ids == [] || c in ids }

  /** The rows in the order of the query: by chunk, then by id. */
  function Entries(log: Log, ids: seq<ChunkId>, n: nat): Log {
    if n == 0 then []
    else Entries(log, ids, n - 1) + if Selected(ids, n - 1) then Of(log, n - 1) else []
  }

  /** The row belongs to an adjacent pair. */
  predicate Done(e: Log, k: nat)
    requires k < |e|
  {
    (k + 1 < |e| && IsPair(e[k], e[k + 1])) || (k > 0 && IsPair(e[k - 1], e[k]))
  }

  ghost predicate DoneIds(e: Log, del: set<nat>) {
    forall id :: id in del <==> exists k :: 0 <= k < |e| && Done(e, k) && e[k].id == id
  }

  function Kept(log: Log, del: set<nat>): Log {
    if log == [] then [] else (if log[0].id in del then [] else [log[0]]) + Kept(log[1..], del)
  }

  /** Row ids ascend in the order of insertion. */
  ghost predicate Ascending(log: Log) { forall i, j | 0 <= i < j < |log| :: log[i].id < log[j].id }

  lemma {:induction false} OfSelects(log: Log, c: ChunkId)
    ensures forall r :: r in Of(log, c) <==> r in log && r.chunk == c
    ensures Ascending(log) ==> Ascending(Of(log, c))
  {
    if log != [] {
      var m := |log| - 1;
      OfSelects(log[..m], c);
      assert log == log[..m] + [log[m]];
      if Ascending(log) {
        var w := Of(log[..m], c);
        forall i | 0 <= i < |w| ensures w[i].id < log[m].id {
          assert w[i] in log[..m];
        }
      }
    }
  }

  lemma {:induction false} KeptSelects(log: Log, del: set<nat>)
    ensures forall r :: r in Kept(log, del) <==> r in log && r.id !in del
  {
    if log != [] {
      KeptSelects(log[1..], del);
      assert log == [log[0]] + log[1..];
    }
  }

  /** Projection and deletion commute. */
  lemma {:induction false} KeptOf(log: Log, del: set<nat>, c: ChunkId)
    ensures Of(Kept(log, del), c) == Kept(Of(log, c), del)
  {
    if log != [] {
      var m := |log| - 1;
      KeptOf(log[..m], del, c);
      KeptSnoc(log[..m], log[m], del);
      assert log == log[..m] + [log[m]];
      var k := Kept(log[..m], del);
      if log[m].id !in del { assert (k + [log[m]])[..|k|] == k; } else { assert k + [] == k; }
      if log[m].chunk == c { KeptSnoc(Of(log[..m], c), log[m], del); } else { assert Of(log, c) == Of(log[..m], c); }
    }
  }

  lemma {:induction false} KeptSnoc(log: Log, r: LogRow, del: set<nat>)
    ensures Kept(log + [r], del) == Kept(log, del) + if r.id in del then [] else [r]
  {
    if log != [] {
      KeptSnoc(log[1..], r, del);
      assert (log + [r])[1..] == log[1..] + [r];
    }
  }

  /** Deleting the rows of all pairs at once is one pass of cancellation. */
  lemma {:induction false} KeptIsCancel(w: Log, del: set<nat>)
    requires forall k | 0 <= k < |w| :: w[k].id in del <==> Done(w, k)
    ensures Kept(w, del) == Cancel(w)
  {
    if |w| >= 2 {
      var n := if IsPair(w[0], w[1]) then 2 else 1;
      var t := w[n..];
      forall k | 0 <= k < |t| ensures t[k].id in del <==> Done(t, k) {
        assert t[k] == w[k + n] && (Done(w, k + n) <==> Done(t, k));
      }
      KeptIsCancel(t, del);
      assert Done(w, 0) <==> n == 2;
      if n == 2 {
        assert Done(w, 1) && w[1..][1..] == t && w[1..][0] == w[1];
      }
    }
  }

  lemma {:induction false} EntriesRow(log: Log, ids: seq<ChunkId>, n: nat, r: LogRow)
    ensures r in Entries(log, ids, n) <==> r in log && r.chunk < n && Selected(ids, r.chunk)
  {
    if n > 0 {
      EntriesRow(log, ids, n - 1, r);
      OfSelects(log, n - 1);
    }
  }

  lemma JoinSegments(a: Log, w: Log, b: Log, last: Log)
    ensures (a + w + b) + last == a + w + (b + last)
  {
  }

  /** In the query's order the rows of a chunk stand together. */
  lemma {:induction false} EntriesSplit(log: Log, ids: seq<ChunkId>, n: nat, c: ChunkId) returns (a: Log, b: Log)
    requires c < n && Selected(ids, c)
    ensures Entries(log, ids, n) == a + Of(log, c) + b
    ensures (forall r | r in a :: r.chunk != c) && (forall r | r in b :: r.chunk != c)
  {
    hide Of;
    if c == n - 1 {
      a, b := Entries(log, ids, n - 1), [];
      forall r | r in a ensures r.chunk != c { EntriesRow(log, ids, n - 1, r); }
      assert a + Of(log, c) + b == a + Of(log, c);
    } else {
      var b';
      a, b' := EntriesSplit(log, ids, n - 1, c);
      var last := if Selected(ids, n - 1) then Of(log, n - 1) else [];
      OfSelects(log, n - 1);
      b := b' + last;
      JoinSegments(a, Of(log, c), b', last);
    }
  }

  /** Pairs never reach across chunks. */
  lemma DoneInSegment(a: Log, w: Log, b: Log, c: ChunkId, k: nat)
    requires OneChunk(w, c) && k < |w|
    requires (forall r | r in a :: r.chunk != c) && (forall r | r in b :: r.chunk != c)
    ensures Done(a + w + b, |a| + k) <==> Done(w, k)
  {
    var e, m := a + w + b, |a| + k;
    assert e[m] == w[k];
    if k + 1 < |w| { assert e[m + 1] == w[k + 1]; } else if m + 1 < |e| { assert e[m + 1] == b[0]; }
    if k > 0 { assert e[m - 1] == w[k - 1]; } else if m > 0 { assert e[m - 1] == a[|a| - 1]; }
  }

  lemma UniqueId(log: Log, r: LogRow, q: LogRow)
    requires Ascending(log) && r in log && q in log && r.id == q.id
    ensures r == q
  {
    var i :| 0 <= i < |log| && log[i] == r;
    var j :| 0 <= j < |log| && log[j] == q;
  }

  /** A row of a selected chunk is deleted exactly when it is half of a pair of its chunk. */
  lemma DeletedRow(log: Log, ids: seq<ChunkId>, n: nat, del: set<nat>, c: ChunkId, k: nat)
    requires Ascending(log) && c < n && Selected(ids, c) && DoneIds(Entries(log, ids, n), del)
    requires k < |Of(log, c)|
    ensures Of(log, c)[k].id in del <==> Done(Of(log, c), k)
  {
    var w, e := Of(log, c), Entries(log, ids, n);
    var a, b := EntriesSplit(log, ids, n, c);
    OfSelects(log, c);
    DoneInSegment(a, w, b, c, k);
    assert e[|a| + k] == w[k];
    if w[k].id in del {
      var m :| 0 <= m < |e| && Done(e, m) && e[m].id == w[k].id;
      EntriesRow(log, ids, n, e[m]);
      assert w[k] in w;
      UniqueId(log, e[m], w[k]);
      SameRowSamePlace(a, w, b, c, m, k);
    }
  }

  lemma RowElsewhere(a: Log, w: Log, b: Log, m: nat)
    requires m < |a + w + b|
    ensures m < |a| ==> (a + w + b)[m] in a
    ensures |a| + |w| <= m ==> (a + w + b)[m] in b
  {
    if |a| + |w| <= m { assert (a + w + b)[m] == b[m - |a| - |w|]; }
  }

  lemma SameRowSamePlace(a: Log, w: Log, b: Log, c: ChunkId, m: nat, k: nat)
    requires OneChunk(w, c) && Ascending(w) && k < |w| && m < |a + w + b| && (a + w + b)[m] == w[k]
    requires (forall r | r in a :: r.chunk != c) && (forall r | r in b :: r.chunk != c)
    ensures m == |a| + k
  {
    assert w[k] in w;
    RowElsewhere(a, w, b, m);
  }

  /** What a flush does to the log of every chunk. */
  lemma FlushProjects(log: Log, ids: seq<ChunkId>, n: nat, del: set<nat>, c: ChunkId)
    requires Ascending(log) && (forall r | r in log :: r.chunk < n) && DoneIds(Entries(log, ids, n), del)
    ensures Of(Kept(log, del), c) == if Selected(ids, c) then Cancel(Of(log, c)) else Of(log, c)
  {
    KeptOf(log, del, c);
    OfSelects(log, c);
    var w := Of(log, c);
    if c < n && Selected(ids, c) {
      forall k | 0 <= k < |w| ensures w[k].id in del <==> Done(w, k) {
        DeletedRow(log, ids, n, del, c, k);
      }
      KeptIsCancel(w, del);
    } else {
      forall r | r in w ensures r.id !in del {
        UnselectedRow(log, ids, n, del, r);
      }
      KeptAll(w, del);
      if w != [] { assert w[0] in w; }
    }
  }

  lemma UnselectedRow(log: Log, ids: seq<ChunkId>, n: nat, del: set<nat>, r: LogRow)
    requires Ascending(log) && DoneIds(Entries(log, ids, n), del) && r in log
    requires r.chunk >= n || !Selected(ids, r.chunk)
    ensures r.id !in del
  {
    var e := Entries(log, ids, n);
    if r.id in del {
      var m :| 0 <= m < |e| && Done(e, m) && e[m].id == r.id;
      EntriesRow(log, ids, n, e[m]);
      UniqueId(log, e[m], r);
    }
  }

  lemma {:induction false} KeptAll(w: Log, del: set<nat>)
    requires forall r | r in w :: r.id !in del
    ensures Kept(w, del) == w
  {
    if w != [] {
      assert w[0] in w;
      KeptAll(w[1..], del);
      assert w == [w[0]] + w[1..];
    }
  }

  lemma {:induction false} OfAppend(log: Log, more: Log, c: ChunkId)
    ensures Of(log + more, c) == Of(log, c) + Of(more, c)
  {
    if more == [] {
      assert log + more == log;
    } else {
      var m := |more| - 1;
      assert (log + more)[..|log + more| - 1] == log + more[..m];
      OfAppend(log, more[..m], c);
    }
  }

  /** Each chunk has at most one of the rows. */
  lemma {:induction false} OneRowEach(rows: Log, c: ChunkId)
    requires forall i, j | 0 <= i < j < |rows| :: rows[i].chunk != rows[j].chunk
    ensures (forall i | 0 <= i < |rows| :: rows[i].chunk != c) ==> Of(rows, c) == []
    ensures forall i | 0 <= i < |rows| && rows[i].chunk == c :: Of(rows, c) == [rows[i]]
  {
    if rows != [] {
      OneRowEach(rows[..|rows| - 1], c);
    }
  }
}
