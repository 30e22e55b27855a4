/** Giving out chunk slots: reserved slots first, then whole new stripes. */
module Allocation {
  import opened Bytes
  import opened Wrappers
  import opened Tables
  import opened Database
  import opened Sequences
  import opened Layout

  datatype AllocError = PoolOffline | ChunkTooLarge | BadStripeCapacity | DisksOffline

  datatype AllocResult = Granted(ids: seq<ChunkId>) | Refused(error: AllocError)

  /** What the query for reserved slots may return: some of them, at most `n`. */
  predicate IsPick(chunks: seq<Chunk>, reserved: seq<ChunkId>, n: nat) {
    && |reserved| <= n && Distinct(reserved)
    && forall k | 0 <= k < |reserved| ::
         reserved[k] < |chunks| && chunks[reserved[k]].status == Reserved && chunks[reserved[k]].kind == DataChunk
  }

  predicate Carries(c: Chunk, data: Data) { IsData(c) && c.size == |data| && c.hash == Some(data) }

  predicate Blank(c: Chunk) { c.status == Reserved && c.size == 0 && c.hash == None }

  function Filled(c: Chunk, data: Data): Chunk { c.(status := Allocated, size := |data|, hash := Some(data)) }

  /** The chunks given out carry the items in order: first the reserved slots picked, then
      slots of new stripes. No other row changes, and what the new stripes have left over
      stays reserved. */
  ghost predicate Grants(p: Pool, q: Pool, items: seq<Data>, reserved: seq<ChunkId>, ids: seq<ChunkId>) {
    var n := |p.chunks|;
    && q == p.(chunks := q.chunks, stripes := q.stripes, paths := q.paths)
    && |ids| == |items| && Distinct(ids) && |reserved| <= |ids| && ids[..|reserved|] == reserved
    && n <= |q.chunks| && p.stripes <= q.stripes && q.paths - p.paths == |q.chunks| - n
    && (forall k | 0 <= k < |ids| :: ids[k] < |q.chunks| && Carries(q.chunks[ids[k]], items[k]))
    && (forall k | |reserved| <= k < |ids| :: ids[k] >= n)
    && (forall c | 0 <= c < n :: SameSlot(p.chunks[c], q.chunks[c]) && q.chunks[c].loc == p.chunks[c].loc)
    && (forall c | 0 <= c < n && c !in reserved :: q.chunks[c] == p.chunks[c])
    && (forall c | n <= c < |q.chunks| :: IsNewRow(p, q.chunks[c]))
    && (forall c | n <= c < |q.chunks| && c !in ids :: Blank(q.chunks[c]))
  }

  /** A row of a new stripe, given out or left over. */
  ghost predicate IsNewRow(p: Pool, c: Chunk) {
    c.stripe >= p.stripes && c.loc.path >= p.paths && (IsData(c) || Blank(c))
  }

  /** The fewest stripes with room for `need` chunks. */
  ghost predicate FewestStripes(p: Pool, q: Pool, need: nat) {
    var n := q.stripes - p.stripes;
    && (need == 0 ==> n == 0)
    && (need > 0 ==> n > 0 && (n - 1) * p.ds < need <= n * p.ds)
    && |q.chunks| - |p.chunks| == n * (p.ds + p.ps)
  }

  // ----- which new rows are given out -----

  /** Positions of the written data rows among the first `n`. */
  function Chosen(rows: seq<Chunk>, n: nat): seq<nat>
    requires n <= |rows|
  {
    if n == 0 then [] else Chosen(rows, n - 1) + if IsData(rows[n - 1]) then [n - 1] else []
  }

  lemma {:induction false} ChosenPrefix(a: seq<Chunk>, b: seq<Chunk>, n: nat)
    requires n <= |a|
    ensures Chosen(a + b, n) == Chosen(a, n)
  {
    if n > 0 {
      ChosenPrefix(a, b, n - 1);
    }
  }

  lemma {:induction false} ChosenRun(rows: seq<Chunk>, m: nat, n: nat, batch: nat)
    requires m <= n <= |rows| && forall i | m <= i < n :: IsData(rows[i]) <==> i < m + batch
    ensures Chosen(rows, n) == Chosen(rows, m) + seq(if n - m < batch then n - m else batch, i requires i >= 0 => m + i)
  {
    if m < n {
      ChosenRun(rows, m, n - 1, batch);
    }
  }

  // ----- new stripes -----

  function Extended(p: Pool, rows: seq<Chunk>, stripes: nat): Pool {
    p.(chunks := p.chunks + rows, stripes := p.stripes + stripes, paths := p.paths + |rows|)
  }

  /** The rows made so far for the first `done` items. */
  ghost predicate Growing(p: Pool, rows: seq<Chunk>, items: seq<Data>, done: nat) {
    && done <= |items|
    && (forall m | 0 <= m < |rows| :: IsNewRow(p, rows[m]))
    && var at := Chosen(rows, |rows|);
      && |at| == done
      && (forall k | 0 <= k < done :: at[k] < |rows| && Carries(rows[at[k]], items[k]))
      && (forall m | m in at :: m < |rows|)
      && (forall i, j | 0 <= i < j < done :: at[i] < at[j])
  }

  method StripeRows(db: PoolDb, s: StripeId, firstPath: nat, order: seq<DiskId>, batch: seq<Data>)
    returns (rows: seq<Chunk>)
    requires |order| == db.ds + db.ps && |batch| <= db.ds
    ensures |rows| == |order|
    ensures forall i | 0 <= i < |rows| ::
              rows[i] == SlotRow(db.ds, s, i, order[i], firstPath + i, if i < |batch| then Some(batch[i]) else None)
  {
    rows := [];
    for i := 0 to |order|
      invariant |rows| == i
      invariant forall m | 0 <= m < i ::
                  rows[m] == SlotRow(db.ds, s, m, order[m], firstPath + m, if m < |batch| then Some(batch[m]) else None)
    {
      var kind := if i < db.ds then DataChunk else ParityChunk;
      var status := Reserved;
      var size := 0;
      var hash := None;
      if i < |batch| {
        status, size, hash := Allocated, |batch[i]|, Some(batch[i]);
      }
      var idx := if i >= db.ds then i - db.ds else i;
      rows := rows + [Chunk(status, kind, s, idx, Loc(order[i], firstPath + i), size, hash)];
    }
  }

  lemma GrowChosen(rows: seq<Chunk>, more: seq<Chunk>, batch: nat)
    requires batch <= |more| && forall i | 0 <= i < |more| :: IsData(more[i]) <==> i < batch
    ensures Chosen(rows + more, |rows + more|) == Chosen(rows, |rows|) + seq(batch, i requires i >= 0 => |rows| + i)
  {
    var all := rows + more;
    ChosenPrefix(rows, more, |rows|);
    forall i | |rows| <= i < |all| ensures IsData(all[i]) <==> i < |rows| + batch {
      assert all[i] == more[i - |rows|];
    }
    ChosenRun(all, |rows|, |all|, batch);
  }

  lemma Grow(p: Pool, rows: seq<Chunk>, stripes: nat, items: seq<Data>, done: nat, order: seq<DiskId>, batch: nat,
             more: seq<Chunk>)
    requires LaidOut(Extended(p, rows, stripes)) && Growing(p, rows, items, done) && p.ds > 0 && batch <= p.ds
    requires done + batch <= |items|
    requires |more| == |order| == p.ds + p.ps && Distinct(order) && forall i | 0 <= i < |order| :: order[i] < p.disks
    requires forall i | 0 <= i < |more| :: 
               more[i] == SlotRow(p.ds, p.stripes + stripes, i, order[i], p.paths + |rows| + i,
                                             if i < batch then Some(items[done + i]) else None)
    ensures LaidOut(Extended(p, rows + more, stripes + 1)) && Growing(p, rows + more, items, done + batch)
  {
    GrowLayout(p, rows, stripes, order, more);
    GrowChosen(rows, more, batch);
    GrowCarries(rows, more, items, done, batch, Chosen(rows, |rows|));
  }

  lemma GrowLayout(p: Pool, rows: seq<Chunk>, stripes: nat, order: seq<DiskId>, more: seq<Chunk>)
    requires LaidOut(Extended(p, rows, stripes)) && p.ds > 0 && IsStripe(Extended(p, rows, stripes), more, order)
    ensures LaidOut(Extended(p, rows + more, stripes + 1))
  {
    AddStripe(Extended(p, rows, stripes), more, order);
    assert p.chunks + rows + more == p.chunks + (rows + more);
  }

  lemma GrowCarries(rows: seq<Chunk>, more: seq<Chunk>, items: seq<Data>, done: nat, batch: nat, at: seq<nat>)
    requires |at| == done && batch <= |more| && done + batch <= |items|
    requires forall m | m in at :: m < |rows|
    requires forall k | 0 <= k < done :: at[k] < |rows| && Carries(rows[at[k]], items[k])
    requires forall i, j | 0 <= i < j < done :: at[i] < at[j]
    requires forall i | 0 <= i < batch :: Carries(more[i], items[done + i])
    ensures
      var all, to := rows + more, at + seq(batch, i requires i >= 0 => |rows| + i);
      && (forall m | m in to :: m < |all|)
      && (forall k | 0 <= k < done + batch :: to[k] < |all| && Carries(all[to[k]], items[k]))
      && (forall i, j | 0 <= i < j < done + batch :: to[i] < to[j])
  {
    var all, to := rows + more, at + seq(batch, i requires i >= 0 => |rows| + i);
    forall k | 0 <= k < done + batch ensures to[k] < |all| && Carries(all[to[k]], items[k]) {
      if k >= done { assert all[to[k]] == more[k - done]; }
    }
    forall i, j | 0 <= i < j < done + batch ensures to[i] < to[j] {
      if i < done { assert to[i] in at; }
    }
  }

  lemma Ceiling(need: nat, d: nat)
    requires d > 0 && need > 0
    ensures var n := (need + d - 1) / d; n > 0 && (n - 1) * d < need <= n * d
  {
    var a := need + d - 1;
    var n := a / d;
    assert a == n * d + a % d;
    assert (n - 1) * d == n * d - d;
    assert n <= 0 ==> n * d <= 0;
  }

  /** One stripe more or less. */
  lemma OneMore(k: int, d: int)
    ensures (k + 1) * d == k * d + d
  {
  }

  /** The stripes still to make have room for what remains. */
  ghost predicate Room(remaining: nat, left: int, d: nat) { left >= 0 && remaining <= left * d }

  lemma LessRoom(remaining: nat, left: int, d: nat, batch: nat)
    requires left > 0 && Room(remaining, left, d) && batch == if remaining < d then remaining else d
    ensures Room(remaining - batch, left - 1, d)
  {
    OneMore(left - 1, d);
  }

  /** The fewest stripes with room for all. */
  method CountStripes(need: nat, d: nat) returns (n: nat)
    requires d > 0 && need > 0
    ensures n > 0 && (n - 1) * d < need <= n * d && Room(need, n, d)
  {
    Ceiling(need, d);
    n := (need + d - 1) / d;
  }

  lemma NoRoom(remaining: nat, d: nat)
    requires Room(remaining, 0, d)
    ensures remaining == 0
  {
  }

  /** After `stripes` new stripes for the first `done` items. */
  ghost predicate Planned(p: Pool, rows: seq<Chunk>, stripes: nat, items: seq<Data>, done: nat) {
    LaidOut(Extended(p, rows, stripes)) && Growing(p, rows, items, done) && |rows| == stripes * (p.ds + p.ps)
  }

  method NextStripe(db: PoolDb, allNew: seq<Chunk>, s: nat, items: seq<Data>, newIdx: nat, batch: nat,
                    order: seq<DiskId>)
    returns (more: seq<Chunk>)
    requires db.ds > 0 && batch <= db.ds && newIdx + batch <= |items| && Planned(db.State(), allNew, s, items, newIdx)
    requires |order| == db.ds + db.ps && Distinct(order) && forall i | 0 <= i < |order| :: order[i] < db.disks
    ensures Planned(db.State(), more, s + 1, items, newIdx + batch)
  {
    var rows := StripeRows(db, db.stripes + s, db.paths + |allNew|, order, items[newIdx..newIdx + batch]);
    Grow(db.State(), allNew, s, items, newIdx, order, batch, rows);
    OneMore(s, db.ds + db.ps);
    more := allNew + rows;
  }

  /** Makes rows for the fewest stripes that hold the items. */
  method PlanStripes(db: PoolDb, items: seq<Data>, disks: seq<DiskId>, shuffle: nat -> seq<DiskId>)
    returns (allNew: seq<Chunk>, numStripes: nat)
    requires LaidOut(db.State()) && items != [] && |disks| == db.ds + db.ps && db.ds > 0
    requires (forall d | d in disks :: d < db.disks) && forall s :: Shuffled(shuffle(s), disks)
    ensures Planned(db.State(), allNew, numStripes, items, |items|)
    ensures numStripes > 0 && (numStripes - 1) * db.ds < |items| <= numStripes * db.ds
  {
    hide Planned, LaidOut, Room;
    numStripes := CountStripes(|items|, db.ds);
    allNew := [];
    var remaining: nat, newIdx: nat := |items|, 0;
    NothingPlanned(db.State(), items);
    for s := 0 to numStripes
      invariant remaining + newIdx == |items| && Room(remaining, numStripes - s, db.ds)
      invariant Planned(db.State(), allNew, s, items, newIdx)
    {
      var batch := if remaining < db.ds then remaining else db.ds;
      var order := shuffle(s);
      OrderOfDisks(order, disks, db.disks);
      LessRoom(remaining, numStripes - s, db.ds, batch);
      allNew := NextStripe(db, allNew, s, items, newIdx, batch, order);
      remaining := remaining - batch;
      newIdx := newIdx + batch;
    }
    NoRoom(remaining, db.ds);
  }

  lemma NothingPlanned(p: Pool, items: seq<Data>)
    requires LaidOut(p)
    ensures Planned(p, [], 0, items, 0)
  {
    assert Extended(p, [], 0) == p;
  }

  lemma OrderOfDisks(order: seq<DiskId>, disks: seq<DiskId>, n: nat)
    requires Shuffled(order, disks) && forall d | d in disks :: d < n
    ensures forall i | 0 <= i < |order| :: order[i] < n
  {
    forall i | 0 <= i < |order| ensures order[i] < n { assert order[i] in order; }
  }

  method NewStripes(db: PoolDb, items: seq<Data>, disks: seq<DiskId>, shuffle: nat -> seq<DiskId>)
    returns (ids: seq<ChunkId>)
    requires LaidOut(db.State()) && items != [] && |disks| == db.ds + db.ps && db.ds > 0
    requires (forall d | d in disks :: d < db.disks) && forall s :: Shuffled(shuffle(s), disks)
    modifies db`chunks, db`stripes, db`paths
    ensures Grants(old(db.State()), db.State(), items, [], ids)
    ensures FewestStripes(old(db.State()), db.State(), |items|)
    ensures LaidOut(db.State())
  {
    var allNew, numStripes := PlanStripes(db, items, disks, shuffle);
    ids := CollectAllocated(allNew, |db.chunks|);
    ghost var p, q := db.State(), Extended(db.State(), allNew, numStripes);
    GrownGrants(p, q, allNew, items, ids);
    db.chunks := db.chunks + allNew;
    db.stripes := db.stripes + numStripes;
    db.paths := db.paths + |allNew|;
    assert db.State() == q;
  }

  method CollectAllocated(rows: seq<Chunk>, base: nat) returns (ids: seq<ChunkId>)
    ensures |ids| == |Chosen(rows, |rows|)| && forall k | 0 <= k < |ids| :: ids[k] == base + Chosen(rows, |rows|)[k]
  {
    ids := [];
    for i := 0 to |rows|
      invariant |ids| == |Chosen(rows, i)| && forall k | 0 <= k < |ids| :: ids[k] == base + Chosen(rows, i)[k]
    {
      if rows[i].kind == DataChunk && rows[i].status == Allocated {
        ids := ids + [base + i];
      }
    }
  }

  lemma {:induction false} ChosenHas(rows: seq<Chunk>, n: nat, m: nat)
    requires m < n <= |rows| && IsData(rows[m])
    ensures m in Chosen(rows, n)
  {
    if m < n - 1 {
      ChosenHas(rows, n - 1, m);
    }
  }

  lemma GrownGrants(p: Pool, q: Pool, rows: seq<Chunk>, items: seq<Data>, ids: seq<ChunkId>)
    requires Growing(p, rows, items, |items|) && p.stripes <= q.stripes && q == Extended(p, rows, q.stripes - p.stripes)
    requires |ids| == |items| && forall k | 0 <= k < |ids| :: ids[k] == |p.chunks| + Chosen(rows, |rows|)[k]
    ensures Grants(p, q, items, [], ids)
  {
    hide Carries, Blank, IsNewRow, Chosen;
    Appended(p, p.chunks, rows);
    GivenOut(p, p.chunks, rows, items, ids);
  }

  lemma Appended(p: Pool, a: seq<Chunk>, b: seq<Chunk>)
    requires forall m | 0 <= m < |b| :: IsNewRow(p, b[m])
    ensures forall c | |a| <= c < |a + b| :: IsNewRow(p, (a + b)[c])
  {
  }

  lemma GivenOut(p: Pool, a: seq<Chunk>, rows: seq<Chunk>, items: seq<Data>, ids: seq<ChunkId>)
    requires Growing(p, rows, items, |items|) && |ids| == |items|
    requires forall k | 0 <= k < |ids| :: ids[k] == |a| + Chosen(rows, |rows|)[k]
    ensures Distinct(ids)
    ensures forall k | 0 <= k < |ids| :: |a| <= ids[k] < |a + rows| && Carries((a + rows)[ids[k]], items[k])
    ensures forall c | |a| <= c < |a + rows| && c !in ids :: Blank((a + rows)[c])
  {
    hide Carries, Blank;
    forall c | |a| <= c < |a + rows| && c !in ids ensures Blank((a + rows)[c]) {
      var m := c - |a|;
      assert (a + rows)[c] == rows[m];
      if IsData(rows[m]) {
        ChosenHas(rows, |rows|, m);
      }
    }
  }

  // ----- the whole allocation -----

  method Activate(db: PoolDb, reserved: seq<ChunkId>, items: seq<Data>)
    requires |reserved| <= |items| && Distinct(reserved) && forall k | 0 <= k < |reserved| :: reserved[k] < |db.chunks|
    modifies db`chunks
    ensures |db.chunks| == |old(db.chunks)|
    ensures forall k | 0 <= k < |reserved| :: db.chunks[reserved[k]] == Filled(old(db.chunks)[reserved[k]], items[k])
    ensures forall c | 0 <= c < |db.chunks| && c !in reserved :: db.chunks[c] == old(db.chunks)[c]
  {
    for i := 0 to |reserved|
      invariant |db.chunks| == |old(db.chunks)|
      invariant forall k | 0 <= k < i :: db.chunks[reserved[k]] == Filled(old(db.chunks)[reserved[k]], items[k])
      invariant forall k | i <= k < |reserved| :: db.chunks[reserved[k]] == old(db.chunks)[reserved[k]]
      invariant forall c | 0 <= c < |db.chunks| && c !in reserved :: db.chunks[c] == old(db.chunks)[c]
    {
      var c := reserved[i];
      db.chunks := db.chunks[c := Filled(db.chunks[c], items[i])];
    }
  }

  ghost predicate TooLarge(items: seq<Data>, limit: nat) { exists k :: 0 <= k < |items| && |items[k]| > limit }

  method AnyTooLarge(items: seq<Data>, limit: nat) returns (b: bool)
    ensures b <==> TooLarge(items, limit)
  {
    for i := 0 to |items|
      invariant forall k | 0 <= k < i :: |items[k]| <= limit
    {
      if |items[i]| > limit {
        return true;
      }
    }
    b := false;
  }

  /** The allocation as one transaction; `reserved` is what the locking query returned and
      `shuffle` the order of the disks in each new stripe. */
  method AllocateSlots(db: PoolDb, disks: seq<DiskId>, items: seq<Data>, reserved: seq<ChunkId>,
                       shuffle: nat -> seq<DiskId>)
    returns (r: AllocResult)
    requires LaidOut(db.State()) && IsPick(db.chunks, reserved, |items|)
    requires (forall d | d in disks :: d < db.disks) && forall s :: Shuffled(shuffle(s), disks)
    modifies db`chunks, db`stripes, db`paths
    ensures r.Granted? <==> |items| == |reserved| || |disks| == db.ds + db.ps > 0
    ensures r.Refused? ==> db.State() == old(db.State())
    ensures r.Refused? ==> r.error == if db.ds + db.ps == 0 then BadStripeCapacity else DisksOffline
    ensures r.Granted? ==> Grants(old(db.State()), db.State(), items, reserved, r.ids)
    ensures r.Granted? ==> FewestStripes(old(db.State()), db.State(), |items| - |reserved|)
    ensures LaidOut(db.State())
  {
    hide Grants, FewestStripes, LaidOut, Distinct;
    ghost var p := db.State();
    var need := |items| - |reserved|;
    var newIds := [];
    NothingGranted(p);
    if db.ds + db.ps > 0 { SomeData(p); }
    if need > 0 {
      if db.ds + db.ps <= 0 {
        return Refused(BadStripeCapacity);
      }
      if |disks| != db.ds + db.ps {
        return Refused(DisksOffline);
      }
      newIds := NewStripes(db, items[|reserved|..], disks, shuffle);
    }
    ghost var m := db.State();
    assert need == 0 ==> items[|reserved|..] == [];
    ReuseReserved(db, p, reserved, items, newIds);
    FewestKept(p, m, db.State(), need);
    r := Granted(reserved + newIds);
  }

  lemma SomeData(p: Pool)
    requires LaidOut(p) && p.ds + p.ps > 0
    ensures p.ds > 0
  {
  }

  lemma NothingGranted(p: Pool)
    ensures Grants(p, p, [], [], []) && FewestStripes(p, p, 0)
  {
  }

  /** Filling in slots makes no stripes. */
  lemma FewestKept(p: Pool, m: Pool, q: Pool, need: nat)
    requires FewestStripes(p, m, need) && q.stripes == m.stripes && |q.chunks| == |m.chunks|
    ensures FewestStripes(p, q, need)
  {
  }

  /** Fills in the reserved slots that were picked. */
  method ReuseReserved(db: PoolDb, ghost p: Pool, reserved: seq<ChunkId>, items: seq<Data>, newIds: seq<ChunkId>)
    requires IsPick(p.chunks, reserved, |items|) && LaidOut(db.State())
    requires Grants(p, db.State(), items[|reserved|..], [], newIds)
    modifies db`chunks
    ensures Grants(p, db.State(), items, reserved, reserved + newIds)
    ensures LaidOut(db.State()) && |db.chunks| == |old(db.chunks)|
  {
    ghost var m := db.State();
    if |reserved| > 0 {
      Activate(db, reserved, items);
    }
    GrantsBoth(p, m, db.State(), items, reserved, newIds);
  }

  /** `limit` is the chunk size limit of the pool in bytes, `disks` its data disks online. */
  method GetNewChunks(db: PoolDb, online: bool, limit: nat, disks: seq<DiskId>, items: seq<Data>,
                      reserved: seq<ChunkId>, shuffle: nat -> seq<DiskId>)
    returns (r: AllocResult)
    requires LaidOut(db.State()) && IsPick(db.chunks, reserved, |items|)
    requires (forall d | d in disks :: d < db.disks) && forall s :: Shuffled(shuffle(s), disks)
    modifies db`chunks, db`stripes, db`paths
    ensures r.Granted? <==> online && !TooLarge(items, limit) && (|items| == |reserved| || |disks| == db.ds + db.ps > 0)
    ensures r.Refused? ==> db.State() == old(db.State())
    ensures r.Refused? ==> r.error == if !online then PoolOffline else if TooLarge(items, limit) then ChunkTooLarge
                                      else if db.ds + db.ps == 0 then BadStripeCapacity else DisksOffline
    ensures r.Granted? ==> Grants(old(db.State()), db.State(), items, reserved, r.ids)
    ensures r.Granted? ==> FewestStripes(old(db.State()), db.State(), |items| - |reserved|)
    ensures LaidOut(db.State())
  {
    if !online {
      return Refused(PoolOffline);
    }
    var tooLarge := AnyTooLarge(items, limit);
    if tooLarge {
      return Refused(ChunkTooLarge);
    }
    r := AllocateSlots(db, disks, items, reserved, shuffle);
  }

  lemma GrantsBoth(p: Pool, m: Pool, q: Pool, items: seq<Data>, reserved: seq<ChunkId>, newIds: seq<ChunkId>)
    requires LaidOut(m) && |reserved| <= |items| && IsPick(p.chunks, reserved, |items|)
    requires Grants(p, m, items[|reserved|..], [], newIds)
    requires q == m.(chunks := q.chunks) && |q.chunks| == |m.chunks|
    requires forall k | 0 <= k < |reserved| :: q.chunks[reserved[k]] == Filled(m.chunks[reserved[k]], items[k])
    requires forall c | 0 <= c < |q.chunks| && c !in reserved :: q.chunks[c] == m.chunks[c]
    ensures Grants(p, q, items, reserved, reserved + newIds)
    ensures LaidOut(q)
  {
    hide LaidOut;
    var ids := reserved + newIds;
    var n := |p.chunks|;
    forall c | c in reserved ensures c < n && SameSlot(m.chunks[c], q.chunks[c]) && q.chunks[c].loc == m.chunks[c].loc {
      var k :| 0 <= k < |reserved| && reserved[k] == c;
    }
    forall k | 0 <= k < |ids| ensures ids[k] < |q.chunks| && Carries(q.chunks[ids[k]], items[k]) {
      if k < |reserved| {
        assert ids[k] in reserved && m.chunks[ids[k]] == p.chunks[ids[k]];
      } else {
        assert items[k] == items[|reserved|..][k - |reserved|];
        assert ids[k] == newIds[k - |reserved|] && ids[k] !in reserved;
      }
    }
    forall i, j | 0 <= i < j < |ids| ensures ids[i] != ids[j] {
      if i < |reserved| <= j { assert ids[i] in reserved; }
    }
    forall c | n <= c < |q.chunks| && c !in ids ensures Blank(q.chunks[c]) {
      assert c !in newIds && c !in reserved;
    }
    FilledLaidOut(m, q);
  }

  lemma FilledLaidOut(m: Pool, q: Pool)
    requires LaidOut(m) && q == m.(chunks := q.chunks) && |q.chunks| == |m.chunks|
    requires forall c | 0 <= c < |q.chunks| :: SameSlot(m.chunks[c], q.chunks[c]) && q.chunks[c].loc == m.chunks[c].loc
    ensures LaidOut(q)
  {
    SameSlotsKeep(m, q);
  }
}
