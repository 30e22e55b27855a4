/** The slots of a pool: every stripe has one data slot an index below `ds` and one parity
    slot an index below `ps`, on distinct disks, each with a path of its own. */
module Layout {
  import opened Bytes
  import opened Wrappers
  import opened Tables
  import opened Database
  import opened Sequences

  function Shards(p: Pool, kind: ChunkKind): nat { if kind == DataChunk then p.ds else p.ps }

  predicate IsSlot(c: Chunk, s: StripeId, kind: ChunkKind, i: nat) { c.stripe == s && c.kind == kind && c.index == i }

  ghost predicate HasSlot(chunks: seq<Chunk>, s: StripeId, kind: ChunkKind, i: nat) {
    exists a :: 0 <= a < |chunks| && IsSlot(chunks[a], s, kind, i)
  }

  /** Two chunks of a stripe are different shards on different disks. */
  predicate Apart(a: Chunk, b: Chunk) {
    a.stripe == b.stripe ==> a.loc.disk != b.loc.disk && (a.kind != b.kind || a.index != b.index)
  }

  ghost predicate SlotsApart(chunks: seq<Chunk>) {
    forall a, b | 0 <= a < b < |chunks| :: Apart(chunks[a], chunks[b])
  }

  ghost predicate SlotsWithin(p: Pool) {
    forall a | 0 <= a < |p.chunks| :: p.chunks[a].stripe < p.stripes && p.chunks[a].index < Shards(p, p.chunks[a].kind)
  }

  ghost predicate SlotsFilled(p: Pool) {
    forall s: nat, kind, i: nat | s < p.stripes && i < Shards(p, kind) :: HasSlot(p.chunks, s, kind, i)
  }

  ghost predicate PathsApart(p: Pool) {
    && (forall a | 0 <= a < |p.chunks| :: p.chunks[a].loc.path < p.paths && p.chunks[a].loc.disk < p.disks)
    && (forall a, b | 0 <= a < b < |p.chunks| :: p.chunks[a].loc.path != p.chunks[b].loc.path)
  }

  ghost predicate LaidOut(p: Pool) {
    && SlotsApart(p.chunks) && SlotsWithin(p) && SlotsFilled(p) && PathsApart(p)
    && (p.ds == 0 ==> p.ps == 0 && p.stripes == 0)
  }

  /** No file is left in an empty slot, and paths still to be generated are unused. */
  ghost predicate SlotsEmpty(p: Pool) {
    && (forall c | 0 <= c < |p.chunks| && p.chunks[c].kind == DataChunk && p.chunks[c].status == Reserved ::
              p.chunks[c].loc !in p.files)
    && (forall l | l in p.files :: l.path < p.paths)
  }

  predicate SameSlot(a: Chunk, b: Chunk) {
    a.stripe == b.stripe && a.kind == b.kind && a.index == b.index && a.loc.disk == b.loc.disk
  }

  /** Changing what slots hold, or moving them to paths of their own, keeps the layout. */
  lemma SameSlotsKeep(p: Pool, q: Pool)
    requires LaidOut(p) && q.ds == p.ds && q.ps == p.ps && q.stripes == p.stripes && q.disks == p.disks
    requires |q.chunks| == |p.chunks| && forall a | 0 <= a < |p.chunks| :: SameSlot(p.chunks[a], q.chunks[a])
    requires PathsApart(q)
    ensures LaidOut(q)
  {
    forall a, b | 0 <= a < b < |q.chunks| ensures Apart(q.chunks[a], q.chunks[b]) {
      assert Apart(p.chunks[a], p.chunks[b]);
    }
    forall s: nat, kind, i: nat | s < q.stripes && i < Shards(q, kind) ensures HasSlot(q.chunks, s, kind, i) {
      assert HasSlot(p.chunks, s, kind, i);
      var a :| 0 <= a < |p.chunks| && IsSlot(p.chunks[a], s, kind, i);
      assert IsSlot(q.chunks[a], s, kind, i);
    }
  }

  /** One slot an index: the stripes of a pool have exactly `ds + ps` chunks between them. */
  lemma SlotIsUnique(p: Pool, a: nat, b: nat)
    requires LaidOut(p) && a < |p.chunks| && b < |p.chunks|
    requires IsSlot(p.chunks[a], p.chunks[b].stripe, p.chunks[b].kind, p.chunks[b].index)
    ensures a == b
  {
  }

  // ----- a new stripe -----

  /** The disks, one a slot, in an order of their own. */
  predicate Shuffled(order: seq<DiskId>, disks: seq<DiskId>) {
    Distinct(order) && |order| == |disks| && forall d | d in order :: d in disks
  }

  /** Slot `i` of a new stripe; `content` is what is to be written to it at once. */
  function SlotRow(ds: nat, s: StripeId, i: nat, disk: DiskId, path: nat, content: Option<Data>): Chunk {
    Chunk(if content.Some? then Allocated else Reserved, if i < ds then DataChunk else ParityChunk,
          s, if i < ds then i else i - ds, Loc(disk, path), if content.Some? then |content.value| else 0, content)
  }

  /** The rows are the slots of one new stripe. */
  ghost predicate IsStripe(p: Pool, rows: seq<Chunk>, order: seq<DiskId>) {
    && |rows| == |order| == p.ds + p.ps && Distinct(order) && (forall i | 0 <= i < |order| :: order[i] < p.disks)
    && forall i | 0 <= i < |rows| ::
         SameSlot(rows[i], SlotRow(p.ds, p.stripes, i, order[i], 0, None)) && rows[i].loc.path == p.paths + i
  }

  function WithStripe(p: Pool, rows: seq<Chunk>): Pool {
    p.(chunks := p.chunks + rows, stripes := p.stripes + 1, paths := p.paths + |rows|)
  }

  lemma NewStripeApart(p: Pool, rows: seq<Chunk>, order: seq<DiskId>, a: nat, b: nat)
    requires LaidOut(p) && IsStripe(p, rows, order) && a < b < |p.chunks| + |rows|
    ensures var cs := p.chunks + rows; Apart(cs[a], cs[b]) && cs[a].loc.path != cs[b].loc.path
  {
    var n := |p.chunks|;
    if b < n {
      assert Apart(p.chunks[a], p.chunks[b]);
    } else if a >= n {
      assert order[a - n] != order[b - n];
    }
  }

  lemma AddStripe(p: Pool, rows: seq<Chunk>, order: seq<DiskId>)
    requires LaidOut(p) && p.ds > 0 && IsStripe(p, rows, order)
    ensures LaidOut(WithStripe(p, rows))
  {
    var q := WithStripe(p, rows);
    forall a, b | 0 <= a < b < |q.chunks|
      ensures Apart(q.chunks[a], q.chunks[b]) && q.chunks[a].loc.path != q.chunks[b].loc.path
    {
      NewStripeApart(p, rows, order, a, b);
    }
    forall s: nat, kind, i: nat | s < q.stripes && i < Shards(q, kind) ensures HasSlot(q.chunks, s, kind, i) {
      if s < p.stripes {
        assert HasSlot(p.chunks, s, kind, i);
        var a :| 0 <= a < |p.chunks| && IsSlot(p.chunks[a], s, kind, i);
        assert IsSlot(q.chunks[a], s, kind, i);
      } else {
        var m := |p.chunks| + if kind == DataChunk then i else p.ds + i;
        assert q.chunks[m] == rows[m - |p.chunks|];
        assert IsSlot(q.chunks[m], s, kind, i);
      }
    }
  }

  // ----- a new disk -----

  /** The slot a new disk adds to each existing stripe. */
  function NewShard(p: Pool, parity: bool, s: StripeId): Chunk {
    Chunk(Reserved, if parity then ParityChunk else DataChunk, s, if parity then p.ps else p.ds,
          Loc(p.disks, p.paths + s), 0, None)
  }

  function WithDisk(p: Pool, parity: bool): Pool {
    p.(ds := if parity then p.ds else p.ds + 1, ps := if parity then p.ps + 1 else p.ps, disks := p.disks + 1,
       chunks := p.chunks + seq(p.stripes, s requires s >= 0 => NewShard(p, parity, s)), paths := p.paths + p.stripes)
  }

  lemma NewShardsApart(p: Pool, parity: bool, a: nat, b: nat)
    requires LaidOut(p) && a < b < |p.chunks| + p.stripes
    ensures var cs := WithDisk(p, parity).chunks; Apart(cs[a], cs[b]) && cs[a].loc.path != cs[b].loc.path
  {
    var cs, n := WithDisk(p, parity).chunks, |p.chunks|;
    if b < n {
      assert Apart(p.chunks[a], p.chunks[b]);
    } else {
      assert cs[b] == NewShard(p, parity, b - n);
      if a >= n { assert cs[a] == NewShard(p, parity, a - n); }
    }
  }

  lemma AddShards(p: Pool, parity: bool)
    requires LaidOut(p) && (parity ==> p.ds > 0)
    ensures LaidOut(WithDisk(p, parity))
  {
    var q := WithDisk(p, parity);
    var n := |p.chunks|;
    forall a, b | 0 <= a < b < |q.chunks|
      ensures Apart(q.chunks[a], q.chunks[b]) && q.chunks[a].loc.path != q.chunks[b].loc.path
    {
      NewShardsApart(p, parity, a, b);
    }
    forall s: nat, kind, i: nat | s < q.stripes && i < Shards(q, kind) ensures HasSlot(q.chunks, s, kind, i) {
      if i < Shards(p, kind) {
        assert HasSlot(p.chunks, s, kind, i);
        var a :| 0 <= a < n && IsSlot(p.chunks[a], s, kind, i);
        assert IsSlot(q.chunks[a], s, kind, i);
      } else {
        assert q.chunks[n + s] == NewShard(p, parity, s);
        assert IsSlot(q.chunks[n + s], s, kind, i);
      }
    }
  }
}
