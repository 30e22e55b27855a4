/** When the parity of a stripe is up to date, in terms of the rows and files of the pool. */
module ParityState {
  import opened Bytes
  import opened Wrappers
  import opened Tables
  import opened Database
  import opened Layout
  import opened ErasureCode
  import opened Stripes

  /** Chunk `c` is slot `i` of the stripe and its data has reached the disk. */
  predicate HoldsData(p: Pool, c: nat, s: StripeId, i: nat) {
    c < |p.chunks| && IsData(p.chunks[c]) && p.chunks[c].stripe == s && p.chunks[c].index == i &&
      p.chunks[c].loc in p.files
  }

  ghost function SlotContent(p: Pool, s: StripeId, i: nat): Option<Data> {
    if exists c: nat :: HoldsData(p, c, s, i)
    then var c: nat :| HoldsData(p, c, s, i); Some(p.files[p.chunks[c].loc])
    else None
  }

  /** What the data slots of a stripe hold. */
  ghost function Content(p: Pool, s: StripeId): (r: Slots)
    ensures |r| == p.ds && forall i | 0 <= i < p.ds :: r[i] == SlotContent(p, s, i)
  {
    seq(p.ds, i requires i >= 0 => SlotContent(p, s, i))
  }

  lemma OneHolder(p: Pool, s: StripeId, i: nat, c: nat, d: nat)
    requires SlotsApart(p.chunks) && HoldsData(p, c, s, i) && HoldsData(p, d, s, i)
    ensures c == d
  {
  }

  lemma SlotContentIs(p: Pool, s: StripeId, i: nat, c: nat)
    requires SlotsApart(p.chunks) && HoldsData(p, c, s, i)
    ensures SlotContent(p, s, i) == Some(p.files[p.chunks[c].loc])
  {
    var d: nat :| HoldsData(p, d, s, i) && SlotContent(p, s, i) == Some(p.files[p.chunks[d].loc]);
    OneHolder(p, s, i, c, d);
  }

  ghost predicate NothingWritten(slots: Slots) { forall i | 0 <= i < |slots| :: slots[i].None? }

  /** The parity chunk holds the parity of what the data slots hold, and its row its digest;
      as long as nothing is written it need not be computed. */
  ghost predicate ParityIs(code: Code, c: Chunk, files: Files, slots: Slots) {
    if c.status == Allocated then
      && c.index < |Parity(code, slots)| && c.loc in files && files[c.loc] == Parity(code, slots)[c.index]
      && c.hash == Some(files[c.loc])
    else NothingWritten(slots)
  }

  /** The parity on the disks is the encoding of the data on the disks. */
  ghost predicate Fresh(code: Code, p: Pool, s: StripeId) {
    forall c | 0 <= c < |p.chunks| && p.chunks[c].kind == ParityChunk && p.chunks[c].stripe == s ::
      ParityIs(code, p.chunks[c], p.files, Content(p, s))
  }

  /** The same shard in the same state; the digest of a data chunk does not matter here. */
  predicate SameShard(a: Chunk, b: Chunk) {
    && a.kind == b.kind && a.stripe == b.stripe && a.index == b.index && a.loc == b.loc && a.status == b.status
    && (a.kind == ParityChunk ==> a.hash == b.hash)
  }

  /** The stripe has the same shards, and the same files behind those that are written. */
  ghost predicate SameStripe(p: Pool, q: Pool, s: StripeId) {
    && q.ds == p.ds && |p.chunks| <= |q.chunks|
    && (forall c | 0 <= c < |p.chunks| && p.chunks[c].stripe == s ::
          && SameShard(p.chunks[c], q.chunks[c])
          && (p.chunks[c].status == Allocated ==> SameFile(p.files, q.files, p.chunks[c].loc)))
    && (forall c | 0 <= c < |p.chunks| && q.chunks[c].stripe == s :: p.chunks[c].stripe == s)
    && (forall c | |p.chunks| <= c < |q.chunks| :: q.chunks[c].stripe != s)
  }

  lemma SameStripeSameSlot(p: Pool, q: Pool, s: StripeId, i: nat)
    requires SameStripe(p, q, s) && SlotsApart(p.chunks) && SlotsApart(q.chunks)
    ensures SlotContent(q, s, i) == SlotContent(p, s, i)
  {
    if c: nat :| HoldsData(p, c, s, i) {
      assert HoldsData(q, c, s, i);
      SlotContentIs(p, s, i, c);
      SlotContentIs(q, s, i, c);
    } else if c: nat :| HoldsData(q, c, s, i) {
      assert HoldsData(p, c, s, i);
    }
  }

  lemma SameStripeSameParity(code: Code, p: Pool, q: Pool, s: StripeId)
    requires SameStripe(p, q, s) && SlotsApart(p.chunks) && SlotsApart(q.chunks)
    ensures Content(q, s) == Content(p, s)
    ensures Fresh(code, p, s) ==> Fresh(code, q, s)
  {
    forall i | 0 <= i < p.ds ensures Content(q, s)[i] == Content(p, s)[i] {
      SameStripeSameSlot(p, q, s, i);
    }
  }

  /** The parity is on its way to be brought up to date: a parity task is queued, or the write
      queue has an intent, whose outcome queues one. */
  ghost predicate Covered(p: Pool, s: StripeId) { s in p.tasks || Intended(p, s) }

  ghost predicate Intended(p: Pool, s: StripeId) { exists r :: r in p.log && r.status == Pending && r.stripe == s }

  /** A chunk of the stripe was given out and is not on the disk. */
  ghost predicate Unwritten(p: Pool, s: StripeId) {
    exists c :: 0 <= c < |p.chunks| && IsData(p.chunks[c]) && p.chunks[c].stripe == s && p.chunks[c].loc !in p.files
  }
}
