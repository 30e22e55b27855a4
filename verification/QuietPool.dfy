/** From the parity protocol to recovery: a pool whose writes all reached the disk and whose
    queues are empty has only whole stripes, which survive the loss of disks. */
module QuietPool {
  import opened Wrappers
  import opened Tables
  import opened Database
  import opened Layout
  import opened ErasureCode
  import opened Allocation
  import opened ChunkStore
  import opened Flushing
  import opened CacheCoherence
  import opened ParityState
  import opened Stripes
  import opened StripeWorker
  import opened ParityWorker
  import opened DiskLoss
  import opened Freshness

  /** Every written data chunk that is on the disk is what its row says. */
  ghost predicate Described(p: Pool) {
    forall c | 0 <= c < |p.chunks| && IsData(p.chunks[c]) :: IsAsSaid(p, p.chunks[c])
  }

  ghost predicate IsAsSaid(p: Pool, c: Chunk) {
    c.hash.Some? && c.size == |c.hash.value| > 0 && (c.loc in p.files ==> p.files[c.loc] == c.hash.value)
  }

  /** The disk does what it is told, and it is told to write what the row says. */
  ghost predicate Succeeds(p: Pool, e: Event) {
    match e
    case Grant(items, _, _) => forall k | 0 <= k < |items| :: items[k] != []
    case WriteFiles(ids, data, outcomes) =>
      && AllWritten(outcomes) && |data| == |ids|
      && forall k | 0 <= k < |ids| && ids[k] < |p.chunks| :: p.chunks[ids[k]].hash == Some(data[k])
    case Redescribe(items) => forall k | 0 <= k < |items| && items[k].chunk < |p.chunks| ::
        items[k].data != [] && (p.chunks[items[k].chunk].loc in p.files ==>
          p.files[p.chunks[items[k].chunk].loc] == items[k].data)
    case _ => true
  }

  lemma GrantDescribes(p: Pool, q: Pool, e: Event)
    requires SlotsEmpty(p) && e.Grant? && IsPick(p.chunks, e.reserved, |e.items|)
    requires Grants(p, q, e.items, e.reserved, e.ids)
    requires Described(p) && Succeeds(p, e)
    ensures Described(q)
  {
    forall c: nat | c < |q.chunks| && IsData(q.chunks[c]) ensures IsAsSaid(q, q.chunks[c]) {
      if k :| 0 <= k < |e.ids| && e.ids[k] == c {
        GrantedIsUnwritten(p, q, e.items, e.reserved, e.ids, k);
        assert Carries(q.chunks[e.ids[k]], e.items[k]);
      } else if c < |p.chunks| {
        ReservedIsGranted(p, q, e.items, e.reserved, e.ids, c);
      }
    }
  }

  lemma WriteDescribes(p: Pool, q: Pool, e: Event)
    requires PathsApart(p) && e.WriteFiles? && FilesWritten(p, q, e.ids, e.data, e.outcomes) && Described(p)
    requires Succeeds(p, e)
    ensures Described(q)
  {
    forall c: nat | c < |q.chunks| && IsData(q.chunks[c]) ensures IsAsSaid(q, q.chunks[c]) {
      assert IsAsSaid(p, p.chunks[c]);
      if k :| 0 <= k < |e.ids| && p.chunks[e.ids[k]].loc == p.chunks[c].loc {
        OnlyOneThere(p, c);
        assert FileAfter(p.files, q.files, p.chunks[e.ids[k]].loc, e.data[k], e.outcomes[k]);
      } else {
        assert Elsewhere(p.chunks, e.ids, |e.ids|, p.chunks[c].loc);
        assert SameFile(p.files, q.files, p.chunks[c].loc);
      }
    }
  }

  lemma RedescribeDescribes(p: Pool, q: Pool, items: seq<WriteItem>)
    requires RowsFilled(p, q, items) && Described(p) && Succeeds(p, Redescribe(items))
    ensures Described(q)
  {
    forall c: nat | c < |q.chunks| && IsData(q.chunks[c]) ensures IsAsSaid(q, q.chunks[c]) {
      RowFilled(p, q, items, c);
    }
  }

  lemma FlushDescribes(p: Pool, q: Pool, ids: seq<ChunkId>, queued: seq<StripeId>)
    requires Flushed(p, q, ids, queued) && Described(p)
    ensures Described(q)
  {
    forall c: nat | c < |q.chunks| && IsData(q.chunks[c]) ensures IsAsSaid(q, q.chunks[c]) {
      assert IsAsSaid(p, p.chunks[c]);
    }
  }

  lemma SameDataDescribes(p: Pool, q: Pool)
    requires Described(p)
    requires forall c | 0 <= c < |q.chunks| && IsData(q.chunks[c]) :: c < |p.chunks| && q.chunks[c] == p.chunks[c]
    requires forall c | 0 <= c < |q.chunks| && IsData(q.chunks[c]) && q.chunks[c].loc in q.files ::
               q.chunks[c].loc in p.files && q.files[q.chunks[c].loc] == p.files[q.chunks[c].loc]
    ensures Described(q)
  {
    forall c: nat | c < |q.chunks| && IsData(q.chunks[c]) ensures IsAsSaid(q, q.chunks[c]) {
      assert IsAsSaid(p, p.chunks[c]);
    }
  }

  lemma StepDescribes(code: Code, a: State, e: Event, b: State)
    requires Tracked(code, a) && Step(code, a, e, b) && Described(a.pool) && Succeeds(a.pool, e)
    ensures Described(b.pool)
  {
    hide Described, Succeeds, Protected, Brackets, FilesWritten, Grants;
    var p, q := a.pool, b.pool;
    match e
    case Grant(_, _, _) => GrantDescribes(p, q, e);
    case WriteFiles(_, _, _) => WriteDescribes(p, q, e);
    case Redescribe(items) => RedescribeDescribes(p, q, items);
    case FlushQueue(ids, queued) => FlushDescribes(p, q, ids, queued);
    case CleanUp(flushed, queued) =>
      FlushDescribes(p, flushed, [], queued);
      SameDataDescribes(flushed, q);
    case WorkerRound =>
      RoundKeepsData(code, p, q);
      SameDataDescribes(p, q);
    case LogIntents(_) => SameDataDescribes(p, q);
    case LogResults(_, _) => SameDataDescribes(p, q);
    case ReleaseSlots(_, _, _) => SameDataDescribes(p, q);
    case DeleteFile(_) => SameDataDescribes(p, q);
  }

  lemma {:induction false} RunDescribes(code: Code, states: seq<State>, events: seq<Event>, n: nat)
    requires IsRun(code, states, events) && Tracked(code, states[0]) && Described(states[0].pool) && n < |states|
    requires forall i | 0 <= i < n :: Careful(code, states[i], events[i]) && Succeeds(states[i].pool, events[i])
    ensures Tracked(code, states[n]) && Described(states[n].pool)
  {
    if n > 0 {
      RunDescribes(code, states, events, n - 1);
      StepKeepsIff(code, states[n - 1], events[n - 1], states[n]);
      StepDescribes(code, states[n - 1], events[n - 1], states[n]);
    }
  }

  /** After any run in which the disks did what they were told, once the queues are empty and
      every chunk given out is on the disk, each stripe is whole. */
  lemma QuietIsWhole(code: Code, states: seq<State>, events: seq<Event>, n: nat, s: StripeId)
    requires IsRun(code, states, events) && Tracked(code, states[0]) && Described(states[0].pool) && n < |states|
    requires forall i | 0 <= i < n :: Careful(code, states[i], events[i]) && Succeeds(states[i].pool, events[i])
    requires states[n].pool.tasks == [] && states[n].pool.log == [] && s < states[n].pool.stripes
    requires !Unwritten(states[n].pool, s)
    ensures Whole(code, states[n].pool, s)
  {
    var p := states[n].pool;
    RunDescribes(code, states, events, n);
    QuietIsFresh(code, states[n], s);
    forall c | 0 <= c < |p.chunks| && IsData(p.chunks[c]) && p.chunks[c].stripe == s
      ensures IsAsSaid(p, p.chunks[c]) && p.chunks[c].loc in p.files
    {
    }
  }

  /** Every such stripe survives the loss of disks, as long as they and the slots never
      written are together at most as many as the parity shards. */
  lemma QuietSurvives(code: Code, states: seq<State>, events: seq<Event>, n: nat, s: StripeId, job: Job,
                      lost: set<DiskId>)
    requires IsRun(code, states, events) && Tracked(code, states[0]) && Described(states[0].pool) && n < |states|
    requires forall i | 0 <= i < n :: Careful(code, states[i], events[i]) && Succeeds(states[i].pool, events[i])
    requires states[n].pool.tasks == [] && states[n].pool.log == [] && s < states[n].pool.stripes
    requires !Unwritten(states[n].pool, s)
    requires IsJob(states[n].pool, s, job) && |lost| + UnwrittenCount(code, job, code.ds + code.ps) <= code.ps
    ensures Recoverable(code, job, WithoutDisks(states[n].pool.files, lost))
  {
    QuietIsWhole(code, states, events, n, s);
    DisksLost(code, states[n].pool, s, job, lost);
  }
}
