/** The parity protocol as a state machine of writes, flushes, worker rounds, releases,
    deletions and clean-ups: exactly which steps keep every stripe whose parity is out of date
    on its way to new parity. */
module Freshness {
  import opened Bytes
  import opened Tables
  import opened Database
  import opened Sequences
  import opened Layout
  import opened ErasureCode
  import opened Stripes
  import opened Allocation
  import opened WriteQueue
  import opened Flushing
  import opened ChunkStore
  import opened Release
  import opened CacheCoherence
  import opened ParityState
  import opened ParityWorker

  /** The pool, and the writes whose intent is logged and whose outcome is not. */
  datatype State = State(pool: Pool, inflight: multiset<ChunkId>)

  // ----- what every state keeps -----

  ghost predicate LogSound(p: Pool) {
    && Ascending(p.log)
    && forall r | r in p.log ::
         r.id < p.rows && r.chunk < |p.chunks| && IsData(p.chunks[r.chunk]) && r.stripe == p.chunks[r.chunk].stripe
  }

  /** The log of a chunk is a bracket word whose depth is the number of its open writes. */
  ghost predicate Brackets(log: Log, inflight: multiset<ChunkId>) {
    forall c: nat :: Balance(Of(log, c)) == inflight[c] && Low(Of(log, c)) == 0
  }

  ghost predicate WritesOpen(p: Pool, inflight: multiset<ChunkId>) {
    forall c | c in inflight :: c < |p.chunks| && IsData(p.chunks[c])
  }

  /** There is parity only where there is data. */
  ghost predicate ParityNeeded(p: Pool) {
    forall c | 0 <= c < |p.chunks| && IsParity(p.chunks[c]) :: HasData(p.chunks, p.chunks[c].stripe)
  }

  /** The parity is the encoding of the data, or a task or an intent is there to make it so. */
  ghost predicate Guarded(code: Code, p: Pool, s: StripeId) { Fresh(code, p, s) || Covered(p, s) }

  ghost predicate Protected(code: Code, p: Pool) { forall s: nat | s < p.stripes :: Guarded(code, p, s) }

  ghost predicate Sound(code: Code, p: Pool) {
    && Lawful(code) && code.ds == p.ds && code.ps == p.ps
    && LaidOut(p) && LogSound(p) && SlotsEmpty(p) && ParityNeeded(p)
  }

  /** What every step keeps. */
  ghost predicate Grounded(code: Code, a: State) {
    Sound(code, a.pool) && Brackets(a.pool.log, a.inflight) && WritesOpen(a.pool, a.inflight)
  }

  ghost predicate Tracked(code: Code, a: State) { Grounded(code, a) && Protected(code, a.pool) }

  // ----- the steps -----

  datatype Event =
    | Grant(items: seq<Data>, reserved: seq<ChunkId>, ids: seq<ChunkId>)
    | LogIntents(ids: seq<ChunkId>)
    | Redescribe(rows: seq<WriteItem>)
    | WriteFiles(ids: seq<ChunkId>, data: seq<Data>, outcomes: seq<Outcome>)
    | LogResults(ids: seq<ChunkId>, outcomes: seq<Outcome>)
    | FlushQueue(ids: seq<ChunkId>, queued: seq<StripeId>)
    | WorkerRound
    | ReleaseSlots(ids: seq<ChunkId>, stale: seq<Loc>, dropped: set<ChunkId>)
    | DeleteFile(l: Loc)
    | CleanUp(flushed: Pool, queued: seq<StripeId>)

  /** No written data chunk lives in the file. */
  ghost predicate Dead(p: Pool, l: Loc) {
    forall c | 0 <= c < |p.chunks| && IsData(p.chunks[c]) :: p.chunks[c].loc != l
  }

  ghost predicate Step(code: Code, a: State, e: Event, b: State) {
    var p, q := a.pool, b.pool;
    match e
    case Grant(items, reserved, ids) =>
      IsPick(p.chunks, reserved, |items|) && Grants(p, q, items, reserved, ids) && LaidOut(q) &&
        b.inflight == a.inflight
    case LogIntents(ids) =>
      && Distinct(ids) && RowsLogged(p, q, ids, Intents(|ids|)) &&
           (forall k | 0 <= k < |ids| :: IsData(p.chunks[ids[k]]))
      && b.inflight == a.inflight + multiset(Members(ids))
    case Redescribe(items) => Distinct(IdsOf(items)) && RowsFilled(p, q, items) && b.inflight == a.inflight
    case WriteFiles(ids, data, outcomes) =>
      FilesWritten(p, q, ids, data, outcomes) && Members(ids) <= (set c | c in a.inflight) && b.inflight == a.inflight
    case LogResults(ids, outcomes) =>
      && Distinct(ids) && RowsLogged(p, q, ids, Results(outcomes)) && multiset(Members(ids)) <= a.inflight
      && b.inflight == a.inflight - multiset(Members(ids))
    case FlushQueue(ids, queued) => Flushed(p, q, ids, queued) && b.inflight == a.inflight
    case WorkerRound => RoundDone(code, p, q) && b.inflight == a.inflight
    case ReleaseSlots(ids, stale, dropped) =>
      Released(p, q, ids, stale, dropped) && (forall c | c in dropped :: c !in a.inflight) && b.inflight == a.inflight
    case DeleteFile(l) => Dead(p, l) && q == p.(files := p.files - {l}) && b.inflight == a.inflight
    case CleanUp(flushed, queued) =>
      Flushed(p, flushed, [], queued) && q == flushed.(log := []) && b.inflight == multiset{}
  }

  // ----- the steps that can lose protection -----

  /** Cleaning up leaves the stripe guarded: its parity is fresh or queued, or a write of it is
      finished, so that the flush queues it. */
  ghost predicate Outlives(code: Code, p: Pool, s: StripeId) {
    Fresh(code, p, s) || s in p.tasks || s in ClosedStripes(Entries(p.log, [], |p.chunks|))
  }

  /** The stripe has data, or one of the items gives it some. */
  ghost predicate GetsData(p: Pool, items: seq<WriteItem>, s: StripeId) {
    || HasData(p.chunks, s)
    || exists k :: 0 <= k < |items| && items[k].chunk < |p.chunks| && p.chunks[items[k].chunk].kind == DataChunk
         && p.chunks[items[k].chunk].stripe == s
  }

  /** The row of a parity chunk may say something else before the intent is logged: if there is
      data in the stripe, which is queued or intended, unless what it says is the parity of the
      data and on the disk. */
  ghost predicate Redescribable(code: Code, p: Pool, items: seq<WriteItem>, c: Chunk, data: Data) {
    GetsData(p, items, c.stripe)
    && (Covered(p, c.stripe) || ParityIs(code, Filled(c, data), p.files, Content(p, c.stripe)))
  }

  /** The worker meets no stripe with a chunk that is not on the disk, unless it needs no new
      parity or a write of it is still open; a clean-up forgets no stripe; a parity file is deleted
      only while it is going to be written again; and so the row of a parity chunk is changed.
      Nothing is asked of the other steps. */
  ghost predicate Careful(code: Code, a: State, e: Event) {
    match e
    case WorkerRound =>
      forall s | s in a.pool.tasks && Unwritten(a.pool, s) :: Fresh(code, a.pool, s) || Intended(a.pool, s)
    case CleanUp(_, _) => forall s: nat | s < a.pool.stripes :: Outlives(code, a.pool, s)
    case DeleteFile(l) =>
      forall c | 0 <= c < |a.pool.chunks| && IsParity(a.pool.chunks[c]) && a.pool.chunks[c].loc == l ::
        Covered(a.pool, a.pool.chunks[c].stripe)
    case Redescribe(items) =>
      forall k | 0 <= k < |items| && items[k].chunk < |a.pool.chunks|
                 && a.pool.chunks[items[k].chunk].kind == ParityChunk ::
        Redescribable(code, a.pool, items, a.pool.chunks[items[k].chunk], items[k].data)
    case _ => true
  }

  // ----- keeping the stripes protected -----

  /** A stripe that has not changed stays guarded if nothing that covers it is lost. */
  lemma StillProtected(code: Code, p: Pool, q: Pool, s: StripeId)
    requires SlotsApart(p.chunks) && SlotsApart(q.chunks) && SameStripe(p, q, s) && Guarded(code, p, s)
    requires s in p.tasks ==> s in q.tasks || Intended(q, s)
    requires Intended(p, s) ==> Intended(q, s) || s in q.tasks
    ensures Guarded(code, q, s)
  {
    SameStripeSameParity(code, p, q, s);
  }

  /** A stripe without written data and parity needs none. */
  lemma EmptyIsFresh(code: Code, p: Pool, s: StripeId)
    requires !HasData(p.chunks, s)
    requires forall c | 0 <= c < |p.chunks| && IsParity(p.chunks[c]) :: p.chunks[c].stripe != s
    ensures Fresh(code, p, s)
  {
    forall i | 0 <= i < p.ds ensures SlotContent(p, s, i).None? {
    }
  }

  /** A chunk that is given out has no data yet. */
  lemma GrantKeepsContent(p: Pool, q: Pool, items: seq<Data>, reserved: seq<ChunkId>, ids: seq<ChunkId>, s: StripeId,
                          i: nat)
    requires SlotsEmpty(p) && SlotsApart(p.chunks) && SlotsApart(q.chunks)
    requires IsPick(p.chunks, reserved, |items|) && Grants(p, q, items, reserved, ids)
    ensures SlotContent(q, s, i) == SlotContent(p, s, i)
  {
    if c: nat :| HoldsData(p, c, s, i) {
      ReservedIsGranted(p, q, items, reserved, ids, c);
      assert c !in reserved && HoldsData(q, c, s, i);
      SlotContentIs(p, s, i, c);
      SlotContentIs(q, s, i, c);
    } else if c: nat :| HoldsData(q, c, s, i) {
      if k :| 0 <= k < |ids| && ids[k] == c {
        GrantedIsUnwritten(p, q, items, reserved, ids, k);
      } else if c < |p.chunks| {
        ReservedIsGranted(p, q, items, reserved, ids, c);
        assert HoldsData(p, c, s, i);
      }
    }
  }

  lemma GrantProtects(code: Code, p: Pool, q: Pool, items: seq<Data>, reserved: seq<ChunkId>, ids: seq<ChunkId>,
                      s: StripeId)
    requires Sound(code, p) && IsPick(p.chunks, reserved, |items|)
    requires Grants(p, q, items, reserved, ids) && LaidOut(q) && s < q.stripes
    requires s < p.stripes ==> Guarded(code, p, s)
    ensures Guarded(code, q, s)
  {
    if s >= p.stripes || Fresh(code, p, s) {
      forall i | 0 <= i < p.ds ensures Content(q, s)[i] == Content(p, s)[i] {
        GrantKeepsContent(p, q, items, reserved, ids, s, i);
      }
      assert Content(q, s) == Content(p, s);
      forall c | 0 <= c < |q.chunks| && q.chunks[c].kind == ParityChunk && q.chunks[c].stripe == s
        ensures ParityIs(code, q.chunks[c], q.files, Content(q, s))
      {
        GrantedParityIs(code, p, q, items, reserved, ids, c);
      }
    }
  }

  /** Parity rows do not change, and those of new stripes are not computed: nothing is written. */
  lemma GrantedParityIs(code: Code, p: Pool, q: Pool, items: seq<Data>, reserved: seq<ChunkId>, ids: seq<ChunkId>,
                        c: nat)
    requires Sound(code, p) && IsPick(p.chunks, reserved, |items|) && Grants(p, q, items, reserved, ids)
    requires c < |q.chunks| && q.chunks[c].kind == ParityChunk
    requires q.chunks[c].stripe < p.stripes ==> Fresh(code, p, q.chunks[c].stripe)
    ensures ParityIs(code, q.chunks[c], q.files, Content(p, q.chunks[c].stripe))
  {
    forall k | 0 <= k < |ids| ensures IsData(q.chunks[ids[k]]) {
      assert Carries(q.chunks[ids[k]], items[k]);
    }
    if c < |p.chunks| {
      assert q.chunks[c] == p.chunks[c];
    } else {
      assert c !in ids;
      EmptyIsFresh(code, p, q.chunks[c].stripe);
      NothingThere(p, q.chunks[c].stripe);
    }
  }

  lemma NothingThere(p: Pool, s: StripeId)
    requires SlotsWithin(p) && s >= p.stripes
    ensures NothingWritten(Content(p, s))
  {
    forall i | 0 <= i < p.ds ensures SlotContent(p, s, i).None? {
    }
  }

  lemma GrantedIsUnwritten(p: Pool, q: Pool, items: seq<Data>, reserved: seq<ChunkId>, ids: seq<ChunkId>, k: nat)
    requires SlotsEmpty(p) && IsPick(p.chunks, reserved, |items|) && Grants(p, q, items, reserved, ids) && k < |ids|
    ensures q.chunks[ids[k]].loc !in q.files && Unwritten(q, q.chunks[ids[k]].stripe)
  {
    assert Carries(q.chunks[ids[k]], items[k]);
    if k < |reserved| { assert ids[k] == ids[..|reserved|][k] == reserved[k]; }
  }

  lemma ReservedIsGranted(p: Pool, q: Pool, items: seq<Data>, reserved: seq<ChunkId>, ids: seq<ChunkId>, c: nat)
    requires Grants(p, q, items, reserved, ids) && c < |p.chunks|
    ensures q.chunks[c] == p.chunks[c] || exists k :: 0 <= k < |ids| && ids[k] == c
  {
    if c in reserved {
      var k :| 0 <= k < |reserved| && reserved[k] == c;
      assert ids[k] == ids[..|reserved|][k];
    }
  }

  lemma GrantGrounds(code: Code, a: State, e: Event, b: State)
    requires Grounded(code, a) && e.Grant? && Step(code, a, e, b)
    ensures Grounded(code, b)
  {
    GrantKeepsRows(code, a.pool, b.pool, e.items, e.reserved, e.ids);
    forall c | c in b.inflight ensures c < |b.pool.chunks| && IsData(b.pool.chunks[c]) {
      assert b.pool.chunks[c] == a.pool.chunks[c];
    }
  }

  lemma GrantKeepsRows(code: Code, p: Pool, q: Pool, items: seq<Data>, reserved: seq<ChunkId>, ids: seq<ChunkId>)
    requires Sound(code, p) && IsPick(p.chunks, reserved, |items|) && Grants(p, q, items, reserved, ids) && LaidOut(q)
    ensures Sound(code, q)
    ensures forall c | 0 <= c < |p.chunks| && IsData(p.chunks[c]) :: q.chunks[c] == p.chunks[c]
  {
    forall c | 0 <= c < |p.chunks| && p.chunks[c].status == Allocated ensures q.chunks[c] == p.chunks[c] {
    }
    forall c | 0 <= c < |q.chunks| && IsParity(q.chunks[c]) ensures HasData(q.chunks, q.chunks[c].stripe) {
      GrantedParity(p, q, items, reserved, ids, c);
    }
    forall c | 0 <= c < |q.chunks| && q.chunks[c].kind == DataChunk && q.chunks[c].status == Reserved
      ensures q.chunks[c].loc !in q.files
    {
      if c < |p.chunks| && p.chunks[c].status == Allocated { assert q.chunks[c] == p.chunks[c]; }
    }
  }

  lemma GrantedParity(p: Pool, q: Pool, items: seq<Data>, reserved: seq<ChunkId>, ids: seq<ChunkId>, c: nat)
    requires ParityNeeded(p) && IsPick(p.chunks, reserved, |items|) && Grants(p, q, items, reserved, ids)
    requires c < |q.chunks| && IsParity(q.chunks[c])
    ensures HasData(q.chunks, q.chunks[c].stripe)
  {
    assert c < |p.chunks| && q.chunks[c] == p.chunks[c];
    var d :| 0 <= d < |p.chunks| && IsData(p.chunks[d]) && p.chunks[d].stripe == p.chunks[c].stripe;
    assert q.chunks[d] == p.chunks[d];
  }

  // ----- the write queue -----

  lemma {:induction false} BalanceAppend(w: Log, r: LogRow)
    ensures Balance(w + [r]) == Balance(w) + Weight(r)
    ensures Low(w + [r]) == if Balance(w) + Weight(r) < Low(w) then Balance(w) + Weight(r) else Low(w)
  {
    if w == [] {
      assert (w + [r])[1..] == [];
    } else {
      assert (w + [r])[1..] == w[1..] + [r];
      BalanceAppend(w[1..], r);
    }
  }

  /** Logging a row for each of some chunks moves the depth of those chunks by one. */
  lemma BracketsAppend(log: Log, rows: Log, ids: seq<ChunkId>, inflight: multiset<ChunkId>,
                       inflight': multiset<ChunkId>, weight: int)
    requires Brackets(log, inflight) && Distinct(ids) && |rows| == |ids|
    requires forall k | 0 <= k < |ids| :: rows[k].chunk == ids[k] && Weight(rows[k]) == weight
    requires forall c: nat :: inflight'[c] == inflight[c] + if c in ids then weight else 0
    ensures Brackets(log + rows, inflight')
  {
    forall c: nat ensures Balance(Of(log + rows, c)) == inflight'[c] && Low(Of(log + rows, c)) == 0 {
      OfAppend(log, rows, c);
      OneRowEach(rows, c);
      if c in ids {
        var k :| 0 <= k < |ids| && ids[k] == c;
        BalanceAppend(Of(log, c), rows[k]);
      } else {
        assert Of(log, c) + [] == Of(log, c);
      }
    }
  }

  lemma LogKeepsRows(code: Code, p: Pool, q: Pool, ids: seq<ChunkId>, statuses: seq<WriteStatus>)
    requires Sound(code, p) && RowsLogged(p, q, ids, statuses)
    requires forall k | 0 <= k < |ids| :: IsData(p.chunks[ids[k]])
    ensures Sound(code, q)
  {
    hide Lawful, LogSound;
    LogStaysSound(p, q, ids, statuses);
    SameSlotsKeep(p, q);
  }

  lemma LogStaysSound(p: Pool, q: Pool, ids: seq<ChunkId>, statuses: seq<WriteStatus>)
    requires LogSound(p) && RowsLogged(p, q, ids, statuses) && forall k | 0 <= k < |ids| :: IsData(p.chunks[ids[k]])
    ensures LogSound(q)
  {
    var rows := NewRows(p, ids, statuses);
    forall i, j | 0 <= i < j < |q.log| ensures q.log[i].id < q.log[j].id {
      if i < |p.log| { assert q.log[i] in p.log; }
    }
    forall r | r in q.log
      ensures r.id < q.rows && r.chunk < |q.chunks| && IsData(q.chunks[r.chunk]) && r.stripe == q.chunks[r.chunk].stripe
    {
      if r !in p.log { assert r in rows; }
    }
  }

  lemma LogProtects(code: Code, p: Pool, q: Pool, ids: seq<ChunkId>, statuses: seq<WriteStatus>, s: StripeId)
    requires Sound(code, p) && Guarded(code, p, s) && RowsLogged(p, q, ids, statuses)
    ensures Guarded(code, q, s)
  {
    hide Fresh;
    if Intended(p, s) {
      var r :| r in p.log && r.status == Pending && r.stripe == s;
      assert r in q.log;
    }
    StillProtected(code, p, q, s);
  }

  lemma InMembers(ids: seq<ChunkId>)
    ensures forall c: nat :: multiset(Members(ids))[c] == if c in ids then 1 else 0
  {
  }

  lemma IntentsGround(code: Code, a: State, e: Event, b: State)
    requires Grounded(code, a) && e.LogIntents? && Step(code, a, e, b)
    ensures Grounded(code, b)
  {
    var p, q, ids := a.pool, b.pool, e.ids;
    LogKeepsRows(code, p, q, ids, Intents(|ids|));
    InMembers(ids);
    BracketsAppend(p.log, NewRows(p, ids, Intents(|ids|)), ids, a.inflight, b.inflight, 1);
  }

  lemma ResultsGround(code: Code, a: State, e: Event, b: State)
    requires Grounded(code, a) && e.LogResults? && Step(code, a, e, b)
    ensures Grounded(code, b)
  {
    var p, q, ids := a.pool, b.pool, e.ids;
    InMembers(ids);
    forall k | 0 <= k < |ids| ensures IsData(p.chunks[ids[k]]) && ids[k] in a.inflight {
      assert ids[k] in ids && multiset(Members(ids))[ids[k]] == 1;
    }
    LogKeepsRows(code, p, q, ids, Results(e.outcomes));
    BracketsAppend(p.log, NewRows(p, ids, Results(e.outcomes)), ids, a.inflight, b.inflight, -1);
  }

  // ----- writing files -----

  lemma {:induction false} OpenBracket(w: Log)
    requires Balance(w) > 0
    ensures exists r :: r in w && r.status == Pending
  {
    if w[0].status == Pending {
      assert w[0] in w;
    } else {
      OpenBracket(w[1..]);
    }
  }

  /** A write whose outcome is not known keeps its stripe intended. */
  lemma OpenIsIntended(p: Pool, inflight: multiset<ChunkId>, c: ChunkId)
    requires LogSound(p) && Brackets(p.log, inflight) && c in inflight && c < |p.chunks|
    ensures Intended(p, p.chunks[c].stripe)
  {
    OpenBracket(Of(p.log, c));
    OfSelects(p.log, c);
  }

  lemma WriteGrounds(code: Code, a: State, e: Event, b: State)
    requires Grounded(code, a) && e.WriteFiles? && Step(code, a, e, b)
    ensures Grounded(code, b)
  {
    var p, q, ids := a.pool, b.pool, e.ids;
    forall k | 0 <= k < |ids| ensures ids[k] in a.inflight {
      assert ids[k] in Members(ids);
    }
    WrittenWhere(p, q, ids, e.data, e.outcomes);
  }

  /** Only files of chunks being written change. */
  lemma WrittenWhere(p: Pool, q: Pool, ids: seq<ChunkId>, data: seq<Data>, outcomes: seq<Outcome>)
    requires PathsApart(p) && FilesWritten(p, q, ids, data, outcomes)
    requires SlotsEmpty(p) && forall k | 0 <= k < |ids| :: IsData(p.chunks[ids[k]])
    ensures SlotsEmpty(q)
  {
    forall c | 0 <= c < |p.chunks| && p.chunks[c].status == Reserved
      ensures SameFile(p.files, q.files, p.chunks[c].loc)
    {
      assert Elsewhere(p.chunks, ids, |ids|, p.chunks[c].loc);
    }
    forall l | l in q.files ensures l.path < q.paths {
      if Elsewhere(p.chunks, ids, |ids|, l) { assert SameFile(p.files, q.files, l); }
    }
  }

  lemma WriteProtects(code: Code, a: State, q: Pool, ids: seq<ChunkId>, data: seq<Data>, outcomes: seq<Outcome>,
                      s: StripeId)
    requires Grounded(code, a) && Guarded(code, a.pool, s) && FilesWritten(a.pool, q, ids, data, outcomes)
    requires Members(ids) <= (set c | c in a.inflight)
    ensures Guarded(code, q, s)
  {
    hide Fresh, Brackets, SlotsEmpty, ParityNeeded, Lawful;
    var p := a.pool;
    if k :| 0 <= k < |ids| && p.chunks[ids[k]].stripe == s {
      assert ids[k] in Members(ids);
      OpenIsIntended(p, a.inflight, ids[k]);
      assert Intended(q, s);
    } else {
      WrittenElsewhere(p, q, ids, data, outcomes, s);
      StillProtected(code, p, q, s);
    }
  }

  lemma WrittenElsewhere(p: Pool, q: Pool, ids: seq<ChunkId>, data: seq<Data>, outcomes: seq<Outcome>, s: StripeId)
    requires PathsApart(p) && FilesWritten(p, q, ids, data, outcomes)
    requires forall k | 0 <= k < |ids| :: p.chunks[ids[k]].stripe != s
    ensures SameStripe(p, q, s)
  {
    forall c | 0 <= c < |p.chunks| && p.chunks[c].stripe == s ensures SameFile(p.files, q.files, p.chunks[c].loc) {
      assert Elsewhere(p.chunks, ids, |ids|, p.chunks[c].loc);
    }
  }

  // ----- flushing -----

  /** The flush keeps an intent, or queues its stripe. */
  lemma FlushQueues(p: Pool, q: Pool, ids: seq<ChunkId>, queued: seq<StripeId>, s: StripeId)
    requires LogSound(p) && Flushed(p, q, ids, queued) && Intended(p, s)
    ensures Intended(q, s) || s in q.tasks
  {
    var e := Entries(p.log, ids, |p.chunks|);
    var r :| r in p.log && r.status == Pending && r.stripe == s;
    KeptSelects(p.log, DoneSet(e));
    if r.id in DoneSet(e) {
      var k :| 0 <= k < |e| && Done(e, k) && e[k].id == r.id;
      EntriesRow(p.log, ids, |p.chunks|, e[k]);
      UniqueId(p.log, e[k], r);
      assert Closes(e, k + 1);
      EntriesRow(p.log, ids, |p.chunks|, e[k + 1]);
      assert e[k + 1].stripe == s && s in queued;
    } else {
      assert r in q.log;
    }
  }

  lemma DeletedKeepsLog(p: Pool, q: Pool, del: set<nat>)
    requires LogSound(p) && q.log == Kept(p.log, del) && q.rows == p.rows && |q.chunks| == |p.chunks|
    requires forall c | 0 <= c < |p.chunks| :: SameSlot(p.chunks[c], q.chunks[c]) &&
               q.chunks[c].status == p.chunks[c].status
    ensures LogSound(q)
  {
    KeptKeeps(p.log, |p.chunks|, del);
    KeptSelects(p.log, del);
  }

  /** Rows that keep slot, state and place keep everything that is said about rows. */
  lemma SameRowsKeep(code: Code, p: Pool, q: Pool)
    requires Sound(code, p) && LogSound(q) && q == p.(chunks := q.chunks, log := q.log, tasks := q.tasks)
    requires |q.chunks| == |p.chunks| && forall c | 0 <= c < |p.chunks| ::
               && SameSlot(p.chunks[c], q.chunks[c]) && q.chunks[c].status == p.chunks[c].status
               && q.chunks[c].loc == p.chunks[c].loc
    ensures Sound(code, q)
  {
    SameSlotsKeep(p, q);
    forall c | 0 <= c < |q.chunks| && IsParity(q.chunks[c]) ensures HasData(q.chunks, q.chunks[c].stripe) {
      var d :| 0 <= d < |p.chunks| && IsData(p.chunks[d]) && p.chunks[d].stripe == p.chunks[c].stripe;
      assert IsData(q.chunks[d]) && q.chunks[d].stripe == q.chunks[c].stripe;
    }
  }

  lemma FlushKeepsRows(code: Code, p: Pool, q: Pool, ids: seq<ChunkId>, queued: seq<StripeId>)
    requires Sound(code, p) && Flushed(p, q, ids, queued)
    ensures Sound(code, q)
  {
    DeletedKeepsLog(p, q, DoneSet(Entries(p.log, ids, |p.chunks|)));
    SameRowsKeep(code, p, q);
  }

  /** Failed writes are of data chunks, so no parity row is recalculated. */
  lemma FailedAreData(p: Pool, ids: seq<ChunkId>, c: ChunkId)
    requires LogSound(p) && c in FailedSet(Entries(p.log, ids, |p.chunks|))
    ensures c < |p.chunks| && IsData(p.chunks[c])
  {
    var e := Entries(p.log, ids, |p.chunks|);
    var k :| 0 <= k < |e| && Closes(e, k) && e[k].status == Fail && e[k].chunk == c;
    EntriesRow(p.log, ids, |p.chunks|, e[k]);
  }

  lemma FlushProtects(code: Code, p: Pool, q: Pool, ids: seq<ChunkId>, queued: seq<StripeId>, s: StripeId)
    requires Sound(code, p) && Sound(code, q) && Flushed(p, q, ids, queued) && Guarded(code, p, s)
    ensures Guarded(code, q, s)
  {
    forall c | 0 <= c < |p.chunks| && p.chunks[c].stripe == s ensures SameShard(p.chunks[c], q.chunks[c]) {
      if c in FailedSet(Entries(p.log, ids, |p.chunks|)) { FailedAreData(p, ids, c); }
    }
    if Intended(p, s) { FlushQueues(p, q, ids, queued, s); }
    StillProtected(code, p, q, s);
  }

  lemma FlushBrackets(p: Pool, q: Pool, ids: seq<ChunkId>, queued: seq<StripeId>, inflight: multiset<ChunkId>)
    requires LogSound(p) && Flushed(p, q, ids, queued) && Brackets(p.log, inflight)
    ensures Brackets(q.log, inflight)
  {
    var e := Entries(p.log, ids, |p.chunks|);
    DoneSetIs(e);
    forall c: nat ensures Balance(Of(q.log, c)) == inflight[c] && Low(Of(q.log, c)) == 0 {
      FlushProjects(p.log, ids, |p.chunks|, DoneSet(e), c);
      CancelKeepsBalance(Of(p.log, c));
    }
  }

  lemma FlushGrounds(code: Code, a: State, e: Event, b: State)
    requires Grounded(code, a) && e.FlushQueue? && Step(code, a, e, b)
    ensures Grounded(code, b)
  {
    FlushKeepsRows(code, a.pool, b.pool, e.ids, e.queued);
    FlushBrackets(a.pool, b.pool, e.ids, e.queued, a.inflight);
  }

  // ----- cleaning up at startup -----

  lemma HasPair(w: Log, c: ChunkId) returns (i: nat)
    requires OneChunk(w, c) && Balance(w) == 0 && Low(w) == 0 && w != []
    ensures 0 < i < |w| && IsPair(w[i - 1], w[i])
  {
    if NoPair(w) { NoPairShape(w, c); }
    i :| 0 < i < |w| && IsPair(w[i - 1], w[i]);
  }

  /** With no write open, a chunk with an intent in the log has a finished write. */
  lemma IntentIsClosed(p: Pool, s: StripeId)
    requires LogSound(p) && Brackets(p.log, multiset{}) && Intended(p, s)
    ensures s in ClosedStripes(Entries(p.log, [], |p.chunks|))
  {
    var r :| r in p.log && r.status == Pending && r.stripe == s;
    var w := Of(p.log, r.chunk);
    OfSelects(p.log, r.chunk);
    assert r in w;
    var i := HasPair(w, r.chunk);
    var k := PairInEntries(p.log, [], |p.chunks|, r.chunk, i);
    assert w[i] in w;
  }

  /** A stripe is guarded after cleaning up exactly when it outlives it. */
  lemma CleanUpIff(code: Code, a: State, f: Pool, queued: seq<StripeId>, s: StripeId)
    requires Grounded(code, a) && Flushed(a.pool, f, [], queued)
    ensures Guarded(code, f.(log := []), s) <==> Outlives(code, a.pool, s)
    ensures Unwritten(f.(log := []), s) <==> Unwritten(a.pool, s)
  {
    hide Fresh, Unwritten, SameStripe, Sound, Brackets;
    var p, q := a.pool, f.(log := []);
    CleanUpSameStripe(code, p, f, queued, s);
    SameStripeSameParity(code, p, q, s);
    SameStripeSameParity(code, q, p, s);
    SameUnwritten(p, q, s);
  }

  lemma CleanUpSameStripe(code: Code, p: Pool, f: Pool, queued: seq<StripeId>, s: StripeId)
    requires Sound(code, p) && Flushed(p, f, [], queued)
    ensures SlotsApart(p.chunks) && SlotsApart(f.chunks)
    ensures SameStripe(p, f.(log := []), s) && SameStripe(f.(log := []), p, s)
  {
    FlushKeepsRows(code, p, f, [], queued);
    forall c | 0 <= c < |p.chunks| && p.chunks[c].stripe == s ensures SameShard(p.chunks[c], f.chunks[c]) {
      if c in FailedSet(Entries(p.log, [], |p.chunks|)) { FailedAreData(p, [], c); }
    }
  }

  lemma SameUnwritten(p: Pool, q: Pool, s: StripeId)
    requires SameStripe(p, q, s) && q.files == p.files && |q.chunks| == |p.chunks|
    ensures Unwritten(p, s) <==> Unwritten(q, s)
  {
    if c :| 0 <= c < |p.chunks| && IsData(p.chunks[c]) && p.chunks[c].stripe == s && p.chunks[c].loc !in p.files {
      assert SameShard(p.chunks[c], q.chunks[c]);
    }
    if c :| 0 <= c < |q.chunks| && IsData(q.chunks[c]) && q.chunks[c].stripe == s && q.chunks[c].loc !in q.files {
      assert SameShard(p.chunks[c], q.chunks[c]);
    }
  }

  lemma EmptyLogIsSound(code: Code, f: Pool)
    requires Sound(code, f)
    ensures Sound(code, f.(log := [])) && Brackets([], multiset{})
  {
  }

  lemma CleanUpGrounds(code: Code, a: State, e: Event, b: State)
    requires Grounded(code, a) && e.CleanUp? && Step(code, a, e, b)
    ensures Grounded(code, b)
  {
    FlushKeepsRows(code, a.pool, e.flushed, [], e.queued);
    EmptyLogIsSound(code, e.flushed);
  }

  /** Whatever writes were cut off: the pool is tracked after the clean-up exactly when every
      stripe outlives it. */
  lemma CleanUpKeepsIff(code: Code, a: State, e: Event, b: State)
    requires Grounded(code, a) && e.CleanUp? && Step(code, a, e, b)
    ensures Tracked(code, b) <==> Careful(code, a, e)
  {
    hide Grounded, Guarded, Outlives;
    CleanUpGrounds(code, a, e, b);
    forall s: nat | s < a.pool.stripes ensures Guarded(code, b.pool, s) <==> Outlives(code, a.pool, s) {
      CleanUpIff(code, a, e.flushed, e.queued, s);
    }
  }

  /** With no write open, every intent has its outcome and nothing is forgotten. */
  lemma NothingOpenIsCareful(code: Code, a: State, e: Event)
    requires Tracked(code, a) && e.CleanUp? && a.inflight == multiset{}
    ensures Careful(code, a, e)
  {
    forall s: nat | s < a.pool.stripes ensures Outlives(code, a.pool, s) {
      assert Guarded(code, a.pool, s);
      if Intended(a.pool, s) { IntentIsClosed(a.pool, s); }
    }
  }

  // ----- the worker -----

  lemma RoundKeepsRows(code: Code, p: Pool, q: Pool)
    requires Sound(code, p) && RoundDone(code, p, q)
    ensures Sound(code, q)
    ensures forall c | 0 <= c < |p.chunks| && p.chunks[c].kind == DataChunk ::
              q.chunks[c] == p.chunks[c] && SameFile(p.files, q.files, p.chunks[c].loc)
  {
    RoundKeepsData(code, p, q);
    forall c | 0 <= c < |q.chunks| && IsParity(q.chunks[c]) ensures HasData(q.chunks, q.chunks[c].stripe) {
      assert HasData(p.chunks, p.chunks[c].stripe);
      var d :| 0 <= d < |p.chunks| && IsData(p.chunks[d]) && p.chunks[d].stripe == p.chunks[c].stripe;
      assert q.chunks[d] == p.chunks[d];
    }
  }

  lemma RoundSlot(p: Pool, q: Pool, s: StripeId, i: nat)
    requires SlotsApart(p.chunks) && SlotsApart(q.chunks) && |q.chunks| == |p.chunks|
    requires forall c | 0 <= c < |p.chunks| && p.chunks[c].kind == DataChunk ::
               q.chunks[c] == p.chunks[c] && SameFile(p.files, q.files, p.chunks[c].loc)
    requires forall c | 0 <= c < |p.chunks| :: q.chunks[c].kind == p.chunks[c].kind
    ensures SlotContent(q, s, i) == SlotContent(p, s, i)
  {
    if c: nat :| HoldsData(p, c, s, i) {
      assert HoldsData(q, c, s, i);
      SlotContentIs(p, s, i, c);
      SlotContentIs(q, s, i, c);
    } else if c: nat :| HoldsData(q, c, s, i) {
      assert HoldsData(p, c, s, i);
    }
  }

  /** A stripe the worker could read has fresh parity afterwards. */
  lemma RoundRefreshes(code: Code, p: Pool, q: Pool, s: StripeId)
    requires Sound(code, p) && Sound(code, q) && RoundDone(code, p, q) && s in p.tasks && Encodable(p, s)
    ensures Fresh(code, q, s)
  {
    RoundKeepsRows(code, p, q);
    forall i | 0 <= i < p.ds ensures Content(q, s)[i] == Content(p, s)[i] {
      RoundSlot(p, q, s, i);
    }
    assert Content(q, s) == Content(p, s);
    WordIsCodeword(code, Content(p, s));
    forall c | 0 <= c < |q.chunks| && q.chunks[c].kind == ParityChunk && q.chunks[c].stripe == s
      ensures ParityIs(code, q.chunks[c], q.files, Content(q, s))
    {
      assert Computed(p, Members(p.tasks), p.chunks[c]);
    }
  }

  /** A stripe the worker does not encode stays as it is. */
  lemma RoundSkips(code: Code, p: Pool, q: Pool, s: StripeId)
    requires Sound(code, p) && RoundDone(code, p, q) && !(s in p.tasks && Encodable(p, s))
    ensures SameStripe(p, q, s) && SameStripe(q, p, s)
  {
    hide Encodable, Lawful;
    forall c | 0 <= c < |p.chunks| && p.chunks[c].stripe == s
      ensures q.chunks[c] == p.chunks[c] && SameFile(p.files, q.files, p.chunks[c].loc)
    {
      OnlyOneThere(p, c);
      assert !ComputedAt(p, Members(p.tasks), p.chunks[c].loc);
    }
  }

  /** Exactly the stripes that need no parity, have an open write, or are queued with all their
      chunks on the disk are guarded after a round. */
  lemma RoundIff(code: Code, p: Pool, q: Pool, s: StripeId)
    requires Sound(code, p) && RoundDone(code, p, q)
    ensures Guarded(code, q, s) <==> Fresh(code, p, s) || Intended(p, s) || (s in p.tasks && !Unwritten(p, s))
  {
    hide Fresh, Unwritten, Lawful, SameStripe;
    RoundKeepsRows(code, p, q);
    if s in p.tasks && Encodable(p, s) {
      RoundRefreshes(code, p, q, s);
    } else {
      RoundSkips(code, p, q, s);
      SameStripeSameParity(code, p, q, s);
      SameStripeSameParity(code, q, p, s);
      if !HasData(p.chunks, s) { EmptyIsFresh(code, p, s); }
    }
  }

  lemma UnwrittenIsKnown(p: Pool, s: StripeId)
    requires SlotsWithin(p) && Unwritten(p, s)
    ensures s < p.stripes
  {
  }

  lemma RoundGrounds(code: Code, a: State, e: Event, b: State)
    requires Grounded(code, a) && e.WorkerRound? && Step(code, a, e, b)
    ensures Grounded(code, b)
  {
    RoundKeepsRows(code, a.pool, b.pool);
  }

  lemma RoundKeepsIff(code: Code, a: State, e: Event, b: State)
    requires Tracked(code, a) && e.WorkerRound? && Step(code, a, e, b)
    ensures Tracked(code, b) <==> Careful(code, a, e)
  {
    hide Fresh, Unwritten, Intended;
    RoundGrounds(code, a, e, b);
    forall s: nat
      ensures Guarded(code, b.pool, s) <==>
              Fresh(code, a.pool, s) || Intended(a.pool, s) || (s in a.pool.tasks && !Unwritten(a.pool, s))
    {
      RoundIff(code, a.pool, b.pool, s);
    }
    if Tracked(code, b) {
      forall s | s in a.pool.tasks && Unwritten(a.pool, s) ensures Fresh(code, a.pool, s) || Intended(a.pool, s) {
        UnwrittenIsKnown(a.pool, s);
        assert Guarded(code, b.pool, s);
      }
    }
    if Careful(code, a, e) {
      forall s: nat | s < b.pool.stripes ensures Guarded(code, b.pool, s) { assert Guarded(code, a.pool, s); }
    }
  }

  // ----- releasing -----

  lemma {:induction false} WithoutSelects(log: Log, dropped: set<ChunkId>)
    ensures forall r :: r in Without(log, dropped) <==> r in log && r.chunk !in dropped
    ensures Ascending(log) ==> Ascending(Without(log, dropped))
  {
    if log != [] {
      var t := Without(log[1..], dropped);
      WithoutSelects(log[1..], dropped);
      assert log == [log[0]] + log[1..];
      if Ascending(log) {
        forall j | 0 <= j < |t| ensures log[0].id < t[j].id {
          assert t[j] in t && t[j] in log[1..];
        }
      }
    }
  }

  lemma OfSnoc(log: Log, r: LogRow, c: ChunkId)
    ensures Of(log + [r], c) == Of(log, c) + if r.chunk == c then [r] else []
  {
    assert (log + [r])[..|log|] == log;
  }

  lemma {:induction false} WithoutOf(log: Log, dropped: set<ChunkId>, c: ChunkId)
    ensures Of(Without(log, dropped), c) == if c in dropped then [] else Of(log, c)
  {
    if log != [] {
      var init, last := log[..|log| - 1], log[|log| - 1];
      assert log == init + [last];
      WithoutOf(init, dropped, c);
      WithoutOfSnoc(init, last, dropped, c);
    }
  }

  lemma WithoutOfSnoc(init: Log, last: LogRow, dropped: set<ChunkId>, c: ChunkId)
    requires Of(Without(init, dropped), c) == if c in dropped then [] else Of(init, c)
    ensures Of(Without(init + [last], dropped), c) == if c in dropped then [] else Of(init + [last], c)
  {
    WithoutSnoc(init, last, dropped);
    OfSnoc(init, last, c);
    OfSnoc(Without(init, dropped), last, c);
    assert Without(init, dropped) + [] == Without(init, dropped);
  }

  lemma {:induction false} WithoutSnoc(log: Log, r: LogRow, dropped: set<ChunkId>)
    ensures Without(log + [r], dropped) == Without(log, dropped) + if r.chunk in dropped then [] else [r]
  {
    if log != [] {
      WithoutSnoc(log[1..], r, dropped);
      assert (log + [r])[1..] == log[1..] + [r];
    }
  }

  lemma ReleaseBrackets(p: Pool, log: Log, dropped: set<ChunkId>, inflight: multiset<ChunkId>)
    requires Brackets(p.log, inflight) && log == Without(p.log, dropped) && forall c | c in dropped :: c !in inflight
    ensures Brackets(log, inflight)
  {
    forall c: nat ensures Balance(Of(log, c)) == inflight[c] && Low(Of(log, c)) == 0 {
      WithoutOf(p.log, dropped, c);
    }
  }

  /** Parity that stays computed has data left to protect. */
  lemma ReleaseParityNeeded(p: Pool, q: Pool, ids: seq<ChunkId>, stale: seq<Loc>, dropped: set<ChunkId>, c: nat)
    requires ParityNeeded(p) && Released(p, q, ids, stale, dropped) && c < |q.chunks| && IsParity(q.chunks[c])
    ensures HasData(q.chunks, q.chunks[c].stripe)
  {
    var freed, s := Freed(p, ids), p.chunks[c].stripe;
    assert q.chunks[c] == p.chunks[c] && !Emptied(p, freed, s);
    var d :| 0 <= d < |p.chunks| && IsData(p.chunks[d]) && p.chunks[d].stripe == s;
    if d in freed {
      assert Touched(p, freed, s);
      d :| 0 <= d < |p.chunks| && IsData(p.chunks[d]) && p.chunks[d].stripe == s && d !in freed;
    }
    assert q.chunks[d] == p.chunks[d];
  }

  lemma ReleaseKeepsRows(code: Code, p: Pool, q: Pool, ids: seq<ChunkId>, stale: seq<Loc>, dropped: set<ChunkId>)
    requires Sound(code, p) && Released(p, q, ids, stale, dropped)
    ensures Sound(code, q)
  {
    ReleaseKeepsLayout(p, q, ids, stale, dropped);
    WithoutSelects(p.log, dropped);
    assert LogSound(q) by {
      forall r | r in q.log ensures IsData(q.chunks[r.chunk]) && q.chunks[r.chunk] == p.chunks[r.chunk] {
        assert r in p.log && r.chunk !in Freed(p, ids);
      }
    }
    forall c | 0 <= c < |q.chunks| && IsParity(q.chunks[c]) ensures HasData(q.chunks, q.chunks[c].stripe) {
      ReleaseParityNeeded(p, q, ids, stale, dropped, c);
    }
  }

  lemma ReleaseProtects(code: Code, p: Pool, q: Pool, ids: seq<ChunkId>, stale: seq<Loc>, dropped: set<ChunkId>,
                        s: StripeId)
    requires Sound(code, p) && Sound(code, q) && Released(p, q, ids, stale, dropped) && Guarded(code, p, s)
    ensures Guarded(code, q, s)
  {
    var freed := Freed(p, ids);
    assert q.tasks == q.tasks[..|p.tasks|] + q.tasks[|p.tasks|..];
    if Emptied(p, freed, s) {
      ReleaseEmpties(p, q, ids, stale, dropped, s);
      EmptyIsFresh(code, q, s);
    } else if !Touched(p, freed, s) {
      UntouchedStripe(p, q, ids, stale, dropped, s);
      StillProtected(code, p, q, s);
    }
  }

  lemma ReleaseEmpties(p: Pool, q: Pool, ids: seq<ChunkId>, stale: seq<Loc>, dropped: set<ChunkId>, s: StripeId)
    requires Released(p, q, ids, stale, dropped) && Emptied(p, Freed(p, ids), s)
    ensures !HasData(q.chunks, s)
    ensures forall c | 0 <= c < |q.chunks| && IsParity(q.chunks[c]) :: q.chunks[c].stripe != s
  {
  }

  lemma UntouchedStripe(p: Pool, q: Pool, ids: seq<ChunkId>, stale: seq<Loc>, dropped: set<ChunkId>, s: StripeId)
    requires LogSound(p) && Released(p, q, ids, stale, dropped) && !Touched(p, Freed(p, ids), s)
    ensures SameStripe(p, q, s) && (Intended(p, s) ==> Intended(q, s))
  {
    var freed := Freed(p, ids);
    forall c | 0 <= c < |p.chunks| && p.chunks[c].stripe == s ensures q.chunks[c] == p.chunks[c] {
    }
    if Intended(p, s) {
      var r :| r in p.log && r.status == Pending && r.stripe == s;
      assert r.chunk !in freed;
      assert r.chunk !in dropped by {
        if r.chunk in dropped { assert Frees(p, r.chunk); }
      }
      WithoutSelects(p.log, dropped);
      assert r in q.log;
    }
  }

  lemma ReleaseGrounds(code: Code, a: State, e: Event, b: State)
    requires Grounded(code, a) && e.ReleaseSlots? && Step(code, a, e, b)
    ensures Grounded(code, b)
  {
    var p, q := a.pool, b.pool;
    ReleaseKeepsRows(code, p, q, e.ids, e.stale, e.dropped);
    ReleaseBrackets(p, q.log, e.dropped, a.inflight);
    forall c | c in b.inflight ensures c < |q.chunks| && IsData(q.chunks[c]) {
      assert c !in Freed(p, e.ids);
    }
  }

  // ----- deleting files -----

  /** Files of no written chunk can go. */
  lemma DeleteKeepsProtected(code: Code, p: Pool, q: Pool)
    requires SlotsApart(p.chunks) && Protected(code, p) && q == p.(files := q.files)
    requires forall c | 0 <= c < |p.chunks| && p.chunks[c].status == Allocated ::
               SameFile(p.files, q.files, p.chunks[c].loc)
    ensures Protected(code, q)
  {
    hide Fresh, Covered;
    forall s: nat | s < q.stripes ensures Guarded(code, q, s) {
      StillProtected(code, p, q, s);
    }
  }

  /** The file of a written parity chunk can go exactly when the parity is to be written again. */
  lemma DeleteParityIff(code: Code, p: Pool, c: nat)
    requires Sound(code, p) && Protected(code, p) && c < |p.chunks| && IsParity(p.chunks[c])
    ensures Protected(code, p.(files := p.files - {p.chunks[c].loc})) <==> Covered(p, p.chunks[c].stripe)
  {
    var q, s := p.(files := p.files - {p.chunks[c].loc}), p.chunks[c].stripe;
    assert !Fresh(code, q, s) by { assert !ParityIs(code, q.chunks[c], q.files, Content(q, s)); }
    assert Guarded(code, q, s) <==> Covered(p, s);
    forall r: nat | r < p.stripes && r != s ensures Guarded(code, q, r) {
      assert Guarded(code, p, r);
      StillProtected(code, p, q, r);
    }
  }

  /** A release resets parity that protects nothing any more and leaves its path, so its file is
      on the list of files to delete. If by then the chunk is parity again, the deletion keeps
      the pool protected exactly when the parity is to be written once more. */
  lemma StaleParityIsReused(code: Code, p: Pool, q: Pool, ids: seq<ChunkId>, stale: seq<Loc>, dropped: set<ChunkId>,
                            c: ChunkId, r: Pool)
    requires Released(p, q, ids, stale, dropped) && c in ParityFreed(p, Freed(p, ids))
    requires Sound(code, r) && Protected(code, r) && c < |r.chunks| && IsParity(r.chunks[c])
    requires r.chunks[c].loc == q.chunks[c].loc
    ensures q.chunks[c].loc in stale
    ensures Protected(code, r.(files := r.files - {q.chunks[c].loc})) <==> Covered(r, r.chunks[c].stripe)
  {
    hide Protected, Covered, Sound;
    DeleteParityIff(code, r, c);
  }

  lemma DeleteKeepsSound(code: Code, p: Pool, l: Loc)
    requires Sound(code, p)
    ensures Sound(code, p.(files := p.files - {l}))
  {
    SameSlotsKeep(p, p.(files := p.files - {l}));
  }

  lemma DeleteProtectsIff(code: Code, p: Pool, l: Loc)
    requires Sound(code, p) && Protected(code, p) && Dead(p, l)
    ensures Protected(code, p.(files := p.files - {l})) <==>
            forall c | 0 <= c < |p.chunks| && IsParity(p.chunks[c]) && p.chunks[c].loc == l ::
              Covered(p, p.chunks[c].stripe)
  {
    hide Protected, Covered;
    if c :| 0 <= c < |p.chunks| && IsParity(p.chunks[c]) && p.chunks[c].loc == l {
      OnlyOneThere(p, c);
      DeleteParityIff(code, p, c);
    } else {
      DeleteKeepsProtected(code, p, p.(files := p.files - {l}));
    }
  }

  lemma DeleteGrounds(code: Code, a: State, e: Event, b: State)
    requires Grounded(code, a) && e.DeleteFile? && Step(code, a, e, b)
    ensures Grounded(code, b)
  {
    DeleteKeepsSound(code, a.pool, e.l);
  }

  lemma DeleteKeepsIff(code: Code, a: State, e: Event, b: State)
    requires Tracked(code, a) && e.DeleteFile? && Step(code, a, e, b)
    ensures Tracked(code, b) <==> Careful(code, a, e)
  {
    hide Protected, Sound, Brackets, Covered, Dead;
    DeleteGrounds(code, a, e, b);
    DeleteProtectsIff(code, a.pool, e.l);
  }

  lemma OnlyOneThere(p: Pool, c: nat)
    requires PathsApart(p) && c < |p.chunks|
    ensures forall d | 0 <= d < |p.chunks| && p.chunks[d].loc == p.chunks[c].loc :: d == c
  {
  }

  // ----- overwriting chunks -----

  /** The item for a chunk, if there is one. */
  lemma RowFilled(p: Pool, q: Pool, items: seq<WriteItem>, c: nat)
    requires RowsFilled(p, q, items) && c < |p.chunks|
    ensures q.chunks[c] == p.chunks[c]
            || exists k :: 0 <= k < |items| && items[k].chunk == c && q.chunks[c] == Filled(p.chunks[c], items[k].data)
  {
    if c in IdsOf(items) {
      var k :| 0 <= k < |items| && IdsOf(items)[k] == c;
      assert items[k].chunk == c;
    }
  }

  lemma RedescribeKeepsRows(code: Code, p: Pool, q: Pool, items: seq<WriteItem>)
    requires Sound(code, p) && RowsFilled(p, q, items)
    ensures LaidOut(q) && LogSound(q) && SlotsEmpty(q)
    ensures forall c | 0 <= c < |p.chunks| :: SameSlot(p.chunks[c], q.chunks[c]) && q.chunks[c].loc == p.chunks[c].loc
    ensures forall c | 0 <= c < |p.chunks| && p.chunks[c].status == Allocated :: q.chunks[c].status == Allocated
  {
    forall c | 0 <= c < |p.chunks|
      ensures SameSlot(p.chunks[c], q.chunks[c]) && q.chunks[c].loc == p.chunks[c].loc
      ensures p.chunks[c].status == Allocated ==> q.chunks[c].status == Allocated
    {
      RowFilled(p, q, items, c);
    }
    SameSlotsKeep(p, q);
  }

  /** What is overwritten has its old bytes until it is written, and a new chunk none. */
  lemma RedescribeKeepsContent(code: Code, p: Pool, q: Pool, items: seq<WriteItem>, s: StripeId)
    requires Sound(code, p) && RowsFilled(p, q, items)
    ensures Content(q, s) == Content(p, s)
  {
    RedescribeKeepsRows(code, p, q, items);
    forall i | 0 <= i < p.ds ensures Content(q, s)[i] == Content(p, s)[i] {
      if c: nat :| HoldsData(p, c, s, i) {
        assert HoldsData(q, c, s, i);
        SlotContentIs(p, s, i, c);
        SlotContentIs(q, s, i, c);
      } else if c: nat :| HoldsData(q, c, s, i) {
        assert HoldsData(p, c, s, i);
      }
    }
  }

  lemma RedescribedData(code: Code, p: Pool, q: Pool, items: seq<WriteItem>, s: StripeId)
    requires Sound(code, p) && RowsFilled(p, q, items)
    ensures HasData(q.chunks, s) <==> GetsData(p, items, s)
  {
    RedescribeKeepsRows(code, p, q, items);
    if c :| 0 <= c < |q.chunks| && IsData(q.chunks[c]) && q.chunks[c].stripe == s {
      RowFilled(p, q, items, c);
    }
    if c :| 0 <= c < |p.chunks| && IsData(p.chunks[c]) && p.chunks[c].stripe == s {
      assert IsData(q.chunks[c]);
    }
    if k :| 0 <= k < |items| && items[k].chunk < |p.chunks| && p.chunks[items[k].chunk].kind == DataChunk
             && p.chunks[items[k].chunk].stripe == s {
      assert IsData(q.chunks[items[k].chunk]);
    }
  }

  /** The rows of overwritten chunks keep the pool protected exactly when those of parity chunks may
      change. */
  lemma RedescribeKeepsIff(code: Code, a: State, e: Event, b: State)
    requires Tracked(code, a) && e.Redescribe? && Step(code, a, e, b)
    ensures Tracked(code, b) <==> Careful(code, a, e)
  {
    hide Fresh, Covered, GetsData, Sound, Brackets, RowsFilled;
    if Tracked(code, b) {
      forall k | 0 <= k < |e.rows| && e.rows[k].chunk < |a.pool.chunks|
                 && a.pool.chunks[e.rows[k].chunk].kind == ParityChunk
        ensures Redescribable(code, a.pool, e.rows, a.pool.chunks[e.rows[k].chunk], e.rows[k].data)
      {
        TrackedIsRedescribable(code, a, e.rows, b, k);
      }
    }
    if Careful(code, a, e) {
      RedescribeGrounds(code, a, e, b);
      forall s: nat | s < b.pool.stripes ensures Guarded(code, b.pool, s) { RedescribeGuards(code, a, e, b, s); }
    }
  }

  lemma TrackedIsRedescribable(code: Code, a: State, items: seq<WriteItem>, b: State, k: nat)
    requires Tracked(code, a) && Step(code, a, Redescribe(items), b) && Tracked(code, b) && k < |items|
    requires items[k].chunk < |a.pool.chunks| && a.pool.chunks[items[k].chunk].kind == ParityChunk
    ensures Redescribable(code, a.pool, items, a.pool.chunks[items[k].chunk], items[k].data)
  {
    hide GetsData, ParityIs, Intended;
    var p, q, c := a.pool, b.pool, items[k].chunk;
    assert q.chunks[c] == Filled(p.chunks[c], items[k].data) && IsParity(q.chunks[c]);
    RedescribedData(code, p, q, items, p.chunks[c].stripe);
    RedescribeKeepsContent(code, p, q, items, p.chunks[c].stripe);
    SameIntents(p, q, p.chunks[c].stripe);
    assert HasData(q.chunks, q.chunks[c].stripe);
    assert Guarded(code, q, p.chunks[c].stripe);
    if !Covered(p, p.chunks[c].stripe) { assert ParityIs(code, q.chunks[c], q.files, Content(q, p.chunks[c].stripe)); }
  }

  lemma RedescribeGrounds(code: Code, a: State, e: Event, b: State)
    requires Tracked(code, a) && e.Redescribe? && Step(code, a, e, b) && Careful(code, a, e)
    ensures Grounded(code, b)
  {
    var p, q := a.pool, b.pool;
    RedescribeKeepsRows(code, p, q, e.rows);
    forall c: nat | c < |q.chunks| && IsParity(q.chunks[c]) ensures HasData(q.chunks, q.chunks[c].stripe) {
      RowFilled(p, q, e.rows, c);
      RedescribedData(code, p, q, e.rows, p.chunks[c].stripe);
    }
  }

  lemma RedescribeGuards(code: Code, a: State, e: Event, b: State, s: StripeId)
    requires Tracked(code, a) && e.Redescribe? && Step(code, a, e, b) && Careful(code, a, e) && s < b.pool.stripes
    ensures Guarded(code, b.pool, s)
  {
    hide GetsData, Intended;
    var p, q := a.pool, b.pool;
    assert Guarded(code, p, s);
    assert Intended(q, s) <==> Intended(p, s) by { SameIntents(p, q, s); }
    if !Covered(p, s) {
      RedescribeKeepsContent(code, p, q, e.rows, s);
      forall c: nat | c < |q.chunks| && q.chunks[c].kind == ParityChunk && q.chunks[c].stripe == s
        ensures ParityIs(code, q.chunks[c], q.files, Content(q, s))
      {
        RowFilled(p, q, e.rows, c);
        RedescribeKeepsRows(code, p, q, e.rows);
      }
    }
  }

  lemma SameIntents(p: Pool, q: Pool, s: StripeId)
    requires q.log == p.log
    ensures Intended(q, s) <==> Intended(p, s)
  {
  }

  // ----- whole runs -----

  lemma StepGrounds(code: Code, a: State, e: Event, b: State)
    requires Grounded(code, a) && Step(code, a, e, b) && !e.Redescribe?
    ensures Grounded(code, b)
  {
    hide Step, Grounded;
    match e
    case Grant(_, _, _) => GrantGrounds(code, a, e, b);
    case LogIntents(_) => IntentsGround(code, a, e, b);
    case WriteFiles(_, _, _) => WriteGrounds(code, a, e, b);
    case LogResults(_, _) => ResultsGround(code, a, e, b);
    case FlushQueue(_, _) => FlushGrounds(code, a, e, b);
    case WorkerRound => RoundGrounds(code, a, e, b);
    case ReleaseSlots(_, _, _) => ReleaseGrounds(code, a, e, b);
    case DeleteFile(_) => DeleteGrounds(code, a, e, b);
    case CleanUp(_, _) => CleanUpGrounds(code, a, e, b);
  }

  /** Steps that never lose a stripe. */
  predicate Harmless(e: Event) { !e.WorkerRound? && !e.DeleteFile? && !e.CleanUp? && !e.Redescribe? }

  lemma OnlyGrantsAdd(code: Code, a: State, e: Event, b: State)
    requires Step(code, a, e, b) && !e.Grant?
    ensures b.pool.stripes == a.pool.stripes
  {
    hide LogSound;
  }

  lemma HarmlessGuards(code: Code, a: State, e: Event, b: State, s: StripeId)
    requires Grounded(code, a) && Grounded(code, b) && Step(code, a, e, b) && Harmless(e) && s < b.pool.stripes
    requires s < a.pool.stripes ==> Guarded(code, a.pool, s)
    ensures Guarded(code, b.pool, s)
  {
    hide Guarded, Sound, Brackets, WritesOpen, Flushed, Released, Grants, FilesWritten, RowsLogged;
    var p, q := a.pool, b.pool;
    if !e.Grant? { OnlyGrantsAdd(code, a, e, b); }
    match e
    case Grant(items, reserved, ids) => GrantProtects(code, p, q, items, reserved, ids, s);
    case LogIntents(ids) => LogProtects(code, p, q, ids, Intents(|ids|), s);
    case WriteFiles(ids, data, outcomes) => WriteProtects(code, a, q, ids, data, outcomes, s);
    case LogResults(ids, outcomes) => LogProtects(code, p, q, ids, Results(outcomes), s);
    case FlushQueue(ids, queued) => FlushProtects(code, p, q, ids, queued, s);
    case ReleaseSlots(ids, stale, dropped) => ReleaseProtects(code, p, q, ids, stale, dropped, s);
  }

  /** A step keeps every stripe protected exactly when it is careful. */
  lemma StepKeepsIff(code: Code, a: State, e: Event, b: State)
    requires Tracked(code, a) && Step(code, a, e, b)
    ensures Tracked(code, b) <==> Careful(code, a, e)
  {
    hide Step, Guarded, Grounded, Outlives, Covered, Fresh;
    if !e.Redescribe? { StepGrounds(code, a, e, b); }
    if e.Redescribe? {
      RedescribeKeepsIff(code, a, e, b);
    } else if e.WorkerRound? {
      RoundKeepsIff(code, a, e, b);
    } else if e.DeleteFile? {
      DeleteKeepsIff(code, a, e, b);
    } else if e.CleanUp? {
      CleanUpKeepsIff(code, a, e, b);
    } else {
      forall s: nat | s < b.pool.stripes ensures Guarded(code, b.pool, s) { HarmlessGuards(code, a, e, b, s); }
    }
  }

  ghost predicate IsRun(code: Code, states: seq<State>, events: seq<Event>) {
    |states| == |events| + 1 && forall i | 0 <= i < |events| :: Step(code, states[i], events[i], states[i + 1])
  }

  /** In every state of a run of careful steps, each stripe's parity is the encoding of its
      data, or a parity task is queued for it, or an intent of it is in the write queue. */
  lemma {:induction false} RunStaysProtected(code: Code, states: seq<State>, events: seq<Event>, n: nat)
    requires IsRun(code, states, events) && Tracked(code, states[0]) && n < |states|
    requires forall i | 0 <= i < n :: Careful(code, states[i], events[i])
    ensures Tracked(code, states[n])
  {
    if n > 0 {
      RunStaysProtected(code, states, events, n - 1);
      StepKeepsIff(code, states[n - 1], events[n - 1], states[n]);
    }
  }

  /** All states of a run are protected exactly when all its steps are careful. */
  lemma RunProtectedIff(code: Code, states: seq<State>, events: seq<Event>)
    requires IsRun(code, states, events) && Tracked(code, states[0])
    ensures (forall n | 0 <= n < |states| :: Tracked(code, states[n])) <==>
            (forall i | 0 <= i < |events| :: Careful(code, states[i], events[i]))
  {
    if forall n | 0 <= n < |states| :: Tracked(code, states[n]) {
      forall i | 0 <= i < |events| ensures Careful(code, states[i], events[i]) {
        StepKeepsIff(code, states[i], events[i], states[i + 1]);
      }
    }
    if forall i | 0 <= i < |events| :: Careful(code, states[i], events[i]) {
      forall n | 0 <= n < |states| ensures Tracked(code, states[n]) { RunStaysProtected(code, states, events, n); }
    }
  }

  /** An empty pool is a starting point. */
  lemma EmptyPoolIsTracked(code: Code, p: Pool)
    requires Lawful(code) && code.ds == p.ds && code.ps == p.ps
    requires p.chunks == [] && p.stripes == 0 && p.files == map[] && p.log == []
    ensures Tracked(code, State(p, multiset{}))
  {
  }

  /** Once the queues are empty, all parity is the encoding of the data. */
  lemma QuietIsFresh(code: Code, a: State, s: StripeId)
    requires Tracked(code, a) && s < a.pool.stripes && a.pool.tasks == [] && a.pool.log == []
    ensures Fresh(code, a.pool, s)
  {
    assert Guarded(code, a.pool, s);
  }

  // ----- a chunk given out between the flush and the round -----

  lemma GrantKeepsLog(p: Pool, q: Pool, items: seq<Data>, reserved: seq<ChunkId>, ids: seq<ChunkId>, s: StripeId)
    requires Grants(p, q, items, reserved, ids)
    ensures (Intended(q, s) <==> Intended(p, s)) && q.tasks == p.tasks
  {
  }

  /** Parity that was not fresh is not made so by giving out chunks. */
  lemma GrantStaysStale(code: Code, p: Pool, q: Pool, items: seq<Data>, reserved: seq<ChunkId>, ids: seq<ChunkId>,
                        s: StripeId)
    requires Sound(code, p) && IsPick(p.chunks, reserved, |items|) && Grants(p, q, items, reserved, ids) && LaidOut(q)
    requires !Fresh(code, p, s)
    ensures !Fresh(code, q, s)
  {
    forall i | 0 <= i < p.ds ensures Content(q, s)[i] == Content(p, s)[i] {
      GrantKeepsContent(p, q, items, reserved, ids, s, i);
    }
    assert Content(q, s) == Content(p, s);
    var c :| 0 <= c < |p.chunks| && p.chunks[c].kind == ParityChunk && p.chunks[c].stripe == s
             && !ParityIs(code, p.chunks[c], p.files, Content(p, s));
    assert q.chunks[c] == p.chunks[c];
  }

  /** If a slot of a stripe that waits for its parity is given out, and the next round comes
      before the new chunk has logged its intent, the stripe has neither parity nor a task. */
  lemma GrantThenRound(code: Code, a: State, g: Event, b: State, d: State, k: nat)
    requires Tracked(code, a) && g.Grant? && Step(code, a, g, b) && Step(code, b, WorkerRound, d) && k < |g.reserved|
    requires !Fresh(code, a.pool, a.pool.chunks[g.reserved[k]].stripe)
    requires !Intended(a.pool, a.pool.chunks[g.reserved[k]].stripe)
    ensures Grounded(code, d) && !Guarded(code, d.pool, a.pool.chunks[g.reserved[k]].stripe)
  {
    hide Fresh, Guarded, Intended, Sound, Brackets;
    var s := a.pool.chunks[g.reserved[k]].stripe;
    StepGrounds(code, a, g, b);
    StepGrounds(code, b, WorkerRound, d);
    GivenIsUnwritten(code, a, g, b, k);
    GrantStaysStale(code, a.pool, b.pool, g.items, g.reserved, g.ids, s);
    GrantKeepsLog(a.pool, b.pool, g.items, g.reserved, g.ids, s);
    RoundIff(code, b.pool, d.pool, s);
  }

  lemma GivenIsUnwritten(code: Code, a: State, g: Event, b: State, k: nat)
    requires Grounded(code, a) && g.Grant? && Step(code, a, g, b) && k < |g.reserved|
    ensures g.reserved[k] < |a.pool.chunks| && Unwritten(b.pool, a.pool.chunks[g.reserved[k]].stripe)
  {
    assert g.ids[k] == g.ids[..|g.reserved|][k] == g.reserved[k];
    GrantedIsUnwritten(a.pool, b.pool, g.items, g.reserved, g.ids, k);
  }

  // ----- what the rounds never lose -----

  /** Guarded, or a chunk of the stripe is still missing from the disk. */
  ghost predicate Watched(code: Code, p: Pool, s: StripeId) { Guarded(code, p, s) || Unwritten(p, s) }

  ghost predicate AllWatched(code: Code, p: Pool) { forall s: nat | s < p.stripes :: Watched(code, p, s) }

  /** A chunk missing from the disk stays missing unless an open write of it brings it there or
      a release takes its row. */
  lemma UnwrittenStays(code: Code, a: State, e: Event, b: State, s: StripeId)
    requires Grounded(code, a) && Grounded(code, b) && Step(code, a, e, b) && (Harmless(e) || e.WorkerRound?)
    requires Unwritten(a.pool, s)
    ensures Watched(code, b.pool, s)
  {
    hide Sound, Flushed, Released, Grants, FilesWritten, RowsLogged, RoundDone, IsPick, Guarded, Brackets;
    var p, q := a.pool, b.pool;
    var c: nat :| Missing(p, c) && p.chunks[c].stripe == s;
    match e
    case Grant(items, reserved, ids) => GrantKeepsMissing(code, p, q, items, reserved, ids, c);
    case LogIntents(ids) => LogKeepsMissing(p, q, ids, Intents(|ids|), c);
    case WriteFiles(ids, data, outcomes) => UnwrittenIsOpen(code, a, q, ids, data, outcomes, c);
    case LogResults(ids, outcomes) => LogKeepsMissing(p, q, ids, Results(outcomes), c);
    case FlushQueue(ids, queued) => FlushKeepsMissing(p, q, ids, queued, c);
    case WorkerRound => RoundKeepsMissing(code, p, q, c);
    case ReleaseSlots(ids, stale, dropped) => UnwrittenReleased(code, p, q, ids, stale, dropped, c);
  }

  predicate Missing(p: Pool, c: int) { 0 <= c < |p.chunks| && IsData(p.chunks[c]) && p.chunks[c].loc !in p.files }

  lemma GrantKeepsMissing(code: Code, p: Pool, q: Pool, items: seq<Data>, reserved: seq<ChunkId>, ids: seq<ChunkId>,
                          c: nat)
    requires Sound(code, p) && IsPick(p.chunks, reserved, |items|) && Grants(p, q, items, reserved, ids) && LaidOut(q)
    requires Missing(p, c)
    ensures Missing(q, c) && q.chunks[c] == p.chunks[c]
  {
    GrantKeepsRows(code, p, q, items, reserved, ids);
  }

  lemma LogKeepsMissing(p: Pool, q: Pool, ids: seq<ChunkId>, statuses: seq<WriteStatus>, c: nat)
    requires RowsLogged(p, q, ids, statuses) && Missing(p, c)
    ensures Missing(q, c) && q.chunks[c] == p.chunks[c]
  {
  }

  lemma FlushKeepsMissing(p: Pool, q: Pool, ids: seq<ChunkId>, queued: seq<StripeId>, c: nat)
    requires Flushed(p, q, ids, queued) && Missing(p, c)
    ensures Missing(q, c) && q.chunks[c] == p.chunks[c]
  {
  }

  lemma RoundKeepsMissing(code: Code, p: Pool, q: Pool, c: nat)
    requires Sound(code, p) && RoundDone(code, p, q) && Missing(p, c)
    ensures Missing(q, c) && q.chunks[c] == p.chunks[c]
  {
    RoundKeepsRows(code, p, q);
  }

  lemma UnwrittenIsOpen(code: Code, a: State, q: Pool, ids: seq<ChunkId>, data: seq<Data>, outcomes: seq<Outcome>,
                        c: nat)
    requires Grounded(code, a) && Missing(a.pool, c)
    requires FilesWritten(a.pool, q, ids, data, outcomes) && Members(ids) <= (set c | c in a.inflight)
    ensures Watched(code, q, a.pool.chunks[c].stripe)
  {
    if k :| 0 <= k < |ids| && a.pool.chunks[ids[k]].loc == a.pool.chunks[c].loc {
      OnlyOneThere(a.pool, c);
      assert ids[k] in Members(ids);
      OpenIsIntended(a.pool, a.inflight, c);
    } else {
      assert Elsewhere(a.pool.chunks, ids, |ids|, a.pool.chunks[c].loc);
    }
  }

  lemma UnwrittenReleased(code: Code, p: Pool, q: Pool, ids: seq<ChunkId>, stale: seq<Loc>, dropped: set<ChunkId>,
                          c: nat)
    requires Released(p, q, ids, stale, dropped) && Missing(p, c)
    ensures Watched(code, q, p.chunks[c].stripe)
  {
    var freed, s := Freed(p, ids), p.chunks[c].stripe;
    if c !in freed {
      assert q.chunks[c] == p.chunks[c];
    } else if Emptied(p, freed, s) {
      ReleaseEmpties(p, q, ids, stale, dropped, s);
      EmptyIsFresh(code, q, s);
    } else {
      assert Touched(p, freed, s);
      assert s in q.tasks;
    }
  }

  /** Whatever the writes and the worker do, a stripe is out of sight only while a chunk given
      out is missing from the disk. */
  lemma StepWatches(code: Code, a: State, e: Event, b: State)
    requires Grounded(code, a) && AllWatched(code, a.pool) && Step(code, a, e, b) && (Harmless(e) || e.WorkerRound?)
    ensures Grounded(code, b) && AllWatched(code, b.pool)
  {
    hide Step, Grounded, Guarded, Unwritten;
    StepGrounds(code, a, e, b);
    forall s: nat | s < b.pool.stripes ensures Watched(code, b.pool, s) {
      assert s < a.pool.stripes ==> Watched(code, a.pool, s);
      if Unwritten(a.pool, s) {
        UnwrittenStays(code, a, e, b, s);
      } else if Harmless(e) {
        HarmlessGuards(code, a, e, b, s);
      } else {
        RoundWatches(code, a, e, b, s);
      }
    }
  }

  lemma RoundWatches(code: Code, a: State, e: Event, b: State, s: StripeId)
    requires Grounded(code, a) && Step(code, a, e, b) && e.WorkerRound? && s < b.pool.stripes
    requires !Unwritten(a.pool, s) && (s < a.pool.stripes ==> Guarded(code, a.pool, s))
    ensures Guarded(code, b.pool, s)
  {
    hide Sound, Fresh, Unwritten, Intended, Brackets;
    assert Sound(code, a.pool) && RoundDone(code, a.pool, b.pool);
    RoundIff(code, a.pool, b.pool, s);
  }

  lemma {:induction false} RunStaysWatched(code: Code, states: seq<State>, events: seq<Event>, n: nat)
    requires IsRun(code, states, events) && Grounded(code, states[0]) && AllWatched(code, states[0].pool)
    requires n < |states|
    requires forall i | 0 <= i < n :: Harmless(events[i]) || events[i].WorkerRound?
    ensures Grounded(code, states[n]) && AllWatched(code, states[n].pool)
  {
    hide Step, Grounded, AllWatched;
    if n > 0 {
      RunStaysWatched(code, states, events, n - 1);
      StepWatches(code, states[n - 1], events[n - 1], states[n]);
    }
  }
}
