/** The parity worker's two jobs on one stripe: loops over shard
    arrays that read, pad, encode or reconstruct, and write files. */
module StripeWorker {
  import opened Bytes
  import opened Wrappers
  import opened Tables
  import opened ErasureCode
  import opened Database
  import opened Stripes
  import opened ChunkStore

  /** The written data chunk of a stripe at an index. */
  ghost function ChunkAt(data: seq<Chunk>, i: nat): (r: Option<Chunk>)
    ensures r.Some? ==> r.value in data && r.value.index == i
  {
    if data == [] then None
    else if data[|data| - 1].index == i then Some(data[|data| - 1])
    else ChunkAt(data[..|data| - 1], i)
  }

  /** The written chunk behind a shard: data shards first, then parity shards. */
  ghost function ShardChunk(code: Code, job: Job, i: nat): Option<Chunk> {
    if i < code.ds then ChunkAt(job.data, i)
    else if i - code.ds in job.parity && job.parity[i - code.ds].status == Allocated then Some(job.parity[i - code.ds])
    else None
  }

  /** Data chunks in ascending order of their slots, one parity chunk an index, all in
      files of their own. */
  ghost predicate ValidJob(code: Code, job: Job) {
    && (forall k | 0 <= k < |job.data| :: job.data[k].kind == DataChunk)
    && (forall j | j in job.parity :: job.parity[j].kind == ParityChunk)
    && (forall k | 0 <= k < |job.data| :: job.data[k].index < code.ds)
    && (forall k, m | 0 <= k < m < |job.data| :: job.data[k].index < job.data[m].index)
    && (forall k, m | 0 <= k < m < |job.data| :: job.data[k].loc != job.data[m].loc)
    && (forall j: nat :: j in job.parity <==> j < code.ps)
    && (forall j, m | j in job.parity && m in job.parity && j != m :: job.parity[j].loc != job.parity[m].loc)
    && (forall k, j | 0 <= k < |job.data| && j in job.parity :: job.data[k].loc != job.parity[j].loc)
  }

  // ----- computing parity -----

  ghost predicate Readable(data: seq<Chunk>, files: Files) {
    forall k | 0 <= k < |data| :: data[k].loc in files
  }

  /** What the data slots of a stripe hold on the disks. */
  ghost function SlotsOf(ds: nat, data: seq<Chunk>, files: Files): (r: Slots)
    requires Readable(data, files)
    ensures |r| == ds
    ensures forall i | 0 <= i < ds ::
              r[i] == if ChunkAt(data, i).Some? then Some(files[ChunkAt(data, i).value.loc]) else None
  {
    seq(ds, i requires 0 <= i < ds =>
      if ChunkAt(data, i).Some? then Some(files[ChunkAt(data, i).value.loc]) else None)
  }

  lemma ChunkAtSnoc(data: seq<Chunk>, k: nat, i: nat)
    requires k < |data|
    ensures ChunkAt(data[..k + 1], i) == if data[k].index == i then Some(data[k]) else ChunkAt(data[..k], i)
  {
    assert data[..k + 1][..k] == data[..k];
  }

  method ReadShards(db: PoolDb, code: Code, job: Job, shards: array<Option<Data>>) returns (ok: bool)
    requires shards.Length == code.ds + code.ps
    requires forall k | 0 <= k < |job.data| :: job.data[k].index < code.ds
    requires forall i | 0 <= i < shards.Length :: shards[i] == None
    modifies shards
    ensures ok <==> Readable(job.data, db.files)
    ensures ok ==> shards[..code.ds] == SlotsOf(code.ds, job.data, db.files)
    ensures forall i | code.ds <= i < shards.Length :: shards[i] == None
  {
    for k := 0 to |job.data|
      invariant Readable(job.data[..k], db.files)
      invariant forall i | 0 <= i < code.ds :: shards[i] ==
                  if ChunkAt(job.data[..k], i).Some? then Some(db.files[ChunkAt(job.data[..k], i).value.loc]) else None
      invariant forall i | code.ds <= i < shards.Length :: shards[i] == None
    {
      var c := job.data[k];
      if c.loc !in db.files {
        return false;
      }
      forall i | 0 <= i < code.ds
        ensures ChunkAt(job.data[..k + 1], i) == if c.index == i then Some(c) else ChunkAt(job.data[..k], i)
      {
        ChunkAtSnoc(job.data, k, i);
      }
      shards[c.index] := Some(db.files[c.loc]);
    }
    assert job.data[..|job.data|] == job.data;
    ok := true;
  }

  /** The longest of the first `n` shards. */
  method MaxSize(shards: array<Option<Data>>, n: nat) returns (size: nat)
    requires n <= shards.Length
    ensures size == Width(shards[..n])
  {
    size := 0;
    for i := 0 to n
      invariant size == Width(shards[..i])
    {
      assert shards[..i + 1][..i] == shards[..i];
      if Len(shards[i]) > size {
        size := Len(shards[i]);
      }
    }
  }

  /** Pads the data shards to one width and fills the slots that were never written. */
  method FillShards(shards: array<Option<Data>>, ds: nat, size: nat)
    requires ds <= shards.Length && size == Width(shards[..ds])
    modifies shards
    ensures forall i | 0 <= i < ds :: shards[i] == Some(Fill(old(shards[..ds]), size)[i])
  {
    hide Width, Pad;
    ghost var slots := shards[..ds];
    for i := 0 to ds
      invariant forall m | 0 <= m < i ::
                shards[m] == Some(Fill(slots, size)[m]) || (shards[m] == None && slots[m] == None && size == 0)
      invariant forall m | i <= m < ds :: shards[m] == slots[m]
    {
      if Len(shards[i]) < size {
        shards[i] := Some(Pad(if shards[i].Some? then shards[i].value else [], size));
      } else if shards[i].Some? {
        FullWidthIsUnpadded(shards[i].value, size);
      }
    }
    for i := 0 to ds
      invariant forall m | 0 <= m < i :: shards[m] == Some(Fill(slots, size)[m])
      invariant forall m | i <= m < ds ::
                shards[m] == Some(Fill(slots, size)[m]) || (shards[m] == None && slots[m] == None && size == 0)
    {
      if shards[i].None? {
        shards[i] := Some(Zeros(size));
      }
    }
  }

  /** Encodes a stripe from what is on the disks and writes its parity files. */
  method ComputeStripe(db: PoolDb, code: Code, job: Job) returns (ok: bool, results: seq<Data>)
    requires ValidJob(code, job) && Lawful(code)
    modifies db`files
    ensures ok <==> code.ps == 0 || Readable(job.data, old(db.files))
    ensures !ok || code.ps == 0 ==> db.files == old(db.files) && results == []
    ensures ok && code.ps > 0 ==> results == Parity(code, SlotsOf(code.ds, job.data, old(db.files)))
    ensures ok && code.ps > 0 ==>
              |results| == code.ps && db.files == ParityWritten(old(db.files), job, results, code.ps)
  {
    hide ParityWritten, Parity;
    if code.ps == 0 {
      return true, [];
    }
    var shards := new Option<Data>[code.ds + code.ps](_ => None);
    var read := ReadShards(db, code, job, shards);
    if !read {
      return false, [];
    }
    ghost var slots := shards[..code.ds];
    var size := MaxSize(shards, code.ds);
    FillShards(shards, code.ds, size);
    var data := seq(code.ds, i requires 0 <= i < code.ds reads shards =>
      if shards[i].Some? then shards[i].value else []);
    assert data == Fill(slots, size);
    WordIsCodeword(code, slots);
    results := code.encode(data);
    WriteParity(db, job, results);
    ok := true;
  }

  method WriteParity(db: PoolDb, job: Job, parity: seq<Data>)
    requires forall j: nat | j < |parity| :: j in job.parity
    modifies db`files
    ensures db.files == ParityWritten(old(db.files), job, parity, |parity|)
  {
    for idx := 0 to |parity|
      invariant db.files == ParityWritten(old(db.files), job, parity, idx)
    {
      db.files := db.files[job.parity[idx].loc := parity[idx]];
    }
  }

  /** The files after the first `n` parity shards have been written. */
  ghost function ParityWritten(files: Files, job: Job, parity: seq<Data>, n: nat): Files
    requires n <= |parity| && forall j: nat | j < n :: j in job.parity
  {
    if n == 0 then files else ParityWritten(files, job, parity, n - 1)[job.parity[n - 1].loc := parity[n - 1]]
  }

  /** Each parity file holds its shard; every other file is as it was. */
  lemma {:induction false} ParityWrittenAt(code: Code, files: Files, job: Job, parity: seq<Data>, n: nat)
    requires ValidJob(code, job) && n <= |parity| == code.ps
    ensures forall j: nat | j < n :: job.parity[j].loc in ParityWritten(files, job, parity, n)
    ensures forall j: nat | j < n :: ParityWritten(files, job, parity, n)[job.parity[j].loc] == parity[j]
    ensures forall l | (forall j: nat | j < n :: l != job.parity[j].loc) ::
              SameFile(files, ParityWritten(files, job, parity, n), l)
  {
    if n > 0 {
      ParityWrittenAt(code, files, job, parity, n - 1);
      forall l | (forall j: nat | j < n :: l != job.parity[j].loc)
        ensures SameFile(files, ParityWritten(files, job, parity, n), l)
      {
        assert SameFile(files, ParityWritten(files, job, parity, n - 1), l);
      }
    }
  }

  // ----- rebuilding -----

  /** The chunk can be read and its bytes match the digest in its row; a row without a
      digest is not checked. */
  predicate Verified(c: Chunk, files: Files) {
    c.loc in files && (c.hash.Some? ==> files[c.loc] == c.hash.value)
  }

  /** A written shard that cannot be read, or reads wrong. */
  ghost predicate IsMissing(code: Code, job: Job, files: Files, i: nat) {
    ShardChunk(code, job, i).Some? && !Verified(ShardChunk(code, job, i).value, files)
  }

  ghost predicate IsUnwritten(code: Code, job: Job, i: nat) { ShardChunk(code, job, i).None? }

  /** A shard as it is read: nothing if it is missing or was never written. */
  ghost function ShardRead(code: Code, job: Job, files: Files, i: nat): Option<Data> {
    var c := ShardChunk(code, job, i);
    if c.Some? && Verified(c.value, files) then Some(files[c.value.loc]) else None
  }

  /** The shards that can still be read. */
  ghost function Remnant(code: Code, job: Job, files: Files): (r: Slots)
    ensures |r| == code.ds + code.ps
    ensures forall i | 0 <= i < |r| :: r[i] == ShardRead(code, job, files, i)
  {
    seq(code.ds + code.ps, i requires i >= 0 => ShardRead(code, job, files, i))
  }

  /** The content of a stripe as its rows describe it, with parity that is up to date. */
  ghost predicate Describes(code: Code, job: Job, slots: Slots) {
    && |slots| == code.ds
    && (forall i | 0 <= i < code.ds :: slots[i].Some? <==> ChunkAt(job.data, i).Some?)
    && (forall i | 0 <= i < code.ds && slots[i].Some? ::
          var c := ChunkAt(job.data, i).value;
          c.hash == Some(slots[i].value) && c.size == |slots[i].value| > 0)
    && (forall i | code.ds <= i < code.ds + code.ps && ShardChunk(code, job, i).Some? ::
          ShardChunk(code, job, i).value.hash == Some(ShardContent(code, slots, i)))
    && (Width(slots) == 0 ==> forall i | code.ds <= i < code.ds + code.ps :: IsUnwritten(code, job, i))
  }

  /** What a written shard should hold. */
  ghost function ShardContent(code: Code, slots: Slots, i: nat): Data {
    if i < |slots| then (if slots[i].Some? then slots[i].value else [])
    else if i - |slots| < |Parity(code, slots)| then Parity(code, slots)[i - |slots|]
    else []
  }

  lemma RemnantOfStripe(code: Code, job: Job, files: Files, slots: Slots)
    requires Lawful(code) && Describes(code, job, slots)
    ensures IsRemnant(code, slots, Remnant(code, job, files))
  {
    WordIsCodeword(code, slots);
    var raw := Remnant(code, job, files);
    forall j | 0 <= j < code.ps ensures raw[code.ds + j].Some? ==> raw[code.ds + j].value == Parity(code, slots)[j] {
      assert raw[code.ds + j] == ShardRead(code, job, files, code.ds + j);
    }
  }

  /** The file of a missing shard. */
  ghost predicate MissingFile(code: Code, job: Job, files: Files, l: Loc) {
    exists i :: 0 <= i < code.ds + code.ps && IsMissing(code, job, files, i) && ShardChunk(code, job, i).value.loc == l
  }

  /** Rebuilding only ever touches the files of missing shards. */
  ghost predicate OnlyMissingChange(code: Code, job: Job, before: Files, after: Files) {
    forall l | !MissingFile(code, job, before, l) :: SameFile(before, after, l)
  }

  ghost predicate AllRestored(code: Code, job: Job, slots: Slots, files: Files) {
    forall i | 0 <= i < code.ds + code.ps && ShardChunk(code, job, i).Some? ::
      ShardChunk(code, job, i).value.loc in files &&
      files[ShardChunk(code, job, i).value.loc] == ShardContent(code, slots, i)
  }

  /** How many of the first `n` shards are missing, and how many were never written. */
  ghost function MissingCount(code: Code, job: Job, files: Files, n: nat): nat {
    if n == 0 then 0
    else MissingCount(code, job, files, n - 1) + if IsMissing(code, job, files, n - 1) then 1 else 0
  }

  ghost function UnwrittenCount(code: Code, job: Job, n: nat): nat {
    if n == 0 then 0 else UnwrittenCount(code, job, n - 1) + if IsUnwritten(code, job, n - 1) then 1 else 0
  }

  lemma {:induction false} ShardsCounted(code: Code, job: Job, files: Files, n: nat)
    requires n <= code.ds + code.ps
    ensures Present(Remnant(code, job, files)[..n]) + MissingCount(code, job, files, n)
            + UnwrittenCount(code, job, n) == n
  {
    if n > 0 {
      var r := Remnant(code, job, files);
      assert r[..n][..n - 1] == r[..n - 1];
      ShardsCounted(code, job, files, n - 1);
    }
  }

  /** At most `ps` shards are missing or were never written. */
  ghost predicate Recoverable(code: Code, job: Job, files: Files) {
    var total := code.ds + code.ps;
    MissingCount(code, job, files, total) + UnwrittenCount(code, job, total) <= code.ps
  }

  lemma RecoverableIff(code: Code, job: Job, files: Files)
    ensures Recoverable(code, job, files) <==> Present(Remnant(code, job, files)) >= code.ds
  {
    var r, total := Remnant(code, job, files), code.ds + code.ps;
    ShardsCounted(code, job, files, total);
    assert r[..total] == r;
  }

  /** A written chunk and the shard it is. */
  datatype Ref = Ref(chunk: Chunk, shard: nat)

  /** One reference for every written shard below `n`. */
  ghost predicate AreRefsBelow(code: Code, job: Job, refs: seq<Ref>, n: nat) {
    && (forall r | 0 <= r < |refs| :: refs[r].shard < n && ShardChunk(code, job, refs[r].shard) == Some(refs[r].chunk))
    && (forall r, q | 0 <= r < q < |refs| :: refs[r].shard != refs[q].shard && refs[r].chunk.loc != refs[q].chunk.loc)
    && (forall i | 0 <= i < n && ShardChunk(code, job, i).Some? :: exists r :: 0 <= r < |refs| && refs[r].shard == i)
  }

  ghost predicate AreRefs(code: Code, job: Job, refs: seq<Ref>) { AreRefsBelow(code, job, refs, code.ds + code.ps) }

  lemma {:induction false} ChunkAtIndex(code: Code, job: Job, k: nat, n: nat)
    requires ValidJob(code, job) && k < n <= |job.data|
    ensures ChunkAt(job.data[..n], job.data[k].index) == Some(job.data[k])
  {
    if k < n - 1 {
      ChunkAtIndex(code, job, k, n - 1);
    }
    ChunkAtSnoc(job.data, n - 1, job.data[k].index);
  }

  method DataRefs(code: Code, job: Job) returns (refs: seq<Ref>)
    requires ValidJob(code, job)
    ensures AreRefsBelow(code, job, refs, code.ds)
  {
    refs := [];
    for k := 0 to |job.data|
      invariant |refs| == k && forall r | 0 <= r < k :: refs[r] == Ref(job.data[r], job.data[r].index)
    {
      refs := refs + [Ref(job.data[k], job.data[k].index)];
    }
    ghost var n := |job.data|;
    assert job.data[..n] == job.data;
    forall k | 0 <= k < n ensures ChunkAt(job.data, job.data[k].index) == Some(job.data[k]) {
      ChunkAtIndex(code, job, k, n);
    }
    forall i | 0 <= i < code.ds && ShardChunk(code, job, i).Some? ensures exists r :: 0 <= r < n && refs[r].shard == i {
      var r :| 0 <= r < n && job.data[r] == ChunkAt(job.data, i).value;
      assert refs[r].shard == i;
    }
  }

  method BuildRefs(code: Code, job: Job) returns (refs: seq<Ref>)
    requires ValidJob(code, job)
    ensures AreRefs(code, job, refs)
  {
    refs := DataRefs(code, job);
    for j := 0 to code.ps
      invariant AreRefsBelow(code, job, refs, code.ds + j)
    {
      NextRef(code, job, refs, j);
      if job.parity[j].status == Allocated {
        refs := refs + [Ref(job.parity[j], code.ds + j)];
      }
    }
  }

  lemma NextRef(code: Code, job: Job, refs: seq<Ref>, j: nat)
    requires ValidJob(code, job) && j < code.ps && AreRefsBelow(code, job, refs, code.ds + j)
    ensures job.parity[j].status != Allocated ==> AreRefsBelow(code, job, refs, code.ds + j + 1)
    ensures job.parity[j].status == Allocated ==>
              AreRefsBelow(code, job, refs + [Ref(job.parity[j], code.ds + j)], code.ds + j + 1)
  {
    if job.parity[j].status == Allocated {
      forall r | 0 <= r < |refs| ensures refs[r].chunk.loc != job.parity[j].loc {
        ShardLocDiffers(code, job, refs[r].shard, j);
      }
      var more := refs + [Ref(job.parity[j], code.ds + j)];
      assert more[|refs|].shard == code.ds + j;
      forall i | 0 <= i < code.ds + j && ShardChunk(code, job, i).Some?
        ensures exists r :: 0 <= r < |more| && more[r].shard == i
      {
        var r :| 0 <= r < |refs| && refs[r].shard == i;
        assert more[r] == refs[r];
      }
    }
  }

  lemma ShardLocDiffers(code: Code, job: Job, i: nat, j: nat)
    requires ValidJob(code, job) && j < code.ps && i < code.ds + j && ShardChunk(code, job, i).Some?
    ensures ShardChunk(code, job, i).value.loc != job.parity[j].loc
  {
    if i < code.ds {
      var k :| 0 <= k < |job.data| && job.data[k] == ChunkAt(job.data, i).value;
    }
  }

  /** The first `k` shards have been read. */
  ghost predicate ReadSoFar(code: Code, job: Job, files: Files, refs: seq<Ref>, k: nat, shards: Slots,
                            missing: seq<bool>)
  {
    && AreRefs(code, job, refs) && k <= |refs| && |shards| == |missing| == code.ds + code.ps
    && (forall r | 0 <= r < k :: shards[refs[r].shard] == ShardRead(code, job, files, refs[r].shard))
    && (forall r | 0 <= r < k :: missing[refs[r].shard] <==> IsMissing(code, job, files, refs[r].shard))
    && (forall i | 0 <= i < |shards| && (forall r | 0 <= r < k :: refs[r].shard != i) ::
          shards[i] == None && !missing[i])
  }

  lemma ReadMore(code: Code, job: Job, files: Files, refs: seq<Ref>, k: nat, shards: Slots, missing: seq<bool>,
                 shards': Slots, missing': seq<bool>)
    requires ReadSoFar(code, job, files, refs, k, shards, missing) && k < |refs|
    requires var Ref(c, i) := refs[k];
             if Verified(c, files) then shards' == shards[i := Some(files[c.loc])] && missing' == missing
             else shards' == shards && missing' == missing[i := true]
    ensures ReadSoFar(code, job, files, refs, k + 1, shards', missing')
  {
  }

  lemma ReadAll(code: Code, job: Job, files: Files, refs: seq<Ref>, shards: Slots, missing: seq<bool>)
    requires ReadSoFar(code, job, files, refs, |refs|, shards, missing)
    ensures shards == Remnant(code, job, files)
    ensures forall i | 0 <= i < |missing| :: missing[i] <==> IsMissing(code, job, files, i)
  {
    forall i | 0 <= i < |shards|
      ensures shards[i] == ShardRead(code, job, files, i) && (missing[i] <==> IsMissing(code, job, files, i))
    {
      if ShardChunk(code, job, i).Some? {
        var r :| 0 <= r < |refs| && refs[r].shard == i;
      }
    }
  }

  /** Reads and verifies every written shard. */
  method ReadVerifiedShards(db: PoolDb, code: Code, ghost job: Job, refs: seq<Ref>,
                            shards: array<Option<Data>>, missing: array<bool>)
    requires AreRefs(code, job, refs) && shards.Length == missing.Length == code.ds + code.ps
    requires forall i | 0 <= i < shards.Length :: shards[i] == None && !missing[i]
    modifies shards, missing
    ensures shards[..] == Remnant(code, job, db.files)
    ensures forall i | 0 <= i < missing.Length :: missing[i] <==> IsMissing(code, job, db.files, i)
    ensures forall i | 0 <= i < missing.Length :: missing[i] <==>
              var c := ShardChunk(code, job, i);
              c.Some? && (c.value.loc !in db.files ||
                (c.value.hash.Some? && db.files[c.value.loc] != c.value.hash.value))
  {
    for k := 0 to |refs|
      invariant ReadSoFar(code, job, db.files, refs, k, shards[..], missing[..])
    {
      ghost var was, lacked := shards[..], missing[..];
      var Ref(c, i) := refs[k];
      if Verified(c, db.files) {
        shards[i] := Some(db.files[c.loc]);
      } else {
        missing[i] := true;
      }
      ReadMore(code, job, db.files, refs, k, was, lacked, shards[..], missing[..]);
    }
    ReadAll(code, job, db.files, refs, shards[..], missing[..]);
  }

  method CountMissing(code: Code, missing: array<bool>, ghost job: Job, ghost files: Files) returns (n: nat)
    requires missing.Length == code.ds + code.ps
    requires forall i | 0 <= i < missing.Length :: missing[i] <==> IsMissing(code, job, files, i)
    ensures n == MissingCount(code, job, files, code.ds + code.ps)
  {
    n := 0;
    for i := 0 to missing.Length
      invariant n == MissingCount(code, job, files, i)
    {
      if missing[i] {
        n := n + 1;
      }
    }
  }

  /** Pads the shards that were read; the others stay empty for the decoder to fill. */
  method PadRead(shards: array<Option<Data>>, size: nat)
    requires size == Width(shards[..])
    modifies shards
    ensures shards[..] == PadShards(old(shards[..]), size)
  {
    ghost var raw := shards[..];
    for i := 0 to shards.Length
      invariant forall m | 0 <= m < i :: shards[m] == PadShards(raw, size)[m]
      invariant forall m | i <= m < shards.Length :: shards[m] == raw[m]
    {
      if shards[i].Some? {
        if |shards[i].value| == size {
          FullWidthIsUnpadded(shards[i].value, size);
        } else {
          shards[i] := Some(Pad(shards[i].value, size));
        }
      }
    }
  }

  /** The recovered bytes of a shard: a data chunk cut to the size in its row. */
  function Recovered(c: Chunk, shard: Data): (r: Data)
    ensures r <= shard && |r| == if c.kind == DataChunk && 0 < c.size < |shard| then c.size else |shard|
  {
    if c.kind == DataChunk && 0 < c.size <= |shard| then shard[..c.size] else shard
  }

  /** What happens to the file of one reference. */
  ghost predicate RefBack(ref: Ref, word: seq<Data>, outcome: nat -> Outcome, before: Files, after: Files)
    requires ref.shard < |word|
  {
    FileAfter(before, after, ref.chunk.loc, Recovered(ref.chunk, word[ref.shard]), outcome(ref.shard))
  }

  /** The files of the missing shards among the first `k` references have been written. */
  ghost predicate FilesBack(refs: seq<Ref>, missing: seq<bool>, word: seq<Data>, outcome: nat -> Outcome, k: nat,
                            before: Files, after: Files)
  {
    && |missing| == |word| && k <= |refs| && (forall r | 0 <= r < |refs| :: refs[r].shard < |word|)
    && (forall r | 0 <= r < k && missing[refs[r].shard] :: RefBack(refs[r], word, outcome, before, after))
    && (forall l | Spared(refs, missing, k, l) :: SameFile(before, after, l))
  }

  /** None of the missing shards among the first `k` references lives in the file. */
  ghost predicate Spared(refs: seq<Ref>, missing: seq<bool>, k: nat, l: Loc)
    requires k <= |refs| && forall r | 0 <= r < |refs| :: refs[r].shard < |missing|
  {
    forall r | 0 <= r < k && missing[refs[r].shard] :: refs[r].chunk.loc != l
  }

  predicate OwnFiles(refs: seq<Ref>) {
    forall r, q | 0 <= r < q < |refs| :: refs[r].shard != refs[q].shard && refs[r].chunk.loc != refs[q].chunk.loc
  }

  lemma RefBackStays(ref: Ref, word: seq<Data>, outcome: nat -> Outcome, before: Files, was: Files, after: Files)
    requires ref.shard < |word| && RefBack(ref, word, outcome, before, was) && SameFile(was, after, ref.chunk.loc)
    ensures RefBack(ref, word, outcome, before, after)
  {
  }

  lemma RefBackNow(ref: Ref, word: seq<Data>, outcome: nat -> Outcome, before: Files, was: Files, after: Files)
    requires ref.shard < |word| && RefBack(ref, word, outcome, was, after) && SameFile(before, was, ref.chunk.loc)
    ensures RefBack(ref, word, outcome, before, after)
  {
  }

  lemma FilesBackMore(refs: seq<Ref>, missing: seq<bool>, word: seq<Data>, outcome: nat -> Outcome, k: nat,
                      before: Files, was: Files, after: Files)
    requires FilesBack(refs, missing, word, outcome, k, before, was) && k < |refs| && OwnFiles(refs)
    requires missing[refs[k].shard] ==> RefBack(refs[k], word, outcome, was, after)
    requires forall l | l != refs[k].chunk.loc || !missing[refs[k].shard] :: SameFile(was, after, l)
    ensures FilesBack(refs, missing, word, outcome, k + 1, before, after)
  {
    hide RefBack;
    assert Spared(refs, missing, k, refs[k].chunk.loc);
    forall r | 0 <= r < k + 1 && missing[refs[r].shard] ensures RefBack(refs[r], word, outcome, before, after) {
      if r < k {
        RefBackStays(refs[r], word, outcome, before, was, after);
      } else {
        RefBackNow(refs[r], word, outcome, before, was, after);
      }
    }
    forall l | Spared(refs, missing, k + 1, l) ensures SameFile(before, after, l) {
      assert missing[refs[k].shard] ==> refs[k].chunk.loc != l;
      assert Spared(refs, missing, k, l);
      assert SameFile(before, was, l) && SameFile(was, after, l);
    }
  }

  /** The missing shards among the first `k` references whose write succeeded, with their bytes. */
  ghost function RowsBack(refs: seq<Ref>, missing: seq<bool>, word: seq<Data>, outcome: nat -> Outcome, k: nat)
    : map<nat, Data>
    requires |missing| == |word| && k <= |refs| && forall r | 0 <= r < |refs| :: refs[r].shard < |word|
  {
    if k == 0 then map[]
    else
      var rows, Ref(c, i) := RowsBack(refs, missing, word, outcome, k - 1), refs[k - 1];
      if missing[i] && outcome(i) == Written then rows[i := Recovered(c, word[i])] else rows
  }

  lemma {:induction false} RowsBackAre(refs: seq<Ref>, missing: seq<bool>, word: seq<Data>, outcome: nat -> Outcome,
                                       k: nat)
    requires |missing| == |word| && k <= |refs| && (forall r | 0 <= r < |refs| :: refs[r].shard < |word|)
    requires OwnFiles(refs)
    ensures forall r | 0 <= r < k ::
              refs[r].shard in RowsBack(refs, missing, word, outcome, k) <==>
              missing[refs[r].shard] && outcome(refs[r].shard) == Written
    ensures forall r | 0 <= r < k && refs[r].shard in RowsBack(refs, missing, word, outcome, k) ::
              RowsBack(refs, missing, word, outcome, k)[refs[r].shard] == Recovered(refs[r].chunk, word[refs[r].shard])
    ensures forall i | i in RowsBack(refs, missing, word, outcome, k) :: exists r :: 0 <= r < k && refs[r].shard == i
  {
    if k > 0 {
      RowsBackAre(refs, missing, word, outcome, k - 1);
      assert refs[k - 1].shard == refs[k - 1].shard;
    }
  }

  /** Every write of a missing shard among the first `k` references succeeded. */
  ghost predicate AllTakenBelow(refs: seq<Ref>, missing: seq<bool>, outcome: nat -> Outcome, k: nat)
    requires k <= |refs| && forall r | 0 <= r < |refs| :: refs[r].shard < |missing|
  {
    forall r | 0 <= r < k && missing[refs[r].shard] :: outcome(refs[r].shard) == Written
  }

  /** Writes the recovered shards back; `missing` marks them, and `outcome` is what the disks do. */
  method WriteBack(db: PoolDb, refs: seq<Ref>, missing: array<bool>, word: seq<Data>, outcome: nat -> Outcome)
    returns (ok: bool, rebuilt: map<nat, Data>)
    requires missing.Length == |word| && OwnFiles(refs) && forall r | 0 <= r < |refs| :: refs[r].shard < |word|
    modifies db`files
    ensures FilesBack(refs, missing[..], word, outcome, |refs|, old(db.files), db.files)
    ensures ok <==> AllTakenBelow(refs, missing[..], outcome, |refs|)
    ensures rebuilt == RowsBack(refs, missing[..], word, outcome, |refs|)
  {
    hide FilesBack, OwnFiles, FileAfter;
    ok, rebuilt := true, map[];
    NothingBack(refs, missing[..], word, outcome, db.files);
    for k := 0 to |refs|
      invariant FilesBack(refs, missing[..], word, outcome, k, old(db.files), db.files)
      invariant ok <==> AllTakenBelow(refs, missing[..], outcome, k)
      invariant rebuilt == RowsBack(refs, missing[..], word, outcome, k)
    {
      ghost var was := db.files;
      var Ref(c, i) := refs[k];
      if missing[i] {
        var data := Recovered(c, word[i]);
        match outcome(i) {
          case Written => db.files := db.files[c.loc := data];
          case Broken(Some(left)) => db.files := db.files[c.loc := left];
          case Broken(None) =>
        }
        FileIsAfter(was, c.loc, data, outcome(i));
        if outcome(i) == Written {
          rebuilt := rebuilt[i := data];
        } else {
          ok := false;
        }
      }
      FilesBackMore(refs, missing[..], word, outcome, k, old(db.files), was, db.files);
    }
  }

  lemma FileIsAfter(was: Files, l: Loc, data: Data, o: Outcome)
    ensures o == Written ==> FileAfter(was, was[l := data], l, data, o)
    ensures o.Broken? && o.left.Some? ==> FileAfter(was, was[l := o.left.value], l, data, o)
    ensures o.Broken? && o.left.None? ==> FileAfter(was, was, l, data, o)
  {
  }

  lemma NothingBack(refs: seq<Ref>, missing: seq<bool>, word: seq<Data>, outcome: nat -> Outcome, files: Files)
    requires |missing| == |word| && forall r | 0 <= r < |refs| :: refs[r].shard < |word|
    ensures FilesBack(refs, missing, word, outcome, 0, files, files)
  {
  }

  // ----- what a rebuild does -----

  /** What the decoder gives, if it is asked. */
  ghost function Decoded(code: Code, job: Job, files: Files): Option<seq<Data>> {
    var raw := Remnant(code, job, files);
    if MissingCount(code, job, files, code.ds + code.ps) > code.ps || Width(raw) == 0 then None
    else code.reconstruct(PadShards(raw, Width(raw)))
  }

  /** What happens to the file of a missing shard. */
  ghost predicate ShardBack(code: Code, job: Job, word: seq<Data>, outcome: nat -> Outcome, before: Files, after: Files,
                            i: nat)
    requires i < |word| && ShardChunk(code, job, i).Some?
  {
    var c := ShardChunk(code, job, i).value;
    FileAfter(before, after, c.loc, Recovered(c, word[i]), outcome(i))
  }

  /** A rebuild, whatever the rows say and the disks do. Nothing happens if nothing is missing or
      the decoder gives nothing; else the files of the missing shards get what the decoder gave,
      cut to the size in the row, and `rebuilt` is what their rows are to say. */
  ghost predicate Rebuilt(code: Code, job: Job, outcome: nat -> Outcome, before: Files, after: Files, ok: bool,
                          rebuilt: map<nat, Data>)
  {
    var total, word := code.ds + code.ps, Decoded(code, job, before);
    if MissingCount(code, job, before, total) == 0 || word.None? then
      after == before && rebuilt == map[] && ok == (MissingCount(code, job, before, total) == 0)
    else
      && |word.value| == total && OnlyMissingChange(code, job, before, after)
      && (ok <==> forall i | 0 <= i < total && IsMissing(code, job, before, i) :: outcome(i) == Written)
      && (forall i | 0 <= i < total && IsMissing(code, job, before, i) ::
            ShardBack(code, job, word.value, outcome, before, after, i))
      && (forall i :: i in rebuilt <==> 0 <= i < total && IsMissing(code, job, before, i) && outcome(i) == Written)
      && (forall i | i in rebuilt :: rebuilt[i] == Recovered(ShardChunk(code, job, i).value, word.value[i]))
  }

  /** What was done for every reference was done for every written shard. */
  lemma RefsCover(code: Code, job: Job, refs: seq<Ref>, missing: seq<bool>, word: seq<Data>, outcome: nat -> Outcome,
                  before: Files, after: Files)
    requires AreRefs(code, job, refs) && |word| == |missing| == code.ds + code.ps
    requires forall i | 0 <= i < |missing| :: missing[i] <==> IsMissing(code, job, before, i)
    requires FilesBack(refs, missing, word, outcome, |refs|, before, after)
    ensures OnlyMissingChange(code, job, before, after)
    ensures forall i | 0 <= i < code.ds + code.ps && IsMissing(code, job, before, i) ::
              ShardBack(code, job, word, outcome, before, after, i)
  {
    hide IsMissing, FileAfter;
    forall i | 0 <= i < code.ds + code.ps && IsMissing(code, job, before, i)
      ensures ShardChunk(code, job, i).Some? && ShardBack(code, job, word, outcome, before, after, i)
    {
      var r := RefOfMissing(code, job, refs, before, i);
      assert RefBack(refs[r], word, outcome, before, after);
    }
    forall l | !MissingFile(code, job, before, l) ensures SameFile(before, after, l) {
      assert Spared(refs, missing, |refs|, l);
    }
  }

  lemma RefOfMissing(code: Code, job: Job, refs: seq<Ref>, files: Files, i: nat) returns (r: nat)
    requires AreRefs(code, job, refs) && i < code.ds + code.ps && IsMissing(code, job, files, i)
    ensures r < |refs| && refs[r].shard == i && ShardChunk(code, job, i) == Some(refs[r].chunk)
  {
    r :| 0 <= r < |refs| && refs[r].shard == i;
  }

  /** The references are the written shards, and `missing` marks those that are missing. */
  ghost predicate Marked(code: Code, job: Job, refs: seq<Ref>, missing: seq<bool>, files: Files) {
    && AreRefs(code, job, refs) && |missing| == code.ds + code.ps
    && (forall i | 0 <= i < |missing| :: missing[i] <==> IsMissing(code, job, files, i))
    && forall r | 0 <= r < |refs| :: refs[r].shard < |missing|
  }

  lemma TakenCover(code: Code, job: Job, refs: seq<Ref>, missing: seq<bool>, outcome: nat -> Outcome, before: Files)
    requires Marked(code, job, refs, missing, before)
    ensures AllTakenBelow(refs, missing, outcome, |refs|) <==>
            forall i | 0 <= i < code.ds + code.ps && IsMissing(code, job, before, i) :: outcome(i) == Written
  {
    hide IsMissing, AreRefs;
    if AllTakenBelow(refs, missing, outcome, |refs|) {
      forall i | 0 <= i < code.ds + code.ps && IsMissing(code, job, before, i) ensures outcome(i) == Written {
        var r := RefOfMissing(code, job, refs, before, i);
      }
    }
  }

  lemma RowsCover(code: Code, job: Job, refs: seq<Ref>, missing: seq<bool>, word: seq<Data>, outcome: nat -> Outcome,
                  before: Files, i: nat)
    requires Marked(code, job, refs, missing, before) && |word| == |missing|
    ensures var rows := RowsBack(refs, missing, word, outcome, |refs|);
            && (i in rows <==> i < code.ds + code.ps && IsMissing(code, job, before, i) && outcome(i) == Written)
            && (i in rows ==> ShardChunk(code, job, i).Some?
                              && rows[i] == Recovered(ShardChunk(code, job, i).value, word[i]))
  {
    hide IsMissing, RowsBack, AreRefs, Recovered;
    RefsApart(code, job, refs);
    RowsBackAre(refs, missing, word, outcome, |refs|);
    if i in RowsBack(refs, missing, word, outcome, |refs|) {
      var r :| 0 <= r < |refs| && refs[r].shard == i;
      RefIsShard(code, job, refs, r);
    } else if i < code.ds + code.ps && IsMissing(code, job, before, i) {
      var r := RefOfMissing(code, job, refs, before, i);
    }
  }

  lemma RefIsShard(code: Code, job: Job, refs: seq<Ref>, r: nat)
    requires AreRefs(code, job, refs) && r < |refs|
    ensures ShardChunk(code, job, refs[r].shard) == Some(refs[r].chunk)
  {
  }

  // ----- rebuilding a stripe whose parity is up to date -----

  /** Rebuilding succeeds exactly when nothing is missing or the missing shards and the
      slots never written are together at most `ps`; then every written shard is back byte
      for byte, and only the files of missing shards were written. A failure writes
      nothing. `rebuilt` is what the rows of the missing shards are set to. */
  ghost predicate RebuildOutcome(code: Code, job: Job, slots: Slots, before: Files, after: Files, ok: bool,
                                 rebuilt: map<nat, Data>)
  {
    && (ok <==> MissingCount(code, job, before, code.ds + code.ps) == 0 || Recoverable(code, job, before))
    && (ok ==> AllRestored(code, job, slots, after))
    && OnlyMissingChange(code, job, before, after)
    && (!ok ==> after == before && rebuilt == map[])
    && (ok ==> forall i :: i in rebuilt <==> 0 <= i < code.ds + code.ps && IsMissing(code, job, before, i))
    && (forall i | i in rebuilt :: rebuilt[i] == ShardContent(code, slots, i))
  }

  /** Reads and checks the shards and, if some but not too many are missing, reconstructs the
      whole word. */
  method RecoverWord(db: PoolDb, code: Code, ghost job: Job, refs: seq<Ref>)
    returns (count: nat, word: Option<seq<Data>>, missing: array<bool>)
    requires AreRefs(code, job, refs)
    ensures fresh(missing) && missing.Length == code.ds + code.ps
    ensures forall i | 0 <= i < missing.Length :: missing[i] <==> IsMissing(code, job, db.files, i)
    ensures count == MissingCount(code, job, db.files, code.ds + code.ps)
    ensures count > 0 ==> word == Decoded(code, job, db.files)
  {
    hide AreRefs, Remnant, PadShards, Width, IsMissing, MissingCount;
    var total := code.ds + code.ps;
    var shards := new Option<Data>[total](_ => None);
    missing := new bool[total](_ => false);
    ReadVerifiedShards(db, code, job, refs, shards, missing);
    count := CountMissing(code, missing, job, db.files);
    word := None;
    if count == 0 || count > code.ps {
      return;
    }
    assert shards[..total] == shards[..];
    var maxSize := MaxSize(shards, total);
    if maxSize == 0 {
      return;
    }
    PadRead(shards, maxSize);
    word := code.reconstruct(shards[..]);
  }

  /** Rebuilds the missing shards of a stripe, and says what their rows are to say. */
  method RebuildStripeJob(db: PoolDb, code: Code, job: Job, outcome: nat -> Outcome)
    returns (ok: bool, rebuilt: map<nat, Data>)
    requires ValidJob(code, job) && Lawful(code)
    modifies db`files
    ensures Rebuilt(code, job, outcome, old(db.files), db.files, ok, rebuilt)
  {
    hide Lawful, Decoded, IsMissing, MissingCount, FilesBack, RowsBack, AllTakenBelow, ValidJob, OnlyMissingChange;
    var refs := BuildRefs(code, job);
    var count, word, missing := RecoverWord(db, code, job, refs);
    if count == 0 {
      return true, map[];
    }
    if word.None? {
      return false, map[];
    }
    ghost var before, lost := db.files, missing[..];
    DecodedLength(code, job, before);
    RefsApart(code, job, refs);
    ok, rebuilt := WriteBack(db, refs, missing, word.value, outcome);
    RefsCover(code, job, refs, lost, word.value, outcome, before, db.files);
    TakenCover(code, job, refs, lost, outcome, before);
    forall i: nat
      ensures i in rebuilt <==> i < code.ds + code.ps && IsMissing(code, job, before, i) && outcome(i) == Written
      ensures i in rebuilt ==>
                ShardChunk(code, job, i).Some? && rebuilt[i] == Recovered(ShardChunk(code, job, i).value, word.value[i])
    {
      RowsCover(code, job, refs, lost, word.value, outcome, before, i);
    }
  }

  lemma RefsApart(code: Code, job: Job, refs: seq<Ref>)
    requires AreRefs(code, job, refs)
    ensures OwnFiles(refs) && forall r | 0 <= r < |refs| :: refs[r].shard < code.ds + code.ps
  {
  }

  /** What the decoder gives is read off the one codeword through the first shards there are. */
  lemma DecodedWord(code: Code, job: Job, files: Files) returns (word: seq<Data>)
    requires Lawful(code) && Decoded(code, job, files).Some?
    ensures var raw := Remnant(code, job, files);
            && Width(raw) > 0 && Present(PadShards(raw, Width(raw))) >= code.ds
            && Codeword(code, word, Width(raw)) && Through(PadShards(raw, Width(raw)), word, code.ds)
            && Decoded(code, job, files) == Some(Completed(PadShards(raw, Width(raw)), word))
  {
    var raw := Remnant(code, job, files);
    var pattern := PadShards(raw, Width(raw));
    if Present(pattern) < code.ds { TooFewShards(code, pattern); }
    word := CompletedWord(code, pattern, Width(raw));
  }

  lemma DecodedLength(code: Code, job: Job, files: Files)
    requires Lawful(code) && Decoded(code, job, files).Some?
    ensures |Decoded(code, job, files).value| == code.ds + code.ps
  {
    var word := DecodedWord(code, job, files);
  }

  // ----- when the digests are restored -----

  /** The missing shards get back the bytes their rows have the digests of. */
  ghost predicate RestoresDigests(code: Code, job: Job, files: Files) {
    var word := Decoded(code, job, files);
    && word.Some? && |word.value| == code.ds + code.ps
    && forall i | 0 <= i < code.ds + code.ps && IsMissing(code, job, files, i) ::
         ShardChunk(code, job, i).value.hash == Some(Recovered(ShardChunk(code, job, i).value, word.value[i]))
  }

  /** One codeword has the first `ds` shards that can be read and the bytes recorded for those that
      are missing. */
  ghost predicate OfOneWord(code: Code, job: Job, files: Files, word: seq<Data>) {
    var raw := Remnant(code, job, files);
    && Codeword(code, word, Width(raw)) && Through(PadShards(raw, Width(raw)), word, code.ds)
    && forall i | 0 <= i < |word| && IsMissing(code, job, files, i) ::
         ShardChunk(code, job, i).value.hash == Some(Recovered(ShardChunk(code, job, i).value, word[i]))
  }

  /** A rebuild that recovers anything restores the recorded bytes exactly when they and the shards
      it decodes from are of one codeword: so when no shard it uses is stale. It does not check. */
  lemma RestoresIff(code: Code, job: Job, files: Files)
    requires Lawful(code) && Decoded(code, job, files).Some?
    ensures RestoresDigests(code, job, files) <==> exists word :: OfOneWord(code, job, files, word)
  {
    hide Lawful, Codeword, Through, Recovered;
    var raw := Remnant(code, job, files);
    var word := DecodedWord(code, job, files);
    CodewordLength(code, word, Width(raw));
    forall i | 0 <= i < code.ds + code.ps && IsMissing(code, job, files, i)
      ensures Decoded(code, job, files).value[i] == word[i]
    {
      assert raw[i] == ShardRead(code, job, files, i) == None;
    }
    if RestoresDigests(code, job, files) { assert OfOneWord(code, job, files, word); }
    if other :| OfOneWord(code, job, files, other) {
      OneWordThrough(code, PadShards(raw, Width(raw)), word, other, Width(raw));
    }
  }

  lemma CodewordLength(code: Code, word: seq<Data>, w: nat)
    requires Codeword(code, word, w)
    ensures |word| == code.ds + code.ps
  {
  }

  /** Restored or not, the rows are made to say what came out, and nothing shows any more. */
  lemma RebuiltVerifies(code: Code, job: Job, outcome: nat -> Outcome, before: Files, after: Files, ok: bool,
                        rebuilt: map<nat, Data>, i: nat)
    requires Rebuilt(code, job, outcome, before, after, ok, rebuilt) && i in rebuilt
    ensures ShardChunk(code, job, i).Some?
    ensures Verified(ShardChunk(code, job, i).value.(size := |rebuilt[i]|, hash := Some(rebuilt[i])), after)
  {
    assert IsMissing(code, job, before, i);
    assert ShardBack(code, job, Decoded(code, job, before).value, outcome, before, after, i);
  }

  // ----- that is the case when the parity is up to date -----

  lemma ShardsInOwnFiles(code: Code, job: Job, i: nat, j: nat)
    requires ValidJob(code, job) && i < j < code.ds + code.ps
    requires ShardChunk(code, job, i).Some? && ShardChunk(code, job, j).Some?
    ensures ShardChunk(code, job, i).value.loc != ShardChunk(code, job, j).value.loc
  {
    if i < code.ds { var k :| 0 <= k < |job.data| && job.data[k] == ShardChunk(code, job, i).value; }
    if j < code.ds { var k :| 0 <= k < |job.data| && job.data[k] == ShardChunk(code, job, j).value; }
  }

  /** A shard that is not missing keeps its file. */
  lemma OthersUntouched(code: Code, job: Job, before: Files, after: Files, i: nat)
    requires ValidJob(code, job) && OnlyMissingChange(code, job, before, after) && i < code.ds + code.ps
    requires ShardChunk(code, job, i).Some? && !IsMissing(code, job, before, i)
    ensures SameFile(before, after, ShardChunk(code, job, i).value.loc)
  {
    forall j | 0 <= j < code.ds + code.ps && IsMissing(code, job, before, j)
      ensures ShardChunk(code, job, j).value.loc != ShardChunk(code, job, i).value.loc
    {
      if j < i { ShardsInOwnFiles(code, job, j, i); } else { ShardsInOwnFiles(code, job, i, j); }
    }
    assert !MissingFile(code, job, before, ShardChunk(code, job, i).value.loc);
  }

  /** The disks take what is written. */
  ghost predicate AllTaken(code: Code, outcome: nat -> Outcome) {
    forall i | 0 <= i < code.ds + code.ps :: outcome(i) == Written
  }

  /** If the rows describe a stripe with parity that is up to date, and the disks take what is
      written, every written shard is back whenever enough can be read. */
  lemma DescribedOutcome(code: Code, job: Job, slots: Slots, outcome: nat -> Outcome, before: Files, after: Files,
                         ok: bool, rebuilt: map<nat, Data>)
    requires ValidJob(code, job) && Lawful(code) && Describes(code, job, slots)
    requires Rebuilt(code, job, outcome, before, after, ok, rebuilt)
    requires ok || AllTaken(code, outcome)
    ensures RebuildOutcome(code, job, slots, before, after, ok, rebuilt)
  {
    hide Lawful, Describes, ValidJob, RebuildOutcome, Recoverable;
    var total := code.ds + code.ps;
    if MissingCount(code, job, before, total) == 0 {
      IntactOutcome(code, job, slots, before);
    } else {
      RemnantDecides(code, job, before, slots);
      if Recoverable(code, job, before) {
        AllBackOutcome(code, job, slots, outcome, before, after, ok, rebuilt);
      } else {
        FailedOutcome(code, job, slots, before);
      }
    }
  }

  lemma AllBackOutcome(code: Code, job: Job, slots: Slots, outcome: nat -> Outcome, before: Files, after: Files,
                       ok: bool, rebuilt: map<nat, Data>)
    requires ValidJob(code, job) && Lawful(code) && Describes(code, job, slots) && Recoverable(code, job, before)
    requires MissingCount(code, job, before, code.ds + code.ps) > 0
    requires Decoded(code, job, before) == Some(Word(code, slots))
    requires Rebuilt(code, job, outcome, before, after, ok, rebuilt)
    requires ok || AllTaken(code, outcome)
    ensures RebuildOutcome(code, job, slots, before, after, ok, rebuilt)
  {
    hide Lawful, Describes, ValidJob, Decoded, Word, Recoverable, MissingCount, Recovered, OnlyMissingChange;
    forall i | 0 <= i < code.ds + code.ps && ShardChunk(code, job, i).Some?
      ensures ShardChunk(code, job, i).value.loc in after
      ensures after[ShardChunk(code, job, i).value.loc] == ShardContent(code, slots, i)
      ensures Recovered(ShardChunk(code, job, i).value, Word(code, slots)[i]) == ShardContent(code, slots, i)
    {
      RecoveredContent(code, job, slots, i);
      if IsMissing(code, job, before, i) {
        assert ShardBack(code, job, Word(code, slots), outcome, before, after, i);
      } else {
        OthersUntouched(code, job, before, after, i);
        DigestOfContent(code, job, slots, i);
      }
    }
  }

  lemma IntactOutcome(code: Code, job: Job, slots: Slots, files: Files)
    requires Describes(code, job, slots) && MissingCount(code, job, files, code.ds + code.ps) == 0
    ensures RebuildOutcome(code, job, slots, files, files, true, map[])
  {
    NothingMissing(code, job, files, code.ds + code.ps);
    IntactIsRestored(code, job, files, slots);
  }

  lemma FailedOutcome(code: Code, job: Job, slots: Slots, files: Files)
    requires MissingCount(code, job, files, code.ds + code.ps) > 0 && !Recoverable(code, job, files)
    ensures RebuildOutcome(code, job, slots, files, files, false, map[])
  {
  }

  lemma {:induction false} NothingMissing(code: Code, job: Job, files: Files, n: nat)
    ensures MissingCount(code, job, files, n) == 0 <==> forall i | 0 <= i < n :: !IsMissing(code, job, files, i)
  {
    if n > 0 {
      NothingMissing(code, job, files, n - 1);
    }
  }

  /** The row of a written shard has the digest of its content. */
  lemma DigestOfContent(code: Code, job: Job, slots: Slots, i: nat)
    requires Describes(code, job, slots) && i < code.ds + code.ps && ShardChunk(code, job, i).Some?
    ensures ShardChunk(code, job, i).value.hash == Some(ShardContent(code, slots, i))
  {
  }

  lemma IntactIsRestored(code: Code, job: Job, files: Files, slots: Slots)
    requires Describes(code, job, slots) && forall i | 0 <= i < code.ds + code.ps :: !IsMissing(code, job, files, i)
    ensures AllRestored(code, job, slots, files)
  {
    forall i | 0 <= i < code.ds + code.ps && ShardChunk(code, job, i).Some?
      ensures Verified(ShardChunk(code, job, i).value, files)
      ensures ShardChunk(code, job, i).value.hash == Some(ShardContent(code, slots, i))
    {
      assert !IsMissing(code, job, files, i);
      DigestOfContent(code, job, slots, i);
    }
  }

  /** A stripe that misses a shard has written data. */
  lemma MissingShardHasWidth(code: Code, job: Job, files: Files, slots: Slots, i: nat)
    requires Describes(code, job, slots) && i < code.ds + code.ps && IsMissing(code, job, files, i)
    ensures Width(slots) > 0
  {
    if i < code.ds {
      assert slots[i].Some?;
      assert Len(slots[i]) <= Width(slots);
    } else {
      assert !IsUnwritten(code, job, i);
    }
  }

  /** What the decoder gives for the shards that were read. */
  lemma RemnantDecides(code: Code, job: Job, files: Files, slots: Slots)
    requires ValidJob(code, job) && Lawful(code) && Describes(code, job, slots)
    requires MissingCount(code, job, files, code.ds + code.ps) > 0
    ensures Recoverable(code, job, files) ==> MissingCount(code, job, files, code.ds + code.ps) <= code.ps
    ensures Recoverable(code, job, files) ==> Width(Remnant(code, job, files)) > 0
    ensures code.reconstruct(PadShards(Remnant(code, job, files), Width(Remnant(code, job, files)))) ==
            if Recoverable(code, job, files) then Some(Word(code, slots)) else None
  {
    hide ValidJob, Lawful, Describes, Remnant, PadShards, Width, Word, MissingCount, IsMissing, UnwrittenCount;
    var raw := Remnant(code, job, files);
    RecoverableIff(code, job, files);
    NothingMissing(code, job, files, code.ds + code.ps);
    var i :| 0 <= i < code.ds + code.ps && IsMissing(code, job, files, i);
    MissingShardHasWidth(code, job, files, slots, i);
    RemnantOfStripe(code, job, files, slots);
    if Recoverable(code, job, files) {
      RemnantReconstructs(code, slots, raw);
    } else {
      SamePresent(PadShards(raw, Width(raw)), raw);
      TooFewShards(code, PadShards(raw, Width(raw)));
    }
  }

  lemma RecoveredContent(code: Code, job: Job, slots: Slots, i: nat)
    requires ValidJob(code, job) && Lawful(code) && Describes(code, job, slots)
    requires i < code.ds + code.ps && ShardChunk(code, job, i).Some?
    ensures |Word(code, slots)| == code.ds + code.ps
    ensures Recovered(ShardChunk(code, job, i).value, Word(code, slots)[i]) == ShardContent(code, slots, i)
  {
    WordIsCodeword(code, slots);
    var c := ShardChunk(code, job, i).value;
    if i < code.ds {
      var k :| 0 <= k < |job.data| && job.data[k] == c;
      PaddingComesOff(code, slots, i);
    } else {
      assert c == job.parity[i - code.ds] && c.kind == ParityChunk;
      assert Word(code, slots)[i] == Parity(code, slots)[i - code.ds];
    }
  }
}
