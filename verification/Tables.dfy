/** The database rows and disk files of one storage pool. Chunk rows are never deleted, so
    the table is a sequence and a chunk's id is its position. A digest is collision-free
    and is modelled as the bytes it was taken of. Generated paths never repeat: they are
    numbered in the order they are generated. */
module Tables {
  import opened Bytes
  import opened Wrappers

  type ChunkId = nat
  type StripeId = nat
  type DiskId = nat
  type VersionId = nat
  type InodeId = nat

  /** A file: a generated path on a disk. */
  datatype Loc = Loc(disk: DiskId, path: nat)

  datatype ChunkStatus = Reserved | Allocated

  datatype ChunkKind = DataChunk | ParityChunk

  datatype Chunk = Chunk(status: ChunkStatus, kind: ChunkKind, stripe: StripeId, index: nat,
                         loc: Loc, size: nat, hash: Option<Data>)

  /** The states a write queue row is ever in. */
  datatype WriteStatus = Pending | Success | Fail

  /** A row of the write queue. */
  datatype LogRow = LogRow(id: nat, chunk: ChunkId, stripe: StripeId, status: WriteStatus)

  /** A row of the read cache; `path` is the cached file, once there is one. */
  datatype CacheEntry = CacheEntry(disk: DiskId, count: nat, path: Option<nat>)

  /** A version of a file. */
  datatype Version = Version(inode: InodeId, size: nat)

  /** A row of the version-to-chunk mapping. */
  datatype Slot = Slot(version: VersionId, idx: nat)

  type Files = map<Loc, Data>

  /** Two states of the disks agree on a file. */
  ghost predicate SameFile(before: Files, after: Files, l: Loc) {
    (l in before <==> l in after) && (l in before ==> after[l] == before[l])
  }

  predicate IsData(c: Chunk) { c.kind == DataChunk && c.status == Allocated }

  predicate IsParity(c: Chunk) { c.kind == ParityChunk && c.status == Allocated }
}

/** One pool as a value, for the properties of whole runs, and as the object whose tables
    the operations rewrite. */
module Database {
  import opened Tables

  datatype Pool = Pool(
    ds: nat, ps: nat, disks: nat,        // data and parity shards of a stripe, disks ever added
    chunks: seq<Chunk>, stripes: nat,    // chunk rows, number of stripes
    paths: nat,                          // paths generated so far
    files: Files,                        // what is on the disks
    log: seq<LogRow>, rows: nat,         // write queue, rows ever inserted
    tasks: seq<StripeId>,                // pending parity tasks
    caches: map<ChunkId, CacheEntry>,    // read cache
    refs: map<Slot, ChunkId>)            // version_chunks

  class PoolDb {
    var ds: nat
    var ps: nat
    var disks: nat
    var chunks: seq<Chunk>
    var stripes: nat
    var paths: nat
    var files: Files
    var log: seq<LogRow>
    var rows: nat
    var tasks: seq<StripeId>
    var caches: map<ChunkId, CacheEntry>
    var refs: map<Slot, ChunkId>

    /** A pool without disks. */
    constructor ()
      ensures State() == Pool(0, 0, 0, [], 0, 0, map[], [], 0, [], map[], map[])
    {
      ds, ps, disks, chunks, stripes, paths, files := 0, 0, 0, [], 0, 0, map[];
      log, rows, tasks, caches, refs := [], 0, [], map[], map[];
    }

    ghost function State(): Pool
      reads this
    {
      Pool(ds, ps, disks, chunks, stripes, paths, files, log, rows, tasks, caches, refs)
    }
  }
}
