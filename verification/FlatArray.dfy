/** A write handle against one flat byte array: the exact condition under which each
    operation agrees with it, and runs of operations. */
module FlatArray {
  import opened Bytes
  import opened Wrappers
  import opened SliceView

  // ----- the flat array -----

  datatype Op = WriteOp(p: Data, off: nat) | TruncateOp(size: nat) | SyncOp

  /** The array after a write: a gap reads zero. */
  function FlatWrite(c: Data, p: Data, off: nat): Data {
    if p == [] then c
    else seq(if |c| < off + |p| then off + |p| else |c|,
             i requires i >= 0 => if off <= i < off + |p| then p[i - off] else At(c, i))
  }

  function FlatTruncate(c: Data, size: nat): Data {
    seq(size, i requires i >= 0 => At(c, i))
  }

  function FlatApply(c: Data, op: Op): Data {
    match op
    case WriteOp(p, off) => FlatWrite(c, p, off)
    case TruncateOp(size) => FlatTruncate(c, size)
    case SyncOp => c
  }

  function FlatRun(c: Data, ops: seq<Op>): Data
    decreases |ops|
  {
    if ops == [] then c else FlatRun(FlatApply(c, ops[0]), ops[1..])
  }

  // ----- the handle -----

  function Apply(v: View, op: Op): (r: View)
    requires v.slice > 0
    ensures r.slice == v.slice
  {
    match op
    case WriteOp(p, off) => Write(v, p, off)
    case TruncateOp(size) => Truncate(v, size)
    case SyncOp => Flush(v)
  }

  function Run(v: View, ops: seq<Op>): View
    requires v.slice > 0
    decreases |ops|
  {
    if ops == [] then v else Run(Apply(v, ops[0]), ops[1..])
  }

  // ----- flushing -----

  /** The branch that goes wrong: flushing an all-zero buffer deletes the current slice,
      and the old slice of the same index shows through again. */
  predicate FlushHazard(v: View) {
    v.active.Some? && AllZero(v.active.value.buf) && v.active.value.idx in v.base
  }

  lemma PutKeeps(v: View, idx: nat, plain: Data)
    requires WellFormed(v) && |plain| <= v.slice
    ensures WellFormed(Put(v, idx, plain))
    ensures Put(v, idx, plain).base == v.base && Put(v, idx, plain).size == v.size
    ensures Put(v, idx, plain).active == v.active
  {
  }

  lemma FlushKeeps(v: View)
    requires WellFormed(v)
    ensures WellFormed(Flush(v)) && Flush(v).active.None?
    ensures Flush(v).base == v.base && Flush(v).size == v.size && Flush(v).slice == v.slice
  {
    if v.active.Some? {
      PutKeeps(v.(active := None), v.active.value.idx, v.active.value.buf);
    }
  }

  /** A flush changes no byte but those of a hazardous slice, which fall back. */
  lemma FlushByte(v: View, pos: nat)
    requires WellFormed(v)
    ensures ByteAt(Flush(v), pos) ==
            if FlushHazard(v) && v.active.value.idx == SliceOf(v.slice, pos)
            then At(v.base[SliceOf(v.slice, pos)], SlotOf(v.slice, pos)) else ByteAt(v, pos)
  {
  }

  lemma NonzeroSlot(s: Data, slice: nat, k: nat) returns (pos: nat)
    requires GoodSlice(s, slice)
    ensures slice > 0 && SliceOf(slice, pos) == k && At(s, SlotOf(slice, pos)) != 0
  {
    var i :| 0 <= i < |s| && s[i] != 0;
    pos := SlotPosition(slice, k, i);
  }

  // ----- writing one piece -----

  /** The byte a flat write puts at a position. */
  function Wanted(v: View, p: Data, off: nat, pos: nat): Byte
    requires v.slice > 0
  {
    if off <= pos < off + |p| then p[pos - off] else ByteAt(v, pos)
  }

  /** No slice other than the one at `off` is being edited. */
  predicate ReadyAt(v: View, off: nat)
    requires v.slice > 0
  {
    v.active.None? || Editing(v, SliceOf(v.slice, off))
  }

  lemma PieceKeeps(v: View, off: nat, data: Data)
    requires WellFormed(v) && |data| <= v.slice - SlotOf(v.slice, off)
    ensures
      var w := WriteIntoSlice(v, SliceOf(v.slice, off), SlotOf(v.slice, off), data);
      && WellFormed(w) && w.base == v.base && w.slice == v.slice && w.size == v.size
      && Editing(w, SliceOf(v.slice, off))
  {
    FlushKeeps(v);
  }

  lemma PieceByte(v: View, off: nat, data: Data, pos: nat)
    requires WellFormed(v) && ReadyAt(v, off) && |data| <= v.slice - SlotOf(v.slice, off)
    ensures ByteAt(WriteIntoSlice(v, SliceOf(v.slice, off), SlotOf(v.slice, off), data), pos) ==
            Wanted(v, data, off, pos)
  {
    PieceRange(v.slice, off, |data|, pos);
  }

  /** Switching slices flushes first; writing a piece into a flushed handle is the same. */
  lemma FlushThenPiece(v: View, idx: nat, intra: nat, data: Data)
    requires !Editing(v, idx)
    ensures WriteIntoSlice(v, idx, intra, data) == WriteIntoSlice(Flush(v), idx, intra, data)
  {
  }

  lemma FlushThenPieces(v: View, p: Data, off: nat)
    requires v.slice > 0 && p != [] && !Editing(v, SliceOf(v.slice, off))
    ensures WritePieces(v, p, off) == WritePieces(Flush(v), p, off)
  {
    var n := PieceLength(v.slice, p, off);
    FlushThenPiece(v, SliceOf(v.slice, off), SlotOf(v.slice, off), p[..n]);
  }

  // ----- writing many pieces -----

  /** The slice `k` is left behind all zero and an old slice shows through instead. */
  ghost predicate Lost(v: View, p: Data, off: nat, k: nat)
    requires v.slice > 0 && p != []
  {
    && SliceOf(v.slice, off) <= k < SliceOf(v.slice, off + |p| - 1)
    && k in v.base
    && forall q: nat | SliceOf(v.slice, q) == k :: Wanted(v, p, off, q) == 0
  }

  lemma ZeroSlice(v: View, k: nat)
    requires WellFormed(v) && Editing(v, k)
    ensures AllZero(v.active.value.buf) <==> forall q: nat | SliceOf(v.slice, q) == k :: ByteAt(v, q) == 0
  {
    var buf := v.active.value.buf;
    if i :| 0 <= i < |buf| && buf[i] != 0 {
      var q := SlotPosition(v.slice, k, i);
      assert ByteAt(v, q) != 0;
    }
  }

  /** One piece and the flush that follows it. */
  lemma PieceThenFlushByte(v: View, p: Data, off: nat, n: nat, w: View, q: nat)
    requires WellFormed(v) && ReadyAt(v, off) && n == PieceLength(v.slice, p, off) < |p|
    requires w == WriteIntoSlice(v, SliceOf(v.slice, off), SlotOf(v.slice, off), p[..n])
    ensures Wanted(Flush(w), p[n..], off + n, q) ==
            if SliceOf(v.slice, q) == SliceOf(v.slice, off) && FlushHazard(w)
            then At(v.base[SliceOf(v.slice, q)], SlotOf(v.slice, q)) else Wanted(v, p, off, q)
    ensures SliceOf(v.slice, q) == SliceOf(v.slice, off) ==> ByteAt(w, q) == Wanted(v, p, off, q)
  {
    PieceKeeps(v, off, p[..n]);
    PieceByte(v, off, p[..n], q);
    FlushByte(w, q);
    if q >= off + n { LaterPositions(v.slice, off, n, q); }
    PieceThenRest(v, p, off, n, w, Flush(w), q);
  }

  lemma LaterPositions(slice: nat, off: nat, n: nat, q: nat)
    requires slice > 0 && n == slice - SlotOf(slice, off) && q >= off + n
    ensures SliceOf(slice, q) != SliceOf(slice, off)
  {
    NextSlice(slice, off, n);
    SliceOrder(slice, off + n, q);
  }

  lemma PieceThenRest(v: View, p: Data, off: nat, n: nat, w: View, u: View, q: nat)
    requires v.slice > 0 && w.slice == v.slice && u.slice == v.slice && n <= |p|
    requires ByteAt(w, q) == Wanted(v, p[..n], off, q)
    requires q >= off + n ==> SliceOf(v.slice, q) != SliceOf(v.slice, off)
    requires SliceOf(v.slice, q) != SliceOf(v.slice, off) ==> ByteAt(u, q) == ByteAt(w, q)
    ensures SliceOf(v.slice, q) == SliceOf(v.slice, off) ==>
              ByteAt(w, q) == Wanted(v, p, off, q) && Wanted(u, p[n..], off + n, q) == ByteAt(u, q)
    ensures SliceOf(v.slice, q) != SliceOf(v.slice, off) ==>
              Wanted(u, p[n..], off + n, q) == Wanted(v, p, off, q)
  {
  }

  lemma FlushHazardIsLoss(v: View, p: Data, off: nat, n: nat, w: View)
    requires WellFormed(v) && ReadyAt(v, off) && n == PieceLength(v.slice, p, off) < |p|
    requires w == WriteIntoSlice(v, SliceOf(v.slice, off), SlotOf(v.slice, off), p[..n])
    ensures FlushHazard(w) <==> Lost(v, p, off, SliceOf(v.slice, off))
  {
    PieceKeeps(v, off, p[..n]);
    ZeroSlice(w, SliceOf(v.slice, off));
    forall q: nat | SliceOf(v.slice, q) == SliceOf(v.slice, off) ensures ByteAt(w, q) == Wanted(v, p, off, q) {
      PieceThenFlushByte(v, p, off, n, w, q);
    }
    NextSlice(v.slice, off, n);
    SliceOrder(v.slice, off + n, off + |p| - 1);
  }

  lemma LaterLoss(v: View, p: Data, off: nat, n: nat, w: View, k: nat)
    requires WellFormed(v) && ReadyAt(v, off) && n == PieceLength(v.slice, p, off) < |p|
    requires w == WriteIntoSlice(v, SliceOf(v.slice, off), SlotOf(v.slice, off), p[..n]) && k != SliceOf(v.slice, off)
    ensures Lost(v, p, off, k) <==> Lost(Flush(w), p[n..], off + n, k)
  {
    forall q: nat | SliceOf(v.slice, q) == k
      ensures Wanted(Flush(w), p[n..], off + n, q) == Wanted(v, p, off, q)
    {
      PieceThenFlushByte(v, p, off, n, w, q);
    }
    NextSlice(v.slice, off, n);
    SameLoss(v, Flush(w), p, off, n, k);
  }

  lemma SameLoss(v: View, u: View, p: Data, off: nat, n: nat, k: nat)
    requires v.slice > 0 && u.slice == v.slice && u.base == v.base && n < |p|
    requires forall q: nat | SliceOf(v.slice, q) == k :: Wanted(u, p[n..], off + n, q) == Wanted(v, p, off, q)
    requires SliceOf(v.slice, off) <= k <==> SliceOf(v.slice, off + n) <= k
    ensures Lost(v, p, off, k) <==> Lost(u, p[n..], off + n, k)
  {
    assert off + n + |p[n..]| - 1 == off + |p| - 1;
  }

  /** All of the above about the handle `u` that is left with the rest of the data. */
  lemma FirstPiece(v: View, p: Data, off: nat, n: nat, pos: nat) returns (u: View)
    requires WellFormed(v) && ReadyAt(v, off) && n == PieceLength(v.slice, p, off) < |p|
    ensures WellFormed(u) && u.slice == v.slice && u.base == v.base && u.active.None?
    ensures WritePieces(v, p, off) == WritePieces(u, p[n..], off + n)
    ensures var k := SliceOf(v.slice, pos);
            if k == SliceOf(v.slice, off) && Lost(v, p, off, k)
            then Wanted(u, p[n..], off + n, pos) == At(v.base[k], SlotOf(v.slice, pos))
            else Wanted(u, p[n..], off + n, pos) == Wanted(v, p, off, pos)
    ensures var k := SliceOf(v.slice, pos);
            Lost(u, p[n..], off + n, k) <==> k != SliceOf(v.slice, off) && Lost(v, p, off, k)
  {
    var w := WriteIntoSlice(v, SliceOf(v.slice, off), SlotOf(v.slice, off), p[..n]);
    u := Flush(w);
    PieceKeeps(v, off, p[..n]);
    FlushKeeps(w);
    FirstPieceUnrolls(v, p, off, n, w);
    FirstPieceBytes(v, p, off, n, w, pos);
  }

  lemma FirstPieceUnrolls(v: View, p: Data, off: nat, n: nat, w: View)
    requires v.slice > 0 && n == PieceLength(v.slice, p, off) < |p|
    requires w == WriteIntoSlice(v, SliceOf(v.slice, off), SlotOf(v.slice, off), p[..n])
    ensures WritePieces(v, p, off) == WritePieces(Flush(w), p[n..], off + n)
  {
    NextSlice(v.slice, off, n);
    FlushThenPieces(w, p[n..], off + n);
  }

  lemma FirstPieceBytes(v: View, p: Data, off: nat, n: nat, w: View, pos: nat)
    requires WellFormed(v) && ReadyAt(v, off) && n == PieceLength(v.slice, p, off) < |p|
    requires w == WriteIntoSlice(v, SliceOf(v.slice, off), SlotOf(v.slice, off), p[..n])
    ensures var k := SliceOf(v.slice, pos);
            if k == SliceOf(v.slice, off) && Lost(v, p, off, k)
            then Wanted(Flush(w), p[n..], off + n, pos) == At(v.base[k], SlotOf(v.slice, pos))
            else Wanted(Flush(w), p[n..], off + n, pos) == Wanted(v, p, off, pos)
    ensures var k := SliceOf(v.slice, pos);
            Lost(Flush(w), p[n..], off + n, k) <==> k != SliceOf(v.slice, off) && Lost(v, p, off, k)
  {
    PieceThenFlushByte(v, p, off, n, w, pos);
    FlushHazardIsLoss(v, p, off, n, w);
    if SliceOf(v.slice, pos) != SliceOf(v.slice, off) {
      LaterLoss(v, p, off, n, w, SliceOf(v.slice, pos));
    } else {
      NextSlice(v.slice, off, n);
    }
  }

  lemma LastPiece(v: View, p: Data, off: nat, pos: nat)
    requires WellFormed(v) && ReadyAt(v, off) && p != [] && PieceLength(v.slice, p, off) == |p|
    ensures ByteAt(WritePieces(v, p, off), pos) == Wanted(v, p, off, pos)
    ensures SliceOf(v.slice, off + |p| - 1) == SliceOf(v.slice, off) && !Lost(v, p, off, SliceOf(v.slice, pos))
  {
    var w := WriteIntoSlice(v, SliceOf(v.slice, off), SlotOf(v.slice, off), p);
    assert p[..|p|] == p;
    assert WritePieces(v, p, off) == WritePieces(w, p[|p|..], off + |p|) == w;
    PieceByte(v, off, p, pos);
    PieceRange(v.slice, off, |p|, off + |p| - 1);
  }

  /** Every byte after the whole write: what a flat write puts there, except in slices
      that were lost on the way. */
  lemma {:induction false} PiecesByte(v: View, p: Data, off: nat, pos: nat)
    requires WellFormed(v) && ReadyAt(v, off) && p != []
    ensures ByteAt(WritePieces(v, p, off), pos) ==
            if Lost(v, p, off, SliceOf(v.slice, pos))
            then At(v.base[SliceOf(v.slice, pos)], SlotOf(v.slice, pos)) else Wanted(v, p, off, pos)
    decreases |p|
  {
    hide ByteAt, Wanted, Lost, WellFormed, At, SliceOf, SlotOf;
    HasSlices(v);
    var n := PieceLength(v.slice, p, off);
    if n == |p| {
      LastPiece(v, p, off, pos);
    } else {
      var u := FirstPiece(v, p, off, n, pos);
      PiecesByte(u, p[n..], off + n, pos);
    }
  }

  // ----- the write, exactly -----

  /** The write first flushes another, all-zero slice whose old content shows through at
      a position this write does not cover. */
  ghost predicate FlushLoses(v: View, p: Data, off: nat)
    requires v.slice > 0
  {
    && FlushHazard(v) && !Editing(v, SliceOf(v.slice, off))
    && exists pos: nat :: SliceOf(v.slice, pos) == v.active.value.idx &&
         At(v.base[v.active.value.idx], SlotOf(v.slice, pos)) != 0 && !(off <= pos < off + |p|)
  }

  ghost predicate WriteHazard(v: View, p: Data, off: nat)
    requires v.slice > 0
  {
    p != [] && (FlushLoses(v, p, off) || exists k: nat :: Lost(v, p, off, k))
  }

  /** The handle the first piece is written into. */
  function Settled(v: View, off: nat): View
    requires v.slice > 0
  {
    if Editing(v, SliceOf(v.slice, off)) then v else Flush(v)
  }

  lemma WriteByte(v: View, p: Data, off: nat, pos: nat)
    requires WellFormed(v) && p != []
    ensures WellFormed(Settled(v, off)) && Settled(v, off).slice == v.slice
    ensures var u, k := Settled(v, off), SliceOf(v.slice, pos);
            && u.base == v.base
            && ByteAt(Write(v, p, off), pos) ==
               if Lost(u, p, off, k) then At(v.base[k], SlotOf(v.slice, pos)) else Wanted(u, p, off, pos)
  {
    hide Wanted, Lost, At, SliceOf, SlotOf;
    var u := Settled(v, off);
    FlushKeeps(v);
    if u != v {
      FlushThenPieces(v, p, off);
    }
    PiecesByte(u, p, off, pos);
  }

  lemma SettledWants(v: View, p: Data, off: nat, q: nat)
    requires WellFormed(v) && p != [] && !FlushLoses(v, p, off)
    ensures Wanted(Settled(v, off), p, off, q) == Wanted(v, p, off, q)
  {
    FlushByte(v, q);
  }

  lemma SettledLoses(v: View, p: Data, off: nat, k: nat)
    requires WellFormed(v) && p != [] && !FlushLoses(v, p, off)
    ensures Lost(Settled(v, off), p, off, k) <==> Lost(v, p, off, k)
  {
    FlushKeeps(v);
    forall q: nat ensures Wanted(Settled(v, off), p, off, q) == Wanted(v, p, off, q) {
      SettledWants(v, p, off, q);
    }
  }

  lemma WriteIsFlat(v: View, p: Data, off: nat, pos: nat)
    requires WellFormed(v) && p != [] && !WriteHazard(v, p, off)
    ensures ByteAt(Write(v, p, off), pos) == Wanted(v, p, off, pos)
  {
    WriteByte(v, p, off, pos);
    SettledWants(v, p, off, pos);
    SettledLoses(v, p, off, SliceOf(v.slice, pos));
  }

  lemma HazardousWriteIsNotFlat(v: View, p: Data, off: nat) returns (pos: nat)
    requires WellFormed(v) && WriteHazard(v, p, off)
    ensures ByteAt(Write(v, p, off), pos) != Wanted(v, p, off, pos)
  {
    if FlushLoses(v, p, off) {
      pos :| SliceOf(v.slice, pos) == v.active.value.idx &&
        At(v.base[v.active.value.idx], SlotOf(v.slice, pos)) != 0 && !(off <= pos < off + |p|);
      FlushByte(v, pos);
      WriteByte(v, p, off, pos);
      assert Wanted(Settled(v, off), p, off, pos) != 0;
    } else {
      var k: nat :| Lost(v, p, off, k);
      pos := NonzeroSlot(v.base[k], v.slice, k);
      SettledLoses(v, p, off, k);
      WriteByte(v, p, off, pos);
    }
  }

  /** A written position where an old slice shows through a slice of zeroes. */
  ghost predicate ShowsOld(v: View, p: Data, off: nat, pos: nat)
    requires v.slice > 0 && p != []
  {
    var k := SliceOf(v.slice, pos);
    Lost(Settled(v, off), p, off, k) && At(v.base[k], SlotOf(v.slice, pos)) != 0
  }

  ghost predicate NoneShows(v: View, p: Data, off: nat)
    requires v.slice > 0 && p != []
  {
    forall pos: nat | off <= pos < off + |p| :: !ShowsOld(v, p, off, pos)
  }

  lemma ReadsBackAt(v: View, p: Data, off: nat, i: nat)
    requires WellFormed(v) && i < |p|
    ensures ByteAt(Write(v, p, off), off + i) == p[i] <==> !ShowsOld(v, p, off, off + i)
  {
    var u, k := Settled(v, off), SliceOf(v.slice, off + i);
    WriteByte(v, p, off, off + i);
    assert Wanted(u, p, off, off + i) == p[i];
  }

  /** What was written is read back exactly when no old slice shows through where it was written. */
  lemma ReadsBackIff(v: View, p: Data, off: nat)
    requires WellFormed(v) && p != []
    ensures (forall i | 0 <= i < |p| :: ByteAt(Write(v, p, off), off + i) == p[i]) <==> NoneShows(v, p, off)
    ensures !WriteHazard(v, p, off) ==> NoneShows(v, p, off)
  {
    hide ShowsOld, ByteAt, Write;
    forall i | 0 <= i < |p| ensures ByteAt(Write(v, p, off), off + i) == p[i] <==> !ShowsOld(v, p, off, off + i) {
      ReadsBackAt(v, p, off, i);
    }
    forall pos: nat | off <= pos < off + |p| ensures !ShowsOld(v, p, off, pos) <==>
      ByteAt(Write(v, p, off), off + (pos - off)) == p[pos - off] {
      ReadsBackAt(v, p, off, pos - off);
    }
    if !WriteHazard(v, p, off) {
      forall i | 0 <= i < |p| ensures ByteAt(Write(v, p, off), off + i) == p[i] {
        WriteIsFlat(v, p, off, off + i);
      }
    }
  }

  /** Writing at the end of the array appends. */
  lemma AppendIsConcat(c: Data, p: Data)
    ensures FlatWrite(c, p, |c|) == c + p
  {
    forall i | 0 <= i < |c + p| ensures At(FlatWrite(c, p, |c|), i) == (c + p)[i] {
      FlatWriteByte(c, p, |c|, i);
    }
  }

  // ----- the truncation, exactly -----

  /** The boundary slice is trimmed to nothing and its old content shows through. */
  predicate TrimLoses(v: View, size: nat)
    requires v.slice > 0
  {
    var b, len := SliceOf(v.slice, size), SlotOf(v.slice, size);
    && len != 0 && b in v.base && !Editing(v, b)
    && |Visible(v, b)| > len && AllZero(Visible(v, b)[..len])
  }

  /** Shrinking below an old slice leaves it to show through when the file grows again. */
  ghost predicate TruncateHazard(v: View, size: nat)
    requires v.slice > 0
  {
    size < v.size && (TrimLoses(v, size) || exists k :: k in v.base && k >= LastKept(v.slice, size))
  }

  lemma DroppedVisible(v: View, size: nat, k: nat)
    requires v.slice > 0
    ensures
      var d := DropTail(TrimActive(v, size), size);
      var b, len := SliceOf(v.slice, size), SlotOf(v.slice, size);
      && d.base == v.base && d.slice == v.slice
      && (k >= LastKept(v.slice, size) ==> Visible(d, k) == if k in v.base then v.base[k] else [])
      && (k < LastKept(v.slice, size) && (k != b || len == 0) ==> Visible(d, k) == Visible(v, k))
  {
    LastKeptIs(v.slice, size);
  }

  lemma BoundaryVisible(v: View, size: nat)
    requires v.slice > 0 && SlotOf(v.slice, size) != 0
    ensures
      var d := DropTail(TrimActive(v, size), size);
      var b, len := SliceOf(v.slice, size), SlotOf(v.slice, size);
      && (Editing(d, b) <==> Editing(v, b))
      && Visible(d, b) == if Editing(v, b) && |Visible(v, b)| > len then Visible(v, b)[..len] else Visible(v, b)
  {
    LastKeptIs(v.slice, size);
  }

  lemma TruncateVisible(v: View, size: nat, k: nat)
    requires WellFormed(v) && size < v.size
    ensures
      var b, len := SliceOf(v.slice, size), SlotOf(v.slice, size);
      Visible(Truncate(v, size), k) ==
        if k >= LastKept(v.slice, size) then (if k in v.base then v.base[k] else [])
        else if k != b || len == 0 || |Visible(v, b)| <= len then Visible(v, k)
        else if Editing(v, b) || !AllZero(Visible(v, b)[..len]) then Visible(v, b)[..len]
        else if b in v.base then v.base[b] else []
  {
    hide WellFormed, AllZero;
    HasSlices(v);
    DroppedVisible(v, size, k);
    if SlotOf(v.slice, size) != 0 { BoundaryVisible(v, size); }
    LastKeptIs(v.slice, size);
  }

  lemma TruncateIsFlat(v: View, size: nat, pos: nat)
    requires WellFormed(v) && TailZero(v) && !TruncateHazard(v, size)
    ensures ByteAt(Truncate(v, size), pos) == if pos < size then ByteAt(v, pos) else 0
  {
    if size < v.size {
      TruncateVisible(v, size, SliceOf(v.slice, pos));
      KeptOrDropped(v.slice, size, pos);
      LastKeptIs(v.slice, size);
    }
  }

  lemma HazardousTruncateIsNotFlat(v: View, size: nat) returns (pos: nat)
    requires WellFormed(v) && TruncateHazard(v, size)
    ensures ByteAt(Truncate(v, size), pos) != if pos < size then ByteAt(v, pos) else 0
  {
    LastKeptIs(v.slice, size);
    var k := SliceOf(v.slice, size);
    if !TrimLoses(v, size) {
      k :| k in v.base && k >= LastKept(v.slice, size);
    }
    pos := NonzeroSlot(v.base[k], v.slice, k);
    TruncateVisible(v, size, k);
    KeptOrDropped(v.slice, size, pos);
  }

  // ----- every state is well formed -----

  lemma {:induction false} PiecesKeep(v: View, p: Data, off: nat)
    requires WellFormed(v)
    ensures WellFormed(WritePieces(v, p, off))
    decreases |p|
  {
    if p != [] {
      var n := PieceLength(v.slice, p, off);
      PieceKeeps(v, off, p[..n]);
      PiecesKeep(WriteIntoSlice(v, SliceOf(v.slice, off), SlotOf(v.slice, off), p[..n]), p[n..], off + n);
    }
  }

  lemma TruncateKeeps(v: View, size: nat)
    requires WellFormed(v)
    ensures WellFormed(Truncate(v, size)) && Truncate(v, size).base == v.base
    ensures Truncate(v, size).size == size
  {
    if size < v.size {
      var d := DropTail(TrimActive(v, size), size);
      assert WellFormed(d);
      TrimKeeps(d, SliceOf(v.slice, size), SlotOf(v.slice, size));
    }
  }

  lemma TrimKeeps(v: View, idx: nat, len: nat)
    requires WellFormed(v)
    ensures WellFormed(TrimSlice(v, idx, len)) && TrimSlice(v, idx, len).base == v.base
  {
  }

  lemma ApplyKeeps(v: View, op: Op)
    requires WellFormed(v)
    ensures WellFormed(Apply(v, op)) && Apply(v, op).base == v.base
    ensures Apply(v, op).size == match op
                                 case WriteOp(p, off) => if p != [] && off + |p| > v.size then off + |p| else v.size
                                 case TruncateOp(size) => size
                                 case SyncOp => v.size
  {
    match op
    case WriteOp(p, off) => PiecesKeep(v, p, off);
    case TruncateOp(size) => TruncateKeeps(v, size);
    case SyncOp => FlushKeeps(v);
  }

  // ----- the refinement -----

  /** The handle shows exactly the array `c`: its bytes, its length, and zeroes past it. */
  ghost predicate Represents(v: View, c: Data)
    requires v.slice > 0
  {
    |c| == v.size && forall pos: nat :: ByteAt(v, pos) == At(c, pos)
  }

  /** The operation takes one of the branches after which an old slice shows through. */
  ghost predicate Hazard(v: View, op: Op)
    requires v.slice > 0
  {
    match op
    case WriteOp(p, off) => WriteHazard(v, p, off)
    case TruncateOp(size) => TruncateHazard(v, size)
    case SyncOp => FlushHazard(v)
  }

  /** The byte the flat array has at a position after an operation. */
  lemma FlatByte(v: View, c: Data, op: Op, pos: nat)
    requires WellFormed(v) && Represents(v, c)
    ensures At(FlatApply(c, op), pos) ==
            match op
            case WriteOp(p, off) => Wanted(v, p, off, pos)
            case TruncateOp(size) => if pos < size then ByteAt(v, pos) else 0
            case SyncOp => ByteAt(v, pos)
  {
    hide WellFormed, SliceOf, SlotOf, Represents, ByteAt;
    HasSlices(v);
    RepresentsByte(v, c, pos);
    match op
    case WriteOp(p, off) => FlatWriteByte(c, p, off, pos);
    case TruncateOp(size) => FlatTruncateByte(c, size, pos);
    case SyncOp =>
  }

  lemma RepresentsByte(v: View, c: Data, pos: nat)
    requires v.slice > 0 && Represents(v, c)
    ensures ByteAt(v, pos) == At(c, pos)
  {
  }

  lemma FlatWriteByte(c: Data, p: Data, off: nat, pos: nat)
    ensures At(FlatWrite(c, p, off), pos) == if off <= pos < off + |p| then p[pos - off] else At(c, pos)
  {
  }

  lemma FlatTruncateByte(c: Data, size: nat, pos: nat)
    ensures At(FlatTruncate(c, size), pos) == if pos < size then At(c, pos) else 0
  {
  }

  lemma FlatSize(v: View, c: Data, op: Op)
    requires WellFormed(v) && |c| == v.size
    ensures |FlatApply(c, op)| == Apply(v, op).size
  {
    ApplyKeeps(v, op);
  }

  lemma SafeStep(v: View, c: Data, op: Op)
    requires WellFormed(v) && Represents(v, c) && !Hazard(v, op)
    ensures Represents(Apply(v, op), FlatApply(c, op))
  {
    forall pos: nat ensures ByteAt(Apply(v, op), pos) == At(FlatApply(c, op), pos) {
      FlatByte(v, c, op, pos);
      match op
      case WriteOp(p, off) => if p != [] { WriteIsFlat(v, p, off, pos); }
      case TruncateOp(size) => TruncateIsFlat(v, size, pos);
      case SyncOp => FlushByte(v, pos);
    }
    FlatSize(v, c, op);
  }

  lemma UnsafeStep(v: View, c: Data, op: Op)
    requires WellFormed(v) && Represents(v, c) && Hazard(v, op)
    ensures !Represents(Apply(v, op), FlatApply(c, op))
  {
    var pos: nat;
    match op {
      case WriteOp(p, off) =>
        pos := HazardousWriteIsNotFlat(v, p, off);
      case TruncateOp(size) =>
        pos := HazardousTruncateIsNotFlat(v, size);
      case SyncOp =>
        pos := NonzeroSlot(v.base[v.active.value.idx], v.slice, v.active.value.idx);
        FlushByte(v, pos);
    }
    FlatByte(v, c, op, pos);
  }

  /** One operation agrees with the flat array exactly when it is not hazardous. */
  lemma StepIff(v: View, c: Data, op: Op)
    requires WellFormed(v) && Represents(v, c)
    ensures Represents(Apply(v, op), FlatApply(c, op)) <==> !Hazard(v, op)
  {
    if Hazard(v, op) { UnsafeStep(v, c, op); } else { SafeStep(v, c, op); }
  }

  ghost predicate HazardFree(v: View, ops: seq<Op>)
    requires v.slice > 0
    decreases |ops|
  {
    ops == [] || (!Hazard(v, ops[0]) && HazardFree(Apply(v, ops[0]), ops[1..]))
  }

  /** Any run without hazards is a run of the flat array. */
  lemma {:induction false} RunRefines(v: View, c: Data, ops: seq<Op>)
    requires WellFormed(v) && Represents(v, c) && HazardFree(v, ops)
    ensures WellFormed(Run(v, ops)) && Represents(Run(v, ops), FlatRun(c, ops))
    decreases |ops|
  {
    if ops != [] {
      ApplyKeeps(v, ops[0]);
      SafeStep(v, c, ops[0]);
      RunRefines(Apply(v, ops[0]), FlatApply(c, ops[0]), ops[1..]);
    }
  }

  /** The handle shows the flat array before the run and after each of its operations. */
  ghost predicate AlwaysFlat(v: View, c: Data, ops: seq<Op>)
    requires v.slice > 0
    decreases |ops|
  {
    Represents(v, c) && (ops == [] || AlwaysFlat(Apply(v, ops[0]), FlatApply(c, ops[0]), ops[1..]))
  }

  /** It does so exactly for the runs without hazards. */
  lemma {:induction false} RunIff(v: View, c: Data, ops: seq<Op>)
    requires WellFormed(v) && Represents(v, c)
    ensures AlwaysFlat(v, c, ops) <==> HazardFree(v, ops)
    decreases |ops|
  {
    hide Represents, WellFormed, Hazard;
    if ops != [] {
      HasSlices(v);
      ApplyKeeps(v, ops[0]);
      StepIff(v, c, ops[0]);
      if !Hazard(v, ops[0]) {
        RunIff(Apply(v, ops[0]), FlatApply(c, ops[0]), ops[1..]);
      }
    }
  }

  /** A file without an old version has no hazards at all. */
  lemma {:induction false} FreshFileIsHazardFree(v: View, ops: seq<Op>)
    requires WellFormed(v) && v.base == map[]
    ensures HazardFree(v, ops)
    decreases |ops|
  {
    if ops != [] {
      ApplyKeeps(v, ops[0]);
      FreshFileIsHazardFree(Apply(v, ops[0]), ops[1..]);
    }
  }

  // ----- commit and reopen -----

  lemma FlushShadows(v: View)
    requires Shadowed(v) && !FlushHazard(v)
    ensures Shadowed(Flush(v))
  {
  }

  /** An old slice that has a current one, or is about to be written, is not uncovered. */
  lemma {:induction false} PiecesShadow(v: View, p: Data, off: nat, k: nat)
    requires WellFormed(v) && ReadyAt(v, off) && p != [] && k in v.base
    requires k in v.cur || Editing(v, k) || SliceOf(v.slice, off) <= k <= SliceOf(v.slice, off + |p| - 1)
    requires !Lost(v, p, off, k)
    ensures k in WritePieces(v, p, off).cur || Editing(WritePieces(v, p, off), k)
    decreases |p|
  {
    hide Lost, WellFormed;
    HasSlices(v);
    var n := PieceLength(v.slice, p, off);
    if n == |p| {
      LastPiece(v, p, off, 0);
      assert WritePieces(v, p, off) == WriteIntoSlice(v, SliceOf(v.slice, off), SlotOf(v.slice, off), p[..n]);
    } else {
      var u := FirstPieceShadow(v, p, off, n, k);
      PiecesShadow(u, p[n..], off + n, k);
    }
  }

  lemma FirstPieceShadow(v: View, p: Data, off: nat, n: nat, k: nat) returns (u: View)
    requires WellFormed(v) && ReadyAt(v, off) && n == PieceLength(v.slice, p, off) < |p| && k in v.base
    requires k in v.cur || Editing(v, k) || SliceOf(v.slice, off) <= k <= SliceOf(v.slice, off + |p| - 1)
    requires !Lost(v, p, off, k)
    ensures WellFormed(u) && u.slice == v.slice && u.base == v.base && u.active.None?
    ensures WritePieces(v, p, off) == WritePieces(u, p[n..], off + n)
    ensures k in u.cur || SliceOf(v.slice, off + n) <= k <= SliceOf(v.slice, off + |p| - 1)
    ensures !Lost(u, p[n..], off + n, k)
  {
    var w := WriteIntoSlice(v, SliceOf(v.slice, off), SlotOf(v.slice, off), p[..n]);
    u := Flush(w);
    PieceKeeps(v, off, p[..n]);
    FlushKeeps(w);
    NextSlice(v.slice, off, n);
    FirstPieceUnrolls(v, p, off, n, w);
    if k == SliceOf(v.slice, off) {
      FlushHazardIsLoss(v, p, off, n, w);
    } else {
      LaterLoss(v, p, off, n, w, k);
    }
  }

  lemma WriteShadows(v: View, p: Data, off: nat)
    requires WellFormed(v) && Shadowed(v) && !WriteHazard(v, p, off)
    ensures Shadowed(Write(v, p, off))
  {
    if p != [] {
      forall k | k in v.base ensures k in Write(v, p, off).cur || Editing(Write(v, p, off), k) {
        WriteShadowsSlice(v, p, off, k);
      }
    }
  }

  lemma FlushedSliceIsRewritten(v: View, p: Data, off: nat)
    requires WellFormed(v) && p != [] && FlushHazard(v) && !FlushLoses(v, p, off)
    requires !Editing(v, SliceOf(v.slice, off))
    ensures SliceOf(v.slice, off) <= v.active.value.idx <= SliceOf(v.slice, off + |p| - 1)
  {
    var k := v.active.value.idx;
    var pos := NonzeroSlot(v.base[k], v.slice, k);
    if off <= pos < off + |p| {
      SliceOrder(v.slice, off, pos);
      SliceOrder(v.slice, pos, off + |p| - 1);
    }
  }

  lemma WriteShadowsSlice(v: View, p: Data, off: nat, k: nat)
    requires WellFormed(v) && Shadowed(v) && p != [] && !WriteHazard(v, p, off) && k in v.base
    ensures k in WritePieces(v, p, off).cur || Editing(WritePieces(v, p, off), k)
  {
    var u := Settled(v, off);
    FlushKeeps(v);
    SettledLoses(v, p, off, k);
    if u != v {
      FlushThenPieces(v, p, off);
      if FlushHazard(v) && v.active.value.idx == k {
        FlushedSliceIsRewritten(v, p, off);
      }
    }
    PiecesShadow(u, p, off, k);
  }

  lemma TruncateShadows(v: View, size: nat)
    requires WellFormed(v) && Shadowed(v) && !TruncateHazard(v, size)
    ensures Shadowed(Truncate(v, size))
  {
    LastKeptIs(v.slice, size);
  }

  lemma ApplyShadows(v: View, op: Op)
    requires WellFormed(v) && Shadowed(v) && !Hazard(v, op)
    ensures Shadowed(Apply(v, op))
  {
    match op
    case WriteOp(p, off) => WriteShadows(v, p, off);
    case TruncateOp(size) => TruncateShadows(v, size);
    case SyncOp => FlushShadows(v);
  }

  lemma {:induction false} RunShadows(v: View, ops: seq<Op>)
    requires WellFormed(v) && Shadowed(v) && HazardFree(v, ops)
    ensures Shadowed(Run(v, ops))
    decreases |ops|
  {
    if ops != [] {
      ApplyKeeps(v, ops[0]);
      ApplyShadows(v, ops[0]);
      RunShadows(Apply(v, ops[0]), ops[1..]);
    }
  }

  /** The version a handle commits, seen by a handle opened on it. */
  function Reopened(v: View, writable: bool): View {
    View(v.slice, v.size, v.cur, if writable then v.cur else map[], None)
  }

  /** The committed version reads as the handle did exactly when no old slice shows through. */
  lemma ReopenIff(v: View, writable: bool)
    requires WellFormed(v) && v.active.None?
    ensures (forall pos: nat :: ByteAt(Reopened(v, writable), pos) == ByteAt(v, pos)) <==> Shadowed(v)
  {
    if k :| k in v.base && k !in v.cur {
      var pos := NonzeroSlot(v.base[k], v.slice, k);
      assert ByteAt(Reopened(v, writable), pos) != ByteAt(v, pos);
    }
  }

  /** Open, any run without hazards, close, open again: the same flat array. */
  lemma CloseThenReopen(v: View, c: Data, ops: seq<Op>, writable: bool)
    requires WellFormed(v) && Shadowed(v) && Represents(v, c)
    requires HazardFree(v, ops) && !FlushHazard(Run(v, ops))
    ensures var closed := Flush(Run(v, ops));
            && WellFormed(Reopened(closed, writable)) && Shadowed(Reopened(closed, true))
            && Represents(Reopened(closed, writable), FlatRun(c, ops))
  {
    var end := Run(v, ops);
    RunRefines(v, c, ops);
    RunShadows(v, ops);
    SafeStep(end, FlatRun(c, ops), SyncOp);
    FlushKeeps(end);
    FlushShadows(end);
    ReopenIff(Flush(end), writable);
  }

  // ----- the hazards are real -----

  const FOUR: Data := [1, 2, 3, 4]

  const OPENED: View := View(4, 4, map[0 := FOUR], map[0 := FOUR], None)

  /** Overwriting a slice with zeroes and syncing: the old bytes are read again. */
  lemma ZeroedSliceReadsOldBytes()
    ensures WellFormed(OPENED) && Shadowed(OPENED)
    ensures Contents(Run(OPENED, [WriteOp([0, 0, 0, 0], 0), SyncOp])) == FOUR
    ensures FlatRun(FOUR, [WriteOp([0, 0, 0, 0], 0), SyncOp]) == [0, 0, 0, 0]
  {
    assert !AllZero(FOUR) by { assert FOUR[0] != 0; }
    var w := Write(OPENED, [0, 0, 0, 0], 0);
    assert WritePieces(OPENED, [0, 0, 0, 0], 0) == WriteIntoSlice(OPENED, 0, 0, [0, 0, 0, 0]) by {
      assert [0 as Byte, 0, 0, 0][..4] == [0, 0, 0, 0];
    }
    assert AllZero(w.active.value.buf);
    assert Flush(w) == View(4, 4, map[0 := FOUR], map[], None);
    assert Run(OPENED, [WriteOp([0, 0, 0, 0], 0), SyncOp]) == Run(w, [SyncOp]) == Run(Flush(w), []);
  }

  /** Truncating to nothing and growing again: the old bytes come back. */
  lemma RegrownFileReadsOldBytes()
    ensures Contents(Run(OPENED, [TruncateOp(0), TruncateOp(4)])) == FOUR
    ensures FlatRun(FOUR, [TruncateOp(0), TruncateOp(4)]) == [0, 0, 0, 0]
  {
    var t := Truncate(OPENED, 0);
    assert t == View(4, 0, map[0 := FOUR], map[], None);
    assert Run(OPENED, [TruncateOp(0), TruncateOp(4)]) == Run(t, [TruncateOp(4)]) == Run(Truncate(t, 4), []);
    assert FlatTruncate(FOUR, 0) == [];
  }
}
