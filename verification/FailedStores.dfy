/** What a handle shows when the pool refuses to store a slice, on values, and exactly when
    that is still the flat array. */
module FailedStores {
  import opened Bytes
  import opened Wrappers
  import opened SliceView
  import opened FlatArray

  // ----- the handle after a failure -----

  /** The buffer is given up before it is stored, so a failure loses it. */
  function Unstored(v: View): (r: View)
    ensures r.slice == v.slice && r.base == v.base && r.size == v.size
  {
    v.(active := None)
  }

  /** The slice in the buffer cannot be stored; one of zeroes need not be. */
  predicate CanFail(v: View) { v.active.Some? && !AllZero(v.active.value.buf) }

  /** A write that fails after `n` bytes; the size is not set. */
  function FailedWrite(v: View, p: Data, off: nat, n: nat): (r: View)
    requires v.slice > 0 && n <= |p|
    ensures r.slice == v.slice && r.base == v.base && r.size == v.size
  {
    Unstored(WritePieces(v, p[..n], off))
  }

  /** A truncation that fails has dropped the tail, and not trimmed the boundary slice. */
  function FailedTruncate(v: View, size: nat): (r: View)
    requires v.slice > 0
    ensures r.slice == v.slice && r.base == v.base && r.size == v.size
  {
    DropTail(TrimActive(v, size), size)
  }

  /** Only a boundary slice that is stored is trimmed in the pool. */
  ghost predicate TruncateFails(v: View, size: nat, w: View) {
    v.slice > 0 && w == FailedTruncate(v, size) && SlotOf(v.slice, size) != 0 && !Editing(v, SliceOf(v.slice, size))
  }

  lemma ShrinkFails(v: View, d: View, size: nat)
    requires v.slice > 0 && d == FailedTruncate(v, size) && SlotOf(v.slice, size) != 0
    requires !Editing(d, SliceOf(v.slice, size))
    ensures TruncateFails(v, size, d)
  {
    BoundaryVisible(v, size);
  }

  /** Cutting the slice to a length stores something again. */
  predicate CutStores(v: View, idx: nat, len: nat) {
    !Editing(v, idx) && |Visible(v, idx)| > len && !AllZero(Visible(v, idx)[..len])
  }

  /** The slice the new end falls into is in the pool and has to be stored again, cut. */
  ghost predicate BoundaryStores(v: View, size: nat) {
    v.slice > 0 && SlotOf(v.slice, size) > 0 && CutStores(v, SliceOf(v.slice, size), SlotOf(v.slice, size))
  }

  lemma BoundaryStoresIff(v: View, d: View, size: nat)
    requires v.slice > 0 && d == FailedTruncate(v, size)
    ensures BoundaryStores(v, size) <==> BoundaryStores(d, size)
  {
    if SlotOf(v.slice, size) > 0 { BoundaryVisible(v, size); }
  }

  // ----- pieces one after the other -----

  /** The data ends where a slice does. */
  predicate EndsSlice(slice: nat, off: nat, p: Data)
    requires slice > 0
  {
    p == [] || SlotOf(slice, off + |p|) == 0
  }

  /** Data that ends where a slice does is at least the first piece of it. */
  lemma FirstPieceFits(slice: nat, off: nat, a: Data, b: Data)
    requires slice > 0 && a != [] && SlotOf(slice, off + |a|) == 0
    ensures PieceLength(slice, a + b, off) == PieceLength(slice, a, off) == slice - SlotOf(slice, off) <= |a|
  {
    if |a| < slice - SlotOf(slice, off) {
      PieceRange(slice, off, |a| + 1, off + |a|);
    }
  }

  lemma {:induction false} PiecesAppend(v: View, a: Data, b: Data, off: nat)
    requires v.slice > 0 && EndsSlice(v.slice, off, a)
    ensures WritePieces(v, a + b, off) == WritePieces(WritePieces(v, a, off), b, off + |a|)
    decreases |a|
  {
    hide SlotOf, SliceOf, WriteIntoSlice;
    if a == [] {
      assert a + b == b;
    } else {
      FirstPieceFits(v.slice, off, a, b);
      var n := PieceLength(v.slice, a, off);
      var w := WriteIntoSlice(v, SliceOf(v.slice, off), SlotOf(v.slice, off), a[..n]);
      assert (a + b)[..n] == a[..n] && (a + b)[n..] == a[n..] + b;
      PiecesAppend(w, a[n..], b, off + n);
    }
  }

  /** The handle `u` is what writing the first `k` bytes of `p` makes of `v`, and they end with a
      slice unless they are all. */
  ghost predicate Partway(v: View, p: Data, k: nat, off: nat, u: View) {
    && v.slice > 0 && k <= |p| && u == WritePieces(v, p[..k], off)
    && (k < |p| ==> EndsSlice(v.slice, off, p[..k]))
  }

  lemma PartwayAtFirst(v: View, p: Data, off: nat)
    requires v.slice > 0
    ensures Partway(v, p, 0, off, v)
  {
  }

  /** Data that fits into the slice is one piece. */
  lemma OnePiece(v: View, piece: Data, off: nat)
    requires v.slice > 0 && piece != [] && |piece| <= v.slice - SlotOf(v.slice, off)
    ensures WritePieces(v, piece, off) == WriteIntoSlice(v, SliceOf(v.slice, off), SlotOf(v.slice, off), piece)
  {
    hide SlotOf, SliceOf, WriteIntoSlice;
    assert piece[..|piece|] == piece && piece[|piece|..] == [];
  }

  lemma TakeMore(p: Data, k: nat, n: nat)
    requires k + n <= |p|
    ensures p[..k + n] == p[..k] + p[k..][..n]
  {
  }

  lemma PartwayMore(v: View, p: Data, k: nat, off: nat, u: View, n: nat, w: View)
    requires Partway(v, p, k, off, u) && k < |p| && n == PieceLength(v.slice, p[k..], off + k)
    requires w == WriteIntoSlice(u, SliceOf(v.slice, off + k), SlotOf(v.slice, off + k), p[k..][..n])
    ensures Partway(v, p, k + n, off, w)
  {
    hide SlotOf, SliceOf, WriteIntoSlice;
    var piece := p[k..][..n];
    TakeMore(p, k, n);
    PiecesAppend(v, p[..k], piece, off);
    OnePiece(u, piece, off + k);
    if k + n < |p| { NextSlice(v.slice, off + k, n); }
  }

  /** The write of the piece after the first `k` bytes fails. */
  ghost predicate FailsAfter(v: View, p: Data, off: nat, k: nat, w: View) {
    v.slice > 0 && k < |p| && w == FailedWrite(v, p, off, k) && CanFail(WritePieces(v, p[..k], off))
  }

  // ----- when nothing is lost -----

  /** The buffer says what is stored already. */
  ghost predicate Redundant(v: View) {
    v.active.Some? ==> forall i: nat ::
      At(v.active.value.buf, i) == At(Visible(Unstored(v), v.active.value.idx), i)
  }

  /** A failed store keeps every byte exactly when the buffer is redundant. */
  lemma UnstoredIff(v: View)
    requires WellFormed(v)
    ensures (forall pos: nat :: ByteAt(Unstored(v), pos) == ByteAt(v, pos)) <==> Redundant(v)
  {
    if !Redundant(v) {
      var k := v.active.value.idx;
      var i: nat :| At(v.active.value.buf, i) != At(Visible(Unstored(v), k), i);
      assert i < v.slice;
      var pos := SlotPosition(v.slice, k, i);
      assert ByteAt(Unstored(v), pos) != ByteAt(v, pos);
    }
  }

  /** A failed sync or close keeps the flat array exactly when the buffer is redundant. */
  lemma FailedSyncIff(v: View, c: Data)
    requires WellFormed(v) && Represents(v, c)
    ensures Represents(Unstored(v), c) <==> Redundant(v)
  {
    UnstoredIff(v);
    if Represents(Unstored(v), c) {
      forall pos: nat ensures ByteAt(Unstored(v), pos) == ByteAt(v, pos) {
        RepresentsByte(v, c, pos);
        RepresentsByte(Unstored(v), c, pos);
      }
    }
    if Redundant(v) {
      forall pos: nat ensures ByteAt(Unstored(v), pos) == At(c, pos) { RepresentsByte(v, c, pos); }
    }
  }

  /** The last slice written is the one in the buffer, and so the one that is lost. */
  lemma {:induction false} LastIsBuffered(v: View, p: Data, off: nat)
    requires v.slice > 0 && p != []
    ensures Editing(WritePieces(v, p, off), SliceOf(v.slice, off + |p| - 1))
    decreases |p|
  {
    hide SliceOf, SlotOf, Load, Splice;
    var n := PieceLength(v.slice, p, off);
    var w := WriteIntoSlice(v, SliceOf(v.slice, off), SlotOf(v.slice, off), p[..n]);
    if n == |p| {
      PieceRange(v.slice, off, n, off + n - 1);
      assert WritePieces(v, p, off) == WritePieces(w, [], off + n);
    } else {
      LastIsBuffered(w, p[n..], off + n);
    }
  }

  /** The bytes a failed write reports as written are there, and all others as before, exactly
      when the last slice of them is redundant. */
  lemma FailedWriteIff(v: View, p: Data, off: nat, n: nat)
    requires WellFormed(v) && 0 < n <= |p| && !WriteHazard(v, p[..n], off)
    ensures (forall pos: nat :: ByteAt(FailedWrite(v, p, off, n), pos) == Wanted(v, p[..n], off, pos)) <==>
            Redundant(WritePieces(v, p[..n], off))
  {
    hide ByteAt, Wanted, Redundant, WellFormed, WriteHazard;
    HasSlices(v);
    var u := WritePieces(v, p[..n], off);
    PiecesKeep(v, p[..n], off);
    UnstoredIff(u);
    forall pos: nat ensures ByteAt(u, pos) == Wanted(v, p[..n], off, pos) {
      WriteIsFlat(v, p[..n], off, pos);
      SizeIsApart(u, if off + n > v.size then off + n else v.size, pos);
    }
  }

  lemma SizeIsApart(v: View, size: nat, pos: nat)
    requires v.slice > 0
    ensures ByteAt(v.(size := size), pos) == ByteAt(v, pos)
  {
  }

  /** What is stored of a failed write stays, even behind the end of the file, which has not
      moved; only the last slice is as if it had not been written. */
  lemma FailedWriteByte(v: View, p: Data, off: nat, n: nat, pos: nat)
    requires WellFormed(v) && 0 < n <= |p| && !WriteHazard(v, p[..n], off)
    requires SliceOf(v.slice, pos) != SliceOf(v.slice, off + n - 1)
    ensures ByteAt(FailedWrite(v, p, off, n), pos) == Wanted(v, p[..n], off, pos)
  {
    hide Wanted, WellFormed, WriteHazard, SliceOf, SlotOf;
    HasSlices(v);
    WriteIsFlat(v, p[..n], off, pos);
    LastIsBuffered(v, p[..n], off);
  }

  /** The slices dropped show the bytes the old version has there. */
  ghost predicate TailIsOld(v: View, size: nat)
    requires v.slice > 0
  {
    forall pos: nat | SliceOf(v.slice, pos) >= LastKept(v.slice, size) ::
      ByteAt(v, pos) == At(if SliceOf(v.slice, pos) in v.base then v.base[SliceOf(v.slice, pos)] else [],
                           SlotOf(v.slice, pos))
  }

  /** A truncation that fails keeps the flat array exactly when the slices dropped make no
      difference; it does not cut it. */
  lemma FailedTruncateIff(v: View, c: Data, size: nat)
    requires WellFormed(v) && Represents(v, c) && !Editing(v, SliceOf(v.slice, size))
    ensures Represents(FailedTruncate(v, size), c) <==> TailIsOld(v, size)
  {
    hide WellFormed, LastKept, TrimActive, DropTail;
    HasSlices(v);
    LastKeptIs(v.slice, size);
    var d := FailedTruncate(v, size);
    forall pos: nat
      ensures ByteAt(d, pos) ==
              if SliceOf(v.slice, pos) < LastKept(v.slice, size) then ByteAt(v, pos)
              else At(if SliceOf(v.slice, pos) in v.base then v.base[SliceOf(v.slice, pos)] else [],
                      SlotOf(v.slice, pos))
    {
      DroppedVisible(v, size, SliceOf(v.slice, pos));
      if SlotOf(v.slice, size) != 0 { BoundaryVisible(v, size); }
    }
    if Represents(d, c) {
      forall pos: nat | SliceOf(v.slice, pos) >= LastKept(v.slice, size) ensures ByteAt(v, pos) == ByteAt(d, pos) {
        RepresentsByte(v, c, pos);
        RepresentsByte(d, c, pos);
      }
    }
    if TailIsOld(v, size) {
      forall pos: nat ensures ByteAt(d, pos) == At(c, pos) { RepresentsByte(v, c, pos); }
    }
  }

  // ----- the losses are real -----

  const EMPTY: View := View(4, 0, map[], map[], None)

  /** A write that succeeded is gone after a sync that failed, and the close that follows commits
      the file without it, at its full size. */
  lemma FailedSyncLosesWrite()
    ensures Contents(Write(EMPTY, FOUR, 0)) == FOUR && CanFail(Write(EMPTY, FOUR, 0))
    ensures Contents(Reopened(Flush(Unstored(Write(EMPTY, FOUR, 0))), false)) == [0, 0, 0, 0]
  {
    FourIsWritten();
    assert FOUR[0] != 0;
  }

  lemma FourIsWritten()
    ensures Write(EMPTY, FOUR, 0) == View(4, 4, map[], map[], Some(Active(0, FOUR)))
  {
    assert FOUR[..4] == FOUR && FOUR[4..] == [];
    assert WriteIntoSlice(EMPTY, 0, 0, FOUR) == View(4, 0, map[], map[], Some(Active(0, FOUR))) by {
      assert Splice([], 0, FOUR) == FOUR;
    }
    assert WritePieces(EMPTY, FOUR, 0) == WritePieces(WriteIntoSlice(EMPTY, 0, 0, FOUR), [], 4);
  }

  /** A write of more than two slices fails at the third: of the eight bytes it reports, the last
      four are lost, and the first four are behind the end of the empty file, where they show
      once it grows. */
  lemma FailedWriteShowsLater(rest: Data)
    requires |rest| > 0
    ensures FailedWrite(EMPTY, FOUR + FOUR + rest, 0, 8) == View(4, 0, map[], map[0 := FOUR], None)
    ensures Contents(Truncate(FailedWrite(EMPTY, FOUR + FOUR + rest, 0, 8), 8)) == FOUR + [0, 0, 0, 0]
    ensures FlatTruncate([], 8) == [0, 0, 0, 0, 0, 0, 0, 0]
  {
    hide WriteIntoSlice, DropTail, Contents, Truncate;
    var p := FOUR + FOUR + rest;
    assert p[..8] == FOUR + FOUR;
    FourIsWritten();
    PiecesAppend(EMPTY, FOUR, FOUR, 0);
    SecondFour();
    FirstFourShows();
  }

  lemma FirstFourShows()
    ensures Contents(Truncate(View(4, 0, map[], map[0 := FOUR], None), 8)) == FOUR + [0, 0, 0, 0]
  {
    assert Truncate(View(4, 0, map[], map[0 := FOUR], None), 8) == View(4, 8, map[], map[0 := FOUR], None);
  }

  lemma SecondFour()
    ensures WritePieces(View(4, 0, map[], map[], Some(Active(0, FOUR))), FOUR, 4) ==
            View(4, 0, map[], map[0 := FOUR], Some(Active(1, FOUR)))
  {
    var v := View(4, 0, map[], map[], Some(Active(0, FOUR)));
    assert FOUR[0] != 0 && FOUR[..4] == FOUR && FOUR[4..] == [];
    assert Splice([], 0, FOUR) == FOUR;
    assert Flush(v) == View(4, 0, map[], map[0 := FOUR], None);
    assert WriteIntoSlice(v, 1, 0, FOUR) == View(4, 0, map[], map[0 := FOUR], Some(Active(1, FOUR)));
    assert WritePieces(v, FOUR, 4) == WritePieces(WriteIntoSlice(v, 1, 0, FOUR), [], 8);
  }
}
