/** What a file handle sees, on values: a slice-level copy-on-write buffer over a sparse
    map of slices over the version that was open. It is meant to be one flat byte array.
    The functions follow the write path branch by branch; the lemmas say, byte by byte,
    what each step does and exactly when that is what the flat array would do. */
module SliceView {
  import opened Arithmetic
  import opened Bytes
  import opened Wrappers

  /** The slice a position falls into, `pos / slice`, and its place there, `pos % slice`. */
  function SliceOf(slice: nat, pos: nat): nat
    requires slice > 0
  {
    if pos < slice then 0 else 1 + SliceOf(slice, pos - slice)
  }

  function SlotOf(slice: nat, pos: nat): (i: nat)
    requires slice > 0
    ensures i < slice
  {
    if pos < slice then pos else SlotOf(slice, pos - slice)
  }

  lemma {:induction false} DivMod(slice: nat, pos: nat)
    requires slice > 0
    ensures SliceOf(slice, pos) == pos / slice && SlotOf(slice, pos) == pos % slice
    ensures pos == pos / slice * slice + pos % slice
  {
    if pos < slice {
      QuotientUnique(pos, slice, 0, pos);
    } else {
      DivMod(slice, pos - slice);
      QuotientUnique(pos, slice, (pos - slice) / slice + 1, (pos - slice) % slice);
    }
  }

  datatype Active = Active(idx: nat, buf: Data)

  /** `base` holds the slices of the version at open, `cur` those of the version being
      written, `active` the slice being edited in memory. */
  datatype View = View(slice: nat, size: nat, base: map<nat, Data>, cur: map<nat, Data>, active: Option<Active>)

  // ----- reading -----

  predicate Editing(v: View, idx: nat) { v.active.Some? && v.active.value.idx == idx }

  /** The plain bytes of a slice: the active buffer, else the slice written, else the old
      slice, else a hole. */
  function Visible(v: View, idx: nat): Data {
    if Editing(v, idx) then v.active.value.buf
    else if idx in v.cur then v.cur[idx]
    else if idx in v.base then v.base[idx]
    else []
  }

  function ByteAt(v: View, pos: nat): Byte
    requires v.slice > 0
  {
    At(Visible(v, SliceOf(v.slice, pos)), SlotOf(v.slice, pos))
  }

  /** The file as one flat array. */
  function Contents(v: View): (r: Data)
    requires v.slice > 0
    ensures |r| == v.size
  {
    seq(v.size, pos requires pos >= 0 => ByteAt(v, pos))
  }

  // ----- what every state keeps -----

  predicate GoodSlice(s: Data, slice: nat) { |s| <= slice && !AllZero(s) }

  /** No slice exceeds the slice size, and no stored slice is all zero. */
  ghost predicate WellFormed(v: View) {
    && v.slice > 0
    && (forall k | k in v.base :: GoodSlice(v.base[k], v.slice))
    && (forall k | k in v.cur :: GoodSlice(v.cur[k], v.slice))
    && (v.active.Some? ==> |v.active.value.buf| <= v.slice)
  }

  lemma HasSlices(v: View)
    requires WellFormed(v)
    ensures v.slice > 0
  {
  }

  /** No byte at or past the end of the file is nonzero. */
  ghost predicate TailZero(v: View)
    requires v.slice > 0
  {
    forall pos: nat | pos >= v.size :: ByteAt(v, pos) == 0
  }

  /** Every old slice is shadowed by a current one. */
  ghost predicate Shadowed(v: View) {
    forall k | k in v.base :: k in v.cur || Editing(v, k)
  }

  // ----- writing -----

  /** An all-zero slice becomes a hole. */
  function WithSlice(cur: map<nat, Data>, idx: nat, plain: Data): map<nat, Data> {
    if AllZero(plain) then cur - {idx} else cur[idx := plain]
  }

  function Put(v: View, idx: nat, plain: Data): (r: View)
    ensures r.slice == v.slice && r.base == v.base && r.size == v.size
  {
    v.(cur := WithSlice(v.cur, idx, plain))
  }

  function Flush(v: View): (r: View)
    ensures r.slice == v.slice && r.base == v.base && r.size == v.size
  {
    if v.active.None? then v else Put(v.(active := None), v.active.value.idx, v.active.value.buf)
  }

  function Splice(buf: Data, intra: nat, data: Data): (r: Data)
    ensures |r| == if |buf| < intra + |data| then intra + |data| else |buf|
    ensures forall i | 0 <= i < |r| :: r[i] == if intra <= i < intra + |data| then data[i - intra] else At(buf, i)
  {
    seq(if |buf| < intra + |data| then intra + |data| else |buf|,
        i requires i >= 0 => if intra <= i < intra + |data| then data[i - intra] else At(buf, i))
  }

  /** Make a slice the active one, flushing the one before. */
  function Load(v: View, idx: nat): (r: View)
    ensures r.slice == v.slice && r.base == v.base && r.size == v.size
  {
    if Editing(v, idx) then v else Flush(v).(active := Some(Active(idx, Visible(v, idx))))
  }

  function WriteIntoSlice(v: View, idx: nat, intra: nat, data: Data): (r: View)
    ensures r.slice == v.slice && r.base == v.base && r.size == v.size
  {
    Load(v, idx).(active := Some(Active(idx, Splice(Visible(v, idx), intra, data))))
  }

  function PieceLength(slice: nat, p: Data, off: nat): (n: nat)
    requires slice > 0
    ensures n <= |p| && n <= slice - SlotOf(slice, off) && (p != [] ==> n > 0)
    ensures n < |p| ==> n == slice - SlotOf(slice, off)
  {
    if |p| > slice - SlotOf(slice, off) then slice - SlotOf(slice, off) else |p|
  }

  function WritePieces(v: View, p: Data, off: nat): (r: View)
    requires v.slice > 0
    ensures r.slice == v.slice && r.base == v.base && r.size == v.size
    decreases |p|
  {
    if p == [] then v
    else
      var n := PieceLength(v.slice, p, off);
      WritePieces(WriteIntoSlice(v, SliceOf(v.slice, off), SlotOf(v.slice, off), p[..n]), p[n..], off + n)
  }

  function Write(v: View, p: Data, off: nat): (r: View)
    requires v.slice > 0
    ensures r.slice == v.slice && r.base == v.base
  {
    if p == [] then v
    else WritePieces(v, p, off).(size := if off + |p| > v.size then off + |p| else v.size)
  }

  // ----- truncating -----

  /** The first slice dropped whole. */
  function LastKept(slice: nat, size: nat): nat
    requires slice > 0
  {
    SliceOf(slice, size + slice - 1)
  }

  function TrimActive(v: View, size: nat): (r: View)
    requires v.slice > 0
    ensures r.slice == v.slice && r.base == v.base
  {
    var intra := SlotOf(v.slice, size);
    if v.active.Some? && v.active.value.idx >= LastKept(v.slice, size) then
      v.(active := None)
    else if v.active.Some? && intra != 0 && v.active.value.idx == SliceOf(v.slice, size) &&
      intra < |v.active.value.buf| then
      v.(active := Some(Active(SliceOf(v.slice, size), v.active.value.buf[..intra])))
    else v
  }

  function DropTail(v: View, size: nat): View
    requires v.slice > 0
  {
    v.(cur := map k | k in v.cur && k < LastKept(v.slice, size) :: v.cur[k])
  }

  function TrimSlice(v: View, idx: nat, len: nat): (r: View)
    ensures r.slice == v.slice && r.base == v.base
  {
    var buf := Visible(v, idx);
    if |buf| <= len then v
    else if Editing(v, idx) then v.(active := Some(Active(idx, buf[..len])))
    else Put(v, idx, buf[..len])
  }

  function Truncate(v: View, size: nat): (r: View)
    requires v.slice > 0
    ensures r.slice == v.slice && r.base == v.base
  {
    var t :=
      if size < v.size then
        var d := DropTail(TrimActive(v, size), size);
        if SlotOf(v.slice, size) != 0 then TrimSlice(d, SliceOf(v.slice, size), SlotOf(v.slice, size)) else d
      else v;
    t.(size := size)
  }

  // ----- arithmetic of positions -----

  lemma PieceRange(slice: nat, off: nat, n: nat, pos: nat)
    requires slice > 0 && n <= slice - SlotOf(slice, off)
    ensures off <= pos < off + n <==>
            SliceOf(slice, pos) == SliceOf(slice, off) &&
              SlotOf(slice, off) <= SlotOf(slice, pos) < SlotOf(slice, off) + n
    ensures off <= pos < off + n ==> pos - off == SlotOf(slice, pos) - SlotOf(slice, off)
  {
    DivMod(slice, off);
    DivMod(slice, pos);
    if off <= pos < off + n {
      QuotientUnique(pos, slice, off / slice, pos - off + off % slice);
    }
  }

  lemma NextSlice(slice: nat, off: nat, n: nat)
    requires slice > 0 && n == slice - SlotOf(slice, off)
    ensures SliceOf(slice, off + n) == SliceOf(slice, off) + 1 && SlotOf(slice, off + n) == 0
  {
    DivMod(slice, off);
    DivMod(slice, off + n);
    QuotientUnique(off + n, slice, off / slice + 1, 0);
  }

  lemma SliceOrder(slice: nat, a: nat, b: nat)
    requires slice > 0 && a <= b
    ensures SliceOf(slice, a) <= SliceOf(slice, b)
  {
    DivMod(slice, a);
    DivMod(slice, b);
    QuotientMonotone(a, b, slice);
  }

  /** Every slot of a slice is a position of the file. */
  lemma SlotPosition(slice: nat, k: nat, i: nat) returns (pos: nat)
    requires i < slice
    ensures SliceOf(slice, pos) == k && SlotOf(slice, pos) == i
  {
    pos := k * slice + i;
    QuotientUnique(pos, slice, k, i);
    DivMod(slice, pos);
  }

  lemma LastKeptIs(slice: nat, size: nat)
    requires slice > 0
    ensures LastKept(slice, size) == SliceOf(slice, size) + if SlotOf(slice, size) == 0 then 0 else 1
  {
    DivMod(slice, size);
    var q, r := SliceOf(slice, size), SlotOf(slice, size);
    SlotPositionIs(slice, q, if r == 0 then slice - 1 else r - 1, size, r);
  }

  lemma SlotPositionIs(slice: nat, q: nat, i: nat, size: nat, r: nat)
    requires slice > 0 && size == q * slice + r && r < slice && i == if r == 0 then slice - 1 else r - 1
    ensures SliceOf(slice, size + slice - 1) == if r == 0 then q else q + 1
  {
    hide SlotOf;
    var k := if r == 0 then q else q + 1;
    assert (q + 1) * slice == q * slice + slice;
    QuotientUnique(size + slice - 1, slice, k, i);
    DivMod(slice, size + slice - 1);
  }

  lemma KeptOrDropped(slice: nat, size: nat, pos: nat)
    requires slice > 0
    ensures SliceOf(slice, pos) >= LastKept(slice, size) ==> pos >= size
    ensures SliceOf(slice, pos) < SliceOf(slice, size) ==> pos < size
    ensures SliceOf(slice, pos) == SliceOf(slice, size) ==> (pos < size <==> SlotOf(slice, pos) < SlotOf(slice, size))
    ensures pos < size ==> SliceOf(slice, pos) < LastKept(slice, size)
  {
    LastKeptIs(slice, size);
    DivMod(slice, size);
    DivMod(slice, pos);
    if pos < size { SliceOrder(slice, pos, size); } else { SliceOrder(slice, size, pos); }
  }
}
