/** Encoding a stripe and rebuilding what is lost of it. */
module Stripes {
  import opened Bytes
  import opened Wrappers
  import opened Tables
  import opened ErasureCode

  /** A stripe prepared for the worker: its written data chunks and its parity chunks. */
  datatype Job = Job(data: seq<Chunk>, parity: map<nat, Chunk>)

  /** What the data slots of a stripe hold; nothing in a slot not written yet. */
  type Slots = seq<Option<Data>>

  // ----- encoding, on values -----

  function Len(s: Option<Data>): nat { if s.Some? then |s.value| else 0 }

  /** The length of the longest shard. */
  function Width(slots: Slots): (w: nat)
    ensures forall i | 0 <= i < |slots| :: Len(slots[i]) <= w
  {
    if slots == [] then 0
    else
      var w, n := Width(slots[..|slots| - 1]), Len(slots[|slots| - 1]);
      if n > w then n else w
  }

  /** Every slot extended with zeroes to width `w`; a slot not written is all zeroes. */
  function Fill(slots: Slots, w: nat): (r: seq<Data>)
    requires Width(slots) <= w
    ensures |r| == |slots|
    ensures forall i | 0 <= i < |r| :: r[i] == Pad(if slots[i].Some? then slots[i].value else [], w)
  {
    seq(|slots|, i requires 0 <= i < |slots| => Pad(if slots[i].Some? then slots[i].value else [], w))
  }

  function Parity(code: Code, slots: Slots): seq<Data> { code.encode(Fill(slots, Width(slots))) }

  /** The stripe as one codeword. */
  function Word(code: Code, slots: Slots): seq<Data> { Fill(slots, Width(slots)) + Parity(code, slots) }

  lemma WordIsCodeword(code: Code, slots: Slots)
    requires Lawful(code) && |slots| == code.ds
    ensures Codeword(code, Word(code, slots), Width(slots))
    ensures |Parity(code, slots)| == code.ps && OfWidth(Parity(code, slots), Width(slots))
  {
    var data, w := Fill(slots, Width(slots)), Width(slots);
    assert OfWidth(data, w);
    var parity, word := Parity(code, slots), Word(code, slots);
    assert code.encode(data) == parity && OfWidth(parity, w);
    forall i | 0 <= i < |word| ensures |word[i]| == w {
      if i < code.ds { assert word[i] == data[i]; } else { assert word[i] == parity[i - code.ds]; }
    }
    assert Word(code, slots)[..code.ds] == data && Word(code, slots)[code.ds..] == Parity(code, slots);
  }

  // ----- rebuilding, on values -----

  /** What can still be read of a stripe: data shards at their own length, parity shards. */
  ghost predicate IsRemnant(code: Code, slots: Slots, raw: Slots) {
    && |slots| == code.ds && |raw| == code.ds + code.ps == code.ds + |Parity(code, slots)|
    && (forall i | 0 <= i < code.ds :: raw[i].Some? ==> raw[i] == slots[i])
    && (forall j | 0 <= j < code.ps :: raw[code.ds + j].Some? ==> raw[code.ds + j].value == Parity(code, slots)[j])
  }

  function PadShards(raw: Slots, w: nat): (r: Slots)
    requires Width(raw) <= w
    ensures |r| == |raw|
    ensures forall i | 0 <= i < |r| :: r[i] == if raw[i].Some? then Some(Pad(raw[i].value, w)) else None
  {
    seq(|raw|, i requires 0 <= i < |raw| => if raw[i].Some? then Some(Pad(raw[i].value, w)) else None)
  }

  lemma {:induction false} PresentSplit(a: Slots, b: Slots)
    ensures Present(a + b) == Present(a) + Present(b)
  {
    if b == [] {
      assert a + b == a;
    } else {
      var m := |b| - 1;
      assert (a + b)[..|a + b| - 1] == a + b[..m];
      PresentSplit(a, b[..m]);
    }
  }

  lemma {:induction false} PresentBound(a: Slots)
    ensures Present(a) <= |a|
    ensures Present(a) == |a| ==> forall i | 0 <= i < |a| :: a[i].Some?
    ensures Present(a) > 0 ==> exists i :: 0 <= i < |a| && a[i].Some?
  {
    if a != [] {
      PresentBound(a[..|a| - 1]);
      if Present(a) > 0 && a[|a| - 1].None? {
        var i :| 0 <= i < |a| - 1 && a[..|a| - 1][i].Some?;
        assert a[i].Some?;
      }
    }
  }

  lemma {:induction false} SamePresent(a: Slots, b: Slots)
    requires |a| == |b| && forall i | 0 <= i < |a| :: a[i].Some? == b[i].Some?
    ensures Present(a) == Present(b)
  {
    if a != [] {
      SamePresent(a[..|a| - 1], b[..|b| - 1]);
    }
  }

  /** A longest shard is the width. */
  lemma {:induction false} WidthIs(slots: Slots, w: nat)
    requires forall i | 0 <= i < |slots| :: Len(slots[i]) <= w
    requires w > 0 ==> exists i :: 0 <= i < |slots| && Len(slots[i]) == w
    ensures Width(slots) == w
  {
    WidthAtMost(slots, w);
  }

  lemma {:induction false} WidthAtMost(slots: Slots, w: nat)
    requires forall i | 0 <= i < |slots| :: Len(slots[i]) <= w
    ensures Width(slots) <= w
  {
    if slots != [] {
      WidthAtMost(slots[..|slots| - 1], w);
    }
  }

  lemma {:induction false} WidthAttained(slots: Slots)
    ensures Width(slots) > 0 ==> exists i :: 0 <= i < |slots| && Len(slots[i]) == Width(slots)
  {
    if slots != [] && Width(slots) > 0 {
      var init := slots[..|slots| - 1];
      WidthAttained(init);
      if Len(slots[|slots| - 1]) != Width(slots) {
        var i :| 0 <= i < |init| && Len(init[i]) == Width(init);
        assert Len(slots[i]) == Width(slots);
      }
    }
  }

  lemma RemnantBounded(code: Code, slots: Slots, raw: Slots)
    requires Lawful(code) && IsRemnant(code, slots, raw)
    ensures forall i | 0 <= i < |raw| :: Len(raw[i]) <= Width(slots)
  {
    WordIsCodeword(code, slots);
    forall i | 0 <= i < |raw| ensures Len(raw[i]) <= Width(slots) {
      if i >= code.ds {
        var j := i - code.ds;
        assert raw[i] == raw[code.ds + j] && |Parity(code, slots)[j]| == Width(slots);
      }
    }
  }

  /** The pigeonhole: `ds` readable shards include a parity shard or are all the data. */
  lemma DataOrParity(raw: Slots, ds: nat)
    requires ds <= |raw| && Present(raw) >= ds
    ensures (exists j :: ds <= j < |raw| && raw[j].Some?) || (forall i | 0 <= i < ds :: raw[i].Some?)
  {
    var data, parity := raw[..ds], raw[ds..];
    assert raw == data + parity;
    PresentSplit(data, parity);
    PresentBound(data);
    PresentBound(parity);
    if Present(parity) > 0 {
      var j :| 0 <= j < |parity| && parity[j].Some?;
      assert raw[ds + j].Some?;
    } else {
      forall i | 0 <= i < ds ensures raw[i].Some? { assert data[i].Some?; }
    }
  }

  /** A parity shard has the full width, so the longest readable shard has the width the
      stripe was encoded with. */
  lemma WidthRecovered(code: Code, slots: Slots, raw: Slots)
    requires Lawful(code) && IsRemnant(code, slots, raw) && Present(raw) >= code.ds
    ensures Width(raw) == Width(slots)
  {
    var w := Width(slots);
    RemnantBounded(code, slots, raw);
    DataOrParity(raw, code.ds);
    if w > 0 {
      if j :| code.ds <= j < |raw| && raw[j].Some? {
        WordIsCodeword(code, slots);
        var m := j - code.ds;
        assert raw[j] == raw[code.ds + m] && |Parity(code, slots)[m]| == w;
        assert Len(raw[j]) == w;
      } else {
        WidthAttained(slots);
        var i :| 0 <= i < |slots| && Len(slots[i]) == w;
        assert raw[i] == slots[i];
      }
    }
    WidthIs(raw, w);
  }

  lemma PaddedRemains(code: Code, slots: Slots, raw: Slots)
    requires Lawful(code) && IsRemnant(code, slots, raw) && Width(raw) == Width(slots)
    ensures Remains(PadShards(raw, Width(raw)), Word(code, slots))
  {
    var w, word := Width(slots), Word(code, slots);
    var pattern := PadShards(raw, w);
    WordIsCodeword(code, slots);
    forall i | 0 <= i < |word| ensures pattern[i].Some? ==> pattern[i].value == word[i] {
      if i < code.ds {
        assert word[i] == Fill(slots, w)[i];
      } else {
        var j := i - code.ds;
        assert raw[i] == raw[code.ds + j] && word[i] == Parity(code, slots)[j];
        if raw[i].Some? { FullWidthIsUnpadded(raw[i].value, w); }
      }
    }
  }

  lemma FullWidthIsUnpadded(s: Data, w: nat)
    requires |s| == w
    ensures Pad(s, w) == s
  {
  }

  /** Reconstruction from any remnant with `ds` shards gives the whole codeword. */
  lemma RemnantReconstructs(code: Code, slots: Slots, raw: Slots)
    requires Lawful(code) && IsRemnant(code, slots, raw) && Width(slots) > 0 && Present(raw) >= code.ds
    ensures Width(raw) == Width(slots)
    ensures code.reconstruct(PadShards(raw, Width(raw))) == Some(Word(code, slots))
  {
    var pattern := PadShards(raw, Width(raw));
    SamePresent(pattern, raw);
    WordIsCodeword(code, slots);
    WidthRecovered(code, slots, raw);
    PaddedRemains(code, slots, raw);
  }

  /** Cutting the padding off gives a data chunk back byte for byte. */
  lemma PaddingComesOff(code: Code, slots: Slots, i: nat)
    requires i < |slots| && slots[i].Some?
    ensures |slots[i].value| <= |Word(code, slots)[i]|
    ensures Word(code, slots)[i][..|slots[i].value|] == slots[i].value
  {
    assert Word(code, slots)[i] == Fill(slots, Width(slots))[i];
    var p := Pad(slots[i].value, Width(slots));
    forall k | 0 <= k < |slots[i].value| ensures p[k] == slots[i].value[k] {
    }
  }
}
