/** Byte strings, shared by the file layer and the storage pool. */
module Bytes {

  type Byte = bv8

  type Data = seq<Byte>

  predicate AllZero(s: Data) { forall i | 0 <= i < |s| :: s[i] == 0 }

  /** The byte at a position of a zero-extended string. */
  function At(s: Data, i: nat): Byte { if i < |s| then s[i] else 0 }

  /** A string of `n` zero bytes. */
  function Zeros(n: nat): (r: Data)
    ensures |r| == n && AllZero(r)
  {
    seq(n, _ => 0)
  }

  /** The string extended with zero bytes to length `n`. */
  function Pad(s: Data, n: nat): (r: Data)
    requires |s| <= n
    ensures |r| == n && forall i | 0 <= i < n :: r[i] == At(s, i)
  {
    s + Zeros(n - |s|)
  }
}
