/** Slices on their way to the pool: compressed, then encrypted. The two libraries are
    parameters; only that each undoes itself, and how much it may add, matters here. */
module SliceCodec {
  import opened Bytes
  import opened Wrappers

  const COMPRESSION_NONE := 0
  const COMPRESSION_ZSTD := 1

  const ENCRYPTION_NONE := 0
  const ENCRYPTION_AES_GCM := 1

  const NONCE_LEN: nat := 12
  const GCM_TAG_LEN: nat := 16

  /** `seal` takes the nonce that is drawn at random for each slice. */
  datatype Codec = Codec(zip: Data -> Data, unzip: Data -> Option<Data>,
                         seal: (Data, nat) -> Data, unseal: Data -> Option<Data>, hasKey: bool)

  /** A frame is never empty and adds at most 1/256 and 64 bytes. */
  ghost predicate Zips(c: Codec) {
    forall s: Data :: c.unzip(c.zip(s)) == Some(s) && 0 < |c.zip(s)| <= |s| + |s| / 256 + 64
  }

  ghost predicate Seals(c: Codec) {
    forall s: Data, n: nat :: c.unseal(c.seal(s, n)) == Some(s) && |c.seal(s, n)| == NONCE_LEN + |s| + GCM_TAG_LEN
  }

  ghost predicate Sound(c: Codec) { Zips(c) && Seals(c) }

  // ----- encoding and decoding -----

  /** The algorithms are known, and there is a key if one is needed. */
  predicate Usable(c: Codec, comp: int, enc: int) {
    && (comp == COMPRESSION_NONE || comp == COMPRESSION_ZSTD)
    && (enc == ENCRYPTION_NONE || (enc == ENCRYPTION_AES_GCM && c.hasKey))
  }

  function Compress(c: Codec, comp: int, plain: Data): Option<Data> {
    if comp == COMPRESSION_NONE then Some(plain) else if comp == COMPRESSION_ZSTD then Some(c.zip(plain)) else None
  }

  function Encrypt(c: Codec, enc: int, data: Data, nonce: nat): Option<Data> {
    if enc == ENCRYPTION_NONE then Some(data)
    else if enc == ENCRYPTION_AES_GCM && c.hasKey then Some(c.seal(data, nonce)) else None
  }

  function Encode(c: Codec, comp: int, enc: int, plain: Data, nonce: nat): Option<Data> {
    var zipped := Compress(c, comp, plain);
    if zipped.Some? then Encrypt(c, enc, zipped.value, nonce) else None
  }

  function Decode(c: Codec, comp: int, enc: int, stored: Data): Option<Data> {
    var zipped :=
      if enc == ENCRYPTION_NONE then Some(stored)
      else if enc != ENCRYPTION_AES_GCM || |stored| < NONCE_LEN || !c.hasKey then None
      else c.unseal(stored);
    if zipped.None? then None
    else if comp == COMPRESSION_NONE then zipped
    else if comp == COMPRESSION_ZSTD then c.unzip(zipped.value) else None
  }

  /** Encoding succeeds exactly for algorithms that can be used, decoding gives the slice
      back, and what is stored is never empty and never longer than the estimate. */
  lemma EncodeDecode(c: Codec, comp: int, enc: int, plain: Data, nonce: nat)
    requires Sound(c)
    ensures Encode(c, comp, enc, plain, nonce).Some? <==> Usable(c, comp, enc)
    ensures Usable(c, comp, enc) ==> Decode(c, comp, enc, Encode(c, comp, enc, plain, nonce).value) == Some(plain)
    ensures Usable(c, comp, enc) ==>
              |Encode(c, comp, enc, plain, nonce).value| <= |plain| + OverheadFor(|plain|, comp, enc)
    ensures Usable(c, comp, enc) && plain != [] ==> Encode(c, comp, enc, plain, nonce).value != []
  {
    if Usable(c, comp, enc) {
      var zipped := Compress(c, comp, plain).value;
      assert comp == COMPRESSION_ZSTD ==>
          c.unzip(c.zip(plain)) == Some(plain) && 0 < |c.zip(plain)| <= |plain| + |plain| / 256 + 64;
      assert c.unseal(c.seal(zipped, nonce)) == Some(zipped);
    }
  }

  /** A slice is compressed first and then sealed, each if it is asked for; algorithms that are not
      known and a missing key are refused, in both directions. */
  lemma EncodedAs(c: Codec, comp: int, enc: int, plain: Data, nonce: nat)
    ensures Encode(c, comp, enc, plain, nonce) ==
            match (comp, enc)
            case (0, 0) => Some(plain)
            case (1, 0) => Some(c.zip(plain))
            case (0, 1) => if c.hasKey then Some(c.seal(plain, nonce)) else None
            case (1, 1) => if c.hasKey then Some(c.seal(c.zip(plain), nonce)) else None
            case _ => None
    ensures (comp != 0 && comp != 1) || (enc != 0 && (enc != 1 || !c.hasKey || |plain| < 12)) ==>
              Decode(c, comp, enc, plain) == None
  {
  }

  // ----- the size of a slice -----

  /** How many bytes encoding may add to a slice. */
  function OverheadFor(size: int, comp: int, enc: int): int {
    (if comp == COMPRESSION_ZSTD then size / 256 + 64 else 0) +
    (if enc == ENCRYPTION_AES_GCM then NONCE_LEN + GCM_TAG_LEN else 0)
  }

  const DEFAULT_SLICE_SIZE: nat := 4 * 1024 * 1024

  /** The slice size for a pool whose chunk limit is `chunkSize` kilobytes; nothing when the
      pool could not be read. */
  function SliceSize(chunkSize: Option<int>, comp: int, enc: int): (slice: nat)
    ensures slice > 0
  {
    if chunkSize.None? || chunkSize.value * 1024 <= 0 then DEFAULT_SLICE_SIZE
    else
      var size := chunkSize.value * 1024;
      var overhead := OverheadFor(size, comp, enc);
      if size > overhead then size - overhead else size
  }

  /** A slice is the pool's limit less what encoding may add, and four megabytes if there is no
      limit to go by. */
  lemma SliceSizeIs(chunkSize: Option<int>, comp: int, enc: int)
    ensures SliceSize(chunkSize, comp, enc) ==
            if chunkSize.None? || chunkSize.value < 1 then 4_194_304
            else chunkSize.value * 1024 - (if comp == 1 then chunkSize.value * 4 + 64 else 0) -
                 (if enc == 1 then 28 else 0)
  {
    if chunkSize.Some? { assert chunkSize.value * 1024 / 256 == chunkSize.value * 4; }
  }

  /** For every pool limit of at least one kilobyte and every pair of algorithms, a whole
      slice and whatever encoding adds to it stay within the limit. */
  lemma SliceFits(chunkSize: int, comp: int, enc: int, size: nat)
    requires chunkSize >= 1 && size <= SliceSize(Some(chunkSize), comp, enc)
    ensures size + OverheadFor(size, comp, enc) <= chunkSize * 1024
    ensures OverheadFor(chunkSize * 1024, comp, enc) < chunkSize * 1024
  {
    var limit := chunkSize * 1024;
    assert limit / 256 == chunkSize * 4;
    assert size / 256 <= limit / 256;
  }

  /** No slice the file layer encodes is refused by the pool for its length. */
  lemma EncodedSliceFits(c: Codec, chunkSize: int, comp: int, enc: int, plain: Data, nonce: nat)
    requires Sound(c) && Usable(c, comp, enc) && chunkSize >= 1 && 0 < |plain| <= SliceSize(Some(chunkSize), comp, enc)
    ensures 0 < |Encode(c, comp, enc, plain, nonce).value| <= chunkSize * 1024
  {
    EncodeDecode(c, comp, enc, plain, nonce);
    SliceFits(chunkSize, comp, enc, |plain|);
  }

  /** The slice size used when the pool could not be read fits exactly the pools whose limit
      has room for it. */
  lemma FallbackFitsIff(chunkSize: int, comp: int, enc: int)
    ensures (forall size: nat | size <= SliceSize(None, comp, enc) ::
              size + OverheadFor(size, comp, enc) <= chunkSize * 1024) <==>
            DEFAULT_SLICE_SIZE + OverheadFor(DEFAULT_SLICE_SIZE, comp, enc) <= chunkSize * 1024
  {
    assert SliceSize(None, comp, enc) == DEFAULT_SLICE_SIZE;
    forall size: nat | size <= DEFAULT_SLICE_SIZE
      ensures OverheadFor(size, comp, enc) <= OverheadFor(DEFAULT_SLICE_SIZE, comp, enc)
    {
    }
  }

  /** The contract of the libraries can be met. */
  function Framed(): Codec {
    Codec(s => [0] + s, s => if s == [] then None else Some(s[1..]),
          (s, n) => Zeros(NONCE_LEN + GCM_TAG_LEN) + s, s => if |s| < NONCE_LEN + GCM_TAG_LEN
            then None else Some(s[NONCE_LEN + GCM_TAG_LEN..]), true)
  }

  lemma FramedIsSound()
    ensures Sound(Framed())
  {
    var c := Framed();
    forall s: Data ensures c.unzip(c.zip(s)) == Some(s) && |c.zip(s)| == |s| + 1 {
      assert c.zip(s)[1..] == s;
    }
    forall s: Data, n: nat ensures c.unseal(c.seal(s, n)) == Some(s) {
      assert c.seal(s, n)[NONCE_LEN + GCM_TAG_LEN..] == s;
    }
  }
}
