/** The base32 codec of the web client. Its accumulator is a 32-bit word that is never
    masked: a left shift drops what falls off the top, and the code only ever looks at the
    low `bits` bits. The codec is specified on bit strings, most significant bit first. */
module Base32 {
  import opened Arithmetic

  type Octet = b: int | 0 <= b < 256

  type Octets = seq<Octet>

  datatype DecodeResult = Decoded(octets: Octets) | BadSecret

  const ALPHABET: string := "ABCDEFGHIJKLMNOPQRSTUVWXYZ234567"

  // ----- 32-bit words -----

  const WORD: int := 0x1_0000_0000

  function Pow2(k: nat): (p: int)
    ensures p > 0
  {
    if k == 0 then 1 else 2 * Pow2(k - 1)
  }

  /** The left shift of a 32-bit word. `v | x` below is `v + x` because the low bits of
      `v` are clear, and `& 31`, `& 0xff` are remainders. */
  function Shl(v: int, k: int): int
    decreases k, v
  {
    if k <= 0 then v else Shl(2 * v % WORD, k - 1)
  }

  /** The unsigned right shift. */
  function Shr(v: int, k: int): int
    decreases k, v
  {
    if k <= 0 then v else Shr(v / 2, k - 1)
  }

  lemma OrBelowAShiftIsAddition(v: bv32, b: bv8, d: bv32)
    requires d < 32
    ensures (v << 8) | (b as bv32) == (v << 8) + (b as bv32)
    ensures (v << 5) | d == (v << 5) + d
  {
  }

  // ----- bit strings -----

  type Bits = seq<bool>

  /** The low `n` bits of a number. */
  function LowBits(v: int, n: int): (s: Bits)
    ensures |s| == if n <= 0 then 0 else n
    decreases n, v
  {
    if n <= 0 then [] else LowBits(v / 2, n - 1) + [v % 2 == 1]
  }

  lemma Associate(a: Bits, b: Bits, c: Bits)
    ensures (a + b) + c == a + (b + c)
  {
  }

  lemma AppendInjective(p: Bits, x: Bits, q: Bits, y: Bits)
    requires p + x == q + y && |p| == |q|
    ensures p == q && x == y
  {
    assert p == (p + x)[..|p|] && q == (q + y)[..|q|];
    assert x == (p + x)[|p|..] && y == (q + y)[|q|..];
  }

  lemma PrefixIs(x: Bits, a: Bits, z: Bits)
    requires x <= a + z && |x| == |a|
    ensures x == a
  {
  }

  function Zeroes(n: nat): Bits { seq(n, _ => false) }

  /** The numbers of a sequence written one after the other in `w` bits each. */
  function Groups(s: seq<int>, w: int): Bits {
    if s == [] then [] else Groups(s[..|s| - 1], w) + LowBits(s[|s| - 1], w)
  }

  lemma {:induction false} GroupsLength(s: seq<int>, w: nat)
    ensures |Groups(s, w)| == |s| * w
  {
    if s != [] {
      GroupsLength(s[..|s| - 1], w);
      assert |s| * w == (|s| - 1) * w + w;
    }
  }

  lemma GroupsSnoc(s: seq<int>, x: int, w: nat)
    ensures Groups(s + [x], w) == Groups(s, w) + LowBits(x, w)
  {
    assert (s + [x])[..|s|] == s;
  }

  lemma SameLength(m: nat, n: nat, w: nat)
    requires w > 0 && m * w == n * w
    ensures m == n
  {
    assert m > n ==> m * w >= n * w + w;
    assert m < n ==> n * w >= m * w + w;
  }

  lemma {:induction false} GroupsInjective(s: seq<int>, t: seq<int>, w: nat)
    requires w > 0 && Groups(s, w) == Groups(t, w)
    requires forall i | 0 <= i < |s| :: 0 <= s[i] < Pow2(w)
    requires forall i | 0 <= i < |t| :: 0 <= t[i] < Pow2(w)
    ensures s == t
  {
    hide LowBits, Pow2;
    GroupsLength(s, w);
    GroupsLength(t, w);
    assert |s| == |t| by {
      SameLength(|s|, |t|, w);
    }
    if s != [] {
      var m := |s| - 1;
      GroupsLength(s[..m], w);
      GroupsLength(t[..m], w);
      AppendInjective(Groups(s[..m], w), LowBits(s[m], w), Groups(t[..m], w), LowBits(t[m], w));
      GroupsInjective(s[..m], t[..m], w);
      LowBitsInjective(s[m], t[m], w);
      assert s == s[..m] + [s[m]] && t == t[..m] + [t[m]];
    }
  }

  lemma {:induction false} SplitLowBits(v: int, n: nat, m: nat)
    ensures LowBits(v, n + m) == LowBits(Shr(v, m), n) + LowBits(v, m)
    decreases m
  {
    if m > 0 {
      SplitLowBits(v / 2, n, m - 1);
      assert LowBits(v, n + m) == LowBits(v / 2, n + (m - 1)) + [v % 2 == 1];
      Associate(LowBits(Shr(v, m), n), LowBits(v / 2, m - 1), [v % 2 == 1]);
    }
  }

  lemma HalvesFirst(v: int, p: nat)
    requires p > 0
    ensures v / 2 / p == v / (2 * p)
  {
    var q, r := v / 2 / p, v / 2 % p;
    assert v / 2 == q * p + r;
    assert q * (2 * p) == 2 * (q * p);
    QuotientUnique(v, 2 * p, q, 2 * r + v % 2);
  }

  lemma {:induction false} ShrIsQuotient(v: int, k: nat)
    ensures Shr(v, k) == v / Pow2(k)
    decreases k
  {
    if k > 0 {
      ShrIsQuotient(v / 2, k - 1);
      HalvesFirst(v, Pow2(k - 1));
    }
  }

  /** The left shift is a product modulo 2^32. */
  lemma {:induction false} ShlIsProduct(v: int, k: nat) returns (q: int)
    ensures Shl(v, k) + q * WORD == v * Pow2(k)
    decreases k
  {
    if k == 0 {
      q := 0;
    } else {
      var p, t, u := Pow2(k - 1), 2 * v / WORD, 2 * v % WORD;
      var r := ShlIsProduct(u, k - 1);
      q := r + t * p;
      CarryOut(2 * v, t, u, p);
      assert v * (2 * p) == 2 * v * p;
    }
  }

  lemma CarryOut(x: int, t: int, u: int, p: nat)
    requires x == t * WORD + u
    ensures x * p == t * p * WORD + u * p
  {
  }

  /** What lies above the low `n` bits is invisible. */
  lemma {:induction false} LowBitsTruncate(v: int, n: nat, k: nat)
    requires n <= k
    ensures LowBits(v % Pow2(k), n) == LowBits(v, n)
    decreases n
  {
    if n > 0 {
      var p, q, r := Pow2(k - 1), v / Pow2(k), v % Pow2(k);
      assert v == 2 * (q * p) + r;
      QuotientUnique(v / 2, p, q, r / 2);
      LowBitsTruncate(v / 2, n - 1, k - 1);
    }
  }

  lemma {:induction false} LowBitsInjective(v: int, w: int, n: nat)
    requires 0 <= v < Pow2(n) && 0 <= w < Pow2(n)
    requires LowBits(v, n) == LowBits(w, n)
    ensures v == w
    decreases n
  {
    if n > 0 {
      var a, b := LowBits(v, n), LowBits(w, n);
      assert a[..n - 1] == LowBits(v / 2, n - 1) && b[..n - 1] == LowBits(w / 2, n - 1);
      LowBitsInjective(v / 2, w / 2, n - 1);
      assert a[n - 1] == b[n - 1];
    }
  }

  lemma {:induction false} Pow2Add(m: nat, n: nat)
    ensures Pow2(m + n) == Pow2(m) * Pow2(n)
  {
    if m > 0 {
      Pow2Add(m - 1, n);
    }
  }

  lemma Powers()
    ensures Pow2(5) == 32 && Pow2(8) == 256 && Pow2(32) == WORD
  {
    Pow2Add(8, 8);
    Pow2Add(16, 16);
  }

  /** Shifting a value of `m` bits into the word appends its bits to the pending ones,
      whatever garbage the word carries above them. */
  lemma ShiftIn(v: int, x: int, n: nat, m: nat)
    requires 0 <= x < Pow2(m) && n + m <= 32 && m <= 32
    ensures LowBits(Shl(v, m) + x, n + m) == LowBits(v, n) + LowBits(x, m)
  {
    var p, w := Pow2(m), Shl(v, m) + x;
    var q := ShlIsProduct(v, m);
    LowBitsPeriod(w, q, n + m);
    SplitLowBits(v * p + x, n, m);
    ShrIsQuotient(v * p + x, m);
    QuotientUnique(v * p + x, p, v, x);
    LowBitsTruncate(v * p + x, m, m);
  }

  /** On words as bit strings the left shift is a shift: the top bits fall off. */
  lemma ShlIsBitShift(v: int, k: nat)
    requires k <= 32
    ensures LowBits(Shl(v, k), 32) == LowBits(v, 32 - k) + Zeroes(k)
  {
    ShiftIn(v, 0, 32 - k, k);
    ZeroBits(k);
  }

  /** And so is the unsigned right shift. */
  lemma ShrIsBitShift(v: int, k: nat)
    requires 0 <= v < WORD && k <= 32
    ensures LowBits(Shr(v, k), 32) == Zeroes(k) + LowBits(v, 32)[..32 - k]
  {
    var u := Shr(v, k);
    SplitLowBits(v, 32 - k, k);
    SplitLowBits(u, k, 32 - k);
    ShiftedOut(v, k);
    ZeroBits(k);
    assert LowBits(v, 32)[..32 - k] == LowBits(u, 32 - k);
  }

  lemma ShiftedOut(v: int, k: nat)
    requires 0 <= v < WORD && k <= 32
    ensures Shr(Shr(v, k), 32 - k) == 0
  {
    hide Shr, Pow2;
    Powers();
    Pow2Add(k, 32 - k);
    ShrIsQuotient(v, k);
    ShrIsQuotient(Shr(v, k), 32 - k);
    QuotientBelow(v, Pow2(k), Pow2(32 - k));
  }

  lemma QuotientBelow(v: int, p: nat, q: nat)
    requires 0 <= v < p * q && p > 0 && q > 0
    ensures v / p / q == 0
  {
    var u := v / p;
    assert 0 <= u && u * p <= v;
    assert u >= q ==> (u - q) * p >= 0;
    QuotientUnique(u, q, 0, u);
  }

  lemma LowBitsPeriod(w: int, q: int, n: nat)
    requires n <= 32
    ensures LowBits(w + q * WORD, n) == LowBits(w, n)
  {
    Powers();
    LowBitsTruncate(w, n, 32);
    LowBitsTruncate(w + q * WORD, n, 32);
    assert w == (w / WORD) * WORD + w % WORD;
    QuotientUnique(w + q * WORD, WORD, w / WORD + q, w % WORD);
  }

  /** The invariant of either codec: the groups written so far and the low `n` bits of
      the accumulator are together the groups read so far. */
  ghost predicate Balanced(done: seq<int>, dw: int, v: int, n: int, read: seq<int>, rw: int) {
    Groups(done, dw) + LowBits(v, n) == Groups(read, rw)
  }

  lemma NothingRead(dw: nat, rw: nat)
    ensures Balanced([], dw, 0, 0, [], rw)
  {
  }

  /** A group shifted in joins the pending bits ... */
  lemma Absorb(done: seq<int>, dw: nat, v: int, n: nat, read: seq<int>, rw: nat, x: int)
    requires Balanced(done, dw, v, n, read, rw) && n + rw <= 32 && 0 <= x < Pow2(rw)
    ensures Balanced(done, dw, Shl(v, rw) + x, n + rw, read + [x], rw)
  {
    ShiftIn(v, x, n, rw);
    GroupsSnoc(read, x, rw);
    Associate(Groups(done, dw), LowBits(v, n), LowBits(x, rw));
  }

  /** ... and reading the top `dw` pending bits moves them to the output. */
  lemma Emit(done: seq<int>, dw: nat, v: int, n: nat, read: seq<int>, rw: nat, x: int)
    requires Balanced(done, dw, v, n, read, rw) && dw <= n && x == Shr(v, n - dw) % Pow2(dw)
    ensures Balanced(done + [x], dw, v, n - dw, read, rw)
  {
    SplitLowBits(v, dw, n - dw);
    LowBitsTruncate(Shr(v, n - dw), dw, dw);
    GroupsSnoc(done, x, dw);
    Associate(Groups(done, dw), LowBits(x, dw), LowBits(v, n - dw));
  }

  /** The last digit is the pending bits followed by zero bits. */
  lemma EmitPadded(done: seq<int>, v: int, n: nat, x: int, w: nat)
    requires n <= w <= 32 && x == Shl(v, w - n) % Pow2(w)
    ensures Groups(done + [x], w) == Groups(done, w) + LowBits(v, n) + Zeroes(w - n)
  {
    ShiftIn(v, 0, n, w - n);
    LowBitsTruncate(Shl(v, w - n), w, w);
    ZeroBits(w - n);
    GroupsSnoc(done, x, w);
    Associate(Groups(done, w), LowBits(v, n), Zeroes(w - n));
  }

  lemma {:induction false} ZeroBits(n: nat)
    ensures LowBits(0, n) == Zeroes(n)
  {
    if n > 0 {
      ZeroBits(n - 1);
    }
  }

  // ----- digits -----

  /** The character at a position of the alphabet. */
  function CharAt(d: int): char
    requires 0 <= d < 32
  {
    if d < 26 then 'A' + d as char else '2' + (d - 26) as char
  }

  /** The position of a character in the alphabet, or -1. */
  function IndexOf(c: char): (k: int)
    ensures -1 <= k < 32
    ensures k >= 0 ==> CharAt(k) == c
  {
    if 'A' <= c <= 'Z' then (c - 'A') as int
    else if '2' <= c <= '7' then 26 + (c - '2') as int
    else -1
  }

  /** `CharAt` indexes into the alphabet string, `IndexOf` searches it. */
  lemma AlphabetPositions(d: int)
    requires 0 <= d < 32
    ensures |ALPHABET| == 32 && ALPHABET[d] == CharAt(d) && IndexOf(ALPHABET[d]) == d
  {
  }

  /** The digits are exactly the characters of the alphabet. */
  lemma AlphabetMembers(c: char)
    ensures IndexOf(c) >= 0 <==> c in ALPHABET
  {
    if IndexOf(c) >= 0 {
      AlphabetPositions(IndexOf(c));
    } else if k :| 0 <= k < |ALPHABET| && ALPHABET[k] == c {
      AlphabetPositions(k);
    }
  }

  predicate AllDigits(text: string) { forall i | 0 <= i < |text| :: IndexOf(text[i]) >= 0 }

  /** `vals` are the digit values of `text`. */
  ghost predicate AreValues(vals: seq<int>, text: string) {
    |vals| == |text| && forall i | 0 <= i < |text| :: vals[i] == IndexOf(text[i]) >= 0
  }

  function Values(text: string): (r: seq<int>)
    requires AllDigits(text)
    ensures AreValues(r, text)
  {
    seq(|text|, i requires 0 <= i < |text| => IndexOf(text[i]))
  }

  lemma ValuesInjective(s: string, t: string)
    requires AllDigits(s) && AllDigits(t) && Values(s) == Values(t)
    ensures s == t
  {
    forall i | 0 <= i < |s| ensures s[i] == t[i] {
      assert Values(s)[i] == Values(t)[i];
      assert CharAt(IndexOf(s[i])) == CharAt(IndexOf(t[i]));
    }
  }

  /** The unpadded base32 form of section 6 of RFC 4648: the bits of the input in
      five-bit groups, the last group filled up with zero bits. */
  ghost predicate IsEncoding(octets: Octets, text: string) {
    && AllDigits(text)
    && |text| == (8 * |octets| + 4) / 5
    && Groups(Values(text), 5) == Groups(octets, 8) + Zeroes(5 * |text| - 8 * |octets|)
  }

  /** The whole bytes in the bits of a digit string; leftover bits are dropped. */
  ghost predicate IsDecoding(digits: string, octets: Octets) {
    && AllDigits(digits)
    && |octets| == 5 * |digits| / 8
    && Groups(octets, 8) <= Groups(Values(digits), 5)
  }

  // ----- encoding -----

  lemma AbsorbOctet(vals: seq<int>, v: int, n: nat, read: seq<int>, b: Octet)
    requires n <= 4 && Balanced(vals, 5, v, n, read, 8)
    ensures Balanced(vals, 5, Shl(v, 8) + b, n + 8, read + [b], 8)
  {
    hide Balanced, Groups, LowBits, Shl, Pow2;
    Powers();
    Absorb(vals, 5, v, n, read, 8, b);
  }

  lemma EmitDigit(vals: seq<int>, v: int, n: nat, read: seq<int>, d: nat)
    requires 5 <= n && Balanced(vals, 5, v, n, read, 8) && d == Shr(v, n - 5) % 32
    ensures IndexOf(CharAt(d)) == d
    ensures Balanced(vals + [d], 5, v, n - 5, read, 8)
  {
    Powers();
    Emit(vals, 5, v, n, read, 8, d);
  }

  /** After the last byte fewer than five bits are pending; without any, all is written. */
  lemma EncodedBits(octets: Octets, vals: seq<int>, out: string, v: int, n: nat)
    requires n <= 4 && AreValues(vals, out) && Balanced(vals, 5, v, n, octets, 8)
    ensures 5 * |out| + n == 8 * |octets|
    ensures n == 0 ==> IsEncoding(octets, out)
  {
    GroupsLength(vals, 5);
    GroupsLength(octets, 8);
    assert vals == Values(out);
  }

  lemma EmitLastDigit(octets: Octets, vals: seq<int>, out: string, v: int, n: nat, d: nat)
    requires 1 <= n <= 4 && AreValues(vals, out) && Balanced(vals, 5, v, n, octets, 8)
    requires d == Shl(v, 5 - n) % 32
    ensures IsEncoding(octets, out + [CharAt(d)])
  {
    hide Groups, LowBits, Shl, Shr;
    Powers();
    EncodedBits(octets, vals, out, v, n);
    EmitPadded(vals, v, n, d, 5);
    assert AreValues(vals + [d], out + [CharAt(d)]);
    assert vals + [d] == Values(out + [CharAt(d)]);
  }

  method Encode(octets: Octets) returns (out: string)
    ensures IsEncoding(octets, out)
  {
    hide Balanced, Groups, Shl;
    var bits, value := 0, 0;
    out := "";
    NothingRead(5, 8);
    ghost var vals: seq<int> := [];
    for k := 0 to |octets|
      invariant 0 <= bits <= 4
      invariant AreValues(vals, out)
      invariant Balanced(vals, 5, value, bits, octets[..k], 8)
    {
      AbsorbOctet(vals, value, bits, octets[..k], octets[k]);
      assert octets[..k] + [octets[k]] == octets[..k + 1];
      value := Shl(value, 8) + octets[k];
      bits := bits + 8;
      while bits >= 5
        invariant 0 <= bits <= 12
        invariant AreValues(vals, out)
        invariant Balanced(vals, 5, value, bits, octets[..k + 1], 8)
      {
        var d := Shr(value, bits - 5) % 32;
        EmitDigit(vals, value, bits, octets[..k + 1], d);
        vals := vals + [d];
        out := out + [CharAt(d)];
        bits := bits - 5;
      }
    }
    assert octets[..|octets|] == octets;
    EncodedBits(octets, vals, out, value, bits);
    if bits > 0 {
      var d := Shl(value, 5 - bits) % 32;
      EmitLastDigit(octets, vals, out, value, bits, d);
      out := out + [CharAt(d)];
    }
  }

  // ----- decoding -----

  /** Upper-casing, then removal of white space and padding. */
  function Clean(input: string): (r: string) {
    if input == "" then "" else CleanChar(input[0]) + Clean(input[1..])
  }

  function CleanChar(c: char): string { if c == '=' || IsBlank(c as int) then "" else Upper(c) }

  /** The white space of ECMAScript. */
  predicate IsBlank(c: int) {
    || 9 <= c <= 13 || c == 32 || c == 0xA0 || c == 0x1680 || 0x2000 <= c <= 0x200A
    || c == 0x2028 || c == 0x2029 || c == 0x202F || c == 0x205F || c == 0x3000 || c == 0xFEFF
  }

  /** The upper case of a character, as far as it has letters of the alphabet only: those of
      ASCII, the dotless i, the long s, the sharp s and the ligatures. Any other character is its
      own upper case, or neither it nor its upper case has digits only. */
  function Upper(c: char): string {
    var n := c as int;
    if 'a' <= c <= 'z' then [c - 'a' + 'A']
    else if n == 0x131 then "I"
    else if n == 0x17F then "S"
    else if n == 0xDF then "SS"
    else if n == 0xFB00 then "FF"
    else if n == 0xFB01 then "FI"
    else if n == 0xFB02 then "FL"
    else if n == 0xFB03 then "FFI"
    else if n == 0xFB04 then "FFL"
    else if n == 0xFB05 || n == 0xFB06 then "ST"
    else [c]
  }

  lemma AbsorbDigit(out: Octets, v: int, n: nat, vals: seq<int>, d: nat)
    requires 0 <= d < 32 && n <= 7 && Balanced(out, 8, v, n, vals, 5)
    ensures Balanced(out, 8, Shl(v, 5) + d, n + 5, vals + [d], 5)
  {
    hide Balanced, Groups, LowBits, Shl, Pow2;
    Powers();
    Absorb(out, 8, v, n, vals, 5, d);
  }

  lemma EmitOctet(out: Octets, v: int, n: nat, vals: seq<int>, b: Octet)
    requires 8 <= n && Balanced(out, 8, v, n, vals, 5) && b == Shr(v, n - 8) % 256
    ensures Balanced(out + [b], 8, v, n - 8, vals, 5)
  {
    Powers();
    Emit(out, 8, v, n, vals, 5, b);
  }

  lemma DecodedBits(clean: string, vals: seq<int>, out: Octets, v: int, n: nat)
    requires n <= 7 && AreValues(vals, clean) && Balanced(out, 8, v, n, vals, 5)
    ensures IsDecoding(clean, out)
  {
    GroupsLength(out, 8);
    GroupsLength(vals, 5);
    assert vals == Values(clean);
  }

  method Decode(input: string) returns (r: DecodeResult)
    ensures r.Decoded? <==> AllDigits(Clean(input))
    ensures r.Decoded? ==> IsDecoding(Clean(input), r.octets)
  {
    hide Balanced, IsDecoding, IndexOf;
    var clean := Clean(input);
    var bits, value := 0, 0;
    var out: Octets := [];
    ghost var vals: seq<int> := [];
    NothingRead(8, 5);
    for k := 0 to |clean|
      invariant 0 <= bits <= 7
      invariant |vals| == k && forall j | 0 <= j < k :: vals[j] == IndexOf(clean[j]) >= 0
      invariant Balanced(out, 8, value, bits, vals, 5)
    {
      var idx := IndexOf(clean[k]);
      if idx < 0 {
        return BadSecret;
      }
      AbsorbDigit(out, value, bits, vals, idx);
      vals := vals + [idx];
      value := Shl(value, 5) + idx;
      bits := bits + 5;
      assert Balanced(out, 8, value, bits, vals, 5);
      if bits >= 8 {
        var b := Shr(value, bits - 8) % 256;
        EmitOctet(out, value, bits, vals, b);
        out := out + [b];
        bits := bits - 8;
      }
    }
    DecodedBits(clean, vals, out, value, bits);
    r := Decoded(out);
  }

  // ----- what is overlooked -----

  lemma {:induction false} CleanAppend(a: string, b: string)
    ensures Clean(a + b) == Clean(a) + Clean(b)
  {
    if a == "" {
      assert a + b == b;
    } else {
      CleanAppend(a[1..], b);
      assert (a + b)[1..] == a[1..] + b && (a + b)[0] == a[0];
    }
  }

  lemma CleanOne(c: char)
    ensures Clean([c]) == CleanChar(c)
  {
    assert [c][1..] == "";
  }

  const LOWER := "abcdefghijklmnopqrstuvwxyz"
  const UPPER := "ABCDEFGHIJKLMNOPQRSTUVWXYZ"

  lemma LettersAt(k: nat)
    requires k < 26
    ensures LOWER[k] as int == 97 + k && UPPER[k] as int == 65 + k
  {
  }

  /** Small letters count as capitals. */
  lemma SmallLetters(k: nat)
    requires k < 26
    ensures Clean([LOWER[k]]) == [UPPER[k]]
  {
    LettersAt(k);
    CleanOne(LOWER[k]);
    assert Upper(LOWER[k])[0] as int == 65 + k;
  }

  /** Padding and white space are dropped (sections 12.2 and 12.3 of ECMA-262), and nothing else
      is. */
  lemma DroppedIff(c: char)
    ensures Clean([c]) == "" <==>
            c in "= \t\n\r" || c as int in {0x0B, 0x0C, 0xA0, 0x1680, 0x2028, 0x2029, 0x202F, 0x205F, 0x3000, 0xFEFF} ||
              0x2000 <= c as int < 0x200B
  {
    CleanOne(c);
    assert c in "= \t\n\r" <==> c as int in {0x3D, 0x20, 0x09, 0x0A, 0x0D};
  }

  /** The characters beyond ASCII whose capitals are digits only (SpecialCasing and UnicodeData of
      the Unicode Character Database). */
  lemma OtherLetters(c: char)
    ensures c as int == 0x131 ==> Clean([c]) == "I"
    ensures c as int == 0x17F ==> Clean([c]) == "S"
    ensures c as int == 0xDF ==> Clean([c]) == "SS"
    ensures c as int == 0xFB00 ==> Clean([c]) == "FF"
    ensures c as int == 0xFB01 ==> Clean([c]) == "FI"
    ensures c as int == 0xFB02 ==> Clean([c]) == "FL"
    ensures c as int == 0xFB03 ==> Clean([c]) == "FFI"
    ensures c as int == 0xFB04 ==> Clean([c]) == "FFL"
    ensures c as int == 0xFB05 || c as int == 0xFB06 ==> Clean([c]) == "ST"
  {
    CleanOne(c);
  }

  /** Every other character is refused. */
  lemma AcceptedIff(c: char)
    ensures AllDigits(Clean([c])) <==>
              c in ALPHABET || 'a' <= c <= 'z' || Clean([c]) == "" ||
                c as int in {0x131, 0x17F, 0xDF, 0xFB00, 0xFB01, 0xFB02, 0xFB03, 0xFB04, 0xFB05, 0xFB06}
  {
    CleanOne(c);
    AlphabetMembers(c);
    if Clean([c]) == [c] { assert [c][0] == c; }
    if 'a' <= c <= 'z' { assert Upper(c)[0] == c - 'a' + 'A'; }
  }

  /** A text that spells the digits: each in either case, with blanks and padding anywhere. */
  predicate Spells(loose: string, digits: string)
    decreases |loose|
  {
    if loose == "" then digits == ""
    else
      || (loose[0] in "= \t\n\r" && Spells(loose[1..], digits))
      || (digits != "" && SameLetter(loose[0], digits[0]) && Spells(loose[1..], digits[1..]))
  }

  predicate SameLetter(c: char, d: char) { c == d || exists k: nat | k < 26 :: c == LOWER[k] && d == UPPER[k] }

  lemma {:induction false} SpellsClean(loose: string, digits: string)
    requires AllDigits(digits) && Spells(loose, digits)
    ensures Clean(loose) == digits
    decreases |loose|
  {
    if loose != "" {
      var c := loose[0];
      CleanOne(c);
      if c in "= \t\n\r" && Spells(loose[1..], digits) {
        DroppedIff(c);
        SpellsClean(loose[1..], digits);
      } else {
        assert IndexOf(digits[0]) >= 0 && digits == [digits[0]] + digits[1..];
        LetterIsClean(c, digits[0]);
        SpellsClean(loose[1..], digits[1..]);
      }
    }
  }

  lemma LetterIsClean(c: char, d: char)
    requires SameLetter(c, d) && IndexOf(d) >= 0
    ensures CleanChar(c) == [d]
  {
    if c == d {
      DigitIsClean(d);
    } else {
      var k: nat :| k < 26 && c == LOWER[k] && d == UPPER[k];
      SmallLetters(k);
      CleanOne(c);
    }
  }

  // ----- the two are inverse -----

  lemma DigitIsClean(c: char)
    requires IndexOf(c) >= 0
    ensures CleanChar(c) == [c]
  {
  }

  lemma {:induction false} CleanKeepsDigits(text: string)
    requires AllDigits(text)
    ensures Clean(text) == text
  {
    if text != "" {
      assert IndexOf(text[0]) >= 0;
      DigitIsClean(text[0]);
      CleanKeepsDigits(text[1..]);
      assert text == [text[0]] + text[1..];
    }
  }

  lemma OctetsInjective(s: Octets, t: Octets)
    requires Groups(s, 8) == Groups(t, 8)
    ensures s == t
  {
    Powers();
    GroupsInjective(s, t, 8);
  }

  lemma PrefixOfEncoding(octets: Octets, text: string, out: Octets)
    requires IsEncoding(octets, text) && IsDecoding(text, out)
    ensures out == octets
  {
    hide Groups, Zeroes, LowBits;
    GroupsLength(octets, 8);
    GroupsLength(out, 8);
    PrefixIs(Groups(out, 8), Groups(octets, 8), Zeroes(5 * |text| - 8 * |octets|));
    OctetsInjective(out, octets);
  }

  /** `Decode` undoes `Encode`, for every byte sequence: whatever satisfies its contract
      on the encoded text is the input. */
  lemma RoundTrip(octets: Octets, text: string, r: DecodeResult)
    requires IsEncoding(octets, text)
    requires r.Decoded? <==> AllDigits(Clean(text))
    requires r.Decoded? ==> IsDecoding(Clean(text), r.octets)
    ensures r == Decoded(octets)
  {
    CleanKeepsDigits(text);
    PrefixOfEncoding(octets, text, r.octets);
  }

  /** So it does when the text was typed in small letters, in groups, or padded. */
  lemma LooseRoundTrip(octets: Octets, text: string, loose: string, r: DecodeResult)
    requires IsEncoding(octets, text) && Spells(loose, text)
    requires r.Decoded? <==> AllDigits(Clean(loose))
    requires r.Decoded? ==> IsDecoding(Clean(loose), r.octets)
    ensures r == Decoded(octets)
  {
    SpellsClean(loose, text);
    PrefixOfEncoding(octets, text, r.octets);
  }

  /** Byte strings have one encoding. */
  lemma EncodingUnique(octets: Octets, s: string, t: string)
    requires IsEncoding(octets, s) && IsEncoding(octets, t)
    ensures s == t
  {
    Powers();
    GroupsInjective(Values(s), Values(t), 5);
    ValuesInjective(s, t);
  }

  /** Fewer than five bits are left over after the last whole byte, all of them zero. */
  ghost predicate CanonicalTail(digits: string) {
    AllDigits(digits) &&
    var whole, bits := 8 * (5 * |digits| / 8), Groups(Values(digits), 5);
    && whole <= |bits| < whole + 5
    && bits == bits[..whole] + Zeroes(|bits| - whole)
  }

  /** The other way round: encoding what was decoded gives the digits back exactly when
      their tail is canonical. */
  lemma ReencodeIff(digits: string, octets: Octets, back: string)
    requires IsDecoding(digits, octets) && IsEncoding(octets, back)
    ensures back == digits <==> CanonicalTail(digits)
  {
    var m := |digits|;
    DecodedPrefix(digits, octets);
    if |back| == m {
      var g, z := Groups(octets, 8), Zeroes(5 * m - 8 * |octets|);
      if CanonicalTail(digits) {
        SameDigits(digits, back);
      }
    }
  }

  lemma DecodedPrefix(digits: string, octets: Octets)
    requires IsDecoding(digits, octets)
    ensures |Groups(Values(digits), 5)| == 5 * |digits|
    ensures Groups(Values(digits), 5)[..8 * (5 * |digits| / 8)] == Groups(octets, 8)
  {
    GroupsLength(Values(digits), 5);
    GroupsLength(octets, 8);
    var bits, whole := Groups(Values(digits), 5), 8 * |octets|;
    assert bits == bits[..whole] + bits[whole..];
    PrefixIs(Groups(octets, 8), bits[..whole], bits[whole..]);
  }

  lemma SameDigits(s: string, t: string)
    requires AllDigits(s) && AllDigits(t) && Groups(Values(s), 5) == Groups(Values(t), 5)
    ensures s == t
  {
    Powers();
    GroupsInjective(Values(s), Values(t), 5);
    ValuesInjective(s, t);
  }
}
