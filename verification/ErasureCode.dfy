/** The Reed-Solomon library as a parameter. Only its contract matters here: encoding keeps
    the width of the shards, and any `ds` shards of a codeword determine all of it. */
module ErasureCode {
  import opened Bytes
  import opened Wrappers

  datatype Code = Code(ds: nat, ps: nat,
                       encode: seq<Data> -> seq<Data>,
                       reconstruct: seq<Option<Data>> -> Option<seq<Data>>)

  ghost predicate OfWidth(shards: seq<Data>, w: nat) {
    forall i | 0 <= i < |shards| :: |shards[i]| == w
  }

  /** `ds` data shards of one width followed by their parity. */
  ghost predicate Codeword(code: Code, shards: seq<Data>, w: nat) {
    && |shards| == code.ds + code.ps && OfWidth(shards, w)
    && shards[code.ds..] == code.encode(shards[..code.ds])
  }

  function Present(pattern: seq<Option<Data>>): nat {
    if pattern == [] then 0
    else Present(pattern[..|pattern| - 1]) + if pattern[|pattern| - 1].Some? then 1 else 0
  }

  /** What is left of a codeword. */
  ghost predicate Remains(pattern: seq<Option<Data>>, shards: seq<Data>) {
    |pattern| == |shards| && forall i | 0 <= i < |shards| :: pattern[i].Some? ==> pattern[i].value == shards[i]
  }

  ghost predicate EncodesWidth(code: Code) {
    forall data: seq<Data>, w: nat | |data| == code.ds && OfWidth(data, w) ::
      |code.encode(data)| == code.ps && OfWidth(code.encode(data), w)
  }

  /** `ds` shards are enough, fewer are refused. */
  ghost predicate Reconstructs(code: Code) {
    && (forall pattern | Present(pattern) < code.ds :: code.reconstruct(pattern) == None)
    && (forall pattern, shards, w: nat | w > 0 && Codeword(code, shards, w) && Remains(pattern, shards) &&
          Present(pattern) >= code.ds :: code.reconstruct(pattern) == Some(shards))
  }

  /** The word has the first `ds` shards of the pattern. */
  ghost predicate Through(pattern: seq<Option<Data>>, word: seq<Data>, ds: nat) {
    && |word| == |pattern|
    && forall i | 0 <= i < |word| && pattern[i].Some? && Present(pattern[..i]) < ds :: pattern[i].value == word[i]
  }

  /** The pattern with what is missing taken from the word; what is there stays. */
  function Completed(pattern: seq<Option<Data>>, word: seq<Data>): (r: seq<Data>)
    requires |word| == |pattern|
    ensures |r| == |pattern|
    ensures forall i | 0 <= i < |r| :: r[i] == if pattern[i].Some? then pattern[i].value else word[i]
  {
    seq(|pattern|, i requires 0 <= i < |pattern| => if pattern[i].Some? then pattern[i].value else word[i])
  }

  ghost predicate AllOfWidth(pattern: seq<Option<Data>>, w: nat) {
    forall i | 0 <= i < |pattern| && pattern[i].Some? :: |pattern[i].value| == w
  }

  ghost predicate CompletesTo(code: Code, pattern: seq<Option<Data>>, w: nat, word: seq<Data>) {
    && Codeword(code, word, w) && Through(pattern, word, code.ds)
    && code.reconstruct(pattern) == Some(Completed(pattern, word))
  }

  /** The decoder looks at the first `ds` shards there are, and does not check the others. */
  ghost predicate Completes(code: Code) {
    forall pattern, w: nat | w > 0 && |pattern| == code.ds + code.ps && AllOfWidth(pattern, w) &&
        Present(pattern) >= code.ds ::
      exists word :: CompletesTo(code, pattern, w, word)
  }

  /** The contract of the library. */
  ghost predicate Lawful(code: Code) {
    code.ds > 0 && EncodesWidth(code) && Reconstructs(code) && Completes(code)
  }

  /** What the first `ds` shards are of. */
  lemma CompletedWord(code: Code, pattern: seq<Option<Data>>, w: nat) returns (word: seq<Data>)
    requires Lawful(code) && w > 0 && |pattern| == code.ds + code.ps && AllOfWidth(pattern, w)
    requires Present(pattern) >= code.ds
    ensures CompletesTo(code, pattern, w, word)
  {
    word :| CompletesTo(code, pattern, w, word);
  }

  /** The first `ds` shards of a pattern. */
  ghost function Head(pattern: seq<Option<Data>>, ds: nat): (r: seq<Option<Data>>)
    ensures |r| == |pattern|
    ensures forall i | 0 <= i < |r| ::
              r[i] == if pattern[i].Some? && Present(pattern[..i]) < ds then pattern[i] else None
  {
    seq(|pattern|, i requires 0 <= i < |pattern| =>
      if pattern[i].Some? && Present(pattern[..i]) < ds then pattern[i] else None)
  }

  lemma {:induction false} HeadPresent(pattern: seq<Option<Data>>, ds: nat)
    ensures Present(Head(pattern, ds)) == if Present(pattern) < ds then Present(pattern) else ds
  {
    if pattern != [] {
      var init := pattern[..|pattern| - 1];
      HeadPresent(init, ds);
      assert forall i | 0 <= i < |init| :: pattern[..i] == init[..i];
      assert Head(pattern, ds)[..|pattern| - 1] == Head(init, ds);
    }
  }

  /** One codeword goes through the first `ds` shards. */
  lemma OneWordThrough(code: Code, pattern: seq<Option<Data>>, a: seq<Data>, b: seq<Data>, w: nat)
    requires Lawful(code) && w > 0 && Codeword(code, a, w) && Codeword(code, b, w) && Present(pattern) >= code.ds
    requires Through(pattern, a, code.ds) && Through(pattern, b, code.ds)
    ensures a == b
  {
    HeadPresent(pattern, code.ds);
    AnyDataShardsDetermine(code, a, b, Head(pattern, code.ds), w);
  }

  lemma TooFewShards(code: Code, pattern: seq<Option<Data>>)
    requires Lawful(code) && Present(pattern) < code.ds
    ensures code.reconstruct(pattern) == None
  {
  }

  /** The contract gives the MDS property: codewords that agree in `ds` places are equal. */
  lemma AnyDataShardsDetermine(code: Code, a: seq<Data>, b: seq<Data>, pattern: seq<Option<Data>>, w: nat)
    requires Lawful(code) && w > 0 && Codeword(code, a, w) && Codeword(code, b, w)
    requires Remains(pattern, a) && Remains(pattern, b) && Present(pattern) >= code.ds
    ensures a == b
  {
    assert code.reconstruct(pattern) == Some(a);
  }

  /** The contract can be met: one data shard and its copy. */
  function Mirror(): Code { Code(1, 1, MirrorEncode, MirrorReconstruct) }

  function MirrorEncode(data: seq<Data>): seq<Data> { if |data| == 1 then data else [[]] }

  function Or(s: Option<Data>, d: Data): Data { if s.Some? then s.value else d }

  function MirrorReconstruct(pattern: seq<Option<Data>>): Option<seq<Data>> {
    if |pattern| == 2 && pattern[0].Some? then Some([pattern[0].value, Or(pattern[1], pattern[0].value)])
    else if |pattern| == 2 && pattern[1].Some? then Some([pattern[1].value, pattern[1].value])
    else None
  }

  lemma PresentOfTwo(pattern: seq<Option<Data>>)
    requires |pattern| == 2
    ensures Present(pattern[..0]) == 0 && Present(pattern[..1]) == if pattern[0].Some? then 1 else 0
    ensures Present(pattern) == (if pattern[0].Some? then 1 else 0) + (if pattern[1].Some? then 1 else 0)
  {
    assert pattern[..1] == [pattern[0]] && [pattern[0]][..0] == [];
  }

  lemma MirrorIsLawful()
    ensures Lawful(Mirror())
  {
    var code := Mirror();
    forall pattern: seq<Option<Data>> | |pattern| == 2
      ensures Present(pattern) > 0 <==> code.reconstruct(pattern).Some?
    {
      PresentOfTwo(pattern);
    }
    forall pattern: seq<Option<Data>>, shards, w: nat
      | w > 0 && Codeword(code, shards, w) && Remains(pattern, shards) && Present(pattern) >= 1
      ensures code.reconstruct(pattern) == Some(shards)
    {
      PresentOfTwo(pattern);
      assert shards[..1] == [shards[0]] && shards[1..][0] == shards[1];
      assert shards == [shards[0], shards[0]];
    }
    forall pattern: seq<Option<Data>>, w: nat
      | w > 0 && |pattern| == 2 && AllOfWidth(pattern, w) && Present(pattern) >= 1
      ensures exists word :: CompletesTo(code, pattern, w, word)
    {
      MirrorCompletes(pattern, w);
    }
  }

  lemma MirrorWord(d: Data)
    ensures Codeword(Mirror(), [d, d], |d|)
  {
    assert [d, d][..1] == [d] && [d, d][1..] == [d];
  }

  lemma MirrorCompletes(pattern: seq<Option<Data>>, w: nat)
    requires |pattern| == 2 && AllOfWidth(pattern, w) && Present(pattern) >= 1
    ensures exists word :: CompletesTo(Mirror(), pattern, w, word)
  {
    hide Codeword, MirrorEncode;
    PresentOfTwo(pattern);
    var d := if pattern[0].Some? then pattern[0].value else pattern[1].value;
    var word := [d, d];
    MirrorWord(d);
    assert MirrorReconstruct(pattern) == Some([d, Or(pattern[1], d)]);
    assert Completed(pattern, word) == [d, Or(pattern[1], d)];
    assert CompletesTo(Mirror(), pattern, w, word);
  }

  /** Two data shards and their exclusive or. */
  function Xor(): Code { Code(2, 1, XorEncode, XorReconstruct) }

  function XorData(a: Data, b: Data): (r: Data)
    ensures |a| == |b| ==> |r| == |a|
  {
    seq(if |a| < |b| then |a| else |b|, i requires 0 <= i < |a| && i < |b| => a[i] ^ b[i])
  }

  function XorEncode(data: seq<Data>): seq<Data> { if |data| == 2 then [XorData(data[0], data[1])] else [[]] }

  function XorReconstruct(pattern: seq<Option<Data>>): Option<seq<Data>> {
    if |pattern| != 3 then None
    else match (pattern[0], pattern[1], pattern[2])
      case (Some(a), Some(b), c) => Some([a, b, Or(c, XorData(a, b))])
      case (Some(a), None, Some(c)) => Some([a, XorData(a, c), c])
      case (None, Some(b), Some(c)) => Some([XorData(b, c), b, c])
      case _ => None
  }

  lemma XorUndoes(a: Data, b: Data)
    requires |a| == |b|
    ensures XorData(a, XorData(a, b)) == b && XorData(b, XorData(a, b)) == a
  {
  }

  lemma XorIsLawful()
    ensures Lawful(Xor())
  {
    var code := Xor();
    forall pattern: seq<Option<Data>> | |pattern| == 3
      ensures Present(pattern) >= 2 <==> code.reconstruct(pattern).Some?
    {
      PresentOfThree(pattern);
    }
    forall pattern: seq<Option<Data>>, shards, w: nat
      | w > 0 && Codeword(code, shards, w) && Remains(pattern, shards) && Present(pattern) >= 2
      ensures code.reconstruct(pattern) == Some(shards)
    {
      XorReconstructs(pattern, shards, w);
    }
    forall pattern: seq<Option<Data>>, w: nat
      | w > 0 && |pattern| == 3 && AllOfWidth(pattern, w) && Present(pattern) >= 2
      ensures exists word :: CompletesTo(code, pattern, w, word)
    {
      XorCompletes(pattern, w);
    }
  }

  lemma XorCompletes(pattern: seq<Option<Data>>, w: nat)
    requires |pattern| == 3 && AllOfWidth(pattern, w) && Present(pattern) >= 2
    ensures exists word :: CompletesTo(Xor(), pattern, w, word)
  {
    hide Present, XorData, XorReconstruct, Through, Codeword, XorEncode;
    PresentOfThree(pattern);
    var a := if pattern[0].Some? then pattern[0].value else XorData(pattern[1].value, pattern[2].value);
    var b := if pattern[1].Some? then pattern[1].value else XorData(a, pattern[2].value);
    var word := [a, b, XorData(a, b)];
    XorFills(pattern, a, b);
    XorThrough(pattern, a, b);
    XorWord(a, b, w);
    assert Completed(pattern, word) == [a, b, Or(pattern[2], XorData(a, b))];
    assert CompletesTo(Xor(), pattern, w, word);
  }

  lemma XorFills(pattern: seq<Option<Data>>, a: Data, b: Data)
    requires |pattern| == 3 && |a| == |b| && (pattern[2].Some? ==> |pattern[2].value| == |a|)
    requires if pattern[0].Some? then a == pattern[0].value && (pattern[1].None? ==> pattern[2].Some?)
             else pattern[1].Some? && pattern[2].Some? && a == XorData(b, pattern[2].value)
    requires if pattern[1].Some? then b == pattern[1].value else pattern[2].Some? && b == XorData(a, pattern[2].value)
    ensures XorReconstruct(pattern) == Some([a, b, Or(pattern[2], XorData(a, b))])
    ensures pattern[0].None? || pattern[1].None? ==> XorData(a, b) == pattern[2].value
  {
    if pattern[0].None? { XorUndoes(b, pattern[2].value); }
    if pattern[0].Some? && pattern[1].None? { XorUndoes(a, pattern[2].value); }
    if pattern[0].None? { XorSwaps(a, b); }
  }

  lemma XorWord(a: Data, b: Data, w: nat)
    requires |a| == |b| == w
    ensures Codeword(Xor(), [a, b, XorData(a, b)], w)
  {
    var word := [a, b, XorData(a, b)];
    assert word[..2] == [a, b] && word[2..] == [XorData(a, b)];
  }

  lemma XorSwaps(a: Data, b: Data)
    ensures XorData(a, b) == XorData(b, a)
  {
  }

  lemma XorThrough(pattern: seq<Option<Data>>, a: Data, b: Data)
    requires |pattern| == 3 && (pattern[0].Some? ==> a == pattern[0].value)
    requires pattern[1].Some? ==> b == pattern[1].value
    requires pattern[2].Some? && (pattern[0].None? || pattern[1].None?) ==> XorData(a, b) == pattern[2].value
    ensures Through(pattern, [a, b, XorData(a, b)], 2)
  {
    PresentOfThree(pattern);
  }

  lemma PresentOfThree(pattern: seq<Option<Data>>)
    requires |pattern| == 3
    ensures Present(pattern[..0]) == 0 && Present(pattern[..1]) == if pattern[0].Some? then 1 else 0
    ensures Present(pattern[..2]) == (if pattern[0].Some? then 1 else 0) + (if pattern[1].Some? then 1 else 0)
    ensures Present(pattern) == Present(pattern[..2]) + if pattern[2].Some? then 1 else 0
  {
    assert pattern[..1] == pattern[..2][..1];
    var two := pattern[..2];
    assert two[..1] == [pattern[0]] && [pattern[0]][..0] == [];
    assert Present(two[..1]) == if pattern[0].Some? then 1 else 0;
    assert Present(two) == Present(two[..1]) + if pattern[1].Some? then 1 else 0;
  }

  lemma XorReconstructs(pattern: seq<Option<Data>>, shards: seq<Data>, w: nat)
    requires Codeword(Xor(), shards, w) && Remains(pattern, shards) && Present(pattern) >= 2
    ensures Xor().reconstruct(pattern) == Some(shards)
  {
    PresentOfThree(pattern);
    var a, b := shards[0], shards[1];
    assert shards[2] == shards[2..][0] == XorData(shards[..2][0], shards[..2][1]);
    assert shards == [a, b, XorData(a, b)];
    XorUndoes(a, b);
  }
}
