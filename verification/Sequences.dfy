/** Lists of ids as queries return them. */
module Sequences {

  predicate Distinct<T(==)>(s: seq<T>) { forall i, j | 0 <= i < j < |s| :: s[i] != s[j] }

  lemma HasMember<T>(s: seq<T>)
    ensures s == [] || exists x :: x in s
  {
    if s != [] { assert s[0] in s; }
  }

  lemma DistinctAppend<T>(s: seq<T>, t: seq<T>)
    requires Distinct(s) && Distinct(t) && forall x | x in s :: x !in t
    ensures Distinct(s + t)
  {
    var both := s + t;
    forall i, j | 0 <= i < j < |both| ensures both[i] != both[j] {
      if i < |s| { assert both[i] in s; }
      if j >= |s| { assert both[j] in t; }
    }
  }

  lemma DistinctBatches<T>(s: seq<T>, a: nat, b: nat, x: T)
    requires Distinct(s) && a <= b <= |s| && x in s[..a]
    ensures x !in s[a..b]
  {
    var batch := s[a..b];
    var i :| 0 <= i < a && s[i] == x;
    forall j | 0 <= j < |batch| ensures batch[j] != x { assert batch[j] == s[a + j]; }
  }

  function Members(s: seq<nat>): set<nat> { set x | x in s }

  lemma MembersSnoc(s: seq<nat>, i: nat)
    requires i < |s|
    ensures Members(s[..i + 1]) == Members(s[..i]) + {s[i]}
  {
    assert s[..i + 1] == s[..i] + [s[i]];
  }

  lemma {:induction false} DistinctSize(s: seq<nat>, t: set<nat>)
    requires Distinct(s) && Members(s) <= t
    ensures |s| <= |t|
    ensures Members(s) == t ==> |s| == |t|
    decreases |s|
  {
    if s != [] {
      var n := |s| - 1;
      MembersSnoc(s, n);
      assert s[..n + 1] == s;
      assert s[n] in t;
      assert Members(s[..n]) <= t - {s[n]};
      DistinctSize(s[..n], t - {s[n]});
    }
  }

  lemma DistinctPrefix<T>(s: seq<T>, i: nat)
    requires Distinct(s) && i <= |s|
    ensures Distinct(s[..i]) && (i < |s| ==> s[i] !in s[..i])
  {
    if i < |s| {
      forall j | 0 <= j < i ensures s[..i][j] != s[i] { }
    }
  }

  lemma Snoc(s: seq<nat>, x: nat)
    requires Distinct(s) && x !in s
    ensures Distinct(s + [x]) && Members(s + [x]) == Members(s) + {x}
  {
    DistinctAppend(s, [x]);
  }

  lemma SameMembers(s: seq<nat>, t: seq<nat>)
    requires forall x :: x in s <==> x in Members(t)
    ensures s == [] <==> t == []
    ensures Members(s) == Members(t)
  {
    HasMember(s);
    if t != [] { assert t[0] in Members(t); }
  }
}
