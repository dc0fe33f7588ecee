/** Sums over sequences of integers, tables of counts by code, and sizes of sets. */
module Sums {
  import opened Bytes

  /** The unflushed hits of one code. */
  function DirtyOf(d: map<bytes, int>, c: bytes): int {
    if c in d then d[c] else 0
  }

  function Dirtied(d: map<bytes, int>, c: bytes): map<bytes, int> {
    d[c := DirtyOf(d, c) + 1]
  }

  function Sum(s: seq<int>): int {
    if s == [] then 0 else Sum(s[..|s| - 1]) + s[|s| - 1]
  }

  lemma {:induction false} SumUpdate(s: seq<int>, m: nat, v: int)
    requires m < |s|
    ensures Sum(s[m := v]) == Sum(s) - s[m] + v
  {
    var k := |s| - 1;
    if m < k {
      assert s[m := v][..k] == s[..k][m := v];
      SumUpdate(s[..k], m, v);
    } else {
      assert s[m := v][..k] == s[..k];
    }
  }

  lemma SumOne(s: seq<int>, s': seq<int>, m: nat, delta: int)
    requires |s'| == |s| && m < |s| && s'[m] == s[m] + delta
    requires forall p :: 0 <= p < |s| && p != m ==> s'[p] == s[p]
    ensures Sum(s') == Sum(s) + delta
  {
    assert s' == s[m := s'[m]];
    SumUpdate(s, m, s'[m]);
  }

  lemma {:induction false} SumZero(s: seq<int>)
    requires forall p :: 0 <= p < |s| ==> s[p] == 0
    ensures Sum(s) == 0
  {
    if s != [] {
      SumZero(s[..|s| - 1]);
    }
  }

  lemma SubsetSize<T>(a: set<T>, b: set<T>)
    requires a <= b
    ensures |a| <= |b|
  {
    assert b == a + (b - a);
  }
}
