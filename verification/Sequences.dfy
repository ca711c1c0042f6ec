/** Sequences without repetition, and how many elements they can have. */
module Sequences {
  predicate Distinct<T(==)>(ks: seq<T>) {
    forall i, j :: 0 <= i < j < |ks| ==> ks[i] != ks[j]
  }

  lemma {:induction false} Pigeonhole<T>(ks: seq<T>, ls: seq<T>)
    requires Distinct(ks) && forall k :: k in ks ==> k in ls
    ensures |ks| <= |ls|
  {
    if ks != [] {
      var n := |ks| - 1;
      assert ks[n] in ls;
      var i :| 0 <= i < |ls| && ls[i] == ks[n];
      var ls' := ls[..i] + ls[i + 1..];
      forall k | k in ks[..n]
        ensures k in ls'
      {
        assert k in ks && k in ls;
        var j :| 0 <= j < |ls| && ls[j] == k;
        assert j < i ==> ls'[j] == k;
        assert j > i ==> ls'[j - 1] == k;
      }
      Pigeonhole(ks[..n], ls');
    }
  }

  lemma DistinctSnoc<T>(ks: seq<T>, k: T)
    requires Distinct(ks) && k !in ks
    ensures Distinct(ks + [k])
  {}

  lemma DistinctSuffix<T>(ks: seq<T>, n: nat)
    requires Distinct(ks) && n <= |ks|
    ensures Distinct(ks[n..])
  {}

  /** Distinct numbers no two of which are more than w apart: at most w + 1 of them. */
  predicate Spread(ks: seq<nat>, w: nat) {
    forall i, j :: 0 <= i < |ks| && 0 <= j < |ks| ==> ks[j] - ks[i] <= w
  }

  lemma SpreadBound(ks: seq<nat>, w: nat)
    requires Distinct(ks) && Spread(ks, w)
    ensures |ks| <= w + 1
  {
    if ks != [] {
      var i := LeastAt(ks);
      var range := seq(w + 1, k => ks[i] + k);
      forall k | k in ks
        ensures k in range
      {
        var j :| 0 <= j < |ks| && ks[j] == k;
        assert range[k - ks[i]] == k;
      }
      Pigeonhole(ks, range);
    }
  }

  /** Where the least number is. */
  function LeastAt(ks: seq<nat>): (i: nat)
    requires ks != []
    ensures i < |ks| && forall j :: 0 <= j < |ks| ==> ks[i] <= ks[j]
  {
    var n := |ks| - 1;
    if n == 0 then 0
    else
      var i := LeastAt(ks[..n]);
      assert forall j :: 0 <= j < n ==> ks[..n][j] == ks[j];
      if ks[n] < ks[i] then n else i
  }
}
