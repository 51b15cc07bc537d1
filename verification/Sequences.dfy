/** Bounded windows over sequences, and the sizes of sets. */
module Sequences {

  function Suffix<T>(s: seq<T>, n: nat): (r: seq<T>)
    ensures |r| == if |s| < n then |s| else n
    ensures forall k :: 0 <= k < |r| ==> r[k] == s[|s| - |r| + k]
  {
    if |s| <= n then s else s[|s| - n..]
  }

  lemma SuffixPush<T>(s: seq<T>, n: nat, x: T)
    requires n >= 1
    ensures Suffix(s + [x], n) == (if |s| < n then s else Suffix(s, n)[1..]) + [x]
  {
    var r := Suffix(s + [x], n);
    assert r[|r| - 1] == (s + [x])[|s|] == x;
  }

  ghost predicate Distinct<T(!new)>(s: seq<T>) {
    forall i, j :: 0 <= i < j < |s| ==> s[i] != s[j]
  }

  lemma PushStaysDistinct<T(!new)>(s: seq<T>, n: nat, x: T)
    requires n >= 1
    requires Distinct(Suffix(s, n)) && x !in Suffix(s, n)
    ensures Distinct(Suffix(s + [x], n))
  {
    SuffixPush(s, n, x);
  }

  lemma SubsetSize<T>(a: set<T>, b: set<T>)
    requires a <= b
    ensures |a| <= |b|
  {
    assert b == a + (b - a);
  }

  ghost function ToSet<T(!new)>(s: seq<T>): set<T> {
    set x | x in s
  }

  lemma {:induction false} DistinctSize<T(!new)>(s: seq<T>)
    requires Distinct(s)
    ensures |ToSet(s)| == |s|
  {
    if s != [] {
      var front := s[..|s| - 1];
      DistinctSize(front);
      assert ToSet(s) == ToSet(front) + {s[|s| - 1]};
      assert s[|s| - 1] !in front;
    }
  }

  lemma {:induction false} SetIsNoLarger<T(!new)>(s: seq<T>)
    ensures |ToSet(s)| <= |s|
  {
    if s != [] {
      var front := s[..|s| - 1];
      SetIsNoLarger(front);
      assert ToSet(s) == ToSet(front) + {s[|s| - 1]};
    }
  }
}
