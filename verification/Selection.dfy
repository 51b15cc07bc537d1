/** Streaming argmax: the first candidate with the greatest score wins. */
module Selection {
  import opened Sequences

  /** Index `i` holds the first maximum of `scores`. */
  ghost predicate IsFirstMax(scores: seq<real>, i: int) {
    && 0 <= i < |scores|
    && (forall k :: 0 <= k < |scores| ==> scores[k] <= scores[i])
    && (forall k :: 0 <= k < i ==> scores[k] < scores[i])
  }

  lemma FirstMaxIsUnique(scores: seq<real>, i: int, j: int)
    requires IsFirstMax(scores, i) && IsFirstMax(scores, j)
    ensures i == j
  {
    assert scores[i] == scores[j];
  }

  /** The index of the first maximum. */
  function FirstMax(scores: seq<real>): (i: nat)
    requires scores != []
    ensures IsFirstMax(scores, i)
  {
    if |scores| == 1 then 0
    else
      var best := FirstMax(scores[..|scores| - 1]);
      if scores[|scores| - 1] > scores[best] then |scores| - 1 else best
  }

  /** Scanning one more score: it takes over exactly when it is greater. */
  lemma FirstMaxPush(scores: seq<real>, best: int, x: real)
    requires IsFirstMax(scores, best)
    ensures IsFirstMax(scores + [x], if x > scores[best] then |scores| else best)
  {
  }

  /** The same over the prefixes of a list. */
  lemma FirstMaxExtends(scores: seq<real>, k: nat, best: int)
    requires k < |scores|
    ensures IsFirstMax(scores[..1], 0)
    ensures k > 0 && IsFirstMax(scores[..k], best) ==>
              0 <= best < k && IsFirstMax(scores[..k + 1], if scores[k] > scores[best] then k else best)
  {
    if k > 0 && IsFirstMax(scores[..k], best) {
      FirstMaxPush(scores[..k], best, scores[k]);
      assert scores[..k + 1] == scores[..k] + [scores[k]];
    }
  }

  // ---------------------------------------------------------------- leaving out those tried before

  /** Index `i` holds the first maximum of the scores whose indices are not in `out`. */
  ghost predicate IsBestOutside(scores: seq<real>, out: seq<nat>, i: int) {
    && 0 <= i < |scores| && i !in out
    && (forall k :: 0 <= k < |scores| && k !in out ==> scores[k] <= scores[i])
    && (forall k :: 0 <= k < i && k !in out ==> scores[k] < scores[i])
  }

  lemma BestOutsideIsUnique(scores: seq<real>, out: seq<nat>, i: int, j: int)
    requires IsBestOutside(scores, out, i) && IsBestOutside(scores, out, j)
    ensures i == j
  {
    assert scores[i] == scores[j];
  }

  /** Scanning one more score: one tried before is passed over, another takes over if it is the first or greater. */
  lemma BestOutsideExtends(scores: seq<real>, out: seq<nat>, k: nat, best: int)
    requires k < |scores|
    ensures k !in out && (forall i :: 0 <= i < k ==> i in out) ==> IsBestOutside(scores[..k + 1], out, k)
    ensures IsBestOutside(scores[..k], out, best) ==>
              && 0 <= best < k
              && IsBestOutside(scores[..k + 1], out, if k !in out && scores[k] > scores[best] then k else best)
  {
    var before, after := scores[..k], scores[..k + 1];
    assert forall i :: 0 <= i < k ==> before[i] == after[i] == scores[i];
    assert after[k] == scores[k];
  }

  function BestOutside(scores: seq<real>, out: seq<nat>): (i: nat)
    requires exists k :: 0 <= k < |scores| && k !in out
    ensures IsBestOutside(scores, out, i)
  {
    var n := |scores| - 1;
    if n in out then
      assert forall k :: 0 <= k < n ==> scores[..n][k] == scores[k];
      BestOutside(scores[..n], out)
    else if forall k :: 0 <= k < n ==> k in out then n
    else
      var best := BestOutside(scores[..n], out);
      if scores[n] > scores[best] then n else best
  }

  function Range(n: nat): (r: set<nat>)
    ensures |r| == n && forall k: nat :: k in r <==> k < n
  {
    if n == 0 then {} else Range(n - 1) + {n - 1}
  }

  /** Fewer entries than indices leave one out. */
  lemma SomeIndexLeft(n: nat, out: seq<nat>)
    requires |out| < n
    ensures exists k :: 0 <= k < n && k !in out
  {
    SetIsNoLarger(out);
    var all, gone := Range(n), ToSet(out);
    if all <= gone {
      SubsetSize(all, gone);
      assert false;
    }
    var k :| k in all && k !in gone;
    assert 0 <= k < n && k !in out;
  }
}
