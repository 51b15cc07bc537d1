/** The duration histogram: one counter per bucket on the writing side, cumulative rows on the reading side. */
module Histogram {

  const BUCKETS: seq<nat> := [1, 5, 10, 25, 50, 100, 250, 500, 1000, 2500, 5000, 10_000, 30_000, 60_000]
  const MAX_MS: nat := 60_000
  const U64_MAX: nat := 0xFFFF_FFFF_FFFF_FFFF

  function Clip(ms: nat): nat {
    if ms <= MAX_MS then ms else MAX_MS
  }

  function SaturatingAdd(a: nat, b: nat): nat {
    if a + b <= U64_MAX then a + b else U64_MAX
  }

  /** The first bucket that takes the duration; the clipping guarantees there is one. */
  function BucketFrom(ms: nat, from: nat): (i: nat)
    requires from < |BUCKETS|
    ensures from <= i < |BUCKETS| && Clip(ms) <= BUCKETS[i]
    ensures forall j :: from <= j < i ==> BUCKETS[j] < Clip(ms)
    decreases |BUCKETS| - from
  {
    if Clip(ms) <= BUCKETS[from] || from == |BUCKETS| - 1 then from else BucketFrom(ms, from + 1)
  }

  function BucketOf(ms: nat): nat {
    BucketFrom(ms, 0)
  }

  lemma BucketsIncrease(i: nat, j: nat)
    requires i <= j < |BUCKETS|
    ensures BUCKETS[i] <= BUCKETS[j]
  {
  }

  lemma BucketAtMostIff(ms: nat, i: nat)
    requires i < |BUCKETS|
    ensures BucketOf(ms) <= i <==> Clip(ms) <= BUCKETS[i]
  {
    hide BUCKETS;
    if BucketOf(ms) <= i {
      BucketsIncrease(BucketOf(ms), i);
    }
  }

  // ---------------------------------------------------------------- what the numbers are to mean

  /** How many observations fall into bucket `i` alone. */
  function InBucket(xs: seq<nat>, i: nat): nat {
    if xs == [] then 0
    else InBucket(xs[..|xs| - 1], i) + if BucketOf(xs[|xs| - 1]) == i then 1 else 0
  }

  /** How many observations, clipped, are at most `bound`. */
  function AtMost(xs: seq<nat>, bound: nat): (n: nat)
    ensures n <= |xs|
  {
    if xs == [] then 0
    else AtMost(xs[..|xs| - 1], bound) + if Clip(xs[|xs| - 1]) <= bound then 1 else 0
  }

  function Total(xs: seq<nat>): nat {
    if xs == [] then 0 else Total(xs[..|xs| - 1]) + Clip(xs[|xs| - 1])
  }

  function Saturated(n: nat): nat {
    if n <= U64_MAX then n else U64_MAX
  }

  /** The buckets up to `i` hold exactly the observations of at most its bound. */
  function UpTo(xs: seq<nat>, n: nat): nat {
    if n == 0 then 0 else UpTo(xs, n - 1) + InBucket(xs, n - 1)
  }

  lemma {:induction false} UpToPush(xs: seq<nat>, n: nat)
    requires xs != []
    ensures UpTo(xs, n) == UpTo(xs[..|xs| - 1], n) + if BucketOf(xs[|xs| - 1]) < n then 1 else 0
  {
    hide BucketOf;
    if n > 0 {
      UpToPush(xs, n - 1);
    }
  }

  lemma {:induction false} UpToNothing(n: nat)
    ensures UpTo([], n) == 0
  {
    if n > 0 {
      UpToNothing(n - 1);
    }
  }

  lemma {:induction false} CumulativeIsAtMost(xs: seq<nat>, i: nat)
    requires i < |BUCKETS|
    ensures UpTo(xs, i + 1) == AtMost(xs, BUCKETS[i])
  {
    hide UpTo, BucketOf, BUCKETS;
    if xs == [] {
      UpToNothing(i + 1);
    } else {
      CumulativeIsAtMost(xs[..|xs| - 1], i);
      UpToPush(xs, i + 1);
      BucketAtMostIff(xs[|xs| - 1], i);
    }
  }

  /** No clipped duration is above the last bound. */
  lemma {:induction false} LastRowIsAll(xs: seq<nat>)
    ensures AtMost(xs, BUCKETS[|BUCKETS| - 1]) == |xs|
  {
    if xs != [] {
      LastRowIsAll(xs[..|xs| - 1]);
    }
  }

  // ---------------------------------------------------------------- in terms of the durations themselves

  /** How many observations took at most `bound` milliseconds. */
  function Within(xs: seq<nat>, bound: nat): nat {
    if xs == [] then 0
    else Within(xs[..|xs| - 1], bound) + if xs[|xs| - 1] <= bound then 1 else 0
  }

  /** The sum of the observations, each counted up to one minute. */
  function SumUpToMinute(xs: seq<nat>): nat {
    if xs == [] then 0
    else SumUpToMinute(xs[..|xs| - 1]) + if xs[|xs| - 1] <= 60_000 then xs[|xs| - 1] else 60_000
  }

  /** Below the last bound the clipping makes no difference. */
  lemma {:induction false} AtMostIsWithin(xs: seq<nat>, bound: nat)
    requires bound < 60_000
    ensures AtMost(xs, bound) == Within(xs, bound)
  {
    if xs != [] {
      AtMostIsWithin(xs[..|xs| - 1], bound);
    }
  }

  lemma {:induction false} TotalIsSum(xs: seq<nat>)
    ensures Total(xs) == SumUpToMinute(xs)
  {
    if xs != [] {
      TotalIsSum(xs[..|xs| - 1]);
    }
  }

  lemma LastBound(i: nat)
    requires i < |BUCKETS|
    ensures BUCKETS[i] < 60_000 <==> i < |BUCKETS| - 1
  {
  }

  // ---------------------------------------------------------------- one thread at a time

  class DurationHistogram {
    const buckets: array<nat>
    var count: nat
    var sumMs: nat
    ghost var observed: seq<nat>

    ghost predicate Valid()
      reads this, buckets
    {
      && buckets.Length == |BUCKETS|
      && (forall i :: 0 <= i < |BUCKETS| ==> buckets[i] == InBucket(observed, i))
      && count == |observed| && sumMs == Saturated(Total(observed))
    }

    constructor ()
      ensures Valid() && fresh(buckets) && observed == []
    {
      buckets := new nat[|BUCKETS|](_ => 0);
      count, sumMs, observed := 0, 0, [];
    }

    method Observe(ms: nat)
      requires Valid()
      modifies this, buckets
      ensures Valid() && observed == old(observed) + [ms]
    {
      hide BUCKETS, Clip;
      var clipped := Clip(ms);
      var i := 0;
      while clipped > BUCKETS[i]
        invariant 0 <= i <= BucketOf(ms) < |BUCKETS|
        decreases |BUCKETS| - i
      {
        i := i + 1;
      }
      assert i == BucketOf(ms);
      hide BucketOf;
      buckets[i] := buckets[i] + 1;
      count := count + 1;
      sumMs := SaturatingAdd(sumMs, clipped);
      observed := observed + [ms];
      assert observed[..|observed| - 1] == old(observed);
    }

    /** Each row counts the observations up to its bound; the last row, the row `+Inf` and the count agree. */
    method Render() returns (rows: seq<nat>, inf: nat, sum: nat)
      requires Valid()
      ensures |rows| == |BUCKETS|
      ensures forall i :: 0 <= i < |BUCKETS| ==> rows[i] == AtMost(observed, BUCKETS[i])
      ensures rows[|BUCKETS| - 1] == inf == |observed|
      ensures sum == Saturated(Total(observed))
      ensures forall i :: 0 <= i < |BUCKETS| - 1 ==> rows[i] == Within(observed, BUCKETS[i])
      ensures sum == (if SumUpToMinute(observed) < 0x1_0000_0000_0000_0000 then SumUpToMinute(observed)
                      else 0xFFFF_FFFF_FFFF_FFFF)
    {
      assert |BUCKETS| == 14;
      forall i: nat | i < |BUCKETS| - 1
        ensures AtMost(observed, BUCKETS[i]) == Within(observed, BUCKETS[i])
      {
        LastBound(i);
        AtMostIsWithin(observed, BUCKETS[i]);
      }
      TotalIsSum(observed);
      hide BUCKETS;
      var cumulative: nat := 0;
      rows := [];
      for i := 0 to |BUCKETS|
        invariant |rows| == i && cumulative == UpTo(observed, i)
        invariant forall k :: 0 <= k < i ==> rows[k] == AtMost(observed, BUCKETS[k])
      {
        cumulative := cumulative + buckets[i];
        CumulativeIsAtMost(observed, i);
        rows := rows + [cumulative];
      }
      LastRowIsAll(observed);
      inf, sum := count, sumMs;
    }
  }
}
