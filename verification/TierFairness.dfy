/** How fair the tier quota is, over runs of initial selections with a constant set of candidates. */
module TierFairness {
  import opened Sequences
  import opened TierQuota

  const W := TIER_QUOTA_WINDOW

  /** The window after the first `k` selections of `picks`. */
  function WindowAt(w0: seq<string>, picks: seq<string>, k: nat): seq<string>
    requires k <= |picks|
  {
    Suffix(w0 + picks[..k], W)
  }

  /** `picks` are the tiers of consecutive initial selections that start from window `w0`. */
  ghost predicate IsRun(cands: seq<Node>, w0: seq<string>, picks: seq<string>) {
    && |w0| <= W
    && forall k :: 0 <= k < |picks| ==> Legal(cands, WindowAt(w0, picks, k), picks[k])
  }

  lemma WindowAtIsPushed(w0: seq<string>, picks: seq<string>, k: nat)
    requires |w0| <= W && k < |picks|
    ensures WindowAt(w0, picks, k + 1) == Push(WindowAt(w0, picks, k), picks[k])
    ensures k == 0 ==> WindowAt(w0, picks, 0) == w0
  {
    assert picks[..k + 1] == picks[..k] + [picks[k]];
    assert w0 + picks[..k + 1] == (w0 + picks[..k]) + [picks[k]];
    SuffixPush(w0 + picks[..k], W, picks[k]);
    assert w0 + picks[..0] == w0;
  }

  lemma PickedIsInWindow(w0: seq<string>, picks: seq<string>, k: nat, i: nat)
    requires i < k <= |picks| && k <= W
    ensures picks[i] in WindowAt(w0, picks, k)
  {
    var all, w := w0 + picks[..k], WindowAt(w0, picks, k);
    var j := |w0| + i - (|all| - |w|);
    assert 0 <= j < |w|;
    assert w[j] == all[|w0| + i] == picks[..k][i];
  }

  // ---------------------------------------------------------------- absent tiers

  ghost predicate Absent(cands: seq<Node>, window: seq<string>, tier: string) {
    tier in TiersOf(cands) && tier !in window
  }

  ghost predicate AtMostOneAbsent(cands: seq<Node>, window: seq<string>) {
    forall a, b :: Absent(cands, window, a) && Absent(cands, window, b) ==> a == b
  }

  ghost predicate NoneAbsent(cands: seq<Node>, window: seq<string>) {
    forall a :: !Absent(cands, window, a)
  }

  /** While some tier is absent, a selection picks an absent tier. */
  lemma AbsentIsPicked(cands: seq<Node>, window: seq<string>, a: string, pick: string)
    requires Absent(cands, window, a) && Legal(cands, window, pick)
    ensures Absent(cands, window, pick)
  {
    var tiers := TiersOf(cands);
    if |tiers| <= 1 {
      assert tiers[0] == a && tiers[0] == pick;
    } else {
      assert a in Missing(tiers, window);
      assert pick in Missing(tiers, window);
    }
  }

  lemma KeptByPush(window: seq<string>, pick: string, x: string)
    requires x in window || x == pick
    ensures x in Push(window, pick) || (window != [] && x == window[0])
  {
    var all, w := window + [pick], Push(window, pick);
    var k := |window|;
    if x != pick {
      k :| 0 <= k < |window| && window[k] == x;
    }
    assert all[k] == x;
    if w != all && k > 0 {
      assert w[k - 1] == x;
    }
  }

  /** A tier absent after a selection was the oldest in the window: a selection repairs the one absence there was. */
  lemma AbsentWasOldest(cands: seq<Node>, window: seq<string>, pick: string, a: string)
    requires AtMostOneAbsent(cands, window) && Legal(cands, window, pick)
    requires Absent(cands, Push(window, pick), a)
    ensures window != [] && a == window[0]
  {
    hide Legal;
    if a !in window {
      AbsentIsPicked(cands, window, a, pick);
    }
    KeptByPush(window, pick, a);
  }

  lemma AtMostOneStays(cands: seq<Node>, window: seq<string>, pick: string)
    requires AtMostOneAbsent(cands, window) && Legal(cands, window, pick)
    ensures AtMostOneAbsent(cands, Push(window, pick))
  {
    forall a, b | Absent(cands, Push(window, pick), a) && Absent(cands, Push(window, pick), b)
      ensures a == b
    {
      AbsentWasOldest(cands, window, pick, a);
      AbsentWasOldest(cands, window, pick, b);
    }
  }

  lemma AtMostOneStep(cands: seq<Node>, w0: seq<string>, picks: seq<string>, k: nat)
    requires IsRun(cands, w0, picks) && k < |picks|
    requires AtMostOneAbsent(cands, WindowAt(w0, picks, k))
    ensures AtMostOneAbsent(cands, WindowAt(w0, picks, k + 1))
  {
    hide Legal, AtMostOneAbsent;
    AtMostOneStays(cands, WindowAt(w0, picks, k), picks[k]);
    WindowAtIsPushed(w0, picks, k);
  }

  lemma {:induction false} AtMostOneLasts(cands: seq<Node>, w0: seq<string>, picks: seq<string>, from: nat, k: nat)
    requires IsRun(cands, w0, picks) && from <= k <= |picks|
    requires AtMostOneAbsent(cands, WindowAt(w0, picks, from))
    ensures AtMostOneAbsent(cands, WindowAt(w0, picks, k))
    decreases k - from
  {
    hide IsRun, AtMostOneAbsent, WindowAt;
    if from < k {
      AtMostOneLasts(cands, w0, picks, from, k - 1);
      AtMostOneStep(cands, w0, picks, k - 1);
    }
  }

  /** Picks of absent tiers are pairwise different as long as the window holds them all. */
  lemma AbsentPicksAreDistinct(cands: seq<Node>, w0: seq<string>, picks: seq<string>, n: nat)
    requires n <= |picks| && n <= W
    requires forall k :: 0 <= k < n ==> Absent(cands, WindowAt(w0, picks, k), picks[k])
    ensures Distinct(picks[..n])
  {
    forall i, j | 0 <= i < j < n
      ensures picks[i] != picks[j]
    {
      PickedIsInWindow(w0, picks, j, i);
      assert Absent(cands, WindowAt(w0, picks, j), picks[j]);
    }
  }

  /** `n` different candidate tiers leave at most `|tiers| - n` others. */
  lemma DistinctPicksCover(cands: seq<Node>, picks: seq<string>, others: set<string>)
    requires Distinct(picks)
    requires forall k :: 0 <= k < |picks| ==> picks[k] in TiersOf(cands)
    requires others <= ToSet(TiersOf(cands)) && others !! ToSet(picks)
    ensures |picks| + |others| <= |TiersOf(cands)|
  {
    DistinctSize(picks);
    DistinctSize(TiersOf(cands));
    SubsetSize(ToSet(picks) + others, ToSet(TiersOf(cands)));
  }

  // ---------------------------------------------------------------- the bound

  /** With at most W + 1 candidate tiers, at most one is absent after W selections, whatever the window held. */
  lemma SettledAfterWindow(cands: seq<Node>, w0: seq<string>, picks: seq<string>)
    requires IsRun(cands, w0, picks) && |picks| >= W
    requires |TiersOf(cands)| <= W + 1
    ensures AtMostOneAbsent(cands, WindowAt(w0, picks, W))
  {
    hide Legal;
    if k :| 0 <= k < W && !Absent(cands, WindowAt(w0, picks, k), picks[k]) {
      var w := WindowAt(w0, picks, k);
      forall a
        ensures !Absent(cands, w, a)
      {
        if Absent(cands, w, a) {
          AbsentIsPicked(cands, w, a, picks[k]);
        }
      }
      AtMostOneLasts(cands, w0, picks, k, W);
    } else {
      AbsentPicksAreDistinct(cands, w0, picks, W);
      forall a, b | Absent(cands, WindowAt(w0, picks, W), a) && Absent(cands, WindowAt(w0, picks, W), b)
        ensures a == b
      {
        forall i | 0 <= i < W
          ensures picks[i] != a && picks[i] != b
        {
          PickedIsInWindow(w0, picks, W, i);
        }
        var others := {a, b};
        DistinctPicksCover(cands, picks[..W], others);
      }
    }
  }

  /** Every candidate tier occurs among any W + 1 consecutive initial selections. */
  lemma EveryTierWithinWindowPlusOne(cands: seq<Node>, w0: seq<string>, picks: seq<string>, tier: string)
    requires IsRun(cands, w0, picks) && |picks| == W + 1
    requires |TiersOf(cands)| <= W + 1
    requires tier in TiersOf(cands)
    ensures tier in picks
  {
    hide Legal;
    if tier !in picks[..W] {
      SettledAfterWindow(cands, w0, picks);
      var w := WindowAt(w0, picks, W);
      assert w == picks[..W];
      assert Absent(cands, w, tier);
      AbsentIsPicked(cands, w, tier, picks[W]);
      assert picks[W] == tier;
    }
  }

  /** With at most W candidate tiers, some window among the first |tiers| has none absent. */
  lemma AbsenceEmpties(cands: seq<Node>, w0: seq<string>, picks: seq<string>) returns (k: nat)
    requires IsRun(cands, w0, picks)
    requires |TiersOf(cands)| <= W && |picks| >= |TiersOf(cands)|
    ensures k <= |TiersOf(cands)| && NoneAbsent(cands, WindowAt(w0, picks, k))
  {
    hide Legal;
    var n := |TiersOf(cands)|;
    if i :| 0 <= i < n && !Absent(cands, WindowAt(w0, picks, i), picks[i]) {
      k := i;
      forall a
        ensures !Absent(cands, WindowAt(w0, picks, k), a)
      {
        if Absent(cands, WindowAt(w0, picks, k), a) {
          AbsentIsPicked(cands, WindowAt(w0, picks, k), a, picks[k]);
        }
      }
    } else {
      k := n;
      AbsentPicksAreDistinct(cands, w0, picks, n);
      forall a
        ensures !Absent(cands, WindowAt(w0, picks, n), a)
      {
        if Absent(cands, WindowAt(w0, picks, n), a) {
          forall i | 0 <= i < n
            ensures picks[i] != a
          {
            PickedIsInWindow(w0, picks, n, i);
          }
          DistinctPicksCover(cands, picks[..n], {a});
        }
      }
    }
  }

  // ---------------------------------------------------------------- how tight the bound is

  /** In every run, every `n` consecutive initial selections contain every candidate tier. */
  ghost predicate FairWithin(cands: seq<Node>, n: nat) {
    forall w0, picks, tier :: IsRun(cands, w0, picks) && |picks| == n && tier in TiersOf(cands) ==> tier in picks
  }

  /** A tier the quota allows that is not `avoid`, as long as `avoid` is in the window. */
  ghost function Avoiding(cands: seq<Node>, window: seq<string>, avoid: string, other: string): (t: string)
    requires avoid in window && other in TiersOf(cands) && other != avoid
    ensures Legal(cands, window, t) && t != avoid
  {
    if ForcedTier(cands, window).Some? then
      assert ForcedTier(cands, window).value in Missing(TiersOf(cands), window);
      ForcedTier(cands, window).value
    else other
  }

  lemma {:induction false} RunAvoiding(cands: seq<Node>, avoid: string, other: string, n: nat)
      returns (picks: seq<string>)
    requires n <= W && other in TiersOf(cands) && other != avoid
    ensures |picks| == n && IsRun(cands, [avoid], picks) && avoid !in picks
  {
    if n == 0 {
      picks := [];
    } else {
      var front := RunAvoiding(cands, avoid, other, n - 1);
      var w := WindowAt([avoid], front, n - 1);
      assert w == [avoid] + front;
      picks := front + [Avoiding(cands, w, avoid, other)];
      forall k | 0 <= k < n
        ensures WindowAt([avoid], picks, k) == WindowAt([avoid], front, k)
      {
        assert picks[..k] == front[..k];
      }
    }
  }

  ghost function Allowed(cands: seq<Node>, window: seq<string>): (t: string)
    requires TiersOf(cands) != []
    ensures Legal(cands, window, t)
  {
    if ForcedTier(cands, window).Some? then
      assert ForcedTier(cands, window).value in Missing(TiersOf(cands), window);
      ForcedTier(cands, window).value
    else TiersOf(cands)[0]
  }

  lemma {:induction false} SomeRun(cands: seq<Node>, n: nat) returns (picks: seq<string>)
    requires TiersOf(cands) != []
    ensures |picks| == n && IsRun(cands, [], picks)
  {
    if n == 0 {
      picks := [];
    } else {
      hide Legal;
      var front := SomeRun(cands, n - 1);
      picks := front + [Allowed(cands, WindowAt([], front, n - 1))];
      forall k | 0 <= k < n
        ensures WindowAt([], picks, k) == WindowAt([], front, k)
      {
        assert picks[..k] == front[..k];
      }
    }
  }

  /** The guarantee the code gives: every tier in every W + 1 selections, exactly when at most W + 1 tiers compete. */
  lemma FairWithinWindowPlusOneIff(cands: seq<Node>)
    ensures FairWithin(cands, 101) <==> |TiersOf(cands)| <= 101
  {
    if |TiersOf(cands)| <= W + 1 {
      forall w0, picks, tier | IsRun(cands, w0, picks) && |picks| == W + 1 && tier in TiersOf(cands)
        ensures tier in picks
      {
        EveryTierWithinWindowPlusOne(cands, w0, picks, tier);
      }
    } else {
      var picks := SomeRun(cands, W + 1);
      if FairWithin(cands, W + 1) {
        SetIsNoLarger(picks);
        DistinctSize(TiersOf(cands));
        assert forall t :: t in TiersOf(cands) ==> t in picks;
        SubsetSize(ToSet(TiersOf(cands)), ToSet(picks));
      }
    }
  }

  /** The guarantee the comments promise, every tier in every W selections, holds only when tiers do not compete. */
  lemma FairWithinWindowIff(cands: seq<Node>)
    ensures FairWithin(cands, 100) <==> |TiersOf(cands)| <= 1
  {
    var tiers := TiersOf(cands);
    if |tiers| <= 1 {
      forall w0, picks, tier | IsRun(cands, w0, picks) && |picks| == W && tier in tiers
        ensures tier in picks
      {
        assert Legal(cands, WindowAt(w0, picks, 0), picks[0]);
        assert picks[0] == tiers[0] == tier;
      }
    } else {
      var picks := RunAvoiding(cands, tiers[0], tiers[1], W);
      assert IsRun(cands, [tiers[0]], picks) && tiers[0] in tiers && tiers[0] !in picks;
    }
  }
}
