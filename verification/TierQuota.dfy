/** The tier quota: a sliding window of the tiers selected last forces a tier that is absent from it. */
module TierQuota {
  import opened Options
  import opened Sequences
  import opened Selection

  const TIER_QUOTA_WINDOW: nat := 100

  datatype Node = Node(addr: string, tier: string)

  // ---------------------------------------------------------------- what one selection does

  predicate Admits(n: Node, eligible: Node -> bool, excluded: seq<string>) {
    n.addr !in excluded && eligible(n)
  }

  /** The admitted nodes, in pool order. */
  function Candidates(pool: seq<Node>, eligible: Node -> bool, excluded: seq<string>): seq<Node> {
    if pool == [] then []
    else
      var n, rest := pool[|pool| - 1], Candidates(pool[..|pool| - 1], eligible, excluded);
      if Admits(n, eligible, excluded) then rest + [n] else rest
  }

  /** The tiers that have a candidate, each once, by first appearance. */
  function TiersOf(cands: seq<Node>): (r: seq<string>)
    ensures Distinct(r)
    ensures forall t :: t in r <==> exists k :: 0 <= k < |cands| && cands[k].tier == t
  {
    if cands == [] then []
    else
      var r, last := TiersOf(cands[..|cands| - 1]), cands[|cands| - 1].tier;
      assert forall t :: t in r + [last] <==> t in r || t == last;
      if last in r then r else r + [last]
  }

  function Missing(tiers: seq<string>, window: seq<string>): (r: seq<string>)
    ensures forall t :: t in r <==> t in tiers && t !in window
  {
    if tiers == [] then []
    else
      var last := tiers[|tiers| - 1];
      assert forall t :: t in tiers <==> t in tiers[..|tiers| - 1] || t == last;
      var rest := Missing(tiers[..|tiers| - 1], window);
      if last in window then rest else rest + [last]
  }

  function CountOf(cands: seq<Node>, tier: string): nat {
    if cands == [] then 0
    else CountOf(cands[..|cands| - 1], tier) + if cands[|cands| - 1].tier == tier then 1 else 0
  }

  /** The first of `absent` with the fewest candidates. */
  function Rarest(cands: seq<Node>, absent: seq<string>): (t: string)
    requires absent != []
    ensures t in absent
    ensures forall u :: u in absent ==> CountOf(cands, t) <= CountOf(cands, u)
  {
    var last := absent[|absent| - 1];
    if |absent| == 1 then last
    else
      assert forall u :: u in absent <==> u in absent[..|absent| - 1] || u == last;
      var best := Rarest(cands, absent[..|absent| - 1]);
      if CountOf(cands, last) < CountOf(cands, best) then last else best
  }

  /** The tier the quota forces: none while at most one tier has candidates or no tier is absent. */
  function ForcedTier(cands: seq<Node>, window: seq<string>): Option<string> {
    var tiers := TiersOf(cands);
    if |tiers| <= 1 then None
    else
      var absent := Missing(tiers, window);
      if absent == [] then None else Some(Rarest(cands, absent))
  }

  function Restrict(cands: seq<Node>, forced: Option<string>): seq<Node> {
    if cands == [] then []
    else
      var n, rest := cands[|cands| - 1], Restrict(cands[..|cands| - 1], forced);
      if forced.Some? && n.tier != forced.value then rest else rest + [n]
  }

  function ScoresOf(nodes: seq<Node>, score: Node -> real): (r: seq<real>)
    ensures |r| == |nodes| && forall k :: 0 <= k < |r| ==> r[k] == score(nodes[k])
  {
    seq(|nodes|, k requires 0 <= k < |nodes| => score(nodes[k]))
  }

  /** `chosen` is the first node with the greatest score. */
  ghost predicate IsBest(nodes: seq<Node>, score: Node -> real, chosen: Option<Node>) {
    match chosen
    case None => nodes == []
    case Some(n) => exists i :: IsFirstMax(ScoresOf(nodes, score), i) && nodes[i] == n
  }

  function Push(window: seq<string>, tier: string): seq<string> {
    var w := window + [tier];
    if |w| > TIER_QUOTA_WINDOW then w[1..] else w
  }

  /** What an initial selection may pick: a tier with a candidate, and the forced one if there is one. */
  ghost predicate Legal(cands: seq<Node>, window: seq<string>, tier: string) {
    tier in TiersOf(cands) && (ForcedTier(cands, window).Some? ==> tier == ForcedTier(cands, window).value)
  }

  lemma {:induction false} RestrictKeeps(cands: seq<Node>, forced: Option<string>, n: Node)
    ensures n in Restrict(cands, forced) <==> n in cands && (forced.Some? ==> n.tier == forced.value)
  {
    if cands != [] {
      RestrictKeeps(cands[..|cands| - 1], forced, n);
      assert n in cands <==> n in cands[..|cands| - 1] || n == cands[|cands| - 1];
    }
  }

  lemma CandidatesPush(pool: seq<Node>, k: nat, eligible: Node -> bool, excluded: seq<string>)
    requires k < |pool|
    ensures Candidates(pool[..k + 1], eligible, excluded)
         == if Admits(pool[k], eligible, excluded) then Candidates(pool[..k], eligible, excluded) + [pool[k]]
            else Candidates(pool[..k], eligible, excluded)
  {
    assert pool[..k + 1][..k] == pool[..k];
  }

  lemma TiersPush(cands: seq<Node>, n: Node)
    ensures TiersOf(cands + [n])
         == if n.tier in TiersOf(cands) then TiersOf(cands) else TiersOf(cands) + [n.tier]
  {
    assert (cands + [n])[..|cands|] == cands;
  }

  method CountCandidates(pool: seq<Node>, eligible: Node -> bool, excluded: seq<string>, tier: string)
      returns (count: nat)
    ensures count == CountOf(Candidates(pool, eligible, excluded), tier)
  {
    count := 0;
    for k := 0 to |pool|
      invariant count == CountOf(Candidates(pool[..k], eligible, excluded), tier)
    {
      CandidatesPush(pool, k, eligible, excluded);
      ghost var c := Candidates(pool[..k], eligible, excluded);
      assert (c + [pool[k]])[..|c|] == c;
      if Admits(pool[k], eligible, excluded) && pool[k].tier == tier {
        count := count + 1;
      }
    }
    assert pool[..|pool|] == pool;
  }

  method CollectTiers(pool: seq<Node>, eligible: Node -> bool, excluded: seq<string>) returns (tiers: seq<string>)
    ensures tiers == TiersOf(Candidates(pool, eligible, excluded))
  {
    tiers := [];
    for k := 0 to |pool|
      invariant tiers == TiersOf(Candidates(pool[..k], eligible, excluded))
    {
      CandidatesPush(pool, k, eligible, excluded);
      if Admits(pool[k], eligible, excluded) {
        TiersPush(Candidates(pool[..k], eligible, excluded), pool[k]);
        if pool[k].tier !in tiers {
          tiers := tiers + [pool[k].tier];
        }
      }
    }
    assert pool[..|pool|] == pool;
  }

  method AbsentTiers(tiers: seq<string>, window: seq<string>) returns (absent: seq<string>)
    ensures absent == Missing(tiers, window)
  {
    absent := [];
    for k := 0 to |tiers|
      invariant absent == Missing(tiers[..k], window)
    {
      assert tiers[..k + 1][..k] == tiers[..k];
      if tiers[k] !in window {
        absent := absent + [tiers[k]];
      }
    }
    assert tiers[..|tiers|] == tiers;
  }

  method RarestTier(pool: seq<Node>, eligible: Node -> bool, excluded: seq<string>, absent: seq<string>)
      returns (best: string)
    requires absent != []
    ensures best == Rarest(Candidates(pool, eligible, excluded), absent)
  {
    hide Candidates, CountOf;
    ghost var cands := Candidates(pool, eligible, excluded);
    best := absent[0];
    var bestCount := CountCandidates(pool, eligible, excluded, best);
    for k := 1 to |absent|
      invariant best == Rarest(cands, absent[..k]) && bestCount == CountOf(cands, best)
    {
      var count := CountCandidates(pool, eligible, excluded, absent[k]);
      assert absent[..k + 1][..k] == absent[..k];
      if count < bestCount {
        best, bestCount := absent[k], count;
      }
    }
    assert absent[..|absent|] == absent;
  }

  lemma RestrictPush(cands: seq<Node>, n: Node, forced: Option<string>)
    ensures Restrict(cands + [n], forced)
         == if forced.Some? && n.tier != forced.value then Restrict(cands, forced) else Restrict(cands, forced) + [n]
  {
    assert (cands + [n])[..|cands|] == cands;
  }

  lemma ScoresPush(nodes: seq<Node>, n: Node, score: Node -> real)
    ensures ScoresOf(nodes + [n], score) == ScoresOf(nodes, score) + [score(n)]
  {
  }

  /** The best so far, at index `at` of `nodes`, whose score is `s`. */
  ghost predicate BestSoFar(nodes: seq<Node>, score: Node -> real, best: Option<Node>, s: real, at: int) {
    match best
    case None => nodes == []
    case Some(n) => IsFirstMax(ScoresOf(nodes, score), at) && nodes[at] == n && s == score(n)
  }

  lemma BestPush(nodes: seq<Node>, n: Node, score: Node -> real, best: Option<Node>, s: real, at: int)
    requires BestSoFar(nodes, score, best, s, at)
    ensures if best.None? || score(n) > s then BestSoFar(nodes + [n], score, Some(n), score(n), |nodes|)
            else BestSoFar(nodes + [n], score, best, s, at)
  {
    ScoresPush(nodes, n, score);
    if best.Some? {
      FirstMaxPush(ScoresOf(nodes, score), at, score(n));
    }
  }

  lemma RestrictNonEmpty(cands: seq<Node>, forced: Option<string>)
    requires cands != [] && (forced.Some? ==> forced.value in TiersOf(cands))
    ensures Restrict(cands, forced) != []
  {
    var k := |cands| - 1;
    if forced.Some? {
      k :| 0 <= k < |cands| && cands[k].tier == forced.value;
    }
    RestrictKeeps(cands, forced, cands[k]);
  }

  lemma BestIsLegal(cands: seq<Node>, window: seq<string>, forced: Option<string>, score: Node -> real,
                    chosen: Option<Node>)
    requires forced == None || forced == ForcedTier(cands, window)
    requires IsBest(Restrict(cands, forced), score, chosen)
    ensures chosen.None? <==> cands == []
    ensures chosen.Some? && forced == ForcedTier(cands, window) ==> Legal(cands, window, chosen.value.tier)
  {
    if cands != [] {
      RestrictNonEmpty(cands, forced);
    }
    if chosen.Some? {
      RestrictKeeps(cands, forced, chosen.value);
    }
  }

  // ---------------------------------------------------------------- the forced tier, in terms of the pool

  /** Where the pool holds nodes of a tier that are eligible and not excluded. */
  function At(pool: seq<Node>, eligible: Node -> bool, excluded: seq<string>, tier: string): set<int> {
    set k | 0 <= k < |pool| && pool[k].addr !in excluded && eligible(pool[k]) && pool[k].tier == tier
  }

  lemma AtPush(pool: seq<Node>, eligible: Node -> bool, excluded: seq<string>, tier: string)
    requires pool != []
    ensures var n := |pool| - 1;
            At(pool, eligible, excluded, tier) == At(pool[..n], eligible, excluded, tier)
            + if pool[n].addr !in excluded && eligible(pool[n]) && pool[n].tier == tier then {n} else {}
  {
  }

  lemma {:induction false} CountIsSize(pool: seq<Node>, eligible: Node -> bool, excluded: seq<string>, tier: string)
    ensures CountOf(Candidates(pool, eligible, excluded), tier) == |At(pool, eligible, excluded, tier)|
  {
    if pool != [] {
      var n := |pool| - 1;
      var cands := Candidates(pool[..n], eligible, excluded);
      CountIsSize(pool[..n], eligible, excluded, tier);
      AtPush(pool, eligible, excluded, tier);
      AtBelow(pool[..n], eligible, excluded, tier);
      hide At;
      assert (cands + [pool[n]])[..|cands|] == cands;
    }
  }

  /** The tiers listed are those that have a node somewhere. */
  lemma {:induction false} ListedIsSomewhere(pool: seq<Node>, eligible: Node -> bool, excluded: seq<string>,
                                             tier: string)
    ensures tier in TiersOf(Candidates(pool, eligible, excluded)) <==> At(pool, eligible, excluded, tier) != {}
  {
    if pool != [] {
      var n := |pool| - 1;
      ListedIsSomewhere(pool[..n], eligible, excluded, tier);
      AtPush(pool, eligible, excluded, tier);
      hide At, TiersOf;
      TiersPush(Candidates(pool[..n], eligible, excluded), pool[n]);
    }
  }

  lemma AtBelow(pool: seq<Node>, eligible: Node -> bool, excluded: seq<string>, tier: string)
    ensures forall k :: k in At(pool, eligible, excluded, tier) ==> 0 <= k < |pool|
  {
  }

  /** Some candidate of tier `a` stands before every one of tier `b`. */
  ghost predicate AppearsBefore(cands: seq<Node>, a: string, b: string) {
    exists k :: 0 <= k < |cands| && cands[k].tier == a && forall l :: 0 <= l <= k ==> cands[l].tier != b
  }

  ghost predicate Ordered(tiers: seq<string>, cands: seq<Node>) {
    forall i, j :: 0 <= i < j < |tiers| ==> AppearsBefore(cands, tiers[i], tiers[j])
  }

  lemma AppearsStill(cands: seq<Node>, n: Node, a: string, b: string)
    requires AppearsBefore(cands, a, b)
    ensures AppearsBefore(cands + [n], a, b)
  {
    var k :| 0 <= k < |cands| && cands[k].tier == a && forall l :: 0 <= l <= k ==> cands[l].tier != b;
    assert (cands + [n])[k].tier == a;
  }

  lemma {:induction false} TiersAreOrdered(cands: seq<Node>)
    ensures Ordered(TiersOf(cands), cands)
  {
    if cands != [] {
      var front, last := cands[..|cands| - 1], cands[|cands| - 1];
      var before, tiers := TiersOf(front), TiersOf(cands);
      TiersAreOrdered(front);
      assert cands == front + [last];
      hide TiersOf;
      TiersPush(front, last);
      forall i, j | 0 <= i < j < |tiers|
        ensures AppearsBefore(cands, tiers[i], tiers[j])
      {
        if j < |before| {
          AppearsStill(front, last, tiers[i], tiers[j]);
        } else {
          assert tiers[i] in before && tiers[j] !in before;
          NewAppearsLast(front, last, tiers[i], tiers[j]);
        }
      }
    }
  }

  lemma NewAppearsLast(front: seq<Node>, last: Node, a: string, b: string)
    requires a in TiersOf(front) && b !in TiersOf(front)
    ensures AppearsBefore(front + [last], a, b)
  {
    var k :| 0 <= k < |front| && front[k].tier == a;
    assert (front + [last])[k].tier == a;
    assert forall l :: 0 <= l <= k ==> (front + [last])[l] == front[l];
  }

  lemma {:induction false} MissingIsOrdered(tiers: seq<string>, window: seq<string>, cands: seq<Node>)
    requires Ordered(tiers, cands)
    ensures Ordered(Missing(tiers, window), cands)
  {
    hide AppearsBefore;
    if tiers != [] {
      var front, last := tiers[..|tiers| - 1], tiers[|tiers| - 1];
      MissingIsOrdered(front, window, cands);
      var rest := Missing(front, window);
      forall i | 0 <= i < |rest|
        ensures AppearsBefore(cands, rest[i], last)
      {
        assert rest[i] in rest;
        var p :| 0 <= p < |front| && front[p] == rest[i];
        assert tiers[p] == rest[i];
      }
    }
  }

  /** Among equally rare tiers the one that appears first is taken. */
  lemma {:induction false} RarestIsFirst(cands: seq<Node>, absent: seq<string>, u: string)
    requires absent != [] && Ordered(absent, cands) && u in absent && u != Rarest(cands, absent)
    requires CountOf(cands, u) == CountOf(cands, Rarest(cands, absent))
    ensures AppearsBefore(cands, Rarest(cands, absent), u)
  {
    hide AppearsBefore, CountOf;
    var n := |absent| - 1;
    if n > 0 {
      var front, last := absent[..n], absent[n];
      var best := Rarest(cands, front);
      assert u in front || u == last;
      if Rarest(cands, absent) == best && u in front && u != last {
        RarestIsFirst(cands, front, u);
      } else if Rarest(cands, absent) == best {
        var p :| 0 <= p < n && front[p] == best;
        assert absent[p] == best;
      }
    }
  }

  lemma {:induction false} AppearsInPool(pool: seq<Node>, eligible: Node -> bool, excluded: seq<string>, a: string,
                                         b: string)
    requires AppearsBefore(Candidates(pool, eligible, excluded), a, b)
    ensures exists k :: && k in At(pool, eligible, excluded, a)
                        && forall l :: l in At(pool, eligible, excluded, b) ==> k < l
  {
    var n := |pool| - 1;
    var front, cands := Candidates(pool[..n], eligible, excluded), Candidates(pool, eligible, excluded);
    CandidatesPush(pool, n, eligible, excluded);
    assert pool[..n + 1] == pool;
    AtPush(pool, eligible, excluded, a);
    AtPush(pool, eligible, excluded, b);
    AtBelow(pool[..n], eligible, excluded, b);
    ListedIsSomewhere(pool[..n], eligible, excluded, b);
    hide At, Candidates, TiersOf;
    if AppearsBefore(front, a, b) {
      AppearsInPool(pool[..n], eligible, excluded, a, b);
    } else {
      OnlyNewAppears(front, pool[n], a, b);
      assert n in At(pool, eligible, excluded, a);
    }
  }

  lemma OnlyNewAppears(front: seq<Node>, n: Node, a: string, b: string)
    requires AppearsBefore(front + [n], a, b) && !AppearsBefore(front, a, b)
    ensures n.tier == a && a != b && b !in TiersOf(front)
  {
    var cands := front + [n];
    var k :| 0 <= k < |cands| && cands[k].tier == a && forall l :: 0 <= l <= k ==> cands[l].tier != b;
    assert forall l :: 0 <= l < |front| ==> front[l] == cands[l];
    assert k < |front| ==> AppearsBefore(front, a, b);
  }

  /** The forced tier: absent from the window, with candidates but not the only one, none of the absent tiers rarer, and
      the first in the pool among those as rare. None is forced exactly if no candidate tier is absent or all candidates
      are of one tier. */
  ghost predicate ForcedInPool(pool: seq<Node>, eligible: Node -> bool, excluded: seq<string>, window: seq<string>,
                               forced: Option<string>)
  {
    match forced
    case None =>
      || (forall t :: At(pool, eligible, excluded, t) != {} ==> t in window)
      || (forall t, u :: At(pool, eligible, excluded, t) != {} && At(pool, eligible, excluded, u) != {} ==> t == u)
    case Some(f) =>
      && f !in window && At(pool, eligible, excluded, f) != {}
      && (exists t :: t != f && At(pool, eligible, excluded, t) != {})
      && forall u :: u !in window && u != f && At(pool, eligible, excluded, u) != {} ==>
           var here, there := At(pool, eligible, excluded, f), At(pool, eligible, excluded, u);
           |here| < |there| || (|here| == |there| && exists k :: k in here && forall l :: l in there ==> k < l)
  }

  lemma ForcedIsAbsent(pool: seq<Node>, eligible: Node -> bool, excluded: seq<string>, window: seq<string>, f: string)
    requires ForcedTier(Candidates(pool, eligible, excluded), window) == Some(f)
    ensures f !in window && At(pool, eligible, excluded, f) != {}
    ensures exists t :: t != f && At(pool, eligible, excluded, t) != {}
  {
    var tiers := TiersOf(Candidates(pool, eligible, excluded));
    hide Candidates, At, CountOf, TiersOf;
    ListedIsSomewhere(pool, eligible, excluded, f);
    assert tiers[0] in tiers && tiers[1] in tiers && tiers[0] != tiers[1];
    ListedIsSomewhere(pool, eligible, excluded, tiers[0]);
    ListedIsSomewhere(pool, eligible, excluded, tiers[1]);
  }

  lemma ForcedIsRarest(pool: seq<Node>, eligible: Node -> bool, excluded: seq<string>, window: seq<string>, f: string,
                       u: string)
    requires ForcedTier(Candidates(pool, eligible, excluded), window) == Some(f)
    requires u !in window && u != f && At(pool, eligible, excluded, u) != {}
    ensures var here, there := At(pool, eligible, excluded, f), At(pool, eligible, excluded, u);
            |here| < |there| || (|here| == |there| && exists k :: k in here && forall l :: l in there ==> k < l)
  {
    var cands := Candidates(pool, eligible, excluded);
    var absent := Missing(TiersOf(cands), window);
    hide Candidates, At, CountOf, TiersOf, AppearsBefore, Ordered;
    CountIsSize(pool, eligible, excluded, f);
    CountIsSize(pool, eligible, excluded, u);
    ListedIsSomewhere(pool, eligible, excluded, u);
    assert u in absent;
    TiersAreOrdered(cands);
    MissingIsOrdered(TiersOf(cands), window, cands);
    hide Missing, Rarest;
    if CountOf(cands, f) == CountOf(cands, u) {
      RarestIsFirst(cands, absent, u);
      AppearsInPool(pool, eligible, excluded, f, u);
    }
  }

  lemma NoneIsForced(pool: seq<Node>, eligible: Node -> bool, excluded: seq<string>, window: seq<string>)
    requires ForcedTier(Candidates(pool, eligible, excluded), window) == None
    ensures || (forall t :: At(pool, eligible, excluded, t) != {} ==> t in window)
            || (forall t, u :: At(pool, eligible, excluded, t) != {} && At(pool, eligible, excluded, u) != {} ==>
                  t == u)
  {
    var tiers := TiersOf(Candidates(pool, eligible, excluded));
    hide Candidates, At, CountOf;
    forall t
      ensures t in tiers <==> At(pool, eligible, excluded, t) != {}
    {
      ListedIsSomewhere(pool, eligible, excluded, t);
    }
    hide TiersOf;
    if |tiers| == 1 {
      assert forall t :: t in tiers <==> t == tiers[0];
    }
  }

  lemma ForcedTierInPool(pool: seq<Node>, eligible: Node -> bool, excluded: seq<string>, window: seq<string>)
    ensures ForcedInPool(pool, eligible, excluded, window, ForcedTier(Candidates(pool, eligible, excluded), window))
  {
    var forced := ForcedTier(Candidates(pool, eligible, excluded), window);
    hide At, Candidates, ForcedTier;
    if forced.None? {
      NoneIsForced(pool, eligible, excluded, window);
    } else {
      ForcedIsAbsent(pool, eligible, excluded, window, forced.value);
      forall u | u !in window && u != forced.value && At(pool, eligible, excluded, u) != {}
        ensures var here, there := At(pool, eligible, excluded, forced.value), At(pool, eligible, excluded, u);
                |here| < |there| || (|here| == |there| && exists k :: k in here && forall l :: l in there ==> k < l)
      {
        ForcedIsRarest(pool, eligible, excluded, window, forced.value, u);
      }
    }
  }
}
