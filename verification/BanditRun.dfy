/** Runs of requests over a fixed pool, failed attempts included: no arm is abandoned. */
module BanditRun {
  import opened LinearAlgebra
  import opened ArmAlgebra
  import opened ArmFloor
  import opened Selection
  import opened Bandit

  /** A request: the contexts of its attempts, one after the other, and the reward of the last.  Every attempt but the
      last failed to connect; the nodes tried before are excluded from the next attempt. */
  datatype Request = Request(contexts: seq<Vec>, reward: real)

  /** The pool, the number of selections so far, and the number of requests that tried each arm. */
  datatype Pool = Pool(arms: seq<ArmState>, selections: nat, tries: seq<nat>)

  ghost predicate AllAlive(arms: seq<ArmState>, bound: real) {
    forall i :: 0 <= i < |arms| ==> Alive(arms[i], bound)
  }

  /** At least one attempt, at most one for each arm, in contexts with the bias and of bounded length. */
  predicate Fits(q: Request, n: nat, bound: real) {
    && 1 <= |q.contexts| <= n
    && forall k :: 0 <= k < |q.contexts| ==> q.contexts[k].e1 == 1.0 && Dot(q.contexts[k], q.contexts[k]) <= bound
  }

  ghost function Scores(m: Analysis, arms: seq<ArmState>, tiers: seq<string>, x: Vec, alpha: real, t: nat):
      (r: seq<real>)
    requires Positive(m) && |arms| == |tiers|
    ensures |r| == |arms|
    ensures forall i :: 0 <= i < |arms| ==> r[i] == Score(m, arms[i], tiers[i], x, alpha, t)
  {
    seq(|arms|, i requires 0 <= i < |arms| => Score(m, arms[i], tiers[i], x, alpha, t))
  }

  /** The arms the attempts of a request try, in order: each time the first best of those not tried before. */
  ghost function Picks(m: Analysis, arms: seq<ArmState>, tiers: seq<string>, alpha: real, t: nat, contexts: seq<Vec>):
      (r: seq<nat>)
    requires Positive(m) && |arms| == |tiers| && |contexts| <= |arms|
    ensures |r| == |contexts| && forall k :: 0 <= k < |r| ==> r[k] < |arms|
  {
    if contexts == [] then []
    else
      var n := |contexts| - 1;
      var tried := Picks(m, arms, tiers, alpha, t, contexts[..n]);
      SomeIndexLeft(|arms|, tried);
      tried + [BestOutside(Scores(m, arms, tiers, contexts[n], alpha, t + |contexts|), tried)]
  }

  lemma PicksPush(m: Analysis, arms: seq<ArmState>, tiers: seq<string>, alpha: real, t: nat, contexts: seq<Vec>,
                  a: nat, i: nat)
    requires Positive(m) && |arms| == |tiers| && a < |contexts| <= |arms|
    requires var tried := Picks(m, arms, tiers, alpha, t, contexts[..a]);
             IsBestOutside(Scores(m, arms, tiers, contexts[a], alpha, t + a + 1), tried, i)
    ensures Picks(m, arms, tiers, alpha, t, contexts[..a + 1])
         == Picks(m, arms, tiers, alpha, t, contexts[..a]) + [i]
  {
    hide Score, Positive, IsBestOutside;
    var tried := Picks(m, arms, tiers, alpha, t, contexts[..a]);
    var scores := Scores(m, arms, tiers, contexts[a], alpha, t + a + 1);
    assert contexts[..a + 1][..a] == contexts[..a];
    SomeIndexLeft(|arms|, tried);
    BestOutsideIsUnique(scores, tried, i, BestOutside(scores, tried));
  }

  /** The last arm tried learns the outcome in the context of the last attempt; a request tries no arm twice. */
  ghost function Serve(m: Analysis, pool: Pool, tiers: seq<string>, alpha: real, q: Request, bound: real): (r: Pool)
    requires Positive(m) && |pool.arms| == |pool.tries| == |tiers| && AllAlive(pool.arms, bound)
    requires Fits(q, |tiers|, bound)
    ensures |r.arms| == |r.tries| == |tiers|
  {
    var picks := Picks(m, pool.arms, tiers, alpha, pool.selections, q.contexts);
    var i, f := picks[|picks| - 1], Feedback(q.contexts[|q.contexts| - 1], q.reward);
    LearnKeepsAlive(pool.arms[i], f, ForgetPeriod(tiers[i]), bound);
    Pool(pool.arms[i := Learn(pool.arms[i], f.x, f.reward, ForgetPeriod(tiers[i]))],
         pool.selections + |q.contexts|,
         seq(|tiers|, j requires 0 <= j < |tiers| => pool.tries[j] + if j in picks then 1 else 0))
  }

  lemma {:induction false} PicksOfPrefix(m: Analysis, arms: seq<ArmState>, tiers: seq<string>, alpha: real, t: nat,
                                         contexts: seq<Vec>, k: nat)
    requires Positive(m) && |arms| == |tiers| && k <= |contexts| <= |arms|
    ensures Picks(m, arms, tiers, alpha, t, contexts)[..k] == Picks(m, arms, tiers, alpha, t, contexts[..k])
  {
    hide Score, Positive, Scores, BestOutside;
    if k == |contexts| {
      assert contexts[..k] == contexts;
    } else {
      var n := |contexts| - 1;
      PicksOfPrefix(m, arms, tiers, alpha, t, contexts[..n], k);
      assert contexts[..n][..k] == contexts[..k];
      var tried := Picks(m, arms, tiers, alpha, t, contexts[..n]);
      assert Picks(m, arms, tiers, alpha, t, contexts)[..k] == tried[..k];
    }
  }

  /** Each attempt goes to an arm not tried before that none of the others outscores in its context at its step. */
  lemma PicksAreBest(m: Analysis, arms: seq<ArmState>, tiers: seq<string>, alpha: real, t: nat, contexts: seq<Vec>,
                     k: nat, i: nat)
    requires Positive(m) && |arms| == |tiers| && k < |contexts| <= |arms| && i < |arms|
    ensures var picks := Picks(m, arms, tiers, alpha, t, contexts);
            && picks[k] !in picks[..k]
            && (i !in picks[..k] ==> Score(m, arms[i], tiers[i], contexts[k], alpha, t + k + 1)
                                     <= Score(m, arms[picks[k]], tiers[picks[k]], contexts[k], alpha, t + k + 1))
  {
    hide Score, Positive, Picks;
    PicksOfPrefix(m, arms, tiers, alpha, t, contexts, k);
    PicksOfPrefix(m, arms, tiers, alpha, t, contexts, k + 1);
    assert contexts[..k + 1][..k] == contexts[..k];
    LastIsBest(m, arms, tiers, alpha, t, contexts[..k + 1], i);
  }

  lemma LastIsBest(m: Analysis, arms: seq<ArmState>, tiers: seq<string>, alpha: real, t: nat, contexts: seq<Vec>,
                   i: nat)
    requires Positive(m) && |arms| == |tiers| && 1 <= |contexts| <= |arms| && i < |arms|
    ensures var n := |contexts| - 1;
            var before := Picks(m, arms, tiers, alpha, t, contexts[..n]);
            var last := Picks(m, arms, tiers, alpha, t, contexts)[n];
            && last !in before
            && (i !in before ==> Score(m, arms[i], tiers[i], contexts[n], alpha, t + n + 1)
                                 <= Score(m, arms[last], tiers[last], contexts[n], alpha, t + n + 1))
  {
    hide Score, Positive;
    var n := |contexts| - 1;
    var tried := Picks(m, arms, tiers, alpha, t, contexts[..n]);
    SomeIndexLeft(|arms|, tried);
    var scores := Scores(m, arms, tiers, contexts[n], alpha, t + |contexts|);
    var last := BestOutside(scores, tried);
    assert Picks(m, arms, tiers, alpha, t, contexts) == tried + [last];
    hide Picks;
    assert i !in tried ==> scores[i] <= scores[last];
  }

  /** The arm tried last learns, in the context and with the reward of the last attempt; no other arm moves. */
  lemma LastLearns(m: Analysis, pool: Pool, tiers: seq<string>, alpha: real, q: Request, bound: real, j: nat)
    requires Positive(m) && |pool.arms| == |pool.tries| == |tiers| && AllAlive(pool.arms, bound)
    requires Fits(q, |tiers|, bound) && j < |tiers|
    ensures var picks := Picks(m, pool.arms, tiers, alpha, pool.selections, q.contexts);
            var n, r := |q.contexts| - 1, Serve(m, pool, tiers, alpha, q, bound);
            && |picks| == n + 1 && Denominator(pool.arms[picks[n]].aInv, q.contexts[n]) != 0.0
            && (j == picks[n] ==>
                  r.arms[j] == Learn(pool.arms[j], q.contexts[n], q.reward, ForgetPeriod(tiers[j])))
            && (j != picks[n] ==> r.arms[j] == pool.arms[j])
  {
    hide Alive, Learn, Dot, Picks, Denominator;
    var picks := Picks(m, pool.arms, tiers, alpha, pool.selections, q.contexts);
    var i, n := picks[|picks| - 1], |q.contexts| - 1;
    LearnKeepsAlive(pool.arms[i], Feedback(q.contexts[n], q.reward), ForgetPeriod(tiers[i]), bound);
  }

  lemma ServeKeepsAlive(m: Analysis, pool: Pool, tiers: seq<string>, alpha: real, q: Request, bound: real)
    requires Positive(m) && |pool.arms| == |pool.tries| == |tiers| && AllAlive(pool.arms, bound)
    requires Fits(q, |tiers|, bound)
    ensures AllAlive(Serve(m, pool, tiers, alpha, q, bound).arms, bound)
  {
    hide Alive, Learn, Dot, Picks;
    var picks := Picks(m, pool.arms, tiers, alpha, pool.selections, q.contexts);
    var i, f := picks[|picks| - 1], Feedback(q.contexts[|q.contexts| - 1], q.reward);
    LearnKeepsAlive(pool.arms[i], f, ForgetPeriod(tiers[i]), bound);
  }

  predicate AllFit(qs: seq<Request>, n: nat, bound: real) {
    forall k :: 0 <= k < |qs| ==> Fits(qs[k], n, bound)
  }

  /** The pool after the requests `qs`. */
  ghost function Run(m: Analysis, pool: Pool, tiers: seq<string>, alpha: real, qs: seq<Request>, bound: real): (r: Pool)
    requires Positive(m) && |pool.arms| == |pool.tries| == |tiers| && AllAlive(pool.arms, bound)
    requires AllFit(qs, |tiers|, bound)
    ensures |r.arms| == |r.tries| == |tiers| && AllAlive(r.arms, bound)
  {
    if qs == [] then pool
    else
      var before := Run(m, pool, tiers, alpha, qs[..|qs| - 1], bound);
      ServeKeepsAlive(m, before, tiers, alpha, qs[|qs| - 1], bound);
      Serve(m, before, tiers, alpha, qs[|qs| - 1], bound)
  }

  // ---------------------------------------------------------------- progress

  function Min(a: nat, b: nat): nat {
    if a < b then a else b
  }

  /** How worn the pool is, each arm counting up to `worn`. */
  function Wear(arms: seq<ArmState>, worn: nat): nat {
    if arms == [] then 0 else Wear(arms[..|arms| - 1], worn) + Min(arms[|arms| - 1].updates, worn)
  }

  lemma {:induction false} WearAfter(arms: seq<ArmState>, worn: nat, i: nat, s: ArmState)
    requires i < |arms| && s.updates == arms[i].updates + 1
    ensures Wear(arms[i := s], worn) == Wear(arms, worn) + if arms[i].updates < worn then 1 else 0
  {
    var last := |arms| - 1;
    if i == last {
      assert arms[i := s][..last] == arms[..last];
    } else {
      WearAfter(arms[..last], worn, i, s);
      assert arms[i := s][..last] == arms[..last][i := s];
    }
  }

  lemma {:induction false} WearBounded(arms: seq<ArmState>, worn: nat)
    ensures Wear(arms, worn) <= worn * |arms|
  {
    if arms != [] {
      WearBounded(arms[..|arms| - 1], worn);
      assert worn * |arms| == worn * (|arms| - 1) + worn;
    }
  }

  /** How far a run has come towards trying arm `j`: selections until ripe, wear of the pool, and tries of `j`. */
  function Progress(pool: Pool, ripe: nat, worn: nat, j: nat): nat
    requires j < |pool.tries|
  {
    Min(pool.selections, ripe) + Wear(pool.arms, worn) + pool.tries[j]
  }

  /** The last pick of a request is the best of the arms not tried before it. */
  lemma LastPick(m: Analysis, arms: seq<ArmState>, tiers: seq<string>, alpha: real, t: nat, contexts: seq<Vec>, j: nat)
    requires Positive(m) && |arms| == |tiers| && 1 <= |contexts| <= |arms| && j < |arms|
    requires j !in Picks(m, arms, tiers, alpha, t, contexts)
    ensures var n, i := |contexts| - 1, Picks(m, arms, tiers, alpha, t, contexts)[|contexts| - 1];
            Score(m, arms[j], tiers[j], contexts[n], alpha, t + |contexts|)
            <= Score(m, arms[i], tiers[i], contexts[n], alpha, t + |contexts|)
  {
    hide Score, Positive;
    var n := |contexts| - 1;
    var tried := Picks(m, arms, tiers, alpha, t, contexts[..n]);
    SomeIndexLeft(|arms|, tried);
    var scores := Scores(m, arms, tiers, contexts[n], alpha, t + |contexts|);
    var i := BestOutside(scores, tried);
    assert Picks(m, arms, tiers, alpha, t, contexts) == tried + [i];
    assert scores[j] <= scores[i];
  }

  /** The last pick of a ripe request that does not try arm `j`, which has at most `k` updates, is not yet worn. */
  lemma RipePickIsNotWorn(m: Analysis, pool: Pool, tiers: seq<string>, alpha: real, q: Request, bound: real,
                          k: nat, worn: nat, j: nat)
    requires Sound(m) && Positive(m) && alpha > 0.0
    requires |pool.arms| == |pool.tries| == |tiers| && AllAlive(pool.arms, bound) && Fits(q, |tiers|, bound)
    requires Wears(m, bound, k, worn) && Ripe(m, alpha, bound, k, pool.selections + |q.contexts|)
    requires j < |tiers| && pool.arms[j].updates <= k
    requires j !in Picks(m, pool.arms, tiers, alpha, pool.selections, q.contexts)
    ensures var picks := Picks(m, pool.arms, tiers, alpha, pool.selections, q.contexts);
            pool.arms[picks[|picks| - 1]].updates < worn
  {
    hide Alive, Score, Ripe, Wears, Sound, Dot, Picks, Positive;
    var n, t := |q.contexts| - 1, pool.selections + |q.contexts|;
    var i := Picks(m, pool.arms, tiers, alpha, pool.selections, q.contexts)[n];
    LastPick(m, pool.arms, tiers, alpha, pool.selections, q.contexts, j);
    if pool.arms[i].updates >= worn {
      AliveIsGood(pool.arms[i], bound);
      LittleOutscoresMuch(m, pool.arms[j], pool.arms[i], tiers[j], tiers[i], q.contexts[n], alpha, bound, k, worn, t);
      assert false;
    }
  }

  lemma AliveIsGood(s: ArmState, bound: real)
    requires Alive(s, bound)
    ensures Good(s.aInv)
  {
  }

  /** What a request does to the numbers that count. */
  lemma ServeCounts(m: Analysis, pool: Pool, tiers: seq<string>, alpha: real, q: Request, bound: real,
                    worn: nat, j: nat)
    requires Positive(m) && |pool.arms| == |pool.tries| == |tiers| && AllAlive(pool.arms, bound)
    requires Fits(q, |tiers|, bound) && j < |tiers|
    ensures var picks := Picks(m, pool.arms, tiers, alpha, pool.selections, q.contexts);
            var i, r := picks[|picks| - 1], Serve(m, pool, tiers, alpha, q, bound);
            && r.selections == pool.selections + |q.contexts|
            && r.tries[j] == pool.tries[j] + (if j in picks then 1 else 0)
            && r.arms[j].updates == pool.arms[j].updates + (if i == j then 1 else 0)
            && Wear(r.arms, worn) == Wear(pool.arms, worn) + (if pool.arms[i].updates < worn then 1 else 0)
  {
    hide Alive, Learn, Dot, Picks, Wear;
    var picks := Picks(m, pool.arms, tiers, alpha, pool.selections, q.contexts);
    var i, f := picks[|picks| - 1], Feedback(q.contexts[|q.contexts| - 1], q.reward);
    LearnKeepsAlive(pool.arms[i], f, ForgetPeriod(tiers[i]), bound);
    WearAfter(pool.arms, worn, i, Learn(pool.arms[i], f.x, f.reward, ForgetPeriod(tiers[i])));
  }

  /** While an arm has at most `k` updates, every request makes progress towards trying it. */
  lemma ServeProgresses(m: Analysis, pool: Pool, tiers: seq<string>, alpha: real, q: Request, bound: real,
                        k: nat, worn: nat, ripe: nat, j: nat)
    requires Sound(m) && Positive(m) && alpha > 0.0
    requires |pool.arms| == |pool.tries| == |tiers| && AllAlive(pool.arms, bound) && Fits(q, |tiers|, bound)
    requires Wears(m, bound, k, worn) && RipeFrom(m, alpha, bound, k, ripe)
    requires j < |tiers| && pool.arms[j].updates <= k
    ensures Progress(Serve(m, pool, tiers, alpha, q, bound), ripe, worn, j) >= Progress(pool, ripe, worn, j) + 1
  {
    ServeCounts(m, pool, tiers, alpha, q, bound, worn, j);
    var picks := Picks(m, pool.arms, tiers, alpha, pool.selections, q.contexts);
    if pool.selections >= ripe && j !in picks {
      assert Ripe(m, alpha, bound, k, pool.selections + |q.contexts|);
      hide Serve, Picks, AllAlive, RipeFrom, Ripe, Wears, Sound, Positive, Wear;
      RipePickIsNotWorn(m, pool, tiers, alpha, q, bound, k, worn, j);
    }
  }

  lemma {:induction false} RunProgresses(m: Analysis, pool: Pool, tiers: seq<string>, alpha: real, qs: seq<Request>,
                                         bound: real, k: nat, worn: nat, ripe: nat, j: nat)
    requires Sound(m) && Positive(m) && alpha > 0.0
    requires |pool.arms| == |pool.tries| == |tiers| && AllAlive(pool.arms, bound) && AllFit(qs, |tiers|, bound)
    requires Wears(m, bound, k, worn) && RipeFrom(m, alpha, bound, k, ripe)
    requires j < |tiers| && Run(m, pool, tiers, alpha, qs, bound).arms[j].updates <= k
    ensures Progress(Run(m, pool, tiers, alpha, qs, bound), ripe, worn, j) >= |qs|
  {
    hide Serve, AllAlive, RipeFrom, Wears, Sound, Positive, Progress, Fits;
    if qs != [] {
      var front, q := qs[..|qs| - 1], qs[|qs| - 1];
      var before := Run(m, pool, tiers, alpha, front, bound);
      ServeCounts(m, before, tiers, alpha, q, bound, worn, j);
      RunProgresses(m, pool, tiers, alpha, front, bound, k, worn, ripe, j);
      ServeProgresses(m, before, tiers, alpha, q, bound, k, worn, ripe, j);
    }
  }

  /** Every arm has learned `k` times or has been tried by `k` requests. */
  ghost predicate EveryArmTried(pool: Pool, k: nat) {
    |pool.arms| == |pool.tries| && forall j :: 0 <= j < |pool.arms| ==> pool.arms[j].updates >= k || pool.tries[j] >= k
  }

  /** All runs of at least `n` requests over this pool try every arm `k` times, from whatever states of the arms and
      of the selection counter, with whatever contexts, failures and rewards. */
  ghost predicate AllLongRunsTryAll(m: Analysis, tiers: seq<string>, alpha: real, bound: real, k: nat, n: nat)
    requires Positive(m)
  {
    forall pool: Pool, qs: seq<Request> | && |pool.arms| == |pool.tries| == |tiers| && AllAlive(pool.arms, bound)
                      && AllFit(qs, |tiers|, bound) && |qs| >= n ::
      EveryArmTried(Run(m, pool, tiers, alpha, qs, bound), k)
  }

  lemma LongRunTriesAll(m: Analysis, pool: Pool, tiers: seq<string>, alpha: real, qs: seq<Request>, bound: real,
                        k: nat, worn: nat, ripe: nat)
    requires Sound(m) && Positive(m) && alpha > 0.0
    requires |pool.arms| == |pool.tries| == |tiers| && AllAlive(pool.arms, bound) && AllFit(qs, |tiers|, bound)
    requires Wears(m, bound, k, worn) && RipeFrom(m, alpha, bound, k, ripe)
    requires |qs| >= ripe + worn * |tiers| + k
    ensures EveryArmTried(Run(m, pool, tiers, alpha, qs, bound), k)
  {
    hide Run, AllAlive, RipeFrom, Wears, Sound, Positive, Wear, AllFit;
    var r := Run(m, pool, tiers, alpha, qs, bound);
    forall j | 0 <= j < |r.arms|
      ensures r.arms[j].updates >= k || r.tries[j] >= k
    {
      if r.arms[j].updates <= k {
        RunProgresses(m, pool, tiers, alpha, qs, bound, k, worn, ripe, j);
        WearBounded(r.arms, worn);
      }
    }
  }

  /** No permanent lock-in: for every pool and every `k` there is a number of requests after which every arm has been
      tried `k` times, in every run. */
  lemma NoPermanentLockIn(m: Analysis, tiers: seq<string>, alpha: real, bound: real, k: nat) returns (n: nat)
    requires Sound(m) && alpha > 0.0 && bound >= 0.0
    ensures Positive(m) && AllLongRunsTryAll(m, tiers, alpha, bound, k, n)
  {
    SoundRootsPositive(m);
    var ripe := EventuallyRipe(m, alpha, bound, k);
    var worn := EventuallyWorn(m, bound, k);
    n := ripe + worn * |tiers| + k;
    hide Run, AllAlive, RipeFrom, Wears, Sound, Positive, EveryArmTried, AllFit;
    forall pool: Pool, qs: seq<Request> | && |pool.arms| == |pool.tries| == |tiers| && AllAlive(pool.arms, bound)
                      && AllFit(qs, |tiers|, bound) && |qs| >= n
      ensures EveryArmTried(Run(m, pool, tiers, alpha, qs, bound), k)
    {
      LongRunTriesAll(m, pool, tiers, alpha, qs, bound, k, worn, ripe);
    }
  }

  /** Without failed attempts every try is an update. */
  lemma {:induction false} TriesAreUpdates(m: Analysis, pool: Pool, tiers: seq<string>, alpha: real, qs: seq<Request>,
                                           bound: real, j: nat)
    requires Positive(m) && |pool.arms| == |pool.tries| == |tiers| && AllAlive(pool.arms, bound)
    requires AllFit(qs, |tiers|, bound) && forall k :: 0 <= k < |qs| ==> |qs[k].contexts| == 1
    requires j < |tiers|
    ensures var r := Run(m, pool, tiers, alpha, qs, bound);
            r.arms[j].updates + pool.tries[j] == pool.arms[j].updates + r.tries[j]
  {
    hide Serve, AllAlive, Fits, Picks;
    if qs != [] {
      var front, q := qs[..|qs| - 1], qs[|qs| - 1];
      var before := Run(m, pool, tiers, alpha, front, bound);
      TriesAreUpdates(m, pool, tiers, alpha, front, bound, j);
      ServeCounts(m, before, tiers, alpha, q, bound, 0, j);
    }
  }
}
