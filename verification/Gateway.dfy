/** The choice of a node: the tier quota and the scores of the arms in one streaming pass. */
module Gateway {
  import opened Options
  import opened LinearAlgebra
  import opened ArmAlgebra
  import opened TierQuota
  import opened Bandit
  import opened BanditArms

  /** An arm as a score sees it. */
  datatype View = View(state: ArmState, tier: string)

  /** The arm of a node; a node that has none yet is seen as a fresh arm of its tier. */
  function ViewOf(views: map<string, View>, n: Node): View {
    if n.addr in views then views[n.addr] else View(FRESH_ARM, n.tier)
  }

  /** The score of every node, over the arms seen in `views`. */
  ghost function ScoreIn(m: Analysis, views: map<string, View>, x: Vec, alpha: real, t: nat): Node -> real
    requires Positive(m)
  {
    n => var v := ViewOf(views, n); Score(m, v.state, v.tier, x, alpha, t)
  }

  /** The arms once each of `nodes` has one. */
  function WithArms(views: map<string, View>, nodes: seq<Node>): map<string, View> {
    if nodes == [] then views
    else
      var before, n := WithArms(views, nodes[..|nodes| - 1]), nodes[|nodes| - 1];
      before[n.addr := ViewOf(before, n)]
  }

  /** An address names a node, and a node is of one tier. */
  ghost predicate OneTierEach(nodes: seq<Node>) {
    forall n, o :: n in nodes && o in nodes && n.addr == o.addr ==> n.tier == o.tier
  }

  /** Creating arms changes nobody's score. */
  lemma {:induction false} WithArmsKeepsViews(views: map<string, View>, nodes: seq<Node>, n: Node)
    requires OneTierEach(nodes + [n])
    ensures ViewOf(WithArms(views, nodes), n) == ViewOf(views, n)
  {
    if nodes != [] {
      var front, last := nodes[..|nodes| - 1], nodes[|nodes| - 1];
      assert forall o :: o in front + [n] ==> o in nodes + [n];
      WithArmsKeepsViews(views, front, n);
      assert last in nodes + [n] && n in nodes + [n];
    }
  }

  lemma WithArmsPush(views: map<string, View>, nodes: seq<Node>, n: Node)
    ensures WithArms(views, nodes + [n])
         == WithArms(views, nodes)[n.addr := ViewOf(WithArms(views, nodes), n)]
  {
    assert (nodes + [n])[..|nodes|] == nodes;
  }

  /** The nodes scored: the admitted ones of the forced tier, if there is one. */
  function Field(pool: seq<Node>, eligible: Node -> bool, excluded: seq<string>, forced: Option<string>): seq<Node> {
    Restrict(Candidates(pool, eligible, excluded), forced)
  }

  predicate IsScored(n: Node, eligible: Node -> bool, excluded: seq<string>, forced: Option<string>) {
    Admits(n, eligible, excluded) && (forced.None? || n.tier == forced.value)
  }

  lemma ScoredIff(n: Node, eligible: Node -> bool, excluded: seq<string>, forced: Option<string>)
    ensures IsScored(n, eligible, excluded, forced) <==>
            Admits(n, eligible, excluded) && (forced.None? || n.tier == forced.value)
  {
  }

  lemma FieldPush(pool: seq<Node>, k: nat, eligible: Node -> bool, excluded: seq<string>, forced: Option<string>)
    requires k < |pool|
    ensures Field(pool[..k + 1], eligible, excluded, forced)
         == if IsScored(pool[k], eligible, excluded, forced)
            then Field(pool[..k], eligible, excluded, forced) + [pool[k]]
            else Field(pool[..k], eligible, excluded, forced)
  {
    hide Candidates, Restrict;
    CandidatesPush(pool, k, eligible, excluded);
    RestrictPush(Candidates(pool[..k], eligible, excluded), pool[k], forced);
  }

  lemma SeenAsBefore(views: map<string, View>, pool: seq<Node>, k: nat, eligible: Node -> bool, excluded: seq<string>,
                       forced: Option<string>)
    requires OneTierEach(pool) && k < |pool|
    ensures ViewOf(WithArms(views, Field(pool[..k], eligible, excluded, forced)), pool[k]) == ViewOf(views, pool[k])
  {
    var cands := Candidates(pool[..k], eligible, excluded);
    var nodes := Restrict(cands, forced);
    forall n | n in nodes + [pool[k]]
      ensures n in pool
    {
      if n in nodes {
        RestrictKeeps(cands, forced, n);
        CandidatesIff(pool[..k], eligible, excluded, n);
      }
    }
    WithArmsKeepsViews(views, nodes, pool[k]);
  }

  /** A node is scored by its own arm as it was before the pass, whatever arms the pass has created. */
  lemma ScoredAsBefore(m: Analysis, views: map<string, View>, pool: seq<Node>, k: nat, eligible: Node -> bool,
                       excluded: seq<string>, forced: Option<string>, x: Vec, alpha: real, t: nat)
    requires Positive(m) && OneTierEach(pool) && k < |pool|
    ensures ScoreIn(m, WithArms(views, Field(pool[..k], eligible, excluded, forced)), x, alpha, t)(pool[k])
         == ScoreIn(m, views, x, alpha, t)(pool[k])
  {
    hide OneTierEach, WithArms, Field, Score, ViewOf;
    SeenAsBefore(views, pool, k, eligible, excluded, forced);
  }

  // ---------------------------------------------------------------- the choice, in terms of the pool

  /** Position `top` of the first `k` nodes of the pool holds the first of those with the greatest score that are
      eligible, not excluded, and of the forced tier if there is one; `s` is its score. */
  ghost predicate TopSoFar(pool: seq<Node>, k: nat, eligible: Node -> bool, excluded: seq<string>,
                           forced: Option<string>, score: Node -> real, best: Option<Node>, s: real, top: int)
    requires k <= |pool|
  {
    match best
    case None =>
      forall j :: 0 <= j < k ==>
        pool[j].addr in excluded || !eligible(pool[j]) || (forced.Some? && pool[j].tier != forced.value)
    case Some(n) =>
      && 0 <= top < k && pool[top] == n && s == score(n)
      && n.addr !in excluded && eligible(n) && (forced.Some? ==> n.tier == forced.value)
      && forall j :: 0 <= j < k && pool[j].addr !in excluded && eligible(pool[j])
                     && (forced.Some? ==> pool[j].tier == forced.value) ==>
           score(pool[j]) <= s && (j < top ==> score(pool[j]) < s)
  }

  lemma TopPush(pool: seq<Node>, k: nat, eligible: Node -> bool, excluded: seq<string>, forced: Option<string>,
                score: Node -> real, best: Option<Node>, s: real, top: int)
    requires k < |pool| && TopSoFar(pool, k, eligible, excluded, forced, score, best, s, top)
    ensures var x := score(pool[k]);
            if IsScored(pool[k], eligible, excluded, forced) && (best.None? || x > s)
            then TopSoFar(pool, k + 1, eligible, excluded, forced, score, Some(pool[k]), x, k)
            else TopSoFar(pool, k + 1, eligible, excluded, forced, score, best, s, top)
  {
  }

  /** How far the pass has come: the best so far of the nodes scored, and of the pool. */
  ghost predicate Pass(pool: seq<Node>, k: nat, eligible: Node -> bool, excluded: seq<string>, forced: Option<string>,
                       score: Node -> real, best: Option<Node>, s: real)
    requires k <= |pool|
  {
    && (exists at :: BestSoFar(Field(pool[..k], eligible, excluded, forced), score, best, s, at))
    && (exists top :: TopSoFar(pool, k, eligible, excluded, forced, score, best, s, top))
  }

  lemma PassPush(pool: seq<Node>, k: nat, eligible: Node -> bool, excluded: seq<string>, forced: Option<string>,
                 score: Node -> real, best: Option<Node>, s: real)
    requires k < |pool| && Pass(pool, k, eligible, excluded, forced, score, best, s)
    ensures var x := score(pool[k]);
            if IsScored(pool[k], eligible, excluded, forced) && (best.None? || x > s)
            then Pass(pool, k + 1, eligible, excluded, forced, score, Some(pool[k]), x)
            else Pass(pool, k + 1, eligible, excluded, forced, score, best, s)
  {
    hide Field, BestSoFar, TopSoFar, IsScored;
    FieldPush(pool, k, eligible, excluded, forced);
    var nodes := Field(pool[..k], eligible, excluded, forced);
    var at :| BestSoFar(nodes, score, best, s, at);
    var top :| TopSoFar(pool, k, eligible, excluded, forced, score, best, s, top);
    BestPush(nodes, pool[k], score, best, s, at);
    TopPush(pool, k, eligible, excluded, forced, score, best, s, top);
  }

  lemma NothingScored(pool: seq<Node>, eligible: Node -> bool, excluded: seq<string>, forced: Option<string>,
                      score: Node -> real, views: map<string, View>)
    ensures Pass(pool, 0, eligible, excluded, forced, score, None, 0.0)
    ensures WithArms(views, Field(pool[..0], eligible, excluded, forced)) == views
  {
    assert BestSoFar(Field(pool[..0], eligible, excluded, forced), score, None, 0.0, 0);
    assert TopSoFar(pool, 0, eligible, excluded, forced, score, None, 0.0, 0);
  }

  lemma PassAtEnd(pool: seq<Node>, eligible: Node -> bool, excluded: seq<string>, forced: Option<string>,
                  score: Node -> real, best: Option<Node>, s: real)
    requires Pass(pool, |pool|, eligible, excluded, forced, score, best, s)
    ensures IsBest(Field(pool, eligible, excluded, forced), score, best)
    ensures IsTop(pool, eligible, excluded, forced, score, best)
  {
    assert pool[..|pool|] == pool;
    hide TopSoFar, Field;
  }

  /** The same at the end of the pass. */
  ghost predicate IsTop(pool: seq<Node>, eligible: Node -> bool, excluded: seq<string>, forced: Option<string>,
                        score: Node -> real, chosen: Option<Node>)
  {
    exists top, s :: TopSoFar(pool, |pool|, eligible, excluded, forced, score, chosen, s, top)
  }

  /** On a retry no node that may be chosen scores more than the chosen one, and none before it as much. */
  ghost predicate NoneBetter(pool: seq<Node>, eligible: Node -> bool, excluded: seq<string>, score: Node -> real,
                             n: Node)
  {
    exists i :: 0 <= i < |pool| && pool[i] == n &&
      forall j :: 0 <= j < |pool| && pool[j].addr !in excluded && eligible(pool[j]) ==>
        score(pool[j]) <= score(n) && (j < i ==> score(pool[j]) < score(n))
  }

  /** What the choice is, on the pool itself. */
  lemma TopIsChosen(pool: seq<Node>, eligible: Node -> bool, excluded: seq<string>, forced: Option<string>,
                    score: Node -> real, chosen: Option<Node>)
    requires IsTop(pool, eligible, excluded, forced, score, chosen)
    ensures chosen.Some? ==>
              chosen.value in pool && chosen.value.addr !in excluded && eligible(chosen.value)
    ensures forced.None? && chosen.Some? ==> NoneBetter(pool, eligible, excluded, score, chosen.value)
  {
  }

  lemma {:induction false} CandidatesIff(pool: seq<Node>, eligible: Node -> bool, excluded: seq<string>, n: Node)
    ensures n in Candidates(pool, eligible, excluded) <==> n in pool && n.addr !in excluded && eligible(n)
  {
    if pool != [] {
      CandidatesIff(pool[..|pool| - 1], eligible, excluded, n);
      assert n in pool <==> n in pool[..|pool| - 1] || n == pool[|pool| - 1];
    }
  }

  lemma NoCandidates(pool: seq<Node>, eligible: Node -> bool, excluded: seq<string>)
    ensures Candidates(pool, eligible, excluded) == [] <==>
            forall n :: n in pool ==> n.addr in excluded || !eligible(n)
  {
    var cands := Candidates(pool, eligible, excluded);
    hide Candidates;
    forall n
      ensures n in cands <==> n in pool && n.addr !in excluded && eligible(n)
    {
      CandidatesIff(pool, eligible, excluded, n);
    }
    if cands != [] {
      assert cands[0] in cands;
    }
  }

  ghost function ViewsOf(arms: map<string, BanditArm>): map<string, View>
    reads arms.Values
  {
    map a | a in arms :: View(arms[a].State(), arms[a].tier)
  }

  /** Every arm is sound, and no two nodes share one. */
  ghost predicate Separate(arms: map<string, BanditArm>)
    reads arms.Values
  {
    && (forall a :: a in arms ==> arms[a].Valid())
    && (forall a, b :: a in arms && b in arms && a != b ==> arms[a] != arms[b])
  }

  class SmartProxyGateway {
    const engine: LinUCBEngine
    var arms: map<string, BanditArm>
    var window: seq<string>

    ghost function Views(): map<string, View>
      reads this, arms.Values
    {
      ViewsOf(arms)
    }

    ghost predicate Valid()
      reads this, arms.Values
    {
      Separate(arms)
    }

    constructor (engine: LinUCBEngine)
      ensures this.engine == engine && arms == map[] && window == [] && Valid()
    {
      this.engine, arms, window := engine, map[], [];
    }

    /** The arm of a node, created on first use. */
    method ArmFor(n: Node) returns (arm: BanditArm)
      requires Valid()
      modifies this`arms
      ensures Valid() && n.addr in arms && arms[n.addr] == arm
      ensures arms == old(arms)[n.addr := arm] && if n.addr in old(arms) then arm == old(arms)[n.addr] else fresh(arm)
      ensures n.addr !in old(arms) ==>
                arm.aInv == IDENTITY && arm.b == ZERO && arm.updates == 0 && arm.tier == n.tier
      ensures Views() == old(Views())[n.addr := ViewOf(old(Views()), n)]
    {
      if n.addr in arms {
        arm := arms[n.addr];
        return;
      }
      arm := new BanditArm(n.tier);
      arms := arms[n.addr := arm];
    }

    /** Passive feedback: the arm of this node learns, no other arm moves. */
    method Observe(n: Node, context: Vec, reward: real)
      requires Valid()
      modifies this`arms, arms.Values
      ensures Valid()
      ensures var v := ViewOf(old(Views()), n);
              && Denominator(v.state.aInv, context) >= 1.0
              && Views() == old(Views())[n.addr := v.(state := Learn(v.state, context, reward, ForgetPeriod(v.tier)))]
    {
      hide ViewsOf, Separate, Learn, Denominator, ForgetPeriod;
      var arm := ArmFor(n);
      LearnAt(n.addr, context, reward);
    }

    method LearnAt(addr: string, context: Vec, reward: real)
      requires Valid() && addr in arms
      modifies arms[addr]
      ensures Valid()
      ensures var v := old(Views())[addr];
              && Denominator(v.state.aInv, context) >= 1.0
              && Views() == old(Views())[addr := v.(state := Learn(v.state, context, reward, ForgetPeriod(v.tier)))]
    {
      hide Learn, Good, Denominator, ForgetPeriod;
      ghost var before := Views();
      arms[addr].Update(context, reward);
      assert forall a :: a in arms && a != addr ==> Views()[a] == before[a];
    }

    /** The score of one node, from its arm. */
    method ScoreNode(m: Analysis, n: Node, context: Vec, t: nat) returns (s: real)
      requires Valid() && Positive(m)
      modifies this`arms
      ensures Valid()
      ensures s == ScoreIn(m, old(Views()), context, engine.alpha, t)(n)
      ensures Views() == old(Views())[n.addr := ViewOf(old(Views()), n)]
    {
      hide Score, Good, Positive;
      var arm := ArmFor(n);
      assert Views()[n.addr] == View(arm.State(), arm.tier);
      s := arm.ComputeUcbScore(m, context, engine.alpha, t);
    }

    /** Collect the tiers, keep the absent ones, count the candidates of each. */
    method TierQuotaForcedTier(pool: seq<Node>, eligible: Node -> bool, excluded: seq<string>)
        returns (forced: Option<string>)
      ensures forced == ForcedTier(Candidates(pool, eligible, excluded), window)
      ensures ForcedInPool(pool, eligible, excluded, window, forced)
    {
      ForcedTierInPool(pool, eligible, excluded, window);
      hide ForcedInPool, Candidates, TiersOf, Missing, Rarest, CountOf;
      var tiers := CollectTiers(pool, eligible, excluded);
      if |tiers| <= 1 {
        return None;
      }
      var absent := AbsentTiers(tiers, window);
      if absent == [] {
        return None;
      }
      var best := RarestTier(pool, eligible, excluded, absent);
      return Some(best);
    }

    /** The score of the next node scored in a pass that began with the arms `views`. */
    method ScoreNext(m: Analysis, pool: seq<Node>, k: nat, eligible: Node -> bool, excluded: seq<string>,
                     forced: Option<string>, context: Vec, t: nat, ghost views: map<string, View>)
        returns (s: real)
      requires Valid() && Positive(m) && OneTierEach(pool)
      requires k < |pool| && IsScored(pool[k], eligible, excluded, forced)
      requires Views() == WithArms(views, Field(pool[..k], eligible, excluded, forced))
      modifies this`arms
      ensures Valid()
      ensures s == ScoreIn(m, views, context, engine.alpha, t)(pool[k])
      ensures Views() == WithArms(views, Field(pool[..k + 1], eligible, excluded, forced))
    {
      hide Field, WithArms, Score, Positive, Good, OneTierEach, ViewsOf, Separate, ScoreIn, ViewOf, IsScored;
      FieldPush(pool, k, eligible, excluded, forced);
      ScoredAsBefore(m, views, pool, k, eligible, excluded, forced, context, engine.alpha, t);
      WithArmsPush(views, Field(pool[..k], eligible, excluded, forced), pool[k]);
      s := ScoreNode(m, pool[k], context, t);
    }

    /** The streaming pass: filter, restrict to the forced tier, score, keep the best so far. */
    method BestOf(m: Analysis, pool: seq<Node>, eligible: Node -> bool, excluded: seq<string>, forced: Option<string>,
                  context: Vec, t: nat)
        returns (best: Option<Node>)
      requires Valid() && Positive(m) && OneTierEach(pool)
      modifies this`arms
      ensures Valid()
      ensures var field := Field(pool, eligible, excluded, forced);
              && IsBest(field, ScoreIn(m, old(Views()), context, engine.alpha, t), best)
              && Views() == WithArms(old(Views()), field)
      ensures IsTop(pool, eligible, excluded, forced, ScoreIn(m, old(Views()), context, engine.alpha, t), best)
    {
      ghost var views := Views();
      ghost var score := ScoreIn(m, views, context, engine.alpha, t);
      best := None;
      var bestScore := 0.0;
      NothingScored(pool, eligible, excluded, forced, score, views);
      hide *;
      for k := 0 to |pool|
        invariant Valid()
        invariant Pass(pool, k, eligible, excluded, forced, score, best, bestScore)
        invariant Views() == WithArms(views, Field(pool[..k], eligible, excluded, forced))
      {
        FieldPush(pool, k, eligible, excluded, forced);
        PassPush(pool, k, eligible, excluded, forced, score, best, bestScore);
        ScoredIff(pool[k], eligible, excluded, forced);
        if Admits(pool[k], eligible, excluded) {
          if forced.None? || pool[k].tier == forced.value {
            var s := ScoreNext(m, pool, k, eligible, excluded, forced, context, t, views);
            if best.None? || s > bestScore {
              best, bestScore := Some(pool[k]), s;
            }
          }
        }
      }
      assert pool[..|pool|] == pool;
      PassAtEnd(pool, eligible, excluded, forced, score, best, bestScore);
    }

    /** An initial selection (nothing excluded) obeys the quota and enters the window; a retry does neither.  Both
        count one step and create the arms they score. */
    method SelectBanditNodeExcluding(m: Analysis, pool: seq<Node>, eligible: Node -> bool, excluded: seq<string>,
                                     context: Vec)
        returns (chosen: Option<Node>)
      requires Valid() && Positive(m) && OneTierEach(pool)
      modifies this, engine
      ensures Valid() && engine.selections == old(engine.selections) + 1
      ensures var cands := Candidates(pool, eligible, excluded);
              var forced := if excluded == [] then ForcedTier(cands, old(window)) else None;
              && IsBest(Field(pool, eligible, excluded, forced),
                        ScoreIn(m, old(Views()), context, engine.alpha, old(engine.selections) + 1), chosen)
              && Views() == WithArms(old(Views()), Field(pool, eligible, excluded, forced))
      ensures window == if excluded == [] && chosen.Some? then Push(old(window), chosen.value.tier) else old(window)
      ensures excluded == [] && chosen.Some? ==>
                Legal(Candidates(pool, eligible, excluded), old(window), chosen.value.tier)
      ensures chosen.Some? ==> chosen.value in pool && chosen.value.addr !in excluded && eligible(chosen.value)
      ensures chosen.None? <==> forall n :: n in pool ==> n.addr in excluded || !eligible(n)
      ensures excluded != [] && chosen.Some? ==>
                NoneBetter(pool, eligible, excluded,
                           ScoreIn(m, old(Views()), context, engine.alpha, old(engine.selections) + 1), chosen.value)
    {
      hide IsTop, NoneBetter, ScoreIn, WithArms, Candidates, Restrict, ForcedTier, Legal, Positive, IsBest,
        ViewsOf, Separate, OneTierEach;
      var forced: Option<string> := None;
      if excluded == [] {
        forced := TierQuotaForcedTier(pool, eligible, excluded);
      }
      var t := engine.NextSelectionStep();
      chosen := BestOf(m, pool, eligible, excluded, forced, context, t);
      BestIsLegal(Candidates(pool, eligible, excluded), window, forced,
                  ScoreIn(m, old(Views()), context, engine.alpha, t), chosen);
      TopIsChosen(pool, eligible, excluded, forced, ScoreIn(m, old(Views()), context, engine.alpha, t), chosen);
      NoCandidates(pool, eligible, excluded);
      if excluded == [] && chosen.Some? {
        window := window + [chosen.value.tier];
        if |window| > TIER_QUOTA_WINDOW {
          window := window[1..];
        }
      }
    }
  }
}
