/** The arms as mutable objects, and the engine that counts selections. */
module BanditArms {
  import opened LinearAlgebra
  import opened ArmAlgebra
  import opened ArmFloor
  import opened Selection
  import opened Bandit
  import opened BanditRun

  class BanditArm {
    const tier: string
    var aInv: Mat
    var b: Vec
    var updates: nat

    ghost function State(): ArmState
      reads this
    {
      ArmState(aInv, b, updates)
    }

    ghost predicate Valid()
      reads this
    {
      Good(aInv)
    }

    constructor (tier: string)
      ensures this.tier == tier && State() == FRESH_ARM && Valid()
    {
      this.tier := tier;
      aInv, b, updates := IDENTITY, ZERO, 0;
      new;
      IdentityIsGood();
    }

    /** Passive feedback: the arm's state moves exactly as `Learn` says, and its matrix keeps its shape. */
    method Update(context: Vec, reward: real)
      requires Valid()
      modifies this
      ensures Valid()
      ensures Denominator(old(aInv), context) >= 1.0
      ensures State() == Learn(old(State()), context, reward, ForgetPeriod(tier))
      ensures updates == old(updates) + 1
    {
      hide Good;
      LearnKeepsGood(State(), context, reward, ForgetPeriod(tier));
      b := Add(b, Scale(reward, context));
      var aInvX := MatVec(aInv, context);
      var denominator := 1.0 + Dot(context, aInvX);
      aInv := MatAdd(aInv, MatScale(-1.0 / denominator, Outer(aInvX, aInvX)));
      updates := updates + 1;
      if updates % ForgetPeriod(tier) == 0 {
        ApplyForgetting();
      }
    }

    method ApplyForgetting()
      modifies this
      ensures State() == Forget(old(State()))
    {
      aInv := MatAdd(MatScale(FORGET_KEEP, aInv), MatScale(1.0 - FORGET_KEEP, IDENTITY));
      b := Scale(FORGET_KEEP, b);
    }

    /** In exact arithmetic the clamp on the variance never acts: x' a x is at least zero. */
    method ComputeUcbScore(m: Analysis, context: Vec, alpha: real, t: nat) returns (score: real)
      requires Valid() && Positive(m)
      ensures score == Score(m, State(), tier, context, alpha, t)
      ensures Quad(aInv, context) >= 0.0
    {
      var theta := MatVec(aInv, b);
      var expected := Clamp(Dot(theta, context));
      var aInvX := MatVec(aInv, context);
      assert Quad(aInv, context) == Dot(context, aInvX);
      var spread := m.sqrt(Max0(Dot(context, aInvX)));
      assert Root(m, updates) >= 1.0;
      var exploration := alpha * spread * m.sqrt(m.ln(1.0 + t as real)) / m.sqrt(1.0 + updates as real);
      score := expected + exploration - 0.05 * CostWeight(tier);
      if IsFree(tier) {
        score := score - FREE_RISK_PREMIUM;
      }
    }
  }

  ghost function States(arms: seq<BanditArm>): (r: seq<ArmState>)
    reads arms
    ensures |r| == |arms| && forall i :: 0 <= i < |arms| ==> r[i] == arms[i].State()
  {
    seq(|arms|, i requires 0 <= i < |arms| reads arms => arms[i].State())
  }

  ghost function Tiers(arms: seq<BanditArm>): (r: seq<string>)
    ensures |r| == |arms| && forall i :: 0 <= i < |arms| ==> r[i] == arms[i].tier
  {
    seq(|arms|, i requires 0 <= i < |arms| => arms[i].tier)
  }

  ghost predicate AllGood(arms: seq<BanditArm>)
    reads arms
  {
    forall i :: 0 <= i < |arms| ==> arms[i].Valid()
  }

  lemma AliveAreGood(arms: seq<BanditArm>, bound: real)
    requires AllAlive(States(arms), bound)
    ensures AllGood(arms)
  {
    forall i | 0 <= i < |arms|
      ensures arms[i].Valid()
    {
      AliveIsGood(arms[i].State(), bound);
    }
  }

  class LinUCBEngine {
    const alpha: real
    var selections: nat

    constructor (alpha: real)
      ensures this.alpha == alpha && selections == 0
    {
      this.alpha, selections := alpha, 0;
    }

    /** One increment per request, whatever the number of candidates. */
    method NextSelectionStep() returns (t: nat)
      modifies this
      ensures selections == old(selections) + 1 && t == selections
    {
      selections := selections + 1;
      t := selections;
    }

    /** A single pass that keeps the best arm so far; the first of equals wins. */
    method SelectBestArm(m: Analysis, arms: seq<BanditArm>, context: Vec, t: nat) returns (best: int)
      requires Positive(m)
      requires AllGood(arms)
      ensures arms == [] ==> best == -1
      ensures arms != [] ==> IsFirstMax(Scores(m, States(arms), Tiers(arms), context, alpha, t), best)
    {
      hide Score, Good;
      best := -1;
      var bestScore := 0.0;
      ghost var scores := Scores(m, States(arms), Tiers(arms), context, alpha, t);
      for k := 0 to |arms|
        invariant k == 0 ==> best == -1
        invariant k > 0 ==> IsFirstMax(scores[..k], best) && bestScore == scores[best]
      {
        hide IsFirstMax;
        var score := arms[k].ComputeUcbScore(m, context, alpha, t);
        FirstMaxExtends(scores, k, best);
        if best == -1 || score > bestScore {
          best, bestScore := k, score;
        }
      }
      assert scores[..|arms|] == scores;
    }

    /** The same pass over the arms not tried before. */
    method SelectOutside(m: Analysis, arms: seq<BanditArm>, context: Vec, t: nat, tried: seq<nat>) returns (best: nat)
      requires Positive(m) && AllGood(arms) && exists k :: 0 <= k < |arms| && k !in tried
      ensures IsBestOutside(Scores(m, States(arms), Tiers(arms), context, alpha, t), tried, best)
    {
      hide Score, Good;
      var found := false;
      best := 0;
      var bestScore := 0.0;
      ghost var scores := Scores(m, States(arms), Tiers(arms), context, alpha, t);
      for k := 0 to |arms|
        invariant !found ==> forall i :: 0 <= i < k ==> i in tried
        invariant found ==> IsBestOutside(scores[..k], tried, best) && bestScore == scores[best]
      {
        hide IsBestOutside;
        BestOutsideExtends(scores, tried, k, best);
        if k !in tried {
          var score := arms[k].ComputeUcbScore(m, context, alpha, t);
          if !found || score > bestScore {
            found, best, bestScore := true, k, score;
          }
        }
      }
      assert scores[..|arms|] == scores;
    }
  }

  /** One attempt: a selection of its own that leaves out the arms tried before. */
  method Attempt(m: Analysis, engine: LinUCBEngine, arms: seq<BanditArm>, ghost t0: nat, contexts: seq<Vec>, a: nat,
                 tried: seq<nat>)
    returns (i: nat)
    requires Positive(m) && AllGood(arms) && a < |contexts| <= |arms| && engine.selections == t0 + a
    requires tried == Picks(m, States(arms), Tiers(arms), engine.alpha, t0, contexts[..a])
    modifies engine
    ensures engine.selections == t0 + a + 1
    ensures tried + [i] == Picks(m, States(arms), Tiers(arms), engine.alpha, t0, contexts[..a + 1])
  {
    hide *;
    SomeIndexLeft(|arms|, tried);
    var t := engine.NextSelectionStep();
    i := engine.SelectOutside(m, arms, contexts[a], t, tried);
    PicksPush(m, States(arms), Tiers(arms), engine.alpha, t0, contexts, a, i);
  }

  /** The attempts of a request. */
  method TryInTurn(m: Analysis, engine: LinUCBEngine, arms: seq<BanditArm>, contexts: seq<Vec>)
    returns (tried: seq<nat>)
    requires Positive(m) && AllGood(arms) && |contexts| <= |arms|
    modifies engine
    ensures tried == Picks(m, States(arms), Tiers(arms), engine.alpha, old(engine.selections), contexts)
    ensures engine.selections == old(engine.selections) + |contexts|
  {
    ghost var t0 := engine.selections;
    tried := [];
    assert Picks(m, States(arms), Tiers(arms), engine.alpha, t0, contexts[..0]) == [];
    hide *;
    for a := 0 to |contexts|
      invariant engine.selections == t0 + a
      invariant tried == Picks(m, States(arms), Tiers(arms), engine.alpha, t0, contexts[..a])
    {
      var i := Attempt(m, engine, arms, t0, contexts, a, tried);
      tried := tried + [i];
    }
    assert contexts[..|contexts|] == contexts;
  }

  lemma OnlyOneLearns(before: seq<ArmState>, after: seq<ArmState>, i: nat, s: ArmState)
    requires |before| == |after| && i < |before| && after[i] == s
    requires forall j :: 0 <= j < |before| && j != i ==> after[j] == before[j]
    ensures after == before[i := s]
  {
  }

  /** One request: attempts until one connects or none is left; the last arm tried learns.  It is one `Serve` of the
      runs, whatever the tries counted before. */
  method ServeRequest(m: Analysis, engine: LinUCBEngine, arms: seq<BanditArm>, q: Request, ghost bound: real,
                      ghost tries: seq<nat>)
    requires Positive(m) && Fits(q, |arms|, bound) && |tries| == |arms| && AllAlive(States(arms), bound)
    requires forall i, j :: 0 <= i < j < |arms| ==> arms[i] != arms[j]
    modifies engine, arms
    ensures AllAlive(old(States(arms)), bound)
    ensures var pool := Pool(old(States(arms)), old(engine.selections), tries);
            var r := Serve(m, pool, Tiers(arms), engine.alpha, q, bound);
            States(arms) == r.arms && engine.selections == r.selections
    ensures AllAlive(States(arms), bound)
  {
    hide Score, Good, Learn, Alive, Positive, Picks;
    ghost var pool := Pool(States(arms), engine.selections, tries);
    AliveAreGood(arms, bound);
    ServeKeepsAlive(m, pool, Tiers(arms), engine.alpha, q, bound);
    var tried := TryInTurn(m, engine, arms, q.contexts);
    var last := tried[|tried| - 1];
    assert States(arms) == pool.arms;
    hide AllAlive, Fits;
    arms[last].Update(q.contexts[|q.contexts| - 1], q.reward);
    OnlyOneLearns(pool.arms, States(arms), last, arms[last].State());
  }
}
