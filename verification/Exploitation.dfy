/** What rewards do to scores: among arms alike in all else the one with the greater estimate wins, up to the clamp. */
module Exploitation {
  import opened Options
  import opened LinearAlgebra
  import opened ArmAlgebra
  import opened ArmFloor
  import opened ArmTraining
  import opened Selection
  import opened TierQuota
  import opened Bandit
  import opened BanditRun
  import opened Gateway

  // ---------------------------------------------------------------- two arms alike in all but what they were rewarded

  /** The scores of two such arms differ by exactly the difference of their estimates, an estimate below 0 counting as 0
      and one above 1 as 1. */
  lemma EstimatesDecide(m: Analysis, s: ArmState, s': ArmState, tier: string, x: Vec, alpha: real, t: nat)
    requires s.aInv == s'.aInv && s.updates == s'.updates && Root(m, s.updates) != 0.0
    ensures var e, e' := Dot(MatVec(s.aInv, s.b), x), Dot(MatVec(s'.aInv, s'.b), x);
            Score(m, s', tier, x, alpha, t) - Score(m, s, tier, x, alpha, t)
            == (if e' < 0.0 then 0.0 else if e' > 1.0 then 1.0 else e')
               - (if e < 0.0 then 0.0 else if e > 1.0 then 1.0 else e)
  {
    hide Dot, MatVec, Bonus, Penalty, Quad, Growth, Root;
  }

  /** The choice among arms: one is not chosen while another of its tier, with the same matrix and the same number of
      updates, has the greater estimate, unless both are at or beyond the same end of the range. */
  lemma GreaterEstimateWins(m: Analysis, arms: seq<ArmState>, tiers: seq<string>, x: Vec, alpha: real, t: nat,
                            i: nat, j: nat, best: int)
    requires Positive(m) && |arms| == |tiers| && i < |arms| && j < |arms| && tiers[i] == tiers[j]
    requires arms[i].aInv == arms[j].aInv && arms[i].updates == arms[j].updates
    requires var e, e' := Dot(MatVec(arms[i].aInv, arms[i].b), x), Dot(MatVec(arms[j].aInv, arms[j].b), x);
             e < e' && e < 1.0 && e' > 0.0
    requires IsFirstMax(Scores(m, arms, tiers, x, alpha, t), best)
    ensures best != i
  {
    var scores := Scores(m, arms, tiers, x, alpha, t);
    EstimatesDecide(m, arms[i], arms[j], tiers[i], x, alpha, t);
    hide Score, Dot, MatVec;
    assert scores[i] < scores[j];
  }

  /** The choice of the gateway, likewise. */
  lemma GreaterEstimateIsPicked(m: Analysis, views: map<string, View>, pool: seq<Node>, eligible: Node -> bool,
                                excluded: seq<string>, forced: Option<string>, n: Node, o: Node, x: Vec, alpha: real,
                                t: nat, chosen: Option<Node>)
    requires Positive(m) && IsTop(pool, eligible, excluded, forced, ScoreIn(m, views, x, alpha, t), chosen)
    requires o in pool && o.addr !in excluded && eligible(o) && (forced.Some? ==> o.tier == forced.value)
    requires var v, w := ViewOf(views, n), ViewOf(views, o);
             && v.tier == w.tier && v.state.aInv == w.state.aInv && v.state.updates == w.state.updates
             && var e, e' := Dot(MatVec(v.state.aInv, v.state.b), x), Dot(MatVec(w.state.aInv, w.state.b), x);
                e < e' && e < 1.0 && e' > 0.0
    ensures chosen.Some? && chosen.value != n
  {
    HigherWins(m, views, n, o, x, alpha, t);
    hide *;
    BeatenIsNotTop(pool, eligible, excluded, forced, ScoreIn(m, views, x, alpha, t), n, o, chosen);
  }

  lemma HigherWins(m: Analysis, views: map<string, View>, n: Node, o: Node, x: Vec, alpha: real, t: nat)
    requires Positive(m)
    requires var v, w := ViewOf(views, n), ViewOf(views, o);
             && v.tier == w.tier && v.state.aInv == w.state.aInv && v.state.updates == w.state.updates
             && var e, e' := Dot(MatVec(v.state.aInv, v.state.b), x), Dot(MatVec(w.state.aInv, w.state.b), x);
                e < e' && e < 1.0 && e' > 0.0
    ensures ScoreIn(m, views, x, alpha, t)(n) < ScoreIn(m, views, x, alpha, t)(o)
  {
    var v, w := ViewOf(views, n), ViewOf(views, o);
    EstimatesDecide(m, v.state, w.state, v.tier, x, alpha, t);
    hide Score, Dot, MatVec, ViewOf;
  }

  lemma BeatenIsNotTop(pool: seq<Node>, eligible: Node -> bool, excluded: seq<string>, forced: Option<string>,
                       score: Node -> real, n: Node, o: Node, chosen: Option<Node>)
    requires IsTop(pool, eligible, excluded, forced, score, chosen) && score(n) < score(o)
    requires o in pool && o.addr !in excluded && eligible(o) && (forced.Some? ==> o.tier == forced.value)
    ensures chosen.Some? && chosen.value != n
  {
    var j :| 0 <= j < |pool| && pool[j] == o;
    var top, s :| TopSoFar(pool, |pool|, eligible, excluded, forced, score, chosen, s, top);
  }

  // ---------------------------------------------------------------- arms with a constant reward

  /** The same contexts, each rewarded with `r`. */
  function Priced(history: seq<Feedback>, r: real): (h: seq<Feedback>)
    ensures |h| == |history|
  {
    seq(|history|, k requires 0 <= k < |history| => Feedback(history[k].x, r))
  }

  lemma ScaledStep(v: Vec, x: Vec, r: real)
    ensures Add(Scale(r, v), Scale(r, x)) == Scale(r, Add(v, Scale(1.0, x)))
    ensures Scale(FORGET_KEEP, Scale(r, v)) == Scale(r, Scale(FORGET_KEEP, v))
    ensures Scale(r, ZERO) == ZERO
  {
    ScaleTwice(FORGET_KEEP, r, 0.9 * r, v);
    ScaleTwice(r, FORGET_KEEP, 0.9 * r, v);
  }

  lemma LearnsInProportion(s: ArmState, r: real, x: Vec, period: nat)
    requires period > 0 && Denominator(s.aInv, x) != 0.0
    ensures var t := Learn(s, x, 1.0, period);
            Learn(s.(b := Scale(r, s.b)), x, r, period) == t.(b := Scale(r, t.b))
  {
    hide Denominator, RankOne, Blend, Scale, Add;
    ScaledStep(s.b, x, r);
    ScaledStep(Add(s.b, Scale(1.0, x)), x, r);
  }

  /** An arm that always earns `r` has the matrix and the updates of one that always earns 1, and `r` times its vector,
      whatever the contexts and however often it has forgotten. */
  lemma {:induction false} ConstantReward(history: seq<Feedback>, r: real, period: nat)
    requires period > 0
    ensures var one := LearnAll(FRESH_ARM, Priced(history, 1.0), period);
            var s := LearnAll(FRESH_ARM, Priced(history, r), period);
            one.Learned? && s == Learned(one.arm.(b := Scale(r, one.arm.b)))
  {
    if history == [] {
      ScaledStep(ZERO, ZERO, r);
    } else {
      hide *;
      var front, x := history[..|history| - 1], history[|history| - 1].x;
      EveryReachableArmIsGood(Priced(front, 1.0), period);
      ConstantReward(front, r, period);
      var t := LearnAll(FRESH_ARM, Priced(front, 1.0), period).arm;
      DenominatorAtLeastOne(t.aInv, x);
      PricedPush(history, 1.0, t, period);
      PricedPush(history, r, t.(b := Scale(r, t.b)), period);
      LearnsInProportion(t, r, x, period);
    }
  }

  lemma PricedPush(history: seq<Feedback>, r: real, s: ArmState, period: nat)
    requires history != [] && period > 0
    requires LearnAll(FRESH_ARM, Priced(history[..|history| - 1], r), period) == Learned(s)
    requires Denominator(s.aInv, history[|history| - 1].x) != 0.0
    ensures LearnAll(FRESH_ARM, Priced(history, r), period) == Learned(Learn(s, history[|history| - 1].x, r, period))
  {
    hide Learn, Denominator;
    assert Priced(history, r)[..|history| - 1] == Priced(history[..|history| - 1], r);
  }

  lemma ScaledEstimate(a: Mat, v: Vec, r: real, x: Vec)
    ensures Dot(MatVec(a, Scale(r, v)), x) == r * Dot(MatVec(a, v), x)
  {
    hide Dot, MatVec;
    MatVecScale(a, r, v);
    RowScale(r, MatVec(a, v), x);
  }

  /** The arm of a tier that has served the contexts of `history`, always earning `r`. */
  function Earning(history: seq<Feedback>, r: real, tier: string): ArmState {
    match LearnAll(FRESH_ARM, Priced(history, r), ForgetPeriod(tier))
    case Learned(s) => s
    case DivisionByZero => FRESH_ARM
  }

  lemma EarningIsLearned(history: seq<Feedback>, r: real, tier: string)
    ensures LearnAll(FRESH_ARM, Priced(history, r), ForgetPeriod(tier)) == Learned(Earning(history, r, tier))
    ensures Earning(history, r, tier)
         == Earning(history, 1.0, tier).(b := Scale(r, Earning(history, 1.0, tier).b))
  {
    hide LearnAll, Scale, ForgetPeriod, Priced;
    ConstantReward(history, r, ForgetPeriod(tier));
  }

  /** `e` is the estimate of the arm that has served these contexts and always earned `r`. */
  predicate Estimated(history: seq<Feedback>, r: real, tier: string, x: Vec, e: real) {
    e == Dot(MatVec(Earning(history, r, tier).aInv, Earning(history, r, tier).b), x)
  }

  lemma EstimateInProportion(history: seq<Feedback>, r: real, tier: string, x: Vec, e: real, er: real)
    requires Estimated(history, 1.0, tier, x, e) && Estimated(history, r, tier, x, er)
    ensures er == r * e
  {
    EarningIsLearned(history, r, tier);
    hide Dot, MatVec, Earning, Scale;
    var one := Earning(history, 1.0, tier);
    ScaledEstimate(one.aInv, one.b, r, x);
  }

  lemma EarningAlike(m: Analysis, history: seq<Feedback>, tier: string, r: real, r': real, x: Vec, alpha: real, t: nat,
                     er: real, er': real)
    requires Positive(m) && Estimated(history, r, tier, x, er) && Estimated(history, r', tier, x, er')
    ensures Score(m, Earning(history, r', tier), tier, x, alpha, t)
          - Score(m, Earning(history, r, tier), tier, x, alpha, t) == Limited(er') - Limited(er)
  {
    hide Score, Dot, MatVec, Earning, Scale, Positive, Limited, Root;
    EarningIsLearned(history, r, tier);
    EarningIsLearned(history, r', tier);
    RootIsPositive(m, Earning(history, r, tier).updates);
    LimitedDecides(m, Earning(history, r, tier), Earning(history, r', tier), tier, x, alpha, t, er, er');
  }

  /** Exploitation: of two arms of one tier that have served the same contexts, one always earning r and the other
      r' > r, the second scores higher exactly if the estimate `e` of an arm that always earns 1 is positive and the
      estimate `er` of the first is below 1. */
  lemma MoreRewardScoresHigher(m: Analysis, history: seq<Feedback>, tier: string, r: real, r': real, x: Vec,
                               alpha: real, t: nat, e: real, er: real, er': real)
    requires Positive(m) && 0.0 <= r < r' && Estimated(history, 1.0, tier, x, e)
    requires Estimated(history, r, tier, x, er) && Estimated(history, r', tier, x, er')
    ensures Score(m, Earning(history, r, tier), tier, x, alpha, t)
          < Score(m, Earning(history, r', tier), tier, x, alpha, t)
       <==> e > 0.0 && er < 1.0
  {
    hide Score, Dot, MatVec, Earning, Positive, Estimated, Limited;
    EarningAlike(m, history, tier, r, r', x, alpha, t, er, er');
    EstimateInProportion(history, r, tier, x, e, er);
    EstimateInProportion(history, r', tier, x, e, er');
    ClampedProducts(e, r, r', er, er');
  }

  lemma LimitedDecides(m: Analysis, s: ArmState, s': ArmState, tier: string, x: Vec, alpha: real, t: nat, e: real,
                       e': real)
    requires s.aInv == s'.aInv && s.updates == s'.updates && Root(m, s.updates) != 0.0
    requires e == Dot(MatVec(s.aInv, s.b), x) && e' == Dot(MatVec(s'.aInv, s'.b), x)
    ensures Score(m, s', tier, x, alpha, t) - Score(m, s, tier, x, alpha, t) == Limited(e') - Limited(e)
  {
    EstimatesDecide(m, s, s', tier, x, alpha, t);
    hide Score, Dot, MatVec;
  }

  lemma RootIsPositive(m: Analysis, n: nat)
    requires Positive(m)
    ensures Root(m, n) >= 1.0
  {
  }

  function Limited(e: real): real {
    if e < 0.0 then 0.0 else if e > 1.0 then 1.0 else e
  }

  lemma ClampedProducts(e: real, r: real, r': real, er: real, er': real)
    requires 0.0 <= r < r' && er == r * e && er' == r' * e
    ensures Limited(er) < Limited(er') <==> e > 0.0 && er < 1.0
  {
    var d := (r' - r) * e;
    assert d == er' - er;
    if e > 0.0 {
      ProductSign(r' - r, e, d);
      Scaled(0.0, r, e);
    } else {
      Scaled(e, 0.0, r);
      Scaled(e, 0.0, r');
    }
  }

  // ---------------------------------------------------------------- one context, before and after forgetting

  lemma {:induction false} RepeatedIsPriced(x: Vec, r: real, n: nat)
    ensures Priced(Repeated(x, 1.0, n), r) == Repeated(x, r, n)
  {
    if n > 0 {
      RepeatedIsPriced(x, r, n - 1);
    }
  }

  predicate IsProduct(p: real, n: real, q: real) {
    p == n * q
  }

  /** f == g / (1 + n q) */
  predicate Ratio(f: real, n: real, q: real, g: real) {
    f * (1.0 + n * q) == g
  }

  lemma EstimateOf(a: Mat, n: real, x: Vec, q: real, p: real, e: real)
    requires Ratio(Form(a, x, x), n, q, q) && IsProduct(p, n, q)
    requires e == Dot(MatVec(a, Scale(n, x)), x)
    ensures Ratio(e, n, q, p)
  {
    FormIsDot(a, x);
    hide Dot, MatVec, Form, Ratio, IsProduct;
    ScaledEstimate(a, x, n, x);
    DotCommutes(MatVec(a, x), x);
    var f := Form(a, x, x);
    assert e == n * f;
    hide *;
    TimesRatio(n, f, q, p, e);
  }

  lemma TimesRatio(n: real, f: real, q: real, p: real, e: real)
    requires e == n * f && Ratio(f, n, q, q) && IsProduct(p, n, q)
    ensures Ratio(e, n, q, p)
  {
    var d := 1.0 + n * q;
    assert e * d == n * (f * d);
  }

  lemma FormIsDot(a: Mat, x: Vec)
    ensures Form(a, x, x) == Dot(x, MatVec(a, x))
  {
  }

  lemma FreshForms(x: Vec, q: real)
    requires q == Dot(x, x)
    ensures Good(FRESH_ARM.aInv) && FRESH_ARM.b == ZERO && FRESH_ARM.updates == 0
    ensures Quad(FRESH_ARM.aInv, x) == Form(FRESH_ARM.aInv, x, x) == q >= 0.0
  {
    IdentityIsGood();
    QuadOfIdentity(x);
    FormNonNegative(IDENTITY, x);
  }

  /** An arm that has earned 1 in one context `n` times and not yet forgotten. */
  lemma OneContextForm(x: Vec, n: nat, period: nat, q: real)
    requires n < period && q == Dot(x, x)
    ensures var r := LearnAll(FRESH_ARM, Repeated(x, 1.0, n), period);
            r.Learned? && r.arm.b == Scale(n as real, x) && Ratio(Form(r.arm.aInv, x, x), n as real, q, q)
  {
    FreshForms(x, q);
    assert BlendsAt(0, period);
    hide *;
    UndisturbedBehindBlend(0, n, period);
    Rewarded(FRESH_ARM, x, n, period);
    RewardedRatio(FRESH_ARM, x, n, period);
    ZeroAdds(Scale(n as real, x));
  }

  lemma RewardedRatio(s: ArmState, x: Vec, n: nat, period: nat)
    requires Good(s.aInv) && period > 0 && Undisturbed(s.updates, n, period)
    ensures var r := LearnAll(s, Repeated(x, 1.0, n), period);
            r.Learned? && Ratio(Form(r.arm.aInv, x, x), n as real, Quad(s.aInv, x), Form(s.aInv, x, x))
  {
    hide LearnAll, Good, Undisturbed, Repeated, Form, Quad;
    RewardedForm(s, x, n, period, x);
  }

  /** Its estimate is n q / (1 + n q), where q = x'x. */
  lemma OneContextEstimate(x: Vec, n: nat, period: nat, q: real, p: real)
    requires n < period && q == Dot(x, x) && IsProduct(p, n as real, q)
    ensures var r := LearnAll(FRESH_ARM, Repeated(x, 1.0, n), period);
            && r.Learned? && r.arm.b == Scale(n as real, x)
            && Ratio(Dot(MatVec(r.arm.aInv, r.arm.b), x), n as real, q, p)
  {
    hide *;
    OneContextForm(x, n, period, q);
    var s := LearnAll(FRESH_ARM, Repeated(x, 1.0, n), period).arm;
    EstimateOf(s.aInv, n as real, x, q, p, Dot(MatVec(s.aInv, s.b), x));
  }

  lemma ZeroAdds(v: Vec)
    ensures Add(ZERO, v) == v
  {
  }

  /** What forgetting does to an estimate: 0.81 of it is kept, and 0.09 b'x, which grows with every update, is added. */
  lemma EstimateAfterForgetting(s: ArmState, x: Vec)
    ensures var f := Forget(s);
            Dot(MatVec(f.aInv, f.b), x) == 0.81 * Dot(MatVec(s.aInv, s.b), x) + 0.09 * Dot(s.b, x)
  {
    var c := Scale(0.9, s.b);
    var kept, anew := MatScale(0.9, s.aInv), MatScale(0.1, IDENTITY);
    IdentityVec(c);
    hide Dot, MatVec, Scale, Add, MatAdd, MatScale;
    MatAddVec(kept, anew, c);
    MatScaleVec(0.9, s.aInv, c);
    MatScaleVec(0.1, IDENTITY, c);
    MatVecScale(s.aInv, 0.9, s.b);
    RowAdd(Scale(0.9, Scale(0.9, MatVec(s.aInv, s.b))), Scale(0.1, c), x);
    RowScale(0.9, Scale(0.9, MatVec(s.aInv, s.b)), x);
    RowScale(0.9, MatVec(s.aInv, s.b), x);
    RowScale(0.1, c, x);
    RowScale(0.9, s.b, x);
  }

  lemma NoBlendBelow(n: nat, period: nat)
    requires 0 < n <= period
    ensures BlendsAt(n, period) <==> n == period
    ensures !BlendsAt(n, period + 1)
  {
  }

  /** Until the last of `period` updates it makes no difference how long the period is. */
  lemma {:induction false} BeforeForgetting(history: seq<Feedback>, period: nat)
    requires |history| < period
    ensures LearnAll(FRESH_ARM, history, period) == LearnAll(FRESH_ARM, history, period + 1)
  {
    hide Denominator, RankOne, Forget, BlendsAt, Good;
    if history != [] {
      var front := history[..|history| - 1];
      BeforeForgetting(front, period);
      EveryReachableArmIsGood(front, period);
      NoBlendBelow(|history|, period);
    }
  }

  /** An arm that has forgotten for the first time is one that has not, and then forgets. */
  lemma FirstForgetting(history: seq<Feedback>, period: nat)
    requires |history| == period > 0
    ensures var r := LearnAll(FRESH_ARM, history, period + 1);
            r.Learned? && LearnAll(FRESH_ARM, history, period) == Learned(Forget(r.arm))
  {
    hide Denominator, RankOne, Forget, BlendsAt, Good;
    var front := history[..|history| - 1];
    BeforeForgetting(front, period);
    EveryReachableArmIsGood(front, period);
    EveryReachableArmIsGood(history, period + 1);
    NoBlendBelow(period, period);
  }

  lemma LargeAfterForgetting(e: real, n: real, q: real, p: real, d: real)
    requires Ratio(e, n, q, p) && IsProduct(p, n, q) && p >= 1000.0 && d == 0.81 * e + 0.09 * p
    ensures d >= 90.0
  {
    assert e * (1.0 + p) == p;
    if e < 0.0 {
      Scaled(e, 0.0, 1.0 + p);
    }
  }

  /** An arm that has earned 1 in one context throughout has an estimate of at least 90 when it has just forgotten for
      the first time. */
  lemma EstimateJustForgotten(x: Vec, period: nat)
    requires period >= 1000 && x.e1 == 1.0
    ensures var r := LearnAll(FRESH_ARM, Repeated(x, 1.0, period), period);
            r.Learned? && Dot(MatVec(r.arm.aInv, r.arm.b), x) >= 90.0
  {
    BiasIsLong(x);
    hide *;
    FirstForgetting(Repeated(x, 1.0, period), period);
    var q, n := Dot(x, x), period as real;
    var p := Times(n, q);
    OneContextEstimate(x, period, period + 1, q, p);
    var s := LearnAll(FRESH_ARM, Repeated(x, 1.0, period), period + 1).arm;
    EstimateAfterForgetting(s, x);
    ScaledDot(n, x, q, p);
    AtLeastThousand(n, q, p);
    var f := Forget(s);
    LargeAfterForgetting(Dot(MatVec(s.aInv, s.b), x), n, q, p, Dot(MatVec(f.aInv, f.b), x));
  }

  function Times(n: real, q: real): (p: real)
    ensures IsProduct(p, n, q)
  {
    n * q
  }

  lemma ScaledDot(n: real, x: Vec, q: real, p: real)
    requires q == Dot(x, x) && IsProduct(p, n, q)
    ensures Dot(Scale(n, x), x) == p
  {
    hide Dot, Scale;
    RowScale(n, x, x);
  }

  lemma AtLeastThousand(n: real, q: real, p: real)
    requires n >= 1000.0 && q >= 1.0 && IsProduct(p, n, q)
    ensures p >= 1000.0
  {
    Scaled(1.0, q, n);
  }

  lemma BiasIsLong(x: Vec)
    requires x.e1 == 1.0
    ensures Dot(x, x) >= 1.0
  {
    assert Dot(x, x) == Square(x.e0) + 1.0 + Square(x.e2) + Square(x.e3);
  }

  lemma EarningInOneContext(x: Vec, n: nat, tier: string)
    ensures LearnAll(FRESH_ARM, Repeated(x, 1.0, n), ForgetPeriod(tier))
         == Learned(Earning(Repeated(x, 1.0, n), 1.0, tier))
  {
    RepeatedIsPriced(x, 1.0, n);
    EarningIsLearned(Repeated(x, 1.0, n), 1.0, tier);
  }

  lemma RatioIsFraction(e: real, n: real, q: real, p: real, r: real, er: real)
    requires Ratio(e, n, q, p) && IsProduct(p, n, q) && n >= 1.0 && q >= 1.0 && 0.0 <= r <= 1.0 && er == r * e
    ensures e > 0.0 && er < 1.0
  {
    Scaled(1.0, n, q);
    assert e * (1.0 + p) == p;
    if e <= 0.0 {
      Scaled(e, 0.0, 1.0 + p);
    } else if e >= 1.0 {
      Scaled(1.0, e, 1.0 + p);
    } else {
      Scaled(r, 1.0, e);
    }
  }

  function EstimateFor(history: seq<Feedback>, r: real, tier: string, x: Vec): (e: real)
    ensures Estimated(history, r, tier, x, e)
  {
    Dot(MatVec(Earning(history, r, tier).aInv, Earning(history, r, tier).b), x)
  }

  /** Until an arm first forgets, rewards decide: of two arms of one tier that have served one context equally often,
      the one that always earned more scores higher there. */
  lemma RewardsDecideAtFirst(m: Analysis, tier: string, x: Vec, n: nat, r: real, r': real, alpha: real, t: nat)
    requires Positive(m) && x.e1 == 1.0 && 0.0 <= r < r' <= 1.0
    requires 1 <= n < if Text.EqIgnoreCase(tier, "free") then 1_000 else 10_000
    ensures Score(m, Earning(Repeated(x, 1.0, n), r, tier), tier, x, alpha, t)
          < Score(m, Earning(Repeated(x, 1.0, n), r', tier), tier, x, alpha, t)
  {
    assert n < ForgetPeriod(tier);
    BiasIsLong(x);
    EarningInOneContext(x, n, tier);
    hide Score, Dot, MatVec, Earning, Positive, EstimateFor, Ratio, IsProduct, Repeated, LearnAll, ForgetPeriod;
    var q, h := Dot(x, x), Repeated(x, 1.0, n);
    var p := Times(n as real, q);
    OneContextEstimate(x, n, ForgetPeriod(tier), q, p);
    var e, er, er' := EstimateFor(h, 1.0, tier, x), EstimateFor(h, r, tier, x), EstimateFor(h, r', tier, x);
    assert Ratio(e, n as real, q, p);
    hide Estimated;
    EstimateInProportion(h, r, tier, x, e, er);
    RatioIsFraction(e, n as real, q, p, r, er);
    MoreRewardScoresHigher(m, h, tier, r, r', x, alpha, t, e, er, er');
  }

  lemma BeyondRange(e: real, r: real, er: real)
    requires e >= 90.0 && r >= 1.0 / 90.0 && er == r * e
    ensures Limited(er) == 1.0
  {
    Scaled(1.0 / 90.0, r, e);
  }

  /** And forgetting undoes that: the update with which both forget for the first time takes any two rewards of at
      least 1/90 beyond the clamp, and the arms score the same. */
  lemma ForgettingHidesRewards(m: Analysis, tier: string, x: Vec, r: real, r': real, alpha: real, t: nat)
    requires Positive(m) && x.e1 == 1.0 && r >= 1.0 / 90.0 && r' >= 1.0 / 90.0
    ensures var h := Repeated(x, 1.0, if Text.EqIgnoreCase(tier, "free") then 1_000 else 10_000);
            Score(m, Earning(h, r, tier), tier, x, alpha, t) == Score(m, Earning(h, r', tier), tier, x, alpha, t)
  {
    var n := ForgetPeriod(tier);
    assert n == (if Text.EqIgnoreCase(tier, "free") then 1_000 else 10_000);
    EarningInOneContext(x, n, tier);
    hide Score, Dot, MatVec, Earning, Positive, EstimateFor, Repeated, LearnAll, ForgetPeriod;
    var h := Repeated(x, 1.0, n);
    EstimateJustForgotten(x, n);
    var e, er, er' := EstimateFor(h, 1.0, tier, x), EstimateFor(h, r, tier, x), EstimateFor(h, r', tier, x);
    assert e >= 90.0;
    hide Estimated, Limited;
    EstimateInProportion(h, r, tier, x, e, er);
    EstimateInProportion(h, r', tier, x, e, er');
    BeyondRange(e, r, er);
    BeyondRange(e, r', er');
    EarningAlike(m, h, tier, r, r', x, alpha, t, er, er');
  }

  // ---------------------------------------------------------------- tiers

  /** A free arm first forgets with its 1,000th update, any other with its 10,000th; before that its matrix is the exact
      inverse and its vector the exact sum. */
  lemma FirstForgettingOfTier(history: seq<Feedback>, tier: string)
    ensures var n := if Text.EqIgnoreCase(tier, "free") then 1_000 else 10_000;
            var r := LearnAll(FRESH_ARM, history, ForgetPeriod(tier));
            && (|history| < n ==>
                  && r.Learned? && IsInverse(AccumulateAll(IDENTITY, history), r.arm.aInv)
                  && r.arm.b == RewardAll(ZERO, history))
            && (|history| == n ==>
                  exists s :: r == Learned(Forget(s)) && IsInverse(AccumulateAll(IDENTITY, history), s.aInv)
                              && s.b == RewardAll(ZERO, history))
  {
    var n := if Text.EqIgnoreCase(tier, "free") then 1_000 else 10_000;
    assert ForgetPeriod(tier) == n;
    hide *;
    if |history| < n {
      FreshArmExactInverse(history, n);
    } else if |history| == n {
      FirstForgetting(history, n);
      FreshArmExactInverse(history, n + 1);
    }
  }

  /** What a tier costs, on top of a residential one: arms of two tiers in the same state score this much apart. */
  lemma TierCosts(m: Analysis, s: ArmState, tier: string, x: Vec, alpha: real, t: nat)
    requires Root(m, s.updates) != 0.0
    ensures Score(m, s, tier, x, alpha, t) - Score(m, s, "residential", x, alpha, t)
         == if Text.EqIgnoreCase(tier, "datacenter") || Text.EqIgnoreCase(tier, "dc") then 0.045
            else if Text.EqIgnoreCase(tier, "mobile") || Text.EqIgnoreCase(tier, "free") then -0.1
            else 0.0
  {
    LowerNames();
    hide Dot, MatVec, Bonus, Quad, Growth, Root, Clamp, Text.Lower;
  }
}
