/** The state of one bandit arm, its Sherman-Morrison update and the forgetting blend, over exact reals. */
module ArmAlgebra {
  import opened LinearAlgebra

  const FORGET_KEEP := 0.9
  const FORGET_EVERY_FREE: nat := 1_000
  const FORGET_EVERY: nat := 10_000

  datatype ArmState = ArmState(aInv: Mat, b: Vec, updates: nat)

  const FRESH_ARM := ArmState(IDENTITY, ZERO, 0)

  function Quad(m: Mat, v: Vec): real {
    Form(m, v, v)
  }

  function Denominator(a: Mat, x: Vec): real {
    1.0 + Dot(x, MatVec(a, x))
  }

  function Gain(a: Mat, x: Vec): real
    requires Denominator(a, x) != 0.0
  {
    -1.0 / Denominator(a, x)
  }

  /** a - (a x)(a x)' / (1 + x' a x) */
  function RankOne(a: Mat, x: Vec): Mat
    requires Denominator(a, x) != 0.0
  {
    var ax := MatVec(a, x);
    MatAdd(a, MatScale(Gain(a, x), Outer(ax, ax)))
  }

  function Blend(a: Mat): Mat {
    MatAdd(MatScale(FORGET_KEEP, a), MatScale(1.0 - FORGET_KEEP, IDENTITY))
  }

  function Forget(s: ArmState): ArmState {
    s.(aInv := Blend(s.aInv), b := Scale(FORGET_KEEP, s.b))
  }

  predicate BlendsAt(updates: int, period: nat)
    requires period > 0
  {
    updates % period == 0
  }

  /** One update, with a forgetting blend after every `period`-th. */
  function Learn(s: ArmState, x: Vec, reward: real, period: nat): ArmState
    requires Denominator(s.aInv, x) != 0.0
    requires period > 0
  {
    var next := ArmState(RankOne(s.aInv, x), Add(s.b, Scale(reward, x)), s.updates + 1);
    if BlendsAt(next.updates, period) then Forget(next) else next
  }

  /** Symmetric, positive definite, and at most the identity. */
  ghost predicate Good(a: Mat) {
    && Symmetric(a)
    && forall y :: 0.0 <= Quad(a, y) <= Dot(y, y) && (y != ZERO ==> Quad(a, y) > 0.0)
  }

  // ---------------------------------------------------------------- forms

  lemma QuadOfSum(a: Mat, u: Vec, v: Vec)
    requires Symmetric(a)
    ensures Quad(a, Add(u, v)) == Quad(a, u) + 2.0 * Form(a, u, v) + Quad(a, v)
  {
    hide Dot;
    hide MatVec;
    MatVecAdd(a, u, v);
    var s, au, av := Add(u, v), MatVec(a, u), MatVec(a, v);
    DotAdd(s, au, av);
    DotCommutes(s, au);
    DotCommutes(s, av);
    DotAdd(au, u, v);
    DotAdd(av, u, v);
    DotCommutes(au, u);
    DotCommutes(au, v);
    DotCommutes(av, u);
    DotCommutes(av, v);
    FormCommutes(a, u, v);
  }

  lemma FormOfScaled(a: Mat, j: real, u: Vec, k: real, v: Vec)
    ensures Form(a, Scale(j, u), Scale(k, v)) == j * k * Form(a, u, v)
  {
    hide Dot;
    hide MatVec;
    MatVecScale(a, k, v);
    var av := MatVec(a, v);
    DotScale(Scale(j, u), k, av);
    DotCommutes(Scale(j, u), av);
    DotScale(av, j, u);
    DotCommutes(av, u);
    assert k * (j * Dot(u, av)) == j * k * Dot(u, av);
  }

  lemma QuadOfCombination(a: Mat, j: real, u: Vec, k: real, v: Vec)
    requires Symmetric(a)
    ensures Quad(a, Add(Scale(j, u), Scale(k, v)))
         == j * j * Quad(a, u) + 2.0 * (j * k * Form(a, u, v)) + k * k * Quad(a, v)
  {
    hide Form;
    QuadOfSum(a, Scale(j, u), Scale(k, v));
    FormOfScaled(a, j, u, j, u);
    FormOfScaled(a, j, u, k, v);
    FormOfScaled(a, k, v, k, v);
  }

  lemma Discriminant(q: real, p: real, f: real)
    requires q > 0.0
    requires q * q * p + 2.0 * (q * -f * f) + -f * -f * q >= 0.0
    ensures f * f <= p * q
  {
    assert q * q * p + 2.0 * (q * -f * f) + -f * -f * q == q * (p * q - f * f);
    if p * q - f * f < 0.0 {
      ProductSign(q, p * q - f * f, q * (p * q - f * f));
    }
  }

  /** Cauchy-Schwarz for the form of a positive definite matrix. */
  lemma CauchySchwarz(a: Mat, u: Vec, v: Vec)
    requires Good(a)
    ensures Form(a, u, v) * Form(a, u, v) <= Quad(a, u) * Quad(a, v)
  {
    hide Form;
    hide Dot;
    hide Add;
    hide Scale;
    if v == ZERO {
      FormAtZero(a, u);
    } else {
      var f, q := Form(a, u, v), Quad(a, v);
      QuadOfCombination(a, q, u, -f, v);
      assert Quad(a, Add(Scale(q, u), Scale(-f, v))) >= 0.0;
      Discriminant(q, Quad(a, u), f);
    }
  }

  lemma FormAtZero(a: Mat, u: Vec)
    ensures Form(a, u, ZERO) == 0.0 && Quad(a, ZERO) == 0.0
  {
  }

  /** In exact arithmetic the denominator of the update is at least one. */
  lemma DenominatorAtLeastOne(a: Mat, x: Vec)
    requires Good(a)
    ensures Denominator(a, x) == 1.0 + Quad(a, x) >= 1.0
  {
  }

  lemma NegatedQuotient(n: real, d: real)
    requires d != 0.0
    ensures -1.0 / d * n == -(n / d)
  {
    var i, r := -1.0 / d, n / d;
    assert i * d == -1.0;
    assert r * d == n;
    assert i * (r * d) == (i * d) * r;
  }

  /** y' (RankOne a) y == y' a y - (y' a x)^2 / (1 + x' a x) */
  lemma QuadAfterRankOne(a: Mat, x: Vec, y: Vec)
    requires Denominator(a, x) != 0.0
    ensures Quad(RankOne(a, x), y) == Quad(a, y) - Form(a, y, x) * Form(a, y, x) / Denominator(a, x)
  {
    hide Dot;
    hide MatVec;
    var ax, d := MatVec(a, x), Denominator(a, x);
    var k, outer, f := -1.0 / d, Outer(ax, ax), Dot(y, ax);
    MatAddVec(a, MatScale(k, outer), y);
    MatScaleVec(k, outer, y);
    OuterVec(ax, ax, y);
    DotCommutes(ax, y);
    assert MatVec(outer, y) == Scale(f, ax);
    DotAdd(y, MatVec(a, y), Scale(k, Scale(f, ax)));
    DotScale(y, k, Scale(f, ax));
    DotScale(y, f, ax);
    assert Form(a, y, x) == f;
    var ff := f * f;
    assert Dot(y, Scale(f, ax)) == ff;
    assert Dot(y, Scale(k, Scale(f, ax))) == k * ff;
    NegatedQuotient(ff, d);
    assert Quad(RankOne(a, x), y) == Dot(y, MatVec(a, y)) + k * ff;
    assert k * ff == -(ff / d);
    assert ff / d == Form(a, y, x) * Form(a, y, x) / Denominator(a, x);
  }

  lemma OuterIsSymmetric(u: Vec)
    ensures Symmetric(Outer(u, u))
  {
  }

  lemma CombinationIsSymmetric(a: Mat, k: real, b: Mat)
    requires Symmetric(a) && Symmetric(b)
    ensures Symmetric(MatAdd(a, MatScale(k, b)))
  {
    ScaleKeepsSymmetric(k, b);
    hide Scale, MatScale;
  }

  lemma ScaleKeepsSymmetric(k: real, b: Mat)
    requires Symmetric(b)
    ensures Symmetric(MatScale(k, b))
  {
  }

  lemma RankOneStaysSymmetric(a: Mat, x: Vec)
    requires Symmetric(a) && Denominator(a, x) != 0.0
    ensures Symmetric(RankOne(a, x))
  {
    hide Symmetric;
    OuterIsSymmetric(MatVec(a, x));
    CombinationIsSymmetric(a, Gain(a, x), Outer(MatVec(a, x), MatVec(a, x)));
  }

  lemma QuotientBelow(n: real, d: real, q: real)
    requires d > 0.0
    ensures n <= q * d ==> n / d <= q
    ensures n < q * d ==> n / d < q
    ensures n >= 0.0 ==> n / d >= 0.0
  {
    assert n / d * d == n;
    if n / d > q {
      ProductSign(d, q - n / d, d * (q - n / d));
    } else if n / d < 0.0 {
      ProductSign(d, n / d, d * (n / d));
    }
  }

  lemma ShrinkBounds(q: real, qx: real, ff: real, result: real)
    requires q >= 0.0 && qx >= 0.0 && 0.0 <= ff <= q * qx
    requires result == q - ff / (1.0 + qx)
    ensures 0.0 <= result <= q
    ensures q > 0.0 ==> result > 0.0
  {
    assert q * (1.0 + qx) == q + q * qx;
    QuotientBelow(ff, 1.0 + qx, q);
  }

  lemma QuadAfterRankOneBounds(a: Mat, x: Vec, y: Vec)
    requires Good(a) && Denominator(a, x) == 1.0 + Quad(a, x) >= 1.0
    ensures 0.0 <= Quad(RankOne(a, x), y) <= Quad(a, y)
    ensures Quad(a, y) > 0.0 ==> Quad(RankOne(a, x), y) > 0.0
  {
    hide Form;
    hide Dot;
    hide MatVec;
    hide RankOne;
    hide Denominator;
    var f := Form(a, y, x);
    QuadAfterRankOne(a, x, y);
    CauchySchwarz(a, y, x);
    ShrinkBounds(Quad(a, y), Quad(a, x), Square(f), Quad(RankOne(a, x), y));
  }

  lemma RankOneKeepsGood(a: Mat, x: Vec)
    requires Good(a)
    ensures Denominator(a, x) >= 1.0
    ensures Good(RankOne(a, x))
    ensures forall y :: Quad(RankOne(a, x), y) <= Quad(a, y)
  {
    DenominatorAtLeastOne(a, x);
    RankOneStaysSymmetric(a, x);
    hide Quad;
    hide Dot;
    hide MatVec;
    hide Denominator;
    hide RankOne;
    hide Symmetric;
    var a' := RankOne(a, x);
    forall y
      ensures 0.0 <= Quad(a', y) <= Quad(a, y)
      ensures y != ZERO ==> Quad(a', y) > 0.0
    {
      QuadAfterRankOneBounds(a, x, y);
    }
  }

  lemma QuadOfBlend(a: Mat, y: Vec)
    ensures Quad(Blend(a), y) == 0.9 * Quad(a, y) + 0.1 * Dot(y, y)
  {
    hide Dot;
    hide MatVec;
    MatAddVec(MatScale(0.9, a), MatScale(0.1, IDENTITY), y);
    MatScaleVec(0.9, a, y);
    MatScaleVec(0.1, IDENTITY, y);
    IdentityVec(y);
    DotAdd(y, Scale(0.9, MatVec(a, y)), Scale(0.1, y));
    DotScale(y, 0.9, MatVec(a, y));
    DotScale(y, 0.1, y);
  }

  lemma BlendKeepsGood(a: Mat)
    requires Good(a)
    ensures Good(Blend(a))
  {
    assert Symmetric(Blend(a));
    hide Quad;
    hide Dot;
    hide Blend;
    hide Symmetric;
    forall y
      ensures 0.0 <= Quad(Blend(a), y) <= Dot(y, y) && (y != ZERO ==> Quad(Blend(a), y) > 0.0)
    {
      QuadOfBlend(a, y);
      DotPositive(y);
    }
  }

  // ---------------------------------------------------------------- what the update inverts

  ghost predicate IsInverse(p: Mat, a: Mat) {
    forall v :: MatVec(p, MatVec(a, v)) == v && MatVec(a, MatVec(p, v)) == v
  }

  /** p + x x' */
  function Accumulate(p: Mat, x: Vec): Mat {
    MatAdd(p, Outer(x, x))
  }

  lemma AccumulateVec(p: Mat, x: Vec, v: Vec)
    ensures MatVec(Accumulate(p, x), v) == Add(MatVec(p, v), Scale(Dot(x, v), x))
  {
    MatAddVec(p, Outer(x, x), v);
    OuterVec(x, x, v);
  }

  lemma RankOneVec(a: Mat, x: Vec, v: Vec)
    requires Denominator(a, x) != 0.0
    ensures MatVec(RankOne(a, x), v)
         == Add(MatVec(a, v), Scale(Gain(a, x), Scale(Dot(MatVec(a, x), v), MatVec(a, x))))
  {
    hide Dot, MatVec, Denominator, Gain, Add, Scale, MatAdd, MatScale, Outer;
    var ax := MatVec(a, x);
    MatAddVec(a, MatScale(Gain(a, x), Outer(ax, ax)), v);
    MatScaleVec(Gain(a, x), Outer(ax, ax), v);
    OuterVec(ax, ax, v);
  }

  lemma ScaleTwice(j: real, k: real, c: real, v: Vec)
    requires j * k == c
    ensures Scale(j, Scale(k, v)) == Scale(c, v)
  {
    assert j * (k * v.e0) == j * k * v.e0;
    assert j * (k * v.e1) == j * k * v.e1;
    assert j * (k * v.e2) == j * k * v.e2;
    assert j * (k * v.e3) == j * k * v.e3;
  }

  lemma Cancel(v: Vec, c: real, x: Vec)
    ensures Add(Add(v, Scale(c, x)), Scale(-c, x)) == v
  {
    assert -c * x.e0 == -(c * x.e0);
    assert -c * x.e1 == -(c * x.e1);
    assert -c * x.e2 == -(c * x.e2);
    assert -c * x.e3 == -(c * x.e3);
  }

  /** Moving the matrix of a symmetric form to the other side. */
  lemma MoveAcross(a: Mat, u: Vec, v: Vec)
    requires Symmetric(a)
    ensures Dot(MatVec(a, u), v) == Dot(u, MatVec(a, v))
  {
    hide Dot;
    hide MatVec;
    FormCommutes(a, u, v);
    DotCommutes(v, MatVec(a, u));
  }

  lemma Solve(f: real, d: real, g: real)
    requires d != 0.0 && g == -1.0 / d
    ensures f + g * f * (d - 1.0) == -(g * f)
    ensures g * (f + f * (d - 1.0)) == -f
  {
    assert g * d == -1.0;
    assert g * f * d == (g * d) * f;
    assert g * (f + f * (d - 1.0)) == g * f * d;
  }

  lemma GainSolves(a: Mat, x: Vec, f: real)
    requires Denominator(a, x) != 0.0
    ensures f + Gain(a, x) * f * Dot(x, MatVec(a, x)) == -(Gain(a, x) * f)
    ensures Gain(a, x) * (f + f * Dot(x, MatVec(a, x))) == -f
  {
    Solve(f, Denominator(a, x), Gain(a, x));
  }

  lemma UpdateInvertsLeft(p: Mat, a: Mat, x: Vec, v: Vec)
    requires Symmetric(a) && IsInverse(p, a) && Denominator(a, x) != 0.0
    ensures MatVec(Accumulate(p, x), MatVec(RankOne(a, x), v)) == v
  {
    hide Dot, MatVec, Accumulate, RankOne, Symmetric, Denominator, Gain, Add, Scale;
    var ax, av, f := MatVec(a, x), MatVec(a, v), Dot(MatVec(a, x), v);
    var c := Gain(a, x) * f;
    var w := Add(av, Scale(c, ax));
    RankOneVec(a, x, v);
    ScaleTwice(Gain(a, x), f, c, ax);
    assert MatVec(RankOne(a, x), v) == w;
    AccumulateVec(p, x, w);
    MatVecAdd(p, av, Scale(c, ax));
    MatVecScale(p, c, ax);
    assert MatVec(p, w) == Add(v, Scale(c, x));
    DotAdd(x, av, Scale(c, ax));
    DotScale(x, c, ax);
    MoveAcross(a, x, v);
    GainSolves(a, x, f);
    assert Dot(x, w) == -c;
    Cancel(v, c, x);
  }

  lemma UpdateInvertsRight(p: Mat, a: Mat, x: Vec, v: Vec)
    requires Symmetric(a) && IsInverse(p, a) && Denominator(a, x) != 0.0
    ensures MatVec(RankOne(a, x), MatVec(Accumulate(p, x), v)) == v
  {
    hide Dot, MatVec, Accumulate, RankOne, Symmetric, Denominator, Gain, Add, Scale;
    var ax, pv, e := MatVec(a, x), MatVec(p, v), Dot(x, v);
    var u := Add(pv, Scale(e, x));
    AccumulateVec(p, x, v);
    RankOneVec(a, x, u);
    MatVecAdd(a, pv, Scale(e, x));
    MatVecScale(a, e, x);
    assert MatVec(a, u) == Add(v, Scale(e, ax));
    DotAdd(ax, pv, Scale(e, x));
    DotScale(ax, e, x);
    DotCommutes(ax, x);
    MoveAcross(a, x, pv);
    GainSolves(a, x, e);
    assert Dot(ax, u) == e + e * Dot(x, ax);
    ScaleTwice(Gain(a, x), Dot(ax, u), -e, ax);
    Cancel(v, e, ax);
  }

  /** The update keeps the matrix the inverse of the accumulated sum of x x'. */
  lemma RankOneInvertsAccumulate(p: Mat, a: Mat, x: Vec)
    requires Good(a) && IsInverse(p, a)
    ensures Denominator(a, x) >= 1.0
    ensures IsInverse(Accumulate(p, x), RankOne(a, x))
  {
    DenominatorAtLeastOne(a, x);
    hide MatVec;
    hide Dot;
    hide Accumulate;
    hide RankOne;
    hide Denominator;
    forall v
      ensures MatVec(Accumulate(p, x), MatVec(RankOne(a, x), v)) == v
      ensures MatVec(RankOne(a, x), MatVec(Accumulate(p, x), v)) == v
    {
      UpdateInvertsLeft(p, a, x, v);
      UpdateInvertsRight(p, a, x, v);
    }
  }

  // ---------------------------------------------------------------- every history of one arm

  datatype Feedback = Feedback(x: Vec, reward: real)

  /** The arm after learning from `history`, starting from `s`. */
  function LearnAll(s: ArmState, history: seq<Feedback>, period: nat): (r: Learned)
    requires period > 0
  {
    if history == [] then Learned(s)
    else
      match LearnAll(s, history[..|history| - 1], period)
      case DivisionByZero => DivisionByZero
      case Learned(t) =>
        var f := history[|history| - 1];
        if Denominator(t.aInv, f.x) == 0.0 then DivisionByZero else Learned(Learn(t, f.x, f.reward, period))
  }

  datatype Learned = DivisionByZero | Learned(arm: ArmState)

  lemma LearnKeepsGood(s: ArmState, x: Vec, reward: real, period: nat)
    requires Good(s.aInv) && period > 0
    ensures Denominator(s.aInv, x) >= 1.0
    ensures Good(Learn(s, x, reward, period).aInv)
  {
    hide Good;
    RankOneKeepsGood(s.aInv, x);
    BlendKeepsGood(RankOne(s.aInv, x));
  }

  lemma QuadOfIdentity(y: Vec)
    ensures Quad(IDENTITY, y) == Dot(y, y)
  {
    IdentityVec(y);
  }

  lemma IdentityIsGood()
    ensures Good(IDENTITY) && IsInverse(IDENTITY, IDENTITY)
  {
    assert Symmetric(IDENTITY);
    hide Quad, Dot, MatVec, Symmetric;
    forall y
      ensures 0.0 <= Quad(IDENTITY, y) <= Dot(y, y) && (y != ZERO ==> Quad(IDENTITY, y) > 0.0)
    {
      QuadOfIdentity(y);
      DotPositive(y);
    }
    forall v
      ensures MatVec(IDENTITY, MatVec(IDENTITY, v)) == v
    {
      IdentityVec(v);
    }
  }

  /** Whatever an arm learns, through updates and blends, its matrix stays symmetric, positive definite and at most
      the identity; no update divides by zero. */
  lemma {:induction false} EveryReachableArmIsGood(history: seq<Feedback>, period: nat)
    requires period > 0
    ensures var r := LearnAll(FRESH_ARM, history, period);
            && r.Learned?
            && Good(r.arm.aInv)
            && r.arm.updates == |history|
            && (history == [] ==> r.arm == FRESH_ARM)
  {
    hide Good;
    if history == [] {
      IdentityIsGood();
    } else {
      var f := history[|history| - 1];
      EveryReachableArmIsGood(history[..|history| - 1], period);
      var t := LearnAll(FRESH_ARM, history[..|history| - 1], period).arm;
      LearnKeepsGood(t, f.x, f.reward, period);
    }
  }

  /** p plus the sum of x x' over `history`. */
  function AccumulateAll(p: Mat, history: seq<Feedback>): Mat {
    if history == [] then p
    else Accumulate(AccumulateAll(p, history[..|history| - 1]), history[|history| - 1].x)
  }

  /** The sum of reward * x over `history`, added to b. */
  function RewardAll(b: Vec, history: seq<Feedback>): Vec {
    if history == [] then b
    else
      var f := history[|history| - 1];
      Add(RewardAll(b, history[..|history| - 1]), Scale(f.reward, f.x))
  }

  /** Between two blends the matrix is exactly the inverse of the accumulated sum of x x', and b is exactly the
      accumulated sum of reward * x. */
  lemma {:induction false} BetweenBlendsExactInverse(s: ArmState, p: Mat, history: seq<Feedback>, period: nat)
    requires period > 0 && Good(s.aInv) && IsInverse(p, s.aInv)
    requires forall n :: s.updates < n <= s.updates + |history| ==> !BlendsAt(n, period)
    ensures var r := LearnAll(s, history, period);
            && r.Learned?
            && Good(r.arm.aInv)
            && IsInverse(AccumulateAll(p, history), r.arm.aInv)
            && r.arm.b == RewardAll(s.b, history)
            && r.arm.updates == s.updates + |history|
  {
    hide Good;
    hide IsInverse;
    hide Accumulate;
    if history != [] {
      var front, f := history[..|history| - 1], history[|history| - 1];
      BetweenBlendsExactInverse(s, p, front, period);
      var t := LearnAll(s, front, period).arm;
      LearnKeepsGood(t, f.x, f.reward, period);
      RankOneInvertsAccumulate(AccumulateAll(p, front), t.aInv, f.x);
    }
  }

  /** A fresh arm, until its first blend, holds (I + sum x x')^-1. */
  lemma FreshArmExactInverse(history: seq<Feedback>, period: nat)
    requires |history| < period
    ensures var r := LearnAll(FRESH_ARM, history, period);
            && r.Learned?
            && IsInverse(AccumulateAll(IDENTITY, history), r.arm.aInv)
            && r.arm.b == RewardAll(ZERO, history)
  {
    IdentityIsGood();
    BetweenBlendsExactInverse(FRESH_ARM, IDENTITY, history, period);
  }
}
