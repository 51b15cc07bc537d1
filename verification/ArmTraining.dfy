/** What further feedback can make of any arm: without rewards its expectation fades, with rewards it recovers. */
module ArmTraining {
  import opened LinearAlgebra
  import opened ArmAlgebra
  import opened ArmFloor
  import opened Division

  function Repeated(x: Vec, reward: real, n: nat): (h: seq<Feedback>)
    ensures |h| == n
  {
    if n == 0 then [] else Repeated(x, reward, n - 1) + [Feedback(x, reward)]
  }

  lemma {:induction false} LearnAllConcat(s: ArmState, first: seq<Feedback>, second: seq<Feedback>, period: nat)
    requires period > 0 && LearnAll(s, first, period).Learned?
    ensures LearnAll(s, first + second, period) == LearnAll(LearnAll(s, first, period).arm, second, period)
  {
    hide Learn, Denominator;
    if second == [] {
      assert first + second == first;
    } else {
      LearnAllConcat(s, first, second[..|second| - 1], period);
      assert (first + second)[..|first + second| - 1] == first + second[..|second| - 1];
    }
  }

  lemma RepeatedStep(s: ArmState, x: Vec, reward: real, n: nat, period: nat)
    requires period > 0 && n > 0 && LearnAll(s, Repeated(x, reward, n - 1), period).Learned?
    ensures var t := LearnAll(s, Repeated(x, reward, n - 1), period).arm;
            LearnAll(s, Repeated(x, reward, n), period)
            == if Denominator(t.aInv, x) == 0.0 then DivisionByZero else Learned(Learn(t, x, reward, period))
  {
    hide Learn, Denominator;
    assert Repeated(x, reward, n)[..n - 1] == Repeated(x, reward, n - 1);
  }

  // ---------------------------------------------------------------- without rewards

  /** How many of the `n` updates behind the first `u` end in a blend. */
  function Blends(u: nat, n: nat, period: nat): nat
    requires period > 0
  {
    QuotientMonotone(u, u + n, period);
    (u + n) / period - u / period
  }

  lemma NextQuotient(a: nat, d: nat)
    requires d > 0
    ensures (a + 1) / d == a / d + if BlendsAt(a + 1, d) then 1 else 0
  {
    var q, r := a / d, a % d;
    assert a + 1 == d * q + (r + 1);
    if r + 1 == d {
      assert a + 1 == d * (q + 1);
      DivisionIs(a + 1, d, q + 1, 0);
    } else {
      DivisionIs(a + 1, d, q, r + 1);
    }
  }

  lemma NextBlends(u: nat, n: nat, period: nat)
    requires period > 0
    ensures Blends(u, 0, period) == 0
    ensures Blends(u, n + 1, period) == Blends(u, n, period) + if BlendsAt(u + n + 1, period) then 1 else 0
  {
    NextQuotient(u + n, period);
  }

  lemma UnrewardedStep(s: ArmState, x: Vec, period: nat)
    requires Good(s.aInv) && period > 0
    ensures Denominator(s.aInv, x) >= 1.0
    ensures var r := Learn(s, x, 0.0, period);
            && Good(r.aInv) && r.updates == s.updates + 1
            && (BlendsAt(r.updates, period) ==>
                  Dot(r.b, r.b) == 0.81 * Dot(s.b, s.b) && Quad(r.aInv, x) >= 0.1 * Dot(x, x))
            && (!BlendsAt(r.updates, period) ==> r.b == s.b)
  {
    LearnKeepsGood(s, x, 0.0, period);
    RankOneKeepsGood(s.aInv, x);
    assert Add(s.b, Scale(0.0, x)) == s.b;
    ScaledLength(s.b);
    GoodAt(RankOne(s.aInv, x), x);
    hide Good, Dot, Quad, RankOne, Blend, Denominator, Scale, Add;
    QuadOfBlend(RankOne(s.aInv, x), x);
  }

  lemma ScaledLength(b: Vec)
    ensures Dot(Scale(0.9, b), Scale(0.9, b)) == 0.81 * Dot(b, b)
  {
    hide Dot, Scale;
    DotScale(Scale(0.9, b), 0.9, b);
    DotCommutes(Scale(0.9, b), b);
    DotScale(b, 0.9, b);
  }

  lemma FadesOn(d: real, d0: real, d1: real, k: nat, blends: bool)
    requires d == Power(0.81, k) * d0 && d1 == if blends then 0.81 * d else d
    ensures d1 == Power(0.81, k + if blends then 1 else 0) * d0
  {
    var p := Power(0.81, k);
    assert 0.81 * (p * d0) == (0.81 * p) * d0;
  }

  lemma NothingFades(s: ArmState, x: Vec, period: nat)
    requires period > 0
    ensures LearnAll(s, Repeated(x, 0.0, 0), period) == Learned(s)
    ensures Dot(s.b, s.b) == Power(0.81, 0) * Dot(s.b, s.b)
  {
  }

  /** Each blend takes a fifth of the squared length of `b`. */
  lemma {:induction false} UnrewardedFades(s: ArmState, x: Vec, n: nat, period: nat)
    requires Good(s.aInv) && period > 0
    ensures var r := LearnAll(s, Repeated(x, 0.0, n), period);
            && r.Learned? && Good(r.arm.aInv) && r.arm.updates == s.updates + n
            && Dot(r.arm.b, r.arm.b) == Power(0.81, Blends(s.updates, n, period)) * Dot(s.b, s.b)
            && (n > 0 && BlendsAt(r.arm.updates, period) ==> Quad(r.arm.aInv, x) >= 0.1 * Dot(x, x))
  {
    hide Good, Dot, Quad, Denominator, Learn, LearnAll, Repeated, Blends, BlendsAt, Power;
    if n == 0 {
      NothingFades(s, x, period);
      NextBlends(s.updates, 0, period);
    } else {
      UnrewardedFades(s, x, n - 1, period);
      RepeatedStep(s, x, 0.0, n, period);
      var t := LearnAll(s, Repeated(x, 0.0, n - 1), period).arm;
      UnrewardedStep(t, x, period);
      NextBlends(s.updates, n - 1, period);
      var r := Learn(t, x, 0.0, period);
      FadesOn(Dot(t.b, t.b), Dot(s.b, s.b), Dot(r.b, r.b), Blends(s.updates, n - 1, period),
              BlendsAt(r.updates, period));
    }
  }

  lemma {:induction false} PowerVanishes(n: nat)
    ensures Power(0.81, n) > 0.0 && Power(0.81, n) * (1.0 + 0.2 * n as real) <= 1.0
  {
    if n > 0 {
      PowerVanishes(n - 1);
      var p, q := Power(0.81, n - 1), 1.0 + 0.2 * (n - 1) as real;
      assert Power(0.81, n) * (1.0 + 0.2 * n as real) == p * (0.81 * (q + 0.2));
      Scaled(0.81 * (q + 0.2), q, p);
    }
  }

  lemma PowerBelow(d: real, delta: real) returns (n: nat)
    requires d >= 0.0 && delta > 0.0
    ensures forall k: nat :: k >= n ==> Power(0.81, k) * d <= delta
  {
    var q := d / delta;
    QuotientBelow(d, delta, 0.0);
    n := (5.0 * q).Floor + 1;
    forall k: nat | k >= n
      ensures Power(0.81, k) * d <= delta
    {
      PowerVanishes(k);
      hide Power;
      PowerTimes(Power(0.81, k), 1.0 + 0.2 * k as real, q, delta, d);
    }
  }

  lemma PowerTimes(p: real, g: real, q: real, delta: real, d: real)
    requires p > 0.0 && p * g <= 1.0 && 0.0 <= q <= g && delta > 0.0 && d == q * delta
    ensures p * d <= delta
  {
    Scaled(q, g, p);
    Scaled(p * q, 1.0, delta);
    assert p * d == p * q * delta;
  }

  /** Any arm, left without rewards long enough: `b` has faded, and the last update ended in a blend. */
  lemma Starved(s: ArmState, x: Vec, period: nat, least: nat, delta: real) returns (n: nat)
    requires Good(s.aInv) && period > 0 && delta > 0.0
    ensures var r := LearnAll(s, Repeated(x, 0.0, n), period);
            && r.Learned? && Good(r.arm.aInv)
            && r.arm.updates >= least && BlendsAt(r.arm.updates, period)
            && Dot(r.arm.b, r.arm.b) <= delta && Quad(r.arm.aInv, x) >= 0.1 * Dot(x, x)
  {
    DotPositive(s.b);
    hide Good, Dot, Quad, Denominator, LearnAll, Repeated, Blends, BlendsAt, Power;
    var fading := PowerBelow(Dot(s.b, s.b), delta);
    QuotientMonotone(0, s.updates, period);
    n := UpdatesUntil(s.updates, period, s.updates / period + fading + least + 1, least);
    UnrewardedFades(s, x, n, period);
  }

  lemma MultipleAbove(u: nat, d: nat, k: nat)
    requires d > 0 && k > u / d
    ensures d * k > u && d * k >= k && (d * k) / d == k && BlendsAt(d * k, d)
  {
    TimesMonotone(d, u / d + 1, k);
    DivisionIs(d * k, d, k, 0);
    TimesMonotone(k, 1, d);
  }

  /** The number of updates up to the `k`-th blend. */
  lemma UpdatesUntil(u: nat, period: nat, k: nat, least: nat) returns (n: nat)
    requires period > 0 && k > u / period && k >= least
    ensures n > 0 && u + n >= least && BlendsAt(u + n, period) && Blends(u, n, period) == k - u / period
  {
    MultipleAbove(u, period, k);
    n := period * k - u;
    assert u + n == period * k;
    hide BlendsAt;
  }

  // ---------------------------------------------------------------- with rewards

  /** None of the `n` updates behind the first `u` ends in a blend. */
  predicate Undisturbed(u: nat, n: nat, period: nat)
    requires period > 0
  {
    forall m: nat :: u < m <= u + n ==> !BlendsAt(m, period)
  }

  lemma UndisturbedFront(u: nat, n: nat, period: nat)
    requires n > 0 && period > 0 && Undisturbed(u, n, period)
    ensures Undisturbed(u, n - 1, period) && !BlendsAt(u + n, period)
  {
    hide BlendsAt;
  }

  lemma UndisturbedBehindBlend(u: nat, n: nat, period: nat)
    requires n < period && BlendsAt(u, period)
    ensures Undisturbed(u, n, period)
  {
    forall m: nat | u < m <= u + n
      ensures !BlendsAt(m, period)
    {
      DivisionIs(m, period, u / period, m - u);
    }
  }

  lemma RewardedStep(s: ArmState, x: Vec, period: nat)
    requires Good(s.aInv) && period > 0 && !BlendsAt(s.updates + 1, period)
    ensures Denominator(s.aInv, x) >= 1.0
    ensures Learn(s, x, 1.0, period) == ArmState(RankOne(s.aInv, x), Add(s.b, x), s.updates + 1)
    ensures Good(RankOne(s.aInv, x))
  {
    RankOneKeepsGood(s.aInv, x);
    assert Scale(1.0, x) == x;
    hide Good, RankOne, Denominator, Add;
  }

  lemma GainTimes(q: real, d: real, g: real, c: real)
    requires d == 1.0 + q && g * d == -1.0 && c == g * q
    ensures c * (1.0 + q) == -q
  {
    assert c * d == (g * d) * q;
  }

  lemma Shrunk(f: real, q: real, c: real)
    requires c * (1.0 + q) == -q
    ensures (f + c * f) * (1.0 + q) == f
  {
    assert (f + c * f) * (1.0 + q) == f + f * q + (c * (1.0 + q)) * f;
  }

  lemma GainOf(a: Mat, x: Vec, d: real)
    requires d == Denominator(a, x) != 0.0
    ensures Gain(a, x) * d == -1.0
  {
    hide Denominator;
  }

  lemma FormOfUpdate(a: Mat, x: Vec, y: Vec, q: real, c: real)
    requires Denominator(a, x) != 0.0 && q == Quad(a, x) && c == Gain(a, x) * q
    ensures Form(RankOne(a, x), y, x) == Form(a, y, x) + c * Form(a, y, x)
  {
    hide Dot, MatVec, Denominator, RankOne, Good, Add, Scale, Gain;
    var ax := MatVec(a, x);
    RankOneVec(a, x, x);
    DotCommutes(ax, x);
    ScaleTwice(Gain(a, x), q, c, ax);
    DotAdd(y, ax, Scale(c, ax));
    DotScale(y, c, ax);
  }

  /** An update divides every form with its own context by 1 + x' a x. */
  lemma FormAfterRankOne(a: Mat, x: Vec, y: Vec)
    requires Good(a)
    ensures Denominator(a, x) == 1.0 + Quad(a, x) >= 1.0
    ensures Form(RankOne(a, x), y, x) * (1.0 + Quad(a, x)) == Form(a, y, x)
  {
    hide *;
    DenominatorAtLeastOne(a, x);
    var q, d, g := Quad(a, x), Denominator(a, x), Gain(a, x);
    var c := g * q;
    GainOf(a, x, d);
    GainTimes(q, d, g, c);
    FormOfUpdate(a, x, y, q, c);
    Shrunk(Form(a, y, x), q, c);
  }

  lemma ProductOfSteps(f: real, f1: real, f2: real, q: real, q1: real, n: real)
    requires q >= 0.0 && n >= 0.0
    requires f1 * (1.0 + n * q) == f && q1 * (1.0 + n * q) == q && f2 * (1.0 + q1) == f1
    ensures f2 * (1.0 + (n + 1.0) * q) == f
  {
    var d := 1.0 + n * q;
    assert (1.0 + q1) * d == d + q;
    assert f2 * ((1.0 + q1) * d) == (f2 * (1.0 + q1)) * d;
    assert d + q == 1.0 + (n + 1.0) * q;
  }

  lemma AddOnce(b: Vec, n: nat, x: Vec)
    ensures Add(b, Scale(0.0, x)) == b
    ensures Add(Add(b, Scale(n as real, x)), x) == Add(b, Scale((n + 1) as real, x))
  {
  }

  /** `n` rewarded updates between blends. */
  lemma {:induction false} Rewarded(s: ArmState, x: Vec, n: nat, period: nat)
    requires Good(s.aInv) && period > 0 && Undisturbed(s.updates, n, period)
    ensures var r := LearnAll(s, Repeated(x, 1.0, n), period);
            && r.Learned? && Good(r.arm.aInv) && r.arm.updates == s.updates + n
            && r.arm.b == Add(s.b, Scale(n as real, x))
  {
    hide Good, Learn, Denominator, RankOne, Add, Scale, BlendsAt;
    if n == 0 {
      AddOnce(s.b, 0, x);
    } else {
      UndisturbedFront(s.updates, n, period);
      Rewarded(s, x, n - 1, period);
      RepeatedStep(s, x, 1.0, n, period);
      hide LearnAll, Repeated;
      RewardedStep(LearnAll(s, Repeated(x, 1.0, n - 1), period).arm, x, period);
      AddOnce(s.b, n - 1, x);
    }
  }

  lemma NothingLearned(s: ArmState, x: Vec, reward: real, period: nat)
    requires period > 0
    ensures LearnAll(s, Repeated(x, reward, 0), period) == Learned(s)
  {
  }

  lemma {:induction false} RewardedForm(s: ArmState, x: Vec, n: nat, period: nat, y: Vec)
    requires Good(s.aInv) && period > 0 && Undisturbed(s.updates, n, period)
    ensures var r := LearnAll(s, Repeated(x, 1.0, n), period);
            && r.Learned?
            && Form(r.arm.aInv, y, x) * (1.0 + n as real * Quad(s.aInv, x)) == Form(s.aInv, y, x)
  {
    hide *;
    if n == 0 {
      NothingLearned(s, x, 1.0, period);
    } else {
      UndisturbedFront(s.updates, n, period);
      Rewarded(s, x, n - 1, period);
      RewardedForm(s, x, n - 1, period, y);
      RewardedForm(s, x, n - 1, period, x);
      RepeatedStep(s, x, 1.0, n, period);
      var t := LearnAll(s, Repeated(x, 1.0, n - 1), period).arm;
      RewardedStep(t, x, period);
      FormAfterRankOne(t.aInv, x, y);
      FormNonNegative(s.aInv, x);
      FormNonNegative(t.aInv, x);
      ProductOfSteps(Form(s.aInv, y, x), Form(t.aInv, y, x), Form(RankOne(t.aInv, x), y, x),
                     Quad(s.aInv, x), Quad(t.aInv, x), (n - 1) as real);
    }
  }

  lemma FormNonNegative(a: Mat, x: Vec)
    requires Good(a)
    ensures Quad(a, x) == Form(a, x, x) >= 0.0
  {
    GoodAt(a, x);
    hide Form, Good, Dot;
  }

  // ---------------------------------------------------------------- expectations

  /** The expectation of an arm, before it is clamped. */
  function Expectation(s: ArmState, x: Vec): real {
    Dot(MatVec(s.aInv, s.b), x)
  }

  lemma ExpectationIsForm(s: ArmState, x: Vec)
    requires Good(s.aInv)
    ensures Expectation(s, x) == Form(s.aInv, s.b, x)
  {
    hide Dot, MatVec;
    DotCommutes(MatVec(s.aInv, s.b), x);
    FormCommutes(s.aInv, s.b, x);
  }

  /** A vector short enough against `x` has a form of at most a tenth with it. */
  lemma SmallForm(a: Mat, b: Vec, x: Vec)
    requires Good(a) && Dot(b, b) * Dot(x, x) <= 0.01
    ensures -0.1 <= Form(a, b, x) <= 0.1
  {
    CauchySchwarz(a, b, x);
    GoodAt(a, b);
    GoodAt(a, x);
    hide Form, Dot, Good;
    var f := Form(a, b, x);
    Scaled(Quad(a, b), Dot(b, b), Quad(a, x));
    Scaled(Quad(a, x), Dot(x, x), Dot(b, b));
    assert f * f <= 0.01;
    SquareBelow(f);
  }

  lemma SquareBelow(f: real)
    requires f * f <= 0.01
    ensures -0.1 <= f <= 0.1
  {
    if f > 0.1 {
      Scaled(0.1, f, f);
    } else if f < -0.1 {
      Scaled(0.1, -f, -f);
    }
  }

  lemma MoreThanHalf(p: real, f: real, q: real)
    requires q >= 0.1 && -0.1 <= f <= 0.1 && p == f + 20.0 * q
    ensures p > 0.5 + 10.0 * q
  {
  }

  lemma Recovered(e: real, f: real, q: real, d: real)
    requires q >= 0.1 && -0.1 <= f <= 0.1 && d == 1.0 + 20.0 * q
    requires e * d == f + 20.0 * q
    ensures e >= 0.5
  {
    MoreThanHalf(e * d, f, q);
    if e < 0.5 {
      Scaled(e, 0.5, d);
    }
  }

  lemma Distributed(f: real, q: real, d: real, f0: real, q0: real)
    requires f * d == f0 && q * d == q0
    ensures (f + 20.0 * q) * d == f0 + 20.0 * q0
  {
    assert (f + 20.0 * q) * d == f * d + 20.0 * (q * d);
  }

  lemma FedForm(s: ArmState, x: Vec, period: nat, y: Vec)
    requires Good(s.aInv) && period > 20 && BlendsAt(s.updates, period)
    ensures var r := LearnAll(s, Repeated(x, 1.0, 20), period);
            && r.Learned? && Good(r.arm.aInv) && r.arm.updates == s.updates + 20 && r.arm.b == Add(s.b, Scale(20.0, x))
            && Form(r.arm.aInv, y, x) * (1.0 + 20.0 * Quad(s.aInv, x)) == Form(s.aInv, y, x)
  {
    hide *;
    UndisturbedBehindBlend(s.updates, 20, period);
    Rewarded(s, x, 20, period);
    RewardedForm(s, x, 20, period, y);
  }

  /** Twenty rewards in a row bring a faded arm back to an expectation of at least a half. */
  lemma Fed(s: ArmState, x: Vec, period: nat)
    requires Good(s.aInv) && period > 20 && BlendsAt(s.updates, period)
    requires -0.1 <= Form(s.aInv, s.b, x) <= 0.1 && Quad(s.aInv, x) >= 0.1
    ensures var r := LearnAll(s, Repeated(x, 1.0, 20), period);
            r.Learned? && Good(r.arm.aInv) && r.arm.updates == s.updates + 20 && Expectation(r.arm, x) >= 0.5
  {
    hide *;
    FedForm(s, x, period, s.b);
    FedForm(s, x, period, x);
    var r := LearnAll(s, Repeated(x, 1.0, 20), period).arm;
    ExpectationIsForm(r, x);
    FormOfSum(r.aInv, s.b, 20.0, x);
    FormNonNegative(s.aInv, x);
    var d, f, q := 1.0 + 20.0 * Quad(s.aInv, x), Form(r.aInv, s.b, x), Form(r.aInv, x, x);
    Distributed(f, q, d, Form(s.aInv, s.b, x), Form(s.aInv, x, x));
    Recovered(f + 20.0 * q, Form(s.aInv, s.b, x), Quad(s.aInv, x), d);
  }

  lemma FormOfSum(a: Mat, b: Vec, k: real, x: Vec)
    ensures Form(a, Add(b, Scale(k, x)), x) == Form(a, b, x) + k * Form(a, x, x)
  {
    hide Dot, MatVec;
    var ax := MatVec(a, x);
    DotCommutes(Add(b, Scale(k, x)), ax);
    DotAdd(ax, b, Scale(k, x));
    DotScale(ax, k, x);
    DotCommutes(ax, b);
    DotCommutes(ax, x);
  }
}
