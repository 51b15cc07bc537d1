/** How much of the form of an arm's matrix survives learning: the arm is never certain. */
module ArmFloor {
  import opened LinearAlgebra
  import opened ArmAlgebra

  function Power(base: real, n: nat): real {
    if n == 0 then 1.0 else base * Power(base, n - 1)
  }

  lemma {:induction false} PowerGrows(base: real, n: nat, k: nat)
    requires base >= 1.0 && n <= k
    ensures 1.0 <= Power(base, n) <= Power(base, k)
  {
    if n < k {
      PowerGrows(base, n, k - 1);
      Scaled(1.0, base, Power(base, k - 1));
    } else if n > 0 {
      PowerGrows(base, n - 1, n - 1);
      Scaled(1.0, base, Power(base, n - 1));
    }
  }

  lemma Scaled(a: real, b: real, c: real)
    requires a <= b && c >= 0.0
    ensures a * c <= b * c
  {
    assert b * c - a * c == (b - a) * c;
  }

  /** Of each direction the form keeps at least the share 1 / (1 + x' a x). */
  lemma RankOneKeepsShare(a: Mat, x: Vec, y: Vec)
    requires Good(a)
    ensures Denominator(a, x) == 1.0 + Quad(a, x) >= 1.0
    ensures Quad(a, y) <= (1.0 + Quad(a, x)) * Quad(RankOne(a, x), y)
  {
    hide Form, Dot, MatVec, RankOne, Denominator;
    DenominatorAtLeastOne(a, x);
    QuadAfterRankOne(a, x, y);
    CauchySchwarz(a, y, x);
    hide Good, Quad;
    Share(Quad(a, y), Quad(a, x), Square(Form(a, y, x)), Quad(RankOne(a, x), y));
  }

  lemma Share(q: real, qx: real, ff: real, result: real)
    requires qx >= 0.0 && ff <= q * qx && result == q - ff / (1.0 + qx)
    ensures q <= (1.0 + qx) * result
  {
    assert ff / (1.0 + qx) * (1.0 + qx) == ff;
    assert (1.0 + qx) * result == (1.0 + qx) * q - ff / (1.0 + qx) * (1.0 + qx);
    assert (1.0 + qx) * q == q + q * qx;
  }

  /** The blend only ever restores uncertainty. */
  lemma BlendRestores(a: Mat, y: Vec)
    requires Good(a)
    ensures Quad(a, y) <= Quad(Blend(a), y)
  {
    QuadOfBlend(a, y);
    assert Quad(a, y) <= Dot(y, y);
    hide Quad, Dot, Blend;
  }

  ghost predicate AboveFloor(a: Mat, p: real) {
    forall y :: Dot(y, y) <= p * Quad(a, y)
  }

  /** After `n` updates with contexts of squared length at most `bound`, each direction keeps at least the share
      1 / (1 + bound)^n of the uncertainty of a fresh arm. */
  ghost predicate Alive(s: ArmState, bound: real) {
    && bound >= 0.0 && Good(s.aInv)
    && AboveFloor(s.aInv, Power(1.0 + bound, s.updates))
  }

  lemma FreshIsAlive(bound: real)
    requires bound >= 0.0
    ensures Alive(FRESH_ARM, bound)
  {
    IdentityIsGood();
    hide Good, Quad, Dot;
    forall y
      ensures Dot(y, y) <= Power(1.0 + bound, FRESH_ARM.updates) * Quad(FRESH_ARM.aInv, y)
    {
      QuadOfIdentity(y);
    }
  }

  lemma FloorAfterUpdate(d: real, p: real, p': real, bound: real, q: real, qx: real, q': real)
    requires d <= p * q && q <= (1.0 + qx) * q' && 0.0 <= qx <= bound && q' >= 0.0 && p >= 1.0
    requires p' == (1.0 + bound) * p
    ensures d <= p' * q'
  {
    Scaled(1.0 + qx, 1.0 + bound, q');
    Scaled(q, (1.0 + bound) * q', p);
    assert (1.0 + bound) * q' * p == p' * q';
  }

  lemma GoodAt(a: Mat, y: Vec)
    requires Good(a)
    ensures 0.0 <= Quad(a, y) <= Dot(y, y)
  {
  }

  lemma FloorAt(s: ArmState, bound: real, y: Vec)
    requires Alive(s, bound)
    ensures Good(s.aInv) && bound >= 0.0 && Dot(y, y) <= Power(1.0 + bound, s.updates) * Quad(s.aInv, y)
  {
  }

  lemma UpdateKeepsFloor(s: ArmState, x: Vec, bound: real, y: Vec)
    requires Alive(s, bound) && Dot(x, x) <= bound
    ensures Denominator(s.aInv, x) >= 1.0
    ensures Dot(y, y) <= Power(1.0 + bound, s.updates + 1) * Quad(RankOne(s.aInv, x), y)
  {
    hide *;
    FloorAt(s, bound, y);
    RankOneKeepsShare(s.aInv, x, y);
    RankOneKeepsGood(s.aInv, x);
    GoodAt(RankOne(s.aInv, x), y);
    GoodAt(s.aInv, x);
    PowerGrows(1.0 + bound, 0, s.updates);
    PowerOfNothing(1.0 + bound);
    NextPower(1.0 + bound, s.updates);
    FloorAfterUpdate(Dot(y, y), Power(1.0 + bound, s.updates), Power(1.0 + bound, s.updates + 1), bound,
                     Quad(s.aInv, y), Quad(s.aInv, x), Quad(RankOne(s.aInv, x), y));
  }

  lemma PowerOfNothing(base: real)
    ensures Power(base, 0) == 1.0
  {
  }

  lemma NextPower(base: real, n: nat)
    ensures Power(base, n + 1) == base * Power(base, n)
  {
  }

  lemma BlendKeepsFloor(a: Mat, y: Vec, p: real)
    requires Good(a) && p >= 0.0 && Dot(y, y) <= p * Quad(a, y)
    ensures Dot(y, y) <= p * Quad(Blend(a), y)
  {
    hide Quad, Dot, Blend, Good;
    BlendRestores(a, y);
    Scaled(Quad(a, y), Quad(Blend(a), y), p);
  }

  lemma UpdateKeepsAll(s: ArmState, x: Vec, bound: real)
    requires Alive(s, bound) && Dot(x, x) <= bound
    ensures Denominator(s.aInv, x) >= 1.0
    ensures AboveFloor(RankOne(s.aInv, x), Power(1.0 + bound, s.updates + 1))
  {
    hide Form, Dot, MatVec, RankOne, Denominator, Good, Power, Quad;
    DenominatorAtLeastOne(s.aInv, x);
    hide Alive;
    forall y
      ensures Dot(y, y) <= Power(1.0 + bound, s.updates + 1) * Quad(RankOne(s.aInv, x), y)
    {
      UpdateKeepsFloor(s, x, bound, y);
    }
  }

  lemma BlendKeepsAll(a: Mat, p: real)
    requires Good(a) && p >= 0.0 && AboveFloor(a, p)
    ensures AboveFloor(Blend(a), p)
  {
    hide Quad, Dot, Blend, Good;
    forall y
      ensures Dot(y, y) <= p * Quad(Blend(a), y)
    {
      BlendKeepsFloor(a, y, p);
    }
  }

  lemma LearnKeepsAlive(s: ArmState, f: Feedback, period: nat, bound: real)
    requires Alive(s, bound) && Dot(f.x, f.x) <= bound && period > 0
    ensures Denominator(s.aInv, f.x) >= 1.0
    ensures Alive(Learn(s, f.x, f.reward, period), bound)
    ensures Learn(s, f.x, f.reward, period).updates == s.updates + 1
  {
    hide Good, Quad, Dot, RankOne, Blend, Power, Denominator, AboveFloor;
    LearnKeepsGood(s, f.x, f.reward, period);
    RankOneKeepsGood(s.aInv, f.x);
    PowerGrows(1.0 + bound, 0, s.updates + 1);
    UpdateKeepsAll(s, f.x, bound);
    BlendKeepsAll(RankOne(s.aInv, f.x), Power(1.0 + bound, s.updates + 1));
  }

  /** Every arm is in such a state, whatever it has learned from contexts of squared length at most `bound`. */
  lemma {:induction false} EveryArmIsAlive(history: seq<Feedback>, period: nat, bound: real)
    requires period > 0 && bound >= 0.0
    requires forall k :: 0 <= k < |history| ==> Dot(history[k].x, history[k].x) <= bound
    ensures var r := LearnAll(FRESH_ARM, history, period);
            r.Learned? && Alive(r.arm, bound) && r.arm.updates == |history|
  {
    hide Alive, Dot, Denominator, Learn;
    if history == [] {
      FreshIsAlive(bound);
    } else {
      var front, f := history[..|history| - 1], history[|history| - 1];
      EveryArmIsAlive(front, period, bound);
      LearnKeepsAlive(LearnAll(FRESH_ARM, front, period).arm, f, period, bound);
    }
  }
}
