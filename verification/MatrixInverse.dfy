/** A symmetric positive definite matrix has an inverse: conjugate directions, one axis after the other.  With it the
    account of an arm's matrix between two blends holds from any state the arm can reach. */
module MatrixInverse {
  import opened LinearAlgebra
  import opened ArmAlgebra

  /** Only the first `k` components may differ from zero. */
  predicate InSpan(v: Vec, k: nat) {
    && (k <= 0 ==> v.e0 == 0.0) && (k <= 1 ==> v.e1 == 0.0)
    && (k <= 2 ==> v.e2 == 0.0) && (k <= 3 ==> v.e3 == 0.0)
  }

  function Axis(k: nat): Vec {
    Vec(if k == 0 then 1.0 else 0.0, if k == 1 then 1.0 else 0.0,
        if k == 2 then 1.0 else 0.0, if k == 3 then 1.0 else 0.0)
  }

  function Component(v: Vec, k: nat): real {
    if k == 0 then v.e0 else if k == 1 then v.e1 else if k == 2 then v.e2 else v.e3
  }

  /** `p` inverts `a` on the first `k` axes and leads nowhere else. */
  ghost predicate InvertsOn(p: Mat, a: Mat, k: nat) {
    && Symmetric(p)
    && (forall v :: InSpan(MatVec(p, v), k))
    && (forall v :: InSpan(v, k) ==> MatVec(p, MatVec(a, v)) == v)
  }

  lemma AxisOnly(k: nat, t: Vec)
    requires k < 4 && InSpan(t, k)
    ensures var d := Add(Axis(k), Scale(-1.0, t)); InSpan(d, k + 1) && Component(d, k) == 1.0 && d != ZERO
  {
  }

  lemma SpanOfSum(u: Vec, c: real, d: Vec, k: nat)
    requires InSpan(u, k) && InSpan(d, k + 1)
    ensures InSpan(Add(u, Scale(c, d)), k + 1)
  {
  }

  /** A vector of the larger span is one of the smaller span plus a multiple of `d`. */
  lemma SplitOff(v: Vec, d: Vec, k: nat)
    requires k < 4 && InSpan(v, k + 1) && InSpan(d, k + 1) && Component(d, k) == 1.0
    ensures var c := Component(v, k);
            InSpan(Add(v, Scale(-c, d)), k) && Add(Add(v, Scale(-c, d)), Scale(c, d)) == v
  {
    var c := Component(v, k);
    Cancel(v, -c, d);
    assert -(-c) == c;
    if k == 0 {
      assert -c * d.e0 == -c;
    } else if k == 1 {
      assert -c * d.e1 == -c;
    } else if k == 2 {
      assert -c * d.e2 == -c;
    } else {
      assert -c * d.e3 == -c;
    }
  }

  /** The direction that is new at axis `k`, conjugate to the earlier ones. */
  function Direction(p: Mat, a: Mat, k: nat): Vec {
    Add(Axis(k), Scale(-1.0, MatVec(p, MatVec(a, Axis(k)))))
  }

  lemma NewDirection(p: Mat, a: Mat, k: nat)
    requires Good(a) && k < 4 && InvertsOn(p, a, k)
    ensures var d := Direction(p, a, k);
            && InSpan(d, k + 1) && Component(d, k) == 1.0 && Quad(a, d) > 0.0
            && MatVec(p, MatVec(a, d)) == ZERO
  {
    hide MatVec, Symmetric, Quad, Dot, Add, Scale, Axis, InSpan;
    var e, d := Axis(k), Direction(p, a, k);
    var t := MatVec(p, MatVec(a, e));
    AxisOnly(k, t);
    MatVecAdd(a, e, Scale(-1.0, t));
    MatVecScale(a, -1.0, t);
    MatVecAdd(p, MatVec(a, e), Scale(-1.0, MatVec(a, t)));
    MatVecScale(p, -1.0, MatVec(a, t));
    Vanishes(t);
  }

  lemma Vanishes(t: Vec)
    ensures Add(t, Scale(-1.0, t)) == ZERO
  {
  }

  lemma Conjugate(p: Mat, a: Mat, k: nat, u: Vec)
    requires Symmetric(a) && k < 4 && InvertsOn(p, a, k) && InSpan(u, k)
    ensures Dot(Direction(p, a, k), MatVec(a, u)) == 0.0
  {
    hide MatVec, Symmetric, Dot, Add, Scale, Axis, InSpan;
    var e, au := Axis(k), MatVec(a, u);
    var ae := MatVec(a, e);
    var t := MatVec(p, ae);
    DotCommutes(Add(e, Scale(-1.0, t)), au);
    DotAdd(au, e, Scale(-1.0, t));
    DotScale(au, -1.0, t);
    DotCommutes(au, e);
    DotCommutes(au, t);
    MoveAcross(p, ae, au);
    MoveAcross(a, e, u);
  }

  lemma PlusDirection(p: Mat, q: real, d: Vec, w: Vec, c: real)
    requires q * Dot(d, w) == c
    ensures MatVec(MatAdd(p, MatScale(q, Outer(d, d))), w) == Add(MatVec(p, w), Scale(c, d))
  {
    hide MatVec, MatAdd, MatScale, Outer, Dot, Add, Scale;
    MatAddVec(p, MatScale(q, Outer(d, d)), w);
    MatScaleVec(q, Outer(d, d), w);
    OuterVec(d, d, w);
    ScaleTwice(q, Dot(d, w), c, d);
  }

  /** One more axis: add the square of the new direction, divided by its value under the form. */
  lemma Extend(p: Mat, a: Mat, k: nat) returns (p': Mat)
    requires Good(a) && k < 4 && InvertsOn(p, a, k)
    ensures InvertsOn(p', a, k + 1)
  {
    hide MatVec, Dot, Quad, Add, Scale, InSpan, MatAdd, MatScale, Outer, Direction, Component, Symmetric;
    var d := Direction(p, a, k);
    NewDirection(p, a, k);
    var q := 1.0 / Quad(a, d);
    p' := MatAdd(p, MatScale(q, Outer(d, d)));
    OuterIsSymmetric(d);
    CombinationIsSymmetric(p, q, Outer(d, d));
    forall v
      ensures InSpan(MatVec(p', v), k + 1)
    {
      PlusDirection(p, q, d, v, q * Dot(d, v));
      SpanOfSum(MatVec(p, v), q * Dot(d, v), d, k);
    }
    forall v | InSpan(v, k + 1)
      ensures MatVec(p', MatVec(a, v)) == v
    {
      InvertsMore(p, a, k, v);
    }
  }

  lemma InvertsMore(p: Mat, a: Mat, k: nat, v: Vec)
    requires Good(a) && k < 4 && InvertsOn(p, a, k) && InSpan(v, k + 1)
    ensures var d := Direction(p, a, k);
            && Quad(a, d) > 0.0
            && MatVec(MatAdd(p, MatScale(1.0 / Quad(a, d), Outer(d, d))), MatVec(a, v)) == v
  {
    hide MatVec, Symmetric, Dot, Add, Scale, Axis, InSpan, MatAdd, MatScale, Outer, Direction, Component;
    var d, c := Direction(p, a, k), Component(v, k);
    NewDirection(p, a, k);
    SplitOff(v, d, k);
    var u := Add(v, Scale(-c, d));
    var au, ad := MatVec(a, u), MatVec(a, d);
    MatVecAdd(a, u, Scale(c, d));
    MatVecScale(a, c, d);
    MatVecAdd(p, au, Scale(c, ad));
    MatVecScale(p, c, ad);
    NothingAdded(u, c);
    assert MatVec(p, MatVec(a, v)) == u;
    Conjugate(p, a, k, u);
    DotAdd(d, au, Scale(c, ad));
    DotScale(d, c, ad);
    assert Dot(d, MatVec(a, v)) == c * Quad(a, d);
    Quotient(c, Quad(a, d), Dot(d, MatVec(a, v)));
    PlusDirection(p, 1.0 / Quad(a, d), d, MatVec(a, v), c);
  }

  lemma NothingAdded(u: Vec, c: real)
    ensures Add(u, Scale(c, ZERO)) == u
  {
  }

  lemma Quotient(c: real, q: real, n: real)
    requires q > 0.0 && n == c * q
    ensures 1.0 / q * n == c
  {
  }

  lemma NoAxes(a: Mat)
    ensures InvertsOn(MatScale(0.0, IDENTITY), a, 0)
  {
    var p := MatScale(0.0, IDENTITY);
    assert p == Mat(ZERO, ZERO, ZERO, ZERO);
    forall v
      ensures MatVec(p, v) == ZERO
    {
      assert Dot(ZERO, v) == 0.0;
    }
    assert forall v :: InSpan(v, 0) ==> v == ZERO;
  }

  /** Every matrix an arm can have is the inverse of some matrix. */
  lemma GoodHasInverse(a: Mat) returns (p: Mat)
    requires Good(a)
    ensures IsInverse(p, a)
  {
    hide InvertsOn, Good;
    NoAxes(a);
    p := Extend(MatScale(0.0, IDENTITY), a, 0);
    p := Extend(p, a, 1);
    p := Extend(p, a, 2);
    p := Extend(p, a, 3);
    AllAxes(p, a);
  }

  lemma AllAxes(p: Mat, a: Mat)
    requires Good(a) && InvertsOn(p, a, 4)
    ensures IsInverse(p, a)
  {
    hide MatVec, Symmetric, Dot, Quad;
    forall v
      ensures MatVec(p, MatVec(a, v)) == v && MatVec(a, MatVec(p, v)) == v
    {
      assert InSpan(v, 4);
      var w := MatVec(a, MatVec(p, v));
      forall u
        ensures Dot(u, w) == Dot(u, v)
      {
        assert InSpan(u, 4);
        MoveAcross(a, u, MatVec(p, v));
        MoveAcross(p, MatVec(a, u), v);
      }
      SameAgainstAll(w, v);
    }
  }

  lemma SameAgainstAll(w: Vec, v: Vec)
    requires forall u :: Dot(u, w) == Dot(u, v)
    ensures w == v
  {
    assert Dot(Axis(0), w) == Dot(Axis(0), v);
    assert Dot(Axis(1), w) == Dot(Axis(1), v);
    assert Dot(Axis(2), w) == Dot(Axis(2), v);
    assert Dot(Axis(3), w) == Dot(Axis(3), v);
  }

  /** From any state an arm can reach, and until its next blend, the matrix is exactly the inverse of a fixed matrix
      plus the sum of x x' learned since. */
  lemma EveryStretchIsExact(past: seq<Feedback>, history: seq<Feedback>, period: nat) returns (p: Mat)
    requires period > 0
    requires forall n :: |past| < n <= |past| + |history| ==> !BlendsAt(n, period)
    ensures var s := LearnAll(FRESH_ARM, past, period);
            && s.Learned? && IsInverse(p, s.arm.aInv)
            && var r := LearnAll(s.arm, history, period);
            && r.Learned? && IsInverse(AccumulateAll(p, history), r.arm.aInv)
            && r.arm.b == RewardAll(s.arm.b, history)
  {
    hide Good, IsInverse, BlendsAt;
    EveryReachableArmIsGood(past, period);
    var s := LearnAll(FRESH_ARM, past, period).arm;
    p := GoodHasInverse(s.aInv);
    BetweenBlendsExactInverse(s, p, history, period);
  }
}
