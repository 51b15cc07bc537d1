/** Four-dimensional vectors and matrices over the reals, as the bandit's arms use them. */
module LinearAlgebra {

  datatype Vec = Vec(e0: real, e1: real, e2: real, e3: real)

  /** A matrix, row by row. */
  datatype Mat = Mat(r0: Vec, r1: Vec, r2: Vec, r3: Vec)

  const ZERO := Vec(0.0, 0.0, 0.0, 0.0)
  const IDENTITY := Mat(
    Vec(1.0, 0.0, 0.0, 0.0), Vec(0.0, 1.0, 0.0, 0.0), Vec(0.0, 0.0, 1.0, 0.0), Vec(0.0, 0.0, 0.0, 1.0))

  function Add(u: Vec, v: Vec): Vec {
    Vec(u.e0 + v.e0, u.e1 + v.e1, u.e2 + v.e2, u.e3 + v.e3)
  }

  function Scale(k: real, v: Vec): Vec {
    Vec(k * v.e0, k * v.e1, k * v.e2, k * v.e3)
  }

  function Dot(u: Vec, v: Vec): real {
    u.e0 * v.e0 + u.e1 * v.e1 + u.e2 * v.e2 + u.e3 * v.e3
  }

  function MatVec(m: Mat, v: Vec): Vec {
    Vec(Dot(m.r0, v), Dot(m.r1, v), Dot(m.r2, v), Dot(m.r3, v))
  }

  function MatAdd(a: Mat, b: Mat): Mat {
    Mat(Add(a.r0, b.r0), Add(a.r1, b.r1), Add(a.r2, b.r2), Add(a.r3, b.r3))
  }

  function MatScale(k: real, m: Mat): Mat {
    Mat(Scale(k, m.r0), Scale(k, m.r1), Scale(k, m.r2), Scale(k, m.r3))
  }

  /** The rank-one matrix u v'. */
  function Outer(u: Vec, v: Vec): Mat {
    Mat(Scale(u.e0, v), Scale(u.e1, v), Scale(u.e2, v), Scale(u.e3, v))
  }

  predicate Symmetric(m: Mat) {
    && m.r0.e1 == m.r1.e0 && m.r0.e2 == m.r2.e0 && m.r0.e3 == m.r3.e0
    && m.r1.e2 == m.r2.e1 && m.r1.e3 == m.r3.e1 && m.r2.e3 == m.r3.e2
  }

  /** The bilinear form u' m v. */
  function Form(m: Mat, u: Vec, v: Vec): real {
    Dot(u, MatVec(m, v))
  }

  // ---------------------------------------------------------------- algebra of Dot

  lemma Distribute(k: real, a: real, b: real, c: real, d: real)
    ensures k * (a + b + c + d) == k * a + k * b + k * c + k * d
  {
  }

  lemma DotAdd(u: Vec, v: Vec, w: Vec)
    ensures Dot(u, Add(v, w)) == Dot(u, v) + Dot(u, w)
  {
    assert u.e0 * (v.e0 + w.e0) == u.e0 * v.e0 + u.e0 * w.e0;
    assert u.e1 * (v.e1 + w.e1) == u.e1 * v.e1 + u.e1 * w.e1;
    assert u.e2 * (v.e2 + w.e2) == u.e2 * v.e2 + u.e2 * w.e2;
    assert u.e3 * (v.e3 + w.e3) == u.e3 * v.e3 + u.e3 * w.e3;
  }

  lemma DotScale(u: Vec, k: real, v: Vec)
    ensures Dot(u, Scale(k, v)) == k * Dot(u, v)
  {
    assert u.e0 * (k * v.e0) == k * (u.e0 * v.e0);
    assert u.e1 * (k * v.e1) == k * (u.e1 * v.e1);
    assert u.e2 * (k * v.e2) == k * (u.e2 * v.e2);
    assert u.e3 * (k * v.e3) == k * (u.e3 * v.e3);
    Distribute(k, u.e0 * v.e0, u.e1 * v.e1, u.e2 * v.e2, u.e3 * v.e3);
  }

  lemma DotCommutes(u: Vec, v: Vec)
    ensures Dot(u, v) == Dot(v, u)
  {
  }

  lemma ProductSign(p: real, q: real, r: real)
    requires r == p * q
    ensures p > 0.0 && q > 0.0 ==> r > 0.0
    ensures p < 0.0 && q < 0.0 ==> r > 0.0
    ensures p > 0.0 && q < 0.0 ==> r < 0.0
  {
    if p < 0.0 && q < 0.0 {
      assert r == (-p) * (-q);
    } else if p > 0.0 && q < 0.0 {
      assert -r == p * (-q);
    }
  }

  function Square(a: real): (r: real)
    ensures r >= 0.0
    ensures a != 0.0 ==> r > 0.0
  {
    var r := a * a;
    ProductSign(a, a, r);
    r
  }

  lemma DotPositive(v: Vec)
    ensures Dot(v, v) >= 0.0
    ensures v != ZERO ==> Dot(v, v) > 0.0
  {
    assert Dot(v, v) == Square(v.e0) + Square(v.e1) + Square(v.e2) + Square(v.e3);
    assert v == ZERO || v.e0 != 0.0 || v.e1 != 0.0 || v.e2 != 0.0 || v.e3 != 0.0;
  }

  // ---------------------------------------------------------------- algebra of matrices

  lemma MatVecAdd(m: Mat, v: Vec, w: Vec)
    ensures MatVec(m, Add(v, w)) == Add(MatVec(m, v), MatVec(m, w))
  {
    hide Dot;
    DotAdd(m.r0, v, w);
    DotAdd(m.r1, v, w);
    DotAdd(m.r2, v, w);
    DotAdd(m.r3, v, w);
  }

  lemma MatVecScale(m: Mat, k: real, v: Vec)
    ensures MatVec(m, Scale(k, v)) == Scale(k, MatVec(m, v))
  {
    hide Dot;
    DotScale(m.r0, k, v);
    DotScale(m.r1, k, v);
    DotScale(m.r2, k, v);
    DotScale(m.r3, k, v);
  }

  lemma RowAdd(a: Vec, b: Vec, v: Vec)
    ensures Dot(Add(a, b), v) == Dot(a, v) + Dot(b, v)
  {
    DotCommutes(Add(a, b), v);
    DotAdd(v, a, b);
    DotCommutes(a, v);
    DotCommutes(b, v);
  }

  lemma RowScale(k: real, a: Vec, v: Vec)
    ensures Dot(Scale(k, a), v) == k * Dot(a, v)
  {
    DotCommutes(Scale(k, a), v);
    DotScale(v, k, a);
    DotCommutes(a, v);
  }

  lemma MatAddVec(a: Mat, b: Mat, v: Vec)
    ensures MatVec(MatAdd(a, b), v) == Add(MatVec(a, v), MatVec(b, v))
  {
    hide Dot;
    RowAdd(a.r0, b.r0, v);
    RowAdd(a.r1, b.r1, v);
    RowAdd(a.r2, b.r2, v);
    RowAdd(a.r3, b.r3, v);
  }

  lemma MatScaleVec(k: real, a: Mat, v: Vec)
    ensures MatVec(MatScale(k, a), v) == Scale(k, MatVec(a, v))
  {
    hide Dot;
    RowScale(k, a.r0, v);
    RowScale(k, a.r1, v);
    RowScale(k, a.r2, v);
    RowScale(k, a.r3, v);
  }

  /** (u v') w = (v . w) u */
  lemma OuterVec(u: Vec, v: Vec, w: Vec)
    ensures MatVec(Outer(u, v), w) == Scale(Dot(v, w), u)
  {
    hide Dot;
    RowScale(u.e0, v, w);
    RowScale(u.e1, v, w);
    RowScale(u.e2, v, w);
    RowScale(u.e3, v, w);
  }

  lemma IdentityVec(v: Vec)
    ensures MatVec(IDENTITY, v) == v
  {
  }

  lemma SwapTerm(a: real, x: real, y: real)
    ensures x * (a * y) == y * (a * x)
  {
  }

  lemma Expand(x: real, a: real, b: real, c: real, d: real, p: real, q: real, r: real, s: real)
    ensures x * (a * p + b * q + c * r + d * s) == x * (a * p) + x * (b * q) + x * (c * r) + x * (d * s)
  {
  }

  /** The form of a symmetric matrix is symmetric. */
  lemma FormCommutes(m: Mat, u: Vec, v: Vec)
    requires Symmetric(m)
    ensures Form(m, u, v) == Form(m, v, u)
  {
    Expand(u.e0, m.r0.e0, m.r0.e1, m.r0.e2, m.r0.e3, v.e0, v.e1, v.e2, v.e3);
    Expand(u.e1, m.r1.e0, m.r1.e1, m.r1.e2, m.r1.e3, v.e0, v.e1, v.e2, v.e3);
    Expand(u.e2, m.r2.e0, m.r2.e1, m.r2.e2, m.r2.e3, v.e0, v.e1, v.e2, v.e3);
    Expand(u.e3, m.r3.e0, m.r3.e1, m.r3.e2, m.r3.e3, v.e0, v.e1, v.e2, v.e3);
    Expand(v.e0, m.r0.e0, m.r0.e1, m.r0.e2, m.r0.e3, u.e0, u.e1, u.e2, u.e3);
    Expand(v.e1, m.r1.e0, m.r1.e1, m.r1.e2, m.r1.e3, u.e0, u.e1, u.e2, u.e3);
    Expand(v.e2, m.r2.e0, m.r2.e1, m.r2.e2, m.r2.e3, u.e0, u.e1, u.e2, u.e3);
    Expand(v.e3, m.r3.e0, m.r3.e1, m.r3.e2, m.r3.e3, u.e0, u.e1, u.e2, u.e3);
    SwapTerm(m.r0.e0, u.e0, v.e0); SwapTerm(m.r0.e1, u.e0, v.e1);
    SwapTerm(m.r0.e2, u.e0, v.e2); SwapTerm(m.r0.e3, u.e0, v.e3);
    SwapTerm(m.r1.e0, u.e1, v.e0); SwapTerm(m.r1.e1, u.e1, v.e1);
    SwapTerm(m.r1.e2, u.e1, v.e2); SwapTerm(m.r1.e3, u.e1, v.e3);
    SwapTerm(m.r2.e0, u.e2, v.e0); SwapTerm(m.r2.e1, u.e2, v.e1);
    SwapTerm(m.r2.e2, u.e2, v.e2); SwapTerm(m.r2.e3, u.e2, v.e3);
    SwapTerm(m.r3.e0, u.e3, v.e0); SwapTerm(m.r3.e1, u.e3, v.e1);
    SwapTerm(m.r3.e2, u.e3, v.e2); SwapTerm(m.r3.e3, u.e3, v.e3);
  }
}
