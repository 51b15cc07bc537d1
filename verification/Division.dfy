/** Quotients and remainders of whole numbers. */
module Division {

  lemma TimesMonotone(d: nat, a: nat, b: nat)
    requires a <= b
    ensures d * a <= d * b
  {
  }

  lemma DivisionIs(a: nat, d: nat, q: nat, r: nat)
    requires d > 0 && a == d * q + r && r < d
    ensures a / d == q && a % d == r
  {
    var q' := a / d;
    if q' < q {
      TimesMonotone(d, q' + 1, q);
    } else if q < q' {
      TimesMonotone(d, q + 1, q');
    }
  }

  lemma QuotientMonotone(a: nat, b: nat, d: nat)
    requires a <= b && d > 0
    ensures a / d <= b / d
  {
    if b / d < a / d {
      TimesMonotone(d, b / d + 1, a / d);
    }
  }

  lemma MultipleLeavesNothing(k: nat, d: nat)
    requires d > 0
    ensures k * d % d == 0
  {
    DivisionIs(k * d, d, k, 0);
  }

  /** The first multiple of `d` from `a` on. */
  function NextMultiple(a: nat, d: nat): (m: nat)
    requires d > 0
    ensures a <= m < a + d && m % d == 0
  {
    var q, r := a / d, a % d;
    if r == 0 then a
    else
      var m := (q + 1) * d;
      MultipleLeavesNothing(q + 1, d);
      assert m == q * d + d && a == q * d + r;
      m
  }

  /** Among `d` consecutive numbers there is one multiple of `d`. */
  lemma OnlyMultiple(a: nat, d: nat, m: nat, k: nat)
    requires d > 0 && a <= m < a + d && a <= k < a + d && m % d == 0
    ensures k % d == 0 <==> k == m
  {
    if k % d == 0 && m < k {
      MultiplesApart(m, k, d);
    } else if k % d == 0 && k < m {
      MultiplesApart(k, m, d);
    }
  }

  lemma MultiplesApart(m: nat, k: nat, d: nat)
    requires d > 0 && m % d == 0 && k % d == 0 && m < k
    ensures m + d <= k
  {
    var p, q := m / d, k / d;
    assert m == d * p && k == d * q;
    if q <= p {
      TimesMonotone(d, q, p);
    } else {
      TimesMonotone(d, p + 1, q);
    }
  }
}
