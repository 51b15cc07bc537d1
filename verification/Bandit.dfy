/** LinUCB scoring, and why an arm that has learned little outscores one that has learned much. */
module Bandit {
  import opened LinearAlgebra
  import opened ArmAlgebra
  import opened ArmFloor
  import Text

  const COST_DC := 0.1
  const COST_RESIDENTIAL := 1.0
  const COST_MOBILE := 3.0
  const FREE_RISK_PREMIUM := 0.15
  const MAX_MEAN_REWARD := 1.0

  /** Square root and natural logarithm, given as functions. */
  datatype Analysis = Analysis(sqrt: real -> real, ln: real -> real)

  /** What is used of them: sqrt squares back; ln is 0 at 1, monotone, and unbounded on the whole numbers. */
  ghost predicate Sound(m: Analysis) {
    && (forall y :: y >= 0.0 ==> m.sqrt(y) >= 0.0 && m.sqrt(y) * m.sqrt(y) == y)
    && m.ln(1.0) == 0.0
    && (forall a, b :: 1.0 <= a <= b ==> m.ln(a) <= m.ln(b))
    && (forall bound :: LnReaches(m, bound))
  }

  function LnAt(m: Analysis, t: nat): real {
    m.ln(1.0 + t as real)
  }

  ghost predicate LnReaches(m: Analysis, bound: real) {
    exists t: nat :: LnAt(m, t) >= bound
  }

  function IsFree(tier: string): bool {
    Text.EqIgnoreCase(tier, "free")
  }

  function CostWeight(tier: string): real {
    var t := Text.Lower(tier);
    if t == "datacenter" || t == "dc" then COST_DC
    else if t == "mobile" then COST_MOBILE
    else if t == "free" then 0.0
    else COST_RESIDENTIAL
  }

  function ForgetPeriod(tier: string): (n: nat)
    ensures n > 0
  {
    if IsFree(tier) then FORGET_EVERY_FREE else FORGET_EVERY
  }

  /** What the tier takes off every score of an arm. */
  function Penalty(tier: string): (p: real)
    ensures 0.005 <= p <= 0.15
  {
    0.05 * CostWeight(tier) + if IsFree(tier) then FREE_RISK_PREMIUM else 0.0
  }

  function Clamp(x: real): real {
    if x < 0.0 then 0.0 else if x > MAX_MEAN_REWARD then MAX_MEAN_REWARD else x
  }

  function Max0(x: real): real {
    if x < 0.0 then 0.0 else x
  }

  function Growth(m: Analysis, t: nat): real {
    m.sqrt(LnAt(m, t))
  }

  /** The exploration bonus: alpha times the spread of the estimate times sqrt(ln(1 + t)), over sqrt(1 + n). */
  function Bonus(alpha: real, spread: real, growth: real, root: real): real
    requires root != 0.0
  {
    alpha * spread * growth / root
  }

  function Root(m: Analysis, updates: nat): real {
    m.sqrt(1.0 + updates as real)
  }

  function Score(m: Analysis, s: ArmState, tier: string, x: Vec, alpha: real, t: nat): real
    requires Root(m, s.updates) != 0.0
  {
    Clamp(Dot(MatVec(s.aInv, s.b), x))
    + Bonus(alpha, m.sqrt(Max0(Quad(s.aInv, x))), Growth(m, t), Root(m, s.updates))
    - Penalty(tier)
  }

  /** The formula in full, with its numbers: the clamped estimate, the bonus, the cost of the tier and the premium for
      free nodes. */
  lemma ScoreInFull(m: Analysis, s: ArmState, tier: string, x: Vec, alpha: real, t: nat, e: real, q: real, b: real)
    requires Root(m, s.updates) != 0.0
    requires e == Dot(MatVec(s.aInv, s.b), x) && q == Dot(x, MatVec(s.aInv, x)) >= 0.0
    requires b == Bonus(alpha, m.sqrt(q), m.sqrt(m.ln(1.0 + t as real)), m.sqrt(1.0 + s.updates as real))
    ensures var free := Text.EqIgnoreCase(tier, "free");
            var cost := if Text.EqIgnoreCase(tier, "datacenter") || Text.EqIgnoreCase(tier, "dc") then 0.1
                        else if Text.EqIgnoreCase(tier, "mobile") then 3.0
                        else if free then 0.0 else 1.0;
            Score(m, s, tier, x, alpha, t)
            == (if e < 0.0 then 0.0 else if e > 1.0 then 1.0 else e) + b - 0.05 * cost - (if free then 0.15 else 0.0)
  {
    hide Dot, MatVec, Quad, Bonus, Penalty, Text.EqIgnoreCase;
    PenaltyInFull(tier);
    QuadIs(s.aInv, x);
  }

  lemma QuadIs(a: Mat, x: Vec)
    ensures Quad(a, x) == Dot(x, MatVec(a, x))
  {
    hide Dot, MatVec;
  }

  lemma PenaltyInFull(tier: string)
    ensures var free := Text.EqIgnoreCase(tier, "free");
            var cost := if Text.EqIgnoreCase(tier, "datacenter") || Text.EqIgnoreCase(tier, "dc") then 0.1
                        else if Text.EqIgnoreCase(tier, "mobile") then 3.0
                        else if free then 0.0 else 1.0;
            Penalty(tier) == 0.05 * cost + if free then 0.15 else 0.0
  {
    LowerNames();
    hide Text.Lower;
  }

  /** The bonus times its root is the product of the other three. */
  lemma BonusIff(alpha: real, spread: real, growth: real, root: real, b: real)
    requires root != 0.0
    ensures b == Bonus(alpha, spread, growth, root) <==> b * root == alpha * spread * growth
  {
    var n := alpha * spread * growth;
    assert n / root * root == n;
    if b * root == n {
      assert (b - n / root) * root == 0.0;
    }
  }

  lemma LowerNames()
    ensures Text.Lower("datacenter") == "datacenter" && Text.Lower("dc") == "dc" && Text.Lower("mobile") == "mobile"
    ensures Text.Lower("free") == "free" && Text.Lower("residential") == "residential"
  {
    hide Text.Lower;
    Text.LowerFixes("datacenter");
    Text.LowerFixes("dc");
    Text.LowerFixes("mobile");
    Text.LowerFixes("free");
    Text.LowerFixes("residential");
  }

  // ---------------------------------------------------------------- facts about sqrt

  lemma SqrtMonotone(m: Analysis, a: real, b: real)
    requires Sound(m) && 0.0 <= a <= b
    ensures m.sqrt(a) <= m.sqrt(b)
  {
    var p, q := m.sqrt(a), m.sqrt(b);
    if p > q {
      SquareGrows(q, p);
    }
  }

  lemma SquareGrows(q: real, p: real)
    requires 0.0 <= q < p
    ensures q * q < p * p
  {
    assert p * p - q * q == (p - q) * (p + q);
    ProductSign(p - q, p + q, (p - q) * (p + q));
  }

  lemma SqrtOfOne(m: Analysis)
    requires Sound(m)
    ensures m.sqrt(1.0) == 1.0
  {
    var r := m.sqrt(1.0);
    if r > 1.0 {
      SquareGrows(1.0, r);
    } else if r < 1.0 {
      SquareGrows(r, 1.0);
    }
  }

  lemma SqrtAtLeastOne(m: Analysis, a: real)
    requires Sound(m) && a >= 1.0
    ensures m.sqrt(a) >= 1.0
    ensures a > 1.0 ==> m.sqrt(a) > 1.0
  {
    SqrtOfOne(m);
    SqrtMonotone(m, 1.0, a);
  }

  lemma GrowthNonNegative(m: Analysis, t: nat)
    requires Sound(m)
    ensures LnAt(m, t) >= 0.0 && Growth(m, t) >= 0.0
  {
    assert m.ln(1.0) <= m.ln(1.0 + t as real);
  }

  lemma GrowthMonotone(m: Analysis, t: nat, u: nat)
    requires Sound(m) && t <= u
    ensures Growth(m, t) <= Growth(m, u)
  {
    GrowthNonNegative(m, t);
    SqrtMonotone(m, LnAt(m, t), LnAt(m, u));
  }

  lemma GrowthUnbounded(m: Analysis, bound: real) returns (t: nat)
    requires Sound(m)
    ensures Growth(m, t) >= bound
  {
    var b := Max0(bound);
    assert LnReaches(m, b * b);
    t :| LnAt(m, t) >= b * b;
    GrowthNonNegative(m, t);
    var g := Growth(m, t);
    if g < b {
      SquareGrows(g, b);
    }
  }

  // ---------------------------------------------------------------- bounds of the bonus

  lemma RootAtLeastOne(m: Analysis, updates: nat)
    requires Sound(m)
    ensures Root(m, updates) >= 1.0
  {
    SqrtAtLeastOne(m, 1.0 + updates as real);
  }

  /** No root vanishes, so every score is defined. */
  ghost predicate Positive(m: Analysis) {
    forall n :: Root(m, n) >= 1.0
  }

  lemma SoundRootsPositive(m: Analysis)
    requires Sound(m)
    ensures Positive(m)
  {
    forall n
      ensures Root(m, n) >= 1.0
    {
      RootAtLeastOne(m, n);
    }
  }

  lemma QuotientShrinks(n: real, n': real, d: real, d': real)
    requires 0.0 <= n <= n' && 0.0 < d' <= d
    ensures 0.0 <= n / d <= n' / d'
  {
    var q := n' / d';
    assert q * d' == n';
    QuotientBelow(n', d', 0.0);
    Scaled(d', d, q);
    assert n <= q * d;
    QuotientBelow(n, d, q);
  }

  lemma BonusMono(alpha: real, v: real, v': real, g: real, root: real, root': real)
    requires alpha >= 0.0 && 0.0 <= v <= v' && g >= 0.0 && 0.0 < root' <= root
    ensures 0.0 <= Bonus(alpha, v, g, root) <= Bonus(alpha, v', g, root')
  {
    var n, n' := alpha * v * g, alpha * v' * g;
    Scaled(0.0, alpha, v);
    Scaled(v, v', alpha);
    Scaled(alpha * v, alpha * v', g);
    Scaled(0.0, alpha * v, g);
    assert 0.0 <= n <= n';
    QuotientShrinks(n, n', root, root');
  }

  /** The length of a context. */
  function Length(m: Analysis, x: Vec): real {
    m.sqrt(Dot(x, x))
  }

  lemma BiasMakesLong(m: Analysis, x: Vec)
    requires Sound(m) && x.e1 == 1.0
    ensures Dot(x, x) >= 1.0 && Length(m, x) >= 1.0
  {
    assert Dot(x, x) == Square(x.e0) + 1.0 + Square(x.e2) + Square(x.e3);
    SqrtAtLeastOne(m, Dot(x, x));
  }

  lemma BonusAtMost(m: Analysis, s: ArmState, x: Vec, alpha: real, worn: nat, t: nat)
    requires Sound(m) && Good(s.aInv) && alpha >= 0.0 && s.updates >= worn
    ensures Quad(s.aInv, x) >= 0.0 && Root(m, s.updates) >= 1.0 && Root(m, worn) >= 1.0
    ensures 0.0 <= Bonus(alpha, m.sqrt(Quad(s.aInv, x)), Growth(m, t), Root(m, s.updates))
         <= Bonus(alpha, Length(m, x), Growth(m, t), Root(m, worn))
  {
    GoodAt(s.aInv, x);
    hide Dot, MatVec, Quad, Good, Bonus;
    RootAtLeastOne(m, worn);
    RootAtLeastOne(m, s.updates);
    SqrtMonotone(m, 1.0 + worn as real, 1.0 + s.updates as real);
    SqrtMonotone(m, Quad(s.aInv, x), Dot(x, x));
    GrowthNonNegative(m, t);
    BonusMono(alpha, m.sqrt(Quad(s.aInv, x)), Length(m, x), Growth(m, t), Root(m, s.updates), Root(m, worn));
  }

  /** An arm with at least `worn` updates scores at most this. */
  lemma WornScore(m: Analysis, s: ArmState, tier: string, x: Vec, alpha: real, worn: nat, t: nat)
    requires Sound(m) && Good(s.aInv) && alpha >= 0.0 && s.updates >= worn
    ensures Root(m, s.updates) >= 1.0 && Root(m, worn) >= 1.0
    ensures Score(m, s, tier, x, alpha, t)
         <= 1.0 + Bonus(alpha, Length(m, x), Growth(m, t), Root(m, worn)) - Penalty(tier)
  {
    hide Dot, MatVec, Quad, Penalty, Good, Bonus, Length, Growth, Root, Sound;
    BonusAtMost(m, s, x, alpha, worn, t);
  }

  /** What the first `k` updates can at most take off the bonus of a fresh arm, as a factor. */
  function Divisor(m: Analysis, bound: real, k: nat): real {
    m.sqrt(Power(1.0 + bound, k)) * Root(m, k)
  }

  lemma DivisorAtLeastOne(m: Analysis, bound: real, k: nat)
    requires Sound(m) && bound >= 0.0
    ensures m.sqrt(Power(1.0 + bound, k)) >= 1.0 && Root(m, k) >= 1.0 && Divisor(m, bound, k) >= 1.0
  {
    PowerGrows(1.0 + bound, 0, k);
    PowerOfNothing(1.0 + bound);
    SqrtAtLeastOne(m, Power(1.0 + bound, k));
    RootAtLeastOne(m, k);
    Scaled(1.0, m.sqrt(Power(1.0 + bound, k)), Root(m, k));
  }

  /** The spread of an arm with at most `k` updates is at least the length of the context over sqrt((1 + bound)^k). */
  lemma SpreadAtLeast(m: Analysis, s: ArmState, x: Vec, bound: real, k: nat)
    requires Sound(m) && Alive(s, bound) && s.updates <= k
    ensures Quad(s.aInv, x) >= 0.0
    ensures Length(m, x) <= m.sqrt(Quad(s.aInv, x)) * m.sqrt(Power(1.0 + bound, k))
  {
    hide Quad, Dot, Good, Power, Alive;
    FloorAt(s, bound, x);
    GoodAt(s.aInv, x);
    PowerGrows(1.0 + bound, s.updates, k);
    Scaled(Power(1.0 + bound, s.updates), Power(1.0 + bound, k), Quad(s.aInv, x));
    SqrtOfProduct(m, Dot(x, x), Quad(s.aInv, x), Power(1.0 + bound, k));
  }

  lemma SqrtOfProduct(m: Analysis, d: real, q: real, p: real)
    requires Sound(m) && 0.0 <= d <= p * q && q >= 0.0 && p >= 0.0
    ensures m.sqrt(d) <= m.sqrt(q) * m.sqrt(p)
  {
    var rd, rq, rp := m.sqrt(d), m.sqrt(q), m.sqrt(p);
    assert rd * rd == d && rq * rq == q && rp * rp == p && rd >= 0.0 && rq >= 0.0 && rp >= 0.0;
    hide Sound;
    Scaled(0.0, rq, rp);
    assert (rq * rp) * (rq * rp) == (rq * rq) * (rp * rp);
    assert (rq * rq) * (rp * rp) == p * q;
    if rq * rp < rd {
      SquareGrows(rq * rp, rd);
      assert false;
    }
  }

  /** e v / (rp r) <= e rq / r, if v <= rq rp */
  lemma FloorOfBonus(e: real, v: real, rq: real, rp: real, r: real)
    requires e >= 0.0 && v <= rq * rp && rp > 0.0 && r > 0.0 && rp * r > 0.0
    ensures e * v / (rp * r) <= e * rq / r
  {
    var b := e * rq / r;
    assert b * r == e * rq;
    assert b * (rp * r) == e * (rq * rp);
    Scaled(v, rq * rp, e);
    QuotientBelow(e * v, rp * r, b);
  }

  lemma BonusAtLeast(m: Analysis, s: ArmState, x: Vec, alpha: real, bound: real, k: nat, t: nat)
    requires Sound(m) && alpha >= 0.0 && Alive(s, bound) && s.updates <= k
    ensures Quad(s.aInv, x) >= 0.0 && Root(m, s.updates) >= 1.0 && Divisor(m, bound, k) >= 1.0
    ensures Bonus(alpha, Length(m, x), Growth(m, t), Divisor(m, bound, k))
         <= Bonus(alpha, m.sqrt(Quad(s.aInv, x)), Growth(m, t), Root(m, s.updates))
  {
    hide Quad, Dot, Good, Power, Alive, Length;
    FloorAt(s, bound, x);
    SpreadAtLeast(m, s, x, bound, k);
    DivisorAtLeastOne(m, bound, k);
    RootAtLeastOne(m, s.updates);
    GrowthNonNegative(m, t);
    SqrtMonotone(m, 1.0 + s.updates as real, 1.0 + k as real);
    assert m.sqrt(Quad(s.aInv, x)) >= 0.0;
    hide Sound, Growth;
    var g, v, rq := Growth(m, t), Length(m, x), m.sqrt(Quad(s.aInv, x));
    var rp, r := m.sqrt(Power(1.0 + bound, k)), Root(m, k);
    Scaled(0.0, alpha, g);
    FloorOfBonus(alpha * g, v, rq, rp, r);
    assert alpha * v * g == alpha * g * v && alpha * rq * g == alpha * g * rq;
    assert Bonus(alpha, v, g, Divisor(m, bound, k)) <= Bonus(alpha, rq, g, r);
    BonusMono(alpha, rq, rq, g, r, Root(m, s.updates));
  }

  /** An arm with at most `k` updates scores at least this. */
  lemma FreshScore(m: Analysis, s: ArmState, tier: string, x: Vec, alpha: real, bound: real, k: nat, t: nat)
    requires Sound(m) && alpha >= 0.0 && Alive(s, bound) && s.updates <= k
    ensures Root(m, s.updates) >= 1.0 && Divisor(m, bound, k) >= 1.0
    ensures Score(m, s, tier, x, alpha, t)
         >= Bonus(alpha, Length(m, x), Growth(m, t), Divisor(m, bound, k)) - Penalty(tier)
  {
    hide Quad, Dot, Good, MatVec, Power, Alive, Length, Bonus, Divisor, Growth, Penalty;
    BonusAtLeast(m, s, x, alpha, bound, k, t);
  }

  // ---------------------------------------------------------------- little learned outscores much learned

  /** `worn` updates divide the bonus of a fresh arm by at least twice what the first `k` updates can take off. */
  predicate Wears(m: Analysis, bound: real, k: nat, worn: nat) {
    Root(m, worn) >= 2.0 * Divisor(m, bound, k)
  }

  /** At step `t` half the bonus left after `k` updates outweighs the range of rewards and penalties. */
  predicate Ripe(m: Analysis, alpha: real, bound: real, k: nat, t: nat) {
    alpha * Growth(m, t) > 2.29 * Divisor(m, bound, k)
  }

  ghost predicate RipeFrom(m: Analysis, alpha: real, bound: real, k: nat, t: nat) {
    forall u: nat :: u >= t ==> Ripe(m, alpha, bound, k, u)
  }

  lemma RipeGap(alpha: real, v: real, g: real, d: real, root: real)
    requires v >= 1.0 && d >= 1.0 && root >= 2.0 * d && alpha * g > 2.29 * d
    ensures Bonus(alpha, v, g, d) > Bonus(alpha, v, g, root) + 1.145
  {
    var n := alpha * v * g;
    Scaled(1.0, v, alpha * g);
    assert n == v * (alpha * g);
    assert n > 2.29 * d;
    var b := n / d;
    assert b * d == n;
    QuotientAbove(n, d, 2.29);
    Scaled(2.0 * d, root, b / 2.0);
    QuotientBelow(n, root, b / 2.0);
  }

  lemma QuotientAbove(n: real, d: real, q: real)
    requires d > 0.0 && n > q * d
    ensures n / d > q
  {
    assert n / d * d == n;
    if n / d <= q {
      Scaled(n / d, q, d);
    }
  }

  /** Once ripe, an arm with at most `k` updates outscores every worn arm, whatever their tiers and rewards. */
  lemma LittleOutscoresMuch(m: Analysis, little: ArmState, much: ArmState, tier: string, tier': string, x: Vec,
                            alpha: real, bound: real, k: nat, worn: nat, t: nat)
    requires Sound(m) && alpha > 0.0 && x.e1 == 1.0
    requires Alive(little, bound) && little.updates <= k
    requires Good(much.aInv) && much.updates >= worn
    requires Wears(m, bound, k, worn) && Ripe(m, alpha, bound, k, t)
    ensures Root(m, little.updates) >= 1.0 && Root(m, much.updates) >= 1.0
    ensures Score(m, little, tier, x, alpha, t) > Score(m, much, tier', x, alpha, t)
  {
    hide Score, Penalty, Bonus, Good, Growth, Alive, Length, Dot, Divisor, Sound;
    FreshScore(m, little, tier, x, alpha, bound, k, t);
    WornScore(m, much, tier', x, alpha, worn, t);
    BiasMakesLong(m, x);
    RipeGap(alpha, Length(m, x), Growth(m, t), Divisor(m, bound, k), Root(m, worn));
  }

  lemma AboveQuotient(alpha: real, g: real, q: real)
    requires alpha > 0.0 && g >= q + 1.0
    ensures alpha * g > q * alpha
  {
    var d := g - q;
    assert alpha * g == alpha * q + alpha * d;
    Scaled(1.0, d, alpha);
  }

  lemma ProductAbove(alpha: real, g: real, d: real)
    requires alpha > 0.0 && g >= d / alpha + 1.0
    ensures alpha * g > d
  {
    AboveQuotient(alpha, g, d / alpha);
  }

  /** For every exploration factor and every `k`, from some step on selection is ripe. */
  lemma EventuallyRipe(m: Analysis, alpha: real, bound: real, k: nat) returns (t: nat)
    requires Sound(m) && alpha > 0.0
    ensures RipeFrom(m, alpha, bound, k, t)
  {
    hide Divisor, Growth;
    var d := 2.29 * Divisor(m, bound, k);
    t := GrowthUnbounded(m, d / alpha + 1.0);
    forall u: nat | u >= t
      ensures Ripe(m, alpha, bound, k, u)
    {
      GrowthMonotone(m, t, u);
      ProductAbove(alpha, Growth(m, u), d);
    }
  }

  lemma RootUnbounded(m: Analysis, d: real) returns (n: nat)
    requires Sound(m) && d >= 0.0
    ensures Root(m, n) >= d
  {
    n := (d * d).Floor + 1;
    RootAtLeastOne(m, n);
    var r := Root(m, n);
    assert r * r == 1.0 + n as real;
    if r < d {
      SquareGrows(r, d);
    }
  }

  /** Some number of updates wears an arm. */
  lemma EventuallyWorn(m: Analysis, bound: real, k: nat) returns (worn: nat)
    requires Sound(m) && bound >= 0.0
    ensures Wears(m, bound, k, worn)
  {
    DivisorAtLeastOne(m, bound, k);
    worn := RootUnbounded(m, 2.0 * Divisor(m, bound, k));
  }

  // ---------------------------------------------------------------- the contexts of the source

  /** What `extract_context` builds has the bias the results above ask for, and a squared length of at most 3.04. */
  lemma ContextsFit(risk: real, time: real)
    requires 0.0 <= risk <= 1.0 && 0.0 <= time <= 1.0
    ensures var x := Vec(risk, 1.0, time, 0.2); x.e1 == 1.0 && Dot(x, x) <= 3.04
  {
    SquareOfFraction(risk);
    SquareOfFraction(time);
    var x := Vec(risk, 1.0, time, 0.2);
    assert Dot(x, x) == Square(risk) + Square(1.0) + Square(time) + Square(0.2);
  }

  lemma SquareOfFraction(a: real)
    requires 0.0 <= a <= 1.0
    ensures Square(a) <= 1.0
  {
    var b := 1.0 - a;
    assert Square(a) == a * a;
    assert a * a == a - a * b;
    Scaled(0.0, a, b);
    assert 0.0 * b == 0.0;
  }
}
