/** Every run the tier quota allows is one the gateway can be led through, whatever its arms have learned before. */
module GatewayRuns {
  import opened Options
  import opened LinearAlgebra
  import opened ArmAlgebra
  import opened ArmFloor
  import opened ArmTraining
  import opened Selection
  import opened Sequences
  import opened TierQuota
  import opened TierFairness
  import opened Bandit
  import opened Gateway

  /** Feedback that reaches the arm of a node, one after the other. */
  datatype Lesson = Lesson(node: Node, history: seq<Feedback>)

  function Teach(views: map<string, View>, l: Lesson): map<string, View> {
    var v := ViewOf(views, l.node);
    match LearnAll(v.state, l.history, ForgetPeriod(v.tier))
    case Learned(s) => views[l.node.addr := v.(state := s)]
    case DivisionByZero => views
  }

  function TeachAll(views: map<string, View>, lessons: seq<Lesson>): map<string, View> {
    if lessons == [] then views else Teach(TeachAll(views, lessons[..|lessons| - 1]), lessons[|lessons| - 1])
  }

  ghost predicate GoodViews(views: map<string, View>) {
    forall a :: a in views ==> Good(views[a].state.aInv)
  }

  lemma ViewIsGood(views: map<string, View>, n: Node)
    requires GoodViews(views)
    ensures Good(ViewOf(views, n).state.aInv)
  {
    IdentityIsGood();
    hide Good;
  }

  lemma {:induction false} WithArmsIsGood(views: map<string, View>, nodes: seq<Node>)
    requires GoodViews(views)
    ensures GoodViews(WithArms(views, nodes))
  {
    hide Good;
    if nodes != [] {
      WithArmsIsGood(views, nodes[..|nodes| - 1]);
      ViewIsGood(WithArms(views, nodes[..|nodes| - 1]), nodes[|nodes| - 1]);
    }
  }

  // ---------------------------------------------------------------- one arm

  /** The bonus of a fresh arm at step `t`; updates divide it by their root. */
  function Weight(m: Analysis, x: Vec, alpha: real, t: nat): real {
    alpha * Length(m, x) * Growth(m, t)
  }

  lemma SmallBonus(m: Analysis, x: Vec, alpha: real, n: nat, t: nat)
    requires Root(m, n) >= 1.0 && Root(m, n) >= 5.0 * Weight(m, x, alpha, t)
    ensures Bonus(alpha, Length(m, x), Growth(m, t), Root(m, n)) <= 0.2
  {
    hide Length, Growth, Root;
    QuotientBelow(Weight(m, x, alpha, t), Root(m, n), 0.2);
  }

  /** An expectation of at least a half is enough for any arm; one of at most a tenth with a small bonus is not. */
  lemma ScoreDecides(m: Analysis, s: ArmState, tier: string, x: Vec, alpha: real, least: nat, t: nat)
    requires Sound(m) && alpha >= 0.0 && Good(s.aInv) && s.updates >= least
    requires Root(m, least) >= 5.0 * Weight(m, x, alpha, t)
    ensures Root(m, s.updates) >= 1.0
    ensures Expectation(s, x) >= 0.5 ==> Score(m, s, tier, x, alpha, t) >= 0.35
    ensures Expectation(s, x) <= 0.1 ==> Score(m, s, tier, x, alpha, t) < 0.35
  {
    hide Dot, MatVec, Quad, Good, Penalty, Growth, Sound, Length, Root, Bonus, Weight;
    BonusAtMost(m, s, x, alpha, least, t);
    SmallBonus(m, x, alpha, least, t);
  }

  /** `r` is good, and scores at least 0.35 exactly if it is wanted. */
  ghost predicate Trained(m: Analysis, r: Learned, tier: string, x: Vec, alpha: real, t: nat, wanted: bool) {
    && r.Learned? && Good(r.arm.aInv) && Root(m, r.arm.updates) >= 1.0
    && (Score(m, r.arm, tier, x, alpha, t) >= 0.35 <==> wanted)
  }

  lemma PeriodAboveTwenty(tier: string)
    ensures ForgetPeriod(tier) > 20
  {
  }

  lemma FadedIsSmall(a: Mat, b: Vec, x: Vec, d: real)
    requires Good(a) && d == Dot(x, x) >= 1.0 && Dot(b, b) <= 0.01 / d
    ensures -0.1 <= Form(a, b, x) <= 0.1
  {
    hide Form, Good, Dot;
    Scaled(Dot(b, b), 0.01 / d, d);
    SmallForm(a, b, x);
  }

  /** Whatever an arm has learned, further feedback makes it score high or low. */
  lemma Train(m: Analysis, s: ArmState, tier: string, x: Vec, alpha: real, least: nat, t: nat, wanted: bool)
      returns (h: seq<Feedback>)
    requires Sound(m) && alpha >= 0.0 && x.e1 == 1.0 && Good(s.aInv)
    requires Root(m, least) >= 5.0 * Weight(m, x, alpha, t)
    ensures Trained(m, LearnAll(s, h, ForgetPeriod(tier)), tier, x, alpha, t, wanted)
  {
    hide *;
    BiasMakesLong(m, x);
    PeriodAboveTwenty(tier);
    var d, period := Dot(x, x), ForgetPeriod(tier);
    PositiveQuotient(d);
    var n := Starved(s, x, period, least, 0.01 / d);
    var r := LearnAll(s, Repeated(x, 0.0, n), period).arm;
    FadedIsSmall(r.aInv, r.b, x, d);
    ExpectationIsForm(r, x);
    if wanted {
      Fed(r, x, period);
      LearnAllConcat(s, Repeated(x, 0.0, n), Repeated(x, 1.0, 20), period);
      h := Repeated(x, 0.0, n) + Repeated(x, 1.0, 20);
    } else {
      h := Repeated(x, 0.0, n);
    }
    ScoreDecides(m, LearnAll(s, h, period).arm, tier, x, alpha, least, t);
    TrainedIf(m, LearnAll(s, h, period), tier, x, alpha, t, wanted);
  }

  lemma PositiveQuotient(d: real)
    requires d >= 1.0
    ensures 0.01 / d > 0.0
  {
    assert 0.01 / d * d == 0.01;
  }

  lemma TrainedIf(m: Analysis, r: Learned, tier: string, x: Vec, alpha: real, t: nat, wanted: bool)
    requires r.Learned? && Good(r.arm.aInv) && Root(m, r.arm.updates) >= 1.0
    requires Score(m, r.arm, tier, x, alpha, t) >= 0.35 <==> wanted
    ensures Trained(m, r, tier, x, alpha, t, wanted)
  {
  }

  // ---------------------------------------------------------------- all candidates

  /** The candidates of `tier` score at least 0.35, the others do not. */
  ghost predicate Favours(m: Analysis, views: map<string, View>, cands: seq<Node>, tier: string, x: Vec, alpha: real,
                          t: nat)
    requires Positive(m)
  {
    forall n :: n in cands ==> (ScoreIn(m, views, x, alpha, t)(n) >= 0.35 <==> n.tier == tier)
  }

  lemma SameViewSameScore(m: Analysis, v: map<string, View>, w: map<string, View>, n: Node, x: Vec, alpha: real, t: nat)
    requires Positive(m) && ViewOf(v, n) == ViewOf(w, n)
    ensures ScoreIn(m, v, x, alpha, t)(n) == ScoreIn(m, w, x, alpha, t)(n)
  {
    hide Score, ViewOf;
  }

  lemma TrainCandidate(m: Analysis, views: map<string, View>, n: Node, x: Vec, alpha: real, least: nat, t: nat,
                       wanted: bool)
      returns (l: Lesson)
    requires Sound(m) && Positive(m) && alpha >= 0.0 && x.e1 == 1.0 && GoodViews(views)
    requires Root(m, least) >= 5.0 * Weight(m, x, alpha, t)
    ensures GoodViews(Teach(views, l)) && n.addr in Teach(views, l)
    ensures forall a :: a != n.addr ==> (a in Teach(views, l) <==> a in views)
    ensures forall a :: a in views && a != n.addr ==> Teach(views, l)[a] == views[a]
    ensures ScoreIn(m, Teach(views, l), x, alpha, t)(n) >= 0.35 <==> wanted
  {
    ViewIsGood(views, n);
    var v := ViewOf(views, n);
    hide Score, Good, LearnAll, Sound, Positive, Weight, Root, ForgetPeriod, ViewOf;
    var h := Train(m, v.state, v.tier, x, alpha, least, t, wanted);
    l := Lesson(n, h);
    assert Teach(views, l) == views[n.addr := v.(state := LearnAll(v.state, h, ForgetPeriod(v.tier)).arm)];
    SeenAfter(views, n, v.(state := LearnAll(v.state, h, ForgetPeriod(v.tier)).arm));
  }

  lemma SeenAfter(views: map<string, View>, n: Node, v: View)
    ensures ViewOf(views[n.addr := v], n) == v
  {
  }

  lemma {:induction false} TrainCandidates(m: Analysis, views: map<string, View>, cands: seq<Node>, tier: string,
                                           x: Vec, alpha: real, least: nat, t: nat)
      returns (lessons: seq<Lesson>)
    requires Sound(m) && Positive(m) && alpha >= 0.0 && x.e1 == 1.0 && GoodViews(views) && OneTierEach(cands)
    requires Root(m, least) >= 5.0 * Weight(m, x, alpha, t)
    ensures GoodViews(TeachAll(views, lessons))
    ensures Favours(m, TeachAll(views, lessons), cands, tier, x, alpha, t)
  {
    hide Sound, Positive, GoodViews, Weight, Root, ScoreIn, Teach;
    if cands == [] {
      lessons := [];
    } else {
      var front, last := cands[..|cands| - 1], cands[|cands| - 1];
      assert OneTierEach(front);
      var before := TrainCandidates(m, views, front, tier, x, alpha, least, t);
      var v := TeachAll(views, before);
      if n :| n in front && n.addr == last.addr {
        lessons := before;
        SameAddressSameScore(m, v, n, last, x, alpha, t);
      } else {
        var l := TrainCandidate(m, v, last, x, alpha, least, t, last.tier == tier);
        lessons := before + [l];
        assert lessons[..|lessons| - 1] == before;
        forall n | n in front
          ensures ScoreIn(m, v, x, alpha, t)(n) == ScoreIn(m, Teach(v, l), x, alpha, t)(n)
        {
          SameViewSameScore(m, v, Teach(v, l), n, x, alpha, t);
        }
      }
    }
  }

  lemma SameAddressSameScore(m: Analysis, v: map<string, View>, n: Node, o: Node, x: Vec, alpha: real, t: nat)
    requires Positive(m) && n.addr == o.addr && n.tier == o.tier
    ensures ScoreIn(m, v, x, alpha, t)(n) == ScoreIn(m, v, x, alpha, t)(o)
  {
    hide Score;
  }

  // ---------------------------------------------------------------- one selection

  /** The best node is of `tier` if the nodes of `tier` are those that score at least `floor`. */
  lemma FloorDecides(cands: seq<Node>, window: seq<string>, tier: string, score: Node -> real, floor: real,
                     chosen: Option<Node>)
    requires Legal(cands, window, tier)
    requires forall n :: n in cands ==> (score(n) >= floor <==> n.tier == tier)
    requires IsBest(Restrict(cands, ForcedTier(cands, window)), score, chosen)
    ensures chosen.Some? && chosen.value.tier == tier
  {
    var forced := ForcedTier(cands, window);
    var field := Restrict(cands, forced);
    var k :| 0 <= k < |cands| && cands[k].tier == tier;
    RestrictKeeps(cands, forced, cands[k]);
    var j :| 0 <= j < |field| && field[j] == cands[k];
    var i :| IsFirstMax(ScoresOf(field, score), i) && field[i] == chosen.value;
    RestrictKeeps(cands, forced, field[i]);
    assert ScoresOf(field, score)[j] <= ScoresOf(field, score)[i];
  }

  /** Whoever is best at this step is of `tier`. */
  ghost predicate Selects(m: Analysis, views: map<string, View>, cands: seq<Node>, window: seq<string>, tier: string,
                          x: Vec, alpha: real, t: nat)
    requires Positive(m)
  {
    forall chosen ::
      IsBest(Restrict(cands, ForcedTier(cands, window)), ScoreIn(m, views, x, alpha, t), chosen) ==>
      chosen.Some? && chosen.value.tier == tier
  }

  function PositivePart(a: real): (r: real)
    ensures r >= 0.0 && r >= a
  {
    Max0(a)
  }

  /** Every tier the quota allows is picked, at every step and in every context, after suitable feedback - whatever
      the arms have learned so far. */
  lemma EveryLegalTierIsPicked(m: Analysis, views: map<string, View>, cands: seq<Node>, window: seq<string>,
                               tier: string, x: Vec, alpha: real, t: nat)
      returns (lessons: seq<Lesson>)
    requires Sound(m) && alpha >= 0.0 && x.e1 == 1.0 && GoodViews(views)
    requires OneTierEach(cands) && Legal(cands, window, tier)
    ensures GoodViews(TeachAll(views, lessons)) && Positive(m)
    ensures Selects(m, TeachAll(views, lessons), cands, window, tier, x, alpha, t)
  {
    SoundRootsPositive(m);
    hide Legal, IsBest, Sound, Positive, ScoreIn, Weight, Restrict, ForcedTier, OneTierEach, GoodViews, TeachAll;
    var least := RootUnbounded(m, PositivePart(5.0 * Weight(m, x, alpha, t)));
    lessons := TrainCandidates(m, views, cands, tier, x, alpha, least, t);
    var score := ScoreIn(m, TeachAll(views, lessons), x, alpha, t);
    forall chosen | IsBest(Restrict(cands, ForcedTier(cands, window)), score, chosen)
      ensures chosen.Some? && chosen.value.tier == tier
    {
      FloorDecides(cands, window, tier, score, 0.35, chosen);
    }
  }

  // ---------------------------------------------------------------- whole runs

  /** The gateway makes these initial selections, one in each of the contexts, when it is given the lessons in between:
      the counter advances, the arms scored are created, and the tier picked enters the window. */
  ghost predicate Leads(m: Analysis, cands: seq<Node>, alpha: real, views: map<string, View>, window: seq<string>,
                        t: nat, contexts: seq<Vec>, lessons: seq<seq<Lesson>>, picks: seq<string>)
    requires Positive(m) && |contexts| == |picks|
    decreases |picks|
  {
    |lessons| == |picks| &&
    (picks != [] ==>
       var taught := TeachAll(views, lessons[0]);
       && Selects(m, taught, cands, window, picks[0], contexts[0], alpha, t + 1)
       && Leads(m, cands, alpha, WithArms(taught, Restrict(cands, ForcedTier(cands, window))),
                Push(window, picks[0]), t + 1, contexts[1..], lessons[1..], picks[1..]))
  }

  lemma SuffixOfSuffix(a: seq<string>, b: seq<string>, n: nat)
    ensures Suffix(Suffix(a, n) + b, n) == Suffix(a + b, n)
  {
    var k := |a| - |Suffix(a, n)|;
    assert a == a[..k] + Suffix(a, n);
    assert a + b == a[..k] + (Suffix(a, n) + b);
    SuffixOfConcat(a[..k], Suffix(a, n) + b, n);
  }

  lemma SuffixOfConcat(a: seq<string>, b: seq<string>, n: nat)
    requires a == [] || |b| >= n
    ensures Suffix(a + b, n) == Suffix(b, n)
  {
    if a == [] {
      assert a + b == b;
    } else {
      assert (a + b)[|a + b| - n..] == b[|b| - n..];
    }
  }

  lemma RunTail(cands: seq<Node>, w0: seq<string>, picks: seq<string>)
    requires IsRun(cands, w0, picks) && picks != []
    ensures Legal(cands, w0, picks[0])
    ensures IsRun(cands, Push(w0, picks[0]), picks[1..])
  {
    hide Legal;
    WindowAtIsPushed(w0, picks, 0);
    var w, rest := Push(w0, picks[0]), picks[1..];
    assert w == Suffix(w0 + [picks[0]], W);
    forall k | 0 <= k < |rest|
      ensures Legal(cands, WindowAt(w, rest, k), rest[k])
    {
      assert (w0 + [picks[0]]) + rest[..k] == w0 + picks[..k + 1];
      SuffixOfSuffix(w0 + [picks[0]], rest[..k], W);
      assert Legal(cands, WindowAt(w0, picks, k + 1), picks[k + 1]);
    }
  }

  /** Every run of legal picks, so every run the quota's guarantees speak of, is one the gateway makes after suitable
      feedback, from any arms it can have, any value of the counter and in any contexts. */
  lemma {:induction false} EveryRunHappens(m: Analysis, cands: seq<Node>, alpha: real, views: map<string, View>,
                                           w0: seq<string>, t: nat, contexts: seq<Vec>, picks: seq<string>)
      returns (lessons: seq<seq<Lesson>>)
    requires Sound(m) && alpha >= 0.0 && GoodViews(views) && OneTierEach(cands)
    requires |contexts| == |picks| && forall k :: 0 <= k < |contexts| ==> contexts[k].e1 == 1.0
    requires IsRun(cands, w0, picks)
    ensures Positive(m) && Leads(m, cands, alpha, views, w0, t, contexts, lessons, picks)
    decreases |picks|
  {
    SoundRootsPositive(m);
    hide Sound, Positive, GoodViews, OneTierEach, IsRun, Selects, Legal, Restrict, ForcedTier, TeachAll, WithArms, Push;
    if picks == [] {
      lessons := [];
    } else {
      RunTail(cands, w0, picks);
      var first := EveryLegalTierIsPicked(m, views, cands, w0, picks[0], contexts[0], alpha, t + 1);
      var taught := TeachAll(views, first);
      WithArmsIsGood(taught, Restrict(cands, ForcedTier(cands, w0)));
      var rest := EveryRunHappens(m, cands, alpha, WithArms(taught, Restrict(cands, ForcedTier(cands, w0))),
                                  Push(w0, picks[0]), t + 1, contexts[1..], picks[1..]);
      lessons := [first] + rest;
      assert lessons[1..] == rest;
    }
  }
}
