/** Capacity eviction by repeated removal of the least entry, against a one-shot specification. */
module Eviction {
  import opened Sequences

  /** Lexicographic order on strings. */
  predicate LexLess(a: string, b: string) {
    b != [] && (a == [] || a[0] < b[0] || (a[0] == b[0] && LexLess(a[1..], b[1..])))
  }

  lemma {:induction false} LexTotal(a: string, b: string)
    ensures a == b || LexLess(a, b) || LexLess(b, a)
    ensures !(LexLess(a, b) && LexLess(b, a))
    ensures !LexLess(a, a)
  {
    if a != [] && b != [] {
      LexTotal(a[1..], b[1..]);
      LexTotal(a[1..], a[1..]);
      assert a == [a[0]] + a[1..] && b == [b[0]] + b[1..];
    } else if a != [] {
      LexTotal(a[1..], a[1..]);
    }
  }

  lemma {:induction false} LexTransitive(a: string, b: string, c: string)
    requires LexLess(a, b) && LexLess(b, c)
    ensures LexLess(a, c)
  {
    if a != [] && a[0] == b[0] == c[0] {
      LexTransitive(a[1..], b[1..], c[1..]);
    }
  }

  /** `a` comes first exactly if the two part at a place where `a` has the smaller character, or where `a` ends. */
  lemma {:induction false} LexLessIff(a: string, b: string)
    ensures LexLess(a, b) <==>
            exists k :: 0 <= k <= |a| && k < |b| && a[..k] == b[..k] && (k == |a| || a[k] < b[k])
  {
    if a == [] {
      assert LexLess(a, b) ==> a[..0] == b[..0];
    } else if b != [] && a[0] == b[0] {
      LexLessIff(a[1..], b[1..]);
      if k :| 0 <= k <= |a| && k < |b| && a[..k] == b[..k] && (k == |a| || a[k] < b[k]) {
        PartLater(a, b, k);
      }
      if k :| 0 <= k <= |a| - 1 && k < |b| - 1 && a[1..][..k] == b[1..][..k]
              && (k == |a| - 1 || a[1..][k] < b[1..][k]) {
        assert a[..k + 1] == [a[0]] + a[1..][..k] && b[..k + 1] == [b[0]] + b[1..][..k];
      }
    } else if b != [] {
      assert a[..0] == b[..0];
      forall k | 0 < k <= |a| && k < |b|
        ensures a[..k] != b[..k]
      {
        assert a[..k][0] != b[..k][0];
      }
    }
  }

  lemma PartLater(a: string, b: string, k: nat)
    requires a != [] && b != [] && a[0] == b[0] && k <= |a| && k < |b| && a[..k] == b[..k] && (k == |a| || a[k] < b[k])
    ensures var j := k - 1;
            0 <= j <= |a| - 1 && j < |b| - 1 && a[1..][..j] == b[1..][..j] && (j == |a| - 1 || a[1..][j] < b[1..][j])
  {
    assert a[1..][..k - 1] == a[..k][1..] && b[1..][..k - 1] == b[..k][1..];
  }

  /** What an entry is ranked by, besides its address. */
  datatype Rank = Rank(backedOff: bool, composite: real)

  type Ranks = map<string, Rank>

  /** `a` goes before `b`: backed-off entries first, then the lower composite, then the smaller address. */
  predicate Before(m: Ranks, a: string, b: string)
    requires a in m && b in m
  {
    || (m[a].backedOff && !m[b].backedOff)
    || (m[a].backedOff == m[b].backedOff && RankLess(m[a].composite, a, m[b].composite, b))
  }

  predicate RankLess(x: real, a: string, y: real, b: string) {
    x < y || (x == y && LexLess(a, b))
  }

  lemma BeforeTotal(m: Ranks, a: string, b: string)
    requires a in m && b in m
    ensures a == b || Before(m, a, b) || Before(m, b, a)
    ensures !(Before(m, a, b) && Before(m, b, a))
    ensures !Before(m, a, a)
  {
    LexTotal(a, b);
  }

  lemma BeforeTransitive(m: Ranks, a: string, b: string, c: string)
    requires a in m && b in m && c in m && Before(m, a, b) && Before(m, b, c)
    ensures Before(m, a, c)
  {
    if LexLess(a, b) && LexLess(b, c) {
      LexTransitive(a, b, c);
    }
  }

  /** The entries that outrank `a`. */
  function Above(m: Ranks, a: string): set<string>
    requires a in m
  {
    set b | b in m && Before(m, a, b)
  }

  /** One shot: keep the entries outranked by fewer than `max` others. */
  function Keep(m: Ranks, max: nat): set<string> {
    set a | a in m && |Above(m, a)| < max
  }

  ghost predicate IsLeast(m: Ranks, v: string) {
    v in m && forall a :: a in m && a != v ==> Before(m, v, a)
  }

  lemma AboveOmits(m: Ranks, a: string)
    requires a in m
    ensures a !in Above(m, a) && |Above(m, a)| < |m|
  {
    BeforeTotal(m, a, a);
    SubsetSize(Above(m, a), m.Keys - {a});
  }

  /** Within capacity nothing goes. */
  lemma KeepAll(m: Ranks, max: nat)
    requires |m| <= max
    ensures Keep(m, max) == m.Keys
  {
    forall a | a in m
      ensures |Above(m, a)| < max
    {
      AboveOmits(m, a);
    }
  }

  /** Over capacity, removing the least entry does not change what is kept. */
  lemma KeepSkipsLeast(m: Ranks, max: nat, v: string)
    requires |m| > max && IsLeast(m, v)
    ensures Keep(m, max) == Keep(m - {v}, max)
  {
    var m' := m - {v};
    BeforeTotal(m, v, v);
    assert Above(m, v) == m.Keys - {v};
    forall a | a in m'
      ensures Above(m', a) == Above(m, a)
    {
      BeforeTotal(m, a, v);
    }
  }

  /** Some entry is least. */
  lemma {:induction false} LeastExists(m: Ranks) returns (v: string)
    requires m != map[]
    ensures IsLeast(m, v)
    decreases |m|
  {
    var a :| a in m;
    var m' := m - {a};
    assert forall b :: b in m ==> b == a || b in m';
    if m' == map[] {
      v := a;
    } else {
      v := LeastExists(m');
      assert forall b :: b in m' && b != v ==> Before(m', v, b) && Before(m, v, b);
      BeforeTotal(m, a, v);
      if Before(m, a, v) {
        forall b | b in m && b != a
          ensures Before(m, a, b)
        {
          if b != v {
            BeforeTransitive(m, a, v, b);
          }
        }
        v := a;
      }
    }
  }

  /** What is kept: as many as fit, and each of them outranks each of those removed. */
  lemma {:induction false} KeepIsTheGreatest(m: Ranks, max: nat)
    ensures Keep(m, max) <= m.Keys
    ensures |Keep(m, max)| == if |m| <= max then |m| else max
    ensures forall a, b :: a in m && b in Keep(m, max) && a !in Keep(m, max) ==> Before(m, a, b)
    decreases |m|
  {
    if |m| <= max {
      KeepAll(m, max);
    } else {
      var v := LeastExists(m);
      KeepSkipsLeast(m, max, v);
      KeepIsTheGreatest(m - {v}, max);
    }
  }

  /** Only one set of entries can be what is kept. */
  lemma KeepIsUnique(m: Ranks, max: nat, kept: set<string>)
    requires kept <= m.Keys && |kept| == (if |m| <= max then |m| else max)
    requires forall a, b :: a in m && b in kept && a !in kept ==> Before(m, a, b)
    ensures kept == Keep(m, max)
  {
    KeepIsTheGreatest(m, max);
    var keep := Keep(m, max);
    if a :| a in kept && a !in keep {
      if keep <= kept {
        ProperSubsetSize(keep, kept, a);
      } else {
        var b :| b in keep && b !in kept;
        assert Before(m, a, b) && Before(m, b, a);
        BeforeTotal(m, a, b);
      }
    } else if b :| b in keep && b !in kept {
      ProperSubsetSize(kept, keep, b);
    }
  }

  lemma ProperSubsetSize(a: set<string>, b: set<string>, x: string)
    requires a <= b && x in b && x !in a
    ensures |a| < |b|
  {
    SubsetSize(a, b - {x});
  }
}
