/** What enters verification: deduplication of the sources' yields and the weighted truncation. */
module Intake {
  import opened Registry
  import opened Sequences

  // ---------------------------------------------------------------- deduplication

  datatype Key = Key(ip: string, port: nat, proto: FreeProto)

  function KeyOf(r: RawNode): Key {
    Key(r.ip, r.port, r.proto)
  }

  function KeysOf(raws: seq<RawNode>): set<Key> {
    set r | r in raws :: KeyOf(r)
  }

  function Dedupe(raws: seq<RawNode>): seq<RawNode> {
    if raws == [] then []
    else
      var front, last := raws[..|raws| - 1], raws[|raws| - 1];
      if KeyOf(last) in KeysOf(front) then Dedupe(front) else Dedupe(front) + [last]
  }

  method DedupeFirst(raws: seq<RawNode>) returns (kept: seq<RawNode>)
    ensures kept == Dedupe(raws)
  {
    var seen: set<Key> := {};
    kept := [];
    for k := 0 to |raws|
      invariant kept == Dedupe(raws[..k]) && seen == KeysOf(raws[..k])
    {
      assert raws[..k + 1] == raws[..k] + [raws[k]];
      assert raws[..k + 1][..k] == raws[..k];
      KeysGrow(raws[..k], raws[k]);
      if KeyOf(raws[k]) !in seen {
        kept := kept + [raws[k]];
      }
      seen := seen + {KeyOf(raws[k])};
    }
    assert raws[..|raws|] == raws;
  }

  lemma KeysGrow(raws: seq<RawNode>, r: RawNode)
    ensures KeysOf(raws + [r]) == KeysOf(raws) + {KeyOf(r)}
  {
    assert r in raws + [r];
    forall k | k in KeysOf(raws)
      ensures k in KeysOf(raws + [r])
    {
      var x :| x in raws && KeyOf(x) == k;
      assert x in raws + [r];
    }
  }

  /** The positions in `raws` that hold the first occurrence of their key, in order. */
  ghost predicate IsFirst(raws: seq<RawNode>, i: int) {
    && 0 <= i < |raws|
    && forall j :: 0 <= j < i ==>
         !(raws[j].ip == raws[i].ip && raws[j].port == raws[i].port && raws[j].proto == raws[i].proto)
  }

  /** `at` names, in increasing order, exactly the positions of first occurrences; the result is what stands there. */
  ghost predicate PicksFirsts(raws: seq<RawNode>, kept: seq<RawNode>, at: seq<int>) {
    && |at| == |kept|
    && (forall k :: 0 <= k < |at| ==> IsFirst(raws, at[k]) && kept[k] == raws[at[k]])
    && (forall k, l :: 0 <= k < l < |at| ==> at[k] < at[l])
    && (forall i :: IsFirst(raws, i) ==> i in at)
  }

  lemma {:induction false} DedupeKeepsFirsts(raws: seq<RawNode>) returns (at: seq<int>)
    ensures PicksFirsts(raws, Dedupe(raws), at)
    ensures KeysOf(Dedupe(raws)) == KeysOf(raws)
  {
    hide KeysOf, PicksFirsts;
    if raws == [] {
      at := [];
      NothingPicked();
    } else {
      var n := |raws| - 1;
      var front, last := raws[..n], raws[n];
      at := DedupeKeepsFirsts(front);
      KeysGrow(front, last);
      assert front + [last] == raws;
      PicksPush(front, last, Dedupe(front), at);
      if KeyOf(last) !in KeysOf(front) {
        KeysGrow(Dedupe(front), last);
        at := at + [n];
      }
    }
  }

  lemma NothingPicked()
    ensures PicksFirsts([], [], [])
  {
  }

  /** A pushed node stands at a first occurrence if its key is new; nothing else changes. */
  lemma PicksPush(front: seq<RawNode>, last: RawNode, kept: seq<RawNode>, at: seq<int>)
    requires PicksFirsts(front, kept, at)
    ensures KeyOf(last) in KeysOf(front) ==> PicksFirsts(front + [last], kept, at)
    ensures KeyOf(last) !in KeysOf(front) ==> PicksFirsts(front + [last], kept + [last], at + [|front|])
  {
    forall i: int
      ensures 0 <= i < |front| ==> (IsFirst(front + [last], i) <==> IsFirst(front, i))
      ensures !(0 <= i < |front|) ==>
                (IsFirst(front + [last], i) <==> i == |front| && KeyOf(last) !in KeysOf(front))
    {
      FirstsPush(front, last, i);
    }
    hide IsFirst, KeysOf, KeyOf;
    var next := at + [|front|];
    assert forall i :: i in at ==> i in next;
    assert next[|at|] == |front|;
  }

  lemma FirstsPush(front: seq<RawNode>, last: RawNode, i: int)
    ensures 0 <= i < |front| ==> (IsFirst(front + [last], i) <==> IsFirst(front, i))
    ensures !(0 <= i < |front|) ==>
              (IsFirst(front + [last], i) <==> i == |front| && KeyOf(last) !in KeysOf(front))
  {
    var raws := front + [last];
    if 0 <= i < |front| {
      assert forall j :: 0 <= j <= i ==> raws[j] == front[j];
    } else if i == |front| {
      assert forall j :: 0 <= j < i ==> raws[j] == front[j];
      KeysOfIndices(front, KeyOf(last));
    }
  }

  lemma KeysOfIndices(raws: seq<RawNode>, key: Key)
    ensures key in KeysOf(raws) <==> exists j :: 0 <= j < |raws| && KeyOf(raws[j]) == key
  {
    if key in KeysOf(raws) {
      var x :| x in raws && KeyOf(x) == key;
      var j :| 0 <= j < |raws| && raws[j] == x;
      assert KeyOf(raws[j]) == key;
    }
  }

  // ---------------------------------------------------------------- stable sort

  /** Stable sort by a numeric key: each element goes behind all earlier ones of the same key. */
  function StableSort(s: seq<RawNode>, key: RawNode -> nat): seq<RawNode> {
    if s == [] then [] else InsertBehind(StableSort(s[..|s| - 1], key), s[|s| - 1], key)
  }

  function InsertBehind(s: seq<RawNode>, x: RawNode, key: RawNode -> nat): seq<RawNode> {
    if s == [] || key(s[|s| - 1]) <= key(x) then s + [x]
    else InsertBehind(s[..|s| - 1], x, key) + [s[|s| - 1]]
  }

  ghost predicate SortedBy(s: seq<RawNode>, key: RawNode -> nat) {
    forall i, j :: 0 <= i < j < |s| ==> key(s[i]) <= key(s[j])
  }

  /** The elements with key `c`, in order. */
  function Class(s: seq<RawNode>, key: RawNode -> nat, c: nat): seq<RawNode> {
    if s == [] then []
    else
      var rest, x := Class(s[..|s| - 1], key, c), s[|s| - 1];
      if key(x) == c then rest + [x] else rest
  }

  lemma ClassPush(s: seq<RawNode>, x: RawNode, key: RawNode -> nat, c: nat)
    ensures Class(s + [x], key, c) == if key(x) == c then Class(s, key, c) + [x] else Class(s, key, c)
  {
    assert (s + [x])[..|s|] == s;
  }

  ghost predicate AtMost(s: seq<RawNode>, key: RawNode -> nat, bound: nat) {
    forall k :: 0 <= k < |s| ==> key(s[k]) <= bound
  }

  lemma SortedPush(s: seq<RawNode>, x: RawNode, key: RawNode -> nat)
    ensures SortedBy(s + [x], key) <==> SortedBy(s, key) && AtMost(s, key, key(x))
  {
    var r := s + [x];
    assert r[|s|] == x;
    assert forall i :: 0 <= i < |s| ==> s[i] == r[i];
  }

  lemma {:induction false} InsertAtMost(s: seq<RawNode>, x: RawNode, key: RawNode -> nat, bound: nat)
    requires AtMost(s, key, bound) && key(x) <= bound
    ensures AtMost(InsertBehind(s, x, key), key, bound)
  {
    if s != [] && key(s[|s| - 1]) > key(x) {
      InsertAtMost(s[..|s| - 1], x, key, bound);
    }
  }

  lemma {:induction false} InsertKeepsSorted(s: seq<RawNode>, x: RawNode, key: RawNode -> nat)
    requires SortedBy(s, key)
    ensures SortedBy(InsertBehind(s, x, key), key)
    ensures |InsertBehind(s, x, key)| == |s| + 1
  {
    hide SortedBy;
    if s == [] {
      SortedPush([], x, key);
    } else {
      var front, last := s[..|s| - 1], s[|s| - 1];
      assert s == front + [last];
      SortedPush(front, last, key);
      if key(last) <= key(x) {
        SortedPush(s, x, key);
      } else {
        InsertKeepsSorted(front, x, key);
        InsertAtMost(front, x, key, key(last));
        SortedPush(InsertBehind(front, x, key), last, key);
      }
    }
  }

  lemma {:induction false} InsertKeepsClasses(s: seq<RawNode>, x: RawNode, key: RawNode -> nat, c: nat)
    ensures Class(InsertBehind(s, x, key), key, c) == if key(x) == c then Class(s, key, c) + [x] else Class(s, key, c)
  {
    hide Class;
    if s == [] || key(s[|s| - 1]) <= key(x) {
      ClassPush(s, x, key, c);
    } else {
      var front, last := s[..|s| - 1], s[|s| - 1];
      assert s == front + [last];
      InsertKeepsClasses(front, x, key, c);
      ClassPush(InsertBehind(front, x, key), last, key, c);
      ClassPush(front, last, key, c);
    }
  }

  /** The result is sorted, and every class stands in its original order. */
  lemma {:induction false} StableSortFacts(s: seq<RawNode>, key: RawNode -> nat, c: nat)
    ensures SortedBy(StableSort(s, key), key)
    ensures |StableSort(s, key)| == |s|
    ensures Class(StableSort(s, key), key, c) == Class(s, key, c)
  {
    hide SortedBy, Class, InsertBehind;
    if s == [] {
      NothingSorted(key);
    } else {
      var front, last := s[..|s| - 1], s[|s| - 1];
      StableSortFacts(front, key, c);
      InsertKeepsSorted(StableSort(front, key), last, key);
      InsertKeepsClasses(StableSort(front, key), last, key, c);
      ClassPush(front, last, key, c);
      assert s == front + [last];
    }
  }

  lemma NothingSorted(key: RawNode -> nat)
    ensures SortedBy([], key)
  {
  }

  lemma {:induction false} ClassEmpty(s: seq<RawNode>, key: RawNode -> nat, c: nat)
    requires forall k :: 0 <= k < |s| ==> key(s[k]) != c
    ensures Class(s, key, c) == []
  {
    if s != [] {
      ClassEmpty(s[..|s| - 1], key, c);
    }
  }

  /** Two sorted lists that agree on every class end in elements of the same class. */
  lemma LastOfSorted(s: seq<RawNode>, t: seq<RawNode>, key: RawNode -> nat)
    requires SortedBy(t, key) && s != []
    requires Class(s, key, key(s[|s| - 1])) == Class(t, key, key(s[|s| - 1]))
    ensures t != [] && key(s[|s| - 1]) <= key(t[|t| - 1])
  {
    var c := key(s[|s| - 1]);
    if forall k :: 0 <= k < |t| ==> key(t[k]) != c {
      ClassEmpty(t, key, c);
    }
  }

  ghost predicate SameClasses(s: seq<RawNode>, t: seq<RawNode>, key: RawNode -> nat) {
    forall c: nat :: Class(s, key, c) == Class(t, key, c)
  }

  lemma ClassesOfFronts(s: seq<RawNode>, t: seq<RawNode>, key: RawNode -> nat)
    requires s != [] && t != [] && SameClasses(s, t, key)
    requires key(s[|s| - 1]) == key(t[|t| - 1])
    ensures s[|s| - 1] == t[|t| - 1]
    ensures SameClasses(s[..|s| - 1], t[..|t| - 1], key)
  {
    var f, g, x, y := s[..|s| - 1], t[..|t| - 1], s[|s| - 1], t[|t| - 1];
    assert s == f + [x] && t == g + [y];
    hide Class;
    forall c: nat
      ensures Class(f, key, c) == Class(g, key, c)
      ensures c == key(x) ==> x == y
    {
      ClassPush(f, x, key, c);
      ClassPush(g, y, key, c);
      assert Class(s, key, c) == Class(t, key, c);
      if c == key(x) {
        assert Class(s, key, c)[..|Class(f, key, c)|] == Class(f, key, c);
        assert Class(t, key, c)[|Class(s, key, c)| - 1] == y;
      }
    }
    assert Class(f, key, key(x)) == Class(g, key, key(x));
  }

  lemma {:induction false} SortedByClasses(s: seq<RawNode>, t: seq<RawNode>, key: RawNode -> nat)
    requires SortedBy(s, key) && SortedBy(t, key) && SameClasses(s, t, key)
    ensures s == t
  {
    hide Class;
    if s != [] {
      LastOfSorted(s, t, key);
      LastOfSorted(t, s, key);
      var f, g, x := s[..|s| - 1], t[..|t| - 1], s[|s| - 1];
      ClassesOfFronts(s, t, key);
      SortedByClasses(f, g, key);
      assert s == f + [x] && t == g + [x];
    } else if t != [] {
      LastOfSorted(t, s, key);
    }
  }

  /** Being sorted with every class in its original order determines the result. */
  lemma StableSortIsUnique(s: seq<RawNode>, r: seq<RawNode>, key: RawNode -> nat)
    ensures r == StableSort(s, key) <==> SortedBy(r, key) && SameClasses(r, s, key)
  {
    hide SortedBy, Class, StableSort;
    var sorted := StableSort(s, key);
    forall c: nat
      ensures Class(sorted, key, c) == Class(s, key, c)
    {
      StableSortFacts(s, key, c);
    }
    StableSortFacts(s, key, 0);
    if SortedBy(r, key) && SameClasses(r, s, key) {
      SortedByClasses(r, sorted, key);
    }
  }

  // ---------------------------------------------------------------- truncation

  lemma {:induction false} ClassOfConcat(a: seq<RawNode>, b: seq<RawNode>, key: RawNode -> nat, c: nat)
    ensures Class(a + b, key, c) == Class(a, key, c) + Class(b, key, c)
  {
    if b == [] {
      assert a + b == a;
    } else {
      var front, last := b[..|b| - 1], b[|b| - 1];
      ClassOfConcat(a, front, key, c);
      assert (a + b)[..|a + b| - 1] == a + front;
    }
  }

  /** What survives truncation: of each class the earliest, and of each class before one that has a survivor, all. */
  lemma TruncationKeepsEarliest(raws: seq<RawNode>, cap: nat, key: RawNode -> nat, c: nat)
    requires cap < |raws|
    ensures |StableSort(raws, key)| == |raws|
    ensures var kept := StableSort(raws, key)[..cap];
            && |kept| == cap
            && Class(kept, key, c) <= Class(raws, key, c)
            && ((exists k :: 0 <= k < cap && key(kept[k]) > c) ==> Class(kept, key, c) == Class(raws, key, c))
  {
    StableSortFacts(raws, key, c);
    var sorted := StableSort(raws, key);
    hide StableSort, Class;
    PrefixOfSorted(sorted, cap, key, c);
  }

  lemma PrefixOfSorted(sorted: seq<RawNode>, cap: nat, key: RawNode -> nat, c: nat)
    requires cap <= |sorted| && SortedBy(sorted, key)
    ensures var kept := sorted[..cap];
            && Class(kept, key, c) <= Class(sorted, key, c)
            && ((exists k :: 0 <= k < cap && key(kept[k]) > c) ==> Class(kept, key, c) == Class(sorted, key, c))
  {
    hide Class;
    var kept, dropped := sorted[..cap], sorted[cap..];
    ClassOfConcat(kept, dropped, key, c);
    assert kept + dropped == sorted;
    if k :| 0 <= k < cap && key(kept[k]) > c {
      forall j | 0 <= j < |dropped|
        ensures key(dropped[j]) != c
      {
        assert key(sorted[k]) <= key(sorted[cap + j]);
      }
      ClassEmpty(dropped, key, c);
    }
  }

  // ---------------------------------------------------------------- the intake

  /** The sources by first appearance. */
  function SourcesOf(raws: seq<RawNode>): seq<string> {
    if raws == [] then []
    else
      var sources, source := SourcesOf(raws[..|raws| - 1]), raws[|raws| - 1].source;
      if source in sources then sources else sources + [source]
  }

  lemma SourcesPush(raws: seq<RawNode>, x: RawNode)
    ensures SourcesOf(raws + [x]) ==
            if x.source in SourcesOf(raws) then SourcesOf(raws) else SourcesOf(raws) + [x.source]
  {
    assert (raws + [x])[..|raws|] == raws;
  }

  /** Every source of a node is there, once. */
  lemma {:induction false} SourcesAreAll(raws: seq<RawNode>)
    ensures Distinct(SourcesOf(raws))
    ensures forall s :: s in SourcesOf(raws) <==> exists k :: 0 <= k < |raws| && raws[k].source == s
  {
    if raws != [] {
      var front, last := raws[..|raws| - 1], raws[|raws| - 1];
      SourcesAreAll(front);
      SourcesPush(front, last);
      assert raws == front + [last];
      assert forall k :: 0 <= k < |front| ==> raws[k] == front[k];
      forall s | s in SourcesOf(raws)
        ensures exists k :: 0 <= k < |raws| && raws[k].source == s
      {
        if s == last.source {
          assert raws[|raws| - 1].source == s;
        } else {
          var k :| 0 <= k < |front| && front[k].source == s;
          assert raws[k].source == s;
        }
      }
    }
  }

  /** The position of the first node of a source. */
  function FirstOf(raws: seq<RawNode>, source: string): (i: nat)
    ensures i <= |raws|
    ensures i < |raws| ==> raws[i].source == source
    ensures forall k :: 0 <= k < i ==> raws[k].source != source
  {
    if raws == [] || raws[0].source == source then 0 else 1 + FirstOf(raws[1..], source)
  }

  lemma FirstOfFront(raws: seq<RawNode>, source: string)
    requires raws != []
    ensures var front := raws[..|raws| - 1];
            FirstOf(raws, source) == if FirstOf(front, source) < |front| then FirstOf(front, source)
                                     else if raws[|raws| - 1].source == source then |front| else |raws|
  {
    var front := raws[..|raws| - 1];
    var i, j := FirstOf(raws, source), FirstOf(front, source);
    assert forall k :: 0 <= k < |front| ==> front[k] == raws[k];
    assert i < |front| ==> front[i].source == source;
    assert j < |front| ==> raws[j].source == source;
  }

  /** Sources are listed in the order of their first nodes. */
  lemma {:induction false} SourcesByFirstNode(raws: seq<RawNode>, i: nat, j: nat)
    requires i < j < |SourcesOf(raws)|
    ensures FirstOf(raws, SourcesOf(raws)[i]) < FirstOf(raws, SourcesOf(raws)[j]) < |raws|
  {
    var front, last := raws[..|raws| - 1], raws[|raws| - 1];
    var sources := SourcesOf(front);
    SourcesAreAll(front);
    assert raws == front + [last];
    SourcesPush(front, last);
    FirstOfFront(raws, SourcesOf(raws)[i]);
    FirstOfFront(raws, SourcesOf(raws)[j]);
    KnownSource(front, SourcesOf(raws)[i]);
    KnownSource(front, SourcesOf(raws)[j]);
    if j < |sources| {
      SourcesByFirstNode(front, i, j);
    }
  }

  lemma KnownSource(raws: seq<RawNode>, source: string)
    ensures source in SourcesOf(raws) <==> FirstOf(raws, source) < |raws|
  {
    SourcesAreAll(raws);
  }

  function IndexOf(names: seq<string>, name: string): (i: nat)
    ensures i <= |names|
    ensures name in names ==> i < |names| && names[i] == name
    ensures name !in names ==> i == |names|
    ensures forall k :: 0 <= k < i ==> names[k] != name
  {
    if names == [] then 0 else if names[0] == name then 0 else IndexOf(names[1..], name) + 1
  }

  predicate IsElite(r: RawNode, eliteAddrs: set<string>) {
    AddrOf(r) in eliteAddrs
  }

  /** Elite history first, then the order of the sources. */
  function Priority(r: RawNode, sources: seq<string>, eliteAddrs: set<string>): nat {
    (if IsElite(r, eliteAddrs) then 0 else |sources| + 1) + IndexOf(sources, r.source)
  }

  /** Every source has its position as rank. */
  ghost predicate Ranks(order: map<string, nat>, sources: seq<string>) {
    && |order| == |sources|
    && (forall s :: s in order <==> s in sources)
    && (forall s :: s in order ==> order[s] == IndexOf(sources, s))
  }

  lemma RanksPush(order: map<string, nat>, sources: seq<string>, s: string)
    requires Ranks(order, sources)
    ensures s in order <==> s in sources
    ensures s !in order ==> Ranks(order[s := |order|], sources + [s])
  {
    if s !in order {
      IndexOfPush(sources, s);
      hide IndexOf;
    }
  }

  method SourceOrder(raws: seq<RawNode>) returns (order: map<string, nat>)
    ensures Ranks(order, SourcesOf(raws))
  {
    order := map[];
    assert SourcesOf(raws[..0]) == [] && Ranks(order, []);
    hide SourcesOf, IndexOf, Ranks;
    for k := 0 to |raws|
      invariant Ranks(order, SourcesOf(raws[..k]))
    {
      assert raws[..k + 1] == raws[..k] + [raws[k]];
      SourcesPush(raws[..k], raws[k]);
      var s := raws[k].source;
      RanksPush(order, SourcesOf(raws[..k]), s);
      if s !in order {
        order := order[s := |order|];
      }
    }
    assert raws[..|raws|] == raws;
  }

  method CapIntake(raws: seq<RawNode>, cap: nat, eliteAddrs: set<string>) returns (kept: seq<RawNode>)
    ensures |raws| <= cap ==> kept == raws
    ensures |raws| > cap ==>
              var key := r => Priority(r, SourcesOf(raws), eliteAddrs);
              |StableSort(raws, key)| == |raws| && kept == StableSort(raws, key)[..cap]
  {
    if |raws| <= cap {
      return raws;
    }
    var order := SourceOrder(raws);
    var n := |order|;
    var key := (r: RawNode) =>
      (if IsElite(r, eliteAddrs) then 0 else n + 1) + (if r.source in order then order[r.source] else n);
    ghost var spec := (r: RawNode) => Priority(r, SourcesOf(raws), eliteAddrs);
    hide StableSort, SourcesOf, IndexOf, IsElite, Class, SortedBy;
    forall r: RawNode
      ensures key(r) == spec(r)
    {
      assert r.source !in order ==> IndexOf(SourcesOf(raws), r.source) == n;
    }
    SameKeySameSort(raws, key, spec);
    StableSortFacts(raws, key, 0);
    kept := StableSort(raws, key)[..cap];
  }

  lemma IndexOfPush(names: seq<string>, x: string)
    requires x !in names
    ensures IndexOf(names + [x], x) == |names|
    ensures forall s :: s in names ==> IndexOf(names + [x], s) == IndexOf(names, s)
  {
    forall s | s in names
      ensures IndexOf(names + [x], s) == IndexOf(names, s)
    {
      var i, j := IndexOf(names, s), IndexOf(names + [x], s);
      assert (names + [x])[i] == s;
    }
    assert (names + [x])[|names|] == x;
  }

  lemma {:induction false} SameKeySameSort(s: seq<RawNode>, key: RawNode -> nat, key': RawNode -> nat)
    requires forall r :: key(r) == key'(r)
    ensures StableSort(s, key) == StableSort(s, key')
  {
    if s != [] {
      SameKeySameSort(s[..|s| - 1], key, key');
      SameKeySameInsert(StableSort(s[..|s| - 1], key), s[|s| - 1], key, key');
    }
  }

  lemma {:induction false} SameKeySameInsert(s: seq<RawNode>, x: RawNode, key: RawNode -> nat, key': RawNode -> nat)
    requires forall r :: key(r) == key'(r)
    ensures InsertBehind(s, x, key) == InsertBehind(s, x, key')
  {
    if s != [] {
      SameKeySameInsert(s[..|s| - 1], x, key, key');
    }
  }

  /** A node without elite history survives only if every elite one does; among equals in that respect, a node of a
      later source survives only if every node of the earlier sources does. */
  lemma EliteThenSourceOrder(raws: seq<RawNode>, cap: nat, eliteAddrs: set<string>, x: RawNode, y: RawNode)
    requires cap < |raws| && y in raws
    requires var key := r => Priority(r, SourcesOf(raws), eliteAddrs);
             && |StableSort(raws, key)| == |raws| && x in StableSort(raws, key)[..cap]
    requires var sources := SourcesOf(raws);
             || (AddrOf(y) in eliteAddrs && AddrOf(x) !in eliteAddrs)
             || ((AddrOf(y) in eliteAddrs <==> AddrOf(x) in eliteAddrs)
                 && IndexOf(sources, y.source) < IndexOf(sources, x.source))
    ensures var key := r => Priority(r, SourcesOf(raws), eliteAddrs);
            && y in StableSort(raws, key)[..cap]
            && Class(StableSort(raws, key)[..cap], key, key(y)) == Class(raws, key, key(y))
  {
    var key := r => Priority(r, SourcesOf(raws), eliteAddrs);
    var kept := StableSort(raws, key)[..cap];
    TruncationKeepsEarliest(raws, cap, key, key(y));
    var k :| 0 <= k < cap && kept[k] == x;
    assert key(kept[k]) > key(y);
    InClass(raws, y, key);
    ClassWithin(kept, y, key);
  }

  lemma {:induction false} InClass(s: seq<RawNode>, x: RawNode, key: RawNode -> nat)
    requires x in s
    ensures x in Class(s, key, key(x))
  {
    if s[|s| - 1] != x {
      InClass(s[..|s| - 1], x, key);
    }
  }

  lemma {:induction false} ClassWithin(s: seq<RawNode>, x: RawNode, key: RawNode -> nat)
    requires x in Class(s, key, key(x))
    ensures x in s
  {
    if s[|s| - 1] != x {
      ClassWithin(s[..|s| - 1], x, key);
    }
  }
}
