/** One round of fetches over all sources: who is asked, what is counted, what enters the intake. */
module FetchCycle {
  import opened Registry
  import opened Intake
  import G = SourceGuard

  datatype FetchResult = Fetched(nodes: seq<RawNode>, notModified: bool) | Failed | TimedOut

  /** How a result counts: an error or a timeout is as good as an empty list. */
  function OutcomeOf(r: FetchResult): G.Outcome {
    match r
    case Fetched(nodes, notModified) =>
      if notModified then G.NotModified else if nodes != [] then G.Nodes else G.Nothing
    case Failed => G.Nothing
    case TimedOut => G.Nothing
  }

  function YieldOf(r: FetchResult): seq<RawNode> {
    if r.Fetched? && !r.notModified then r.nodes else []
  }

  /** The yields of the sources asked, in the order of the sources. */
  function Collected(results: seq<FetchResult>, asked: seq<bool>): seq<RawNode>
    requires |results| == |asked|
  {
    if results == [] then []
    else
      var n := |results| - 1;
      Collected(results[..n], asked[..n]) + if asked[n] then YieldOf(results[n]) else []
  }

  ghost predicate DueAt(g: G.SourceGuard, tick: nat)
    requires g.Valid()
    reads g
  {
    G.Due(G.SuspensionTick(g.trace, g.maxZero), g.retryEvery, tick)
  }

  /** The trace of a guard after the round. */
  function Counted(trace: seq<G.Fetch>, asked: bool, r: FetchResult, tick: nat): seq<G.Fetch> {
    if asked then trace + [G.Fetch(tick, OutcomeOf(r))] else trace
  }

  /** The trace of a source asked has grown by one fetch, which counts as empty if it failed, timed out or brought an
      empty list that was not declared unchanged; the trace of another is as before. */
  ghost predicate CountedOnce(before: seq<G.Fetch>, after: seq<G.Fetch>, asked: bool, r: FetchResult, tick: nat) {
    if !asked then after == before
    else
      && |after| == |before| + 1 && after[..|before|] == before && after[|before|].tick == tick
      && (after[|before|].outcome == G.Nothing <==> !r.Fetched? || (!r.notModified && r.nodes == []))
      && (after[|before|].outcome == G.NotModified <==> r.Fetched? && r.notModified)
  }

  lemma CountsOnce(trace: seq<G.Fetch>, asked: bool, r: FetchResult, tick: nat)
    ensures CountedOnce(trace, Counted(trace, asked, r, tick), asked, r, tick)
  {
  }

  /** What is collected are the nodes of the lists that sources asked have brought as new, list by list. */
  lemma {:induction false} CollectedIff(results: seq<FetchResult>, asked: seq<bool>, x: RawNode)
    requires |results| == |asked|
    ensures x in Collected(results, asked) <==>
            exists i :: 0 <= i < |results| && asked[i] && results[i].Fetched? && !results[i].notModified
                        && x in results[i].nodes
  {
    if results != [] {
      var n := |results| - 1;
      CollectedIff(results[..n], asked[..n], x);
      if x in Collected(results[..n], asked[..n]) {
        var i :| 0 <= i < n && asked[..n][i] && results[..n][i].Fetched? && !results[..n][i].notModified
                 && x in results[..n][i].nodes;
        assert asked[i] && results[i].Fetched? && x in results[i].nodes;
      }
      assert forall i :: 0 <= i < n ==> asked[..n][i] == asked[i] && results[..n][i] == results[i];
    }
  }

  /** They stand in the order of the sources. */
  lemma {:induction false} CollectedInOrder(results: seq<FetchResult>, asked: seq<bool>, i: nat)
    requires |results| == |asked| && i < |results|
    ensures Collected(results[..i], asked[..i]) <= Collected(results, asked)
    ensures asked[i] && results[i].Fetched? && !results[i].notModified ==>
              Collected(results[..i], asked[..i]) + results[i].nodes <= Collected(results, asked)
  {
    var n := |results| - 1;
    if i < n {
      CollectedInOrder(results[..n], asked[..n], i);
      assert results[..n][..i] == results[..i] && asked[..n][..i] == asked[..i];
    }
  }

  method Ask(guards: seq<G.SourceGuard>, tick: nat) returns (asked: seq<bool>)
    requires forall i :: 0 <= i < |guards| ==> guards[i].Valid()
    ensures |asked| == |guards|
    ensures forall i :: 0 <= i < |guards| ==> (asked[i] <==> DueAt(guards[i], tick))
  {
    hide G.SourceGuard.Valid, G.SuspensionTick, G.Due;
    asked := [];
    for i := 0 to |guards|
      invariant |asked| == i
      invariant forall k :: 0 <= k < i ==> (asked[k] <==> DueAt(guards[k], tick))
    {
      var due := guards[i].ShouldFetch(tick);
      asked := asked + [due];
    }
  }

  method CountAll(guards: seq<G.SourceGuard>, results: seq<FetchResult>, asked: seq<bool>, tick: nat)
    requires |guards| == |results| == |asked|
    requires forall i, j :: 0 <= i < j < |guards| ==> guards[i] != guards[j]
    requires forall i :: 0 <= i < |guards| ==> guards[i].Valid()
    modifies guards
    ensures forall i :: 0 <= i < |guards| ==>
              guards[i].Valid() && guards[i].trace == Counted(old(guards[i].trace), asked[i], results[i], tick)
    ensures forall i :: 0 <= i < |guards| ==>
              CountedOnce(old(guards[i].trace), guards[i].trace, asked[i], results[i], tick)
  {
    hide CountedOnce;
    hide G.SourceGuard.Valid, G.SuspensionTick, G.Due, G.TrailingEmpty, OutcomeOf;
    for i := 0 to |guards|
      invariant forall k :: 0 <= k < |guards| ==> guards[k].Valid()
      invariant forall k :: 0 <= k < i ==>
                  guards[k].trace == Counted(old(guards[k].trace), asked[k], results[k], tick)
      invariant forall k :: i <= k < |guards| ==> guards[k].trace == old(guards[k].trace)
    {
      if asked[i] {
        guards[i].NoteOutcome(OutcomeOf(results[i]), tick);
      }
    }
    hide Counted;
    forall i | 0 <= i < |guards|
      ensures CountedOnce(old(guards[i].trace), guards[i].trace, asked[i], results[i], tick)
    {
      CountsOnce(old(guards[i].trace), asked[i], results[i], tick);
    }
  }

  method Collect(results: seq<FetchResult>, asked: seq<bool>) returns (raws: seq<RawNode>)
    requires |results| == |asked|
    ensures raws == Collected(results, asked)
  {
    hide YieldOf;
    raws := [];
    for i := 0 to |results|
      invariant raws == Collected(results[..i], asked[..i])
    {
      assert results[..i + 1][..i] == results[..i] && asked[..i + 1][..i] == asked[..i];
      if asked[i] {
        raws := raws + YieldOf(results[i]);
      }
    }
    assert results[..|results|] == results && asked[..|results|] == asked;
  }

  /** Ask the sources that are due, count every one asked, and keep first occurrences in the order of the sources. */
  method FetchAll(guards: seq<G.SourceGuard>, results: seq<FetchResult>, tick: nat)
    returns (asked: seq<bool>, raws: seq<RawNode>)
    requires |guards| == |results|
    requires forall i, j :: 0 <= i < j < |guards| ==> guards[i] != guards[j]
    requires forall i :: 0 <= i < |guards| ==> guards[i].Valid()
    modifies guards
    ensures |asked| == |guards|
    ensures forall i :: 0 <= i < |guards| ==> guards[i].Valid() && (asked[i] <==> old(DueAt(guards[i], tick)))
    ensures forall i :: 0 <= i < |guards| ==>
              guards[i].trace == Counted(old(guards[i].trace), asked[i], results[i], tick)
    ensures raws == Dedupe(Collected(results, asked))
  {
    hide *;
    asked := Ask(guards, tick);
    CountAll(guards, results, asked, tick);
    raws := Collect(results, asked);
    raws := DedupeFirst(raws);
  }

  /** Sources behind the others never displace what those brought. */
  lemma {:induction false} LaterSourcesOnlyAdd(raws: seq<RawNode>, more: seq<RawNode>)
    ensures Dedupe(raws) <= Dedupe(raws + more)
  {
    if more == [] {
      assert raws + more == raws;
    } else {
      LaterSourcesOnlyAdd(raws, more[..|more| - 1]);
      assert (raws + more)[..|raws + more| - 1] == raws + more[..|more| - 1];
    }
  }
}
