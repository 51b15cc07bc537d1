/** Suspension of sources that yield nothing, against the trace of their counted outcomes. */
module SourceGuard {
  import opened Options
  import opened Division

  /** What a fetch brought: nodes, the remark that nothing changed, or nothing (an error or a timeout too). */
  datatype Outcome = Nodes | NotModified | Nothing

  /** A fetch and the tick it was made at. */
  datatype Fetch = Fetch(tick: nat, outcome: Outcome)

  /** How many fetches at the end of the trace brought nothing. */
  function TrailingEmpty(trace: seq<Fetch>): (n: nat)
    ensures n <= |trace|
    ensures forall k :: |trace| - n <= k < |trace| ==> trace[k].outcome == Nothing
    ensures n < |trace| ==> trace[|trace| - n - 1].outcome != Nothing
  {
    if trace == [] || trace[|trace| - 1].outcome != Nothing then 0
    else TrailingEmpty(trace[..|trace| - 1]) + 1
  }

  /** The tick of suspension: that of the fetch with which the empty run since the last yield reached `maxZero`. */
  function SuspensionTick(trace: seq<Fetch>, maxZero: nat): Option<nat>
    requires maxZero >= 1
  {
    var n := TrailingEmpty(trace);
    if n >= maxZero then Some(trace[|trace| - n + maxZero - 1].tick) else None
  }

  predicate Due(suspendedAt: Option<nat>, retryEvery: nat, tick: nat)
    requires retryEvery >= 1
  {
    match suspendedAt
    case None => true
    case Some(t) => tick >= t && (tick - t) % retryEvery == 0
  }

  /** The outcomes have been empty since position `j`, for the first time since the last yield, and `maxZero` times or
      more. */
  predicate EmptyRun(trace: seq<Fetch>, maxZero: nat, j: int) {
    && 0 <= j && j + maxZero <= |trace|
    && (forall k :: j <= k < |trace| ==> trace[k].outcome == Nothing)
    && (j > 0 ==> trace[j - 1].outcome != Nothing)
  }

  /** If the empty run at the end began at `j` and is long enough, suspension dates from its `maxZero`-th fetch. */
  lemma SuspendedSince(trace: seq<Fetch>, maxZero: nat, j: nat)
    requires maxZero >= 1 && EmptyRun(trace, maxZero, j)
    ensures SuspensionTick(trace, maxZero) == Some(trace[j + maxZero - 1].tick)
  {
    assert TrailingEmpty(trace) == |trace| - j;
  }

  lemma TraceGrows(trace: seq<Fetch>, f: Fetch, maxZero: nat)
    requires maxZero >= 1
    ensures f.outcome != Nothing ==>
              TrailingEmpty(trace + [f]) == 0 && SuspensionTick(trace + [f], maxZero) == None
    ensures f.outcome == Nothing ==>
              && TrailingEmpty(trace + [f]) == TrailingEmpty(trace) + 1
              && (SuspensionTick(trace, maxZero).Some? ==>
                   SuspensionTick(trace + [f], maxZero) == SuspensionTick(trace, maxZero))
              && (SuspensionTick(trace, maxZero).None? ==>
                   SuspensionTick(trace + [f], maxZero)
                   == if TrailingEmpty(trace) + 1 >= maxZero then Some(f.tick) else None)
  {
    assert (trace + [f])[..|trace|] == trace;
  }

  class SourceGuard {
    const maxZero: nat
    const retryEvery: nat
    var zeroCycles: nat
    var suspendedAtTick: Option<nat>
    ghost var trace: seq<Fetch>

    ghost predicate Valid()
      reads this
    {
      && maxZero >= 1 && retryEvery >= 1
      && zeroCycles == TrailingEmpty(trace)
      && suspendedAtTick == SuspensionTick(trace, maxZero)
    }

    constructor (maxZero: nat, retryEvery: nat)
      ensures Valid() && trace == []
      ensures this.maxZero == (if maxZero == 0 then 1 else maxZero)
      ensures this.retryEvery == (if retryEvery == 0 then 1 else retryEvery)
    {
      this.maxZero := if maxZero == 0 then 1 else maxZero;
      this.retryEvery := if retryEvery == 0 then 1 else retryEvery;
      zeroCycles, suspendedAtTick, trace := 0, None, [];
    }

    /** A fetch is due unless the last `maxZero` outcomes were all empty; from then on it is due every `retryEvery`
        ticks, counted from the tick of suspension. */
    method ShouldFetch(tick: nat) returns (due: bool)
      requires Valid()
      ensures due <==> Due(SuspensionTick(trace, maxZero), retryEvery, tick)
      ensures |trace| < maxZero || (exists k :: |trace| - maxZero <= k < |trace| && trace[k].outcome != Nothing) ==> due
      ensures forall j :: EmptyRun(trace, maxZero, j) ==>
                var t := trace[j + maxZero - 1].tick;
                due <==> tick >= t && (tick - t) % retryEvery == 0
    {
      SuspendedIff(trace, maxZero);
      forall j | EmptyRun(trace, maxZero, j)
        ensures SuspensionTick(trace, maxZero) == Some(trace[j + maxZero - 1].tick)
      {
        SuspendedSince(trace, maxZero, j);
      }
      match suspendedAtTick
      case None => due := true;
      case Some(t) => due := tick >= t && (tick - t) % retryEvery == 0;
    }

    method NoteOutcome(outcome: Outcome, tick: nat)
      requires Valid()
      modifies this
      ensures Valid() && trace == old(trace) + [Fetch(tick, outcome)]
    {
      TraceGrows(trace, Fetch(tick, outcome), maxZero);
      trace := trace + [Fetch(tick, outcome)];
      if outcome != Nothing {
        zeroCycles, suspendedAtTick := 0, None;
        return;
      }
      zeroCycles := zeroCycles + 1;
      if zeroCycles >= maxZero && suspendedAtTick.None? {
        suspendedAtTick := Some(tick);
      }
    }

    /** One tick of the fetch loop for this source: fetch if due, and count what came. */
    method Tick(tick: nat, world: nat -> Outcome)
      requires Valid()
      requires trace == Drive(world, tick, maxZero, retryEvery)
      modifies this
      ensures Valid() && trace == Drive(world, tick + 1, maxZero, retryEvery)
    {
      var due := ShouldFetch(tick);
      if due {
        NoteOutcome(world(tick), tick);
      }
    }
  }

  // ---------------------------------------------------------------- every schedule of ticks

  /** The trace after the ticks 0, ..., n - 1, when a fetch at tick t would bring `world(t)`. */
  function Drive(world: nat -> Outcome, n: nat, maxZero: nat, retryEvery: nat): seq<Fetch>
    requires maxZero >= 1 && retryEvery >= 1
  {
    if n == 0 then []
    else
      var trace := Drive(world, n - 1, maxZero, retryEvery);
      if Due(SuspensionTick(trace, maxZero), retryEvery, n - 1) then trace + [Fetch(n - 1, world(n - 1))] else trace
  }

  ghost predicate Fetched(trace: seq<Fetch>, tick: nat) {
    exists k :: 0 <= k < |trace| && trace[k].tick == tick
  }

  /** Fetches are made at ticks below `n`, in order, each tick at most once, and count what came. */
  ghost predicate InOrder(trace: seq<Fetch>, world: nat -> Outcome, n: nat) {
    && (forall k :: 0 <= k < |trace| ==> trace[k].tick < n && trace[k].outcome == world(trace[k].tick))
    && (forall i, j :: 0 <= i < j < |trace| ==> trace[i].tick < trace[j].tick)
  }

  lemma {:induction false} DriveInOrder(world: nat -> Outcome, n: nat, maxZero: nat, retryEvery: nat)
    requires maxZero >= 1 && retryEvery >= 1
    ensures InOrder(Drive(world, n, maxZero, retryEvery), world, n)
  {
    hide SuspensionTick, Due, InOrder, TrailingEmpty;
    if n > 0 {
      DriveInOrder(world, n - 1, maxZero, retryEvery);
      InOrderGrows(Drive(world, n - 1, maxZero, retryEvery), world, n - 1);
    } else {
      NothingInOrder(world);
    }
  }

  lemma NothingInOrder(world: nat -> Outcome)
    ensures InOrder([], world, 0)
  {
  }

  lemma InOrderGrows(trace: seq<Fetch>, world: nat -> Outcome, n: nat)
    requires InOrder(trace, world, n)
    ensures InOrder(trace, world, n + 1)
    ensures InOrder(trace + [Fetch(n, world(n))], world, n + 1)
    ensures !Fetched(trace, n)
  {
  }

  lemma FetchedGrows(trace: seq<Fetch>, f: Fetch, u: nat)
    ensures Fetched(trace + [f], u) <==> Fetched(trace, u) || f.tick == u
  {
    assert (trace + [f])[|trace|] == f;
    if Fetched(trace, u) {
      var k :| 0 <= k < |trace| && trace[k].tick == u;
      assert (trace + [f])[k].tick == u;
    }
  }

  lemma {:induction false} SuspendedAsDue(world: nat -> Outcome, n: nat, maxZero: nat, retryEvery: nat, u: nat)
    requires maxZero >= 1 && retryEvery >= 1
    requires SuspensionTick(Drive(world, n, maxZero, retryEvery), maxZero).Some?
    ensures var trace := Drive(world, n, maxZero, retryEvery);
            var t := SuspensionTick(trace, maxZero).value;
            && t < n
            && (t <= u < n ==> (Fetched(trace, u) <==> Due(Some(t), retryEvery, u)))
  {
    hide SuspensionTick, Due, Fetched, InOrder, TrailingEmpty;
    if n > 0 {
      var before := Drive(world, n - 1, maxZero, retryEvery);
      var f := Fetch(n - 1, world(n - 1));
      var since := SuspensionTick(before, maxZero);
      DriveInOrder(world, n - 1, maxZero, retryEvery);
      InOrderGrows(before, world, n - 1);
      TraceGrows(before, f, maxZero);
      FetchedGrows(before, f, u);
      DueIs(None, retryEvery, n - 1);
      DueIs(Some(n - 1), retryEvery, n - 1);
      if since.Some? {
        SuspendedAsDue(world, n - 1, maxZero, retryEvery, u);
      }
    } else {
      NeverSuspendedAtFirst(maxZero);
    }
  }

  lemma DueIs(since: Option<nat>, retryEvery: nat, tick: nat)
    requires retryEvery >= 1
    ensures Due(since, retryEvery, tick) <==>
            since.None? || (tick >= since.value && (tick - since.value) % retryEvery == 0)
  {
  }

  /** While a source is suspended since tick t, it is fetched exactly at t and every `retryEvery` ticks from there. */
  lemma SuspendedSchedule(world: nat -> Outcome, n: nat, maxZero: nat, retryEvery: nat, u: nat)
    requires maxZero >= 1 && retryEvery >= 1
    requires SuspensionTick(Drive(world, n, maxZero, retryEvery), maxZero).Some?
    ensures var trace := Drive(world, n, maxZero, retryEvery);
            var t := SuspensionTick(trace, maxZero).value;
            && t < n
            && (t <= u < n ==> (Fetched(trace, u) <==> (u - t) % retryEvery == 0))
  {
    hide SuspensionTick, Drive, Fetched, Due;
    SuspendedAsDue(world, n, maxZero, retryEvery, u);
    DueIs(SuspensionTick(Drive(world, n, maxZero, retryEvery), maxZero), retryEvery, u);
  }

  /** All ticks t + k * retryEvery are fetches, */
  lemma FetchedAtMultiples(world: nat -> Outcome, n: nat, maxZero: nat, retryEvery: nat, k: nat)
    requires maxZero >= 1 && retryEvery >= 1
    requires SuspensionTick(Drive(world, n, maxZero, retryEvery), maxZero).Some?
    ensures var trace := Drive(world, n, maxZero, retryEvery);
            var u := SuspensionTick(trace, maxZero).value + k * retryEvery;
            u < n ==> Fetched(trace, u)
  {
    hide SuspensionTick, Drive, Fetched;
    MultipleLeavesNothing(k, retryEvery);
    var t := SuspensionTick(Drive(world, n, maxZero, retryEvery), maxZero).value;
    SuspendedSchedule(world, n, maxZero, retryEvery, t + k * retryEvery);
  }

  /** and no other tick since t is one. */
  lemma FetchIsAtMultiple(world: nat -> Outcome, n: nat, maxZero: nat, retryEvery: nat, u: nat) returns (k: nat)
    requires maxZero >= 1 && retryEvery >= 1
    requires SuspensionTick(Drive(world, n, maxZero, retryEvery), maxZero).Some?
    requires SuspensionTick(Drive(world, n, maxZero, retryEvery), maxZero).value <= u < n
    requires Fetched(Drive(world, n, maxZero, retryEvery), u)
    ensures u == SuspensionTick(Drive(world, n, maxZero, retryEvery), maxZero).value + k * retryEvery
  {
    hide SuspensionTick, Drive, Fetched;
    var t := SuspensionTick(Drive(world, n, maxZero, retryEvery), maxZero).value;
    SuspendedSchedule(world, n, maxZero, retryEvery, u);
    k := (u - t) / retryEvery;
  }

  /** Of any `retryEvery` consecutive ticks since the suspension exactly one is a fetch. */
  lemma OneFetchInEach(world: nat -> Outcome, n: nat, maxZero: nat, retryEvery: nat, from: nat) returns (u: nat)
    requires maxZero >= 1 && retryEvery >= 1
    requires SuspensionTick(Drive(world, n, maxZero, retryEvery), maxZero).Some?
    requires SuspensionTick(Drive(world, n, maxZero, retryEvery), maxZero).value <= from && from + retryEvery <= n
    ensures var trace := Drive(world, n, maxZero, retryEvery);
            && from <= u < from + retryEvery && Fetched(trace, u)
            && forall v :: from <= v < from + retryEvery && v != u ==> !Fetched(trace, v)
  {
    hide SuspensionTick, Fetched, Drive, NextMultiple;
    var trace := Drive(world, n, maxZero, retryEvery);
    var t := SuspensionTick(trace, maxZero).value;
    u := t + NextMultiple(from - t, retryEvery);
    forall v | from <= v < from + retryEvery
      ensures Fetched(trace, v) <==> v == u
    {
      SuspendedSchedule(world, n, maxZero, retryEvery, v);
      OnlyMultiple(from - t, retryEvery, u - t, v - t);
    }
  }

  /** A source that is not suspended is fetched at the next tick. */
  lemma FetchedUnlessSuspended(world: nat -> Outcome, n: nat, maxZero: nat, retryEvery: nat)
    requires maxZero >= 1 && retryEvery >= 1
    ensures SuspensionTick(Drive(world, n, maxZero, retryEvery), maxZero).None? ==>
              Fetched(Drive(world, n + 1, maxZero, retryEvery), n)
  {
    hide SuspensionTick;
    var before := Drive(world, n, maxZero, retryEvery);
    FetchedGrows(before, Fetch(n, world(n)), n);
  }

  lemma NeverSuspendedAtFirst(maxZero: nat)
    requires maxZero >= 1
    ensures SuspensionTick([], maxZero) == None
  {
  }

  /** A source is suspended exactly when at least `maxZero` fetches were counted since the last yield and all of them
      brought nothing. */
  lemma SuspendedIff(trace: seq<Fetch>, maxZero: nat)
    requires maxZero >= 1
    ensures SuspensionTick(trace, maxZero).Some? <==>
            |trace| >= maxZero && forall k :: |trace| - maxZero <= k < |trace| ==> trace[k].outcome == Nothing
  {
    var n := TrailingEmpty(trace);
    if n < maxZero <= |trace| {
      assert trace[|trace| - n - 1].outcome != Nothing;
    }
  }
}
