/** Observers and a reader of the histogram, interleaved at their atomic steps. */
module HistogramRaces {
  import opened Histogram

  /** Where an observer is: before its bucket, before the count, before reading the sum, before swapping it in, done. */
  datatype Phase = ToBucket | ToCount | ToLoad | ToSwap(seen: nat) | Done

  datatype Observer = Observer(ms: nat, phase: Phase)

  /** Where the reader is. `flying` is how many observers were under way when the count was read. */
  datatype Reader =
    | Idle
    | Reading(cumulative: nat, rows: seq<nat>)
    | Counted(rows: seq<nat>, inf: nat, flying: nat)
    | Shown(rows: seq<nat>, inf: nat, flying: nat, sum: nat)

  datatype State = State(buckets: seq<nat>, count: nat, sum: nat, observers: seq<Observer>, reader: Reader)

  datatype Step =
    | Begin(ms: nat)
    | Advance(id: nat, spurious: bool)
    | Render
    | ReadOn

  function Initial(): State {
    State(seq(|BUCKETS|, _ => 0), 0, 0, [], Idle)
  }

  predicate Enabled(s: State, step: Step) {
    match step
    case Begin(_) => true
    case Advance(id, _) => id < |s.observers| && s.observers[id].phase != Done
    case Render => true
    case ReadOn => !s.reader.Idle? && !s.reader.Shown?
  }

  /** One atomic operation of observer `id`; a compare-and-exchange fails if the sum has moved, or without reason. */
  function AdvanceObserver(s: State, id: nat, spurious: bool): State
    requires id < |s.observers| && |s.buckets| == |BUCKETS|
  {
    var o := s.observers[id];
    match o.phase
    case ToBucket =>
      var i := BucketOf(o.ms);
      s.(buckets := s.buckets[i := s.buckets[i] + 1], observers := s.observers[id := o.(phase := ToCount)])
    case ToCount =>
      s.(count := s.count + 1, observers := s.observers[id := o.(phase := ToLoad)])
    case ToLoad =>
      s.(observers := s.observers[id := o.(phase := ToSwap(s.sum))])
    case ToSwap(seen) =>
      if s.sum == seen && !spurious then
        s.(sum := SaturatingAdd(seen, Clip(o.ms)), observers := s.observers[id := o.(phase := Done)])
      else
        s.(observers := s.observers[id := o.(phase := ToSwap(s.sum))])
    case Done => s
  }

  function ReadStep(s: State): State
    requires |s.buckets| == |BUCKETS|
  {
    match s.reader
    case Reading(cumulative, rows) =>
      if |rows| < |BUCKETS| then
        var c := cumulative + s.buckets[|rows|];
        s.(reader := Reading(c, rows + [c]))
      else
        s.(reader := Counted(rows, s.count, Tally(s.observers, UnderWay)))
    case Counted(rows, inf, flying) => s.(reader := Shown(rows, inf, flying, s.sum))
    case _ => s
  }

  function Apply(s: State, step: Step): (r: State)
    requires |s.buckets| == |BUCKETS| && Enabled(s, step)
    ensures |r.buckets| == |BUCKETS|
  {
    match step
    case Begin(ms) => s.(observers := s.observers + [Observer(ms, ToBucket)])
    case Advance(id, spurious) => AdvanceObserver(s, id, spurious)
    case Render => s.(reader := Reading(0, []))
    case ReadOn => ReadStep(s)
  }

  // ---------------------------------------------------------------- counting observers

  datatype Milestone = InItsBucket(i: nat) | InSomeBucket | InTheCount | BetweenBucketAndCount | UnderWay

  predicate Hit(o: Observer, m: Milestone) {
    match m
    case InItsBucket(i) => o.phase != ToBucket && BucketOf(o.ms) == i
    case InSomeBucket => o.phase != ToBucket
    case InTheCount => o.phase != ToBucket && o.phase != ToCount
    case BetweenBucketAndCount => o.phase == ToCount
    case UnderWay => o.phase != Done
  }

  function Tally(os: seq<Observer>, m: Milestone): nat {
    if os == [] then 0 else Tally(os[..|os| - 1], m) + if Hit(os[|os| - 1], m) then 1 else 0
  }

  function DoneTotal(os: seq<Observer>): nat {
    if os == [] then 0
    else DoneTotal(os[..|os| - 1]) + if os[|os| - 1].phase == Done then Clip(os[|os| - 1].ms) else 0
  }

  lemma TallyPush(os: seq<Observer>, o: Observer, m: Milestone)
    ensures Tally(os + [o], m) == Tally(os, m) + if Hit(o, m) then 1 else 0
    ensures DoneTotal(os + [o]) == DoneTotal(os) + if o.phase == Done then Clip(o.ms) else 0
  {
    assert (os + [o])[..|os|] == os;
  }

  lemma {:induction false} TallyMoves(os: seq<Observer>, id: nat, o: Observer, m: Milestone)
    requires id < |os|
    ensures Tally(os[id := o], m) + (if Hit(os[id], m) then 1 else 0) == Tally(os, m) + if Hit(o, m) then 1 else 0
  {
    hide Hit;
    var n := |os| - 1;
    if id < n {
      TallyMoves(os[..n], id, o, m);
      assert os[id := o][..n] == os[..n][id := o];
    } else {
      assert os[id := o][..n] == os[..n];
    }
  }

  lemma {:induction false} TotalMoves(os: seq<Observer>, id: nat, o: Observer)
    requires id < |os| && os[id].phase != Done
    ensures DoneTotal(os[id := o]) == DoneTotal(os) + if o.phase == Done then Clip(o.ms) else 0
  {
    var n := |os| - 1;
    if id < n {
      TotalMoves(os[..n], id, o);
      assert os[id := o][..n] == os[..n][id := o];
    } else {
      assert os[id := o][..n] == os[..n];
    }
  }

  /** Who is in some bucket is in the count or on the way from one to the other. */
  lemma {:induction false} BucketedAreCountedOrFlying(os: seq<Observer>)
    ensures Tally(os, InSomeBucket) == Tally(os, InTheCount) + Tally(os, BetweenBucketAndCount)
    ensures Tally(os, BetweenBucketAndCount) <= Tally(os, UnderWay)
  {
    if os != [] {
      BucketedAreCountedOrFlying(os[..|os| - 1]);
    }
  }

  function Prefix(buckets: seq<nat>, n: nat): nat
    requires n <= |buckets|
  {
    if n == 0 then 0 else Prefix(buckets, n - 1) + buckets[n - 1]
  }

  function TallyUpTo(os: seq<Observer>, n: nat): nat {
    if n == 0 then 0 else TallyUpTo(os, n - 1) + Tally(os, InItsBucket(n - 1))
  }

  lemma {:induction false} TallyUpToPush(os: seq<Observer>, n: nat)
    requires os != []
    ensures var o := os[|os| - 1];
            TallyUpTo(os, n) ==
            TallyUpTo(os[..|os| - 1], n) + if o.phase != ToBucket && BucketOf(o.ms) < n then 1 else 0
  {
    hide BucketOf;
    if n > 0 {
      TallyUpToPush(os, n - 1);
    }
  }

  lemma {:induction false} TallyUpToNothing(n: nat)
    ensures TallyUpTo([], n) == 0
  {
    if n > 0 {
      TallyUpToNothing(n - 1);
    }
  }

  /** The buckets together hold everyone who is in some bucket. */
  lemma {:induction false} BucketsHoldAll(os: seq<Observer>)
    ensures TallyUpTo(os, |BUCKETS|) == Tally(os, InSomeBucket)
  {
    hide BUCKETS, TallyUpTo;
    if os == [] {
      TallyUpToNothing(|BUCKETS|);
    } else {
      BucketsHoldAll(os[..|os| - 1]);
      TallyUpToPush(os, |BUCKETS|);
    }
  }

  lemma {:induction false} PrefixIsTally(buckets: seq<nat>, os: seq<Observer>, n: nat)
    requires n <= |buckets| && forall i :: 0 <= i < n ==> buckets[i] == Tally(os, InItsBucket(i))
    ensures Prefix(buckets, n) == TallyUpTo(os, n)
  {
    hide Tally;
    if n > 0 {
      PrefixIsTally(buckets, os, n - 1);
    }
  }

  // ---------------------------------------------------------------- the invariant

  predicate Monotone(rows: seq<nat>) {
    forall i, j :: 0 <= i <= j < |rows| ==> rows[i] <= rows[j]
  }

  /** The counters are what the observers have done to them. */
  ghost predicate CountersInv(s: State) {
    && |s.buckets| == |BUCKETS|
    && (forall i :: 0 <= i < |BUCKETS| ==> s.buckets[i] == Tally(s.observers, InItsBucket(i)))
    && s.count == Tally(s.observers, InTheCount)
    && s.sum == Saturated(DoneTotal(s.observers))
  }

  ghost predicate ReaderInv(s: State)
    requires |s.buckets| == |BUCKETS|
  {
    match s.reader
    case Idle => true
    case Reading(c, rows) =>
      && |rows| <= |BUCKETS| && Monotone(rows) && c <= Prefix(s.buckets, |rows|)
      && (rows == [] ==> c == 0) && (rows != [] ==> rows[|rows| - 1] == c)
    case Counted(rows, inf, flying) => Bounded(rows, inf, flying)
    case Shown(rows, inf, flying, _) => Bounded(rows, inf, flying)
  }

  /** Rows never fall, and the last one exceeds the row `+Inf` by at most the observers under way. */
  predicate Bounded(rows: seq<nat>, inf: nat, flying: nat) {
    |rows| == |BUCKETS| && Monotone(rows) && rows[|BUCKETS| - 1] <= inf + flying
  }

  ghost predicate Inv(s: State) {
    CountersInv(s) && ReaderInv(s)
  }

  lemma InitialInv()
    ensures Inv(Initial())
  {
  }

  lemma BeginKeepsCounters(s: State, ms: nat)
    requires CountersInv(s)
    ensures CountersInv(Apply(s, Begin(ms)))
  {
    var o := Observer(ms, ToBucket);
    forall m: Milestone
      ensures Tally(s.observers + [o], m) == Tally(s.observers, m) + if Hit(o, m) then 1 else 0
    {
      TallyPush(s.observers, o, m);
    }
    TallyPush(s.observers, o, UnderWay);
    hide Tally, DoneTotal, BUCKETS, Saturated;
  }

  lemma AdvanceKeepsCounters(s: State, id: nat, spurious: bool)
    requires CountersInv(s) && Enabled(s, Advance(id, spurious))
    ensures CountersInv(AdvanceObserver(s, id, spurious))
  {
    var s' := AdvanceObserver(s, id, spurious);
    var o, o' := s.observers[id], s'.observers[id];
    assert s'.observers == s.observers[id := o'] && o'.ms == o.ms;
    hide BUCKETS, Clip, BucketOf;
    TotalMoves(s.observers, id, o');
    TallyMoves(s.observers, id, o', InTheCount);
    forall i | 0 <= i < |BUCKETS|
      ensures s'.buckets[i] == Tally(s'.observers, InItsBucket(i))
    {
      TallyMoves(s.observers, id, o', InItsBucket(i));
    }
    hide Tally, DoneTotal;
  }

  lemma {:induction false} PrefixGrows(buckets: seq<nat>, i: nat, n: nat)
    requires i < |buckets| && n <= |buckets|
    ensures Prefix(buckets, n) <= Prefix(buckets[i := buckets[i] + 1], n)
  {
    if n > 0 {
      PrefixGrows(buckets, i, n - 1);
    }
  }

  lemma AdvanceKeepsReader(s: State, id: nat, spurious: bool)
    requires CountersInv(s) && ReaderInv(s) && Enabled(s, Advance(id, spurious))
    ensures ReaderInv(AdvanceObserver(s, id, spurious))
  {
    hide BUCKETS, Monotone, Tally, DoneTotal;
    if s.reader.Reading? && s.observers[id].phase == ToBucket {
      PrefixGrows(s.buckets, BucketOf(s.observers[id].ms), |s.reader.rows|);
    }
  }

  lemma ReadKeepsReader(s: State)
    requires CountersInv(s) && ReaderInv(s) && Enabled(s, ReadOn)
    ensures ReaderInv(ReadStep(s))
  {
    if s.reader.Reading? {
      var c, rows := s.reader.cumulative, s.reader.rows;
      assert |BUCKETS| == 14;
      hide BUCKETS, Tally, DoneTotal;
      if |rows| < |BUCKETS| {
        var next := rows + [c + s.buckets[|rows|]];
        assert Monotone(next);
      } else {
        PrefixIsTally(s.buckets, s.observers, |BUCKETS|);
        BucketsHoldAll(s.observers);
        BucketedAreCountedOrFlying(s.observers);
      }
    }
  }

  lemma StepKeepsInv(s: State, step: Step)
    requires Inv(s) && Enabled(s, step)
    ensures Inv(Apply(s, step))
  {
    match step
    case Begin(ms) => BeginKeepsCounters(s, ms);
    case Advance(id, spurious) =>
      AdvanceKeepsCounters(s, id, spurious);
      AdvanceKeepsReader(s, id, spurious);
    case Render =>
    case ReadOn => ReadKeepsReader(s);
  }

  // ---------------------------------------------------------------- runs

  /** The state after a run; steps that are not enabled do not happen. */
  function Run(steps: seq<Step>): (s: State)
    ensures |s.buckets| == |BUCKETS|
  {
    if steps == [] then Initial()
    else
      var s, step := Run(steps[..|steps| - 1]), steps[|steps| - 1];
      if Enabled(s, step) then Apply(s, step) else s
  }

  lemma {:induction false} RunKeepsInv(steps: seq<Step>)
    ensures Inv(Run(steps))
  {
    hide Inv, Enabled, Apply;
    if steps == [] {
      InitialInv();
    } else {
      var before, step := steps[..|steps| - 1], steps[|steps| - 1];
      RunKeepsInv(before);
      if Enabled(Run(before), step) {
        StepKeepsInv(Run(before), step);
      }
    }
  }

  /** Under any interleaving, whatever a reader shows is monotone and at most the observers under way off the count. */
  lemma ShownIsBounded(steps: seq<Step>)
    requires Run(steps).reader.Shown?
    ensures var r := Run(steps).reader; Bounded(r.rows, r.inf, r.flying)
  {
    RunKeepsInv(steps);
    hide Run, CountersInv, Bounded;
  }

  /** When every observer is done, the counters are exactly those of the observations, in whatever order they came. */
  lemma QuietCountersAreExact(steps: seq<Step>)
    requires forall k :: 0 <= k < |Run(steps).observers| ==> Run(steps).observers[k].phase == Done
    ensures var s := Run(steps);
            var xs := Durations(s.observers);
            && (forall i :: 0 <= i < |BUCKETS| ==> s.buckets[i] == InBucket(xs, i))
            && s.count == |xs| && s.sum == Saturated(Total(xs))
  {
    RunKeepsInv(steps);
    var s := Run(steps);
    hide Run, BUCKETS;
    forall i | 0 <= i < |BUCKETS|
      ensures s.buckets[i] == InBucket(Durations(s.observers), i)
    {
      DoneTallies(s.observers, i);
    }
    DoneTallies(s.observers, 0);
    hide Tally, InBucket, DoneTotal, Total, Durations;
  }

  function Durations(os: seq<Observer>): (xs: seq<nat>)
    ensures |xs| == |os|
  {
    if os == [] then [] else Durations(os[..|os| - 1]) + [os[|os| - 1].ms]
  }

  lemma {:induction false} DoneTallies(os: seq<Observer>, i: nat)
    requires forall k :: 0 <= k < |os| ==> os[k].phase == Done
    ensures Tally(os, InItsBucket(i)) == InBucket(Durations(os), i)
    ensures Tally(os, InTheCount) == |os| && DoneTotal(os) == Total(Durations(os))
  {
    hide BucketOf, Clip;
    if os != [] {
      var xs := Durations(os);
      DoneTallies(os[..|os| - 1], i);
      assert xs[..|xs| - 1] == Durations(os[..|os| - 1]);
    }
  }
}
