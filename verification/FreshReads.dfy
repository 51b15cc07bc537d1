/** Duplicate suppression over whole runs: which fresh reads of one event a worker lets through. */
module FreshReads {
  import opened Sequences
  import opened SeenWindow
  import opened SinkCycle
  import opened SinkProtocol

  /** The ids a worker's process has recorded; none before it has started. */
  function Recorded(s: State, w: nat): seq<string> {
    WorkerOf(s, w).memory.missed
  }

  ghost predicate GoodWindow(missed: seq<string>, cap: nat) {
    Distinct(Suffix(missed, cap)) && "" !in missed
  }

  ghost predicate WindowsGood(s: State, cap: nat) {
    forall w :: w in s.workers ==> GoodWindow(Recorded(s, w), cap)
  }

  lemma RecordKeepsWindow(missed: seq<string>, cap: nat, id: string)
    requires cap >= 1 && GoodWindow(missed, cap)
    ensures GoodWindow(Record(missed, cap, id), cap)
  {
    if id != "" && !IsDuplicate(missed, cap, id) {
      PushStaysDistinct(missed, cap, id);
    }
  }

  lemma NothingRecorded(cap: nat)
    ensures GoodWindow([], cap)
  {
  }

  /** A step records at most the id of the entry it reads, and forgets only by a crash. */
  lemma StepRecords(s: State, step: Step, w: nat, limits: Limits)
    requires PumpStep(s, step)
    ensures var t := Apply(s, step, limits);
            && (step != Crash(w) ==> Recorded(s, w) <= Recorded(t, w))
            && (Recorded(t, w) == [] || Recorded(t, w) == Recorded(s, w)
                || exists id :: Recorded(t, w) == Record(Recorded(s, w), limits.window, id))
  {
    hide Land, IsDuplicate;
    if step == Read(w, true) && s.stream[s.delivered].Event? {
      var id := s.stream[s.delivered].eventId;
      var t := Apply(s, step, limits);
      assert Recorded(t, w) == Recorded(s, w) || Recorded(t, w) == Record(Recorded(s, w), limits.window, id);
    }
  }

  lemma StepKeepsWindows(s: State, step: Step, limits: Limits)
    requires PumpStep(s, step) && limits.window >= 1 && WindowsGood(s, limits.window)
    ensures WindowsGood(Apply(s, step, limits), limits.window)
  {
    assert Enabled(s, step);
    hide Apply, PumpStep, Enabled, GoodWindow, Record;
    NothingRecorded(limits.window);
    var t := Apply(s, step, limits);
    forall w | w in t.workers
      ensures GoodWindow(Recorded(t, w), limits.window)
    {
      StepRecords(s, step, w, limits);
      assert GoodWindow(Recorded(s, w), limits.window);
      if Recorded(t, w) != [] && Recorded(t, w) != Recorded(s, w) {
        var id :| Recorded(t, w) == Record(Recorded(s, w), limits.window, id);
        RecordKeepsWindow(Recorded(s, w), limits.window, id);
      }
    }
  }

  lemma {:induction false} RunKeepsWindows(s: State, steps: seq<Step>, limits: Limits)
    requires limits.window >= 1 && WindowsGood(s, limits.window) && Execute(s, steps, limits).Reached?
    ensures WindowsGood(Execute(s, steps, limits).state, limits.window)
    decreases |steps|
  {
    hide Apply, Enabled, WindowsGood;
    if steps != [] {
      StepKeepsWindows(s, steps[0], limits);
      RunKeepsWindows(Apply(s, steps[0], limits), steps[1..], limits);
    }
  }

  /** Worker `w` does not crash in the run. */
  ghost predicate Survives(steps: seq<Step>, w: nat) {
    forall k :: 0 <= k < |steps| ==> steps[k] != Crash(w)
  }

  lemma {:induction false} RunOnlyRecords(s: State, steps: seq<Step>, w: nat, limits: Limits)
    requires Survives(steps, w) && Execute(s, steps, limits).Reached?
    ensures Recorded(s, w) <= Recorded(Execute(s, steps, limits).state, w)
    decreases |steps|
  {
    hide Apply, Enabled;
    if steps != [] {
      StepRecords(s, steps[0], w, limits);
      RunOnlyRecords(Apply(s, steps[0], limits), steps[1..], w, limits);
    }
  }

  /** Worker `w` reads a fresh event with id `x` and lets it through: it is not among the entries to skip. */
  ghost predicate LetsThrough(s: State, w: nat, x: string, limits: Limits) {
    && PumpStep(s, Read(w, true)) && s.stream[s.delivered].Event? && s.stream[s.delivered].eventId == x
    && WorkerOf(Apply(s, Read(w, true), limits), w).memory.batch.skipIds == WorkerOf(s, w).memory.batch.skipIds
  }

  lemma LetThroughIsNew(s: State, w: nat, x: string, limits: Limits)
    requires LetsThrough(s, w, x, limits) && x != ""
    ensures !IsDuplicate(Recorded(s, w), limits.window, x)
    ensures Recorded(Apply(s, Read(w, true), limits), w) == Recorded(s, w) + [x]
  {
    hide Land;
  }

  lemma TurnedOver(before: seq<string>, after: seq<string>, cap: nat, x: string)
    requires cap >= 1 && before <= after && before != [] && before[|before| - 1] == x
    requires x !in Suffix(after, cap)
    ensures |after| >= |before| + cap
  {
    var window := Suffix(after, cap);
    assert forall k :: 0 <= k < |window| ==> after[|after| - |window| + k] == window[k] != x;
    assert after[|before| - 1] == before[|before| - 1] == x;
  }

  /** Between two crashes a worker lets two fresh reads of one event id through only if it has let at least a window
      of other, pairwise different ids through in between. */
  lemma LetThroughTwice(before: seq<Step>, between: seq<Step>, w: nat, x: string, limits: Limits)
    requires limits.window >= 1 && x != ""
    requires Execute(INITIAL, before, limits).Reached?
    requires LetsThrough(Execute(INITIAL, before, limits).state, w, x, limits)
    requires var s1 := Apply(Execute(INITIAL, before, limits).state, Read(w, true), limits);
             && Execute(s1, between, limits).Reached? && Survives(between, w)
             && LetsThrough(Execute(s1, between, limits).state, w, x, limits)
    ensures var s1 := Apply(Execute(INITIAL, before, limits).state, Read(w, true), limits);
            var first, second := Recorded(s1, w), Recorded(Execute(s1, between, limits).state, w);
            && first <= second && |second| >= |first| + limits.window
            && Distinct(Suffix(second, limits.window)) && x !in Suffix(second, limits.window)
  {
    var s0 := Execute(INITIAL, before, limits).state;
    var s1 := Apply(s0, Read(w, true), limits);
    var s2 := Execute(s1, between, limits).state;
    assert WindowsGood(INITIAL, limits.window);
    RunKeepsWindows(INITIAL, before, limits);
    LetThroughIsNew(s0, w, x, limits);
    LetThroughIsNew(s2, w, x, limits);
    assert PumpStep(s0, Read(w, true));
    NothingRecorded(limits.window);
    assert w in s2.workers ==> GoodWindow(Recorded(s2, w), limits.window) by {
      hide Execute, Apply, PumpStep, GoodWindow;
      StepKeepsWindows(s0, Read(w, true), limits);
      RunKeepsWindows(s1, between, limits);
    }
    hide Execute, Apply, PumpStep;
    RunOnlyRecords(s1, between, w, limits);
    TurnedOver(Recorded(s1, w), Recorded(s2, w), limits.window, x);
  }
}
