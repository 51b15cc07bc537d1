/** Deleting a consumer: Redis discards what it has pending.  When that is safe, over every continuation. */
module ConsumerDeletion {
  import opened Sequences
  import opened SeenWindow
  import opened SinkCycle
  import opened SinkProtocol

  /** The event of `id` has landed, or an entry of another consumer carries it that no worker is about to acknowledge
      as a duplicate. */
  ghost predicate SafeElsewhere(s: State, w: nat, id: nat)
    requires id < |s.stream|
  {
    exists f: nat :: f < |s.stream| && SameEvent(s, id, f) && CarriesWithout(s, w, f)
  }

  ghost predicate CarriesWithout(s: State, w: nat, f: nat) {
    InWarehouse(s, f) || (f in s.pending && s.pending[f] != w && !Marked(s, f))
  }

  /** Every event that consumer `w` owns is safe elsewhere. */
  ghost predicate OwnedAreSafe(s: State, w: nat) {
    forall id :: id in OwnedBy(s, w) && id < |s.stream| && s.stream[id].Event? ==> SafeElsewhere(s, w, id)
  }

  /** Whatever pump steps follow, crashes included, no event is lost. */
  ghost predicate NeverLosesAnEvent(s: State, limits: Limits) {
    forall steps :: Execute(s, steps, limits).Reached? ==> NoEventLost(Execute(s, steps, limits).state)
  }

  lemma SameEventTransitive(s: State, a: nat, b: nat, c: nat)
    requires a < |s.stream| && b < |s.stream| && c < |s.stream| && SameEvent(s, a, b) && SameEvent(s, b, c)
    ensures SameEvent(s, a, c)
  {
  }

  // ---------------------------------------------------------------- enough: every event is safe elsewhere

  lemma DeletionShape(s: State, w: nat, limits: Limits)
    ensures var t := Apply(s, DeleteConsumer(w), limits);
            && t.stream == s.stream && t.delivered == s.delivered && t.warehouse == s.warehouse
            && t.workers == s.workers
            && (forall f :: f in t.pending <==> f in s.pending && s.pending[f] != w)
            && (forall f: nat :: InWarehouse(t, f) == InWarehouse(s, f) && Marked(t, f) == Marked(s, f))
            && (forall f: nat, g: nat :: f < |s.stream| && g < |s.stream| ==> SameEvent(t, f, g) == SameEvent(s, f, g))
  {
  }

  /** What carried an event is still carried by something after the deletion. */
  lemma CarrierReplaced(s: State, w: nat, limits: Limits, f: nat) returns (g: nat)
    requires Inv(s) && Carries(s, f)
    requires OwnedAreSafe(s, w)
    ensures f < |s.stream| && g < |s.stream| && SameEvent(s, f, g)
    ensures Carries(Apply(s, DeleteConsumer(w), limits), g)
  {
    var t := Apply(s, DeleteConsumer(w), limits);
    DeletionShape(s, w, limits);
    hide InWarehouse, Marked, Safe, GoodWorker;
    g := f;
    if !InWarehouse(s, f) && s.pending[f] == w {
      assert f in OwnedBy(s, w);
      g :| g < |s.stream| && SameEvent(s, f, g) && CarriesWithout(s, w, g);
      if InWarehouse(s, g) {
        LandedIsDelivered(s, g);
      }
    }
  }

  lemma LandedIsDelivered(s: State, f: nat)
    requires Inv(s) && InWarehouse(s, f)
    ensures f < s.delivered
  {
    var k :| 0 <= k < |s.warehouse| && s.warehouse[k].id == f;
    assert GoodRow(s, s.warehouse[k]);
  }

  lemma DeletionKeepsSafe(s: State, w: nat, limits: Limits, id: nat)
    requires Inv(s) && id < |s.stream| && Safe(s, id)
    requires OwnedAreSafe(s, w)
    ensures id < |Apply(s, DeleteConsumer(w), limits).stream| && Safe(Apply(s, DeleteConsumer(w), limits), id)
  {
    DeletionShape(s, w, limits);
    hide Inv, Carries, InWarehouse, Marked, OwnedAreSafe, Apply;
    var f: nat :| f < |s.stream| && Carries(s, f) && SameEvent(s, id, f);
    var g := CarrierReplaced(s, w, limits, f);
    SameEventTransitive(s, id, f, g);
  }

  lemma DeletionKeepsVouched(s: State, w: nat, limits: Limits, x: string)
    requires Inv(s) && Vouched(s, x)
    requires OwnedAreSafe(s, w)
    ensures Vouched(Apply(s, DeleteConsumer(w), limits), x)
  {
    DeletionShape(s, w, limits);
    hide Inv, Carries, InWarehouse, Marked, OwnedAreSafe, Apply;
    var f: nat :| Carries(s, f) && CarriesId(s, x, f);
    var g := CarrierReplaced(s, w, limits, f);
    assert CarriesId(Apply(s, DeleteConsumer(w), limits), x, g);
  }

  lemma DeletionKeepsWorker(s: State, w: nat, limits: Limits, v: nat)
    requires Inv(s) && v in s.workers
    requires OwnedAreSafe(s, w)
    ensures var t := Apply(s, DeleteConsumer(w), limits);
            t.delivered <= |t.stream| && v in t.workers && GoodWorker(t, t.workers[v])
  {
    DeletionShape(s, w, limits);
    WorkerOfIsGood(s, v);
    assert s.delivered <= |s.stream|;
    hide Inv, Vouched, InWarehouse, Marked, OwnedAreSafe, Apply;
    forall x | x in s.workers[v].memory.missed
      ensures Vouched(Apply(s, DeleteConsumer(w), limits), x)
    {
      DeletionKeepsVouched(s, w, limits, x);
    }
  }

  lemma DeletionKeepsInv(s: State, w: nat, limits: Limits)
    requires Inv(s)
    requires OwnedAreSafe(s, w)
    ensures Inv(Apply(s, DeleteConsumer(w), limits))
  {
    var t := Apply(s, DeleteConsumer(w), limits);
    DeletionShape(s, w, limits);
    hide Safe, GoodWorker, InWarehouse, Marked, OwnedAreSafe, Apply;
    forall id: nat | id < t.delivered && t.stream[id].Event?
      ensures Safe(t, id)
    {
      DeletionKeepsSafe(s, w, limits, id);
    }
    forall v | v in t.workers
      ensures GoodWorker(t, t.workers[v])
    {
      DeletionKeepsWorker(s, w, limits, v);
    }
    forall k | 0 <= k < |t.warehouse|
      ensures GoodRow(t, t.warehouse[k])
    {
      assert GoodRow(s, s.warehouse[k]);
    }
  }

  lemma InvNeverLoses(s: State, limits: Limits)
    requires Inv(s)
    ensures NeverLosesAnEvent(s, limits)
  {
    hide Inv, NoEventLost, Execute;
    forall steps | Execute(s, steps, limits).Reached?
      ensures NoEventLost(Execute(s, steps, limits).state)
    {
      RunKeepsInv(s, steps, limits);
      InvMeansNoEventLost(Execute(s, steps, limits).state);
    }
  }

  // ---------------------------------------------------------------- needed: otherwise the marked carriers go

  /** `t` follows `s` once the workers `ws` have acknowledged their skips, and nothing else has happened. */
  ghost predicate Flushed(s: State, t: State, ws: set<nat>) {
    && t.stream == s.stream && t.delivered == s.delivered && t.warehouse == s.warehouse
    && t.workers.Keys == s.workers.Keys
    && (forall v :: v in s.workers && v !in ws ==> t.workers[v] == s.workers[v])
    && (forall f :: f in t.pending ==> f in s.pending && !MarkedBy(s, ws, f))
  }

  ghost predicate MarkedBy(s: State, ws: set<nat>, f: nat) {
    exists v :: v in ws && v in s.workers && HoldsSkips(s.workers[v]) && f in s.workers[v].memory.batch.skipIds
  }

  lemma OnlyOneMarks(s: State, w: nat, f: nat)
    ensures MarkedBy(s, {w}, f) <==>
            w in s.workers && HoldsSkips(s.workers[w]) && f in s.workers[w].memory.batch.skipIds
  {
  }

  lemma AckFlushes(s: State, w: nat, limits: Limits) returns (steps: seq<Step>, t: State)
    requires w in s.workers && s.workers[w].phase == Skipping
    ensures Execute(s, steps, limits) == Reached(t) && Flushed(s, t, {w})
  {
    steps, t := [AckSkips(w, true)], Apply(s, AckSkips(w, true), limits);
    ExecuteOne(s, AckSkips(w, true), limits);
    hide Execute;
    forall f | f in t.pending
      ensures f in s.pending && !MarkedBy(s, {w}, f)
    {
      OnlyOneMarks(s, w, f);
    }
  }

  /** Before its acknowledgement a worker only has to go through the phases: its skips stay what they are. */
  ghost predicate Readied(s: State, t: State, w: nat) {
    && t.stream == s.stream && t.delivered == s.delivered && t.warehouse == s.warehouse && t.pending == s.pending
    && t.workers.Keys == s.workers.Keys && w in s.workers
    && (forall v :: v in s.workers && v != w ==> t.workers[v] == s.workers[v])
    && t.workers[w] == Worker(s.workers[w].memory, Skipping)
  }

  lemma Ready(s: State, w: nat, limits: Limits) returns (steps: seq<Step>, t: State)
    requires w in s.workers && HoldsSkips(s.workers[w])
    ensures Execute(s, steps, limits) == Reached(t) && Readied(s, t, w)
  {
    steps, t := [], s;
    if t.workers[w].phase == Reclaiming {
      ExecuteOneMore(s, steps, StartReading(w), limits);
      steps, t := steps + [StartReading(w)], Apply(t, StartReading(w), limits);
    }
    if t.workers[w].phase == Reading {
      hide Execute;
      ExecuteOneMore(s, steps, StopReading(w), limits);
      steps, t := steps + [StopReading(w)], Apply(t, StopReading(w), limits);
    }
  }

  lemma FlushOne(s: State, w: nat, limits: Limits) returns (steps: seq<Step>, t: State)
    requires w in s.workers
    ensures Execute(s, steps, limits) == Reached(t) && Flushed(s, t, {w})
  {
    if HoldsSkips(s.workers[w]) {
      var head, mid := Ready(s, w, limits);
      var tail;
      tail, t := AckFlushes(mid, w, limits);
      ExecuteConcat(s, head, tail, limits);
      steps := head + tail;
      hide Execute;
      ReadiedThenFlushed(s, mid, t, w);
    } else {
      steps, t := [], s;
    }
  }

  lemma ReadiedThenFlushed(s: State, mid: State, t: State, w: nat)
    requires HoldsSkips(WorkerOf(s, w)) && Readied(s, mid, w) && Flushed(mid, t, {w})
    ensures Flushed(s, t, {w})
  {
    forall f | f in t.pending
      ensures f in s.pending && !MarkedBy(s, {w}, f)
    {
      OnlyOneMarks(s, w, f);
      OnlyOneMarks(mid, w, f);
    }
    hide MarkedBy;
  }

  lemma FlushedThenFlushed(s: State, mid: State, t: State, ws: set<nat>, w: nat)
    requires w !in ws && Flushed(s, mid, ws) && Flushed(mid, t, {w})
    ensures Flushed(s, t, ws + {w})
  {
    forall f | f in t.pending
      ensures f in s.pending && !MarkedBy(s, ws + {w}, f)
    {
      OnlyOneMarks(mid, w, f);
    }
    hide MarkedBy;
  }

  lemma {:induction false} FlushAll(s: State, ws: set<nat>, limits: Limits) returns (steps: seq<Step>, t: State)
    requires ws <= s.workers.Keys
    ensures Execute(s, steps, limits) == Reached(t) && Flushed(s, t, ws)
    decreases ws
  {
    hide MarkedBy;
    if ws == {} {
      steps, t := [], s;
      NobodyMarks(s);
    } else {
      var w :| w in ws;
      var head, mid := FlushAll(s, ws - {w}, limits);
      var tail;
      tail, t := FlushOne(mid, w, limits);
      ExecuteConcat(s, head, tail, limits);
      steps := head + tail;
      hide Execute, Flushed;
      FlushedThenFlushed(s, mid, t, ws - {w}, w);
      assert ws - {w} + {w} == ws;
    }
  }

  lemma NobodyMarks(s: State)
    ensures forall f :: !MarkedBy(s, {}, f)
  {
  }

  lemma AllMark(s: State, f: nat)
    ensures Marked(s, f) <==> MarkedBy(s, s.workers.Keys, f)
  {
  }

  /** What is covered once all workers have acknowledged their skips was safe elsewhere. */
  lemma CoveredAfterFlush(s: State, w: nat, limits: Limits, u: State, id: nat)
    requires var t := Apply(s, DeleteConsumer(w), limits); Flushed(t, u, t.workers.Keys)
    requires id < |s.stream| && id < |u.stream| && Covered(u, id)
    ensures SafeElsewhere(s, w, id)
  {
    var t := Apply(s, DeleteConsumer(w), limits);
    DeletionShape(s, w, limits);
    hide Apply, Marked;
    var f: nat :| f < |u.stream| && SameEvent(u, id, f) && (f in u.pending || InWarehouse(u, f));
    AllMark(t, f);
    hide MarkedBy;
    assert CarriesWithout(s, w, f) && SameEvent(s, id, f);
  }

  /** An event that is not safe elsewhere is lost as soon as the workers acknowledge what they have marked. */
  lemma UnsafeIsLost(s: State, w: nat, limits: Limits, id: nat)
    requires Inv(s) && id in OwnedBy(s, w) && id < |s.stream| && s.stream[id].Event? && !SafeElsewhere(s, w, id)
    ensures !NeverLosesAnEvent(Apply(s, DeleteConsumer(w), limits), limits)
  {
    var t := Apply(s, DeleteConsumer(w), limits);
    DeletionShape(s, w, limits);
    assert id < s.delivered;
    hide Inv, Apply, Execute, OwnedBy, SafeElsewhere;
    var steps, u := FlushAll(t, t.workers.Keys, limits);
    if Covered(u, id) {
      CoveredAfterFlush(s, w, limits, u, id);
      assert false;
    }
    assert !NoEventLost(u);
    assert Execute(t, steps, limits).Reached?;
  }

  // ---------------------------------------------------------------- both

  /** Deleting a consumer is safe - no continuation loses an event - exactly when every event it still owns has landed
      or is carried by an entry of another consumer that no worker is about to acknowledge as a duplicate. */
  lemma DeletionIsSafeIff(s: State, w: nat, limits: Limits)
    requires Inv(s)
    ensures NeverLosesAnEvent(Apply(s, DeleteConsumer(w), limits), limits) <==>
            OwnedAreSafe(s, w)
  {
    hide Inv, Apply, NeverLosesAnEvent, SafeElsewhere, OwnedBy;
    if OwnedAreSafe(s, w) {
      DeletionKeepsInv(s, w, limits);
      InvNeverLoses(Apply(s, DeleteConsumer(w), limits), limits);
    } else {
      var id :| id in OwnedBy(s, w) && id < |s.stream| && s.stream[id].Event? && !SafeElsewhere(s, w, id);
      UnsafeIsLost(s, w, limits, id);
    }
  }

  // ---------------------------------------------------------------- the startup cleanup

  /** The startup cleanup deletes idle consumers whatever they have pending: a worker that crashes between reading
      an event and inserting it loses it there. */
  lemma CleanupCanLoseAnEvent(limits: Limits)
    requires limits.rows >= 1
    ensures var steps := [Produce(Event("id", "row")), StartReading(0), Read(0, true), Crash(0)];
            var o := Execute(INITIAL, steps, limits);
            && o.Reached?
            && NoEventLost(o.state)
            && !NoEventLost(Apply(o.state, DeleteConsumer(0), limits))
  {
    var steps := [Produce(Event("id", "row")), StartReading(0), Read(0, true), Crash(0)];
    var s1 := Apply(INITIAL, steps[0], limits);
    var s2 := Apply(s1, steps[1], limits);
    var s3 := Apply(s2, steps[2], limits);
    var s4 := Apply(s3, steps[3], limits);
    assert Execute(s4, steps[1..][1..][1..][1..], limits) == Reached(s4);
    assert Execute(s3, steps[1..][1..][1..], limits) == Reached(s4);
    assert Execute(s2, steps[1..][1..], limits) == Reached(s4);
    assert Execute(s1, steps[1..], limits) == Reached(s4);
    NoRunLosesAnEvent(steps, limits);
    var t := Apply(s4, DeleteConsumer(0), limits);
    assert t.stream == [Event("id", "row")] && t.delivered == 1 && t.warehouse == [];
    assert 0 !in t.pending;
    assert !Covered(t, 0);
  }

  // ---------------------------------------------------------------- a duplicate mark that outlives the deletion

  const SENT := Event("id", "row")

  const SEND := [Produce(SENT), Produce(SENT)]
  const READ := [StartReading(1), Read(1, true)]
  const FAIL := [StopReading(1), AckSkips(1, true), Insert(1, false, [])]
  const TAKE_OVER := [Reclaim(0, 0, true), Crash(0)]
  const ACKNOWLEDGE := [StopReading(1), AckSkips(1, true)]

  const SENT_TWICE := State([SENT, SENT], 0, map[], [], map[])
  const READ_ONCE := State(
    [SENT, SENT], 1, map[0 := 1], [], map[1 := Worker(Memory(["id"], Batch(["row"], [0], [], [])), Reading)])
  const FAILED := State(
    [SENT, SENT], 1, map[0 := 1], [], map[1 := Worker(Memory(["id"], EMPTY_BATCH), Reclaiming)])
  const TAKEN_OVER := FAILED.(pending := map[0 := 0])
  const READ_TWICE := State(
    [SENT, SENT], 2, map[0 := 0, 1 := 1], [], map[1 := Worker(Memory(["id"], Batch([], [], [1], [])), Reading)])

  lemma Two(s: State, a: Step, b: Step, limits: Limits)
    requires PumpStep(s, a) && PumpStep(Apply(s, a, limits), b)
    ensures Execute(s, [a, b], limits) == Reached(Apply(Apply(s, a, limits), b, limits))
  {
    hide PumpStep, Apply, Execute;
    ExecuteOne(s, a, limits);
    ExecuteOneMore(s, [a], b, limits);
    assert [a] + [b] == [a, b];
  }

  lemma Sends(limits: Limits)
    ensures Execute(INITIAL, SEND, limits) == Reached(SENT_TWICE)
  {
    Two(INITIAL, Produce(SENT), Produce(SENT), limits);
    hide Execute;
    assert [SENT] + [SENT] == [SENT, SENT];
  }

  lemma ClassifiesNew(limits: Limits)
    requires limits.rows >= 1
    ensures Classify(Memory([], EMPTY_BATCH), Entry(0, SENT), limits, false)
         == Memory(["id"], Batch(["row"], [0], [], []))
  {
    assert !IsDuplicate([], limits.window, "id");
    assert Record([], limits.window, "id") == ["id"];
    assert Land(EMPTY_BATCH, 0, "row", limits.rows) == Batch(["row"], [0], [], []);
  }

  lemma ClassifiesCopy(limits: Limits)
    requires limits.window >= 1
    ensures Classify(Memory(["id"], EMPTY_BATCH), Entry(1, SENT), limits, false)
         == Memory(["id"], Batch([], [], [1], []))
  {
    assert Suffix(["id"], limits.window)[0] == "id";
    assert IsDuplicate(["id"], limits.window, "id");
  }

  lemma ReadsFirst(limits: Limits)
    requires limits.rows >= 1
    ensures Execute(SENT_TWICE, READ, limits) == Reached(READ_ONCE)
  {
    var s := Apply(SENT_TWICE, StartReading(1), limits);
    assert s == SENT_TWICE.(workers := map[1 := Worker(Memory([], EMPTY_BATCH), Reading)]);
    ClassifiesNew(limits);
    hide Classify;
    assert Apply(s, Read(1, true), limits) == READ_ONCE;
    Two(SENT_TWICE, StartReading(1), Read(1, true), limits);
  }

  lemma Fails(limits: Limits)
    ensures Execute(READ_ONCE, FAIL, limits) == Reached(FAILED)
  {
    var s := Apply(READ_ONCE, StopReading(1), limits);
    var t := Apply(s, AckSkips(1, true), limits);
    assert t.pending == map[0 := 1];
    assert PumpStep(t, Insert(1, false, []));
    assert Apply(t, Insert(1, false, []), limits) == FAILED;
    Two(READ_ONCE, StopReading(1), AckSkips(1, true), limits);
    hide Apply, PumpStep, Execute;
    ExecuteOneMore(READ_ONCE, ACKNOWLEDGE, Insert(1, false, []), limits);
    assert ACKNOWLEDGE + [Insert(1, false, [])] == FAIL;
  }

  lemma TakesOver(limits: Limits)
    ensures Execute(FAILED, TAKE_OVER, limits) == Reached(TAKEN_OVER)
  {
    var s := Apply(FAILED, Reclaim(0, 0, true), limits);
    assert Apply(s, Crash(0), limits) == TAKEN_OVER;
    Two(FAILED, Reclaim(0, 0, true), Crash(0), limits);
  }

  lemma ReadsSecond(limits: Limits)
    requires limits.window >= 1
    ensures Execute(TAKEN_OVER, READ, limits) == Reached(READ_TWICE)
  {
    var s := Apply(TAKEN_OVER, StartReading(1), limits);
    assert s == TAKEN_OVER.(workers := map[1 := Worker(Memory(["id"], EMPTY_BATCH), Reading)]);
    ClassifiesCopy(limits);
    hide Classify;
    assert Apply(s, Read(1, true), limits) == READ_TWICE;
    Two(TAKEN_OVER, StartReading(1), Read(1, true), limits);
  }

  lemma ReadTwiceIsReachable(limits: Limits)
    requires limits.rows >= 1 && limits.window >= 1
    ensures Execute(INITIAL, SEND + READ + FAIL + TAKE_OVER + READ, limits) == Reached(READ_TWICE)
  {
    Sends(limits);
    ReadsFirst(limits);
    Fails(limits);
    TakesOver(limits);
    ReadsSecond(limits);
    hide *;
    ExecuteConcat(INITIAL, SEND, READ, limits);
    ExecuteConcat(INITIAL, SEND + READ, FAIL, limits);
    ExecuteConcat(INITIAL, SEND + READ + FAIL, TAKE_OVER, limits);
    ExecuteConcat(INITIAL, SEND + READ + FAIL + TAKE_OVER, READ, limits);
  }

  /** It is not enough that an event is still covered right after the deletion.  Worker 1 reads an event and fails to
      insert it, worker 0 takes it over and crashes, and worker 1 reads a second copy, to it a duplicate.  With
      consumer 0 deleted, the copy still covers the event; once worker 1 acknowledges the duplicate, it is lost. */
  lemma DuplicateMarkOutlivesDeletion(limits: Limits)
    requires limits.rows >= 1 && limits.window >= 1
    ensures Execute(INITIAL, SEND + READ + FAIL + TAKE_OVER + READ, limits) == Reached(READ_TWICE)
    ensures var t := Apply(READ_TWICE, DeleteConsumer(0), limits);
            && NoEventLost(t)
            && Execute(t, ACKNOWLEDGE, limits).Reached?
            && !NoEventLost(Execute(t, ACKNOWLEDGE, limits).state)
  {
    ReadTwiceIsReachable(limits);
    var t := Apply(READ_TWICE, DeleteConsumer(0), limits);
    assert t == READ_TWICE.(pending := map[1 := 1]);
    forall id: nat | id < 2
      ensures Covered(t, id)
    {
      assert SameEvent(t, id, 1) && 1 in t.pending;
    }
    var s := Apply(t, StopReading(1), limits);
    var u := Apply(s, AckSkips(1, true), limits);
    assert u.pending == map[] && u.warehouse == [];
    Two(t, StopReading(1), AckSkips(1, true), limits);
    assert !Covered(u, 0);
  }
}
