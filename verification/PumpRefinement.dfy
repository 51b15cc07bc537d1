/** The imperative pump cycle is a run of the step system. */
module PumpRefinement {
  import opened SinkCycle
  import opened SinkProtocol

  /** The entries `ids`, as a reply lists them. */
  ghost predicate AreEntries(es: seq<Entry>, stream: seq<Payload>, ids: seq<nat>) {
    && |es| == |ids|
    && forall k :: 0 <= k < |ids| ==> ids[k] < |stream| && es[k] == Entry(ids[k], stream[ids[k]])
  }

  /** The `n` entries of the stream from position `from` on. */
  ghost predicate AreNextEntries(es: seq<Entry>, stream: seq<Payload>, from: nat, n: nat) {
    && |es| == n && from + n <= |stream|
    && forall k :: 0 <= k < n ==> es[k] == Entry(from + k, stream[from + k])
  }

  /** Pump steps of worker `w`. */
  predicate PumpsBy(step: Step, w: nat) {
    !step.Produce? && !step.Crash? && !step.DeleteConsumer? && step.worker == w
  }

  ghost predicate AllBy(steps: seq<Step>, w: nat) {
    forall k :: 0 <= k < |steps| ==> PumpsBy(steps[k], w)
  }

  /** `t` follows `s` once worker `w`, staying in its phase, has taken in the entries `es`. */
  ghost predicate TookIn(s: State, t: State, w: nat, es: seq<Entry>, limits: Limits, redelivery: bool) {
    && t.stream == s.stream && t.warehouse == s.warehouse
    && w in s.workers && w in t.workers
    && s.delivered <= t.delivered
    && (forall id :: id in t.pending <==> id in s.pending || s.delivered <= id < t.delivered)
    && t.workers[w].phase == s.workers[w].phase
    && t.workers[w].memory == ClassifyAll(s.workers[w].memory, es, limits, redelivery)
  }

  lemma TookInOneMore(s: State, mid: State, t: State, w: nat, es: seq<Entry>, e: Entry,
                        limits: Limits, redelivery: bool)
    requires TookIn(s, mid, w, es, limits, redelivery)
    requires TookIn(mid, t, w, [e], limits, redelivery)
    ensures TookIn(s, t, w, es + [e], limits, redelivery)
  {
    assert (es + [e])[..|es|] == es;
    TakeOne(mid.workers[w].memory, e, limits, redelivery);
  }

  lemma TakeOne(m: Memory, e: Entry, limits: Limits, redelivery: bool)
    ensures ClassifyAll(m, [e], limits, redelivery) == Classify(m, e, limits, redelivery)
  {
    assert [e][..0] == [];
  }

  lemma ReclaimOneMore(s: State, steps: seq<Step>, mid: State, w: nat, id: nat, limits: Limits) returns (t: State)
    requires Execute(s, steps, limits) == Reached(mid)
    requires w in mid.workers && mid.workers[w].phase == Reclaiming && id in mid.pending && id < |mid.stream|
    ensures Execute(s, steps + [Reclaim(w, id, true)], limits) == Reached(t)
    ensures TookIn(mid, t, w, [Entry(id, mid.stream[id])], limits, true) && t.delivered == mid.delivered
  {
    t := Apply(mid, Reclaim(w, id, true), limits);
    ExecuteOneMore(s, steps, Reclaim(w, id, true), limits);
    TakeOne(mid.workers[w].memory, Entry(id, mid.stream[id]), limits, true);
  }

  lemma ReadOneMore(s: State, steps: seq<Step>, mid: State, w: nat, limits: Limits) returns (t: State)
    requires Execute(s, steps, limits) == Reached(mid)
    requires w in mid.workers && mid.workers[w].phase == Reading && mid.delivered < |mid.stream|
    ensures Execute(s, steps + [Read(w, true)], limits) == Reached(t)
    ensures TookIn(mid, t, w, [Entry(mid.delivered, mid.stream[mid.delivered])], limits, false)
    ensures t.delivered == mid.delivered + 1
  {
    t := Apply(mid, Read(w, true), limits);
    ExecuteOneMore(s, steps, Read(w, true), limits);
    TakeOne(mid.workers[w].memory, Entry(mid.delivered, mid.stream[mid.delivered]), limits, false);
  }

  lemma {:induction false} ReclaimReply(s: State, w: nat, ids: seq<nat>, es: seq<Entry>, limits: Limits)
      returns (steps: seq<Step>, t: State)
    requires w in s.workers && s.workers[w].phase == Reclaiming
    requires forall k :: 0 <= k < |ids| ==> ids[k] in s.pending
    requires AreEntries(es, s.stream, ids)
    ensures Execute(s, steps, limits) == Reached(t) && AllBy(steps, w)
    ensures TookIn(s, t, w, es, limits, true) && t.delivered == s.delivered
  {
    hide Apply, PumpStep, Classify;
    if ids == [] {
      return [], s;
    }
    var last := |ids| - 1;
    var head, mid := ReclaimReply(s, w, ids[..last], es[..last], limits);
    steps := head + [Reclaim(w, ids[last], true)];
    t := ReclaimOneMore(s, head, mid, w, ids[last], limits);
    TookInOneMore(s, mid, t, w, es[..last], es[last], limits, true);
    assert es == es[..last] + [es[last]];
  }

  lemma {:induction false} ReadReply(s: State, w: nat, n: nat, es: seq<Entry>, limits: Limits)
      returns (steps: seq<Step>, t: State)
    requires w in s.workers && s.workers[w].phase == Reading
    requires AreNextEntries(es, s.stream, s.delivered, n)
    ensures Execute(s, steps, limits) == Reached(t) && AllBy(steps, w)
    ensures TookIn(s, t, w, es, limits, false) && t.delivered == s.delivered + n
  {
    hide Apply, PumpStep, Classify;
    if n == 0 {
      return [], s;
    }
    var head, mid := ReadReply(s, w, n - 1, es[..n - 1], limits);
    steps := head + [Read(w, true)];
    t := ReadOneMore(s, head, mid, w, limits);
    TookInOneMore(s, mid, t, w, es[..n - 1], es[n - 1], limits, false);
    assert es == es[..n - 1] + [es[n - 1]];
  }

  /** What becomes of the commands of a cycle: whether its two acknowledgements arrive, whether the insert succeeds,
      and which rows a failed insert has stored all the same. */
  datatype Fate = Fate(skipsAcked: bool, insertOk: bool, stored: seq<Landed>, rowsAcked: bool)

  /** A failed insert can only have stored rows of its batch. */
  ghost predicate Possible(fate: Fate, b: Batch) {
    forall r :: r in fate.stored ==> IsRowOf(r, b)
  }

  ghost predicate IsRowOf(r: Landed, b: Batch) {
    exists k :: 0 <= k < |b.rows| && k < |b.validIds| && r == Landed(b.validIds[k], b.rows[k])
  }

  lemma RowsOfBatch(r: Landed, b: Batch)
    requires |b.rows| == |b.validIds| && IsRowOf(r, b)
    ensures r in RowsOf(b)
  {
    var k :| 0 <= k < |b.rows| && r == Landed(b.validIds[k], b.rows[k]);
    assert RowsOf(b)[k] == r;
  }

  /** What the cycle does to the warehouse: all rows in order, or those the failed insert stored. */
  ghost predicate Landing(s: State, t: State, b: Batch, fate: Fate) {
    && |b.rows| == |b.validIds|
    && t.warehouse == s.warehouse + if b.rows == [] then [] else if fate.insertOk then RowsOf(b) else fate.stored
  }

  /** The rows that appear in the warehouse are those sent, in their order and with the ids acknowledged for them, if
      the insert succeeds, and otherwise some of those sent. */
  ghost predicate StoresWhatIsSent(s: State, t: State, sent: Effects, fate: Fate) {
    && s.warehouse <= t.warehouse
    && (fate.insertOk ==> |t.warehouse| == |s.warehouse| + |sent.inserted|)
    && forall k :: |s.warehouse| <= k < |t.warehouse| ==>
         if fate.insertOk
         then k - |s.warehouse| < |sent.rowAcks|
              && t.warehouse[k] == Landed(sent.rowAcks[k - |s.warehouse|], sent.inserted[k - |s.warehouse|])
         else t.warehouse[k].row in sent.inserted
  }

  lemma LandingIsSent(s: State, t: State, b: Batch, fate: Fate)
    requires Landing(s, t, b, fate) && Possible(fate, b)
    ensures StoresWhatIsSent(s, t, CycleEffects(b, fate.insertOk), fate)
  {
    if !fate.insertOk {
      forall k | |s.warehouse| <= k < |t.warehouse|
        ensures t.warehouse[k].row in b.rows
      {
        var r := t.warehouse[k];
        assert r == fate.stored[k - |s.warehouse|] && r in fate.stored;
        assert IsRowOf(r, b);
      }
    }
  }

  /** What the cycle does to the group: the acknowledgements it sends and that arrive are gone from `pending`. */
  ghost predicate Acknowledged(s: State, t: State, sent: Effects, fate: Fate) {
    forall id :: id in t.pending <==>
      id in s.pending && !(fate.skipsAcked && id in sent.skipAcks) && !(fate.rowsAcked && id in sent.rowAcks)
  }

  /** Between cycles the worker has only its window. */
  predicate Resting(s: State, w: nat, missed: seq<string>) {
    w in s.workers && s.workers[w] == Worker(Memory(missed, EMPTY_BATCH), Reclaiming)
  }

  /** The cycle up to the acknowledgement of the skips. */
  lemma SkipTail(s: State, w: nat, skipsAcked: bool, limits: Limits) returns (steps: seq<Step>, t: State)
    requires w in s.workers && s.workers[w].phase == Reading
    ensures Execute(s, steps, limits) == Reached(t) && AllBy(steps, w)
    ensures var m := s.workers[w].memory;
            && t.stream == s.stream && t.delivered == s.delivered && t.warehouse == s.warehouse
            && (forall id :: id in t.pending <==> id in s.pending && !(skipsAcked && id in m.batch.skipIds))
            && (if m.batch.rows == [] then Resting(t, w, m.missed)
                else w in t.workers && t.workers[w] == Worker(m, Inserting))
  {
    hide Execute;
    steps := [StopReading(w)];
    ExecuteOne(s, StopReading(w), limits);
    t := Apply(s, StopReading(w), limits);
    ExecuteOneMore(s, steps, AckSkips(w, skipsAcked), limits);
    steps, t := steps + [AckSkips(w, skipsAcked)], Apply(t, AckSkips(w, skipsAcked), limits);
  }

  /** The cycle from the insert on. */
  lemma InsertTail(s: State, w: nat, fate: Fate, limits: Limits) returns (steps: seq<Step>, t: State)
    requires w in s.workers && s.workers[w].phase == Inserting
    requires var b := s.workers[w].memory.batch;
             |b.rows| == |b.validIds| && b.rows != [] && Possible(fate, b)
    ensures Execute(s, steps, limits) == Reached(t) && AllBy(steps, w)
    ensures var m := s.workers[w].memory;
            && t.stream == s.stream && t.delivered == s.delivered
            && Landing(s, t, m.batch, fate) && Resting(t, w, m.missed)
            && (forall id :: id in t.pending <==>
                 id in s.pending && !(fate.insertOk && fate.rowsAcked && id in m.batch.validIds))
  {
    hide Execute, IsRowOf;
    var b := s.workers[w].memory.batch;
    forall r | r in fate.stored
      ensures r in RowsOf(b)
    {
      RowsOfBatch(r, b);
    }
    var insert := Insert(w, fate.insertOk, if fate.insertOk then RowsOf(b) else fate.stored);
    steps := [insert];
    ExecuteOne(s, insert, limits);
    t := Apply(s, insert, limits);
    if fate.insertOk {
      ExecuteOneMore(s, steps, AckRows(w, fate.rowsAcked), limits);
      steps, t := steps + [AckRows(w, fate.rowsAcked)], Apply(t, AckRows(w, fate.rowsAcked), limits);
    }
  }

  lemma CycleTail(s: State, w: nat, fate: Fate, limits: Limits) returns (steps: seq<Step>, t: State)
    requires Inv(s) && w in s.workers && s.workers[w].phase == Reading
    requires Possible(fate, s.workers[w].memory.batch)
    ensures Execute(s, steps, limits) == Reached(t) && AllBy(steps, w)
    ensures var m := s.workers[w].memory;
            && t.stream == s.stream && t.delivered == s.delivered
            && Landing(s, t, m.batch, fate) && Acknowledged(s, t, CycleEffects(m.batch, fate.insertOk), fate)
            && Resting(t, w, m.missed)
  {
    WorkerOfIsGood(s, w);
    hide Execute, RowsOf, Inv, Vouched, InWarehouse, Possible;
    var b := s.workers[w].memory.batch;
    steps, t := SkipTail(s, w, fate.skipsAcked, limits);
    if b.rows != [] {
      var more, end := InsertTail(t, w, fate, limits);
      ExecuteConcat(s, steps, more, limits);
      steps, t := steps + more, end;
    }
  }

  /** `ChSinkWorker.PumpOnce`, run between cycles by worker `w` on replies that Redis can give, is a run of the step
      system, whatever becomes of its commands: what it sends is what the steps do to the group and the warehouse. */
  lemma PumpOnceIsARun(s: State, w: nat, ids: seq<nat>, claimed: seq<Entry>, unread: seq<Entry>, fate: Fate,
                       limits: Limits)
      returns (steps: seq<Step>, t: State)
    requires Inv(s) && w in s.workers && Resting(s, w, s.workers[w].memory.missed)
    requires forall k :: 0 <= k < |ids| ==> ids[k] in s.pending
    requires AreEntries(claimed, s.stream, ids)
    requires AreNextEntries(unread, s.stream, s.delivered, |unread|)
    requires Possible(fate, CycleMemory(s.workers[w].memory.missed, claimed, unread, limits).batch)
    ensures Execute(s, steps, limits) == Reached(t) && AllBy(steps, w) && Inv(t)
    ensures var m := CycleMemory(s.workers[w].memory.missed, claimed, unread, limits);
            && t.stream == s.stream && t.delivered == s.delivered + |unread|
            && Landing(s, t, m.batch, fate) && Resting(t, w, m.missed)
            && StoresWhatIsSent(s, t, CycleEffects(m.batch, fate.insertOk), fate)
            && (forall id :: id in t.pending <==>
                 && (id in s.pending || s.delivered <= id < t.delivered)
                 && !(fate.skipsAcked && id in CycleEffects(m.batch, fate.insertOk).skipAcks)
                 && !(fate.rowsAcked && id in CycleEffects(m.batch, fate.insertOk).rowAcks))
  {
    hide Execute, Classify, ClassifyAll, Inv, RowsOf, CycleEffects, Possible;
    var head, s1 := ReclaimReply(s, w, ids, claimed, limits);
    ExecuteOneMore(s, head, StartReading(w), limits);
    var s2 := Apply(s1, StartReading(w), limits);
    var reading, s3 := ReadReply(s2, w, |unread|, unread, limits);
    ExecuteConcat(s, head + [StartReading(w)], reading, limits);
    steps := head + [StartReading(w)] + reading;
    RunKeepsInv(s, steps, limits);
    var tail;
    tail, t := CycleTail(s3, w, fate, limits);
    ExecuteConcat(s, steps, tail, limits);
    steps := steps + tail;
    RunKeepsInv(s, steps, limits);
    LandingIsSent(s, t, s3.workers[w].memory.batch, fate);
  }
}
