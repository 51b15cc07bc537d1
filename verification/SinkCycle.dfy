/** One pump cycle of the warehouse sink: classification of delivered stream entries, and what the cycle sends
    to Redis and to the warehouse. */
module SinkCycle {
  import opened Options
  import opened SeenWindow

  const USIZE_MAX: nat := 0xFFFF_FFFF_FFFF_FFFF

  /** A stream entry either fails to parse, or carries an event; `row` stands for its warehouse columns. */
  datatype Payload = Poison | Event(eventId: string, row: string)

  datatype Entry = Entry(id: nat, payload: Payload)

  /** The buffers of one cycle.  `held` is what the row cap kept out: neither landed nor acknowledged. */
  datatype Batch = Batch(rows: seq<string>, validIds: seq<nat>, skipIds: seq<nat>, held: seq<nat>)

  const EMPTY_BATCH := Batch([], [], [], [])

  /** A worker's memory: the history of its window and the buffers of the running cycle. */
  datatype Memory = Memory(missed: seq<string>, batch: Batch)

  datatype Limits = Limits(window: nat, rows: nat)

  function RowsCap(batchSize: nat): nat {
    var doubled := if 2 * batchSize > USIZE_MAX then USIZE_MAX else 2 * batchSize;
    if doubled == 0 then 1 else doubled
  }

  function Land(b: Batch, id: nat, row: string, rowsCap: nat): Batch {
    if |b.rows| < rowsCap
    then b.(rows := b.rows + [row], validIds := b.validIds + [id])
    else b.(held := b.held + [id])
  }

  function Classify(m: Memory, e: Entry, limits: Limits, redelivery: bool): Memory {
    match e.payload
    case Poison => m.(batch := m.batch.(skipIds := m.batch.skipIds + [e.id]))
    case Event(eventId, row) =>
      if redelivery then
        m.(batch := Land(m.batch, e.id, row, limits.rows))
      else if IsDuplicate(m.missed, limits.window, eventId) then
        m.(batch := m.batch.(skipIds := m.batch.skipIds + [e.id]))
      else
        Memory(Record(m.missed, limits.window, eventId), Land(m.batch, e.id, row, limits.rows))
  }

  function ClassifyAll(m: Memory, es: seq<Entry>, limits: Limits, redelivery: bool): Memory {
    if es == [] then m
    else Classify(ClassifyAll(m, es[..|es| - 1], limits, redelivery), es[|es| - 1], limits, redelivery)
  }

  /** The worker's memory after one cycle has read `claimed` from the pending entries and `unread` from the stream. */
  function CycleMemory(missed: seq<string>, claimed: seq<Entry>, unread: seq<Entry>, limits: Limits): Memory {
    ClassifyAll(ClassifyAll(Memory(missed, EMPTY_BATCH), claimed, limits, true), unread, limits, false)
  }

  // ---------------------------------------------------------------- partition of a batch

  function Ids(es: seq<Entry>): (ids: seq<nat>)
    ensures |ids| == |es| && forall k :: 0 <= k < |es| ==> ids[k] == es[k].id
  {
    seq(|es|, k requires 0 <= k < |es| => es[k].id)
  }

  /** The multiset of entry ids a batch has taken in. */
  ghost function Taken(b: Batch): multiset<nat> {
    multiset(b.validIds) + multiset(b.skipIds) + multiset(b.held)
  }

  /** Row k of the batch is the row of the k-th entry to acknowledge, and that entry is one of `es`. */
  ghost predicate Aligned(b: Batch, es: seq<Entry>) {
    && |b.rows| == |b.validIds|
    && forall k :: 0 <= k < |b.rows| ==> ComesFrom(b.validIds[k], b.rows[k], es)
  }

  ghost predicate ComesFrom(id: nat, row: string, es: seq<Entry>) {
    exists e :: e in es && LandsAs(e, id, row)
  }

  lemma ComesFromMore(id: nat, row: string, es: seq<Entry>, more: seq<Entry>)
    requires ComesFrom(id, row, es)
    ensures ComesFrom(id, row, es + more)
  {
    var e :| e in es && LandsAs(e, id, row);
    assert e in es + more;
  }

  ghost predicate LandsAs(e: Entry, id: nat, row: string) {
    e.id == id && e.payload.Event? && e.payload.row == row
  }

  lemma TakesOne(m: Memory, e: Entry, limits: Limits, redelivery: bool)
    ensures Taken(Classify(m, e, limits, redelivery).batch) == Taken(m.batch) + multiset{e.id}
  {
    var b, b' := m.batch, Classify(m, e, limits, redelivery).batch;
    if b'.skipIds == b.skipIds + [e.id] {
    } else if b'.held == b.held + [e.id] {
    } else {
      assert b'.validIds == b.validIds + [e.id];
    }
  }

  lemma {:induction false} FoldTakesAll(m: Memory, es: seq<Entry>, limits: Limits, redelivery: bool)
    ensures Taken(ClassifyAll(m, es, limits, redelivery).batch) == Taken(m.batch) + multiset(Ids(es))
  {
    if es == [] {
      assert Ids(es) == [];
    } else {
      var front, last := es[..|es| - 1], es[|es| - 1];
      FoldTakesAll(m, front, limits, redelivery);
      TakesOne(ClassifyAll(m, front, limits, redelivery), last, limits, redelivery);
      assert Ids(es) == Ids(front) + [last.id];
      MultisetOfConcat(Ids(front), [last.id]);
    }
  }

  lemma MultisetOfConcat(a: seq<nat>, b: seq<nat>)
    ensures multiset(a + b) == multiset(a) + multiset(b)
  {
  }

  /** All that the cycle reads is taken, nothing else and nothing twice. */
  lemma CycleTakesAll(missed: seq<string>, claimed: seq<Entry>, unread: seq<Entry>, limits: Limits)
    ensures Taken(CycleMemory(missed, claimed, unread, limits).batch) == multiset(Ids(claimed + unread))
  {
    var start := Memory(missed, EMPTY_BATCH);
    FoldTakesAll(start, claimed, limits, true);
    FoldTakesAll(ClassifyAll(start, claimed, limits, true), unread, limits, false);
    assert Taken(EMPTY_BATCH) == multiset{};
    assert Ids(claimed + unread) == Ids(claimed) + Ids(unread);
    MultisetOfConcat(Ids(claimed), Ids(unread));
  }

  lemma {:induction false} FoldAligns(m: Memory, before: seq<Entry>, es: seq<Entry>, limits: Limits, redelivery: bool)
    requires Aligned(m.batch, before)
    ensures Aligned(ClassifyAll(m, es, limits, redelivery).batch, before + es)
  {
    if es == [] {
      assert before + es == before;
    } else {
      var front, last := es[..|es| - 1], es[|es| - 1];
      FoldAligns(m, before, front, limits, redelivery);
      var b := ClassifyAll(m, front, limits, redelivery).batch;
      var b' := ClassifyAll(m, es, limits, redelivery).batch;
      assert before + es == before + front + [last];
      forall k | 0 <= k < |b'.rows|
        ensures ComesFrom(b'.validIds[k], b'.rows[k], before + es)
      {
        if k < |b.rows| {
          ComesFromMore(b.validIds[k], b.rows[k], before + front, [last]);
        } else {
          assert last in before + es && LandsAs(last, b'.validIds[k], b'.rows[k]);
        }
      }
    }
  }

  /** An entry is held back only when the rows are full, and every row is one of the entries read. */
  lemma {:induction false} FoldRowCount(m: Memory, es: seq<Entry>, limits: Limits, redelivery: bool)
    ensures var b := ClassifyAll(m, es, limits, redelivery).batch;
            && |m.batch.rows| <= |b.rows| <= |m.batch.rows| + |es|
            && (|m.batch.rows| + |es| <= limits.rows ==> b.held == m.batch.held)
  {
    if es != [] {
      FoldRowCount(m, es[..|es| - 1], limits, redelivery);
    }
  }

  /** Only poison and fresh duplicates are skipped; poison always is; a redelivered event never is. */
  lemma {:induction false} FoldSkips(m: Memory, es: seq<Entry>, limits: Limits, redelivery: bool)
    ensures var b := ClassifyAll(m, es, limits, redelivery).batch;
            && m.batch.skipIds <= b.skipIds
            && (forall e :: e in es && e.payload.Poison? ==> e.id in b.skipIds)
            && (forall id :: id in b.skipIds[|m.batch.skipIds|..] ==>
                 exists e :: e in es && e.id == id && (e.payload.Poison? || (!redelivery && e.payload.eventId != "")))
  {
    if es != [] {
      FoldSkips(m, es[..|es| - 1], limits, redelivery);
      var b := ClassifyAll(m, es, limits, redelivery).batch;
      forall id | id in b.skipIds[|m.batch.skipIds|..]
        ensures exists e :: e in es && e.id == id && (e.payload.Poison? || (!redelivery && e.payload.eventId != ""))
      {
        var prev := ClassifyAll(m, es[..|es| - 1], limits, redelivery).batch;
        if id in prev.skipIds[|m.batch.skipIds|..] {
          var e :| e in es[..|es| - 1] && e.id == id && (e.payload.Poison? || (!redelivery && e.payload.eventId != ""));
          assert e in es;
        } else {
          assert es[|es| - 1] in es;
        }
      }
    }
  }

  /** Every entry read in a cycle ends in exactly one of rows, skips and held; rows and ids to acknowledge stay
      aligned; and when Redis honours COUNT on both reads, nothing is held. */
  lemma CyclePartition(missed: seq<string>, claimed: seq<Entry>, unread: seq<Entry>, window: nat, batchSize: nat)
    ensures var b := CycleMemory(missed, claimed, unread, Limits(window, RowsCap(batchSize))).batch;
            && Taken(b) == multiset(Ids(claimed + unread))
            && Aligned(b, claimed + unread)
            && (|claimed| <= batchSize && |unread| <= batchSize && |claimed| + |unread| <= USIZE_MAX ==> b.held == [])
  {
    var limits := Limits(window, RowsCap(batchSize));
    var start := Memory(missed, EMPTY_BATCH);
    var mid := ClassifyAll(start, claimed, limits, true);
    CycleTakesAll(missed, claimed, unread, limits);
    FoldAligns(start, [], claimed, limits, true);
    assert [] + claimed == claimed;
    FoldAligns(mid, claimed, unread, limits, false);
    FoldRowCount(start, claimed, limits, true);
    FoldRowCount(mid, unread, limits, false);
  }

  /** Poison is acknowledged in the cycle that reads it and redelivered events are never swallowed. */
  lemma CycleSkips(missed: seq<string>, claimed: seq<Entry>, unread: seq<Entry>, limits: Limits)
    ensures var b := CycleMemory(missed, claimed, unread, limits).batch;
            && (forall e :: e in claimed + unread && e.payload.Poison? ==> e.id in b.skipIds)
            && (forall id :: id in b.skipIds ==>
                 || (exists e :: e in claimed && e.id == id && e.payload.Poison?)
                 || (exists e :: e in unread && e.id == id && (e.payload.Poison? || e.payload.eventId != "")))
  {
    var start := Memory(missed, EMPTY_BATCH);
    var mid := ClassifyAll(start, claimed, limits, true);
    var b := CycleMemory(missed, claimed, unread, limits).batch;
    FoldSkips(start, claimed, limits, true);
    FoldSkips(mid, unread, limits, false);
    forall id | id in b.skipIds
      ensures || (exists e :: e in claimed && e.id == id && e.payload.Poison?)
              || (exists e :: e in unread && e.id == id && (e.payload.Poison? || e.payload.eventId != ""))
    {
      assert b.skipIds == mid.batch.skipIds + b.skipIds[|mid.batch.skipIds|..];
      if id in mid.batch.skipIds {
        assert mid.batch.skipIds[0..] == mid.batch.skipIds;
      }
    }
  }

  // ---------------------------------------------------------------- the worker

  /** What one cycle sends out: ids acknowledged at once, rows inserted, ids acknowledged after the insert. */
  datatype Effects = Effects(skipAcks: seq<nat>, inserted: seq<string>, rowAcks: seq<nat>)

  function CycleEffects(b: Batch, insertOk: bool): Effects {
    Effects(b.skipIds, b.rows, if insertOk && b.rows != [] then b.validIds else [])
  }

  // ---------------------------------------------------------------- what becomes of each entry read

  /** Some event with the id `x` has been met, in the window's history or among the entries `before`. */
  ghost predicate Known(missed: seq<string>, before: seq<Entry>, x: string) {
    x in missed || exists e :: e in before && e.payload.Event? && e.payload.eventId == x
  }

  /** The event of `e` is sent to the warehouse, and if the insert succeeds its own acknowledgement stands at the place
      of its row. */
  ghost predicate IsInserted(sent: Effects, e: Entry, insertOk: bool) {
    exists k :: 0 <= k < |sent.inserted| && e.payload.Event? && e.payload.row == sent.inserted[k]
                && (insertOk ==> k < |sent.rowAcks| && sent.rowAcks[k] == e.id)
  }

  ghost predicate IsDropped(sent: Effects, missed: seq<string>, before: seq<Entry>, e: Entry) {
    && e.payload.Event? && e.payload.eventId != "" && Known(missed, before, e.payload.eventId)
    && e.id in sent.skipAcks
  }

  predicate IsLeft(sent: Effects, e: Entry, rowsCap: nat) {
    e.id !in sent.skipAcks && e.id !in sent.rowAcks && |sent.inserted| == rowsCap
  }

  /** Every acknowledgement after an insert is that of an event read whose row is inserted at the same place; without
      a successful insert there is none. */
  ghost predicate AcksMatchRows(sent: Effects, es: seq<Entry>, insertOk: bool) {
    && |sent.rowAcks| == (if insertOk then |sent.inserted| else 0)
    && forall k :: 0 <= k < |sent.inserted| ==>
         WasRead(es, sent.inserted[k], if insertOk then Some(sent.rowAcks[k]) else None)
  }

  /** An event of `es` has this row, and this id if one is given. */
  ghost predicate WasRead(es: seq<Entry>, row: string, id: Option<nat>) {
    exists e :: e in es && e.payload.Event? && e.payload.row == row && (id.Some? ==> e.id == id.value)
  }

  /** Every skip is poison, or a fresh copy of an event met before; poison is always skipped. */
  ghost predicate SkipsAreDue(sent: Effects, missed: seq<string>, claimed: seq<Entry>, unread: seq<Entry>) {
    && (forall e :: e in claimed + unread && e.payload.Poison? ==> e.id in sent.skipAcks)
    && (forall id :: id in sent.skipAcks ==>
          || (exists e :: e in claimed + unread && e.payload.Poison? && e.id == id)
          || (exists i :: 0 <= i < |unread| && unread[i].id == id && IsDropped(sent, missed, unread[..i], unread[i])))
  }

  /** No event is lost: each one read is inserted, or is a fresh copy of one met before, or is left unacknowledged
      because the rows are full. */
  ghost predicate EventsAreKept(sent: Effects, missed: seq<string>, claimed: seq<Entry>, unread: seq<Entry>,
                                insertOk: bool, rowsCap: nat)
  {
    && (forall e :: e in claimed && e.payload.Event? ==> IsInserted(sent, e, insertOk) || IsLeft(sent, e, rowsCap))
    && (forall i :: 0 <= i < |unread| && unread[i].payload.Event? ==>
          || IsInserted(sent, unread[i], insertOk)
          || IsDropped(sent, missed, unread[..i], unread[i])
          || IsLeft(sent, unread[i], rowsCap))
  }

  predicate LandsIn(b: Batch, e: Entry, k: nat) {
    k < |b.rows| && k < |b.validIds| && e.payload.Event? && b.rows[k] == e.payload.row && b.validIds[k] == e.id
  }

  ghost predicate HasLanded(b: Batch, e: Entry) {
    exists k :: LandsIn(b, e, k)
  }

  lemma KnownMore(missed: seq<string>, before: seq<Entry>, more: seq<Entry>, x: string)
    requires Known(missed, before, x)
    ensures Known(missed, before + more, x)
  {
    if x !in missed {
      var e :| e in before && e.payload.Event? && e.payload.eventId == x;
      assert e in before + more;
    }
  }

  lemma {:induction false} FoldKnows(m: Memory, es: seq<Entry>, limits: Limits, redelivery: bool, x: string)
    requires x in ClassifyAll(m, es, limits, redelivery).missed
    ensures Known(m.missed, es, x)
    ensures redelivery ==> x in m.missed
  {
    if es != [] {
      var front, last := es[..|es| - 1], es[|es| - 1];
      if x in ClassifyAll(m, front, limits, redelivery).missed {
        FoldKnows(m, front, limits, redelivery, x);
        KnownMore(m.missed, front, [last], x);
        assert front + [last] == es;
      } else {
        assert last in es && last.payload.eventId == x;
      }
    }
  }

  /** What one classification does to the entry classified. */
  lemma ClassifiedOnce(m: Memory, e: Entry, limits: Limits, redelivery: bool)
    requires |m.batch.rows| == |m.batch.validIds| && e.payload.Event?
    ensures var b := Classify(m, e, limits, redelivery).batch;
            || LandsIn(b, e, |m.batch.rows|)
            || (!redelivery && e.payload.eventId != "" && e.payload.eventId in m.missed && e.id in b.skipIds)
            || (e.id in b.held && |b.rows| >= limits.rows)
  {
  }

  /** What an entry has come to, it stays. */
  lemma ClassifyKeeps(m: Memory, e: Entry, limits: Limits, redelivery: bool)
    requires |m.batch.rows| == |m.batch.validIds|
    ensures var b := Classify(m, e, limits, redelivery).batch;
            && m.batch.rows <= b.rows && m.batch.validIds <= b.validIds && |b.rows| == |b.validIds|
            && m.batch.skipIds <= b.skipIds && m.batch.held <= b.held
  {
  }

  lemma {:induction false} FoldAccounts(m: Memory, es: seq<Entry>, limits: Limits, redelivery: bool, i: nat)
    requires |m.batch.rows| == |m.batch.validIds| && i < |es|
    ensures var b := ClassifyAll(m, es, limits, redelivery).batch;
            && |b.rows| == |b.validIds|
            && m.batch.rows <= b.rows && m.batch.validIds <= b.validIds
            && m.batch.skipIds <= b.skipIds && m.batch.held <= b.held
            && (es[i].payload.Event? ==>
                 || HasLanded(b, es[i])
                 || (!redelivery && es[i].payload.eventId != "" && Known(m.missed, es[..i], es[i].payload.eventId)
                     && es[i].id in b.skipIds)
                 || (es[i].id in b.held && |b.rows| >= limits.rows))
  {
    hide Classify;
    var n := |es| - 1;
    var front, last := es[..n], es[n];
    var before := ClassifyAll(m, front, limits, redelivery);
    if n > 0 {
      FoldAccounts(m, front, limits, redelivery, if i < n then i else 0);
    }
    ClassifyKeeps(before, last, limits, redelivery);
    if i < n {
      assert front[..i] == es[..i];
      if k :| LandsIn(before.batch, es[i], k) {
        assert LandsIn(ClassifyAll(m, es, limits, redelivery).batch, es[i], k);
      }
    } else if last.payload.Event? {
      ClassifiedOnce(before, last, limits, redelivery);
      if last.payload.eventId in before.missed {
        FoldKnows(m, front, limits, redelivery, last.payload.eventId);
      }
    }
  }

  /** Entry `i` is a reason to skip `id`: poison, or a fresh copy of an event met before. */
  ghost predicate IsSkip(missed: seq<string>, es: seq<Entry>, redelivery: bool, id: nat, i: nat) {
    && i < |es| && es[i].id == id
    && (es[i].payload.Poison?
        || (!redelivery && es[i].payload.eventId != "" && Known(missed, es[..i], es[i].payload.eventId)))
  }

  lemma {:induction false} FoldSkipsAreDue(m: Memory, es: seq<Entry>, limits: Limits, redelivery: bool, id: nat)
      returns (i: nat)
    requires id in ClassifyAll(m, es, limits, redelivery).batch.skipIds && id !in m.batch.skipIds
    ensures IsSkip(m.missed, es, redelivery, id, i)
  {
    var n := |es| - 1;
    var front, last := es[..n], es[n];
    var before := ClassifyAll(m, front, limits, redelivery);
    if id in before.batch.skipIds {
      i := FoldSkipsAreDue(m, front, limits, redelivery, id);
      assert front[..i] == es[..i];
    } else {
      i := n;
      if last.payload.Event? {
        FoldKnows(m, front, limits, redelivery, last.payload.eventId);
      }
    }
  }

  lemma {:induction false} FoldRowBound(m: Memory, es: seq<Entry>, limits: Limits, redelivery: bool)
    requires |m.batch.rows| <= limits.rows
    ensures |ClassifyAll(m, es, limits, redelivery).batch.rows| <= limits.rows
  {
    if es != [] {
      FoldRowBound(m, es[..|es| - 1], limits, redelivery);
    }
  }

  ghost predicate DistinctIds(es: seq<Entry>) {
    forall i, j :: 0 <= i < j < |es| ==> es[i].id != es[j].id
  }

  lemma {:induction false} CountOfDistinct(es: seq<Entry>, id: nat)
    requires DistinctIds(es)
    ensures multiset(Ids(es))[id] <= 1
    ensures id in Ids(es) <==> exists e :: e in es && e.id == id
  {
    if es == [] {
      assert Ids(es) == [];
    } else {
      var front, last := es[..|es| - 1], es[|es| - 1];
      CountOfDistinct(front, id);
      assert Ids(es) == Ids(front) + [last.id];
      MultisetOfConcat(Ids(front), [last.id]);
      assert forall e :: e in es <==> e in front || e == last;
    }
  }

  /** Under distinct ids, what is held is neither skipped nor acknowledged. */
  lemma HeldIsUntouched(b: Batch, es: seq<Entry>, id: nat)
    requires Taken(b) == multiset(Ids(es)) && DistinctIds(es) && id in b.held
    ensures id !in b.skipIds && id !in b.validIds
  {
    CountOfDistinct(es, id);
    assert multiset(b.held)[id] >= 1;
    assert Taken(b)[id] == multiset(b.validIds)[id] + multiset(b.skipIds)[id] + multiset(b.held)[id];
  }

  lemma LandedIsInserted(b: Batch, e: Entry, insertOk: bool)
    requires HasLanded(b, e)
    ensures IsInserted(CycleEffects(b, insertOk), e, insertOk)
  {
    var k :| LandsIn(b, e, k);
  }

  lemma {:induction false} ClaimedAreKept(b: Batch, missed: seq<string>, claimed: seq<Entry>, unread: seq<Entry>,
                                          limits: Limits, i: nat)
    requires b == CycleMemory(missed, claimed, unread, limits).batch
    requires i < |claimed| && claimed[i].payload.Event?
    ensures HasLanded(b, claimed[i]) || (claimed[i].id in b.held && |b.rows| >= limits.rows)
  {
    var start := Memory(missed, EMPTY_BATCH);
    var mid := ClassifyAll(start, claimed, limits, true);
    FoldAccounts(start, claimed, limits, true, i);
    if unread != [] {
      FoldAccounts(mid, unread, limits, false, 0);
    }
    if k :| LandsIn(mid.batch, claimed[i], k) {
      assert LandsIn(b, claimed[i], k);
    }
  }

  lemma UnreadAreKept(b: Batch, missed: seq<string>, claimed: seq<Entry>, unread: seq<Entry>, limits: Limits, i: nat)
    requires b == CycleMemory(missed, claimed, unread, limits).batch
    requires i < |unread| && unread[i].payload.Event?
    ensures var x := unread[i].payload.eventId;
            || HasLanded(b, unread[i])
            || (x != "" && Known(missed, unread[..i], x) && unread[i].id in b.skipIds)
            || (unread[i].id in b.held && |b.rows| >= limits.rows)
  {
    var start := Memory(missed, EMPTY_BATCH);
    var mid := ClassifyAll(start, claimed, limits, true);
    if claimed != [] {
      FoldAccounts(start, claimed, limits, true, 0);
    }
    FoldAccounts(mid, unread, limits, false, i);
    var x := unread[i].payload.eventId;
    if x in mid.missed {
      FoldKnows(start, claimed, limits, true, x);
    }
  }

  lemma CycleKeepsEvents(missed: seq<string>, claimed: seq<Entry>, unread: seq<Entry>, limits: Limits, insertOk: bool)
    requires DistinctIds(claimed + unread)
    ensures var sent := CycleEffects(CycleMemory(missed, claimed, unread, limits).batch, insertOk);
            EventsAreKept(sent, missed, claimed, unread, insertOk, limits.rows)
  {
    var b := CycleMemory(missed, claimed, unread, limits).batch;
    var sent := CycleEffects(b, insertOk);
    CycleTakesAll(missed, claimed, unread, limits);
    CycleRowBound(missed, claimed, unread, limits);
    hide CycleMemory, Taken, Known, HasLanded, IsInserted, DistinctIds;
    forall e | e in claimed && e.payload.Event?
      ensures IsInserted(sent, e, insertOk) || IsLeft(sent, e, limits.rows)
    {
      var i :| 0 <= i < |claimed| && claimed[i] == e;
      ClaimedAreKept(b, missed, claimed, unread, limits, i);
      KeptIsSent(b, claimed + unread, e, limits.rows, insertOk);
    }
    forall i | 0 <= i < |unread| && unread[i].payload.Event?
      ensures || IsInserted(sent, unread[i], insertOk)
              || IsDropped(sent, missed, unread[..i], unread[i])
              || IsLeft(sent, unread[i], limits.rows)
    {
      UnreadAreKept(b, missed, claimed, unread, limits, i);
      KeptIsSent(b, claimed + unread, unread[i], limits.rows, insertOk);
    }
  }

  lemma KeptIsSent(b: Batch, es: seq<Entry>, e: Entry, rowsCap: nat, insertOk: bool)
    requires Taken(b) == multiset(Ids(es)) && DistinctIds(es) && |b.rows| <= rowsCap
    ensures HasLanded(b, e) ==> IsInserted(CycleEffects(b, insertOk), e, insertOk)
    ensures e.id in b.held && |b.rows| >= rowsCap ==> IsLeft(CycleEffects(b, insertOk), e, rowsCap)
  {
    hide Taken, DistinctIds, HasLanded, IsInserted;
    if HasLanded(b, e) {
      LandedIsInserted(b, e, insertOk);
    }
    if e.id in b.held {
      HeldIsUntouched(b, es, e.id);
    }
  }

  lemma CycleRowBound(missed: seq<string>, claimed: seq<Entry>, unread: seq<Entry>, limits: Limits)
    ensures |CycleMemory(missed, claimed, unread, limits).batch.rows| <= limits.rows
  {
    var start := Memory(missed, EMPTY_BATCH);
    FoldRowBound(start, claimed, limits, true);
    FoldRowBound(ClassifyAll(start, claimed, limits, true), unread, limits, false);
  }

  lemma CycleSkipsAreDue(missed: seq<string>, claimed: seq<Entry>, unread: seq<Entry>, limits: Limits, insertOk: bool)
    ensures var sent := CycleEffects(CycleMemory(missed, claimed, unread, limits).batch, insertOk);
            SkipsAreDue(sent, missed, claimed, unread)
  {
    var start := Memory(missed, EMPTY_BATCH);
    var mid := ClassifyAll(start, claimed, limits, true);
    var b := CycleMemory(missed, claimed, unread, limits).batch;
    var sent := CycleEffects(b, insertOk);
    CycleSkips(missed, claimed, unread, limits);
    forall id | id in sent.skipAcks
      ensures || (exists e :: e in claimed + unread && e.payload.Poison? && e.id == id)
              || (exists i :: && 0 <= i < |unread| && unread[i].id == id
                              && IsDropped(sent, missed, unread[..i], unread[i]))
    {
      if id in mid.batch.skipIds {
        var i := FoldSkipsAreDue(start, claimed, limits, true, id);
        assert claimed[i] in claimed + unread;
      } else {
        var i := FoldSkipsAreDue(mid, unread, limits, false, id);
        assert unread[i] in claimed + unread;
        if unread[i].payload.Event? {
          var x := unread[i].payload.eventId;
          if x in mid.missed {
            FoldKnows(start, claimed, limits, true, x);
          }
          assert IsDropped(sent, missed, unread[..i], unread[i]);
        }
      }
    }
  }

  lemma CycleAcksMatch(missed: seq<string>, claimed: seq<Entry>, unread: seq<Entry>, limits: Limits, insertOk: bool)
    ensures var sent := CycleEffects(CycleMemory(missed, claimed, unread, limits).batch, insertOk);
            AcksMatchRows(sent, claimed + unread, insertOk)
  {
    var start := Memory(missed, EMPTY_BATCH);
    FoldAligns(start, [], claimed, limits, true);
    assert [] + claimed == claimed;
    FoldAligns(ClassifyAll(start, claimed, limits, true), claimed, unread, limits, false);
    AlignedAcks(CycleMemory(missed, claimed, unread, limits).batch, claimed + unread, insertOk);
  }

  lemma AlignedAcks(b: Batch, es: seq<Entry>, insertOk: bool)
    requires Aligned(b, es)
    ensures AcksMatchRows(CycleEffects(b, insertOk), es, insertOk)
  {
    forall k | 0 <= k < |b.rows|
      ensures WasRead(es, b.rows[k], Some(b.validIds[k])) && WasRead(es, b.rows[k], None)
    {
      assert ComesFrom(b.validIds[k], b.rows[k], es);
      var e :| e in es && LandsAs(e, b.validIds[k], b.rows[k]);
    }
  }

  class Buffers {
    var rows: seq<string>
    var validIds: seq<nat>
    var skipIds: seq<nat>
    ghost var held: seq<nat>

    ghost function View(): Batch
      reads this
    {
      Batch(rows, validIds, skipIds, held)
    }

    constructor ()
      ensures View() == EMPTY_BATCH
    {
      rows, validIds, skipIds, held := [], [], [], [];
    }
  }

  class ChSinkWorker {
    const seen: SeenIds
    const batchSize: nat

    constructor (seen: SeenIds, batchSize: nat)
      ensures this.seen == seen && this.batchSize == batchSize
    {
      this.seen, this.batchSize := seen, batchSize;
    }

    static method ClassifyEntry(seen: SeenIds, e: Entry, buf: Buffers, rowsCap: nat, redelivery: bool)
      requires seen.Valid()
      modifies seen, buf
      ensures seen.Valid()
      ensures Memory(seen.missed, buf.View())
           == Classify(old(Memory(seen.missed, buf.View())), e, Limits(seen.cap, rowsCap), redelivery)
    {
      match e.payload
      case Poison =>
        buf.skipIds := buf.skipIds + [e.id];
      case Event(eventId, row) =>
        var duplicate := false;
        if !redelivery && eventId != "" {
          duplicate := seen.CheckAndInsert(eventId);
        }
        if duplicate {
          buf.skipIds := buf.skipIds + [e.id];
        } else if |buf.rows| < rowsCap {
          buf.rows := buf.rows + [row];
          buf.validIds := buf.validIds + [e.id];
        } else {
          buf.held := buf.held + [e.id];
        }
    }

    static method ClassifyReply(seen: SeenIds, es: seq<Entry>, buf: Buffers, rowsCap: nat, redelivery: bool)
      requires seen.Valid()
      modifies seen, buf
      ensures seen.Valid()
      ensures Memory(seen.missed, buf.View())
           == ClassifyAll(old(Memory(seen.missed, buf.View())), es, Limits(seen.cap, rowsCap), redelivery)
    {
      ghost var start := Memory(seen.missed, buf.View());
      for i := 0 to |es|
        invariant seen.Valid()
        invariant Memory(seen.missed, buf.View()) == ClassifyAll(start, es[..i], Limits(seen.cap, rowsCap), redelivery)
      {
        assert es[..i + 1][..i] == es[..i];
        ClassifyEntry(seen, es[i], buf, rowsCap, redelivery);
      }
      assert es[..|es|] == es;
    }

    /** `claimed` and `unread` are Redis's replies (empty when the command failed); `insertOk` is the warehouse's
        answer.  The contract fixes all three commands the cycle sends and the window it leaves behind. */
    method PumpOnce(claimed: seq<Entry>, unread: seq<Entry>, insertOk: bool) returns (sent: Effects, landed: nat)
      requires seen.Valid()
      modifies seen
      ensures seen.Valid()
      ensures var m := CycleMemory(old(seen.missed), claimed, unread, Limits(seen.cap, RowsCap(batchSize)));
              && seen.missed == m.missed
              && sent == CycleEffects(m.batch, insertOk)
              && landed == (if insertOk then |m.batch.rows| else 0)
      ensures AcksMatchRows(sent, claimed + unread, insertOk) && landed == |sent.rowAcks|
      ensures SkipsAreDue(sent, old(seen.missed), claimed, unread)
      ensures |sent.inserted| <= (if batchSize == 0 then 1 else 2 * batchSize)
      ensures DistinctIds(claimed + unread) ==>
                EventsAreKept(sent, old(seen.missed), claimed, unread, insertOk, RowsCap(batchSize))
    {
      ghost var limits := Limits(seen.cap, RowsCap(batchSize));
      ghost var missed := seen.missed;
      CycleAcksMatch(missed, claimed, unread, limits, insertOk);
      CycleSkipsAreDue(missed, claimed, unread, limits, insertOk);
      CycleRowBound(missed, claimed, unread, limits);
      if DistinctIds(claimed + unread) {
        CycleKeepsEvents(missed, claimed, unread, limits, insertOk);
      }
      hide AcksMatchRows, SkipsAreDue, EventsAreKept, DistinctIds, ClassifyAll;
      var buf := new Buffers();
      var rowsCap := RowsCap(batchSize);
      ClassifyReply(seen, claimed, buf, rowsCap, true);
      ClassifyReply(seen, unread, buf, rowsCap, false);
      var skipAcks := buf.skipIds;
      if buf.rows == [] {
        return Effects(skipAcks, [], []), 0;
      }
      if insertOk {
        return Effects(skipAcks, buf.rows, buf.validIds), |buf.rows|;
      }
      return Effects(skipAcks, buf.rows, []), 0;
    }
  }
}
