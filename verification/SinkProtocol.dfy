/** The sink as a step system: one stream, one consumer group, any number of workers, one warehouse.  Entries are
    numbered by their position in the stream; those below `delivered` have been handed out by the group. */
module SinkProtocol {
  import opened SeenWindow
  import opened SinkCycle

  datatype Phase = Reclaiming | Reading | Skipping | Inserting | Acking

  datatype Worker = Worker(memory: Memory, phase: Phase)

  const NEW_WORKER := Worker(Memory([], EMPTY_BATCH), Reclaiming)

  /** A warehouse row together with the stream entry it was made from. */
  datatype Landed = Landed(id: nat, row: string)

  /** `pending` maps each delivered, unacknowledged entry to its owner. */
  datatype State = State(
    stream: seq<Payload>,
    delivered: nat,
    pending: map<nat, nat>,
    warehouse: seq<Landed>,
    workers: map<nat, Worker>)

  const INITIAL := State([], 0, map[], [], map[])

  /** The steps.  A reply carrying several entries is several consecutive Reclaim or Read steps; `arrives` is false
      when the command took effect in Redis but its reply was lost, `applied` is false when an ack was lost, and
      a failed insert may still have stored some of its rows. */
  datatype Step =
    | Produce(payload: Payload)
    | Reclaim(worker: nat, id: nat, arrives: bool)
    | StartReading(worker: nat)
    | Read(worker: nat, arrives: bool)
    | StopReading(worker: nat)
    | AckSkips(worker: nat, applied: bool)
    | Insert(worker: nat, ok: bool, stored: seq<Landed>)
    | AckRows(worker: nat, applied: bool)
    | Crash(worker: nat)
    | DeleteConsumer(worker: nat)

  function WorkerOf(s: State, w: nat): Worker {
    if w in s.workers then s.workers[w] else NEW_WORKER
  }

  function RowsOf(b: Batch): seq<Landed>
    requires |b.rows| == |b.validIds|
  {
    seq(|b.rows|, k requires 0 <= k < |b.rows| => Landed(b.validIds[k], b.rows[k]))
  }

  predicate Enabled(s: State, step: Step) {
    match step
    case Produce(_) => true
    case Reclaim(w, id, _) => WorkerOf(s, w).phase == Reclaiming && id in s.pending && id < |s.stream|
    case StartReading(w) => WorkerOf(s, w).phase == Reclaiming
    case Read(w, _) => WorkerOf(s, w).phase == Reading && s.delivered < |s.stream|
    case StopReading(w) => WorkerOf(s, w).phase == Reading
    case AckSkips(w, _) => WorkerOf(s, w).phase == Skipping
    case Insert(w, ok, stored) =>
      var b := WorkerOf(s, w).memory.batch;
      && WorkerOf(s, w).phase == Inserting
      && |b.rows| == |b.validIds|
      && (if ok then stored == RowsOf(b) else forall r :: r in stored ==> r in RowsOf(b))
    case AckRows(w, _) => WorkerOf(s, w).phase == Acking
    case Crash(_) => true
    case DeleteConsumer(_) => true
  }

  /** Worker `w` classifies entry `id`. */
  function Take(s: State, w: nat, id: nat, limits: Limits, redelivery: bool): State
    requires id < |s.stream|
  {
    var me := WorkerOf(s, w);
    var m := Classify(me.memory, Entry(id, s.stream[id]), limits, redelivery);
    s.(workers := s.workers[w := me.(memory := m)])
  }

  function Goto(s: State, w: nat, phase: Phase): State {
    s.(workers := s.workers[w := WorkerOf(s, w).(phase := phase)])
  }

  /** The cycle is over: empty buffers, same window. */
  function EndCycle(s: State, w: nat): State {
    s.(workers := s.workers[w := Worker(Memory(WorkerOf(s, w).memory.missed, EMPTY_BATCH), Reclaiming)])
  }

  function Forget(pending: map<nat, nat>, ids: seq<nat>): map<nat, nat> {
    map id | id in pending && id !in ids :: pending[id]
  }

  function OwnedBy(s: State, w: nat): set<nat> {
    set id | id in s.pending && s.pending[id] == w
  }

  function Apply(s: State, step: Step, limits: Limits): State
    requires Enabled(s, step)
  {
    match step
    case Produce(payload) => s.(stream := s.stream + [payload])
    case Reclaim(w, id, arrives) =>
      var s' := s.(pending := s.pending[id := w]);
      if arrives then Take(s', w, id, limits, true) else s'
    case StartReading(w) => Goto(s, w, Reading)
    case Read(w, arrives) =>
      var s' := s.(delivered := s.delivered + 1, pending := s.pending[s.delivered := w]);
      if arrives then Take(s', w, s.delivered, limits, false) else s'
    case StopReading(w) => Goto(s, w, Skipping)
    case AckSkips(w, applied) =>
      var b := WorkerOf(s, w).memory.batch;
      var s' := if applied then s.(pending := Forget(s.pending, b.skipIds)) else s;
      if b.rows == [] then EndCycle(s', w) else Goto(s', w, Inserting)
    case Insert(w, ok, stored) =>
      var s' := s.(warehouse := s.warehouse + stored);
      if ok then Goto(s', w, Acking) else EndCycle(s', w)
    case AckRows(w, applied) =>
      var b := WorkerOf(s, w).memory.batch;
      EndCycle(if applied then s.(pending := Forget(s.pending, b.validIds)) else s, w)
    case Crash(w) => s.(workers := s.workers - {w})
    case DeleteConsumer(w) => s.(pending := map id | id in s.pending && s.pending[id] != w :: s.pending[id])
  }

  /** What may go wrong at a step: a reply is lost after the group has handed the entry over, an acknowledgement is
      lost, a failed insert has stored some rows, a worker dies with its window. */
  lemma FaultEffects(s: State, step: Step, limits: Limits)
    requires Enabled(s, step)
    ensures var t := Apply(s, step, limits);
            match step
            case Reclaim(w, id, arrives) =>
              && t.stream == s.stream && t.delivered == s.delivered && t.warehouse == s.warehouse
              && t.pending == s.pending[id := w]
              && (!arrives ==> t.workers == s.workers)
            case Read(w, arrives) =>
              && t.stream == s.stream && t.delivered == s.delivered + 1 && t.warehouse == s.warehouse
              && t.pending == s.pending[s.delivered := w]
              && (!arrives ==> t.workers == s.workers)
            case AckSkips(w, applied) =>
              && t.warehouse == s.warehouse && t.delivered == s.delivered && (!applied ==> t.pending == s.pending)
              && (forall id :: id in s.pending && id !in t.pending ==> id in WorkerOf(s, w).memory.batch.skipIds)
              && t.workers[w].memory.missed == WorkerOf(s, w).memory.missed
            case Insert(w, ok, stored) =>
              && t.warehouse == s.warehouse + stored && t.pending == s.pending && t.delivered == s.delivered
              && t.workers[w].memory.missed == WorkerOf(s, w).memory.missed
              && (!ok ==> t.workers[w].memory.batch == EMPTY_BATCH && t.workers[w].phase == Reclaiming)
            case AckRows(w, applied) =>
              && t.warehouse == s.warehouse && t.delivered == s.delivered && (!applied ==> t.pending == s.pending)
              && (forall id :: id in s.pending && id !in t.pending ==> id in WorkerOf(s, w).memory.batch.validIds)
            case Crash(w) =>
              && t.(workers := s.workers) == s && t.workers == map v | v in s.workers && v != w :: s.workers[v]
            case _ => true
  {
    hide Classify;
  }

  // ---------------------------------------------------------------- what no run may break

  predicate InWarehouse(s: State, id: nat) {
    exists k :: 0 <= k < |s.warehouse| && s.warehouse[k].id == id
  }

  /** `other` carries the event of entry `id`: it is the same entry, or has the same non-empty event id. */
  predicate SameEvent(s: State, id: nat, other: nat)
    requires id < |s.stream| && other < |s.stream|
  {
    && s.stream[id].Event? && s.stream[other].Event?
    && (id == other || (s.stream[id].eventId != "" && s.stream[id].eventId == s.stream[other].eventId))
  }

  /** The event of `id` is in the warehouse, or is carried by an entry that is still to be acknowledged. */
  ghost predicate Covered(s: State, id: nat)
    requires id < |s.stream|
  {
    exists other: nat :: other < |s.stream| && SameEvent(s, id, other) && (other in s.pending || InWarehouse(s, other))
  }

  ghost predicate NoEventLost(s: State) {
    && s.delivered <= |s.stream|
    && forall id: nat :: id < s.delivered && s.stream[id].Event? ==> Covered(s, id)
  }

  // ---------------------------------------------------------------- the invariant

  /** The worker has yet to acknowledge the skips of its cycle. */
  predicate HoldsSkips(w: Worker) {
    w.phase == Reclaiming || w.phase == Reading || w.phase == Skipping
  }

  /** Some worker is about to acknowledge entry `id` without landing it. */
  ghost predicate Marked(s: State, id: nat) {
    exists w :: w in s.workers && HoldsSkips(s.workers[w]) && id in s.workers[w].memory.batch.skipIds
  }

  /** Entry `f` carries its event for good: it has landed, or will stay pending until it has. */
  ghost predicate Carries(s: State, f: nat) {
    && f < s.delivered <= |s.stream| && s.stream[f].Event?
    && (InWarehouse(s, f) || (f in s.pending && !Marked(s, f)))
  }

  predicate CarriesId(s: State, x: string, f: nat) {
    f < |s.stream| && s.stream[f].Event? && s.stream[f].eventId == x
  }

  /** Some entry carries an event with this id. */
  ghost predicate Vouched(s: State, x: string) {
    exists f: nat :: Carries(s, f) && CarriesId(s, x, f)
  }

  /** Some entry carries the event of `id`. */
  ghost predicate Safe(s: State, id: nat)
    requires id < |s.stream|
  {
    exists f: nat :: f < |s.stream| && Carries(s, f) && SameEvent(s, id, f)
  }

  ghost predicate GoodBatch(s: State, b: Batch)
    requires s.delivered <= |s.stream|
  {
    && |b.rows| == |b.validIds|
    && (forall k :: 0 <= k < |b.validIds| ==>
          && b.validIds[k] < s.delivered
          && s.stream[b.validIds[k]].Event?
          && s.stream[b.validIds[k]].row == b.rows[k])
    && (forall id :: id in b.skipIds ==> id < s.delivered)
  }

  /** A worker's buffers hold delivered entries, its window only ids of events that are carried by some entry. */
  ghost predicate GoodWorker(s: State, w: Worker)
    requires s.delivered <= |s.stream|
  {
    && GoodBatch(s, w.memory.batch)
    && (forall x :: x in w.memory.missed ==> Vouched(s, x))
    && (w.phase == Acking ==> forall id :: id in w.memory.batch.validIds ==> InWarehouse(s, id))
  }

  /** The row is that of a delivered event. */
  predicate GoodRow(s: State, r: Landed)
    requires s.delivered <= |s.stream|
  {
    r.id < s.delivered && s.stream[r.id].Event? && s.stream[r.id].row == r.row
  }

  ghost predicate Inv(s: State) {
    && s.delivered <= |s.stream|
    && (forall id :: id in s.pending ==> id < s.delivered)
    && (forall k :: 0 <= k < |s.warehouse| ==> GoodRow(s, s.warehouse[k]))
    && (forall id: nat :: id < s.delivered && s.stream[id].Event? ==> Safe(s, id))
    && (forall w :: w in s.workers ==> GoodWorker(s, s.workers[w]))
  }

  lemma InvMeansNoEventLost(s: State)
    requires Inv(s)
    ensures NoEventLost(s)
  {
    forall id: nat | id < s.delivered && s.stream[id].Event?
      ensures Covered(s, id)
    {
      var f: nat :| f < |s.stream| && Carries(s, f) && SameEvent(s, id, f);
    }
  }

  // ---------------------------------------------------------------- what a step must keep

  /** `t` follows `s`, and what carries an event in `s` does so in `t`. */
  ghost predicate Keeps(s: State, t: State) {
    && s.delivered <= t.delivered
    && s.delivered <= |s.stream| && t.delivered <= |t.stream|
    && s.stream <= t.stream && s.warehouse <= t.warehouse
    && forall f :: Carries(s, f) ==> Carries(t, f)
  }

  lemma LandedStays(s: State, t: State, id: nat)
    requires s.warehouse <= t.warehouse && InWarehouse(s, id)
    ensures InWarehouse(t, id)
  {
    var k :| 0 <= k < |s.warehouse| && s.warehouse[k].id == id;
    assert t.warehouse[k].id == id;
  }

  /** A step keeps all carriers if no event becomes marked, and none leaves `pending` but landed or marked ones. */
  lemma KeepsIf(s: State, t: State)
    requires s.delivered <= t.delivered && s.delivered <= |s.stream| && t.delivered <= |t.stream|
    requires s.stream <= t.stream && s.warehouse <= t.warehouse
    requires forall f :: f in s.pending && f < s.delivered && s.stream[f].Event? ==>
               f in t.pending || InWarehouse(t, f) || Marked(s, f)
    requires forall f: nat :: f < s.delivered && s.stream[f].Event? && Marked(t, f) ==> Marked(s, f)
    ensures Keeps(s, t)
  {
    hide Marked;
    forall f | Carries(s, f)
      ensures Carries(t, f)
    {
      if InWarehouse(s, f) {
        LandedStays(s, t, f);
      }
    }
  }

  lemma VouchedStays(s: State, t: State, x: string)
    requires Keeps(s, t) && Vouched(s, x)
    ensures Vouched(t, x)
  {
    hide Carries;
    var f: nat :| Carries(s, f) && CarriesId(s, x, f);
    CarriedIsDelivered(s, f);
    assert Carries(t, f) && CarriesId(t, x, f);
  }

  lemma CarriedIsDelivered(s: State, f: nat)
    requires Carries(s, f)
    ensures f < s.delivered <= |s.stream| && s.stream[f].Event?
  {
  }

  lemma SafeStays(s: State, t: State, id: nat)
    requires Keeps(s, t) && id < s.delivered && Safe(s, id)
    ensures Safe(t, id)
  {
    hide Carries;
    var f: nat :| f < |s.stream| && Carries(s, f) && SameEvent(s, id, f);
    CarriedIsDelivered(s, f);
    assert Carries(t, f) && SameEvent(t, id, f);
  }

  /** Everything the invariant says about a worker survives a step that keeps the carriers. */
  lemma WorkerStaysGood(s: State, t: State, w: Worker)
    requires Keeps(s, t) && GoodWorker(s, w)
    ensures GoodWorker(t, w)
  {
    hide Carries, Vouched, InWarehouse;
    forall x | x in w.memory.missed
      ensures Vouched(t, x)
    {
      VouchedStays(s, t, x);
    }
    if w.phase == Acking {
      forall id | id in w.memory.batch.validIds
        ensures InWarehouse(t, id)
      {
        LandedStays(s, t, id);
      }
    }
  }

  /** A step that delivers nothing and inserts nothing keeps the invariant if it keeps the carriers and leaves good
      workers. */
  lemma GroupStaysGood(s: State, t: State)
    requires Inv(s) && Keeps(s, t)
    requires t.delivered == s.delivered && t.warehouse == s.warehouse
    requires t.pending.Keys <= s.pending.Keys
    requires forall w :: w in t.workers ==>
      (w in s.workers && t.workers[w] == s.workers[w]) || GoodWorker(t, t.workers[w])
    ensures Inv(t)
  {
    hide Carries, Safe, GoodWorker;
    forall id: nat | id < t.delivered && t.stream[id].Event?
      ensures Safe(t, id)
    {
      SafeStays(s, t, id);
    }
    forall w | w in t.workers
      ensures GoodWorker(t, t.workers[w])
    {
      if w in s.workers && t.workers[w] == s.workers[w] {
        WorkerStaysGood(s, t, s.workers[w]);
      }
    }
  }

  lemma NewWorkerIsGood(s: State)
    requires s.delivered <= |s.stream|
    ensures GoodWorker(s, NEW_WORKER)
  {
  }

  lemma WorkerOfIsGood(s: State, w: nat)
    requires Inv(s)
    ensures GoodWorker(s, WorkerOf(s, w))
  {
    NewWorkerIsGood(s);
    hide GoodWorker, Safe;
  }

  lemma SkipsMark(s: State, w: nat, id: nat)
    requires HoldsSkips(WorkerOf(s, w)) && id in WorkerOf(s, w).memory.batch.skipIds
    ensures Marked(s, id)
  {
  }

  /** When only worker `w` changes, an entry becomes marked only by entering its skips. */
  lemma MarkedOnlyBy(s: State, t: State, w: nat, id: nat)
    requires forall v :: v in t.workers && v != w ==> v in s.workers && t.workers[v] == s.workers[v]
    requires w in t.workers && HoldsSkips(t.workers[w]) && id in t.workers[w].memory.batch.skipIds ==> Marked(s, id)
    requires Marked(t, id)
    ensures Marked(s, id)
  {
  }

  // ---------------------------------------------------------------- one lemma per step

  lemma LandingStaysGood(s: State, b: Batch, id: nat, rowsCap: nat)
    requires s.delivered <= |s.stream| && GoodBatch(s, b)
    requires id < s.delivered && s.stream[id].Event?
    ensures GoodBatch(s, Land(b, id, s.stream[id].row, rowsCap))
  {
  }

  lemma SkippingStaysGood(s: State, b: Batch, id: nat)
    requires s.delivered <= |s.stream| && GoodBatch(s, b)
    requires id < s.delivered
    ensures GoodBatch(s, b.(skipIds := b.skipIds + [id]))
  {
  }

  lemma ReclaimMarksNoEvent(s: State, w: nat, id: nat, arrives: bool, limits: Limits, f: nat)
    requires Enabled(s, Reclaim(w, id, arrives)) && f < |s.stream| && s.stream[f].Event?
    requires Marked(Apply(s, Reclaim(w, id, arrives), limits), f)
    ensures Marked(s, f)
  {
    var t := Apply(s, Reclaim(w, id, arrives), limits);
    hide Classify, Marked;
    if w in t.workers && f in t.workers[w].memory.batch.skipIds && HoldsSkips(t.workers[w]) {
      if arrives {
        NewSkips(WorkerOf(s, w).memory, Entry(id, s.stream[id]), limits, true, f);
      }
      SkipsMark(s, w, f);
    }
    MarkedOnlyBy(s, t, w, f);
  }

  lemma ReclaimKeeps(s: State, w: nat, id: nat, arrives: bool, limits: Limits)
    requires Inv(s) && Enabled(s, Reclaim(w, id, arrives))
    ensures Keeps(s, Apply(s, Reclaim(w, id, arrives), limits))
  {
    var t := Apply(s, Reclaim(w, id, arrives), limits);
    hide Keeps, Safe, GoodWorker, InWarehouse, Classify, Marked;
    forall f: nat | f < s.delivered && s.stream[f].Event? && Marked(t, f)
      ensures Marked(s, f)
    {
      ReclaimMarksNoEvent(s, w, id, arrives, limits, f);
    }
    KeepsIf(s, t);
  }

  lemma LandSkips(b: Batch, id: nat, rowsCap: nat)
    ensures forall row :: Land(b, id, row, rowsCap).skipIds == b.skipIds
  {
  }

  /** What a classification can add to the skips. */
  lemma NewSkips(m: Memory, e: Entry, limits: Limits, redelivery: bool, f: nat)
    requires f in Classify(m, e, limits, redelivery).batch.skipIds
    ensures f in m.batch.skipIds || (f == e.id && (e.payload.Poison? || !redelivery))
  {
    hide Land;
    LandSkips(m.batch, e.id, limits.rows);
  }

  /** A worker stays good when it classifies a delivered entry, if a fresh event it takes in is vouched for. */
  lemma ClassifierStaysGood(s: State, me: Worker, id: nat, limits: Limits, redelivery: bool)
    requires id < s.delivered <= |s.stream| && GoodWorker(s, me) && me.phase != Acking
    requires !redelivery && s.stream[id].Event? && s.stream[id].eventId != "" ==> Vouched(s, s.stream[id].eventId)
    ensures GoodWorker(s, me.(memory := Classify(me.memory, Entry(id, s.stream[id]), limits, redelivery)))
  {
    hide GoodBatch, Land, Vouched, InWarehouse, IsDuplicate;
    if s.stream[id].Event? {
      LandingStaysGood(s, me.memory.batch, id, limits.rows);
    }
    SkippingStaysGood(s, me.memory.batch, id);
  }

  lemma ReclaimerStaysGood(s: State, w: nat, id: nat, limits: Limits)
    requires Inv(s) && Enabled(s, Reclaim(w, id, true))
    ensures var t := Apply(s, Reclaim(w, id, true), limits); w in t.workers && GoodWorker(t, t.workers[w])
  {
    var t, me := Apply(s, Reclaim(w, id, true), limits), WorkerOf(s, w);
    assert id < t.delivered <= |t.stream| && t.stream == s.stream;
    hide GoodWorker, Classify, Keeps, Safe;
    ReclaimKeeps(s, w, id, true, limits);
    WorkerOfIsGood(s, w);
    WorkerStaysGood(s, t, me);
    ClassifierStaysGood(t, me, id, limits, true);
  }

  lemma ReclaimShape(s: State, w: nat, id: nat, arrives: bool, limits: Limits)
    requires Enabled(s, Reclaim(w, id, arrives))
    ensures var t := Apply(s, Reclaim(w, id, arrives), limits);
            && t.delivered == s.delivered && t.warehouse == s.warehouse && t.pending.Keys <= s.pending.Keys
            && (forall v :: v in t.workers && v != w ==> v in s.workers && t.workers[v] == s.workers[v])
            && (!arrives ==> t.workers == s.workers)
  {
  }

  lemma ReclaimKeepsInv(s: State, w: nat, id: nat, arrives: bool, limits: Limits)
    requires Inv(s) && Enabled(s, Reclaim(w, id, arrives))
    ensures Inv(Apply(s, Reclaim(w, id, arrives), limits))
  {
    ReclaimShape(s, w, id, arrives, limits);
    hide Apply, Inv, GoodWorker, Keeps;
    ReclaimKeeps(s, w, id, arrives, limits);
    if arrives {
      ReclaimerStaysGood(s, w, id, limits);
    }
    GroupStaysGood(s, Apply(s, Reclaim(w, id, arrives), limits));
  }

  lemma ReadMarksNoOther(s: State, w: nat, arrives: bool, limits: Limits, f: nat)
    requires Enabled(s, Read(w, arrives)) && f < s.delivered
    requires Marked(Apply(s, Read(w, arrives), limits), f)
    ensures Marked(s, f)
  {
    var t := Apply(s, Read(w, arrives), limits);
    hide Classify, Marked;
    if w in t.workers && f in t.workers[w].memory.batch.skipIds && HoldsSkips(t.workers[w]) {
      if arrives {
        NewSkips(WorkerOf(s, w).memory, Entry(s.delivered, s.stream[s.delivered]), limits, false, f);
      }
      SkipsMark(s, w, f);
    }
    MarkedOnlyBy(s, t, w, f);
  }

  lemma ReadKeeps(s: State, w: nat, arrives: bool, limits: Limits)
    requires Inv(s) && Enabled(s, Read(w, arrives))
    ensures Keeps(s, Apply(s, Read(w, arrives), limits))
  {
    var t := Apply(s, Read(w, arrives), limits);
    hide Keeps, Safe, GoodWorker, InWarehouse, Classify, Marked;
    forall f: nat | f < s.delivered && s.stream[f].Event? && Marked(t, f)
      ensures Marked(s, f)
    {
      ReadMarksNoOther(s, w, arrives, limits, f);
    }
    KeepsIf(s, t);
  }

  lemma NotYetMarked(s: State, id: nat)
    requires Inv(s) && id >= s.delivered
    ensures !Marked(s, id)
  {
    hide Safe, Vouched, InWarehouse;
  }

  lemma SkippedIsSafe(s: State, t: State, x: string, id: nat)
    requires Keeps(s, t) && Vouched(s, x) && x != ""
    requires id < |t.stream| && CarriesId(t, x, id)
    ensures Vouched(t, x) && Safe(t, id)
  {
    hide Carries, Keeps;
    VouchedStays(s, t, x);
    var f: nat :| Carries(t, f) && CarriesId(t, x, f);
    CarriedIsDelivered(t, f);
    assert SameEvent(t, id, f);
  }

  lemma KeptCarries(s: State, w: nat, arrives: bool, limits: Limits)
    requires Inv(s) && Enabled(s, Read(w, arrives)) && s.stream[s.delivered].Event?
    requires arrives ==>
               !IsDuplicate(WorkerOf(s, w).memory.missed, limits.window, s.stream[s.delivered].eventId)
    ensures Carries(Apply(s, Read(w, arrives), limits), s.delivered)
  {
    var t, id := Apply(s, Read(w, arrives), limits), s.delivered;
    NotYetMarked(s, id);
    hide Safe, Vouched, GoodWorker, InWarehouse, Land, Marked;
    LandSkips(WorkerOf(s, w).memory.batch, id, limits.rows);
    if HoldsSkips(WorkerOf(s, w)) && id in WorkerOf(s, w).memory.batch.skipIds {
      SkipsMark(s, w, id);
      assert false;
    }
    if Marked(t, id) {
      MarkedOnlyBy(s, t, w, id);
      assert false;
    }
  }

  lemma ReadShape(s: State, w: nat, arrives: bool, limits: Limits)
    requires Enabled(s, Read(w, arrives))
    ensures var t := Apply(s, Read(w, arrives), limits);
            t.delivered == s.delivered + 1 <= |t.stream| && t.stream == s.stream && t.warehouse == s.warehouse
  {
  }

  /** A read either skips the new entry, whose event id is then already vouched for, or makes the new entry itself a
      carrier. */
  lemma ReadVouches(s: State, w: nat, arrives: bool, limits: Limits)
    requires Inv(s) && Enabled(s, Read(w, arrives)) && s.stream[s.delivered].Event?
    ensures var t := Apply(s, Read(w, arrives), limits);
            && t.delivered <= |t.stream|
            && Safe(t, s.delivered)
            && (s.stream[s.delivered].eventId != "" ==> Vouched(t, s.stream[s.delivered].eventId))
  {
    var t, id := Apply(s, Read(w, arrives), limits), s.delivered;
    var missed, x := WorkerOf(s, w).memory.missed, s.stream[s.delivered].eventId;
    ReadShape(s, w, arrives, limits);
    ReadKeeps(s, w, arrives, limits);
    WorkerOfIsGood(s, w);
    var skipped := arrives && IsDuplicate(missed, limits.window, x);
    assert skipped ==> x in missed && x != "";
    hide Apply, Carries, Inv, Keeps;
    if skipped {
      SkippedIsSafe(s, t, x, id);
    } else {
      KeptCarries(s, w, arrives, limits);
      assert CarriesId(t, x, id) && SameEvent(t, id, id);
    }
  }

  lemma ReaderStaysGood(s: State, w: nat, limits: Limits)
    requires Inv(s) && Enabled(s, Read(w, true))
    ensures GoodWorker(Apply(s, Read(w, true), limits), WorkerOf(Apply(s, Read(w, true), limits), w))
  {
    var t, me := Apply(s, Read(w, true), limits), WorkerOf(s, w);
    ReadShape(s, w, true, limits);
    hide GoodWorker, Vouched, Classify, Keeps, Safe;
    ReadKeeps(s, w, true, limits);
    WorkerOfIsGood(s, w);
    WorkerStaysGood(s, t, me);
    if s.stream[s.delivered].Event? {
      ReadVouches(s, w, true, limits);
    }
    ClassifierStaysGood(t, me, s.delivered, limits, false);
  }

  lemma WorkersStayGoodOverRead(s: State, w: nat, arrives: bool, limits: Limits)
    requires Inv(s) && Enabled(s, Read(w, arrives))
    ensures var t := Apply(s, Read(w, arrives), limits);
            t.delivered <= |t.stream| && forall v :: v in t.workers ==> GoodWorker(t, t.workers[v])
  {
    hide GoodWorker, Safe, Keeps, Classify;
    var t := Apply(s, Read(w, arrives), limits);
    ReadShape(s, w, arrives, limits);
    ReadKeeps(s, w, arrives, limits);
    forall v | v in t.workers
      ensures GoodWorker(t, t.workers[v])
    {
      if arrives && v == w {
        ReaderStaysGood(s, w, limits);
      } else {
        WorkerStaysGood(s, t, s.workers[v]);
      }
    }
  }

  lemma ReadKeepsInv(s: State, w: nat, arrives: bool, limits: Limits)
    requires Inv(s) && Enabled(s, Read(w, arrives))
    ensures Inv(Apply(s, Read(w, arrives), limits))
  {
    hide Classify, GoodWorker, Safe, Carries;
    var t := Apply(s, Read(w, arrives), limits);
    ReadShape(s, w, arrives, limits);
    ReadKeeps(s, w, arrives, limits);
    WorkersStayGoodOverRead(s, w, arrives, limits);
    if s.stream[s.delivered].Event? {
      ReadVouches(s, w, arrives, limits);
    }
    hide Keeps, GoodBatch;
    forall id: nat | id < t.delivered && t.stream[id].Event?
      ensures Safe(t, id)
    {
      if id < s.delivered {
        SafeStays(s, t, id);
      }
    }
  }

  /** The step takes worker `w`, and no other, to a later phase or the next cycle, marking nothing. */
  ghost predicate MovesOn(s: State, t: State, w: nat) {
    && t.stream == s.stream && t.delivered == s.delivered
    && w in t.workers
    && (forall v :: v in t.workers && v != w ==> v in s.workers && t.workers[v] == s.workers[v])
    && (HoldsSkips(t.workers[w]) && t.workers[w].memory.batch.skipIds != [] ==>
         HoldsSkips(WorkerOf(s, w)) && t.workers[w].memory == WorkerOf(s, w).memory)
  }

  lemma MovingMarksNothing(s: State, t: State, w: nat, f: nat)
    requires MovesOn(s, t, w) && Marked(t, f)
    ensures Marked(s, f)
  {
    hide HoldsSkips;
    if HoldsSkips(t.workers[w]) && f in t.workers[w].memory.batch.skipIds {
      SkipsMark(s, w, f);
    }
    hide Marked;
    MarkedOnlyBy(s, t, w, f);
  }

  /** A move that drops only landed or marked entries from `pending` keeps the carriers. */
  lemma MoveKeeps(s: State, t: State, w: nat)
    requires MovesOn(s, t, w) && s.delivered <= |s.stream| && s.warehouse <= t.warehouse
    requires forall f :: f in s.pending && f < s.delivered && s.stream[f].Event? ==>
               f in t.pending || InWarehouse(t, f) || Marked(s, f)
    ensures Keeps(s, t)
  {
    hide Marked, Keeps, MovesOn;
    assert t.stream == s.stream && t.delivered == s.delivered by {
      MoveIsQuiet(s, t, w);
    }
    forall f: nat | Marked(t, f)
      ensures Marked(s, f)
    {
      MovingMarksNothing(s, t, w, f);
    }
    KeepsIf(s, t);
  }

  lemma MoveIsQuiet(s: State, t: State, w: nat)
    requires MovesOn(s, t, w)
    ensures t.stream == s.stream && t.delivered == s.delivered && w in t.workers
    ensures forall v :: v in t.workers && v != w ==> v in s.workers && t.workers[v] == s.workers[v]
  {
  }

  /** A worker that moves on with its memory, or ends its cycle with the same window, stays good. */
  lemma MoveStaysGood(s: State, t: State, w: nat)
    requires Inv(s) && MovesOn(s, t, w) && Keeps(s, t) && t.warehouse == s.warehouse
    requires t.pending.Keys <= s.pending.Keys
    requires t.workers[w].phase != Acking
    requires t.workers[w].memory == WorkerOf(s, w).memory
             || t.workers[w].memory == Memory(WorkerOf(s, w).memory.missed, EMPTY_BATCH)
    ensures Inv(t)
  {
    hide Keeps, Safe, Vouched, Carries, InWarehouse;
    WorkerOfIsGood(s, w);
    WorkerStaysGood(s, t, WorkerOf(s, w));
    GroupStaysGood(s, t);
  }

  lemma AckSkipsKeepsInv(s: State, w: nat, applied: bool, limits: Limits)
    requires Inv(s) && Enabled(s, AckSkips(w, applied))
    ensures Inv(Apply(s, AckSkips(w, applied), limits))
  {
    hide Safe, GoodWorker, Vouched;
    var t := Apply(s, AckSkips(w, applied), limits);
    assert MovesOn(s, t, w);
    forall f | f in s.pending && f !in t.pending
      ensures Marked(s, f)
    {
      SkipsMark(s, w, f);
    }
    assert s.delivered <= |s.stream| && t.pending.Keys <= s.pending.Keys;
    hide Inv, MovesOn, Marked, InWarehouse;
    MoveKeeps(s, t, w);
    MoveStaysGood(s, t, w);
  }

  lemma StartReadingKeepsInv(s: State, w: nat, limits: Limits)
    requires Inv(s) && Enabled(s, StartReading(w))
    ensures Inv(Apply(s, StartReading(w), limits))
  {
    var t := Apply(s, StartReading(w), limits);
    assert MovesOn(s, t, w) && s.delivered <= |s.stream|;
    hide Inv, MovesOn, Marked, InWarehouse;
    MoveKeeps(s, t, w);
    MoveStaysGood(s, t, w);
  }

  lemma StopReadingKeepsInv(s: State, w: nat, limits: Limits)
    requires Inv(s) && Enabled(s, StopReading(w))
    ensures Inv(Apply(s, StopReading(w), limits))
  {
    var t := Apply(s, StopReading(w), limits);
    assert MovesOn(s, t, w) && s.delivered <= |s.stream|;
    hide Inv, MovesOn, Marked, InWarehouse;
    MoveKeeps(s, t, w);
    MoveStaysGood(s, t, w);
  }

  lemma InsertKeeps(s: State, w: nat, ok: bool, stored: seq<Landed>, limits: Limits)
    requires Inv(s) && Enabled(s, Insert(w, ok, stored))
    ensures var t := Apply(s, Insert(w, ok, stored), limits); MovesOn(s, t, w) && Keeps(s, t)
  {
    var t := Apply(s, Insert(w, ok, stored), limits);
    assert MovesOn(s, t, w) && s.delivered <= |s.stream|;
    hide Inv, MovesOn, Marked, InWarehouse;
    MoveKeeps(s, t, w);
  }

  lemma BatchRowsAreGood(s: State, b: Batch, r: Landed)
    requires s.delivered <= |s.stream| && GoodBatch(s, b) && r in RowsOf(b)
    ensures GoodRow(s, r)
  {
    var k :| 0 <= k < |RowsOf(b)| && RowsOf(b)[k] == r;
  }

  lemma BatchLands(s: State, t: State, b: Batch, id: nat)
    requires |b.rows| == |b.validIds| && t.warehouse == s.warehouse + RowsOf(b) && id in b.validIds
    ensures InWarehouse(t, id)
  {
    var k :| 0 <= k < |b.validIds| && b.validIds[k] == id;
    assert t.warehouse[|s.warehouse| + k] == RowsOf(b)[k];
  }

  /** Every row inserted is the row of a delivered event, and a whole insert lands all entries of the batch. */
  lemma InsertLands(s: State, w: nat, ok: bool, stored: seq<Landed>, limits: Limits)
    requires Inv(s) && Enabled(s, Insert(w, ok, stored))
    ensures var t := Apply(s, Insert(w, ok, stored), limits);
            && t.delivered <= |t.stream|
            && (forall k :: 0 <= k < |t.warehouse| ==> GoodRow(t, t.warehouse[k]))
            && (ok ==> forall id :: id in WorkerOf(s, w).memory.batch.validIds ==> InWarehouse(t, id))
  {
    var t := Apply(s, Insert(w, ok, stored), limits);
    var b := WorkerOf(s, w).memory.batch;
    WorkerOfIsGood(s, w);
    hide Safe, Vouched, GoodBatch, InWarehouse, RowsOf;
    forall r | r in stored
      ensures GoodRow(s, r)
    {
      BatchRowsAreGood(s, b, r);
    }
    forall k | 0 <= k < |t.warehouse|
      ensures GoodRow(t, t.warehouse[k])
    {
      if k < |s.warehouse| {
        assert GoodRow(s, s.warehouse[k]);
      } else {
        assert t.warehouse[k] in stored;
      }
    }
    if ok {
      forall id | id in b.validIds
        ensures InWarehouse(t, id)
      {
        BatchLands(s, t, b, id);
      }
    }
  }

  lemma InserterStaysGood(s: State, w: nat, ok: bool, stored: seq<Landed>, limits: Limits)
    requires Inv(s) && Enabled(s, Insert(w, ok, stored))
    ensures var t := Apply(s, Insert(w, ok, stored), limits);
            t.delivered <= |t.stream| && w in t.workers && GoodWorker(t, t.workers[w])
  {
    var t := Apply(s, Insert(w, ok, stored), limits);
    InsertKeeps(s, w, ok, stored, limits);
    InsertLands(s, w, ok, stored, limits);
    WorkerOfIsGood(s, w);
    WorkerStaysGood(s, t, WorkerOf(s, w));
    EndedWorkerIsGood(t, WorkerOf(s, w));
    hide Keeps, Vouched, InWarehouse, GoodBatch, Safe, MovesOn;
  }

  lemma InsertKeepsInv(s: State, w: nat, ok: bool, stored: seq<Landed>, limits: Limits)
    requires Inv(s) && Enabled(s, Insert(w, ok, stored))
    ensures Inv(Apply(s, Insert(w, ok, stored), limits))
  {
    hide Safe, GoodWorker, Keeps;
    var t := Apply(s, Insert(w, ok, stored), limits);
    InsertKeeps(s, w, ok, stored, limits);
    InsertLands(s, w, ok, stored, limits);
    InserterStaysGood(s, w, ok, stored, limits);
    hide InWarehouse;
    forall id: nat | id < t.delivered && t.stream[id].Event?
      ensures Safe(t, id)
    {
      SafeStays(s, t, id);
    }
    forall v | v in t.workers && v != w
      ensures GoodWorker(t, t.workers[v])
    {
      WorkerStaysGood(s, t, s.workers[v]);
    }
  }

  lemma EndedWorkerIsGood(s: State, w: Worker)
    requires s.delivered <= |s.stream| && GoodWorker(s, w)
    ensures GoodWorker(s, Worker(Memory(w.memory.missed, EMPTY_BATCH), Reclaiming))
  {
    hide Vouched;
  }

  lemma AckedHaveLanded(s: State, w: nat, id: nat)
    requires Inv(s) && WorkerOf(s, w).phase == Acking && id in WorkerOf(s, w).memory.batch.validIds
    ensures InWarehouse(s, id)
  {
    WorkerOfIsGood(s, w);
    hide Inv, Vouched, GoodBatch, InWarehouse;
  }

  lemma AckRowsMovesOn(s: State, w: nat, applied: bool, limits: Limits)
    requires Enabled(s, AckRows(w, applied))
    ensures var t := Apply(s, AckRows(w, applied), limits);
            && MovesOn(s, t, w) && t.warehouse == s.warehouse && t.pending.Keys <= s.pending.Keys
            && t.workers[w] == Worker(Memory(WorkerOf(s, w).memory.missed, EMPTY_BATCH), Reclaiming)
            && forall f :: f in s.pending && f !in t.pending ==> f in WorkerOf(s, w).memory.batch.validIds
  {
  }

  lemma AckRowsKeepsInv(s: State, w: nat, applied: bool, limits: Limits)
    requires Inv(s) && Enabled(s, AckRows(w, applied))
    ensures Inv(Apply(s, AckRows(w, applied), limits))
  {
    assert s.delivered <= |s.stream| && WorkerOf(s, w).phase == Acking;
    hide *;
    var t := Apply(s, AckRows(w, applied), limits);
    AckRowsMovesOn(s, w, applied, limits);
    forall f | f in s.pending && f !in t.pending
      ensures InWarehouse(t, f)
    {
      AckedHaveLanded(s, w, f);
      LandedStays(s, t, f);
    }
    MoveKeeps(s, t, w);
    MoveStaysGood(s, t, w);
  }

  lemma CrashKeepsInv(s: State, w: nat, limits: Limits)
    requires Inv(s)
    ensures Inv(Apply(s, Crash(w), limits))
  {
    var t := Apply(s, Crash(w), limits);
    KeepsIf(s, t);
    hide Keeps, Safe, GoodWorker;
    GroupStaysGood(s, t);
  }

  lemma ProduceKeepsInv(s: State, payload: Payload, limits: Limits)
    requires Inv(s)
    ensures Inv(Apply(s, Produce(payload), limits))
  {
    var t := Apply(s, Produce(payload), limits);
    KeepsIf(s, t);
    hide Keeps, Safe, GoodWorker;
    GroupStaysGood(s, t);
  }

  /** Steps that run the pump; the one-off consumer cleanup is treated separately. */
  predicate PumpStep(s: State, step: Step) {
    Enabled(s, step) && (step.DeleteConsumer? ==> OwnedBy(s, step.worker) == {})
  }

  lemma IdleDeletionChangesNothing(s: State, w: nat, limits: Limits)
    requires OwnedBy(s, w) == {}
    ensures Apply(s, DeleteConsumer(w), limits) == s
  {
    assert forall id :: id in s.pending && s.pending[id] == w ==> id in OwnedBy(s, w);
    assert Apply(s, DeleteConsumer(w), limits).pending == s.pending;
  }

  lemma StepKeepsInv(s: State, step: Step, limits: Limits)
    requires Inv(s) && PumpStep(s, step)
    ensures Inv(Apply(s, step, limits))
  {
    hide Inv, Apply;
    match step
    case Produce(payload) => ProduceKeepsInv(s, payload, limits);
    case Reclaim(w, id, arrives) => ReclaimKeepsInv(s, w, id, arrives, limits);
    case StartReading(w) => StartReadingKeepsInv(s, w, limits);
    case Read(w, arrives) => ReadKeepsInv(s, w, arrives, limits);
    case StopReading(w) => StopReadingKeepsInv(s, w, limits);
    case AckSkips(w, applied) => AckSkipsKeepsInv(s, w, applied, limits);
    case Insert(w, ok, stored) => InsertKeepsInv(s, w, ok, stored, limits);
    case AckRows(w, applied) => AckRowsKeepsInv(s, w, applied, limits);
    case Crash(w) => CrashKeepsInv(s, w, limits);
    case DeleteConsumer(w) => IdleDeletionChangesNothing(s, w, limits);
  }

  // ---------------------------------------------------------------- every run

  datatype Outcome = Stuck | Reached(state: State)

  /** Runs `steps` from `s`; Stuck when one of them is not possible where it comes. */
  function Execute(s: State, steps: seq<Step>, limits: Limits): Outcome
    decreases |steps|
  {
    if steps == [] then Reached(s)
    else if PumpStep(s, steps[0]) then Execute(Apply(s, steps[0], limits), steps[1..], limits)
    else Stuck
  }

  lemma {:induction false} RunKeepsInv(s: State, steps: seq<Step>, limits: Limits)
    requires Inv(s) && Execute(s, steps, limits).Reached?
    ensures Inv(Execute(s, steps, limits).state)
    decreases |steps|
  {
    if steps != [] {
      StepKeepsInv(s, steps[0], limits);
      RunKeepsInv(Apply(s, steps[0], limits), steps[1..], limits);
    }
  }

  /** No event is lost: in every state any run can reach, each delivered event is in the warehouse or is carried by
      an entry the group still holds as pending. */
  lemma NoRunLosesAnEvent(steps: seq<Step>, limits: Limits)
    requires Execute(INITIAL, steps, limits).Reached?
    ensures NoEventLost(Execute(INITIAL, steps, limits).state)
  {
    RunKeepsInv(INITIAL, steps, limits);
    InvMeansNoEventLost(Execute(INITIAL, steps, limits).state);
  }

  /** Producers reuse a non-empty event id only to send the same event again. */
  ghost predicate IdsNameEvents(s: State) {
    forall i: nat, j: nat :: i < |s.stream| && j < |s.stream| && SameEvent(s, i, j) ==>
      s.stream[i] == s.stream[j]
  }

  ghost predicate HasRow(s: State, row: string) {
    exists k :: 0 <= k < |s.warehouse| && s.warehouse[k].row == row
  }

  /** The warehouse has the row of every delivered event, and no others. */
  ghost predicate Complete(s: State) {
    && s.delivered <= |s.stream|
    && (forall id: nat :: id < s.delivered && s.stream[id].Event? ==> HasRow(s, s.stream[id].row))
    && (forall k :: 0 <= k < |s.warehouse| ==> GoodRow(s, s.warehouse[k]))
  }

  lemma LandedHasRow(s: State, id: nat)
    requires s.delivered <= |s.stream| && id < |s.stream| && InWarehouse(s, id)
    requires forall k :: 0 <= k < |s.warehouse| ==> GoodRow(s, s.warehouse[k])
    ensures s.stream[id].Event? && HasRow(s, s.stream[id].row)
  {
    var k :| 0 <= k < |s.warehouse| && s.warehouse[k].id == id;
    assert GoodRow(s, s.warehouse[k]);
  }

  lemma DrainedIsComplete(s: State)
    requires Inv(s) && s.pending == map[] && IdsNameEvents(s)
    ensures Complete(s)
  {
    InvMeansNoEventLost(s);
    hide Safe, GoodWorker, InWarehouse;
    forall id: nat | id < s.delivered && s.stream[id].Event?
      ensures HasRow(s, s.stream[id].row)
    {
      var other: nat :| other < |s.stream| && SameEvent(s, id, other) && (other in s.pending || InWarehouse(s, other));
      LandedHasRow(s, other);
    }
  }

  /** Once nothing is pending, the row of every delivered event is in the warehouse, and every warehouse row is the
      row of a delivered event. */
  lemma DrainedWarehouseIsComplete(steps: seq<Step>, limits: Limits)
    requires Execute(INITIAL, steps, limits).Reached?
    requires Execute(INITIAL, steps, limits).state.pending == map[]
    requires IdsNameEvents(Execute(INITIAL, steps, limits).state)
    ensures Complete(Execute(INITIAL, steps, limits).state)
  {
    RunKeepsInv(INITIAL, steps, limits);
    hide Execute, Inv, IdsNameEvents, Complete;
    DrainedIsComplete(Execute(INITIAL, steps, limits).state);
  }

  // ---------------------------------------------------------------- putting runs together

  lemma {:induction false} ExecuteConcat(s: State, a: seq<Step>, b: seq<Step>, limits: Limits)
    requires Execute(s, a, limits).Reached?
    ensures Execute(s, a + b, limits) == Execute(Execute(s, a, limits).state, b, limits)
    decreases |a|
  {
    hide Apply;
    if a == [] {
      assert a + b == b;
    } else {
      ExecuteConcat(Apply(s, a[0], limits), a[1..], b, limits);
      assert (a + b)[1..] == a[1..] + b;
    }
  }

  lemma ExecuteOne(s: State, step: Step, limits: Limits)
    requires PumpStep(s, step)
    ensures Execute(s, [step], limits) == Reached(Apply(s, step, limits))
  {
    assert [step][1..] == [];
  }

  lemma ExecuteOneMore(s: State, steps: seq<Step>, last: Step, limits: Limits)
    requires Execute(s, steps, limits).Reached? && PumpStep(Execute(s, steps, limits).state, last)
    ensures Execute(s, steps + [last], limits) == Reached(Apply(Execute(s, steps, limits).state, last, limits))
  {
    hide Apply, PumpStep;
    ExecuteConcat(s, steps, [last], limits);
    ExecuteOne(Execute(s, steps, limits).state, last, limits);
  }
}
