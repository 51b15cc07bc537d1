/** What a restart finds: after any run of operations, whatever failed on the way, and at any point of a crash. */
module NodeRecovery {
  import opened Options
  import opened Text
  import opened ManagedNode
  import opened NodeStore
  import opened NodeTransactions

  // ---------------------------------------------------------------- what one operation keeps

  lemma AddKeepsSound(nodes: seq<ProxyNode>, n: ProxyNode)
    requires Sound(nodes) && |nodes| < MAX_MANAGED_NODES
    requires Normal(n) && Position(nodes, n.addr) == |nodes|
    ensures Sound(nodes + [n])
  {
    hide Normal;
    assert forall k :: 0 <= k < |nodes| ==> nodes[k].addr != n.addr;
  }

  lemma RemoveKeepsSound(nodes: seq<ProxyNode>, i: nat)
    requires Sound(nodes) && i < |nodes|
    ensures Sound(nodes[..i] + nodes[i + 1..])
  {
    hide Normal;
    var next := nodes[..i] + nodes[i + 1..];
    assert forall k :: 0 <= k < |next| ==> next[k] == if k < i then nodes[k] else nodes[k + 1];
  }

  lemma WeightKeepsSound(nodes: seq<ProxyNode>, provider: string, country: string, weight: nat)
    requires Sound(nodes) && weight <= MAX_WEIGHT
    ensures Sound(Reweighted(nodes, provider, country, weight))
  {
    hide InGroup, IsTier, ProviderOk, CredentialsOk, AddrOf;
    var next := Reweighted(nodes, provider, country, weight);
    forall k | 0 <= k < |nodes|
      ensures Normal(next[k]) && next[k].addr == nodes[k].addr
    {
      assert Normal(nodes[k]) && next[k] == WithWeight(nodes[k], provider, country, weight);
    }
    hide Normal, WithWeight, Reweighted;
  }

  lemma PlannedAdd(nodes: seq<ProxyNode>, raw: ProxyNode)
    requires Plan(nodes, Add(raw)).Ok?
    ensures Normalize(raw).Ok? && |nodes| < MAX_MANAGED_NODES
    ensures Position(nodes, Normalize(raw).value.addr) == |nodes|
    ensures Plan(nodes, Add(raw)).value == Change(nodes + [Normalize(raw).value], true)
  {
    hide Normalize, Position;
  }

  lemma PlannedRemove(nodes: seq<ProxyNode>, addr: string)
    requires Plan(nodes, Remove(addr)).Ok?
    ensures var i := Position(nodes, addr);
            i < |nodes| && Plan(nodes, Remove(addr)).value == Change(nodes[..i] + nodes[i + 1..], true)
  {
    hide Position;
  }

  lemma PlannedWeight(nodes: seq<ProxyNode>, provider: string, country: string, weight: nat)
    requires Plan(nodes, SetGroupWeight(provider, country, weight)).Ok?
    ensures weight <= MAX_WEIGHT
    ensures Plan(nodes, SetGroupWeight(provider, country, weight)).value.next
         == Reweighted(nodes, provider, country, weight)
  {
    hide Reweighted, GroupSize;
  }

  /** Every operation keeps the list bounded, unique and in normal form. */
  lemma PlanKeepsSound(nodes: seq<ProxyNode>, op: Op)
    requires Sound(nodes) && Plan(nodes, op).Ok?
    ensures Sound(Plan(nodes, op).value.next)
  {
    hide *;
    match op
    case Add(raw) =>
      PlannedAdd(nodes, raw);
      NormalizeGivesNormal(raw);
      AddKeepsSound(nodes, Normalize(raw).value);
    case Remove(addr) =>
      PlannedRemove(nodes, addr);
      RemoveKeepsSound(nodes, Position(nodes, addr));
    case SetGroupWeight(provider, country, weight) =>
      PlannedWeight(nodes, provider, country, weight);
      WeightKeepsSound(nodes, provider, country, weight);
  }

  /** Adding a node and removing it again leaves the list as it was. */
  lemma AddThenRemove(nodes: seq<ProxyNode>, raw: ProxyNode)
    requires Plan(nodes, Add(raw)).Ok?
    ensures var next := Plan(nodes, Add(raw)).value.next;
            Plan(next, Remove(Normalize(raw).value.addr)) == Ok(Change(nodes, true))
  {
    hide Normalize;
    var n := Normalize(raw).value;
    var next := nodes + [n];
    assert next[|nodes|] == n && forall k :: 0 <= k < |nodes| ==> next[k] == nodes[k];
    assert Position(next, n.addr) == |nodes|;
    assert next[..|nodes|] + next[|nodes| + 1..] == nodes;
  }

  /** Removal takes out the one node of that address, and everything else stays in its order. */
  lemma RemovedIsOne(nodes: seq<ProxyNode>, addr: string) returns (i: nat)
    requires Plan(nodes, Remove(addr)).Ok?
    ensures var next := Plan(nodes, Remove(addr)).value.next;
            && i < |nodes| && nodes[i].addr == addr && |next| == |nodes| - 1
            && forall k :: 0 <= k < |next| ==> next[k] == if k < i then nodes[k] else nodes[k + 1]
  {
    i := Position(nodes, addr);
  }

  /** Why an operation is refused: what does not normalize, what is full, what is there or not there already. */
  lemma RefusedWhen(nodes: seq<ProxyNode>, op: Op)
    ensures var plan := Plan(nodes, op);
            match op
            case Add(raw) =>
              var n := Normalize(raw);
              && (plan.Ok? <==> n.Ok? && |nodes| < 10_000
                                && forall k :: 0 <= k < |nodes| ==> nodes[k].addr != n.value.addr)
              && (plan.Ok? ==> plan.value.next == nodes + [n.value] && plan.value.writes)
              && (n.Ok? && |nodes| < 10_000 && plan.Err? ==> plan.error == Duplicate(n.value.addr))
              && (n.Ok? && |nodes| >= 10_000 ==> plan.error == Validation)
            case Remove(addr) =>
              && (plan.Ok? <==> exists k :: 0 <= k < |nodes| && nodes[k].addr == addr)
              && (plan.Ok? ==> plan.value.writes) && (plan.Err? ==> plan.error == NotFound(addr))
            case SetGroupWeight(provider, country, weight) =>
              && (plan.Ok? <==> weight <= 100) && (plan.Err? ==> plan.error == Validation)
              && (plan.Ok? ==> (plan.value.writes <==>
                                 exists k :: 0 <= k < |nodes| && nodes[k].provider == provider
                                             && EqIgnoreCase(nodes[k].country, country)))
  {
    hide Normalize, Reweighted, EqIgnoreCase;
  }

  /** A weight is set on the whole group and nowhere else, and nothing else about the nodes changes. */
  lemma WeightSetOnGroup(nodes: seq<ProxyNode>, provider: string, country: string, weight: nat, k: nat)
    requires weight <= MAX_WEIGHT && k < |nodes|
    ensures var plan := Plan(nodes, SetGroupWeight(provider, country, weight));
            && plan.Ok? && |plan.value.next| == |nodes|
            && plan.value.next[k].(weight := nodes[k].weight) == nodes[k]
            && plan.value.next[k].weight ==
               (if nodes[k].provider == provider && EqIgnoreCase(nodes[k].country, country) then weight
                else nodes[k].weight)
            && (plan.value.next != nodes ==> plan.value.writes)
  {
    hide EqIgnoreCase;
    if GroupSize(nodes, provider, country) == 0 {
      EmptyGroup(nodes, provider, country, weight);
    }
    hide GroupSize, Reweighted;
  }

  // ---------------------------------------------------------------- all or nothing

  /** An error leaves memory alone; success leaves memory as planned and any file written equal to it. */
  lemma AllOrNothing(s: Store, op: Op, luck: Luck)
    ensures var o := Exec(s, op, luck);
            && (o.error.Some? ==> o.store.nodes == s.nodes)
            && (o.error.None? ==>
                 && Plan(s.nodes, op).Ok? && o.store.nodes == Plan(s.nodes, op).value.next
                 && (o.writes != [] ==> o.store.disk == Some(Encode(o.store.nodes)))
                 && (o.writes == [] && s.persistent ==> o.store == s))
            && (o.store.disk == if o.writes == [] then s.disk else Some(o.writes[|o.writes| - 1]))
  {
    hide Normalize, Encode, Position, InGroup;
    match op
    case Add(raw) =>
    case Remove(addr) =>
    case SetGroupWeight(provider, country, weight) =>
      if weight <= MAX_WEIGHT && GroupSize(s.nodes, provider, country) == 0 {
        EmptyGroup(s.nodes, provider, country, weight);
      }
  }

  lemma ExecKeepsSound(s: Store, op: Op, luck: Luck)
    requires Sound(s.nodes)
    ensures Sound(Exec(s, op, luck).store.nodes)
  {
    AllOrNothing(s, op, luck);
    if Plan(s.nodes, op).Ok? {
      PlanKeepsSound(s.nodes, op);
    }
    hide Exec, Plan, Sound;
  }

  /** A restart from the file gives the list in memory, up to exit addresses. */
  ghost predicate InSync(s: Store, seeds: seq<ProxyNode>) {
    Restarts(s.disk, seeds, s.nodes)
  }

  ghost predicate Restarts(disk: Disk, seeds: seq<ProxyNode>, nodes: seq<ProxyNode>) {
    Load(disk, seeds).Ok? && Forget(Load(disk, seeds).value) == Forget(nodes)
  }

  /** The contents a crash during the operation can leave in the file. */
  function CrashPoints(s: Store, op: Op, luck: Luck): set<Disk> {
    {s.disk} + set w | w in Exec(s, op, luck).writes :: Some(w)
  }

  lemma EncodedRestarts(nodes: seq<ProxyNode>, other: seq<ProxyNode>, seeds: seq<ProxyNode>)
    requires Sound(nodes)
    ensures Restarts(Some(Encode(nodes)), seeds, other) <==> Forget(nodes) == Forget(other)
  {
    FileRoundTrip(nodes);
    ReadForgets(Encode(nodes));
    hide Sound, Forget, LoadFile, Encode;
  }

  lemma WritesAreOldOrNew(s: Store, op: Op, luck: Luck, w: FileText)
    requires w in Exec(s, op, luck).writes
    ensures Plan(s.nodes, op).Ok? && (w == Encode(s.nodes) || w == Encode(Plan(s.nodes, op).value.next))
  {
    hide Plan, Encode;
  }

  /** Whenever the process dies, a restart finds the list from before the operation or the one it was to lead to. */
  lemma CrashFindsOldOrNew(s: Store, op: Op, luck: Luck, seeds: seq<ProxyNode>, found: Disk)
    requires Sound(s.nodes) && InSync(s, seeds) && found in CrashPoints(s, op, luck)
    ensures Restarts(found, seeds, s.nodes)
            || (Plan(s.nodes, op).Ok? && Restarts(found, seeds, Plan(s.nodes, op).value.next))
  {
    hide Plan, Exec, Sound, Restarts, Encode;
    if found != s.disk {
      WritesAreOldOrNew(s, op, luck, found.value);
      PlanKeepsSound(s.nodes, op);
      EncodedRestarts(s.nodes, s.nodes, seeds);
      EncodedRestarts(Plan(s.nodes, op).value.next, Plan(s.nodes, op).value.next, seeds);
    }
  }

  // ---------------------------------------------------------------- runs

  datatype Attempt = Attempt(op: Op, luck: Luck)

  function Final(s: Store, attempts: seq<Attempt>): Store {
    if attempts == [] then s
    else
      var last := attempts[|attempts| - 1];
      Exec(Final(s, attempts[..|attempts| - 1]), last.op, last.luck).store
  }

  /** The attempt put a new content in place of the file. */
  ghost predicate Touches(s: Store, a: Attempt) {
    Exec(s, a.op, a.luck).writes != []
  }

  /** The attempt wrote a list other than the one in memory, the router refused it, and the old file was not
      restored. */
  ghost predicate LeavesWrongFile(s: Store, a: Attempt) {
    && s.persistent && Plan(s.nodes, a.op).Ok? && Plan(s.nodes, a.op).value.writes
    && a.luck.write && !a.luck.apply && !a.luck.rollback
    && Forget(Plan(s.nodes, a.op).value.next) != Forget(s.nodes)
  }

  /** An attempt that writes decides the state of the file; one that does not leaves everything as it was. */
  lemma StepDecidesSync(s: Store, a: Attempt, seeds: seq<ProxyNode>)
    requires Sound(s.nodes) && s.persistent
    ensures var s' := Exec(s, a.op, a.luck).store;
            && s'.persistent && Sound(s'.nodes)
            && (!Touches(s, a) ==> s' == s && !LeavesWrongFile(s, a))
            && (Touches(s, a) ==> (InSync(s', seeds) <==> !LeavesWrongFile(s, a)))
  {
    hide Plan, Sound, Restarts, Encode, Forget;
    ExecKeepsSound(s, a.op, a.luck);
    if Touches(s, a) {
      var next := Plan(s.nodes, a.op).value.next;
      PlanKeepsSound(s.nodes, a.op);
      EncodedRestarts(s.nodes, s.nodes, seeds);
      EncodedRestarts(next, next, seeds);
      EncodedRestarts(next, s.nodes, seeds);
    } else {
      AllOrNothing(s, a.op, a.luck);
    }
  }

  /** File and memory disagree exactly if an attempt left a wrong file behind and no later one has written:
      divergence takes a failed rollback, and the next write heals it, its own rollback included. */
  lemma {:induction false} DivergesIff(s: Store, attempts: seq<Attempt>, seeds: seq<ProxyNode>)
    requires s.persistent && Sound(s.nodes) && InSync(s, seeds)
    ensures Final(s, attempts).persistent && Sound(Final(s, attempts).nodes)
    ensures !InSync(Final(s, attempts), seeds) <==>
            exists k :: 0 <= k < |attempts| && WrongSince(s, attempts, k)
  {
    hide Sound, InSync, WrongSince, Exec;
    if attempts != [] {
      var n := |attempts| - 1;
      var before, last := attempts[..n], attempts[n];
      DivergesIff(s, before, seeds);
      StepDecidesSync(Final(s, before), last, seeds);
      forall k | 0 <= k <= n
        ensures WrongSince(s, attempts, k) <==>
                if k == n then LeavesWrongFile(Final(s, before), last)
                else WrongSince(s, before, k) && !Touches(Final(s, before), last)
      {
        WrongSinceStep(s, attempts, k);
      }
      hide Touches, LeavesWrongFile, Final;
      if k :| 0 <= k < n && WrongSince(s, before, k) {
        assert WrongSince(s, attempts, k) <==> !Touches(Final(s, before), last);
      }
      assert WrongSince(s, attempts, n) <==> LeavesWrongFile(Final(s, before), last);
    }
  }

  /** Attempt `k` left a wrong file, and none after it has written. */
  ghost predicate WrongSince(s: Store, attempts: seq<Attempt>, k: int)
    requires 0 <= k < |attempts|
  {
    && LeavesWrongFile(Final(s, attempts[..k]), attempts[k])
    && forall j :: k < j < |attempts| ==> !Touches(Final(s, attempts[..j]), attempts[j])
  }

  lemma WrongSinceStep(s: Store, attempts: seq<Attempt>, k: int)
    requires 0 <= k < |attempts|
    ensures var n := |attempts| - 1;
            WrongSince(s, attempts, k) <==>
            if k == n then LeavesWrongFile(Final(s, attempts[..n]), attempts[n])
            else WrongSince(s, attempts[..n], k) && !Touches(Final(s, attempts[..n]), attempts[n])
  {
    hide LeavesWrongFile, Touches, Final;
    var n := |attempts| - 1;
    assert forall j :: 0 <= j < n ==> attempts[..n][..j] == attempts[..j];
  }

  /** Memory alone never changes under an error, in any run: it is what the successful attempts made of it. */
  lemma {:induction false} MemoryIsWhatSucceeded(s: Store, attempts: seq<Attempt>)
    ensures Final(s, attempts).nodes == Committed(s.nodes, Successes(s, attempts))
  {
    hide Exec, Plan;
    if attempts != [] {
      var before, last := attempts[..|attempts| - 1], attempts[|attempts| - 1];
      MemoryIsWhatSucceeded(s, before);
      AllOrNothing(Final(s, before), last.op, last.luck);
      var ops := Successes(s, before);
      if Exec(Final(s, before), last.op, last.luck).error.None? {
        assert Successes(s, attempts) == ops + [last.op] && (ops + [last.op])[..|ops|] == ops;
      } else {
        assert Successes(s, attempts) == ops;
      }
    }
  }

  /** The operations that returned no error. */
  function Successes(s: Store, attempts: seq<Attempt>): seq<Op> {
    if attempts == [] then []
    else
      var before, last := attempts[..|attempts| - 1], attempts[|attempts| - 1];
      Successes(s, before)
      + if Exec(Final(s, before), last.op, last.luck).error.None? then [last.op] else []
  }

  /** The list after operations none of which fails. */
  function Committed(nodes: seq<ProxyNode>, ops: seq<Op>): seq<ProxyNode> {
    if ops == [] then nodes
    else
      var before := Committed(nodes, ops[..|ops| - 1]);
      var plan := Plan(before, ops[|ops| - 1]);
      if plan.Ok? then plan.value.next else before
  }
}
