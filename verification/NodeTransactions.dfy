/** Operations on the node store as transactions over memory and file, with every mix of failures. */
module NodeTransactions {
  import opened Options
  import opened Text
  import opened ManagedNode
  import opened NodeStore

  datatype Op =
    | Add(raw: ProxyNode)
    | Remove(addr: string)
    | SetGroupWeight(provider: string, country: string, weight: nat)

  /** Whether the file is written, the router takes the change, and the old file is written back where that is tried. */
  datatype Luck = Luck(write: bool, apply: bool, rollback: bool)

  datatype Store = Store(persistent: bool, nodes: seq<ProxyNode>, disk: Disk)

  /** The list an operation leads to, and whether it is written to the file. */
  datatype Change = Change(next: seq<ProxyNode>, writes: bool)

  /** The store afterwards, the contents the file had in between and at the end, and the error if there was one. */
  datatype Outcome = Outcome(store: Store, writes: seq<FileText>, error: Option<Error>)

  /** The first position of the address, or the length. */
  function Position(nodes: seq<ProxyNode>, addr: string): (i: nat)
    ensures i <= |nodes|
    ensures i < |nodes| ==> nodes[i].addr == addr
    ensures forall k :: 0 <= k < i ==> nodes[k].addr != addr
  {
    if nodes == [] || nodes[0].addr == addr then 0 else 1 + Position(nodes[1..], addr)
  }

  predicate InGroup(n: ProxyNode, provider: string, country: string) {
    n.provider == provider && EqIgnoreCase(n.country, country)
  }

  function WithWeight(n: ProxyNode, provider: string, country: string, weight: nat): ProxyNode {
    if InGroup(n, provider, country) then n.(weight := weight) else n
  }

  function Reweighted(nodes: seq<ProxyNode>, provider: string, country: string, weight: nat): (r: seq<ProxyNode>)
    ensures |r| == |nodes|
    ensures forall k :: 0 <= k < |nodes| ==> r[k] == WithWeight(nodes[k], provider, country, weight)
  {
    if nodes == [] then []
    else
      Reweighted(nodes[..|nodes| - 1], provider, country, weight)
      + [WithWeight(nodes[|nodes| - 1], provider, country, weight)]
  }

  function GroupSize(nodes: seq<ProxyNode>, provider: string, country: string): (n: nat)
    ensures n > 0 <==> exists k :: 0 <= k < |nodes| && InGroup(nodes[k], provider, country)
  {
    if nodes == [] then 0
    else
      var front, last := nodes[..|nodes| - 1], nodes[|nodes| - 1];
      assert forall k :: 0 <= k < |front| ==> nodes[k] == front[k];
      GroupSize(front, provider, country) + if InGroup(last, provider, country) then 1 else 0
  }

  function Plan(nodes: seq<ProxyNode>, op: Op): Result<Change> {
    match op
    case Add(raw) =>
      var n := Normalize(raw);
      if n.Err? then Err(n.error)
      else if |nodes| >= MAX_MANAGED_NODES then Err(Validation)
      else if Position(nodes, n.value.addr) < |nodes| then Err(Duplicate(n.value.addr))
      else Ok(Change(nodes + [n.value], true))
    case Remove(addr) =>
      var i := Position(nodes, addr);
      if i == |nodes| then Err(NotFound(addr)) else Ok(Change(nodes[..i] + nodes[i + 1..], true))
    case SetGroupWeight(provider, country, weight) =>
      if weight > MAX_WEIGHT then Err(Validation)
      else Ok(Change(Reweighted(nodes, provider, country, weight), GroupSize(nodes, provider, country) > 0))
  }

  function Exec(s: Store, op: Op, luck: Luck): Outcome {
    var plan := Plan(s.nodes, op);
    if plan.Err? then Outcome(s, [], Some(plan.error))
    else
      var writes := plan.value.writes && s.persistent;
      if writes && !luck.write then Outcome(s, [], Some(Persist))
      else
        var file := Encode(plan.value.next);
        if luck.apply then
          Outcome(s.(nodes := plan.value.next, disk := if writes then Some(file) else s.disk),
                  if writes then [file] else [], None)
        else if writes && luck.rollback then
          Outcome(s.(disk := Some(Encode(s.nodes))), [file, Encode(s.nodes)], Some(Apply))
        else
          Outcome(s.(disk := if writes then Some(file) else s.disk), if writes then [file] else [], Some(Apply))
  }

  class NodeRegistry {
    const persistent: bool
    var nodes: seq<ProxyNode>
    var disk: Disk
    /** Every content the file has had since the start. */
    ghost var written: seq<FileText>

    ghost function State(): Store
      reads this
    {
      Store(persistent, nodes, disk)
    }

    constructor (persistent: bool, disk: Disk, seeds: seq<ProxyNode>, loaded: seq<ProxyNode>)
      requires Ok(loaded) == if persistent then Load(disk, seeds) else Checked(seeds)
      ensures State() == Store(persistent, loaded, disk) && written == []
    {
      this.persistent, this.nodes, this.disk, this.written := persistent, loaded, disk, [];
    }

    /** Write the file under a temporary name and rename it; nothing is done without a path. */
    method Persist(list: seq<ProxyNode>, luck: bool) returns (ok: bool)
      modifies this`disk, this`written
      ensures ok == (!persistent || luck)
      ensures persistent && luck ==> disk == Some(Encode(list)) && written == old(written) + [Encode(list)]
      ensures !(persistent && luck) ==> disk == old(disk) && written == old(written)
    {
      if !persistent {
        return true;
      }
      if luck {
        disk, written := Some(Encode(list)), written + [Encode(list)];
      }
      return luck;
    }

    method AddNode(raw: ProxyNode, luck: Luck) returns (r: Result<ProxyNode>)
      modifies this
      ensures var o := Exec(old(State()), Add(raw), luck);
              && State() == o.store && written == old(written) + o.writes
              && r == if o.error.Some? then Err(o.error.value) else Normalize(raw)
    {
      hide Normalize, Encode;
      var n := Normalize(raw);
      if n.Err? {
        return n;
      }
      if |nodes| >= MAX_MANAGED_NODES {
        return Err(Validation);
      }
      var i := 0;
      while i < |nodes|
        invariant 0 <= i <= |nodes|
        invariant forall k :: 0 <= k < i ==> nodes[k].addr != n.value.addr
      {
        if nodes[i].addr == n.value.addr {
          return Err(Duplicate(n.value.addr));
        }
        i := i + 1;
      }
      var next := nodes + [n.value];
      var ok := Persist(next, luck.write);
      if !ok {
        return Err(Error.Persist);
      }
      if !luck.apply {
        ok := Persist(nodes, luck.rollback);
        return Err(Apply);
      }
      nodes := next;
      return n;
    }

    method RemoveNode(addr: string, luck: Luck) returns (r: Result<ProxyNode>)
      modifies this
      ensures var o := Exec(old(State()), Remove(addr), luck);
              && State() == o.store && written == old(written) + o.writes
              && (o.error.Some? ==> r == Err(o.error.value))
              && (o.error.None? ==> r.Ok? && r.value in old(nodes) && r.value.addr == addr)
    {
      hide Encode;
      var i := 0;
      while i < |nodes| && nodes[i].addr != addr
        invariant 0 <= i <= |nodes|
        invariant forall k :: 0 <= k < i ==> nodes[k].addr != addr
      {
        i := i + 1;
      }
      if i == |nodes| {
        return Err(NotFound(addr));
      }
      assert i == Position(nodes, addr);
      var removed := nodes[i];
      var next := nodes[..i] + nodes[i + 1..];
      var ok := Persist(next, luck.write);
      if !ok {
        return Err(Error.Persist);
      }
      if !luck.apply {
        ok := Persist(nodes, luck.rollback);
        return Err(Apply);
      }
      nodes := next;
      return Ok(removed);
    }

    method SetWeight(provider: string, country: string, weight: nat, luck: Luck) returns (r: Result<nat>)
      modifies this
      ensures var o := Exec(old(State()), SetGroupWeight(provider, country, weight), luck);
              && State() == o.store && written == old(written) + o.writes
              && r == if o.error.Some? then Err(o.error.value) else Ok(GroupSize(old(nodes), provider, country))
      ensures r.Ok? ==> r.value == |GroupAt(old(nodes), provider, country)|
    {
      GroupSizeIs(nodes, provider, country);
      hide Encode, InGroup, Reweighted, GroupSize;
      if weight > MAX_WEIGHT {
        return Err(Validation);
      }
      var next, changed := Reweigh(nodes, provider, country, weight);
      if changed > 0 {
        var ok := Persist(next, luck.write);
        if !ok {
          return Err(Error.Persist);
        }
      } else {
        EmptyGroup(nodes, provider, country, weight);
      }
      if !luck.apply {
        if changed > 0 {
          var ok := Persist(nodes, luck.rollback);
        }
        return Err(Apply);
      }
      if changed > 0 {
        nodes := next;
      }
      return Ok(changed);
    }
  }

  /** The positions of the nodes of a provider in a country, whatever the case the country is written in. */
  function GroupAt(nodes: seq<ProxyNode>, provider: string, country: string): set<int> {
    set k | 0 <= k < |nodes| && nodes[k].provider == provider && EqIgnoreCase(nodes[k].country, country)
  }

  lemma GroupAtPush(nodes: seq<ProxyNode>, provider: string, country: string)
    requires nodes != []
    ensures var n := |nodes| - 1;
            && n !in GroupAt(nodes[..n], provider, country)
            && GroupAt(nodes, provider, country)
            == GroupAt(nodes[..n], provider, country) + if InGroup(nodes[n], provider, country) then {n} else {}
  {
    hide EqIgnoreCase;
  }

  lemma {:induction false} GroupSizeIs(nodes: seq<ProxyNode>, provider: string, country: string)
    ensures GroupSize(nodes, provider, country) == |GroupAt(nodes, provider, country)|
  {
    hide InGroup;
    if nodes != [] {
      hide GroupAt;
      GroupSizeIs(nodes[..|nodes| - 1], provider, country);
      GroupAtPush(nodes, provider, country);
    }
  }

  /** The first `k` nodes have been treated. */
  ghost predicate Halfway(
    nodes: seq<ProxyNode>, next: seq<ProxyNode>, k: nat, provider: string, country: string, weight: nat)
  {
    && |next| == |nodes|
    && (forall j :: 0 <= j < k && j < |nodes| ==> next[j] == WithWeight(nodes[j], provider, country, weight))
    && (forall j :: k <= j < |nodes| ==> next[j] == nodes[j])
  }

  lemma OneFurther(nodes: seq<ProxyNode>, next: seq<ProxyNode>, k: nat, provider: string, country: string, weight: nat)
    requires k < |nodes| && Halfway(nodes, next, k, provider, country, weight)
    ensures |next| == |nodes| && next[k] == nodes[k]
    ensures Halfway(nodes, next[k := WithWeight(nodes[k], provider, country, weight)], k + 1, provider, country, weight)
    ensures next[k := nodes[k]] == next
  {
    hide WithWeight;
  }

  method Reweigh(nodes: seq<ProxyNode>, provider: string, country: string, weight: nat)
    returns (next: seq<ProxyNode>, changed: nat)
    ensures next == Reweighted(nodes, provider, country, weight)
    ensures changed == GroupSize(nodes, provider, country)
  {
    next, changed := nodes, 0;
    assert nodes[..0] == [];
    hide InGroup, GroupSize, WithWeight;
    for k := 0 to |nodes|
      invariant Halfway(nodes, next, k, provider, country, weight)
      invariant changed == GroupSize(nodes[..k], provider, country)
    {
      hide Halfway;
      GroupStep(nodes, k, provider, country, weight);
      OneFurther(nodes, next, k, provider, country, weight);
      if InGroup(next[k], provider, country) {
        next := next[k := WithWeight(next[k], provider, country, weight)];
        changed := changed + 1;
      }
    }
    assert nodes[..|nodes|] == nodes;
  }

  lemma GroupStep(nodes: seq<ProxyNode>, k: nat, provider: string, country: string, weight: nat)
    requires k < |nodes|
    ensures !InGroup(nodes[k], provider, country) ==> WithWeight(nodes[k], provider, country, weight) == nodes[k]
    ensures GroupSize(nodes[..k + 1], provider, country) ==
            GroupSize(nodes[..k], provider, country) + if InGroup(nodes[k], provider, country) then 1 else 0
  {
    assert nodes[..k + 1][..k] == nodes[..k];
  }

  lemma EmptyGroup(nodes: seq<ProxyNode>, provider: string, country: string, weight: nat)
    requires GroupSize(nodes, provider, country) == 0
    ensures Reweighted(nodes, provider, country, weight) == nodes
  {
    hide InGroup, Reweighted, GroupSize;
  }
}
