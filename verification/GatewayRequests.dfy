/** The attempts of one request: select, try to connect, remember the node that failed, select again. */
module GatewayRequests {
  import opened Options
  import opened Sequences
  import opened LinearAlgebra
  import opened TierQuota
  import opened Bandit
  import opened Gateway
  import R = Retry

  /** What an attempt meets: the pool and who is eligible at that moment, the context, and whether the connection to a
      node is made. */
  datatype Attempt = Attempt(pool: seq<Node>, eligible: Node -> bool, context: Vec, connects: string -> bool)

  /** The address tried in attempt `a` was that of an eligible node of the pool then. */
  ghost predicate WasEligible(a: Attempt, addr: string) {
    exists n :: n in a.pool && n.addr == addr && a.eligible(n)
  }

  /** No eligible node of the pool is left. */
  ghost predicate NoneLeft(a: Attempt, failed: seq<string>) {
    forall n :: n in a.pool ==> n.addr in failed || !a.eligible(n)
  }

  lemma NoneLeftIff(a: Attempt, failed: seq<string>)
    ensures NoneLeft(a, failed) <==> forall n :: n in a.pool ==> n.addr in failed || !a.eligible(n)
  {
  }

  lemma EligibleAt(a: Attempt, n: Node)
    requires n in a.pool && a.eligible(n)
    ensures WasEligible(a, n.addr)
  {
  }

  /** A node other than those remembered as failed; none if there is no such node. */
  method SelectPeer(m: Analysis, gateway: SmartProxyGateway, ctx: R.ProxyContext, a: Attempt)
      returns (addr: Option<string>)
    requires gateway.Valid() && Positive(m) && OneTierEach(a.pool)
    modifies gateway, gateway.engine, ctx`currentNode
    ensures gateway.Valid()
    ensures addr.None? <==> NoneLeft(a, ctx.failedAddrs)
    ensures addr.Some? ==> WasEligible(a, addr.value) && addr.value !in ctx.failedAddrs && ctx.currentNode == addr
  {
    hide *;
    NoneLeftIff(a, ctx.failedAddrs);
    var chosen := gateway.SelectBanditNodeExcluding(m, a.pool, a.eligible, ctx.failedAddrs, a.context);
    if chosen.None? {
      return None;
    }
    ctx.currentNode := Some(chosen.value.addr);
    EligibleAt(a, chosen.value);
    return Some(chosen.value.addr);
  }

  /** Each address tried was that of an eligible node at that moment. */
  ghost predicate WereEligible(world: nat -> Attempt, tried: seq<string>) {
    forall k :: 0 <= k < |tried| ==> WasEligible(world(k), tried[k])
  }

  /** The first `n` attempts failed to connect. */
  ghost predicate Failed(world: nat -> Attempt, tried: seq<string>, n: int) {
    forall k :: 0 <= k < n && k < |tried| ==> !world(k).connects(tried[k])
  }

  /** A request under way: all attempts so far failed and their nodes are remembered, as far as that goes. */
  ghost predicate UnderWay(world: nat -> Attempt, tried: seq<string>, failed: seq<string>, retries: nat, max: nat) {
    && |tried| == retries <= max && failed == R.FailedAfter(tried) && R.Legal(tried)
    && WereEligible(world, tried) && Failed(world, tried, |tried|)
  }

  /** A request that is over: because a connection was made, no node was left, or no retry was granted. */
  ghost predicate Over(world: nat -> Attempt, tried: seq<string>, max: nat) {
    && |tried| <= max + 1 && R.Legal(tried)
    && WereEligible(world, tried) && Failed(world, tried, |tried| - 1)
    && (|tried| == max + 1 || (tried != [] && world(|tried| - 1).connects(tried[|tried| - 1]))
        || NoneLeft(world(|tried|), R.FailedAfter(tried)))
  }

  lemma NothingTried(world: nat -> Attempt, max: nat)
    ensures UnderWay(world, [], [], 0, max)
  {
  }

  lemma NothingLeft(world: nat -> Attempt, tried: seq<string>, failed: seq<string>, retries: nat, max: nat)
    requires UnderWay(world, tried, failed, retries, max) && NoneLeft(world(|tried|), failed)
    ensures Over(world, tried, max)
  {
    hide NoneLeft, R.Legal, R.FailedAfter, WereEligible;
  }

  /** One attempt more: the request is over with a connection, or without one once the retries are used up, and goes on
      otherwise. */
  lemma OneMore(world: nat -> Attempt, tried: seq<string>, failed: seq<string>, retries: nat, max: nat, addr: string)
    requires UnderWay(world, tried, failed, retries, max) && addr !in failed && WasEligible(world(|tried|), addr)
    ensures world(|tried|).connects(addr) || retries == max ==> Over(world, tried + [addr], max)
    ensures !world(|tried|).connects(addr) && retries < max ==>
              UnderWay(world, tried + [addr], R.Recorded(failed, addr), retries + 1, max)
  {
    hide R.Legal, R.FailedAfter, R.Recorded, WasEligible, NoneLeft;
    TriedOneMore(tried, addr);
    assert (tried + [addr])[|tried|] == addr && forall k :: 0 <= k < |tried| ==> (tried + [addr])[k] == tried[k];
  }

  /** The proxy server asks for a node and connects to it. */
  method TryOnce(m: Analysis, gateway: SmartProxyGateway, ctx: R.ProxyContext, world: nat -> Attempt,
                 tried: seq<string>)
      returns (next: seq<string>, more: bool)
    requires gateway.Valid() && Positive(m) && OneTierEach(world(|tried|).pool)
    requires UnderWay(world, tried, ctx.failedAddrs, ctx.retryCount, ctx.maxRetries)
    modifies gateway, gateway.engine, ctx
    ensures gateway.Valid()
    ensures more ==> UnderWay(world, next, ctx.failedAddrs, ctx.retryCount, ctx.maxRetries)
                     && ctx.retryCount == old(ctx.retryCount) + 1 <= ctx.maxRetries
    ensures !more ==> Over(world, next, ctx.maxRetries)
  {
    assert ctx.retryCount <= ctx.maxRetries;
    hide *;
    ghost var failed := ctx.failedAddrs;
    var addr := SelectPeer(m, gateway, ctx, world(|tried|));
    if addr.None? {
      NothingLeft(world, tried, failed, ctx.retryCount, ctx.maxRetries);
      return tried, false;
    }
    OneMore(world, tried, failed, ctx.retryCount, ctx.maxRetries, addr.value);
    next := tried + [addr.value];
    if world(|tried|).connects(addr.value) {
      return next, false;
    }
    more := ctx.FailToConnect();
  }

  /** Attempts until a connection is made, no node is left, or no retry is granted: nodes that were eligible, none that
      failed before, none twice as long as at most 16 retries are allowed. */
  method RunRequest(m: Analysis, gateway: SmartProxyGateway, ctx: R.ProxyContext, world: nat -> Attempt)
      returns (tried: seq<string>)
    requires gateway.Valid() && Positive(m) && forall a :: OneTierEach(world(a).pool)
    requires ctx.failedAddrs == [] && ctx.retryCount == 0
    modifies gateway, gateway.engine, ctx
    ensures gateway.Valid() && Over(world, tried, ctx.maxRetries)
    ensures ctx.maxRetries <= 16 ==> Distinct(tried)
  {
    tried := [];
    var more := true;
    NothingTried(world, ctx.maxRetries);
    hide *;
    while more
      invariant gateway.Valid()
      invariant more ==> UnderWay(world, tried, ctx.failedAddrs, ctx.retryCount, ctx.maxRetries)
      invariant !more ==> Over(world, tried, ctx.maxRetries)
      decreases more, ctx.maxRetries - ctx.retryCount
    {
      tried, more := TryOnce(m, gateway, ctx, world, tried);
    }
    if ctx.maxRetries <= 16 {
      OverIsDistinct(world, tried, ctx.maxRetries);
    }
  }

  lemma OverIsDistinct(world: nat -> Attempt, tried: seq<string>, max: nat)
    requires Over(world, tried, max) && max <= 16
    ensures Distinct(tried)
  {
    hide R.Legal, NoneLeft, WereEligible, Failed, Distinct;
    R.FewAttemptsAreDistinct(tried);
  }

  lemma TriedOneMore(tried: seq<string>, addr: string)
    requires R.Legal(tried) && addr !in R.FailedAfter(tried)
    ensures R.Legal(tried + [addr])
    ensures R.FailedAfter(tried + [addr]) == R.Recorded(R.FailedAfter(tried), addr)
  {
    assert (tried + [addr])[..|tried|] == tried;
    R.LegalPush(tried + [addr]);
  }
}
