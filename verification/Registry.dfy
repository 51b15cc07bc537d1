/** The registry of free nodes: a map with time to live, health, capacity eviction and failure marks. */
module Registry {
  import opened Options
  import opened Health
  import opened Eviction
  import Decimal

  const FAIL_MARKS_CAP: nat := 8192
  const FREE_UNKNOWN_COUNTRY := "ZZ"

  datatype FreeProto = Http | Https | Socks4 | Socks5

  datatype EgressProto = EgressHttp | EgressSocks4 | EgressSocks5

  datatype RawNode = RawNode(ip: string, port: nat, proto: FreeProto, country: Option<string>, source: string)

  /** What stays fixed while a node is registered, and the two fields that follow its health. */
  datatype PoolNode = PoolNode(
    ip: string, port: nat, addr: string, country: string, provider: string, proto: EgressProto,
    weight: nat, exitIp: Option<string>)

  datatype Entry = Entry(node: PoolNode, health: HealthState, expiresAt: int)

  function AddrOf(raw: RawNode): string {
    raw.ip + ":" + Decimal.Print(raw.port)
  }

  function EgressOf(p: FreeProto): EgressProto {
    match p
    case Http => EgressHttp
    case Https => EgressHttp
    case Socks4 => EgressSocks4
    case Socks5 => EgressSocks5
  }

  /** The node agrees with the health it was rated by. */
  ghost predicate Consistent(addr: string, e: Entry) {
    && Sane(e.health)
    && e.node.addr == addr
    && e.node.weight == Weight(e.health)
    && e.node.exitIp == e.health.exitIp
  }

  function Verified(h: HealthState, latencyMs: nat, anon: AnonLevel, exitIp: Option<string>): HealthState {
    NoteSuccess(h, latencyMs).(anon := anon, exitIp := exitIp)
  }

  function Refreshed(e: Entry, latencyMs: nat, anon: AnonLevel, exitIp: Option<string>, expiresAt: int): (r: Entry)
    requires Sane(e.health)
  {
    SaneAfterNotes(e.health, latencyMs, 0);
    var h := Verified(e.health, latencyMs, anon, exitIp);
    Entry(e.node.(weight := Weight(h), exitIp := exitIp), h, expiresAt)
  }

  function FirstSeen(raw: RawNode, latencyMs: nat, anon: AnonLevel, exitIp: Option<string>, expiresAt: int): Entry {
    SaneAfterNotes(FRESH_HEALTH, latencyMs, 0);
    var h := Verified(FRESH_HEALTH, latencyMs, anon, exitIp);
    var country := if raw.country.Some? then raw.country.value else FREE_UNKNOWN_COUNTRY;
    Entry(PoolNode(raw.ip, raw.port, AddrOf(raw), country, "free-" + raw.source, EgressOf(raw.proto), Weight(h),
                   exitIp),
          h, expiresAt)
  }

  function Failed(e: Entry, now: int): Entry
    requires Sane(e.health)
  {
    SaneAfterNotes(e.health, 0, now);
    var h := NoteFailure(e.health, now);
    Entry(e.node.(weight := Weight(h)), h, e.expiresAt)
  }

  type Entries = map<string, Entry>

  ghost predicate AllConsistent(entries: Entries) {
    forall a :: a in entries ==> Consistent(a, entries[a])
  }

  ghost function RanksOf(entries: Entries, now: int): Ranks
    requires AllConsistent(entries)
  {
    map a | a in entries :: Rank(BackedOff(entries[a].health, now), Composite(entries[a].health))
  }

  function Only(entries: Entries, kept: set<string>): Entries {
    map a | a in entries && a in kept :: entries[a]
  }

  /** What makes an entry show in a snapshot. */
  predicate Shown(e: Entry, now: int, requireElite: bool) {
    && e.expiresAt > now
    && !BackedOff(e.health, now)
    && (requireElite ==> e.health.anon == Elite)
  }

  /** Identity of a node: everything but the weight and the exit address. */
  ghost predicate SameNode(a: PoolNode, b: PoolNode) {
    b == a.(weight := b.weight, exitIp := b.exitIp)
  }

  /** Entries that were registered before keep the node they were first seen as. */
  ghost predicate KeepsIdentity(before: Entries, after: Entries) {
    forall a :: a in before && a in after ==> SameNode(before[a].node, after[a].node)
  }

  class Registry {
    const ttl: nat
    const maxNodes: nat
    var entries: Entries
    var failMarks: map<string, int>

    ghost predicate Valid()
      reads this
    {
      && |entries| <= maxNodes
      && AllConsistent(entries)
      && |failMarks| <= FAIL_MARKS_CAP
    }

    constructor (ttl: nat, maxNodes: nat)
      ensures Valid() && entries == map[] && failMarks == map[]
      ensures this.ttl == ttl && this.maxNodes == maxNodes
    {
      this.ttl, this.maxNodes := ttl, maxNodes;
      entries, failMarks := map[], map[];
    }

    /** A verified node: a known address is refreshed, a new one is inserted and the registry brought back within
        capacity.  `evictNow` is the clock the eviction reads for itself. */
    method UpsertFull(raw: RawNode, latencyMs: nat, anon: AnonLevel, exitIp: Option<string>, now: int, evictNow: int)
        returns (evicted: nat)
      requires Valid()
      modifies this
      ensures Valid() && failMarks == old(failMarks)
      ensures KeepsIdentity(old(entries), entries)
      ensures AddrOf(raw) in old(entries) ==>
                && evicted == 0
                && entries == old(entries)[AddrOf(raw) :=
                                Refreshed(old(entries)[AddrOf(raw)], latencyMs, anon, exitIp, now + ttl)]
      ensures AddrOf(raw) in old(entries) ==>
                var before, after := old(entries)[AddrOf(raw)], entries[AddrOf(raw)];
                && after.health.success == before.health.success + 0.3 * (1.0 - before.health.success)
                && after.health.latency == before.health.latency + 0.3 * (latencyMs as real - before.health.latency)
                && after.health.streak == before.health.streak + 1
                && after.health.failStreak == 0 && after.health.backoffUntil == None
                && after.health.anon == anon && after.node.exitIp == exitIp && after.expiresAt == now + ttl
      ensures AddrOf(raw) !in old(entries) && AddrOf(raw) in entries ==>
                var after := entries[AddrOf(raw)];
                && after.node.ip == raw.ip && after.node.port == raw.port && after.node.provider == "free-" + raw.source
                && after.node.addr == raw.ip + ":" + Decimal.Print(raw.port)
                && (after.node.proto == EgressSocks4 <==> raw.proto == Socks4)
                && (after.node.proto == EgressSocks5 <==> raw.proto == Socks5)
                && after.node.country == (if raw.country.Some? then raw.country.value else "ZZ")
                && after.health.success == 0.65 && after.health.streak == 1
                && after.health.failStreak == 0 && after.health.backoffUntil == None
                && after.health.anon == anon && after.node.exitIp == exitIp && after.expiresAt == now + ttl
      ensures AddrOf(raw) !in old(entries) ==>
                var grown := old(entries)[AddrOf(raw) := FirstSeen(raw, latencyMs, anon, exitIp, now + ttl)];
                && AllConsistent(grown)
                && entries == Only(grown, Keep(RanksOf(grown, evictNow), maxNodes))
                && evicted == |grown| - |entries|
                && forall a, b :: a in grown && a !in entries && b in entries ==>
                     GoesFirst(a, grown[a], b, entries[b], evictNow)
    {
      var addr := AddrOf(raw);
      if addr in entries {
        RefreshedIsConsistent(addr, entries[addr], latencyMs, anon, exitIp, now + ttl);
        hide Consistent, Refreshed;
        entries := entries[addr := Refreshed(entries[addr], latencyMs, anon, exitIp, now + ttl)];
        return 0;
      }
      SaneAfterNotes(FRESH_HEALTH, latencyMs, 0);
      entries := entries[addr := FirstSeen(raw, latencyMs, anon, exitIp, now + ttl)];
      evicted := EvictIfOverCapacity(evictNow);
    }

    method RenewTtl(addr: string, now: int)
      requires Valid()
      modifies this
      ensures Valid() && failMarks == old(failMarks)
      ensures entries == if addr in old(entries) then old(entries)[addr := old(entries)[addr].(expiresAt := now + ttl)]
                         else old(entries)
    {
      if addr in entries {
        entries := entries[addr := entries[addr].(expiresAt := now + ttl)];
      }
    }

    method NoteVerifyFailed(addr: string, now: int)
      requires Valid()
      modifies this
      ensures Valid() && KeepsIdentity(old(entries), entries)
      ensures entries == if addr in old(entries) then old(entries)[addr := Failed(old(entries)[addr], now)]
                         else old(entries)
      ensures addr in old(entries) ==>
                var before, after := old(entries)[addr], entries[addr];
                && after.health.success == 0.7 * before.health.success
                && after.health.streak == 0 && after.health.failStreak == before.health.failStreak + 1
                && after.health.backoffUntil == Some(now + BackoffSecs(before.health.failStreak + 1))
                && after.node.weight <= 4 && after.expiresAt == before.expiresAt
                && after.health.latency == before.health.latency && after.health.anon == before.health.anon
      ensures failMarks == (if |old(failMarks)| >= 8192 then map[] else old(failMarks))[addr := now]
    {
      if addr in entries {
        SaneAfterNotes(entries[addr].health, 0, now);
        AfterFailure(entries[addr].health, now);
        entries := entries[addr := Failed(entries[addr], now)];
      }
      if |failMarks| >= FAIL_MARKS_CAP {
        failMarks := map[];
      }
      failMarks := failMarks[addr := now];
    }

    method Reverify(addr: string, passed: bool, now: int)
      requires Valid()
      modifies this
      ensures Valid() && KeepsIdentity(old(entries), entries)
      ensures entries == if addr !in old(entries) then old(entries)
                         else old(entries)[addr := if passed then old(entries)[addr].(expiresAt := now + ttl)
                                                   else Failed(old(entries)[addr], now)]
      ensures passed ==> failMarks == old(failMarks)
      ensures !passed ==>
                failMarks == (if |old(failMarks)| >= 8192 then map[] else old(failMarks))[addr := now]
    {
      if passed {
        RenewTtl(addr, now);
      } else {
        NoteVerifyFailed(addr, now);
      }
    }

    /** One pass over the entries `keys`, in any order, that keeps the least one so far. */
    method LeastOf(keys: set<string>, now: int) returns (least: string)
      requires AllConsistent(entries) && keys != {} && keys <= entries.Keys
      ensures least in keys
      ensures forall a :: a in keys && a != least ==> Before(RanksOf(entries, now), least, a)
    {
      hide Before, Consistent;
      ghost var m := RanksOf(entries, now);
      least :| least in keys;
      var rest := keys - {least};
      while rest != {}
        invariant least in keys && least !in rest && rest <= keys
        invariant forall a :: a in keys && a !in rest && a != least ==> Before(m, least, a)
        decreases |rest|
      {
        var k :| k in rest;
        rest := rest - {k};
        BeforeTotal(m, k, least);
        if IsBefore(k, least, now) {
          forall a | a in keys && a !in rest && a != k
            ensures Before(m, k, a)
          {
            if a != least {
              BeforeTransitive(m, k, least, a);
            }
          }
          least := k;
        }
      }
    }

    /** The comparison of two entries: (backed off first) composite, then address. */
    predicate IsBefore(a: string, b: string, now: int)
      requires AllConsistent(entries) && a in entries && b in entries
      reads this
      ensures IsBefore(a, b, now) == Before(RanksOf(entries, now), a, b)
    {
      var x, y := BackedOff(entries[a].health, now), BackedOff(entries[b].health, now);
      (x && !y) || (x == y && RankLess(Composite(entries[a].health), a, Composite(entries[b].health), b))
    }

    /** The least backed-off entry, or the least of all if none is backed off. */
    method PickVictim(now: int) returns (victim: string)
      requires AllConsistent(entries) && entries != map[]
      ensures IsLeast(RanksOf(entries, now), victim)
    {
      hide Before, Consistent;
      var backedOff := set a | a in entries && BackedOff(entries[a].health, now);
      if backedOff != {} {
        victim := LeastOf(backedOff, now);
        BackedOffLeast(RanksOf(entries, now), backedOff, victim);
      } else {
        assert entries.Keys != {} by {
          var a :| a in entries;
          assert a in entries.Keys;
        }
        victim := LeastOf(entries.Keys, now);
      }
    }

    /** While over capacity, remove the victim.  What is left is what the one-shot specification keeps. */
    method EvictIfOverCapacity(now: int) returns (removed: nat)
      requires AllConsistent(entries)
      modifies this
      ensures failMarks == old(failMarks)
      ensures AllConsistent(entries) && |entries| <= maxNodes
      ensures entries == Only(old(entries), Keep(RanksOf(old(entries), now), maxNodes))
      ensures removed == |old(entries)| - |entries|
      ensures forall a, b :: a in old(entries) && a !in entries && b in entries ==>
                GoesFirst(a, old(entries)[a], b, entries[b], now)
    {
      ghost var all := entries;
      RemovedGoFirst(entries, maxNodes, now);
      hide AllConsistent, RanksOf, Keep, GoesFirst;
      removed := 0;
      while |entries| > maxNodes
        invariant AllConsistent(entries) && failMarks == old(failMarks)
        invariant entries == Only(all, entries.Keys)
        invariant Keep(RanksOf(entries, now), maxNodes) == Keep(RanksOf(all, now), maxNodes)
        invariant removed == |all| - |entries|
        decreases |entries|
      {
        var victim := PickVictim(now);
        EvictOne(entries, maxNodes, victim, now);
        OnlyWithout(all, entries, victim);
        entries := entries - {victim};
        removed := removed + 1;
      }
      RanksHaveKeys(entries, now);
      KeepAll(RanksOf(entries, now), maxNodes);
    }

    /** The nodes of exactly the entries that are unexpired, not backed off and pass the elite gate. */
    method Snapshot(now: int, requireElite: bool) returns (nodes: seq<PoolNode>)
      requires Valid()
      ensures forall n :: n in nodes <==>
                exists a :: && a in entries && entries[a].node == n && entries[a].expiresAt > now
                            && (entries[a].health.backoffUntil.None? || entries[a].health.backoffUntil.value <= now)
                            && (requireElite ==> entries[a].health.anon == Elite)
      ensures forall i, j :: 0 <= i < j < |nodes| ==> nodes[i].addr != nodes[j].addr
    {
      nodes := [];
      var rest := entries.Keys;
      while rest != {}
        invariant rest <= entries.Keys
        invariant forall n :: n in nodes <==>
                    exists a :: && a in entries && a !in rest
                                 && Shown(entries[a], now, requireElite) && entries[a].node == n
        invariant forall i, j :: 0 <= i < j < |nodes| ==> nodes[i].addr != nodes[j].addr
        decreases |rest|
      {
        var k :| k in rest;
        rest := rest - {k};
        if Shown(entries[k], now, requireElite) {
          ghost var before := nodes;
          forall i | 0 <= i < |nodes|
            ensures nodes[i].addr != k
          {
            assert nodes[i] in nodes;
          }
          nodes := nodes + [entries[k].node];
        }
      }
    }
  }

  lemma RefreshedIsConsistent(addr: string, e: Entry, latencyMs: nat, anon: AnonLevel, exitIp: Option<string>,
                              expiresAt: int)
    requires Consistent(addr, e)
    ensures Consistent(addr, Refreshed(e, latencyMs, anon, exitIp, expiresAt))
    ensures SameNode(e.node, Refreshed(e, latencyMs, anon, exitIp, expiresAt).node)
  {
    SaneAfterNotes(e.health, latencyMs, 0);
  }

  /** Entry `a` goes before `b`: it alone is backed off, or it has the lower composite, or the smaller address. */
  predicate GoesFirst(a: string, x: Entry, b: string, y: Entry, now: int) {
    && x.health.latency >= 0.0 && y.health.latency >= 0.0
    && var off, off' := BackedOff(x.health, now), BackedOff(y.health, now);
       var c, c' := Composite(x.health), Composite(y.health);
       (off && !off') || (off == off' && (c < c' || (c == c' && LexLess(a, b))))
  }

  /** Whatever does not fit is outranked by everything kept. */
  lemma RemovedGoFirst(entries: Entries, max: nat, now: int)
    requires AllConsistent(entries)
    ensures var kept := Only(entries, Keep(RanksOf(entries, now), max));
            forall a, b :: a in entries && a !in kept && b in kept ==> GoesFirst(a, entries[a], b, kept[b], now)
  {
    KeepIsTheGreatest(RanksOf(entries, now), max);
    hide Keep, Composite, BackedOff, LexLess;
    forall a, b | a in entries && a !in Keep(RanksOf(entries, now), max) && b in Keep(RanksOf(entries, now), max)
      ensures b in entries && GoesFirst(a, entries[a], b, entries[b], now)
    {
      assert Before(RanksOf(entries, now), a, b);
      assert Consistent(a, entries[a]) && Consistent(b, entries[b]);
    }
  }

  // ---------------------------------------------------------------- failures in a row

  /** The entries after the failed verifications of one address at these times. */
  function FailedAt(entries: Entries, addr: string, times: seq<int>): (r: Entries)
    requires AllConsistent(entries) && addr in entries
    ensures AllConsistent(r) && r.Keys == entries.Keys
  {
    if times == [] then entries
    else
      var before, now := FailedAt(entries, addr, times[..|times| - 1]), times[|times| - 1];
      SaneAfterNotes(before[addr].health, 0, now);
      before[addr := Failed(before[addr], now)]
  }

  lemma {:induction false} FailedAtHealth(entries: Entries, addr: string, times: seq<int>)
    requires AllConsistent(entries) && addr in entries
    ensures var after := FailedAt(entries, addr, times)[addr];
            after.health == Failures(entries[addr].health, times) && after.expiresAt == entries[addr].expiresAt
  {
    hide AllConsistent, Consistent, NoteFailure;
    if times != [] {
      FailedAtHealth(entries, addr, times[..|times| - 1]);
    }
  }

  /** After k failures in a row the rate is the old one times 0.7^k, the weight is at most 4, and the node is in no
      snapshot until the backoff - one minute doubled up to an hour - is over; and in every one from then on, until it
      expires. */
  lemma ConsecutiveFailures(entries: Entries, addr: string, times: seq<int>)
    requires AllConsistent(entries) && addr in entries && times != []
    ensures var before, after, n := entries[addr], FailedAt(entries, addr, times)[addr], |times|;
            var failures := before.health.failStreak + n;
            var until := times[n - 1] + if failures <= 6 then 60 * Pow2(failures - 1) else 3600;
            && after.health.failStreak == failures && after.health.streak == 0
            && after.health.success == Faded(before.health.success, n)
            && after.node.weight <= 4 && after.expiresAt == before.expiresAt
            && forall now :: Shown(after, now, false) <==> until <= now < before.expiresAt
  {
    var after := FailedAt(entries, addr, times)[addr];
    ConsistentAt(entries, addr);
    ConsistentAt(FailedAt(entries, addr, times), addr);
    FailedAtHealth(entries, addr, times);
    hide *;
    FailuresClosedForm(entries[addr].health, times);
    BackoffIs(after.health.failStreak);
    ShownIff(after);
  }

  lemma ConsistentAt(entries: Entries, addr: string)
    requires AllConsistent(entries) && addr in entries
    ensures Sane(entries[addr].health) && entries[addr].node.weight == Weight(entries[addr].health)
  {
    assert Consistent(addr, entries[addr]);
    hide Sane, Weight;
  }

  lemma ShownIff(e: Entry)
    requires e.health.backoffUntil.Some?
    ensures forall now :: Shown(e, now, false) <==> e.health.backoffUntil.value <= now < e.expiresAt
  {
  }

  lemma RanksHaveKeys(entries: Entries, now: int)
    requires AllConsistent(entries)
    ensures RanksOf(entries, now).Keys == entries.Keys && |RanksOf(entries, now)| == |entries|
  {
    assert RanksOf(entries, now).Keys == entries.Keys;
    assert |RanksOf(entries, now).Keys| == |entries.Keys|;
  }

  lemma EvictOne(entries: Entries, max: nat, victim: string, now: int)
    requires AllConsistent(entries) && |entries| > max && IsLeast(RanksOf(entries, now), victim)
    ensures victim in entries && |entries - {victim}| == |entries| - 1
    ensures AllConsistent(entries - {victim})
    ensures Keep(RanksOf(entries - {victim}, now), max) == Keep(RanksOf(entries, now), max)
  {
    RanksHaveKeys(entries, now);
    KeepSkipsLeast(RanksOf(entries, now), max, victim);
    assert RanksOf(entries - {victim}, now) == RanksOf(entries, now) - {victim};
    assert (entries - {victim}).Keys == entries.Keys - {victim};
    assert |(entries - {victim}).Keys| == |entries.Keys| - 1;
  }

  lemma OnlyWithout(all: Entries, entries: Entries, victim: string)
    requires entries == Only(all, entries.Keys)
    ensures entries - {victim} == Only(all, (entries - {victim}).Keys)
  {
  }

  /** The least of the backed-off entries is the least of all. */
  lemma BackedOffLeast(m: Ranks, backedOff: set<string>, v: string)
    requires v in backedOff && forall a :: a in backedOff <==> a in m && m[a].backedOff
    requires forall a :: a in backedOff && a != v ==> Before(m, v, a)
    ensures IsLeast(m, v)
  {
  }
}
