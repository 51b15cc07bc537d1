/** The store of managed nodes: validate, write the file, apply to the router, commit - or roll back. */
module NodeStore {
  import opened Options
  import opened Text
  import opened ManagedNode

  const NODES_FILE_VERSION: nat := 1
  const MAX_MANAGED_NODES: nat := 10_000

  /** What a file can hold: text that does not parse, or a version and nodes. */
  datatype FileText = Garbage | NodesFile(version: nat, nodes: seq<PersistedNode>)

  /** The file under the configured path, if there is one. */
  type Disk = Option<FileText>

  function Encode(nodes: seq<ProxyNode>): FileText {
    NodesFile(NODES_FILE_VERSION, seq(|nodes|, k requires 0 <= k < |nodes| => ToPersisted(nodes[k])))
  }

  function Forget(nodes: seq<ProxyNode>): (r: seq<ProxyNode>)
    ensures |r| == |nodes|
  {
    seq(|nodes|, k requires 0 <= k < |nodes| => nodes[k].(exitIp := None))
  }

  // ---------------------------------------------------------------- loading

  function AddrsOf(nodes: seq<ProxyNode>): set<string> {
    set n | n in nodes :: n.addr
  }

  ghost predicate DistinctAddrs(nodes: seq<ProxyNode>) {
    forall i, j :: 0 <= i < j < |nodes| ==> nodes[i].addr != nodes[j].addr
  }

  /** The first address that an earlier node has too. */
  function FirstRepeat(nodes: seq<ProxyNode>): Option<string> {
    if nodes == [] then None
    else
      var front, last := nodes[..|nodes| - 1], nodes[|nodes| - 1];
      var r := FirstRepeat(front);
      if r.Some? then r else if last.addr in AddrsOf(front) then Some(last.addr) else None
  }

  function Checked(nodes: seq<ProxyNode>): Result<seq<ProxyNode>> {
    if |nodes| > MAX_MANAGED_NODES then Err(Validation)
    else if FirstRepeat(nodes).Some? then Err(Duplicate(FirstRepeat(nodes).value))
    else Ok(nodes)
  }

  /** The nodes of a file, provided every one of them is acceptable. */
  function Decode(ps: seq<PersistedNode>): Option<seq<ProxyNode>> {
    if ps == [] then Some([])
    else
      var front := Decode(ps[..|ps| - 1]);
      var last := FromPersisted(ps[|ps| - 1]);
      if front.Some? && last.Ok? then Some(front.value + [last.value]) else None
  }

  function LoadFile(f: FileText): Result<seq<ProxyNode>> {
    if f.Garbage? || f.version != NODES_FILE_VERSION || Decode(f.nodes).None? then Err(Persist)
    else Checked(Decode(f.nodes).value)
  }

  /** What a restart gives: the file if there is one, and the seeds otherwise. */
  function Load(disk: Disk, seeds: seq<ProxyNode>): Result<seq<ProxyNode>> {
    match disk
    case Some(f) => LoadFile(f)
    case None => Checked(seeds)
  }

  method EnsureUniqueAndBounded(nodes: seq<ProxyNode>) returns (r: Result<seq<ProxyNode>>)
    ensures r == Checked(nodes)
  {
    if |nodes| > MAX_MANAGED_NODES {
      return Err(Validation);
    }
    var seen: set<string> := {};
    for k := 0 to |nodes|
      invariant seen == AddrsOf(nodes[..k]) && FirstRepeat(nodes[..k]).None?
    {
      assert nodes[..k + 1] == nodes[..k] + [nodes[k]];
      assert nodes[..k + 1][..k] == nodes[..k];
      AddrsGrow(nodes[..k], nodes[k]);
      if nodes[k].addr in seen {
        RepeatStays(nodes[..k + 1], nodes[k + 1..]);
        assert nodes[..k + 1] + nodes[k + 1..] == nodes;
        return Err(Duplicate(nodes[k].addr));
      }
      seen := seen + {nodes[k].addr};
    }
    assert nodes[..|nodes|] == nodes;
    return Ok(nodes);
  }

  lemma DecodeStep(ps: seq<PersistedNode>, k: nat)
    requires k < |ps|
    ensures Decode(ps[..k + 1]) ==
            if Decode(ps[..k]).Some? && FromPersisted(ps[k]).Ok?
            then Some(Decode(ps[..k]).value + [FromPersisted(ps[k]).value]) else None
  {
    hide FromPersisted;
    assert ps[..k + 1][..k] == ps[..k];
  }

  lemma {:induction false} DecodeStopsAt(ps: seq<PersistedNode>, k: nat)
    requires k < |ps| && FromPersisted(ps[k]).Err?
    ensures Decode(ps).None?
    decreases |ps|
  {
    hide FromPersisted;
    if k < |ps| - 1 {
      DecodeStopsAt(ps[..|ps| - 1], k);
    }
  }

  method DecodeAll(ps: seq<PersistedNode>) returns (r: Option<seq<ProxyNode>>)
    ensures r == Decode(ps)
  {
    var out: seq<ProxyNode> := [];
    assert Decode(ps[..0]) == Some(out);
    hide FromPersisted, Decode;
    for k := 0 to |ps|
      invariant Decode(ps[..k]) == Some(out)
    {
      var node := FromPersisted(ps[k]);
      if node.Err? {
        DecodeStopsAt(ps, k);
        return None;
      }
      DecodeStep(ps, k);
      out := out + [node.value];
    }
    assert ps[..|ps|] == ps;
    return Some(out);
  }

  method ReadFile(f: FileText) returns (r: Result<seq<ProxyNode>>)
    ensures r == LoadFile(f)
  {
    hide Decode, Checked;
    if f.Garbage? || f.version != NODES_FILE_VERSION {
      return Err(Persist);
    }
    var nodes := DecodeAll(f.nodes);
    if nodes.None? {
      return Err(Persist);
    }
    r := EnsureUniqueAndBounded(nodes.value);
  }

  lemma AddrsGrow(nodes: seq<ProxyNode>, n: ProxyNode)
    ensures AddrsOf(nodes + [n]) == AddrsOf(nodes) + {n.addr}
  {
    assert n in nodes + [n];
    forall a | a in AddrsOf(nodes)
      ensures a in AddrsOf(nodes + [n])
    {
      var x :| x in nodes && x.addr == a;
      assert x in nodes + [n];
    }
  }

  lemma {:induction false} RepeatStays(nodes: seq<ProxyNode>, more: seq<ProxyNode>)
    requires FirstRepeat(nodes).Some?
    ensures FirstRepeat(nodes + more) == FirstRepeat(nodes)
  {
    hide AddrsOf;
    if more == [] {
      assert nodes + more == nodes;
    } else {
      RepeatStays(nodes, more[..|more| - 1]);
      assert (nodes + more)[..|nodes + more| - 1] == nodes + more[..|more| - 1];
    }
  }

  lemma {:induction false} NoRepeatIffDistinct(nodes: seq<ProxyNode>)
    ensures FirstRepeat(nodes).None? <==> DistinctAddrs(nodes)
    ensures FirstRepeat(nodes).Some? ==>
              exists i, j :: 0 <= i < j < |nodes| && nodes[i].addr == nodes[j].addr == FirstRepeat(nodes).value
  {
    if nodes != [] {
      var n := |nodes| - 1;
      var front, last := nodes[..n], nodes[n];
      NoRepeatIffDistinct(front);
      if FirstRepeat(front).Some? {
        var i, j :| 0 <= i < j < n && front[i].addr == front[j].addr == FirstRepeat(front).value;
        assert nodes[i].addr == nodes[j].addr == FirstRepeat(nodes).value;
      } else if last.addr in AddrsOf(front) {
        var x :| x in front && x.addr == last.addr;
        var i :| 0 <= i < n && front[i] == x;
        assert nodes[i].addr == nodes[n].addr == FirstRepeat(nodes).value;
      } else {
        forall i | 0 <= i < n
          ensures nodes[i].addr != last.addr
        {
          assert nodes[i] == front[i] && front[i] in front;
        }
        forall i, j | 0 <= i < j < |nodes|
          ensures nodes[i].addr != nodes[j].addr
        {
          if j < n {
            assert front[i].addr != front[j].addr;
          }
        }
      }
    }
  }

  // ---------------------------------------------------------------- the file round trip

  /** What the store holds at all times. */
  ghost predicate Sound(nodes: seq<ProxyNode>) {
    && |nodes| <= MAX_MANAGED_NODES
    && DistinctAddrs(nodes)
    && forall k :: 0 <= k < |nodes| ==> Normal(nodes[k])
  }

  lemma ForgetKeepsSound(nodes: seq<ProxyNode>)
    ensures Sound(Forget(nodes)) <==> Sound(nodes)
  {
    hide IsTier, ProviderOk, CredentialsOk, AddrOf, Trimmed;
    forall k | 0 <= k < |nodes|
      ensures Normal(Forget(nodes)[k]) <==> Normal(nodes[k])
      ensures Forget(nodes)[k].addr == nodes[k].addr
    {
      assert Forget(nodes)[k] == nodes[k].(exitIp := None);
    }
    hide Forget, Normal;
    if Sound(Forget(nodes)) {
      forall i, j | 0 <= i < j < |nodes|
        ensures nodes[i].addr != nodes[j].addr
      {
        assert Forget(nodes)[i].addr != Forget(nodes)[j].addr;
      }
    }
  }

  lemma {:induction false} DecodeOfEncode(nodes: seq<ProxyNode>)
    requires forall k :: 0 <= k < |nodes| ==> Normal(nodes[k])
    ensures Decode(Encode(nodes).nodes) == Some(Forget(nodes))
  {
    hide Normal, FromPersisted, ToPersisted;
    if nodes == [] {
    } else {
      var front, last := nodes[..|nodes| - 1], nodes[|nodes| - 1];
      DecodeOfEncode(front);
      NodeRoundTrip(last);
      assert Encode(nodes).nodes[..|nodes| - 1] == Encode(front).nodes;
      assert Forget(nodes) == Forget(front) + [last.(exitIp := None)];
    }
  }

  lemma ForgetIsIdentityIff(nodes: seq<ProxyNode>)
    ensures Forget(nodes) == nodes <==> forall k :: 0 <= k < |nodes| ==> nodes[k].exitIp == None
  {
    if k :| 0 <= k < |nodes| && nodes[k].exitIp != None {
      assert Forget(nodes)[k] != nodes[k];
    } else {
      assert Forget(nodes) == nodes;
    }
  }

  lemma CheckedIffDistinct(nodes: seq<ProxyNode>)
    ensures Checked(nodes) == Ok(nodes) <==> |nodes| <= MAX_MANAGED_NODES && DistinctAddrs(nodes)
  {
    NoRepeatIffDistinct(nodes);
  }

  /** A list comes back from its file, up to the exit addresses, which are not written, exactly if it is sound. */
  lemma FileRoundTrip(nodes: seq<ProxyNode>)
    ensures LoadFile(Encode(nodes)) == Ok(Forget(nodes)) <==> Sound(nodes)
    ensures LoadFile(Encode(nodes)) == Ok(nodes) <==>
            Sound(nodes) && forall k :: 0 <= k < |nodes| ==> nodes[k].exitIp == None
  {
    hide Sound, LoadFile;
    ForgetKeepsSound(nodes);
    ForgetIsIdentityIff(nodes);
    if Sound(nodes) {
      SoundIsReloaded(nodes);
    }
    if LoadFile(Encode(nodes)).Ok? {
      ReadIsSound(Encode(nodes));
      ReadForgets(Encode(nodes));
    }
  }

  lemma SoundIsReloaded(nodes: seq<ProxyNode>)
    requires Sound(nodes)
    ensures LoadFile(Encode(nodes)) == Ok(Forget(nodes))
  {
    hide Normal, Decode, Forget, Checked, DistinctAddrs;
    DecodeOfEncode(nodes);
    ForgetKeepsSound(nodes);
    CheckedIffDistinct(Forget(nodes));
  }

  lemma ReadForgets(f: FileText)
    requires LoadFile(f).Ok?
    ensures Forget(LoadFile(f).value) == LoadFile(f).value
  {
    DecodedAreNormal(f.nodes);
    ForgetIsIdentityIff(LoadFile(f).value);
    hide Normal, Decode, Forget, FirstRepeat;
  }

  /** Whatever a file holds, what is read from it is sound. */
  lemma ReadIsSound(f: FileText)
    requires LoadFile(f).Ok?
    ensures Sound(LoadFile(f).value)
  {
    var nodes := LoadFile(f).value;
    NoRepeatIffDistinct(nodes);
    DecodedAreNormal(f.nodes);
  }

  lemma {:induction false} DecodedAreNormal(ps: seq<PersistedNode>)
    requires Decode(ps).Some?
    ensures forall k :: 0 <= k < |Decode(ps).value| ==>
              Normal(Decode(ps).value[k]) && Decode(ps).value[k].exitIp == None
  {
    hide Normal, FromPersisted;
    if ps != [] {
      DecodedAreNormal(ps[..|ps| - 1]);
      ReadIsNormal(ps[|ps| - 1]);
    }
  }

  // ---------------------------------------------------------------- what loads

  lemma {:induction false} DecodeIff(ps: seq<PersistedNode>, nodes: seq<ProxyNode>)
    ensures Decode(ps) == Some(nodes) <==> ReadAs(ps, nodes)
  {
    hide FromPersisted;
    if ps != [] && nodes != [] {
      var n, m := |ps| - 1, |nodes| - 1;
      DecodeIff(ps[..n], nodes[..m]);
      assert nodes == nodes[..m] + [nodes[m]];
    }
  }

  /** Each node of the list is what its entry in the file is read as. */
  ghost predicate ReadAs(ps: seq<PersistedNode>, nodes: seq<ProxyNode>) {
    |nodes| == |ps| && forall k :: 0 <= k < |ps| ==> FromPersisted(ps[k]) == Ok(nodes[k])
  }

  /** A file loads exactly if it is of version 1, has at most 10,000 nodes, each of which can be read, and no address
      twice; the list loaded are its nodes in their order. */
  lemma LoadsIff(f: FileText, nodes: seq<ProxyNode>)
    ensures LoadFile(f) == Ok(nodes) <==>
            && f.NodesFile? && f.version == 1 && |nodes| <= 10_000 && ReadAs(f.nodes, nodes)
            && forall i, j :: 0 <= i < j < |nodes| ==> nodes[i].addr != nodes[j].addr
  {
    if f.NodesFile? {
      DecodeIff(f.nodes, nodes);
      NoRepeatIffDistinct(nodes);
    }
    hide Decode, FromPersisted, FirstRepeat, ReadAs;
  }

  /** A repeated address is reported as such. */
  lemma RepeatIsReported(f: FileText, addr: string) returns (nodes: seq<ProxyNode>, i: nat, j: nat)
    requires LoadFile(f) == Err(Duplicate(addr))
    ensures f.NodesFile? && ReadAs(f.nodes, nodes)
    ensures i < j < |nodes| && nodes[i].addr == nodes[j].addr == addr
  {
    nodes := Decode(f.nodes).value;
    DecodeIff(f.nodes, nodes);
    NoRepeatIffDistinct(nodes);
    hide Decode, FromPersisted, FirstRepeat, ReadAs;
    i, j :| 0 <= i < j < |nodes| && nodes[i].addr == nodes[j].addr == FirstRepeat(nodes).value;
  }

  /** Without a file the seeds are taken, under the same bounds. */
  lemma SeedsLoadIff(seeds: seq<ProxyNode>, nodes: seq<ProxyNode>)
    ensures Load(None, seeds) == Ok(nodes) <==>
            && nodes == seeds && |seeds| <= 10_000
            && forall i, j :: 0 <= i < j < |seeds| ==> seeds[i].addr != seeds[j].addr
  {
    NoRepeatIffDistinct(seeds);
    hide FirstRepeat;
  }

  // ---------------------------------------------------------------- the seeds

  function Seed(port: Port, country: string, tier: string, provider: string, weight: nat): ProxyNode {
    ProxyNode("127.0.0.1", port, AddrOf("127.0.0.1", port), None, None,
              country, CanonicalTier(tier), provider, weight, Http, None)
  }

  /** The nodes a gateway starts with that has no file yet. */
  const SEEDS := [
    Seed(8888, "US", "residential", "mock-a", 100),
    Seed(8889, "JP", "datacenter", "mock-b", 80),
    Seed(8890, "GB", "mobile", "mock-c", 60)]

  lemma LoopbackParses()
    ensures Ipv4.Parse("127.0.0.1").Some?
  {
    assert Decimal.Print(1) == "1" && Decimal.Print(0) == "0";
    assert Decimal.Print(12) == "12";
    assert Decimal.Print(127) == "127";
    hide Decimal.Print, Ipv4.Parse;
    var parts := ["127", "0", "0", "1"];
    assert Splitting.Join(parts[2..], '.') == "0.1";
    assert Splitting.Join(parts[1..], '.') == "0.0.1";
    assert Ipv4.Show(Ipv4.Address(127, 0, 0, 1)) == "127.0.0.1";
    Ipv4.ParseShown(Ipv4.Address(127, 0, 0, 1));
  }

  lemma ShortProviderOk(s: string)
    requires |s| == 6 && s[..5] == "mock-" && Text.IsLower(s[5])
    ensures Trimmed(s) && ProviderOk(s)
  {
    assert s == "mock-" + [s[5]];
    hide Text.Lower;
    ShortUtf8(s);
    assert Lower(s)[0] == 'm';
  }

  lemma {:induction false} ShortUtf8(s: string)
    requires forall k :: 0 <= k < |s| ==> s[k] as int < 0x80
    ensures Utf8Len(s) == |s|
  {
    if s != [] {
      ShortUtf8(s[..|s| - 1]);
    }
  }

  lemma SeedIsNormal(port: Port, country: string, tier: string, provider: string, weight: nat)
    requires port > 0 && weight <= MAX_WEIGHT && IsTier(tier)
    requires |country| == 2 && Text.IsUpper(country[0]) && Text.IsUpper(country[1])
    requires |provider| == 6 && provider[..5] == "mock-" && Text.IsLower(provider[5])
    ensures Normal(Seed(port, country, tier, provider, weight))
  {
    LoopbackParses();
    ShortProviderOk(provider);
    TierFixed(tier);
    hide ProviderOk, Trimmed, Ipv4.Parse, CanonicalTier, AddrOf;
  }

  lemma ThreeAreSound(nodes: seq<ProxyNode>)
    requires |nodes| == 3 && Normal(nodes[0]) && Normal(nodes[1]) && Normal(nodes[2])
    requires nodes[0].port < nodes[1].port < nodes[2].port
    ensures Sound(nodes)
  {
    hide Normal;
    forall i, j | 0 <= i < j < 3
      ensures nodes[i].addr != nodes[j].addr
    {
      if nodes[i].addr == nodes[j].addr {
        AddrNamesIpAndPort(nodes[i], nodes[j]);
      }
    }
  }

  lemma SeedsAreSound()
    ensures Sound(SEEDS)
  {
    hide Normal, Sound, AddrOf, CanonicalTier;
    SeedIsNormal(8888, "US", "residential", "mock-a", 100);
    SeedIsNormal(8889, "JP", "datacenter", "mock-b", 80);
    SeedIsNormal(8890, "GB", "mobile", "mock-c", 60);
    ThreeAreSound(SEEDS);
  }

  lemma SeedsExitNowhere()
    ensures forall k :: 0 <= k < |SEEDS| ==> SEEDS[k].exitIp == None
  {
    hide AddrOf, CanonicalTier;
  }

  /** The seeds are sound: they pass the check, and the first file written from them loads back as the same list. */
  lemma SeedsComeBack()
    ensures Sound(SEEDS)
    ensures Load(None, SEEDS) == Ok(SEEDS)
    ensures LoadFile(Encode(SEEDS)) == Ok(SEEDS)
  {
    SeedsAreSound();
    SeedsExitNowhere();
    SoundPasses(SEEDS);
    hide *;
    FileRoundTrip(SEEDS);
  }

  lemma SoundPasses(nodes: seq<ProxyNode>)
    requires Sound(nodes)
    ensures Load(None, nodes) == Ok(nodes)
  {
    hide Normal, Checked;
    CheckedIffDistinct(nodes);
  }
}
