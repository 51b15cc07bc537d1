/** Managed nodes: what the control plane accepts, its normal form, and the form kept in the file. */
module ManagedNode {
  import opened Options
  import opened Text
  import opened Splitting
  import Decimal
  import Ipv4

  const MAX_WEIGHT: nat := 100
  const MAX_PROVIDER_BYTES: nat := 64
  const MAX_USERNAME_BYTES: nat := 256
  const MAX_PASSWORD_BYTES: nat := 512
  const RESERVED_PROVIDER := "free"
  const RESERVED_PROVIDER_PREFIX := "free-"

  datatype Proto = Http | Socks5 | Socks4

  type Port = n: nat | n <= 65535

  datatype ProxyNode = ProxyNode(
    ip: string, port: Port, addr: string, username: Option<string>, password: Option<string>,
    country: string, tier: string, provider: string, weight: nat, proto: Proto, exitIp: Option<string>)

  datatype Error = Validation | Duplicate(addr: string) | NotFound(addr: string) | Persist | Apply

  datatype Result<+T> = Ok(value: T) | Err(error: Error)

  function AddrOf(ip: string, port: Port): string {
    ip + ":" + Decimal.Print(port)
  }

  function CanonicalTier(s: string): string {
    var t := Lower(s);
    if t == "res" then "residential" else if t == "dc" then "datacenter" else t
  }

  predicate IsTier(s: string) {
    s == "datacenter" || s == "residential" || s == "mobile"
  }

  predicate IsCountry(s: string) {
    |s| == 2 && IsLetter(s[0]) && IsLetter(s[1])
  }

  /** The length of the UTF-8 encoding. */
  function Utf8Len(s: string): nat {
    if s == [] then 0
    else
      var c := s[|s| - 1] as int;
      Utf8Len(s[..|s| - 1]) + if c < 0x80 then 1 else if c < 0x800 then 2 else if c < 0x10000 then 3 else 4
  }

  predicate IsControl(c: char) {
    (c as int) < 0x20 || 0x7F <= c as int <= 0x9F
  }

  predicate ProviderOk(s: string) {
    && s != [] && Utf8Len(s) <= MAX_PROVIDER_BYTES
    && (forall k :: 0 <= k < |s| ==> !IsControl(s[k]))
    && !EqIgnoreCase(s, RESERVED_PROVIDER)
    && !(RESERVED_PROVIDER_PREFIX <= Lower(s))
  }

  predicate CredentialsOk(username: Option<string>, password: Option<string>) {
    match username
    case None => password.None?
    case Some(u) =>
      && u != [] && Utf8Len(u) <= MAX_USERNAME_BYTES
      && (password.Some? ==> Utf8Len(password.value) <= MAX_PASSWORD_BYTES)
  }

  /** Trim and rewrite what has a canonical form, refuse the rest. */
  function Normalize(raw: ProxyNode): Result<ProxyNode> {
    var q := Ipv4.Parse(Trim(raw.ip));
    if q.None? || raw.port == 0 then Err(Validation)
    else
      var ip := Ipv4.Show(q.value);
      var country, tier, provider := Trim(raw.country), CanonicalTier(Trim(raw.tier)), Trim(raw.provider);
      if !IsCountry(country) || !IsTier(tier) || !ProviderOk(provider) then Err(Validation)
      else if raw.weight > MAX_WEIGHT || !CredentialsOk(raw.username, raw.password) then Err(Validation)
      else
        Ok(raw.(ip := ip, addr := AddrOf(ip, raw.port), country := Upper(country), tier := tier, provider := provider))
  }

  /** The normal form, without reference to how it is reached. */
  predicate Normal(n: ProxyNode) {
    && Ipv4.Parse(n.ip).Some? && n.port > 0
    && n.addr == AddrOf(n.ip, n.port)
    && |n.country| == 2 && IsUpper(n.country[0]) && IsUpper(n.country[1])
    && IsTier(n.tier)
    && Trimmed(n.provider) && ProviderOk(n.provider)
    && n.weight <= MAX_WEIGHT
    && CredentialsOk(n.username, n.password)
  }

  // ---------------------------------------------------------------- what normalization does

  lemma TierFacts(s: string)
    requires IsTier(s)
    ensures |s| >= 6 && forall k :: 0 <= k < |s| ==> IsLower(s[k])
  {
  }

  lemma TierFixed(s: string)
    requires IsTier(s)
    ensures Trim(s) == s && CanonicalTier(s) == s
  {
    TierFacts(s);
    hide IsTier;
    LowerFixes(s);
    assert Trimmed(s);
    hide IsSpace, Trimmed, Lower;
    TrimOfTrimmed(s);
    hide Trim;
  }

  lemma CountryUpper(s: string)
    requires IsCountry(s)
    ensures |Upper(s)| == 2 && IsUpper(Upper(s)[0]) && IsUpper(Upper(s)[1])
  {
  }

  lemma CountryFixed(s: string)
    requires |s| == 2 && IsUpper(s[0]) && IsUpper(s[1])
    ensures Trim(s) == s && IsCountry(s) && Upper(s) == s
  {
    assert Upper(s) == s;
    assert Trimmed(s);
    hide IsSpace, Trimmed, Upper;
    TrimOfTrimmed(s);
  }

  lemma IpFixed(s: string)
    requires Ipv4.Parse(s).Some?
    ensures Trim(s) == s && Ipv4.Show(Ipv4.Parse(s).value) == s
  {
    Ipv4.ShowParsed(s);
    Ipv4.ShowIsDotted(Ipv4.Parse(s).value);
    TrimOfTrimmed(s);
  }

  /** What is accepted comes out in normal form, and normalization keeps the other fields. */
  lemma NormalizeGivesNormal(raw: ProxyNode)
    requires Normalize(raw).Ok?
    ensures var n := Normalize(raw).value;
            && Normal(n)
            && n == raw.(ip := n.ip, addr := n.addr, country := n.country, tier := n.tier, provider := n.provider)
            && n.ip == Trim(raw.ip) && EqIgnoreCase(n.country, Trim(raw.country)) && n.provider == Trim(raw.provider)
  {
    hide Trim, CanonicalTier, IsTier, IsCountry, ProviderOk, CredentialsOk, Upper, Lower, EqIgnoreCase, Trimmed;
    hide Ipv4.Parse, Ipv4.Show, AddrOf, IsSpace, IsUpper;
    IpFixed(Trim(raw.ip));
    if IsCountry(Trim(raw.country)) {
      CountryUpper(Trim(raw.country));
      UpperKeepsCase(Trim(raw.country));
    }
    TrimGivesTrimmed(raw.provider);
  }

  predicate IsNamed(s: string, name: string, short: string) {
    EqIgnoreCase(s, name) || EqIgnoreCase(s, short)
  }

  lemma TierNames(s: string)
    ensures CanonicalTier(s) == "residential" <==> IsNamed(s, "residential", "res")
    ensures CanonicalTier(s) == "datacenter" <==> IsNamed(s, "datacenter", "dc")
    ensures CanonicalTier(s) == "mobile" <==> EqIgnoreCase(s, "mobile")
  {
    hide Lower;
    LowerFixes("residential");
    LowerFixes("res");
    LowerFixes("datacenter");
    LowerFixes("dc");
    LowerFixes("mobile");
  }

  /** The tiers: residential and datacenter have a short name each, mobile has none, and there are no others. */
  lemma TierIsRead(raw: ProxyNode)
    ensures var tier := Trim(raw.tier);
            match Normalize(raw)
            case Ok(n) =>
              && (n.tier == "residential" <==> IsNamed(tier, "residential", "res"))
              && (n.tier == "datacenter" <==> IsNamed(tier, "datacenter", "dc"))
              && (n.tier == "mobile" <==> EqIgnoreCase(tier, "mobile"))
              && (n.tier == "residential" || n.tier == "datacenter" || n.tier == "mobile")
            case Err(_) => true
    ensures var tier := Trim(raw.tier);
            !IsNamed(tier, "residential", "res") && !IsNamed(tier, "datacenter", "dc") && !EqIgnoreCase(tier, "mobile")
            ==> Normalize(raw) == Err(Validation)
  {
    TierNames(Trim(raw.tier));
    hide Trim, CanonicalTier, IsCountry, ProviderOk, CredentialsOk, Upper, EqIgnoreCase, Ipv4.Parse, Ipv4.Show, AddrOf;
  }

  /** The bytes of one character in UTF-8. */
  function Utf8Size(c: char): nat {
    if (c as int) <= 0x7F then 1 else if (c as int) <= 0x7FF then 2 else if (c as int) <= 0xFFFF then 3 else 4
  }

  function Utf8Sizes(s: string): nat {
    if s == [] then 0 else Utf8Size(s[0]) + Utf8Sizes(s[1..])
  }

  lemma {:induction false} SizesPush(s: string, c: char)
    ensures Utf8Sizes(s + [c]) == Utf8Sizes(s) + Utf8Size(c)
  {
    if s == [] {
      assert s + [c] == [c] && [c][1..] == [];
    } else {
      SizesPush(s[1..], c);
      assert (s + [c])[1..] == s[1..] + [c];
    }
  }

  lemma {:induction false} LenIsSizes(s: string)
    ensures Utf8Len(s) == Utf8Sizes(s)
  {
    if s != [] {
      LenIsSizes(s[..|s| - 1]);
      SizesPush(s[..|s| - 1], s[|s| - 1]);
      assert s == s[..|s| - 1] + [s[|s| - 1]];
    }
  }

  lemma ProviderInFull(s: string)
    ensures ProviderOk(s) <==>
            && s != [] && Utf8Sizes(s) <= 64
            && (forall k :: 0 <= k < |s| ==> ' ' <= s[k] <= '~' || s[k] >= '\U{00A0}')
            && Lower(s) != "free" && !("free-" <= Lower(s))
  {
    LenIsSizes(s);
    IsFreeName(s);
    hide Lower, Utf8Len, Utf8Sizes, IsControl, EqIgnoreCase;
    forall k | 0 <= k < |s|
      ensures !IsControl(s[k]) <==> ' ' <= s[k] <= '~' || s[k] >= '\U{00A0}'
    {
      ControlIff(s[k]);
    }
  }

  lemma IsFreeName(s: string)
    ensures EqIgnoreCase(s, RESERVED_PROVIDER) <==> Lower(s) == "free"
  {
    hide Lower;
    LowerFixes("free");
  }

  lemma ControlIff(c: char)
    ensures !IsControl(c) <==> ' ' <= c <= '~' || c >= '\U{00A0}'
  {
  }

  lemma CredentialsInFull(username: Option<string>, password: Option<string>)
    ensures CredentialsOk(username, password) <==>
            && (password.Some? ==> username.Some? && Utf8Sizes(password.value) <= 512)
            && (username.Some? ==> username.value != [] && Utf8Sizes(username.value) <= 256)
  {
    if username.Some? {
      LenIsSizes(username.value);
    }
    if password.Some? {
      LenIsSizes(password.value);
    }
    hide Utf8Len, Utf8Sizes;
  }

  lemma TrimmedIff(s: string)
    ensures Trimmed(s) <==> s == Trim(s)
  {
    TrimGivesTrimmed(s);
    hide IsSpace, Trimmed, Trim;
    if Trimmed(s) {
      TrimOfTrimmed(s);
    }
  }

  /** The normal form in full: host, port and address; country and tier; a provider of 1 to 64 bytes without control
      characters or white space around it that is not one of the free pool's; a weight of at most 100; no password
      without a user name of 1 to 256 bytes, and none of more than 512. */
  lemma NormalInFull(n: ProxyNode)
    ensures Normal(n) <==>
            && Ipv4.Parse(n.ip).Some? && n.port >= 1 && n.addr == n.ip + ":" + Decimal.Print(n.port)
            && |n.country| == 2 && 'A' <= n.country[0] <= 'Z' && 'A' <= n.country[1] <= 'Z'
            && n.tier in {"datacenter", "residential", "mobile"}
            && n.provider != [] && Utf8Sizes(n.provider) <= 64 && n.provider == Trim(n.provider)
            && (forall k :: 0 <= k < |n.provider| ==>
                 ' ' <= n.provider[k] <= '~' || n.provider[k] >= '\U{00A0}')
            && Lower(n.provider) != "free" && !("free-" <= Lower(n.provider))
            && n.weight <= 100
            && (n.password.Some? ==> n.username.Some? && Utf8Sizes(n.password.value) <= 512)
            && (n.username.Some? ==> n.username.value != [] && Utf8Sizes(n.username.value) <= 256)
  {
    ProviderInFull(n.provider);
    CredentialsInFull(n.username, n.password);
    TrimmedIff(n.provider);
    hide Ipv4.Parse, Trim, Trimmed, Lower, Utf8Sizes, ProviderOk, CredentialsOk;
  }

  lemma UpperKeepsCase(s: string)
    ensures EqIgnoreCase(Upper(s), s)
  {
  }

  /** The normal form is what normalization leaves alone. */
  lemma NormalIffFixed(n: ProxyNode)
    ensures Normal(n) <==> Normalize(n) == Ok(n)
  {
    hide Trim, CanonicalTier, IsTier, IsCountry, ProviderOk, CredentialsOk, Upper, Lower, EqIgnoreCase, Trimmed;
    hide Ipv4.Parse, Ipv4.Show, AddrOf, IsSpace, IsUpper;
    if Normalize(n).Ok? {
      NormalizeGivesNormal(n);
    }
    if Normal(n) {
      IpFixed(n.ip);
      CountryFixed(n.country);
      TierFixed(n.tier);
      TrimOfTrimmed(n.provider);
    }
  }

  /** `raw` spells the node `n`: the same host, country, tier and provider but for white space, case and short tier
      names, and the same in everything else but the address. */
  predicate Spells(raw: ProxyNode, n: ProxyNode) {
    && n.ip == Trim(raw.ip) && EqIgnoreCase(n.country, Trim(raw.country))
    && n.tier == CanonicalTier(Trim(raw.tier)) && n.provider == Trim(raw.provider)
    && n == raw.(ip := n.ip, addr := n.addr, country := n.country, tier := n.tier, provider := n.provider)
  }

  lemma SameLettersUpper(s: string, t: string)
    requires |s| == 2 && IsUpper(s[0]) && IsUpper(s[1]) && EqIgnoreCase(s, t)
    ensures IsCountry(t) && Upper(t) == s
  {
    assert |Lower(s)| == |Lower(t)| == |t|;
    assert forall k :: 0 <= k < 2 ==> LowerChar(s[k]) == Lower(s)[k] == Lower(t)[k] == LowerChar(t[k]);
    assert forall k :: 0 <= k < 2 ==> UpperChar(t[k]) == s[k];
    hide Lower;
  }

  /** Normalization gives exactly the node in normal form that the raw node spells, and refuses a raw node exactly if
      it spells none. */
  lemma NormalizeIff(raw: ProxyNode, n: ProxyNode)
    ensures Normalize(raw) == Ok(n) <==> Normal(n) && Spells(raw, n)
  {
    hide Trim, CanonicalTier, IsTier, IsCountry, ProviderOk, CredentialsOk, Upper, Lower, EqIgnoreCase, Trimmed;
    hide Ipv4.Parse, Ipv4.Show, AddrOf, IsSpace, IsUpper;
    if Normalize(raw).Ok? {
      NormalizeGivesNormal(raw);
    }
    if Normal(n) && Spells(raw, n) {
      IpFixed(n.ip);
      SameLettersUpper(n.country, Trim(raw.country));
    }
  }

  lemma NormalizeIsIdempotent(raw: ProxyNode)
    requires Normalize(raw).Ok?
    ensures Normalize(Normalize(raw).value) == Normalize(raw)
  {
    NormalizeGivesNormal(raw);
    NormalIffFixed(Normalize(raw).value);
  }

  /** In normal form the address names the host and the port. */
  lemma AddrNamesIpAndPort(m: ProxyNode, n: ProxyNode)
    requires Normal(m) && Normal(n) && m.addr == n.addr
    ensures m.ip == n.ip && m.port == n.port
  {
    AddrSplits(m);
    AddrSplits(n);
    assert [m.ip, Decimal.Print(m.port)] == [n.ip, Decimal.Print(n.port)];
    assert [m.ip, Decimal.Print(m.port)][1] == [n.ip, Decimal.Print(n.port)][1];
    assert Decimal.Value(Decimal.Print(m.port)) == Decimal.Value(Decimal.Print(n.port));
  }

  lemma AddrSplits(n: ProxyNode)
    requires Normal(n)
    ensures Split(n.addr, ':') == [n.ip, Decimal.Print(n.port)]
  {
    Ipv4.ShowParsed(n.ip);
    Ipv4.ShowIsDotted(Ipv4.Parse(n.ip).value);
    assert n.addr == n.ip + [':'] + Decimal.Print(n.port);
    SplitFirst(n.ip, Decimal.Print(n.port), ':');
    SplitNone(Decimal.Print(n.port), ':');
  }

  // ---------------------------------------------------------------- the form in the file

  datatype PersistedNode = PersistedNode(
    ip: string, port: Port, username: Option<string>, password: Option<string>,
    country: string, tier: string, provider: string, weight: nat, proto: string)

  function ProtoStr(p: Proto): string {
    match p
    case Http => "http"
    case Socks5 => "socks5"
    case Socks4 => "socks4"
  }

  function FromToken(tok: string): Option<Proto> {
    var t := Lower(tok);
    if t == "http" || t == "https" then Some(Http)
    else if t == "socks5" || t == "socks5h" then Some(Socks5)
    else if t == "socks4" || t == "socks4a" then Some(Socks4)
    else None
  }

  function ToPersisted(n: ProxyNode): PersistedNode {
    PersistedNode(n.ip, n.port, n.username, n.password, n.country, n.tier, n.provider, n.weight, ProtoStr(n.proto))
  }

  function FromPersisted(p: PersistedNode): Result<ProxyNode> {
    match FromToken(p.proto)
    case None => Err(Validation)
    case Some(proto) =>
      Normalize(ProxyNode(p.ip, p.port, AddrOf(p.ip, p.port), p.username, p.password, p.country, CanonicalTier(p.tier),
                          p.provider, p.weight, proto, None))
  }

  lemma TokenOfProto(p: Proto)
    ensures FromToken(ProtoStr(p)) == Some(p)
  {
    LowerFixes(ProtoStr(p));
  }

  /** The names of a protocol, in either case; there are no others. */
  lemma ProtoNames(tok: string)
    ensures FromToken(tok) == Some(Http) <==> IsNamed(tok, "http", "https")
    ensures FromToken(tok) == Some(Socks5) <==> IsNamed(tok, "socks5", "socks5h")
    ensures FromToken(tok) == Some(Socks4) <==> IsNamed(tok, "socks4", "socks4a")
  {
    hide Lower;
    LowerFixes("http");
    LowerFixes("https");
    LowerFixes("socks5");
    LowerFixes("socks5h");
    LowerFixes("socks4");
    LowerFixes("socks4a");
  }

  /** A node in normal form comes back from the file with everything but the observed exit address. */
  lemma NodeRoundTrip(n: ProxyNode)
    requires Normal(n)
    ensures FromPersisted(ToPersisted(n)) == Ok(n.(exitIp := None))
  {
    TokenOfProto(n.proto);
    TierFixed(n.tier);
    NormalIffFixed(n.(exitIp := None));
    hide Normalize, FromToken, AddrOf, CanonicalTier, Trim, Lower, Ipv4.Parse, ProviderOk, CredentialsOk;
  }

  /** Whatever a file holds, a node read from it is in normal form and has no exit address. */
  lemma ReadIsNormal(p: PersistedNode)
    requires FromPersisted(p).Ok?
    ensures Normal(FromPersisted(p).value) && FromPersisted(p).value.exitIp == None
  {
    var proto := FromToken(p.proto).value;
    NormalizeGivesNormal(
      ProxyNode(p.ip, p.port, AddrOf(p.ip, p.port), p.username, p.password, p.country, CanonicalTier(p.tier),
                p.provider, p.weight, proto, None));
    hide *;
  }
}
