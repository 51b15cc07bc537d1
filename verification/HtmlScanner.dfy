/** The byte scanner for addresses in HTML: `a.b.c.d` with a port behind a colon or behind tags.
    Text is given byte by byte; only ASCII bytes matter to the scanner. */
module HtmlScanner {
  import opened Options
  import opened Text
  import opened Decimal
  import opened Routable
  import opened Registry

  const WINDOW: nat := 200

  datatype Match = Match(ip: Ipv4.Address, port: nat, consumed: nat)

  /** The end of the run of digits at `pos`. */
  function DigitsEnd(b: string, pos: nat): (end: nat)
    requires pos <= |b|
    ensures pos <= end <= |b|
    ensures AllDigits(b[pos..end])
    ensures end < |b| ==> !IsDigit(b[end])
    decreases |b| - pos
  {
    if pos < |b| && IsDigit(b[pos]) then
      assert b[pos..DigitsEnd(b, pos + 1)] == [b[pos]] + b[pos + 1..DigitsEnd(b, pos + 1)];
      DigitsEnd(b, pos + 1)
    else pos
  }

  /** The value of the digits at `pos`, if there are any and it is at most `max`. */
  function Number(b: string, pos: nat, max: nat): (v: Option<nat>)
    requires pos <= |b|
    ensures v.Some? ==> v.value <= max && DigitsEnd(b, pos) > pos
  {
    var end := DigitsEnd(b, pos);
    if end > pos && Value(b[pos..end]) <= max then Some(Value(b[pos..end])) else None
  }

  /** `n` octets from `pos` on, separated by dots, and where they end. */
  function Octets(b: string, pos: nat, n: nat): (r: Option<(seq<nat>, nat)>)
    requires pos <= |b|
    ensures r.Some? ==> |r.value.0| == n && pos <= r.value.1 <= |b|
    ensures r.Some? ==> forall k :: 0 <= k < n ==> r.value.0[k] <= 255
    ensures r.Some? && n > 0 ==> pos < r.value.1
    decreases n
  {
    if n == 0 then Some(([], pos))
    else
      var v, end := Number(b, pos, 255), DigitsEnd(b, pos);
      if v.None? then None
      else if n == 1 then Some(([v.value], end))
      else if end == |b| || b[end] != '.' then None
      else
        var rest := Octets(b, end + 1, n - 1);
        if rest.None? then None else Some(([v.value] + rest.value.0, rest.value.1))
  }

  predicate IsFiller(c: char) {
    c == ' ' || c == '\t' || c == '\r' || c == '\n' || c == '>'
  }

  function SkipFiller(b: string, p: nat): (r: nat)
    requires p <= |b|
    ensures p <= r <= |b|
    ensures r < |b| ==> !IsFiller(b[r])
    decreases |b| - p
  {
    if p < |b| && IsFiller(b[p]) then SkipFiller(b, p + 1) else p
  }

  function FindGreater(b: string, p: nat): (r: nat)
    requires p <= |b|
    ensures p <= r <= |b|
    ensures r < |b| ==> b[r] == '>'
    decreases |b| - p
  {
    if p < |b| && b[p] != '>' then FindGreater(b, p + 1) else p
  }

  /** The first digit behind white space and whole tags. */
  function SkipTags(b: string, p: nat): (r: Option<nat>)
    requires p <= |b|
    ensures r.Some? ==> p <= r.value < |b| && IsDigit(b[r.value])
    decreases |b| - p
  {
    var q := SkipFiller(b, p);
    if q == |b| then None
    else if IsDigit(b[q]) then Some(q)
    else if b[q] == '<' && FindGreater(b, q) < |b| then SkipTags(b, FindGreater(b, q) + 1)
    else None
  }

  function PortStart(b: string, pos: nat): (r: Option<nat>)
    requires pos <= |b|
    ensures r.Some? ==> pos <= r.value <= |b|
  {
    if pos < |b| && b[pos] == ':' then Some(pos + 1) else SkipTags(b, pos)
  }

  /** An address with a port at the head of the text. */
  function MatchIpPort(b: string): (m: Option<Match>)
    ensures m.Some? ==>
              && Ipv4.InRange(m.value.ip) && 1 <= m.value.port <= 65535 && 1 <= m.value.consumed <= |b|
  {
    var os := Octets(b, 0, 4);
    if os.None? then None
    else
      var start := PortStart(b, os.value.1);
      if start.None? then None
      else
        var port := Number(b, start.value, 65535);
        if port.None? || port.value == 0 then None
        else
          var o := os.value.0;
          Some(Match(Ipv4.Address(o[0], o[1], o[2], o[3]), port.value, DigitsEnd(b, start.value)))
  }

  predicate Contains(s: string, pattern: string) {
    exists i :: 0 <= i <= |s| && OccursAt(s, pattern, i)
  }

  predicate OccursAt(s: string, pattern: string, i: nat)
    requires i <= |s|
  {
    pattern <= s[i..]
  }

  function Sniff(text: string, default: FreeProto): FreeProto {
    if Contains(Lower(text), "socks5") then Socks5
    else if Contains(Lower(text), "socks4") then Socks4
    else default
  }

  function WindowBefore(html: string, i: nat): string
    requires i <= |html|
  {
    html[if i < WINDOW then 0 else i - WINDOW..i]
  }

  /** A number starts here: a digit, not preceded by a digit or a dot. */
  predicate AtToken(html: string, i: nat)
    requires i < |html|
  {
    IsDigit(html[i]) && (i > 0 ==> !IsDigit(html[i - 1]) && html[i - 1] != '.')
  }

  /** What the scanner does at position `i`: what it adds, and where it goes on. */
  function Look(source: string, html: string, default: FreeProto, i: nat): (r: (seq<RawNode>, nat))
    requires i < |html|
    ensures i < r.1 <= |html|
  {
    if !AtToken(html, i) then ([], i + 1)
    else
      var m := MatchIpPort(html[i..]);
      if m.None? then ([], i + 1)
      else
        var ip := Ipv4.Show(m.value.ip);
        var found := RawNode(ip, m.value.port, Sniff(WindowBefore(html, i), default), None, source);
        (if IsRoutableIp(ip) then [found] else [], i + m.value.consumed)
  }

  function ExtractFrom(source: string, html: string, default: FreeProto, i: nat): seq<RawNode>
    requires i <= |html|
    decreases |html| - i
  {
    if i == |html| then []
    else
      var r := Look(source, html, default, i);
      r.0 + ExtractFrom(source, html, default, r.1)
  }

  // ---------------------------------------------------------------- the loops

  method ScanDigits(b: string, pos: nat) returns (end: nat)
    requires pos <= |b|
    ensures end == DigitsEnd(b, pos)
  {
    end := pos;
    while end < |b| && IsDigit(b[end])
      invariant pos <= end <= |b|
      invariant DigitsEnd(b, pos) == DigitsEnd(b, end)
    {
      end := end + 1;
    }
  }

  method ScanNumber(b: string, pos: nat, max: nat) returns (v: Option<nat>, end: nat)
    requires pos <= |b|
    ensures v == Number(b, pos, max) && end == DigitsEnd(b, pos)
  {
    end := ScanDigits(b, pos);
    if end == pos || Value(b[pos..end]) > max {
      return None, end;
    }
    return Some(Value(b[pos..end])), end;
  }

  method ScanPortStart(b: string, pos: nat) returns (r: Option<nat>)
    requires pos <= |b|
    ensures r == PortStart(b, pos)
  {
    if pos < |b| && b[pos] == ':' {
      return Some(pos + 1);
    }
    var p := pos;
    while true
      invariant pos <= p <= |b|
      invariant SkipTags(b, pos) == SkipTags(b, p)
      decreases |b| - p
    {
      ghost var p0 := p;
      while p < |b| && IsFiller(b[p])
        invariant p0 <= p <= |b|
        invariant SkipFiller(b, p0) == SkipFiller(b, p)
      {
        p := p + 1;
      }
      if p < |b| && IsDigit(b[p]) {
        return Some(p);
      }
      if p < |b| && b[p] == '<' {
        ghost var p1 := p;
        while p < |b| && b[p] != '>'
          invariant p1 <= p <= |b|
          invariant FindGreater(b, p1) == FindGreater(b, p)
        {
          p := p + 1;
        }
        if p < |b| {
          p := p + 1;
          continue;
        }
      }
      return None;
    }
  }

  /** The octets read so far, in front of those still to come. */
  function Prepend(front: seq<nat>, rest: Option<(seq<nat>, nat)>): Option<(seq<nat>, nat)> {
    if rest.None? then None else Some((front + rest.value.0, rest.value.1))
  }

  lemma OctetsStep(b: string, pos: nat, n: nat, front: seq<nat>)
    requires pos <= |b| && n > 0
    ensures var v, end := Number(b, pos, 255), DigitsEnd(b, pos);
            Prepend(front, Octets(b, pos, n)) ==
            if v.None? then None
            else if n == 1 then Prepend(front + [v.value], Octets(b, end, 0))
            else if end == |b| || b[end] != '.' then None
            else Prepend(front + [v.value], Octets(b, end + 1, n - 1))
  {
    var v, end := Number(b, pos, 255), DigitsEnd(b, pos);
    if v.Some? && n == 1 {
      assert front + [v.value] + [] == front + [v.value];
    }
    if v.Some? && n > 1 && end < |b| && b[end] == '.' {
      var rest := Octets(b, end + 1, n - 1);
      if rest.Some? {
        assert front + ([v.value] + rest.value.0) == (front + [v.value]) + rest.value.0;
      }
    }
  }

  /** `k` octets have been read, up to `pos`. */
  ghost predicate HaveRead(b: string, octets: seq<nat>, pos: nat, k: nat) {
    && k <= 4 && |octets| == k && pos <= |b|
    && Octets(b, 0, 4) == Prepend(octets, Octets(b, pos, 4 - k))
  }

  lemma ReadOne(b: string, octets: seq<nat>, pos: nat, k: nat)
    requires k < 4 && HaveRead(b, octets, pos, k)
    ensures var v, end := Number(b, pos, 255), DigitsEnd(b, pos);
            if v.None? || (k < 3 && (end == |b| || b[end] != '.')) then Octets(b, 0, 4).None?
            else HaveRead(b, octets + [v.value], if k < 3 then end + 1 else end, k + 1)
  {
    hide Octets, Prepend, Number, DigitsEnd;
    OctetsStep(b, pos, 4 - k, octets);
    NothingPrepended(octets);
  }

  lemma NothingPrepended(front: seq<nat>)
    ensures Prepend(front, None) == None
  {
  }

  lemma NothingRead(b: string)
    ensures HaveRead(b, [], 0, 0)
  {
    hide Octets;
    var r := Octets(b, 0, 4);
    if r.Some? {
      assert [] + r.value.0 == r.value.0;
    }
  }

  lemma AllRead(b: string, octets: seq<nat>, pos: nat)
    requires HaveRead(b, octets, pos, 4)
    ensures Octets(b, 0, 4) == Some((octets, pos))
  {
    assert octets + [] == octets;
  }

  method ScanOctets(b: string) returns (r: Option<(seq<nat>, nat)>)
    ensures r == Octets(b, 0, 4)
  {
    var octets: seq<nat> := [];
    var pos: nat := 0;
    NothingRead(b);
    for k := 0 to 4
      invariant pos <= |b| && HaveRead(b, octets, pos, k)
    {
      hide Octets, HaveRead, Number, DigitsEnd;
      ReadOne(b, octets, pos, k);
      var v, end := ScanNumber(b, pos, 255);
      pos := end;
      if v.None? {
        return None;
      }
      octets := octets + [v.value];
      if k < 3 {
        if pos >= |b| || b[pos] != '.' {
          return None;
        }
        pos := pos + 1;
      }
    }
    hide Octets, HaveRead;
    AllRead(b, octets, pos);
    return Some((octets, pos));
  }

  method ScanIpPort(b: string) returns (r: Option<Match>)
    ensures r == MatchIpPort(b)
  {
    hide Octets, PortStart, Number, DigitsEnd;
    var os := ScanOctets(b);
    if os.None? {
      return None;
    }
    var start := ScanPortStart(b, os.value.1);
    if start.None? {
      return None;
    }
    var port, end := ScanNumber(b, start.value, 65535);
    if port.None? || port.value == 0 {
      return None;
    }
    var o := os.value.0;
    return Some(Match(Ipv4.Address(o[0], o[1], o[2], o[3]), port.value, end));
  }

  lemma ExtractStep(source: string, html: string, default: FreeProto, i: nat, out: seq<RawNode>)
    requires i < |html|
    ensures var r := Look(source, html, default, i);
            out + ExtractFrom(source, html, default, i) == (out + r.0) + ExtractFrom(source, html, default, r.1)
  {
    hide Look;
  }

  method LookAt(source: string, html: string, default: FreeProto, i: nat) returns (found: seq<RawNode>, next: nat)
    requires i < |html|
    ensures (found, next) == Look(source, html, default, i)
  {
    hide MatchIpPort, IsRoutableIp, Sniff, WindowBefore, Ipv4.Show;
    if !IsDigit(html[i]) {
      return [], i + 1;
    }
    if i > 0 && (IsDigit(html[i - 1]) || html[i - 1] == '.') {
      return [], i + 1;
    }
    var m := ScanIpPort(html[i..]);
    if m.None? {
      return [], i + 1;
    }
    var ip := Ipv4.Show(m.value.ip);
    if !IsRoutableIp(ip) {
      return [], i + m.value.consumed;
    }
    return [RawNode(ip, m.value.port, Sniff(WindowBefore(html, i), default), None, source)], i + m.value.consumed;
  }

  method Extract(source: string, html: string, default: FreeProto) returns (out: seq<RawNode>)
    ensures out == ExtractFrom(source, html, default, 0)
  {
    out := [];
    var i := 0;
    hide Look;
    while i < |html|
      invariant i <= |html|
      invariant out + ExtractFrom(source, html, default, i) == ExtractFrom(source, html, default, 0)
    {
      ExtractStep(source, html, default, i, out);
      var found, next := LookAt(source, html, default, i);
      out, i := out + found, next;
    }
  }

  // ---------------------------------------------------------------- what comes out, whatever the bytes

  ghost predicate WellFound(source: string, r: RawNode) {
    && r.source == source && r.country == None && 1 <= r.port <= 65535
    && Ipv4.Parse(r.ip).Some? && Ipv4.InRange(Ipv4.Parse(r.ip).value) && RoutableAddress(Ipv4.Parse(r.ip).value)
  }

  /** From any bytes only canonical, routable addresses with a port come out. */
  lemma {:induction false} ExtractsOnlyWellFound(source: string, html: string, default: FreeProto, i: nat)
    requires i <= |html|
    ensures forall r :: r in ExtractFrom(source, html, default, i) ==> WellFound(source, r)
    decreases |html| - i
  {
    hide WellFound, Look;
    if i < |html| {
      var l := Look(source, html, default, i);
      ExtractsOnlyWellFound(source, html, default, l.1);
      LookFindsWell(source, html, default, i);
    }
  }

  /** The letters of `mark` stand in `s` at position `j`, in upper or lower case, */
  predicate StandsAt(s: string, mark: string, j: int) {
    0 <= j && j + |mark| <= |s| && EqIgnoreCase(s[j..j + |mark|], mark)
  }

  /** or somewhere between `from` and `to`. */
  ghost predicate Marked(s: string, mark: string, from: int, to: int) {
    exists j :: StandsAt(s, mark, j) && from <= j && j + |mark| <= to
  }

  /** The entry was read off position `i`: a number starts there that is not the tail of a longer number or address, and
      the protocol is the one marked within the 200 bytes before, or the default. */
  ghost predicate ReadAt(html: string, default: FreeProto, r: RawNode, i: int) {
    && 0 <= i < |html| && '0' <= html[i] <= '9'
    && (i > 0 ==> !('0' <= html[i - 1] <= '9') && html[i - 1] != '.')
    && (MatchIpPort(html[i..]).Some? && r.ip == Ipv4.Show(MatchIpPort(html[i..]).value.ip)
        && r.port == MatchIpPort(html[i..]).value.port)
    && r.proto == (if Marked(html, "socks5", i - 200, i) then Socks5
                   else if Marked(html, "socks4", i - 200, i) then Socks4 else default)
  }

  lemma LowerOfSlice(s: string, j: nat, k: nat)
    requires j <= k <= |s|
    ensures Lower(s)[j..k] == Lower(s[j..k])
  {
    hide LowerChar;
  }

  lemma StandsIff(s: string, mark: string, j: nat)
    requires Lower(mark) == mark && j <= |s|
    ensures StandsAt(s, mark, j) <==> OccursAt(Lower(s), mark, j)
  {
    hide LowerChar;
    if j + |mark| <= |s| {
      LowerOfSlice(s, j, j + |mark|);
      assert Lower(s)[j..][..|mark|] == Lower(s)[j..j + |mark|];
    }
  }

  lemma ContainsIff(s: string, mark: string)
    requires Lower(mark) == mark
    ensures Contains(Lower(s), mark) <==> Marked(s, mark, 0, |s|)
  {
    forall j: nat | j <= |s|
      ensures StandsAt(s, mark, j) <==> OccursAt(Lower(s), mark, j)
    {
      StandsIff(s, mark, j);
    }
    hide OccursAt, Lower, EqIgnoreCase;
  }

  lemma SliceOfSlice(s: string, from: nat, to: nat, j: nat, k: nat)
    requires from <= to <= |s| && j <= k <= to - from
    ensures s[from..to][j..k] == s[from + j..from + k]
  {
    var a, b := s[from..to][j..k], s[from + j..from + k];
    assert |a| == |b| && forall m :: 0 <= m < |a| ==> a[m] == b[m];
  }

  lemma StandsInWindow(s: string, mark: string, from: nat, to: nat, j: int)
    requires from <= to <= |s| && mark != []
    ensures StandsAt(s[from..to], mark, j - from) <==> StandsAt(s, mark, j) && from <= j && j + |mark| <= to
  {
    if from <= j && j + |mark| <= to {
      SliceOfSlice(s, from, to, j - from, j - from + |mark|);
    }
    hide EqIgnoreCase;
  }

  lemma ContainsIsMarked(html: string, mark: string, i: nat)
    requires i <= |html| && Lower(mark) == mark && mark != []
    ensures Contains(Lower(WindowBefore(html, i)), mark) <==> Marked(html, mark, i - 200, i)
  {
    var from: nat := if i < 200 then 0 else i - 200;
    var w := WindowBefore(html, i);
    assert w == html[from..i];
    hide Lower, EqIgnoreCase, WindowBefore, Contains;
    ContainsIff(w, mark);
    if j :| StandsAt(w, mark, j) && 0 <= j && j + |mark| <= |w| {
      StandsInWindow(html, mark, from, i, j + from);
    }
    if j :| StandsAt(html, mark, j) && i - 200 <= j && j + |mark| <= i {
      StandsInWindow(html, mark, from, i, j);
      assert StandsAt(w, mark, j - from);
    }
  }

  lemma SniffIsMarked(html: string, default: FreeProto, i: nat)
    requires i <= |html|
    ensures Sniff(WindowBefore(html, i), default)
         == if Marked(html, "socks5", i - 200, i) then Socks5
            else if Marked(html, "socks4", i - 200, i) then Socks4 else default
  {
    assert Lower("socks5") == "socks5" && Lower("socks4") == "socks4";
    hide Lower, Contains, Marked, WindowBefore;
    ContainsIsMarked(html, "socks5", i);
    ContainsIsMarked(html, "socks4", i);
  }

  /** Every entry was read off such a position. */
  lemma {:induction false} ExtractsOnlyAtTokens(source: string, html: string, default: FreeProto, i: nat, r: RawNode)
      returns (j: nat)
    requires i <= |html| && r in ExtractFrom(source, html, default, i)
    ensures i <= j && ReadAt(html, default, r, j)
    decreases |html| - i
  {
    hide Look, ReadAt;
    var l := Look(source, html, default, i);
    if r in l.0 {
      j := i;
      FoundIsReadAt(source, html, default, i, r);
    } else {
      j := ExtractsOnlyAtTokens(source, html, default, l.1, r);
    }
  }

  lemma FoundIsReadAt(source: string, html: string, default: FreeProto, i: nat, r: RawNode)
    requires i < |html| && r in Look(source, html, default, i).0
    ensures ReadAt(html, default, r, i)
  {
    hide MatchIpPort, Sniff, WindowBefore, Marked, IsRoutableIp, Ipv4.Show;
    SniffIsMarked(html, default, i);
  }

  lemma LookFindsWell(source: string, html: string, default: FreeProto, i: nat)
    requires i < |html|
    ensures forall r :: r in Look(source, html, default, i).0 ==> WellFound(source, r)
  {
    hide MatchIpPort, Sniff, WindowBefore, RoutableAddress, Ipv4.InRange, Ipv4.Parse, Ipv4.Show, IsRoutableIp;
    if AtToken(html, i) {
      var m := MatchIpPort(html[i..]);
      if m.Some? {
        RoutableShown(m.value.ip);
        Ipv4.ParseShown(m.value.ip);
      }
    }
  }
}
