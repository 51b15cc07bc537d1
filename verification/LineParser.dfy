/** The parser for raw lists: one `ip:port` a line, comments and blank lines skipped. */
module LineParser {
  import opened Options
  import opened Text
  import opened Decimal
  import opened Splitting
  import opened Routable
  import opened Registry
  import opened HtmlScanner

  /** The end of the first word. */
  function TokenEnd(s: string): (end: nat)
    ensures end <= |s|
    ensures forall k :: 0 <= k < end ==> !IsSpace(s[k])
    ensures end < |s| ==> IsSpace(s[end])
  {
    if s == [] || IsSpace(s[0]) then 0 else 1 + TokenEnd(s[1..])
  }

  /** Split at the last separator, if there is one. */
  function RSplitOnce(s: string, sep: char): (r: Option<(string, string)>)
    ensures r.None? <==> sep !in s
    ensures r.Some? ==> s == r.value.0 + [sep] + r.value.1 && sep !in r.value.1
  {
    if s == [] then None
    else
      var front, last := s[..|s| - 1], s[|s| - 1];
      assert s == front + [last];
      if last == sep then Some((front, []))
      else
        var r := RSplitOnce(front, sep);
        if r.None? then None else Some((r.value.0, r.value.1 + [last]))
  }

  predicate IsZero(octet: string) {
    octet == "0" || octet == "00" || octet == "000"
  }

  /** The parts of an address that is not all zeros, each at most 255. */
  predicate OctetsOk(ip: string) {
    var parts := Split(ip, '.');
    && |parts| == 4
    && (forall k :: 0 <= k < 4 ==> ParseUnsigned(parts[k], 255).Some?)
    && !(forall k :: 0 <= k < 4 ==> IsZero(parts[k]))
  }

  /** The entry on a line, if it has one. A carriage return at its end falls to the trimming. */
  function ParseLine(source: string, raw: string, default: FreeProto): Option<RawNode> {
    var line := Trim(raw);
    if line == [] || line[0] == '#' then None
    else
      var split := RSplitOnce(line[..TokenEnd(line)], ':');
      if split.None? then None
      else
        var ip, port := split.value.0, ParseUnsigned(split.value.1, 65535);
        if port.None? || port.value == 0 || !OctetsOk(ip) || !IsRoutableIp(ip) then None
        else Some(RawNode(ip, port.value, Sniff(line, default), None, source))
  }

  function ParseLines(source: string, lines: seq<string>, default: FreeProto): seq<RawNode> {
    if lines == [] then []
    else
      var r := ParseLine(source, lines[|lines| - 1], default);
      ParseLines(source, lines[..|lines| - 1], default) + if r.Some? then [r.value] else []
  }

  /** A body is read line by line; the empty line behind the last line feed adds nothing. */
  function ParseBody(source: string, body: string, default: FreeProto): seq<RawNode> {
    ParseLines(source, Split(body, '\n'), default)
  }

  method ReadLine(source: string, raw: string, default: FreeProto) returns (r: Option<RawNode>)
    ensures r == ParseLine(source, raw, default)
  {
    hide OctetsOk, IsRoutableIp, Sniff, RSplitOnce, TokenEnd, Trim, ParseUnsigned;
    var line := Trim(raw);
    if line == [] || line[0] == '#' {
      return None;
    }
    var proto := Sniff(line, default);
    var split := RSplitOnce(line[..TokenEnd(line)], ':');
    if split.None? {
      return None;
    }
    var ip, port := split.value.0, ParseUnsigned(split.value.1, 65535);
    if port.None? || port.value == 0 {
      return None;
    }
    if !OctetsOk(ip) {
      return None;
    }
    if !IsRoutableIp(ip) {
      return None;
    }
    return Some(RawNode(ip, port.value, proto, None, source));
  }

  method ParseWith(source: string, body: string, default: FreeProto) returns (out: seq<RawNode>)
    ensures out == ParseBody(source, body, default)
  {
    hide ParseLine;
    var lines := Split(body, '\n');
    out := [];
    for k := 0 to |lines|
      invariant out == ParseLines(source, lines[..k], default)
    {
      assert lines[..k + 1][..k] == lines[..k];
      var r := ReadLine(source, lines[k], default);
      if r.Some? {
        out := out + [r.value];
      }
    }
    assert lines[..|lines|] == lines;
  }

  lemma MarkedProto(line: string, default: FreeProto)
    ensures Sniff(line, default)
         == if Marked(line, "socks5", 0, |line|) then Socks5
            else if Marked(line, "socks4", 0, |line|) then Socks4 else default
  {
    assert Lower("socks5") == "socks5" && Lower("socks4") == "socks4";
    hide Lower, Contains, Marked;
    ContainsIff(line, "socks5");
    ContainsIff(line, "socks4");
  }

  /** An entry is of the protocol that its line marks, in upper or lower case, and of the default without a mark. */
  lemma ProtoIsMarked(source: string, raw: string, default: FreeProto)
    requires ParseLine(source, raw, default).Some?
    ensures var line := Trim(raw);
            ParseLine(source, raw, default).value.proto
            == if Marked(line, "socks5", 0, |line|) then Socks5
               else if Marked(line, "socks4", 0, |line|) then Socks4 else default
  {
    hide Trim, Sniff, Marked, ParseUnsigned, OctetsOk, IsRoutableIp, RSplitOnce, TokenEnd;
    MarkedProto(Trim(raw), default);
  }

  /** Whatever the text, an entry has a port and spells a routable address - not always canonically. */
  lemma {:induction false} ParsesOnlyRoutable(source: string, lines: seq<string>, default: FreeProto)
    ensures forall r :: r in ParseLines(source, lines, default) ==>
              && r.source == source && r.country == None && 1 <= r.port <= 65535
              && Spelt(Trim(r.ip)).Some? && RoutableAddress(Spelt(Trim(r.ip)).value)
  {
    hide Trim, Sniff, RSplitOnce, OctetsOk, Spelt, RoutableAddress;
    if lines != [] {
      ParsesOnlyRoutable(source, lines[..|lines| - 1], default);
    }
  }
}
