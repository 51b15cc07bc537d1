/** The two scanners on lists of addresses, one to a line. */
module AddressLists {
  import opened Options
  import opened Text
  import opened Decimal
  import opened Splitting
  import opened Routable
  import opened Registry
  import opened HtmlScanner
  import opened LineParser

  /** An address and a port as spelt in a list: numerals, perhaps with leading zeros. */
  datatype Item = Item(a: string, b: string, c: string, d: string, port: string)

  predicate Listable(x: Item) {
    && IsNumeral(x.a, 255) && IsNumeral(x.b, 255) && IsNumeral(x.c, 255) && IsNumeral(x.d, 255)
    && IsNumeral(x.port, 65535) && Value(x.port) > 0
    && RoutableAddress(AddressOf(x))
  }

  predicate AllListable(items: seq<Item>) {
    forall k :: 0 <= k < |items| ==> Listable(items[k])
  }

  function AddressOf(x: Item): Ipv4.Address
    requires IsNumeral(x.a, 255) && IsNumeral(x.b, 255) && IsNumeral(x.c, 255) && IsNumeral(x.d, 255)
  {
    Ipv4.Address(Value(x.a), Value(x.b), Value(x.c), Value(x.d))
  }

  function Dotted(x: Item): string {
    Join([x.a, x.b, x.c, x.d], '.')
  }

  function LineOf(x: Item): string {
    Dotted(x) + [':'] + x.port
  }

  function TextOf(items: seq<Item>): string {
    if items == [] then [] else LineOf(items[0]) + ['\n'] + TextOf(items[1..])
  }

  /** The entry for an item, with the address as given. */
  function Entry(source: string, ip: string, x: Item, default: FreeProto): RawNode
    requires Listable(x)
  {
    RawNode(ip, Value(x.port), default, None, source)
  }

  // ---------------------------------------------------------------- digits, dots and colons only

  predicate Plain(s: string) {
    forall k :: 0 <= k < |s| ==> IsDigit(s[k]) || s[k] == '.' || s[k] == ':' || s[k] == '\n'
  }

  lemma PlainHasNoMark(s: string, pattern: string)
    requires Plain(s) && pattern != [] && pattern[0] == 's'
    ensures !Contains(Lower(s), pattern)
  {
    forall i | 0 <= i <= |s|
      ensures !OccursAt(Lower(s), pattern, i)
    {
      if OccursAt(Lower(s), pattern, i) {
        OccurrenceStarts(Lower(s), pattern, i);
        assert false;
      }
    }
  }

  lemma OccurrenceStarts(s: string, pattern: string, i: nat)
    requires i <= |s| && OccursAt(s, pattern, i) && pattern != []
    ensures i < |s| && s[i] == pattern[0]
  {
    assert s[i..][0] == s[i];
  }

  lemma PlainIsDefault(s: string, default: FreeProto)
    requires Plain(s)
    ensures Sniff(s, default) == default
  {
    PlainHasNoMark(s, "socks5");
    PlainHasNoMark(s, "socks4");
    hide Contains, Plain;
  }

  lemma LineIsPlain(x: Item)
    requires Listable(x)
    ensures Plain(LineOf(x)) && LineOf(x) != [] && IsDigit(LineOf(x)[0]) && '\n' !in LineOf(x)
    ensures IsDigit(LineOf(x)[|LineOf(x)| - 1])
  {
    SpeltByNumerals(x.a, x.b, x.c, x.d);
    assert Dotted(x)[0] == x.a[0];
    hide Dotted, RoutableAddress, AddressOf;
  }

  // ---------------------------------------------------------------- the line parser

  lemma ColonSplits(ip: string, port: string)
    requires ':' !in port
    ensures RSplitOnce(ip + [':'] + port, ':') == Some((ip, port))
  {
    var s := ip + [':'] + port;
    var r := RSplitOnce(s, ':');
    assert s[|ip|] == ':';
    var n := |r.value.0|;
    assert s == r.value.0 + [':'] + r.value.1;
    assert forall k :: 0 <= k < |port| ==> s[|ip| + 1 + k] == port[k];
    assert forall k :: 0 <= k < |r.value.1| ==> s[n + 1 + k] == r.value.1[k];
    assert s[n] == ':' && n == |ip|;
    assert s[..n] == r.value.0 && s[n + 1..] == r.value.1;
    assert s[..|ip|] == ip && s[|ip| + 1..] == port;
  }

  lemma PlainToken(s: string)
    requires Plain(s) && '\n' !in s
    ensures TokenEnd(s) == |s|
  {
  }

  lemma NumeralsAreOk(x: Item)
    requires Listable(x)
    ensures OctetsOk(Dotted(x))
  {
    SpeltByNumerals(x.a, x.b, x.c, x.d);
    NumeralParses(x.a, 255);
    NumeralParses(x.b, 255);
    NumeralParses(x.c, 255);
    NumeralParses(x.d, 255);
    assert Value(x.a) != 0;
    if IsZero(x.a) {
      ZeroIsZero(x.a);
    }
    assert Split(Dotted(x), '.')[0] == x.a;
    hide IsZero, ParseUnsigned, Split, Dotted, RoutableAddress;
  }

  lemma ZeroIsZero(s: string)
    requires IsZero(s) && AllDigits(s)
    ensures Value(s) == 0
  {
    assert Value(s[..0]) == 0;
    if |s| > 1 {
      assert s[..1] == "0" && s[..1][..0] == [];
      assert Value(s[..1]) == 0;
    }
    if |s| > 2 {
      assert s[..2] == "00" && s[..2][..1] == "0";
      assert Value(s[..2]) == 0;
    }
  }

  lemma ParsedLine(source: string, line: string, default: FreeProto, ip: string, port: string, n: nat)
    requires line != [] && line[0] != '#' && Trim(line) == line && TokenEnd(line) == |line|
    requires RSplitOnce(line, ':') == Some((ip, port)) && ParseUnsigned(port, 65535) == Some(n) && n > 0
    requires OctetsOk(ip) && IsRoutableIp(ip) && Sniff(line, default) == default
    ensures ParseLine(source, line, default) == Some(RawNode(ip, n, default, None, source))
  {
    hide Trim, TokenEnd, RSplitOnce, Sniff, OctetsOk, IsRoutableIp, ParseUnsigned;
    assert line[..|line|] == line;
  }

  lemma DottedIsRoutable(x: Item)
    requires Listable(x)
    ensures IsRoutableIp(Dotted(x))
  {
    hide Trim, Split, Join, Value, RoutableAddress, Spelt;
    SpeltByNumerals(x.a, x.b, x.c, x.d);
  }

  lemma LineParsed(source: string, x: Item, default: FreeProto)
    requires Listable(x)
    ensures ParseLine(source, LineOf(x), default) == Some(Entry(source, Dotted(x), x, default))
  {
    hide ParseLine, Trim, TokenEnd, RSplitOnce, Sniff, OctetsOk, IsRoutableIp, ParseUnsigned, Plain, LineOf, Dotted,
      RoutableAddress, AddressOf, Value;
    var line := LineOf(x);
    SplitLine(x);
    LineIsPlain(x);
    PlainIsTrimmed(line);
    PlainToken(line);
    PlainIsDefault(line, default);
    NumeralParses(x.port, 65535);
    NumeralsAreOk(x);
    DottedIsRoutable(x);
    ParsedLine(source, line, default, Dotted(x), x.port, Value(x.port));
  }

  lemma SplitLine(x: Item)
    requires Listable(x)
    ensures RSplitOnce(LineOf(x), ':') == Some((Dotted(x), x.port))
  {
    hide RSplitOnce, Dotted, RoutableAddress;
    ColonSplits(Dotted(x), x.port);
  }

  lemma PlainIsTrimmed(s: string)
    requires Plain(s) && s != [] && IsDigit(s[0]) && IsDigit(s[|s| - 1])
    ensures Trim(s) == s
  {
    assert Trimmed(s);
    hide IsSpace, Trimmed;
    TrimOfTrimmed(s);
  }

  lemma {:induction false} LinesConcat(source: string, lines: seq<string>, more: seq<string>, default: FreeProto)
    ensures ParseLines(source, lines + more, default)
            == ParseLines(source, lines, default) + ParseLines(source, more, default)
  {
    hide ParseLine;
    if more == [] {
      assert lines + more == lines;
    } else {
      LinesConcat(source, lines, more[..|more| - 1], default);
      assert (lines + more)[..|lines + more| - 1] == lines + more[..|more| - 1];
    }
  }

  function EntryOf(source: string, x: Item, default: FreeProto, canonical: bool): RawNode
    requires Listable(x)
  {
    Entry(source, if canonical then Ipv4.Show(AddressOf(x)) else Dotted(x), x, default)
  }

  /** The entries of a list, the addresses canonical or as spelt. */
  function Listed(source: string, items: seq<Item>, default: FreeProto, canonical: bool): (r: seq<RawNode>)
    requires AllListable(items)
    ensures |r| == |items|
  {
    if items == [] then []
    else [EntryOf(source, items[0], default, canonical)] + Listed(source, items[1..], default, canonical)
  }

  lemma {:induction false} ListedAt(source: string, items: seq<Item>, default: FreeProto, canonical: bool, k: nat)
    requires AllListable(items) && k < |items|
    ensures Listed(source, items, default, canonical)[k] == EntryOf(source, items[k], default, canonical)
  {
    hide EntryOf, Listable;
    if k > 0 {
      ListedAt(source, items[1..], default, canonical, k - 1);
    }
  }

  lemma {:induction false} LinesListed(source: string, items: seq<Item>, default: FreeProto)
    requires AllListable(items)
    ensures ParseBody(source, TextOf(items), default) == Listed(source, items, default, false)
  {
    hide ParseLine, LineOf, Dotted, Listable, AddressOf, Entry;
    if items == [] {
      EmptyLine(source, default);
    } else {
      var x, rest := items[0], TextOf(items[1..]);
      LinesListed(source, items[1..], default);
      LineIsPlain(x);
      LineParsed(source, x, default);
      SplitFirst(LineOf(x), rest, '\n');
      LinesConcat(source, [LineOf(x)], Split(rest, '\n'), default);
      OneLine(source, LineOf(x), default);
      hide ParseLines, Split;
    }
  }

  lemma EmptyLine(source: string, default: FreeProto)
    ensures ParseBody(source, [], default) == []
  {
    assert Split([], '\n') == [[]];
    assert ParseLine(source, [], default) == None;
    OneLine(source, [], default);
    hide ParseLine, ParseLines;
  }

  lemma OneLine(source: string, line: string, default: FreeProto)
    ensures ParseLines(source, [line], default) ==
            if ParseLine(source, line, default).Some? then [ParseLine(source, line, default).value] else []
  {
    hide ParseLine;
    assert [line][..0] == [];
  }

  // ---------------------------------------------------------------- the byte scanner

  lemma NumberAt(b: string, pos: nat, s: string, max: nat)
    requires pos <= |b| && s <= b[pos..] && IsNumeral(s, max)
    requires pos + |s| < |b| ==> !IsDigit(b[pos + |s|])
    ensures DigitsEnd(b, pos) == pos + |s| && Number(b, pos, max) == Some(Value(s))
  {
    var end := DigitsEnd(b, pos);
    assert forall k :: 0 <= k < |s| ==> b[pos + k] == b[pos..][k] == s[k];
    assert forall k :: pos <= k < end ==> b[k] == b[pos..end][k - pos];
    assert end == pos + |s|;
    assert b[pos..end] == s;
  }

  predicate IsOctetNumeral(s: string) {
    IsNumeral(s, 255)
  }

  function OctetValue(s: string): nat {
    if IsOctetNumeral(s) then Value(s) else 0
  }

  function Values(parts: seq<string>): (r: seq<nat>)
    ensures |r| == |parts| && forall k :: 0 <= k < |parts| ==> r[k] == OctetValue(parts[k])
  {
    if parts == [] then [] else [OctetValue(parts[0])] + Values(parts[1..])
  }

  lemma {:induction false} OctetsAt(b: string, pos: nat, parts: seq<string>)
    requires parts != [] && forall k :: 0 <= k < |parts| ==> IsOctetNumeral(parts[k])
    requires pos <= |b| && Join(parts, '.') <= b[pos..]
    requires var end := pos + |Join(parts, '.')|; end < |b| ==> !IsDigit(b[end])
    ensures Octets(b, pos, |parts|) == Some((Values(parts), pos + |Join(parts, '.')|))
    decreases |parts|
  {
    hide IsOctetNumeral, OctetValue, Number, DigitsEnd, IsDigit, Octets;
    var p := parts[0];
    var end := pos + |p|;
    if |parts| == 1 {
      OctetAt(b, pos, p);
      OneOctet(b, pos);
      assert Values(parts) == [OctetValue(p)];
    } else {
      var rest := Join(parts[1..], '.');
      DotBehind(b, pos, p, rest);
      OctetAt(b, pos, p);
      OctetsAt(b, end + 1, parts[1..]);
      MoreOctets(b, pos, |parts|);
    }
  }

  lemma OneOctet(b: string, pos: nat)
    requires pos <= |b| && Number(b, pos, 255).Some?
    ensures Octets(b, pos, 1) == Some(([Number(b, pos, 255).value], DigitsEnd(b, pos)))
  {
    hide Number, DigitsEnd;
  }

  lemma MoreOctets(b: string, pos: nat, n: nat)
    requires pos <= |b| && n > 1 && Number(b, pos, 255).Some?
    requires var end := DigitsEnd(b, pos); end < |b| && b[end] == '.' && Octets(b, end + 1, n - 1).Some?
    ensures var rest := Octets(b, DigitsEnd(b, pos) + 1, n - 1).value;
            Octets(b, pos, n) == Some(([Number(b, pos, 255).value] + rest.0, rest.1))
  {
    hide Number, DigitsEnd;
  }

  lemma OctetAt(b: string, pos: nat, s: string)
    requires pos <= |b| && s <= b[pos..] && IsOctetNumeral(s)
    requires pos + |s| < |b| ==> !IsDigit(b[pos + |s|])
    ensures DigitsEnd(b, pos) == pos + |s| && Number(b, pos, 255) == Some(OctetValue(s))
  {
    NumberAt(b, pos, s, 255);
  }

  lemma DotBehind(b: string, pos: nat, p: string, rest: string)
    requires pos <= |b| && p + ['.'] + rest <= b[pos..]
    ensures p <= b[pos..] && pos + |p| < |b| && b[pos + |p|] == '.' && !IsDigit(b[pos + |p|])
    ensures rest <= b[pos + |p| + 1..]
  {
    assert b[pos + |p|] == b[pos..][|p|];
    assert b[pos + |p| + 1..] == b[pos..][|p| + 1..];
    assert (p + ['.'] + rest)[|p| + 1..] == rest;
  }

  lemma LineShape(x: Item, rest: string)
    ensures var b, n := LineOf(x) + ['\n'] + rest, |Dotted(x)|;
            && |LineOf(x)| == n + 1 + |x.port| && |b| > |LineOf(x)|
            && Dotted(x) <= b[0..] && b[n] == ':' && x.port <= b[n + 1..] && b[n + 1 + |x.port|] == '\n'
  {
    hide Dotted;
    var b, n := LineOf(x) + ['\n'] + rest, |Dotted(x)|;
    assert b == Dotted(x) + ([':'] + x.port + ['\n'] + rest);
    assert b[0..] == b;
    assert b[n + 1..] == x.port + (['\n'] + rest);
  }

  lemma FourValues(x: Item)
    requires Listable(x)
    ensures Values([x.a, x.b, x.c, x.d]) == [Value(x.a), Value(x.b), Value(x.c), Value(x.d)]
    ensures forall k :: 0 <= k < 4 ==> IsOctetNumeral([x.a, x.b, x.c, x.d][k])
  {
    hide Values, Value, RoutableAddress;
  }

  lemma FourOctets(x: Item, b: string)
    requires Listable(x) && Dotted(x) <= b[0..]
    requires |Dotted(x)| < |b| ==> !IsDigit(b[|Dotted(x)|])
    ensures Octets(b, 0, 4) == Some(([Value(x.a), Value(x.b), Value(x.c), Value(x.d)], |Dotted(x)|))
  {
    hide RoutableAddress, IsDigit, Value, Values, Octets, OctetValue, IsOctetNumeral, Join;
    FourValues(x);
    OctetsAt(b, 0, [x.a, x.b, x.c, x.d]);
  }

  /** A listed item at the head of the text is matched as a whole. */
  lemma LineMatched(x: Item, rest: string)
    requires Listable(x)
    ensures var b := LineOf(x) + ['\n'] + rest;
            MatchIpPort(b) == Some(Match(AddressOf(x), Value(x.port), |LineOf(x)|))
  {
    hide Octets, Number, DigitsEnd, Dotted, LineOf, RoutableAddress;
    var b := LineOf(x) + ['\n'] + rest;
    LineShape(x, rest);
    FourOctets(x, b);
    NumberAt(b, |Dotted(x)| + 1, x.port, 65535);
  }

  // ---------------------------------------------------------------- ports behind tags

  /** What may stand between an address and its port: white space, a stray bracket, or a whole tag. */
  datatype Piece = Filler(c: char) | Tag(inside: string)

  predicate PieceOk(p: Piece) {
    match p
    case Filler(c) => c in " \t\r\n>"
    case Tag(inside) => '>' !in inside
  }

  function PieceText(p: Piece): string {
    match p
    case Filler(c) => [c]
    case Tag(inside) => ['<'] + inside + ['>']
  }

  function GapText(gap: seq<Piece>): string {
    if gap == [] then [] else PieceText(gap[0]) + GapText(gap[1..])
  }

  lemma {:induction false} TagEnds(b: string, p: nat, inside: string)
    requires p <= |b| && inside + ['>'] <= b[p..] && '>' !in inside
    ensures FindGreater(b, p) == p + |inside|
    decreases |inside|
  {
    assert b[p] == b[p..][0];
    if inside != [] {
      assert b[p + 1..] == b[p..][1..];
      assert inside[0] in inside;
      assert (inside + ['>'])[1..] == inside[1..] + ['>'];
      TagEnds(b, p + 1, inside[1..]);
    }
  }

  lemma FillerIff(c: char)
    ensures IsFiller(c) <==> c in " \t\r\n>"
  {
  }

  lemma FillerSkipped(b: string, p: nat)
    requires p + 1 < |b| && IsFiller(b[p])
    ensures SkipTags(b, p) == SkipTags(b, p + 1)
  {
    hide IsFiller, IsDigit;
    assert SkipFiller(b, p) == SkipFiller(b, p + 1);
  }

  lemma PieceSkipped(b: string, p: nat, piece: Piece)
    requires p <= |b| && PieceOk(piece) && PieceText(piece) <= b[p..] && p + |PieceText(piece)| < |b|
    ensures SkipTags(b, p) == SkipTags(b, p + |PieceText(piece)|)
  {
    assert b[p] == b[p..][0] == PieceText(piece)[0];
    match piece
    case Filler(c) =>
      FillerIff(c);
      hide IsFiller, SkipTags, SkipFiller;
      FillerSkipped(b, p);
    case Tag(inside) =>
      assert b[p + 1..] == b[p..][1..];
      assert (['<'] + inside + ['>'])[1..] == inside + ['>'];
      TagEnds(b, p + 1, inside);
      assert SkipFiller(b, p) == p;
      assert FindGreater(b, p) == FindGreater(b, p + 1);
  }

  lemma DigitStops(b: string, p: nat)
    requires p < |b| && IsDigit(b[p])
    ensures SkipTags(b, p) == Some(p)
  {
    assert SkipFiller(b, p) == p;
  }

  lemma NoPieces()
    ensures GapText([]) == []
  {
  }

  lemma FirstPiece(b: string, p: nat, gap: seq<Piece>)
    requires gap != [] && p <= |b| && GapText(gap) <= b[p..]
    ensures var n := |PieceText(gap[0])|;
            && PieceText(gap[0]) <= b[p..] && |GapText(gap)| == n + |GapText(gap[1..])|
            && p + n <= |b| && GapText(gap[1..]) <= b[p + n..]
  {
    hide PieceText;
    var first, later := PieceText(gap[0]), GapText(gap[1..]);
    assert GapText(gap) == first + later;
    hide GapText;
    assert b[p + |first|..] == b[p..][|first|..];
    assert (first + later)[|first|..] == later;
  }

  lemma {:induction false} GapSkipped(b: string, p: nat, gap: seq<Piece>)
    requires p <= |b| && (forall k :: 0 <= k < |gap| ==> PieceOk(gap[k])) && GapText(gap) <= b[p..]
    requires p + |GapText(gap)| < |b| && IsDigit(b[p + |GapText(gap)|])
    ensures SkipTags(b, p) == Some(p + |GapText(gap)|)
    decreases |gap|
  {
    hide *;
    if gap == [] {
      NoPieces();
      DigitStops(b, p);
    } else {
      FirstPiece(b, p, gap);
      PieceSkipped(b, p, gap[0]);
      GapSkipped(b, p + |PieceText(gap[0])|, gap[1..]);
    }
  }

  lemma CellShape(x: Item, gap: seq<Piece>, rest: string)
    ensures var b, n := Dotted(x) + GapText(gap) + x.port + rest, |Dotted(x)|;
            && Dotted(x) <= b[0..] && n <= |b| && GapText(gap) <= b[n..] && x.port <= b[n + |GapText(gap)|..]
            && |b| == n + |GapText(gap)| + |x.port| + |rest|
            && (rest != [] ==> b[n + |GapText(gap)| + |x.port|] == rest[0])
            && (x.port != [] ==> b[n + |GapText(gap)|] == x.port[0])
            && (GapText(gap) != [] ==> b[n] == GapText(gap)[0])
  {
    hide Dotted, GapText;
    var d, g := Dotted(x), GapText(gap);
    var b := d + g + x.port + rest;
    assert b == d + (g + x.port + rest) && b[0..] == b;
    assert b[|d|..] == g + (x.port + rest);
    assert b[|d| + |g|..] == x.port + rest;
  }

  lemma GapStarts(gap: seq<Piece>)
    requires gap != [] && PieceOk(gap[0])
    ensures GapText(gap) != [] && GapText(gap)[0] != ':' && !IsDigit(GapText(gap)[0])
  {
  }

  /** An address is matched with the port that follows it behind any white space and tags. */
  lemma CellMatched(x: Item, gap: seq<Piece>, rest: string)
    requires Listable(x) && gap != [] && forall k :: 0 <= k < |gap| ==> PieceOk(gap[k])
    requires rest != [] ==> !IsDigit(rest[0])
    ensures var b := Dotted(x) + GapText(gap) + x.port + rest;
            MatchIpPort(b) == Some(Match(AddressOf(x), Value(x.port), |Dotted(x)| + |GapText(gap)| + |x.port|))
  {
    hide Octets, Number, DigitsEnd, PortStart, MatchIpPort, Dotted, GapText, RoutableAddress, PieceOk, IsDigit, Value;
    var b, n := Dotted(x) + GapText(gap) + x.port + rest, |Dotted(x)|;
    CellShape(x, gap, rest);
    GapStarts(gap);
    FirstDigit(x.port);
    FourOctets(x, b);
    PortBehindGap(b, n, gap);
    NumberAt(b, n + |GapText(gap)|, x.port, 65535);
    MatchFrom(b, AddressOf(x), n, n + |GapText(gap)|, Value(x.port));
  }

  lemma FirstDigit(s: string)
    requires IsNumeral(s, 65535)
    ensures IsDigit(s[0])
  {
  }

  lemma PortBehindGap(b: string, n: nat, gap: seq<Piece>)
    requires n < |b| && gap != [] && (forall k :: 0 <= k < |gap| ==> PieceOk(gap[k])) && GapText(gap) <= b[n..]
    requires b[n] != ':' && n + |GapText(gap)| < |b| && IsDigit(b[n + |GapText(gap)|])
    ensures PortStart(b, n) == Some(n + |GapText(gap)|)
  {
    hide SkipTags, GapText, PieceOk, IsDigit;
    GapSkipped(b, n, gap);
  }

  lemma MatchFrom(b: string, q: Ipv4.Address, n: nat, start: nat, port: nat)
    requires Octets(b, 0, 4) == Some(([q.a, q.b, q.c, q.d], n)) && n <= |b|
    requires PortStart(b, n) == Some(start) && start <= |b| && Number(b, start, 65535) == Some(port) && port > 0
    ensures MatchIpPort(b) == Some(Match(q, port, DigitsEnd(b, start)))
  {
    hide Octets, PortStart, Number, DigitsEnd;
  }

  lemma LookAtLine(source: string, html: string, default: FreeProto, i: nat, x: Item, rest: string)
    requires Listable(x) && Plain(html)
    requires i <= |html| && html[i..] == LineOf(x) + ['\n'] + rest
    requires i > 0 ==> html[i - 1] == '\n'
    ensures i < |html|
    ensures Look(source, html, default, i) == ([Entry(source, Ipv4.Show(AddressOf(x)), x, default)], i + |LineOf(x)|)
  {
    hide MatchIpPort, Sniff, IsRoutableIp, RoutableAddress, LineOf, Ipv4.Show;
    LineIsPlain(x);
    assert html[i] == html[i..][0] == LineOf(x)[0];
    LineMatched(x, rest);
    assert Plain(WindowBefore(html, i));
    hide Plain, WindowBefore;
    PlainIsDefault(WindowBefore(html, i), default);
    RoutableShown(AddressOf(x));
  }

  lemma {:induction false} ScanListed(source: string, html: string, default: FreeProto, i: nat, items: seq<Item>)
    requires AllListable(items)
    requires Plain(html) && i <= |html| && html[i..] == TextOf(items)
    requires i > 0 ==> html[i - 1] == '\n'
    ensures ExtractFrom(source, html, default, i) == Listed(source, items, default, true)
    decreases |items|
  {
    hide Listable, Look, LineOf, Plain, Entry, AddressOf, Ipv4.Show;
    if items != [] {
      var x, rest := items[0], TextOf(items[1..]);
      var j := i + |LineOf(x)|;
      LookAtLine(source, html, default, i, x, rest);
      assert html[j] == html[i..][|LineOf(x)|] == '\n';
      LookAtBreak(source, html, default, j);
      assert html[j + 1..] == html[i..][|LineOf(x)| + 1..] == rest;
      ScanListed(source, html, default, j + 1, items[1..]);
    } else {
      assert i == |html|;
    }
  }

  lemma LookAtBreak(source: string, html: string, default: FreeProto, j: nat)
    requires j < |html| && html[j] == '\n'
    ensures Look(source, html, default, j) == ([], j + 1)
  {
  }

  lemma {:induction false} TextIsPlain(items: seq<Item>)
    requires AllListable(items)
    ensures Plain(TextOf(items))
  {
    hide Listable;
    if items != [] {
      LineIsPlain(items[0]);
      TextIsPlain(items[1..]);
    }
  }

  // ---------------------------------------------------------------- both

  /** Both scanners return every item of a list once and in order: the line parser as it is spelt, the byte scanner
      canonically. They agree exactly if no octet has a leading zero. */
  lemma ListsAreRead(source: string, items: seq<Item>, default: FreeProto)
    requires AllListable(items)
    ensures ParseBody(source, TextOf(items), default) == Listed(source, items, default, false)
    ensures ExtractFrom(source, TextOf(items), default, 0) == Listed(source, items, default, true)
    ensures ParseBody(source, TextOf(items), default) == ExtractFrom(source, TextOf(items), default, 0) <==>
            forall x :: x in items ==> NoLeadingZero(x)
  {
    var text := TextOf(items);
    LinesListed(source, items, default);
    TextIsPlain(items);
    assert text[0..] == text;
    ScanListed(source, text, default, 0, items);
    forall k | 0 <= k < |items|
      ensures items[k] in items && (NoLeadingZero(items[k]) <==>
              Listed(source, items, default, false)[k] == Listed(source, items, default, true)[k])
    {
      SpeltCanonicallyIff(items[k]);
      ListedAt(source, items, default, false, k);
      ListedAt(source, items, default, true, k);
    }
    hide Listable, ParseBody, ExtractFrom, TextOf, NoLeadingZero, Entry, Dotted, AddressOf, Ipv4.Show;
    var spelt, canonical := Listed(source, items, default, false), Listed(source, items, default, true);
    hide Listed;
    if forall x :: x in items ==> NoLeadingZero(x) {
      assert spelt == canonical;
    }
  }

  /** Every octet is written without leading zeros. */
  predicate NoLeadingZero(x: Item) {
    && Ipv4.IsOctet(x.a) && Ipv4.IsOctet(x.b) && Ipv4.IsOctet(x.c) && Ipv4.IsOctet(x.d)
  }

  lemma SpeltCanonicallyIff(x: Item)
    requires Listable(x)
    ensures Dotted(x) == Ipv4.Show(AddressOf(x)) <==> NoLeadingZero(x)
  {
    var parts := [x.a, x.b, x.c, x.d];
    var printed := [Print(Value(x.a)), Print(Value(x.b)), Print(Value(x.c)), Print(Value(x.d))];
    SplitOfJoin(parts, '.');
    SplitOfJoin(printed, '.');
    assert Dotted(x) == Ipv4.Show(AddressOf(x)) <==> parts == printed;
    PrintedIff(x.a);
    PrintedIff(x.b);
    PrintedIff(x.c);
    PrintedIff(x.d);
    hide Split, Join, Ipv4.IsOctet, IsNumeral;
    assert parts == printed <==>
      parts[0] == printed[0] && parts[1] == printed[1] && parts[2] == printed[2] && parts[3] == printed[3];
  }

  lemma PrintedIff(s: string)
    requires IsNumeral(s, 255)
    ensures s == Print(Value(s)) <==> Ipv4.IsOctet(s)
  {
    Ipv4.PrintIsOctet(Value(s));
    if Ipv4.IsOctet(s) {
      PrintOfValue(s);
    }
  }

  /** Lists of printed addresses come back from both scanners unchanged and in order. */
  lemma PrintedListsComeBack(source: string, items: seq<Item>, addresses: seq<Ipv4.Address>, default: FreeProto)
    requires |addresses| == |items|
    requires forall k :: 0 <= k < |items| ==>
               var q, x := addresses[k], items[k];
               && x.a == Print(q.a) && x.b == Print(q.b) && x.c == Print(q.c) && x.d == Print(q.d)
               && Listable(x)
    ensures ParseBody(source, TextOf(items), default) == ExtractFrom(source, TextOf(items), default, 0)
    ensures var r := ParseBody(source, TextOf(items), default);
            && |r| == |items|
            && forall k :: 0 <= k < |items| ==> r[k] == Entry(source, Ipv4.Show(addresses[k]), items[k], default)
  {
    forall x | x in items
      ensures Listable(x) && NoLeadingZero(x)
    {
      var k :| 0 <= k < |items| && items[k] == x;
      var q := addresses[k];
      assert AddressOf(x) == q;
      SpeltCanonicallyIff(x);
    }
    ListsAreRead(source, items, default);
    forall k | 0 <= k < |items|
      ensures Listed(source, items, default, true)[k] == Entry(source, Ipv4.Show(addresses[k]), items[k], default)
    {
      ListedAt(source, items, default, true, k);
      assert AddressOf(items[k]) == addresses[k];
    }
    hide Listable, NoLeadingZero, ParseBody, ExtractFrom, TextOf, Entry, EntryOf, Listed;
  }
}
