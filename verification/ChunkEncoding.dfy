/** Chunked encodings, and what the decoder makes of them and of their prefixes. */
module ChunkEncoding {
  import opened Options
  import opened ChunkedBody

  /** A chunk as sent: its size in hexadecimal, extensions, and the data. */
  datatype Chunk = Chunk(size: string, ext: string, data: string)

  /** Extensions start with a semicolon and stay on their line, which fits the reader's limit. */
  predicate HeadOk(size: string, ext: string) {
    && size != [] && AllHex(size)
    && (ext != [] ==> ext[0] == ';') && '\n' !in ext
    && |size| + |ext| + 2 <= LINE_LIMIT
  }

  predicate ChunkOk(c: Chunk) {
    HeadOk(c.size, c.ext) && HexValue(c.size) == |c.data| && c.data != []
  }

  function Head(size: string, ext: string): string {
    size + ext + CRLF
  }

  function EncodeChunk(c: Chunk): string {
    Head(c.size, c.ext) + (c.data + CRLF)
  }

  function EncodeChunks(cs: seq<Chunk>): string {
    if cs == [] then [] else EncodeChunks(cs[..|cs| - 1]) + EncodeChunk(cs[|cs| - 1])
  }

  predicate TrailerOk(t: string) {
    t != [] && '\n' !in t && |t| + 2 <= LINE_LIMIT
  }

  function EncodeTrailers(ts: seq<string>): string {
    if ts == [] then CRLF else ts[0] + CRLF + EncodeTrailers(ts[1..])
  }

  /** The last chunk: zeros for its size, then the trailer section. */
  function EncodeEnd(zeros: string, ext: string, trailers: seq<string>): string {
    Head(zeros, ext) + EncodeTrailers(trailers)
  }

  predicate EndOk(zeros: string, ext: string, trailers: seq<string>) {
    && HeadOk(zeros, ext) && HexValue(zeros) == 0
    && forall k :: 0 <= k < |trailers| ==> TrailerOk(trailers[k])
  }

  predicate ChunksOk(cs: seq<Chunk>) {
    forall k :: 0 <= k < |cs| ==> ChunkOk(cs[k])
  }

  function Data(cs: seq<Chunk>): string {
    if cs == [] then [] else Data(cs[..|cs| - 1]) + cs[|cs| - 1].data
  }

  // ---------------------------------------------------------------- lines and tokens

  lemma {:induction false} WholeLine(l: string, more: string, limit: nat)
    requires '\n' !in l && |l| + 1 <= limit
    ensures LineLength(l + ['\n'] + more, limit) == |l| + 1
  {
    var b := l + ['\n'] + more;
    if l != [] {
      WholeLine(l[1..], more, limit - 1);
      assert b[1..] == l[1..] + ['\n'] + more;
      assert b[0] == l[0] && l[0] in l;
    }
  }

  lemma {:induction false} LastLine(l: string, limit: nat)
    requires '\n' !in l && |l| <= limit
    ensures LineLength(l, limit) == |l|
  {
    if l != [] {
      LastLine(l[1..], limit - 1);
      assert l[0] in l;
    }
  }

  lemma HeadIsLine(size: string, ext: string, more: string)
    requires HeadOk(size, ext)
    ensures LineLength(Head(size, ext) + more, LINE_LIMIT) == |Head(size, ext)|
  {
    var l := size + ext + ['\r'];
    assert Head(size, ext) + more == l + ['\n'] + more;
    assert '\n' !in l by {
      assert forall c :: c in size ==> IsHex(c);
    }
    WholeLine(l, more, LINE_LIMIT);
  }

  lemma HexIsSolid(s: string)
    requires AllHex(s)
    ensures Solid(s) && ';' !in s
  {
  }

  predicate Solid(s: string) {
    forall k :: 0 <= k < |s| ==> !IsBlank(s[k])
  }

  predicate Blank(s: string) {
    forall k :: 0 <= k < |s| ==> IsBlank(s[k])
  }

  lemma BlanksAreStripped(s: string, blanks: string)
    requires Solid(s) && s != [] && Blank(blanks)
    ensures Strip(s + blanks) == s
  {
    hide IsBlank;
    var t := s + blanks;
    assert t[0] == s[0] && StripStart(t) == t;
    assert t[|s| - 1] == s[|s| - 1];
    assert forall k :: 0 <= k < |blanks| ==> t[|s| + k] == blanks[k];
    assert |StripEnd(t)| == |s|;
  }

  lemma SemicolonStaysInFront(s: string, tail: string)
    requires Solid(s) && s != [] && tail != [] && tail[0] == ';'
    ensures s + [';'] <= Strip(s + tail)
  {
    var t := s + tail;
    assert t[0] == s[0] && StripStart(t) == t;
    assert t[|s|] == ';' && !IsBlank(';');
    assert |StripEnd(t)| > |s|;
    assert t[..|s| + 1] == s + [';'];
  }

  lemma StripKeepsFront(s: string, tail: string)
    requires Solid(s) && s != []
    requires Blank(tail) || (tail != [] && tail[0] == ';')
    ensures var t := Strip(s + tail); s <= t && (|t| > |s| ==> t[|s|] == ';')
  {
    hide Strip, Solid, Blank;
    if Blank(tail) {
      BlanksAreStripped(s, tail);
    } else {
      SemicolonStaysInFront(s, tail);
      var t := Strip(s + tail);
      assert (s + [';'])[|s|] == ';';
    }
  }

  lemma TokenInFront(s: string, tail: string)
    requires Solid(s) && s != [] && ';' !in s
    requires Blank(tail) || (tail != [] && tail[0] == ';')
    ensures Token(s + tail) == s
  {
    assert Blank([]);
    hide Strip, Solid, Blank, BeforeSemicolon;
    StripKeepsFront(s, tail);
    CutAtSemicolon(s, Strip(s + tail));
    BlanksAreStripped(s, []);
    assert s + [] == s;
  }

  lemma {:induction false} CutAtSemicolon(s: string, t: string)
    requires ';' !in s && s <= t && (|t| > |s| ==> t[|s|] == ';')
    ensures BeforeSemicolon(t) == s
  {
    if s != [] {
      assert s[0] in s;
      CutAtSemicolon(s[1..], t[1..]);
      assert s == [s[0]] + s[1..];
    }
  }

  lemma TailOfHead(ext: string, k: nat)
    requires ext != [] ==> ext[0] == ';'
    requires k <= |ext| + 2
    ensures var tail := (ext + CRLF)[..k]; Blank(tail) || (tail != [] && tail[0] == ';')
  {
    if ext == [] {
      assert ext + CRLF == CRLF;
    }
  }

  /** From a head line, or the beginning of one, the size is read as far as it is there. */
  lemma TokenOfPrefix(size: string, ext: string, k: nat)
    requires HeadOk(size, ext) && 0 < k <= |Head(size, ext)|
    ensures Token(Head(size, ext)[..k]) == size[..if k < |size| then k else |size|]
  {
    var line := Head(size, ext)[..k];
    assert Head(size, ext) == size + (ext + CRLF);
    var n := if k < |size| then k else |size|;
    var token, tail := size[..n], (ext + CRLF)[..k - n];
    assert line == token + tail;
    HexIsSolid(token);
    TailOfHead(ext, k - n);
    hide Token, IsBlank, Blank, Head;
    TokenInFront(token, tail);
  }

  lemma {:induction false} UngroupHex(s: string)
    requires AllHex(s) && s != []
    ensures Ungroup(s) == Some(s)
  {
    if |s| > 1 {
      UngroupHex(s[..|s| - 1]);
      assert s[|s| - 2] != '_';
      assert s == s[..|s| - 1] + [s[|s| - 1]];
    } else {
      assert s == [] + [s[0]];
    }
  }

  lemma HexIsRead(s: string)
    requires AllHex(s) && s != []
    ensures IntBase16(s) == Some(HexValue(s))
  {
    UngroupHex(s);
    assert IsHex(s[0]);
    if |s| > 1 {
      assert IsHex(s[1]);
    }
  }

  lemma {:induction false} HexPositive(s: string)
    requires AllHex(s) && s != [] && s[0] != '0'
    ensures HexValue(s) > 0
  {
    if |s| > 1 {
      HexPositive(s[..|s| - 1]);
    }
  }

  // ---------------------------------------------------------------- one chunk

  /** A size line is read: what follows decides. */
  lemma LineRead(line: string, rest: string, body: string, cap: nat, size: nat)
    requires line != [] && LineLength(line + rest, LINE_LIMIT) == |line|
    requires Token(line) != [] && IntBase16(Token(line)) == Some(size)
    ensures Decode(line + rest, body, cap) ==
            if size == 0 then Body(body, SkipTrailers(rest))
            else if |body| + size > cap then OverflowError
            else DecodeData(rest, body, size, cap)
  {
    hide Token, IntBase16, LineLength, DecodeData, SkipTrailers;
    assert (line + rest)[..|line|] == line && (line + rest)[|line|..] == rest;
  }

  lemma HeadRead(size: string, ext: string, more: string, body: string, cap: nat)
    requires HeadOk(size, ext)
    ensures Decode(Head(size, ext) + more, body, cap) ==
            if HexValue(size) == 0 then Body(body, SkipTrailers(more))
            else if |body| + HexValue(size) > cap then OverflowError
            else DecodeData(more, body, HexValue(size), cap)
  {
    hide Token, IntBase16, LineLength, Decode, DecodeData, SkipTrailers, HexValue;
    var head := Head(size, ext);
    assert head[..|head|] == head && size[..|size|] == size;
    HeadIsLine(size, ext, more);
    TokenOfPrefix(size, ext, |head|);
    HexIsRead(size);
    LineRead(head, more, body, cap, HexValue(size));
  }

  lemma DataRead(data: string, more: string, body: string, cap: nat)
    ensures DecodeData(data + CRLF + more, body, |data|, cap) == Decode(more, body + data, cap)
  {
    hide Decode;
    var tail := data + CRLF + more;
    assert tail[..|data|] == data && tail[|data|..] == CRLF + more && tail[|data| + 2..] == more;
  }

  lemma ChunkRead(c: Chunk, more: string, body: string, cap: nat)
    requires ChunkOk(c)
    ensures Decode(EncodeChunk(c) + more, body, cap) ==
            if |body| + |c.data| > cap then OverflowError else Decode(more, body + c.data, cap)
  {
    hide Decode, DecodeData, Head;
    var tail := c.data + CRLF + more;
    assert EncodeChunk(c) + more == Head(c.size, c.ext) + tail;
    HeadRead(c.size, c.ext, tail, body, cap);
    DataRead(c.data, more, body, cap);
  }

  lemma {:induction false} TrailersSkipped(ts: seq<string>, more: string)
    requires forall k :: 0 <= k < |ts| ==> TrailerOk(ts[k])
    ensures SkipTrailers(EncodeTrailers(ts) + more) == more
  {
    if ts == [] {
      var b := CRLF + more;
      assert b == ['\r'] + ['\n'] + more;
      WholeLine(['\r'], more, LINE_LIMIT);
      assert b[..2] == CRLF && b[2..] == more;
    } else {
      var t, tail := ts[0], EncodeTrailers(ts[1..]) + more;
      var b := EncodeTrailers(ts) + more;
      var l := t + ['\r'];
      assert b == l + ['\n'] + tail;
      WholeLine(l, tail, LINE_LIMIT);
      assert b[..|l| + 1] == l + ['\n'] && b[|l| + 1..] == tail;
      assert |l + ['\n']| > 2;
      TrailersSkipped(ts[1..], more);
      hide LineLength, EncodeTrailers;
    }
  }

  // ---------------------------------------------------------------- main results

  /** Whole chunks are read one after the other, as long as the data fit. */
  lemma {:induction false} ChunksRead(cs: seq<Chunk>, more: string, body: string, cap: nat)
    requires ChunksOk(cs) && |body| <= cap
    ensures Decode(EncodeChunks(cs) + more, body, cap) ==
            if |body| + |Data(cs)| > cap then OverflowError else Decode(more, body + Data(cs), cap)
  {
    if cs == [] {
      NoChunks(more, body);
    } else {
      hide Decode, EncodeChunk, EncodeChunks, Data, ChunkOk;
      var front, last := cs[..|cs| - 1], cs[|cs| - 1];
      ChunksRead(front, EncodeChunk(last) + more, body, cap);
      LastOfChunks(cs, more, body);
      ChunkRead(last, more, body + Data(front), cap);
    }
  }

  lemma NoChunks(more: string, body: string)
    ensures EncodeChunks([]) + more == more && body + Data([]) == body && Data([]) == []
  {
  }

  lemma LastOfChunks(cs: seq<Chunk>, more: string, body: string)
    requires cs != []
    ensures var front, last := cs[..|cs| - 1], cs[|cs| - 1];
            && EncodeChunks(cs) + more == EncodeChunks(front) + (EncodeChunk(last) + more)
            && body + Data(cs) == body + Data(front) + last.data
            && |Data(cs)| == |Data(front)| + |last.data|
  {
    hide EncodeChunk;
    var front, last := cs[..|cs| - 1], cs[|cs| - 1];
    Associates(EncodeChunks(front), EncodeChunk(last), more);
    Associates(body, Data(front), last.data);
  }

  lemma Associates(a: string, b: string, c: string)
    ensures (a + b) + c == a + (b + c)
  {
  }

  lemma EndRead(zeros: string, ext: string, trailers: seq<string>, more: string, body: string, cap: nat)
    requires EndOk(zeros, ext, trailers)
    ensures Decode(EncodeEnd(zeros, ext, trailers) + more, body, cap) == Body(body, more)
  {
    hide Decode, EncodeTrailers, HeadOk, Head, TrailerOk;
    var tail := EncodeTrailers(trailers) + more;
    assert EncodeEnd(zeros, ext, trailers) + more == Head(zeros, ext) + tail;
    HeadRead(zeros, ext, tail, body, cap);
    TrailersSkipped(trailers, more);
  }

  /** Decoding undoes encoding: all data come back, whatever follows stays on the stream - unless the data exceed
      the cap, and then, and only then, the decoder gives up with an overflow. */
  lemma DecodeOfEncode(
    cs: seq<Chunk>, zeros: string, ext: string, trailers: seq<string>, more: string, cap: nat)
    requires ChunksOk(cs) && EndOk(zeros, ext, trailers)
    ensures Decode(EncodeChunks(cs) + (EncodeEnd(zeros, ext, trailers) + more), [], cap) ==
            if |Data(cs)| <= cap then Body(Data(cs), more) else OverflowError
  {
    hide *;
    ChunksRead(cs, EncodeEnd(zeros, ext, trailers) + more, [], cap);
    assert [] + Data(cs) == Data(cs);
    EndRead(zeros, ext, trailers, more, Data(cs), cap);
  }

  lemma NoData(body: string, size: int, cap: nat)
    requires size > 0
    ensures DecodeData([], body, size, cap) == ValueError
  {
    hide Decode;
  }

  /** A prefix that ends inside the head of a chunk. The size read is that of the digits present, and if it is not
      zero the data are missing. */
  lemma CutInHead(c: Chunk, k: nat, body: string, cap: nat)
    requires ChunkOk(c) && 0 < k <= |Head(c.size, c.ext)|
    ensures var present := c.size[..if k < |c.size| then k else |c.size|];
            var r := Decode(Head(c.size, c.ext)[..k], body, cap);
            if HexValue(present) == 0 then r == Body(body, []) else !r.Body?
  {
    var line := Head(c.size, c.ext)[..k];
    var present := c.size[..if k < |c.size| then k else |c.size|];
    assert SkipTrailers([]) == [];
    hide Token, IntBase16, LineLength, SkipTrailers, Decode, DecodeData, HexValue, Head;
    assert AllHex(present) && present != [] && line != [] && line + [] == line;
    PrefixIsLine(c.size, c.ext, k);
    TokenOfPrefix(c.size, c.ext, k);
    HexIsRead(present);
    LineRead(line, [], body, cap, HexValue(present));
    if HexValue(present) > 0 {
      NoData(body, HexValue(present), cap);
    }
  }

  lemma PrefixIsLine(size: string, ext: string, k: nat)
    requires HeadOk(size, ext) && k <= |Head(size, ext)|
    ensures LineLength(Head(size, ext)[..k], LINE_LIMIT) == k
  {
    var head, l := Head(size, ext), size + ext + ['\r'];
    assert head == l + ['\n'];
    assert '\n' !in l by {
      assert forall c :: c in size ==> IsHex(c);
    }
    if k <= |l| {
      assert head[..k] == l[..k];
      LastLine(l[..k], LINE_LIMIT);
    } else {
      assert head[..k] == l + ['\n'] + [];
      WholeLine(l, [], LINE_LIMIT);
    }
  }

  /** A prefix that ends in the data of a chunk or in the line break behind them is refused. */
  lemma CutInData(c: Chunk, part: string, body: string, cap: nat)
    requires ChunkOk(c) && part <= c.data + CRLF && part != c.data + CRLF
    ensures !Decode(Head(c.size, c.ext) + part, body, cap).Body?
  {
    HeadRead(c.size, c.ext, part, body, cap);
    hide Decode, Head;
    var size := |c.data|;
    if size <= |part| {
      assert |part[size..]| < 2;
    }
  }

  predicate LeadingZero(c: Chunk) {
    c.size != [] && c.size[0] == '0'
  }

  /** Cut off inside a chunk whose size has no leading zero. */
  lemma CutInChunk(c: Chunk, k: nat, body: string, cap: nat)
    requires ChunkOk(c) && !LeadingZero(c) && k < |EncodeChunk(c)|
    ensures !Decode(EncodeChunk(c)[..k], body, cap).Body?
  {
    var head := Head(c.size, c.ext);
    if k == 0 {
      assert EncodeChunk(c)[..k] == [];
    } else if k <= |head| {
      assert EncodeChunk(c)[..k] == head[..k];
      hide Decode, Head;
      CutInHeadRefused(c, k, body, cap);
    } else {
      var part := (c.data + CRLF)[..k - |head|];
      assert EncodeChunk(c)[..k] == head + part;
      hide Decode, Head;
      CutInData(c, part, body, cap);
    }
  }

  /** Cut off anywhere before the last chunk, an encoding whose sizes have no leading zeros is refused. */
  lemma {:induction false} CutIsRefused(cs: seq<Chunk>, cut: nat, cap: nat)
    requires ChunksOk(cs) && cut <= |EncodeChunks(cs)|
    requires forall k :: 0 <= k < |cs| ==> !LeadingZero(cs[k])
    ensures !Decode(EncodeChunks(cs)[..cut], [], cap).Body?
  {
    hide Decode, EncodeChunk, ChunkOk, LeadingZero;
    if cs == [] {
      NothingRefused(cap);
    } else {
      var front, last := cs[..|cs| - 1], cs[|cs| - 1];
      if cut <= |EncodeChunks(front)| {
        assert EncodeChunks(cs)[..cut] == EncodeChunks(front)[..cut];
        CutIsRefused(front, cut, cap);
      } else {
        var k := cut - |EncodeChunks(front)|;
        var part := if k < |EncodeChunk(last)| then EncodeChunk(last)[..k] else EncodeChunk(last) + [];
        assert EncodeChunks(cs)[..cut] == EncodeChunks(front) + part;
        ChunksRead(front, part, [], cap);
        ChunkCutRefused(last, k, [] + Data(front), cap);
      }
    }
  }

  lemma ChunkCutRefused(c: Chunk, k: nat, body: string, cap: nat)
    requires ChunkOk(c) && !LeadingZero(c) && k <= |EncodeChunk(c)|
    ensures !Decode(if k < |EncodeChunk(c)| then EncodeChunk(c)[..k] else EncodeChunk(c) + [], body, cap).Body?
  {
    hide Decode, EncodeChunk, ChunkOk, LeadingZero;
    if k < |EncodeChunk(c)| {
      CutInChunk(c, k, body, cap);
    } else {
      ChunkRead(c, [], body, cap);
      NothingLeftRefused(body + c.data, cap);
    }
  }

  lemma NothingLeftRefused(body: string, cap: nat)
    ensures Decode([], body, cap) == ValueError
  {
  }

  lemma NothingRefused(cap: nat)
    ensures EncodeChunks([]) == [] && Decode(EncodeChunks([]), [], cap) == ValueError
  {
  }

  lemma CutInHeadRefused(c: Chunk, k: nat, body: string, cap: nat)
    requires ChunkOk(c) && !LeadingZero(c) && 0 < k <= |Head(c.size, c.ext)|
    ensures !Decode(Head(c.size, c.ext)[..k], body, cap).Body?
  {
    hide Decode, Head;
    HexPositive(c.size[..if k < |c.size| then k else |c.size|]);
    CutInHead(c, k, body, cap);
  }

  lemma ZeroInFront(c: Chunk, body: string, cap: nat)
    requires ChunkOk(c) && LeadingZero(c)
    ensures |Head(c.size, c.ext)| > 0
    ensures Decode(Head(c.size, c.ext)[..1], body, cap) == Body(body, [])
  {
    assert c.size[..1] == "0" && c.size[..1][..0] == [];
    assert HexValue(c.size[..1]) == 0;
    hide Decode, HexValue;
    CutInHead(c, 1, body, cap);
  }

  /** Cut off behind the first zero of a size, the encoding passes for complete: the data before it are returned. */
  lemma {:induction false} CutAtZeroPasses(cs: seq<Chunk>, k: nat, cap: nat)
    requires ChunksOk(cs) && k < |cs| && LeadingZero(cs[k])
    requires |Data(cs[..k])| <= cap
    ensures |EncodeChunks(cs[..k])| + 1 <= |EncodeChunks(cs)|
    ensures Decode(EncodeChunks(cs)[..|EncodeChunks(cs[..k])| + 1], [], cap) == Body(Data(cs[..k]), [])
  {
    hide Decode, EncodeChunk, Head, ChunkOk, LeadingZero, Data;
    var front, last := cs[..|cs| - 1], cs[|cs| - 1];
    var n := |EncodeChunks(cs[..k])| + 1;
    if k < |cs| - 1 {
      assert front[..k] == cs[..k];
      CutAtZeroPasses(front, k, cap);
      assert EncodeChunks(cs)[..n] == EncodeChunks(front)[..n];
    } else {
      assert cs[..k] == front;
      ZeroInFront(last, [] + Data(front), cap);
      var zero := Head(last.size, last.ext)[..1];
      HeadInFront(last);
      assert EncodeChunks(cs)[..n] == EncodeChunks(front) + zero;
      ChunksRead(front, zero, [], cap);
      assert [] + Data(front) == Data(front);
    }
  }

  lemma HeadInFront(c: Chunk)
    ensures Head(c.size, c.ext) <= EncodeChunk(c)
  {
  }

  /** Every prefix that ends before the last chunk is refused exactly if no chunk size has a leading zero. */
  lemma PrefixesRefusedIff(cs: seq<Chunk>, cap: nat)
    requires ChunksOk(cs) && |Data(cs)| <= cap
    ensures (forall cut :: 0 <= cut <= |EncodeChunks(cs)| ==> !Decode(EncodeChunks(cs)[..cut], [], cap).Body?)
            <==> forall k :: 0 <= k < |cs| ==> !LeadingZero(cs[k])
  {
    hide Decode, EncodeChunks, ChunkOk, LeadingZero;
    if forall k :: 0 <= k < |cs| ==> !LeadingZero(cs[k]) {
      forall cut | 0 <= cut <= |EncodeChunks(cs)|
        ensures !Decode(EncodeChunks(cs)[..cut], [], cap).Body?
      {
        CutIsRefused(cs, cut, cap);
      }
    } else {
      var k :| 0 <= k < |cs| && LeadingZero(cs[k]);
      DataOfPrefix(cs, k);
      CutAtZeroPasses(cs, k, cap);
    }
  }

  lemma {:induction false} DataOfPrefix(cs: seq<Chunk>, k: nat)
    requires k <= |cs|
    ensures |Data(cs[..k])| <= |Data(cs)|
  {
    if k < |cs| {
      DataOfPrefix(cs[..|cs| - 1], k);
      assert cs[..|cs| - 1][..k] == cs[..k];
    } else {
      assert cs[..k] == cs;
    }
  }

  // ---------------------------------------------------------------- sizes as senders print them

  const LOWER_HEX := "0123456789abcdef"
  const UPPER_HEX := "0123456789ABCDEF"

  lemma HexDigitIs(d: nat)
    requires d < 16
    ensures IsHex(LOWER_HEX[d]) && HexDigit(LOWER_HEX[d]) == d
    ensures IsHex(UPPER_HEX[d]) && HexDigit(UPPER_HEX[d]) == d
  {
  }

  /** The hexadecimal numeral of `n`, without leading zeros. */
  function Hex(n: nat): (s: string)
    ensures s != []
  {
    if n < 16 then [LOWER_HEX[n]] else Hex(n / 16) + [LOWER_HEX[n % 16]]
  }

  /** What is printed is read. */
  lemma {:induction false} HexIsReadBack(n: nat)
    ensures AllHex(Hex(n)) && HexValue(Hex(n)) == n
  {
    hide HexDigit, IsHex;
    if n < 16 {
      HexDigitIs(n);
      assert HexValue([]) == 0 && [LOWER_HEX[n]][..0] == [];
    } else {
      HexIsReadBack(n / 16);
      HexDigitIs(n % 16);
      var s := Hex(n / 16) + [LOWER_HEX[n % 16]];
      assert s[..|s| - 1] == Hex(n / 16);
    }
  }

  /** The chunks in which a sender transfers the pieces of a body. */
  function ChunksOf(pieces: seq<string>): (cs: seq<Chunk>)
    ensures |cs| == |pieces|
    ensures forall k :: 0 <= k < |pieces| ==> cs[k] == Chunk(Hex(|pieces[k]|), [], pieces[k])
  {
    seq(|pieces|, k requires 0 <= k < |pieces| => Chunk(Hex(|pieces[k]|), [], pieces[k]))
  }

  function Joined(pieces: seq<string>): string {
    if pieces == [] then [] else Joined(pieces[..|pieces| - 1]) + pieces[|pieces| - 1]
  }

  lemma {:induction false} DataIsJoined(pieces: seq<string>)
    ensures Data(ChunksOf(pieces)) == Joined(pieces)
  {
    if pieces != [] {
      var n := |pieces| - 1;
      DataIsJoined(pieces[..n]);
      assert ChunksOf(pieces)[..n] == ChunksOf(pieces[..n]);
    }
  }

  lemma PieceIsOk(piece: string)
    requires piece != [] && |Hex(|piece|)| <= 8190
    ensures ChunkOk(Chunk(Hex(|piece|), [], piece))
  {
    HexIsReadBack(|piece|);
    hide AllHex, HexValue, Hex;
  }

  lemma PlainEnd()
    ensures EndOk("0", [], []) && EncodeEnd("0", [], []) == "0\r\n\r\n"
  {
    assert HexValue("0") == 0;
  }

  /** A body sent in pieces, each behind its printed size, comes back as the pieces joined, if they fit. */
  lemma PiecesComeBack(pieces: seq<string>, more: string, cap: nat)
    requires forall k :: 0 <= k < |pieces| ==> pieces[k] != [] && |Hex(|pieces[k]|)| <= 8190
    ensures Decode(EncodeChunks(ChunksOf(pieces)) + ("0\r\n\r\n" + more), [], cap) ==
            if |Joined(pieces)| <= cap then Body(Joined(pieces), more) else OverflowError
  {
    hide ChunkOk, Decode, Hex, EncodeChunks, EncodeEnd, EndOk, Data, Joined;
    forall k | 0 <= k < |pieces|
      ensures ChunkOk(ChunksOf(pieces)[k])
    {
      PieceIsOk(pieces[k]);
    }
    DataIsJoined(pieces);
    PlainEnd();
    DecodeOfEncode(ChunksOf(pieces), "0", [], [], more, cap);
  }

  // ---------------------------------------------------------------- sizes as they may stand on their line

  const BLANKS := "\t\n\U{000B}\U{000C}\r\U{001C}\U{001D}\U{001E}\U{001F} \U{0085}\U{00A0}"

  lemma BlankIff(c: char)
    ensures IsBlank(c) <==> c in BLANKS
  {
  }

  predicate OnlyBlanks(s: string) {
    forall k :: 0 <= k < |s| ==> s[k] in BLANKS
  }

  lemma BlanksAreBlank(s: string)
    requires OnlyBlanks(s)
    ensures Blank(s)
  {
    forall k | 0 <= k < |s|
      ensures IsBlank(s[k])
    {
      BlankIff(s[k]);
    }
    hide IsBlank, OnlyBlanks;
  }

  lemma StrippedIsSize(size: string)
    requires AllHex(size) && size != []
    ensures Strip(BeforeSemicolon(size)) == size
  {
    HexIsSolid(size);
    assert Blank([]);
    hide Strip, Solid, Blank, AllHex, IsBlank, IsHex;
    CutAtSemicolon(size, size);
    BlanksAreStripped(size, []);
    assert size + [] == size;
  }

  /** Blanks around a size make no difference. */
  lemma PaddedSizeIsRead(before: string, size: string, after: string)
    requires AllHex(size) && size != [] && OnlyBlanks(before) && OnlyBlanks(after)
    ensures Token(before + size + after) == size
  {
    HexIsSolid(size);
    hide Strip, Solid, Blank, AllHex, IsBlank, IsHex, OnlyBlanks, BeforeSemicolon;
    BlanksAreBlank(before);
    BlanksAreBlank(after);
    PaddingIsStripped(before, size, after);
    StrippedIsSize(size);
  }

  lemma HeadToken(before: string, s: string, ext: string)
    requires Blank(before) && s != [] && !IsBlank(s[0]) && !IsBlank(';') && ';' !in s
    ensures Token(before + s + ";" + ext) == Strip(s)
  {
    hide Strip, Blank, IsBlank, BeforeSemicolon;
    HeadIsStripped(before, s, ext);
    FrontOfPrefix(s, Strip(before + s + ";" + ext));
    CutAtSemicolon(s, Strip(before + s + ";" + ext));
  }

  lemma NoSemicolon(size: string, after: string)
    requires AllHex(size) && size != [] && OnlyBlanks(after)
    ensures !IsBlank(size[0]) && !IsBlank(';') && ';' !in size + after
  {
    HexIsSolid(size);
    BlanksAreBlank(after);
    hide AllHex, OnlyBlanks;
  }

  /** Nor do blanks between a size and its extensions. */
  lemma PaddedHeadIsRead(before: string, size: string, after: string, ext: string)
    requires AllHex(size) && size != [] && OnlyBlanks(before) && OnlyBlanks(after)
    ensures Token(before + (size + after) + ";" + ext) == size
  {
    HexIsSolid(size);
    hide *;
    BlanksAreBlank(before);
    BlanksAreBlank(after);
    NoSemicolon(size, after);
    HeadToken(before, size + after, ext);
    BlanksAreStripped(size, after);
  }

  lemma FrontOfPrefix(s: string, t: string)
    requires s + ";" <= t
    ensures s <= t && |t| > |s| && t[|s|] == ';'
  {
    assert (s + ";")[|s|] == ';' == t[|s|];
    assert t[..|s|] == (s + ";")[..|s|] == s;
  }

  lemma {:induction false} StartIsStripped(before: string, s: string)
    requires Blank(before) && s != [] && !IsBlank(s[0])
    ensures StripStart(before + s) == s
  {
    hide IsBlank;
    if before == [] {
      assert before + s == s;
    } else {
      assert (before + s)[1..] == before[1..] + s && (before + s)[0] == before[0];
      StartIsStripped(before[1..], s);
    }
  }

  /** The front of a line up to its first semicolon survives the stripping of the line. */
  lemma HeadIsStripped(before: string, s: string, ext: string)
    requires Blank(before) && s != [] && !IsBlank(s[0]) && !IsBlank(';')
    ensures s + ";" <= Strip(before + s + ";" + ext)
  {
    hide IsBlank, Blank;
    var t := s + ";" + ext;
    assert before + s + ";" + ext == before + t && t[0] == s[0];
    StartIsStripped(before, t);
    assert t[|s|] == ';';
    assert |StripEnd(t)| > |s|;
    assert t[..|s| + 1] == s + ";";
  }

  lemma {:induction false} PaddingIsStripped(before: string, s: string, after: string)
    requires Blank(before) && Solid(s) && s != [] && Blank(after)
    ensures Strip(before + s + after) == s
  {
    hide IsBlank;
    if before == [] {
      assert before + s + after == s + after;
      BlanksAreStripped(s, after);
    } else {
      var t := before + s + after;
      assert t[1..] == before[1..] + s + after;
      assert IsBlank(t[0]) by {
        assert t[0] == before[0];
      }
      PaddingIsStripped(before[1..], s, after);
    }
  }

  lemma {:induction false} GroupedDigits(a: string, b: string)
    requires AllHex(a) && a != [] && AllHex(b) && b != []
    ensures Ungroup(a + "_" + b) == Some(a + b)
  {
    assert !IsHex('_');
    hide IsHex;
    var s := a + "_" + b;
    assert s[|s| - 1] == b[|b| - 1];
    var front := s[..|s| - 1];
    if |b| == 1 {
      assert front == a + "_" && front[..|front| - 1] == a;
      UngroupHex(a);
      assert a + b == a + [s[|s| - 1]];
    } else {
      assert front == a + "_" + b[..|b| - 1];
      assert front[|front| - 1] == b[|b| - 2] && IsHex(b[|b| - 2]);
      GroupedDigits(a, b[..|b| - 1]);
      assert a + b == (a + b[..|b| - 1]) + [b[|b| - 1]];
    }
  }

  /** What else a size may look like: a sign, the prefix 0x or 0X, a single underscore between digits - and what it may
      not: nothing, a lone sign or prefix, an underscore at an end or two in a row. */
  lemma SizeForms(a: string, b: string)
    requires AllHex(a) && a != [] && AllHex(b) && b != []
    ensures IntBase16(a) == IntBase16("+" + a) == IntBase16("0x" + a) == IntBase16("0X" + a) == Some(HexValue(a))
    ensures IntBase16("-" + a) == Some(0 - HexValue(a) as int)
    ensures IntBase16(a + "_" + b) == Some(HexValue(a + b))
    ensures IntBase16("") == IntBase16("+") == IntBase16("-") == IntBase16("0x") == IntBase16("_" + a)
         == IntBase16(a + "_") == IntBase16(a + "__" + b) == None
  {
    UngroupHex(a);
    HexIsRead(a);
    PlainForms(a);
    GroupedForms(a, b);
    RefusedForms(a, b);
  }

  lemma PlainForms(a: string)
    requires AllHex(a) && a != [] && Ungroup(a) == Some(a)
    ensures IntBase16("+" + a) == IntBase16("0x" + a) == IntBase16("0X" + a) == Some(HexValue(a))
    ensures IntBase16("-" + a) == Some(0 - HexValue(a) as int)
  {
    hide Ungroup, HexValue;
    assert ("+" + a)[1..] == a && ("-" + a)[1..] == a && ("0x" + a)[2..] == a && ("0X" + a)[2..] == a;
    assert IsHex(a[0]) && (|a| > 1 ==> IsHex(a[1]));
  }

  lemma GroupedForms(a: string, b: string)
    requires AllHex(a) && a != [] && AllHex(b) && b != []
    ensures AllHex(a + b) && IntBase16(a + "_" + b) == Some(HexValue(a + b))
  {
    GroupedDigits(a, b);
    hide Ungroup, HexValue;
    var s := a + "_" + b;
    assert IsHex(s[0]);
    assert s[1] == '_' || IsHex(s[1]);
  }

  lemma RefusedForms(a: string, b: string)
    requires AllHex(a) && a != [] && AllHex(b) && b != []
    ensures IntBase16("") == IntBase16("+") == IntBase16("-") == IntBase16("0x") == None
    ensures IntBase16("_" + a) == IntBase16(a + "_") == IntBase16(a + "__" + b) == None
  {
    StrayUnderscore(a, b);
    hide HexValue, IntBase16;
    NotEvenADigit();
    StartsPlain("_" + a);
    StartsPlain(a + "_");
    StartsPlain(a + "__" + b);
  }

  lemma NotEvenADigit()
    ensures IntBase16("") == IntBase16("+") == IntBase16("-") == IntBase16("0x") == None
  {
    hide HexValue;
  }

  /** Without a sign or a prefix the digits decide. */
  lemma StartsPlain(s: string)
    requires s != [] && (s[0] == '_' || IsHex(s[0])) && Ungroup(s).None?
    requires |s| > 1 ==> s[1] == '_' || IsHex(s[1])
    ensures IntBase16(s) == None
  {
    hide HexValue, Ungroup;
  }

  lemma {:induction false} StrayUnderscore(a: string, b: string)
    requires AllHex(a) && a != [] && AllHex(b) && b != []
    ensures Ungroup("_" + a) == Ungroup(a + "_") == Ungroup(a + "__" + b) == None
  {
    assert (a + "_")[|a|] == '_';
    if |a| > 1 {
      assert ("_" + a)[..|a|] == "_" + a[..|a| - 1];
      assert ("_" + a)[|a| - 1] == a[|a| - 2] && IsHex(a[|a| - 2]);
      StrayUnderscore(a[..|a| - 1], b);
    } else {
      assert ("_" + a)[..1] == "_";
    }
    DoubledUnderscore(a, b);
  }

  lemma {:induction false} DoubledUnderscore(a: string, b: string)
    requires AllHex(a) && a != [] && AllHex(b) && b != []
    ensures Ungroup(a + "__" + b) == None
  {
    var s := a + "__" + b;
    var front := s[..|s| - 1];
    if |b| == 1 {
      assert front == a + "__" && front[..|front| - 1] == a + "_";
      assert (a + "_")[|a|] == '_';
    } else {
      assert front == a + "__" + b[..|b| - 1];
      assert front[|front| - 1] == b[|b| - 2] && IsHex(b[|b| - 2]);
      DoubledUnderscore(a, b[..|b| - 1]);
    }
  }

  // ---------------------------------------------------------------- the ends of a trailer section

  /** A trailer section ends with an empty line, with or without a carriage return, or with the stream; any other line
      that fits the limit is skipped. */
  lemma TrailersEnd(line: string, rest: string)
    ensures SkipTrailers("\r\n" + rest) == SkipTrailers("\n" + rest) == rest && SkipTrailers([]) == []
    ensures '\n' !in line && line != [] && line != "\r" && |line| + 1 <= 8192 ==>
              SkipTrailers(line + "\n" + rest) == SkipTrailers(rest)
  {
    WholeLine("\r", rest, LINE_LIMIT);
    WholeLine([], rest, LINE_LIMIT);
    assert "\r" + ['\n'] + rest == "\r\n" + rest && [] + ['\n'] + rest == "\n" + rest;
    assert ("\r\n" + rest)[..2] == CRLF && ("\r\n" + rest)[2..] == rest;
    assert ("\n" + rest)[..1] == "\n" && ("\n" + rest)[1..] == rest;
    if '\n' !in line && line != [] && line != "\r" && |line| + 1 <= 8192 {
      WholeLine(line, rest, LINE_LIMIT);
      OtherLineSkipped(line + "\n", rest);
    }
  }

  lemma OtherLineSkipped(line: string, rest: string)
    requires LineLength(line + rest, LINE_LIMIT) == |line| && !EndsTrailers(line)
    ensures SkipTrailers(line + rest) == SkipTrailers(rest)
  {
    assert (line + rest)[..|line|] == line && (line + rest)[|line|..] == rest;
  }
}
