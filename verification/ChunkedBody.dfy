/** The decoder of chunked request bodies (section 7.1 of RFC 9112) over a byte stream. */
module ChunkedBody {
  import opened Options

  const LINE_LIMIT: nat := 8192
  const CRLF := "\r\n"

  // ---------------------------------------------------------------- lines and tokens

  /** What `str.strip` removes, within the 256 characters of ISO 8859-1. */
  predicate IsBlank(c: char) {
    '\U{0009}' <= c <= '\U{000D}' || '\U{001C}' <= c <= ' ' || c == '\U{0085}' || c == '\U{00A0}'
  }

  function StripStart(s: string): (r: string)
    ensures |r| <= |s| && r == s[|s| - |r|..]
    ensures r == [] || !IsBlank(r[0])
    ensures forall k :: 0 <= k < |s| - |r| ==> IsBlank(s[k])
  {
    if s != [] && IsBlank(s[0]) then StripStart(s[1..]) else s
  }

  function StripEnd(s: string): (r: string)
    ensures r <= s
    ensures r == [] || !IsBlank(r[|r| - 1])
    ensures forall k :: |r| <= k < |s| ==> IsBlank(s[k])
  {
    if s != [] && IsBlank(s[|s| - 1]) then StripEnd(s[..|s| - 1]) else s
  }

  function Strip(s: string): string {
    StripEnd(StripStart(s))
  }

  function BeforeSemicolon(s: string): (r: string)
    ensures r <= s && ';' !in r
    ensures |r| < |s| ==> s[|r|] == ';'
  {
    if s == [] || s[0] == ';' then [] else [s[0]] + BeforeSemicolon(s[1..])
  }

  /** The chunk size as it stands on its line. */
  function Token(line: string): string {
    Strip(BeforeSemicolon(Strip(line)))
  }

  predicate IsHex(c: char) {
    '0' <= c <= '9' || 'a' <= c <= 'f' || 'A' <= c <= 'F'
  }

  predicate AllHex(s: string) {
    forall k :: 0 <= k < |s| ==> IsHex(s[k])
  }

  function HexDigit(c: char): (v: nat)
    requires IsHex(c)
    ensures v <= 15 && (v == 0 <==> c == '0')
  {
    if c <= '9' then c as int - '0' as int
    else if c <= 'F' then c as int - 'A' as int + 10
    else c as int - 'a' as int + 10
  }

  function HexValue(s: string): nat
    requires AllHex(s)
  {
    if s == [] then 0 else 16 * HexValue(s[..|s| - 1]) + HexDigit(s[|s| - 1])
  }

  /** Hexadecimal digits with single underscores between them; the digits, or nothing. */
  function Ungroup(s: string): (r: Option<string>)
    ensures r.Some? ==> r.value != [] && AllHex(r.value)
  {
    if s == [] || !IsHex(s[|s| - 1]) then None
    else
      var front, last := s[..|s| - 1], s[|s| - 1];
      if front == [] then Some([last])
      else
        var r := Ungroup(if front[|front| - 1] == '_' then front[..|front| - 1] else front);
        if r.None? then None else Some(r.value + [last])
  }

  /** `int(s, 16)`: a sign, a prefix `0x` and grouping underscores are allowed. */
  function IntBase16(s: string): Option<int> {
    var signed := s != [] && (s[0] == '-' || s[0] == '+');
    var t := if signed then s[1..] else s;
    var prefixed := |t| >= 2 && t[0] == '0' && (t[1] == 'x' || t[1] == 'X');
    var u := if prefixed then t[2..] else t;
    var digits := Ungroup(if prefixed && u != [] && u[0] == '_' then u[1..] else u);
    if digits.None? then None
    else
      var v: int := HexValue(digits.value);
      Some(if signed && s[0] == '-' then -v else v)
  }

  function LineLength(b: string, limit: nat): (n: nat)
    ensures n <= |b| && n <= limit
    ensures b != [] && limit > 0 ==> n > 0
  {
    if b == [] || limit == 0 then 0
    else if b[0] == '\n' then 1
    else 1 + LineLength(b[1..], limit - 1)
  }

  // ---------------------------------------------------------------- the decoder on what is left of the stream

  datatype Outcome = Body(data: string, rest: string) | ValueError | OverflowError

  predicate EndsTrailers(line: string) {
    line == [] || line == CRLF || line == "\n"
  }

  /** What is left behind the trailer section. */
  function SkipTrailers(b: string): string {
    var n := LineLength(b, LINE_LIMIT);
    if EndsTrailers(b[..n]) then b[n..] else SkipTrailers(b[n..])
  }

  function Decode(b: string, body: string, cap: nat): Outcome
    decreases |b|
  {
    if b == [] then ValueError
    else
      var n := LineLength(b, LINE_LIMIT);
      var token, rest := Token(b[..n]), b[n..];
      if token == [] then Decode(rest, body, cap)
      else
        var size := IntBase16(token);
        if size.None? then ValueError
        else if size.value == 0 then Body(body, SkipTrailers(rest))
        else if |body| + size.value > cap then OverflowError
        else DecodeData(rest, body, size.value, cap)
  }

  /** The data of a chunk. A negative size reads all there is and then misses the line break. */
  function DecodeData(rest: string, body: string, size: int, cap: nat): Outcome
    decreases |rest|
  {
    if size < 0 || size > |rest| then ValueError
    else if !(CRLF <= rest[size..]) then ValueError
    else Decode(rest[size + 2..], body + rest[..size], cap)
  }

  class Stream {
    var rest: string

    constructor (bytes: string)
      ensures rest == bytes
    {
      rest := bytes;
    }

    method ReadLine(limit: nat) returns (line: string)
      modifies this
      ensures line == old(rest)[..LineLength(old(rest), limit)] && rest == old(rest)[LineLength(old(rest), limit)..]
    {
      var n := LineLength(rest, limit);
      line, rest := rest[..n], rest[n..];
    }

    /** Read up to `n` bytes, or everything if `n` is negative. */
    method Read(n: int) returns (data: string)
      modifies this
      ensures var k := if n < 0 || n > |old(rest)| then |old(rest)| else n;
              data == old(rest)[..k] && rest == old(rest)[k..]
    {
      var k := if n < 0 || n > |rest| then |rest| else n;
      data, rest := rest[..k], rest[k..];
    }
  }

  method SkipTrailerSection(stream: Stream)
    modifies stream
    ensures stream.rest == SkipTrailers(old(stream.rest))
  {
    while true
      invariant SkipTrailers(stream.rest) == SkipTrailers(old(stream.rest))
      decreases |stream.rest|
    {
      var t := stream.ReadLine(LINE_LIMIT);
      if EndsTrailers(t) {
        break;
      }
    }
  }

  method ReadChunkedBody(stream: Stream, cap: nat) returns (r: Outcome)
    modifies stream
    ensures r == Decode(old(stream.rest), [], cap)
    ensures r.Body? ==> stream.rest == r.rest
  {
    hide Token, IntBase16, LineLength, SkipTrailers;
    var body: string := [];
    while true
      invariant Decode(stream.rest, body, cap) == Decode(old(stream.rest), [], cap)
      decreases |stream.rest|
    {
      var line := stream.ReadLine(LINE_LIMIT);
      if line == [] {
        return ValueError;
      }
      var s := Token(line);
      if s == [] {
        continue;
      }
      var size := IntBase16(s);
      if size.None? {
        return ValueError;
      }
      if size.value == 0 {
        SkipTrailerSection(stream);
        return Body(body, stream.rest);
      }
      if |body| + size.value > cap {
        return OverflowError;
      }
      var data := stream.Read(size.value);
      if |data| < size.value {
        return ValueError;
      }
      var crlf := stream.Read(2);
      if crlf != CRLF {
        return ValueError;
      }
      body := body + data;
    }
  }

  /** Whatever the stream holds, no body above the cap is returned, and one that is returned was read off the front. */
  lemma {:induction false} NeverAboveCap(b: string, body: string, cap: nat)
    requires Decode(b, body, cap).Body? && |body| <= cap
    ensures |Decode(b, body, cap).data| <= cap && body <= Decode(b, body, cap).data
    decreases |b|
  {
    hide Token, IntBase16, LineLength;
    var n := LineLength(b, LINE_LIMIT);
    var token, rest := Token(b[..n]), b[n..];
    if token == [] {
      NeverAboveCap(rest, body, cap);
    } else if IntBase16(token).value != 0 {
      var size := IntBase16(token).value;
      NeverAboveCap(rest[size + 2..], body + rest[..size], cap);
    }
  }
}
