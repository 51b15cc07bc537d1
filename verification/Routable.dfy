/** Which addresses may enter the candidate list. */
module Routable {
  import opened Options
  import opened Text
  import opened Decimal
  import opened Splitting
  import Ipv4

  /** Not unspecified, loopback, private, link-local, multicast or reserved. */
  predicate RoutableAddress(q: Ipv4.Address) {
    && q.a != 0 && q.a != 127 && q.a < 224
    && q.a != 10 && !(q.a == 172 && 16 <= q.b < 32) && !(q.a == 192 && q.b == 168)
    && !(q.a == 169 && q.b == 254)
  }

  /** The address as a number of 32 bits. */
  function Bits(q: Ipv4.Address): nat {
    ((q.a * 256 + q.b) * 256 + q.c) * 256 + q.d
  }

  /** What is not routable are exactly the blocks 0.0.0.0/8, 10.0.0.0/8, 127.0.0.0/8, 169.254.0.0/16, 172.16.0.0/12,
      192.168.0.0/16 and all from 224.0.0.0 on. */
  lemma RoutableIff(q: Ipv4.Address)
    requires Ipv4.InRange(q)
    ensures var n := Bits(q);
            RoutableAddress(q) <==>
              && !(n < 0x0100_0000) && !(0x0A00_0000 <= n < 0x0B00_0000) && !(0x7F00_0000 <= n < 0x8000_0000)
              && !(0xA9FE_0000 <= n < 0xA9FF_0000) && !(0xAC10_0000 <= n < 0xAC20_0000)
              && !(0xC0A8_0000 <= n < 0xC0A9_0000) && n < 0xE000_0000
  {
  }

  /** The address that four parts spell: each a number of at most 255, leading zeros and a plus sign allowed. */
  function Spelt(s: string): Option<Ipv4.Address> {
    var parts := Split(s, '.');
    if |parts| != 4 then None
    else
      var a, b, c, d := ParseUnsigned(parts[0], 255), ParseUnsigned(parts[1], 255),
                        ParseUnsigned(parts[2], 255), ParseUnsigned(parts[3], 255);
      if a.Some? && b.Some? && c.Some? && d.Some?
      then Some(Ipv4.Address(a.value, b.value, c.value, d.value)) else None
  }

  /** Four numbers joined by dots, no more and no less. */
  ghost predicate SpeltBy(s: string, q: Ipv4.Address, parts: seq<string>) {
    && |parts| == 4 && (forall p :: p in parts ==> '.' !in p) && s == Join(parts, '.')
    && ParseUnsigned(parts[0], 255) == Some(q.a) && ParseUnsigned(parts[1], 255) == Some(q.b)
    && ParseUnsigned(parts[2], 255) == Some(q.c) && ParseUnsigned(parts[3], 255) == Some(q.d)
  }

  lemma SpeltIff(s: string, q: Ipv4.Address)
    ensures Spelt(s) == Some(q) <==> exists parts :: SpeltBy(s, q, parts)
  {
    hide ParseUnsigned, Split, Join;
    JoinOfSplit(s, '.');
    if Spelt(s) == Some(q) {
      assert SpeltBy(s, q, Split(s, '.'));
    }
    if parts :| SpeltBy(s, q, parts) {
      SplitOfJoin(parts, '.');
    }
  }

  predicate IsRoutableIp(ip: string) {
    var q := Spelt(Trim(ip));
    q.Some? && RoutableAddress(q.value)
  }

  /** Digits without a sign, as both scanners find them in lists. */
  predicate IsNumeral(s: string, max: nat) {
    s != [] && AllDigits(s) && Value(s) <= max
  }

  lemma NumeralParses(s: string, max: nat)
    requires IsNumeral(s, max)
    ensures ParseUnsigned(s, max) == Some(Value(s))
  {
    assert IsDigit(s[0]);
  }

  /** Four numerals spell the address of their values, whatever leading zeros they have. */
  lemma SpeltByNumerals(a: string, b: string, c: string, d: string)
    requires IsNumeral(a, 255) && IsNumeral(b, 255) && IsNumeral(c, 255) && IsNumeral(d, 255)
    ensures var s := Join([a, b, c, d], '.');
            && Split(s, '.') == [a, b, c, d]
            && Ipv4.IsDotted(s) && s != [] && Trim(s) == s
            && Spelt(s) == Some(Ipv4.Address(Value(a), Value(b), Value(c), Value(d)))
  {
    var s := Join([a, b, c, d], '.');
    SplitOfJoin([a, b, c, d], '.');
    NumeralParses(a, 255);
    NumeralParses(b, 255);
    NumeralParses(c, 255);
    NumeralParses(d, 255);
    Ipv4.JoinIsDotted([a, b, c, d]);
    assert s[0] == a[0];
    DottedIsTrimmed(s);
  }

  lemma DottedIsTrimmed(s: string)
    requires Ipv4.IsDotted(s)
    ensures Trim(s) == s
  {
    assert Trimmed(s);
    hide IsSpace, Trimmed;
    TrimOfTrimmed(s);
  }

  /** For a printed address the string check and the octet check agree. */
  lemma RoutableShown(q: Ipv4.Address)
    requires Ipv4.InRange(q)
    ensures IsRoutableIp(Ipv4.Show(q)) <==> RoutableAddress(q)
  {
    SpeltByNumerals(Print(q.a), Print(q.b), Print(q.c), Print(q.d));
    hide Spelt, Trim, Split, Join, RoutableAddress;
  }
}
