/** IPv4 addresses in dotted form, as the strict parser of the standard library reads them. */
module Ipv4 {
  import opened Options
  import opened Text
  import opened Decimal
  import opened Splitting

  datatype Address = Address(a: nat, b: nat, c: nat, d: nat)

  predicate InRange(q: Address) {
    q.a <= 255 && q.b <= 255 && q.c <= 255 && q.d <= 255
  }

  function Show(q: Address): string {
    Join([Print(q.a), Print(q.b), Print(q.c), Print(q.d)], '.')
  }

  /** One to three digits, at most 255, without a leading zero. */
  predicate IsOctet(s: string) {
    1 <= |s| <= 3 && AllDigits(s) && (s[0] == '0' ==> |s| == 1) && Value(s) <= 255
  }

  function Parse(s: string): Option<Address> {
    var parts := Split(s, '.');
    if |parts| == 4 && IsOctet(parts[0]) && IsOctet(parts[1]) && IsOctet(parts[2]) && IsOctet(parts[3])
    then Some(Address(Value(parts[0]), Value(parts[1]), Value(parts[2]), Value(parts[3])))
    else None
  }

  lemma PrintIsOctet(n: nat)
    requires n <= 255
    ensures IsOctet(Print(n)) && '.' !in Print(n)
  {
    var s := Print(n);
    if |s| > 3 {
      var t := s[..|s| - 1];
      PositiveValue(t);
      assert n == 10 * Value(t) + DigitValue(s[|s| - 1]);
      LongIsLarge(s);
    }
  }

  lemma LongIsLarge(s: string)
    requires AllDigits(s) && |s| > 3 && s[0] != '0'
    ensures Value(s) >= 1000
  {
    if |s| == 4 {
      PositiveValue(s[..1]);
      var s3, s2 := s[..3], s[..2];
      assert s3[..2] == s2 && s2[..1] == s[..1];
      assert Value(s2) >= 10;
      assert Value(s3) >= 100;
    } else {
      LongIsLarge(s[..|s| - 1]);
    }
  }

  /** Only the printed form of an address is accepted, so parsing and printing undo each other. */
  lemma ParseShown(q: Address)
    requires InRange(q)
    ensures Parse(Show(q)) == Some(q)
  {
    var parts := [Print(q.a), Print(q.b), Print(q.c), Print(q.d)];
    PrintIsOctet(q.a);
    PrintIsOctet(q.b);
    PrintIsOctet(q.c);
    PrintIsOctet(q.d);
    SplitOfJoin(parts, '.');
  }

  lemma ShowParsed(s: string)
    requires Parse(s).Some?
    ensures Show(Parse(s).value) == s && InRange(Parse(s).value)
  {
    hide IsOctet, Split, Join, Value, AllDigits;
    var parts := Split(s, '.');
    JoinOfSplit(s, '.');
    OctetPrinted(parts[0]);
    OctetPrinted(parts[1]);
    OctetPrinted(parts[2]);
    OctetPrinted(parts[3]);
    assert parts == [parts[0], parts[1], parts[2], parts[3]];
  }

  lemma OctetPrinted(s: string)
    requires IsOctet(s)
    ensures AllDigits(s) && Print(Value(s)) == s && Value(s) <= 255
  {
    PrintOfValue(s);
  }

  predicate IsDotted(s: string) {
    forall k :: 0 <= k < |s| ==> IsDigit(s[k]) || s[k] == '.'
  }

  lemma ShowIsDotted(q: Address)
    ensures IsDotted(Show(q)) && Show(q) != []
  {
    var parts := [Print(q.a), Print(q.b), Print(q.c), Print(q.d)];
    JoinIsDotted(parts);
  }

  lemma {:induction false} JoinIsDotted(parts: seq<string>)
    requires forall p :: p in parts ==> AllDigits(p)
    ensures IsDotted(Join(parts, '.'))
  {
    if parts != [] {
      assert AllDigits(parts[0]);
    }
    if |parts| > 1 {
      JoinIsDotted(parts[1..]);
    }
  }
}
