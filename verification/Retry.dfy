/** Retries of one request: failed nodes are remembered, up to a cap, and excluded from the next selection. */
module Retry {
  import opened Options
  import opened Sequences
  import Decimal
  import opened Text

  const FAILED_CAP: nat := 16
  const MAX_RETRIES: nat := 3

  /** The failed addresses after one more failure. */
  function Recorded(failed: seq<string>, addr: string): seq<string> {
    if addr !in failed && |failed| < FAILED_CAP then failed + [addr] else failed
  }

  class ProxyContext {
    const maxRetries: nat
    var currentNode: Option<string>
    var failedAddrs: seq<string>
    var retryCount: nat
    var transferredBytes: nat
    var firstByteSeen: bool

    constructor (maxRetries: nat)
      ensures this.maxRetries == maxRetries && currentNode == None && failedAddrs == [] && retryCount == 0
      ensures transferredBytes == 0 && !firstByteSeen
    {
      this.maxRetries := maxRetries;
      currentNode, failedAddrs, retryCount, transferredBytes, firstByteSeen := None, [], 0, 0, false;
    }

    method RecordFailedAddr()
      modifies this`failedAddrs
      ensures failedAddrs ==
              if currentNode.Some? then Recorded(old(failedAddrs), currentNode.value) else old(failedAddrs)
    {
      if currentNode.Some? {
        if currentNode.value !in failedAddrs && |failedAddrs| < FAILED_CAP {
          failedAddrs := failedAddrs + [currentNode.value];
        }
      }
    }

    /** After a failed attempt: its bytes do not count, its node is remembered, and a retry is granted while any is
        left. */
    method FailToConnect() returns (retry: bool)
      modifies this
      ensures transferredBytes == 0 && !firstByteSeen && currentNode == old(currentNode)
      ensures failedAddrs ==
              if currentNode.Some? then Recorded(old(failedAddrs), currentNode.value) else old(failedAddrs)
      ensures retry <==> old(retryCount) < maxRetries
      ensures retryCount == if retry then old(retryCount) + 1 else old(retryCount)
    {
      transferredBytes := 0;
      firstByteSeen := false;
      RecordFailedAddr();
      retry := retryCount < maxRetries;
      if retry {
        retryCount := retryCount + 1;
      }
    }
  }

  /** Failed nodes are remembered once each, at most 16, and none is forgotten. */
  lemma RecordedOnce(failed: seq<string>, addr: string)
    requires Distinct(failed) && |failed| <= 16
    ensures var r := Recorded(failed, addr);
            && Distinct(r) && failed <= r && |r| <= 16
            && (|failed| < 16 ==> addr in r) && forall a :: a in r ==> a in failed || a == addr
  {
  }

  // ---------------------------------------------------------------- all the attempts of a request

  function FailedAfter(tried: seq<string>): seq<string> {
    if tried == [] then [] else Recorded(FailedAfter(tried[..|tried| - 1]), tried[|tried| - 1])
  }

  /** Every attempt went to a node that was not excluded then. */
  ghost predicate Legal(tried: seq<string>) {
    forall k :: 0 <= k < |tried| ==> tried[k] !in FailedAfter(tried[..k])
  }

  /** How far the failed addresses are remembered. */
  function Remembered(tried: seq<string>): seq<string> {
    tried[..if |tried| <= FAILED_CAP then |tried| else FAILED_CAP]
  }

  lemma RememberedPush(front: seq<string>, addr: string)
    requires addr !in Remembered(front)
    ensures Recorded(Remembered(front), addr) == Remembered(front + [addr])
  {
  }

  lemma {:induction false} FailedAreRemembered(tried: seq<string>)
    requires Legal(tried)
    ensures FailedAfter(tried) == Remembered(tried)
  {
    hide Legal, Recorded, Remembered;
    if tried == [] {
      NothingRemembered();
    } else {
      var front, last := tried[..|tried| - 1], tried[|tried| - 1];
      LegalFront(tried);
      FailedAreRemembered(front);
      RememberedPush(front, last);
      assert tried == front + [last];
    }
  }

  lemma NothingRemembered()
    ensures Remembered([]) == []
  {
  }

  lemma LegalFront(tried: seq<string>)
    requires Legal(tried) && tried != []
    ensures Legal(tried[..|tried| - 1]) && tried[|tried| - 1] !in FailedAfter(tried[..|tried| - 1])
  {
    hide FailedAfter;
    var n := |tried| - 1;
    assert forall k :: 0 <= k < n ==> tried[..n][..k] == tried[..k];
  }

  lemma DistinctPush(s: seq<string>)
    requires s != [] && Distinct(s[..|s| - 1]) && s[|s| - 1] !in s[..|s| - 1]
    ensures Distinct(s)
  {
    var n := |s| - 1;
    assert forall k :: 0 <= k < n ==> s[k] == s[..n][k];
  }

  /** A request of at most 17 attempts never goes to the same node twice. */
  lemma {:induction false} FewAttemptsAreDistinct(tried: seq<string>)
    requires Legal(tried) && |tried| <= FAILED_CAP + 1
    ensures Distinct(tried)
  {
    if tried != [] {
      hide FailedAfter, Legal, Distinct;
      var n := |tried| - 1;
      LegalFront(tried);
      FewAttemptsAreDistinct(tried[..n]);
      FailedAreRemembered(tried[..n]);
      assert tried[..n][..n] == tried[..n];
      DistinctPush(tried);
    }
  }

  /** Sixteen nodes fail and are remembered; the next one fails and is not. */
  function Repeating(n: nat): (r: seq<string>)
    ensures |r| == n
  {
    seq(n, k requires k >= 0 => if k < FAILED_CAP then Decimal.Print(k) else "x")
  }

  lemma RepeatingFront(n: nat)
    requires n > 0
    ensures Repeating(n)[..n - 1] == Repeating(n - 1)
    ensures Repeating(n)[n - 1] !in Remembered(Repeating(n - 1))
  {
    NewIsNotRemembered(n - 1);
  }

  lemma {:induction false} RepeatingIsLegal(n: nat)
    ensures Legal(Repeating(n))
  {
    if n > 0 {
      hide Legal, FailedAfter, Repeating, Remembered;
      RepeatingIsLegal(n - 1);
      FailedAreRemembered(Repeating(n - 1));
      RepeatingFront(n);
      LegalPush(Repeating(n));
    }
  }

  lemma RepeatingRepeats(n: nat)
    requires n > FAILED_CAP + 1
    ensures !Distinct(Repeating(n))
  {
    assert Repeating(n)[FAILED_CAP] == Repeating(n)[FAILED_CAP + 1];
  }

  lemma NumeralIsNotX(k: nat)
    ensures Decimal.Print(k) != "x"
  {
    assert IsDigit(Decimal.Print(k)[0]);
  }

  lemma NewIsNotRemembered(n: nat)
    ensures Repeating(n + 1)[n] !in Remembered(Repeating(n))
  {
    var seen := Remembered(Repeating(n));
    forall k | 0 <= k < |seen|
      ensures seen[k] != Repeating(n + 1)[n]
    {
      assert seen[k] == Decimal.Print(k);
      NumeralIsNotX(k);
      assert Decimal.Value(Decimal.Print(k)) == k;
      if n < FAILED_CAP {
        assert Decimal.Value(Decimal.Print(n)) == n;
      }
    }
  }

  lemma LegalPush(tried: seq<string>)
    requires tried != [] && Legal(tried[..|tried| - 1])
    requires tried[|tried| - 1] !in FailedAfter(tried[..|tried| - 1])
    ensures Legal(tried)
  {
    hide FailedAfter;
    var n := |tried| - 1;
    forall k | 0 <= k < |tried|
      ensures tried[k] !in FailedAfter(tried[..k])
    {
      if k < n {
        assert tried[..n][..k] == tried[..k] && tried[..n][k] == tried[k];
      }
    }
  }

  /** With `maxRetries` retries no request can go to a node twice exactly if there are at most 16 of them. */
  lemma NoNodeTwiceIff(maxRetries: nat)
    ensures (forall tried: seq<string> :: Legal(tried) && |tried| <= maxRetries + 1 ==> Distinct(tried))
            <==> maxRetries <= 16
  {
    hide Legal, Distinct, Repeating;
    if maxRetries <= FAILED_CAP {
      forall tried: seq<string> | Legal(tried) && |tried| <= maxRetries + 1
        ensures Distinct(tried)
      {
        FewAttemptsAreDistinct(tried);
      }
    } else {
      RepeatingIsLegal(maxRetries + 1);
      RepeatingRepeats(maxRetries + 1);
    }
  }

  /** The retries a request is given stay within that margin: whatever fails, no node is tried twice. */
  lemma NoRequestRepeatsANode(tried: seq<string>)
    requires Legal(tried) && |tried| <= MAX_RETRIES + 1
    ensures Distinct(tried) && FailedAfter(tried) == tried
  {
    hide Legal, Distinct, FailedAfter;
    FewAttemptsAreDistinct(tried);
    FailedAreRemembered(tried);
  }
}
