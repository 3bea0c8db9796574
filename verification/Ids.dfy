/** Correlation ids: one uint64 counter per connection, printed in decimal for
    requests and with a `w` in front for bridged sockets. */
module Ids {
  type Id = string

  const COUNTER_LIMIT: nat := 0x1_0000_0000_0000_0000

  function Digit(d: int): (c: char)
    requires 0 <= d < 10
    ensures '0' <= c <= '9'
  {
    '0' + (d as char)
  }

  function Decimal(n: nat): (s: string)
    ensures s != [] && forall i | 0 <= i < |s| :: '0' <= s[i] <= '9'
  {
    if n < 10 then [Digit(n)] else Decimal(n / 10) + [Digit(n % 10)]
  }

  /** The number a string of decimal digits denotes. */
  function Number(s: string): int {
    if s == [] then 0 else Number(s[..|s| - 1]) * 10 + (s[|s| - 1] as int - '0' as int)
  }

  lemma {:induction false} NumberOfDecimal(n: nat)
    ensures Number(Decimal(n)) == n
  {
    if n >= 10 {
      NumberOfDecimal(n / 10);
      assert Decimal(n)[..|Decimal(n)| - 1] == Decimal(n / 10);
    } else {
      assert Number([Digit(n)][..0]) == 0;
    }
  }

  lemma {:induction false} DecimalLength(n: nat, digits: nat, power: nat)
    requires power == Power10(digits) && 0 < digits && n < power
    ensures |Decimal(n)| <= digits
  {
    if n >= 10 {
      DecimalLength(n / 10, digits - 1, power / 10);
    }
  }

  function Power10(k: nat): nat { if k == 0 then 1 else 10 * Power10(k - 1) }

  /** `Do` and `OpenWS` first step the counter, which wraps at 2^64. */
  function NextCounter(n: nat): nat { (n + 1) % COUNTER_LIMIT }

  function RequestId(n: nat): Id { Decimal(n) }

  function BridgeId(n: nat): Id { "w" + Decimal(n) }

  /** The counter after `k` mints on a fresh connection. */
  function CounterAfter(k: nat): nat { if k == 0 then 0 else NextCounter(CounterAfter(k - 1)) }

  lemma {:induction false} CounterAfterIsRemainder(k: nat)
    ensures CounterAfter(k) == k % COUNTER_LIMIT
  {
    if k > 0 {
      CounterAfterIsRemainder(k - 1);
    }
  }

  /** The `i`-th and `j`-th ids of one connection, of either kind, are the same
      string exactly when they are of one kind and a multiple of 2^64 apart. */
  lemma MintedIdsCollide(i: nat, iBridge: bool, j: nat, jBridge: bool)
    ensures var a := if iBridge then BridgeId(CounterAfter(i)) else RequestId(CounterAfter(i));
            var b := if jBridge then BridgeId(CounterAfter(j)) else RequestId(CounterAfter(j));
            a == b <==> iBridge == jBridge && i % 0x1_0000_0000_0000_0000 == j % 0x1_0000_0000_0000_0000
  {
    var m, n := CounterAfter(i), CounterAfter(j);
    CounterAfterIsRemainder(i);
    CounterAfterIsRemainder(j);
    NumberOfDecimal(m);
    NumberOfDecimal(n);
    assert BridgeId(m)[1..] == Decimal(m) && BridgeId(n)[1..] == Decimal(n);
    assert BridgeId(m)[0] == 'w' == BridgeId(n)[0];
  }

  lemma DistinctRemainders(i: nat, j: nat)
    requires 0 < i < j <= COUNTER_LIMIT
    ensures i % COUNTER_LIMIT != j % COUNTER_LIMIT
  {
    assert j < COUNTER_LIMIT ==> j % COUNTER_LIMIT == j;
  }

  /** No two of the first 2^64 ids of a connection are equal. */
  lemma MintedIdsAreFresh(i: nat, iBridge: bool, j: nat, jBridge: bool)
    requires 0 < i < j <= COUNTER_LIMIT
    ensures (if iBridge then BridgeId(CounterAfter(i)) else RequestId(CounterAfter(i))) !=
            (if jBridge then BridgeId(CounterAfter(j)) else RequestId(CounterAfter(j)))
  {
    DistinctRemainders(i, j);
    MintedIdsCollide(i, iBridge, j, jBridge);
  }

  /** The ids a fresh connection gives out look like this. */
  lemma FirstIds()
    ensures RequestId(CounterAfter(1)) == "1" && BridgeId(CounterAfter(2)) == "w2" && RequestId(42) == "42"
    ensures CounterAfter(0) == 0
  {
    assert CounterAfter(1) == 1 && CounterAfter(2) == 2;
    assert Decimal(4) == "4" && Decimal(42) == Decimal(4) + "2";
  }
}
