/** What `closeSocket` hands to `WebSocket.close()`: a code the runtime accepts
    and a reason within the 123 bytes that section 5.5 of RFC 6455 leaves. */
module CloseReason {
  import opened Utf8

  const NORMAL := 1000
  const LIMIT: nat := 123

  /** The codes an application may send (section 7.4.2 of RFC 6455). */
  predicate Sendable(code: int) { code == NORMAL || 3000 <= code <= 4999 }

  function SafeCode(code: int): int { if Sendable(code) then code else NORMAL }

  function DropTrailingReplacement(s: seq<Scalar>): seq<Scalar> {
    if s != [] && s[|s| - 1] == REPLACEMENT then s[..|s| - 1] else s
  }

  function SafeReason(reason: seq<Scalar>): seq<Scalar> {
    var bytes := Encode(reason);
    if |bytes| <= LIMIT then reason
    else DropTrailingReplacement(DecodeLossy(SkipBom(bytes[..LIMIT])))
  }

  /** How many leading code points fit in `budget` bytes. */
  function Fitting(s: seq<Scalar>, budget: nat): (k: nat)
    ensures k <= |s|
  {
    if s == [] || |EncodeOne(s[0])| > budget then 0
    else 1 + Fitting(s[1..], budget - |EncodeOne(s[0])|)
  }

  /** `Fitting` is the longest prefix that fits, and every shorter one fits too. */
  lemma {:induction false} FittingIsLongest(s: seq<Scalar>, budget: nat, k: nat)
    requires k <= |s|
    ensures k <= Fitting(s, budget) <==> |Encode(s[..k])| <= budget
  {
    if k > 0 {
      EncodeCons(s[0], s[1..k]);
      assert s[..k] == [s[0]] + s[1..k] && s[1..][..k - 1] == s[1..k];
      if |EncodeOne(s[0])| <= budget {
        FittingIsLongest(s[1..], budget - |EncodeOne(s[0])|, k - 1);
      }
    }
  }

  /** Does a cut after `n` bytes fall between two code points? */
  predicate CutsCleanly(s: seq<Scalar>, n: nat) {
    |Encode(s[..Fitting(s, n)])| == n
  }

  lemma DecodeLossyCons(c: Scalar, rest: seq<Byte>)
    ensures DecodeLossy(EncodeOne(c) + rest) == [c] + DecodeLossy(rest)
  {
    NextOfEncodeOne(c, rest);
  }

  lemma DecodeLossyOfCutCharacter(c: Scalar, n: nat)
    requires 0 < n < |EncodeOne(c)|
    ensures DecodeLossy(EncodeOne(c)[..n]) == [REPLACEMENT]
  {
    NextOfCutCharacter(c, n);
    assert EncodeOne(c)[..n][n..] == [];
  }

  lemma FittingCons(s: seq<Scalar>, n: nat)
    requires s != [] && |EncodeOne(s[0])| <= n
    ensures s[..Fitting(s, n)] == [s[0]] + s[1..][..Fitting(s[1..], n - |EncodeOne(s[0])|)]
    ensures CutsCleanly(s, n) <==> CutsCleanly(s[1..], n - |EncodeOne(s[0])|)
  {
    EncodeCons(s[0], s[1..][..Fitting(s[1..], n - |EncodeOne(s[0])|)]);
  }

  /** Decoding the first `n` bytes gives the code points that fit, and one
      replacement character when the cut went through the next one. */
  lemma {:induction false} DecodeOfCut(s: seq<Scalar>, n: nat)
    requires n <= |Encode(s)|
    ensures DecodeLossy(Encode(s)[..n]) ==
            s[..Fitting(s, n)] + (if CutsCleanly(s, n) then [] else [REPLACEMENT])
  {
    if n > 0 {
      var head, tail := EncodeOne(s[0]), Encode(s[1..]);
      if |head| <= n {
        var m := n - |head|;
        DecodeOfCut(s[1..], m);
        DecodeLossyCons(s[0], tail[..m]);
        assert Encode(s)[..n] == head + tail[..m];
        FittingCons(s, n);
      } else {
        DecodeLossyOfCutCharacter(s[0], n);
        assert Encode(s)[..n] == head[..n];
      }
    }
  }

  /** The prefix of a reason that closing with it would ideally send. */
  function LongestPrefix(reason: seq<Scalar>): seq<Scalar> {
    reason[..Fitting(reason, LIMIT)]
  }

  /** The decoder that trims a long reason also drops a leading U+FEFF, so the
      cut is really made in what follows it. */
  lemma SafeReasonOfLong(reason: seq<Scalar>)
    requires |Encode(reason)| > LIMIT
    ensures var bom := reason[0] == BYTE_ORDER_MARK;
            var s, n := if bom then reason[1..] else reason, if bom then LIMIT - 3 else LIMIT;
            && n <= |Encode(s)|
            && SafeReason(reason) == DropTrailingReplacement(
                                       s[..Fitting(s, n)] + (if CutsCleanly(s, n) then [] else [REPLACEMENT]))
            && LongestPrefix(reason) == (if bom then [BYTE_ORDER_MARK] else []) + s[..Fitting(s, n)]
            && (CutsCleanly(reason, LIMIT) <==> CutsCleanly(s, n))
  {
    var bytes := Encode(reason);
    var cut := bytes[..LIMIT];
    BomIsFirstScalar(reason);
    assert cut[..3] == bytes[..3];
    if reason[0] == BYTE_ORDER_MARK {
      var s := reason[1..];
      var k := Fitting(s, LIMIT - 3);
      assert cut[3..] == Encode(s)[..LIMIT - 3];
      DecodeOfCut(s, LIMIT - 3);
      EncodeCons(reason[0], s[..k]);
      assert reason[..k + 1] == [reason[0]] + s[..k];
    } else {
      DecodeOfCut(reason, LIMIT);
    }
  }

  /** Removing the trailing mark leaves a prefix of what fitted. */
  lemma DroppedFits(s: seq<Scalar>, n: nat, tail: seq<Scalar>)
    requires tail == [] || tail == [REPLACEMENT]
    ensures |Encode(DropTrailingReplacement(s[..Fitting(s, n)] + tail))| <= n
  {
    var p := s[..Fitting(s, n)];
    var d := DropTrailingReplacement(p + tail);
    assert d == s[..|d|];
    FittingIsLongest(s, n, |d|);
  }

  /** Every close, whatever the peer asked for, is one the runtime accepts. */
  lemma CloseIsAccepted(code: int, reason: seq<Scalar>)
    ensures Sendable(SafeCode(code))
    ensures SafeCode(code) == code <==> code == 1000 || 3000 <= code <= 4999
    ensures SafeCode(code) != code ==> SafeCode(code) == 1000
    ensures |Encode(SafeReason(reason))| <= 123
    ensures |Encode(reason)| <= 123 ==> SafeReason(reason) == reason
  {
    if |Encode(reason)| > LIMIT {
      SafeReasonOfLong(reason);
      var bom := reason[0] == BYTE_ORDER_MARK;
      var s, n := if bom then reason[1..] else reason, if bom then LIMIT - 3 else LIMIT;
      DroppedFits(s, n, if CutsCleanly(s, n) then [] else [REPLACEMENT]);
    }
  }

  /** A long reason becomes its longest fitting prefix exactly when it does not
      begin with U+FEFF and no U+FFFD of its own is the last code point before
      a cut that falls between two code points. */
  lemma TrimsToLongestPrefix(reason: seq<Scalar>)
    requires |Encode(reason)| > 123
    ensures SafeReason(reason) == LongestPrefix(reason) <==>
            && reason[0] != BYTE_ORDER_MARK
            && !(CutsCleanly(reason, LIMIT) && reason[Fitting(reason, LIMIT) - 1] == REPLACEMENT)
  {
    SafeReasonOfLong(reason);
    FittingIsLongest(reason, LIMIT, 1);
    var p := LongestPrefix(reason);
    if reason[0] != BYTE_ORDER_MARK {
      assert (p + [REPLACEMENT])[..|p|] == p;
    }
  }

  lemma {:induction false} Copies(n: nat)
    ensures |Encode(seq(n, _ => REPLACEMENT))| == 3 * n
  {
    if n > 0 {
      Copies(n - 1);
      assert seq(n, _ => REPLACEMENT)[1..] == seq(n - 1, _ => REPLACEMENT);
    }
  }

  lemma FortyOneFit(reason: seq<Scalar>)
    requires reason == seq(42, _ => REPLACEMENT)
    ensures |Encode(reason)| > LIMIT && Fitting(reason, LIMIT) == 41 && CutsCleanly(reason, LIMIT)
  {
    Copies(42);
    Copies(41);
    assert reason[..41] == seq(41, _ => REPLACEMENT) && reason[..42] == reason;
    FittingIsLongest(reason, LIMIT, 41);
    FittingIsLongest(reason, LIMIT, 42);
  }

  /** Forty-two marks of one's own: forty-one fit, and only forty are sent. */
  lemma OwnMarkIsLost(reason: seq<Scalar>)
    requires reason == seq(42, _ => REPLACEMENT)
    ensures |Encode(reason)| > LIMIT && SafeReason(reason) != LongestPrefix(reason)
  {
    FortyOneFit(reason);
    TrimsToLongestPrefix(reason);
  }
}
