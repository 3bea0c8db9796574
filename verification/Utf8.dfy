/** UTF-8 as section 3 of RFC 3629 defines it, with the two decoders the
    programs use: the strict one (Go's `utf8.Valid`, a fatal `TextDecoder`) and
    the replacing one (a plain `TextDecoder`). */
module Utf8 {
  import opened Wrappers

  type Byte = x: int | 0 <= x < 0x100
  type Scalar = x: int | 0 <= x < 0xD800 || 0xE000 <= x < 0x11_0000

  const REPLACEMENT: Scalar := 0xFFFD
  const BYTE_ORDER_MARK: Scalar := 0xFEFF

  /** One code point as one to four bytes. */
  function EncodeOne(c: Scalar): (b: seq<Byte>)
    ensures 1 <= |b| <= 4
  {
    if c < 0x80 then [c]
    else if c < 0x800 then [0xC0 + c / 64, 0x80 + c % 64]
    else if c < 0x1_0000 then [0xE0 + c / 4096, 0x80 + c / 64 % 64, 0x80 + c % 64]
    else [0xF0 + c / 262144, 0x80 + c / 4096 % 64, 0x80 + c / 64 % 64, 0x80 + c % 64]
  }

  function Encode(s: seq<Scalar>): seq<Byte> {
    if s == [] then [] else EncodeOne(s[0]) + Encode(s[1..])
  }

  /** How many continuation bytes a lead byte announces; none for a lone byte. */
  function Trailing(lead: Byte): nat {
    if lead < 0xC2 then 0 else if lead < 0xE0 then 1 else if lead < 0xF0 then 2 else if lead < 0xF5 then 3 else 0
  }

  /** The range the second byte must fall in, which is what rules out overlong
      forms, surrogates and code points past U+10FFFF. */
  predicate SecondByte(lead: Byte, b: Byte) {
    && (if lead == 0xE0 then 0xA0 else if lead == 0xF0 then 0x90 else 0x80) <= b
    && b <= (if lead == 0xED then 0x9F else if lead == 0xF4 then 0x8F else 0xBF)
  }

  predicate Continuation(b: Byte) { 0x80 <= b <= 0xBF }

  /** The six payload bits of a continuation byte. */
  function Low6(b: Byte): int { b as int - 0x80 }

  datatype Step = Char(c: Scalar, width: nat) | Bad(width: nat)

  /** Reads one code point, or the ill-formed bytes a decoder replaces as a unit. */
  function Next(b: seq<Byte>): (r: Step)
    requires b != []
    ensures 1 <= r.width <= |b|
  {
    var need := Trailing(b[0]);
    if need == 0 then (if b[0] < 0x80 then Char(b[0], 1) else Bad(1))
    else if |b| < 2 || !SecondByte(b[0], b[1]) then Bad(1)
    else if need == 1 then Char((b[0] as int - 0xC0) * 64 + Low6(b[1]), 2)
    else if |b| < 3 || !Continuation(b[2]) then Bad(2)
    else if need == 2 then Char((b[0] as int - 0xE0) * 4096 + Low6(b[1]) * 64 + Low6(b[2]), 3)
    else if |b| < 4 || !Continuation(b[3]) then Bad(3)
    else Char((b[0] as int - 0xF0) * 262144 + Low6(b[1]) * 4096 + Low6(b[2]) * 64 + Low6(b[3]), 4)
  }

  predicate Valid(b: seq<Byte>) {
    b == [] || (Next(b).Char? && Valid(b[Next(b).width..]))
  }

  /** The strict decoder: nothing at all when any byte is out of place. */
  function Decode(b: seq<Byte>): (r: Option<seq<Scalar>>)
    ensures r.Some? <==> Valid(b)
  {
    if b == [] then Some([])
    else match Next(b)
      case Bad(_) => None
      case Char(c, n) =>
        var rest := Decode(b[n..]);
        if rest.Some? then Some([c] + rest.value) else None
  }

  /** The replacing decoder: each ill-formed unit becomes one U+FFFD. */
  function DecodeLossy(b: seq<Byte>): seq<Scalar> {
    if b == [] then []
    else [if Next(b).Char? then Next(b).c else REPLACEMENT] + DecodeLossy(b[Next(b).width..])
  }

  predicate StartsWithBom(b: seq<Byte>) { |b| >= 3 && b[..3] == [0xEF, 0xBB, 0xBF] }

  /** `TextDecoder` drops one leading byte order mark before it decodes. */
  function SkipBom(b: seq<Byte>): seq<Byte> {
    if StartsWithBom(b) then b[3..] else b
  }

  /** Text without one leading byte order mark. */
  function DropMark(t: seq<Scalar>): seq<Scalar> {
    if t != [] && t[0] == BYTE_ORDER_MARK then t[1..] else t
  }

  /** A code point is its base-64 digits put back together. */
  lemma Digits(c: nat)
    ensures c == c / 64 * 64 + c % 64
    ensures c / 64 == c / 4096 * 64 + c / 64 % 64
    ensures c / 4096 == c / 262144 * 64 + c / 4096 % 64
  {
    assert c / 64 / 64 == c / 4096;
    assert c / 4096 / 64 == c / 262144;
  }

  lemma NextOfEncodeOne(c: Scalar, rest: seq<Byte>)
    ensures Next(EncodeOne(c) + rest) == Char(c, |EncodeOne(c)|)
    ensures (EncodeOne(c) + rest)[|EncodeOne(c)|..] == rest
  {
    if |EncodeOne(c)| <= 2 {
      NextOfShort(c, rest);
    } else {
      NextOfLong(c, rest);
    }
  }

  lemma NextOfShort(c: Scalar, rest: seq<Byte>)
    requires |EncodeOne(c)| <= 2
    ensures Next(EncodeOne(c) + rest) == Char(c, |EncodeOne(c)|)
  {
    Digits(c);
    var b := EncodeOne(c);
    assert forall i | 0 <= i < |b| :: (b + rest)[i] == b[i];
  }

  lemma NextOfLong(c: Scalar, rest: seq<Byte>)
    requires |EncodeOne(c)| > 2
    ensures Next(EncodeOne(c) + rest) == Char(c, |EncodeOne(c)|)
  {
    Digits(c);
    var b := EncodeOne(c);
    assert forall i | 0 <= i < |b| :: (b + rest)[i] == b[i];
  }

  lemma Digits2(h: nat, z: int, c: int)
    requires 0 <= z < 64 && c == h * 64 + z
    ensures c / 64 == h && c % 64 == z
  {
  }

  lemma Digits3(h: nat, y: int, z: int, c: int)
    requires 0 <= y < 64 && 0 <= z < 64 && c == h * 4096 + y * 64 + z
    ensures c / 4096 == h && c / 64 % 64 == y && c % 64 == z
  {
    Digits2(h * 64 + y, z, c);
    Digits2(h, y, h * 64 + y);
    assert c / 64 / 64 == c / 4096;
  }

  lemma Digits4(h: nat, x: int, y: int, z: int, c: int)
    requires 0 <= x < 64 && 0 <= y < 64 && 0 <= z < 64 && c == h * 262144 + x * 4096 + y * 64 + z
    ensures c / 262144 == h && c / 4096 % 64 == x && c / 64 % 64 == y && c % 64 == z
  {
    Digits3(h * 64 + x, y, z, c);
    Digits2(h, x, h * 64 + x);
    assert c / 4096 / 64 == c / 262144;
  }

  lemma EncodeOneOfNext(b: seq<Byte>)
    requires b != [] && Next(b).Char?
    ensures EncodeOne(Next(b).c) == b[..Next(b).width]
  {
    var c := Next(b).c;
    match Trailing(b[0])
    case 0 =>
    case 1 => Digits2(b[0] - 0xC0, Low6(b[1]), c);
    case 2 => Digits3(b[0] - 0xE0, Low6(b[1]), Low6(b[2]), c);
    case _ => Digits4(b[0] - 0xF0, Low6(b[1]), Low6(b[2]), Low6(b[3]), c);
  }

  /** Cutting inside a code point leaves exactly one ill-formed unit. */
  lemma NextOfCutCharacter(c: Scalar, n: nat)
    requires 0 < n < |EncodeOne(c)|
    ensures Next(EncodeOne(c)[..n]) == Bad(n)
  {
  }

  lemma {:induction false} DecodeOfEncode(s: seq<Scalar>)
    ensures Decode(Encode(s)) == Some(s)
  {
    if s != [] {
      NextOfEncodeOne(s[0], Encode(s[1..]));
      DecodeOfEncode(s[1..]);
      assert s == [s[0]] + s[1..];
    }
  }

  lemma EncodeCons(c: Scalar, s: seq<Scalar>)
    ensures Encode([c] + s) == EncodeOne(c) + Encode(s)
  {
    assert ([c] + s)[1..] == s;
  }

  lemma {:induction false} EncodeOfDecode(b: seq<Byte>)
    requires Valid(b)
    ensures Encode(Decode(b).value) == b
  {
    if b != [] {
      var step := Next(b);
      var tail := b[step.width..];
      EncodeOfDecode(tail);
      EncodeOneOfNext(b);
      EncodeCons(step.c, Decode(tail).value);
      assert b == b[..step.width] + tail;
    }
  }

  lemma {:induction false} EncodeConcat(s: seq<Scalar>, t: seq<Scalar>)
    ensures Encode(s + t) == Encode(s) + Encode(t)
  {
    if s == [] {
      assert s + t == t;
    } else {
      EncodeConcat(s[1..], t);
      assert (s + t)[1..] == s[1..] + t;
      Associates(EncodeOne(s[0]), Encode(s[1..]), Encode(t));
    }
  }

  lemma StartOfConcat(b: seq<Byte>, rest: seq<Byte>)
    requires |b| == 3
    ensures (b + rest)[..3] == b
  {
  }

  lemma NextOfBom(b: seq<Byte>)
    requires StartsWithBom(b)
    ensures Next(b) == Char(BYTE_ORDER_MARK, 3)
  {
    assert b[0] == b[..3][0] && b[1] == b[..3][1] && b[2] == b[..3][2];
  }

  /** The three bytes a decoder drops are the encoding of U+FEFF and nothing else. */
  lemma BomIsFirstScalar(s: seq<Scalar>)
    ensures StartsWithBom(Encode(s)) <==> s != [] && s[0] == BYTE_ORDER_MARK
  {
    if s != [] {
      if StartsWithBom(Encode(s)) {
        NextOfBom(Encode(s));
        NextOfEncodeOne(s[0], Encode(s[1..]));
      }
      if s[0] == BYTE_ORDER_MARK {
        StartOfConcat(EncodeOne(s[0]), Encode(s[1..]));
      }
    }
  }

  lemma SkipBomOfEncode(t: seq<Scalar>)
    ensures SkipBom(Encode(t)) == Encode(DropMark(t))
  {
    BomIsFirstScalar(t);
  }

  /** The bits of a code point are those of its bytes, as the table of section 3 of
      RFC 3629 lays them out, in the one length whose range it falls in. */
  lemma LengthIsTheTable(c: Scalar)
    ensures c <= 0x7F <==> |EncodeOne(c)| == 1
    ensures 0x80 <= c <= 0x7FF <==> |EncodeOne(c)| == 2
    ensures 0x800 <= c <= 0xFFFF <==> |EncodeOne(c)| == 3
    ensures 0x1_0000 <= c <==> |EncodeOne(c)| == 4
  {
  }

  lemma ShortBits(c: Scalar)
    requires c <= 0x7FF
    ensures var b := EncodeOne(c);
            && (|b| == 1 ==> b[0] == c)
            && (|b| == 2 ==> 0xC0 <= b[0] < 0xE0 && 0x80 <= b[1] < 0xC0 && b[0] as int * 64 + b[1] == 0x3080 + c)
  {
  }

  lemma ThreeByteBits(c: Scalar)
    requires 0x800 <= c <= 0xFFFF
    ensures var b := EncodeOne(c);
            && |b| == 3 && 0xE0 <= b[0] < 0xF0 && 0x80 <= b[1] < 0xC0 && 0x80 <= b[2] < 0xC0
            && (b[0] as int * 64 + b[1]) * 64 + b[2] == 0xE_2080 + c
  {
  }

  lemma FourByteBits(c: Scalar)
    requires 0x1_0000 <= c
    ensures var b := EncodeOne(c);
            && |b| == 4 && 0xF0 <= b[0] < 0xF8
            && 0x80 <= b[1] < 0xC0 && 0x80 <= b[2] < 0xC0 && 0x80 <= b[3] < 0xC0
            && ((b[0] as int * 64 + b[1]) * 64 + b[2]) * 64 + b[3] == 0x3C8_2080 + c
  {
    Digits(c);
  }

  /** The first example of section 7 of RFC 3629. */
  lemma EncodesTheExample()
    ensures Encode([0x41 as Scalar, 0x2262, 0x391, 0x2E]) == [0x41, 0xE2, 0x89, 0xA2, 0xCE, 0x91, 0x2E]
  {
    var s := [0x41 as Scalar, 0x2262, 0x391, 0x2E];
    assert s[1..] == [0x2262 as Scalar, 0x391, 0x2E] && s[1..][1..] == [0x391 as Scalar, 0x2E];
    assert s[1..][1..][1..] == [0x2E as Scalar] && [0x2E as Scalar][1..] == [];
  }
}
