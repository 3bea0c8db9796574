/** Standard base64 (section 4 of RFC 4648) with the two decoders that read it:
    Go's `StdEncoding`, which refuses what is malformed, and Node's `Buffer`,
    which skips it. */
module Base64 {
  import opened Wrappers
  import opened Utf8

  type Text = seq<Scalar>
  type Six = x: int | 0 <= x < 64

  const PAD: Scalar := 61

  function Symbol(v: Six): (c: Scalar)
    ensures c != 10 && c != 13
    ensures Sextet(c) == Some(v) && c != PAD && c < 128
  {
    if v < 26 then 65 + v
    else if v < 52 then 71 + v
    else if v < 62 then v - 4
    else if v == 62 then 43 else 47
  }

  function Sextet(c: Scalar): Option<Six> {
    if 65 <= c <= 90 then Some(c - 65)
    else if 97 <= c <= 122 then Some(c - 71)
    else if 48 <= c <= 57 then Some(c as int + 4)
    else if c == 43 then Some(62)
    else if c == 47 then Some(63)
    else None
  }

  function Encode64(b: seq<Byte>): (t: Text)
    ensures forall i | 0 <= i < |t| :: t[i] != 10 && t[i] != 13
    ensures |t| == 4 * ((|b| + 2) / 3)
  {
    if |b| == 0 then []
    else if |b| == 1 then Padded1(b[0])
    else if |b| == 2 then Padded2(b[0], b[1])
    else Quad(b[0], b[1], b[2]) + Encode64(b[3..])
  }

  function Quad(x: Byte, y: Byte, z: Byte): Text {
    [Symbol(x / 4), Symbol(x % 4 * 16 + y / 16), Symbol(y % 16 * 4 + z / 64), Symbol(z % 64)]
  }

  function Padded2(x: Byte, y: Byte): Text {
    [Symbol(x / 4), Symbol(x % 4 * 16 + y / 16), Symbol(y % 16 * 4), PAD]
  }

  function Padded1(x: Byte): Text { [Symbol(x / 4), Symbol(x % 4 * 16), PAD, PAD] }

  function First(a: Six, b: Six): Byte { a as int * 4 + b / 16 }

  function Second(b: Six, c: Six): Byte { b as int % 16 * 16 + c / 4 }

  function Third(c: Six, d: Six): Byte { c as int % 4 * 64 + d }

  // ── Go ──

  /** The Go decoder passes over line breaks wherever they stand. */
  function SkipLineBreaks(t: Text): Text {
    if t == [] then []
    else if t[0] == 10 || t[0] == 13 then SkipLineBreaks(t[1..])
    else [t[0]] + SkipLineBreaks(t[1..])
  }

  function DecodeQuads(t: Text): Option<seq<Byte>> {
    if t == [] then Some([])
    else if |t| < 4 then None
    else match (Sextet(t[0]), Sextet(t[1]), Sextet(t[2]), Sextet(t[3]))
      case (Some(a), Some(b), Some(c), Some(d)) =>
        var rest := DecodeQuads(t[4..]);
        if rest.None? then None else Some([First(a, b), Second(b, c), Third(c, d)] + rest.value)
      case (Some(a), Some(b), Some(c), None) =>
        if t[3] == PAD && |t| == 4 then Some([First(a, b), Second(b, c)]) else None
      case (Some(a), Some(b), None, None) =>
        if t[2] == PAD && t[3] == PAD && |t| == 4 then Some([First(a, b)]) else None
      case _ => None
  }

  function DecodeGo(t: Text): Option<seq<Byte>> { DecodeQuads(SkipLineBreaks(t)) }

  // ── Node ──

  /** Node also reads the URL-safe alphabet and ignores every other character,
      padding included. */
  function LenientSextet(c: Scalar): seq<Six> {
    if c == 45 then [62] else if c == 95 then [63]
    else if Sextet(c).Some? then [Sextet(c).value] else []
  }

  function Sextets(t: Text): seq<Six> {
    if t == [] then [] else LenientSextet(t[0]) + Sextets(t[1..])
  }

  function JoinSextets(v: seq<Six>): seq<Byte> {
    if |v| < 2 then []
    else if |v| == 2 then [First(v[0], v[1])]
    else if |v| == 3 then [First(v[0], v[1]), Second(v[1], v[2])]
    else [First(v[0], v[1]), Second(v[1], v[2]), Third(v[2], v[3])] + JoinSextets(v[4..])
  }

  function DecodeNode(t: Text): seq<Byte> { JoinSextets(Sextets(t)) }

  // ── Both undo the encoder ──

  lemma RegroupPadded(x: Byte, y: Byte)
    ensures First(x / 4, x % 4 * 16) == x
    ensures First(x / 4, x % 4 * 16 + y / 16) == x
    ensures Second(x % 4 * 16 + y / 16, y % 16 * 4) == y
  {
  }

  /** The bit regrouping is undone for every three bytes. */
  lemma Regroup(x: Byte, y: Byte, z: Byte)
    ensures First(x / 4, x % 4 * 16 + y / 16) == x
    ensures Second(x % 4 * 16 + y / 16, y % 16 * 4 + z / 64) == y
    ensures Third(y % 16 * 4 + z / 64, z % 64) == z
  {
  }

  lemma {:induction false} NoLineBreaks(t: Text)
    requires forall i | 0 <= i < |t| :: t[i] != 10 && t[i] != 13
    ensures SkipLineBreaks(t) == t
  {
    if t != [] {
      NoLineBreaks(t[1..]);
      assert t == [t[0]] + t[1..];
    }
  }

  lemma DecodeQuadsStep(t: Text, a: Six, b: Six, c: Six, d: Six, rest: seq<Byte>)
    requires |t| >= 4 && Sextet(t[0]) == Some(a) && Sextet(t[1]) == Some(b)
    requires Sextet(t[2]) == Some(c) && Sextet(t[3]) == Some(d) && DecodeQuads(t[4..]) == Some(rest)
    ensures DecodeQuads(t) == Some([First(a, b), Second(b, c), Third(c, d)] + rest)
  {
  }

  lemma QuadFirst(x: Byte, y: Byte, z: Byte, t: Text)
    ensures var u := Quad(x, y, z) + t;
            && |u| >= 4 && u[4..] == t
            && Sextet(u[0]) == Some(x / 4) && Sextet(u[1]) == Some(x % 4 * 16 + y / 16)
            && Sextet(u[2]) == Some(y % 16 * 4 + z / 64) && Sextet(u[3]) == Some(z % 64)
  {
  }

  lemma DecodeQuadsCons(x: Byte, y: Byte, z: Byte, t: Text, b: seq<Byte>)
    requires DecodeQuads(t) == Some(b)
    ensures DecodeQuads(Quad(x, y, z) + t) == Some([x, y, z] + b)
  {
    Regroup(x, y, z);
    QuadFirst(x, y, z, t);
    DecodeQuadsStep(Quad(x, y, z) + t, x / 4, x % 4 * 16 + y / 16, y % 16 * 4 + z / 64, z % 64, b);
  }

  lemma Encode64Short(b: seq<Byte>)
    requires 0 < |b| < 3
    ensures |b| == 1 ==> b == [b[0]] && Encode64(b) == Padded1(b[0])
    ensures |b| == 2 ==> b == [b[0], b[1]] && Encode64(b) == Padded2(b[0], b[1])
  {
  }

  lemma DecodeQuadsPadded1(x: Byte)
    ensures DecodeQuads(Padded1(x)) == Some([x])
  {
    var t := Padded1(x);
    RegroupPadded(x, 0);
    assert Sextet(t[0]) == Some(x / 4) && Sextet(t[1]) == Some(x % 4 * 16) && Sextet(t[2]) == None;
  }

  lemma DecodeQuadsPadded2(x: Byte, y: Byte)
    ensures DecodeQuads(Padded2(x, y)) == Some([x, y])
  {
    var t := Padded2(x, y);
    RegroupPadded(x, y);
    assert Sextet(t[0]) == Some(x / 4) && Sextet(t[1]) == Some(x % 4 * 16 + y / 16);
    assert Sextet(t[2]) == Some(y % 16 * 4) && Sextet(t[3]) == None;
  }

  lemma DecodeQuadsOfShort(b: seq<Byte>)
    requires 0 < |b| < 3
    ensures DecodeQuads(Encode64(b)) == Some(b)
  {
    Encode64Short(b);
    if |b| == 1 {
      DecodeQuadsPadded1(b[0]);
    } else {
      DecodeQuadsPadded2(b[0], b[1]);
    }
  }

  lemma DecodeQuadsOfMore(b: seq<Byte>, rest: seq<Byte>)
    requires |b| > 2 && rest == b[3..] && DecodeQuads(Encode64(rest)) == Some(rest)
    ensures DecodeQuads(Encode64(b)) == Some(b)
  {
    DecodeQuadsCons(b[0], b[1], b[2], Encode64(rest), rest);
    assert [b[0], b[1], b[2]] + rest == b;
    assert Encode64(b) == Quad(b[0], b[1], b[2]) + Encode64(rest);
  }

  lemma {:induction false} DecodeQuadsOfEncode(b: seq<Byte>)
    ensures DecodeQuads(Encode64(b)) == Some(b)
  {
    if 0 < |b| < 3 {
      DecodeQuadsOfShort(b);
    } else if |b| > 2 {
      DecodeQuadsOfEncode(b[3..]);
      DecodeQuadsOfMore(b, b[3..]);
    }
  }

  lemma DecodeGoOfEncode(b: seq<Byte>)
    ensures DecodeGo(Encode64(b)) == Some(b)
  {
    NoLineBreaks(Encode64(b));
    DecodeQuadsOfEncode(b);
  }

  lemma SextetsCons(c: Scalar, rest: Text)
    ensures Sextets([c] + rest) == LenientSextet(c) + Sextets(rest)
  {
    assert ([c] + rest)[1..] == rest;
  }

  lemma SextetsMore(c: Scalar, t: Text, u: Text)
    requires Sextets(t + u) == Sextets(t) + Sextets(u)
    ensures Sextets([c] + t + u) == Sextets([c] + t) + Sextets(u)
  {
    SextetsCons(c, t);
    SextetsCons(c, t + u);
    Associates([c], t, u);
    Associates(LenientSextet(c), Sextets(t), Sextets(u));
  }

  lemma {:induction false} SextetsConcat(t: Text, u: Text)
    ensures Sextets(t + u) == Sextets(t) + Sextets(u)
  {
    if t == [] {
      assert t + u == u;
    } else {
      SextetsConcat(t[1..], u);
      SextetsMore(t[0], t[1..], u);
      assert [t[0]] + t[1..] == t;
    }
  }

  lemma SextetsOfFour(a: Scalar, b: Scalar, c: Scalar, d: Scalar)
    ensures Sextets([a, b, c, d]) == LenientSextet(a) + LenientSextet(b) + LenientSextet(c) + LenientSextet(d)
  {
    assert [a, b, c, d][1..] == [b, c, d] && [b, c, d][1..] == [c, d] && [c, d][1..] == [d] && [d][1..] == [];
    assert Sextets([d]) == LenientSextet(d) + Sextets([]);
    assert Sextets([c, d]) == LenientSextet(c) + Sextets([d]);
    assert Sextets([b, c, d]) == LenientSextet(b) + Sextets([c, d]);
  }

  lemma SextetsOfGroups(x: Byte, y: Byte, z: Byte)
    ensures Sextets(Quad(x, y, z)) == [x / 4, x % 4 * 16 + y / 16, y % 16 * 4 + z / 64, z % 64]
    ensures Sextets(Padded2(x, y)) == [x / 4, x % 4 * 16 + y / 16, y % 16 * 4]
    ensures Sextets(Padded1(x)) == [x / 4, x % 4 * 16]
  {
    var q := Quad(x, y, z);
    SextetsOfFour(q[0], q[1], q[2], q[3]);
    var p := Padded2(x, y);
    SextetsOfFour(p[0], p[1], p[2], p[3]);
    var r := Padded1(x);
    SextetsOfFour(r[0], r[1], r[2], r[3]);
  }

  lemma DecodeNodePadded(x: Byte, y: Byte)
    ensures DecodeNode(Padded1(x)) == [x]
    ensures DecodeNode(Padded2(x, y)) == [x, y]
  {
    SextetsOfGroups(x, y, 0);
    RegroupPadded(x, y);
    assert JoinSextets([x / 4, x % 4 * 16]) == [x];
    assert JoinSextets([x / 4, x % 4 * 16 + y / 16, y % 16 * 4]) == [x, y];
  }

  lemma DecodeNodeCons(x: Byte, y: Byte, z: Byte, t: Text)
    ensures DecodeNode(Quad(x, y, z) + t) == [x, y, z] + DecodeNode(t)
  {
    var q := Quad(x, y, z);
    SextetsConcat(q, t);
    SextetsOfGroups(x, y, z);
    Regroup(x, y, z);
    assert (Sextets(q) + Sextets(t))[4..] == Sextets(t);
  }

  lemma DecodeNodeOfShort(b: seq<Byte>)
    requires 0 < |b| < 3
    ensures DecodeNode(Encode64(b)) == b
  {
    Encode64Short(b);
    DecodeNodePadded(b[0], if |b| == 2 then b[1] else 0);
  }

  lemma DecodeNodeOfMore(b: seq<Byte>, rest: seq<Byte>)
    requires |b| > 2 && rest == b[3..] && DecodeNode(Encode64(rest)) == rest
    ensures DecodeNode(Encode64(b)) == b
  {
    DecodeNodeCons(b[0], b[1], b[2], Encode64(rest));
    assert [b[0], b[1], b[2]] + rest == b;
    assert Encode64(b) == Quad(b[0], b[1], b[2]) + Encode64(rest);
  }

  lemma {:induction false} DecodeNodeOfEncode(b: seq<Byte>)
    ensures DecodeNode(Encode64(b)) == b
  {
    if 0 < |b| < 3 {
      DecodeNodeOfShort(b);
    } else if |b| > 2 {
      DecodeNodeOfEncode(b[3..]);
      DecodeNodeOfMore(b, b[3..]);
    }
  }

  // ── Against the standard ──

  /** The symbols are those of table 1 of RFC 4648, in its order. */
  lemma SymbolsAreTheAlphabet(v: Six)
    ensures v < 26 ==> Symbol(v) == 'A' as int + v
    ensures 26 <= v < 52 ==> Symbol(v) == 'a' as int + v - 26
    ensures 52 <= v < 62 ==> Symbol(v) == '0' as int + v - 52
    ensures Symbol(62) == '+' as int && Symbol(63) == '/' as int && PAD == '=' as int
  {
  }

  function Value(c: Scalar): int { if Sextet(c).Some? then Sextet(c).value else 0 }

  /** Three bytes and their four symbols are the same 24 bits. */
  lemma SameBits(x: Byte, y: Byte, z: Byte)
    ensures var q := Quad(x, y, z);
            && |q| == 4 && Sextet(q[0]).Some? && Sextet(q[1]).Some? && Sextet(q[2]).Some? && Sextet(q[3]).Some?
            && ((Value(q[0]) * 64 + Value(q[1])) * 64 + Value(q[2])) * 64 + Value(q[3]) == (x * 256 + y) * 256 + z
  {
    var q := Quad(x, y, z);
    assert Value(q[0]) == x / 4 && Value(q[1]) == x % 4 * 16 + y / 16;
    assert Value(q[2]) == y % 16 * 4 + z / 64 && Value(q[3]) == z % 64;
  }

  /** When two bytes or one are left, the missing bits are zero and the missing
      symbols padding. */
  lemma PaddedBits(x: Byte, y: Byte)
    ensures Padded2(x, y) == Quad(x, y, 0)[..3] + [PAD] && Padded1(x) == Quad(x, 0, 0)[..2] + [PAD, PAD]
  {
  }

  lemma OneGroup(x: Byte, y: Byte, z: Byte)
    ensures Encode64([x, y, z]) == Quad(x, y, z)
  {
    assert [x, y, z][3..] == [];
  }

  lemma Foo()
    ensures Quad(0x66, 0x6F, 0x6F) == [90, 109, 57, 118]
  {
  }

  lemma Bar()
    ensures Quad(0x62, 0x61, 0x72) == [89, 109, 70, 121]
  {
  }

  /** An example of section 10 of RFC 4648: "foobar" is "Zm9vYmFy". */
  lemma EncodesFoobar(foobar: seq<Byte>)
    requires foobar == [0x66, 0x6F, 0x6F] + [0x62, 0x61, 0x72]
    ensures Encode64(foobar) == [90, 109, 57, 118] + [89, 109, 70, 121]
  {
    assert foobar[3..] == [0x62, 0x61, 0x72];
    OneGroup(0x62, 0x61, 0x72);
    Foo();
    Bar();
  }

  // ── What the strict decoder takes ──

  /** `pads` padding signs at the end, and symbols everywhere before. */
  predicate Padded(t: Text, pads: nat) {
    && pads <= |t| && (forall i | 0 <= i < |t| - pads :: Sextet(t[i]).Some?)
    && (forall i | |t| - pads <= i < |t| :: t[i] == PAD)
  }

  lemma PaddedTail(t: Text, pads: nat)
    requires |t| >= 8 && pads <= 2
    ensures Padded(t, pads) <==>
            Padded(t[4..], pads) && Sextet(t[0]).Some? && Sextet(t[1]).Some? && Sextet(t[2]).Some? && Sextet(t[3]).Some?
  {
    if Padded(t[4..], pads) {
      assert forall i | 4 <= i < |t| :: t[i] == t[4..][i - 4];
    }
  }

  /** Text is accepted exactly when it comes in groups of four symbols with at most
      two padding signs in place of the last, and gives three bytes a group less one
      for each sign. */
  lemma {:induction false} AcceptsExactly(t: Text, pads: nat)
    requires |t| % 4 == 0 && pads <= 2
    ensures Padded(t, pads) ==> DecodeQuads(t).Some? && |DecodeQuads(t).value| == |t| / 4 * 3 - pads
    ensures DecodeQuads(t).Some? ==> Padded(t, 0) || Padded(t, 1) || Padded(t, 2)
  {
    if |t| == 4 {
      assert t[4..] == [] && DecodeQuads([]) == Some([]);
    } else if |t| > 4 {
      AcceptsExactly(t[4..], pads);
      PaddedTail(t, pads);
      PaddedTail(t, 0);
      PaddedTail(t, 1);
      PaddedTail(t, 2);
    }
  }

  lemma {:induction false} GroupsOfFour(t: Text)
    ensures DecodeQuads(t).Some? ==> |t| % 4 == 0
  {
    if |t| >= 4 {
      GroupsOfFour(t[4..]);
    }
  }

  /** Line breaks are skipped wherever they stand. */
  lemma {:induction false} LineBreaksAreSkipped(a: Text, c: Scalar, b: Text)
    requires c == 10 || c == 13
    ensures DecodeGo(a + [c] + b) == DecodeGo(a + b)
    ensures SkipLineBreaks(a + [c] + b) == SkipLineBreaks(a + b)
  {
    if a == [] {
      assert (a + [c] + b)[1..] == b && a + b == b;
    } else {
      LineBreaksAreSkipped(a[1..], c, b);
      assert (a + [c] + b)[1..] == a[1..] + [c] + b && (a + b)[1..] == a[1..] + b;
    }
  }
}
