/** The text between the quotes of a JSON string as section 7 of RFC 8259 defines it,
    read back by what that section says and not by how it is written. */
module JsonText {
  import opened Wrappers
  import opened Utf8
  import B = Base64
  import F = FrameSize

  function HexValue(c: Scalar): Option<int> {
    if 0x30 <= c <= 0x39 then Some(c - 0x30)
    else if 0x61 <= c <= 0x66 then Some(c - 0x61 + 10)
    else if 0x41 <= c <= 0x46 then Some(c - 0x41 + 10)
    else None
  }

  /** What the two-character escape with this letter stands for. */
  function Short(letter: Scalar): Option<Scalar> {
    if letter == 0x22 || letter == 0x5C || letter == 0x2F then Some(letter)
    else if letter == 0x62 then Some(0x08)
    else if letter == 0x66 then Some(0x0C)
    else if letter == 0x6E then Some(0x0A)
    else if letter == 0x72 then Some(0x0D)
    else if letter == 0x74 then Some(0x09)
    else None
  }

  /** Four hexadecimal digits that name a character by themselves; halves of a
      surrogate pair are not read. */
  function FourDigits(t: B.Text): Option<Scalar>
    requires |t| == 4
  {
    var a, b, c, d := HexValue(t[0]), HexValue(t[1]), HexValue(t[2]), HexValue(t[3]);
    if a.None? || b.None? || c.None? || d.None? then None
    else
      var value := ((a.value * 16 + b.value) * 16 + c.value) * 16 + d.value;
      if 0 <= value < 0xD800 || 0xE000 <= value < 0x1_0000 then Some(value) else None
  }

  /** The first character and how much of the text it takes. */
  function Next(t: B.Text): Option<(Scalar, nat)>
    requires t != []
  {
    if t[0] == 0x22 || t[0] < 0x20 then None
    else if t[0] != 0x5C then Some((t[0], 1))
    else if |t| >= 2 && t[1] != 0x75 then
      (match Short(t[1]) case Some(c) => Some((c, 2)) case None => None)
    else if |t| >= 6 then
      (match FourDigits(t[2..6]) case Some(c) => Some((c, 6)) case None => None)
    else None
  }

  function Read(t: B.Text): Option<B.Text>
    decreases |t|
  {
    if t == [] then Some([])
    else match Next(t)
      case None => None
      case Some((c, n)) =>
        if n == 0 || n > |t| then None
        else match Read(t[n..]) case Some(rest) => Some([c] + rest) case None => None
  }

  lemma NextOfEscape(c: Scalar, rest: B.Text)
    ensures F.EscapeOne(c) + rest != []
    ensures Next(F.EscapeOne(c) + rest) == Some((c, |F.EscapeOne(c)|))
  {
    var t := F.EscapeOne(c) + rest;
    if |F.EscapeOne(c)| == 6 {
      assert t[2..6] == F.EscapeOne(c)[2..6];
    }
  }

  /** Whatever the text, its escaped form reads back as it was. */
  lemma {:induction false} ReadOfEscape(t: B.Text)
    ensures Read(F.Escape(t)) == Some(t)
  {
    if t != [] {
      var head, rest := F.EscapeOne(t[0]), F.Escape(t[1..]);
      ReadOfEscape(t[1..]);
      NextOfEscape(t[0], rest);
      assert (head + rest)[|head|..] == rest;
      assert [t[0]] + t[1..] == t;
    }
  }

  /** So no two texts are written alike. */
  lemma EscapeIsInjective(a: B.Text, b: B.Text)
    requires F.JsonString(a) == F.JsonString(b)
    ensures a == b
  {
    assert F.JsonString(a)[1..|F.JsonString(a)| - 1] == F.Escape(a);
    assert F.JsonString(b)[1..|F.JsonString(b)| - 1] == F.Escape(b);
    ReadOfEscape(a);
    ReadOfEscape(b);
  }
}
