/** The bytes a `data` frame takes on the wire, against the read limit of the
    other end. */
module FrameSize {
  import opened Wrappers
  import opened Utf8
  import opened Base64
  import opened Payload
  import opened Ids

  const MAX_CHUNK_BYTES: nat := 256 * 1024

  function Chars(s: string): Text { seq(|s|, i requires 0 <= i < |s| => s[i] as int) }

  function HexDigit(d: int): Scalar
    requires 0 <= d < 16
  {
    if d < 10 then 48 + d else 87 + d
  }

  /** One character inside a JSON string (section 7 of RFC 8259), as
      `JSON.stringify` writes it. */
  function EscapeOne(c: Scalar): Text {
    if c == 0x22 || c == 0x5C then [0x5C, c]
    else if c == 0x08 then [0x5C, 0x62]
    else if c == 0x09 then [0x5C, 0x74]
    else if c == 0x0A then [0x5C, 0x6E]
    else if c == 0x0C then [0x5C, 0x66]
    else if c == 0x0D then [0x5C, 0x72]
    else if c < 0x20 then [0x5C, 0x75, 0x30, 0x30, HexDigit(c / 16), HexDigit(c % 16)]
    else [c]
  }

  function Escape(t: Text): Text {
    if t == [] then [] else EscapeOne(t[0]) + Escape(t[1..])
  }

  function JsonString(t: Text): Text { [0x22] + Escape(t) + [0x22] }

  function EncodingName(e: Encoding): string {
    match e
    case U => "u"
    case B => "b"
    case Other(name) => name
  }

  const OPENING := "{\"t\":\"data\",\"id\":"
  const SEQ := ",\"seq\":"
  const BODY := ",\"body\":{\"enc\":"
  const DATA := ",\"d\":"

  /** One `data` frame as text, up to the payload's text. */
  function DataFrameHead(id: Id, seqNo: nat, enc: Encoding): Text {
    Chars(OPENING) + JsonString(Chars(id)) + Chars(SEQ) + Chars(Decimal(seqNo)) +
    Chars(BODY) + JsonString(Chars(EncodingName(enc))) + Chars(DATA)
  }

  function DataFrame(id: Id, seqNo: nat, body: Payload): Text {
    DataFrameHead(id, seqNo, body.enc) + JsonString(body.d) + Chars("}}")
  }

  predicate Ascii(t: Text) { forall i | 0 <= i < |t| :: t[i] < 128 }

  lemma {:induction false} EncodeAscii(t: Text)
    requires Ascii(t)
    ensures |Encode(t)| == |t|
  {
    if t != [] {
      EncodeAscii(t[1..]);
    }
  }

  /** Characters a JSON string holds as they are. */
  predicate Plain(t: Text) { forall i | 0 <= i < |t| :: 0x20 <= t[i] < 128 && t[i] != 0x22 && t[i] != 0x5C }

  lemma {:induction false} EscapePlain(t: Text)
    requires Plain(t)
    ensures Escape(t) == t
  {
    if t != [] {
      EscapePlain(t[1..]);
      assert t == [t[0]] + t[1..];
    }
  }

  lemma {:induction false} EscapeBound(t: Text)
    ensures |Encode(Escape(t))| <= 6 * |Encode(t)|
  {
    if t != [] {
      EscapeBound(t[1..]);
      EncodeConcat(EscapeOne(t[0]), Escape(t[1..]));
      if EscapeOne(t[0]) != [t[0]] {
        EncodeAscii(EscapeOne(t[0]));
      } else {
        assert Encode([t[0]]) == EncodeOne(t[0]) + Encode([]);
      }
    }
  }

  lemma JsonStringSize(t: Text)
    ensures |Encode(JsonString(t))| == |Encode(Escape(t))| + 2
    ensures Plain(t) ==> |Encode(JsonString(t))| == |t| + 2
  {
    EncodeConcat([0x22], Escape(t));
    EncodeConcat([0x22] + Escape(t), [0x22]);
    EncodeAscii([0x22]);
    if Plain(t) {
      EscapePlain(t);
      EncodeAscii(t);
    }
  }

  lemma {:induction false} Encode64Plain(b: seq<Byte>)
    ensures Plain(Encode64(b))
  {
    if |b| > 2 {
      Encode64Plain(b[3..]);
    }
  }

  /** The wire form of what the node puts in a payload's `d`. */
  lemma PayloadSize(chunk: seq<Byte>, textual: bool)
    ensures |Encode(JsonString(EncodePayload(chunk, textual).d))| <= 6 * |chunk| + 2
  {
    var d := EncodePayload(chunk, textual).d;
    JsonStringSize(d);
    if EncodePayload(chunk, textual).enc == U {
      EncodeOfDecode(SkipBom(chunk));
      EscapeBound(d);
    } else {
      Encode64Plain(chunk);
    }
  }

  lemma Literals()
    ensures Ascii(Chars(OPENING)) && |OPENING| == 17 && Ascii(Chars(SEQ)) && |SEQ| == 7
    ensures Ascii(Chars(BODY)) && |BODY| == 15 && Ascii(Chars(DATA)) && |DATA| == 5
  {
  }

  lemma PlainStringAscii(t: Text)
    requires Plain(t)
    ensures Ascii(JsonString(t)) && |JsonString(t)| == |t| + 2
  {
    EscapePlain(t);
  }

  /** Ids are digits, so nothing before the payload needs escaping. */
  lemma HeadSize(k: nat, seqNo: nat, enc: Encoding)
    requires !enc.Other?
    ensures Ascii(DataFrameHead(RequestId(k), seqNo, enc))
    ensures |DataFrameHead(RequestId(k), seqNo, enc)| == 49 + |RequestId(k)| + |Decimal(seqNo)|
  {
    Literals();
    PlainStringAscii(Chars(RequestId(k)));
    PlainStringAscii(Chars(EncodingName(enc)));
  }

  lemma {:induction false} DecimalAtLeast(n: nat, digits: nat)
    requires 0 < digits && Power10(digits - 1) <= n
    ensures |Decimal(n)| >= digits
  {
    if digits > 1 {
      assert Power10(digits - 1) == 10 * Power10(digits - 2);
      DecimalAtLeast(n / 10, digits - 1);
    }
  }

  lemma Powers()
    ensures Power10(15) == 1_000_000_000_000_000 && Power10(16) == 10 * Power10(15)
    ensures Power10(19) == 1000 * Power10(16) && Power10(20) == 10 * Power10(19)
  {
    assert Power10(5) == 10_0000 && Power10(10) == 10_0000 * Power10(5) && Power10(15) == 10_0000 * Power10(10);
  }

  lemma TwentyDigits(n: nat)
    requires n < COUNTER_LIMIT
    ensures |Decimal(n)| <= 20
    ensures n == COUNTER_LIMIT - 1 ==> |Decimal(n)| == 20
  {
    Powers();
    DecimalLength(n, 20, Power10(20));
    if n == COUNTER_LIMIT - 1 {
      DecimalAtLeast(n, 20);
    }
  }

  /** The sequence numbers a JavaScript counter holds exactly. */
  const SEQ_LIMIT: nat := 0x20_0000_0000_0000

  lemma SixteenDigits(n: nat)
    requires n < SEQ_LIMIT
    ensures |Decimal(n)| <= 16
    ensures n == SEQ_LIMIT - 1 ==> |Decimal(n)| == 16
  {
    Powers();
    DecimalLength(n, 16, Power10(16));
    if n == SEQ_LIMIT - 1 {
      DecimalAtLeast(n, 16);
    }
  }

  /** The limit a stream cuts its body to: the smaller of the offered and the
      configured one after `welcome`, and the configured one before. */
  function LimitInForce(welcome: Option<nat>, configured: nat): nat {
    if welcome.Some? && welcome.value <= configured then welcome.value else configured
  }

  /** An offered limit never raises the configured one, and a smaller one wins. */
  lemma SmallerLimitWins(offered: nat, configured: nat)
    ensures LimitInForce(None, configured) == configured
    ensures var l := LimitInForce(Some(offered), configured);
            l <= offered && l <= configured && (l == offered || l == configured)
  {
  }

  /** No frame carrying at most `limit` bytes takes more than this. */
  function LargestFrame(limit: nat): nat { 6 * limit + 89 }

  function FrameBytes(k: nat, seqNo: nat, chunk: seq<Byte>, textual: bool): nat {
    |Encode(DataFrame(RequestId(k), seqNo, EncodePayload(chunk, textual)))|
  }

  lemma FrameBytesAre(k: nat, seqNo: nat, chunk: seq<Byte>, textual: bool)
    ensures FrameBytes(k, seqNo, chunk, textual) ==
            51 + |RequestId(k)| + |Decimal(seqNo)| + |Encode(JsonString(EncodePayload(chunk, textual).d))|
  {
    var body := EncodePayload(chunk, textual);
    var head, tail := DataFrameHead(RequestId(k), seqNo, body.enc), Chars("}}");
    EncodePayloadCarries(chunk, textual);
    HeadSize(k, seqNo, body.enc);
    EncodeAscii(head);
    EncodeAscii(tail);
    EncodeConcat(head, JsonString(body.d));
    EncodeConcat(head + JsonString(body.d), tail);
  }

  lemma DataFrameSize(k: nat, seqNo: nat, chunk: seq<Byte>, textual: bool)
    requires k < COUNTER_LIMIT && seqNo < SEQ_LIMIT
    ensures FrameBytes(k, seqNo, chunk, textual) <= LargestFrame(|chunk|)
  {
    FrameBytesAre(k, seqNo, chunk, textual);
    TwentyDigits(k);
    SixteenDigits(seqNo);
    PayloadSize(chunk, textual);
  }

  // ── Which limits keep every frame within what the control plane reads ──

  predicate IsRead(k: nat, seqNo: nat, chunk: seq<Byte>, textual: bool) {
    FrameBytes(k, seqNo, chunk, textual) <= 2 * 1024 * 1024
  }

  /** For any id of a connection, any sequence number and any chunk. */
  ghost predicate EveryFrameIsRead(limit: nat) {
    forall k: nat, seqNo: nat, chunk: seq<Byte>, textual |
      k < COUNTER_LIMIT && seqNo < SEQ_LIMIT && |chunk| <= limit :: IsRead(k, seqNo, chunk, textual)
  }

  function Zeros(n: nat): seq<Byte> { seq(n, _ => 0 as Byte) }

  function ZeroText(n: nat): Text { if n == 0 then [] else [0] + ZeroText(n - 1) }

  lemma {:induction false} ZerosAreText(n: nat)
    ensures Encode(ZeroText(n)) == Zeros(n)
    ensures |Encode(Escape(ZeroText(n)))| == 6 * n
  {
    if n > 0 {
      ZerosAreText(n - 1);
      assert ZeroText(n)[1..] == ZeroText(n - 1);
      assert Zeros(n) == [0] + Zeros(n - 1);
      EncodeAscii(EscapeOne(0));
      EncodeConcat(EscapeOne(0), Escape(ZeroText(n - 1)));
    }
  }

  lemma TextRidesAsText(t: Text)
    requires !StartsWithBom(Encode(t))
    ensures EncodePayload(Encode(t), true) == Payload(U, t)
  {
    DecodeOfEncode(t);
  }

  lemma NoMark(b: seq<Byte>)
    requires b != [] ==> b[0] == 0
    ensures !StartsWithBom(b)
  {
    assert |b| >= 3 ==> b[..3][0] == 0;
  }

  /** A chunk of NUL characters costs six times its length as text. */
  lemma ZerosAsText(n: nat)
    ensures |Encode(JsonString(EncodePayload(Zeros(n), true).d))| == 6 * n + 2
  {
    ZerosAreText(n);
    NoMark(Zeros(n));
    TextRidesAsText(ZeroText(n));
    JsonStringSize(ZeroText(n));
  }

  /** The bound is reached: nothing smaller covers every frame. */
  lemma LargestFrameIsReached(limit: nat)
    ensures FrameBytes(COUNTER_LIMIT - 1, SEQ_LIMIT - 1, Zeros(limit), true) == LargestFrame(limit)
  {
    FrameBytesAre(COUNTER_LIMIT - 1, SEQ_LIMIT - 1, Zeros(limit), true);
    TwentyDigits(COUNTER_LIMIT - 1);
    SixteenDigits(SEQ_LIMIT - 1);
    ZerosAsText(limit);
  }

  /** Every `data` frame a stream sends is one the control plane reads exactly when
      the limit in force is at most 349510 bytes. */
  lemma FramesAreReadExactly(welcome: Option<nat>, configured: nat)
    ensures EveryFrameIsRead(LimitInForce(welcome, configured)) <==> LimitInForce(welcome, configured) <= 349510
  {
    var limit := LimitInForce(welcome, configured);
    if limit <= 349510 {
      forall k: nat, seqNo: nat, chunk: seq<Byte>, textual | k < COUNTER_LIMIT && seqNo < SEQ_LIMIT && |chunk| <= limit
        ensures IsRead(k, seqNo, chunk, textual)
      {
        DataFrameSize(k, seqNo, chunk, textual);
      }
    } else {
      LargestFrameIsReached(limit);
      assert !IsRead(COUNTER_LIMIT - 1, SEQ_LIMIT - 1, Zeros(limit), true);
    }
  }

  /** After the `welcome` the control plane sends, that is always so. */
  lemma DataFrameFitsReadLimit(configured: nat)
    ensures EveryFrameIsRead(LimitInForce(Some(262144), configured))
  {
    FramesAreReadExactly(Some(MAX_CHUNK_BYTES), configured);
  }

  /** Before it, a node configured with chunks of 2 MiB answers its first request
      with a frame that is not read. */
  lemma UnwelcomedFrameIsNotRead()
    ensures var limit := LimitInForce(None, 2 * 1024 * 1024);
            |Zeros(limit)| <= limit && !IsRead(1, 0, Zeros(limit), false)
  {
    var limit := LimitInForce(None, 2 * 1024 * 1024);
    var d := EncodePayload(Zeros(limit), false).d;
    FrameBytesAre(1, 0, Zeros(limit), false);
    Encode64Plain(Zeros(limit));
    JsonStringSize(d);
  }

  /** The largest chunk there is, as bytes that are not text, is over the limit
      once encoded. */
  lemma LargestChunkExceedsLimit()
    ensures var chunk := seq(MAX_CHUNK_BYTES, _ => 0 as Byte);
            |Encode(EncodePayload(chunk, false).d)| > MAX_CHUNK_BYTES
  {
    var chunk := seq(MAX_CHUNK_BYTES, _ => 0 as Byte);
    EncodePayloadCarries(chunk, false);
    EncodedLength(chunk, false, MAX_CHUNK_BYTES);
  }

  /** The limit bounds a chunk before it is encoded, not after: base64 text is
      within the limit exactly for chunks of at most three quarters of it. */
  lemma EncodedLength(chunk: seq<Byte>, textual: bool, limit: nat)
    ensures var p := EncodePayload(chunk, textual);
            && (p.enc == U ==> |Encode(p.d)| <= |chunk|)
            && (p.enc == B ==> (|Encode(p.d)| <= limit <==> |chunk| <= limit / 4 * 3))
  {
    var p := EncodePayload(chunk, textual);
    if p.enc == U {
      EncodeOfDecode(SkipBom(chunk));
    } else {
      Encode64Plain(chunk);
      EncodeAscii(p.d);
    }
  }
}
