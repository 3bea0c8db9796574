/** Opaque bodies: how each side encodes bytes for the wire and reads them back.
    Text on the wire is a sequence of Unicode scalar values. */
module Payload {
  import opened Wrappers
  import opened Utf8
  import opened Base64

  datatype Encoding = U | B | Other(name: string)

  datatype Payload = Payload(enc: Encoding, d: Text)

  // ── Go: pkg/envelope ──

  function NewPayload(b: seq<Byte>, textual: bool): Payload {
    if textual && Valid(b) then Payload(U, Decode(b).value) else Payload(B, Encode64(b))
  }

  datatype PayloadError = BadEncoding | CorruptBase64

  function Bytes(p: Payload): Result<seq<Byte>, PayloadError> {
    match p.enc
    case U => Ok(Encode(p.d))
    case B => (match DecodeGo(p.d)
               case Some(b) => Ok(b)
               case None => Err(CorruptBase64))
    case Other(_) => Err(BadEncoding)
  }

  // ── TypeScript: dsh/src/protocol.ts ──

  /** The fatal `TextDecoder` drops a leading byte order mark before it decodes. */
  function EncodePayload(b: seq<Byte>, textual: bool): Payload {
    if textual && Valid(SkipBom(b)) then Payload(U, Decode(SkipBom(b)).value) else Payload(B, Encode64(b))
  }

  function DecodePayload(p: Payload): seq<Byte> {
    if p.enc == U then Encode(p.d) else DecodeNode(p.d)
  }

  lemma ValidWithoutBom(b: seq<Byte>)
    ensures Valid(SkipBom(b)) <==> Valid(b)
  {
    if StartsWithBom(b) {
      NextOfEncodeOne(BYTE_ORDER_MARK, b[3..]);
      assert b == EncodeOne(BYTE_ORDER_MARK) + b[3..];
    }
  }

  /** What Go encodes, Go and the node both read back unchanged, and text
      encoding is chosen for exactly the valid UTF-8 of textual bodies. */
  lemma NewPayloadRoundTrips(b: seq<Byte>, textual: bool)
    ensures Bytes(NewPayload(b, textual)) == Ok(b)
    ensures DecodePayload(NewPayload(b, textual)) == b
    ensures NewPayload(b, textual).enc == U <==> textual && Valid(b)
  {
    if textual && Valid(b) {
      EncodeOfDecode(b);
    } else {
      DecodeGoOfEncode(b);
      DecodeNodeOfEncode(b);
    }
  }

  /** The bytes that arrive when the node encodes `b`. */
  function Carried(b: seq<Byte>, textual: bool): seq<Byte> {
    if textual && Valid(b) then SkipBom(b) else b
  }

  /** What the node encodes, both sides read back as `Carried`, which is the
      chunk itself except for a byte order mark at the head of valid text. */
  lemma EncodePayloadCarries(b: seq<Byte>, textual: bool)
    ensures Bytes(EncodePayload(b, textual)) == Ok(Carried(b, textual))
    ensures DecodePayload(EncodePayload(b, textual)) == Carried(b, textual)
    ensures EncodePayload(b, textual).enc == U <==> textual && Valid(b)
    ensures Carried(b, textual) == b <==> !(textual && Valid(b) && StartsWithBom(b))
  {
    ValidWithoutBom(b);
    if textual && Valid(b) {
      EncodeOfDecode(SkipBom(b));
    } else {
      DecodeGoOfEncode(b);
      DecodeNodeOfEncode(b);
    }
  }

  /** A chunk that is nothing but a byte order mark arrives empty. */
  lemma LoneMarkIsLost()
    ensures var b := [0xEF as Byte, 0xBB, 0xBF];
            Bytes(EncodePayload(b, true)) == Ok([]) && Carried(b, true) != b
  {
    var b := [0xEF as Byte, 0xBB, 0xBF];
    assert b[3..] == [];
    ValidWithoutBom(b);
    EncodePayloadCarries(b, true);
  }

  /** Text that is not valid UTF-8 never rides as text: the receiver would
      otherwise see other bytes. Any payload marked `u` decodes to valid UTF-8. */
  lemma TextDecodesToValidUtf8(p: Payload)
    requires p.enc == U
    ensures Bytes(p).Ok? && Valid(Bytes(p).value)
  {
    DecodeOfEncode(p.d);
  }

  /** What the control plane refuses: an encoding it does not know, and base64 text
      that is not in whole groups or holds anything but symbols and final padding. */
  lemma RefusedBodies(p: Payload)
    ensures p.enc.Other? ==> Bytes(p) == Err(BadEncoding)
    ensures p.enc == B ==>
              var t := SkipLineBreaks(p.d);
              && (Bytes(p).Err? <==> |t| % 4 != 0 || !(Padded(t, 0) || Padded(t, 1) || Padded(t, 2)))
              && (Bytes(p).Err? ==> Bytes(p) == Err(CorruptBase64))
  {
    var t := SkipLineBreaks(p.d);
    GroupsOfFour(t);
    if |t| % 4 == 0 {
      AcceptsExactly(t, 0);
      AcceptsExactly(t, 1);
      AcceptsExactly(t, 2);
    }
  }
}
