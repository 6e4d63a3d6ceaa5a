/**
 BridgeEnvelopeV1, the 80 bytes of every SPI transaction
 (protocol/bridge_protocol.c, protocol/bridge_protocol.h).
 */
module BridgeEnvelope {
  import opened Bytes
  import opened ShiftRegister
  import opened Crc32

  const ENVELOPE_SIZE: nat := 80
  const PAYLOAD_SIZE: nat := 64
  const VERSION: u8 := 1

  const IDLE: u8 := 0
  const RECEIVER_REPORT: u8 := 1
  const COMMAND: u8 := 2
  const COMMAND_RESPONSE: u8 := 3
  const STATUS_EVENT: u8 := 4

  function Magic(): (s: seq<u8>)
    ensures |s| == 4
  {
    [0x53, 0x56, 0x42, 0x31]
  }

  type Payload = s: seq<u8> | |s| == 64 witness seq(64, _ => 0)

  datatype Message = Message(
    kind: u8, flags: u8, payloadLength: u8, sequence: u16, requestId: u16, payload: Payload)

  /** The zeroed message every sender starts from. */
  function Blank(): Message {
    Message(IDLE, 0, 0, 0, 0, Zeros(64))
  }

  function SentLength(m: Message): u8 {
    if m.payloadLength <= 64 then m.payloadLength else 64
  }

  function Padded(m: Message): (p: seq<u8>)
    ensures |p| == 64
  {
    m.payload[..SentLength(m)] + Zeros(64 - SentLength(m))
  }

  function Header(m: Message): (h: seq<u8>)
    ensures |h| == 12
  {
    Magic() + [VERSION, m.kind, m.flags, SentLength(m)] + Le16(m.sequence) + Le16(m.requestId)
  }

  /** The wire form, as PROTOCOL.md tabulates it. */
  function Encode(m: Message): (x: seq<u8>)
    ensures |x| == 80
  {
    Seal(Header(m) + Padded(m))
  }

  function Decode(x: seq<u8>): Option<Message>
    requires |x| == 80
  {
    if x[..4] != Magic() || x[4] != VERSION || x[5] > STATUS_EVENT || x[7] > 64
       || ReadWord(x[76..80]) != Crc(x[..76])
    then None
    else Some(Message(x[5], x[6], x[7], ReadLe16(x, 8), ReadLe16(x, 10), x[12..12 + x[7]] + Zeros(64 - x[7])))
  }

  /** `sv_bridge_encode`: zero the buffer, fill the fields, then the checksum over them. */
  method EncodeInto(output: array<u8>, m: Message)
    requires output.Length == 80
    modifies output
    ensures output[..] == Encode(m)
  {
    FillFields(output, m);
    ghost var body := output[..76];
    var crc := ComputeCrc(output[..76]);
    Put(output, 76, Word(crc));
    assert output[..] == body + Word(crc) == Seal(body);
  }

  method FillFields(output: array<u8>, m: Message)
    requires output.Length == 80
    modifies output
    ensures output[..76] == Header(m) + Padded(m)
  {
    forall i | 0 <= i < 80 { output[i] := 0; }
    Put(output, 0, Magic());
    output[4] := VERSION;
    output[5] := m.kind;
    output[6] := m.flags;
    output[7] := if m.payloadLength <= 64 then m.payloadLength else 64;
    Put(output, 8, Le16(m.sequence));
    Put(output, 10, Le16(m.requestId));
    assert output[..12] == Header(m);
    assert forall i :: 12 <= i < 76 ==> output[i] == 0;
    Put(output, 12, m.payload[..output[7]]);
    assert output[..12] == Header(m);
    assert output[12..76] == Padded(m);
    assert output[..76] == output[..12] + output[12..76];
  }

  /** What a receiver makes of an encoded message: lengths past the buffer are cut, the rest is padding. */
  function Delivered(m: Message): Message {
    m.(payloadLength := SentLength(m), payload := Padded(m))
  }

  // The envelope of a message, whatever stands behind its payload.
  function WithPadding(m: Message, padding: seq<u8>): (x: seq<u8>)
    requires |padding| == 64 - SentLength(m)
    ensures |x| == 80
  {
    Seal(Header(m) + (m.payload[..SentLength(m)] + padding))
  }

  lemma EnvelopeFields(m: Message, padding: seq<u8>)
    requires |padding| == 64 - SentLength(m)
    ensures
      var x, n := WithPadding(m, padding), SentLength(m);
      && x[..4] == Magic() && x[4] == VERSION && x[5] == m.kind && x[6] == m.flags && x[7] == n
      && x[8..10] == Le16(m.sequence) && x[10..12] == Le16(m.requestId)
      && x[12..12 + n] == m.payload[..n] && x[76..80] == Word(Crc(x[..76]))
  {
    var x := WithPadding(m, padding);
    var body := m.payload[..SentLength(m)] + padding;
    assert x[..12] == Header(m) && x[12..76] == body && x[..76] == Header(m) + body;
    assert x[8..10] == Header(m)[8..10] && x[10..12] == Header(m)[10..12];
    assert x[..4] == Header(m)[..4];
    assert x[12..12 + SentLength(m)] == body[..SentLength(m)];
  }

  /** The bytes of an envelope one by one; what stands behind the payload is zero. */
  lemma WireForm(m: Message)
    ensures
      var x, n := Encode(m), if m.payloadLength <= 64 then m.payloadLength else 64;
      && x[..5] == [0x53, 0x56, 0x42, 0x31, 1] && x[5] == m.kind && x[6] == m.flags && x[7] == n
      && m.sequence as int == x[8] as int + 0x100 * x[9] as int
      && m.requestId as int == x[10] as int + 0x100 * x[11] as int
      && x[12..12 + n] == m.payload[..n] && (forall i :: 12 + n as int <= i < 76 ==> x[i] == 0)
      && x[76..] == Word(Crc(x[..76]))
  {
    hide Crc, Header, Le16, ReadLe16;
    var n := SentLength(m);
    var x := WithPadding(m, Zeros(64 - n));
    EnvelopeFields(m, Zeros(64 - n));
    assert Encode(m) == x && x[76..] == x[76..80];
    TwoBytes(x, 8, m.sequence);
    TwoBytes(x, 10, m.requestId);
    assert x[..5] == x[..4] + [x[4]];
    ZeroBehind(m);
  }

  lemma TwoBytes(x: seq<u8>, at: nat, v: u16)
    requires at + 2 <= |x| && x[at..at + 2] == Le16(v)
    ensures v as int == x[at] as int + 0x100 * x[at + 1] as int
  {
    ReadOfWritten(x, at);
  }

  lemma ZeroBehind(m: Message)
    ensures forall i :: 12 + SentLength(m) as int <= i < 76 ==> Encode(m)[i] == 0
  {
    hide Crc, Header;
    forall i | 12 + SentLength(m) as int <= i < 76 ensures Encode(m)[i] == Padded(m)[i - 12] {}
  }

  /** The decoder takes any padding, and reads the same message: what was sent, if its kind is one of the five. */
  lemma PaddingIgnored(m: Message, padding: seq<u8>)
    requires |padding| == 64 - SentLength(m)
    ensures Decode(WithPadding(m, padding)) == if m.kind <= STATUS_EVENT then Some(Delivered(m)) else None
  {
    hide Crc, Header, WithPadding;
    var x := WithPadding(m, padding);
    EnvelopeFields(m, padding);
    WordRoundTrip(Crc(x[..76]));
    ReadOfWritten(x, 8);
    ReadOfWritten(x, 10);
  }

  /** Decoding what was encoded delivers the message exactly when its kind is one the protocol knows. */
  lemma DecodeOfEncode(m: Message)
    ensures Decode(Encode(m)) == if m.kind <= STATUS_EVENT then Some(Delivered(m)) else None
  {
    hide Decode, Seal, Header;
    PaddingIgnored(m, Zeros(64 - SentLength(m)));
  }

  /** Re-encoding what was decoded restores the envelope exactly when its padding was zero. */
  lemma EncodeOfDecode(x: seq<u8>)
    requires |x| == 80 && Decode(x).Some?
    ensures Encode(Decode(x).value) == x <==> x[12 + x[7]..76] == Zeros(64 - x[7])
  {
    var n := x[7];
    DecodedBody(x);
    PaddingSplit(x, n);
    DecodedIsSealed(x);
    SealedIsSeal(x, x[..12] + (x[12..12 + n] + Zeros(64 - n)));
  }

  lemma DecodedBody(x: seq<u8>)
    requires |x| == 80 && Decode(x).Some?
    ensures
      var m := Decode(x).value;
      Header(m) + Padded(m) == x[..12] + (x[12..12 + x[7]] + Zeros(64 - x[7]))
  {
    var m := Decode(x).value;
    WrittenOfRead16(x, 8);
    WrittenOfRead16(x, 10);
    assert Header(m) == x[..12];
    assert m.payload[..x[7]] == x[12..12 + x[7]];
  }

  lemma PaddingSplit(x: seq<u8>, n: u8)
    requires |x| == 80 && n <= 64
    ensures x[..12] + (x[12..12 + n] + Zeros(64 - n)) == x[..76] <==> x[12 + n..76] == Zeros(64 - n)
  {
    var z := Zeros(64 - n);
    assert x[..76] == x[..12] + (x[12..12 + n] + x[12 + n..76]);
    assert (x[..12] + (x[12..12 + n] + z))[12 + n..] == z;
    assert x[..76][12 + n..] == x[12 + n..76];
  }

  lemma DecodedLength(x: seq<u8>)
    requires |x| == 80
    ensures Decode(x).Some? ==> Decode(x).value.payloadLength <= 64
  {
    hide Crc, ReadWord;
  }

  lemma DecodedIsSealed(x: seq<u8>)
    requires |x| == 80 && Decode(x).Some?
    ensures Sealed(x)
  {
  }

  /** A burst of up to four consecutive bytes, wherever it strikes, is never delivered. */
  lemma BurstRejected(x: seq<u8>, y: seq<u8>, k: nat)
    requires |x| == 80 && Decode(x).Some? && BurstApart(x, y, k)
    ensures Decode(y).None?
  {
    hide Crc, ReadWord;
    DecodedIsSealed(x);
    BurstDetected(x, y, k);
    if Decode(y).Some? {
      DecodedIsSealed(y);
    }
  }
}
