/**
 GatewayDatagramV1, which the repository implements twice: in C for the gateway
 (protocol/gateway_protocol.c) and in Rust for the bridge (bridge/src/gateway.rs).
 Each codec is modelled as written; the lemmas show that they are one codec.
 */
module GatewayDatagram {
  import opened Bytes
  import opened ShiftRegister
  import opened Crc32

  const HEADER_SIZE: nat := 28
  const MAX_DATAGRAM_SIZE: nat := 544
  const VERSION: u8 := 1
  const REPORT_BATCH: u8 := 5

  function Magic(): (s: seq<u8>)
    ensures |s| == 4
  {
    [0x53, 0x56, 0x57, 0x31]
  }

  type Report = s: seq<u8> | |s| == 64 witness seq(64, _ => 0)

  function Join(reports: seq<Report>): (p: seq<u8>)
    ensures |p| == 64 * |reports|
  {
    if reports == [] then [] else reports[0] + Join(reports[1..])
  }

  function Split(p: seq<u8>): (reports: seq<Report>)
    requires |p| % 64 == 0
    ensures |reports| == |p| / 64
    decreases |p|
  {
    if p == [] then [] else [p[..64]] + Split(p[64..])
  }

  lemma {:induction false} SplitOfJoin(reports: seq<Report>)
    ensures Split(Join(reports)) == reports
  {
    if reports != [] {
      var p := Join(reports);
      assert p[..64] == reports[0] && p[64..] == Join(reports[1..]);
      SplitOfJoin(reports[1..]);
    }
  }

  lemma {:induction false} JoinOfSplit(p: seq<u8>)
    requires |p| % 64 == 0
    ensures Join(Split(p)) == p
    decreases |p|
  {
    if p != [] {
      JoinOfSplit(p[64..]);
      assert Split(p)[1..] == Split(p[64..]);
    }
  }

  lemma {:induction false} JoinSnoc(reports: seq<Report>, report: Report)
    ensures Join(reports + [report]) == Join(reports) + report
  {
    if reports == [] {
      assert reports + [report] == [report];
      assert Join([report]) == report + Join([report][1..]);
    } else {
      assert (reports + [report])[1..] == reports[1..] + [report];
      JoinSnoc(reports[1..], report);
    }
  }

  // The layout PROTOCOL.md tabulates, up to the checksum.
  function Body(kind: u8, flags: u8, count: u8, id: seq<u8>, reserved: seq<u8>,
                bootId: u32, sequence: u32, payload: seq<u8>): (b: seq<u8>)
    requires |id| == 6 && |reserved| == 2 && |payload| <= 512
    ensures |b| == 28 + |payload|
  {
    Magic() + [VERSION, kind, flags, count] + id + reserved + Le32(bootId) + Le32(sequence)
    + Le16(|payload|) + Le16(28) + payload
  }

  // The fields of a header, each where PROTOCOL.md puts it.
  ghost predicate HasHeader(b: seq<u8>, kind: u8, flags: u8, count: u8, id: seq<u8>, reserved: seq<u8>,
                            bootId: u32, sequence: u32, length: u16)
  {
    && |b| >= 28
    && b[..4] == Magic() && b[4] == VERSION && b[5] == kind && b[6] == flags && b[7] == count
    && b[8..14] == id && b[14..16] == reserved && b[16..20] == Le32(bootId) && b[20..24] == Le32(sequence)
    && b[24..26] == Le16(length) && b[26..28] == Le16(28)
  }

  /** The layout is its fields followed by the payload. */
  lemma BodyIff(b: seq<u8>, kind: u8, flags: u8, count: u8, id: seq<u8>, reserved: seq<u8>,
                bootId: u32, sequence: u32, payload: seq<u8>)
    requires |b| >= 28 && |id| == 6 && |reserved| == 2 && |payload| <= 512
    ensures b == Body(kind, flags, count, id, reserved, bootId, sequence, payload)
       <==> HasHeader(b, kind, flags, count, id, reserved, bootId, sequence, |payload|) && b[28..] == payload
  {
    hide Le16, Le32, Magic;
    if HasHeader(b, kind, flags, count, id, reserved, bootId, sequence, |payload|) && b[28..] == payload {
      Concatenation(b);
    } else {
      NinePieces(Magic(), [VERSION, kind, flags, count], id, reserved, Le32(bootId), Le32(sequence),
                 Le16(|payload|), Le16(28), payload);
    }
  }

  lemma NinePieces(a: seq<u8>, b: seq<u8>, c: seq<u8>, d: seq<u8>, e: seq<u8>, f: seq<u8>, g: seq<u8>,
                   h: seq<u8>, p: seq<u8>)
    requires |a| == |b| == |e| == |f| == 4 && |c| == 6 && |d| == |g| == |h| == 2
    ensures
      var s := a + b + c + d + e + f + g + h + p;
      && |s| == 28 + |p| && s[..4] == a && s[4..8] == b && s[8..14] == c && s[14..16] == d
      && s[16..20] == e && s[20..24] == f && s[24..26] == g && s[26..28] == h && s[28..] == p
      && s[4] == b[0] && s[5] == b[1] && s[6] == b[2] && s[7] == b[3]
  {
  }

  lemma Concatenation(b: seq<u8>)
    requires |b| >= 28
    ensures b == b[..4] + [b[4], b[5], b[6], b[7]] + b[8..14] + b[14..16] + b[16..20] + b[20..24]
              + b[24..26] + b[26..28] + b[28..]
  {
  }

  lemma HeaderCarries(b: seq<u8>, x: seq<u8>, kind: u8, flags: u8, count: u8, id: seq<u8>, reserved: seq<u8>,
                      bootId: u32, sequence: u32, length: u16)
    requires HasHeader(b, kind, flags, count, id, reserved, bootId, sequence, length)
    requires |x| >= 28 && x[..28] == b[..28]
    ensures HasHeader(x, kind, flags, count, id, reserved, bootId, sequence, length)
  {
    assert forall i :: 0 <= i < 28 ==> x[i] == x[..28][i] == b[..28][i] == b[i];
  }

  // The bytes of a header one by one.
  predicate HeaderBytes(x: seq<u8>, kind: u8, flags: u8, count: u8, id: u48, bootId: u32, sequence: u32, length: u16)
    requires |x| >= 28
  {
    && x[..5] == [0x53, 0x56, 0x57, 0x31, 1] && x[5] == kind && x[6] == flags && x[7] == count
    && id as int == FourBytes(x, 8) + 0x1_0000_0000 * TwoBytes(x, 12)
    && x[14] == x[15] == 0 && bootId as int == FourBytes(x, 16) && sequence as int == FourBytes(x, 20)
    && length as int == TwoBytes(x, 24) && x[26] == 28 && x[27] == 0
  }

  function TwoBytes(x: seq<u8>, at: nat): int
    requires at + 2 <= |x|
  {
    x[at] as int + 0x100 * x[at + 1] as int
  }

  function FourBytes(x: seq<u8>, at: nat): int
    requires at + 4 <= |x|
  {
    x[at] as int + 0x100 * x[at + 1] as int + 0x1_0000 * x[at + 2] as int + 0x100_0000 * x[at + 3] as int
  }

  lemma HeaderInBytes(x: seq<u8>, kind: u8, flags: u8, count: u8, id: u48, bootId: u32, sequence: u32, length: u16)
    requires HasHeader(x, kind, flags, count, Le48(id), [0, 0], bootId, sequence, length)
    ensures HeaderBytes(x, kind, flags, count, id, bootId, sequence, length)
  {
    HeaderReads(x, kind, flags, count, id, [0, 0], bootId, sequence, length);
    assert x[..5] == x[..4] + [x[4]];
    assert x[14] == x[14..16][0] && x[15] == x[14..16][1] && x[26] == x[26..28][0] && x[27] == x[26..28][1];
    hide Le16, Le32, Le48;
  }

  /** What the readers make of a header. */
  lemma HeaderReads(x: seq<u8>, kind: u8, flags: u8, count: u8, id: u48, reserved: seq<u8>,
                    bootId: u32, sequence: u32, length: u16)
    requires HasHeader(x, kind, flags, count, Le48(id), reserved, bootId, sequence, length)
    ensures ReadLe48(x, 8) == id && ReadLe32(x, 16) == bootId && ReadLe32(x, 20) == sequence
    ensures ReadLe16(x, 24) == length && ReadLe16(x, 26) == 28
  {
    hide Le16, Le32, Le48, ReadLe16, ReadLe32, ReadLe48;
    ReadOfWritten(x, 8);
    ReadOfWritten(x, 16);
    ReadOfWritten(x, 20);
    ReadOfWritten(x, 24);
    ReadOfWritten(x, 26);
  }

  /** And every header with this version and length is the one its readers see. */
  lemma HeaderOfReads(x: seq<u8>)
    requires |x| >= 28 && x[..4] == Magic() && x[4] == VERSION && ReadLe16(x, 26) == 28
    ensures HasHeader(x, x[5], x[6], x[7], x[8..14], x[14..16], ReadLe32(x, 16), ReadLe32(x, 20), ReadLe16(x, 24))
    ensures x[8..14] == Le48(ReadLe48(x, 8))
  {
    WrittenOfRead48(x, 8);
    WrittenOfRead32(x, 16);
    WrittenOfRead32(x, 20);
    WrittenOfRead16(x, 24);
    WrittenOfRead16(x, 26);
  }

  // ---- protocol/gateway_protocol.c ----

  datatype CMessage = CMessage(
    kind: u8, flags: u8, reportCount: u8, gatewayId: seq<u8>, bootId: u32, sequence: u32,
    payloadLength: u16, payload: seq<u8>)
  {
    // The two arrays have the sizes the struct declares.
    predicate Valid() {
      |gatewayId| == 6 && |payload| == 512
    }
  }

  // The guard of `sv_gateway_encode`, under which it writes nothing and returns 0.
  predicate Refused(m: CMessage) {
    m.kind < 1 || m.kind > REPORT_BATCH || m.payloadLength > 512 || m.reportCount > 8
    || (m.kind == REPORT_BATCH && m.payloadLength as int != m.reportCount as int * 64)
    || (m.kind != REPORT_BATCH && (m.payloadLength != 0 || m.reportCount != 0))
  }

  function CEncode(m: CMessage): seq<u8>
    requires m.Valid()
  {
    if Refused(m) then []
    else Seal(Body(m.kind, m.flags, m.reportCount, m.gatewayId, [0, 0], m.bootId, m.sequence,
                   m.payload[..m.payloadLength]))
  }

  function CDecode(x: seq<u8>): Option<CMessage> {
    if |x| < 32 || x[..4] != Magic() || x[4] != VERSION || x[5] < 1 || x[5] > REPORT_BATCH
       || x[7] > 8 || ReadLe16(x, 26) != 28
    then None
    else
      var n := ReadLe16(x, 24);
      if n > 512 || |x| != 28 + n + 4
         || ReadWord(x[28 + n..28 + n + 4]) != Crc(x[..28 + n])
         || (x[5] == REPORT_BATCH && n as int != x[7] as int * 64)
         || (x[5] != REPORT_BATCH && (n != 0 || x[7] != 0))
      then None
      else Some(CMessage(x[5], x[6], x[7], x[8..14], ReadLe32(x, 16), ReadLe32(x, 20), n,
                         x[28..28 + n] + Zeros(512 - n)))
  }

  // ---- bridge/src/gateway.rs ----

  datatype GatewayKind = Discover | Offer | Hello | Ack | ReportBatch

  datatype Message = Message(
    kind: GatewayKind, flags: u8, gatewayId: u64, bootId: u32, sequence: u32, reports: seq<Report>)

  datatype DecodeError =
    | TooShort
    | TooLong
    | WrongMagic
    | UnsupportedVersion(version: u8)
    | UnknownKind(kind: u8)
    | InvalidReportCount(count: u8)
    | InvalidLength
    | InvalidCrc

  function KindByte(k: GatewayKind): u8 {
    match k
    case Discover => 1
    case Offer => 2
    case Hello => 3
    case Ack => 4
    case ReportBatch => 5
  }

  function KindOf(b: u8): Option<GatewayKind> {
    match b
    case 1 => Some(Discover)
    case 2 => Some(Offer)
    case 3 => Some(Hello)
    case 4 => Some(Ack)
    case 5 => Some(ReportBatch)
    case _ => None
  }

  function Decode(x: seq<u8>): Result<Message, DecodeError> {
    if |x| < 32 then Failure(TooShort)
    else if |x| > MAX_DATAGRAM_SIZE then Failure(TooLong)
    else if x[..4] != Magic() then Failure(WrongMagic)
    else if x[4] != VERSION then Failure(UnsupportedVersion(x[4]))
    else
      match KindOf(x[5])
      case None => Failure(UnknownKind(x[5]))
      case Some(kind) =>
        var count: nat := x[7];
        var n: nat := ReadLe16(x, 24);
        if count > 8 then Failure(InvalidReportCount(x[7]))
        else if ReadLe16(x, 26) != 28 || n != count * 64 || |x| != 28 + n + 4 || (kind != ReportBatch && count != 0)
        then Failure(InvalidLength)
        else if Crc(x[..|x| - 4]) != ReadWord(x[|x| - 4..]) then Failure(InvalidCrc)
        else Success(Message(kind, x[6], ReadLe48(x, 8), ReadLe32(x, 16), ReadLe32(x, 20), Split(x[28..28 + n])))
  }

  // What `encode` asserts of its argument.
  predicate Encodable(m: Message) {
    |m.reports| <= 8 && (m.kind == ReportBatch || m.reports == [])
  }

  function Encode(m: Message): seq<u8>
    requires Encodable(m)
  {
    Seal(Body(KindByte(m.kind), m.flags, |m.reports|, Le48(m.gatewayId % 0x1_0000_0000_0000), [0, 0],
              m.bootId, m.sequence, Join(m.reports)))
  }

  // ---- The encoders' buffers ----

  // The writes of the C encoder before its payload; the id is copied as it is.
  method FillHeader(output: array<u8>, kind: u8, flags: u8, count: u8, id: seq<u8>,
                    bootId: u32, sequence: u32, length: u16)
    requires output.Length >= 28 && |id| == 6 && output[14] == output[15] == 0
    modifies output
    ensures HasHeader(output[..], kind, flags, count, id, [0, 0], bootId, sequence, length)
    ensures forall i :: 28 <= i < output.Length ==> output[i] == old(output[i])
  {
    FillFront(output, kind, flags, count, id);
    FillBack(output, bootId, sequence, length);
    assert output[..4] == Magic() && output[8..14] == id;
    assert output[14..16] == [0, 0];
  }

  method FillFront(output: array<u8>, kind: u8, flags: u8, count: u8, id: seq<u8>)
    requires output.Length >= 28 && |id| == 6
    modifies output
    ensures output[..4] == Magic() && output[4] == VERSION && output[8..14] == id
    ensures output[5] == kind && output[6] == flags && output[7] == count
    ensures forall i :: 14 <= i < output.Length ==> output[i] == old(output[i])
  {
    hide Magic;
    Put(output, 0, Magic());
    output[4], output[5], output[6], output[7] := VERSION, kind, flags, count;
    Put(output, 8, id);
  }

  method FillBack(output: array<u8>, bootId: u32, sequence: u32, length: u16)
    requires output.Length >= 28
    modifies output
    ensures output[16..20] == Le32(bootId) && output[20..24] == Le32(sequence)
    ensures output[24..26] == Le16(length) && output[26..28] == Le16(28)
    ensures forall i :: 0 <= i < 16 || 28 <= i < output.Length ==> output[i] == old(output[i])
  {
    hide Le16, Le32;
    Put(output, 16, Le32(bootId));
    Put(output, 20, Le32(sequence));
    Put(output, 24, Le16(length));
    Put(output, 26, Le16(28));
  }

  /** `sv_gateway_encode`: the size written, or 0 with the buffer untouched. */
  method CEncodeInto(output: array<u8>, m: CMessage) returns (total: nat)
    requires output.Length == MAX_DATAGRAM_SIZE && m.Valid()
    modifies output
    ensures total == |CEncode(m)|
    ensures output[..total] == CEncode(m) && output[total..] == old(output[total..])
  {
    hide Crc, Body, HasHeader;
    if Refused(m) {
      total := 0;
      return;
    }
    var n := m.payloadLength;
    total := 28 + n + 4;
    forall i | 0 <= i < total { output[i] := 0; }
    FillHeader(output, m.kind, m.flags, m.reportCount, m.gatewayId, m.bootId, m.sequence, n);
    ghost var header := output[..];
    Put(output, 28, m.payload[..n]);
    ghost var body := output[..28 + n];
    HeaderCarries(header, body, m.kind, m.flags, m.reportCount, m.gatewayId, [0, 0], m.bootId, m.sequence, n);
    BodyIff(body, m.kind, m.flags, m.reportCount, m.gatewayId, [0, 0], m.bootId, m.sequence, m.payload[..n]);
    SealInto(output, 28 + n);
  }

  // The last step of the C encoder.
  method SealInto(output: array<u8>, length: nat)
    requires length + 4 <= output.Length
    modifies output
    ensures output[..length] == old(output[..length]) && output[length + 4..] == old(output[length + 4..])
    ensures output[..length + 4] == Seal(old(output[..length]))
  {
    hide Crc;
    var crc := ComputeCrc(output[..length]);
    Put(output, length, Word(crc));
    assert output[..length + 4] == output[..length] + output[length..length + 4];
  }

  // The `index`-th byte of a number, lowest first: a shift and a truncation.
  function ByteOf(v: nat, index: nat): (b: u8)
    requires index < 6
  {
    v / Weight(index) % 0x100
  }

  function Weight(index: nat): (w: nat)
    requires index < 6
    ensures w > 0
  {
    match index
    case 0 => 1
    case 1 => 0x100
    case 2 => 0x1_0000
    case 3 => 0x100_0000
    case 4 => 0x1_0000_0000
    case _ => 0x100_0000_0000
  }

  // Six such bytes are the low 48 bits, little-endian.
  lemma BytesOfId(v: nat, index: nat)
    requires index < 6
    ensures Le48(v % 0x1_0000_0000_0000)[index] == ByteOf(v, index)
  {
    var low := v % 0x1_0000_0000_0000;
    TruncatedByte(v, index);
    var word, half := low % 0x1_0000_0000, low / 0x1_0000_0000;
    if index < 4 {
      TruncatedByte4(low, index);
      WordByte(word, index);
    } else {
      HighByte(low, index);
    }
  }

  lemma TruncatedByte(v: nat, index: nat)
    requires index < 6
    ensures ByteOf(v, index) == ByteOf(v % 0x1_0000_0000_0000, index)
  {
    var q, r := v / 0x1_0000_0000_0000, v % 0x1_0000_0000_0000;
    match index {
      case 0 => assert v == 0x100 * (0x100_0000_0000 * q) + r; DropHigh(0x100_0000_0000 * q, r);
      case 1 => assert v / 0x100 == 0x100 * (0x1_0000_0000 * q) + r / 0x100; DropHigh(0x1_0000_0000 * q, r / 0x100);
      case 2 => assert v / 0x1_0000 == 0x100 * (0x100_0000 * q) + r / 0x1_0000; DropHigh(0x100_0000 * q, r / 0x1_0000);
      case 3 =>
        assert v / 0x100_0000 == 0x100 * (0x1_0000 * q) + r / 0x100_0000;
        DropHigh(0x1_0000 * q, r / 0x100_0000);
      case 4 =>
        assert v / 0x1_0000_0000 == 0x100 * (0x100 * q) + r / 0x1_0000_0000;
        DropHigh(0x100 * q, r / 0x1_0000_0000);
      case _ =>
        assert v / 0x100_0000_0000 == 0x100 * q + r / 0x100_0000_0000;
        DropHigh(q, r / 0x100_0000_0000);
    }
  }

  lemma TruncatedByte4(v: nat, index: nat)
    requires index < 4
    ensures ByteOf(v, index) == ByteOf(v % 0x1_0000_0000, index)
  {
    var q, r := v / 0x1_0000_0000, v % 0x1_0000_0000;
    match index {
      case 0 => assert v == 0x100 * (0x100_0000 * q) + r; DropHigh(0x100_0000 * q, r);
      case 1 => assert v / 0x100 == 0x100 * (0x1_0000 * q) + r / 0x100; DropHigh(0x1_0000 * q, r / 0x100);
      case 2 => assert v / 0x1_0000 == 0x100 * (0x100 * q) + r / 0x1_0000; DropHigh(0x100 * q, r / 0x1_0000);
      case _ => assert v / 0x100_0000 == 0x100 * q + r / 0x100_0000; DropHigh(q, r / 0x100_0000);
    }
  }

  lemma DropHigh(high: nat, low: nat)
    ensures (0x100 * high + low) % 0x100 == low % 0x100
  {
  }

  lemma WordByte(v: u32, index: nat)
    requires index < 4
    ensures Le32(v)[index] == ByteOf(v, index)
  {
    var high, low := v / 0x1_0000, v % 0x1_0000;
    assert v == 0x1_0000 * high + low;
    match index {
      case 0 => DropHigh(0x100 * high, low);
      case 1 => SecondByte(high, low);
      case 2 =>
      case _ => TopByte(v);
    }
  }

  lemma SecondByte(high: nat, low: nat)
    requires low < 0x1_0000
    ensures (0x1_0000 * high + low) / 0x100 % 0x100 == low / 0x100
  {
    assert (0x1_0000 * high + low) / 0x100 == 0x100 * high + low / 0x100;
    DropHigh(high, low / 0x100);
  }

  lemma TopByte(v: u32)
    ensures v / 0x1_0000 / 0x100 == v / 0x100_0000 % 0x100
  {
  }

  lemma HighByte(v: u48, index: nat)
    requires 4 <= index < 6
    ensures Le16(v / 0x1_0000_0000)[index - 4] == ByteOf(v, index)
  {
  }

  // The writes of the Rust encoder before its reports; the id goes in byte by byte.
  method WriteHeader(output: array<u8>, m: Message)
    requires Encodable(m) && output.Length >= 28 && output[14] == output[15] == 0
    modifies output
    ensures HasHeader(output[..], KindByte(m.kind), m.flags, |m.reports|, Le48(m.gatewayId % 0x1_0000_0000_0000),
                      [0, 0], m.bootId, m.sequence, |m.reports| * 64)
    ensures forall i :: 28 <= i < output.Length ==> output[i] == old(output[i])
  {
    hide Le16, Le32, Le48, Magic;
    WriteFront(output, m);
    ghost var front := output[..14];
    Put(output, 16, Le32(m.bootId));
    Put(output, 20, Le32(m.sequence));
    Put(output, 24, Le16(|m.reports| * 64));
    Put(output, 26, Le16(28));
    assert output[..14] == front;
    assert output[..4] == front[..4] && output[8..14] == front[8..14] && output[14..16] == [0, 0];
    assert output[16..20] == Le32(m.bootId) && output[20..24] == Le32(m.sequence);
    assert output[24..26] == Le16(|m.reports| * 64) && output[26..28] == Le16(28);
  }

  method WriteFront(output: array<u8>, m: Message)
    requires Encodable(m) && output.Length >= 28
    modifies output
    ensures output[..14][..4] == Magic() && output[..14][8..14] == Le48(m.gatewayId % 0x1_0000_0000_0000)
    ensures output[4] == VERSION && output[5] == KindByte(m.kind) && output[6] == m.flags && output[7] == |m.reports|
    ensures forall i :: 14 <= i < output.Length ==> output[i] == old(output[i])
  {
    hide Le48, Magic, ByteOf;
    Put(output, 0, Magic());
    output[4] := VERSION;
    output[5] := KindByte(m.kind);
    output[6] := m.flags;
    output[7] := |m.reports|;
    ghost var before := output[..8];
    for index := 0 to 6
      invariant output[..8] == before
      invariant forall i :: 14 <= i < output.Length ==> output[i] == old(output[i])
      invariant forall i :: 0 <= i < index ==> output[8 + i] == Le48(m.gatewayId % 0x1_0000_0000_0000)[i]
    {
      BytesOfId(m.gatewayId, index);
      output[8 + index] := ByteOf(m.gatewayId, index);
    }
    assert before[..4] == Magic() && output[..14][..4] == before[..4];
    assert output[4] == before[4] && output[5] == before[5] && output[6] == before[6] && output[7] == before[7];
  }

  /** `encode`: a fresh buffer, the reports copied in one by one. */
  method EncodeFresh(m: Message) returns (output: array<u8>)
    requires Encodable(m)
    ensures fresh(output) && output[..] == Encode(m)
  {
    hide Crc, Body, HasHeader;
    var n := |m.reports| * 64;
    ghost var id := Le48(m.gatewayId % 0x1_0000_0000_0000);
    output := new u8[28 + n + 4](_ => 0);
    WriteHeader(output, m);
    ghost var header := output[..];
    CopyReports(output, m.reports);
    ghost var body := output[..28 + n];
    HeaderCarries(header, body, KindByte(m.kind), m.flags, |m.reports|, id, [0, 0], m.bootId, m.sequence, n);
    BodyIff(body, KindByte(m.kind), m.flags, |m.reports|, id, [0, 0], m.bootId, m.sequence, Join(m.reports));
    var crcOffset := output.Length - 4;
    var crc := ComputeCrc(output[..crcOffset]);
    Put(output, crcOffset, Word(crc));
    assert output[..] == body + Word(crc);
  }

  method CopyReports(output: array<u8>, reports: seq<Report>)
    requires output.Length >= 28 + 64 * |reports|
    modifies output
    ensures output[28..28 + 64 * |reports|] == Join(reports)
    ensures output[..28] == old(output[..28])
  {
    for index := 0 to |reports|
      invariant output[..28] == old(output[..28])
      invariant output[28..28 + 64 * index] == Join(reports[..index])
    {
      ghost var before := output[28..28 + 64 * index];
      Put(output, 28 + index * 64, reports[index]);
      assert output[28..28 + 64 * index] == before;
      var end := 28 + 64 * index;
      assert output[end..end + 64] == reports[index];
      SliceSplit(output[..], 28, end, end + 64);
      assert output[28..end + 64] == output[..][28..end + 64] == before + reports[index];
      assert reports[..index + 1] == reports[..index] + [reports[index]];
      JoinSnoc(reports[..index], reports[index]);
    }
    assert reports[..|reports|] == reports;
  }

  // ---- One codec ----

  /** The two structs say the same thing. */
  ghost predicate SameMessage(c: CMessage, m: Message) {
    && c.Valid()
    && c.kind == KindByte(m.kind) && c.flags == m.flags
    && c.gatewayId == Le48(m.gatewayId % 0x1_0000_0000_0000)
    && c.bootId == m.bootId && c.sequence == m.sequence
    && c.reportCount == |m.reports| && c.payloadLength == 64 * |m.reports|
    && |m.reports| <= 8 && c.payload[..c.payloadLength] == Join(m.reports)
  }

  /** Both decoders accept the same byte strings, of any length, and read the same message from them. */
  lemma DecodersAgree(x: seq<u8>)
    ensures CDecode(x).Some? <==> Decode(x).Success?
    ensures Decode(x).Success? ==> SameMessage(CDecode(x).value, Decode(x).value)
  {
    DecodersAccept(x);
    if Decode(x).Success? {
      DecodersRead(x);
    }
  }

  lemma DecodersAccept(x: seq<u8>)
    ensures CDecode(x).Some? <==> Decode(x).Success?
  {
    hide Crc, ReadWord, ReadLe32, ReadLe48, Split;
    if |x| >= 32 && |x| == 28 + (ReadLe16(x, 24) as int) + 4 {
      var n: int := ReadLe16(x, 24);
      assert x[28 + n..28 + n + 4] == x[|x| - 4..];
    }
  }

  lemma CReads(x: seq<u8>)
    requires CDecode(x).Some?
    ensures
      |x| >= 32 && var n := ReadLe16(x, 24);
      && 28 + n <= |x| && n <= 512
      && CDecode(x) == Some(CMessage(x[5], x[6], x[7], x[8..14], ReadLe32(x, 16), ReadLe32(x, 20), n,
                                     x[28..28 + n] + Zeros(512 - n)))
  {
    hide Crc, ReadWord, ReadLe16, ReadLe32;
  }

  lemma RustReads(x: seq<u8>)
    requires Decode(x).Success?
    ensures
      |x| >= 32 && var n := ReadLe16(x, 24);
      && 28 + n as int <= |x| && n as int == x[7] as int * 64 && KindOf(x[5]).Some?
      && Decode(x) == Success(Message(KindOf(x[5]).value, x[6], ReadLe48(x, 8), ReadLe32(x, 16), ReadLe32(x, 20),
                                      Split(x[28..28 + n])))
  {
    hide Crc, ReadWord, ReadLe16, ReadLe32, ReadLe48, Split;
  }

  lemma KindOfByte(b: u8)
    requires KindOf(b).Some?
    ensures KindByte(KindOf(b).value) == b
  {
  }

  lemma BodyReads(body: seq<u8>, count: nat)
    requires |body| == 64 * count <= 512
    ensures (body + Zeros(512 - |body|))[..|body|] == body == Join(Split(body)) && |Split(body)| == count
  {
    JoinOfSplit(body);
    hide Join, Split;
  }

  lemma DecodersRead(x: seq<u8>)
    requires CDecode(x).Some? && Decode(x).Success?
    ensures SameMessage(CDecode(x).value, Decode(x).value)
  {
    hide CDecode, Decode, ReadLe16, ReadLe32, ReadLe48, Split, Join, Le48, Zeros, KindOf, KindByte, SameMessage;
    CReads(x);
    RustReads(x);
    KindOfByte(x[5]);
    WrittenOfRead48(x, 8);
    BodyReads(x[28..28 + ReadLe16(x, 24)], x[7]);
    SameRead(CDecode(x).value, Decode(x).value, x[28..28 + ReadLe16(x, 24)], ReadLe48(x, 8));
  }

  lemma SameRead(c: CMessage, m: Message, body: seq<u8>, id: u48)
    requires c.Valid() && c.kind == KindByte(m.kind) && c.flags == m.flags && c.bootId == m.bootId
    requires c.sequence == m.sequence && c.reportCount == |m.reports| <= 8 && m.gatewayId == id
    requires c.gatewayId == Le48(id) && c.payloadLength == |body| == 64 * |m.reports|
    requires |body| <= 512 && c.payload[..|body|] == body == Join(m.reports)
    ensures SameMessage(c, m)
  {
    hide Join, Le48;
  }

  /** Both encoders emit the same bytes for the same message. */
  lemma EncodersAgree(c: CMessage, m: Message)
    requires SameMessage(c, m) && Encodable(m)
    ensures CEncode(c) == Encode(m) && CEncode(c) != []
  {
  }

  /** The C encoder refuses exactly the structs that say nothing a Rust message could say. */
  lemma CEncodeRefuses(c: CMessage)
    requires c.Valid()
    ensures CEncode(c) == [] <==> !exists m :: Encodable(m) && SameMessage(c, m)
  {
    hide Crc, Body, Split, Join, Le48, ReadLe48;
    if !Refused(c) {
      var n := c.payloadLength;
      var kind := KindOf(c.kind).value;
      var m := Message(kind, c.flags, ReadLe48(c.gatewayId, 0), c.bootId, c.sequence, Split(c.payload[..n]));
      JoinOfSplit(c.payload[..n]);
      WrittenOfRead48(c.gatewayId, 0);
      assert c.gatewayId[0..6] == c.gatewayId;
      assert Encodable(m) && SameMessage(c, m);
    }
  }

  // The datagram of a message, whatever stands in its two reserved bytes.
  function WithReserved(m: Message, reserved: seq<u8>): seq<u8>
    requires Encodable(m) && |reserved| == 2
  {
    Seal(Body(KindByte(m.kind), m.flags, |m.reports|, Le48(m.gatewayId % 0x1_0000_0000_0000), reserved,
              m.bootId, m.sequence, Join(m.reports)))
  }

  /** The decoders take any reserved bytes, and read the same message. */
  lemma ReservedIgnored(m: Message, reserved: seq<u8>)
    requires Encodable(m) && |reserved| == 2
    ensures Decode(WithReserved(m, reserved)) == Success(m.(gatewayId := m.gatewayId % 0x1_0000_0000_0000))
    ensures CDecode(WithReserved(m, reserved)).Some?
  {
    hide Crc, ReadWord, Body, HasHeader, Seal, Split, Join, Le48, ReadLe16, ReadLe32, ReadLe48;
    var id := m.gatewayId % 0x1_0000_0000_0000;
    var payload := Join(m.reports);
    var k, n := KindByte(m.kind), |m.reports|;
    var b := Body(k, m.flags, n, Le48(id), reserved, m.bootId, m.sequence, payload);
    BodyIff(b, k, m.flags, n, Le48(id), reserved, m.bootId, m.sequence, payload);
    var x := WithReserved(m, reserved);
    SealRoundTrip(b);
    HeaderCarries(b, x, k, m.flags, n, Le48(id), reserved, m.bootId, m.sequence, 64 * n);
    DecodeOfHeader(x, m.kind, m.flags, n, id, reserved, m.bootId, m.sequence);
    SplitOfJoin(m.reports);
    assert x[28..28 + 64 * n] == b[28..];
    DecodersAgree(x);
  }

  /** Decoding what was encoded restores the message exactly when its id fits the six bytes of the wire. */
  lemma DecodeOfEncode(m: Message)
    requires Encodable(m)
    ensures Decode(Encode(m)) == Success(m.(gatewayId := m.gatewayId % 0x1_0000_0000_0000))
    ensures Decode(Encode(m)) == Success(m) <==> m.gatewayId < 0x1_0000_0000_0000
  {
    hide Body, Seal, Decode, CDecode;
    ReservedIgnored(m, [0, 0]);
  }

  lemma DecodeOfHeader(x: seq<u8>, kind: GatewayKind, flags: u8, n: nat, id: u48, reserved: seq<u8>,
                       bootId: u32, sequence: u32)
    requires n <= 8 && |x| == 28 + 64 * n + 4 && Sealed(x) && (kind == ReportBatch || n == 0)
    requires HasHeader(x, KindByte(kind), flags, n, Le48(id), reserved, bootId, sequence, 64 * n)
    ensures Decode(x) == Success(Message(kind, flags, id, bootId, sequence, Split(x[28..28 + 64 * n])))
  {
    hide Crc, ReadWord, ReadLe16, ReadLe32, ReadLe48;
    HeaderReads(x, KindByte(kind), flags, n, id, reserved, bootId, sequence, 64 * n);
  }

  /** Re-encoding what was decoded restores the datagram exactly when its reserved bytes were zero. */
  lemma EncodeOfDecode(x: seq<u8>)
    requires Decode(x).Success?
    ensures Encodable(Decode(x).value)
    ensures Encode(Decode(x).value) == x <==> x[14..16] == [0, 0]
  {
    hide Crc, ReadWord, ReadLe16, ReadLe32, ReadLe48, Body, HasHeader, Seal, Split, Join, Le48, Sealed;
    var m := Decode(x).value;
    var n := ReadLe16(x, 24);
    var b := x[..|x| - 4];
    DecodedIsSealed(x);
    JoinOfSplit(x[28..28 + n]);
    HeaderOfReads(x);
    HeaderCarries(x, b, x[5], x[6], x[7], x[8..14], x[14..16], m.bootId, m.sequence, n);
    SameHeader(b, x, m, n);
    SealedIsSeal(x, Body(x[5], x[6], x[7], x[8..14], [0, 0], m.bootId, m.sequence, Join(m.reports)));
  }

  lemma SameHeader(b: seq<u8>, x: seq<u8>, m: Message, n: u16)
    requires |x| >= 32 && b == x[..|x| - 4] && |Join(m.reports)| == n <= 512 && b[28..] == Join(m.reports)
    requires HasHeader(b, x[5], x[6], x[7], x[8..14], x[14..16], m.bootId, m.sequence, n)
    ensures b == Body(x[5], x[6], x[7], x[8..14], [0, 0], m.bootId, m.sequence, Join(m.reports))
       <==> x[14..16] == [0, 0]
  {
    hide Body;
    BodyIff(b, x[5], x[6], x[7], x[8..14], [0, 0], m.bootId, m.sequence, Join(m.reports));
  }

  // The byte of a kind on the wire.
  predicate KindIs(k: GatewayKind, b: u8) {
    match k
    case Discover => b == 1
    case Offer => b == 2
    case Hello => b == 3
    case Ack => b == 4
    case ReportBatch => b == 5
  }

  /** The bytes of a datagram one by one, whichever of the two encoders made it. */
  lemma WireForm(m: Message)
    requires Encodable(m)
    ensures
      var x, n := Encode(m), |m.reports|;
      && |x| == 32 + 64 * n && KindIs(m.kind, x[5])
      && HeaderBytes(x, x[5], m.flags, n, m.gatewayId % 0x1_0000_0000_0000, m.bootId, m.sequence, 64 * n)
      && (forall k :: 0 <= k < n ==> x[28 + 64 * k..28 + 64 * k + 64] == m.reports[k])
      && x[28 + 64 * n..] == Word(Crc(x[..28 + 64 * n]))
  {
    var n, id, p := |m.reports|, m.gatewayId % 0x1_0000_0000_0000, Join(m.reports);
    var b := Body(KindByte(m.kind), m.flags, n, Le48(id), [0, 0], m.bootId, m.sequence, p);
    hide Crc, Body, HasHeader, HeaderBytes, Join;
    BodyIff(b, KindByte(m.kind), m.flags, n, Le48(id), [0, 0], m.bootId, m.sequence, p);
    HeaderCarries(b, Encode(m), KindByte(m.kind), m.flags, n, Le48(id), [0, 0], m.bootId, m.sequence, 64 * n);
    HeaderInBytes(Encode(m), KindByte(m.kind), m.flags, n, id, m.bootId, m.sequence, 64 * n);
    assert HeaderBytes(Encode(m), KindByte(m.kind), m.flags, n, id, m.bootId, m.sequence, 64 * n);
    forall k | 0 <= k < n ensures Encode(m)[28 + 64 * k..28 + 64 * k + 64] == m.reports[k] {
      JoinedAt(m.reports, k);
      assert Encode(m)[28 + 64 * k..28 + 64 * k + 64] == b[28..][64 * k..64 * k + 64];
    }
    KindOnWire(Encode(m), m.kind, m.flags, n, id, m.bootId, m.sequence, 64 * n);
  }

  lemma KindOnWire(x: seq<u8>, k: GatewayKind, flags: u8, count: u8, id: u48, bootId: u32, sequence: u32, length: u16)
    requires |x| >= 28 && HeaderBytes(x, KindByte(k), flags, count, id, bootId, sequence, length)
    ensures x[5] == KindByte(k) && KindIs(k, x[5])
  {
  }

  lemma {:induction false} JoinedAt(reports: seq<Report>, k: nat)
    requires k < |reports|
    ensures Join(reports)[64 * k..64 * k + 64] == reports[k]
  {
    if k > 0 {
      JoinedAt(reports[1..], k - 1);
      assert Join(reports)[64 * k..64 * k + 64] == Join(reports[1..])[64 * (k - 1)..64 * (k - 1) + 64];
    }
  }

  lemma DecodedIsSealed(x: seq<u8>)
    ensures Decode(x).Success? ==> Sealed(x)
  {
  }

  /** A burst of up to four consecutive bytes, wherever it strikes, gets past neither decoder. */
  lemma BurstRejected(x: seq<u8>, y: seq<u8>, k: nat)
    requires BurstApart(x, y, k) && (CDecode(x).Some? || Decode(x).Success?)
    ensures CDecode(y).None? && Decode(y).Failure?
  {
    hide Crc, ReadWord;
    DecodersAgree(x);
    DecodersAgree(y);
    DecodedIsSealed(x);
    DecodedIsSealed(y);
    BurstDetected(x, y, k);
  }
}
