/**
 SmolReportV1 on the bridge's side (bridge/src/report.rs).
 */
module Reports {
  import opened Bytes

  const META_SEQUENCE_VALID: u8 := 1
  const META_RF_V2: u8 := 2
  const META_CRC_VALID: u8 := 4

  type RecordData = s: seq<u8> | |s| == 16 witness seq(16, _ => 0)

  datatype RecordMetadata = RecordMetadata(sequence: u8, rssi: u8, flags: u8) {
    predicate SequenceValid() { flags % 2 == 1 }
    predicate RfV2() { flags / 2 % 2 == 1 }
    predicate CrcValid() { flags / 4 % 2 == 1 }
  }

  datatype ReportRecord = ReportRecord(data: RecordData, metadata: Option<RecordMetadata>)

  datatype DecodeError = UnalignedLength(length: nat) | InvalidMetadataCount(count: u8)

  type Decoded = Result<seq<ReportRecord>, DecodeError>

  predicate HasMetadataSignature(d: RecordData) {
    d[0] == 250 && d[1] == 255 && d[2] == 0xd6 && d[3] == 1 && d[15] == 0x6d
  }

  function WithMetadata(c: seq<u8>, slot: nat): ReportRecord
    requires |c| == 64 && slot < 3
  {
    var m := 53 + slot * 3;
    ReportRecord(c[16 * slot..16 * slot + 16], Some(RecordMetadata(c[m], c[m + 1], c[m + 2])))
  }

  function Bare(d: RecordData): ReportRecord {
    ReportRecord(d, None)
  }

  // One 64-byte report: three records with metadata, or four without.
  function DecodeReport(c: seq<u8>): Decoded
    requires |c| == 64
  {
    if HasMetadataSignature(c[48..]) then
      if c[52] > 3 then Failure(InvalidMetadataCount(c[52]))
      else Success([WithMetadata(c, 0), WithMetadata(c, 1), WithMetadata(c, 2)])
    else Success([Bare(c[..16]), Bare(c[16..32]), Bare(c[32..48]), Bare(c[48..])])
  }

  // Whole reports first, then single records.
  function DecodeAligned(x: seq<u8>): Decoded
    requires |x| % 16 == 0
    decreases |x|
  {
    if |x| >= 64 then
      match DecodeReport(x[..64])
      case Failure(e) => Failure(e)
      case Success(first) => Then(first, DecodeAligned(x[64..]))
    else if |x| >= 16 then Then([Bare(x[..16])], DecodeAligned(x[16..]))
    else Success([])
  }

  function Then(first: seq<ReportRecord>, rest: Decoded): Decoded {
    match rest
    case Failure(e) => Failure(e)
    case Success(more) => Success(first + more)
  }

  function DecodeReports(x: seq<u8>): Decoded {
    if |x| % 16 != 0 then Failure(UnalignedLength(|x|)) else DecodeAligned(x)
  }

  lemma ThenThen(a: seq<ReportRecord>, b: seq<ReportRecord>, rest: Decoded)
    ensures Then(a, Then(b, rest)) == Then(a + b, rest)
  {
    if rest.Success? {
      assert a + (b + rest.value) == a + b + rest.value;
    }
  }

  lemma DecodeStep(x: seq<u8>, offset: nat, records: seq<ReportRecord>)
    requires offset <= |x| && |x| % 16 == 0 && offset % 16 == 0
    ensures |x| - offset >= 64 ==>
      Then(records, DecodeAligned(x[offset..])) ==
      match DecodeReport(x[offset..offset + 64])
      case Failure(e) => Failure(e)
      case Success(first) => Then(records + first, DecodeAligned(x[offset + 64..]))
    ensures 16 <= |x| - offset < 64 ==>
      Then(records, DecodeAligned(x[offset..])) ==
      Then(records + [Bare(x[offset..offset + 16])], DecodeAligned(x[offset + 16..]))
  {
    var rest := x[offset..];
    if |rest| >= 64 {
      assert rest[..64] == x[offset..offset + 64] && rest[64..] == x[offset + 64..];
      if DecodeReport(rest[..64]).Success? {
        ThenThen(records, DecodeReport(rest[..64]).value, DecodeAligned(rest[64..]));
      }
    } else if |rest| >= 16 {
      assert rest[..16] == x[offset..offset + 16] && rest[16..] == x[offset + 16..];
      ThenThen(records, [Bare(rest[..16])], DecodeAligned(rest[16..]));
    }
  }

  /** `decode_reports`, with its two loops over a moving offset. */
  method DecodeReportsLoop(input: seq<u8>) returns (r: Decoded)
    ensures r == DecodeReports(input)
  {
    hide DecodeAligned;
    if |input| % 16 != 0 {
      return Failure(UnalignedLength(|input|));
    }
    var records: seq<ReportRecord> := [];
    var offset := 0;
    assert input[0..] == input;
    NothingYet(DecodeAligned(input));
    while offset + 64 <= |input|
      invariant offset <= |input| && offset % 16 == 0
      invariant DecodeAligned(input) == Then(records, DecodeAligned(input[offset..]))
    {
      DecodeStep(input, offset, records);
      hide Then, WithMetadata, Bare, HasMetadataSignature;
      var c := input[offset..offset + 64];
      if HasMetadataSignature(c[48..]) {
        var count := c[52];
        if count > 3 {
          return Failure(InvalidMetadataCount(count));
        }
        records := records + [WithMetadata(c, 0), WithMetadata(c, 1), WithMetadata(c, 2)];
      } else {
        records := records + [Bare(c[..16]), Bare(c[16..32]), Bare(c[32..48]), Bare(c[48..])];
      }
      offset := offset + 64;
    }
    while offset + 16 <= |input|
      invariant offset <= |input| && offset % 16 == 0 && |input| - offset < 64
      invariant DecodeAligned(input) == Then(records, DecodeAligned(input[offset..]))
    {
      DecodeStep(input, offset, records);
      records := records + [Bare(input[offset..offset + 16])];
      offset := offset + 16;
    }
    assert input[offset..] == [];
    NothingLeft(records);
    r := Success(records);
  }

  lemma NothingYet(rest: Decoded)
    ensures Then([], rest) == rest
  {
    if rest.Success? {
      assert [] + rest.value == rest.value;
    }
  }

  lemma NothingLeft(records: seq<ReportRecord>)
    ensures Then(records, DecodeAligned([])) == Success(records)
  {
    assert records + [] == records;
  }

  // ---- Where the records of a report stand ----

  // The trailer of a report, as PROTOCOL.md gives it: `FA FF D6 01`, a count, the metadata, `6D`.
  predicate Trailed(x: seq<u8>, at: nat)
    requires at + 64 <= |x|
  {
    x[at + 48] == 0xfa && x[at + 49] == 0xff && x[at + 50] == 0xd6 && x[at + 51] == 0x01 && x[at + 63] == 0x6d
  }

  lemma TrailedIsSignature(x: seq<u8>, at: nat)
    requires at + 64 <= |x|
    ensures Trailed(x, at) <==> HasMetadataSignature(x[at..at + 64][48..])
    ensures x[at + 52] == x[at..at + 64][52]
  {
  }

  /** A report with a trailer holds three records, each with its three bytes of metadata, unless its count is over 3. */
  lemma TrailedReport(x: seq<u8>, s: nat)
    requires |x| == 64 && Trailed(x, 0) && s < 3
    ensures x[52] > 3 ==> DecodeReports(x) == Failure(InvalidMetadataCount(x[52]))
    ensures x[52] <= 3 ==>
      var r := DecodeReports(x);
      && r.Success? && |r.value| == 3 && r.value[s].data == x[16 * s..16 * s + 16]
      && r.value[s].metadata.Some? && r.value[s].metadata.value.sequence == x[53 + 3 * s]
      && r.value[s].metadata.value.rssi == x[54 + 3 * s] && r.value[s].metadata.value.flags == x[55 + 3 * s]
  {
    assert x[..64] == x && x[64..] == [] && x[0..64] == x;
    TrailedIsSignature(x, 0);
    if x[52] <= 3 {
      NothingLeft(DecodeReport(x).value);
    }
  }

  // What follows the records of some whole reports, if these decode.
  function Following(front: Decoded, rest: Decoded): Decoded {
    match front
    case Failure(e) => Failure(e)
    case Success(first) => Then(first, rest)
  }

  lemma FirstReport(x: seq<u8>)
    requires |x| % 16 == 0 && |x| >= 64
    ensures DecodeAligned(x) == Following(DecodeReport(x[..64]), DecodeAligned(x[64..]))
  {
    hide DecodeReport, Then;
  }

  lemma SliceFirst(a: seq<u8>, b: seq<u8>)
    requires |a| >= 64
    ensures (a + b)[..64] == a[..64] && (a + b)[64..] == a[64..] + b
  {
  }

  lemma FollowingThen(first: Decoded, middle: Decoded, rest: Decoded)
    ensures Following(first, Following(middle, rest)) == Following(Following(first, middle), rest)
  {
    if first.Success? && middle.Success? {
      ThenThen(first.value, middle.value, rest);
    }
  }

  lemma NoneFirst(b: seq<u8>)
    requires |b| % 16 == 0
    ensures DecodeAligned([] + b) == Following(DecodeAligned([]), DecodeAligned(b))
  {
    assert [] + b == b;
    NothingYet(DecodeAligned(b));
  }

  lemma Aligned(m: nat, n: nat)
    requires m % 16 == 0 && n % 16 == 0
    ensures (m + n) % 16 == 0
  {
  }

  lemma OneFirst(a: seq<u8>, b: seq<u8>)
    requires |a| >= 64 && |a| % 16 == 0 && |b| % 16 == 0
    ensures |a[64..]| % 16 == 0 && (|a| + |b|) % 16 == 0 && (|a[64..]| + |b|) % 16 == 0
    ensures DecodeAligned(a) == Following(DecodeReport(a[..64]), DecodeAligned(a[64..]))
    ensures DecodeAligned(a + b) == Following(DecodeReport(a[..64]), DecodeAligned(a[64..] + b))
  {
    hide DecodeReport, DecodeAligned, Then, Following;
    Aligned(|a|, |b|);
    Aligned(|a| - 64, |b|);
    SliceFirst(a, b);
    FirstReport(a);
    FirstReport(a + b);
  }

  lemma WholeReports(n: nat, m: nat)
    requires m % 16 == 0
    ensures (64 * n) % 16 == 0 && (64 * n + m) % 16 == 0
  {
    assert 64 * n == 16 * (4 * n);
    Aligned(64 * n, m);
  }

  lemma {:induction false} AlignedFirst(a: seq<u8>, b: seq<u8>, n: nat)
    requires |a| == 64 * n && |b| % 16 == 0
    ensures |a| % 16 == 0 && (|a| + |b|) % 16 == 0
    ensures DecodeAligned(a + b) == Following(DecodeAligned(a), DecodeAligned(b))
    decreases n
  {
    hide DecodeReport, DecodeAligned, Then, Following;
    WholeReports(n, |b|);
    if n == 0 {
      NoneFirst(b);
    } else {
      OneFirst(a, b);
      AlignedFirst(a[64..], b, n - 1);
      FollowingThen(DecodeReport(a[..64]), DecodeAligned(a[64..]), DecodeAligned(b));
    }
  }

  /** The reports at the front decode on their own: their records come first, and their errors. */
  lemma ReportsFirst(a: seq<u8>, b: seq<u8>)
    requires |a| % 64 == 0
    ensures |b| % 16 != 0 ==> DecodeReports(a + b) == Failure(UnalignedLength(|a| + |b|))
    ensures |b| % 16 == 0 && DecodeReports(a).Failure? ==> DecodeReports(a + b) == DecodeReports(a)
    ensures DecodeReports(a).Success? && DecodeReports(b).Success? ==>
      DecodeReports(a + b) == Success(DecodeReports(a).value + DecodeReports(b).value)
    ensures |b| % 16 == 0 && DecodeReports(a).Success? && DecodeReports(b).Failure? ==>
      DecodeReports(a + b) == DecodeReports(b)
  {
    hide DecodeAligned;
    if |b| % 16 == 0 {
      AlignedFirst(a, b, |a| / 64);
    }
  }

  /** Without a trailer in any whole report, the k-th record is bytes 16k to 16k + 16, without metadata. */
  lemma {:induction false} BareRecords(x: seq<u8>)
    requires |x| % 16 == 0
    requires forall i :: 0 <= i < |x| / 64 ==> !Trailed(x, 64 * i)
    ensures
      var r := DecodeReports(x);
      && r.Success? && |r.value| == |x| / 16
      && forall k :: 0 <= k < |x| / 16 ==> r.value[k] == ReportRecord(x[16 * k..16 * k + 16], None)
    decreases |x|
  {
    if |x| >= 64 {
      BareTail(x);
      BareRecords(x[64..]);
      BareFront(x);
      var first, rest := DecodeReport(x[..64]).value, DecodeReports(x[64..]).value;
      forall k | 0 <= k < |x| / 16 ensures (first + rest)[k] == ReportRecord(x[16 * k..16 * k + 16], None) {
        if k >= 4 {
          assert x[64..][16 * (k - 4)..16 * (k - 4) + 16] == x[16 * k..16 * k + 16];
        }
      }
    } else if |x| >= 16 {
      BareRecords(x[16..]);
      var rest := DecodeReports(x[16..]).value;
      forall k | 0 <= k < |x| / 16
        ensures ([Bare(x[..16])] + rest)[k] == ReportRecord(x[16 * k..16 * k + 16], None)
      {
        if k >= 1 {
          assert x[16..][16 * (k - 1)..16 * (k - 1) + 16] == x[16 * k..16 * k + 16];
        }
      }
    }
  }

  lemma BareTail(x: seq<u8>)
    requires |x| >= 64 && forall i :: 0 <= i < |x| / 64 ==> !Trailed(x, 64 * i)
    ensures forall i :: 0 <= i < |x[64..]| / 64 ==> !Trailed(x[64..], 64 * i)
  {
    forall i | 0 <= i < |x[64..]| / 64 ensures !Trailed(x[64..], 64 * i) {
      assert !Trailed(x, 64 * (i + 1));
    }
  }

  lemma BareFront(x: seq<u8>)
    requires |x| >= 64 && !Trailed(x, 64 * 0)
    ensures
      var r := DecodeReport(x[..64]);
      && r.Success? && |r.value| == 4
      && forall k :: 0 <= k < 4 ==> r.value[k] == ReportRecord(x[16 * k..16 * k + 16], None)
  {
    TrailedIsSignature(x, 0);
    assert x[0..64] == x[..64];
    assert x[..64][..16] == x[0..16] && x[..64][16..32] == x[16..32];
    assert x[..64][32..48] == x[32..48] && x[..64][48..] == x[48..64];
  }

  /** The 48-bit address a registration record carries, unless it is zero. */
  function RegistrationAddress(d: RecordData): Option<u48> {
    if d[0] == 255 && ReadLe48(d, 2) != 0 then Some(ReadLe48(d, 2)) else None
  }

  function Weight(i: nat): nat {
    if i == 0 then 1 else 0x100 * Weight(i - 1)
  }

  function LowBytes(d: RecordData, n: nat): nat
    requires n <= 6
  {
    if n == 0 then 0 else LowBytes(d, n - 1) + Weight(n - 1) * (d[1 + n] as int)
  }

  /** `registration_address`, gathering the bytes one by one. */
  method ReadRegistration(d: RecordData) returns (r: Option<u48>)
    ensures r == RegistrationAddress(d)
  {
    if d[0] != 255 {
      return None;
    }
    var address, weight := 0, 1;
    for index := 0 to 6
      invariant address == LowBytes(d, index) && weight == Weight(index)
    {
      address := address + weight * (d[2 + index] as int);
      weight := 0x100 * weight;
    }
    LowBytesSum(d);
    r := if address != 0 then Some(address) else None;
  }

  lemma LowBytesSum(d: RecordData)
    ensures LowBytes(d, 6) == ReadLe48(d, 2)
  {
    var b := seq(6, i requires 0 <= i < 6 => d[2 + i] as int);
    assert LowBytes(d, 1) == b[0] && Weight(1) == 0x100;
    assert LowBytes(d, 2) == b[0] + 0x100 * b[1] && Weight(2) == 0x1_0000;
    assert LowBytes(d, 3) == LowBytes(d, 2) + 0x1_0000 * b[2] && Weight(3) == 0x100_0000;
    assert LowBytes(d, 4) == LowBytes(d, 3) + 0x100_0000 * b[3] && Weight(4) == 0x1_0000_0000;
    assert LowBytes(d, 5) == LowBytes(d, 4) + 0x1_0000_0000 * b[4] && Weight(5) == 0x100_0000_0000;
    assert LowBytes(d, 6) == LowBytes(d, 5) + 0x100_0000_0000 * b[5];
  }
}
