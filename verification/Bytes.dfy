/**
 The integer widths of the firmware and of the bridge, and the little-endian
 field layout every wire format here uses (protocol/PROTOCOL.md).
 Bytes and fields are integers with their C range, so that wrap-around is
 written out where the code relies on it.
 */
module Bytes {

  type u8 = x: int | 0 <= x < 0x100
  type u16 = x: int | 0 <= x < 0x1_0000
  type u32 = x: int | 0 <= x < 0x1_0000_0000
  type u48 = x: int | 0 <= x < 0x1_0000_0000_0000

  type u64 = x: int | 0 <= x < 0x1_0000_0000_0000_0000

  datatype Option<+T> = None | Some(value: T)

  datatype Result<+T, +E> = Success(value: T) | Failure(error: E)

  function Le16(v: u16): (s: seq<u8>)
    ensures |s| == 2
  {
    [v % 0x100, v / 0x100]
  }

  function Le32(v: u32): (s: seq<u8>)
    ensures |s| == 4
  {
    Le16(v % 0x1_0000) + Le16(v / 0x1_0000)
  }

  function Le48(v: u48): (s: seq<u8>)
    ensures |s| == 6
  {
    Le32(v % 0x1_0000_0000) + Le16(v / 0x1_0000_0000)
  }

  function ReadLe16(s: seq<u8>, at: nat): u16
    requires at + 2 <= |s|
  {
    (s[at] as int) + 0x100 * (s[at + 1] as int)
  }

  function ReadLe32(s: seq<u8>, at: nat): u32
    requires at + 4 <= |s|
  {
    (ReadLe16(s, at) as int) + 0x1_0000 * (ReadLe16(s, at + 2) as int)
  }

  function ReadLe48(s: seq<u8>, at: nat): u48
    requires at + 6 <= |s|
  {
    (ReadLe32(s, at) as int) + 0x1_0000_0000 * (ReadLe16(s, at + 4) as int)
  }

  /** Zero fill, as the `memset` before every encoder. */
  function Zeros(n: nat): (s: seq<u8>)
    ensures |s| == n && forall i :: 0 <= i < n ==> s[i] == 0
  {
    seq(n, _ => 0)
  }

  /** `memcpy` into a buffer. */
  method Put(output: array<u8>, at: nat, data: seq<u8>)
    requires at + |data| <= output.Length
    modifies output
    ensures forall i :: 0 <= i < output.Length ==>
      output[i] == if at <= i < at + |data| then data[i - at] else old(output[i])
  {
    forall i | 0 <= i < |data| { output[at + i] := data[i]; }
  }

  lemma SliceSplit<T>(s: seq<T>, a: nat, b: nat, c: nat)
    requires a <= b <= c <= |s|
    ensures s[a..c] == s[a..b] + s[b..c]
  {
  }

  /** Reading undoes writing, wherever the field stands. */
  lemma ReadOfWritten(s: seq<u8>, at: nat)
    ensures forall v: u16 :: at + 2 <= |s| && s[at..at + 2] == Le16(v) ==> ReadLe16(s, at) == v
    ensures forall v: u32 :: at + 4 <= |s| && s[at..at + 4] == Le32(v) ==> ReadLe32(s, at) == v
    ensures forall v: u48 :: at + 6 <= |s| && s[at..at + 6] == Le48(v) ==> ReadLe48(s, at) == v
  {
    forall v: u16 | at + 2 <= |s| && s[at..at + 2] == Le16(v) ensures ReadLe16(s, at) == v {
      assert s[at] == s[at..at + 2][0] && s[at + 1] == s[at..at + 2][1];
    }
    forall v: u32 | at + 4 <= |s| && s[at..at + 4] == Le32(v) ensures ReadLe32(s, at) == v {
      ReadOfWritten32(s, at, v);
    }
    forall v: u48 | at + 6 <= |s| && s[at..at + 6] == Le48(v) ensures ReadLe48(s, at) == v {
      assert s[at..at + 4] == s[at..at + 6][..4];
      ReadOfWritten32(s, at, v % 0x1_0000_0000);
      assert s[at + 4] == s[at..at + 6][4] && s[at + 5] == s[at..at + 6][5];
    }
  }

  lemma ReadOfWritten32(s: seq<u8>, at: nat, v: u32)
    requires at + 4 <= |s| && s[at..at + 4] == Le32(v)
    ensures ReadLe32(s, at) == v
  {
    var w := s[at..at + 4];
    assert s[at] == w[0] && s[at + 1] == w[1] && s[at + 2] == w[2] && s[at + 3] == w[3];
  }

  /** Writing what was read restores the bytes. */
  lemma WrittenOfRead16(s: seq<u8>, at: nat)
    requires at + 2 <= |s|
    ensures Le16(ReadLe16(s, at)) == s[at..at + 2]
  {
  }

  lemma WrittenOfRead32(s: seq<u8>, at: nat)
    requires at + 4 <= |s|
    ensures Le32(ReadLe32(s, at)) == s[at..at + 4]
  {
    var low, high := ReadLe16(s, at), ReadLe16(s, at + 2);
    SplitWord16(low, high);
    WrittenOfRead16(s, at);
    WrittenOfRead16(s, at + 2);
    assert Le16(low) + Le16(high) == s[at..at + 4];
  }

  lemma WrittenOfRead48(s: seq<u8>, at: nat)
    requires at + 6 <= |s|
    ensures Le48(ReadLe48(s, at)) == s[at..at + 6]
  {
    var low, high := ReadLe32(s, at), ReadLe16(s, at + 4);
    SplitWord32(low, high);
    WrittenOfRead32(s, at);
    WrittenOfRead16(s, at + 4);
    assert Le32(low) + Le16(high) == s[at..at + 6];
  }

  lemma SplitWord16(low: u16, high: u16)
    ensures (low + 0x1_0000 * high) % 0x1_0000 == low && (low + 0x1_0000 * high) / 0x1_0000 == high
  {
  }

  lemma SplitWord32(low: u32, high: u16)
    ensures (low + 0x1_0000_0000 * high) % 0x1_0000_0000 == low
    ensures (low + 0x1_0000_0000 * high) / 0x1_0000_0000 == high
  {
  }
}
