/**
 CRC-32/ISO-HDLC as both `sv_crc32_ieee` (protocol/bridge_protocol.c) and
 `crc32_ieee` (bridge/src/gateway.rs) compute it. The word operations here meet
 the hypotheses of module ShiftRegister, so a message that ends in its own
 checksum cannot be turned into another one by a burst of four bytes.
 */
module Crc32 {
  import opened Bytes
  import opened ShiftRegister

  function Xor(a: bv32, b: bv32): bv32 { a ^ b }

  // One turn of the inner loop: the polynomial is masked by the bit shifted out.
  function BitStep(c: bv32): bv32 {
    (c >> 1) ^ (0xedb8_8320 & (0 - (c & 1)))
  }

  function Bits(b: u8): bv32 { (b as bv8) as bv32 }

  function Low(w: bv32): bv32 { w & 0xff }

  function High(w: bv32): bv32 { w >> 8 }

  function Ladder(t: bv32, k: nat): bv32 {
    match k
    case 0 => t >> 8
    case 1 => (t >> 8) << 1
    case 2 => (t >> 8) << 2
    case 3 => (t >> 8) << 3
    case 4 => (t >> 8) << 4
    case 5 => (t >> 8) << 5
    case 6 => (t >> 8) << 6
    case 7 => (t >> 8) << 7
    case _ => (t >> 8) << 8
  }

  /** `read_le32` of a checksum field. */
  function ReadWord(s: seq<u8>): bv32 {
    if |s| != 4 then 0 else
    Bits(s[0]) | (Bits(s[1]) << 8) | (Bits(s[2]) << 16) | (Bits(s[3]) << 24)
  }

  /** `write_le32` of a checksum. */
  function Word(w: bv32): (s: seq<u8>)
    ensures |s| == 4
  {
    [LowByte(w), LowByte(High(w)), LowByte(High(High(w))), LowByte(High(High(High(w))))]
  }

  function LowByte(w: bv32): u8 { (Low(w) as bv8) as int }

  function Ieee(): Layout<bv32> {
    Layout(Xor, BitStep, Bits, Low, High, Ladder, ReadWord, 0, 8)
  }

  function Crc(data: seq<u8>): bv32 {
    Xor(Register(Ieee().Take, 0xffff_ffff, data), 0xffff_ffff)
  }

  /** The inner loop: `bits` masked shifts. */
  method ShiftBits(start: bv32, bits: nat) returns (crc: bv32)
    ensures crc == Iterate(BitStep, start, bits)
  {
    crc := start;
    for bit := 0 to bits
      invariant Iterate(BitStep, crc, bits - bit) == Iterate(BitStep, start, bits)
    {
      crc := BitStep(crc);
    }
  }

  method ShiftByte(start: bv32, b: u8) returns (crc: bv32)
    ensures crc == Ieee().Take(start, b)
  {
    crc := ShiftBits(Xor(start, Bits(b)), 8);
  }

  /** The outer loop, over the bytes. */
  method ComputeCrc(data: seq<u8>) returns (result: bv32)
    ensures result == Crc(data)
  {
    var crc: bv32 := 0xffff_ffff;
    for i := 0 to |data|
      invariant crc == Register(Ieee().Take, 0xffff_ffff, data[..i])
    {
      RegisterNext(Ieee().Take, 0xffff_ffff, data, i);
      crc := ShiftByte(crc, data[i]);
    }
    assert data[..|data|] == data;
    Complement(crc);
    result := !crc;
  }

  lemma Complement(c: bv32)
    ensures !c == c ^ 0xffff_ffff
  {
  }

  // ---- The word operations meet the hypotheses of module ShiftRegister ----

  lemma Masked(bit: bv32)
    ensures bit == 1 ==> 0xedb8_8320 & (0 - bit) == 0xedb8_8320
    ensures bit == 0 ==> 0xedb8_8320 & (0 - bit) == 0
  {
  }

  lemma LowBit(c: bv32)
    ensures c & 1 == 0 || c & 1 == 1
  {
  }

  lemma StepCases(c: bv32)
    ensures BitStep(c) == if c & 1 == 1 then (c >> 1) ^ 0xedb8_8320 else c >> 1
  {
    LowBit(c);
    Masked(c & 1);
    XorZero(c >> 1);
  }

  lemma Parity(a: bv32, b: bv32)
    ensures (a ^ b) & 1 == (a & 1) ^ (b & 1) && (a ^ b) >> 1 == (a >> 1) ^ (b >> 1)
    ensures a & 1 == 0 || a & 1 == 1
  {
  }

  lemma XorCancel(x: bv32, y: bv32, p: bv32)
    ensures (x ^ p) ^ (y ^ p) == x ^ y
  {
  }

  lemma XorSwap(x: bv32, y: bv32, p: bv32)
    ensures (x ^ p) ^ y == (x ^ y) ^ p == x ^ (y ^ p)
  {
  }

  lemma BitStepLinear(a: bv32, b: bv32)
    ensures BitStep(a ^ b) == BitStep(a) ^ BitStep(b)
  {
    StepCases(a);
    StepCases(b);
    StepCases(a ^ b);
    Parity(a, b);
    Parity(b, a);
    if a & 1 == 1 {
      if b & 1 == 1 { XorCancel(a >> 1, b >> 1, 0xedb8_8320); } else { XorSwap(a >> 1, b >> 1, 0xedb8_8320); }
    } else if b & 1 == 1 {
      XorSwap(a >> 1, b >> 1, 0xedb8_8320);
    }
  }

  lemma BitStepInjective(a: bv32, b: bv32)
    requires BitStep(a) == BitStep(b)
    ensures a == b
  {
  }

  lemma XorInjective(a: bv32, b: bv32, p: bv32)
    ensures a ^ p == b ^ p ==> a == b
    ensures p ^ a == p ^ b ==> a == b
  {
  }

  lemma BitsInjective(a: u8, b: u8)
    requires Bits(a) == Bits(b)
    ensures a == b
  {
    ByteRoundTrip(a);
    ByteRoundTrip(b);
    Widening(a as bv8, b as bv8);
  }

  lemma Widening(a: bv8, b: bv8)
    requires a as bv32 == b as bv32
    ensures a == b
  {
  }

  lemma ByteRoundTrip(n: u8)
    ensures (n as bv8) as int == n
  {
    var b := BitsOf(n);
  }

  lemma {:induction false} BitsOf(n: u8) returns (b: bv8)
    ensures b as int == n
  {
    b := 0;
    if n > 0 {
      b := BitsOf(n - 1);
      Successor(b);
      b := b + 1;
    }
  }

  lemma Successor(b: bv8)
    requires b != 255
    ensures (b + 1) as int == b as int + 1
  {
  }

  lemma Halved(t: bv32)
    ensures ((t >> 8) << 1) & 1 == 0 && ((t >> 8) << 1) >> 1 == t >> 8
    ensures ((t >> 8) << 2) & 1 == 0 && ((t >> 8) << 2) >> 1 == (t >> 8) << 1
    ensures ((t >> 8) << 3) & 1 == 0 && ((t >> 8) << 3) >> 1 == (t >> 8) << 2
    ensures ((t >> 8) << 4) & 1 == 0 && ((t >> 8) << 4) >> 1 == (t >> 8) << 3
    ensures ((t >> 8) << 5) & 1 == 0 && ((t >> 8) << 5) >> 1 == (t >> 8) << 4
    ensures ((t >> 8) << 6) & 1 == 0 && ((t >> 8) << 6) >> 1 == (t >> 8) << 5
    ensures ((t >> 8) << 7) & 1 == 0 && ((t >> 8) << 7) >> 1 == (t >> 8) << 6
    ensures ((t >> 8) << 8) & 1 == 0 && ((t >> 8) << 8) >> 1 == (t >> 8) << 7
  {
  }

  lemma StepDown(c: bv32, d: bv32)
    requires c & 1 == 0 && c >> 1 == d
    ensures BitStep(c) == d
  {
  }

  lemma SplitLow(c: bv32, t: bv32)
    ensures (c ^ (t & 0xff)) ^ ((t >> 8) << 8) == c ^ t
  {
  }

  lemma LadderStep(t: bv32, k: nat)
    requires 0 < k <= 8
    ensures BitStep(Ladder(t, k)) == Ladder(t, k - 1)
  {
    Halved(t);
    match k {
      case 1 => StepDown((t >> 8) << 1, t >> 8);
      case 2 => StepDown((t >> 8) << 2, (t >> 8) << 1);
      case 3 => StepDown((t >> 8) << 3, (t >> 8) << 2);
      case 4 => StepDown((t >> 8) << 4, (t >> 8) << 3);
      case 5 => StepDown((t >> 8) << 5, (t >> 8) << 4);
      case 6 => StepDown((t >> 8) << 6, (t >> 8) << 5);
      case 7 => StepDown((t >> 8) << 7, (t >> 8) << 6);
      case _ => StepDown((t >> 8) << 8, (t >> 8) << 7);
    }
  }

  lemma JoinParts(a: bv8, b: bv8, c: bv8, d: bv8)
    ensures
      var w := (a as bv32) | (b as bv32 << 8) | (c as bv32 << 16) | (d as bv32 << 24);
      && w & 0xff == a as bv32
      && (w >> 8) & 0xff == b as bv32
      && ((w >> 8) >> 8) & 0xff == c as bv32
      && (((w >> 8) >> 8) >> 8) & 0xff == d as bv32
      && (((w >> 8) >> 8) >> 8) >> 8 == 0
  {
  }

  lemma WordParts(s: seq<u8>)
    requires |s| == 4
    ensures
      var w := ReadWord(s);
      && Low(w) == Bits(s[0]) && Low(High(w)) == Bits(s[1])
      && Low(High(High(w))) == Bits(s[2]) && Low(High(High(High(w)))) == Bits(s[3])
      && High(High(High(High(w)))) == 0
  {
    JoinParts(s[0] as bv8, s[1] as bv8, s[2] as bv8, s[3] as bv8);
  }

  lemma IeeeJoins()
    ensures Ieee().Joins()
  {
    forall s {:trigger ReadWord(s)} | |s| == 4
      ensures
        var w := ReadWord(s);
        && Low(w) == Bits(s[0]) && Low(High(w)) == Bits(s[1])
        && Low(High(High(w))) == Bits(s[2]) && Low(High(High(High(w)))) == Bits(s[3])
        && High(High(High(High(w)))) == 0
    {
      WordParts(s);
    }
    forall c: bv32 ensures Xor(c, 0) == c {
      XorZero(c);
    }
  }

  lemma XorZero(c: bv32)
    ensures c ^ 0 == c
  {
  }

  lemma IeeeMovesDown()
    ensures Ieee().MovesDown()
  {
    forall c, t ensures Xor(c, t) == Xor(Xor(c, Low(t)), Ladder(t, 8)) {
      SplitLow(c, t);
    }
    forall t, k: nat | 0 < k <= 8 ensures BitStep(Ladder(t, k)) == Ladder(t, k - 1) {
      LadderStep(t, k);
    }
  }

  lemma IeeeCancels()
    ensures Ieee().Cancels()
  {
    forall a, b, c ensures (Xor(a, b) == Xor(a, c) ==> b == c) && (Xor(b, a) == Xor(c, a) ==> b == c) {
      XorInjective(b, c, a);
    }
  }

  lemma IeeeSound()
    ensures Ieee().Sound()
  {
    IeeeJoins();
    IeeeMovesDown();
    IeeeCancels();
    forall a, b ensures BitStep(Xor(a, b)) == Xor(BitStep(a), BitStep(b)) {
      BitStepLinear(a, b);
    }
    forall a, b | BitStep(a) == BitStep(b) ensures a == b {
      BitStepInjective(a, b);
    }
    forall a, b | Bits(a) == Bits(b) ensures a == b {
      BitsInjective(a, b);
    }
  }

  // ---- What the checksum promises ----

  /** The message ends in the checksum of what stands before it. */
  predicate Sealed(x: seq<u8>) {
    |x| >= 4 && ReadWord(x[|x| - 4..]) == Crc(x[..|x| - 4])
  }

  /** Appending the checksum, as every encoder does last. */
  function Seal(body: seq<u8>): (x: seq<u8>)
    ensures |x| == |body| + 4
  {
    body + Word(Crc(body))
  }

  lemma SealRoundTrip(body: seq<u8>)
    ensures Sealed(Seal(body)) && Seal(body)[..|body|] == body
  {
    var x := Seal(body);
    assert x[|body|..] == Word(Crc(body)) && x[..|body|] == body;
    WordRoundTrip(Crc(body));
  }

  /** A sealed message is its own body, sealed; no other body seals to it. */
  lemma SealedIsSeal(x: seq<u8>, body: seq<u8>)
    requires Sealed(x)
    ensures Seal(body) == x <==> body == x[..|x| - 4]
  {
    ReadRoundTrip(x[|x| - 4..]);
    assert x == x[..|x| - 4] + x[|x| - 4..];
    assert Seal(body)[..|body|] == body;
  }

  lemma XorTwice(c: bv32, f: bv32)
    ensures c ^ (c ^ f) == f && c ^ f == f ^ c
  {
  }

  /** Whatever four consecutive bytes are hit, header, payload or checksum, it shows. */
  lemma BurstDetected(x: seq<u8>, y: seq<u8>, k: nat)
    requires Sealed(x) && BurstApart(x, y, k)
    ensures !Sealed(y)
  {
    IeeeSound();
    SealsSealed(x);
    SealsSealed(y);
    BurstBreaksSeal(Ieee(), 0xffff_ffff, x, y, k);
  }

  lemma SealsSealed(x: seq<u8>)
    requires |x| >= 4
    ensures Seals(Ieee(), 0xffff_ffff, x) <==> Sealed(x)
  {
    ComplementsEither(Register(Ieee().Take, 0xffff_ffff, x[..|x| - 4]), ReadWord(x[|x| - 4..]), 0xffff_ffff);
  }

  lemma ComplementsEither(c: bv32, w: bv32, f: bv32)
    ensures Xor(c, w) == f <==> w == Xor(c, f)
  {
    XorTwice(c, f);
    XorInjective(w, Xor(c, f), c);
  }

  lemma WordRoundTrip(w: bv32)
    ensures ReadWord(Word(w)) == w
  {
    var s := Word(w);
    LowByteBits(w);
    LowByteBits(High(w));
    LowByteBits(High(High(w)));
    LowByteBits(High(High(High(w))));
    Rejoin(w);
  }

  lemma LowByteBits(w: bv32)
    ensures Bits(LowByte(w)) == Low(w)
  {
    ByteAsInt(Low(w) as bv8);
    NarrowWide(w);
  }

  lemma ByteAsInt(b: bv8)
    ensures (b as int) as bv8 == b
  {
  }

  lemma NarrowWide(w: bv32)
    ensures ((w & 0xff) as bv8) as bv32 == w & 0xff
  {
  }

  lemma Rejoin(w: bv32)
    ensures (w & 0xff) | (((w >> 8) & 0xff) << 8) | ((((w >> 8) >> 8) & 0xff) << 16)
      | (((((w >> 8) >> 8) >> 8) & 0xff) << 24) == w
  {
  }

  lemma ReadRoundTrip(s: seq<u8>)
    requires |s| == 4
    ensures Word(ReadWord(s)) == s
  {
    WordParts(s);
    var w := ReadWord(s);
    SameLowByte(w, s[0]);
    SameLowByte(High(w), s[1]);
    SameLowByte(High(High(w)), s[2]);
    SameLowByte(High(High(High(w))), s[3]);
  }

  lemma SameLowByte(w: bv32, b: u8)
    requires Low(w) == Bits(b)
    ensures LowByte(w) == b
  {
    BitsLowByte(b);
  }

  lemma BitsLowByte(b: u8)
    ensures (Bits(b) as bv8) as int == b
  {
    ByteRoundTrip(b);
    Narrowing(b as bv8);
  }

  lemma Narrowing(b: bv8)
    ensures (b as bv32) as bv8 == b
  {
  }
}
