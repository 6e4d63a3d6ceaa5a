/**
 A byte-wise shift register over an arbitrary word type, and the two facts about
 it that make a checksum detect a burst. Nothing here knows about bits: module
 Crc32 supplies the word operations and proves the hypotheses.
 */
module ShiftRegister {
  import opened Bytes

  function Iterate<W>(f: W -> W, c: W, n: nat): W
    decreases n
  {
    if n == 0 then c else Iterate(f, f(c), n - 1)
  }

  // The register after `data`, started from `c`.
  function Register<W>(take: (W, u8) -> W, c: W, data: seq<u8>): W {
    if data == [] then c else
    take(Register(take, c, data[..|data| - 1]), data[|data| - 1])
  }

  ghost predicate Linear<W(!new)>(xor: (W, W) -> W, f: W -> W) {
    forall a, b :: f(xor(a, b)) == xor(f(a), f(b))
  }

  ghost predicate Injective<W(!new)>(f: W -> W) {
    forall a, b :: f(a) == f(b) ==> a == b
  }

  // Equal registers after an equal byte were equal before it.
  ghost predicate Reversible<W(!new)>(take: (W, u8) -> W) {
    forall a, b, v :: take(a, v) == take(b, v) ==> a == b
  }

  lemma {:induction false} IterateLinear<W(!new)>(xor: (W, W) -> W, f: W -> W, a: W, b: W, n: nat)
    requires Linear(xor, f)
    ensures Iterate(f, xor(a, b), n) == xor(Iterate(f, a, n), Iterate(f, b, n))
    decreases n
  {
    if n > 0 {
      IterateLinear(xor, f, f(a), f(b), n - 1);
    }
  }

  lemma {:induction false} IterateInjective<W(!new)>(f: W -> W, a: W, b: W, n: nat)
    requires Injective(f) && Iterate(f, a, n) == Iterate(f, b, n)
    ensures a == b
    decreases n
  {
    if n > 0 {
      IterateInjective(f, f(a), f(b), n - 1);
    }
  }

  lemma {:induction false} IterateSum<W>(f: W -> W, c: W, m: nat, n: nat)
    ensures Iterate(f, c, m + n) == Iterate(f, Iterate(f, c, m), n)
    decreases m
  {
    if m > 0 {
      IterateSum(f, f(c), m - 1, n);
    }
  }

  lemma IterateFour<W>(f: W -> W, s0: W, s1: W, s2: W, s3: W, s4: W, n: nat)
    requires Iterate(f, s0, n) == s1 && Iterate(f, s1, n) == s2
    requires Iterate(f, s2, n) == s3 && Iterate(f, s3, n) == s4
    ensures Iterate(f, s0, 4 * n) == s4
  {
    IterateSum(f, s0, n, 3 * n);
    IterateSum(f, s1, n, 2 * n);
    IterateSum(f, s2, n, n);
  }

  lemma {:induction false} RegisterConcat<W>(take: (W, u8) -> W, c: W, s: seq<u8>, t: seq<u8>)
    ensures Register(take, c, s + t) == Register(take, Register(take, c, s), t)
  {
    if t == [] {
      assert s + t == s;
    } else {
      assert (s + t)[..|s + t| - 1] == s + t[..|t| - 1];
      RegisterConcat(take, c, s, t[..|t| - 1]);
    }
  }

  lemma RegisterNext<W>(take: (W, u8) -> W, c: W, data: seq<u8>, i: nat)
    requires i < |data|
    ensures Register(take, c, data[..i + 1]) == take(Register(take, c, data[..i]), data[i])
  {
    assert data[..i + 1][..i] == data[..i];
  }

  lemma RegisterOfFour<W>(take: (W, u8) -> W, c: W, s: seq<u8>)
    requires |s| == 4
    ensures Register(take, c, s) == take(take(take(take(c, s[0]), s[1]), s[2]), s[3])
  {
    RegisterNext(take, c, s, 0);
    RegisterNext(take, c, s, 1);
    RegisterNext(take, c, s, 2);
    RegisterNext(take, c, s, 3);
    assert s[..4] == s && s[..0] == [];
  }

  /** Registers that differ stay different over equal bytes. */
  lemma {:induction false} StaysApart<W(!new)>(take: (W, u8) -> W, a: W, b: W, t: seq<u8>)
    requires Reversible(take) && a != b
    ensures Register(take, a, t) != Register(take, b, t)
  {
    if t != [] {
      StaysApart(take, a, b, t[..|t| - 1]);
    }
  }

  // `y` is `x` with something changed within the four bytes from `k`.
  ghost predicate BurstApart(x: seq<u8>, y: seq<u8>, k: nat) {
    |x| == |y| && k + 4 <= |x| && x[..k] == y[..k] && x[k + 4..] == y[k + 4..] && x != y
  }

  lemma BurstParts(x: seq<u8>, y: seq<u8>, k: nat)
    requires BurstApart(x, y, k)
    ensures x == x[..k] + x[k..k + 4] + x[k + 4..]
    ensures y == x[..k] + y[k..k + 4] + x[k + 4..]
    ensures x[k..k + 4] != y[k..k + 4]
  {
    assert y == y[..k] + y[k..k + 4] + y[k + 4..];
  }

  lemma InThree<W>(take: (W, u8) -> W, c: W, s: seq<u8>, u: seq<u8>, t: seq<u8>)
    ensures Register(take, c, s + u + t) == Register(take, Register(take, Register(take, c, s), u), t)
  {
    RegisterConcat(take, c, s + u, t);
    RegisterConcat(take, c, s, u);
  }

  // ---- Four bytes at once, as one word ----

  // How words are made of bytes: `low` and `high` take a word apart, `word` puts
  // four bytes together, `ladder(t, k)` is `high(t)` moved up by `k` bits.
  datatype Layout<!W(!new)> = Layout(
    xor: (W, W) -> W, step: W -> W, bits: u8 -> W,
    low: W -> W, high: W -> W, ladder: (W, nat) -> W, word: seq<u8> -> W,
    zero: W, turns: nat)
  {
    ghost predicate Cancels() {
      forall a, b, c :: (xor(a, b) == xor(a, c) ==> b == c) && (xor(b, a) == xor(c, a) ==> b == c)
    }

    // The part above the low byte only moves down during a byte's turns.
    ghost predicate MovesDown() {
      && (forall c, t {:trigger xor(xor(c, low(t)), ladder(t, turns))} :: xor(c, t) == xor(xor(c, low(t)), ladder(t, turns)))
      && (forall t :: ladder(t, 0) == high(t))
      && (forall t, k: nat {:trigger step(ladder(t, k))} | 0 < k <= turns :: step(ladder(t, k)) == ladder(t, k - 1))
    }

    ghost predicate Joins() {
      && (forall c :: xor(c, zero) == c)
      && (forall s {:trigger word(s)} | |s| == 4 ::
            var w := word(s);
            && low(w) == bits(s[0]) && low(high(w)) == bits(s[1])
            && low(high(high(w))) == bits(s[2]) && low(high(high(high(w)))) == bits(s[3])
            && high(high(high(high(w)))) == zero)
    }

    ghost predicate Sound() {
      Linear(xor, step) && Injective(step) && Cancels() && MovesDown() && Joins()
      && forall a, b :: bits(a) == bits(b) ==> a == b
    }

    function Take(c: W, b: u8): W {
      Iterate(step, xor(c, bits(b)), turns)
    }
  }

  lemma {:induction false} ClimbDown<W(!new)>(l: Layout<W>, t: W, k: nat)
    requires l.MovesDown() && k <= l.turns
    ensures Iterate(l.step, l.ladder(t, k), k) == l.high(t)
  {
    if k > 0 {
      ClimbDown(l, t, k - 1);
    }
  }

  // One byte's turns peel the low byte off a word.
  lemma PeelByte<W(!new)>(l: Layout<W>, c: W, t: W)
    requires l.Sound()
    ensures Iterate(l.step, l.xor(c, t), l.turns)
         == l.xor(Iterate(l.step, l.xor(c, l.low(t)), l.turns), l.high(t))
  {
    ClimbDown(l, t, l.turns);
    IterateLinear(l.xor, l.step, l.xor(c, l.low(t)), l.ladder(t, l.turns), l.turns);
  }

  /** Taking in four bytes is four bytes' turns on the word they form. */
  lemma TakeWord<W(!new)>(l: Layout<W>, c: W, s: seq<u8>)
    requires l.Sound() && |s| == 4
    ensures Register(l.Take, c, s) == Iterate(l.step, l.xor(c, l.word(s)), 4 * l.turns)
  {
    var t0 := l.word(s);
    var t1, t2, t3 := l.high(t0), l.high(l.high(t0)), l.high(l.high(l.high(t0)));
    var c1 := l.Take(c, s[0]);
    var c2 := l.Take(c1, s[1]);
    var c3 := l.Take(c2, s[2]);
    var c4 := l.Take(c3, s[3]);
    PeelByte(l, c, t0);
    PeelByte(l, c1, t1);
    PeelByte(l, c2, t2);
    PeelByte(l, c3, t3);
    IterateFour(l.step, l.xor(c, t0), l.xor(c1, t1), l.xor(c2, t2), l.xor(c3, t3), c4, l.turns);
    RegisterOfFour(l.Take, c, s);
  }

  lemma LayoutReversible<W(!new)>(l: Layout<W>)
    requires l.Sound()
    ensures Reversible(l.Take)
  {
    forall a, b, v | l.Take(a, v) == l.Take(b, v) ensures a == b {
      IterateInjective(l.step, l.xor(a, l.bits(v)), l.xor(b, l.bits(v)), l.turns);
    }
  }

  lemma WordInjective<W(!new)>(l: Layout<W>, s: seq<u8>, t: seq<u8>)
    requires l.Sound() && |s| == |t| == 4 && l.word(s) == l.word(t)
    ensures s == t
  {
    assert l.bits(s[0]) == l.bits(t[0]) && l.bits(s[1]) == l.bits(t[1]);
    assert l.bits(s[2]) == l.bits(t[2]) && l.bits(s[3]) == l.bits(t[3]);
  }

  lemma ResolvesWord<W(!new)>(l: Layout<W>, c: W, s: seq<u8>, t: seq<u8>)
    requires l.Sound() && |s| == |t| == 4
    requires Register(l.Take, c, s) == Register(l.Take, c, t)
    ensures s == t
  {
    hide Register, Iterate;
    TakeWord(l, c, s);
    TakeWord(l, c, t);
    IterateInjective(l.step, l.xor(c, l.word(s)), l.xor(c, l.word(t)), 4 * l.turns);
    WordInjective(l, s, t);
  }

  /** A burst changes the register, wherever it strikes. */
  lemma BurstChangesRegister<W(!new)>(l: Layout<W>, c: W, x: seq<u8>, y: seq<u8>, k: nat)
    requires l.Sound() && BurstApart(x, y, k)
    ensures Register(l.Take, c, x) != Register(l.Take, c, y)
  {
    var s, t := x[k..k + 4], y[k..k + 4];
    BurstParts(x, y, k);
    InThree(l.Take, c, x[..k], s, x[k + 4..]);
    InThree(l.Take, c, x[..k], t, x[k + 4..]);
    var mid := Register(l.Take, c, x[..k]);
    if Register(l.Take, mid, s) == Register(l.Take, mid, t) {
      ResolvesWord(l, mid, s, t);
    }
    LayoutReversible(l);
    StaysApart(l.Take, Register(l.Take, mid, s), Register(l.Take, mid, t), x[k + 4..]);
  }

  // ---- A message that ends in its own complemented checksum ----

  // The last four bytes, as a word, complement the register of the rest.
  ghost predicate Seals<W(!new)>(l: Layout<W>, ones: W, x: seq<u8>) {
    |x| >= 4 && l.xor(Register(l.Take, ones, x[..|x| - 4]), l.word(x[|x| - 4..])) == ones
  }

  /** Being sealed is having one particular register after the whole message. */
  lemma SealedIffResidue<W(!new)>(l: Layout<W>, ones: W, x: seq<u8>)
    requires l.Sound() && |x| >= 4
    ensures Seals(l, ones, x) <==> Register(l.Take, ones, x) == Iterate(l.step, ones, 4 * l.turns)
  {
    var body, tail := x[..|x| - 4], x[|x| - 4..];
    assert x == body + tail;
    RegisterConcat(l.Take, ones, body, tail);
    var c := Register(l.Take, ones, body);
    TakeWord(l, c, tail);
    if Register(l.Take, ones, x) == Iterate(l.step, ones, 4 * l.turns) {
      IterateInjective(l.step, l.xor(c, l.word(tail)), ones, 4 * l.turns);
    }
  }

  /** No burst of four bytes turns a sealed message into another sealed message. */
  lemma BurstBreaksSeal<W(!new)>(l: Layout<W>, ones: W, x: seq<u8>, y: seq<u8>, k: nat)
    requires l.Sound() && BurstApart(x, y, k) && Seals(l, ones, x)
    ensures !Seals(l, ones, y)
  {
    BurstChangesRegister(l, ones, x, y, k);
    SealedIffResidue(l, ones, x);
    SealedIffResidue(l, ones, y);
  }
}
