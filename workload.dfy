/**
 * The measured workload `dummyop`: a fixed number of rounds of unsigned
 * 32-bit arithmetic whose accumulator is masked with 0x7f0f0000 on every
 * round, and the mod-2^32 accumulation of its results into `tmp`.
 */
module Workload {

  const TWO32: int := 0x1_0000_0000

  /** A C `unsigned int`. */
  type Uint32 = x: int | 0 <= x < TWO32

  /** The mask applied to the accumulator on every round. */
  const MASK: Uint32 := 0x7f0f_0000

  /**
   * `x & 0x7f0f0000`. The mask keeps bits 16 to 19 (the four bits of
   * x / 2^16 % 2^4) and bits 24 to 30 (the seven bits of x / 2^24 % 2^7)
   * and clears every other bit.
   */
  function MaskBits(x: Uint32): Uint32
  {
    (x / 0x1_0000 % 0x10) * 0x1_0000 + (x / 0x100_0000 % 0x80) * 0x100_0000
  }

  /**
   * A masked value is at most the mask and has no bit outside it: masking it
   * again leaves it unchanged.
   */
  lemma MaskBitsBounded(x: Uint32)
    ensures 0 <= MaskBits(x) <= MASK
    ensures MaskBits(MaskBits(x)) == MaskBits(x)
  {
    MaskFields(x / 0x1_0000 % 0x10, x / 0x100_0000 % 0x80);
  }

  /** Reading the two kept fields back out of a value built from them. */
  lemma MaskFields(lo: int, hi: int)
    requires 0 <= lo < 0x10 && 0 <= hi < 0x80
    ensures (lo * 0x1_0000 + hi * 0x100_0000) / 0x1_0000 % 0x10 == lo
    ensures (lo * 0x1_0000 + hi * 0x100_0000) / 0x100_0000 % 0x80 == hi
  {
    var m := lo * 0x1_0000 + hi * 0x100_0000;
    assert m / 0x1_0000 == lo + hi * 0x100;
    assert (lo + hi * 0x100) % 0x10 == lo;
    assert m / 0x100_0000 == hi;
  }

  /** One round of the loop body: `a += (3*i + k); a &= 0x7f0f0000;`. */
  function Round(k: Uint32, i: Uint32, a: Uint32): Uint32
  {
    MaskBits((a + (3 * i + k) % TWO32) % TWO32)
  }

  /** The accumulator after the first n rounds of `dummyop(k, startval)`. */
  function Rounds(k: Uint32, n: nat, startval: Uint32): Uint32
    requires n <= k
  {
    if n == 0 then startval else Round(k, n - 1, Rounds(k, n - 1, startval))
  }

  /** The value `dummyop(loops, startval)` computes: all `loops` rounds. */
  function Value(loops: Uint32, startval: Uint32): Uint32
  {
    Rounds(loops, loops, startval)
  }

  /**
   * `dummyop`: runs the rounds in a loop. With no rounds the start value comes
   * back unchanged; otherwise the result is a masked value, at most 0x7f0f0000.
   */
  method DummyOp(loops: Uint32, startval: Uint32) returns (r: Uint32)
    ensures r == Value(loops, startval)
    ensures loops == 0 ==> r == startval
    ensures loops > 0 ==> r <= MASK && MaskBits(r) == r
  {
    var a := startval;
    var k := loops;
    var i: Uint32 := 0;
    while i < k
      invariant i <= k
      invariant a == Rounds(k, i, startval)
    {
      a := (a + (3 * i + k) % TWO32) % TWO32;
      a := MaskBits(a);
      i := i + 1;
    }
    r := a;
    if loops > 0 {
      ValueMasked(loops, startval);
    }
  }

  /**
   * The conversion of the `unsigned` accumulator to the `int` that `dummyop`
   * returns, on a two's-complement target.
   */
  function AsInt(x: Uint32): int
  {
    if x < 0x8000_0000 then x else x - TWO32
  }

  /**
   * With at least one round, the result has no bit outside the mask, so it
   * is at most 0x7f0f0000 and comes back from `dummyop` as a non-negative
   * `int` equal to the accumulator.
   */
  lemma {:induction false} ValueMasked(loops: Uint32, startval: Uint32)
    requires loops > 0
    ensures MaskBits(Value(loops, startval)) == Value(loops, startval)
    ensures Value(loops, startval) <= MASK
    ensures 0 <= AsInt(Value(loops, startval)) == Value(loops, startval)
  {
    var k := loops;
    MaskBitsBounded((Rounds(k, k - 1, startval) + (3 * (k - 1) + k) % TWO32) % TWO32);
  }

  /** With no rounds, `dummyop` returns its start value. */
  lemma ValueNoRounds(startval: Uint32)
    ensures Value(0, startval) == startval
  {
  }

  /** `tmp += x` on an `unsigned int`: wraps around modulo 2^32. */
  function Add32(a: Uint32, b: Uint32): Uint32
  {
    (a + b) % TWO32
  }

  /** `tmp` after adding w to an initially zero `tmp` n times. */
  function Repeat(w: Uint32, n: nat): Uint32
  {
    if n == 0 then 0 else Add32(Repeat(w, n - 1), w)
  }

  /** Adding w n times with wrap-around is multiplying by n modulo 2^32. */
  lemma {:induction false} RepeatIsProduct(w: Uint32, n: nat)
    ensures Repeat(w, n) == (n * w) % TWO32
  {
    if n > 0 {
      RepeatIsProduct(w, n - 1);
      var p := (n - 1) * w;
      assert n * w == p + w;
      ModShift(p / TWO32, p % TWO32 + w);
      assert p == (p / TWO32) * TWO32 + p % TWO32;
    }
  }

  /** Adding a multiple of 2^32 does not change a value modulo 2^32. */
  lemma ModShift(q: nat, x: nat)
    ensures (q * TWO32 + x) % TWO32 == x % TWO32
  {
    var r, d := x % TWO32, x / TWO32;
    assert x == d * TWO32 + r;
    assert q * TWO32 + x == (q + d) * TWO32 + r;
  }
}
