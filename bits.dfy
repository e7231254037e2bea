/**
 * Fixed-width unsigned integers and the C bit operations the command
 * encoders use, over mathematical integers.
 *
 * C's `unsigned int` arithmetic wraps modulo 2^32; `x << k` on such a value
 * drops the bits shifted past bit 31; `a | b` is a bitwise OR. Each is written
 * out here so that every encoder states its packing with the same operators
 * the C code uses, and the lemmas below say when `|` is plain addition (the
 * fields do not overlap) and how a field is read back out of a word.
 */
module Bits {

  type u8 = x: int | 0 <= x < 0x100
  type u16 = x: int | 0 <= x < 0x1_0000
  type u32 = x: int | 0 <= x < 0x1_0000_0000
  type u64 = x: int | 0 <= x < 0x1_0000_0000_0000_0000
  type i32 = x: int | -0x8000_0000 <= x < 0x8000_0000

  const U32_LIMIT: nat := 0x1_0000_0000

  function Pow2(k: nat): (r: nat)
    ensures r >= 1
  {
    if k == 0 then 1 else 2 * Pow2(k - 1)
  }

  /** Bitwise OR of two naturals, one bit at a time from the least significant. */
  function Or(a: nat, b: nat): nat
    decreases a
  {
    if a == 0 then b
    else if b == 0 then a
    else 2 * Or(a / 2, b / 2) + (if a % 2 == 1 || b % 2 == 1 then 1 else 0)
  }

  /** `x << k` evaluated in 32 bits: the bits above bit 31 are lost. */
  function Shl(x: nat, k: nat): u32
  {
    x * Pow2(k) % U32_LIMIT
  }

  /** A shift whose result stays below 2^32 loses nothing. */
  lemma ShlNoWrap(x: nat, k: nat)
    requires x * Pow2(k) < U32_LIMIT
    ensures Shl(x, k) == x * Pow2(k)
  {
    DivModUnique(U32_LIMIT, 0, x * Pow2(k));
  }

  /** Truncating a value that already fits in 32 bits changes nothing. */
  lemma ModSmall(x: nat)
    ensures x < U32_LIMIT ==> x % U32_LIMIT == x
  {
    if x < U32_LIMIT {
      DivModUnique(U32_LIMIT, 0, x);
    }
  }

  /** `x - y` on unsigned int: wraps modulo 2^32 when y > x. */
  function Sub32(x: u32, y: u32): (r: u32)
    ensures y <= x ==> r == x - y
    ensures y > x ==> r == x - y + U32_LIMIT
  {
    (x - y) % U32_LIMIT
  }

  /** `(x & 0x3) == 0`: a whole number of dwords. */
  predicate DwordAligned(x: nat)
  {
    x % 4 == 0
  }

  /** Sums and differences of dword-aligned sizes stay aligned. */
  lemma AlignedSum(a: nat, b: nat)
    requires DwordAligned(a) && DwordAligned(b)
    ensures DwordAligned(a + b)
    ensures a >= b ==> DwordAligned(a - b)
  {
    DivModUnique(4, a / 4 + b / 4, 0);
    if a >= b {
      DivModUnique(4, a / 4 - b / 4, 0);
    }
  }

  /** `x >> 2`: the number of whole dwords in `x` bytes. */
  function Shr2(x: u32): (r: u32)
    ensures 4 * r <= x < 4 * r + 4
    ensures DwordAligned(x) ==> 4 * r == x
  {
    x / 4
  }

  /** `(int)x` for an unsigned int: values from 2^31 up read as negative (two's complement). */
  function Signed32(x: u32): (r: int)
    ensures -0x8000_0000 <= r < 0x8000_0000
    ensures r % U32_LIMIT == x
  {
    if x < 0x8000_0000 then x else x - U32_LIMIT
  }

  /** `(unsigned int)x` for an int: negative values wrap to 2^32 + x. */
  function Unsigned32(x: i32): (r: u32)
    ensures x >= 0 ==> r == x
    ensures x < 0 ==> r == x + U32_LIMIT
  {
    if x >= 0 then x else x + U32_LIMIT
  }

  /** `(x >> lo) & ((1 << width) - 1)`: the `width`-bit field of `x` that starts at bit `lo`. */
  function Field(x: nat, lo: nat, width: nat): (r: nat)
    ensures r < Pow2(width)
  {
    x / Pow2(lo) % Pow2(width)
  }

  /** The OR of two values that fit in n bits fits in n bits. */
  lemma {:induction false} OrBound(a: nat, b: nat, n: nat)
    requires a < Pow2(n) && b < Pow2(n)
    ensures Or(a, b) < Pow2(n)
  {
    if a == 0 || b == 0 {
    } else {
      assert n > 0;
      OrBound(a / 2, b / 2, n - 1);
    }
  }

  /** `a | b` on two unsigned ints is again an unsigned int. */
  function Or32(a: u32, b: u32): (r: u32)
    ensures a == 0 ==> r == b
    ensures b == 0 ==> r == a
  {
    PowersOfTwo();
    OrBound(a, b, 32);
    Or(a, b)
  }

  /**
   * When the high operand is a multiple of 2^k and the low one is below 2^k,
   * their bits cannot overlap, so OR is addition (in either order).
   */
  lemma {:induction false} OrDisjoint(m: nat, lo: nat, k: nat)
    requires lo < Pow2(k)
    ensures Or(m * Pow2(k), lo) == m * Pow2(k) + lo
    ensures Or(lo, m * Pow2(k)) == m * Pow2(k) + lo
  {
    var hi := m * Pow2(k);
    if k == 0 || m == 0 || lo == 0 {
      assert k == 0 ==> lo == 0;
    } else {
      var p := Pow2(k - 1);
      assert hi == 2 * (m * p);
      assert hi / 2 == m * p && hi % 2 == 0;
      assert lo / 2 < p;
      OrDisjoint(m, lo / 2, k - 1);
    }
  }

  /**
   * OR-ing in a multiple of 2^k leaves the low k bits alone, whether or not
   * the other operand has bits above them.
   */
  lemma {:induction false} OrLow(m: nat, x: nat, k: nat)
    ensures Or(m * Pow2(k), x) % Pow2(k) == x % Pow2(k)
  {
    var hi := m * Pow2(k);
    if k == 0 {
      assert Pow2(k) == 1;
    } else if m == 0 {
      assert hi == 0 && Or(hi, x) == x;
    } else if x == 0 {
      assert Or(hi, x) == hi;
      assert hi == Pow2(k) * m + 0;
      DivModUnique(Pow2(k), m, 0);
    } else {
      var p := Pow2(k - 1);
      assert Pow2(k) == 2 * p;
      assert hi == 2 * (m * p);
      assert hi / 2 == m * p && hi % 2 == 0;
      var y := Or(m * p, x / 2);
      OrLow(m, x / 2, k - 1);
      assert Or(hi, x) == 2 * y + x % 2;
      ModDouble(y, x, p);
    }
  }

  /** One step of OrLow: doubling and appending x's lowest bit keeps agreement with x. */
  lemma ModDouble(y: nat, x: nat, p: nat)
    requires p > 0 && y % p == (x / 2) % p
    ensures (2 * y + x % 2) % (2 * p) == x % (2 * p)
  {
    var s, b := (x / 2) % p, x % 2;
    assert 2 * y + b == (2 * p) * (y / p) + (2 * s + b);
    DivModUnique(2 * p, y / p, 2 * s + b);
    assert x == (2 * p) * ((x / 2) / p) + (2 * s + b);
    DivModUnique(2 * p, (x / 2) / p, 2 * s + b);
  }

  lemma MulStep(d: nat, a: nat, b: nat)
    ensures a < b ==> d * a + d <= d * b
  {
    if a < b {
      var k := b - a;
      assert d * b == d * a + d * k;
      assert d * k >= d * 1;
    }
  }

  /** Dividing a packed value by its low field's range: quotient and remainder come apart. */
  lemma DivModUnique(d: nat, q: nat, r: nat)
    requires 0 < d && r < d
    ensures (d * q + r) / d == q && (d * q + r) % d == r
  {
    var x := d * q + r;
    MulStep(d, q, x / d);
    MulStep(d, x / d, q);
  }

  /**
   * Reading a field back: in a value `x` made of a part below 2^lo, the field
   * value `v` (below 2^w) at bit `lo`, and a higher part above bit lo + w,
   * the field of width `w` at `lo` is `v`.
   */
  lemma FieldOf(x: nat, above: nat, v: nat, below: nat, lo: nat, w: nat)
    requires v < Pow2(w) && below < Pow2(lo)
    requires x == above * Pow2(lo + w) + v * Pow2(lo) + below
    ensures Field(x, lo, w) == v
  {
    PowAdd(lo, w);
    Regroup(x, above, v, below, Pow2(lo), Pow2(w));
    DivModUnique(Pow2(lo), Pow2(w) * above + v, below);
    DivModUnique(Pow2(w), above, v);
  }

  /**
   * FieldOf with the two powers of two passed as (literal) arguments, so that
   * a caller's packing equation stays linear.
   */
  lemma FieldAt(x: nat, above: nat, v: nat, below: nat, lo: nat, w: nat, pl: nat, pw: nat)
    requires pl == Pow2(lo) && pw == Pow2(w)
    requires v < pw && below < pl
    requires x == above * (pl * pw) + v * pl + below
    ensures Field(x, lo, w) == v
  {
    PowAdd(lo, w);
    FieldOf(x, above, v, below, lo, w);
  }

  /** OrDisjoint with the power of two passed as a (literal) argument. */
  lemma OrAt(m: nat, lo: nat, k: nat, p: nat)
    requires p == Pow2(k) && lo < p
    ensures Or(m * p, lo) == m * p + lo
    ensures Or(lo, m * p) == m * p + lo
  {
    OrDisjoint(m, lo, k);
  }

  /** ShlNoWrap with the power of two passed as a (literal) argument. */
  lemma ShlAt(x: nat, k: nat, p: nat)
    requires p == Pow2(k) && x * p < U32_LIMIT
    ensures Shl(x, k) == x * p
  {
    ShlNoWrap(x, k);
  }

  /** `above * (pl * pw) + v * pl + below == pl * (pw * above + v) + below`. */
  lemma Regroup(x: nat, above: nat, v: nat, below: nat, pl: nat, pw: nat)
    requires x == above * (pl * pw) + v * pl + below
    ensures x == pl * (pw * above + v) + below
  {
    assert above * (pl * pw) == pl * (pw * above);
    assert pl * (pw * above + v) == pl * (pw * above) + pl * v;
  }

  lemma {:induction false} PowAdd(a: nat, b: nat)
    ensures Pow2(a + b) == Pow2(a) * Pow2(b)
  {
    if a > 0 {
      PowAdd(a - 1, b);
      assert Pow2(a + b) == 2 * (Pow2(a - 1) * Pow2(b));
    }
  }

  /** The powers of two the command layouts use, evaluated. */
  lemma PowersOfTwo()
    ensures Pow2(1) == 2 && Pow2(2) == 4 && Pow2(3) == 8 && Pow2(4) == 16
    ensures Pow2(5) == 32 && Pow2(6) == 64 && Pow2(8) == 0x100 && Pow2(9) == 0x200
    ensures Pow2(10) == 0x400 && Pow2(11) == 0x800 && Pow2(12) == 0x1000
    ensures Pow2(13) == 0x2000 && Pow2(14) == 0x4000 && Pow2(15) == 0x8000
    ensures Pow2(16) == 0x1_0000 && Pow2(24) == 0x100_0000
    ensures Pow2(26) == 0x400_0000 && Pow2(30) == 0x4000_0000 && Pow2(32) == U32_LIMIT
  {
    assert Pow2(4) == 16;
    assert Pow2(8) == 0x100;
    assert Pow2(12) == 0x1000;
    assert Pow2(16) == 0x1_0000;
    assert Pow2(20) == 0x10_0000;
    assert Pow2(24) == 0x100_0000;
    assert Pow2(28) == 0x1000_0000;
    assert Pow2(30) == 0x4000_0000;
  }
}
