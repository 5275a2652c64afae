/** The 32-bit integer operators of JavaScript, on integral Number values.

    Every Number the signature hash produces is an integer well below 2^53, so
    JavaScript computes it exactly; the only lossy steps are the conversions
    ToInt32 performs inside `<<` and `&`, and those are written out here. */
module JsInt32 {

  const TwoTo31: int := 0x8000_0000
  const TwoTo32: int := 0x1_0000_0000

  /** The range of a signed 32-bit integer. */
  predicate IsInt32(x: int) {
    -TwoTo31 <= x < TwoTo31
  }

  /** ECMAScript ToInt32 on an integral Number: the signed 32-bit value that
      is congruent to `x` modulo 2^32 (two's-complement wrap-around). */
  function ToInt32(x: int): (r: int)
    ensures IsInt32(r)
    ensures (r - x) % TwoTo32 == 0
  {
    (x + TwoTo31) % TwoTo32 - TwoTo31
  }

  /** ToInt32 is the only 32-bit value congruent to its argument. */
  lemma ToInt32Unique(x: int, r: int)
    requires IsInt32(r) && (r - x) % TwoTo32 == 0
    ensures r == ToInt32(x)
  {
    var w := ToInt32(x);
    assert (r - w) % TwoTo32 == 0 by {
      assert r - w == (r - x) - (w - x);
    }
    assert -TwoTo32 < r - w < TwoTo32;
  }

  /** Arguments that agree modulo 2^32 have the same ToInt32. */
  lemma ToInt32Congruent(x: int, y: int)
    requires (x - y) % TwoTo32 == 0
    ensures ToInt32(x) == ToInt32(y)
  {
    var w := ToInt32(y);
    assert (w - x) % TwoTo32 == 0 by {
      assert w - x == (w - y) - (x - y);
    }
    ToInt32Unique(x, w);
  }

  /** ToInt32 leaves a 32-bit value unchanged. */
  lemma ToInt32OfInt32(x: int)
    requires IsInt32(x)
    ensures ToInt32(x) == x
  {
    ToInt32Unique(x, x);
  }

  function Pow2(n: nat): (r: nat)
    ensures r >= 1
  {
    if n == 0 then 1 else 2 * Pow2(n - 1)
  }

  /** `x << count`: the count is taken modulo 32, the left operand goes
      through ToInt32, and the shifted bit pattern is read back as a signed
      32-bit value, which is ToInt32 of the exact product. */
  function ShiftLeft(x: int, count: nat): (r: int)
    ensures r == ToInt32(x * Pow2(count % 32))
  {
    var p := Pow2(count % 32);
    ScaleCongruent(ToInt32(x), x, p);
    ToInt32(ToInt32(x) * p)
  }

  /** A multiple of 2^32 stays one when scaled. */
  lemma MultipleOfModulus(d: int, p: int)
    requires d % TwoTo32 == 0
    ensures (d * p) % TwoTo32 == 0
  {
    var q := d / TwoTo32;
    assert d == TwoTo32 * q;
    assert d * p == TwoTo32 * (q * p);
  }

  /** Scaling preserves congruence modulo 2^32. */
  lemma ScaleCongruent(a: int, b: int, p: int)
    requires (a - b) % TwoTo32 == 0
    ensures ToInt32(a * p) == ToInt32(b * p)
  {
    var q := (a - b) / TwoTo32;
    assert a - b == TwoTo32 * q;
    assert a * p - b * p == (a - b) * p;
    assert a * p - b * p == TwoTo32 * (q * p);
    ToInt32Congruent(a * p, b * p);
  }

  /** ECMAScript ToUint32: the bit pattern of ToInt32(x), as an unsigned value. */
  function ToUint32(x: int): (r: int)
    ensures 0 <= r < TwoTo32
    ensures (r - x) % TwoTo32 == 0
  {
    x % TwoTo32
  }

  /** Bitwise AND of the low `width` bits of `a` and `b`, bit by bit from
      the least significant one. */
  function AndBits(a: nat, b: nat, width: nat): nat {
    if width == 0 then 0
    else (a % 2) * (b % 2) + 2 * AndBits(a / 2, b / 2, width - 1)
  }

  /** `x & y`: bitwise AND of the operands' 32-bit patterns, read back as a
      signed 32-bit value. */
  function BitAnd(x: int, y: int): (r: int)
    ensures IsInt32(r)
  {
    var u := AndBits(ToUint32(x), ToUint32(y), 32);
    ToInt32(u)
  }

  /** A value ANDed with itself keeps exactly its low `width` bits. */
  lemma {:induction false} AndBitsSelf(a: nat, width: nat)
    ensures AndBits(a, a, width) == a % Pow2(width)
  {
    if width > 0 {
      AndBitsSelf(a / 2, width - 1);
      var p := Pow2(width - 1);
      assert (a % 2) * (a % 2) == a % 2;
      LowBitsSplit(a, p);
    }
  }

  /** a mod 2p is its last bit plus twice (a div 2) mod p. */
  lemma LowBitsSplit(a: nat, p: nat)
    requires p >= 1
    ensures a % (2 * p) == a % 2 + 2 * ((a / 2) % p)
  {
    var h := a / 2;
    var q := h / p;
    assert a == 2 * h + a % 2;
    assert h == p * q + h % p;
    assert a == (2 * p) * q + (a % 2 + 2 * (h % p));
    ModUnique(a, 2 * p, q, a % 2 + 2 * (h % p));
  }

  /** The remainder is the only r with a == m * q + r and 0 <= r < m. */
  lemma ModUnique(a: int, m: int, q: int, r: int)
    requires m > 0 && 0 <= r < m && a == m * q + r
    ensures a % m == r
  {
    var q', r' := a / m, a % m;
    assert a == m * q' + r';
    var d := q - q';
    assert m * q - m * q' == m * d by {
      MulDistributes(m, q, q');
    }
    assert m * d == r' - r;
    if d > 0 {
      MulAtLeast(m, d);
    } else if d < 0 {
      MulAtLeast(m, -d);
    }
  }

  lemma MulDistributes(m: int, x: int, y: int)
    ensures m * x - m * y == m * (x - y)
  {
  }

  lemma MulAtLeast(m: int, d: int)
    requires m > 0 && d >= 1
    ensures m * d >= m
  {
  }

  lemma Pow2Of32()
    ensures Pow2(32) == TwoTo32
  {
    assert Pow2(2) == 4;
    Pow2Add(2, 2);
    Pow2Add(4, 4);
    Pow2Add(8, 8);
    Pow2Add(16, 16);
  }

  lemma {:induction false} Pow2Add(m: nat, n: nat)
    ensures Pow2(m + n) == Pow2(m) * Pow2(n)
  {
    if m > 0 {
      Pow2Add(m - 1, n);
    }
  }

  /** A pattern of at most `width` bits ANDed with itself is unchanged. */
  lemma AndBitsSelfBelow(u: nat, width: nat)
    requires u < Pow2(width)
    ensures AndBits(u, u, width) == u
  {
    AndBitsSelf(u, width);
  }

  /** `x & x` is the wrap-around idiom: it equals ToInt32(x). */
  lemma BitAndSelf(x: int)
    ensures BitAnd(x, x) == ToInt32(x)
  {
    var u := ToUint32(x);
    Pow2Of32();
    AndBitsSelfBelow(u, 32);
    assert BitAnd(x, x) == ToInt32(u);
    ToInt32Congruent(u, x);
  }
}
