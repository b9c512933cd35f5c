/**
 * Two's-complement bitwise operations on unbounded integers, as C evaluates
 * them on `int`, and the round-up-to-1024 idiom `(x + 1023) & ~1023` that
 * every IRAM size macro of the VPU library is written with.
 */
module BitOps {

  function Abs(a: int): nat { if a < 0 then -a else a }

  function Pow2(n: nat): (p: nat)
    ensures p >= 1
  {
    if n == 0 then 1 else 2 * Pow2(n - 1)
  }

  /** C's `~a`: in two's complement, the complement of `a` is `-a - 1`. */
  function BitNot(a: int): int { -a - 1 }

  /**
   * C's `a & b` on two's-complement integers of unbounded width, defined bit
   * by bit from the least significant end.  `/` and `%` by 2 are Euclidean,
   * so `a % 2` is bit 0 of `a` and `a / 2` is `a` shifted right arithmetically,
   * also for negative `a`; 0 and -1 are the two fixed points of that shift.
   */
  function BitAnd(a: int, b: int): int
    decreases Abs(a) + Abs(b)
  {
    if a == 0 || b == 0 then 0
    else if a == -1 then b
    else if b == -1 then a
    else 2 * BitAnd(a / 2, b / 2) + (if a % 2 == 1 && b % 2 == 1 then 1 else 0)
  }

  lemma {:induction false} MulAtLeast(m: int, d: int)
    requires m > 0 && d >= 1
    ensures m * d >= m
  {
    if d > 1 { MulAtLeast(m, d - 1); assert m * d == m * (d - 1) + m; }
  }

  /** Euclidean division is unique: a quotient and remainder in range are the ones `/` and `%` give. */
  lemma ModUnique(x: int, m: int, q: int, t: int)
    requires m > 0 && x == m * q + t && 0 <= t < m
    ensures x % m == t && x / m == q
  {
    var q', t' := x / m, x % m;
    assert x == m * q' + t';
    var d := q - q';
    assert m * q - m * q' == t' - t;
    assert m * d == m * q - m * q';
    if d > 0 {
      MulAtLeast(m, d);
    } else if d < 0 {
      MulAtLeast(m, -d);
    }
  }

  /** Bits above bit 0 of `x % 2Q` are the bits of `(x / 2) % Q`. */
  lemma ModDouble(x: int, q: int)
    requires q > 0
    ensures x % (2 * q) == 2 * ((x / 2) % q) + x % 2
  {
    var h, r := x / 2, x % 2;
    var k, s := h / q, h % q;
    assert x == 2 * (q * k + s) + r;
    assert x == (2 * q) * k + (2 * s + r);
    ModUnique(x, 2 * q, k, 2 * s + r);
  }

  /**
   * `x & ~(2^n - 1)` clears the low `n` bits of `x`: it is `x` rounded down
   * to a multiple of `2^n`.
   */
  lemma {:induction false} ClearLowBits(x: int, n: nat)
    ensures BitAnd(x, BitNot(Pow2(n) - 1)) == x - x % Pow2(n)
    decreases n
  {
    var p: int := Pow2(n);
    assert BitNot(p - 1) == -p;
    if n == 0 {
      assert p == 1;
      ModUnique(x, 1, x, 0);
    } else if x == 0 {
      ModUnique(0, p, 0, 0);
    } else if x == -1 {
      ModUnique(-1, p, -1, p - 1);
    } else {
      var q: int := Pow2(n - 1);
      ClearLowBits(x / 2, n - 1);
      ClearLowStep(x, q, p);
    }
  }

  /** The inductive step of ClearLowBits: one bit shifted out on both sides. */
  lemma ClearLowStep(x: int, q: int, p: int)
    requires q > 0 && p == 2 * q && x != 0 && x != -1
    requires BitAnd(x / 2, -q) == x / 2 - (x / 2) % q
    ensures BitAnd(x, -p) == x - x % p
  {
    var h, s, r := x / 2, (x / 2) % q, x % 2;
    ModUnique(-p, 2, -q, 0);
    assert BitAnd(x, -p) == 2 * BitAnd(h, -q);
    ModDouble(x, q);
    assert x % p == 2 * s + r;
  }

  /** The least multiple of 1024 that is at least `x`. */
  function RoundUp1024(x: nat): (r: nat)
    ensures r % 1024 == 0
    ensures x <= r < x + 1024
  {
    var v := x + 1023;
    ModUnique(v - v % 1024, 1024, v / 1024, 0);
    v - v % 1024
  }

  /**
   * The size macros' idiom `(x + 1023) & ~1023`, with C's `&` and `~` on
   * two's-complement integers, is exactly RoundUp1024.
   */
  lemma RoundUpIsMasked(x: nat)
    ensures BitAnd(x + 1023, BitNot(1023)) == RoundUp1024(x)
  {
    assert Pow2(10) == 1024 by {
      assert Pow2(5) == 32;
    }
    ClearLowBits(x + 1023, 10);
  }

  /** No multiple of 1024 at least `x` lies below `RoundUp1024(x)`. */
  lemma RoundUpIsLeast(x: nat, m: nat)
    requires m % 1024 == 0 && x <= m
    ensures RoundUp1024(x) <= m
  {
  }

  /** Rounding up preserves order. */
  lemma RoundUpMonotone(x: nat, y: nat)
    requires x <= y
    ensures RoundUp1024(x) <= RoundUp1024(y)
  {
    RoundUpIsLeast(x, RoundUp1024(y));
  }

  /** A multiple of 1024 is left as it is. */
  lemma RoundUpExact(x: nat)
    requires x % 1024 == 0
    ensures RoundUp1024(x) == x
  {
    RoundUpIsLeast(x, x);
  }
}
