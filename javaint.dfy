/**
 * Java's integer arithmetic where it differs from Dafny's: the 32-bit `int`
 * wraps around, and `/` and `%` truncate toward zero.
 */
module JavaInt {
  const Int32Min: int := -0x8000_0000
  const Int32Max: int := 0x7fff_ffff
  const Int32Modulus: int := 0x1_0000_0000

  predicate IsInt32(x: int) {
    Int32Min <= x <= Int32Max
  }

  /** The Java `int` holding the value `x` after two's-complement wrap-around. */
  function Wrap32(x: int): (r: int)
    ensures IsInt32(r)
    ensures IsInt32(x) ==> r == x
    ensures (x - r) % Int32Modulus == 0
  {
    (x - Int32Min) % Int32Modulus + Int32Min
  }

  /** `AtomicInteger.incrementAndGet` / `getAndIncrement`: add one, wrapping at the top. */
  function Increment32(x: int): (r: int)
    requires IsInt32(x)
    ensures IsInt32(r)
    ensures x < Int32Max ==> r == x + 1
    ensures x == Int32Max ==> r == Int32Min
  {
    Wrap32(x + 1)
  }

  /** Java's `a / d` for a positive divisor: the quotient rounded toward zero. */
  function Quot(a: int, d: int): (q: int)
    requires d > 0
    ensures a >= 0 ==> 0 <= a - q * d < d
    ensures a < 0 ==> -d < a - q * d <= 0
  {
    if a >= 0 then a / d else -((-a) / d)
  }

  /** Java's `a % d` for a positive divisor: the remainder takes the sign of `a`. */
  function Rem(a: int, d: int): (r: int)
    requires d > 0
    ensures a >= 0 ==> 0 <= r < d
    ensures a < 0 ==> -d < r <= 0
    ensures a >= 0 ==> r == a % d
  {
    if a >= 0 then a % d else -((-a) % d)
  }

  /** Java's quotient and remainder always recombine into the dividend. */
  lemma QuotRem(a: int, d: int)
    requires d > 0
    ensures d * Quot(a, d) + Rem(a, d) == a
  {
    if a < 0 {
      var b := -a;
      var q := b / d;
      assert d * q + b % d == b;
      assert Quot(a, d) == -q;
      assert Rem(a, d) == -(b % d);
      NegateProduct(d, q);
    }
  }

  lemma NegateProduct(d: int, q: int)
    ensures d * -q == -(d * q)
  {
  }

  /** Truncation is symmetric: negating the dividend negates quotient and remainder. */
  lemma QuotRemNegate(a: int, d: int)
    requires d > 0
    ensures Quot(-a, d) == -Quot(a, d) && Rem(-a, d) == -Rem(a, d)
  {
    if a < 0 {
      var b := -a;
      assert -b == a;
      assert Quot(b, d) == b / d && Quot(a, d) == -(b / d);
      assert Rem(b, d) == b % d && Rem(a, d) == -(b % d);
    } else if a > 0 {
      assert Quot(-a, d) == -(a / d);
      assert Rem(-a, d) == -(a % d);
    } else {
      assert 0 / d == 0 && 0 % d == 0;
    }
  }
}
