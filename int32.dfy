/**
 * Java's 32-bit `int`, the only value type of the interpreted language.
 *
 * Java arithmetic wraps around modulo 2^32, `/` truncates toward zero and `%` takes the sign of
 * the dividend; Dafny's `/` and `%` are Euclidean, so the truncating pair is written out here.
 */
module JavaInt {

  const MIN: int := -0x8000_0000
  const MAX: int := 0x7FFF_FFFF
  const MODULUS: int := 0x1_0000_0000

  type Int32 = x: int | -0x8000_0000 <= x <= 0x7FFF_FFFF

  function Abs(x: int): (r: nat)
    ensures r == x || r == -x
  {
    if x < 0 then -x else x
  }

  /** The two's-complement value Java keeps of an exact result: congruent to it and in range. */
  function Wrap(x: int): (r: Int32)
    ensures (r - x) % MODULUS == 0
    ensures MIN <= x <= MAX ==> r == x
  {
    (x - MIN) % MODULUS + MIN
  }

  /** There is only one such value, so `Wrap` is the reduction and not merely one of several. */
  lemma WrapUnique(x: int, r: Int32)
    requires (r - x) % MODULUS == 0
    ensures r == Wrap(x)
  {
    var w := Wrap(x);
    assert (r - w) % MODULUS == 0 by {
      assert r - w == (r - x) - (w - x);
    }
    assert -MODULUS < r - w < MODULUS;
  }

  /** Integer division truncated toward zero (Java's `/` without the overflow). */
  function Quot(a: int, b: int): (q: int)
    requires b != 0
    ensures Abs(b) * Abs(q) <= Abs(a) < Abs(b) * Abs(q) + Abs(b)
    ensures q == 0 || ((q < 0) <==> ((a < 0) != (b < 0)))
  {
    var m := Abs(a) / Abs(b);
    EuclideanSplit(Abs(a), Abs(b));
    if (a < 0) == (b < 0) then m else -m
  }

  /** Division of naturals: `b * (a / b)` is the largest multiple of `b` not above `a`. */
  lemma EuclideanSplit(a: nat, b: nat)
    requires b > 0
    ensures a == b * (a / b) + a % b
    ensures b * (a / b) <= a < b * (a / b) + b
  {
  }

  /** The remainder that goes with `Quot`: Java's `%`. */
  function Remainder(a: int, b: int): (r: int)
    requires b != 0
    ensures a == b * Quot(a, b) + r
    ensures Abs(r) < Abs(b)
    ensures r == 0 || ((r < 0) <==> (a < 0))
  {
    EuclideanSplit(Abs(a), Abs(b));
    QuotProduct(a, b);
    a - b * Quot(a, b)
  }

  /** `b` times the truncated quotient is the multiple of `|b|` below `|a|`, with the sign of `a`. */
  lemma QuotProduct(a: int, b: int)
    requires b != 0
    ensures var m := Abs(a) / Abs(b); b * Quot(a, b) == if a < 0 then -(Abs(b) * m) else Abs(b) * m
  {
    var q := Quot(a, b);
    var m := Abs(a) / Abs(b);
    if a < 0 && b < 0 {
      assert b * q == (-b) * (-q);
    } else if a < 0 {
      assert b * q == b * (-m) == -(b * m);
    } else if b < 0 {
      assert b * q == (-b) * m;
    }
  }

  function Add(a: Int32, b: Int32): (r: Int32)
    ensures MIN <= a + b <= MAX ==> r == a + b
  {
    Wrap(a + b)
  }

  function Sub(a: Int32, b: Int32): (r: Int32)
    ensures MIN <= a - b <= MAX ==> r == a - b
  {
    Wrap(a - b)
  }

  function Mul(a: Int32, b: Int32): (r: Int32)
    ensures MIN <= a * b <= MAX ==> r == a * b
  {
    Wrap(a * b)
  }

  /** Java's `a / b`, which overflows only for `MIN / -1` (and then yields `MIN`). */
  function Div(a: Int32, b: Int32): (r: Int32)
    requires b != 0
    ensures a == MIN && b == -1 ==> r == MIN
    ensures !(a == MIN && b == -1) ==> r == Quot(a, b)
  {
    QuotInRange(a, b);
    Wrap(Quot(a, b))
  }

  /** The truncated quotient of two `int`s is an `int` again, except for `MIN / -1`. */
  lemma QuotInRange(a: Int32, b: Int32)
    requires b != 0
    ensures !(a == MIN && b == -1) ==> MIN <= Quot(a, b) <= MAX
  {
    var m := Abs(a) / Abs(b);
    assert Abs(Quot(a, b)) == m;
    if Abs(b) == 1 {
      assert m == Abs(a);
    } else {
      EuclideanSplit(Abs(a), Abs(b));
      MulMonotonic(m, 2, Abs(b));
      assert 2 * m <= Abs(a);
    }
  }

  /** Multiplying by a larger factor does not give a smaller natural. */
  lemma MulMonotonic(x: nat, y: nat, z: nat)
    requires y <= z
    ensures x * y <= x * z
  {
    assert x * z == x * y + x * (z - y);
  }

  /** Java's `a % b`; it never overflows. */
  function Rem(a: Int32, b: Int32): (r: Int32)
    requires b != 0
    ensures r == Remainder(a, b)
  {
    Remainder(a, b)
  }

  /** Java's `/` and `%` satisfy the identity JLS 15.17.3 requires: `(a / b) * b + a % b == a`. */
  lemma {:induction false} DivRemIdentity(a: Int32, b: Int32)
    requires b != 0
    ensures Add(Mul(Div(a, b), b), Rem(a, b)) == a
  {
    var q := Div(a, b);
    if a == MIN && b == -1 {
      assert Rem(a, b) == 0;
      assert q * b == -MIN;
      assert Mul(q, b) == MIN;
    } else {
      EuclideanSplit(Abs(a), Abs(b));
      QuotProduct(a, b);
      assert q * b == b * Quot(a, b);
      assert MIN <= q * b <= MAX;
      assert Mul(q, b) + Rem(a, b) == a;
    }
  }

  /** Truncation toward zero on two small cases that Euclidean division gets differently. */
  lemma TruncationExamples()
    ensures Div(-7, 2) == -3 && Rem(-7, 2) == -1
    ensures Div(7, -2) == -3 && Rem(7, -2) == 1
  {
    assert Quot(-7, 2) == -3;
    assert Quot(7, -2) == -3;
  }
}
