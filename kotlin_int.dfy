/**
 * Integer arithmetic as the JVM performs it on `Int` operands.
 *
 * Kotlin's `/` truncates toward zero and `%` takes the sign of the dividend,
 * whereas Dafny's `/` and `%` are Euclidean. The calendar code applies `%` to
 * values that can be negative (a year before 4 in the stem and branch
 * computation, a negative year in the Gan-Zhi month rule), so every such
 * operation in the model goes through `Quot` and `Rem` below.
 */
module KotlinInt {

  /** `Math.abs` on an `Int` whose magnitude stays below 2^31. */
  function Abs(x: int): (r: nat)
    ensures r == x || r == -x
    ensures x >= 0 ==> r == x
  {
    if x < 0 then -x else x
  }

  /** Kotlin `a / b`: the quotient truncated toward zero. */
  function Quot(a: int, b: int): int
    requires b != 0
  {
    if a >= 0 && b > 0 then a / b
    else if a >= 0 then -(a / -b)
    else if b > 0 then -((-a) / b)
    else (-a) / (-b)
  }

  /** Kotlin `a % b`: the remainder that goes with `Quot`. */
  function Rem(a: int, b: int): int
    requires b != 0
  {
    a - b * Quot(a, b)
  }

  /** `Rem` keeps the sign of the dividend and stays below the divisor in magnitude. */
  lemma RemBounds(a: int, b: int)
    requires b != 0
    ensures a >= 0 ==> 0 <= Rem(a, b) < Abs(b)
    ensures a < 0 ==> 0 - Abs(b) < Rem(a, b) <= 0
  {
    var n: int, d: int := Abs(a), Abs(b);
    var q: int, r: int := n / d, n % d;
    assert n == d * q + r && 0 <= r < d;
    if a >= 0 && b > 0 {
      assert Rem(a, b) == r;
    } else if a >= 0 {
      assert Quot(a, b) == -q;
      assert b * Quot(a, b) == d * q;
    } else if b > 0 {
      assert Quot(a, b) == -q;
      assert b * Quot(a, b) == -(d * q);
    } else {
      assert Quot(a, b) == q;
      assert b * Quot(a, b) == -(d * q);
    }
  }

  /** For a non-negative dividend and a positive divisor Kotlin and Dafny agree. */
  lemma AgreeOnNatural(a: int, b: int)
    requires a >= 0 && b > 0
    ensures Quot(a, b) == a / b && Rem(a, b) == a % b
  {
  }

  /** Euclidean division by a positive divisor has one quotient and one remainder. */
  lemma DivModUnique(a: int, b: int, k: int, s: int)
    requires b > 0 && a == b * k + s && 0 <= s < b
    ensures a / b == k && a % b == s
  {
    var x := k - a / b;
    assert b * x == a % b - s;
    assert x >= 1 ==> b * x >= b;
    assert x <= -1 ==> b * x <= -b;
  }

  /** A negative dividend: Kotlin's remainder is Dafny's minus the divisor, unless it is zero. */
  lemma RemOfNegative(a: int, b: int)
    requires a < 0 && b > 0
    ensures Rem(a, b) == (if a % b == 0 then 0 else a % b - b)
  {
    var q: int, r: int := (-a) / b, (-a) % b;
    assert -a == b * q + r && 0 <= r < b;
    assert Quot(a, b) == -q;
    assert b * Quot(a, b) == -(b * q);
    assert Rem(a, b) == -r;
    if r == 0 {
      DivModUnique(a, b, -q, 0);
    } else {
      assert a == b * (-q - 1) + (b - r);
      DivModUnique(a, b, -q - 1, b - r);
    }
  }
}
