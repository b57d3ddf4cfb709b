/**
 * Java's 32-bit `int`: its range, the wrap-around of `x++`, and the division
 * operator `/`, which truncates toward zero (Dafny's `/` is Euclidean).
 */
module JavaInt {

  const INT_MIN: int := -0x8000_0000
  const INT_MAX: int := 0x7fff_ffff
  const MODULUS: int := 0x1_0000_0000

  predicate IsInt(x: int) {
    INT_MIN <= x <= INT_MAX
  }

  /** `x + 1` in two's complement: the int congruent to x + 1 modulo 2^32. */
  function Inc(x: int): (r: int)
    requires IsInt(x)
    ensures IsInt(r)
    ensures (x + 1 - r) % MODULUS == 0
    ensures x < INT_MAX ==> r > x
  {
    if x == INT_MAX then INT_MIN else x + 1
  }

  function Abs(x: int): nat {
    if x < 0 then -x else x
  }

  /**
   * Java's `a / b` on ints: the quotient rounded toward zero, except that
   * INT_MIN / -1 overflows back to INT_MIN.
   */
  function Div(a: int, b: int): (q: int)
    requires IsInt(a) && IsInt(b) && b != 0
    ensures IsInt(q)
    ensures 0 <= a && 0 < b ==> q == a / b
    ensures a == INT_MIN && b == -1 ==> q == INT_MIN
    ensures (a == INT_MIN && b == -1) || Abs(q) == Abs(a) / Abs(b)
    ensures (a == INT_MIN && b == -1) || q == 0 || ((q > 0) <==> ((a > 0) == (b > 0)))
  {
    TruncatedInRange(a, b);
    TruncatedSign(a, b);
    Truncated(a, b)
  }

  /** Rounding toward zero: the magnitude is that of the exact quotient, the sign that of a * b. */
  function Truncated(a: int, b: int): int
    requires b != 0
  {
    if a == INT_MIN && b == -1 then INT_MIN
    else if (a >= 0) == (b > 0) then Quotient(Abs(a), Abs(b))
    else -(Quotient(Abs(a), Abs(b)) as int)
  }

  /** The quotient of two naturals, which is at most the dividend. */
  function Quotient(n: nat, d: nat): (r: nat)
    requires d > 0
    ensures r <= n
    ensures n == 0 ==> r == 0
  {
    DivBound(n, d);
    n / d
  }

  lemma TruncatedInRange(a: int, b: int)
    requires IsInt(a) && IsInt(b) && b != 0
    ensures IsInt(Truncated(a, b))
  {
  }

  lemma TruncatedSign(a: int, b: int)
    requires b != 0
    ensures (a == INT_MIN && b == -1) || Truncated(a, b) == 0 || ((Truncated(a, b) > 0) <==> ((a > 0) == (b > 0)))
  {
  }

  lemma DivBound(n: nat, d: nat)
    requires d > 0
    ensures n / d <= n
    ensures n == 0 ==> n / d == 0
  {
    var q := n / d;
    assert n == d * q + n % d;
    assert (d - 1) * q >= 0 by { NonNegativeProduct(d - 1, q); }
    assert d * q == (d - 1) * q + q;
  }

  lemma NonNegativeProduct(x: nat, y: nat)
    ensures x * y >= 0
  {
  }
}
