/**
 * Rust integer operators that differ from Dafny's: `/` and `%` truncate
 * toward zero, where Dafny's are Euclidean.
 */
module RustInt {

  function Pow10(n: nat): (r: nat)
    ensures r >= 1
  {
    if n == 0 then 1 else 10 * Pow10(n - 1)
  }

  /** Value of a digit sequence read in base ten, most significant first. */
  function Decimal(d: seq<int>): int
  {
    if d == [] then 0 else 10 * Decimal(d[..|d| - 1]) + d[|d| - 1]
  }

  lemma DecimalPrefix(d: seq<int>, k: nat)
    requires 0 < k <= |d|
    ensures Decimal(d[..k]) == 10 * Decimal(d[..k - 1]) + d[k - 1]
  {
    assert d[..k][..k - 1] == d[..k - 1];
  }

  function Abs(x: int): (r: nat)
    ensures r == x || r == -x
  {
    if x < 0 then -x else x
  }

  /** Rust's `a / d` for a positive divisor: the quotient truncated toward zero. */
  function TruncDiv(a: int, d: int): (q: int)
    requires d > 0
    ensures a >= 0 ==> q == a / d
    ensures a < 0 ==> q == -((-a) / d)
  {
    if a >= 0 then a / d else -((-a) / d)
  }

  /** Rust's `a % d` for a positive divisor: the remainder takes the sign of `a`. */
  function TruncRem(a: int, d: int): (r: int)
    requires d > 0
    ensures a == d * TruncDiv(a, d) + r
    ensures a >= 0 ==> 0 <= r < d && r == a % d
    ensures a < 0 ==> -d < r <= 0
  {
    a - d * TruncDiv(a, d)
  }

  /**
   * `nth_digit(n, number)` (intcode, days 4 and 5): `(number / 10^n) % 10` with Rust's truncating
   * operators: a digit of the magnitude, carrying the sign of the number.
   */
  function NthDigit(n: nat, number: int): (d: int)
    ensures -10 < d < 10
    ensures number >= 0 ==> 0 <= d
    ensures number < 0 ==> d <= 0
  {
    TruncDivSign(number, Pow10(n));
    TruncRem(TruncDiv(number, Pow10(n)), 10)
  }

  lemma NthDigitOfNatural(n: nat, x: int)
    requires x >= 0
    ensures NthDigit(n, x) == (x / Pow10(n)) % 10
  {
    var q := x / Pow10(n);
    DivNonneg(x, Pow10(n));
    assert TruncDiv(x, Pow10(n)) == q;
  }

  lemma DivNonneg(x: int, p: int)
    requires x >= 0 && p > 0
    ensures x / p >= 0
  {
  }

  /** The truncated quotient by a positive divisor keeps the sign of the dividend. */
  lemma TruncDivSign(a: int, d: int)
    requires d > 0
    ensures a >= 0 ==> TruncDiv(a, d) >= 0
    ensures a < 0 ==> TruncDiv(a, d) <= 0
  {
    DivNonneg(if a >= 0 then a else -a, d);
  }

  lemma Pow10Values()
    ensures Pow10(2) == 100 && Pow10(3) == 1000 && Pow10(4) == 10000
  {
    assert Pow10(1) == 10;
  }

  lemma Pow10Six()
    ensures Pow10(0) == 1 && Pow10(1) == 10 && Pow10(2) == 100
    ensures Pow10(3) == 1000 && Pow10(4) == 10000 && Pow10(5) == 100000
  {
  }

  /** Division by a power of ten, written with the quotient and remainder it must produce. */
  lemma DivLit(q: int, r: int, d: int)
    requires d == 10 || d == 100 || d == 1000 || d == 10000 || d == 100000
    requires 0 <= r < d
    ensures (d * q + r) / d == q && (d * q + r) % d == r
  {
    if d == 10 {} else if d == 100 {} else if d == 1000 {} else if d == 10000 {} else {}
  }

  lemma DivDiv(a: nat, p: int)
    requires p == 1 || p == 10 || p == 100 || p == 1000 || p == 10000
    ensures a / (10 * p) == (a / p) / 10
  {
    var q := a / (10 * p);
    var r := a % (10 * p);
    assert a == 10 * p * q + r;
    var s := r / p;
    assert r == p * s + r % p;
    assert s < 10 by {
      if p == 1 {} else if p == 10 {} else if p == 100 {} else if p == 1000 {} else {}
    }
    assert a == p * (10 * q + s) + r % p;
    if p != 1 {
      DivLit(10 * q + s, r % p, p);
    }
    DivLit(q, s, 10);
  }

}
