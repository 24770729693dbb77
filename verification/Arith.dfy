/** The few facts about products, quotients and remainders the readers rest on. */
module Arith {
  lemma MulOrder(a: int, b: int, m: nat)
    requires a <= b
    ensures a * m <= b * m
  {
    MulMinus(b, a, m);
  }

  lemma MulMinus(a: int, b: int, m: int)
    ensures (a - b) * m == a * m - b * m
  {
  }

  lemma MulPlus(a: int, b: int, m: int)
    ensures (a + b) * m == a * m + b * m
  {
  }

  /** A quotient and remainder that fit are the quotient and remainder. */
  lemma DivModUnique(x: int, m: nat, q: int, r: nat)
    requires x == q * m + r && r < m
    ensures x / m == q && x % m == r
  {
    var d := x / m;
    if d < q {
      MulOrder(d + 1, q, m);
      MulPlus(d, 1, m);
    } else if d > q {
      MulOrder(q + 1, d, m);
      MulPlus(q, 1, m);
    }
  }

  lemma MulMod(a: int, m: nat)
    requires m > 0
    ensures a * m % m == 0 && a * m / m == a
  {
    DivModUnique(a * m, m, a, 0);
  }

  lemma Floor(a: nat, b: nat)
    requires b > 0
    ensures a / b * b <= a < a / b * b + b
    ensures a % b == a - a / b * b
  {
  }

  /** Multiples add up to multiples. */
  lemma SumMod(a: int, b: int, m: nat)
    requires m > 0 && a % m == 0 && b % m == 0
    ensures (a + b) % m == 0 && (a - b) % m == 0
  {
    var p, q := a / m, b / m;
    assert a == p * m && b == q * m;
    MulPlus(p, q, m);
    MulMinus(p, q, m);
    MulMod(p + q, m);
    MulMod(p - q, m);
  }

  lemma ProductMod(a: int, b: int, m: nat)
    requires m > 0 && b % m == 0
    ensures a * b % m == 0
  {
    var q := b / m;
    assert b == q * m;
    assert a * (q * m) == (a * q) * m;
    MulMod(a * q, m);
  }

  predicate PowerOfTwo(n: nat) {
    n == 1 || (n > 1 && n % 2 == 0 && PowerOfTwo(n / 2))
  }
}
