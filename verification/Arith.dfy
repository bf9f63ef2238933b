/** Quotients and remainders by a variable divisor. */
module Arith {
  lemma {:induction false} Multiples(n: nat, d: int)
    ensures (d >= 1 ==> n * d >= n) && (d <= -1 ==> n * d + n <= 0)
  {
  }

  lemma {:induction false} Quotient(x: int, n: nat, q: int, r: int)
    requires n > 0 && x == n * q + r && 0 <= r < n
    ensures x / n == q && x % n == r
  {
    Multiples(n, x / n - q);
    assert n * (x / n - q) == n * (x / n) - n * q;
  }

  /** Remainder and quotient of the next number. */
  lemma {:induction false} Increment(x: int, n: nat)
    requires n > 0
    ensures (x + 1) % n == if x % n + 1 < n then x % n + 1 else 0
    ensures (x + 1) / n == x / n + if (x + 1) % n == 0 then 1 else 0
  {
    var q, r := x / n, x % n;
    if r + 1 < n {
      Quotient(x + 1, n, q, r + 1);
    } else {
      assert n * (q + 1) == n * q + n;
      Quotient(x + 1, n, q + 1, 0);
    }
  }
}
