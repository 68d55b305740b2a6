/** Powers of a base and the digits of a number written in that base. */
module Radix {

  function Times(n: nat, p: nat): nat {
    n * p
  }

  function Pow(b: nat, k: nat): (p: nat)
    requires b >= 1
    ensures p >= 1
  {
    if k == 0 then 1 else MulMonotone(1, b, Pow(b, k - 1)); Times(b, Pow(b, k - 1))
  }

  lemma MulMonotone(a: int, b: int, m: nat)
    requires a <= b
    ensures a * m <= b * m
  {
    assert (b - a) * m >= 0;
  }

  lemma MulLinear(a: int, b: int, m: int)
    ensures (a + b) * m == a * m + b * m
    ensures (a - b) * m == a * m - b * m
  {
  }

  lemma MulAssoc(a: int, b: int, c: int)
    ensures a * b * c == a * (b * c)
  {
  }

  lemma DivMod(n: nat, m: nat)
    requires m >= 1
    ensures n == n / m * m + n % m
  {
  }

  lemma DivModUnique(n: nat, m: nat, q: nat, r: nat)
    requires m >= 1 && r < m && n == q * m + r
    ensures n / m == q && n % m == r
  {
    DivMod(n, m);
    var q', r' := n / m, n % m;
    MulLinear(q, q', m);
    if q - q' >= 1 {
      MulMonotone(1, q - q', m);
    } else if q - q' <= -1 {
      MulMonotone(q - q', -1, m);
    }
  }

  /** Taking one digit off: the part of `n` below `b * p` is the digit at weight `p` and the part below `p`. */
  lemma DigitSplit(n: nat, p: nat, b: nat)
    requires p >= 1 && b >= 1
    ensures b * p >= 1
    ensures n % (b * p) == n / p % b * p + n % p
  {
    var q, r := n / p, n % p;
    var a, d := q / b, q % b;
    DivMod(n, p);
    DivMod(q, b);
    MulLinear(a * b, d, p);
    MulAssoc(a, b, p);
    MulMonotone(d + 1, b, p);
    MulLinear(d, 1, p);
    MulMonotone(1, b, p);
    DivModUnique(n, b * p, a, d * p + r);
  }

  /** A remainder below `m` is untouched by a multiple of `m` in front of it. */
  lemma ModOfMultiple(a: nat, m: nat, r: nat)
    requires m >= 1
    ensures a * m >= 0 && (a * m + r) % m == r % m
  {
    DivMod(r, m);
    MulLinear(a, r / m, m);
    MulMonotone(0, a, m);
    DivModUnique(a * m + r, m, a + r / m, r % m);
  }

  lemma ModAtMost(n: nat, m: nat)
    requires m >= 1
    ensures 0 <= n % m <= n
  {
    if n < m {
      DivModUnique(n, m, 0, n);
    }
  }

  /** Removing the digit at weight `p` leaves a number with the same part below `p`. */
  lemma TakeDigit(n: nat, p: nat, b: nat, d: nat)
    requires p >= 1 && b >= 1 && d == n / p % b
    ensures b * p >= 1
    ensures d * p <= n
    ensures d * p + (n - d * p) % p == n % (b * p)
  {
    ModAtMost(n / p, b);
    DigitSplit(n, p, b);
    RestOfDigit(n, p, d);
  }

  lemma RestOfDigit(n: nat, p: nat, d: nat)
    requires p >= 1 && d <= n / p
    ensures d * p <= n && (n - d * p) % p == n % p
  {
    var q := n / p;
    DivMod(n, p);
    MulMonotone(d, q, p);
    MulLinear(q, d, p);
    DivModUnique(n - d * p, p, q - d, n % p);
  }

  lemma NextMod(n: nat, m: nat)
    requires m >= 1
    ensures (n + 1) % m == if n % m + 1 == m then 0 else n % m + 1
  {
    NextModFrom(n, m, n / m, n % m);
  }

  lemma NextModFrom(n: nat, m: nat, q: nat, r: nat)
    requires m >= 1 && q == n / m && r == n % m
    ensures (n + 1) % m == if r + 1 == m then 0 else r + 1
  {
    DivMod(n, m);
    MulLinear(q, 1, m);
    if r + 1 == m {
      DivModUnique(n + 1, m, q + 1, 0);
    } else {
      DivModUnique(n + 1, m, q, r + 1);
    }
  }

  lemma QuotientBelow(n: nat, p: nat, b: nat)
    requires p >= 1 && n < b * p
    ensures n / p < b
  {
    DivMod(n, p);
    if n / p >= b {
      MulMonotone(b, n / p, p);
    }
  }
}
