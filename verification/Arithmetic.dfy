/** Facts about multiplication, division and powers of two that the solver does not find alone. */
module Arithmetic {
  lemma MulGrows(k: int, m: int)
    requires k >= 1 && m >= 0
    ensures k * m >= m
  {
    assert (k - 1) * m >= 0;
    assert k * m == (k - 1) * m + m;
  }

  lemma MulNegates(k: int, m: int)
    ensures (-k) * m == -(k * m)
  {
  }

  lemma MulSmallIsZero(k: int, m: int)
    requires m > 0 && -m < k * m < m
    ensures k == 0
  {
    if k >= 1 {
      MulGrows(k, m);
    } else if k <= -1 {
      MulGrows(-k, m);
      MulNegates(k, m);
    }
  }

  /** Quotient and remainder are the only ones that fit. */
  lemma DivModUnique(n: int, q: int, r: int, m: int)
    requires 0 <= r < m && n == q * m + r
    ensures n / m == q && n % m == r
  {
    var d := n / m - q;
    assert d * m == (n / m) * m - q * m;
    assert n == (n / m) * m + n % m;
    MulSmallIsZero(d, m);
  }

  lemma NextRemainder(n: nat, m: nat)
    requires m > 0
    ensures (n + 1) % m == if n % m + 1 == m then 0 else n % m + 1
  {
    var q, r := n / m, n % m;
    assert n == q * m + r;
    if r + 1 == m {
      assert (q + 1) * m == q * m + m;
      DivModUnique(n + 1, q + 1, 0, m);
    } else {
      DivModUnique(n + 1, q, r + 1, m);
    }
  }

  /** Floor division of the next number: it grows exactly when the next number is a multiple. */
  lemma NextQuotient(n: int, m: nat)
    requires m > 0
    ensures (n + 1) / m == if (n + 1) % m == 0 then n / m + 1 else n / m
  {
    var q, r := n / m, n % m;
    assert n == q * m + r;
    if r + 1 == m {
      assert (q + 1) * m == q * m + m;
      DivModUnique(n + 1, q + 1, 0, m);
    } else {
      DivModUnique(n + 1, q, r + 1, m);
    }
  }

  lemma ModOfMultiple(q: int, r: int, m: nat)
    requires m > 0
    ensures (q * m + r) % m == r % m
  {
    var r' := r % m;
    assert r == (r / m) * m + r';
    assert (q + r / m) * m == q * m + (r / m) * m;
    DivModUnique(q * m + r, q + r / m, r', m);
  }

  /** Reducing by a multiple of `m` first does not change the remainder by `m`. */
  lemma ModOfMod(n: nat, m: nat, k: nat)
    requires m > 0 && k > 0
    ensures k * m > 0 && (n % (k * m)) % m == n % m
  {
    MulGrows(k, m);
    var big := k * m;
    var q, r := n / big, n % big;
    assert n == q * big + r;
    assert q * big == (q * k) * m;
    ModOfMultiple(q * k, r, m);
  }

  // Powers of two

  function Pow2(k: nat): (r: nat)
    ensures r >= 1
  {
    if k == 0 then 1 else 2 * Pow2(k - 1)
  }

  lemma {:induction false} Pow2Adds(a: nat, b: nat)
    ensures Pow2(a + b) == Pow2(a) * Pow2(b)
  {
    if a > 0 {
      Pow2Adds(a - 1, b);
      assert 2 * (Pow2(a - 1) * Pow2(b)) == (2 * Pow2(a - 1)) * Pow2(b);
    }
  }

  lemma {:induction false} Pow2Grows(a: nat, b: nat)
    requires a <= b
    ensures Pow2(a) <= Pow2(b)
    ensures a < b ==> 2 * Pow2(a) <= Pow2(b)
    decreases b
  {
    if a < b {
      Pow2Grows(a, b - 1);
    }
  }

  lemma Regroup(q: int, b: int, r: int, a: int)
    ensures (q * b + r) * a == q * (a * b) + r * a
  {
    assert (q * b + r) * a == (q * b) * a + r * a;
    assert (q * b) * a == q * (a * b);
  }

  lemma MulMonotone(x: int, y: int, m: int)
    requires x <= y && m >= 0
    ensures x * m <= y * m
  {
    assert (y - x) * m >= 0;
    assert y * m == x * m + (y - x) * m;
  }

  lemma MulOrder(x: int, y: int, m: int)
    requires x * m < y * m && m >= 0
    ensures x < y
  {
    if y <= x {
      MulMonotone(y, x, m);
    }
  }

  lemma MulAssociates(a: int, b: int, c: int)
    ensures (a * b) * c == a * (b * c)
  {
  }

  /** Cancels what two products have in common: `d * parts < n` and `size * n <= parts * limit`. */
  lemma ProductBound(d: nat, parts: nat, n: nat, size: nat, limit: nat)
    requires d * parts < n && size * n <= parts * limit && limit > 0
    ensures d * size < limit
  {
    calc {
      (d * size) * n;
    == { MulAssociates(d, size, n); }
      d * (size * n);
    <= { MulMonotone(size * n, parts * limit, d); }
      d * (parts * limit);
    == { MulAssociates(d, parts, limit); }
      (d * parts) * limit;
    <= { MulMonotone(d * parts, n - 1, limit); }
      (n - 1) * limit;
    <
      limit * n;
    }
    MulOrder(d * size, limit, n);
  }

  lemma DivDiv(n: nat, a: nat, b: nat)
    requires a > 0 && b > 0
    ensures a * b > 0 && n / a / b == n / (a * b)
  {
    MulGrows(a, b);
    var q, r := n / a, n % a;
    var q', r' := q / b, q % b;
    Regroup(q', b, r', a);
    MulMonotone(r' + 1, b, a);
    assert (r' + 1) * a == r' * a + a;
    MulMonotone(0, r', a);
    DivModUnique(n, q', r' * a + r, a * b);
  }

  lemma HalfFirst(n: nat, p: nat)
    requires p > 0
    ensures n / (2 * p) == (n / 2) / p
    ensures n % (2 * p) == 2 * ((n / 2) % p) + n % 2
  {
    var q, r := (n / 2) / p, (n / 2) % p;
    assert n / 2 == q * p + r;
    assert q * (2 * p) == 2 * (q * p);
    DivModUnique(n, q, 2 * r + n % 2, 2 * p);
  }

  lemma QuotientIsNat(n: nat, d: nat)
    requires d > 0
    ensures n / d >= 0
  {
    var q := n / d;
    assert n == q * d + n % d;
    MulNegates(1, d);
    MulOrder(-1, q, d);
  }

  /** `n` without its lowest `k` binary digits. */
  function DropBits(n: nat, k: nat): nat {
    QuotientIsNat(n, Pow2(k));
    n / Pow2(k)
  }

  lemma DropBitsOfHalf(n: nat, k: nat)
    requires k > 0
    ensures DropBits(n, k) == DropBits(n / 2, k - 1)
  {
    HalfFirst(n, Pow2(k - 1));
  }

  lemma DropBitsTwice(n: nat, a: nat, b: nat)
    ensures DropBits(DropBits(n, a), b) == DropBits(n, a + b)
  {
    Pow2Adds(a, b);
    DivDiv(n, Pow2(a), Pow2(b));
  }
}
