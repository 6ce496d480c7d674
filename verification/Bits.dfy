/** Go's uint64 and its bitwise operators, on numbers. */
module Bits {
  import opened Arithmetic

  const TWO_64: nat := 0x1_0000_0000_0000_0000
  const TWO_63: nat := 0x8000_0000_0000_0000

  type uint64 = x: int | 0 <= x < TWO_64

  function Wrap(n: int): uint64 {
    n % TWO_64
  }

  function Or(a: nat, b: nat): nat {
    if a == 0 && b == 0 then 0
    else (if a % 2 == 1 || b % 2 == 1 then 1 else 0) + 2 * Or(a / 2, b / 2)
  }

  function And(a: nat, b: nat): nat {
    if a == 0 || b == 0 then 0
    else (if a % 2 == 1 && b % 2 == 1 then 1 else 0) + 2 * And(a / 2, b / 2)
  }

  /** The width of a word, as one more than `b`. The bounds say that `b` is 63 without making the solver unroll. */
  lemma WordBits() returns (b: nat)
    ensures 62 < b < 64 && Pow2(b) == TWO_63 && Pow2(b + 1) == TWO_64
  {
    b := 63;
    assert Pow2(8) == 0x100;
    Pow2Adds(8, 8);
    Pow2Adds(16, 16);
    Pow2Adds(32, 32);
  }

  lemma OrWithOdd(x: nat, m: nat)
    ensures Or(x, 2 * m + 1) == 2 * Or(x / 2, m) + 1
  {
    assert (2 * m + 1) / 2 == m && (2 * m + 1) % 2 == 1;
  }

  lemma AndWithOdd(x: nat, m: nat)
    ensures And(x, 2 * m + 1) == 2 * And(x / 2, m) + x % 2
  {
    assert (2 * m + 1) / 2 == m && (2 * m + 1) % 2 == 1;
  }

  /** Setting the lowest `t` bits. */
  lemma {:induction false} OrLowOnes(q: nat, r: nat, t: nat)
    requires r < Pow2(t)
    ensures q * Pow2(t) >= 0
    ensures Or(q * Pow2(t) + r, Pow2(t) - 1) == q * Pow2(t) + Pow2(t) - 1
  {
    MulMonotone(0, q, Pow2(t));
    if t == 0 {
      OrZero(q);
    } else {
      var p := Pow2(t - 1);
      var x := q * Pow2(t) + r;
      assert q * (2 * p) == 2 * (q * p);
      OrLowOnes(q, r / 2, t - 1);
      assert x / 2 == q * p + r / 2;
      OrWithOdd(x, p - 1);
    }
  }

  lemma {:induction false} OrZero(x: nat)
    ensures Or(x, 0) == x
  {
    if x > 0 {
      OrZero(x / 2);
    }
  }

  /** Keeping the lowest `t` bits is taking the remainder by a power of two. */
  lemma {:induction false} AndLowOnes(x: nat, t: nat)
    ensures And(x, Pow2(t) - 1) == x % Pow2(t)
  {
    if t > 0 {
      var p := Pow2(t - 1);
      HalfFirst(x, p);
      AndLowOnes(x / 2, t - 1);
      AndWithOdd(x, p - 1);
    }
  }

  lemma {:induction false} OrShifts(a: nat, b: nat, n: nat)
    ensures DropBits(Or(a, b), n) == Or(DropBits(a, n), DropBits(b, n))
  {
    if n > 0 {
      assert Or(a, b) / 2 == Or(a / 2, b / 2);
      OrShifts(a / 2, b / 2, n - 1);
      DropBitsOfHalf(a, n);
      DropBitsOfHalf(b, n);
      DropBitsOfHalf(Or(a, b), n);
    }
  }

  lemma {:induction false} OrBelow(a: nat, b: nat, k: nat)
    requires a < Pow2(k) && b < Pow2(k)
    ensures Or(a, b) < Pow2(k)
  {
    if k > 0 && (a > 0 || b > 0) {
      OrBelow(a / 2, b / 2, k - 1);
    }
  }
}
