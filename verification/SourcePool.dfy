/**
 The pool of random sources (lightstep/rand/pool.go): its size is rounded up to a power of two by smearing bits, so
 that a mask can stand for the remainder when `Pick` goes round the pool.
 */
module SourcePool {
  import opened Arithmetic
  import opened Bits

  // ---------------------------------------------------------------------------------------------------------------
  // Rounding up to a power of two

  /** `r` is the smallest power of two that is not below `v`. */
  ghost predicate LeastPow2AtLeast(v: nat, r: nat) {
    (exists k: nat :: r == Pow2(k)) && v <= r && forall k: nat :: v <= Pow2(k) ==> r <= Pow2(k)
  }

  /** `w` needs `len` binary digits, and the highest `t` of them are ones. */
  ghost predicate TopOnes(w: nat, len: nat, t: nat) {
    t <= len && w < Pow2(len) && DropBits(w, len - t) == Pow2(t) - 1
  }

  lemma SplitAt(w: nat, k: nat) returns (r: nat)
    ensures w == DropBits(w, k) * Pow2(k) + r && r < Pow2(k)
  {
    r := w % Pow2(k);
  }

  /** Ones over zeros is a smaller number of ones. */
  lemma DropOnes(a: nat, b: nat)
    ensures DropBits(Pow2(a + b) - 1, b) == Pow2(a) - 1
  {
    Pow2Adds(a, b);
    assert (Pow2(a) - 1) * Pow2(b) == Pow2(a) * Pow2(b) - Pow2(b);
    DivModUnique(Pow2(a + b) - 1, Pow2(a) - 1, Pow2(b) - 1, Pow2(b));
  }

  /** Ones above, then ones set below: ones throughout. */
  lemma OnesAbove(x: nat, a: nat, b: nat)
    requires DropBits(x, b) == Pow2(a) - 1
    ensures Or(x, Pow2(b) - 1) == Pow2(a + b) - 1
  {
    hide Or;
    hide Pow2;
    var r := SplitAt(x, b);
    OrLowOnes(Pow2(a) - 1, r, b);
    Pow2Adds(a, b);
    assert (Pow2(a) - 1) * Pow2(b) == Pow2(a) * Pow2(b) - Pow2(b);
  }

  /** The `u` digits below the run of ones get ones from the shifted number. */
  lemma ShiftedOnes(w: nat, len: nat, t: nat, u: nat)
    requires TopOnes(w, len, t) && u <= t && t + u <= len
    ensures DropBits(DropBits(w, t), len - t - u) == Pow2(u) - 1
  {
    DropBitsTwice(w, t, len - t - u);
    DropBitsTwice(w, len - t, t - u);
    DropOnes(u, t - u);
  }

  /** `v |= v >> t` doubles the run of ones at the top, or fills the number. */
  lemma SmearDoubles(w: nat, len: nat, t: nat)
    requires TopOnes(w, len, t)
    ensures TopOnes(Or(w, DropBits(w, t)), len, if 2 * t <= len then 2 * t else len)
  {
    var u := if 2 * t <= len then t else len - t;
    var rest := len - t - u;
    var shifted := DropBits(w, t);
    ShiftedOnes(w, len, t, u);
    DropBitsTwice(w, rest, u);
    OnesAbove(DropBits(w, rest), t, u);
    OrShifts(w, shifted, rest);
    OrBelow(w, shifted, len) by {
      DropBitsBelow(w, t);
    }
  }

  lemma DropBitsBelow(n: nat, k: nat)
    ensures DropBits(n, k) <= n
  {
    var r := SplitAt(n, k);
    MulMonotone(1, Pow2(k), DropBits(n, k));
    assert DropBits(n, k) * Pow2(k) == Pow2(k) * DropBits(n, k);
  }

  /** How many binary digits `w` needs. */
  function Digits(w: nat): (len: nat)
    ensures w < Pow2(len) && (w > 0 ==> len > 0 && Pow2(len - 1) <= w)
  {
    if w == 0 then 0 else Digits(w / 2) + 1
  }

  lemma TopDigitIsOne(w: nat)
    requires w > 0
    ensures TopOnes(w, Digits(w), 1)
  {
    var p := Pow2(Digits(w) - 1);
    DivModUnique(w, 1, w - p, p);
  }

  function Run(t: nat, len: nat): nat {
    if t <= len then t else len
  }

  /** A step whose shift may exceed the number of digits. */
  lemma SmearStep(w: nat, len: nat, t: nat)
    requires TopOnes(w, len, Run(t, len))
    ensures TopOnes(Or(w, DropBits(w, t)), len, Run(2 * t, len))
  {
    if t <= len {
      SmearDoubles(w, len, t);
    } else {
      Pow2Grows(len, t);
      DivModUnique(w, 0, w, Pow2(t));
      OrZero(w);
    }
  }

  function Smear(w: nat, t: nat): nat {
    Or(w, DropBits(w, t))
  }

  /** The six smearing steps turn a 64-bit number into as many ones as it has digits. */
  lemma SixStepsFill(w: nat, len: nat)
    requires 0 < len <= 64 && TopOnes(w, len, 1)
    ensures Smear(Smear(Smear(Smear(Smear(Smear(w, 1), 2), 4), 8), 16), 32) == Pow2(len) - 1
  {
    SmearStep(w, len, 1);
    var w1 := Smear(w, 1);
    SmearStep(w1, len, 2);
    var w2 := Smear(w1, 2);
    SmearStep(w2, len, 4);
    var w3 := Smear(w2, 4);
    SmearStep(w3, len, 8);
    var w4 := Smear(w3, 8);
    SmearStep(w4, len, 16);
    SmearStep(Smear(w4, 16), len, 32);
  }

  lemma SmearStays64(w: uint64, t: nat)
    ensures Smear(w, t) < TWO_64
  {
    var b := WordBits();
    DropBitsBelow(w, t);
    OrBelow(w, DropBits(w, t), b + 1);
  }

  lemma DigitsAtMost(w: nat, k: nat)
    requires w < Pow2(k)
    ensures Digits(w) <= k
  {
    if w > 0 {
      Pow2Order(Digits(w) - 1, k);
    }
  }

  lemma Pow2Order(a: nat, b: nat)
    requires Pow2(a) < Pow2(b)
    ensures a < b
  {
    if b <= a {
      Pow2Grows(b, a);
    }
  }

  lemma DigitsRoundUp(v: nat)
    requires v >= 1
    ensures LeastPow2AtLeast(v, Pow2(Digits(v - 1)))
  {
    forall k: nat | v <= Pow2(k) ensures Pow2(Digits(v - 1)) <= Pow2(k) {
      DigitsAtMost(v - 1, k);
      Pow2Grows(Digits(v - 1), k);
    }
  }

  lemma SmearFills(w: uint64)
    ensures Smear(Smear(Smear(Smear(Smear(Smear(w, 1), 2), 4), 8), 16), 32) == Pow2(Digits(w)) - 1
  {
    var b := WordBits();
    DigitsAtMost(w, b + 1);
    if w == 0 {
      SmearZero();
    } else {
      TopDigitIsOne(w);
      SixStepsFill(w, Digits(w));
    }
  }

  lemma RoundsWithinWord(w: uint64)
    ensures w < TWO_63 ==> Pow2(Digits(w)) <= TWO_63
    ensures w >= TWO_63 ==> Pow2(Digits(w)) == TWO_64
  {
    var b := WordBits();
    var len := Digits(w);
    if w < TWO_63 {
      DigitsAtMost(w, b);
      Pow2Grows(len, b);
    } else {
      DigitsAtMost(w, b + 1);
      Pow2Order(b, len);
      assert len == b + 1;
    }
  }

  /** The size a pool gets for the size asked for. 0, and every size above 2^63, wrap around to 0. */
  function Rounded(size: uint64): (r: uint64)
  {
    if 1 <= size <= TWO_63 then
      RoundsWithinWord(size - 1);
      Pow2(Digits(size - 1))
    else
      0
  }

  /** Sizes from 1 to 2^63 are rounded up to the nearest power of two. They are the only ones that give a source. */
  lemma RoundedIsLeast(size: uint64)
    ensures 1 <= size <= TWO_63 <==> Rounded(size) > 0
    ensures 1 <= size <= TWO_63 ==> LeastPow2AtLeast(size, Rounded(size))
  {
    if size > 0 {
      DigitsRoundUp(size);
    }
  }

  lemma OnesPlusOne(size: uint64)
    ensures Wrap(Pow2(Digits(Wrap(size - 1)))) == Rounded(size)
  {
    var w := Wrap(size - 1);
    var r := Pow2(Digits(w));
    RoundsWithinWord(w);
    if 1 <= size <= TWO_63 {
      assert w == size - 1;
      assert r <= TWO_63;
    } else {
      assert r == TWO_64;
    }
  }

  /** What the bit twiddling computes. */
  method NextNearestPow2uint64(size: uint64) returns (v: uint64)
    ensures v == Rounded(size)
  {
    v := Wrap(size - 1);
    ghost var w := v;
    SmearStays64(v, 1);
    v := Or(v, DropBits(v, 1));
    SmearStays64(v, 2);
    v := Or(v, DropBits(v, 2));
    SmearStays64(v, 4);
    v := Or(v, DropBits(v, 4));
    SmearStays64(v, 8);
    v := Or(v, DropBits(v, 8));
    SmearStays64(v, 16);
    v := Or(v, DropBits(v, 16));
    SmearStays64(v, 32);
    v := Or(v, DropBits(v, 32));
    SmearFills(w);
    OnesPlusOne(size);
    v := Wrap(v + 1);
  }

  lemma SmearZero()
    ensures Smear(Smear(Smear(Smear(Smear(Smear(0, 1), 2), 4), 8), 16), 32) == 0
  {
    forall t: nat ensures Smear(0, t) == 0 {
      DivModUnique(0, 0, 0, Pow2(t));
      OrZero(0);
    }
  }

  /** The rounding is a function, leaves powers of two alone, less than doubles, and is monotone. */
  lemma RoundingLaws(v: nat, r: nat, v': nat, r': nat)
    requires v >= 1 && LeastPow2AtLeast(v, r) && LeastPow2AtLeast(v', r')
    ensures v == v' ==> r == r'
    ensures (exists k: nat :: v == Pow2(k)) ==> r == v
    ensures r < 2 * v
    ensures v <= v' ==> r <= r'
  {
    var k: nat :| r == Pow2(k);
    var k': nat :| r' == Pow2(k');
    assert v' <= Pow2(k') && v <= Pow2(k);
    if k > 0 {
      assert !(v <= Pow2(k - 1));
    }
  }

  // ---------------------------------------------------------------------------------------------------------------
  // Going round the pool

  /** A source, known by the seed it was made with. */
  datatype NumberGenerator = LockedRand(seed: int)

  class Pool {
    var sources: array<NumberGenerator>
    var counter: uint64
    var size: uint64

    ghost predicate Valid()
      reads this
    {
      sources.Length == size && exists k: nat :: k < 64 && size == Pow2(k)
    }

    /** `seeds` stands for the sequence that `seed` makes: its i-th number seeds the i-th source. */
    constructor (seeds: nat -> int, requested: uint64)
      ensures 1 <= requested <= TWO_63 ==> Valid()
      ensures sources.Length == size && fresh(sources)
      ensures size == Rounded(requested) && counter == 0
      ensures forall i :: 0 <= i < size ==> sources[i] == LockedRand(seeds(i))
    {
      var groupsize := NextNearestPow2uint64(requested);
      size := groupsize;
      counter := 0;
      sources := new NumberGenerator[groupsize];
      new;
      Seed(seeds);
      if 1 <= requested <= TWO_63 {
        FitsBelow64(requested);
      }
    }

    method Seed(seeds: nat -> int)
      requires sources.Length == size
      modifies sources
      ensures forall i :: 0 <= i < size ==> sources[i] == LockedRand(seeds(i))
    {
      for i := 0 to size
        invariant forall j :: 0 <= j < i ==> sources[j] == LockedRand(seeds(j))
      {
        sources[i] := LockedRand(seeds(i));
      }
    }

    method Pick() returns (source: NumberGenerator)
      requires Valid()
      modifies this`counter
      ensures Valid() && counter == Wrap(old(counter) + 1)
      ensures PickIndex(old(counter), size, 0) < sources.Length
      ensures source == sources[PickIndex(old(counter), size, 0)]
    {
      counter := Wrap(counter + 1);
      var selection := And(counter, size - 1);
      ghost var k: nat :| k < 64 && size == Pow2(k);
      AndLowOnes(counter, k);
      PickGoesRound(old(counter), k, 0);
      source := sources[selection];
    }

    /**
     Any number of picks in a row, whoever makes them. No source is used more than once more often than another, and as
     many picks as there are sources go round them all once, starting behind the counter.
     */
    method PickInTurn(n: nat) returns (picked: seq<NumberGenerator>)
      requires Valid()
      modifies this`counter
      ensures Valid() && counter == Wrap(old(counter) + n)
      ensures |picked| == n
      ensures forall i :: 0 <= i < n ==>
        PickIndex(old(counter), size, i) < sources.Length && picked[i] == sources[PickIndex(old(counter), size, i)]
      ensures forall j, j' :: 0 <= j < size && 0 <= j' < size ==>
        -1 <= Picks(old(counter), size, n, j) - Picks(old(counter), size, n, j') <= 1
      ensures n == size ==>
        var first := (old(counter) + 1) % size;
        picked == sources[first..] + sources[..first] && multiset(picked) == multiset(sources[..])
    {
      picked := [];
      ghost var k: nat :| k < 64 && size == Pow2(k);
      for i := 0 to n
        invariant counter == Wrap(old(counter) + i) && |picked| == i
        invariant forall i' :: 0 <= i' < i ==>
          PickIndex(old(counter), size, i') < sources.Length && picked[i'] == sources[PickIndex(old(counter), size, i')]
      {
        NextPick(old(counter), size, i);
        var source := Pick();
        picked := picked + [source];
      }
      forall j, j' | 0 <= j < size && 0 <= j' < size
        ensures -1 <= Picks(old(counter), size, n, j) - Picks(old(counter), size, n, j') <= 1
      {
        PicksAreFair(old(counter), k, n, j, j');
      }
      if n == size {
        OneRound(sources[..], old(counter), k, picked);
      }
    }
  }

  lemma FitsBelow64(requested: uint64)
    requires 1 <= requested <= TWO_63
    ensures exists k: nat :: k < 64 && Rounded(requested) == Pow2(k)
  {
    var b := WordBits();
    DigitsAtMost(requested - 1, b);
  }

  /** The counter after `i + 1` more picks from a pool whose counter was `start`. */
  function CounterAfter(start: uint64, i: nat): uint64 {
    Wrap(start + 1 + i)
  }

  /** The index the `i`-th pick after that uses, wrapping the counter first and taking the remainder then. */
  function PickIndex(start: uint64, size: uint64, i: nat): nat
    requires size > 0
  {
    CounterAfter(start, i) % size
  }

  /** Wrapping the 64-bit counter around does not disturb the round. */
  lemma PickGoesRound(start: uint64, k: nat, i: nat)
    requires k < 64
    ensures Pow2(k) < TWO_64
    ensures PickIndex(start, Pow2(k), i) == (start + 1 + i) % Pow2(k) < Pow2(k)
  {
    var b := WordBits();
    Pow2Grows(k, b);
    Pow2Adds(b + 1 - k, k);
    ModOfMod(start + 1 + i, Pow2(k), Pow2(b + 1 - k));
  }

  /** One pick after `i` others. */
  lemma NextPick(start: uint64, size: uint64, i: nat)
    requires size > 0
    ensures PickIndex(Wrap(start + i), size, 0) == PickIndex(start, size, i)
    ensures Wrap(Wrap(start + i) + 1) == Wrap(start + i + 1)
  {
    var q := (start + i) / TWO_64;
    assert start + i + 1 == q * TWO_64 + (Wrap(start + i) + 1);
    ModOfMultiple(q, Wrap(start + i) + 1, TWO_64);
  }

  /** A whole round is the sources from behind the counter on, and then those before. */
  lemma OneRound<T>(s: seq<T>, start: uint64, k: nat, picked: seq<T>)
    requires k < 64 && |s| == |picked| == Pow2(k) < TWO_64
    requires forall i :: 0 <= i < |s| ==>
      PickIndex(start, Pow2(k), i) < |s| && picked[i] == s[PickIndex(start, Pow2(k), i)]
    ensures
      var first := (start + 1) % Pow2(k);
      picked == s[first..] + s[..first] && multiset(picked) == multiset(s)
  {
    hide PickIndex;
    hide Pow2;
    var m := Pow2(k);
    var first := (start + 1) % m;
    forall i | 0 <= i < m ensures picked[i] == (s[first..] + s[..first])[i] {
      PickGoesRound(start, k, i);
      RoundWraps(start + 1, i, m);
    }
    assert picked == s[first..] + s[..first];
    assert s == s[..first] + s[first..];
  }

  lemma RoundWraps(a: nat, i: nat, m: nat)
    requires i < m
    ensures (a + i) % m == if a % m + i < m then a % m + i else a % m + i - m
  {
    var q, r := a / m, a % m;
    assert a + i == q * m + (r + i);
    ModOfMultiple(q, r + i, m);
    if r + i < m {
      DivModUnique(r + i, 0, r + i, m);
    } else {
      DivModUnique(r + i, 1, r + i - m, m);
    }
  }

  /** The pick, among the next `size`, that uses source `j`. */
  function PickOf(start: uint64, m: nat, j: nat): (i: nat)
    requires m > 0
  {
    (j - (start + 1)) % m
  }

  lemma PickOfHits(start: uint64, k: nat, j: nat)
    requires k < 64 && j < Pow2(k)
    ensures Pow2(k) < TWO_64
    ensures PickOf(start, Pow2(k), j) < Pow2(k) && PickIndex(start, Pow2(k), PickOf(start, Pow2(k), j)) == j
  {
    PickGoesRound(start, k, (j - (start + 1)) % Pow2(k));
    DistanceHits(start + 1, j, Pow2(k));
  }

  /** Going forward by the distance, modulo `m`, arrives. */
  lemma DistanceHits(from: nat, j: nat, m: nat)
    requires j < m
    ensures (from + (j - from) % m) % m == j
  {
    var q, i := (j - from) / m, (j - from) % m;
    MulNegates(q, m);
    assert from + i == (-q) * m + j;
    ModOfMultiple(-q, j, m);
    DivModUnique(j, 0, j, m);
  }

  /** Wherever the counter stands, `size` picks in a row use every source exactly once. */
  lemma WindowHitsEachOnce(start: uint64, k: nat, j: nat)
    requires k < 64 && j < Pow2(k)
    ensures Pow2(k) < TWO_64
    ensures exists i: nat :: i < Pow2(k) && PickIndex(start, Pow2(k), i) == j
    ensures forall i: nat, i': nat ::
      i < Pow2(k) && i' < Pow2(k) && PickIndex(start, Pow2(k), i) == j == PickIndex(start, Pow2(k), i') ==> i == i'
  {
    PickOfHits(start, k, j);
    forall i: nat, i': nat
      | i < Pow2(k) && i' < Pow2(k) && PickIndex(start, Pow2(k), i) == j == PickIndex(start, Pow2(k), i')
      ensures i == i'
    {
      OnePickPerSource(start, k, i, i');
    }
  }

  lemma OnePickPerSource(start: uint64, k: nat, i: nat, i': nat)
    requires k < 64 && Pow2(k) < TWO_64 && i < Pow2(k) && i' < Pow2(k)
    requires PickIndex(start, Pow2(k), i) == PickIndex(start, Pow2(k), i')
    ensures i == i'
  {
    hide PickIndex;
    hide Pow2;
    PickGoesRound(start, k, i);
    PickGoesRound(start, k, i');
    SameRemainderSameIndex(start + 1, i, i', Pow2(k));
  }

  lemma SameRemainderSameIndex(a: nat, i: nat, i': nat, m: nat)
    requires i < m && i' < m && (a + i) % m == (a + i') % m
    ensures i == i'
  {
    var q, q' := (a + i) / m, (a + i') / m;
    assert (q - q') * m == q * m - q' * m;
    MulSmallIsZero(q - q', m);
  }

  /** How many of the first `n` picks use source `j`. */
  ghost function Picks(start: uint64, size: uint64, n: nat, j: nat): nat
    requires size > 0
  {
    if n == 0 then 0
    else Picks(start, size, n - 1, j) + (if PickIndex(start, size, n - 1) == j then 1 else 0)
  }

  lemma {:induction false} PicksCounted(start: uint64, k: nat, n: nat, j: nat)
    requires k < 64 && j < Pow2(k)
    ensures Pow2(k) < TWO_64
    ensures Picks(start, Pow2(k), n, j) == (start + n - j) / Pow2(k) - (start - j) / Pow2(k)
  {
    PickGoesRound(start, k, n);
    var m := Pow2(k);
    if n > 0 {
      PicksCounted(start, k, n - 1, j);
      PickGoesRound(start, k, n - 1);
      NextQuotient(start + n - 1 - j, m);
      HitsWhenDivides(start + n, j, m);
    }
  }

  lemma HitsWhenDivides(x: nat, j: nat, m: nat)
    requires j < m
    ensures (x % m == j) == ((x - j) % m == 0)
  {
    var q := x / m;
    assert x == q * m + x % m;
    ModOfMultiple(q, x % m - j, m);
    if x % m == j {
      DivModUnique(x - j, q, 0, m);
    } else if (x - j) % m == 0 {
      var p := (x - j) / m;
      DivModUnique(x, p, j, m);
    }
  }

  lemma PicksBetween(start: uint64, k: nat, n: nat, j: nat)
    requires k < 64 && j < Pow2(k)
    ensures Pow2(k) < TWO_64
    ensures n / Pow2(k) <= Picks(start, Pow2(k), n, j) <= n / Pow2(k) + 1
  {
    PicksCounted(start, k, n, j);
    QuotientsOfSum(start - j, n, Pow2(k));
  }

  /** The pool is fair: after any number of picks no source was used more than once more often than another. */
  lemma PicksAreFair(start: uint64, k: nat, n: nat, j: nat, j': nat)
    requires k < 64 && j < Pow2(k) && j' < Pow2(k)
    ensures Pow2(k) < TWO_64
    ensures -1 <= Picks(start, Pow2(k), n, j) - Picks(start, Pow2(k), n, j') <= 1
  {
    PicksBetween(start, k, n, j);
    PicksBetween(start, k, n, j');
  }

  lemma QuotientsOfSum(a: int, n: nat, m: nat)
    requires m > 0
    ensures n / m <= (a + n) / m - a / m <= n / m + 1
  {
    var q, r := a / m, a % m;
    var q', r' := n / m, n % m;
    assert (q + q') * m == q * m + q' * m;
    if r + r' < m {
      DivModUnique(a + n, q + q', r + r', m);
    } else {
      assert (q + q' + 1) * m == (q + q') * m + m;
      DivModUnique(a + n, q + q' + 1, r + r' - m, m);
    }
  }
}
