/**
 Go's base-16 `strconv.FormatUint` and `strconv.ParseUint` for 64-bit numbers, as the propagators use them.
 */
module Base16 {
  import opened Arithmetic
  import opened Bits
  import opened Wrappers

  const DIGITS := "0123456789abcdef"

  function DigitValue(c: char): (r: Option<nat>)
    ensures r.Some? ==> r.value < 16
  {
    if '0' <= c <= '9' then Some((c - '0') as nat)
    else if 'a' <= c <= 'f' then Some((c - 'a') as nat + 10)
    else if 'A' <= c <= 'F' then Some((c - 'A') as nat + 10)
    else None
  }

  /** By character code: the ten digits, and six letters in either case. */
  lemma DigitCodes(c: char)
    ensures DigitValue(c).Some? <==> 48 <= c as int <= 57 || 65 <= c as int <= 70 || 97 <= c as int <= 102
    ensures DigitValue(c).Some? ==>
      DigitValue(c).value == c as int - (if c as int <= 57 then 48 else if c as int <= 70 then 55 else 87)
  {
  }

  function FormatUint(v: nat): (s: string)
    ensures |s| > 0
  {
    if v < 16 then [DIGITS[v]] else FormatUint(v / 16) + [DIGITS[v % 16]]
  }

  /** Parses digit by digit. `n` is what was read so far; a further digit must not make it overflow. */
  function ParseFrom(s: string, n: uint64): Option<uint64> {
    if s == "" then
      Some(n)
    else
      var d := DigitValue(s[0]);
      if d == None || n >= TWO_64 / 16 then None else ParseFrom(s[1..], n * 16 + d.value)
  }

  function ParseUint(s: string): Option<uint64> {
    if s == "" then None else ParseFrom(s, 0)
  }

  // ---------------------------------------------------------------------------------------------------------------
  // What the digits mean

  ghost predicate AllDigits(s: string) {
    forall i :: 0 <= i < |s| ==> DigitValue(s[i]).Some?
  }

  ghost function Value(s: string): nat
    requires AllDigits(s)
  {
    if s == "" then 0 else Value(s[..|s| - 1]) * 16 + DigitValue(s[|s| - 1]).value
  }

  function Pow16(k: nat): (r: nat)
    ensures r >= 1
  {
    if k == 0 then 1 else 16 * Pow16(k - 1)
  }

  lemma {:induction false} ValueOfConcat(a: string, b: string)
    requires AllDigits(a) && AllDigits(b)
    ensures AllDigits(a + b) && Value(a + b) == Value(a) * Pow16(|b|) + Value(b)
    decreases |b|
  {
    if b == "" {
      assert a + b == a;
    } else {
      var front := b[..|b| - 1];
      ValueOfConcat(a, front);
      assert (a + b)[..|a + b| - 1] == a + front;
      assert Value(a + b) == Value(a + front) * 16 + DigitValue(b[|b| - 1]).value;
      MulAssociates(Value(a), Pow16(|front|), 16);
      assert Pow16(|b|) == Pow16(|front|) * 16;
    }
  }

  /** The first digit, taken into what stands before. */
  lemma FirstDigitMeans(s: string, n: nat)
    requires s != "" && DigitValue(s[0]).Some? && AllDigits(s[1..])
    ensures AllDigits(s)
    ensures
      n * Pow16(|s|) + Value(s) == (n * 16 + DigitValue(s[0]).value) * Pow16(|s[1..]|) + Value(s[1..])
  {
    var d, rest := DigitValue(s[0]).value, s[1..];
    assert s == [s[0]] + rest;
    assert [s[0]][..0] == "";
    assert Value([s[0]]) == d;
    ValueOfConcat([s[0]], rest);
    ShiftIn(n, d, Pow16(|rest|));
  }

  lemma NoRoomForDigits(n: nat, p: nat)
    requires n >= TWO_64 / 16 && p >= 1
    ensures n * (16 * p) >= TWO_64
  {
    MulMonotone(TWO_64 / 16, n, 16 * p);
    MulMonotone(1, p, TWO_64);
    assert (TWO_64 / 16) * (16 * p) == p * TWO_64;
  }

  /** Parsing from `n` on succeeds exactly on digits whose value, put behind `n`, fits 64 bits. */
  lemma {:induction false} ParseFromMeans(s: string, n: uint64)
    ensures ParseFrom(s, n) ==
      if AllDigits(s) && n * Pow16(|s|) + Value(s) < TWO_64 then Some(n * Pow16(|s|) + Value(s)) else None
  {
    if s == "" {
    } else if DigitValue(s[0]) == None {
    } else {
      var rest := s[1..];
      assert AllDigits(s) <==> AllDigits(rest);
      if AllDigits(rest) {
        FirstDigitMeans(s, n);
      }
      if n < TWO_64 / 16 {
        ParseFromMeans(rest, n * 16 + DigitValue(s[0]).value);
      } else {
        NoRoomForDigits(n, Pow16(|rest|));
      }
    }
  }

  lemma ShiftIn(n: nat, d: nat, p: nat)
    ensures n * (16 * p) + d * p == (n * 16 + d) * p
    ensures n * (16 * p) >= 0 && d * p >= 0
  {
    Regroup(n, 16, d, p);
    MulMonotone(0, d, p);
    MulMonotone(0, n, 16 * p);
  }

  /** `ParseUint` accepts exactly the non-empty strings of digits whose value fits 64 bits, and returns that value. */
  lemma ParseUintMeans(s: string)
    ensures ParseUint(s) == if s != "" && AllDigits(s) && Value(s) < TWO_64 then Some(Value(s)) else None
  {
    ParseFromMeans(s, 0);
  }

  /** What `FormatUint` writes: digits of that value. */
  lemma {:induction false} FormatUintValue(v: nat)
    ensures AllDigits(FormatUint(v)) && Value(FormatUint(v)) == v
  {
    var s := FormatUint(v);
    DigitReadsBack(v % 16);
    if v < 16 {
      assert s[..0] == "";
    } else {
      FormatUintValue(v / 16);
      assert s[..|s| - 1] == FormatUint(v / 16);
    }
  }

  /** It writes no leading zero. */
  lemma {:induction false} FormatUintLength(v: nat)
    ensures v < Pow16(|FormatUint(v)|)
    ensures v > 0 ==> Pow16(|FormatUint(v)| - 1) <= v
  {
    if v >= 16 {
      FormatUintLength(v / 16);
    } else {
      assert Pow16(0) == 1;
    }
  }

  lemma FormatUintMeans(v: nat)
    ensures AllDigits(FormatUint(v)) && Value(FormatUint(v)) == v
    ensures v < Pow16(|FormatUint(v)|)
    ensures v > 0 ==> Pow16(|FormatUint(v)| - 1) <= v
  {
    FormatUintValue(v);
    FormatUintLength(v);
  }

  /** It writes the letters in lower case. */
  lemma {:induction false} FormatUintLetters(v: nat, i: nat)
    requires i < |FormatUint(v)|
    ensures 48 <= FormatUint(v)[i] as int <= 57 || 97 <= FormatUint(v)[i] as int <= 102
  {
    DigitsAreLowerCase(v % 16);
    if v >= 16 && i < |FormatUint(v)| - 1 {
      FormatUintLetters(v / 16, i);
    }
  }

  lemma DigitsAreLowerCase(d: nat)
    requires d < 16
    ensures 48 <= DIGITS[d] as int <= 57 || 97 <= DIGITS[d] as int <= 102
  {
    assert d < 10 ==> DIGITS[d] == '0' + d as char;
    assert d >= 10 ==> DIGITS[d] == 'a' + (d - 10) as char;
  }

  lemma DigitReadsBack(d: nat)
    requires d < 16
    ensures DigitValue(DIGITS[d]) == Some(d)
  {
    assert d < 10 ==> DIGITS[d] == '0' + d as char;
    assert d >= 10 ==> DIGITS[d] == 'a' + (d - 10) as char;
  }

  lemma {:induction false} Pow16Grows(a: nat, b: nat)
    requires a <= b
    ensures Pow16(a) <= Pow16(b)
    decreases b
  {
    if a < b {
      Pow16Grows(a, b - 1);
    }
  }

  lemma Pow16Of16()
    ensures Pow16(15) == TWO_64 / 16 && Pow16(16) == TWO_64
  {
    assert Pow16(4) == 0x1_0000;
    assert Pow16(8) == 0x1_0000_0000;
    assert Pow16(12) == 0x1_0000_0000_0000;
  }

  /** Printing and parsing a 64-bit number gives it back. It takes at most 16 digits, all 16 from 2^60 on. */
  lemma ParseOfFormat(v: uint64)
    ensures ParseUint(FormatUint(v)) == Some(v)
    ensures 1 <= |FormatUint(v)| <= 16
    ensures |FormatUint(v)| == 16 <==> v >= TWO_64 / 16
  {
    FormatUintMeans(v);
    ParseUintMeans(FormatUint(v));
    Pow16Of16();
    var n := |FormatUint(v)|;
    if v > 0 {
      Pow16Order(n - 1, 16);
      if v < Pow16(15) {
        Pow16Order(n - 1, 15);
      } else {
        Pow16Order(15, n);
      }
    }
  }

  lemma Pow16Order(a: nat, b: nat)
    requires Pow16(a) < Pow16(b)
    ensures a < b
  {
    if b <= a {
      Pow16Grows(b, a);
    }
  }
}
