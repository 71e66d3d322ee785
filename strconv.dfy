/** strconv.ParseUint(s, 10, 64), which DispatchMsg uses to read msg_id. */
module Strconv {
  import opened Values

  const MaxUint64: int := 0xFFFF_FFFF_FFFF_FFFF

  type uint64 = x: int | 0 <= x <= 0xFFFF_FFFF_FFFF_FFFF

  predicate IsDigit(c: char)
  {
    '0' <= c <= '9'
  }

  function Digit(c: char): nat
    requires IsDigit(c)
  {
    c as int - '0' as int
  }

  predicate AllDigits(s: string)
  {
    forall i :: 0 <= i < |s| ==> IsDigit(s[i])
  }

  function Pow10(n: nat): (p: nat)
    ensures p >= 1
  {
    if n == 0 then 1 else 10 * Pow10(n - 1)
  }

  /** The number the decimal digits of `s` spell, most significant first. */
  function DecimalValue(s: string): nat
    requires AllDigits(s)
  {
    if s == [] then 0 else Digit(s[0]) * Pow10(|s| - 1) + DecimalValue(s[1..])
  }

  /**
    The digit loop of ParseUint with base 10 and bit size 64: `n` is the
    value read so far. It fails on the first byte that is not a digit, and as
    soon as n * 10 + digit exceeds 2^64 - 1 (the library's cutoff test and its
    wrap-around test together reject exactly that).
   */
  function Accumulate(s: string, n: uint64): Option<uint64>
  {
    if s == [] then Some(n)
    else if !IsDigit(s[0]) then None
    else if n * 10 + Digit(s[0]) > MaxUint64 then None
    else Accumulate(s[1..], n * 10 + Digit(s[0]))
  }

  lemma AllDigitsCons(s: string)
    requires s != []
    ensures AllDigits(s) <==> IsDigit(s[0]) && AllDigits(s[1..])
  {
    if IsDigit(s[0]) && AllDigits(s[1..]) {
      forall i | 0 <= i < |s| ensures IsDigit(s[i]) {
        if i > 0 { assert s[i] == s[1..][i - 1]; }
      }
    }
  }

  lemma ShiftDigit(n: nat, d: nat, p: nat)
    ensures n * (10 * p) + d * p == (n * 10 + d) * p
  {
  }

  lemma AtLeastOnce(a: nat, p: nat)
    requires p >= 1
    ensures a * p >= a
  {
  }

  /** Reading one more digit: the value of `s` after `n` is the value of the rest after n * 10 + digit. */
  lemma StepValue(s: string, n: nat)
    requires s != [] && AllDigits(s)
    ensures AllDigits(s[1..])
    ensures n * Pow10(|s|) + DecimalValue(s) == (n * 10 + Digit(s[0])) * Pow10(|s| - 1) + DecimalValue(s[1..])
    ensures (n * 10 + Digit(s[0])) * Pow10(|s| - 1) >= n * 10 + Digit(s[0])
  {
    AllDigitsCons(s);
    var p, d := Pow10(|s| - 1), Digit(s[0]);
    assert Pow10(|s|) == 10 * p;
    ShiftDigit(n, d, p);
    AtLeastOnce(n * 10 + d, p);
  }

  /** The loop succeeds exactly on digits whose value, after the `n` already read, fits in 64 bits. */
  lemma {:induction false} AccumulateValue(s: string, n: uint64)
    ensures Accumulate(s, n).Some? <==> AllDigits(s) && n * Pow10(|s|) + DecimalValue(s) <= MaxUint64
    ensures Accumulate(s, n).Some? ==> Accumulate(s, n).value == n * Pow10(|s|) + DecimalValue(s)
  {
    if s != [] {
      AllDigitsCons(s);
      if IsDigit(s[0]) {
        if AllDigits(s) {
          StepValue(s, n);
        }
        if n * 10 + Digit(s[0]) <= MaxUint64 {
          AccumulateValue(s[1..], n * 10 + Digit(s[0]));
        }
      }
    }
  }

  /** ParseUint(s, 10, 64): the 64-bit value of `s`, or an error (None). */
  function ParseUint(s: string): Option<uint64>
  {
    if s == [] then None else Accumulate(s, 0)
  }

  /** ParseUint accepts exactly the non-empty strings of decimal digits whose value is below 2^64, and returns that value. */
  lemma ParseUintExactly(s: string)
    ensures ParseUint(s).Some? <==> s != [] && AllDigits(s) && DecimalValue(s) <= MaxUint64
    ensures ParseUint(s).Some? ==> ParseUint(s).value == DecimalValue(s)
  {
    if s != [] {
      AccumulateValue(s, 0);
    }
  }

  /** k decimal digits spell a number below 10^k. */
  lemma {:induction false} DecimalValueBound(s: string)
    requires AllDigits(s)
    ensures DecimalValue(s) < Pow10(|s|)
  {
    if s != [] {
      var p := Pow10(|s| - 1);
      AllDigitsCons(s);
      DecimalValueBound(s[1..]);
      AtMostNine(Digit(s[0]), p);
      assert Pow10(|s|) == 10 * p;
    }
  }

  lemma AtMostNine(d: nat, p: nat)
    requires d <= 9
    ensures d * p + p <= 10 * p
  {
  }

  lemma {:induction false} Pow10Monotone(m: nat, n: nat)
    requires m <= n
    ensures Pow10(m) <= Pow10(n)
  {
    if m < n {
      Pow10Monotone(m, n - 1);
    }
  }

  /** Every string of 1 to 10 decimal digits parses, since 9999999999 < 2^64. */
  lemma ShortDecimalParses(s: string)
    requires 1 <= |s| <= 10 && AllDigits(s)
    ensures ParseUint(s) == Some(DecimalValue(s))
    ensures DecimalValue(s) <= 9_999_999_999
  {
    DecimalValueBound(s);
    Pow10Monotone(|s|, 10);
    ParseUintExactly(s);
    assert Pow10(10) == 10_000_000_000 by {
      assert Pow10(0) == 1;
      assert Pow10(1) == 10;
      assert Pow10(2) == 100;
      assert Pow10(3) == 1_000;
      assert Pow10(4) == 10_000;
      assert Pow10(5) == 100_000;
      assert Pow10(6) == 1_000_000;
      assert Pow10(7) == 10_000_000;
      assert Pow10(8) == 100_000_000;
      assert Pow10(9) == 1_000_000_000;
    }
  }
}
