/**
 Numbers written in decimal digits, and the value of a string of digits.
 */
module Numerals {

  predicate IsDigit(c: char) {
    '0' <= c <= '9'
  }

  predicate AllDigits(s: string) {
    forall i :: 0 <= i < |s| ==> IsDigit(s[i])
  }

  function DigitChar(n: int): (c: char)
    requires 0 <= n <= 9
    ensures IsDigit(c) && DigitValue(c) == n
  {
    ('0' as int + n) as char
  }

  function DigitValue(c: char): int
    requires IsDigit(c)
  {
    c as int - '0' as int
  }

  function Pow10(n: nat): (p: nat)
    ensures p > 0
  {
    if n == 0 then 1 else 10 * Pow10(n - 1)
  }

  function Pow2(n: nat): (p: nat)
    ensures p > 0
  {
    if n == 0 then 1 else 2 * Pow2(n - 1)
  }

  /** The decimal notation of n, without leading zeros. */
  function Digits(n: nat): (s: string)
    ensures |s| > 0 && AllDigits(s)
    ensures n > 0 ==> s[0] != '0'
  {
    if n < 10 then [DigitChar(n)] else Digits(n / 10) + [DigitChar(n % 10)]
  }

  function Zeros(n: nat): (s: string)
    ensures |s| == n && forall i :: 0 <= i < n ==> s[i] == '0'
  {
    seq(n, i => '0')
  }

  /** padStart with zeros: nothing happens to a text that is long enough. */
  function PadStart(s: string, width: int): string {
    if width <= |s| then s else Zeros(width - |s|) + s
  }

  function Value(s: string): nat
    requires AllDigits(s)
  {
    if s == "" then 0 else Value(s[..|s| - 1]) * 10 + DigitValue(s[|s| - 1])
  }

  lemma {:induction false} ValueOfDigits(n: nat)
    ensures Value(Digits(n)) == n
    decreases n
  {
    if n >= 10 {
      ValueOfDigits(n / 10);
      assert Digits(n)[..|Digits(n)| - 1] == Digits(n / 10);
    } else {
      assert Digits(n)[..0] == "";
    }
  }

  lemma {:induction false} ValueConcat(a: string, b: string)
    requires AllDigits(a) && AllDigits(b)
    ensures AllDigits(a + b) && Value(a + b) == Value(a) * Pow10(|b|) + Value(b)
    decreases b
  {
    if b == "" {
      assert a + b == a;
    } else {
      var init, last := b[..|b| - 1], b[|b| - 1];
      ValueConcat(a, init);
      assert (a + b)[..|a + b| - 1] == a + init;
      Shift(Value(a), Pow10(|init|), Value(init), DigitValue(last));
    }
  }

  lemma Shift(a: nat, p: nat, b: nat, d: int)
    ensures (a * p + b) * 10 + d == a * (10 * p) + (b * 10 + d)
  {
  }

  lemma {:induction false} ValueOfZeros(n: nat)
    ensures AllDigits(Zeros(n)) && Value(Zeros(n)) == 0
  {
    if n > 0 {
      assert Zeros(n)[..n - 1] == Zeros(n - 1);
      ValueOfZeros(n - 1);
    }
  }

  lemma PaddedValue(s: string, width: int)
    requires AllDigits(s)
    ensures AllDigits(PadStart(s, width)) && Value(PadStart(s, width)) == Value(s)
  {
    if width > |s| {
      ValueOfZeros(width - |s|);
      ValueConcat(Zeros(width - |s|), s);
    }
  }

  lemma {:induction false} PowersMultiply(a: nat, b: nat)
    ensures Pow10(a + b) == Pow10(a) * Pow10(b)
    decreases b
  {
    if b > 0 {
      PowersMultiply(a, b - 1);
      assert Pow10(a + b) == 10 * Pow10(a + (b - 1));
      Tenfold(Pow10(a), Pow10(b - 1));
    }
  }

  lemma Tenfold(p: nat, q: nat)
    ensures 10 * (p * q) == p * (10 * q)
  {
  }
}
