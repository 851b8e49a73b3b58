/**
 Raw token units printed as a decimal number, and what such a text denotes.
 */
module TokenAmount {
  import opened Common
  import opened Numerals
  import opened Texts

  /** The text without its trailing zeros. */
  function StripZeros(s: string): (r: string)
    ensures |r| <= |s| && r == s[..|r|] && forall i :: |r| <= i < |s| ==> s[i] == '0'
    ensures r != "" ==> r[|r| - 1] != '0'
  {
    if s == "" || s[|s| - 1] != '0' then s else StripZeros(s[..|s| - 1])
  }

  function Abs(n: int): nat {
    if n < 0 then -n else n
  }

  /** The digits of the amount, with a zero before the point at least. */
  function AmountDigits(value: int, decimals: int): string {
    PadStart(Digits(Abs(value)), decimals + 1)
  }

  /** How many digits come before the point; a negative number of decimals cuts nothing off. */
  function PointIn(digits: string, decimals: int): (point: nat)
    ensures point <= |digits|
  {
    if decimals < 0 || decimals > |digits| then |digits| else |digits| - decimals
  }

  function Unsigned(whole: string, fraction: string): string {
    if fraction == "" then whole else whole + "." + fraction
  }

  function Show(negative: bool, whole: string, fraction: string): string {
    if negative then "-" + Unsigned(whole, fraction) else Unsigned(whole, fraction)
  }

  function FormatTokenAmount(value: int, decimals: int): string {
    var digits := AmountDigits(value, decimals);
    var point := PointIn(digits, decimals);
    Show(value < 0, digits[..point], StripZeros(digits[point..]))
  }

  // ----- what a decimal text denotes ---------------------------------------

  /** The number mantissa / 10 ^ scale. */
  datatype Decimal = Decimal(mantissa: int, scale: nat)

  /** Reads [-]digits[.digits]. */
  function ReadDecimal(s: string): Option<Decimal> {
    if s != "" && s[0] == '-' then
      var d := ReadUnsigned(s[1..]);
      if d.Some? then Some(d.value.(mantissa := -d.value.mantissa)) else None
    else ReadUnsigned(s)
  }

  function ReadUnsigned(s: string): Option<Decimal> {
    var i := IndexOf(s, '.');
    var whole, fraction := s[..i], if i < |s| then s[i + 1..] else "";
    if whole == "" || !AllDigits(whole) || !AllDigits(fraction) || (i < |s| && fraction == "") then None
    else Some(Decimal(Value(whole + fraction), |fraction|))
  }

  /** The decimal is value / 10 ^ decimals; with negative decimals that is a multiple of a power of ten. */
  predicate IsAmount(d: Decimal, value: int, decimals: int) {
    if decimals >= 0 then d.mantissa * Pow10(decimals) == value * Pow10(d.scale)
    else d.mantissa == value * Pow10(d.scale) * Pow10(-decimals)
  }

  // ----- the printed text --------------------------------------------------

  /** Dropping the trailing zeros of the fraction divides the digits' value by a power of ten. */
  lemma StrippedValue(whole: string, fraction: string)
    requires AllDigits(whole) && AllDigits(fraction)
    ensures AllDigits(whole + StripZeros(fraction))
    ensures Value(whole + StripZeros(fraction)) * Pow10(|fraction|) ==
            Value(whole + fraction) * Pow10(|StripZeros(fraction)|)
  {
    var kept := StripZeros(fraction);
    var cut := |fraction| - |kept|;
    assert whole + fraction == (whole + kept) + Zeros(cut);
    ValueOfZeros(cut);
    ValueConcat(whole + kept, Zeros(cut));
    PowersMultiply(|kept|, cut);
    Regroup(Value(whole + kept), Pow10(|kept|), Pow10(cut));
  }

  lemma Regroup(v: nat, p: nat, q: nat)
    ensures v * (p * q) == v * q * p
  {
  }

  lemma UnsignedRead(whole: string, fraction: string)
    requires AllDigits(whole) && AllDigits(fraction) && whole != ""
    ensures
      var text := Unsigned(whole, fraction);
      && text != "" && text[0] != '-'
      && ReadUnsigned(text) == Some(Decimal(Value(whole + fraction), |fraction|))
  {
    if fraction == "" {
      IndexFound(whole, "", '.');
      assert whole + "" == whole && whole[..|whole|] == whole;
    } else {
      var text := whole + "." + fraction;
      assert text == whole + ("." + fraction);
      IndexFound(whole, "." + fraction, '.');
      assert text[..|whole|] == whole;
      assert text[|whole| + 1..] == fraction;
    }
  }

  lemma ShownRead(negative: bool, whole: string, fraction: string)
    requires AllDigits(whole) && AllDigits(fraction) && whole != ""
    ensures AllDigits(whole + fraction)
    ensures ReadDecimal(Show(negative, whole, fraction)) ==
            Some(Decimal(Signed(negative, Value(whole + fraction)), |fraction|))
  {
    UnsignedRead(whole, fraction);
    SignRead(negative, Unsigned(whole, fraction), Decimal(Value(whole + fraction), |fraction|));
  }

  function Signed(negative: bool, m: int): int {
    if negative then -m else m
  }

  lemma SignRead(negative: bool, text: string, d: Decimal)
    requires text != "" && text[0] != '-' && ReadUnsigned(text) == Some(d)
    ensures ReadDecimal(if negative then "-" + text else text) == Some(Decimal(Signed(negative, d.mantissa), d.scale))
  {
    assert ("-" + text)[1..] == text;
  }

  /** Before the trailing zeros go, the digits are those of the amount. */
  lemma AmountParts(digits: string, value: int, decimals: int)
    requires digits == AmountDigits(value, decimals)
    ensures AllDigits(digits) && PointIn(digits, decimals) > 0
    ensures |digits[PointIn(digits, decimals)..]| == if decimals < 0 then 0 else decimals
    ensures AllDigits(digits[..PointIn(digits, decimals)] + digits[PointIn(digits, decimals)..])
    ensures Value(digits[..PointIn(digits, decimals)] + digits[PointIn(digits, decimals)..]) == Abs(value)
  {
    ValueOfDigits(Abs(value));
    PaddedValue(Digits(Abs(value)), decimals + 1);
    assert digits[..PointIn(digits, decimals)] + digits[PointIn(digits, decimals)..] == digits;
  }

  /**
   The text denotes exactly the amount, without rounding, except for a negative number of
   decimals, which leaves every amount but zero unscaled.
   */
  lemma FormatDenotes(value: int, decimals: int)
    ensures
      var text := ReadDecimal(FormatTokenAmount(value, decimals));
      text.Some? && (IsAmount(text.value, value, decimals) <==> decimals >= 0 || value == 0)
  {
    var digits := AmountDigits(value, decimals);
    AmountParts(digits, value, decimals);
    var point := PointIn(digits, decimals);
    ShownDenotes(value, decimals, digits[..point], digits[point..]);
  }

  lemma ShownDenotes(value: int, decimals: int, whole: string, fraction: string)
    requires AllDigits(whole) && AllDigits(fraction) && whole != ""
    requires |fraction| == if decimals < 0 then 0 else decimals
    requires Value(whole + fraction) == Abs(value)
    ensures
      var text := ReadDecimal(Show(value < 0, whole, StripZeros(fraction)));
      text.Some? && (IsAmount(text.value, value, decimals) <==> decimals >= 0 || value == 0)
  {
    var kept := StripZeros(fraction);
    StrippedValue(whole, fraction);
    ShownRead(value < 0, whole, kept);
    AmountOrNot(Value(whole + kept), |kept|, |fraction|, value, decimals);
  }

  lemma AmountOrNot(m: int, scale: nat, width: nat, value: int, decimals: int)
    requires m * Pow10(width) == Abs(value) * Pow10(scale)
    requires scale <= width == if decimals < 0 then 0 else decimals
    ensures IsAmount(Decimal(Signed(value < 0, m), scale), value, decimals) <==> decimals >= 0 || value == 0
  {
    if decimals < 0 {
      assert Pow10(scale) == 1 && Pow10(width) == 1;
      Unscaled(value, -decimals);
    } else if value < 0 {
      assert -m * Pow10(width) == -(m * Pow10(width));
      assert -value * Pow10(scale) == -(value * Pow10(scale));
    }
  }

  lemma Unscaled(value: int, k: nat)
    requires k > 0
    ensures value == value * Pow10(k) <==> value == 0
  {
    var p := Pow10(k);
    assert p == 10 * Pow10(k - 1) >= 10;
    if value == value * p {
      Product(value, p);
    }
  }

  lemma Product(v: int, p: int)
    requires v == v * p && p > 1
    ensures v == 0
  {
    assert v * (p - 1) == 0;
  }

  /** The sign is there for negative amounts only. */
  predicate Canonical(negative: bool, whole: string, fraction: string) {
    && AllDigits(whole) && whole != "" && (whole[0] == '0' ==> whole == "0")
    && AllDigits(fraction) && (fraction != "" ==> fraction[|fraction| - 1] != '0')
    && (negative ==> Value(whole + fraction) != 0)
  }

  predicate ShownAs(text: string, negative: bool, whole: string, fraction: string) {
    text == Show(negative, whole, fraction) && Canonical(negative, whole, fraction)
  }

  ghost predicate CanonicalText(text: string, negative: bool) {
    exists whole, fraction :: ShownAs(text, negative, whole, fraction)
  }

  /** No needless leading zero, no trailing zero of the fraction, and no minus sign before zero. */
  lemma FormatCanonical(value: int, decimals: int)
    requires decimals >= 0
    ensures CanonicalText(FormatTokenAmount(value, decimals), value < 0)
  {
    var digits := AmountDigits(value, decimals);
    AmountParts(digits, value, decimals);
    var point := PointIn(digits, decimals);
    var whole, fraction := digits[..point], digits[point..];
    var kept := StripZeros(fraction);
    StrippedNotZero(whole, fraction);
    LeadingDigit(value, decimals);
    assert ShownAs(FormatTokenAmount(value, decimals), value < 0, whole, kept);
  }

  lemma StrippedNotZero(whole: string, fraction: string)
    requires AllDigits(whole) && AllDigits(fraction)
    ensures AllDigits(whole + fraction) && AllDigits(whole + StripZeros(fraction))
    ensures Value(whole + fraction) > 0 ==> Value(whole + StripZeros(fraction)) > 0
  {
    StrippedValue(whole, fraction);
    if Value(whole + fraction) > 0 {
      Product0(Value(whole + fraction), Pow10(|StripZeros(fraction)|));
    }
  }

  lemma Product0(v: nat, p: nat)
    requires v > 0 && p > 0
    ensures v * p > 0
  {
  }

  lemma LeadingDigit(value: int, decimals: int)
    requires decimals >= 0
    ensures
      var digits := AmountDigits(value, decimals);
      |digits| > decimals && (digits[0] == '0' && |digits| - decimals > 0 ==> |digits| == decimals + 1)
  {
    if Abs(value) == 0 {
      assert Digits(0) == [DigitChar(0)];
    }
  }

  /** Different amounts of a token are printed differently. */
  lemma FormatInjective(a: int, b: int, decimals: int)
    requires decimals >= 0 && FormatTokenAmount(a, decimals) == FormatTokenAmount(b, decimals)
    ensures a == b
  {
    FormatDenotes(a, decimals);
    FormatDenotes(b, decimals);
    Cancel(a, b, Pow10(ReadDecimal(FormatTokenAmount(a, decimals)).value.scale));
  }

  lemma Cancel(a: int, b: int, p: nat)
    requires p > 0 && a * p == b * p
    ensures a == b
  {
    assert (a - b) * p == 0;
  }
}
