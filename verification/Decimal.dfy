/** Decimal text: printing naturals, zero padding, and the exactness of the mock's USDC
    printer against a decimal reader. */
module Decimal {
  import opened Basics

  const USDC_DECIMALS: nat := 6

  predicate IsDigit(c: char) { '0' <= c <= '9' }

  predicate AllDigits(s: string) { forall c <- s :: IsDigit(c) }

  function DigitChar(d: nat): char
    requires d < 10
  {
    ('0' as int + d) as char
  }

  function DigitOf(c: char): nat
    requires IsDigit(c)
  {
    c as int - '0' as int
  }

  /** The shortest decimal text of `n`. */
  function Digits(n: nat): string {
    if n < 10 then [DigitChar(n)] else Digits(n / 10) + [DigitChar(n % 10)]
  }

  /** The number a digit string denotes; the empty string denotes zero. */
  function NatOf(s: string): nat
    requires AllDigits(s)
  {
    if s == [] then 0 else NatOf(s[..|s| - 1]) * 10 + DigitOf(s[|s| - 1])
  }

  function Zeros(k: nat): string { if k == 0 then [] else Zeros(k - 1) + ['0'] }

  /** Right-aligns `s` in a field of `width`, filled with zeros. */
  function Pad(s: string, width: nat): string { Zeros(SatSub(width, |s|)) + s }

  function TrimEndZeros(s: string): string {
    if s != [] && s[|s| - 1] == '0' then TrimEndZeros(s[..|s| - 1]) else s
  }

  function Pow10(k: nat): (p: nat)
    ensures p > 0
  {
    if k == 0 then 1 else 10 * Pow10(k - 1)
  }

  lemma {:induction false} DigitsRoundTrip(n: nat)
    ensures AllDigits(Digits(n)) && NatOf(Digits(n)) == n && |Digits(n)| > 0
  {
    if n < 10 {
      assert Digits(n)[..0] == [];
    } else {
      DigitsRoundTrip(n / 10);
      assert Digits(n)[..|Digits(n)| - 1] == Digits(n / 10);
    }
  }

  lemma {:induction false} ZerosDenoteZero(k: nat)
    ensures |Zeros(k)| == k && AllDigits(Zeros(k)) && NatOf(Zeros(k)) == 0
  {
    if k > 0 {
      ZerosDenoteZero(k - 1);
      assert Zeros(k)[..k - 1] == Zeros(k - 1);
    }
  }

  lemma OneMoreZero(v: nat, k: nat)
    ensures v * Pow10(k + 1) == 10 * (v * Pow10(k))
  {
    var p := Pow10(k);
    assert v * (10 * p) == 10 * (v * p);
  }

  /** `v` followed by `k` zeros. */
  function Shifted(v: nat, k: nat): nat { if k == 0 then v else 10 * Shifted(v, k - 1) }

  lemma {:induction false} ShiftedIsProduct(v: nat, k: nat)
    ensures Shifted(v, k) == v * Pow10(k)
  {
    if k > 0 {
      ShiftedIsProduct(v, k - 1);
      OneMoreZero(v, k - 1);
    }
  }

  lemma {:induction false} NatOfShiftedConcat(a: string, b: string)
    requires AllDigits(a) && AllDigits(b)
    ensures AllDigits(a + b) && NatOf(a + b) == Shifted(NatOf(a), |b|) + NatOf(b)
  {
    if b == [] {
      assert a + b == a;
    } else {
      NatOfShiftedConcat(a, b[..|b| - 1]);
      assert (a + b)[..|a + b| - 1] == a + b[..|b| - 1];
    }
  }

  lemma NatOfConcat(a: string, b: string)
    requires AllDigits(a) && AllDigits(b)
    ensures AllDigits(a + b) && NatOf(a + b) == NatOf(a) * Pow10(|b|) + NatOf(b)
  {
    NatOfShiftedConcat(a, b);
    ShiftedIsProduct(NatOf(a), |b|);
  }

  lemma PaddingKeepsValue(s: string, width: nat)
    requires AllDigits(s)
    ensures AllDigits(Pad(s, width)) && NatOf(Pad(s, width)) == NatOf(s)
    ensures |Pad(s, width)| == Max(|s|, width)
  {
    ZerosDenoteZero(SatSub(width, |s|));
    NatOfConcat(Zeros(SatSub(width, |s|)), s);
  }

  lemma {:induction false} TrimmingScales(s: string)
    requires AllDigits(s)
    ensures var t := TrimEndZeros(s);
            && t <= s && AllDigits(t)
            && (t != [] ==> t[|t| - 1] != '0')
            && NatOf(s) == NatOf(t) * Pow10(|s| - |t|)
  {
    if s != [] && s[|s| - 1] == '0' {
      var front := s[..|s| - 1];
      TrimmingScales(front);
      var t := TrimEndZeros(s);
      OneMoreZero(NatOf(t), |front| - |t|);
    }
  }

  // ----- the USDC printer

  /** Prints an amount of millionths as whole USDC with up to six decimals. */
  function FormatUsdc(raw: nat): string {
    var digits := Digits(raw);
    if |digits| <= USDC_DECIMALS then
      var trimmed := TrimEndZeros(Pad(digits, USDC_DECIMALS));
      if trimmed == [] then "0" else "0." + trimmed
    else
      var split := |digits| - USDC_DECIMALS;
      var trimmed := TrimEndZeros(digits[split..]);
      if trimmed == [] then digits[..split] else digits[..split] + "." + trimmed
  }

  /** A decimal number `units / 10^scale`. */
  datatype Number = Number(units: nat, scale: nat) {
    function Value(): real { units as real / Pow10(scale) as real }
  }

  function IndexOf(s: string, c: char): (k: nat)
    ensures k <= |s| && c !in s[..k] && (k < |s| ==> s[k] == c)
  {
    if s == [] || s[0] == c then 0
    else
      var k := IndexOf(s[1..], c) + 1;
      assert s[..k] == [s[0]] + s[1..][..k - 1];
      k
  }

  /** Reads unsigned decimal text: digits, optionally a point and more digits. */
  function ParseDecimal(s: string): Option<Number> {
    var point := IndexOf(s, '.');
    var whole, frac := s[..point], if point < |s| then s[point + 1..] else [];
    if whole == [] || (point < |s| && frac == []) || !AllDigits(whole + frac) then None
    else Some(Number(NatOf(whole + frac), |frac|))
  }

  lemma IndexOfFirst(s: string, c: char, k: nat)
    requires k < |s| && s[k] == c && c !in s[..k]
    ensures IndexOf(s, c) == k
  {
    var p := IndexOf(s, c);
    assert forall i :: 0 <= i < k ==> s[..k][i] == s[i];
    assert forall i :: 0 <= i < p ==> s[..p][i] == s[i];
  }

  lemma ParseParts(whole: string, frac: string)
    requires whole != [] && AllDigits(whole) && AllDigits(frac)
    ensures ParseDecimal(whole) == Some(Number(NatOf(whole), 0))
    ensures frac != [] ==>
              && AllDigits(whole + frac)
              && ParseDecimal(whole + "." + frac) == Some(Number(NatOf(whole + frac), |frac|))
  {
    var k := IndexOf(whole, '.');
    assert k < |whole| ==> IsDigit(whole[k]);
    assert whole[..|whole|] == whole && whole + [] == whole;
    var s := whole + "." + frac;
    assert s[..|whole|] == whole && s[|whole| + 1..] == frac;
    assert '.' !in whole by { assert forall c <- whole :: IsDigit(c); }
    IndexOfFirst(s, '.', |whole|);
  }

  lemma ScaleToMillionths(units: nat, scale: nat, raw: nat)
    requires scale <= USDC_DECIMALS && raw == units * Pow10(USDC_DECIMALS - scale)
    ensures Number(units, scale).Value() == raw as real / 1000000.0
  {
    assert Pow10(0) == 1 && Pow10(1) == 10 && Pow10(2) == 100 && Pow10(3) == 1000;
    assert Pow10(4) == 10000 && Pow10(5) == 100000 && Pow10(6) == 1000000;
  }

  lemma UsdcScaling(whole: nat, frac: nat, scale: nat)
    requires scale <= USDC_DECIMALS
    ensures whole * Pow10(USDC_DECIMALS) + frac * Pow10(USDC_DECIMALS - scale) ==
            (whole * Pow10(scale) + frac) * Pow10(USDC_DECIMALS - scale)
  {
    assert Pow10(0) == 1 && Pow10(1) == 10 && Pow10(2) == 100 && Pow10(3) == 1000;
    assert Pow10(4) == 10000 && Pow10(5) == 100000 && Pow10(6) == 1000000;
  }

  /** `FormatUsdc(raw)` prints a whole part and six decimals, trimmed. */
  ghost predicate Prints(raw: nat, whole: string, tail: string) {
    && whole != [] && AllDigits(whole) && AllDigits(tail) && |tail| == USDC_DECIMALS
    && NatOf(whole) * Pow10(USDC_DECIMALS) + NatOf(tail) == raw
    && var frac := TrimEndZeros(tail);
       FormatUsdc(raw) == if frac == [] then whole else whole + "." + frac
  }

  lemma SmallParts(raw: nat)
    requires |Digits(raw)| <= USDC_DECIMALS
    ensures Prints(raw, "0", Pad(Digits(raw), USDC_DECIMALS))
  {
    DigitsRoundTrip(raw);
    PaddingKeepsValue(Digits(raw), USDC_DECIMALS);
    assert "0"[..0] == [];
    assert NatOf("0") == 0;
  }

  lemma LargeParts(raw: nat)
    requires |Digits(raw)| > USDC_DECIMALS
    ensures var digits, split := Digits(raw), |Digits(raw)| - USDC_DECIMALS;
            Prints(raw, digits[..split], digits[split..])
  {
    DigitsRoundTrip(raw);
    var digits, split := Digits(raw), |Digits(raw)| - USDC_DECIMALS;
    assert digits == digits[..split] + digits[split..];
    NatOfConcat(digits[..split], digits[split..]);
  }

  /** The printer's two cases share one shape. */
  lemma PrintedParts(raw: nat) returns (whole: string, tail: string)
    ensures Prints(raw, whole, tail)
  {
    var digits := Digits(raw);
    if |digits| <= USDC_DECIMALS {
      SmallParts(raw);
      whole, tail := "0", Pad(digits, USDC_DECIMALS);
    } else {
      LargeParts(raw);
      var split := |digits| - USDC_DECIMALS;
      whole, tail := digits[..split], digits[split..];
    }
  }

  lemma TrimmedPartsDenoteRaw(whole: string, tail: string, raw: nat)
    requires AllDigits(whole) && AllDigits(tail) && |tail| == USDC_DECIMALS
    requires NatOf(whole) * Pow10(USDC_DECIMALS) + NatOf(tail) == raw
    ensures var frac := TrimEndZeros(tail);
            && |frac| <= USDC_DECIMALS && AllDigits(frac) && AllDigits(whole + frac)
            && (frac != [] ==> frac[|frac| - 1] != '0')
            && Number(NatOf(whole + frac), |frac|).Value() == raw as real / 1000000.0
  {
    var frac := TrimEndZeros(tail);
    TrimmingScales(tail);
    NatOfConcat(whole, frac);
    UsdcScaling(NatOf(whole), NatOf(frac), |frac|);
    ScaleToMillionths(NatOf(whole + frac), |frac|, raw);
  }

  /** Printing loses nothing: reading the text back gives exactly raw / 10^6. The text has
      no trailing zero after the point. */
  lemma UsdcPrinterIsExact(raw: nat)
    ensures ParseDecimal(FormatUsdc(raw)).Some?
    ensures ParseDecimal(FormatUsdc(raw)).value.Value() == raw as real / 1000000.0
    ensures '.' in FormatUsdc(raw) ==> FormatUsdc(raw)[|FormatUsdc(raw)| - 1] != '0'
  {
    var whole, tail := PrintedParts(raw);
    var frac := TrimEndZeros(tail);
    TrimmedPartsDenoteRaw(whole, tail, raw);
    ParseParts(whole, frac);
    assert whole + [] == whole;
    assert '.' !in whole by { assert forall c <- whole :: IsDigit(c); }
  }

  /** The amount a deposit log of `raw` millionths is booked with: printed, then read. */
  function UsdcAmount(raw: nat): (amount: real)
    ensures amount == raw as real / 1000000.0
  {
    UsdcPrinterIsExact(raw);
    ParseDecimal(FormatUsdc(raw)).value.Value()
  }
}
