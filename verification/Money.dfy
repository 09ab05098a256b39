/** Cents and their two-decimal text, and the rounding in between. */
module Money {
  import opened InvoiceNumber
  import opened Options

  /** `Math.round`: halves go up. */
  function Round(x: real): int { (x + 0.5).Floor }

  function Abs(x: real): real { if x < 0.0 then -x else x }

  function CentsText(n: nat): string {
    Digits(n / 100) + "." + [DigitOf(n / 10 % 10), DigitOf(n % 10)]
  }

  /** `toFixed(2)`: the sign, then the magnitude rounded to hundredths, halves away from zero. */
  function ToFixed2(x: real): string {
    (if x < 0.0 then "-" else "") + CentsText(Round(Abs(x) * 100.0))
  }

  function FromCents(cents: int): string { ToFixed2(cents as real / 100.0) }

  /** Reads a two-decimal amount back to cents. */
  function ParseCents(s: string): Option<nat> {
    if |s| >= 4 && s[|s| - 3] == '.' && AllDigits(s[..|s| - 3]) && AllDigits(s[|s| - 2..])
    then Some(100 * Value(s[..|s| - 3]) + Value(s[|s| - 2..]))
    else None
  }

  lemma CentsReadBack(cents: nat)
    ensures ParseCents(CentsText(cents)) == Some(cents)
  {
    hide Digits, DigitOf, DigitValue;
    var (major, minor) := (Digits(cents / 100), [DigitOf(cents / 10 % 10), DigitOf(cents % 10)]);
    var s := CentsText(cents);
    assert s[..|s| - 3] == major && s[|s| - 2..] == minor && s[|s| - 3] == '.';
    DigitsValue(cents / 100);
    TwoDigits(minor[0], minor[1]);
    assert minor == [minor[0], minor[1]];
  }

  lemma TwoDigits(a: char, b: char)
    requires IsDigit(a) && IsDigit(b)
    ensures Value([a, b]) == 10 * DigitValue(a) + DigitValue(b)
  {
    var s := [a, b];
    assert s[..1] == [a] && s[1] == b;
    assert Value(s) == 10 * Value(s[..1]) + DigitValue(b);
    assert Value([a]) == 10 * Value([a][..0]) + DigitValue(a);
  }

  /** No cent is lost between the integer sums and the decimal text. */
  lemma MoneyRoundTrip(cents: nat)
    ensures FromCents(cents) == CentsText(cents) && ParseCents(FromCents(cents)) == Some(cents)
  {
    hide CentsText, ParseCents;
    assert Abs(cents as real / 100.0) * 100.0 == cents as real;
    CentsReadBack(cents);
  }

  /** The text of any amount: a sign just for what is below zero, then hundredths within
      half a one of its magnitude, halves away from zero, with no zero too many. */
  lemma FixedReadsBack(x: real)
    ensures var text := ToFixed2(x); var digits := if x < 0.0 then text[1..] else text;
            && (x < 0.0 ==> text[0] == '-') && ParseCents(digits).Some? && (digits[0] == '0' ==> |digits| == 4)
            && -0.5 < ParseCents(digits).value as real - 100.0 * Abs(x) <= 0.5
  {
    var cents := Round(Abs(x) * 100.0);
    NoLeadingZero(cents / 100);
    hide ParseCents, Digits, DigitOf;
    CentsReadBack(cents);
    RoundNear(Abs(x) * 100.0);
    hide Round;
    assert x < 0.0 ==> ToFixed2(x)[1..] == CentsText(cents);
    assert x >= 0.0 ==> ToFixed2(x) == CentsText(cents);
  }

  lemma ZeroText()
    ensures FromCents(0) == "0.00"
  {
    hide ParseCents;
    MoneyRoundTrip(0);
  }

  lemma RoundNear(x: real)
    ensures x - 0.5 < Round(x) as real <= x + 0.5
  {
  }

  lemma RoundedWithin(x: real, n: int)
    requires 0.0 <= x <= n as real
    ensures 0 <= Round(x) <= n && -0.5 <= Round(x) as real - x <= 0.5
  {
  }

  lemma RoundedSum(x: real, y: real)
    ensures -1 <= Round(x) + Round(y) - Round(x + y) <= 1
  {
    RoundNear(x);
    RoundNear(y);
    RoundNear(x + y);
  }
}
