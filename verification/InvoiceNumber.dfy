/** Decimal digits, zero padding and the `INV-<year>-<sequence>` numbers. */
module InvoiceNumber {
  // ---- Decimal text ------------------------------------------------------

  const DIGITS := "0123456789"

  predicate IsDigit(c: char) { '0' <= c <= '9' }

  predicate AllDigits(s: string) { forall i | 0 <= i < |s| :: IsDigit(s[i]) }

  function DigitOf(n: nat): (c: char)
    requires n < 10
    ensures IsDigit(c) && DigitValue(c) == n
  {
    DIGITS[n]
  }

  function DigitValue(c: char): (n: nat)
    requires IsDigit(c)
    ensures n < 10
  {
    c as int - '0' as int
  }

  /** `String(n)` for a non-negative integer. */
  function Digits(n: nat): (s: string)
    ensures |s| >= 1 && AllDigits(s)
  {
    if n < 10 then [DigitOf(n)] else Digits(n / 10) + [DigitOf(n % 10)]
  }

  function Value(s: string): nat
    requires AllDigits(s)
  {
    if s == [] then 0 else 10 * Value(s[..|s| - 1]) + DigitValue(s[|s| - 1])
  }

  lemma {:induction false} DigitsValue(n: nat)
    ensures Value(Digits(n)) == n
  {
    if n >= 10 {
      DigitsValue(n / 10);
      assert Digits(n)[..|Digits(n)| - 1] == Digits(n / 10);
    }
  }

  function PadStart(s: string, width: nat): (r: string)
    ensures AllDigits(s) ==> AllDigits(r)
    ensures |r| == if |s| < width then width else |s|
  {
    if |s| >= width then s else seq(width - |s|, _ => '0') + s
  }

  lemma {:induction false} PaddingKeepsValue(s: string, zeros: nat)
    requires AllDigits(s)
    ensures AllDigits(seq(zeros, _ => '0') + s) && Value(seq(zeros, _ => '0') + s) == Value(s)
    decreases |s| + zeros
  {
    var p := seq(zeros, _ => '0') + s;
    if s != [] {
      PaddingKeepsValue(s[..|s| - 1], zeros);
      assert p[..|p| - 1] == seq(zeros, _ => '0') + s[..|s| - 1];
    } else if zeros > 0 {
      PaddingKeepsValue(s, zeros - 1);
      assert p[..|p| - 1] == seq(zeros - 1, _ => '0') + s;
    }
  }

  // ---- Invoice numbers ---------------------------------------------------

  const INVOICE_NUMBER_SEQ_WIDTH := 4

  function YearText(year: int): string { if year < 0 then "-" + Digits(-year) else Digits(year) }

  function FormatInvoiceNumber(year: int, sequence: nat): string {
    "INV-" + YearText(year) + "-" + PadStart(Digits(sequence), INVOICE_NUMBER_SEQ_WIDTH)
  }

  lemma {:induction false} NoLeadingZero(n: nat)
    ensures Digits(n)[0] == '0' <==> n == 0
  {
    if n >= 10 { NoLeadingZero(n / 10); }
  }

  lemma YearTextIs(year: int)
    ensures var text := YearText(year); var digits := if year < 0 then text[1..] else text;
            && (year < 0 ==> text[0] == '-') && AllDigits(digits)
            && Value(digits) == (if year < 0 then -year else year) && (digits[0] == '0' <==> year == 0)
  {
    DigitsValue(if year < 0 then -year else year);
    NoLeadingZero(if year < 0 then -year else year);
  }

  /** The prefix, the year in plain decimal, a dash, and the sequence on at least four
      digits, padded with zeros and never with more than that needs. */
  lemma InvoiceNumberShape(year: int, sequence: nat)
    ensures var text := FormatInvoiceNumber(year, sequence); var n := 4 + |YearText(year)|;
            && text[..4] == "INV-" && text[4..n] == YearText(year) && text[n] == '-'
            && var tail := text[n + 1..];
               && AllDigits(tail) && Value(tail) == sequence
               && |tail| >= 4 && (|tail| > 4 ==> tail[0] != '0')
  {
    assert |Digits(0)| == 1;
    hide Digits, Value, YearText;
    SequenceReadsBack(sequence);
    NoLeadingZero(sequence);
    var tail := PadStart(Digits(sequence), INVOICE_NUMBER_SEQ_WIDTH);
    var (y, text) := (YearText(year), FormatInvoiceNumber(year, sequence));
    assert text == "INV-" + y + "-" + tail;
    assert text[4 + |y| + 1..] == tail && text[4..4 + |y|] == y && text[..4] == "INV-";
  }

  lemma DigitsExample()
    ensures Digits(2026) == "2026" && Digits(42) == "42" && Digits(12345) == "12345"
  {
    assert Digits(202) == "202" && Digits(1234) == "1234";
  }

  lemma InvoiceNumberExample()
    ensures FormatInvoiceNumber(2026, 42) == "INV-2026-0042"
    ensures FormatInvoiceNumber(2026, 12345) == "INV-2026-12345"
  {
    DigitsExample();
    hide Digits;
    assert PadStart("42", 4) == "0042";
  }

  datatype Numbered = Numbered(year: int, sequence: nat) | Malformed

  function LastDash(s: string): (i: int)
    ensures -1 <= i < |s| && (i >= 0 ==> s[i] == '-')
    ensures forall j | i < j < |s| :: s[j] != '-'
  {
    if s == [] then -1 else if s[|s| - 1] == '-' then |s| - 1 else LastDash(s[..|s| - 1])
  }

  function ParseYear(s: string): (year: int)
    requires s != [] && AllDigits(if s[0] == '-' then s[1..] else s)
  {
    if s[0] == '-' then -(Value(s[1..]) as int) else Value(s)
  }

  /** Reads an invoice number back: what follows the last dash is the sequence. */
  function ParseInvoiceNumber(s: string): Numbered {
    var i := LastDash(s);
    if i < 5 || s[..4] != "INV-" then Malformed
    else
      var (year, tail) := (s[4..i], s[i + 1..]);
      if !AllDigits(tail) || !AllDigits(if year[0] == '-' then year[1..] else year) then Malformed
      else Numbered(ParseYear(year), Value(tail))
  }

  lemma {:induction false} LastDashSplits(head: string, tail: string)
    requires AllDigits(tail)
    ensures LastDash(head + "-" + tail) == |head|
  {
    var s := head + "-" + tail;
    if tail != [] {
      LastDashSplits(head, tail[..|tail| - 1]);
      assert s[..|s| - 1] == head + "-" + tail[..|tail| - 1];
      assert s[|s| - 1] == tail[|tail| - 1];
    }
  }

  lemma YearReadsBack(year: int)
    ensures var y := YearText(year); var digits := if y[0] == '-' then y[1..] else y;
            |y| >= 1 && AllDigits(digits) && ParseYear(y) == year
  {
    if year < 0 {
      DigitsValue(-year);
      assert YearText(year)[1..] == Digits(-year);
    } else {
      DigitsValue(year);
      assert IsDigit(Digits(year)[0]);
    }
  }

  lemma SequenceReadsBack(sequence: nat)
    ensures var tail := PadStart(Digits(sequence), INVOICE_NUMBER_SEQ_WIDTH);
            AllDigits(tail) && Value(tail) == sequence
  {
    var d := Digits(sequence);
    DigitsValue(sequence);
    if |d| < INVOICE_NUMBER_SEQ_WIDTH { PaddingKeepsValue(d, INVOICE_NUMBER_SEQ_WIDTH - |d|); }
  }

  /** Year and sequence can be read back, so padding never makes two numbers meet. */
  lemma InvoiceNumberRoundTrip(year: int, sequence: nat)
    ensures ParseInvoiceNumber(FormatInvoiceNumber(year, sequence)) == Numbered(year, sequence)
  {
    hide Digits, Value, PadStart, LastDash, ParseYear;
    var y, tail := YearText(year), PadStart(Digits(sequence), INVOICE_NUMBER_SEQ_WIDTH);
    var s := FormatInvoiceNumber(year, sequence);
    YearReadsBack(year);
    SequenceReadsBack(sequence);
    hide YearText;
    var head := "INV-" + y;
    assert s == head + "-" + tail;
    LastDashSplits(head, tail);
    assert s[..4] == "INV-";
    assert s[4..4 + |y|] == y;
    assert s[4 + |y| + 1..] == tail;
  }

  lemma InvoiceNumberInjective(y1: int, s1: nat, y2: int, s2: nat)
    ensures FormatInvoiceNumber(y1, s1) == FormatInvoiceNumber(y2, s2) <==> y1 == y2 && s1 == s2
  {
    InvoiceNumberRoundTrip(y1, s1);
    InvoiceNumberRoundTrip(y2, s2);
  }
}
