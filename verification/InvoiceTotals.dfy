/** Pricing of invoice lines: validation, integer-cent sums, two-decimal text. */
module InvoiceTotals {
  import opened Money
  import opened Options
  import opened Sums
  import opened Text

  // ---- Inputs and outputs ------------------------------------------------

  /** A JSON number, or what stands in its place when there is none to use. */
  datatype Num = Absent | NotFinite | Number(value: real)

  datatype RawLine = RawLine(productId: Option<string>, description: Option<string>, quantity: Num, unitPrice: Num,
                             taxRate: Num)

  datatype PricedLine = PricedLine(
    productId: Option<string>, description: string, quantity: int, unitPrice: string, taxRate: string,
    lineTotal: string)

  datatype Totals = Totals(items: seq<PricedLine>, subtotal: string, taxTotal: string, total: string)

  datatype Fault =
    | NoItems | TooManyItems
    | DescriptionMissing | DescriptionTooLong | BadQuantity
    | PriceNotFinite | PriceNegative | BadTaxRate | TaxRateTooHigh

  const INVOICE_MAX_LINE_ITEMS := 200
  const INVOICE_MAX_TAX_RATE := 100.0
  const INVOICE_DESCRIPTION_MAX_LENGTH := 500

  // ---- One line ----------------------------------------------------------

  function Described(raw: RawLine): string { Trim(raw.description.GetOr("")) }

  function TaxRate(raw: RawLine): Num { if raw.taxRate.Absent? then Number(0.0) else raw.taxRate }

  /** The first check a line fails, in the order the source makes them. */
  function LineFault(raw: RawLine): Option<Fault> {
    if Described(raw) == "" then Some(DescriptionMissing)
    else if |Described(raw)| > INVOICE_DESCRIPTION_MAX_LENGTH then Some(DescriptionTooLong)
    else if !(raw.quantity.Number?
              && raw.quantity.value.Floor as real == raw.quantity.value && raw.quantity.value > 0.0)
    then Some(BadQuantity)
    else if !raw.unitPrice.Number? then Some(PriceNotFinite)
    else if raw.unitPrice.value < 0.0 then Some(PriceNegative)
    else if !(TaxRate(raw).Number? && TaxRate(raw).value >= 0.0) then Some(BadTaxRate)
    else if TaxRate(raw).value > INVOICE_MAX_TAX_RATE then Some(TaxRateTooHigh)
    else None
  }

  function Amount(n: Num): real { if n.Number? then n.value else 0.0 }

  function Quantity(raw: RawLine): int { Amount(raw.quantity).Floor }
  function UnitCents(raw: RawLine): int { Round(Amount(raw.unitPrice) * 100.0) }
  function LineTotal(raw: RawLine): int { UnitCents(raw) * Quantity(raw) }
  /** Tax at `rate` per cent, before rounding. */
  function TaxOn(totalCents: int, rate: real): real { totalCents as real * rate / 100.0 }

  function ExactTax(raw: RawLine): real { TaxOn(LineTotal(raw), Amount(TaxRate(raw))) }
  function LineTax(raw: RawLine): int { Round(ExactTax(raw)) }

  function PriceLine(raw: RawLine): PricedLine {
    PricedLine(raw.productId, Described(raw), Quantity(raw), FromCents(UnitCents(raw)),
               ToFixed2(Amount(TaxRate(raw))), FromCents(LineTotal(raw)))
  }

  // ---- The whole list ----------------------------------------------------

  /** The fault of the first line that has one. */
  function FirstFault(lines: seq<RawLine>): Option<Fault> {
    if lines == [] then None
    else if FirstFault(lines[..|lines| - 1]).Some? then FirstFault(lines[..|lines| - 1])
    else LineFault(lines[|lines| - 1])
  }

  function Rejection(lines: seq<RawLine>): Option<Fault> {
    if lines == [] then Some(NoItems)
    else if |lines| > INVOICE_MAX_LINE_ITEMS then Some(TooManyItems)
    else FirstFault(lines)
  }

  function Subtotal(lines: seq<RawLine>): int { SumOf(LineTotal, lines) }
  function TaxTotal(lines: seq<RawLine>): int { SumOf(LineTax, lines) }

  method ComputeInvoiceTotals(lines: seq<RawLine>) returns (r: Result<Totals, Fault>)
    ensures Rejection(lines).Some? ==> r == Err(Rejection(lines).value)
    ensures Rejection(lines).None? ==>
              r.Ok?
              && r.value.subtotal == FromCents(Subtotal(lines))
              && r.value.taxTotal == FromCents(TaxTotal(lines))
              && r.value.total == FromCents(Subtotal(lines) + TaxTotal(lines))
              && |r.value.items| == |lines|
              && forall i | 0 <= i < |lines| :: r.value.items[i] == PriceLine(lines[i])
  {
    hide LineFault, UnitCents, Quantity, TaxRate, TaxOn, Round, ToFixed2, FirstFault, FromCents, SumOf, PriceLine;
    if |lines| == 0 { return Err(NoItems); }
    if |lines| > INVOICE_MAX_LINE_ITEMS { return Err(TooManyItems); }
    NoLinesYet(lines);
    var subtotalCents, taxCents := 0, 0;
    var items := [];
    var i := 0;
    while i < |lines|
      invariant 0 <= i <= |lines| && |items| == i
      invariant FirstFault(lines[..i]).None?
      invariant subtotalCents == Subtotal(lines[..i]) && taxCents == TaxTotal(lines[..i])
      invariant forall k | 0 <= k < i :: items[k] == PriceLine(lines[k])
    {
      var raw := lines[i];
      FaultNext(lines, i);
      SumNext(LineTotal, lines, i);
      SumNext(LineTax, lines, i);
      var fault := LineFault(raw);
      if fault.Some? {
        FaultStays(lines, i + 1);
        return Err(fault.value);
      }
      var lineTotalCents := UnitCents(raw) * Quantity(raw);
      var lineTaxCents := Round(TaxOn(lineTotalCents, Amount(TaxRate(raw))));
      subtotalCents := subtotalCents + lineTotalCents;
      taxCents := taxCents + lineTaxCents;
      items := items + [PriceLine(raw)];
      i := i + 1;
    }
    assert lines[..i] == lines;
    r := Ok(Totals(items, FromCents(subtotalCents), FromCents(taxCents), FromCents(subtotalCents + taxCents)));
  }

  lemma NoLinesYet(lines: seq<RawLine>)
    ensures FirstFault(lines[..0]).None? && Subtotal(lines[..0]) == 0 && TaxTotal(lines[..0]) == 0
  {
  }

  lemma FaultNext(lines: seq<RawLine>, i: nat)
    requires i < |lines|
    ensures FirstFault(lines[..i + 1])
            == if FirstFault(lines[..i]).Some? then FirstFault(lines[..i]) else LineFault(lines[i])
  {
    hide LineFault;
    assert lines[..i + 1][..i] == lines[..i];
  }

  lemma {:induction false} FaultStays(lines: seq<RawLine>, i: nat)
    requires i <= |lines| && FirstFault(lines[..i]).Some?
    ensures FirstFault(lines) == FirstFault(lines[..i])
    decreases |lines|
  {
    hide LineFault;
    if i < |lines| {
      assert lines[..|lines| - 1][..i] == lines[..i];
      FaultStays(lines[..|lines| - 1], i);
    } else {
      assert lines[..i] == lines;
    }
  }

  /** A list is priced exactly when it has 1 to 200 lines and every one passes. */
  lemma {:induction false} AcceptedIff(lines: seq<RawLine>)
    ensures FirstFault(lines).None? <==> forall i | 0 <= i < |lines| :: LineFault(lines[i]).None?
    ensures Rejection(lines).None?
            <==> 1 <= |lines| <= 200 && forall i | 0 <= i < |lines| :: LineFault(lines[i]).None?
  {
    hide LineFault;
    if lines != [] { AcceptedIff(lines[..|lines| - 1]); }
  }

  // ---- What the amounts are ----------------------------------------------

  /** What a line says: its price, its quantity, and its rate, which is 0 when absent. */
  ghost predicate Says(raw: RawLine, u: real, q: int, r: real) {
    && raw.unitPrice == Number(u) && raw.quantity == Number(q as real)
    && (raw.taxRate == Number(r) || (raw.taxRate.Absent? && r == 0.0))
  }

  /** The line is described in 1 to 500 characters. */
  predicate DescriptionFits(raw: RawLine) { 1 <= |Trim(raw.description.GetOr(""))| <= 500 }

  predicate QuantityFits(raw: RawLine) {
    raw.quantity.Number? && raw.quantity.value >= 1.0 && raw.quantity.value == raw.quantity.value.Floor as real
  }

  predicate PriceFits(raw: RawLine) { raw.unitPrice.Number? && raw.unitPrice.value >= 0.0 }

  predicate RateFits(raw: RawLine) {
    raw.taxRate.Absent? || (raw.taxRate.Number? && 0.0 <= raw.taxRate.value <= 100.0)
  }

  /** A line passes exactly when description, quantity, price and rate are all in range, and
      otherwise is refused for the first of them that is not. */
  lemma LineFaultIs(raw: RawLine)
    ensures LineFault(raw).None? <==> DescriptionFits(raw) && QuantityFits(raw) && PriceFits(raw) && RateFits(raw)
    ensures LineFault(raw) == Some(DescriptionMissing) <==> Trim(raw.description.GetOr("")) == ""
    ensures LineFault(raw) == Some(DescriptionTooLong) <==> |Trim(raw.description.GetOr(""))| > 500
    ensures LineFault(raw) == Some(BadQuantity) <==> DescriptionFits(raw) && !QuantityFits(raw)
    ensures LineFault(raw) in {Some(PriceNotFinite), Some(PriceNegative)}
            <==> DescriptionFits(raw) && QuantityFits(raw) && !PriceFits(raw)
    ensures LineFault(raw) == Some(PriceNotFinite) ==> !raw.unitPrice.Number?
    ensures LineFault(raw) == Some(PriceNegative) ==> raw.unitPrice.Number?
    ensures LineFault(raw) in {Some(BadTaxRate), Some(TaxRateTooHigh)}
            <==> DescriptionFits(raw) && QuantityFits(raw) && PriceFits(raw) && !RateFits(raw)
    ensures LineFault(raw) == Some(TaxRateTooHigh) ==> raw.taxRate.Number? && raw.taxRate.value > 100.0
    ensures LineFault(raw) == Some(BadTaxRate) ==> raw.taxRate.NotFinite? || raw.taxRate.value < 0.0
  {
    hide Trim;
  }

  /** The reported fault is that of the first line that has one, once the list is neither
      empty nor too long. */
  lemma {:induction false} FirstFaultIs(lines: seq<RawLine>, i: nat)
    requires i < |lines| && LineFault(lines[i]).Some? && forall k | 0 <= k < i :: LineFault(lines[k]).None?
    ensures FirstFault(lines) == LineFault(lines[i])
    ensures Rejection(lines) == if |lines| > 200 then Some(TooManyItems) else LineFault(lines[i])
    ensures Rejection([]) == Some(NoItems)
    decreases |lines|
  {
    hide LineFault;
    if i < |lines| - 1 { FirstFaultIs(lines[..|lines| - 1], i); } else { AcceptedIff(lines[..i]); }
  }

  /** What an accepted line comes to: a whole number of cents a unit, within half a cent of
      the price, times the quantity; and a tax within half a cent of that share of it. */
  lemma LineBounds(raw: RawLine, u: real, q: int, r: real) returns (unitCents: int)
    requires LineFault(raw).None? && Says(raw, u, q, r)
    ensures q >= 1 && LineTotal(raw) == unitCents * q && -0.5 < unitCents as real - 100.0 * u <= 0.5
    ensures -0.5 < LineTax(raw) as real - LineTotal(raw) as real * r / 100.0 <= 0.5
    ensures 0 <= LineTax(raw) <= LineTotal(raw)
  {
    assert Quantity(raw) == q && Amount(raw.unitPrice) == u && Amount(TaxRate(raw)) == r;
    assert UnitCents(raw) >= 0 && 0.0 <= r <= 100.0;
    unitCents := UnitCents(raw);
    ProductNonNegative(unitCents, q);
    RoundNear(u * 100.0);
    var total := LineTotal(raw);
    TaxIs(raw);
    hide LineTotal, LineTax, Round;
    Rounded(total, r);
  }

  lemma TaxIs(raw: RawLine)
    ensures LineTax(raw) == Round(LineTotal(raw) as real * Amount(TaxRate(raw)) / 100.0)
  {
  }

  lemma Rounded(total: int, r: real)
    requires total >= 0 && 0.0 <= r <= 100.0
    ensures var tax := Round(total as real * r / 100.0);
            0 <= tax <= total && -0.5 < tax as real - total as real * r / 100.0 <= 0.5
  {
    Scaled(total as real, r);
    var exact := total as real * r / 100.0;
    assert 0.0 <= exact <= total as real;
    RoundedWithin(exact, total);
    RoundNear(exact);
  }

  lemma ProductNonNegative(a: int, b: int)
    requires a >= 0 && b >= 0
    ensures a * b >= 0
  {
  }

  lemma Scaled(total: real, rate: real)
    requires total >= 0.0 && 0.0 <= rate <= 100.0
    ensures 0.0 <= total * rate / 100.0 <= total
  {
    assert total * rate <= total * 100.0;
  }

  function Price(raw: RawLine): real { if raw.unitPrice.Number? then raw.unitPrice.value else 0.0 }
  function Units(raw: RawLine): real { if raw.quantity.Number? then raw.quantity.value else 0.0 }
  function Rate(raw: RawLine): real { if raw.taxRate.Number? then raw.taxRate.value else 0.0 }

  /** What a line costs, and the tax on that in cents, with no rounding anywhere. */
  function Cost(raw: RawLine): real { Price(raw) * Units(raw) }
  function Tax(raw: RawLine): real { Cost(raw) * Rate(raw) }

  function AllUnits(lines: seq<RawLine>): real {
    if lines == [] then 0.0 else AllUnits(lines[..|lines| - 1]) + Units(lines[|lines| - 1])
  }

  function AllCost(lines: seq<RawLine>): real {
    if lines == [] then 0.0 else AllCost(lines[..|lines| - 1]) + Cost(lines[|lines| - 1])
  }

  function AllTax(lines: seq<RawLine>): real {
    if lines == [] then 0.0 else AllTax(lines[..|lines| - 1]) + Tax(lines[|lines| - 1])
  }

  /** A line against its raw price: half a cent a unit, and half a cent more for the tax. */
  lemma LineNear(raw: RawLine)
    requires LineFault(raw).None?
    ensures Abs(LineTotal(raw) as real - 100.0 * Cost(raw)) <= Units(raw) / 2.0
    ensures Abs(LineTax(raw) as real - Tax(raw)) <= (Units(raw) + 1.0) / 2.0
    ensures 0 <= LineTax(raw) <= LineTotal(raw)
  {
    hide LineTotal, LineTax, LineFault, Cost, Tax, Units, Price, Rate, Says;
    var (u, q, r) := (Price(raw), Units(raw).Floor, Rate(raw));
    LineSays(raw);
    var c := LineBounds(raw, u, q, r);
    CostIs(raw);
    NearCost(LineTotal(raw), c, u, q, Cost(raw));
    NearTax(LineTotal(raw) as real, Cost(raw), q as real / 2.0, r, LineTax(raw) as real);
  }

  lemma LineSays(raw: RawLine)
    requires LineFault(raw).None?
    ensures Says(raw, Price(raw), Units(raw).Floor, Rate(raw))
    ensures 0.0 <= Rate(raw) <= 100.0 && Units(raw) == Units(raw).Floor as real >= 1.0
  {
  }

  lemma CostIs(raw: RawLine)
    ensures Cost(raw) == Price(raw) * Units(raw) && Tax(raw) == Cost(raw) * Rate(raw)
  {
  }

  lemma NearCost(total: int, c: int, u: real, q: nat, cost: real)
    requires total == c * q && cost == u * q as real && -0.5 <= c as real - 100.0 * u <= 0.5
    ensures -(q as real / 2.0) <= total as real - 100.0 * cost <= q as real / 2.0
  {
    Within(c as real - 100.0 * u, 0.5, q as real);
    assert (c as real - 100.0 * u) * q as real == c as real * q as real - 100.0 * (u * q as real);
    assert total as real == c as real * q as real;
  }

  lemma NearTax(total: real, cost: real, gap: real, r: real, tax: real)
    requires -gap <= total - 100.0 * cost <= gap && gap >= 0.0 && 0.0 <= r <= 100.0
    requires -0.5 <= tax - total * r / 100.0 <= 0.5
    ensures -(gap + 0.5) <= tax - cost * r <= gap + 0.5
  {
    ShareWithin(total - 100.0 * cost, gap, r);
    Share(total, cost, r);
  }

  lemma ShareWithin(e: real, bound: real, r: real)
    requires -bound <= e <= bound && 0.0 <= r <= 100.0
    ensures -bound <= e * r / 100.0 <= bound
  {
    Scaled(bound - e, r);
    Scaled(bound + e, r);
    Scaled(bound, r);
    Between(bound * r / 100.0, e * r / 100.0, (bound - e) * r / 100.0, (bound + e) * r / 100.0, bound);
  }

  lemma Between(b: real, e: real, below: real, above: real, bound: real)
    requires b <= bound && 0.0 <= below == b - e && 0.0 <= above == b + e
    ensures -bound <= e <= bound
  {
  }

  lemma Share(total: real, cost: real, r: real)
    ensures (total - 100.0 * cost) * r / 100.0 == total * r / 100.0 - cost * r
  {
  }

  lemma Within(e: real, bound: real, k: real)
    requires -bound <= e <= bound && k >= 0.0
    ensures -(bound * k) <= e * k <= bound * k
  {
    assert (bound - e) * k >= 0.0 && (bound + e) * k >= 0.0;
  }

  /** Subtotal and tax of a list against the raw lines: never off by more than half a cent
      a unit, and a line for the tax; the tax is never negative nor above the subtotal. */
  lemma {:induction false} TotalsBounds(lines: seq<RawLine>)
    requires FirstFault(lines).None?
    ensures 0 <= TaxTotal(lines) <= Subtotal(lines)
    ensures Abs(Subtotal(lines) as real - 100.0 * AllCost(lines)) <= AllUnits(lines) / 2.0
    ensures Abs(TaxTotal(lines) as real - AllTax(lines)) <= (AllUnits(lines) + |lines| as real) / 2.0
  {
    hide LineFault, LineTax, LineTotal, Cost, Tax, Units;
    if lines != [] {
      TotalsBounds(lines[..|lines| - 1]);
      LineNear(lines[|lines| - 1]);
    }
  }

  /** The line as it is stored: trimmed text, the printed unit price times the quantity is
      the printed line total, and every amount reads back to what was priced. */
  lemma StoredLineReadsBack(raw: RawLine, u: real, q: int, r: real)
    requires LineFault(raw).None? && Says(raw, u, q, r)
    ensures var line := PriceLine(raw); var (unit, total) := (ParseCents(line.unitPrice), ParseCents(line.lineTotal));
            && line.productId == raw.productId && raw.description == Some(raw.description.GetOr(""))
            && line.description == Trim(raw.description.value) && line.quantity == q
            && unit.Some? && -0.5 < unit.value as real - 100.0 * u <= 0.5
            && total == Some(LineTotal(raw)) && total.value == unit.value * q
            && ParseCents(line.taxRate).Some? && -0.5 < ParseCents(line.taxRate).value as real - 100.0 * r <= 0.5
  {
    assert Quantity(raw) == q && Amount(raw.unitPrice) == u && Amount(TaxRate(raw)) == r;
    assert UnitCents(raw) >= 0 && r >= 0.0 && raw.description.Some?;
    ProductNonNegative(UnitCents(raw), q);
    RoundNear(u * 100.0);
    hide ParseCents, FromCents, ToFixed2, CentsText, Round, Trim, Quantity;
    MoneyRoundTrip(UnitCents(raw));
    MoneyRoundTrip(LineTotal(raw));
    FixedReadsBack(r);
  }

  /** The three printed amounts read back to cents that add up. */
  lemma PrintedTotalsAddUp(lines: seq<RawLine>)
    requires Rejection(lines).None?
    ensures var (s, t) := (ParseCents(FromCents(Subtotal(lines))), ParseCents(FromCents(TaxTotal(lines))));
            s.Some? && t.Some? && t.value <= s.value
            && ParseCents(FromCents(Subtotal(lines) + TaxTotal(lines))) == Some(s.value + t.value)
  {
    hide FromCents, ParseCents, SumOf, FirstFault, LineFault, AllCost, AllUnits, AllTax, CentsText;
    TotalsBounds(lines);
    MoneyRoundTrip(Subtotal(lines));
    MoneyRoundTrip(TaxTotal(lines));
    MoneyRoundTrip(Subtotal(lines) + TaxTotal(lines));
  }

  // ---- Reordering and splitting ------------------------------------------

  /** The order of the lines changes no amount, and not whether they are accepted. */
  lemma LinesReorder(a: seq<RawLine>, b: seq<RawLine>)
    requires multiset(a) == multiset(b)
    ensures Subtotal(a) == Subtotal(b) && TaxTotal(a) == TaxTotal(b)
    ensures Rejection(a).Some? <==> Rejection(b).Some?
  {
    hide LineFault, LineTax, LineTotal;
    SumPermutes(LineTotal, a, b);
    SumPermutes(LineTax, a, b);
    assert |a| == |multiset(a)| == |multiset(b)| == |b|;
    AcceptedIff(a);
    AcceptedIff(b);
    forall x ensures x in a <==> x in b {
      assert x in multiset(a) <==> x in multiset(b);
    }
    assert (forall i | 0 <= i < |a| :: LineFault(a[i]).None?) <==> (forall x | x in a :: LineFault(x).None?);
    assert (forall i | 0 <= i < |b| :: LineFault(b[i]).None?) <==> (forall x | x in b :: LineFault(x).None?);
  }

  function WithQuantity(raw: RawLine, q: int): RawLine { raw.(quantity := Number(q as real)) }

  /** Splitting one line's quantity keeps the subtotal and moves the tax by a cent at most. */
  lemma SplitLine(before: seq<RawLine>, raw: RawLine, after: seq<RawLine>, q1: nat, q2: nat)
    ensures var whole := before + [WithQuantity(raw, q1 + q2)] + after;
            var split := before + [WithQuantity(raw, q1), WithQuantity(raw, q2)] + after;
            && Subtotal(split) == Subtotal(whole)
            && -1 <= TaxTotal(split) - TaxTotal(whole) <= 1
  {
    hide LineTax, LineTotal, SumOf;
    SplitSums(LineTotal, before, after, WithQuantity(raw, q1 + q2), WithQuantity(raw, q1), WithQuantity(raw, q2));
    SplitSums(LineTax, before, after, WithQuantity(raw, q1 + q2), WithQuantity(raw, q1), WithQuantity(raw, q2));
    SplitAmounts(raw, q1, q2);
  }

  lemma SplitSums(f: RawLine -> int, before: seq<RawLine>, after: seq<RawLine>, x: RawLine, y: RawLine, z: RawLine)
    ensures SumOf(f, before + [y, z] + after) - SumOf(f, before + [x] + after) == f(y) + f(z) - f(x)
  {
    SumConcat(f, before + [y, z], after);
    SumConcat(f, before, [y, z]);
    SumConcat(f, before + [x], after);
    SumConcat(f, before, [x]);
    assert SumOf(f, [x]) == SumOf(f, []) + f(x) by { assert [x][..0] == []; }
    SumConcat(f, [y], [z]);
    assert [y] + [z] == [y, z] && [y][..0] == [] && [z][..0] == [];
  }

  lemma SplitAmounts(raw: RawLine, q1: nat, q2: nat)
    ensures LineTotal(WithQuantity(raw, q1)) + LineTotal(WithQuantity(raw, q2)) == LineTotal(WithQuantity(raw, q1 + q2))
    ensures -1 <= LineTax(WithQuantity(raw, q1)) + LineTax(WithQuantity(raw, q2))
                  - LineTax(WithQuantity(raw, q1 + q2)) <= 1
  {
    var (c, rate) := (UnitCents(raw), Amount(TaxRate(raw)));
    SplitLineTotals(raw, q1, q2);
    hide UnitCents, TaxRate, Round, LineTotal;
    Distribute(LineTotal(WithQuantity(raw, q1)) as real, LineTotal(WithQuantity(raw, q2)) as real, rate);
    assert ExactTax(WithQuantity(raw, q1)) + ExactTax(WithQuantity(raw, q2)) == ExactTax(WithQuantity(raw, q1 + q2));
    RoundedSum(ExactTax(WithQuantity(raw, q1)), ExactTax(WithQuantity(raw, q2)));
  }

  lemma SplitLineTotals(raw: RawLine, q1: nat, q2: nat)
    ensures LineTotal(WithQuantity(raw, q1)) + LineTotal(WithQuantity(raw, q2)) == LineTotal(WithQuantity(raw, q1 + q2))
    ensures TaxRate(WithQuantity(raw, q1)) == TaxRate(WithQuantity(raw, q2)) == TaxRate(WithQuantity(raw, q1 + q2))
            == TaxRate(raw)
  {
    var c := UnitCents(raw);
    assert forall q: nat :: UnitCents(WithQuantity(raw, q)) == c && Quantity(WithQuantity(raw, q)) == q;
    hide UnitCents, Quantity, WithQuantity;
    assert c * q1 + c * q2 == c * (q1 + q2);
  }

  lemma Distribute(a: real, b: real, rate: real)
    ensures a * rate / 100.0 + b * rate / 100.0 == (a + b) * rate / 100.0
  {
  }

  // ---- Stored templates --------------------------------------------------

  function NormalizeLine(raw: RawLine): RawLine {
    raw.(description := Some(Described(raw)), taxRate := TaxRate(raw))
  }

  lemma SameParts(raw: RawLine)
    ensures var t := NormalizeLine(raw);
            && Described(t) == Described(raw) && TaxRate(t) == TaxRate(raw) && t.productId == raw.productId
            && t.quantity == raw.quantity && t.unitPrice == raw.unitPrice
  {
    hide IsSpace, TrimStart, TrimEnd;
    TrimIdempotent(raw.description.GetOr(""));
  }

  lemma SameLine(raw: RawLine)
    ensures LineFault(NormalizeLine(raw)) == LineFault(raw) && PriceLine(NormalizeLine(raw)) == PriceLine(raw)
    ensures LineTotal(NormalizeLine(raw)) == LineTotal(raw) && LineTax(NormalizeLine(raw)) == LineTax(raw)
  {
    SameParts(raw);
    hide NormalizeLine, Round, ToFixed2, TaxRate, Described, Amount;
    assert UnitCents(NormalizeLine(raw)) == UnitCents(raw) && Quantity(NormalizeLine(raw)) == Quantity(raw);
    assert LineTotal(NormalizeLine(raw)) == LineTotal(raw);
    assert ExactTax(NormalizeLine(raw)) == ExactTax(raw);
  }

  /** What a schedule stores has trimmed descriptions and a rate on every line, is accepted
      again and prices to the same amounts. */
  lemma {:induction false} TemplateKeepsPrice(lines: seq<RawLine>, template: seq<RawLine>)
    requires |template| == |lines| && forall i | 0 <= i < |lines| :: template[i] == NormalizeLine(lines[i])
    ensures Rejection(template) == Rejection(lines)
    ensures Subtotal(template) == Subtotal(lines) && TaxTotal(template) == TaxTotal(lines)
    ensures forall i | 0 <= i < |lines| ::
              && PriceLine(template[i]) == PriceLine(lines[i])
              && template[i].description.Some? && Trimmed(template[i].description.value)
              && !template[i].taxRate.Absent?
  {
    hide LineFault, LineTotal, LineTax, PriceLine;
    SameFaults(lines, template);
    forall i | 0 <= i < |lines| ensures PriceLine(template[i]) == PriceLine(lines[i]) { SameLine(lines[i]); }
  }

  lemma {:induction false} SameFaults(lines: seq<RawLine>, template: seq<RawLine>)
    requires |template| == |lines| && forall i | 0 <= i < |lines| :: template[i] == NormalizeLine(lines[i])
    ensures FirstFault(template) == FirstFault(lines)
    ensures Subtotal(template) == Subtotal(lines) && TaxTotal(template) == TaxTotal(lines)
  {
    hide LineFault, LineTotal, LineTax, PriceLine, NormalizeLine;
    if lines != [] {
      var n := |lines| - 1;
      SameFaults(lines[..n], template[..n]);
      SameLine(lines[n]);
    }
  }
}
