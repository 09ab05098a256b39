/** The stock ledger: which movements are accepted, and on-hand figures computed from
    grouped sums. */
module Stock {
  import opened Options
  import opened Sums

  type Id = nat

  datatype Kind = IN | OUT | ADJUST

  datatype Movement = Movement(product: Id, kind: Kind, quantity: int)

  /** A row of the grouped query: the summed quantity of one product and one kind. */
  datatype MovementSum = MovementSum(product: Id, kind: Kind, sum: Option<int>)

  datatype Fault = NotWhole | TooLarge | NotPositive

  const MOVEMENT_MAX_QUANTITY := 1_000_000

  // ---- Accepting a movement ----------------------------------------------

  function ValidateQuantity(kind: Kind, quantity: real): Result<int, Fault> {
    if quantity != quantity.Floor as real || quantity == 0.0 then Err(NotWhole)
    else if quantity > MOVEMENT_MAX_QUANTITY as real || -quantity > MOVEMENT_MAX_QUANTITY as real then Err(TooLarge)
    else if (kind == IN || kind == OUT) && quantity < 0.0 then Err(NotPositive)
    else Ok(quantity.Floor)
  }

  /** What a movement may say: IN and OUT are recorded positive, ADJUST carries its sign. */
  predicate Recordable(m: Movement) {
    && m.quantity != 0 && -MOVEMENT_MAX_QUANTITY <= m.quantity <= MOVEMENT_MAX_QUANTITY
    && (m.kind == ADJUST || m.quantity > 0)
  }

  /** A quantity is accepted exactly when it is a recordable whole number, and then
      unchanged. */
  lemma QuantityAcceptedIff(product: Id, kind: Kind, quantity: real)
    ensures ValidateQuantity(kind, quantity).Ok?
            <==> exists q: int :: q as real == quantity && Recordable(Movement(product, kind, q))
    ensures ValidateQuantity(kind, quantity).Ok?
            ==> ValidateQuantity(kind, quantity).value as real == quantity
                && Recordable(Movement(product, kind, ValidateQuantity(kind, quantity).value))
  {
    var q := quantity.Floor;
    if ValidateQuantity(kind, quantity).Ok? {
      assert q as real == quantity && Recordable(Movement(product, kind, q));
    }
  }

  predicate IsWhole(x: real) { x.Floor as real == x }

  /** In plain numbers: whole, not zero, at most a million either way, and below zero only
      for ADJUST; the fault is the first of these that fails. */
  lemma QuantityFault(kind: Kind, quantity: real)
    ensures var (r, whole) := (ValidateQuantity(kind, quantity), IsWhole(quantity));
            && (r.Ok? <==> whole && 1.0 <= (if quantity < 0.0 then -quantity else quantity) <= 1_000_000.0
                           && (kind == ADJUST || quantity > 0.0))
            && (r == Err(NotWhole) <==> !whole || quantity == 0.0)
            && (r == Err(TooLarge) <==> whole && (quantity > 1_000_000.0 || quantity < -1_000_000.0))
            && (r == Err(NotPositive) <==> whole && kind != ADJUST && -1_000_000.0 <= quantity < 0.0)
  {
  }

  // ---- The ledger --------------------------------------------------------

  function Signed(kind: Kind, quantity: int): int {
    if kind == OUT then -quantity else quantity
  }

  /** What a movement adds to the stock of `product`. */
  function SignedFor(product: Id): Movement -> int {
    (m: Movement) => if m.product == product then Signed(m.kind, m.quantity) else 0
  }

  /** On-hand stock: the signed sum of the whole ledger. */
  function OnHand(ledger: seq<Movement>, product: Id): int { SumOf(SignedFor(product), ledger) }

  function QuantityFor(product: Id, kind: Kind): Movement -> int {
    (m: Movement) => if m.product == product && m.kind == kind then m.quantity else 0
  }

  // ---- The computation on grouped sums -----------------------------------

  function DeltaFor(product: Id): MovementSum -> int {
    (r: MovementSum) => if r.product == product then Signed(r.kind, r.sum.GetOr(0)) else 0
  }

  function PartFor(product: Id, kind: Kind): MovementSum -> int {
    (r: MovementSum) => if r.product == product && r.kind == kind then r.sum.GetOr(0) else 0
  }

  method ComputeStockMap(rows: seq<MovementSum>) returns (stock: map<Id, int>)
    ensures stock.Keys == set r | r in rows :: r.product
    ensures forall p | p in stock :: stock[p] == SumOf(DeltaFor(p), rows)
  {
    hide SumOf;
    stock := map[];
    forall p: Id ensures SumOf(DeltaFor(p), rows[..0]) == 0 { SumNone(DeltaFor(p), rows); }
    for i := 0 to |rows|
      invariant stock.Keys == set r | r in rows[..i] :: r.product
      invariant forall p: Id :: SumOf(DeltaFor(p), rows[..i]) == if p in stock then stock[p] else 0
    {
      var row := rows[i];
      var quantity := row.sum.GetOr(0);
      var delta := if row.kind == OUT then -quantity else quantity;
      forall p: Id ensures SumOf(DeltaFor(p), rows[..i + 1]) == SumOf(DeltaFor(p), rows[..i]) + DeltaFor(p)(row) {
        SumNext(DeltaFor(p), rows, i);
      }
      assert rows[..i + 1] == rows[..i] + [row];
      stock := stock[row.product := (if row.product in stock then stock[row.product] else 0) + delta];
    }
    assert rows[..|rows|] == rows;
  }

  /** `rows` is what grouping the ledger by product and kind gives for `ids`: one row a
      pair that occurs, in any order. */
  ghost predicate Grouping(rows: seq<MovementSum>, ledger: seq<Movement>, ids: set<Id>) {
    && (forall i, j | 0 <= i < j < |rows| :: (rows[i].product, rows[i].kind) != (rows[j].product, rows[j].kind))
    && (forall r | r in rows :: r.product in ids && r.sum == Some(SumOf(QuantityFor(r.product, r.kind), ledger)))
    && (forall m | m in ledger && m.product in ids ::
          exists r :: r in rows && r.product == m.product && r.kind == m.kind)
  }

  lemma {:induction false} SumZero<T>(f: T -> int, s: seq<T>)
    requires forall i | 0 <= i < |s| :: f(s[i]) == 0
    ensures SumOf(f, s) == 0
  {
    if s != [] { SumZero(f, s[..|s| - 1]); }
  }

  lemma SumSingle<T>(f: T -> int, s: seq<T>, k: nat)
    requires k < |s| && forall i | 0 <= i < |s| && i != k :: f(s[i]) == 0
    ensures SumOf(f, s) == f(s[k])
  {
    SumRemove(f, s, k);
    SumZero(f, s[..k] + s[k + 1..]);
  }

  /** A product's row of one kind carries that kind's whole sum, and no row means no sum. */
  lemma PartIsSum(rows: seq<MovementSum>, ledger: seq<Movement>, ids: set<Id>, product: Id, kind: Kind)
    requires Grouping(rows, ledger, ids) && product in ids
    ensures SumOf(PartFor(product, kind), rows) == SumOf(QuantityFor(product, kind), ledger)
  {
    if k :| 0 <= k < |rows| && rows[k].product == product && rows[k].kind == kind {
      assert rows[k] in rows;
      SumSingle(PartFor(product, kind), rows, k);
    } else {
      SumZero(PartFor(product, kind), rows);
      SumZero(QuantityFor(product, kind), ledger);
    }
  }

  lemma {:induction false} RowsSplit(rows: seq<MovementSum>, product: Id)
    ensures SumOf(DeltaFor(product), rows)
            == SumOf(PartFor(product, IN), rows) - SumOf(PartFor(product, OUT), rows)
               + SumOf(PartFor(product, ADJUST), rows)
  {
    if rows != [] { RowsSplit(rows[..|rows| - 1], product); }
  }

  /** On-hand stock is what came in, less what went out, plus the corrections. */
  lemma {:induction false} LedgerSplit(ledger: seq<Movement>, product: Id)
    ensures OnHand(ledger, product)
            == SumOf(QuantityFor(product, IN), ledger) - SumOf(QuantityFor(product, OUT), ledger)
               + SumOf(QuantityFor(product, ADJUST), ledger)
  {
    if ledger != [] { LedgerSplit(ledger[..|ledger| - 1], product); }
  }

  /** The figure computed from any grouping of the ledger is the signed sum of the whole
      ledger; a product without a row has no movements that count. */
  lemma GroupedSumsGiveOnHand(rows: seq<MovementSum>, ledger: seq<Movement>, ids: set<Id>, product: Id)
    requires Grouping(rows, ledger, ids) && product in ids
    ensures SumOf(DeltaFor(product), rows) == OnHand(ledger, product)
    ensures (forall r | r in rows :: r.product != product) ==> OnHand(ledger, product) == 0
  {
    PartIsSum(rows, ledger, ids, product, IN);
    PartIsSum(rows, ledger, ids, product, OUT);
    PartIsSum(rows, ledger, ids, product, ADJUST);
    RowsSplit(rows, product);
    LedgerSplit(ledger, product);
    if forall r | r in rows :: r.product != product { SumZero(DeltaFor(product), rows); }
  }

  /** The batch lookup: every product asked for, with 0 for one that never moved. */
  method OnHandFor(ledger: seq<Movement>, ids: set<Id>, rows: seq<MovementSum>) returns (stock: map<Id, int>)
    requires Grouping(rows, ledger, ids)
    ensures stock.Keys <= ids
    ensures forall p | p in ids :: OnHand(ledger, p) == if p in stock then stock[p] else 0
  {
    if ids == {} { return map[]; }
    stock := ComputeStockMap(rows);
    forall p | p in ids ensures OnHand(ledger, p) == if p in stock then stock[p] else 0 {
      GroupedSumsGiveOnHand(rows, ledger, ids, p);
    }
  }

  // ---- The reorder point -------------------------------------------------

  /** Low only when the product is tracked, that is, has a positive reorder point. */
  predicate IsBelowReorderPoint(onHand: int, reorderPoint: Option<int>) {
    reorderPoint.Some? && reorderPoint.value > 0 && onHand < reorderPoint.value
  }

  /** Exactly the whole numbers below a positive point are low: one under it is, the point
      itself is not, and without a point, or at one of zero or less, nothing is. */
  lemma LowBelowThePoint(onHand: int, point: int)
    ensures !IsBelowReorderPoint(onHand, None)
    ensures point <= 0 ==> !IsBelowReorderPoint(onHand, Some(point))
    ensures point > 0 ==> !IsBelowReorderPoint(point, Some(point)) && IsBelowReorderPoint(point - 1, Some(point))
    ensures IsBelowReorderPoint(onHand, Some(point)) <==> point > 0 && point - onHand >= 1
  {
  }
}
