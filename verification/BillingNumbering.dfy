/** Invoice numbers have no gaps and no doubles, in every run of the billing steps. */
module BillingNumbering {
  import opened Calendar
  import opened Billing
  import opened BillingLocks
  import InvoiceNumber

  lemma NumbersAppend(invoices: seq<Invoice>, x: Invoice, key: (Id, int))
    ensures Numbers(invoices + [x], key)
            == if (x.org, x.year) == key then Numbers(invoices, key) + [x.sequence] else Numbers(invoices, key)
  {
    assert (invoices + [x])[..|invoices|] == invoices;
  }

  lemma {:induction false} NumbersDetached(invoices: seq<Invoice>, id: Id, key: (Id, int))
    ensures Numbers(Detached(invoices, id), key) == Numbers(invoices, key)
  {
    if invoices != [] {
      var before := invoices[..|invoices| - 1];
      NumbersDetached(before, id, key);
      assert Detached(invoices, id)[..|invoices| - 1] == Detached(before, id);
    }
  }

  lemma UptoNext(n: nat)
    ensures Upto(n + 1) == Upto(n) + [n + 1]
  {
  }

  /** The committed numbers of every organisation and year are 1, 2, .., counter. */
  ghost predicate GapFree(s: Store) {
    forall key: (Id, int) :: Numbers(s.invoices, key) == Upto(CounterOf(s, key))
  }

  lemma GapFreeAfterCommit(s: Store, tx: Id)
    requires GapFree(s) && Locks(s)
    ensures GapFree(AfterCommit(s, tx))
  {
    hide CivilOf, NextRunAt, InvoiceNumber.FormatInvoiceNumber, Numbers, OneHolder;
    if tx in s.txs && s.txs[tx].ReadyToCommit() {
      var t := s.txs[tx];
      var r := CommitTx(s, tx);
      forall key: (Id, int) ensures Numbers(r.invoices, key) == Upto(CounterOf(r, key)) {
        assert Numbers(s.invoices, key) == Upto(CounterOf(s, key));
        NumbersAppend(s.invoices, NewInvoice(t), key);
        UptoNext(CounterOf(s, key));
      }
    }
  }

  lemma GapFreeStep(s: Store, e: Event)
    requires GapFree(s) && Locks(s)
    ensures GapFree(Apply(s, e))
  {
    hide AfterCommit, Numbers, Detached, CounterHeld, ScheduleHeld, SchedulePinned;
    match e
    case Commit(tx) => GapFreeAfterCommit(s, tx);
    case Remove(id) =>
      forall key: (Id, int) ensures Numbers(Detached(s.invoices, id), key) == Upto(CounterOf(s, key)) {
        NumbersDetached(s.invoices, id, key);
      }
    case _ =>
  }

  lemma {:induction false} GapFreeAlways(es: seq<Event>)
    ensures GapFree(Run(es))
  {
    hide Apply, CivilOf;
    if es != [] {
      var before := es[..|es| - 1];
      GapFreeAlways(before);
      LocksHold(before);
      GapFreeStep(Run(before), es[|es| - 1]);
    }
  }

  // ---- Unique numbers ----------------------------------------------------

  ghost predicate WellNumbered(s: Store) {
    forall i | 0 <= i < |s.invoices| ::
      s.invoices[i].number == InvoiceNumber.FormatInvoiceNumber(s.invoices[i].year, s.invoices[i].sequence)
  }

  lemma WellNumberedStep(s: Store, e: Event)
    requires WellNumbered(s)
    ensures WellNumbered(Apply(s, e))
  {
    hide InvoiceNumber.FormatInvoiceNumber, CivilOf, NextRunAt, CounterHeld, ScheduleHeld;
    hide SchedulePinned, RowMatches, Tx.Key;
  }

  lemma {:induction false} WellNumberedAlways(es: seq<Event>)
    ensures WellNumbered(Run(es))
  {
    hide Apply, WellNumbered;
    if es == [] {
      NoneYet();
    } else {
      WellNumberedAlways(es[..|es| - 1]);
      WellNumberedStep(Run(es[..|es| - 1]), es[|es| - 1]);
    }
  }

  lemma NoneYet()
    ensures WellNumbered(Init)
  {
  }

  /** The numbers before and after row `i` of one key tell its place in the sequence. */
  lemma {:induction false} PlaceOf(invoices: seq<Invoice>, i: nat)
    requires i < |invoices|
    ensures var key := (invoices[i].org, invoices[i].year);
            var k := |Numbers(invoices[..i], key)|;
            k < |Numbers(invoices, key)| && Numbers(invoices, key)[k] == invoices[i].sequence
    decreases |invoices|
  {
    var n := |invoices|;
    if i < n - 1 {
      PlaceOf(invoices[..n - 1], i);
      assert invoices[..n - 1][..i] == invoices[..i];
    } else {
      assert invoices[..i] == invoices[..n - 1];
    }
  }

  lemma {:induction false} NumbersGrow(invoices: seq<Invoice>, i: nat, j: nat, key: (Id, int))
    requires i < j <= |invoices| && (invoices[i].org, invoices[i].year) == key
    ensures |Numbers(invoices[..i], key)| < |Numbers(invoices[..j], key)|
    decreases j
  {
    assert invoices[..j][..j - 1] == invoices[..j - 1];
    if i < j - 1 { NumbersGrow(invoices, i, j - 1, key); }
  }

  /** No organisation ever has two committed invoices with the same printed number. */
  lemma UniqueNumbers(es: seq<Event>, i: nat, j: nat)
    requires i < j < |Run(es).invoices| && Run(es).invoices[i].org == Run(es).invoices[j].org
    ensures Run(es).invoices[i].number != Run(es).invoices[j].number
  {
    hide RunFrom, InvoiceNumber.FormatInvoiceNumber;
    var rows := Run(es).invoices;
    GapFreeAlways(es);
    WellNumberedAlways(es);
    InvoiceNumber.InvoiceNumberInjective(rows[i].year, rows[i].sequence, rows[j].year, rows[j].sequence);
    if rows[i].year == rows[j].year {
      var key := (rows[i].org, rows[i].year);
      PlaceOf(rows, i);
      PlaceOf(rows, j);
      NumbersGrow(rows, i, j, key);
      assert Numbers(rows, key) == Upto(CounterOf(Run(es), key));
    }
  }
}
