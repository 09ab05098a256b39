/** No period of a schedule is billed twice, in every run of the billing steps:
    workers with stale snapshots and differing clocks, pauses, resumes, deletions. */
module BillingClaims {
  import opened Options
  import opened Calendar
  import opened Recurrence
  import opened Billing
  import opened BillingLocks

  predicate SameTerms(a: Schedule, b: Schedule) {
    a.org == b.org && a.cadence == b.cadence && a.interval == b.interval
  }

  /** Terms never change; what a worker holds was due and active when it was listed. */
  ghost predicate Snapshots(s: Store) {
    && (forall id | id in s.schedules :: id in s.born && SameTerms(s.schedules[id], s.born[id]))
    && (forall x | x in s.listed ::
          x.0 in s.born && SameTerms(x.1, s.born[x.0]) && x.1.active && x.1.nextRunAt <= x.2)
    && (forall a | a in s.txs && s.txs[a].job.Recurring? ::
          (s.txs[a].job.id, s.txs[a].job.seen, s.txs[a].now) in s.listed)
  }

  lemma SnapshotsStep(s: Store, e: Event)
    requires Snapshots(s) && Locks(s)
    ensures Snapshots(Apply(s, e))
  {
    hide Advanced, CivilOf, Detached, CounterHeld, ScheduleHeld, SchedulePinned;
    hide OneHolder, HeldRows, RowMatches, NewInvoice;
  }

  // ---- Order of the claims -----------------------------------------------

  /** Each claim starts no earlier than the previous one of its schedule ended,
      and the row stands at or after the end of the last. */
  ghost predicate InOrder(s: Store) {
    && (forall i | 0 <= i < |s.claims| :: s.claims[i].consumed < s.claims[i].advanced && s.claims[i].id in s.born)
    && (forall i, j | 0 <= i < j < |s.claims| && s.claims[i].id == s.claims[j].id ::
          s.claims[i].advanced <= s.claims[j].consumed)
    && (forall i | 0 <= i < |s.claims| && s.claims[i].id in s.schedules ::
          s.claims[i].advanced <= s.schedules[s.claims[i].id].nextRunAt)
  }

  lemma InOrderAfterCommit(s: Store, tx: Id)
    requires InOrder(s) && Locks(s) && Snapshots(s)
    ensures InOrder(AfterCommit(s, tx))
  {
    hide Advanced, CivilOf, NewInvoice, OneHolder, Tx.Key;
    if tx in s.txs && s.txs[tx].ReadyToCommit() && s.txs[tx].job.Recurring? {
      var t := s.txs[tx];
      AdvancedLater(t.job.seen.cadence, t.job.seen.interval, t.job.seen.nextRunAt, t.now);
    }
  }

  lemma InOrderStep(s: Store, e: Event)
    requires InOrder(s) && Locks(s) && Snapshots(s)
    ensures InOrder(Apply(s, e))
  {
    hide AfterCommit, Detached, CounterHeld, ScheduleHeld, SchedulePinned, OneHolder, HeldRows, Tx.Key, RowMatches;
    if TxOnly(e) {
      TxOnlyKeepsRows(s, e);
      hide Apply;
    } else if e.Commit? {
      InOrderAfterCommit(s, e.tx);
    }
  }

  ghost predicate Safe(s: Store) { Locks(s) && Snapshots(s) && InOrder(s) }

  lemma {:induction false} SafeAlways(es: seq<Event>)
    ensures Safe(Run(es))
  {
    hide Apply, CivilOf;
    if es != [] {
      var before, e := Run(es[..|es| - 1]), es[|es| - 1];
      SafeAlways(es[..|es| - 1]);
      LocksStep(before, e);
      SnapshotsStep(before, e);
      InOrderStep(before, e);
    }
  }

  /** The fire times that committed invoices of one schedule use up strictly
      increase, and no two billings overlap. */
  lemma NoDoubleBilling(es: seq<Event>, i: nat, j: nat)
    requires i < j < |Run(es).claims| && Run(es).claims[i].id == Run(es).claims[j].id
    ensures Run(es).claims[i].consumed < Run(es).claims[i].advanced <= Run(es).claims[j].consumed
  {
    hide RunFrom;
    SafeAlways(es);
  }

  /** When a step bills a schedule, its row is active, due by the worker's clock and
      still at the fire time the worker saw; the row and one invoice move together. */
  lemma BillingIsDue(es: seq<Event>, e: Event)
    requires |Apply(Run(es), e).claims| > |Run(es).claims|
    ensures var (s, r) := (Run(es), Apply(Run(es), e));
            && e.Commit? && e.tx in s.txs && s.txs[e.tx].job.Recurring?
            && var (t, id) := (s.txs[e.tx], s.txs[e.tx].job.id);
               && id in s.schedules && s.schedules[id].active
               && s.schedules[id].nextRunAt == t.job.seen.nextRunAt <= t.now
               && r.claims == s.claims + [Claim(id, s.schedules[id].nextRunAt, r.schedules[id].nextRunAt, e.tx)]
               && r.schedules[id].nextRunAt == Advanced(s.schedules[id].cadence, s.schedules[id].interval,
                                                           s.schedules[id].nextRunAt, t.now)
               && r.schedules[id].generatedCount == s.schedules[id].generatedCount + 1
               && |r.invoices| == |s.invoices| + 1 && r.invoices[|s.invoices|].recurringInvoiceId == Some(id)
  {
    hide RunFrom, Advanced, CivilOf, CounterHeld, ScheduleHeld, SchedulePinned, OneHolder, InOrder;
    SafeAlways(es);
  }

  // ---- Counting ----------------------------------------------------------

  /** `generatedCount` is the number of billings and of invoices that point to the row. */
  ghost predicate Counted(s: Store) {
    && (forall id: Id :: id in s.schedules ==> ClaimsOf(s.claims, id) == s.schedules[id].generatedCount)
    && (forall id: Id :: id !in s.born ==> ClaimsOf(s.claims, id) == 0)
    && (forall id: Id :: InvoicesOf(s.invoices, id)
                         == if id in s.schedules then s.schedules[id].generatedCount else 0)
  }

  lemma CountAppend(claims: seq<Claim>, c: Claim, invoices: seq<Invoice>, x: Invoice, id: Id)
    ensures ClaimsOf(claims + [c], id) == ClaimsOf(claims, id) + if c.id == id then 1 else 0
    ensures InvoicesOf(invoices + [x], id)
            == InvoicesOf(invoices, id) + if x.recurringInvoiceId == Some(id) then 1 else 0
  {
    assert (claims + [c])[..|claims|] == claims;
    assert (invoices + [x])[..|invoices|] == invoices;
  }

  lemma {:induction false} InvoicesDetached(invoices: seq<Invoice>, gone: Id, id: Id)
    ensures InvoicesOf(Detached(invoices, gone), id) == if id == gone then 0 else InvoicesOf(invoices, id)
  {
    if invoices != [] {
      var before := invoices[..|invoices| - 1];
      InvoicesDetached(before, gone, id);
      assert Detached(invoices, gone)[..|invoices| - 1] == Detached(before, gone);
    }
  }

  lemma CountedAfterCommit(s: Store, tx: Id)
    requires Counted(s) && Locks(s) && Snapshots(s)
    ensures Counted(AfterCommit(s, tx))
  {
    hide CivilOf, Advanced, ClaimsOf, InvoicesOf, OneHolder, Tx.Key;
    if tx in s.txs && s.txs[tx].ReadyToCommit() {
      var t := s.txs[tx];
      var r := CommitTx(s, tx);
      var c := if r.claims == s.claims then Claim(0, 0, 0, 0) else r.claims[|s.claims|];
      forall id: Id
        ensures id in r.schedules ==> ClaimsOf(r.claims, id) == r.schedules[id].generatedCount
        ensures id !in r.born ==> ClaimsOf(r.claims, id) == 0
        ensures InvoicesOf(r.invoices, id) == if id in r.schedules then r.schedules[id].generatedCount else 0
      {
        CountAppend(s.claims, c, s.invoices, NewInvoice(t), id);
      }
    }
  }

  lemma CountedStep(s: Store, e: Event)
    requires Counted(s) && Locks(s) && Snapshots(s)
    ensures Counted(Apply(s, e))
  {
    hide AfterCommit, Detached, CounterHeld, ScheduleHeld, SchedulePinned, OneHolder;
    hide HeldRows, Tx.Key, RowMatches, ClaimsOf, InvoicesOf;
    if TxOnly(e) {
      TxOnlyKeepsRows(s, e);
      hide Apply, Locks, Snapshots;
      return;
    }
    match e
    case Commit(tx) => CountedAfterCommit(s, tx);
    case Remove(gone) =>
      forall id: Id
        ensures InvoicesOf(Detached(s.invoices, gone), id) == if id == gone then 0 else InvoicesOf(s.invoices, id)
      {
        InvoicesDetached(s.invoices, gone, id);
      }
    case _ =>
  }

  lemma {:induction false} CountedAlways(es: seq<Event>)
    ensures Counted(Run(es))
  {
    hide Apply, CivilOf;
    if es != [] {
      CountedAlways(es[..|es| - 1]);
      SafeAlways(es[..|es| - 1]);
      CountedStep(Run(es[..|es| - 1]), es[|es| - 1]);
    }
  }

  // ---- The orbit ---------------------------------------------------------

  /** `t` is one of the fire times of the schedule as it was created. */
  ghost predicate OnOrbit(row: Schedule, t: int) {
    exists k: nat :: t == FireTime(row.cadence, row.interval, row.nextRunAt, k)
  }

  ghost predicate Orbits(s: Store) {
    && (forall id | id in s.schedules && id !in s.resumed ::
          id in s.born && OnOrbit(s.born[id], s.schedules[id].nextRunAt))
    && (forall i | 0 <= i < |s.claims| && s.claims[i].id !in s.resumed ::
          s.claims[i].id in s.born && OnOrbit(s.born[s.claims[i].id], s.claims[i].consumed))
  }

  lemma OrbitAdvances(row: Schedule, t: int, now: int)
    requires OnOrbit(row, t)
    ensures OnOrbit(row, Advanced(row.cadence, row.interval, t, now))
  {
    hide FireTime;
    var k: nat :| t == FireTime(row.cadence, row.interval, row.nextRunAt, k);
    FireTimesContinue(row.cadence, row.interval, row.nextRunAt, k, Periods(row.cadence, row.interval, t, now));
  }

  lemma OrbitStartsAtBirth(row: Schedule)
    ensures OnOrbit(row, row.nextRunAt)
  {
    assert row.nextRunAt == FireTime(row.cadence, row.interval, row.nextRunAt, 0);
  }

  lemma OrbitsAfterCommit(s: Store, tx: Id)
    requires Orbits(s) && Locks(s) && Snapshots(s)
    ensures Orbits(AfterCommit(s, tx))
  {
    hide CivilOf, Advanced, NewInvoice, OneHolder, Tx.Key, OnOrbit;
    if tx in s.txs && s.txs[tx].ReadyToCommit() && s.txs[tx].job.Recurring? {
      var t := s.txs[tx];
      if t.job.id !in s.resumed { OrbitAdvances(s.born[t.job.id], t.job.seen.nextRunAt, t.now); }
    }
  }

  lemma OrbitsStep(s: Store, e: Event)
    requires Orbits(s) && Locks(s) && Snapshots(s)
    ensures Orbits(Apply(s, e))
  {
    hide AfterCommit, Detached, CounterHeld, ScheduleHeld, SchedulePinned, OneHolder, HeldRows, Tx.Key, OnOrbit;
    match e
    case Commit(tx) => OrbitsAfterCommit(s, tx);
    case CreateSchedule(id, org, cadence, interval, startsAt) =>
      OrbitStartsAtBirth(Schedule(org, cadence, interval, startsAt, true, None, 0));
    case _ =>
  }

  lemma {:induction false} OrbitsAlways(es: seq<Event>)
    ensures Orbits(Run(es))
  {
    hide Apply, CivilOf, OnOrbit;
    if es != [] {
      OrbitsAlways(es[..|es| - 1]);
      SafeAlways(es[..|es| - 1]);
      OrbitsStep(Run(es[..|es| - 1]), es[|es| - 1]);
    }
  }

  /** Unless a resume moved it, a schedule bills a subsequence of the fire times it
      was created with: each at a place of its own, in order. */
  lemma BillsTheOrbit(es: seq<Event>, i: nat, j: nat)
    requires i < j < |Run(es).claims|
    requires Run(es).claims[i].id == Run(es).claims[j].id && Run(es).claims[i].id !in Run(es).resumed
    ensures var (s, a, b) := (Run(es), Run(es).claims[i], Run(es).claims[j]);
            && a.id in s.born
            && exists m: nat, n: nat | m < n ::
                 && a.consumed == FireTime(s.born[a.id].cadence, s.born[a.id].interval, s.born[a.id].nextRunAt, m)
                 && b.consumed == FireTime(s.born[a.id].cadence, s.born[a.id].interval, s.born[a.id].nextRunAt, n)
  {
    hide RunFrom, FireTime;
    var (s, a, b) := (Run(es), Run(es).claims[i], Run(es).claims[j]);
    OrbitsAlways(es);
    NoDoubleBilling(es, i, j);
    var row := s.born[a.id];
    var m: nat :| a.consumed == FireTime(row.cadence, row.interval, row.nextRunAt, m);
    var n: nat :| b.consumed == FireTime(row.cadence, row.interval, row.nextRunAt, n);
    if n < m { FireTimesIncrease(row.cadence, row.interval, row.nextRunAt, n, m); }
  }
}
