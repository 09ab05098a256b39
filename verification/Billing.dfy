/** Recurring billing as a step system. Any number of transactions, started by
    workers with their own clocks and possibly stale schedule snapshots, interleave
    with each other and with the schedule API. A row written by a transaction stays
    locked until it commits or rolls back; a step that would have to wait leaves the
    store as it is and can be tried again. */
module Billing {
  import opened Options
  import opened Calendar
  import opened Recurrence
  import InvoiceNumber

  type Id = nat

  // ---- Rows --------------------------------------------------------------

  datatype Schedule = Schedule(
    org: Id, cadence: Cadence, interval: int, nextRunAt: int,
    active: bool, lastRunAt: Option<int>, generatedCount: nat)

  datatype Invoice = Invoice(
    org: Id, year: int, sequence: nat, number: string, recurringInvoiceId: Option<Id>)

  const RECURRENCE_MIN_INTERVAL := 1
  const RECURRENCE_MAX_INTERVAL := 24

  // ---- Transactions ------------------------------------------------------

  /** What a transaction is for: one invoice of an organisation, or the next
      invoice of a schedule as a worker read it (`seen`). */
  datatype Job = Single(org: Id) | Recurring(id: Id, seen: Schedule)

  /** How far it got. From `Numbered` on it holds its counter row; from `Inserted` on the
      foreign key of its invoice keeps the schedule row from being deleted, and in
      `Claimed` its schedule row as well. */
  datatype Stage = Started | Numbered | Inserted | Claimed

  datatype Tx = Tx(job: Job, now: int, stage: Stage, sequence: nat) {
    function Org(): Id { if job.Single? then job.org else job.seen.org }

    /** The counter row: organisation and UTC year. */
    function Key(): (Id, int) { (Org(), CivilOf(now).year) }

    predicate HoldsCounter() { stage != Started }

    predicate HoldsSchedule(id: Id) { stage == Claimed && job.Recurring? && job.id == id }

    predicate PinsSchedule(id: Id) { (stage == Inserted || stage == Claimed) && job.Recurring? && job.id == id }

    predicate ReadyToCommit() { stage == if job.Single? then Inserted else Claimed }
  }

  datatype Outcome = Committed | Raced | Aborted

  /** A committed billing of a schedule: the fire time used up and the next one. */
  datatype Claim = Claim(id: Id, consumed: int, advanced: int, tx: Id)

  /** The committed rows, the open transactions, and a record of the past. */
  datatype Store = Store(
    counters: map<(Id, int), nat>,
    invoices: seq<Invoice>,
    schedules: map<Id, Schedule>,
    txs: map<Id, Tx>,
    born: map<Id, Schedule>,            // every schedule as it was created
    resumed: set<Id>,                   // schedules whose fire time a resume moved
    listed: set<(Id, Schedule, int)>,   // rows handed to workers, with the worker's clock
    claims: seq<Claim>,
    done: map<Id, Outcome>)

  const Init := Store(map[], [], map[], map[], map[], {}, {}, [], map[])

  function CounterOf(s: Store, key: (Id, int)): nat { if key in s.counters then s.counters[key] else 0 }

  predicate CounterHeld(s: Store, key: (Id, int)) {
    exists b | b in s.txs :: s.txs[b].HoldsCounter() && s.txs[b].Key() == key
  }

  predicate ScheduleHeld(s: Store, id: Id) {
    exists b | b in s.txs :: s.txs[b].HoldsSchedule(id)
  }

  predicate SchedulePinned(s: Store, id: Id) {
    exists b | b in s.txs :: s.txs[b].PinsSchedule(id)
  }

  // ---- Steps -------------------------------------------------------------

  datatype Event =
    | CreateSchedule(id: Id, org: Id, cadence: Cadence, interval: int, startsAt: int)
    | SetActive(id: Id, active: bool, now: int)
    | Remove(id: Id)
    | ListDue(id: Id, now: int)
    | BeginSingle(tx: Id, org: Id, now: int)
    | BeginRecurring(tx: Id, id: Id, seen: Schedule, now: int)
    | TakeNumber(tx: Id)
    | InsertInvoice(tx: Id)
    | ClaimSchedule(tx: Id)
    | Commit(tx: Id)
    | Abort(tx: Id)

  function Apply(s: Store, e: Event): Store {
    match e
    case CreateSchedule(id, org, cadence, interval, startsAt) =>
      AfterCreate(s, id, Schedule(org, cadence, interval, startsAt, true, None, 0))
    case SetActive(id, active, now) => AfterSetActive(s, id, active, now)
    case Remove(id) => AfterRemove(s, id)
    case ListDue(id, now) => AfterListDue(s, id, now)
    case BeginSingle(tx, org, now) => AfterBegin(s, tx, Tx(Single(org), now, Started, 0))
    case BeginRecurring(tx, id, seen, now) =>
      if (id, seen, now) in s.listed then AfterBegin(s, tx, Tx(Recurring(id, seen), now, Started, 0)) else s
    case TakeNumber(tx) => AfterTakeNumber(s, tx)
    case InsertInvoice(tx) => AfterInsert(s, tx)
    case ClaimSchedule(tx) => AfterClaim(s, tx)
    case Commit(tx) => AfterCommit(s, tx)
    case Abort(tx) => if tx in s.txs then Rollback(s, tx, Aborted) else s
  }

  function AfterCreate(s: Store, id: Id, row: Schedule): Store {
    if id in s.born || !(RECURRENCE_MIN_INTERVAL <= row.interval <= RECURRENCE_MAX_INTERVAL) then s
    else s.(schedules := s.schedules[id := row], born := s.born[id := row])
  }

  function AfterSetActive(s: Store, id: Id, active: bool, now: int): Store {
    if id !in s.schedules || ScheduleHeld(s, id) then s
    else
      var row := s.schedules[id];
      var overdue := active && row.nextRunAt < now;
      s.(schedules := s.schedules[id := row.(active := active, nextRunAt := if overdue then now else row.nextRunAt)],
         resumed := if overdue then s.resumed + {id} else s.resumed)
  }

  function AfterRemove(s: Store, id: Id): Store {
    if id !in s.schedules || SchedulePinned(s, id) then s
    else s.(schedules := s.schedules - {id}, invoices := Detached(s.invoices, id))
  }

  function AfterListDue(s: Store, id: Id, now: int): Store {
    if id in s.schedules && s.schedules[id].active && s.schedules[id].nextRunAt <= now
    then s.(listed := s.listed + {(id, s.schedules[id], now)})
    else s
  }

  function AfterBegin(s: Store, tx: Id, t: Tx): Store {
    if tx in s.txs || tx in s.done then s else s.(txs := s.txs[tx := t])
  }

  function AfterTakeNumber(s: Store, tx: Id): Store {
    if tx !in s.txs || s.txs[tx].stage != Started || CounterHeld(s, s.txs[tx].Key()) then s
    else
      var t := s.txs[tx];
      s.(txs := s.txs[tx := t.(stage := Numbered, sequence := CounterOf(s, t.Key()) + 1)])
  }

  /** The insert fails when the schedule the invoice points to has been deleted. */
  function AfterInsert(s: Store, tx: Id): Store {
    if tx !in s.txs || s.txs[tx].stage != Numbered then s
    else if s.txs[tx].job.Recurring? && s.txs[tx].job.id !in s.schedules then Rollback(s, tx, Aborted)
    else s.(txs := s.txs[tx := s.txs[tx].(stage := Inserted)])
  }

  function AfterClaim(s: Store, tx: Id): Store {
    if tx !in s.txs || s.txs[tx].stage != Inserted || s.txs[tx].job.Single? then s
    else if !RowMatches(s, s.txs[tx].job) then Rollback(s, tx, Raced)
    else if ScheduleHeld(s, s.txs[tx].job.id) then s
    else s.(txs := s.txs[tx := s.txs[tx].(stage := Claimed)])
  }

  function AfterCommit(s: Store, tx: Id): Store {
    if tx in s.txs && s.txs[tx].ReadyToCommit() then CommitTx(s, tx) else s
  }

  function Rollback(s: Store, tx: Id, outcome: Outcome): Store {
    s.(txs := s.txs - {tx}, done := s.done[tx := outcome])
  }

  /** The guard of the schedule update, on the committed row. */
  predicate RowMatches(s: Store, job: Job)
    requires job.Recurring?
  {
    job.id in s.schedules && s.schedules[job.id].nextRunAt == job.seen.nextRunAt && s.schedules[job.id].active
  }

  function NewInvoice(t: Tx): Invoice {
    var year := CivilOf(t.now).year;
    Invoice(t.Org(), year, t.sequence, InvoiceNumber.FormatInvoiceNumber(year, t.sequence),
            if t.job.Single? then None else Some(t.job.id))
  }

  function NextRunAt(t: Tx): int
    requires t.job.Recurring?
  {
    Advanced(t.job.seen.cadence, t.job.seen.interval, t.job.seen.nextRunAt, t.now)
  }

  function CommitTx(s: Store, tx: Id): Store
    requires tx in s.txs
  {
    var t := s.txs[tx];
    var billed := s.(counters := s.counters[t.Key() := t.sequence],
                     invoices := s.invoices + [NewInvoice(t)],
                     txs := s.txs - {tx},
                     done := s.done[tx := Committed]);
    if t.job.Single? || t.job.id !in s.schedules then billed
    else
      var row := s.schedules[t.job.id];
      billed.(schedules := s.schedules[t.job.id := row.(nextRunAt := NextRunAt(t), lastRunAt := Some(t.now),
                                                        generatedCount := row.generatedCount + 1)],
              claims := s.claims + [Claim(t.job.id, t.job.seen.nextRunAt, NextRunAt(t), tx)])
  }

  /** Deleting a schedule sets the reference of its invoices to null. */
  function Detached(invoices: seq<Invoice>, id: Id): (r: seq<Invoice>)
    ensures |r| == |invoices|
    ensures forall i | 0 <= i < |r| :: r[i] == Unlinked(invoices[i], id)
  {
    seq(|invoices|, i requires 0 <= i < |invoices| => Unlinked(invoices[i], id))
  }

  function Unlinked(invoice: Invoice, id: Id): Invoice {
    if invoice.recurringInvoiceId == Some(id) then invoice.(recurringInvoiceId := None) else invoice
  }

  /** The step moves a transaction and no row. */
  predicate TxOnly(e: Event) {
    e.BeginSingle? || e.BeginRecurring? || e.TakeNumber? || e.InsertInvoice? || e.ClaimSchedule? || e.Abort?
  }

  lemma TxOnlyKeepsRows(s: Store, e: Event)
    requires TxOnly(e)
    ensures Apply(s, e) == s.(txs := Apply(s, e).txs, done := Apply(s, e).done)
  {
    hide CounterHeld, ScheduleHeld, RowMatches, Tx.Key;
  }

  /** The store after a run. Runs are all sequences of steps, in every order. */
  function RunFrom(s: Store, es: seq<Event>): Store {
    if es == [] then s else Apply(RunFrom(s, es[..|es| - 1]), es[|es| - 1])
  }

  function Run(es: seq<Event>): Store { RunFrom(Init, es) }

  // ---- Counting ----------------------------------------------------------

  /** The sequence numbers of one organisation and year, in commit order. */
  function Numbers(invoices: seq<Invoice>, key: (Id, int)): seq<nat> {
    if invoices == [] then []
    else
      var last := invoices[|invoices| - 1];
      var before := Numbers(invoices[..|invoices| - 1], key);
      if (last.org, last.year) == key then before + [last.sequence] else before
  }

  /** 1, 2, .., n. */
  function Upto(n: nat): seq<nat> { seq(n, i => i + 1) }

  function ClaimsOf(claims: seq<Claim>, id: Id): nat {
    if claims == [] then 0
    else ClaimsOf(claims[..|claims| - 1], id) + if claims[|claims| - 1].id == id then 1 else 0
  }

  function InvoicesOf(invoices: seq<Invoice>, id: Id): nat {
    if invoices == [] then 0
    else InvoicesOf(invoices[..|invoices| - 1], id)
         + if invoices[|invoices| - 1].recurringInvoiceId == Some(id) then 1 else 0
  }
}
