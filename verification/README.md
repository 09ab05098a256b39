# Verified model of the operations backend

This project models the parts of the backend where state, time and arithmetic meet, and
proves what they are for. Results are stated for all inputs, all runs or all
interleavings; the few that leave inputs out are named at the end.

| files | subject |
|---|---|
| `Calendar`, `Recurrence` | UTC dates as ECMA-262 section 21.4.1 defines them; when a billing schedule fires next |
| `InvoiceNumber`, `Money`, `InvoiceTotals` | printed numbers, cents, pricing of invoice lines |
| `Billing`, `BillingLocks`, `BillingNumbering`, `BillingClaims`, `BillingStore` | recurring billing by any number of workers |
| `Lifecycle`, `OverdueSweep` | invoice status under API calls and overdue sweeps |
| `Forecast` | daily buckets, least-squares trend, weekday seasonality |
| `Text`, `Chunker`, `Packing`, `ChunkBounds`, `ChunkPromise` | sentence chunks with overlap |
| `Fusion` | reciprocal rank fusion |
| `Stock`, `Reorder`, `ReorderDecisions`, `ReorderSweep` | the stock ledger and the reorder flag |
| `Workflow`, `WorkflowPlan`, `WorkflowSweep` | rules that fire once an entity |
| `Appointments` | slots that never overlap |
| `Bounds`, `Options`, `Sums` | shared vocabulary |

## How concurrency is modelled

Billing, lifecycle, reorder flag and workflow firings are step systems: a `Store` value, an
`Event` for every statement that another caller could come before or after, `Apply` for one
step, and `Run` over any sequence of steps. A result about `Run(es)` for all `es` is a result
about every interleaving. A step that would have to wait for a row leaves the store alone and
can come again; a wait that times out is an abort. Beside each system stands a class whose
fields are the tables; its methods do what the services do, statement by statement, each
proved to be one step of the system, and the workers' loops run on it with arbitrary steps of
others in every gap.

Row locks are held to commit, an unguarded read sees committed rows, a guarded update
re-reads its row, a unique key held by an open transaction makes the next insert wait, and
a row that an uncommitted insert refers to cannot be deleted (PostgreSQL at READ COMMITTED).

## Assumptions

- Money is whole cents; prices, rates, forecasts and fused scores are exact reals. IEEE 754
  rounding is not modelled, and all values are taken to be below 2^53.
- Time values are integers in milliseconds and dates stay within the range of `Date`. An
  ISO date text stands for its year, month and day.
- Strings are sequences of Dafny's `char`, which is a Unicode scalar value. The source
  counts UTF-16 code units, so every character outside the Basic Multilingual Plane is
  counted as one here and as two there; on all other text the counts agree.
- `setActive` and each appointment call are single steps, and at most one `transition` call
  is in flight for an invoice, because these read and later write without a guard.
- Ids of new rows were never used before.
- Clocks, lookups, failures and what others do in between are parameters.

## Where the code differs from what it says

- `advancePastNow` is said to advance past `now`; it stops after 241 periods. Exactly when it
  gets past `now` is `Recurrence.AdvancedPastNowIff`, and `Recurrence.BacklogStaysDueExample`
  is a schedule left due.
- Monthly schedules drift: a schedule of the 31st settles on the shortest month it meets
  (`Recurrence.MonthlyDriftIff`, `Recurrence.MonthlyDriftExample`).
- `addMonthsUtc` into the years 0 to 99 lands in the 1900s
  (`Recurrence.AddMonthsMonthIndex` says exactly when, `Recurrence.TwoDigitYearExample` is one).
- The recurrence worker counts an invoice that was committed but could not be read back as
  failed, not as generated (`BillingStore.Database.Process`, `BillingStore.ReadBackExample`).
- A chunk is said to exceed the target only for a sentence that does; an overlap tail can do
  it too (`ChunkBounds.OversizedChunkExample`). The statement holds of all texts exactly
  without overlap (`ChunkPromise.PromiseHoldsIff`), so not for the default options
  (`ChunkPromise.OptionsKeepPromiseIff`); which chunks are over is `ChunkPromise.OverTargetIff`.
- "Exactly one notification per dip": the notification is written after the flag is raised
  and outside its update, so a failure there loses it (`Reorder.LostAlertExample`). A raise
  is told exactly when lookup and notification work out (`ReorderSweep.RaiseToldIff`), and
  never twice (`Reorder.OneNotificationADip`).
- The flag is said to follow the stock; concurrent evaluations of one product can leave it
  wrong until the next one (`Reorder.StaleFlagExample`). Exactly when an evaluation leaves it
  right is `ReorderDecisions.EvaluationRightIff`; calls on other products never matter
  (`ReorderDecisions.UndisturbedEvaluationRight`).
- A product created below its reorder point is not flagged until something evaluates it
  (`Reorder.NewProductExample`; `Reorder.SerialFlagIff` is exact for calls one at a time).

The fusion key joins two ids with a colon. That is exact for the UUIDs the system stores;
for which other ids it would be is `Fusion.KeysIdentify`. A movement whose evaluation fails
stays recorded although its call fails (`ReorderSweep.RecordedStays`).

## Model

| member | source | states |
|---|---|---|
| Calendar.YearLength | apps/backend/src/modules/invoices/invoice.totals.ts:125-143 | consecutive years start 365 or 366 days apart, by the Gregorian leap rule (ECMA-262, section 21.4.1) |
| Calendar.YearsOrdered | apps/backend/src/modules/invoices/invoice.totals.ts:125-143 | year starts are at least 365 days a year apart, over any distance |
| Calendar.YearFromDay | apps/backend/src/modules/invoices/invoice.totals.ts:125-143 | the year of a day number is the one whose first day is not after it and whose successor starts after it, for negative days too |
| Calendar.MonthTable | apps/backend/src/modules/invoices/invoice.totals.ts:125-143 | the closed form of days before a month is the table of ECMA-262, leap and common |
| Calendar.CivilOfDayOfCivil | apps/backend/src/modules/invoices/invoice.totals.ts:125-143 | every valid date survives the trip to its day number and back |
| Calendar.DayOfCivilOfDay | apps/backend/src/modules/invoices/invoice.totals.ts:125-143 | every day number survives the trip to its date and back |
| Calendar.DaysFollowMonths | apps/backend/src/modules/invoices/invoice.totals.ts:125-143 | a date in a later month always has a later day number |
| Calendar.DatesFollow | apps/backend/src/modules/invoices/invoice.totals.ts:125-143 | day 0 is 1 January 1970 and every day has the date after that of the day before, by the lengths of the twelve months |
| Calendar.ClockRoundTrip | apps/backend/src/modules/invoices/invoice.totals.ts:136-142 | hours, minutes, seconds and milliseconds taken apart by the UTC getters add up to the time of day again |
| Recurrence.AddMonthsLandsOn | apps/backend/src/modules/invoices/invoice.totals.ts:125-143 | for every start and every number of months, negative too: the date reached is the target month with the day clamped to its length, at the same time of day |
| Recurrence.LastOfMonth | apps/backend/src/modules/invoices/invoice.totals.ts:129 | day 0 of the following month is the last day of the month, December included |
| Recurrence.AddMonthsMonthIndex | apps/backend/src/modules/invoices/invoice.totals.ts:125-143 | the month index moves by exactly `months` if and only if the target year is not 0 to 99 (where `Date.UTC` reads 1900 to 1999) |
| Recurrence.AddMonthsDay | apps/backend/src/modules/invoices/invoice.totals.ts:129-130 | the clamp keeps a day up to 28 and never goes below min(day, 28) nor above the day |
| Recurrence.AddMonthsLater | apps/backend/src/modules/invoices/invoice.totals.ts:125-143 | one month or more ahead is strictly later, whatever the day, the clock or the leap rule |
| Recurrence.AddMonthsCompose | apps/backend/src/modules/invoices/invoice.totals.ts:125-143 | adding a then b months lands in the month of a + b exactly unless only the stop in between is in the years 0 to 99; then never later, and on the same instant exactly when the month in between is long enough for the day |
| Recurrence.AddMonthsStep | apps/backend/src/modules/invoices/invoice.totals.ts:125-143 | one step in month numbers: the target month as `Date.UTC` reads it, the day clamped to its length, the clock kept |
| Recurrence.TwoDigitYearExample | apps/backend/src/modules/invoices/invoice.totals.ts:125-143 | a monthly schedule of 31 January 50 fires on 28 February 1950 |
| Recurrence.NextRunLater | apps/backend/src/modules/invoices/invoice.totals.ts:146-160 | every cadence and interval moves time strictly forward: the fact that makes the schedule compare-and-swap free of ABA |
| Recurrence.PeriodIs | apps/backend/src/modules/invoices/invoice.totals.ts:146-160 | one period: n weeks to the millisecond, or from the year 100 on n, 3n or 12n month numbers; an interval below 1 is an interval of 1 |
| Recurrence.FireTimesIncrease | apps/backend/src/modules/invoices/invoice.totals.ts:146-160 | iterated fire times strictly increase |
| Recurrence.FireTimesContinue | apps/backend/src/modules/invoices/invoice.totals.ts:146-160 | resuming from a fire time continues the same sequence |
| Recurrence.StopIs | apps/backend/src/modules/invoices/invoice.totals.ts:125-160 | over all stops the months keep their distance, except that the first stop in the years 0 to 99 moves it and the later ones by 1900 years, and none does from the year 100 on |
| Recurrence.MonthlyFireTimes | apps/backend/src/modules/invoices/invoice.totals.ts:125-160 | the k-th monthly, quarterly or yearly fire time from any start: the k-th stop, clock kept, day sunk to the shortest month met so far; from the year 100 on exactly k periods of months later |
| Recurrence.MonthlyDriftIff | apps/backend/src/modules/invoices/invoice.totals.ts:125-160 | from any start: stepping k times reaches the month of adding all at once exactly unless the years 0 to 99 come in on one way only, and then agrees if and only if no stop was shorter than the day finally reached |
| Recurrence.MonthlyDriftExample | apps/backend/src/modules/invoices/invoice.totals.ts:125-160 | a schedule of 31 January 2026 fires on 28 March instead of the 31st |
| Recurrence.AdvancePastNow | apps/backend/src/modules/invoices/invoice.totals.ts:163-176 | the guarded loop returns the fire time that is first after `now`, or the 241st when none of the first 240 is |
| Recurrence.FirstAfterUnique | apps/backend/src/modules/invoices/invoice.totals.ts:163-176 | that description determines the number of periods skipped |
| Recurrence.AdvancedLater | apps/backend/src/modules/invoices/invoice.totals.ts:163-176 | the schedule always moves on, by at least one period |
| Recurrence.AdvancedPastNowIff | apps/backend/src/modules/invoices/invoice.totals.ts:162-176 | the result is past `now` if and only if the 241st fire time is: the promise of the comment fails for larger backlogs |
| Recurrence.WeeklyClosedForm | apps/backend/src/modules/invoices/invoice.totals.ts:146-176 | weekly schedules skip max(1, floor((now - from) / P) + 1) periods, capped at 241 |
| Recurrence.BacklogStaysDueExample | apps/backend/src/modules/invoices/invoice.totals.ts:162-176 | a weekly schedule 241 weeks behind is left due |
| InvoiceNumber.DigitsValue | apps/backend/src/modules/invoices/invoice.totals.ts:120-122 | decimal text reads back to its number |
| InvoiceNumber.PaddingKeepsValue | apps/backend/src/modules/invoices/invoice.totals.ts:120-122 | leading zeros do not change the number read |
| InvoiceNumber.InvoiceNumberRoundTrip | apps/backend/src/modules/invoices/invoice.totals.ts:120-122 | year and sequence can be read back from a printed number, whatever the width of either |
| InvoiceNumber.InvoiceNumberShape | apps/backend/src/modules/invoices/invoice.totals.ts:120-122 | `INV-`, the year in decimal, a dash, and the sequence on at least four digits, with a leading zero only to reach four |
| InvoiceNumber.YearTextIs | apps/backend/src/modules/invoices/invoice.totals.ts:120-122 | the year is in plain decimal with no leading zero, behind a minus when it is below zero |
| InvoiceNumber.InvoiceNumberExample | apps/backend/src/modules/invoices/invoice.totals.ts:119-122 | number 42 of 2026 is `INV-2026-0042` |
| InvoiceNumber.InvoiceNumberInjective | apps/backend/src/modules/invoices/invoice.totals.ts:120-122 | two printed numbers agree if and only if year and sequence do |
| Money.MoneyRoundTrip | apps/backend/src/modules/invoices/invoice.totals.ts:57-59 | a cent amount printed with two decimals reads back to the same cents |
| Money.FixedReadsBack | apps/backend/src/modules/invoices/invoice.totals.ts:57-59 | the two-decimal text of any amount, negative too: sign, no zero too many, and hundredths within half a one, halves away from zero |
| InvoiceTotals.ComputeInvoiceTotals | apps/backend/src/modules/invoices/invoice.totals.ts:65-117 | the loop rejects with the first fault of the first bad line, and else returns the sums of the lines, each line priced, in order |
| InvoiceTotals.AcceptedIff | apps/backend/src/modules/invoices/invoice.totals.ts:65-117 | a list is priced if and only if it has 1 to 200 lines and none of them has a fault |
| InvoiceTotals.LineFaultIs | apps/backend/src/modules/invoices/invoice.totals.ts:73-93 | a line passes if and only if description (1 to 500), quantity (whole, positive), price (not negative) and rate (absent or 0 to 100) are in range, and else is refused for the first that is not |
| InvoiceTotals.FirstFaultIs | apps/backend/src/modules/invoices/invoice.totals.ts:65-93 | no items, more than 200, or else the fault of the first bad line is what is reported |
| InvoiceTotals.FaultStays | apps/backend/src/modules/invoices/invoice.totals.ts:65-117 | the first fault found is the fault reported, whatever follows it |
| InvoiceTotals.LineBounds | apps/backend/src/modules/invoices/invoice.totals.ts:94-98 | from the raw price, quantity and rate of an accepted line: the total is a multiple of the quantity, within half a cent a unit of the price; the tax is within half a cent of total x rate / 100, and 0 <= tax <= total |
| InvoiceTotals.LineNear | apps/backend/src/modules/invoices/invoice.totals.ts:94-98 | total and tax of a line against price x quantity and price x quantity x rate, unrounded |
| InvoiceTotals.TotalsBounds | apps/backend/src/modules/invoices/invoice.totals.ts:65-117 | over a list: subtotal within half a cent a unit of what the raw lines cost, tax within that and half a cent a line of the unrounded tax, and 0 <= tax <= subtotal |
| InvoiceTotals.StoredLineReadsBack | apps/backend/src/modules/invoices/invoice.totals.ts:99-110 | the priced line: trimmed text, same product and quantity, and printed unit price, rate and total that read back, unit price x quantity being the total |
| InvoiceTotals.PrintedTotalsAddUp | apps/backend/src/modules/invoices/invoice.totals.ts:111-116 | the printed total parses to the printed subtotal plus the printed tax |
| InvoiceTotals.LinesReorder | apps/backend/src/modules/invoices/invoice.totals.ts:65-117 | subtotal, tax and acceptance do not depend on the order of the lines |
| InvoiceTotals.SplitLine | apps/backend/src/modules/invoices/invoice.totals.ts:94-98 | splitting the quantity of a line in two keeps the subtotal and moves tax by one cent at most |
| InvoiceTotals.TemplateKeepsPrice | apps/backend/src/modules/invoices/recurring-invoice.service.ts:227-235 | the template a schedule stores has trimmed descriptions and a rate on every line, is accepted or rejected like the original lines and prices to the same amounts |
| BillingLocks.LocksHold | apps/backend/src/modules/invoices/invoice.service.ts:269-317 | in every interleaving a counter row and a schedule row have one holder at most, a held counter is one behind the number taken, a schedule with an uncommitted invoice is still there, and a claimed schedule row is still as the worker read it |
| BillingLocks.WaitsUpward | apps/backend/src/modules/invoices/invoice.service.ts:269-317 | a transaction only ever waits for one that is further on, because the counter row comes before the schedule row |
| BillingLocks.NoDeadlock | apps/backend/src/modules/invoices/invoice.service.ts:269-317 | no chain of transactions waiting for each other comes back to its start, and none is longer than two |
| BillingLocks.UnblockedMoves | apps/backend/src/modules/invoices/invoice.service.ts:254-317 | a transaction that waits for nobody gets on with its next statement |
| BillingLocks.EveryoneCanFinish | apps/backend/src/modules/invoices/invoice.service.ts:254-317 | after any run all open transactions can be brought to commit or to a lost race by their own statements alone, without an abort |
| BillingNumbering.GapFreeAlways | apps/backend/src/modules/invoices/invoice.service.ts:269-317 | in every interleaving of commits, lost races and aborts, the committed sequence numbers of each organisation and year are 1, 2, .., counter, in commit order |
| BillingNumbering.WellNumberedAlways | apps/backend/src/modules/invoices/invoice.service.ts:287-295 | every invoice carries the number printed from its year and sequence |
| BillingNumbering.UniqueNumbers | apps/backend/src/modules/invoices/invoice.service.ts:269-317 | no organisation ever has two invoices with the same printed number |
| BillingClaims.SafeAlways | apps/backend/src/modules/invoices/invoice.service.ts:137-170 | in every run: locks, snapshots that were due and active when listed, and claims in order |
| BillingClaims.NoDoubleBilling | apps/backend/src/modules/invoices/invoice.service.ts:137-170 | over any workers, stale snapshots, clocks, pauses, resumes and deletions, the fire times consumed by committed invoices of a schedule strictly increase and their periods do not overlap |
| BillingClaims.BillingIsDue | apps/backend/src/modules/invoices/invoice.service.ts:149-160 | a billing commits only on an active row, due by its clock, at the fire time it read; row, count and one invoice move together |
| BillingClaims.CountedAlways | apps/backend/src/modules/invoices/invoice.service.ts:152-156 | `generatedCount` is the number of billings and of invoices that point to the schedule, in every run |
| BillingClaims.OrbitsAlways | apps/backend/src/modules/invoices/invoice.service.ts:137-170 | unless a resume moved it, a schedule stays on the fire times it was created with |
| BillingClaims.BillsTheOrbit | apps/backend/src/modules/invoices/invoice.service.ts:137-170 | without resumes the consumed times are a subsequence of the fire times from `startsAt` |
| BillingStore.Database.CreateSchedule | apps/backend/src/modules/invoices/recurring-invoice.service.ts:109-121 | inserts exactly one active row for an interval of 1 to 24, and nothing for any other |
| BillingStore.Database.Create | apps/backend/src/modules/invoices/recurring-invoice.service.ts:70-122 | succeeds if and only if interval and net terms are whole and within bounds, the items price and the customer is found, and then inserts an active schedule due at `startsAt`; else changes nothing |
| BillingStore.Database.SetActive | apps/backend/src/modules/invoices/recurring-invoice.service.ts:151-166 | pause or resume as one step: resuming never leaves a fire time in the past or moves one back, pausing keeps it, and no other row changes |
| BillingStore.Database.Remove | apps/backend/src/modules/invoices/recurring-invoice.service.ts:168-172 | deletes the row, unless an uncommitted invoice points to it, and clears the reference of its invoices, one by one |
| BillingStore.Database.ListDue | apps/backend/src/modules/invoices/recurring-invoice.service.ts:175-182 | hands out an active row that is due by the clock, as it stands, and nothing else |
| BillingStore.Database.TakeNumber | apps/backend/src/modules/invoices/invoice.service.ts:280-286 | the counter statement: inserts 1 or counts up, or waits for the holder |
| BillingStore.Database.InsertInvoice | apps/backend/src/modules/invoices/invoice.service.ts:290-314 | the insert fails, and with it the transaction, when its schedule has been deleted; else it keeps the schedule from being deleted until the end |
| BillingStore.Database.ClaimSchedule | apps/backend/src/modules/invoices/invoice.service.ts:150-163 | the guarded update of the schedule: claims, waits, or loses the race and rolls back |
| BillingStore.Database.Commit | apps/backend/src/modules/invoices/invoice.service.ts:269-317 | counter, invoice and schedule row become visible together |
| BillingStore.AttemptOutcome | apps/backend/src/modules/invoices/invoice.service.ts:137-170 | an attempt among any steps of others, with any statement failing, commits if and only if nothing fails, the counter row is free at its statement, the schedule is there at the insert, and its row is free, active and unmoved at its own; it fails when the schedule was deleted before the insert, and races if and only if it got as far as finding the row moved |
| BillingStore.QuietAttemptCommits | apps/backend/src/modules/invoices/invoice.service.ts:137-170 | with nobody else about and the row as it was read, an attempt commits |
| BillingStore.QuietAttemptWrites | apps/backend/src/modules/invoices/invoice.service.ts:137-170 | and all it writes is: the row advanced past the clock, stamped and counted, the counter one up, and one invoice with that number that points to the schedule |
| BillingStore.Database.GenerateForRecurring | apps/backend/src/modules/invoices/invoice.service.ts:137-170 | the attempt statement by statement: its outcome is that one, it leaves nothing open, and it has billed its period exactly when it committed |
| BillingStore.AttemptEnds | apps/backend/src/modules/invoices/invoice.service.ts:137-170 | whatever statement fails and whatever others do in its gaps, an attempt leaves no open transaction and no half-billed period |
| BillingStore.AttemptLeaves | apps/backend/src/modules/invoices/invoice.recurrence.worker.ts:77-89 | an attempt leaves every other transaction of the batch as it was |
| BillingStore.Database.Process | apps/backend/src/modules/invoices/invoice.recurrence.worker.ts:57-95 | the whole batch, one attempt an item in order, failing statements included: every listed schedule is billed, raced or given up, the counters add up to the batch and are the outcomes, except that a commit whose read-back fails is counted as failed; an undisturbed batch is billed to the last item |
| BillingStore.ReadBackExample | apps/backend/src/modules/invoices/invoice.recurrence.worker.ts:77-89 | a due schedule is billed and the batch counts 0 generated and 1 failed |
| Lifecycle.HistoryShort | apps/backend/src/modules/invoices/invoice.service.ts:86-92 | the transition table allows an invoice three status changes at most |
| Lifecycle.TrackedAlways | apps/backend/src/modules/invoices/invoice.service.ts:217-252 | what holds of an invoice at any time, with a call and a sweep in flight |
| Lifecycle.LifecycleIsLegal | apps/backend/src/modules/invoices/invoice.service.ts:217-252 | over calls and sweeps interleaved, a status history takes only edges of the table; SENT, OVERDUE and PAID imply `issuedAt`, and PAID holds if and only if `paidAt` is set |
| Lifecycle.StepIsLegal | apps/backend/src/modules/invoices/invoice.service.ts:217-252 | each single step is an edge or no change, and a time stamp once set is never rewritten |
| Lifecycle.CallLands | apps/backend/src/modules/invoices/invoice.service.ts:197-252 | a whole call: issue makes DRAFT SENT, pay makes SENT or OVERDUE PAID, void ends DRAFT, SENT and OVERDUE, with the stamp of the call, and nothing else changes |
| Lifecycle.BornAs | apps/backend/src/modules/invoices/invoice.service.ts:287-314 | an invoice starts as a draft without stamps, or SENT and stamped |
| Lifecycle.RunNext | apps/backend/src/modules/invoices/invoice.service.ts:217-252 | steps run one after another, from any state |
| Lifecycle.ListsOverdue | apps/backend/src/modules/invoices/invoice.overdue.worker.ts:69-81 | a sweep is handed exactly the invoices that are SENT and past due by its clock |
| Lifecycle.AlertedOnce | apps/backend/src/modules/invoices/invoice.overdue.worker.ts:87-146 | an invoice has the notifications of exactly one sweep, one a recipient, if it passed through OVERDUE, and none otherwise |
| Lifecycle.FlipIsDue | apps/backend/src/modules/invoices/invoice.overdue.worker.ts:69-72 | a flip commits only on a SENT invoice past due by the clock of the sweep |
| OverdueSweep.ClaimedIff | apps/backend/src/modules/invoices/invoice.overdue.worker.ts:101-106 | a candidate is claimed if and only if its transaction does not fail and its row is still SENT and free when its turn comes |
| OverdueSweep.TryTallies | apps/backend/src/modules/invoices/invoice.overdue.worker.ts:87-146 | one try adds to the flips and notifications of the sweep exactly what it claimed |
| OverdueSweep.RunLeaves | apps/backend/src/modules/invoices/invoice.overdue.worker.ts:87-146 | nothing others do changes what a sweep has flipped, written or holds |
| OverdueSweep.Database.Write | apps/backend/src/modules/invoices/invoice.service.ts:242-249 | the unguarded write half of a transition: status and stamp are those of the call, whatever the status has become, and no other invoice changes |
| OverdueSweep.Database.Claim | apps/backend/src/modules/invoices/invoice.overdue.worker.ts:101-131 | the guarded flip and its notifications are one transaction, kept or rolled back together |
| OverdueSweep.Database.Process | apps/backend/src/modules/invoices/invoice.overdue.worker.ts:52-147 | the whole sweep with its recipients cache: candidate by candidate, flipped if and only if its recipients are known, its transaction does not fail and its row is SENT and free at its turn, and then notified to exactly those recipients; the two counters are the flips and the notifications; a quiet sweep flips every candidate |
| OverdueSweep.QuietSweepMarksAll | apps/backend/src/modules/invoices/invoice.overdue.worker.ts:87-146 | of a quiet sweep of distinct due rows whose recipients are known: every candidate ends OVERDUE, one mark each, and no other row changes |
| OverdueSweep.TryTakes | apps/backend/src/modules/invoices/invoice.overdue.worker.ts:87-131 | a turn: exactly when it flips, which mark and which notifications it adds |
| Forecast.BucketDailyRevenue | apps/backend/src/modules/forecasting/forecast.ts:57-74 | the buckets are the consecutive days from `from`, each with exactly the revenue booked on it |
| Forecast.BucketsConserve | apps/backend/src/modules/forecasting/forecast.ts:57-74 | the buckets add up to the rows of the window, none lost and none counted twice |
| Forecast.BookedOnItsDayIff | apps/backend/src/modules/forecasting/forecast.ts:37-39 | a row is booked on the day it was created if and only if that is not in the years 0 to 99 |
| Forecast.MidnightWindow | apps/backend/src/modules/forecasting/forecast.ts:57-74 | between two midnights the window is from <= midnight of the booking < to, and so from <= createdAt < to outside the years 0 to 99 |
| Forecast.FitLinearTrend | apps/backend/src/modules/forecasting/forecast.ts:77-100 | the loop returns a line no other line beats in squared residuals |
| Forecast.DenominatorClosedForm | apps/backend/src/modules/forecasting/forecast.ts:93-94 | the denominator is n²(n²-1)/12, so the zero branch is dead from two points on |
| Forecast.NormalEquations | apps/backend/src/modules/forecasting/forecast.ts:77-100 | residuals of the trend sum to zero, alone and weighted by the index |
| Forecast.Expand | apps/backend/src/modules/forecasting/forecast.ts:77-100 | the squared residuals of any line in terms of those of another |
| Forecast.LeastSquares | apps/backend/src/modules/forecasting/forecast.ts:77-100 | the trend minimises the squared residuals, and from two points on it is the only line that does |
| Forecast.LinearRecovered | apps/backend/src/modules/forecasting/forecast.ts:77-100 | a series that lies on a line is given that line |
| Forecast.FewPoints | apps/backend/src/modules/forecasting/forecast.ts:77-83 | no point gives the zero line and one point the flat line through it |
| Forecast.WeekdaySeasonality | apps/backend/src/modules/forecasting/forecast.ts:103-116 | the loops return the mean residual of each weekday, zero for one without days |
| Forecast.DaysCounted | apps/backend/src/modules/forecasting/forecast.ts:103-116 | the days counted for a weekday are those whose date falls on it |
| Forecast.SeasonalityBalances | apps/backend/src/modules/forecasting/forecast.ts:103-116 | weighted by their days, the seasonal terms around the trend sum to zero |
| Forecast.LinearHistoryContinues | apps/backend/src/modules/forecasting/forecast.ts:126-178 | an exactly linear history with enough data has no seasonality, and each forecast is max(0, round(line continued)) on consecutive dates |
| Forecast.ForecastIs | apps/backend/src/modules/forecasting/forecast.ts:156-166 | with 3 days of revenue or more, each amount is max(0, round(best line there + mean residual of its weekday)), on its date, and reads back as that number of cents |
| Forecast.ReportIs | apps/backend/src/modules/forecasting/forecast.ts:126-178 | and the history is printed as it is, the slope a day, and the mean residual of each weekday |
| Forecast.FlatForecastIs | apps/backend/src/modules/forecasting/forecast.ts:137-154 | with fewer, every amount is max(0, round(mean of the whole history)), and slope and season are `0.00` |
| Forecast.RevenueDaysCounted | apps/backend/src/modules/forecasting/forecast.ts:134-135 | what is compared with 3 is the number of days whose revenue is not zero |
| Forecast.WeekDayIs | apps/backend/src/modules/forecasting/forecast.ts:103-116 | weekdays count from Sunday, 4 January 1970 being one |
| Text.TrimKeepsInk | apps/backend/src/modules/embeddings/chunker.ts:29-35 | trimming removes white space only |
| Text.SpacesAre | apps/backend/src/modules/embeddings/chunker.ts:29-35 | the characters taken for white space are the 25 of ECMA-262 |
| Text.InkOfOne | apps/backend/src/modules/embeddings/chunker.ts:29-35 | what is compared to show that nothing is lost: each character that is not white space, itself |
| Chunker.TokensHold | apps/backend/src/modules/embeddings/chunker.ts:24-26 | the estimate is the least number, at least one, with room at four characters each |
| Chunker.UnixLinesKeeps | apps/backend/src/modules/embeddings/chunker.ts:31 | text without carriage return and line feed is left alone |
| Chunker.UnixLinesAt | apps/backend/src/modules/embeddings/chunker.ts:31 | each pair of them becomes one line feed |
| Chunker.SentencesKeepInk | apps/backend/src/modules/embeddings/chunker.ts:29-35 | splitting keeps every character that is not white space, in order |
| Chunker.SentencesAreTrimmed | apps/backend/src/modules/embeddings/chunker.ts:29-35 | no sentence is empty or has white space at an end |
| Chunker.SentencesAreWhole | apps/backend/src/modules/embeddings/chunker.ts:29-35 | no sentence holds a place where the text should have been cut |
| Chunker.WholeStaysTogether | apps/backend/src/modules/embeddings/chunker.ts:29-35 | a sentence without such a place is never cut |
| Chunker.FirstCutSplits | apps/backend/src/modules/embeddings/chunker.ts:29-35 | any other text is cut at the first such place, all the white space or all the newlines going, and the rest is split in the same way |
| Chunker.LastBoundaryIndex | apps/backend/src/modules/embeddings/chunker.ts:48-54 | the scan finds the last boundary before the last character, or -1 |
| Chunker.TailIsSuffix | apps/backend/src/modules/embeddings/chunker.ts:38-45 | the tail is a trimmed end of the chunk of at most 4 characters a token, empty if and only if no overlap is asked for, and leaves out only white space after the place where it starts |
| Chunker.TailStartIs | apps/backend/src/modules/embeddings/chunker.ts:41-44 | that place is after the last boundary if it lies in the second half of the window, else after the last blank, else the start of the window |
| Packing.ChunkText | apps/backend/src/modules/embeddings/chunker.ts:57-83 | the loop over `current` writes out exactly the greedy packing, with its index and token count |
| Packing.ChunksNumbered | apps/backend/src/modules/embeddings/chunker.ts:74-81 | chunks are numbered from 0 and carry the token estimate of their own text |
| Packing.OptionsAre | apps/backend/src/modules/embeddings/chunker.ts:57-62 | 384 and 64 tokens unless given; the overlap stays below a positive target and is never positive below that |
| Packing.PackingIsLossless | apps/backend/src/modules/embeddings/chunker.ts:57-83 | the sentences the chunks add are the sentences given: whole, in order, once each |
| Packing.ChunksChain | apps/backend/src/modules/embeddings/chunker.ts:57-83 | every chunk adds a sentence and repeats exactly the tail of the chunk before it |
| Packing.ChunksLoseNothing | apps/backend/src/modules/embeddings/chunker.ts:29-83 | from the chunks alone, stripped of what they repeat, the sentences and every visible character of the raw text come back |
| ChunkBounds.ChunksFitOrAddOne | apps/backend/src/modules/embeddings/chunker.ts:68-80 | a chunk fits the target or adds a single sentence |
| ChunkBounds.ChunksWithinOverlap | apps/backend/src/modules/embeddings/chunker.ts:57-83 | if every sentence fits the target, a chunk has at most target + overlap + 1 tokens |
| ChunkBounds.TailsRepeat | apps/backend/src/modules/embeddings/chunker.ts:38-45 | with overlap, every tail is a nonempty end of the previous chunk of at most 4 x overlap characters |
| ChunkBounds.OversizedChunkExample | apps/backend/src/modules/embeddings/chunker.ts:57-83 | every sentence fits and yet a chunk is over the target, because of its tail |
| ChunkBounds.FitIffSentencesFit | apps/backend/src/modules/embeddings/chunker.ts:57-83 | without overlap all chunks fit the target if and only if all sentences do |
| ChunkPromise.OverTargetIff | apps/backend/src/modules/embeddings/chunker.ts:68-80 | when all sentences fit, a chunk is over the target if and only if it repeats a tail, adds one sentence, and tail, blank and sentence exceed 4 x target characters |
| ChunkPromise.ChunksFitIff | apps/backend/src/modules/embeddings/chunker.ts:57-83 | for any list and any overlap: all chunks fit if and only if all sentences fit and no lone sentence is too long for the tail before it |
| ChunkPromise.RoomForOverlap | apps/backend/src/modules/embeddings/chunker.ts:57-83 | sentences of at most 4 x (target - overlap) - 1 characters always give chunks that fit |
| ChunkPromise.TwoFullSentences | apps/backend/src/modules/embeddings/chunker.ts:29-35 | the text that breaks the promise is split into two sentences that fit exactly |
| ChunkPromise.PromiseHoldsIff | apps/backend/src/modules/embeddings/chunker.ts:1-9 | fitting sentences give fitting chunks for every text, and for every list, if and only if the overlap is 0 or less (or the target below 1) |
| ChunkPromise.OptionsKeepPromiseIff | apps/backend/src/modules/embeddings/chunker.ts:57-63 | in terms of the options: if and only if `overlapTokens` is 0 or less or `targetTokens` 1 or less, so not for the defaults |
| ChunkBounds.StaysAhead | apps/backend/src/modules/embeddings/chunker.ts:68-80 | on any end of what the runs of an allowed split hold, greedy needs no more chunks than there are runs |
| ChunkBounds.GreedyIsOptimal | apps/backend/src/modules/embeddings/chunker.ts:57-83 | without overlap no split of the sentences into allowed runs has fewer runs than there are chunks |
| ChunkBounds.GreedyIsASplit | apps/backend/src/modules/embeddings/chunker.ts:57-83 | the chunks are such a split themselves |
| Fusion.Fuse | apps/backend/src/modules/search/hybrid-search.service.ts:114-132 | the loops, sort and slice give the first `limit` of the stably sorted sums, one entry a key with its first hit |
| Fusion.SortedIsRanked | apps/backend/src/modules/search/hybrid-search.service.ts:128-129 | the sort keeps the entries, puts higher scores first and ties in first-seen order |
| Fusion.NothingBetterOmitted | apps/backend/src/modules/search/hybrid-search.service.ts:128-130 | nothing left out beats anything returned |
| Fusion.CutLength | apps/backend/src/modules/search/hybrid-search.service.ts:130 | min(limit, number of keys) hits come back |
| Fusion.OrderKeys | apps/backend/src/modules/search/hybrid-search.service.ts:115-127 | the fused keys are distinct and are exactly the keys that occur, which are those with a positive score |
| Fusion.HitAdds | apps/backend/src/modules/search/hybrid-search.service.ts:114-127 | what one more hit does: its key gains 1/(61 + place), a new key comes last with this hit, nothing else changes |
| Fusion.EmptyAdds | apps/backend/src/modules/search/hybrid-search.service.ts:114-127 | no list, or an empty one, is worth nothing |
| Fusion.NegativeLimit | apps/backend/src/modules/search/hybrid-search.service.ts:130 | a negative limit leaves out that many from the end |
| Fusion.ReturnedHits | apps/backend/src/modules/search/hybrid-search.service.ts:114-132 | each hit returned carries exactly the sum of 1/(60 + rank) of its key, and no key comes back twice |
| Fusion.KeysIdentify | apps/backend/src/modules/search/hybrid-search.service.ts:118 | two document ids identify chunks whatever the chunk ids if and only if they are equal or neither with a colon starts the other; so UUIDs, all of one length, always do |
| Fusion.KeysCollideExample | apps/backend/src/modules/search/hybrid-search.service.ts:118 | two ids, neither a UUID, that do not: the condition is not empty |
| Fusion.ScoresIgnoreListOrder | apps/backend/src/modules/search/hybrid-search.service.ts:114-132 | scores do not depend on the order of the lists |
| Fusion.ScoreBounds | apps/backend/src/modules/search/hybrid-search.service.ts:114-132 | with n lists of at most 20 distinct keys, a score is 0 or lies in [1/80, n/61] |
| Fusion.ThreeStoreScores | apps/backend/src/modules/search/hybrid-search.service.ts:114-132 | so with three stores every returned score lies in [1/80, 3/61] |
| Fusion.SingleListKeepsOrder | apps/backend/src/modules/search/hybrid-search.service.ts:114-132 | one list of distinct keys comes back in its own order, cut at the limit |
| Stock.QuantityAcceptedIff | apps/backend/src/modules/inventory/inventory.service.ts:320-343 | a quantity is accepted if and only if it is a nonzero whole number within a million, positive unless ADJUST, and then it is unchanged |
| Stock.QuantityFault | apps/backend/src/modules/inventory/inventory.service.ts:320-343 | accepted if and only if whole, from 1 to 1 000 000 in size, and positive unless ADJUST; else the first of these that fails is the fault |
| Stock.LowBelowThePoint | apps/backend/src/modules/inventory/stock.ts:31-33 | stock is low if and only if it is at least one under a positive reorder point |
| Stock.ComputeStockMap | apps/backend/src/modules/inventory/stock.ts:20-28 | the loop gives every product of the rows the signed sum of its rows, and no other product |
| Stock.LedgerSplit | apps/backend/src/modules/inventory/stock.ts:1-11 | on-hand is the sum of IN, less OUT, plus ADJUST |
| Stock.GroupedSumsGiveOnHand | apps/backend/src/modules/inventory/inventory.service.ts:79-88 | from any grouping of the ledger by product and kind, in any order, the figure computed is the signed sum of the whole ledger |
| Stock.OnHandFor | apps/backend/src/modules/inventory/inventory.service.ts:79-88 | the batch lookup gives the signed ledger sum of every product asked for, 0 for one without movements |
| Reorder.FlipsAlternate | apps/backend/src/modules/inventory/inventory.service.ts:187-215 | in every interleaving of evaluations, movements and updates the flips of a product that take effect strictly alternate, beginning with a raise |
| Reorder.OneNotificationADip | apps/backend/src/modules/inventory/inventory.service.ts:187-252 | in every interleaving a raise is notified once, one a recipient, or waiting, or lost to a failure, never two of these; nothing else is notified |
| Reorder.EvaluateSettles | apps/backend/src/modules/inventory/inventory.service.ts:187-215 | an evaluation of the row as it is leaves the flag saying whether stock is low, and touches no other product |
| Reorder.EvaluateTells | apps/backend/src/modules/inventory/inventory.service.ts:187-252 | it notifies each recipient once exactly when it raises the flag |
| Reorder.ServeSettles | apps/backend/src/modules/inventory/product.service.ts:131-169 | a whole call that re-evaluates a product leaves its flag right; a call that does not leaves both flag and stock alone |
| Reorder.AddServed | apps/backend/src/modules/inventory/product.service.ts:63-98 | a product is created with a whole threshold, 0 unless given, active unless told otherwise, not flagged |
| Reorder.RecordServed | apps/backend/src/modules/inventory/inventory.service.ts:115-147 | a movement that passes its checks is appended as it is, and only the flag of its product may change |
| Reorder.UpdateServed | apps/backend/src/modules/inventory/product.service.ts:131-169 | threshold and activity change where given, the flag is re-evaluated exactly then, and nothing else changes |
| Reorder.SweepServed | apps/backend/src/modules/inventory/inventory.reorder.worker.ts:49-116 | the sweep takes distinct active products with a threshold of at least one and only sets their flags |
| Reorder.LedgerRecordable | apps/backend/src/modules/inventory/inventory.service.ts:115-147 | in every interleaving the ledger holds only movements that may be recorded, of products that exist |
| Reorder.SerialFlagIff | apps/backend/src/modules/inventory/inventory.service.ts:115-215 | with calls one at a time a product is flagged if and only if it is low and some movement, threshold or active change, or sweep has covered it |
| Reorder.StaleFlagExample | apps/backend/src/modules/inventory/inventory.service.ts:187-215 | two movements at once can leave a fully stocked product flagged with nothing in flight |
| Reorder.LostAlertExample | apps/backend/src/modules/inventory/inventory.service.ts:200-203 | a raise whose notification fails: flagged, nothing in flight, nobody told |
| Reorder.NewProductExample | apps/backend/src/modules/inventory/product.service.ts:63-98 | a product created with a threshold is low and not flagged |
| ReorderDecisions.DecisionRightIff | apps/backend/src/modules/inventory/inventory.service.ts:187-215 | however stale its readings, an update leaves the flag right if and only if the verdict of the readings is what stock now says |
| ReorderDecisions.EvaluationRightIff | apps/backend/src/modules/inventory/inventory.service.ts:187-215 | the same for a whole evaluation with arbitrary steps of others between reading the row, summing the ledger and updating |
| ReorderDecisions.LastDecisionIff | apps/backend/src/modules/inventory/inventory.service.ts:187-215 | in any run, with the product left alone since an update was attempted, its flag is right if and only if the verdict of that evaluation was |
| ReorderDecisions.UndisturbedEvaluationRight | apps/backend/src/modules/inventory/inventory.service.ts:187-215 | nobody patches or flips the product between read and update, and no movement of it follows the sum: then the flag is right, whatever happens to other products |
| ReorderSweep.VisitRightIff | apps/backend/src/modules/inventory/inventory.service.ts:187-215 | the exact condition for an evaluation of the worker, failures and cache included |
| ReorderSweep.VisitLeavesRight | apps/backend/src/modules/inventory/inventory.reorder.worker.ts:85-103 | an evaluation nobody disputes leaves the flag right to its end, told or not, whatever happens to other products |
| ReorderSweep.RaiseToldIff | apps/backend/src/modules/inventory/inventory.service.ts:196-203 | a raise is told, one notification a recipient, if and only if lookup and notification work out, and else lost |
| ReorderSweep.RecordLeavesRight | apps/backend/src/modules/inventory/inventory.service.ts:115-147 | a movement among any calls on other products, and after any earlier movements of its own, leaves its flag right |
| ReorderSweep.UpdateLeavesRight | apps/backend/src/modules/inventory/product.service.ts:131-169 | so does a threshold or activity change among them |
| ReorderSweep.RecordedStays | apps/backend/src/modules/inventory/inventory.service.ts:138-143 | once written a movement stays in the ledger, even when the evaluation after it fails the call |
| ReorderSweep.NothingWritten | apps/backend/src/modules/inventory/inventory.service.ts:115-147 | a call that is refused or whose write fails leaves nothing of its own |
| ReorderSweep.EarlyCounted | apps/backend/src/modules/inventory/inventory.reorder.worker.ts:73-110 | the early failures are the evaluations that fail on reading or on flipping |
| ReorderSweep.PeacefulCalls | apps/backend/src/modules/inventory/inventory.service.ts:115-147 | left in peace these calls are the calls of `Reorder`, so the serial results hold of them |
| ReorderSweep.StepTallies | apps/backend/src/modules/inventory/inventory.service.ts:187-215 | what any one step does to the raises told, raises lost and clears of a caller |
| ReorderSweep.VisitTallies | apps/backend/src/modules/inventory/inventory.reorder.worker.ts:85-103 | however an evaluation among others ends, its outcome names the tally that grew |
| ReorderSweep.Database.Decide | apps/backend/src/modules/inventory/inventory.service.ts:193-213 | the two guarded updates, and which way the flag went if it did |
| ReorderSweep.Database.Measure | apps/backend/src/modules/inventory/inventory.service.ts:193-194 | the on-hand figure an evaluation works with is the signed ledger sum at that moment |
| ReorderSweep.Database.EvaluateReorderAlert | apps/backend/src/modules/inventory/inventory.service.ts:187-215 | the evaluation with its gaps, failures and shared recipients cache, and its outcome |
| ReorderSweep.Database.RecordMovement | apps/backend/src/modules/inventory/inventory.service.ts:115-147 | refuses a bad quantity before an unknown product, else records the movement and re-evaluates among whatever others do; a failing evaluation fails the call, the movement stays |
| ReorderSweep.Database.Update | apps/backend/src/modules/inventory/product.service.ts:131-169 | patches only the fields given and re-evaluates when threshold or activity was given, among whatever others do and with any failure |
| ReorderSweep.Database.Process | apps/backend/src/modules/inventory/inventory.reorder.worker.ts:49-116 | every product is evaluated, in order, with the cached or looked-up recipients; `alerted`, `restocked` and `failed` are exactly the raises told, the clears, and the early failures plus the lost raises; left in peace it leaves every flag right |
| ReorderSweep.QuietSweep | apps/backend/src/modules/inventory/inventory.reorder.worker.ts:49-116 | with nobody else about, the sweep is the sweep call of `Reorder`, so the serial results hold of it |
| Workflow.RunNext | apps/backend/src/modules/workflows/workflow-engine.worker.ts:140-188 | steps run one after another, from any state |
| Workflow.FiresOnce | apps/backend/src/modules/workflows/workflow-engine.worker.ts:140-188 | in every interleaving of sweeps a pair has a run row just when one firing of it committed, and shows that firing's tasks and notifications and no others; attempts that did not commit leave nothing |
| Workflow.FiringLeaves | apps/backend/src/modules/workflows/workflow-engine.worker.ts:150-187 | in every interleaving: at most one commit a pair; each user is told each title as often as the notification actions with it reached that user; the titles of its tasks are those of its CREATE_TASK actions in order; and nothing of either without a run row |
| Workflow.FiringsAreRuns | apps/backend/src/modules/workflows/workflow-engine.worker.ts:150-187 | the commits of all sweeps together are as many as the run rows |
| WorkflowPlan.GroupBy | apps/backend/src/modules/workflows/workflow-engine.worker.ts:85-101 | the grouping loop lists the keys in order of first appearance and the rules of each in their order |
| WorkflowPlan.PlanPermutes | apps/backend/src/modules/workflows/workflow-engine.worker.ts:85-106 | grouping by organisation and then trigger takes every rule exactly once |
| WorkflowPlan.KeysAre | apps/backend/src/modules/workflows/workflow-engine.worker.ts:92-104 | the keys of the groups are those that occur, each once |
| WorkflowPlan.KeysGrow | apps/backend/src/modules/workflows/workflow-engine.worker.ts:92-104 | a key is added when its first rule comes |
| WorkflowPlan.ClassConcat | apps/backend/src/modules/workflows/workflow-engine.worker.ts:92-104 | a group keeps the order of its rules |
| WorkflowPlan.ClassOfOne | apps/backend/src/modules/workflows/workflow-engine.worker.ts:92-104 | and takes a rule exactly when it has the key |
| WorkflowPlan.PlanInOrder | apps/backend/src/modules/workflows/workflow-engine.worker.ts:92-128 | organisations come in the order of their first rules, and within each its triggers |
| WorkflowPlan.PairsCount | apps/backend/src/modules/workflows/workflow-engine.worker.ts:104-128 | a rule and an entity of its organisation and kind are taken together as often as both are there, and no other entity with it |
| WorkflowPlan.PlanCoversPairs | apps/backend/src/modules/workflows/workflow-engine.worker.ts:104-109 | the sweep takes every rule with every entity of its organisation and kind, each pair once, and no other |
| WorkflowSweep.ActingStands | apps/backend/src/modules/workflows/workflow-engine.worker.ts:152-182 | an open firing carries out its actions in order, and nobody else touches it |
| WorkflowSweep.TurnCounts | apps/backend/src/modules/workflows/workflow-engine.worker.ts:110-129 | whatever happens to a pair, the sweep has nothing open afterwards and one commit more exactly when it fired |
| WorkflowSweep.TurnFiresIff | apps/backend/src/modules/workflows/workflow-engine.worker.ts:110-187 | among whatever others do, a pair fires if and only if it matches, no earlier run is found, its key is neither taken nor held at the insert, no statement fails, and recipients are known if an action needs them |
| WorkflowSweep.TurnWrites | apps/backend/src/modules/workflows/workflow-engine.worker.ts:140-188 | a pair that fires has every action carried out in order, each notification to the members as cached or looked up at that turn |
| WorkflowSweep.QuietTurnFires | apps/backend/src/modules/workflows/workflow-engine.worker.ts:110-129 | a matching pair left in peace has its run row afterwards, and fires if and only if it had none |
| WorkflowSweep.Database.Fire | apps/backend/src/modules/workflows/workflow-engine.worker.ts:140-188 | run row first, then the actions one by one, then commit; any failure rolls all of it back |
| WorkflowPlan.UntilStops | apps/backend/src/modules/workflows/workflow-engine.worker.ts:104-105 | where a part of the plan meets a kind whose entities cannot be fetched, the whole plan stops at the same place |
| WorkflowSweep.Database.Process | apps/backend/src/modules/workflows/workflow-engine.worker.ts:67-138 | every pair of the plan has its turn, in order; `evaluated` is how many were taken and `fired` how many were committed; a fetch that fails ends the sweep there, commits kept; left in peace it leaves a run row for every match and adds no other |
| WorkflowSweep.QuietWalkRunsAll | apps/backend/src/modules/workflows/workflow-engine.worker.ts:92-128 | of a sweep left in peace: the run rows afterwards are those before and one for every matching pair, and as many commits |
| Appointments.WindowValidIff | apps/backend/src/modules/appointments/appointment.service.ts:338-355 | a window is accepted if and only if it has a positive length of at most 24 hours |
| Appointments.ServeNext | apps/backend/src/modules/appointments/appointment.service.ts:96-133 | calls are served one after another, from an empty book |
| Appointments.ConflictIff | apps/backend/src/modules/appointments/appointment.service.ts:238-264 | the conflict query finds something if and only if the slot overlaps a held slot of the assignee |
| Appointments.SlotsStayApart | apps/backend/src/modules/appointments/appointment.service.ts:96-264 | over every sequence of calls the held slots of each assignee in an organisation are disjoint, and every window is valid |
| Appointments.NeverDoubleBooked | apps/backend/src/modules/appointments/appointment.service.ts:96-264 | no moment lies in two held slots of one assignee |
| Appointments.NeverReentersHolding | apps/backend/src/modules/appointments/appointment.service.ts:76-87 | once out of SCHEDULED and CONFIRMED an appointment never holds a slot again, and its window is final |
| Appointments.ClashesIff | apps/backend/src/modules/appointments/appointment.service.ts:238-250 | a slot clashes if and only if it is scheduled or confirmed for the assignee and shares a moment with the window |
| Appointments.CreateServed | apps/backend/src/modules/appointments/appointment.service.ts:96-133 | a booking is refused for the first of title, window, customer and conflict that fails, and else adds exactly the row asked for, SCHEDULED |
| Appointments.UpdateServed | apps/backend/src/modules/appointments/appointment.service.ts:172-210 | an edit is accepted if and only if title, status, window and conflicts allow it, and then moves the slot to the times given, changes the text given, and nothing more |
| Appointments.StatusServed | apps/backend/src/modules/appointments/appointment.service.ts:70-87 | a status changes to any other from SCHEDULED, to the three endings from CONFIRMED, and never from those |
| Appointments.BooksGrow | apps/backend/src/modules/appointments/appointment.service.ts:172-236 | no run goes back from CONFIRMED to SCHEDULED, drops an appointment or moves it to another assignee |
| Appointments.AppointmentService.AssertNoConflict | apps/backend/src/modules/appointments/appointment.service.ts:238-264 | refuses exactly when a held slot of the assignee other than the excluded one overlaps |
| Appointments.AppointmentService.Create | apps/backend/src/modules/appointments/appointment.service.ts:96-133 | books a slot or refuses with the first failed check, and keeps the book sound |
| Appointments.AppointmentService.Update | apps/backend/src/modules/appointments/appointment.service.ts:172-210 | edits or reschedules, checking window and conflicts against all other slots only when a time was given |
| Appointments.AppointmentService.UpdateStatus | apps/backend/src/modules/appointments/appointment.service.ts:212-236 | moves along a legal transition, accepts the status already held, refuses the rest |

## Left out

- HTTP controllers, DTO validation, authentication, roles and tenancy guards, logging, telemetry: no state of the proved kind.
- Outbox events: best effort, and their failures are swallowed.
- Foreign stores and services (Qdrant, OpenSearch, Neo4j, SMTP, model calls): their answers are arbitrary lists.
- PostgreSQL itself: tables are maps and sequences; the foreign key from an invoice to its schedule and the unique key on (rule, entity) are modelled, other foreign keys and index locks are not.
- Fields that no rule depends on: notes, customers and due dates of invoices in `Billing`, priorities and descriptions of tasks in `Workflow`, names and prices of products in `Reorder`.
- Batch limits and the order of candidate queries: a batch is any list of rows that qualify.
- Deleting an organisation, which cascades through every table.
- Overlapping `transition` calls on one invoice, `setActive` between the two halves of its own read and write, and bookings made in parallel.
- Workflow conditions: whether an entity matches is a parameter of the turn.
- Text outside the Basic Multilingual Plane: lengths, and so token counts and length limits, are measured in characters instead of UTF-16 code units.
- Date text outside the years 0 to 9999.
- ComputeInvoiceTotals: a line is whatever its five fields are; an `items` value that is not an array is the empty list.
