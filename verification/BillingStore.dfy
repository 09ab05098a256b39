/** The billing tables as the services change them, and the recurrence worker that
    runs on them while everybody else does too. Each method is one step of `Billing`. */
module BillingStore {
  import opened Options
  import opened Calendar
  import opened Recurrence
  import opened Billing
  import opened BillingLocks
  import InvoiceTotals
  import InvoiceNumber

  // ---- What others cannot touch ------------------------------------------

  /** The step is not one of transaction `tx`. */
  predicate Leaves(e: Event, tx: Id) {
    !((e.BeginSingle? || e.BeginRecurring? || e.TakeNumber? || e.InsertInvoice?
       || e.ClaimSchedule? || e.Commit? || e.Abort?) && e.tx == tx)
  }

  ghost predicate AllLeave(es: seq<Event>, tx: Id) { forall e | e in es :: Leaves(e, tx) }

  ghost predicate BilledBy(s: Store, tx: Id) { exists c | c in s.claims :: c.tx == tx }

  /** `r` remembers all that `s` does. */
  ghost predicate Grows(s: Store, r: Store) { s.claims <= r.claims && s.listed <= r.listed }

  /** `r` has the same to say about transaction `tx` as `s`. */
  ghost predicate SameFor(s: Store, r: Store, tx: Id) {
    && (tx in s.txs <==> tx in r.txs) && (tx in s.txs ==> s.txs[tx] == r.txs[tx])
    && (tx in s.done <==> tx in r.done) && (tx in s.done ==> s.done[tx] == r.done[tx])
    && (BilledBy(s, tx) <==> BilledBy(r, tx))
    && Grows(s, r)
  }

  /** Only a commit adds a claim, under its own name. */
  lemma ClaimsGrow(s: Store, e: Event)
    ensures var r := Apply(s, e);
            Grows(s, r)
            && (r.claims == s.claims || (e.Commit? && |r.claims| == |s.claims| + 1 && r.claims[|s.claims|].tx == e.tx))
  {
    hide Detached, CounterHeld, ScheduleHeld, SchedulePinned, Tx.Key, NewInvoice, NextRunAt, RowMatches;
  }

  lemma TxLeft(s: Store, e: Event, tx: Id)
    requires Leaves(e, tx)
    ensures tx in s.txs <==> tx in Apply(s, e).txs
    ensures tx in s.txs ==> s.txs[tx] == Apply(s, e).txs[tx]
  {
    hide Detached, CounterHeld, ScheduleHeld, SchedulePinned, Tx.Key, NewInvoice, NextRunAt, RowMatches;
  }

  lemma EndLeft(s: Store, e: Event, tx: Id)
    requires Leaves(e, tx)
    ensures tx in s.done <==> tx in Apply(s, e).done
    ensures tx in s.done ==> s.done[tx] == Apply(s, e).done[tx]
  {
    hide Detached, CounterHeld, ScheduleHeld, SchedulePinned, Tx.Key, NewInvoice, NextRunAt, RowMatches;
  }

  lemma StepLeaves(s: Store, e: Event, tx: Id)
    requires Leaves(e, tx)
    ensures SameFor(s, Apply(s, e), tx)
  {
    hide Apply;
    TxLeft(s, e, tx);
    EndLeft(s, e, tx);
    ClaimsGrow(s, e);
    var r := Apply(s, e);
    assert r.claims != s.claims ==> r.claims == s.claims + [r.claims[|s.claims|]];
  }

  lemma {:induction false} RunLeaves(s: Store, es: seq<Event>, tx: Id)
    requires AllLeave(es, tx)
    ensures SameFor(s, RunFrom(s, es), tx)
  {
    hide Apply;
    if es != [] {
      RunLeaves(s, es[..|es| - 1], tx);
      StepLeaves(RunFrom(s, es[..|es| - 1]), es[|es| - 1], tx);
    }
  }

  lemma {:induction false} RunGrows(s: Store, es: seq<Event>)
    ensures Grows(s, RunFrom(s, es))
  {
    hide Apply;
    if es != [] {
      RunGrows(s, es[..|es| - 1]);
      ClaimsGrow(RunFrom(s, es[..|es| - 1]), es[|es| - 1]);
    }
  }

  lemma {:induction false} LocksAlong(s: Store, es: seq<Event>)
    requires Locks(s)
    ensures Locks(RunFrom(s, es))
  {
    hide Apply, Locks;
    if es != [] {
      LocksAlong(s, es[..|es| - 1]);
      LocksStep(RunFrom(s, es[..|es| - 1]), es[|es| - 1]);
    }
  }

  // ---- One attempt to bill a schedule ------------------------------------

  /** The statements of an attempt: pricing the template, counting up the number, inserting
      the invoice, claiming the schedule, committing. */
  datatype Statement = Pricing | Counting | Inserting | Claiming | Committing

  /** What becomes of an attempt: the statement of it that fails, if one does, and what
      others do in its four gaps. */
  datatype Course = Course(
    breaksAt: Option<Statement>, first: seq<Event>, second: seq<Event>, third: seq<Event>, fourth: seq<Event>)
  {
    ghost predicate Leave(tx: Id) {
      AllLeave(first, tx) && AllLeave(second, tx) && AllLeave(third, tx) && AllLeave(fourth, tx)
    }
  }

  /** The states in which the statements run. */
  function Begun(s: Store, tx: Id, id: Id, seen: Schedule, now: int): Store {
    Apply(s, BeginRecurring(tx, id, seen, now))
  }

  function AtCounting(s: Store, tx: Id, id: Id, seen: Schedule, now: int, course: Course): Store {
    RunFrom(Begun(s, tx, id, seen, now), course.first)
  }

  function AtInserting(s: Store, tx: Id, id: Id, seen: Schedule, now: int, course: Course): Store {
    RunFrom(Apply(AtCounting(s, tx, id, seen, now, course), TakeNumber(tx)), course.second)
  }

  function AtClaiming(s: Store, tx: Id, id: Id, seen: Schedule, now: int, course: Course): Store {
    RunFrom(Apply(AtInserting(s, tx, id, seen, now, course), InsertInvoice(tx)), course.third)
  }

  function AtCommitting(s: Store, tx: Id, id: Id, seen: Schedule, now: int, course: Course): Store {
    RunFrom(Apply(AtClaiming(s, tx, id, seen, now, course), ClaimSchedule(tx)), course.fourth)
  }

  /** How far the attempt got when it failed, timed out or was through. */
  function Reached(s: Store, tx: Id, id: Id, seen: Schedule, now: int, course: Course): Store {
    match course.breaksAt
    case Some(Pricing) => Begun(s, tx, id, seen, now)
    case Some(Counting) => AtCounting(s, tx, id, seen, now, course)
    case Some(Inserting) => AtInserting(s, tx, id, seen, now, course)
    case Some(Claiming) => AtClaiming(s, tx, id, seen, now, course)
    case Some(Committing) => AtCommitting(s, tx, id, seen, now, course)
    case None => Apply(AtCommitting(s, tx, id, seen, now, course), Commit(tx))
  }

  /** What is still open then is rolled back. */
  function AfterAttempt(s: Store, tx: Id, id: Id, seen: Schedule, now: int, course: Course): Store {
    Apply(Reached(s, tx, id, seen, now, course), Abort(tx))
  }

  /** The counter row of an attempt. */
  function KeyOf(seen: Schedule, now: int): (Id, int) { (seen.org, CivilOf(now).year) }

  /** How the attempt ends, from what its statements find. */
  function OutcomeOf(s: Store, tx: Id, id: Id, seen: Schedule, now: int, course: Course): Outcome {
    var (counting, claiming) := (AtCounting(s, tx, id, seen, now, course), AtClaiming(s, tx, id, seen, now, course));
    if course.breaksAt.Some? && course.breaksAt != Some(Committing) then Aborted
    else if CounterHeld(counting, KeyOf(seen, now)) then Aborted
    else if id !in AtInserting(s, tx, id, seen, now, course).schedules then Aborted
    else if !RowMatches(claiming, Recurring(id, seen)) then Raced
    else if ScheduleHeld(claiming, id) || course.breaksAt == Some(Committing) then Aborted
    else Committed
  }

  ghost predicate Fresh(s: Store, tx: Id) { tx !in s.txs && tx !in s.done && !BilledBy(s, tx) }

  /** The attempt has ended, and billed its period exactly when it committed. */
  ghost predicate Ended(s: Store, tx: Id, id: Id, seen: Schedule, now: int) {
    && tx !in s.txs && tx in s.done
    && (s.done[tx] == Committed <==> BilledBy(s, tx))
    && (s.done[tx] == Committed ==>
          Claim(id, seen.nextRunAt, Advanced(seen.cadence, seen.interval, seen.nextRunAt, now), tx) in s.claims)
  }

  ghost predicate OpenOrEnded(s: Store, tx: Id, id: Id, seen: Schedule, now: int) {
    || (tx in s.txs && s.txs[tx].job == Recurring(id, seen) && s.txs[tx].now == now
        && tx !in s.done && !BilledBy(s, tx))
    || Ended(s, tx, id, seen, now)
  }

  lemma OwnStep(s: Store, e: Event, tx: Id, id: Id, seen: Schedule, now: int)
    requires Locks(s) && OpenOrEnded(s, tx, id, seen, now)
    requires e == TakeNumber(tx) || e == InsertInvoice(tx) || e == ClaimSchedule(tx) || e == Commit(tx)
             || e == Abort(tx)
    ensures Locks(Apply(s, e)) && OpenOrEnded(Apply(s, e), tx, id, seen, now)
    ensures e.Abort? ==> Ended(Apply(s, e), tx, id, seen, now)
  {
    LocksStep(s, e);
    hide Locks, OneHolder, HeldRows, CounterHeld, ScheduleHeld, SchedulePinned;
    hide RowMatches, Tx.Key, NewInvoice, Advanced;
    hide AfterTakeNumber, AfterInsert, AfterClaim, AfterCommit;
    match e
    case TakeNumber(_) => OwnNumber(s, tx, id, seen, now);
    case InsertInvoice(_) => OwnInsert(s, tx, id, seen, now);
    case ClaimSchedule(_) => OwnClaim(s, tx, id, seen, now);
    case Commit(_) => OwnCommit(s, tx, id, seen, now);
    case Abort(_) =>
  }

  lemma OwnNumber(s: Store, tx: Id, id: Id, seen: Schedule, now: int)
    requires OpenOrEnded(s, tx, id, seen, now)
    ensures OpenOrEnded(AfterTakeNumber(s, tx), tx, id, seen, now)
  {
    hide CounterHeld, Tx.Key, Advanced;
  }

  lemma OwnInsert(s: Store, tx: Id, id: Id, seen: Schedule, now: int)
    requires OpenOrEnded(s, tx, id, seen, now)
    ensures OpenOrEnded(AfterInsert(s, tx), tx, id, seen, now)
  {
    hide Advanced;
  }

  lemma OwnClaim(s: Store, tx: Id, id: Id, seen: Schedule, now: int)
    requires OpenOrEnded(s, tx, id, seen, now)
    ensures OpenOrEnded(AfterClaim(s, tx), tx, id, seen, now)
  {
    hide ScheduleHeld, SchedulePinned, RowMatches, Advanced;
  }

  lemma OwnCommit(s: Store, tx: Id, id: Id, seen: Schedule, now: int)
    requires Locks(s) && OpenOrEnded(s, tx, id, seen, now)
    ensures OpenOrEnded(AfterCommit(s, tx), tx, id, seen, now)
  {
    hide OneHolder, CounterHeld, ScheduleHeld, SchedulePinned, Tx.Key, NewInvoice, Advanced;
    if tx in s.txs && s.txs[tx].ReadyToCommit() {
      assert RowMatches(s, s.txs[tx].job) by { HeldInLocks(s); }
      var r := AfterCommit(s, tx);
      assert r.claims[|s.claims|] == Claim(id, seen.nextRunAt, NextRunAt(s.txs[tx]), tx);
    }
  }

  lemma HeldInLocks(s: Store)
    requires Locks(s)
    ensures HeldRows(s)
  {
  }

  lemma OthersStep(s: Store, es: seq<Event>, tx: Id, id: Id, seen: Schedule, now: int)
    requires Locks(s) && OpenOrEnded(s, tx, id, seen, now) && AllLeave(es, tx)
    ensures Locks(RunFrom(s, es)) && OpenOrEnded(RunFrom(s, es), tx, id, seen, now)
  {
    LocksAlong(s, es);
    RunLeaves(s, es, tx);
    hide Locks, RunFrom, Advanced;
  }

  /** Whatever statement it breaks at and whatever others do, the attempt ends, and has
      billed its period exactly when it committed. */
  lemma AttemptEnds(s: Store, tx: Id, id: Id, seen: Schedule, now: int, course: Course)
    requires Locks(s) && Fresh(s, tx) && (id, seen, now) in s.listed && course.Leave(tx)
    ensures Ended(AfterAttempt(s, tx, id, seen, now, course), tx, id, seen, now)
    ensures Locks(AfterAttempt(s, tx, id, seen, now, course))
  {
    hide Apply, RunFrom, OpenOrEnded, Ended, Locks, Fresh, Begun;
    BegunOpen(s, tx, id, seen, now);
    OthersStep(Begun(s, tx, id, seen, now), course.first, tx, id, seen, now);
    var a := AtCounting(s, tx, id, seen, now, course);
    StatementStep(a, TakeNumber(tx), course.second, tx, id, seen, now);
    hide AtCounting;
    var b := AtInserting(s, tx, id, seen, now, course);
    StatementStep(b, InsertInvoice(tx), course.third, tx, id, seen, now);
    hide AtInserting;
    var c := AtClaiming(s, tx, id, seen, now, course);
    StatementStep(c, ClaimSchedule(tx), course.fourth, tx, id, seen, now);
    hide AtClaiming;
    OwnStep(AtCommitting(s, tx, id, seen, now, course), Commit(tx), tx, id, seen, now);
    hide AtCommitting;
    OwnStep(Reached(s, tx, id, seen, now, course), Abort(tx), tx, id, seen, now);
  }

  /** A statement of the attempt and the gap after it. */
  lemma StatementStep(s: Store, e: Event, gap: seq<Event>, tx: Id, id: Id, seen: Schedule, now: int)
    requires Locks(s) && OpenOrEnded(s, tx, id, seen, now) && AllLeave(gap, tx)
    requires e == TakeNumber(tx) || e == InsertInvoice(tx) || e == ClaimSchedule(tx)
    ensures Locks(RunFrom(Apply(s, e), gap)) && OpenOrEnded(RunFrom(Apply(s, e), gap), tx, id, seen, now)
  {
    hide Apply, RunFrom, OpenOrEnded, Locks;
    OwnStep(s, e, tx, id, seen, now);
    OthersStep(Apply(s, e), gap, tx, id, seen, now);
  }

  lemma BegunOpen(s: Store, tx: Id, id: Id, seen: Schedule, now: int)
    requires Locks(s) && Fresh(s, tx) && (id, seen, now) in s.listed
    ensures Locks(Begun(s, tx, id, seen, now)) && OpenOrEnded(Begun(s, tx, id, seen, now), tx, id, seen, now)
  {
    LocksStep(s, BeginRecurring(tx, id, seen, now));
  }

  lemma GrowsTwice(s: Store, r: Store, t: Store)
    requires Grows(s, r) && Grows(r, t)
    ensures Grows(s, t)
  {
  }

  lemma GrowsOn(s: Store, r: Store, e: Event, gap: seq<Event>)
    requires Grows(s, r)
    ensures Grows(s, RunFrom(Apply(r, e), gap))
  {
    hide Apply, RunFrom, Grows;
    ClaimsGrow(r, e);
    RunGrows(Apply(r, e), gap);
    GrowsTwice(s, r, Apply(r, e));
    GrowsTwice(s, Apply(r, e), RunFrom(Apply(r, e), gap));
  }

  lemma AttemptGrows(s: Store, tx: Id, id: Id, seen: Schedule, now: int, course: Course)
    ensures Grows(s, AfterAttempt(s, tx, id, seen, now, course))
  {
    hide Apply, RunFrom, Grows;
    ClaimsGrow(s, BeginRecurring(tx, id, seen, now));
    RunGrows(Begun(s, tx, id, seen, now), course.first);
    GrowsTwice(s, Begun(s, tx, id, seen, now), AtCounting(s, tx, id, seen, now, course));
    GrowsOn(s, AtCounting(s, tx, id, seen, now, course), TakeNumber(tx), course.second);
    GrowsOn(s, AtInserting(s, tx, id, seen, now, course), InsertInvoice(tx), course.third);
    GrowsOn(s, AtClaiming(s, tx, id, seen, now, course), ClaimSchedule(tx), course.fourth);
    var d := AtCommitting(s, tx, id, seen, now, course);
    ClaimsGrow(d, Commit(tx));
    GrowsTwice(s, d, Apply(d, Commit(tx)));
    var r := Reached(s, tx, id, seen, now, course);
    ClaimsGrow(r, Abort(tx));
    GrowsTwice(s, r, Apply(r, Abort(tx)));
  }

  lemma SameForTwice(s: Store, r: Store, t: Store, tx: Id)
    requires SameFor(s, r, tx) && SameFor(r, t, tx)
    ensures SameFor(s, t, tx)
  {
    hide BilledBy;
  }

  lemma SameForOn(s: Store, r: Store, e: Event, gap: seq<Event>, tx: Id)
    requires SameFor(s, r, tx) && Leaves(e, tx) && AllLeave(gap, tx)
    ensures SameFor(s, RunFrom(Apply(r, e), gap), tx)
  {
    hide Apply, RunFrom, SameFor;
    StepLeaves(r, e, tx);
    RunLeaves(Apply(r, e), gap, tx);
    SameForTwice(s, r, Apply(r, e), tx);
    SameForTwice(s, Apply(r, e), RunFrom(Apply(r, e), gap), tx);
  }

  /** An attempt leaves every other transaction of the worker as it was. */
  lemma AttemptLeaves(s: Store, tx: Id, id: Id, seen: Schedule, now: int, course: Course, other: Id)
    requires other != tx && course.Leave(other)
    ensures SameFor(s, AfterAttempt(s, tx, id, seen, now, course), other)
  {
    hide Apply, RunFrom, SameFor;
    StepLeaves(s, BeginRecurring(tx, id, seen, now), other);
    RunLeaves(Begun(s, tx, id, seen, now), course.first, other);
    SameForTwice(s, Begun(s, tx, id, seen, now), AtCounting(s, tx, id, seen, now, course), other);
    SameForOn(s, AtCounting(s, tx, id, seen, now, course), TakeNumber(tx), course.second, other);
    SameForOn(s, AtInserting(s, tx, id, seen, now, course), InsertInvoice(tx), course.third, other);
    SameForOn(s, AtClaiming(s, tx, id, seen, now, course), ClaimSchedule(tx), course.fourth, other);
    var d := AtCommitting(s, tx, id, seen, now, course);
    StepLeaves(d, Commit(tx), other);
    SameForTwice(s, d, Apply(d, Commit(tx)), other);
    var r := Reached(s, tx, id, seen, now, course);
    StepLeaves(r, Abort(tx), other);
    SameForTwice(s, r, Apply(r, Abort(tx)), other);
  }

  // ---- When an attempt commits ---------------------------------------------

  /** The attempt is open at this stage. */
  predicate OpenAt(s: Store, tx: Id, id: Id, seen: Schedule, now: int, stage: Stage) {
    && tx in s.txs && tx !in s.done
    && s.txs[tx].job == Recurring(id, seen) && s.txs[tx].now == now && s.txs[tx].stage == stage
  }

  lemma NumberMoves(s: Store, tx: Id, id: Id, seen: Schedule, now: int)
    requires OpenAt(s, tx, id, seen, now, Started)
    ensures OpenAt(Apply(s, TakeNumber(tx)), tx, id, seen, now,
                   if CounterHeld(s, KeyOf(seen, now)) then Started else Numbered)
  {
    hide CounterHeld, CivilOf;
  }

  lemma InsertMoves(s: Store, tx: Id, id: Id, seen: Schedule, now: int, stage: Stage)
    requires (stage == Started || stage == Numbered) && OpenAt(s, tx, id, seen, now, stage)
    ensures var r := Apply(s, InsertInvoice(tx));
            if stage == Started then r == s
            else if id !in s.schedules then tx !in r.txs && tx in r.done && r.done[tx] == Aborted
            else OpenAt(r, tx, id, seen, now, Inserted)
  {
  }

  lemma ClaimMoves(s: Store, tx: Id, id: Id, seen: Schedule, now: int, stage: Stage)
    requires (stage == Started || stage == Inserted) && OpenAt(s, tx, id, seen, now, stage)
    ensures var r := Apply(s, ClaimSchedule(tx));
            if stage == Started then r == s
            else if !RowMatches(s, Recurring(id, seen)) then tx !in r.txs && tx in r.done && r.done[tx] == Raced
            else OpenAt(r, tx, id, seen, now, if ScheduleHeld(s, id) then Inserted else Claimed)
  {
    hide ScheduleHeld;
  }

  lemma CommitMoves(s: Store, tx: Id, id: Id, seen: Schedule, now: int, stage: Stage)
    requires OpenAt(s, tx, id, seen, now, stage)
    ensures var r := Apply(s, Commit(tx));
            if stage == Claimed then tx !in r.txs && tx in r.done && r.done[tx] == Committed else r == s
  {
    hide Tx.Key, NewInvoice, NextRunAt;
  }

  /** A transaction that has ended has no statements left. */
  lemma EndedStays(s: Store, es: seq<Event>, tx: Id)
    requires tx !in s.txs && tx in s.done && AllLeave(es, tx)
    ensures var r := RunFrom(s, es); tx !in r.txs && tx in r.done && r.done[tx] == s.done[tx]
    ensures Apply(s, InsertInvoice(tx)) == s && Apply(s, ClaimSchedule(tx)) == s && Apply(s, Commit(tx)) == s
  {
    hide RunFrom;
    RunLeaves(s, es, tx);
  }

  lemma AbortMoves(s: Store, tx: Id)
    ensures var r := Apply(s, Abort(tx));
            if tx in s.txs then tx in r.done && r.done[tx] == Aborted else r == s
  {
  }

  lemma StillOpen(s: Store, es: seq<Event>, tx: Id, id: Id, seen: Schedule, now: int, stage: Stage)
    requires AllLeave(es, tx) && OpenAt(s, tx, id, seen, now, stage)
    ensures OpenAt(RunFrom(s, es), tx, id, seen, now, stage)
  {
    hide RunFrom;
    RunLeaves(s, es, tx);
  }

  /** The attempt is open at this stage, or ended like this. */
  ghost predicate Stands(s: Store, tx: Id, id: Id, seen: Schedule, now: int, stage: Option<Stage>, outcome: Outcome) {
    if stage.Some? then OpenAt(s, tx, id, seen, now, stage.value)
    else tx !in s.txs && tx in s.done && s.done[tx] == outcome
  }

  /** How far counting and inserting bring the attempt. */
  function Counted(s: Store, tx: Id, id: Id, seen: Schedule, now: int, course: Course): Stage {
    if CounterHeld(AtCounting(s, tx, id, seen, now, course), KeyOf(seen, now)) then Started else Numbered
  }

  lemma AttemptCounts(s: Store, tx: Id, id: Id, seen: Schedule, now: int, course: Course)
    requires Fresh(s, tx) && (id, seen, now) in s.listed && course.Leave(tx)
    ensures OpenAt(Begun(s, tx, id, seen, now), tx, id, seen, now, Started)
    ensures OpenAt(AtCounting(s, tx, id, seen, now, course), tx, id, seen, now, Started)
    ensures OpenAt(AtInserting(s, tx, id, seen, now, course), tx, id, seen, now, Counted(s, tx, id, seen, now, course))
  {
    assert OpenAt(Begun(s, tx, id, seen, now), tx, id, seen, now, Started);
    hide Apply, RunFrom, OpenAt, CounterHeld, KeyOf;
    StillOpen(Begun(s, tx, id, seen, now), course.first, tx, id, seen, now, Started);
    var a := AtCounting(s, tx, id, seen, now, course);
    NumberMoves(a, tx, id, seen, now);
    StillOpen(Apply(a, TakeNumber(tx)), course.second, tx, id, seen, now, Counted(s, tx, id, seen, now, course));
  }

  /** Where the insert leaves it: waiting for the counter still, inserted, or failed on a
      schedule that is gone. */
  function InsertedStage(s: Store, tx: Id, id: Id, seen: Schedule, now: int, course: Course): Option<Stage> {
    if Counted(s, tx, id, seen, now, course) == Started then Some(Started)
    else if id in AtInserting(s, tx, id, seen, now, course).schedules then Some(Inserted)
    else None
  }

  lemma AttemptInserts(s: Store, tx: Id, id: Id, seen: Schedule, now: int, course: Course)
    requires Fresh(s, tx) && (id, seen, now) in s.listed && course.Leave(tx)
    ensures Stands(AtClaiming(s, tx, id, seen, now, course), tx, id, seen, now,
                   InsertedStage(s, tx, id, seen, now, course), Aborted)
  {
    hide Apply, RunFrom, OpenAt, CounterHeld, KeyOf, Begun, AtCounting, AtInserting, Fresh;
    AttemptCounts(s, tx, id, seen, now, course);
    var b := AtInserting(s, tx, id, seen, now, course);
    InsertMoves(b, tx, id, seen, now, Counted(s, tx, id, seen, now, course));
    var stage := InsertedStage(s, tx, id, seen, now, course);
    if stage.Some? {
      StillOpen(Apply(b, InsertInvoice(tx)), course.third, tx, id, seen, now, stage.value);
    } else {
      EndedStays(Apply(b, InsertInvoice(tx)), course.third, tx);
    }
  }

  /** Where the claim leaves it. */
  function ClaimedStage(s: Store, tx: Id, id: Id, seen: Schedule, now: int, course: Course): Option<Stage> {
    var claiming := AtClaiming(s, tx, id, seen, now, course);
    match InsertedStage(s, tx, id, seen, now, course)
    case Some(Inserted) =>
      if !RowMatches(claiming, Recurring(id, seen)) then None
      else if ScheduleHeld(claiming, id) then Some(Inserted)
      else Some(Claimed)
    case stage => stage
  }

  /** A schedule that was gone failed the attempt; one that moved on made it lose the race. */
  function LossOf(s: Store, tx: Id, id: Id, seen: Schedule, now: int, course: Course): Outcome {
    if InsertedStage(s, tx, id, seen, now, course).None? then Aborted else Raced
  }

  lemma AttemptClaims(s: Store, tx: Id, id: Id, seen: Schedule, now: int, course: Course)
    requires Fresh(s, tx) && (id, seen, now) in s.listed && course.Leave(tx)
    ensures Stands(AtCommitting(s, tx, id, seen, now, course), tx, id, seen, now,
                   ClaimedStage(s, tx, id, seen, now, course), LossOf(s, tx, id, seen, now, course))
  {
    hide Apply, RunFrom, OpenAt, CounterHeld, ScheduleHeld, RowMatches, AtCounting, AtInserting, AtClaiming, Fresh;
    AttemptInserts(s, tx, id, seen, now, course);
    var c := AtClaiming(s, tx, id, seen, now, course);
    var before := InsertedStage(s, tx, id, seen, now, course);
    var after := ClaimedStage(s, tx, id, seen, now, course);
    if before.Some? {
      ClaimMoves(c, tx, id, seen, now, before.value);
    } else {
      EndedStays(c, [], tx);
    }
    if after.Some? {
      StillOpen(Apply(c, ClaimSchedule(tx)), course.fourth, tx, id, seen, now, after.value);
    } else {
      EndedStays(Apply(c, ClaimSchedule(tx)), course.fourth, tx);
    }
  }

  /** The outcome is what its statements found: committed exactly when nothing fails, the
      counter row is free at its statement, the schedule is there at the insert, and its
      row is free, active and as it was read at its own; raced exactly when it got as far
      as finding that row moved on. */
  lemma AttemptOutcome(s: Store, tx: Id, id: Id, seen: Schedule, now: int, course: Course)
    requires Fresh(s, tx) && (id, seen, now) in s.listed && course.Leave(tx)
    ensures var r := AfterAttempt(s, tx, id, seen, now, course);
            && tx in r.done && r.done[tx] == OutcomeOf(s, tx, id, seen, now, course)
            && (r.done[tx] == Committed
                <==> && course.breaksAt.None?
                     && !CounterHeld(AtCounting(s, tx, id, seen, now, course), KeyOf(seen, now))
                     && id in AtInserting(s, tx, id, seen, now, course).schedules
                     && RowMatches(AtClaiming(s, tx, id, seen, now, course), Recurring(id, seen))
                     && !ScheduleHeld(AtClaiming(s, tx, id, seen, now, course), id))
            && (r.done[tx] == Raced
                <==> && (course.breaksAt.None? || course.breaksAt == Some(Committing))
                     && !CounterHeld(AtCounting(s, tx, id, seen, now, course), KeyOf(seen, now))
                     && id in AtInserting(s, tx, id, seen, now, course).schedules
                     && !RowMatches(AtClaiming(s, tx, id, seen, now, course), Recurring(id, seen)))
  {
    hide Apply, RunFrom, CounterHeld, ScheduleHeld, RowMatches, KeyOf;
    hide Begun, AtCounting, AtInserting, AtClaiming, AtCommitting;
    AttemptCounts(s, tx, id, seen, now, course);
    AttemptInserts(s, tx, id, seen, now, course);
    AttemptClaims(s, tx, id, seen, now, course);
    AbortMoves(Reached(s, tx, id, seen, now, course), tx);
    var e := AtCommitting(s, tx, id, seen, now, course);
    var stage := ClaimedStage(s, tx, id, seen, now, course);
    if stage.Some? { CommitMoves(e, tx, id, seen, now, stage.value); } else { EndedStays(e, [], tx); }
  }

  /** Undisturbed, with nothing open and the row as it was read, an attempt commits. */
  lemma QuietAttemptCommits(s: Store, tx: Id, id: Id, seen: Schedule, now: int)
    requires Fresh(s, tx) && (id, seen, now) in s.listed && s.txs == map[] && RowMatches(s, Recurring(id, seen))
    ensures OutcomeOf(s, tx, id, seen, now, Course(None, [], [], [], [])) == Committed
  {
    hide Tx.Key, KeyOf;
  }

  /** And this is all it does: the row moves past `now` and is counted, the counter goes up by
      one, and the invoice with that number points to the schedule. */
  lemma QuietAttemptWrites(s: Store, tx: Id, id: Id, seen: Schedule, now: int)
    requires Fresh(s, tx) && (id, seen, now) in s.listed && s.txs == map[] && RowMatches(s, Recurring(id, seen))
    ensures var r := AfterAttempt(s, tx, id, seen, now, Course(None, [], [], [], []));
            var (key, row) := (KeyOf(seen, now), s.schedules[id]);
            var (n, year, next) := (CounterOf(s, key) + 1, CivilOf(now).year,
                                    Advanced(seen.cadence, seen.interval, seen.nextRunAt, now));
            r == s.(counters := s.counters[key := n],
                    invoices := s.invoices
                                + [Invoice(seen.org, year, n, InvoiceNumber.FormatInvoiceNumber(year, n), Some(id))],
                    schedules := s.schedules[id := row.(nextRunAt := next, lastRunAt := Some(now),
                                                        generatedCount := row.generatedCount + 1)],
                    claims := s.claims + [Claim(id, seen.nextRunAt, next, tx)],
                    done := s.done[tx := Committed])
  {
    hide Advanced, CivilOf, InvoiceNumber.FormatInvoiceNumber, Apply, AfterCommit;
    var course := Course(None, [], [], [], []);
    var t := Tx(Recurring(id, seen), now, Started, 0);
    var n := CounterOf(s, KeyOf(seen, now)) + 1;
    var numbered := t.(stage := Numbered, sequence := n);
    QuietStatements(s, tx, id, seen, now);
    var e := s.(txs := map[tx := numbered.(stage := Claimed)]);
    assert AtCommitting(s, tx, id, seen, now, course) == e;
    QuietCommit(s, tx, numbered.(stage := Claimed));
  }

  lemma QuietStatements(s: Store, tx: Id, id: Id, seen: Schedule, now: int)
    requires Fresh(s, tx) && (id, seen, now) in s.listed && s.txs == map[] && RowMatches(s, Recurring(id, seen))
    ensures AtCommitting(s, tx, id, seen, now, Course(None, [], [], [], []))
            == s.(txs := map[tx := Tx(Recurring(id, seen), now, Claimed, CounterOf(s, KeyOf(seen, now)) + 1)])
  {
    var course := Course(None, [], [], [], []);
    var t := Tx(Recurring(id, seen), now, Started, 0);
    var numbered := t.(stage := Numbered, sequence := CounterOf(s, KeyOf(seen, now)) + 1);
    assert Begun(s, tx, id, seen, now) == s.(txs := map[tx := t]);
    QuietNumber(s, tx, t);
    QuietInsert(s, tx, numbered);
    QuietClaim(s, tx, numbered.(stage := Inserted));
    assert t.Key() == KeyOf(seen, now);
    hide Apply, CivilOf, Tx.Key, KeyOf, RowMatches, Begun, Fresh, CounterOf;
    assert AtCounting(s, tx, id, seen, now, course) == s.(txs := map[tx := t]);
    assert AtInserting(s, tx, id, seen, now, course) == s.(txs := map[tx := numbered]);
    assert AtClaiming(s, tx, id, seen, now, course) == s.(txs := map[tx := numbered.(stage := Inserted)]);
  }

  lemma QuietNumber(s: Store, tx: Id, t: Tx)
    requires t.stage == Started
    ensures Apply(s.(txs := map[tx := t]), TakeNumber(tx))
            == s.(txs := map[tx := t.(stage := Numbered, sequence := CounterOf(s, t.Key()) + 1)])
  {
    hide Tx.Key;
  }

  lemma QuietInsert(s: Store, tx: Id, t: Tx)
    requires t.stage == Numbered && t.job.Recurring? && t.job.id in s.schedules
    ensures Apply(s.(txs := map[tx := t]), InsertInvoice(tx)) == s.(txs := map[tx := t.(stage := Inserted)])
  {
  }

  lemma QuietClaim(s: Store, tx: Id, t: Tx)
    requires t.stage == Inserted && t.job.Recurring? && RowMatches(s, t.job)
    ensures Apply(s.(txs := map[tx := t]), ClaimSchedule(tx)) == s.(txs := map[tx := t.(stage := Claimed)])
  {
    var e := s.(txs := map[tx := t]);
    assert RowMatches(e, t.job) && !ScheduleHeld(e, t.job.id);
    hide RowMatches, ScheduleHeld;
  }

  lemma QuietCommit(s: Store, tx: Id, t: Tx)
    requires t.job.Recurring? && t.job.id in s.schedules && t.stage == Claimed && s.txs == map[]
    ensures var e := s.(txs := map[tx := t]);
            var (id, row) := (t.job.id, s.schedules[t.job.id]);
            Apply(Apply(e, Commit(tx)), Abort(tx))
            == s.(counters := s.counters[t.Key() := t.sequence],
                  invoices := s.invoices + [NewInvoice(t)],
                  schedules := s.schedules[id := row.(nextRunAt := NextRunAt(t), lastRunAt := Some(t.now),
                                                      generatedCount := row.generatedCount + 1)],
                  claims := s.claims + [Claim(id, t.job.seen.nextRunAt, NextRunAt(t), tx)],
                  done := s.done[tx := Committed])
  {
    hide Tx.Key, NewInvoice, NextRunAt;
  }

  lemma SameForKeeps(s: Store, r: Store, tx: Id, id: Id, seen: Schedule, now: int)
    requires SameFor(s, r, tx)
    ensures Fresh(s, tx) ==> Fresh(r, tx)
    ensures Ended(s, tx, id, seen, now) ==> Ended(r, tx, id, seen, now) && r.done[tx] == s.done[tx]
  {
    hide Advanced;
  }

  // ---- A batch -----------------------------------------------------------

  /** A due schedule, the transaction that will bill it, what others do meanwhile, and
      whether reading the finished invoice back fails (after the commit). */
  datatype Item = Item(id: Id, seen: Schedule, tx: Id, course: Course, readBackFails: bool)

  /** The batch as the worker has it: rows listed for its clock, each to be billed in a
      transaction of its own that nobody else names. */
  ghost predicate Batch(s: Store, items: seq<Item>, now: int) {
    && (forall i | 0 <= i < |items| :: (items[i].id, items[i].seen, now) in s.listed)
    && (forall i, j | 0 <= i < j < |items| :: items[i].tx != items[j].tx)
    && (forall i, j | 0 <= i < |items| && 0 <= j < |items| :: items[i].course.Leave(items[j].tx))
  }

  /** The states between the attempts of a batch: every item is attempted, in order. */
  ghost predicate Attempts(trace: seq<Store>, items: seq<Item>, now: int) {
    && |trace| == |items| + 1
    && forall i | 0 <= i < |items| ::
         trace[i + 1]
         == AfterAttempt(trace[i], items[i].tx, items[i].id, items[i].seen, now, items[i].course)
  }

  /** How many transactions of the batch ended with `outcome`. */
  function Tally(done: map<Id, Outcome>, items: seq<Item>, outcome: Outcome): nat {
    if items == [] then 0
    else
      var last := items[|items| - 1];
      Tally(done, items[..|items| - 1], outcome) + if last.tx in done && done[last.tx] == outcome then 1 else 0
  }

  /** How many were billed but could not be read back. */
  function Unread(done: map<Id, Outcome>, items: seq<Item>): nat {
    if items == [] then 0
    else
      var last := items[|items| - 1];
      Unread(done, items[..|items| - 1])
      + if last.tx in done && done[last.tx] == Committed && last.readBackFails then 1 else 0
  }

  lemma {:induction false} TallyKept(before: map<Id, Outcome>, after: map<Id, Outcome>, items: seq<Item>,
                                     outcome: Outcome)
    requires forall i | 0 <= i < |items| ::
               items[i].tx in before && items[i].tx in after && before[items[i].tx] == after[items[i].tx]
    ensures Tally(before, items, outcome) == Tally(after, items, outcome)
            && Unread(before, items) == Unread(after, items)
  {
    if items != [] { TallyKept(before, after, items[..|items| - 1], outcome); }
  }

  /** After the first `i` items of a batch: these have ended, the others are untouched. */
  ghost predicate Midway(s: Store, items: seq<Item>, i: nat, now: int)
    requires i <= |items|
  {
    && Batch(s, items, now)
    && (forall k | 0 <= k < i :: Ended(s, items[k].tx, items[k].id, items[k].seen, now))
    && (forall k | i <= k < |items| :: Fresh(s, items[k].tx))
  }

  /** The next attempt of a batch ends its own item, keeps the others as they were, and
      adds its outcome to the tallies. */
  lemma BatchStep(s: Store, items: seq<Item>, i: nat, now: int)
    requires i < |items| && Locks(s) && Midway(s, items, i, now)
    ensures var item := items[i];
            var r := AfterAttempt(s, item.tx, item.id, item.seen, now, item.course);
            && Locks(r) && Midway(r, items, i + 1, now) && item.tx in r.done
            && (forall outcome :: Tally(r.done, items[..i + 1], outcome)
                                  == Tally(s.done, items[..i], outcome) + if r.done[item.tx] == outcome then 1 else 0)
            && Unread(r.done, items[..i + 1])
               == Unread(s.done, items[..i]) + if r.done[item.tx] == Committed && item.readBackFails then 1 else 0
  {
    hide AfterAttempt, Ended, Locks, Fresh, Course.Leave, Tally, Unread, SameFor;
    var item := items[i];
    var r := AfterAttempt(s, item.tx, item.id, item.seen, now, item.course);
    AttemptEnds(s, item.tx, item.id, item.seen, now, item.course);
    AttemptGrows(s, item.tx, item.id, item.seen, now, item.course);
    forall k | 0 <= k < |items| && k != i
      ensures k > i ==> Fresh(r, items[k].tx)
      ensures k < i ==> items[k].tx in s.done && items[k].tx in r.done && s.done[items[k].tx] == r.done[items[k].tx]
      ensures k < i ==> Ended(r, items[k].tx, items[k].id, items[k].seen, now)
    {
      AttemptLeaves(s, item.tx, item.id, item.seen, now, item.course, items[k].tx);
      SameForKeeps(s, r, items[k].tx, items[k].id, items[k].seen, now);
      if k < i {
        EndedIsDone(s, items[k].tx, items[k].id, items[k].seen, now);
        EndedIsDone(r, items[k].tx, items[k].id, items[k].seen, now);
      }
    }
    EndedIsDone(r, item.tx, item.id, item.seen, now);
    forall outcome
      ensures Tally(r.done, items[..i + 1], outcome)
              == Tally(s.done, items[..i], outcome) + if r.done[item.tx] == outcome then 1 else 0
    {
      TallyKept(s.done, r.done, items[..i], outcome);
      TallyNext(r.done, items, i, outcome);
    }
    TallyKept(s.done, r.done, items[..i], Committed);
    TallyNext(r.done, items, i, Committed);
  }

  lemma NoneTallied(done: map<Id, Outcome>, items: seq<Item>)
    ensures forall outcome :: Tally(done, items[..0], outcome) == 0
    ensures Unread(done, items[..0]) == 0
  {
  }

  lemma TallyNext(done: map<Id, Outcome>, items: seq<Item>, i: nat, outcome: Outcome)
    requires i < |items| && items[i].tx in done
    ensures Tally(done, items[..i + 1], outcome)
            == Tally(done, items[..i], outcome) + if done[items[i].tx] == outcome then 1 else 0
    ensures Unread(done, items[..i + 1])
            == Unread(done, items[..i]) + if done[items[i].tx] == Committed && items[i].readBackFails then 1 else 0
  {
    assert items[..i + 1][..i] == items[..i];
  }

  lemma NoAttempts(trace: seq<Store>, now: int)
    requires |trace| == 1
    ensures Attempts(trace, [], now)
  {
  }

  lemma AttemptsNext(trace: seq<Store>, items: seq<Item>, i: nat, now: int, r: Store)
    requires i < |items| && Attempts(trace, items[..i], now)
    requires r == AfterAttempt(trace[i], items[i].tx, items[i].id, items[i].seen, now, items[i].course)
    ensures Attempts(trace + [r], items[..i + 1], now)
  {
    hide AfterAttempt;
    assert forall k | 0 <= k < i :: items[..i + 1][k] == items[..i][k];
  }

  /** Nobody else is about, nothing fails, and the rows are as they were read, each once. */
  ghost predicate QuietBatch(s: Store, items: seq<Item>) {
    && (forall i, j | 0 <= i < j < |items| :: items[i].id != items[j].id)
    && (forall i | 0 <= i < |items| ::
          items[i].course == Course(None, [], [], [], []) && !items[i].readBackFails)
    && StillAsRead(s, items, 0)
  }

  /** Nothing is open and the items from `i` on are as they were read. */
  ghost predicate StillAsRead(s: Store, items: seq<Item>, i: nat) {
    s.txs == map[] && forall k | i <= k < |items| :: RowMatches(s, Recurring(items[k].id, items[k].seen))
  }

  lemma QuietNext(s: Store, items: seq<Item>, i: nat, now: int)
    requires i < |items| && Midway(s, items, i, now) && StillAsRead(s, items, i)
    requires exists was :: QuietBatch(was, items)
    requires forall k | 0 <= k < i :: items[k].tx in s.done && s.done[items[k].tx] == Committed
    ensures var r := AfterAttempt(s, items[i].tx, items[i].id, items[i].seen, now, items[i].course);
            StillAsRead(r, items, i + 1)
            && forall k | 0 <= k < i + 1 :: items[k].tx in r.done && r.done[items[k].tx] == Committed
  {
    hide AfterAttempt, Ended, Fresh, Course.Leave, KeyOf, CivilOf, Advanced;
    QuietAttemptWrites(s, items[i].tx, items[i].id, items[i].seen, now);
  }

  lemma EndedIsDone(s: Store, tx: Id, id: Id, seen: Schedule, now: int)
    requires Ended(s, tx, id, seen, now)
    ensures tx in s.done
  {
  }

  const LISTED := Schedule(1, WEEKLY, 1, 0, true, None, 0)
  const UNREAD := Item(1, LISTED, 5, Course(None, [], [], [], []), true)

  /** The one billing of the batch `[UNREAD]`, due at 0, committed and cannot be read back. */
  ghost predicate BilledUnread(s: Store) {
    var r := AfterAttempt(s, UNREAD.tx, UNREAD.id, UNREAD.seen, 0, UNREAD.course);
    && Tally(r.done, [UNREAD], Committed) == 1 && Tally(r.done, [UNREAD], Aborted) == 0
    && Unread(r.done, [UNREAD]) == 1 && BilledBy(r, UNREAD.tx)
  }

  /** A due schedule is billed, the invoice cannot be read back, and what the worker's
      counters are made of says: one committed, this one unread. So `generated` is 0
      and `failed` is 1 for an invoice that is there. */
  lemma ReadBackExample()
    ensures exists es: seq<Event> ::
              Locks(Run(es)) && Batch(Run(es), [UNREAD], 0) && Fresh(Run(es), UNREAD.tx) && BilledUnread(Run(es))
  {
    hide Apply, RunFrom, Locks, BilledUnread, Batch;
    var es := [CreateSchedule(1, 1, WEEKLY, 1, 0), ListDue(1, 0)];
    ListedExample();
    LocksHold(es);
    UnreadAttempt(Run(es));
    assert Fresh(Run(es), UNREAD.tx);
  }

  lemma UnreadAttempt(s: Store)
    requires Locks(s) && s == Init.(schedules := map[1 := LISTED], born := map[1 := LISTED], listed := {(1, LISTED, 0)})
    ensures Batch(s, [UNREAD], 0) && BilledUnread(s)
  {
    hide Apply, RunFrom, Locks, OutcomeOf, AfterAttempt, Advanced, KeyOf, AtCounting, AtClaiming;
    var course := Course(None, [], [], [], []);
    QuietAttemptCommits(s, 5, 1, LISTED, 0);
    AttemptOutcome(s, 5, 1, LISTED, 0, course);
    AttemptEnds(s, 5, 1, LISTED, 0, course);
    var r := AfterAttempt(s, 5, 1, LISTED, 0, course);
    assert r.done[5] == Committed && BilledBy(r, 5);
    assert UNREAD == Item(1, LISTED, 5, course, true);
    BatchOfOne(r.done, UNREAD);
  }

  lemma BatchOfOne(done: map<Id, Outcome>, item: Item)
    requires item.tx in done
    ensures forall outcome :: Tally(done, [item], outcome) == if done[item.tx] == outcome then 1 else 0
    ensures Unread(done, [item]) == if done[item.tx] == Committed && item.readBackFails then 1 else 0
  {
    assert [item][..0] == [];
  }

  lemma ListedExample()
    ensures Run([CreateSchedule(1, 1, WEEKLY, 1, 0), ListDue(1, 0)])
            == Init.(schedules := map[1 := LISTED], born := map[1 := LISTED], listed := {(1, LISTED, 0)})
  {
    var (create, list) := (CreateSchedule(1, 1, WEEKLY, 1, 0), ListDue(1, 0));
    assert [create, list][..1] == [create] && [create][..0] == [];
    assert RunFrom(Init, [create]) == Apply(RunFrom(Init, []), create);
    assert RunFrom(Init, [create, list]) == Apply(RunFrom(Init, [create]), list);
  }

  /** The references to `id` are gone, and nothing else has changed. */
  predicate Unreferenced(was: seq<Invoice>, rows: seq<Invoice>, id: Id) {
    && |rows| == |was|
    && forall i | 0 <= i < |rows| ::
         rows[i] == was[i].(recurringInvoiceId := rows[i].recurringInvoiceId)
         && rows[i].recurringInvoiceId
            == if was[i].recurringInvoiceId == Some(id) then None else was[i].recurringInvoiceId
  }

  lemma DetachedIs(invoices: seq<Invoice>, id: Id)
    ensures Unreferenced(invoices, Detached(invoices, id), id)
  {
  }

  lemma DetachedNext(invoices: seq<Invoice>, i: nat, id: Id)
    requires i < |invoices|
    ensures var mixed := Detached(invoices[..i], id) + invoices[i..];
            && mixed[i] == invoices[i]
            && Detached(invoices[..i + 1], id) + invoices[i + 1..] == mixed[i := Unlinked(invoices[i], id)]
  {
  }

  datatype Refusal = Invalid | NotFound

  const RECURRENCE_MIN_NET_TERMS_DAYS := 0
  const RECURRENCE_MAX_NET_TERMS_DAYS := 365

  /** A whole number within bounds, or nothing. */
  function ClampInt(value: real, min: int, max: int): (r: Option<int>)
    ensures r.Some? ==> r.value as real == value && min <= r.value <= max
    ensures r.None? ==> value != value.Floor as real || value < min as real || value > max as real
  {
    if value == value.Floor as real && min <= value.Floor <= max then Some(value.Floor) else None
  }

  predicate WholeWithin(value: real, min: int, max: int) {
    value == value.Floor as real && min as real <= value <= max as real
  }

  class Database {
    var counters: map<(Id, int), nat>
    var invoices: seq<Invoice>
    var schedules: map<Id, Schedule>
    var txs: map<Id, Tx>
    var born: map<Id, Schedule>
    var resumed: set<Id>
    var listed: set<(Id, Schedule, int)>
    var claims: seq<Claim>
    var done: map<Id, Outcome>

    function Now(): Store
      reads this
    {
      Store(counters, invoices, schedules, txs, born, resumed, listed, claims, done)
    }

    constructor ()
      ensures Now() == Init
    {
      counters, invoices, schedules, txs, done := map[], [], map[], map[], map[];
      born, resumed, listed, claims := map[], {}, {}, [];
    }

    method CreateSchedule(id: Id, org: Id, cadence: Cadence, interval: int, startsAt: int)
      modifies this
      ensures Now() == Apply(old(Now()), Event.CreateSchedule(id, org, cadence, interval, startsAt))
      ensures id !in old(born) && 1 <= interval <= 24
              ==> schedules == old(schedules)[id := Schedule(org, cadence, interval, startsAt, true, None, 0)]
      ensures id in old(born) || !(1 <= interval <= 24)
              ==> Now() == old(Now())
    {
      if interval < RECURRENCE_MIN_INTERVAL || interval > RECURRENCE_MAX_INTERVAL || id in born { return; }
      var row := Schedule(org, cadence, interval, startsAt, true, None, 0);
      schedules := schedules[id := row];
      born := born[id := row];
    }

    /** The service call: interval and net terms within bounds, a template that prices, a
        customer of the organisation; then an active schedule due at `startsAt`. */
    method Create(id: Id, org: Id, customerFound: bool, cadence: Cadence, interval: Option<real>,
                  netTermsDays: Option<real>, items: seq<InvoiceTotals.RawLine>, startsAt: int)
      returns (r: Result<Schedule, Refusal>)
      requires id !in born
      modifies this
      ensures r.Ok? <==> && WholeWithin(if interval.Some? then interval.value else 1.0, 1, 24)
                         && WholeWithin(if netTermsDays.Some? then netTermsDays.value else 30.0, 0, 365)
                         && InvoiceTotals.Rejection(items).None? && customerFound
      ensures r == Err(NotFound) ==> !customerFound
      ensures r.Ok? ==> schedules == old(schedules)[id := r.value] && born == old(born)[id := r.value]
                        && r.value.org == org && r.value.cadence == cadence
                        && r.value.interval as real == (if interval.Some? then interval.value else 1.0)
                        && r.value.nextRunAt == startsAt && r.value.active && r.value.generatedCount == 0
      ensures r.Ok? ==> Now() == Apply(old(Now()), Event.CreateSchedule(id, org, cadence, r.value.interval, startsAt))
      ensures r.Err? ==> Now() == old(Now())
    {
      hide InvoiceTotals.Rejection;
      var n := ClampInt(interval.GetOr(1.0), RECURRENCE_MIN_INTERVAL, RECURRENCE_MAX_INTERVAL);
      if n.None? { return Err(Invalid); }
      var terms := ClampInt(netTermsDays.GetOr(30.0), RECURRENCE_MIN_NET_TERMS_DAYS, RECURRENCE_MAX_NET_TERMS_DAYS);
      if terms.None? { return Err(Invalid); }
      var priced := InvoiceTotals.ComputeInvoiceTotals(items);
      if priced.Err? { return Err(Invalid); }
      if !customerFound { return Err(NotFound); }
      CreateSchedule(id, org, cadence, n.value, startsAt);
      r := Ok(schedules[id]);
    }

    /** Pause or resume; resuming a past-due schedule makes it due now. */
    method SetActive(id: Id, active: bool, now: int)
      modifies this
      ensures Now() == Apply(old(Now()), Event.SetActive(id, active, now))
      ensures id in old(schedules) && !ScheduleHeld(old(Now()), id) ==>
                && schedules.Keys == old(schedules).Keys && schedules[id].active == active
                && (active
                    ==> schedules[id].nextRunAt >= now && schedules[id].nextRunAt >= old(schedules)[id].nextRunAt)
                && (!active || old(schedules)[id].nextRunAt >= now
                    ==> schedules[id].nextRunAt == old(schedules)[id].nextRunAt)
                && (active && old(schedules)[id].nextRunAt < now ==> schedules[id].nextRunAt == now)
                && schedules[id] == old(schedules)[id].(active := active, nextRunAt := schedules[id].nextRunAt)
      ensures forall other | other in old(schedules) && other != id ::
                other in schedules && schedules[other] == old(schedules)[other]
    {
      if id !in schedules || ScheduleHeld(Now(), id) { return; }
      var row := schedules[id];
      var nextRunAt := row.nextRunAt;
      if active && nextRunAt < now {
        nextRunAt := now;
        resumed := resumed + {id};
      }
      schedules := schedules[id := row.(active := active, nextRunAt := nextRunAt)];
    }

    method Remove(id: Id)
      modifies this
      ensures Now() == Apply(old(Now()), Event.Remove(id))
      ensures id in old(schedules) && !SchedulePinned(old(Now()), id)
              ==> schedules == old(schedules) - {id} && Unreferenced(old(invoices), invoices, id)
      ensures id !in old(schedules) || SchedulePinned(old(Now()), id) ==> Now() == old(Now())
    {
      hide Detached, SchedulePinned, Unreferenced;
      if id !in schedules || SchedulePinned(Now(), id) { return; }
      DetachedIs(invoices, id);
      schedules := schedules - {id};
      assert Detached(invoices[..0], id) + invoices[0..] == invoices;
      var i := 0;
      ghost var was := invoices;
      while i < |invoices|
        invariant 0 <= i <= |invoices| == |was|
        invariant invoices == Detached(was[..i], id) + was[i..]
        invariant Now() == old(Now()).(schedules := old(Now()).schedules - {id}, invoices := invoices)
      {
        DetachedNext(was, i, id);
        if invoices[i].recurringInvoiceId == Some(id) {
          invoices := invoices[i := invoices[i].(recurringInvoiceId := None)];
        }
        i := i + 1;
      }
      assert was[..i] == was;
    }

    method ListDue(id: Id, now: int)
      modifies this
      ensures Now() == Apply(old(Now()), Event.ListDue(id, now))
      ensures id in schedules && schedules[id].active && schedules[id].nextRunAt <= now
              ==> (id, schedules[id], now) in listed
      ensures forall x | x in listed && x !in old(listed) ::
                x.0 == id && x.2 == now && id in schedules && x.1 == schedules[id] && x.1.active && x.1.nextRunAt <= now
    {
      if id in schedules && schedules[id].active && schedules[id].nextRunAt <= now {
        listed := listed + {(id, schedules[id], now)};
      }
    }

    method Begin(tx: Id, job: Job, now: int)
      modifies this
      ensures Now() == AfterBegin(old(Now()), tx, Tx(job, now, Started, 0))
    {
      if tx !in txs && tx !in done { txs := txs[tx := Tx(job, now, Started, 0)]; }
    }

    /** Counts up the counter row, or inserts it with 1, and locks it. */
    method TakeNumber(tx: Id)
      modifies this
      ensures Now() == Apply(old(Now()), Event.TakeNumber(tx))
    {
      if tx !in txs || txs[tx].stage != Started || CounterHeld(Now(), txs[tx].Key()) { return; }
      var t := txs[tx];
      var value := 1;
      if t.Key() in counters { value := counters[t.Key()] + 1; }
      txs := txs[tx := t.(stage := Numbered, sequence := value)];
    }

    /** The insert of the invoice, whose foreign key fails once the schedule is deleted. */
    method InsertInvoice(tx: Id)
      modifies this
      ensures Now() == Apply(old(Now()), Event.InsertInvoice(tx))
      ensures old(tx in txs && txs[tx].stage == Numbered && txs[tx].job.Recurring? && txs[tx].job.id !in schedules)
              ==> tx !in txs && tx in done && done[tx] == Aborted
    {
      if tx !in txs || txs[tx].stage != Numbered { return; }
      var t := txs[tx];
      if t.job.Recurring? && t.job.id !in schedules {
        txs, done := txs - {tx}, done[tx := Aborted];
      } else {
        txs := txs[tx := t.(stage := Inserted)];
      }
    }

    /** The guarded update of the schedule row: lost when the row has moved on. */
    method ClaimSchedule(tx: Id)
      modifies this
      ensures Now() == Apply(old(Now()), Event.ClaimSchedule(tx))
    {
      if tx !in txs || txs[tx].stage != Inserted || txs[tx].job.Single? { return; }
      var t := txs[tx];
      if t.job.id in schedules && schedules[t.job.id].nextRunAt == t.job.seen.nextRunAt && schedules[t.job.id].active {
        if !ScheduleHeld(Now(), t.job.id) { txs := txs[tx := t.(stage := Claimed)]; }
      } else {
        txs, done := txs - {tx}, done[tx := Raced];
      }
    }

    method Commit(tx: Id)
      modifies this
      ensures Now() == Apply(old(Now()), Event.Commit(tx))
    {
      hide Tx.Key, NewInvoice, NextRunAt;
      if tx !in txs || !txs[tx].ReadyToCommit() { return; }
      var t := txs[tx];
      counters := counters[t.Key() := t.sequence];
      invoices := invoices + [NewInvoice(t)];
      txs, done := txs - {tx}, done[tx := Committed];
      if t.job.Recurring? && t.job.id in schedules { Advance(tx, t); }
    }

    /** The schedule's part of a commit: past `now`, stamped and counted. */
    method Advance(tx: Id, t: Tx)
      requires t.job.Recurring? && t.job.id in schedules
      modifies `schedules, `claims
      ensures var row := old(schedules)[t.job.id];
              schedules == old(schedules)[t.job.id := row.(nextRunAt := NextRunAt(t), lastRunAt := Some(t.now),
                                                           generatedCount := row.generatedCount + 1)]
      ensures claims == old(claims) + [Claim(t.job.id, t.job.seen.nextRunAt, NextRunAt(t), tx)]
    {
      hide Advanced;
      var next := AdvancePastNow(t.job.seen.cadence, t.job.seen.interval, t.job.seen.nextRunAt, t.now);
      var row := schedules[t.job.id];
      schedules := schedules[t.job.id := row.(nextRunAt := next, lastRunAt := Some(t.now),
                                              generatedCount := row.generatedCount + 1)];
      claims := claims + [Claim(t.job.id, t.job.seen.nextRunAt, next, tx)];
    }

    method Abort(tx: Id)
      modifies this
      ensures Now() == Apply(old(Now()), Event.Abort(tx))
    {
      if tx in txs { txs, done := txs - {tx}, done[tx := Aborted]; }
    }

    // ---- Workers ---------------------------------------------------------

    method Do(e: Event)
      modifies this
      ensures Now() == Apply(old(Now()), e)
    {
      match e
      case CreateSchedule(id, org, cadence, interval, startsAt) => CreateSchedule(id, org, cadence, interval, startsAt);
      case SetActive(id, active, now) => SetActive(id, active, now);
      case Remove(id) => Remove(id);
      case ListDue(id, now) => ListDue(id, now);
      case BeginSingle(tx, org, now) => Begin(tx, Single(org), now);
      case BeginRecurring(tx, id, seen, now) =>
        if (id, seen, now) in listed { Begin(tx, Recurring(id, seen), now); }
      case TakeNumber(tx) => TakeNumber(tx);
      case InsertInvoice(tx) => InsertInvoice(tx);
      case ClaimSchedule(tx) => ClaimSchedule(tx);
      case Commit(tx) => Commit(tx);
      case Abort(tx) => Abort(tx);
    }

    /** What everybody else does while a worker is between two statements. */
    method Others(es: seq<Event>)
      modifies this
      ensures Now() == RunFrom(old(Now()), es)
    {
      hide Apply;
      var i := 0;
      while i < |es|
        invariant 0 <= i <= |es|
        invariant Now() == RunFrom(old(Now()), es[..i])
      {
        Do(es[i]);
        i := i + 1;
        assert es[..i][..i - 1] == es[..i - 1];
      }
      assert es[..i] == es;
    }

    /** One attempt to bill a due schedule. A wait that does not end before the next
        statement is due times the transaction out; a statement that fails rolls it back. */
    method GenerateForRecurring(tx: Id, id: Id, seen: Schedule, now: int, course: Course) returns (outcome: Outcome)
      requires Locks(Now()) && Fresh(Now(), tx) && (id, seen, now) in listed && course.Leave(tx)
      modifies this
      ensures Now() == AfterAttempt(old(Now()), tx, id, seen, now, course)
      ensures Locks(Now()) && Ended(Now(), tx, id, seen, now) && done[tx] == outcome
      ensures outcome == OutcomeOf(old(Now()), tx, id, seen, now, course)
    {
      AttemptEnds(Now(), tx, id, seen, now, course);
      AttemptOutcome(Now(), tx, id, seen, now, course);
      hide Apply, Reached, Ended, Locks, Fresh, OutcomeOf;
      Statements(tx, id, seen, now, course);
      Do(Event.Abort(tx));
      outcome := done[tx];
    }

    /** The statements of an attempt up to the one that fails, if any does. */
    method Statements(tx: Id, id: Id, seen: Schedule, now: int, course: Course)
      modifies this
      ensures Now() == Reached(old(Now()), tx, id, seen, now, course)
    {
      hide Apply, RunFrom;
      Do(BeginRecurring(tx, id, seen, now));
      if course.breaksAt == Some(Pricing) { return; }
      Others(course.first);
      if course.breaksAt == Some(Counting) { return; }
      Do(Event.TakeNumber(tx));
      Others(course.second);
      if course.breaksAt == Some(Inserting) { return; }
      Do(Event.InsertInvoice(tx));
      Others(course.third);
      if course.breaksAt == Some(Claiming) { return; }
      Do(Event.ClaimSchedule(tx));
      Others(course.fourth);
      if course.breaksAt == Some(Committing) { return; }
      Do(Event.Commit(tx));
    }

    /** The worker's loop: every due schedule is billed, lost to somebody else, or
        given up, and the counters say how many of each, except that a billing whose
        invoice cannot be read back is counted as failed. */
    method Process(items: seq<Item>, now: int)
      returns (generated: nat, raced: nat, failed: nat, ghost trace: seq<Store>)
      requires Locks(Now()) && Batch(Now(), items, now) && forall i | 0 <= i < |items| :: Fresh(Now(), items[i].tx)
      modifies this
      ensures Locks(Now()) && Attempts(trace, items, now) && trace[0] == old(Now()) && trace[|items|] == Now()
      ensures forall i | 0 <= i < |items| :: Ended(Now(), items[i].tx, items[i].id, items[i].seen, now)
      ensures generated + Unread(done, items) == Tally(done, items, Committed) && raced == Tally(done, items, Raced)
      ensures failed == Tally(done, items, Aborted) + Unread(done, items)
      ensures generated + raced + failed == |items|
      ensures QuietBatch(old(Now()), items)
              ==> generated == |items| && forall i | 0 <= i < |items| ::
                                              items[i].tx in done && done[items[i].tx] == Committed
    {
      hide AfterAttempt, OutcomeOf, Ended, Locks, Fresh, Course.Leave, Tally, Unread, Attempts, StillAsRead;
      NoAttempts([Now()], now);
      generated, raced, failed, trace := 0, 0, 0, [Now()];
      NoneTallied(done, items);
      var i := 0;
      while i < |items|
        invariant 0 <= i <= |items| && Locks(Now()) && Midway(Now(), items, i, now)
        invariant |trace| == i + 1 && trace[0] == old(Now()) && trace[i] == Now()
        invariant Attempts(trace, items[..i], now)
        invariant generated + Unread(done, items[..i]) == Tally(done, items[..i], Committed)
        invariant raced == Tally(done, items[..i], Raced)
        invariant failed == Tally(done, items[..i], Aborted) + Unread(done, items[..i])
        invariant generated + raced + failed == i
        invariant QuietBatch(old(Now()), items)
                  ==> StillAsRead(Now(), items, i) && generated == i
                      && forall k | 0 <= k < i :: items[k].tx in done && done[items[k].tx] == Committed
      {
        var item := items[i];
        BatchStep(Now(), items, i, now);
        if QuietBatch(old(Now()), items) { QuietNext(Now(), items, i, now); }
        var outcome := GenerateForRecurring(item.tx, item.id, item.seen, now, item.course);
        AttemptsNext(trace, items, i, now, Now());
        trace := trace + [Now()];
        if outcome == Committed && !item.readBackFails { generated := generated + 1; }
        else if outcome == Raced { raced := raced + 1; }
        else { failed := failed + 1; }
        i := i + 1;
      }
      assert items[..i] == items;
    }
  }
}
