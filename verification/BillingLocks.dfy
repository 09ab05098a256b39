/** The row locks of open billing transactions: they exclude each other, nobody
    waits in a circle, and every open transaction can be finished. */
module BillingLocks {
  import opened Calendar
  import opened Billing

  // ---- Exclusion ---------------------------------------------------------

  /** At most one transaction holds a counter row, and at most one a schedule row. */
  ghost predicate OneHolder(s: Store) {
    && (forall a, b | a in s.txs && b in s.txs && s.txs[a].HoldsCounter() && s.txs[b].HoldsCounter()
                      && s.txs[a].Key() == s.txs[b].Key() :: a == b)
    && (forall a, b | a in s.txs && b in s.txs && s.txs[a].stage == Claimed && s.txs[b].stage == Claimed
                      && s.txs[a].job.Recurring? && s.txs[b].job.Recurring?
                      && s.txs[a].job.id == s.txs[b].job.id :: a == b)
  }

  /** A counter row under a transaction is one behind the number it took; a schedule row
      with an uncommitted invoice is still there, and one under a transaction is still as
      the worker saw it, and active. */
  ghost predicate HeldRows(s: Store) {
    forall a | a in s.txs ::
      var t := s.txs[a];
      && (t.HoldsCounter() ==> t.sequence == CounterOf(s, t.Key()) + 1)
      && (t.stage == Inserted && t.job.Recurring? ==> t.job.id in s.schedules)
      && (t.stage == Claimed ==> t.job.Recurring? && RowMatches(s, t.job))
  }

  ghost predicate Locks(s: Store) { s.schedules.Keys <= s.born.Keys && OneHolder(s) && HeldRows(s) }

  lemma LocksAfterTakeNumber(s: Store, tx: Id)
    requires Locks(s)
    ensures Locks(AfterTakeNumber(s, tx))
  {
    hide CivilOf;
  }

  lemma LocksAfterRollback(s: Store, tx: Id, outcome: Outcome)
    requires Locks(s)
    ensures Locks(Rollback(s, tx, outcome))
  {
    hide Tx.Key;
  }

  lemma LocksAfterInsert(s: Store, tx: Id)
    requires Locks(s)
    ensures Locks(AfterInsert(s, tx))
  {
    if tx in s.txs && s.txs[tx].stage == Numbered {
      if s.txs[tx].job.Recurring? && s.txs[tx].job.id !in s.schedules {
        hide Locks;
        LocksAfterRollback(s, tx, Aborted);
      } else {
        LocksInserted(s, tx);
      }
    }
  }

  lemma LocksInserted(s: Store, tx: Id)
    requires Locks(s) && tx in s.txs && s.txs[tx].stage == Numbered
    requires s.txs[tx].job.Recurring? ==> s.txs[tx].job.id in s.schedules
    ensures Locks(s.(txs := s.txs[tx := s.txs[tx].(stage := Inserted)]))
  {
    hide CivilOf;
  }

  lemma LocksAfterClaim(s: Store, tx: Id)
    requires Locks(s)
    ensures Locks(AfterClaim(s, tx))
  {
    hide CivilOf;
  }

  lemma LocksAfterCommit(s: Store, tx: Id)
    requires Locks(s)
    ensures Locks(AfterCommit(s, tx))
  {
    hide Tx.Key, NewInvoice, NextRunAt;
  }

  lemma LocksAfterSetActive(s: Store, id: Id, active: bool, now: int)
    requires Locks(s)
    ensures Locks(AfterSetActive(s, id, active, now))
  {
    hide Tx.Key;
  }

  lemma LocksAfterRemove(s: Store, id: Id)
    requires Locks(s)
    ensures Locks(AfterRemove(s, id))
  {
    hide Tx.Key, Detached;
  }

  lemma LocksAfterBegin(s: Store, tx: Id, t: Tx)
    requires Locks(s) && t.stage == Started
    ensures Locks(AfterBegin(s, tx, t))
  {
    hide Tx.Key;
  }

  lemma LocksStep(s: Store, e: Event)
    requires Locks(s)
    ensures Locks(Apply(s, e))
  {
    hide AfterTakeNumber, AfterInsert, AfterClaim, AfterCommit, AfterSetActive, AfterRemove, AfterBegin, Tx.Key;
    match e
    case SetActive(id, active, now) => LocksAfterSetActive(s, id, active, now);
    case Remove(id) => LocksAfterRemove(s, id);
    case BeginSingle(tx, org, now) => LocksAfterBegin(s, tx, Tx(Single(org), now, Started, 0));
    case BeginRecurring(tx, id, seen, now) => LocksAfterBegin(s, tx, Tx(Recurring(id, seen), now, Started, 0));
    case TakeNumber(tx) => LocksAfterTakeNumber(s, tx);
    case InsertInvoice(tx) => LocksAfterInsert(s, tx);
    case ClaimSchedule(tx) => LocksAfterClaim(s, tx);
    case Commit(tx) => LocksAfterCommit(s, tx);
    case _ =>
  }

  lemma {:induction false} LocksHold(es: seq<Event>)
    ensures Locks(Run(es))
  {
    hide Apply;
    if es != [] {
      LocksHold(es[..|es| - 1]);
      LocksStep(Run(es[..|es| - 1]), es[|es| - 1]);
    }
  }

  // ---- Waiting -----------------------------------------------------------

  /** `a` cannot take its next row because `b` has it. */
  predicate WaitsFor(s: Store, a: Id, b: Id) {
    && a in s.txs && b in s.txs && a != b
    && var (t, u) := (s.txs[a], s.txs[b]);
       || (t.stage == Started && u.HoldsCounter() && u.Key() == t.Key())
       || (t.stage == Inserted && t.job.Recurring? && RowMatches(s, t.job) && u.HoldsSchedule(t.job.id))
  }

  /** How many rows it has locked. */
  function Rank(t: Tx): nat {
    match t.stage case Started => 0 case Numbered => 1 case Inserted => 1 case Claimed => 2
  }

  function RankOf(s: Store, tx: Id): nat { if tx in s.txs then Rank(s.txs[tx]) else 0 }

  /** A transaction only waits for one that is further on: the counter row comes
      before the schedule row. */
  lemma WaitsUpward(s: Store, a: Id, b: Id)
    requires WaitsFor(s, a, b)
    ensures a in s.txs && b in s.txs && RankOf(s, a) < RankOf(s, b) <= 2
  {
  }

  /** So following who waits for whom never comes back to where it started, and
      takes at most two steps. */
  lemma {:induction false} NoDeadlock(s: Store, path: seq<Id>)
    requires |path| >= 2
    requires forall i | 0 < i < |path| :: WaitsFor(s, path[i - 1], path[i])
    ensures |path| - 1 <= RankOf(s, path[|path| - 1]) - RankOf(s, path[0]) <= 2
    ensures path[0] != path[|path| - 1]
  {
    hide WaitsFor, RankOf;
    var n := |path|;
    WaitsUpward(s, path[n - 2], path[n - 1]);
    if n > 2 { NoDeadlock(s, path[..n - 1]); }
  }

  // ---- Finishing ---------------------------------------------------------

  /** Only statements and commits of these transactions: nobody aborts, nothing else happens. */
  ghost predicate Finishing(es: seq<Event>, txs: set<Id>) {
    forall e | e in es :: (e.TakeNumber? || e.InsertInvoice? || e.ClaimSchedule? || e.Commit?) && e.tx in txs
  }

  /** The next step of transaction `tx`. */
  function NextEvent(s: Store, tx: Id): Event
    requires tx in s.txs
  {
    var t := s.txs[tx];
    if t.ReadyToCommit() then Commit(tx)
    else match t.stage
      case Started => TakeNumber(tx)
      case Numbered => InsertInvoice(tx)
      case _ => ClaimSchedule(tx)
  }

  /** How many statements it has behind it. */
  function Progress(t: Tx): nat {
    match t.stage case Started => 0 case Numbered => 1 case Inserted => 2 case Claimed => 3
  }

  /** Transaction `tx` has ended, or moved on, and no other has changed. */
  predicate Moved(s: Store, r: Store, tx: Id)
    requires tx in s.txs
  {
    || r.txs == s.txs - {tx}
    || (tx in r.txs && Progress(r.txs[tx]) > Progress(s.txs[tx]) && Rank(r.txs[tx]) >= Rank(s.txs[tx])
        && r.txs == s.txs[tx := r.txs[tx]])
  }

  lemma CounterFree(s: Store, tx: Id)
    requires tx in s.txs && s.txs[tx].stage == Started && (forall b :: !WaitsFor(s, tx, b))
    ensures !CounterHeld(s, s.txs[tx].Key())
  {
    hide Tx.Key;
    assert forall b | b in s.txs && s.txs[b].HoldsCounter() && s.txs[b].Key() == s.txs[tx].Key() :: WaitsFor(s, tx, b);
  }

  lemma ScheduleFree(s: Store, tx: Id)
    requires tx in s.txs && s.txs[tx].stage == Inserted && s.txs[tx].job.Recurring? && RowMatches(s, s.txs[tx].job)
    requires forall b :: !WaitsFor(s, tx, b)
    ensures !ScheduleHeld(s, s.txs[tx].job.id)
  {
    hide Tx.Key, RowMatches;
    assert forall b | b in s.txs && s.txs[b].HoldsSchedule(s.txs[tx].job.id) :: WaitsFor(s, tx, b);
  }

  lemma CommitMoves(s: Store, tx: Id)
    requires tx in s.txs && s.txs[tx].ReadyToCommit()
    ensures Moved(s, Apply(s, Commit(tx)), tx)
  {
    hide Tx.Key, NextRunAt, NewInvoice, Progress, Rank;
  }

  lemma StatementMoves(s: Store, tx: Id)
    requires tx in s.txs && !s.txs[tx].ReadyToCommit() && (s.txs[tx].stage == Claimed ==> s.txs[tx].job.Recurring?)
    requires s.txs[tx].stage == Started ==> !CounterHeld(s, s.txs[tx].Key())
    requires s.txs[tx].stage == Inserted && s.txs[tx].job.Recurring? && RowMatches(s, s.txs[tx].job)
             ==> !ScheduleHeld(s, s.txs[tx].job.id)
    ensures Moved(s, Apply(s, NextEvent(s, tx)), tx)
  {
    hide CounterHeld, ScheduleHeld, RowMatches, Tx.Key;
  }

  /** A transaction that waits for nobody takes its step: it ends or moves on a stage. */
  lemma UnblockedMoves(s: Store, tx: Id)
    requires Locks(s) && tx in s.txs && (forall b :: !WaitsFor(s, tx, b))
    ensures Moved(s, Apply(s, NextEvent(s, tx)), tx)
  {
    var t := s.txs[tx];
    assert t.stage == Claimed ==> t.job.Recurring?;
    hide Apply, Locks, WaitsFor, CounterHeld, ScheduleHeld, RowMatches, Moved;
    if t.ReadyToCommit() {
      CommitMoves(s, tx);
    } else {
      if t.stage == Started { CounterFree(s, tx); }
      if t.stage == Inserted && t.job.Recurring? && RowMatches(s, t.job) { ScheduleFree(s, tx); }
      StatementMoves(s, tx);
    }
  }

  lemma {:induction false} RunsCompose(s: Store, es: seq<Event>, fs: seq<Event>)
    ensures RunFrom(s, es + fs) == RunFrom(RunFrom(s, es), fs)
  {
    hide Apply;
    if fs == [] {
      assert es + fs == es;
    } else {
      RunsCompose(s, es, fs[..|fs| - 1]);
      assert (es + fs)[..|es + fs| - 1] == es + fs[..|fs| - 1];
    }
  }

  lemma {:induction false} FinishFurthest(s: Store, tx: Id) returns (es: seq<Event>)
    requires Locks(s) && tx in s.txs
    requires forall b | b in s.txs :: Rank(s.txs[b]) <= Rank(s.txs[tx])
    ensures Finishing(es, {tx}) && Locks(RunFrom(s, es)) && RunFrom(s, es).txs == s.txs - {tx}
    decreases 3 - Progress(s.txs[tx])
  {
    hide Apply, Locks, WaitsFor;
    var e := NextEvent(s, tx);
    forall b ensures !WaitsFor(s, tx, b) {
      if WaitsFor(s, tx, b) { WaitsUpward(s, tx, b); }
    }
    UnblockedMoves(s, tx);
    LocksStep(s, e);
    var r := Apply(s, e);
    OneStep(s, e);
    if r.txs == s.txs - {tx} {
      es := [e];
    } else {
      var fs := FinishFurthest(r, tx);
      RunsCompose(s, [e], fs);
      es := [e] + fs;
    }
  }

  lemma OneStep(s: Store, e: Event)
    ensures RunFrom(s, [e]) == Apply(s, e)
  {
    hide Apply;
    assert [e][..0] == [];
  }

  lemma Furthest(s: Store) returns (tx: Id)
    requires s.txs != map[]
    ensures tx in s.txs && forall b | b in s.txs :: Rank(s.txs[b]) <= Rank(s.txs[tx])
  {
    if b :| b in s.txs && s.txs[b].stage == Claimed {
      tx := b;
    } else if b :| b in s.txs && s.txs[b].stage != Started {
      tx := b;
    } else {
      tx :| tx in s.txs;
    }
  }

  lemma {:induction false} Drain(s: Store) returns (es: seq<Event>)
    requires Locks(s)
    ensures Finishing(es, s.txs.Keys) && RunFrom(s, es).txs == map[]
    decreases |s.txs|
  {
    hide Apply, Locks, WaitsFor;
    if s.txs == map[] {
      es := [];
    } else {
      var tx := Furthest(s);
      var first := FinishFurthest(s, tx);
      var rest := Drain(RunFrom(s, first));
      assert {tx} <= s.txs.Keys && RunFrom(s, first).txs.Keys <= s.txs.Keys;
      RunsCompose(s, first, rest);
      es := first + rest;
    }
  }

  /** After any run, the open transactions can all be brought to an end, commit or
      lost race, by their own statements alone and without aborting a single one. */
  lemma EveryoneCanFinish(es: seq<Event>)
    ensures exists fs :: Finishing(fs, Run(es).txs.Keys) && Run(es + fs).txs == map[]
  {
    LocksHold(es);
    var fs := Drain(Run(es));
    RunsCompose(Init, es, fs);
  }
}
