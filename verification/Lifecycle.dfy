/** The life of invoices under interference: API calls that read a status and write a
    new one later, and overdue sweeps that flip rows in transactions of their own. */
module Lifecycle {
  import opened Options

  type Id = nat

  datatype Status = DRAFT | SENT | OVERDUE | PAID | VOID

  /** The legal transitions. */
  predicate Allowed(from: Status, to: Status) {
    match from
    case DRAFT => to == SENT || to == VOID
    case SENT => to == PAID || to == OVERDUE || to == VOID
    case OVERDUE => to == PAID || to == VOID
    case PAID => false
    case VOID => false
  }

  datatype Invoice = Invoice(status: Status, issuedAt: Option<int>, paidAt: Option<int>, dueDate: int)

  /** A `transition` call that has read the status and not yet written the new one. */
  datatype Call = Call(observed: Status, target: Status, at: int)

  /** An open sweep transaction that has flipped the row and holds its lock. */
  datatype Flip = Flip(sweep: Id, recipients: seq<Id>, now: int)

  /** A committed flip, and a notification it wrote. */
  datatype Mark = Mark(invoice: Id, sweep: Id, recipients: seq<Id>, now: int)
  datatype Notice = Notice(invoice: Id, user: Id, sweep: Id)

  datatype Store = Store(
    rows: map<Id, Invoice>,
    calls: map<Id, Call>,
    flips: map<Id, Flip>,
    notices: seq<Notice>,
    marks: seq<Mark>,                  // record of the committed flips
    history: map<Id, seq<Status>>,     // record of every status an invoice had
    listed: set<(Id, int)>)            // record of the candidates handed to sweeps, with the clock

  const Init := Store(map[], map[], map[], [], [], map[], {})

  // ---- Steps -------------------------------------------------------------

  datatype Action = Issue | MarkPaid | VoidInvoice {
    function Target(): Status {
      match this case Issue => SENT case MarkPaid => PAID case VoidInvoice => VOID
    }
  }

  datatype Event =
    | Create(id: Id, issue: bool, now: int, dueDate: int)
    | Read(id: Id, action: Action, at: int)
    | Write(id: Id)
    | ListOverdue(id: Id, now: int)
    | FlipRow(id: Id, sweep: Id, recipients: seq<Id>, now: int)
    | CommitFlip(id: Id, sweep: Id)
    | AbortFlip(id: Id, sweep: Id)

  function Apply(s: Store, e: Event): Store {
    match e
    case Create(id, issue, now, dueDate) => AfterCreate(s, id, issue, now, dueDate)
    case Read(id, action, at) => AfterRead(s, id, action.Target(), at)
    case Write(id) => AfterWrite(s, id)
    case ListOverdue(id, now) =>
      if id in s.rows && s.rows[id].status == SENT && s.rows[id].dueDate < now
      then s.(listed := s.listed + {(id, now)})
      else s
    case FlipRow(id, sweep, recipients, now) => AfterFlip(s, id, Flip(sweep, recipients, now))
    case CommitFlip(id, sweep) => if id in s.flips && s.flips[id].sweep == sweep then AfterCommit(s, id) else s
    case AbortFlip(id, sweep) => if id in s.flips && s.flips[id].sweep == sweep then s.(flips := s.flips - {id}) else s
  }

  function AfterCreate(s: Store, id: Id, issue: bool, now: int, dueDate: int): Store {
    if id in s.rows then s
    else
      var status := if issue then SENT else DRAFT;
      s.(rows := s.rows[id := Invoice(status, if issue then Some(now) else None, None, dueDate)],
         history := s.history[id := [status]])
  }

  /** The read half of a transition: nothing to do when the status is the target
      already, refused when the transition is illegal. */
  function AfterRead(s: Store, id: Id, target: Status, at: int): Store {
    if id !in s.rows || id in s.calls then s
    else if s.rows[id].status == target || !Allowed(s.rows[id].status, target) then s
    else s.(calls := s.calls[id := Call(s.rows[id].status, target, at)])
  }

  /** The write half: it does not look at the status again, it only waits for the lock. */
  function AfterWrite(s: Store, id: Id): Store {
    if id !in s.calls || id !in s.rows || id !in s.history || id in s.flips then s
    else
      var (call, row) := (s.calls[id], s.rows[id]);
      s.(rows := s.rows[id := row.(status := call.target,
                                   issuedAt := if call.target == SENT then Some(call.at) else row.issuedAt,
                                   paidAt := if call.target == PAID then Some(call.at) else row.paidAt)],
         calls := s.calls - {id},
         history := s.history[id := s.history[id] + [call.target]])
  }

  /** The guarded update of a sweep: only a row that is SENT, by whoever has no rival. */
  function AfterFlip(s: Store, id: Id, flip: Flip): Store {
    if id in s.rows && s.rows[id].status == SENT && id !in s.flips && (id, flip.now) in s.listed
    then s.(flips := s.flips[id := flip])
    else s
  }

  function AfterCommit(s: Store, id: Id): Store
    requires id in s.flips
  {
    if id !in s.rows || id !in s.history then s
    else
      var flip := s.flips[id];
      s.(rows := s.rows[id := s.rows[id].(status := OVERDUE)],
         flips := s.flips - {id},
         history := s.history[id := s.history[id] + [OVERDUE]],
         marks := s.marks + [Mark(id, flip.sweep, flip.recipients, flip.now)],
         notices := s.notices + NoticesFor(id, flip))
  }

  function NoticesFor(id: Id, flip: Flip): (r: seq<Notice>)
    ensures |r| == |flip.recipients|
    ensures forall i | 0 <= i < |r| :: r[i] == Notice(id, flip.recipients[i], flip.sweep)
  {
    seq(|flip.recipients|, i requires 0 <= i < |flip.recipients| => Notice(id, flip.recipients[i], flip.sweep))
  }

  function RunFrom(s: Store, es: seq<Event>): Store {
    if es == [] then s else Apply(RunFrom(s, es[..|es| - 1]), es[|es| - 1])
  }

  function Run(es: seq<Event>): Store { RunFrom(Init, es) }

  /** Steps run one after another. */
  lemma RunNext(s: Store, es: seq<Event>, e: Event)
    ensures RunFrom(s, []) == s && RunFrom(s, es + [e]) == Apply(RunFrom(s, es), e)
  {
    hide Apply;
    assert (es + [e])[..|es|] == es;
  }

  /** A sweep is handed exactly the invoices that are SENT and past due by its clock. */
  lemma ListsOverdue(s: Store, id: Id, now: int)
    ensures var r := Apply(s, ListOverdue(id, now));
            && r.listed
               == s.listed + (if id in s.rows && s.rows[id].status == SENT && now - s.rows[id].dueDate >= 1
                              then {(id, now)} else {})
            && r == s.(listed := r.listed)
  {
  }

  // ---- Status histories --------------------------------------------------

  function Rank(s: Status): nat {
    match s case DRAFT => 0 case SENT => 1 case OVERDUE => 2 case PAID => 3 case VOID => 3
  }

  /** A history starts at DRAFT or SENT and takes only legal transitions. */
  ghost predicate LegalHistory(h: seq<Status>) {
    && h != [] && (h[0] == DRAFT || h[0] == SENT)
    && forall i | 0 < i < |h| :: Allowed(h[i - 1], h[i])
  }

  lemma {:induction false} HistoryClimbs(h: seq<Status>, i: nat, j: nat)
    requires LegalHistory(h) && i <= j < |h|
    ensures Rank(h[i]) + (j - i) <= Rank(h[j])
    decreases j - i
  {
    if i < j {
      HistoryClimbs(h, i, j - 1);
      assert Allowed(h[j - 1], h[j]);
    }
  }

  lemma HistoryShort(h: seq<Status>)
    requires LegalHistory(h)
    ensures |h| <= 4
  {
    HistoryClimbs(h, 0, |h| - 1);
  }

  // ---- What every run keeps ----------------------------------------------

  function MarksOf(marks: seq<Mark>, id: Id): seq<Mark> {
    if marks == [] then []
    else MarksOf(marks[..|marks| - 1], id) + if marks[|marks| - 1].invoice == id then [marks[|marks| - 1]] else []
  }

  function NoticesOf(notices: seq<Notice>, id: Id): seq<Notice> {
    if notices == [] then []
    else NoticesOf(notices[..|notices| - 1], id)
         + if notices[|notices| - 1].invoice == id then [notices[|notices| - 1]] else []
  }

  /** The status, its history and the time stamps agree. */
  ghost predicate RowAgrees(row: Invoice, h: seq<Status>) {
    && LegalHistory(h) && h[|h| - 1] == row.status
    && (row.issuedAt.Some? <==> SENT in h)
    && (row.paidAt.Some? <==> row.status == PAID)
  }

  /** An invoice that passed through OVERDUE has one committed flip and exactly the
      notifications of that flip; any other has none. */
  ghost predicate AlertsAgree(s: Store, id: Id) {
    var (marks, notices) := (MarksOf(s.marks, id), NoticesOf(s.notices, id));
    if id in s.history && OVERDUE in s.history[id]
    then |marks| == 1 && notices == NoticesFor(id, Flip(marks[0].sweep, marks[0].recipients, marks[0].now))
    else marks == [] && notices == []
  }

  /** What holds of one invoice at any time, open calls and open flips included. */
  ghost predicate Tracked(s: Store, id: Id) {
    && (id in s.rows <==> id in s.history)
    && (id in s.rows ==> RowAgrees(s.rows[id], s.history[id]))
    && (id in s.flips ==> id in s.rows && s.rows[id].status == SENT && (id, s.flips[id].now) in s.listed)
    && (id in s.calls ==>
          var c := s.calls[id];
          && id in s.rows && Allowed(c.observed, c.target) && c.target != OVERDUE
          && (s.rows[id].status == c.observed || (c.observed == SENT && s.rows[id].status == OVERDUE)))
    && (forall now: int | (id, now) in s.listed :: id in s.rows && s.rows[id].dueDate < now)
    && AlertsAgree(s, id)
  }

  lemma RowMoves(row: Invoice, h: seq<Status>, next: Status, at: int)
    requires RowAgrees(row, h) && Allowed(row.status, next)
    ensures RowAgrees(row.(status := next,
                           issuedAt := if next == SENT then Some(at) else row.issuedAt,
                           paidAt := if next == PAID then Some(at) else row.paidAt), h + [next])
    ensures OVERDUE in h + [next] <==> OVERDUE in h || next == OVERDUE
    ensures next == OVERDUE || next == SENT ==> next !in h
  {
    forall i | 0 <= i < |h| ensures Rank(h[i]) < Rank(next) { HistoryClimbs(h, i, |h| - 1); }
  }

  lemma Born(issue: bool, now: int, dueDate: int)
    ensures RowAgrees(Invoice(if issue then SENT else DRAFT, if issue then Some(now) else None, None, dueDate),
                      [if issue then SENT else DRAFT])
  {
  }

  lemma MarksAppend(marks: seq<Mark>, m: Mark, id: Id)
    ensures MarksOf(marks + [m], id) == MarksOf(marks, id) + if m.invoice == id then [m] else []
  {
    assert (marks + [m])[..|marks|] == marks;
  }

  lemma {:induction false} NoticesAppend(notices: seq<Notice>, more: seq<Notice>, owner: Id, id: Id)
    requires forall i | 0 <= i < |more| :: more[i].invoice == owner
    ensures NoticesOf(notices + more, id) == NoticesOf(notices, id) + if owner == id then more else []
  {
    var all := notices + more;
    if more == [] {
      assert all == notices;
    } else {
      NoticesAppend(notices, more[..|more| - 1], owner, id);
      assert all[..|all| - 1] == notices + more[..|more| - 1];
    }
  }

  lemma TrackedWrite(s: Store, written: Id, id: Id)
    requires Tracked(s, id)
    ensures Tracked(AfterWrite(s, written), id)
  {
    hide RowAgrees, MarksOf, NoticesOf;
    if id == written && id in s.calls && id in s.rows && id !in s.flips {
      StatusKnown(s.rows[id], s.history[id]);
      RowMoves(s.rows[id], s.history[id], s.calls[id].target, s.calls[id].at);
    }
  }

  lemma StatusKnown(row: Invoice, h: seq<Status>)
    requires RowAgrees(row, h)
    ensures h != [] && row.status == h[|h| - 1]
  {
  }

  lemma TrackedCommit(s: Store, flipped: Id, id: Id)
    requires Tracked(s, id) && flipped in s.flips
    ensures Tracked(AfterCommit(s, flipped), id)
  {
    hide RowAgrees, MarksOf, NoticesOf;
    var flip := s.flips[flipped];
    MarksAppend(s.marks, Mark(flipped, flip.sweep, flip.recipients, flip.now), id);
    NoticesAppend(s.notices, NoticesFor(flipped, flip), flipped, id);
    if id == flipped { RowMoves(s.rows[id], s.history[id], OVERDUE, 0); }
  }

  lemma TrackedStep(s: Store, e: Event, id: Id)
    requires Tracked(s, id)
    ensures Tracked(Apply(s, e), id)
  {
    hide RowAgrees, MarksOf, NoticesOf, AfterWrite, AfterCommit;
    match e
    case Create(_, issue, now, dueDate) => Born(issue, now, dueDate);
    case Write(written) => TrackedWrite(s, written, id);
    case CommitFlip(flipped, sweep) => if flipped in s.flips { TrackedCommit(s, flipped, id); }
    case _ =>
  }

  lemma {:induction false} TrackedAlways(es: seq<Event>, id: Id)
    ensures Tracked(Run(es), id)
  {
    hide Apply;
    if es != [] {
      TrackedAlways(es[..|es| - 1], id);
      TrackedStep(Run(es[..|es| - 1]), es[|es| - 1], id);
    }
  }

  // ---- Main results ------------------------------------------------------

  /** Over any run, one call and any sweeps interleaved, an invoice only moves along
      legal transitions, so it changes status three times at most; the stamps tell
      where it has been. */
  lemma LifecycleIsLegal(es: seq<Event>, id: Id)
    requires id in Run(es).rows
    ensures var s := Run(es);
            && id in s.history && LegalHistory(s.history[id]) && |s.history[id]| <= 4
            && s.history[id][|s.history[id]| - 1] == s.rows[id].status
            && (s.rows[id].status in {SENT, OVERDUE, PAID} ==> s.rows[id].issuedAt.Some?)
            && (s.rows[id].issuedAt.Some? <==> SENT in s.history[id])
            && (s.rows[id].paidAt.Some? <==> s.rows[id].status == PAID)
  {
    hide RunFrom;
    TrackedAlways(es, id);
    var h := Run(es).history[id];
    HistoryShort(h);
    if Run(es).rows[id].status in {SENT, OVERDUE, PAID} { IssuedFirst(h); }
  }

  lemma IssuedFirst(h: seq<Status>)
    requires LegalHistory(h) && h[|h| - 1] in {SENT, OVERDUE, PAID}
    ensures SENT in h
  {
    var n := |h|;
    if h[n - 1] == PAID {
      assert Allowed(h[n - 2], PAID);
      if h[n - 2] == OVERDUE { assert Allowed(h[n - 3], OVERDUE); }
    } else if h[n - 1] == OVERDUE {
      assert Allowed(h[n - 2], OVERDUE);
    }
  }

  /** A single step changes a status only along a legal transition, and a time stamp
      once set is never written again. */
  lemma StepIsLegal(es: seq<Event>, e: Event, id: Id)
    requires id in Run(es).rows
    ensures var (before, after) := (Run(es).rows[id], Apply(Run(es), e).rows);
            && id in after
            && (after[id].status == before.status || Allowed(before.status, after[id].status))
            && (before.issuedAt.Some? ==> after[id].issuedAt == before.issuedAt)
            && (before.paidAt.Some? ==> after[id].paidAt == before.paidAt)
            && after[id].dueDate == before.dueDate
  {
    hide RunFrom, MarksOf, NoticesOf;
    var s := Run(es);
    TrackedAlways(es, id);
    if id in s.calls {
      var h := s.history[id];
      if SENT in h {
        var i :| 0 <= i < |h| && h[i] == SENT;
        HistoryClimbs(h, i, |h| - 1);
      }
    }
  }

  /** A whole call that nothing interrupts: issuing makes a DRAFT SENT, paying makes a SENT or
      OVERDUE invoice PAID, voiding ends any of the three; the stamp is the call's clock. In
      every other status the call changes nothing. */
  lemma CallLands(s: Store, id: Id, action: Action, at: int)
    requires id in s.rows && id in s.history && id !in s.calls && id !in s.flips
    ensures var (row, r) := (s.rows[id], Apply(Apply(s, Read(id, action, at)), Write(id)));
            match action
            case Issue =>
              r.rows[id] == if row.status == DRAFT then row.(status := SENT, issuedAt := Some(at)) else row
            case MarkPaid =>
              r.rows[id] == if row.status in {SENT, OVERDUE} then row.(status := PAID, paidAt := Some(at)) else row
            case VoidInvoice =>
              r.rows[id] == if row.status in {DRAFT, SENT, OVERDUE} then row.(status := VOID) else row
    ensures var r := Apply(Apply(s, Read(id, action, at)), Write(id));
            && r.calls == s.calls && r.rows == s.rows[id := r.rows[id]] && r.marks == s.marks && r.notices == s.notices
            && r.history[id] == s.history[id] + if r.rows[id] == s.rows[id] then [] else [r.rows[id].status]
  {
    assert s.calls[id := Call(s.rows[id].status, action.Target(), at)] - {id} == s.calls;
  }

  /** An invoice is born a draft without stamps, or issued there and then. */
  lemma BornAs(s: Store, id: Id, now: int, dueDate: int)
    requires id !in s.rows
    ensures Apply(s, Create(id, false, now, dueDate)).rows == s.rows[id := Invoice(DRAFT, None, None, dueDate)]
    ensures Apply(s, Create(id, true, now, dueDate)).rows == s.rows[id := Invoice(SENT, Some(now), None, dueDate)]
  {
  }

  /** An invoice that passed through OVERDUE was past due by its sweep's clock and has
      that sweep's notifications, one a recipient; any other has none. */
  lemma AlertedOnce(es: seq<Event>, id: Id)
    ensures var s := Run(es); var notices := NoticesOf(s.notices, id);
            if id in s.history && OVERDUE in s.history[id]
            then var marks := MarksOf(s.marks, id);
                 |marks| == 1 && notices == NoticesFor(id, Flip(marks[0].sweep, marks[0].recipients, marks[0].now))
            else notices == [] && MarksOf(s.marks, id) == []
  {
    hide RunFrom;
    TrackedAlways(es, id);
  }

  /** A flip commits only on an invoice that is SENT and past due. */
  lemma FlipIsDue(es: seq<Event>, e: Event)
    requires |Apply(Run(es), e).marks| > |Run(es).marks|
    ensures e.CommitFlip? && e.id in Run(es).rows && e.id in Run(es).flips
    ensures Run(es).rows[e.id].status == SENT && Run(es).rows[e.id].dueDate < Run(es).flips[e.id].now
    ensures Apply(Run(es), e).rows[e.id].status == OVERDUE
  {
    hide RunFrom, MarksOf, NoticesOf, RowAgrees;
    TrackedAlways(es, e.id);
  }
}
