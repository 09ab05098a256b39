/** The invoice tables as the services change them, and the overdue worker that sweeps
    them while API calls and other sweeps go on. Each method is one step of `Lifecycle`. */
module OverdueSweep {
  import opened Lifecycle
  import opened Options

  // ---- What others cannot touch ------------------------------------------

  /** The step is not one of sweep `sweep`'s transactions. */
  predicate Leaves(e: Event, sweep: Id) {
    !((e.FlipRow? || e.CommitFlip? || e.AbortFlip?) && e.sweep == sweep)
  }

  ghost predicate AllLeave(es: seq<Event>, sweep: Id) { forall e | e in es :: Leaves(e, sweep) }

  /** The flips and the notifications of one sweep, in order. */
  function MarksBy(marks: seq<Mark>, sweep: Id): seq<Mark> {
    if marks == [] then []
    else MarksBy(marks[..|marks| - 1], sweep) + if marks[|marks| - 1].sweep == sweep then [marks[|marks| - 1]] else []
  }

  function NoticesBy(notices: seq<Notice>, sweep: Id): seq<Notice> {
    if notices == [] then []
    else NoticesBy(notices[..|notices| - 1], sweep)
         + if notices[|notices| - 1].sweep == sweep then [notices[|notices| - 1]] else []
  }

  lemma MarksNext(marks: seq<Mark>, m: Mark, sweep: Id)
    ensures MarksBy(marks + [m], sweep) == MarksBy(marks, sweep) + if m.sweep == sweep then [m] else []
  {
    assert (marks + [m])[..|marks|] == marks;
  }

  lemma {:induction false} NoticesNext(notices: seq<Notice>, more: seq<Notice>, owner: Id, sweep: Id)
    requires forall i | 0 <= i < |more| :: more[i].sweep == owner
    ensures NoticesBy(notices + more, sweep) == NoticesBy(notices, sweep) + if owner == sweep then more else []
  {
    var all := notices + more;
    if more == [] {
      assert all == notices;
    } else {
      NoticesNext(notices, more[..|more| - 1], owner, sweep);
      assert all[..|all| - 1] == notices + more[..|more| - 1];
    }
  }

  /** Sweep `sweep` holds a flip of row `id` that it has not committed. */
  predicate Holds(s: Store, id: Id, sweep: Id) { id in s.flips && s.flips[id].sweep == sweep }

  /** `r` agrees with `s` on what sweep `sweep` has done and what it still holds. */
  ghost predicate SameFor(s: Store, r: Store, sweep: Id) {
    && MarksBy(s.marks, sweep) == MarksBy(r.marks, sweep)
    && NoticesBy(s.notices, sweep) == NoticesBy(r.notices, sweep)
    && (forall id :: Holds(s, id, sweep) <==> Holds(r, id, sweep))
    && (forall id | Holds(s, id, sweep) :: s.flips[id] == r.flips[id])
    && s.listed <= r.listed
  }

  lemma StepLeaves(s: Store, e: Event, sweep: Id)
    requires Leaves(e, sweep)
    ensures SameFor(s, Apply(s, e), sweep)
  {
    hide MarksBy, NoticesBy;
    if e.CommitFlip? && e.id in s.flips {
      var flip := s.flips[e.id];
      MarksNext(s.marks, Mark(e.id, flip.sweep, flip.recipients, flip.now), sweep);
      NoticesNext(s.notices, NoticesFor(e.id, flip), flip.sweep, sweep);
    }
  }

  lemma {:induction false} RunLeaves(s: Store, es: seq<Event>, sweep: Id)
    requires AllLeave(es, sweep)
    ensures SameFor(s, RunFrom(s, es), sweep)
  {
    hide Apply, MarksBy, NoticesBy;
    if es != [] {
      RunLeaves(s, es[..|es| - 1], sweep);
      StepLeaves(RunFrom(s, es[..|es| - 1]), es[|es| - 1], sweep);
    }
  }

  ghost predicate Sound(s: Store) { forall id :: Tracked(s, id) }

  lemma SoundStep(s: Store, e: Event)
    requires Sound(s)
    ensures Sound(Apply(s, e))
  {
    hide Apply, Tracked;
    forall id ensures Tracked(Apply(s, e), id) { TrackedStep(s, e, id); }
  }

  lemma {:induction false} SoundAlong(s: Store, es: seq<Event>)
    requires Sound(s)
    ensures Sound(RunFrom(s, es))
  {
    hide Apply, Sound;
    if es != [] {
      SoundAlong(s, es[..|es| - 1]);
      SoundStep(RunFrom(s, es[..|es| - 1]), es[|es| - 1]);
    }
  }

  /** What a sweep's own steps do to its tallies. */
  lemma FlipTallies(s: Store, id: Id, sweep: Id, recipients: seq<Id>, now: int)
    requires forall i :: !Holds(s, i, sweep)
    ensures var r := Apply(s, FlipRow(id, sweep, recipients, now));
            && r.marks == s.marks && r.notices == s.notices && r.listed == s.listed
            && (forall i | Holds(r, i, sweep) :: i == id && r.flips[i] == Flip(sweep, recipients, now))
  {
    var r := Apply(s, FlipRow(id, sweep, recipients, now));
    forall i | Holds(r, i, sweep) ensures i == id && r.flips[i] == Flip(sweep, recipients, now) {
      assert !Holds(s, i, sweep);
    }
  }

  lemma CommitTallies(s: Store, id: Id, sweep: Id)
    requires Sound(s) && (forall i | Holds(s, i, sweep) :: i == id)
    ensures var r := Apply(s, CommitFlip(id, sweep));
            && MarksBy(r.marks, sweep)
               == MarksBy(s.marks, sweep)
                  + (if Holds(s, id, sweep) then [Mark(id, sweep, s.flips[id].recipients, s.flips[id].now)] else [])
            && NoticesBy(r.notices, sweep)
               == NoticesBy(s.notices, sweep) + (if Holds(s, id, sweep) then NoticesFor(id, s.flips[id]) else [])
            && (Holds(s, id, sweep) ==> id in r.rows && r.rows[id].status == OVERDUE)
            && s.listed <= r.listed && forall i :: !Holds(r, i, sweep)
  {
    hide MarksBy, NoticesBy, RowAgrees, AlertsAgree;
    assert Tracked(s, id);
    if Holds(s, id, sweep) {
      var flip := s.flips[id];
      MarksNext(s.marks, Mark(id, flip.sweep, flip.recipients, flip.now), sweep);
      NoticesNext(s.notices, NoticesFor(id, flip), flip.sweep, sweep);
    }
    forall i ensures !Holds(Apply(s, CommitFlip(id, sweep)), i, sweep) { assert Holds(s, i, sweep) ==> i == id; }
  }

  lemma AbortTallies(s: Store, id: Id, sweep: Id)
    requires forall i | Holds(s, i, sweep) :: i == id
    ensures var r := Apply(s, AbortFlip(id, sweep));
            r.marks == s.marks && r.notices == s.notices && r.listed == s.listed && forall i :: !Holds(r, i, sweep)
  {
    forall i ensures !Holds(Apply(s, AbortFlip(id, sweep)), i, sweep) { assert Holds(s, i, sweep) ==> i == id; }
  }

  // ---- The tables --------------------------------------------------------

  /** An invoice found past due: its organisation's members as a lookup would find them
      (or fail), whether its transaction fails, and what others do before and during it. */
  datatype Candidate = Candidate(
    id: Id, org: Id, lookup: Option<seq<Id>>, fails: bool, before: seq<Event>, during: seq<Event>)

  /** One candidate's transaction: the guarded flip, then the commit or the rollback. */
  function Flipping(s: Store, c: Candidate, sweep: Id, recipients: seq<Id>, now: int): Store {
    RunFrom(Apply(RunFrom(s, c.before), FlipRow(c.id, sweep, recipients, now)), c.during)
  }

  function AfterTry(s: Store, c: Candidate, sweep: Id, recipients: seq<Id>, now: int): Store {
    var s' := Flipping(s, c, sweep, recipients, now);
    Apply(s', if c.fails then AbortFlip(c.id, sweep) else CommitFlip(c.id, sweep))
  }

  predicate Claimed(s: Store, c: Candidate, sweep: Id, recipients: seq<Id>, now: int) {
    !c.fails && Holds(Flipping(s, c, sweep, recipients, now), c.id, sweep)
  }

  /** The sweep is between two candidates: it holds nothing. */
  ghost predicate Idle(s: Store, sweep: Id) { Sound(s) && forall id :: !Holds(s, id, sweep) }

  /** Between two candidates a try adds to the sweep's tallies exactly what it claimed. */
  lemma TryTallies(s: Store, c: Candidate, sweep: Id, recipients: seq<Id>, now: int)
    requires Idle(s, sweep) && AllLeave(c.before, sweep) && AllLeave(c.during, sweep)
    ensures var r := AfterTry(s, c, sweep, recipients, now);
            var claimed := Claimed(s, c, sweep, recipients, now);
            && Idle(r, sweep) && s.listed <= r.listed
            && MarksBy(r.marks, sweep)
               == MarksBy(s.marks, sweep) + (if claimed then [Mark(c.id, sweep, recipients, now)] else [])
            && NoticesBy(r.notices, sweep)
               == NoticesBy(s.notices, sweep)
                  + (if claimed then NoticesFor(c.id, Flip(sweep, recipients, now)) else [])
            && (claimed ==> c.id in r.rows && r.rows[c.id].status == OVERDUE)
  {
    hide Apply, RunFrom, Sound, MarksBy, NoticesBy;
    var a := RunFrom(s, c.before);
    var b := Apply(a, FlipRow(c.id, sweep, recipients, now));
    var d := RunFrom(b, c.during);
    SoundAlong(s, c.before);
    RunLeaves(s, c.before, sweep);
    FlipTallies(a, c.id, sweep, recipients, now);
    SoundStep(a, FlipRow(c.id, sweep, recipients, now));
    SoundAlong(b, c.during);
    RunLeaves(b, c.during, sweep);
    AbortTallies(d, c.id, sweep);
    CommitTallies(d, c.id, sweep);
    SoundStep(d, AbortFlip(c.id, sweep));
    SoundStep(d, CommitFlip(c.id, sweep));
  }

  /** A candidate is claimed exactly when its transaction does not fail and its row is
      still SENT, and in nobody's hands, when its turn comes. */
  lemma ClaimedIff(s: Store, c: Candidate, sweep: Id, recipients: seq<Id>, now: int)
    requires Idle(s, sweep) && (c.id, now) in s.listed && AllLeave(c.before, sweep) && AllLeave(c.during, sweep)
    ensures var a := RunFrom(s, c.before);
            Claimed(s, c, sweep, recipients, now)
            <==> !c.fails && c.id in a.rows && a.rows[c.id].status == SENT && c.id !in a.flips
  {
    hide RunFrom, Sound, MarksBy, NoticesBy;
    var a := RunFrom(s, c.before);
    RunLeaves(s, c.before, sweep);
    assert !Holds(a, c.id, sweep) by { assert !Holds(s, c.id, sweep); }
    RunLeaves(Apply(a, FlipRow(c.id, sweep, recipients, now)), c.during, sweep);
  }

  // ---- A whole sweep -----------------------------------------------------

  /** `recipients` is what the first lookup that worked found for the organisation. */
  ghost predicate Found(cs: seq<Candidate>, org: Id, recipients: seq<Id>) {
    exists j | 0 <= j < |cs| ::
      && cs[j].org == org && cs[j].lookup == Some(recipients)
      && forall k | 0 <= k < j && cs[k].org == org :: cs[k].lookup.None?
  }

  /** No lookup worked for it. */
  ghost predicate NotFound(cs: seq<Candidate>, org: Id) { forall c | c in cs && c.org == org :: c.lookup.None? }

  /** What is known of the recipients at the turn of candidate `i`: its own lookup or an
      earlier one of its organisation, whichever was the first to work. */
  ghost predicate Known(cs: seq<Candidate>, i: nat, recipients: seq<Id>)
    requires i < |cs|
  {
    Found(cs[..i + 1], cs[i].org, recipients)
  }

  ghost predicate Unknown(cs: seq<Candidate>, i: nat)
    requires i < |cs|
  {
    NotFound(cs[..i + 1], cs[i].org)
  }

  lemma FoundOnce(cs: seq<Candidate>, org: Id, r: seq<Id>, r': seq<Id>)
    requires Found(cs, org, r) && Found(cs, org, r')
    ensures r == r' && !NotFound(cs, org)
  {
    var i :| 0 <= i < |cs| && cs[i].org == org && cs[i].lookup == Some(r)
             && forall k | 0 <= k < i && cs[k].org == org :: cs[k].lookup.None?;
    var j :| 0 <= j < |cs| && cs[j].org == org && cs[j].lookup == Some(r')
             && forall k | 0 <= k < j && cs[k].org == org :: cs[k].lookup.None?;
    assert i == j;
  }

  lemma {:induction false} Finder(cs: seq<Candidate>, org: Id) returns (r: seq<Id>)
    requires !NotFound(cs, org)
    ensures Found(cs, org, r)
  {
    var n := |cs| - 1;
    assert cs[..n + 1] == cs;
    if NotFound(cs[..n], org) {
      FoundNext(cs, n, org, []);
      r := cs[n].lookup.value;
    } else {
      r := Finder(cs[..n], org);
    }
    FoundNext(cs, n, org, r);
  }

  /** One more candidate: a lookup that worked stays the first, and the first to work is it. */
  lemma FoundNext(cs: seq<Candidate>, i: nat, org: Id, r: seq<Id>)
    requires i < |cs|
    ensures Found(cs[..i], org, r) ==> Found(cs[..i + 1], org, r)
    ensures NotFound(cs[..i], org) && cs[i].org == org && cs[i].lookup == Some(r) ==> Found(cs[..i + 1], org, r)
    ensures NotFound(cs[..i], org) && (cs[i].org == org ==> cs[i].lookup.None?) ==> NotFound(cs[..i + 1], org)
  {
    if Found(cs[..i], org, r) {
      var j :| 0 <= j < i && cs[j].org == org && cs[j].lookup == Some(r)
               && forall k | 0 <= k < j && cs[k].org == org :: cs[..i][k].lookup.None?;
      assert forall k | 0 <= k < j :: cs[..i + 1][k] == cs[..i][k];
      assert cs[..i + 1][j] == cs[j];
    }
    if NotFound(cs[..i], org) && cs[i].org == org && cs[i].lookup == Some(r) {
      forall k | 0 <= k < i && cs[k].org == org ensures cs[k].lookup.None? { assert cs[k] in cs[..i]; }
      assert cs[..i + 1][i] == cs[i];
    }
    assert forall c | c in cs[..i + 1] :: c in cs[..i] || c == cs[i];
  }

  /** The turn of a candidate whose recipients are known. It is flipped exactly when its
      transaction does not fail and its row is SENT and free when its turn comes; then the
      sweep has that one mark more and one notification more for each recipient, else
      neither. With nobody else about, no other row changes. */
  ghost predicate Taken(s: Store, r: Store, c: Candidate, sweep: Id, recipients: seq<Id>, now: int) {
    var a := RunFrom(s, c.before);
    var flips := !c.fails && c.id in a.rows && a.rows[c.id].status == SENT && c.id !in a.flips;
    && MarksBy(r.marks, sweep) == MarksBy(s.marks, sweep) + (if flips then [Mark(c.id, sweep, recipients, now)] else [])
    && NoticesBy(r.notices, sweep)
       == NoticesBy(s.notices, sweep) + (if flips then seq(|recipients|, i requires 0 <= i < |recipients| =>
                                                             Notice(c.id, recipients[i], sweep)) else [])
    && (flips ==> c.id in r.rows && r.rows[c.id].status == OVERDUE)
    && (c.before == [] && c.during == [] ==>
          r.flips == s.flips && r.rows == if flips then s.rows[c.id := a.rows[c.id].(status := OVERDUE)] else s.rows)
  }

  /** The states between the turns of a sweep. Every candidate has its turn, in order; one
      whose recipients are not known is passed over. */
  ghost predicate Turns(trace: seq<Store>, cs: seq<Candidate>, sweep: Id, now: int) {
    && |trace| == |cs| + 1
    && forall i | 0 <= i < |cs| ::
         && (Unknown(cs, i) ==> trace[i + 1] == trace[i])
         && forall recipients | Known(cs, i, recipients) ::
              Taken(trace[i], trace[i + 1], cs[i], sweep, recipients, now)
  }

  lemma TryTakes(s: Store, c: Candidate, sweep: Id, recipients: seq<Id>, now: int)
    requires Idle(s, sweep) && (c.id, now) in s.listed && AllLeave(c.before, sweep) && AllLeave(c.during, sweep)
    ensures Taken(s, AfterTry(s, c, sweep, recipients, now), c, sweep, recipients, now)
  {
    TryTallies(s, c, sweep, recipients, now);
    ClaimedIff(s, c, sweep, recipients, now);
    if c.before == [] && c.during == [] { QuietTry(s, c, sweep, recipients, now); }
    hide RunFrom, AfterTry, Claimed, Idle, MarksBy, NoticesBy;
    assert NoticesFor(c.id, Flip(sweep, recipients, now))
        == seq(|recipients|, i requires 0 <= i < |recipients| => Notice(c.id, recipients[i], sweep));
  }

  lemma QuietTry(s: Store, c: Candidate, sweep: Id, recipients: seq<Id>, now: int)
    requires Idle(s, sweep) && (c.id, now) in s.listed && c.before == [] && c.during == []
    ensures var r := AfterTry(s, c, sweep, recipients, now);
            && r.flips == s.flips
            && r.rows == if !c.fails && c.id in s.rows && s.rows[c.id].status == SENT && c.id !in s.flips
                         then s.rows[c.id := s.rows[c.id].(status := OVERDUE)] else s.rows
  {
    hide RowAgrees, AlertsAgree;
    assert Tracked(s, c.id) && !Holds(s, c.id, sweep);
  }

  /** Nobody interferes, nothing fails, and the candidates are distinct SENT rows in nobody's
      hands with recipients known. */
  ghost predicate Quiet(s: Store, cs: seq<Candidate>) {
    && (forall i, j | 0 <= i < j < |cs| :: cs[i].id != cs[j].id)
    && (forall c | c in cs ::
          c.before == [] && c.during == [] && !c.fails && c.id in s.rows && s.rows[c.id].status == SENT
          && c.id !in s.flips)
    && (forall i | 0 <= i < |cs| :: !Unknown(cs, i))
  }

  /** Then every candidate ends OVERDUE, each with a mark of its own, and no other row moves. */
  lemma {:induction false} QuietSweepMarksAll(trace: seq<Store>, cs: seq<Candidate>, sweep: Id, now: int, n: nat)
    requires Turns(trace, cs, sweep, now) && Quiet(trace[0], cs) && n <= |cs|
    ensures var (s, r) := (trace[0], trace[n]);
            && r.flips == s.flips && r.rows.Keys == s.rows.Keys
            && (forall id | id in s.rows ::
                  r.rows[id] == if exists i :: 0 <= i < n && cs[i].id == id
                                then s.rows[id].(status := OVERDUE) else s.rows[id])
            && |MarksBy(r.marks, sweep)| == |MarksBy(s.marks, sweep)| + n
  {
    hide MarksBy, NoticesBy, Found, NotFound;
    if n > 0 {
      QuietSweepMarksAll(trace, cs, sweep, now, n - 1);
      var c := cs[n - 1];
      var recipients := Finder(cs[..n], c.org);
      assert Taken(trace[n - 1], trace[n], c, sweep, recipients, now);
      assert c in cs && cs[n - 1] in cs;
      assert RunFrom(trace[n - 1], c.before) == trace[n - 1];
    }
  }

  class Database {
    var rows: map<Id, Invoice>
    var calls: map<Id, Call>
    var flips: map<Id, Flip>
    var notices: seq<Notice>
    var marks: seq<Mark>
    var history: map<Id, seq<Status>>
    var listed: set<(Id, int)>

    function Now(): Store
      reads this
    {
      Store(rows, calls, flips, notices, marks, history, listed)
    }

    constructor ()
      ensures Now() == Init
    {
      rows, calls, flips, notices, marks, history, listed := map[], map[], map[], [], [], map[], {};
    }

    method Create(id: Id, issue: bool, now: int, dueDate: int)
      modifies this
      ensures Now() == Apply(old(Now()), Event.Create(id, issue, now, dueDate))
    {
      if id in rows { return; }
      var status := DRAFT;
      var issuedAt := None;
      if issue { status, issuedAt := SENT, Some(now); }
      rows := rows[id := Invoice(status, issuedAt, None, dueDate)];
      history := history[id := [status]];
    }

    /** The first half of `transition`. */
    method Read(id: Id, action: Action, at: int)
      modifies this
      ensures Now() == Apply(old(Now()), Event.Read(id, action, at))
    {
      if id !in rows || id in calls { return; }
      var (current, target) := (rows[id].status, action.Target());
      if current == target { return; }
      if !Allowed(current, target) { return; }
      calls := calls[id := Call(current, target, at)];
    }

    /** The second half: the update by id alone. */
    method Write(id: Id)
      modifies this
      ensures Now() == Apply(old(Now()), Event.Write(id))
      ensures old(id in calls && id in rows && id in history && id !in flips) ==>
                && id in rows && rows[id].status == old(calls)[id].target && id !in calls
                && (rows[id].status == SENT ==> rows[id].issuedAt == Some(old(calls)[id].at))
                && (rows[id].status == PAID ==> rows[id].paidAt == Some(old(calls)[id].at))
                && rows[id].dueDate == old(rows)[id].dueDate
      ensures forall other | other in old(rows) && other != id :: other in rows && rows[other] == old(rows)[other]
    {
      if id !in calls || id !in rows || id !in history || id in flips { return; }
      var call := calls[id];
      var row := rows[id].(status := call.target);
      if call.target == SENT { row := row.(issuedAt := Some(call.at)); }
      if call.target == PAID { row := row.(paidAt := Some(call.at)); }
      rows := rows[id := row];
      calls := calls - {id};
      history := history[id := history[id] + [call.target]];
    }

    method ListOverdue(id: Id, now: int)
      modifies this
      ensures Now() == Apply(old(Now()), Event.ListOverdue(id, now))
    {
      if id in rows && rows[id].status == SENT && rows[id].dueDate < now { listed := listed + {(id, now)}; }
    }

    method FlipRow(id: Id, sweep: Id, recipients: seq<Id>, now: int)
      modifies this
      ensures Now() == Apply(old(Now()), Event.FlipRow(id, sweep, recipients, now))
    {
      if id in rows && rows[id].status == SENT && id !in flips && (id, now) in listed {
        flips := flips[id := Flip(sweep, recipients, now)];
      }
    }

    method CommitFlip(id: Id, sweep: Id)
      modifies this
      ensures Now() == Apply(old(Now()), Event.CommitFlip(id, sweep))
    {
      if id !in flips || flips[id].sweep != sweep || id !in rows || id !in history { return; }
      var flip := flips[id];
      rows := rows[id := rows[id].(status := OVERDUE)];
      flips := flips - {id};
      history := history[id := history[id] + [OVERDUE]];
      marks := marks + [Mark(id, sweep, flip.recipients, flip.now)];
      notices := notices + NoticesFor(id, flip);
    }

    method AbortFlip(id: Id, sweep: Id)
      modifies this
      ensures Now() == Apply(old(Now()), Event.AbortFlip(id, sweep))
    {
      if id in flips && flips[id].sweep == sweep { flips := flips - {id}; }
    }

    method Do(e: Event)
      modifies this
      ensures Now() == Apply(old(Now()), e)
    {
      match e
      case Create(id, issue, now, dueDate) => Create(id, issue, now, dueDate);
      case Read(id, action, at) => Read(id, action, at);
      case Write(id) => Write(id);
      case ListOverdue(id, now) => ListOverdue(id, now);
      case FlipRow(id, sweep, recipients, now) => FlipRow(id, sweep, recipients, now);
      case CommitFlip(id, sweep) => CommitFlip(id, sweep);
      case AbortFlip(id, sweep) => AbortFlip(id, sweep);
    }

    method Others(es: seq<Event>)
      modifies this
      ensures Now() == RunFrom(old(Now()), es)
    {
      hide Apply;
      var i := 0;
      while i < |es|
        invariant 0 <= i <= |es|
        invariant Now() == RunFrom(old(Now()), es[..i])
      {
        Do(es[i]);
        i := i + 1;
        assert es[..i][..i - 1] == es[..i - 1];
      }
      assert es[..i] == es;
    }

    /** One candidate's transaction; true when it committed the flip. */
    method Claim(c: Candidate, sweep: Id, recipients: seq<Id>, now: int) returns (claimed: bool)
      modifies this
      ensures Now() == AfterTry(old(Now()), c, sweep, recipients, now)
      ensures claimed == Claimed(old(Now()), c, sweep, recipients, now)
    {
      hide Apply, RunFrom;
      Others(c.before);
      FlipRow(c.id, sweep, recipients, now);
      Others(c.during);
      if c.fails {
        AbortFlip(c.id, sweep);
        return false;
      }
      claimed := Holds(Now(), c.id, sweep);
      CommitFlip(c.id, sweep);
    }

    /** The sweep: its two counters are the rows it flipped and the notifications it
        wrote, whatever fails and whatever others do in between. */
    method Process(candidates: seq<Candidate>, sweep: Id, now: int)
      returns (markedOverdue: nat, notified: nat, ghost trace: seq<Store>)
      requires Idle(Now(), sweep)
      requires forall c | c in candidates ::
                 (c.id, now) in listed && AllLeave(c.before, sweep) && AllLeave(c.during, sweep)
      modifies this
      ensures Idle(Now(), sweep)
      ensures Leads(old(Now()), Now(), trace, candidates, sweep, now)
      ensures |MarksBy(marks, sweep)| == |MarksBy(old(marks), sweep)| + markedOverdue
      ensures |NoticesBy(notices, sweep)| == |NoticesBy(old(notices), sweep)| + notified
      ensures Quiet(old(Now()), candidates) ==>
                && markedOverdue == |candidates|
                && forall c | c in candidates :: c.id in rows && rows[c.id].status == OVERDUE
    {
      hide AfterTry, Claimed, Idle, MarksBy, NoticesBy, Found, NotFound, Taken, Quiet, Turns;
      markedOverdue, notified, trace := 0, 0, [Now()];
      var recipientsByOrg: map<Id, seq<Id>> := map[];
      NothingFound(Now(), trace, sweep, now);
      for i := 0 to |candidates|
        invariant Idle(Now(), sweep) && old(listed) <= listed
        invariant Leads(old(Now()), Now(), trace, candidates[..i], sweep, now)
        invariant forall org | org in recipientsByOrg :: Found(candidates[..i], org, recipientsByOrg[org])
        invariant forall org: Id | org !in recipientsByOrg :: NotFound(candidates[..i], org)
        invariant |MarksBy(marks, sweep)| == |MarksBy(old(marks), sweep)| + markedOverdue
        invariant |NoticesBy(notices, sweep)| == |NoticesBy(old(notices), sweep)| + notified
      {
        var c := candidates[i];
        ghost var cache, s := recipientsByOrg, Now();
        if c.org !in recipientsByOrg {
          if c.lookup.None? {
            CacheNext(candidates, i, cache, cache);
            PassedOver(trace, candidates, i, sweep, now);
            trace := trace + [Now()];
            continue;
          }
          recipientsByOrg := recipientsByOrg[c.org := c.lookup.value];
        }
        var recipients := recipientsByOrg[c.org];
        CacheNext(candidates, i, cache, recipientsByOrg);
        TryTallies(s, c, sweep, recipients, now);
        TryTakes(s, c, sweep, recipients, now);
        var claimed := Claim(c, sweep, recipients, now);
        TurnNext(trace, candidates, i, sweep, recipients, now, Now());
        trace := trace + [Now()];
        if !claimed { continue; }
        markedOverdue := markedOverdue + 1;
        notified := notified + |recipients|;
      }
      assert candidates[..|candidates|] == candidates;
      if Quiet(old(Now()), candidates) { QuietEnd(trace, candidates, sweep, now); }
    }
  }

  lemma NothingFound(s: Store, trace: seq<Store>, sweep: Id, now: int)
    requires trace == [s]
    ensures (forall org :: NotFound([], org)) && Leads(s, s, trace, [], sweep, now)
  {
  }

  /** The cache keeps what the first lookup that worked found. */
  lemma CacheNext(cs: seq<Candidate>, i: nat, cache: map<Id, seq<Id>>, next: map<Id, seq<Id>>)
    requires i < |cs| && (forall org | org in cache :: Found(cs[..i], org, cache[org]))
    requires forall org: Id | org !in cache :: NotFound(cs[..i], org)
    requires next == if cs[i].org in cache || cs[i].lookup.None? then cache
                     else cache[cs[i].org := cs[i].lookup.value]
    ensures forall org | org in next :: Found(cs[..i + 1], org, next[org])
    ensures forall org: Id | org !in next :: NotFound(cs[..i + 1], org)
  {
    hide Found, NotFound;
    forall org | org in next ensures Found(cs[..i + 1], org, next[org]) { FoundNext(cs, i, org, next[org]); }
    forall org: Id | org !in next ensures NotFound(cs[..i + 1], org) { FoundNext(cs, i, org, []); }
  }

  lemma TurnNext(trace: seq<Store>, cs: seq<Candidate>, i: nat, sweep: Id, recipients: seq<Id>, now: int, r: Store)
    requires i < |cs| && Turns(trace, cs[..i], sweep, now)
    requires Known(cs, i, recipients) && Taken(trace[i], r, cs[i], sweep, recipients, now)
    ensures Turns(trace + [r], cs[..i + 1], sweep, now)
  {
    hide Taken, Found, NotFound;
    FoundOnce(cs[..i + 1], cs[i].org, recipients, recipients);
    forall other | Known(cs, i, other) ensures other == recipients {
      FoundOnce(cs[..i + 1], cs[i].org, recipients, other);
    }
    TurnsExtend(trace, cs, i, sweep, now, r);
  }

  lemma PassedOver(trace: seq<Store>, cs: seq<Candidate>, i: nat, sweep: Id, now: int)
    requires i < |cs| && Turns(trace, cs[..i], sweep, now) && Unknown(cs, i)
    ensures Turns(trace + [trace[i]], cs[..i + 1], sweep, now)
  {
    hide Taken, Found, NotFound;
    forall other ensures !Known(cs, i, other) {
      if Known(cs, i, other) { FoundOnce(cs[..i + 1], cs[i].org, other, other); }
    }
    TurnsExtend(trace, cs, i, sweep, now, trace[i]);
  }

  lemma TurnsExtend(trace: seq<Store>, cs: seq<Candidate>, i: nat, sweep: Id, now: int, r: Store)
    requires i < |cs| && Turns(trace, cs[..i], sweep, now)
    requires Unknown(cs, i) ==> r == trace[i]
    requires forall recipients | Known(cs, i, recipients) :: Taken(trace[i], r, cs[i], sweep, recipients, now)
    ensures Turns(trace + [r], cs[..i + 1], sweep, now)
  {
    hide Taken, Found, NotFound;
    var (longer, all) := (trace + [r], cs[..i + 1]);
    forall k | 0 <= k < i + 1
      ensures Unknown(all, k) ==> longer[k + 1] == longer[k]
      ensures forall recipients | Known(all, k, recipients) ::
                Taken(longer[k], longer[k + 1], all[k], sweep, recipients, now)
    {
      assert all[..k + 1] == cs[..k + 1] && all[k] == cs[k];
      if k < i {
        assert cs[..i][..k + 1] == cs[..k + 1] && cs[..i][k] == cs[k];
        assert Unknown(all, k) == Unknown(cs[..i], k);
        assert forall recipients :: Known(all, k, recipients) == Known(cs[..i], k, recipients);
      }
    }
  }

  /** The turns that lead from `s` to `r`. */
  ghost predicate Leads(s: Store, r: Store, trace: seq<Store>, cs: seq<Candidate>, sweep: Id, now: int) {
    |trace| == |cs| + 1 && trace[0] == s && trace[|cs|] == r && Turns(trace, cs, sweep, now)
  }

  lemma QuietEnd(trace: seq<Store>, cs: seq<Candidate>, sweep: Id, now: int)
    requires Turns(trace, cs, sweep, now) && Quiet(trace[0], cs)
    ensures |MarksBy(trace[|cs|].marks, sweep)| == |MarksBy(trace[0].marks, sweep)| + |cs|
    ensures forall c | c in cs :: c.id in trace[|cs|].rows && trace[|cs|].rows[c.id].status == OVERDUE
  {
    hide Turns, MarksBy, Found;
    QuietSweepMarksAll(trace, cs, sweep, now, |cs|);
  }
}
