/** Appointment slots: booking, rescheduling and status changes, each a whole call. An
    assignee's held slots never overlap. */
module Appointments {
  import opened Options
  import opened Text

  type Id = nat

  datatype Status = SCHEDULED | CONFIRMED | CANCELLED | COMPLETED | NO_SHOW

  /** Slots that are actively held. */
  predicate Holding(s: Status) { s == SCHEDULED || s == CONFIRMED }

  /** The legal transitions. */
  predicate Allowed(from: Status, to: Status) {
    match from
    case SCHEDULED => to == CONFIRMED || to == CANCELLED || to == COMPLETED || to == NO_SHOW
    case CONFIRMED => to == CANCELLED || to == COMPLETED || to == NO_SHOW
    case _ => false
  }

  datatype Appointment = Appointment(
    org: Id, customer: Option<Id>, assignee: Option<Id>, title: string, notes: Option<string>,
    startAt: int, endAt: int, status: Status)

  datatype Refusal = Invalid | NotFound | Conflict | TooLong

  const APPOINTMENT_TITLE_MAX_LENGTH := 255
  const APPOINTMENT_NOTES_MAX_LENGTH := 2000
  const APPOINTMENT_MAX_DURATION_HOURS := 24
  const HOUR := 60 * 60 * 1000 // milliseconds

  type Book = map<Id, Appointment>

  // ---- Checks ---------------------------------------------------------------

  function RequireTrimmed(value: string): Result<string, Refusal> {
    var trimmed := Trim(value);
    if trimmed == [] || |trimmed| > APPOINTMENT_TITLE_MAX_LENGTH then Err(Invalid) else Ok(trimmed)
  }

  function NormalizeNote(note: Option<string>): Option<string> {
    if note.None? || Trim(note.value) == [] then None
    else
      var trimmed := Trim(note.value);
      Some(if |trimmed| > APPOINTMENT_NOTES_MAX_LENGTH then trimmed[..APPOINTMENT_NOTES_MAX_LENGTH] else trimmed)
  }

  /** The window is refused unless it ends after it starts and lasts a day at most. The
      source divides by the hour before it compares. */
  function RequireValidWindow(startAt: int, endAt: int): Option<Refusal> {
    if startAt >= endAt then Some(Invalid)
    else if (endAt - startAt) as real / HOUR as real > APPOINTMENT_MAX_DURATION_HOURS as real then Some(TooLong)
    else None
  }

  predicate ValidWindow(startAt: int, endAt: int) { startAt < endAt <= startAt + 24 * HOUR }

  lemma WindowValidIff(startAt: int, endAt: int)
    ensures RequireValidWindow(startAt, endAt).None? <==> ValidWindow(startAt, endAt)
  {
  }

  /** Held by the assignee in the organisation, and overlapping the window. */
  predicate Clashes(a: Appointment, org: Id, assignee: Id, startAt: int, endAt: int) {
    a.org == org && a.assignee == Some(assignee) && Holding(a.status) && a.startAt < endAt && a.endAt > startAt
  }

  predicate HasConflict(book: Book, org: Id, assignee: Id, startAt: int, endAt: int, exclude: Option<Id>) {
    exists id | id in book :: exclude != Some(id) && Clashes(book[id], org, assignee, startAt, endAt)
  }

  // ---- What the book keeps ----------------------------------------------------

  /** Two held slots of one assignee share no moment. */
  predicate Apart(a: Appointment, b: Appointment) {
    a.org == b.org && a.assignee == b.assignee && a.assignee.Some? && Holding(a.status) && Holding(b.status)
    ==> a.endAt <= b.startAt || b.endAt <= a.startAt
  }

  predicate Sound(book: Book) {
    && (forall id | id in book :: ValidWindow(book[id].startAt, book[id].endAt))
    && (forall i, j | i in book && j in book && i != j :: Apart(book[i], book[j]))
  }

  /** A slot is half open. */
  predicate At(a: Appointment, moment: int) { a.startAt <= moment < a.endAt }

  /** A window free of conflict is apart from every held slot of the assignee, and a
      window that is not overlaps one. */
  lemma ConflictIff(book: Book, a: Appointment, exclude: Option<Id>)
    requires Sound(book) && a.assignee.Some? && Holding(a.status) && ValidWindow(a.startAt, a.endAt)
    ensures HasConflict(book, a.org, a.assignee.value, a.startAt, a.endAt, exclude)
            <==> exists id :: id in book && exclude != Some(id) && !Apart(a, book[id])
  {
  }

  // ---- Calls --------------------------------------------------------------------

  datatype Call =
    | Create(id: Id, org: Id, customer: Option<Id>, customerFound: bool, assignee: Option<Id>, title: string,
             notes: Option<string>, startAt: int, endAt: int)
    | Update(org: Id, id: Id, newTitle: Option<string>, newNotes: Option<Option<string>>,
             newStart: Option<int>, newEnd: Option<int>)
    | UpdateStatus(org: Id, id: Id, status: Status)

  predicate Found(book: Book, org: Id, id: Id) { id in book && book[id].org == org }

  /** Why a call is refused, in the order the checks are made; whether the
      customer is found in the organisation is a parameter. */
  function Refused(book: Book, c: Call): Option<Refusal> {
    match c
    case Create(id, org, customer, customerFound, assignee, title, _, startAt, endAt) =>
      if RequireTrimmed(title).Err? then Some(Invalid)
      else if RequireValidWindow(startAt, endAt).Some? then RequireValidWindow(startAt, endAt)
      else if customer.Some? && !customerFound then Some(NotFound)
      else if assignee.Some? && HasConflict(book, org, assignee.value, startAt, endAt, None) then Some(Conflict)
      else None
    case Update(org, id, newTitle, _, newStart, newEnd) =>
      if !Found(book, org, id) then Some(NotFound)
      else if newTitle.Some? && RequireTrimmed(newTitle.value).Err? then Some(Invalid)
      else if newStart.None? && newEnd.None? then None
      else
        var (row, startAt, endAt) := (book[id], newStart.GetOr(book[id].startAt), newEnd.GetOr(book[id].endAt));
        if !Holding(row.status) then Some(Conflict)
        else if RequireValidWindow(startAt, endAt).Some? then RequireValidWindow(startAt, endAt)
        else if row.assignee.Some? && HasConflict(book, org, row.assignee.value, startAt, endAt, Some(id))
        then Some(Conflict)
        else None
    case UpdateStatus(org, id, status) =>
      if !Found(book, org, id) then Some(NotFound)
      else if book[id].status != status && !Allowed(book[id].status, status) then Some(Conflict)
      else None
  }

  /** The row an accepted call leaves. */
  function Written(book: Book, c: Call): Appointment
    requires Refused(book, c).None?
  {
    match c
    case Create(_, org, customer, _, assignee, title, notes, startAt, endAt) =>
      Appointment(org, customer, assignee, RequireTrimmed(title).value, NormalizeNote(notes), startAt, endAt, SCHEDULED)
    case Update(_, id, newTitle, newNotes, newStart, newEnd) =>
      var row := book[id];
      row.(title := if newTitle.Some? then RequireTrimmed(newTitle.value).value else row.title,
           notes := if newNotes.Some? then NormalizeNote(newNotes.value) else row.notes,
           startAt := newStart.GetOr(row.startAt), endAt := newEnd.GetOr(row.endAt))
    case UpdateStatus(_, id, status) => book[id].(status := status)
  }

  function Serve(book: Book, c: Call): Book {
    if Refused(book, c).Some? || (c.Create? && c.id in book) then book
    else book[c.id := Written(book, c)]
  }

  /** The row written keeps clear of every other held slot. */
  lemma WrittenApart(book: Book, c: Call, j: Id)
    requires Sound(book) && Refused(book, c).None? && j in book && j != c.id
    ensures ValidWindow(Written(book, c).startAt, Written(book, c).endAt)
    ensures Apart(Written(book, c), book[j]) && Apart(book[j], Written(book, c))
  {
    hide RequireTrimmed, NormalizeNote, HasConflict;
    var a := Written(book, c);
    WrittenValid(book, c);
    if c.UpdateStatus? || (c.Update? && c.newStart.None? && c.newEnd.None?) {
      assert Apart(book[c.id], book[j]);
    } else if a.assignee.Some? && Holding(a.status) {
      ConflictIff(book, a, if c.Create? then None else Some(c.id));
    }
  }

  lemma WrittenValid(book: Book, c: Call)
    requires Sound(book) && Refused(book, c).None?
    ensures ValidWindow(Written(book, c).startAt, Written(book, c).endAt)
  {
    hide RequireTrimmed, NormalizeNote, HasConflict, RequireValidWindow;
    match c
    case Create(_, _, _, _, _, _, _, startAt, endAt) => WindowValidIff(startAt, endAt);
    case Update(_, id, _, _, newStart, newEnd) =>
      WindowValidIff(newStart.GetOr(book[id].startAt), newEnd.GetOr(book[id].endAt));
    case UpdateStatus(_, _, _) =>
  }

  lemma ServeSound(book: Book, c: Call)
    requires Sound(book)
    ensures Sound(Serve(book, c))
  {
    hide Refused, Written, Apart;
    if Refused(book, c).None? {
      WrittenValid(book, c);
      forall j | j in book && j != c.id
        ensures Apart(Written(book, c), book[j]) && Apart(book[j], Written(book, c))
      {
        WrittenApart(book, c, j);
      }
    }
  }

  // ---- What one call does -------------------------------------------------------

  /** A slot clashes exactly when it is scheduled or confirmed for the same assignee and shares
      a moment with the window. */
  lemma ClashesIff(a: Appointment, org: Id, assignee: Id, startAt: int, endAt: int)
    requires startAt < endAt && a.startAt < a.endAt
    ensures Clashes(a, org, assignee, startAt, endAt)
            <==> && a.org == org && a.assignee == Some(assignee) && a.status in {SCHEDULED, CONFIRMED}
                 && exists moment :: At(a, moment) && startAt <= moment < endAt
  {
    if Clashes(a, org, assignee, startAt, endAt) {
      assert At(a, if a.startAt < startAt then startAt else a.startAt);
    }
  }

  /** A title is taken in 1 to 255 characters, trimmed. */
  predicate TitleFits(title: string) { 1 <= |Trim(title)| <= 255 }

  /** What becomes of a note: nothing when it is blank, else its first 2000 characters. */
  ghost predicate NoteKept(note: Option<string>, kept: Option<string>) {
    if note.None? || Trim(note.value) == [] then kept.None?
    else kept.Some? && kept.value <= Trim(note.value)
         && (|kept.value| == 2000 || kept.value == Trim(note.value)) && |kept.value| <= 2000
  }

  predicate WindowFits(startAt: int, endAt: int) { startAt < endAt && endAt - startAt <= 86_400_000 }

  /** A booking is refused for the first of title, window, customer and conflict that fails;
      else it adds exactly this row, SCHEDULED. */
  lemma CreateServed(book: Book, c: Call)
    requires c.Create? && c.id !in book
    ensures var (r, clash) := (Refused(book, c), c.assignee.Some?
                                 && HasConflict(book, c.org, c.assignee.value, c.startAt, c.endAt, None));
            && (r.None? <==> TitleFits(c.title) && WindowFits(c.startAt, c.endAt)
                             && (c.customer.Some? ==> c.customerFound) && !clash)
            && (r == Some(Invalid) <==> !TitleFits(c.title) || c.startAt >= c.endAt)
            && (r == Some(NotFound)
                <==> TitleFits(c.title) && WindowFits(c.startAt, c.endAt) && c.customer.Some? && !c.customerFound)
            && (r == Some(Conflict)
                <==> TitleFits(c.title) && WindowFits(c.startAt, c.endAt)
                     && (c.customer.Some? ==> c.customerFound) && clash)
            && (r == Some(TooLong) <==> TitleFits(c.title) && c.endAt - c.startAt > 86_400_000)
    ensures Refused(book, c).Some? ==> Serve(book, c) == book
    ensures Refused(book, c).None? ==>
              var row := Written(book, c);
              && Serve(book, c) == book[c.id := row]
              && row == Appointment(c.org, c.customer, c.assignee, Trim(c.title), row.notes, c.startAt, c.endAt,
                                    SCHEDULED)
              && NoteKept(c.notes, row.notes)
  {
    hide Trim, HasConflict;
  }

  /** An edit is refused for a missing row, a bad title, and, when a time is given, a slot no
      longer held, a bad window or a conflict with another slot; else it moves the slot to
      the times given, changes the text given, and nothing more. */
  lemma UpdateServed(book: Book, c: Call)
    requires c.Update?
    ensures !(c.id in book && book[c.id].org == c.org) <==> Refused(book, c) == Some(NotFound)
    ensures Refused(book, c).Some? ==> Serve(book, c) == book
    ensures c.id in book && book[c.id].org == c.org ==>
              var row := book[c.id];
              var (startAt, endAt, moves) := (c.newStart.GetOr(row.startAt), c.newEnd.GetOr(row.endAt),
                                              c.newStart.Some? || c.newEnd.Some?);
              && (Refused(book, c).None?
                  <==> && (c.newTitle.Some? ==> TitleFits(c.newTitle.value))
                       && (moves ==> row.status in {SCHEDULED, CONFIRMED} && WindowFits(startAt, endAt)
                                     && (row.assignee.Some? ==>
                                           !HasConflict(book, c.org, row.assignee.value, startAt, endAt, Some(c.id)))))
              && (Refused(book, c) == Some(Invalid)
                  <==> || (c.newTitle.Some? && !TitleFits(c.newTitle.value))
                       || (moves && row.status in {SCHEDULED, CONFIRMED} && startAt >= endAt))
              && (Refused(book, c) == Some(TooLong)
                  ==> moves && row.status in {SCHEDULED, CONFIRMED} && endAt - startAt > 86_400_000)
              && (Refused(book, c) == Some(Conflict)
                  ==> moves && (row.status in {SCHEDULED, CONFIRMED} ==> WindowFits(startAt, endAt)))
    ensures Refused(book, c).None? ==>
              var (was, row) := (book[c.id], Serve(book, c)[c.id]);
              && Serve(book, c) == book[c.id := row]
              && row.startAt == c.newStart.GetOr(was.startAt) && row.endAt == c.newEnd.GetOr(was.endAt)
              && (if c.newTitle.Some? then row.title == Trim(c.newTitle.value) else row.title == was.title)
              && (if c.newNotes.Some? then NoteKept(c.newNotes.value, row.notes) else row.notes == was.notes)
              && row == was.(title := row.title, notes := row.notes, startAt := row.startAt, endAt := row.endAt)
  {
    hide Trim, HasConflict;
  }

  /** A status change goes through exactly for the same status, any other from SCHEDULED, and
      the three endings from CONFIRMED; it changes the status alone. */
  lemma StatusServed(book: Book, c: Call)
    requires c.UpdateStatus?
    ensures !(c.id in book && book[c.id].org == c.org) <==> Refused(book, c) == Some(NotFound)
    ensures c.id in book && book[c.id].org == c.org ==>
              var was := book[c.id].status;
              Refused(book, c)
              == if was == c.status || was == SCHEDULED
                    || (was == CONFIRMED && c.status in {CANCELLED, COMPLETED, NO_SHOW})
                 then None else Some(Conflict)
    ensures Serve(book, c) == if Refused(book, c).Some? then book else book[c.id := book[c.id].(status := c.status)]
  {
  }

  function ServeAll(calls: seq<Call>): Book {
    if calls == [] then map[] else Serve(ServeAll(calls[..|calls| - 1]), calls[|calls| - 1])
  }

  /** Calls are served one after another, from an empty book. */
  lemma ServeNext(calls: seq<Call>, c: Call)
    ensures ServeAll([]) == map[] && ServeAll(calls + [c]) == Serve(ServeAll(calls), c)
  {
    hide Serve;
    assert (calls + [c])[..|calls|] == calls;
  }

  /** Over every sequence of calls, the held slots of each assignee are disjoint, and
      every slot has a positive length of a day at most. */
  lemma {:induction false} SlotsStayApart(calls: seq<Call>)
    ensures Sound(ServeAll(calls))
  {
    hide Serve, Sound;
    if calls == [] {
      EmptySound();
    } else {
      SlotsStayApart(calls[..|calls| - 1]);
      ServeSound(ServeAll(calls[..|calls| - 1]), calls[|calls| - 1]);
    }
  }

  lemma EmptySound()
    ensures Sound(map[])
  {
  }

  /** So no moment is ever in two held slots of one assignee. */
  lemma NeverDoubleBooked(calls: seq<Call>, i: Id, j: Id, moment: int)
    requires i in ServeAll(calls) && j in ServeAll(calls) && i != j
    ensures var (a, b) := (ServeAll(calls)[i], ServeAll(calls)[j]);
            a.org == b.org && a.assignee == b.assignee && a.assignee.Some? && At(a, moment) && At(b, moment)
            ==> !Holding(a.status) || !Holding(b.status)
  {
    hide ServeAll;
    SlotsStayApart(calls);
    assert Apart(ServeAll(calls)[i], ServeAll(calls)[j]);
  }

  lemma {:induction false} BooksGrow(calls: seq<Call>, n: nat, id: Id)
    requires n <= |calls| && id in ServeAll(calls[..n])
    ensures id in ServeAll(calls)
    ensures var (was, now) := (ServeAll(calls[..n])[id], ServeAll(calls)[id]);
            && (Holding(now.status) ==> Holding(was.status))
            && (now.status == SCHEDULED ==> was.status == SCHEDULED)
            && (!Holding(was.status)
                ==> now.status == was.status && now.startAt == was.startAt && now.endAt == was.endAt)
            && now.org == was.org && now.assignee == was.assignee
    decreases |calls|
  {
    hide RequireTrimmed, NormalizeNote, HasConflict, RequireValidWindow;
    if n == |calls| {
      assert calls[..n] == calls;
    } else {
      var init := calls[..|calls| - 1];
      assert init[..n] == calls[..n];
      BooksGrow(init, n, id);
    }
  }

  /** An appointment that has left the holding statuses never holds a slot again, and its
      window is final; nor does a confirmed one go back to scheduled. */
  lemma NeverReentersHolding(calls: seq<Call>, n: nat, m: nat, id: Id)
    requires n <= m <= |calls| && id in ServeAll(calls[..n]) && !Holding(ServeAll(calls[..n])[id].status)
    ensures id in ServeAll(calls[..m])
    ensures ServeAll(calls[..m])[id].status == ServeAll(calls[..n])[id].status
    ensures ServeAll(calls[..m])[id].startAt == ServeAll(calls[..n])[id].startAt
    ensures ServeAll(calls[..m])[id].endAt == ServeAll(calls[..n])[id].endAt
  {
    hide ServeAll;
    assert calls[..m][..n] == calls[..n];
    BooksGrow(calls[..m], n, id);
  }

  // ---- The service --------------------------------------------------------------

  class AppointmentService {
    var book: Book

    constructor ()
      ensures book == map[]
    {
      book := map[];
    }

    method AssertNoConflict(org: Id, assignee: Id, startAt: int, endAt: int, excludeId: Option<Id>)
      returns (r: Option<Refusal>)
      ensures r == if HasConflict(book, org, assignee, startAt, endAt, excludeId) then Some(Conflict) else None
    {
      if id :| id in book && excludeId != Some(id) && Clashes(book[id], org, assignee, startAt, endAt) {
        return Some(Conflict);
      }
      r := None;
    }

    method Create(id: Id, org: Id, customer: Option<Id>, customerFound: bool, assignee: Option<Id>, title: string,
                  notes: Option<string>, startAt: int, endAt: int) returns (r: Result<Appointment, Refusal>)
      requires id !in book && Sound(book)
      modifies `book
      ensures Sound(book)
      ensures book
              == Serve(old(book), Call.Create(id, org, customer, customerFound, assignee, title, notes, startAt, endAt))
      ensures r.Ok? ==> book == old(book)[id := r.value] && r.value.status == SCHEDULED
      ensures r.Err? ==> book == old(book)
                         && Some(r.error) == Refused(old(book), Call.Create(id, org, customer, customerFound, assignee,
                                                                            title, notes, startAt, endAt))
    {
      ServeSound(book, Call.Create(id, org, customer, customerFound, assignee, title, notes, startAt, endAt));
      hide Sound, HasConflict;
      var trimmed := RequireTrimmed(title);
      if trimmed.Err? { return Err(trimmed.error); }
      var window := RequireValidWindow(startAt, endAt);
      if window.Some? { return Err(window.value); }
      if customer.Some? && !customerFound { return Err(NotFound); }
      if assignee.Some? {
        var conflict := AssertNoConflict(org, assignee.value, startAt, endAt, None);
        if conflict.Some? { return Err(conflict.value); }
      }
      var row := Appointment(org, customer, assignee, trimmed.value, NormalizeNote(notes), startAt, endAt, SCHEDULED);
      book := book[id := row];
      r := Ok(row);
    }

    /** Edits the text, and when a time was given re-checks window and conflicts. */
    method Update(org: Id, id: Id, newTitle: Option<string>, newNotes: Option<Option<string>>,
                  newStart: Option<int>, newEnd: Option<int>)
      returns (r: Result<Appointment, Refusal>)
      requires Sound(book)
      modifies `book
      ensures Sound(book)
      ensures book == Serve(old(book), Call.Update(org, id, newTitle, newNotes, newStart, newEnd))
      ensures r.Ok? ==> book == old(book)[id := r.value]
      ensures r.Err? ==> book == old(book)
                         && Some(r.error)
                            == Refused(old(book), Call.Update(org, id, newTitle, newNotes, newStart, newEnd))
    {
      ServeSound(book, Call.Update(org, id, newTitle, newNotes, newStart, newEnd));
      hide Sound, HasConflict;
      if id !in book || book[id].org != org { return Err(NotFound); }
      var existing := book[id];
      var row := existing;
      if newTitle.Some? {
        var trimmed := RequireTrimmed(newTitle.value);
        if trimmed.Err? { return Err(trimmed.error); }
        row := row.(title := trimmed.value);
      }
      if newNotes.Some? { row := row.(notes := NormalizeNote(newNotes.value)); }
      if newStart.Some? || newEnd.Some? {
        if !Holding(existing.status) { return Err(Conflict); }
        var (startAt, endAt) := (newStart.GetOr(existing.startAt), newEnd.GetOr(existing.endAt));
        var window := RequireValidWindow(startAt, endAt);
        if window.Some? { return Err(window.value); }
        if existing.assignee.Some? {
          var conflict := AssertNoConflict(org, existing.assignee.value, startAt, endAt, Some(id));
          if conflict.Some? { return Err(conflict.value); }
        }
        row := row.(startAt := startAt, endAt := endAt);
      }
      book := book[id := row];
      r := Ok(row);
    }

    method UpdateStatus(org: Id, id: Id, status: Status) returns (r: Result<Appointment, Refusal>)
      requires Sound(book)
      modifies `book
      ensures Sound(book)
      ensures book == Serve(old(book), Call.UpdateStatus(org, id, status))
      ensures r.Ok? ==> book == old(book)[id := r.value] && r.value.status == status
      ensures r.Err? ==> book == old(book) && Some(r.error) == Refused(old(book), Call.UpdateStatus(org, id, status))
    {
      ServeSound(book, Call.UpdateStatus(org, id, status));
      hide Sound, HasConflict;
      if id !in book || book[id].org != org { return Err(NotFound); }
      var existing := book[id];
      if existing.status == status { return Ok(existing); }
      if !Allowed(existing.status, status) { return Err(Conflict); }
      book := book[id := existing.(status := status)];
      r := Ok(book[id]);
    }
  }
}
