/** The inventory tables as the services change them, and the sweep that re-evaluates
    products while movements, updates and other sweeps go on. */
module ReorderSweep {
  import opened Options
  import opened Stock
  import opened Reorder
  import opened ReorderDecisions
  import Sums

  // ---- What a caller has done ---------------------------------------------

  /** How many of `owner`'s raises are among `dips`. */
  function RaisesIn(flips: seq<Flip>, dips: set<nat>, owner: Id): nat {
    if flips == [] then 0
    else
      var n := |flips| - 1;
      RaisesIn(flips[..n], dips, owner) + if n in dips && flips[n].owner == owner then 1 else 0
  }

  function ClearsBy(flips: seq<Flip>, owner: Id): nat {
    if flips == [] then 0
    else
      var n := |flips| - 1;
      ClearsBy(flips[..n], owner) + if !flips[n].raised && flips[n].owner == owner then 1 else 0
  }

  lemma FlipsGrow(flips: seq<Flip>, f: Flip, dips: set<nat>, owner: Id)
    requires |flips| !in dips
    ensures RaisesIn(flips + [f], dips, owner) == RaisesIn(flips, dips, owner)
    ensures ClearsBy(flips + [f], owner) == ClearsBy(flips, owner) + if !f.raised && f.owner == owner then 1 else 0
  {
    assert (flips + [f])[..|flips|] == flips;
  }

  lemma {:induction false} DipsGrow(flips: seq<Flip>, dips: set<nat>, dip: nat, owner: Id)
    requires dip !in dips
    ensures RaisesIn(flips, dips + {dip}, owner)
            == RaisesIn(flips, dips, owner) + if dip < |flips| && flips[dip].owner == owner then 1 else 0
  {
    if flips != [] { DipsGrow(flips[..|flips| - 1], dips, dip, owner); }
  }

  ghost predicate Sound(s: Store) { forall dip: nat :: DipTracked(s, dip) }

  lemma SoundStep(s: Store, e: Event)
    requires Sound(s)
    ensures Sound(Apply(s, e))
  {
    hide Apply, DipTracked;
    forall dip: nat ensures DipTracked(Apply(s, e), dip) {
      assert DipTracked(s, dip) && DipTracked(s, |s.flips|);
      DipStep(s, e, dip);
    }
  }

  function Told(s: Store, owner: Id): nat { RaisesIn(s.flips, s.told.Keys, owner) }
  function Lost(s: Store, owner: Id): nat { RaisesIn(s.flips, s.lost, owner) }
  function Cleared(s: Store, owner: Id): nat { ClearsBy(s.flips, owner) }

  /** The evaluation of `owner` has raised the flag and has yet to tell anybody. */
  predicate Raising(s: Store, owner: Id) { owner in s.evals && s.evals[owner].Alerting? }

  /** The update of an evaluation took effect, and which way. */
  function FlippedBy(s: Store, r: Store): Option<bool> {
    if |r.flips| > |s.flips| then Some(r.flips[|r.flips| - 1].raised) else None
  }

  /** What any one step does to the tallies of `owner`. */
  lemma StepTallies(s: Store, e: Event, owner: Id)
    requires Sound(s)
    ensures var r := Apply(s, e);
            && Told(r, owner) == Told(s, owner) + (if e.Notify? && e.owner == owner && Raising(s, owner) then 1 else 0)
            && Lost(r, owner) == Lost(s, owner) + (if e == Fail(owner) && Raising(s, owner) then 1 else 0)
            && Cleared(r, owner)
               == Cleared(s, owner) + (if e == Decide(owner) && FlippedBy(s, r) == Some(false) then 1 else 0)
            && s.seen <= r.seen
  {
    hide RaisesIn, ClearsBy, OnHand, Wish, Recordable, NoticesAt;
    assert DipTracked(s, |s.flips|);
    var r := Apply(s, e);
    if e.Decide? && |r.flips| > |s.flips| {
      FlipsGrow(s.flips, r.flips[|s.flips|], s.told.Keys, owner);
      FlipsGrow(s.flips, r.flips[|s.flips|], s.lost, owner);
    } else if e.Notify? && Raising(s, e.owner) {
      var dip := s.evals[e.owner].dip;
      assert DipTracked(s, dip);
      DipsGrow(s.flips, s.told.Keys, dip, owner);
      assert r.told.Keys == s.told.Keys + {dip};
    } else if e.Fail? && Raising(s, e.owner) {
      var dip := s.evals[e.owner].dip;
      assert DipTracked(s, dip);
      DipsGrow(s.flips, s.lost, dip, owner);
    }
  }

  // ---- What others cannot touch -------------------------------------------

  ghost predicate SameFor(s: Store, r: Store, owner: Id) {
    && Told(s, owner) == Told(r, owner) && Lost(s, owner) == Lost(r, owner) && Cleared(s, owner) == Cleared(r, owner)
    && (owner in s.evals <==> owner in r.evals) && (owner in s.evals ==> s.evals[owner] == r.evals[owner])
    && s.seen <= r.seen
  }

  lemma {:induction false} RunLeaves(s: Store, es: seq<Event>, owner: Id)
    requires Sound(s) && AllLeave(es, owner)
    ensures Sound(RunFrom(s, es)) && SameFor(s, RunFrom(s, es), owner)
  {
    hide Apply, Sound, RaisesIn, ClearsBy;
    if es != [] {
      var (init, last) := (es[..|es| - 1], es[|es| - 1]);
      RunLeaves(s, init, owner);
      SoundStep(RunFrom(s, init), last);
      StepTallies(RunFrom(s, init), last, owner);
      EvalLeft(RunFrom(s, init), last, owner);
    }
  }

  // ---- One evaluation among others ------------------------------------------

  /** Where a database call of the evaluation fails, if one does. */
  datatype Trouble = NoTrouble | OnReading | OnFlipping | OnNotifying

  /** A product to evaluate: the row as it was read, its organisation's members as a
      lookup would find them (or fail), what goes wrong, and what others do before the sum
      is taken, before the flag is flipped and before anybody is told. */
  datatype Visit = Visit(
    id: Id, seen: Product, lookup: Option<seq<Id>>, trouble: Trouble, first: seq<Event>, second: seq<Event>,
    third: seq<Event>)

  datatype Outcome = Alerted | Restocked | Unchanged | Failed

  /** The state in which the guarded update runs, and the state it leaves. */
  function Deciding(s: Store, owner: Id, v: Visit): Store { AtDecision(s, owner, v.id, v.seen, v.first, v.second) }

  function Decided(s: Store, owner: Id, v: Visit): Store { Apply(Deciding(s, owner, v), Decide(owner)) }

  /** Telling people works out. */
  predicate Reaches(v: Visit, recipients: Option<seq<Id>>) { v.trouble == NoTrouble && recipients.Some? }

  /** How an evaluation ends that got as far as flipping: told, or failed. */
  function Ending(owner: Id, v: Visit, recipients: Option<seq<Id>>): Event {
    if Reaches(v, recipients) then Notify(owner, recipients.value) else Fail(owner)
  }

  function AfterVisit(s: Store, owner: Id, v: Visit, recipients: Option<seq<Id>>): Store {
    if v.trouble == OnReading then RunFrom(s, v.first)
    else if v.trouble == OnFlipping then Apply(Deciding(s, owner, v), Fail(owner))
    else Apply(RunFrom(Decided(s, owner, v), v.third), Ending(owner, v, recipients))
  }

  function OutcomeOf(s: Store, owner: Id, v: Visit, recipients: Option<seq<Id>>): Outcome {
    if v.trouble == OnReading || v.trouble == OnFlipping then Failed
    else
      match FlippedBy(Deciding(s, owner, v), Decided(s, owner, v))
      case None => Unchanged
      case Some(false) => Restocked
      case Some(true) => if Reaches(v, recipients) then Alerted else Failed
  }

  /** `owner` is between two evaluations. */
  ghost predicate Idle(s: Store, owner: Id) { Sound(s) && owner !in s.evals }

  predicate Early(v: Visit) { v.trouble == OnReading || v.trouble == OnFlipping }

  lemma DecideEnds(s: Store, owner: Id)
    requires !Raising(s, owner)
    ensures var r := Apply(s, Decide(owner));
            && (Raising(r, owner) <==> FlippedBy(s, r) == Some(true))
            && (owner in r.evals <==> Raising(r, owner))
  {
    hide OnHand, Wish;
  }

  lemma MeasureWaits(s: Store, owner: Id, id: Id, seen: Product)
    requires owner !in s.evals
    ensures !Raising(Apply(s, Measure(owner, id, seen)), owner)
  {
  }

  /** However the evaluation ends, its outcome says which tally of its owner grew: a
      raise told, a flag cleared, or a raise lost with its notification. */
  lemma VisitTallies(s: Store, owner: Id, v: Visit, recipients: Option<seq<Id>>)
    requires Idle(s, owner) && AllLeave(v.first, owner) && AllLeave(v.second, owner) && AllLeave(v.third, owner)
    ensures var r := AfterVisit(s, owner, v, recipients);
            var outcome := OutcomeOf(s, owner, v, recipients);
            && Idle(r, owner) && s.seen <= r.seen
            && Told(r, owner) == Told(s, owner) + (if outcome == Alerted then 1 else 0)
            && Cleared(r, owner) == Cleared(s, owner) + (if outcome == Restocked then 1 else 0)
            && Lost(r, owner) == Lost(s, owner) + (if outcome == Failed && !Early(v) then 1 else 0)
  {
    hide Apply, RunFrom, Sound, Told, Lost, Cleared, FlippedBy, AllLeave;
    RunLeaves(s, v.first, owner);
    var a := RunFrom(s, v.first);
    if v.trouble != OnReading {
      var b := Apply(a, Measure(owner, v.id, v.seen));
      SoundStep(a, Measure(owner, v.id, v.seen));
      StepTallies(a, Measure(owner, v.id, v.seen), owner);
      MeasureWaits(a, owner, v.id, v.seen);
      RunLeaves(b, v.second, owner);
      var c := RunFrom(b, v.second);
      if v.trouble == OnFlipping {
        EndsWith(c, Fail(owner), owner);
      } else {
        var d := Apply(c, Decide(owner));
        SoundStep(c, Decide(owner));
        StepTallies(c, Decide(owner), owner);
        DecideEnds(c, owner);
        RunLeaves(d, v.third, owner);
        EndsWith(RunFrom(d, v.third), Ending(owner, v, recipients), owner);
      }
    }
  }

  lemma EndsWith(s: Store, e: Event, owner: Id)
    requires Sound(s) && (e.Fail? || (e.Notify? && (owner in s.evals ==> Raising(s, owner)))) && e.owner == owner
    ensures var r := Apply(s, e);
            && Idle(r, owner) && s.seen <= r.seen && Cleared(r, owner) == Cleared(s, owner)
            && Told(r, owner) == Told(s, owner) + (if e.Notify? && Raising(s, owner) then 1 else 0)
            && Lost(r, owner) == Lost(s, owner) + (if e.Fail? && Raising(s, owner) then 1 else 0)
  {
    hide Sound, Told, Lost, Cleared;
    SoundStep(s, e);
    StepTallies(s, e, owner);
  }

  /** A flag raised by an evaluation is told exactly when telling works out, else lost. */
  lemma RaiseToldIff(s: Store, owner: Id, v: Visit, recipients: Option<seq<Id>>)
    requires Idle(s, owner) && AllLeave(v.first, owner) && AllLeave(v.second, owner) && AllLeave(v.third, owner)
    requires !Early(v) && FlippedBy(Deciding(s, owner, v), Decided(s, owner, v)) == Some(true)
    ensures var (r, dip) := (AfterVisit(s, owner, v, recipients), |Deciding(s, owner, v).flips|);
            && (dip in r.told <==> Reaches(v, recipients))
            && (dip in r.lost <==> !Reaches(v, recipients))
            && NoticesAt(r.notices, dip) == if Reaches(v, recipients) then NoticesFor(dip, recipients.value) else []
  {
    hide Apply, RunFrom, Sound, AllLeave, NoticesAt, FlippedBy;
    var a := RunFrom(s, v.first);
    var b := Apply(a, Measure(owner, v.id, v.seen));
    RunLeaves(s, v.first, owner);
    SoundStep(a, Measure(owner, v.id, v.seen));
    MeasureWaits(a, owner, v.id, v.seen);
    RunLeaves(b, v.second, owner);
    var c := RunFrom(b, v.second);
    var d := Apply(c, Decide(owner));
    SoundStep(c, Decide(owner));
    RaiseWaits(c, owner);
    RunLeaves(d, v.third, owner);
    var e := RunFrom(d, v.third);
    assert DipTracked(e, |c.flips|) by { SoundAt(e, |c.flips|); }
    EndingTells(e, owner, v, recipients, |c.flips|);
  }

  lemma SoundAt(s: Store, dip: nat)
    requires Sound(s)
    ensures DipTracked(s, dip)
  {
  }

  lemma RaiseWaits(s: Store, owner: Id)
    requires FlippedBy(s, Apply(s, Decide(owner))) == Some(true) && !Raising(s, owner)
    ensures owner in Apply(s, Decide(owner)).evals && Apply(s, Decide(owner)).evals[owner] == Alerting(|s.flips|)
  {
    hide OnHand, Wish;
  }

  lemma EndingTells(s: Store, owner: Id, v: Visit, recipients: Option<seq<Id>>, dip: nat)
    requires DipTracked(s, dip) && owner in s.evals && s.evals[owner] == Alerting(dip)
    ensures var r := Apply(s, Ending(owner, v, recipients));
            && (dip in r.told <==> Reaches(v, recipients)) && (dip in r.lost <==> !Reaches(v, recipients))
            && NoticesAt(r.notices, dip) == if Reaches(v, recipients) then NoticesFor(dip, recipients.value) else []
  {
    hide NoticesAt;
    assert Waiting(s, dip);
    if Reaches(v, recipients) { NoticesAppend(s.notices, NoticesFor(dip, recipients.value), dip, dip); }
  }

  // ---- When the flag ends up right ------------------------------------------

  /** With anything at all in its gaps, an evaluation leaves the flag right exactly when
      its verdict is what stock says at the update. */
  lemma VisitRightIff(s: Store, owner: Id, v: Visit)
    requires owner !in s.evals && (v.id, v.seen) in s.seen && v.id in s.products
    requires AllLeave(v.first, owner) && AllLeave(v.second, owner)
    ensures var (t, r) := (Deciding(s, owner, v), Decided(s, owner, v));
            && v.id in t.products && v.id in r.products
            && (Right(r, v.id)
                <==> Verdict(v.seen, OnHand(RunFrom(s, v.first).ledger, v.id), t.products[v.id].belowReorderPoint)
                     == Low(t, v.id))
  {
    hide OnHand, IsLow, AllLeave, RunFrom, Apply;
    EvaluationRightIff(s, owner, v.id, v.seen, v.first, v.second);
  }

  /** Nobody else touches the product of the evaluation: its row from reading to the end,
      its ledger from summing to the end. */
  ghost predicate Undisputed(s: Store, owner: Id, v: Visit) {
    && RowLeftAlone(s, v.first, v.id)
    && LeftAlone(Apply(RunFrom(s, v.first), Measure(owner, v.id, v.seen)), v.second, v.id)
    && LeftAlone(Decided(s, owner, v), v.third, v.id)
  }

  /** Then the flag is right at the end, told or not, whatever happens to other products. */
  lemma VisitLeavesRight(s: Store, owner: Id, v: Visit, recipients: Option<seq<Id>>)
    requires owner !in s.evals && v.id in s.products && v.seen == s.products[v.id] && (v.id, v.seen) in s.seen
    requires AllLeave(v.first, owner) && AllLeave(v.second, owner) && Undisputed(s, owner, v) && !Early(v)
    ensures var r := AfterVisit(s, owner, v, recipients);
            v.id in r.products && Right(r, v.id)
  {
    hide OnHand, IsLow, AllLeave, LeftAlone, RowLeftAlone, RunFrom, Apply, AtDecision, Right;
    UndisturbedEvaluationRight(s, owner, v.id, v.first, v.second);
    var d := Decided(s, owner, v);
    RightStays(d, v.third, v.id);
    EndingKeepsRight(RunFrom(d, v.third), owner, v, recipients);
  }

  lemma EndingKeepsRight(s: Store, owner: Id, v: Visit, recipients: Option<seq<Id>>)
    requires v.id in s.products && Right(s, v.id)
    ensures v.id in Apply(s, Ending(owner, v, recipients)).products
            && Right(Apply(s, Ending(owner, v, recipients)), v.id)
  {
    hide OnHand, IsLow;
  }

  /** The recipients come from the batch's cache, else from a lookup. */
  function Recipients(cache: map<Id, seq<Id>>, v: Visit): Option<seq<Id>> {
    if v.seen.org in cache then Some(cache[v.seen.org]) else v.lookup
  }

  function CacheAfter(s: Store, owner: Id, v: Visit, cache: map<Id, seq<Id>>): map<Id, seq<Id>> {
    if !Early(v) && FlippedBy(Deciding(s, owner, v), Decided(s, owner, v)) == Some(true)
       && v.seen.org !in cache && v.lookup.Some?
    then cache[v.seen.org := v.lookup.value]
    else cache
  }

  /** A whole sweep: one evaluation after another, sharing the cache. */
  function Swept(s: Store, owner: Id, visits: seq<Visit>): (Store, map<Id, seq<Id>>) {
    if visits == [] then (s, map[])
    else
      var last := visits[|visits| - 1];
      var (t, cache) := Swept(s, owner, visits[..|visits| - 1]);
      (AfterVisit(t, owner, last, Recipients(cache, last)), CacheAfter(t, owner, last, cache))
  }

  /** The states and caches between the evaluations of a sweep. Every product is evaluated, in
      order; whom a raise is told comes from the cache, else from the evaluation's own
      lookup; and the cache learns what a lookup found exactly when a raise needed it. */
  ghost predicate Visits(trace: seq<(Store, map<Id, seq<Id>>)>, owner: Id, visits: seq<Visit>) {
    && |trace| == |visits| + 1 && trace[0].1 == map[]
    && forall i | 0 <= i < |visits| ::
         var (v, s, cache) := (visits[i], trace[i].0, trace[i].1);
         var known := if v.seen.org in cache then Some(cache[v.seen.org]) else v.lookup;
         var raised := !Early(v) && FlippedBy(Deciding(s, owner, v), Decided(s, owner, v)) == Some(true);
         && trace[i + 1].0 == AfterVisit(s, owner, v, known)
         && trace[i + 1].1 == if raised && known.Some? then cache[v.seen.org := known.value] else cache
  }

  lemma {:induction false} SweptVisits(s: Store, owner: Id, visits: seq<Visit>)
    returns (trace: seq<(Store, map<Id, seq<Id>>)>)
    ensures Visits(trace, owner, visits) && trace[0].0 == s && trace[|visits|] == Swept(s, owner, visits)
  {
    if visits == [] {
      trace := [(s, map[])];
    } else {
      hide AfterVisit, FlippedBy, Deciding, Decided;
      trace := SweptVisits(s, owner, visits[..|visits| - 1]);
      trace := trace + [Swept(s, owner, visits)];
    }
  }

  /** How many evaluations broke before they could have flipped the flag. */
  function EarlyCount(visits: seq<Visit>): nat {
    if visits == [] then 0
    else EarlyCount(visits[..|visits| - 1]) + if Early(visits[|visits| - 1]) then 1 else 0
  }

  /** Those are the evaluations that fail on reading or on flipping. */
  lemma {:induction false} EarlyCounted(visits: seq<Visit>)
    ensures EarlyCount(visits) == |set i: nat | i < |visits| && visits[i].trouble in {OnReading, OnFlipping}|
  {
    if visits != [] {
      var n := |visits| - 1;
      EarlyCounted(visits[..n]);
      var (before, after) := (set i: nat | i < n && visits[..n][i].trouble in {OnReading, OnFlipping},
                              set i: nat | i < |visits| && visits[i].trouble in {OnReading, OnFlipping});
      assert after == before + if visits[n].trouble in {OnReading, OnFlipping} then {n} else {};
    }
  }

  /** An evaluation with nothing in its way. */
  function Undisturbed(id: Id, seen: Product, recipients: seq<Id>): Visit {
    Visit(id, seen, Some(recipients), NoTrouble, [], [], [])
  }

  // ---- Movements and updates among others -------------------------------------

  /** What goes on around a call: steps of others between its read and its write, a failure
      of the write, and then the surroundings of the evaluation. */
  datatype Around = Around(
    before: seq<Event>, writeFails: bool,
    lookup: Option<seq<Id>>, trouble: Trouble, first: seq<Event>, second: seq<Event>, third: seq<Event>)
  {
    function VisitOf(id: Id, seen: Product): Visit { Visit(id, seen, lookup, trouble, first, second, third) }

    ghost predicate Leave(owner: Id) {
      AllLeave(before, owner) && AllLeave(first, owner) && AllLeave(second, owner) && AllLeave(third, owner)
    }
  }

  function Peaceful(recipients: seq<Id>): Around { Around([], false, Some(recipients), NoTrouble, [], [], []) }

  /** The state in which an accepted movement is in the ledger. */
  function Recorded(s: Store, id: Id, m: Movement, w: Around): Store {
    Apply(RunFrom(Apply(s, See(id)), w.before), Append(m))
  }

  function AfterRecord(s: Store, owner: Id, org: Id, id: Id, kind: Kind, quantity: real, w: Around): Store {
    if !Accepted(s, Record(org, id, kind, quantity, [])) then s
    else if w.writeFails then RunFrom(Apply(s, See(id)), w.before)
    else
      var m := Movement(id, kind, ValidateQuantity(kind, quantity).value);
      AfterVisit(Recorded(s, id, m, w), owner, w.VisitOf(id, s.products[id]), w.lookup)
  }

  /** The patch and the row it returns are one statement. */
  function Written(s: Store, id: Id, reorderPoint: Option<real>, active: Option<bool>, w: Around): Store {
    Patched(RunFrom(s, w.before), id, reorderPoint, active)
  }

  function AfterUpdate(s: Store, owner: Id, org: Id, id: Id, reorderPoint: Option<real>, active: Option<bool>,
                       w: Around): Store
  {
    if !Accepted(s, Call.Update(org, id, reorderPoint, active, [])) then s
    else if w.writeFails || id !in Written(s, id, reorderPoint, active, w).products then RunFrom(s, w.before)
    else
      var written := Written(s, id, reorderPoint, active, w);
      if reorderPoint.None? && active.None? then written
      else AfterVisit(Apply(written, See(id)), owner, w.VisitOf(id, written.products[id]), w.lookup)
  }

  /** Left in peace, these are the calls of `Reorder`. */
  lemma PeacefulCalls(s: Store, owner: Id, org: Id, id: Id, kind: Kind, quantity: real,
                      reorderPoint: Option<real>, active: Option<bool>, recipients: seq<Id>)
    ensures AfterRecord(s, owner, org, id, kind, quantity, Peaceful(recipients))
            == Serve(s, owner, Record(org, id, kind, quantity, recipients))
    ensures AfterUpdate(s, owner, org, id, reorderPoint, active, Peaceful(recipients))
            == Serve(s, owner, Call.Update(org, id, reorderPoint, active, recipients))
  {
    hide Apply, ValidateQuantity, Evaluate, AfterVisit;
    forall t: Store, row: Product
      ensures AfterVisit(t, owner, Undisturbed(id, row, recipients), Some(recipients))
              == Evaluate(t, owner, id, row, recipients)
    {
      UndisturbedVisit(t, owner, id, row, recipients);
    }
    if Accepted(s, Call.Update(org, id, reorderPoint, active, recipients)) { PatchKeeps(s, id, reorderPoint, active); }
  }

  lemma PatchKeeps(s: Store, id: Id, reorderPoint: Option<real>, active: Option<bool>)
    requires id in s.products
    ensures id in Patched(s, id, reorderPoint, active).products
  {
  }

  lemma {:induction false} LedgerGrows(s: Store, es: seq<Event>)
    ensures s.ledger <= RunFrom(s, es).ledger && s.products.Keys <= RunFrom(s, es).products.Keys
  {
    hide Apply;
    if es != [] {
      LedgerGrows(s, es[..|es| - 1]);
      LedgerStep(RunFrom(s, es[..|es| - 1]), es[|es| - 1]);
    }
  }

  lemma LedgerStep(s: Store, e: Event)
    ensures s.ledger <= Apply(s, e).ledger && s.products.Keys <= Apply(s, e).products.Keys
  {
    hide OnHand, Wish, Recordable;
  }

  lemma VisitKeepsLedger(s: Store, owner: Id, v: Visit, recipients: Option<seq<Id>>)
    ensures s.ledger <= AfterVisit(s, owner, v, recipients).ledger
  {
    hide Apply, RunFrom;
    var a := RunFrom(s, v.first);
    LedgerGrows(s, v.first);
    LedgerStep(a, Measure(owner, v.id, v.seen));
    LedgerGrows(Apply(a, Measure(owner, v.id, v.seen)), v.second);
    var c := Deciding(s, owner, v);
    LedgerStep(c, Fail(owner));
    LedgerStep(c, Decide(owner));
    LedgerGrows(Apply(c, Decide(owner)), v.third);
    LedgerStep(RunFrom(Apply(c, Decide(owner)), v.third), Ending(owner, v, recipients));
  }

  lemma AppendAppends(s: Store, m: Movement)
    requires m.product in s.products && Recordable(m)
    ensures Apply(s, Append(m)).ledger == s.ledger + [m]
  {
  }

  /** Once written, a movement stays in the ledger, evaluated or not. */
  lemma RecordedStays(s: Store, owner: Id, org: Id, id: Id, kind: Kind, quantity: real, w: Around)
    requires Accepted(s, Record(org, id, kind, quantity, [])) && !w.writeFails
    ensures var m := Movement(id, kind, ValidateQuantity(kind, quantity).value);
            var t := RunFrom(Apply(s, See(id)), w.before);
            s.ledger <= t.ledger && t.ledger + [m] <= AfterRecord(s, owner, org, id, kind, quantity, w).ledger
    ensures Movement(id, kind, ValidateQuantity(kind, quantity).value)
            in AfterRecord(s, owner, org, id, kind, quantity, w).ledger
  {
    hide Apply, ValidateQuantity, AfterVisit, RunFrom, Recordable;
    QuantityAcceptedIff(id, kind, quantity);
    var m := Movement(id, kind, ValidateQuantity(kind, quantity).value);
    LedgerStep(s, See(id));
    LedgerGrows(Apply(s, See(id)), w.before);
    AppendAppends(RunFrom(Apply(s, See(id)), w.before), m);
    VisitKeepsLedger(Recorded(s, id, m, w), owner, w.VisitOf(id, s.products[id]), w.lookup);
    var t := RunFrom(Apply(s, See(id)), w.before);
    assert AfterRecord(s, owner, org, id, kind, quantity, w).ledger[|t.ledger|] == m;
  }

  /** A call that is refused, or whose write fails, writes nothing of its own: what others did
      before the write is all there is. */
  lemma NothingWritten(s: Store, owner: Id, org: Id, id: Id, kind: Kind, quantity: real,
                       reorderPoint: Option<real>, active: Option<bool>, w: Around)
    ensures !Accepted(s, Record(org, id, kind, quantity, []))
            ==> AfterRecord(s, owner, org, id, kind, quantity, w) == s
    ensures !Accepted(s, Call.Update(org, id, reorderPoint, active, []))
            ==> AfterUpdate(s, owner, org, id, reorderPoint, active, w) == s
    ensures w.writeFails ==>
              && (w.before == [] ==> AfterRecord(s, owner, org, id, kind, quantity, w).ledger == s.ledger)
              && AfterRecord(s, owner, org, id, kind, quantity, w) in {s, RunFrom(Apply(s, See(id)), w.before)}
              && AfterUpdate(s, owner, org, id, reorderPoint, active, w) in {s, RunFrom(s, w.before)}
  {
    hide ValidateQuantity, AfterVisit;
  }

  /** A movement leaves the flag of its product right when nobody else patches the product
      or flips its flag meanwhile, and no movement of it comes in after the sum was taken:
      other products, and movements before the sum, do not matter. */
  lemma RecordLeavesRight(s: Store, owner: Id, org: Id, id: Id, kind: Kind, quantity: real, w: Around)
    requires Accepted(s, Record(org, id, kind, quantity, [])) && !w.writeFails && owner !in s.evals && w.Leave(owner)
    requires w.trouble != OnReading && w.trouble != OnFlipping
    requires RowLeftAlone(Apply(s, See(id)), w.before, id)
    requires var m := Movement(id, kind, ValidateQuantity(kind, quantity).value);
             Undisputed(Recorded(s, id, m, w), owner, w.VisitOf(id, s.products[id]))
    ensures var r := AfterRecord(s, owner, org, id, kind, quantity, w);
            id in r.products && Right(r, id)
  {
    hide Apply, ValidateQuantity, AfterVisit, RunFrom, OnHand, IsLow, RowLeftAlone, Undisputed, AllLeave;
    QuantityAcceptedIff(id, kind, quantity);
    var m := Movement(id, kind, ValidateQuantity(kind, quantity).value);
    var a := Apply(s, See(id));
    SeenAt(s, id);
    EvalStays(a, w.before, owner);
    RowStays(a, w.before, |w.before|, id);
    assert w.before[..|w.before|] == w.before;
    AppendKeeps(RunFrom(a, w.before), m);
    VisitLeavesRight(Recorded(s, id, m, w), owner, w.VisitOf(id, s.products[id]), w.lookup);
  }

  lemma SeenAt(s: Store, id: Id)
    requires id in s.products
    ensures var r := Apply(s, See(id)); (id, s.products[id]) in r.seen && r.products == s.products && r.evals == s.evals
  {
  }

  lemma AppendKeeps(s: Store, m: Movement)
    ensures var r := Apply(s, Append(m)); r.products == s.products && r.evals == s.evals && r.seen == s.seen
  {
  }

  /** So does a threshold or activity change, under the same terms from its write on. */
  lemma UpdateLeavesRight(s: Store, owner: Id, org: Id, id: Id, reorderPoint: Option<real>, active: Option<bool>,
                          w: Around)
    requires Accepted(s, Call.Update(org, id, reorderPoint, active, [])) && !w.writeFails && owner !in s.evals
             && w.Leave(owner)
    requires (reorderPoint.Some? || active.Some?) && w.trouble != OnReading && w.trouble != OnFlipping
    requires id in Written(s, id, reorderPoint, active, w).products
    requires var t := Written(s, id, reorderPoint, active, w);
             Undisputed(Apply(t, See(id)), owner, w.VisitOf(id, t.products[id]))
    ensures var r := AfterUpdate(s, owner, org, id, reorderPoint, active, w);
            id in r.products && Right(r, id)
  {
    hide Apply, AfterVisit, RunFrom, OnHand, IsLow, Undisputed, AllLeave;
    EvalStays(s, w.before, owner);
    var t := Written(s, id, reorderPoint, active, w);
    PatchKeepsEvals(RunFrom(s, w.before), id, reorderPoint, active);
    SeenAt(t, id);
    VisitLeavesRight(Apply(t, See(id)), owner, w.VisitOf(id, t.products[id]), w.lookup);
  }

  lemma PatchKeepsEvals(s: Store, id: Id, reorderPoint: Option<real>, active: Option<bool>)
    ensures Patched(s, id, reorderPoint, active).evals == s.evals
  {
  }

  // ---- The tables ---------------------------------------------------------

  datatype Refusal = Invalid | NotFound | Failure

  class Database {
    var products: map<Id, Product>
    var ledger: seq<Movement>
    var evals: map<Id, Eval>
    var notices: seq<Notice>
    var flips: seq<Flip>
    var told: map<nat, seq<Id>>
    var lost: set<nat>
    var seen: set<(Id, Product)>

    function Now(): Store
      reads this
    {
      Store(products, ledger, evals, notices, flips, told, lost, seen)
    }

    constructor ()
      ensures Now() == Init
    {
      products, ledger, evals, notices, flips, told, lost, seen := map[], [], map[], [], [], map[], {}, {};
    }

    method Create(id: Id, org: Id, reorderPoint: nat, active: bool)
      modifies this
      ensures Now() == Apply(old(Now()), Event.Create(id, org, reorderPoint, active))
    {
      if id !in products { products := products[id := Product(org, Some(reorderPoint), active, false)]; }
    }

    /** The patch object, field by field, then the row. */
    method Patch(id: Id, newPoint: Option<nat>, newActive: Option<bool>)
      modifies this
      ensures Now() == Apply(old(Now()), Event.Patch(id, newPoint, newActive))
    {
      if id !in products { return; }
      var row := products[id];
      if newPoint.Some? { row := row.(reorderPoint := Some(newPoint.value)); }
      if newActive.Some? { row := row.(active := newActive.value); }
      products := products[id := row];
    }

    method Append(m: Movement)
      modifies this
      ensures Now() == Apply(old(Now()), Event.Append(m))
    {
      if m.product in products && Recordable(m) { ledger := ledger + [m]; }
    }

    method See(id: Id)
      modifies this
      ensures Now() == Apply(old(Now()), Event.See(id))
    {
      if id in products { seen := seen + {(id, products[id])}; }
    }

    /** Sums the ledger for one product, by kind, as the grouped query does. */
    method Measure(owner: Id, id: Id, row: Product)
      modifies this
      ensures Now() == Apply(old(Now()), Event.Measure(owner, id, row))
    {
      if owner in evals || (id, row) !in seen { return; }
      var groups := GroupOne(ledger, id);
      var stock := OnHandFor(ledger, {id}, groups);
      evals := evals[owner := Measured(id, row, if id in stock then stock[id] else 0)];
    }

    /** The guarded update, and which way it flipped the flag if it did. */
    method Decide(owner: Id) returns (flipped: Option<bool>)
      modifies this
      ensures Now() == Apply(old(Now()), Event.Decide(owner)) && flipped == FlippedBy(old(Now()), Now())
    {
      flipped := None;
      if owner !in evals || evals[owner].Alerting? { return; }
      var (id, row) := (evals[owner].id, evals[owner].seen);
      var isLow := row.active && IsBelowReorderPoint(evals[owner].onHand, row.reorderPoint);
      evals := evals - {owner};
      if isLow && !row.belowReorderPoint {
        if id in products && !products[id].belowReorderPoint {
          products := products[id := products[id].(belowReorderPoint := true)];
          evals := evals[owner := Alerting(|flips|)];
          flips := flips + [Flip(id, true, owner)];
          flipped := Some(true);
        }
      } else if !isLow && row.belowReorderPoint {
        if id in products && products[id].belowReorderPoint {
          products := products[id := products[id].(belowReorderPoint := false)];
          flips := flips + [Flip(id, false, owner)];
          flipped := Some(false);
        }
      }
    }

    method Notify(owner: Id, recipients: seq<Id>)
      modifies this
      ensures Now() == Apply(old(Now()), Event.Notify(owner, recipients))
    {
      if owner !in evals || !evals[owner].Alerting? { return; }
      var dip := evals[owner].dip;
      evals := evals - {owner};
      if |recipients| > 0 { notices := notices + NoticesFor(dip, recipients); }
      told := told[dip := recipients];
    }

    method Fail(owner: Id)
      modifies this
      ensures Now() == Apply(old(Now()), Event.Fail(owner))
    {
      if owner !in evals { return; }
      if evals[owner].Alerting? { lost := lost + {evals[owner].dip}; }
      evals := evals - {owner};
    }

    method Do(e: Event)
      modifies this
      ensures Now() == Apply(old(Now()), e)
    {
      match e
      case Create(id, org, reorderPoint, active) => Create(id, org, reorderPoint, active);
      case Patch(id, newPoint, newActive) => Patch(id, newPoint, newActive);
      case Append(m) => Append(m);
      case See(id) => See(id);
      case Measure(owner, id, row) => Measure(owner, id, row);
      case Decide(owner) => var _ := Decide(owner);
      case Notify(owner, recipients) => Notify(owner, recipients);
      case Fail(owner) => Fail(owner);
    }

    method Others(es: seq<Event>)
      modifies this
      ensures Now() == RunFrom(old(Now()), es)
    {
      hide Apply;
      var i := 0;
      while i < |es|
        invariant 0 <= i <= |es|
        invariant Now() == RunFrom(old(Now()), es[..i])
      {
        Do(es[i]);
        i := i + 1;
        assert es[..i][..i - 1] == es[..i - 1];
      }
      assert es[..i] == es;
    }

    /** Edge-triggers the alert for one product; the recipients of its organisation are
        looked up once and kept in `cache`. */
    method EvaluateReorderAlert(owner: Id, v: Visit, cache: map<Id, seq<Id>>)
      returns (outcome: Outcome, cache': map<Id, seq<Id>>)
      requires owner !in evals && AllLeave(v.first, owner) && AllLeave(v.second, owner) && AllLeave(v.third, owner)
      modifies this
      ensures Now() == AfterVisit(old(Now()), owner, v, Recipients(cache, v))
      ensures outcome == OutcomeOf(old(Now()), owner, v, Recipients(cache, v))
      ensures cache' == CacheAfter(old(Now()), owner, v, cache)
    {
      hide Apply, RunFrom;
      cache' := cache;
      Others(v.first);
      if v.trouble == OnReading { return Failed, cache'; }
      Measure(owner, v.id, v.seen);
      Others(v.second);
      if v.trouble == OnFlipping { Fail(owner); return Failed, cache'; }
      var flipped := Decide(owner);
      Others(v.third);
      if flipped == Some(true) && v.seen.org !in cache && v.lookup.Some? {
        cache' := cache[v.seen.org := v.lookup.value];
      }
      if Reaches(v, Recipients(cache, v)) {
        Notify(owner, Recipients(cache, v).value);
      } else {
        Fail(owner);
      }
      outcome := match flipped
        case None => Unchanged
        case Some(false) => Restocked
        case Some(true) => if Reaches(v, Recipients(cache, v)) then Alerted else Failed;
    }

    /** The sweep: `alerted` counts its raises that were notified, `restocked` its clears,
        and `failed` the evaluations that broke before the flip plus the raises lost with
        their notification, whatever others do in between. */
    method Process(owner: Id, visits: seq<Visit>)
      returns (alerted: nat, restocked: nat, failed: nat, ghost trace: seq<(Store, map<Id, seq<Id>>)>)
      requires Idle(Now(), owner)
      requires forall v | v in visits ::
                 AllLeave(v.first, owner) && AllLeave(v.second, owner) && AllLeave(v.third, owner)
      modifies this
      ensures Idle(Now(), owner) && Visits(trace, owner, visits)
      ensures trace[0].0 == old(Now()) && trace[|visits|].0 == Now()
      ensures Told(Now(), owner) == Told(old(Now()), owner) + alerted
      ensures Cleared(Now(), owner) == Cleared(old(Now()), owner) + restocked
      ensures EarlyCount(visits) + Lost(Now(), owner) == Lost(old(Now()), owner) + failed
      ensures forall ids, members | Peace(old(Now()), visits, ids, members) ::
                forall id | id in ids :: id in products && Right(Now(), id)
    {
      hide Visits, Peace, Right, AfterVisit, OutcomeOf, CacheAfter, Sound, Told, Lost, Cleared, AllLeave;
      alerted, restocked, failed := 0, 0, 0;
      trace := SweptVisits(Now(), owner, visits);
      var recipientsCache: map<Id, seq<Id>> := map[];
      for i := 0 to |visits|
        invariant Idle(Now(), owner) && (Now(), recipientsCache) == Swept(old(Now()), owner, visits[..i])
        invariant Told(Now(), owner) == Told(old(Now()), owner) + alerted
        invariant Cleared(Now(), owner) == Cleared(old(Now()), owner) + restocked
        invariant EarlyCount(visits[..i]) + Lost(Now(), owner) == Lost(old(Now()), owner) + failed
      {
        var v := visits[i];
        VisitTallies(Now(), owner, v, Recipients(recipientsCache, v));
        EarlyFails(Now(), owner, v, Recipients(recipientsCache, v));
        var outcome;
        outcome, recipientsCache := EvaluateReorderAlert(owner, v, recipientsCache);
        assert visits[..i + 1][..i] == visits[..i];
        if outcome == Alerted { alerted := alerted + 1; }
        else if outcome == Restocked { restocked := restocked + 1; }
        else if outcome == Failed { failed := failed + 1; }
      }
      assert visits[..|visits|] == visits;
      forall ids, members | Peace(old(Now()), visits, ids, members)
        ensures forall id | id in ids :: id in products && Right(Now(), id)
      {
        PeaceSettles(old(Now()), owner, visits, ids, members);
      }
    }

    /** Appends a movement and re-evaluates its product. A failure of the evaluation fails
        the call, but the movement stays recorded. */
    method RecordMovement(owner: Id, org: Id, id: Id, kind: Kind, quantity: real, w: Around)
      returns (r: Result<Movement, Refusal>)
      requires owner !in evals && w.Leave(owner)
      modifies this
      ensures Now() == AfterRecord(old(Now()), owner, org, id, kind, quantity, w)
      ensures r == Err(Invalid) <==> ValidateQuantity(kind, quantity).Err?
      ensures r == Err(NotFound) <==> ValidateQuantity(kind, quantity).Ok? && !Found(old(Now()), org, id)
      ensures r.Ok? ==> r.value.product == id && r.value.kind == kind && r.value.quantity as real == quantity
      ensures Accepted(old(Now()), Record(org, id, kind, quantity, [])) && !w.writeFails
              ==> Movement(id, kind, ValidateQuantity(kind, quantity).value) in ledger
      ensures r.Ok? || r == Err(Failure) <==> Accepted(old(Now()), Record(org, id, kind, quantity, []))
      ensures w.trouble == OnReading || w.trouble == OnFlipping ==> !r.Ok?
    {
      hide OnHand, Apply, RunFrom, AfterVisit, OutcomeOf;
      QuantityAcceptedIff(id, kind, quantity);
      var q := ValidateQuantity(kind, quantity);
      if q.Err? { return Err(Invalid); }
      if id !in products || products[id].org != org { return Err(NotFound); }
      if !w.writeFails { RecordedStays(Now(), owner, org, id, kind, quantity, w); }
      ghost var s := Now();
      var row := products[id];
      See(id);
      Others(w.before);
      if w.writeFails { return Err(Failure); }
      var m := Movement(id, kind, q.value);
      EvalStays(Apply(s, Event.See(id)), w.before, owner);
      assert owner !in evals by { SeenAt(s, id); }
      AppendKeeps(Now(), m);
      Append(m);
      var v := w.VisitOf(id, row);
      EarlyFails(Now(), owner, v, w.lookup);
      var outcome, _ := EvaluateReorderAlert(owner, v, map[]);
      r := if outcome == Failed then Err(Failure) else Ok(m);
    }

    /** Patches a product, and re-evaluates it when its threshold or its activity was given. */
    method Update(owner: Id, org: Id, id: Id, reorderPoint: Option<real>, active: Option<bool>, w: Around)
      returns (r: Result<Product, Refusal>)
      requires owner !in evals && w.Leave(owner)
      modifies this
      ensures Now() == AfterUpdate(old(Now()), owner, org, id, reorderPoint, active, w)
      ensures r == Err(NotFound) <==> !Found(old(Now()), org, id)
      ensures r == Err(Invalid)
              <==> Found(old(Now()), org, id) && reorderPoint.Some? && RequireNonNegativeInt(reorderPoint.value).None?
      ensures r.Ok? && reorderPoint.Some? ==> r.value.reorderPoint == RequireNonNegativeInt(reorderPoint.value)
      ensures r.Ok? && active.Some? ==> r.value.active == active.value
    {
      hide OnHand, RunFrom, AfterVisit, OutcomeOf;
      if id !in products || products[id].org != org { return Err(NotFound); }
      var newPoint: Option<nat> := None;
      if reorderPoint.Some? {
        newPoint := RequireNonNegativeInt(reorderPoint.value);
        if newPoint.None? { return Err(Invalid); }
      }
      EvalStays(Now(), w.before, owner);
      ProductStaysAlong(Now(), w.before, id);
      Others(w.before);
      if w.writeFails { return Err(Failure); }
      Patch(id, newPoint, active);
      var row := products[id];
      if reorderPoint.Some? || active.Some? {
        See(id);
        var outcome, _ := EvaluateReorderAlert(owner, w.VisitOf(id, row), map[]);
        if outcome == Failed { return Err(Failure); }
      }
      r := Ok(row);
    }
  }

  lemma EarlyFails(s: Store, owner: Id, v: Visit, recipients: Option<seq<Id>>)
    ensures Early(v) ==> OutcomeOf(s, owner, v, recipients) == Failed
  {
  }

  lemma UndisturbedVisit(s: Store, owner: Id, id: Id, row: Product, recipients: seq<Id>)
    ensures AfterVisit(s, owner, Undisturbed(id, row, recipients), Some(recipients))
            == Evaluate(s, owner, id, row, recipients)
  {
    hide Apply;
  }

  function Undisturbeds(ids: seq<Id>, rows: map<Id, Product>, members: map<Id, seq<Id>>): (r: seq<Visit>)
    requires forall id | id in ids :: id in rows
    ensures |r| == |ids|
  {
    if ids == [] then []
    else
      var (init, last) := (ids[..|ids| - 1], ids[|ids| - 1]);
      Undisturbeds(init, rows, members) + [Undisturbed(last, rows[last], MembersOf(members, rows[last].org))]
  }

  /** With nobody else about and no failure, the worker's sweep is the sweep call of
      `Reorder`, so what is proved of calls one at a time holds of it. */
  lemma {:induction false} QuietSweep(s: Store, owner: Id, ids: seq<Id>, rows: map<Id, Product>,
                                      members: map<Id, seq<Id>>)
    requires forall id | id in ids :: id in rows
    ensures var swept := Swept(s, owner, Undisturbeds(ids, rows, members));
            && swept.0 == EvaluateAll(s, owner, ids, rows, members)
            && forall org | org in swept.1 :: swept.1[org] == MembersOf(members, org)
  {
    hide AfterVisit, Evaluate;
    if ids != [] {
      var (init, last) := (ids[..|ids| - 1], ids[|ids| - 1]);
      var visits := Undisturbeds(ids, rows, members);
      var recipients := MembersOf(members, rows[last].org);
      QuietSweep(s, owner, init, rows, members);
      assert visits[..|visits| - 1] == Undisturbeds(init, rows, members);
      UndisturbedVisit(EvaluateAll(s, owner, init, rows, members), owner, last, rows[last], recipients);
    }
  }

  /** A sweep of rows as they are, each once, that nothing disturbs. */
  ghost predicate Peace(s: Store, visits: seq<Visit>, ids: seq<Id>, members: map<Id, seq<Id>>) {
    && (forall i, j | 0 <= i < j < |ids| :: ids[i] != ids[j])
    && (forall id | id in ids :: id in s.products && (id, s.products[id]) in s.seen)
    && visits == Undisturbeds(ids, s.products, members)
  }

  /** It leaves the flag of every product it was handed right. */
  lemma PeaceSettles(s: Store, owner: Id, visits: seq<Visit>, ids: seq<Id>, members: map<Id, seq<Id>>)
    requires owner !in s.evals && Peace(s, visits, ids, members)
    ensures var r := Swept(s, owner, visits).0; forall id | id in ids :: id in r.products && Right(r, id)
  {
    hide Swept, EvaluateAll, OnHand, IsBelowReorderPoint, Undisturbeds;
    QuietSweep(s, owner, ids, s.products, members);
    SweepSettles(s, owner, ids, members);
  }

  /** The grouped query for one product: a row for each kind that occurs. */
  method GroupOne(ledger: seq<Movement>, id: Id) returns (rows: seq<MovementSum>)
    ensures Grouping(rows, ledger, {id})
  {
    rows := [];
    var kinds := [IN, OUT, ADJUST];
    for k := 0 to 3
      invariant forall i, j | 0 <= i < j < |rows| :: rows[i].kind != rows[j].kind
      invariant forall r | r in rows ::
                  r.product == id && r.kind in kinds[..k] && r.sum == Some(Sums.SumOf(QuantityFor(id, r.kind), ledger))
      invariant forall m | m in ledger && m.product == id && m.kind in kinds[..k] ::
                  exists r :: r in rows && r.product == id && r.kind == m.kind
    {
      ghost var was := rows;
      if m :| m in ledger && m.product == id && m.kind == kinds[k] {
        rows := rows + [MovementSum(id, kinds[k], Some(Sums.SumOf(QuantityFor(id, kinds[k]), ledger)))];
      }
      assert rows == was || rows[|was|] in rows;
    }
    assert kinds[..3] == [IN, OUT, ADJUST];
    assert forall kind: Kind :: kind in kinds[..3] by {
      forall kind: Kind ensures kind in kinds[..3] { assert kind == IN || kind == OUT || kind == ADJUST; }
    }
  }
}
