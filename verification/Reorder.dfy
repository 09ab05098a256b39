/** The reorder flag over the stock ledger. An evaluation reads a product row, later sums
    the ledger, later flips the flag by a guarded update, later notifies; evaluations,
    movements and threshold changes of any number of callers interleave. */
module Reorder {
  import opened Options
  import opened Stock
  import opened Sums

  datatype Product = Product(org: Id, reorderPoint: Option<int>, active: bool, belowReorderPoint: bool)

  /** An evaluation under way: on-hand read, or the flag raised and nobody told yet. */
  datatype Eval =
    | Measured(id: Id, seen: Product, onHand: int)
    | Alerting(dip: nat)

  datatype Flip = Flip(product: Id, raised: bool, owner: Id)

  /** A notification, with the raise it belongs to (by position among the flips). */
  datatype Notice = Notice(user: Id, dip: nat)

  datatype Store = Store(
    products: map<Id, Product>,
    ledger: seq<Movement>,
    evals: map<Id, Eval>,             // by owner: a caller runs one evaluation at a time
    notices: seq<Notice>,
    flips: seq<Flip>,                 // record of the flips that took effect
    told: map<nat, seq<Id>>,          // record of the raises notified, with the recipients
    lost: set<nat>,                   // record of the raises whose notification failed
    seen: set<(Id, Product)>)         // record of the rows handed to evaluations

  const Init := Store(map[], [], map[], [], [], map[], {}, {})

  /** What the flag is meant to say. */
  predicate IsLow(p: Product, onHand: int) { p.active && IsBelowReorderPoint(onHand, p.reorderPoint) }

  predicate Low(s: Store, id: Id)
    requires id in s.products
  {
    IsLow(s.products[id], OnHand(s.ledger, id))
  }

  // ---- Steps -------------------------------------------------------------

  datatype Event =
    | Create(id: Id, org: Id, reorderPoint: nat, active: bool)
    | Patch(id: Id, newPoint: Option<nat>, newActive: Option<bool>)
    | Append(movement: Movement)
    | See(id: Id)
    | Measure(owner: Id, id: Id, seen: Product)
    | Decide(owner: Id)
    | Notify(owner: Id, recipients: seq<Id>)
    | Fail(owner: Id)

  function Apply(s: Store, e: Event): Store {
    match e
    case Create(id, org, reorderPoint, active) =>
      if id in s.products then s else s.(products := s.products[id := Product(org, Some(reorderPoint), active, false)])
    case Patch(id, newPoint, newActive) => AfterPatch(s, id, newPoint, newActive)
    case Append(m) =>
      if m.product in s.products && Recordable(m) then s.(ledger := s.ledger + [m]) else s
    case See(id) => if id in s.products then s.(seen := s.seen + {(id, s.products[id])}) else s
    case Measure(owner, id, seen) =>
      if owner in s.evals || (id, seen) !in s.seen then s
      else s.(evals := s.evals[owner := Measured(id, seen, OnHand(s.ledger, id))])
    case Decide(owner) => AfterDecide(s, owner)
    case Notify(owner, recipients) => AfterNotify(s, owner, recipients)
    case Fail(owner) =>
      if owner !in s.evals then s
      else s.(evals := s.evals - {owner},
              lost := if s.evals[owner].Alerting? then s.lost + {s.evals[owner].dip} else s.lost)
  }

  function AfterPatch(s: Store, id: Id, reorderPoint: Option<nat>, active: Option<bool>): Store {
    if id !in s.products then s
    else
      var p := s.products[id];
      s.(products := s.products[id := p.(reorderPoint := if reorderPoint.Some? then reorderPoint else p.reorderPoint,
                                         active := active.GetOr(p.active))])
  }

  /** Which way an evaluation wants the flag, from the row and the sum it read. */
  function Wish(seen: Product, onHand: int): Option<bool> {
    if IsLow(seen, onHand) == seen.belowReorderPoint then None else Some(IsLow(seen, onHand))
  }

  /** The guarded update: it takes effect only on a row whose flag is the other way. */
  function AfterDecide(s: Store, owner: Id): Store {
    if owner !in s.evals || s.evals[owner].Alerting? then s
    else
      var (id, wish) := (s.evals[owner].id, Wish(s.evals[owner].seen, s.evals[owner].onHand));
      if wish.None? || id !in s.products || s.products[id].belowReorderPoint == wish.value
      then s.(evals := s.evals - {owner})
      else
        s.(products := s.products[id := s.products[id].(belowReorderPoint := wish.value)],
           flips := s.flips + [Flip(id, wish.value, owner)],
           evals := if wish.value then s.evals[owner := Alerting(|s.flips|)] else s.evals - {owner})
  }

  function AfterNotify(s: Store, owner: Id, recipients: seq<Id>): Store {
    if owner !in s.evals || !s.evals[owner].Alerting? then s
    else
      var dip := s.evals[owner].dip;
      s.(evals := s.evals - {owner},
         notices := s.notices + NoticesFor(dip, recipients),
         told := s.told[dip := recipients])
  }

  function NoticesFor(dip: nat, recipients: seq<Id>): (r: seq<Notice>)
    ensures |r| == |recipients|
    ensures forall i | 0 <= i < |r| :: r[i] == Notice(recipients[i], dip)
  {
    seq(|recipients|, i requires 0 <= i < |recipients| => Notice(recipients[i], dip))
  }

  function RunFrom(s: Store, es: seq<Event>): Store {
    if es == [] then s else Apply(RunFrom(s, es[..|es| - 1]), es[|es| - 1])
  }

  function Run(es: seq<Event>): Store { RunFrom(Init, es) }

  // ---- Every interleaving: raises and clears alternate ---------------------

  function FlipsOf(flips: seq<Flip>, id: Id): seq<Flip> {
    if flips == [] then []
    else FlipsOf(flips[..|flips| - 1], id) + if flips[|flips| - 1].product == id then [flips[|flips| - 1]] else []
  }

  /** Raise, clear, raise, ... and the flag is where the last flip left it. */
  ghost predicate Alternates(s: Store, id: Id) {
    var flips := FlipsOf(s.flips, id);
    && (forall i | 0 <= i < |flips| :: flips[i].raised <==> i % 2 == 0)
    && (flips != [] ==> id in s.products)
    && (id in s.products ==> (s.products[id].belowReorderPoint <==> |flips| % 2 == 1))
  }

  lemma FlipsNext(flips: seq<Flip>, f: Flip, id: Id)
    ensures FlipsOf(flips + [f], id) == FlipsOf(flips, id) + if f.product == id then [f] else []
  {
    assert (flips + [f])[..|flips|] == flips;
  }

  lemma AlternatesDecide(s: Store, owner: Id, id: Id)
    requires Alternates(s, id)
    ensures Alternates(AfterDecide(s, owner), id)
  {
    hide OnHand, Wish, FlipsOf;
    if owner in s.evals && s.evals[owner].Measured? && Wish(s.evals[owner].seen, s.evals[owner].onHand).Some? {
      FlipsNext(s.flips, Flip(s.evals[owner].id, Wish(s.evals[owner].seen, s.evals[owner].onHand).value, owner), id);
    }
  }

  lemma AlternatesStep(s: Store, e: Event, id: Id)
    requires Alternates(s, id)
    ensures Alternates(Apply(s, e), id)
  {
    hide OnHand, Recordable, AfterDecide, FlipsOf;
    if e.Decide? { AlternatesDecide(s, e.owner, id); }
  }

  /** In every interleaving the flips of a product that take effect strictly alternate,
      beginning with a raise. */
  lemma {:induction false} FlipsAlternate(es: seq<Event>, id: Id)
    ensures Alternates(Run(es), id)
  {
    hide Apply;
    if es != [] {
      FlipsAlternate(es[..|es| - 1], id);
      AlternatesStep(Run(es[..|es| - 1]), es[|es| - 1], id);
    }
  }

  // ---- Every interleaving: one notification a raise ------------------------

  function NoticesAt(notices: seq<Notice>, dip: nat): seq<Notice> {
    if notices == [] then []
    else NoticesAt(notices[..|notices| - 1], dip)
         + if notices[|notices| - 1].dip == dip then [notices[|notices| - 1]] else []
  }

  lemma {:induction false} NoticesAppend(notices: seq<Notice>, more: seq<Notice>, at: nat, dip: nat)
    requires forall i | 0 <= i < |more| :: more[i].dip == at
    ensures NoticesAt(notices + more, dip) == NoticesAt(notices, dip) + if at == dip then more else []
  {
    var all := notices + more;
    if more == [] {
      assert all == notices;
    } else {
      NoticesAppend(notices, more[..|more| - 1], at, dip);
      assert all[..|all| - 1] == notices + more[..|more| - 1];
    }
  }

  /** The raise at `dip` is waiting to be notified by the evaluation that made it. */
  predicate Waiting(s: Store, dip: nat) {
    dip < |s.flips| && s.flips[dip].owner in s.evals && s.evals[s.flips[dip].owner] == Alerting(dip)
  }

  /** A raise is notified, or waiting, or its notification failed; never two of these.
      Its notifications are one a recipient if notified and none otherwise, and what is
      not a raise has none. */
  ghost predicate DipTracked(s: Store, dip: nat) {
    && (dip in s.told || dip in s.lost || Waiting(s, dip) <==> dip < |s.flips| && s.flips[dip].raised)
    && !(dip in s.told && dip in s.lost) && !(dip in s.told && Waiting(s, dip)) && !(dip in s.lost && Waiting(s, dip))
    && NoticesAt(s.notices, dip) == (if dip in s.told then NoticesFor(dip, s.told[dip]) else [])
    && (forall owner | owner in s.evals && s.evals[owner] == Alerting(dip) ::
          dip < |s.flips| && s.flips[dip].owner == owner)
  }

  lemma DipStep(s: Store, e: Event, dip: nat)
    requires DipTracked(s, dip) && DipTracked(s, |s.flips|)
    ensures DipTracked(Apply(s, e), dip)
  {
    hide OnHand, IsLow, Recordable, NoticesAt;
    if e.Notify? && e.owner in s.evals && s.evals[e.owner].Alerting? {
      NoticesAppend(s.notices, NoticesFor(s.evals[e.owner].dip, e.recipients), s.evals[e.owner].dip, dip);
    }
  }

  lemma {:induction false} OneNotificationADip(es: seq<Event>, dip: nat)
    ensures DipTracked(Run(es), dip)
  {
    hide Apply, DipTracked;
    if es == [] {
      NothingYet(dip);
    } else {
      var s := Run(es[..|es| - 1]);
      OneNotificationADip(es[..|es| - 1], dip);
      OneNotificationADip(es[..|es| - 1], |s.flips|);
      DipStep(s, es[|es| - 1], dip);
    }
  }

  lemma NothingYet(dip: nat)
    ensures DipTracked(Init, dip)
  {
  }

  // ---- Calls one at a time -------------------------------------------------

  /** An evaluation nobody interrupts. */
  function Evaluate(s: Store, owner: Id, id: Id, seen: Product, recipients: seq<Id>): Store {
    Apply(Apply(Apply(s, Measure(owner, id, seen)), Decide(owner)), Notify(owner, recipients))
  }

  /** An evaluation of the row as it is makes the flag say what it should. */
  lemma EvaluateSettles(s: Store, owner: Id, id: Id, recipients: seq<Id>)
    requires id in s.products && (id, s.products[id]) in s.seen && owner !in s.evals
    ensures var r := Evaluate(s, owner, id, s.products[id], recipients);
            && r.products == s.products[id := s.products[id].(belowReorderPoint := Low(s, id))]
            && r.ledger == s.ledger && r.evals == s.evals && r.seen == s.seen
  {
    hide OnHand, IsLow;
  }

  /** It tells each recipient once when it raises the flag, and nobody else ever. */
  lemma EvaluateTells(s: Store, owner: Id, id: Id, recipients: seq<Id>)
    requires id in s.products && (id, s.products[id]) in s.seen && owner !in s.evals
    ensures var (r, flagged) := (Evaluate(s, owner, id, s.products[id], recipients), s.products[id].belowReorderPoint);
            && r.flips == s.flips + (if flagged == Low(s, id) then [] else [Flip(id, !flagged, owner)])
            && |r.notices| == |s.notices| + (if !flagged && Low(s, id) then |recipients| else 0)
            && (forall i | 0 <= i < |s.notices| :: r.notices[i] == s.notices[i])
            && (forall i | 0 <= i < |r.notices| - |s.notices| ::
                  r.notices[|s.notices| + i] == Notice(recipients[i], |s.flips|))
  {
    hide OnHand, IsLow;
  }

  function RequireNonNegativeInt(value: real): Option<nat> {
    if value == value.Floor as real && value >= 0.0 then Some(value.Floor) else None
  }

  datatype Call =
    | Add(id: Id, org: Id, reorderPoint: Option<real>, active: Option<bool>)
    | Record(org: Id, id: Id, kind: Kind, quantity: real, recipients: seq<Id>)
    | Update(org: Id, id: Id, reorderPoint: Option<real>, active: Option<bool>, recipients: seq<Id>)
    | Sweep(ids: seq<Id>, members: map<Id, seq<Id>>)

  /** The rows a sweep may be handed, in some order and up to some limit. */
  predicate Candidates(s: Store, ids: seq<Id>) {
    && (forall i, j | 0 <= i < j < |ids| :: ids[i] != ids[j])
    && (forall id | id in ids :: id in s.products && Tracked(s.products[id]))
  }

  predicate Tracked(p: Product) { p.active && p.reorderPoint.Some? && p.reorderPoint.value > 0 }

  function SeeAll(s: Store, ids: seq<Id>): Store {
    if ids == [] then s else Apply(SeeAll(s, ids[..|ids| - 1]), See(ids[|ids| - 1]))
  }

  /** Whom a lookup finds for an organisation. */
  function MembersOf(members: map<Id, seq<Id>>, org: Id): seq<Id> { if org in members then members[org] else [] }

  function EvaluateAll(s: Store, owner: Id, ids: seq<Id>, rows: map<Id, Product>, members: map<Id, seq<Id>>): Store
    requires forall id | id in ids :: id in rows
  {
    if ids == [] then s
    else
      var (init, last) := (ids[..|ids| - 1], ids[|ids| - 1]);
      Evaluate(EvaluateAll(s, owner, init, rows, members), owner, last, rows[last], MembersOf(members, rows[last].org))
  }

  predicate Found(s: Store, org: Id, id: Id) { id in s.products && s.products[id].org == org }

  function Patched(s: Store, id: Id, reorderPoint: Option<real>, active: Option<bool>): Store {
    Apply(s, Patch(id, if reorderPoint.Some? then RequireNonNegativeInt(reorderPoint.value) else None, active))
  }

  /** The call passes its checks; the rest change nothing. */
  predicate Accepted(s: Store, c: Call) {
    match c
    case Add(id, _, reorderPoint, _) => RequireNonNegativeInt(reorderPoint.GetOr(0.0)).Some? && id !in s.products
    case Record(org, id, kind, quantity, _) => ValidateQuantity(kind, quantity).Ok? && Found(s, org, id)
    case Update(org, id, reorderPoint, _, _) =>
      Found(s, org, id) && (reorderPoint.Some? ==> RequireNonNegativeInt(reorderPoint.value).Some?)
    case Sweep(ids, _) => Candidates(s, ids)
  }

  /** One call from start to finish, without a failure and with nobody else about. */
  function Serve(s: Store, owner: Id, c: Call): Store {
    if !Accepted(s, c) then s
    else
      match c
      case Add(id, org, reorderPoint, active) =>
        Apply(s, Create(id, org, RequireNonNegativeInt(reorderPoint.GetOr(0.0)).value, active.GetOr(true)))
      case Record(org, id, kind, quantity, recipients) =>
        var moved := Apply(Apply(s, See(id)), Append(Movement(id, kind, ValidateQuantity(kind, quantity).value)));
        Evaluate(moved, owner, id, s.products[id], recipients)
      case Update(org, id, reorderPoint, active, recipients) =>
        var patched := Patched(s, id, reorderPoint, active);
        if reorderPoint.None? && active.None? then patched
        else Evaluate(Apply(patched, See(id)), owner, id, patched.products[id], recipients)
      case Sweep(ids, members) => EvaluateAll(SeeAll(s, ids), owner, ids, s.products, members)
  }

  /** The call re-evaluates `id`. */
  predicate Covers(s: Store, c: Call, id: Id) {
    && Accepted(s, c)
    && match c
       case Add(_, _, _, _) => false
       case Record(_, moved, _, _, _) => moved == id
       case Update(_, patched, reorderPoint, active, _) => patched == id && (reorderPoint.Some? || active.Some?)
       case Sweep(ids, _) => id in ids
  }

  lemma {:induction false} SeeAllSees(s: Store, ids: seq<Id>)
    requires forall id | id in ids :: id in s.products
    ensures SeeAll(s, ids) == s.(seen := SeeAll(s, ids).seen)
    ensures forall id | id in ids :: (id, s.products[id]) in SeeAll(s, ids).seen
  {
    if ids != [] { SeeAllSees(s, ids[..|ids| - 1]); }
  }

  lemma {:induction false} SweepSettles(s: Store, owner: Id, ids: seq<Id>, members: map<Id, seq<Id>>)
    requires owner !in s.evals && forall i, j | 0 <= i < j < |ids| :: ids[i] != ids[j]
    requires forall id | id in ids :: id in s.products && (id, s.products[id]) in s.seen
    ensures var r := EvaluateAll(s, owner, ids, s.products, members);
            && r.ledger == s.ledger && r.evals == s.evals && r.seen == s.seen && r.products.Keys == s.products.Keys
            && forall id | id in s.products ::
                 r.products[id]
                 == if id in ids then s.products[id].(belowReorderPoint := Low(s, id)) else s.products[id]
  {
    hide Apply, Evaluate, OnHand, IsLow;
    if ids != [] {
      var (init, last) := (ids[..|ids| - 1], ids[|ids| - 1]);
      SweepSettles(s, owner, init, members);
      assert forall id :: id in ids <==> id in init || id == last;
      EvaluateSettles(EvaluateAll(s, owner, init, s.products, members), owner, last,
                      MembersOf(members, s.products[last].org));
    }
  }

  lemma OtherMoves(ledger: seq<Movement>, m: Movement, id: Id)
    requires m.product != id
    ensures OnHand(ledger + [m], id) == OnHand(ledger, id)
  {
    assert (ledger + [m])[..|ledger|] == ledger;
  }

  /** What one call does to one product: if it re-evaluates it, the flag now says whether
      stock is low; if not, neither the flag nor the answer has changed. */
  lemma ServeSettles(s: Store, owner: Id, c: Call, id: Id)
    requires owner !in s.evals
    ensures var r := Serve(s, owner, c);
            && r.evals == s.evals
            && (id in s.products ==> id in r.products)
            && (Covers(s, c, id) ==> id in s.products && r.products[id].belowReorderPoint == Low(r, id))
            && (!Covers(s, c, id) && id in r.products ==>
                  if id in s.products
                  then r.products[id].belowReorderPoint == s.products[id].belowReorderPoint && Low(r, id) == Low(s, id)
                  else !r.products[id].belowReorderPoint)
  {
    hide Evaluate, OnHand, IsBelowReorderPoint, ValidateQuantity;
    if Accepted(s, c) {
      match c
      case Add(_, _, _, _) =>
      case Record(org, moved, kind, quantity, recipients) =>
        QuantityAcceptedIff(moved, kind, quantity);
        var m := Movement(moved, kind, ValidateQuantity(kind, quantity).value);
        if id != moved { OtherMoves(s.ledger, m, id); }
        EvaluateSettles(Apply(Apply(s, See(moved)), Append(m)), owner, moved, recipients);
      case Update(org, patched, reorderPoint, active, recipients) =>
        var p := Patched(s, patched, reorderPoint, active);
        if reorderPoint.Some? || active.Some? { EvaluateSettles(Apply(p, See(patched)), owner, patched, recipients); }
      case Sweep(ids, members) =>
        SeeAllSees(s, ids);
        SweepSettles(SeeAll(s, ids), owner, ids, members);
    }
  }

  // ---- What one call writes ------------------------------------------------

  predicate IsThreshold(value: real) { IsWhole(value) && value >= 0.0 }

  /** A product is created with its threshold, 0 unless given, active unless told otherwise,
      and not flagged. */
  lemma AddServed(s: Store, owner: Id, c: Call)
    requires c.Add?
    ensures var point := if c.reorderPoint.Some? then c.reorderPoint.value else 0.0;
            if c.id !in s.products && IsThreshold(point)
            then Serve(s, owner, c).products
                 == s.products[c.id := Product(c.org, Some(point.Floor), c.active != Some(false), false)]
            else Serve(s, owner, c) == s
    ensures Serve(s, owner, c).ledger == s.ledger
  {
  }

  /** A movement that passes its checks is appended to the ledger, and only the flag of its
      product may change. */
  lemma RecordServed(s: Store, owner: Id, c: Call)
    requires c.Record? && owner !in s.evals
    ensures var r := Serve(s, owner, c);
            if ValidateQuantity(c.kind, c.quantity).Ok? && c.id in s.products && s.products[c.id].org == c.org
            then
              && |r.ledger| == |s.ledger| + 1 && r.ledger[..|s.ledger|] == s.ledger
              && r.ledger[|s.ledger|].product == c.id && r.ledger[|s.ledger|].kind == c.kind
              && r.ledger[|s.ledger|].quantity as real == c.quantity
              && c.id in r.products
              && r.products == s.products[c.id := s.products[c.id].(belowReorderPoint := Low(r, c.id))]
            else r == s
  {
    hide Evaluate, OnHand, IsBelowReorderPoint, ValidateQuantity, Recordable;
    if Accepted(s, c) {
      QuantityAcceptedIff(c.id, c.kind, c.quantity);
      var m := Movement(c.id, c.kind, ValidateQuantity(c.kind, c.quantity).value);
      EvaluateSettles(Apply(Apply(s, See(c.id)), Append(m)), owner, c.id, c.recipients);
    }
  }

  /** An update that passes its checks changes threshold and activity where given, and then
      only the flag of that product. */
  lemma UpdateServed(s: Store, owner: Id, c: Call)
    requires c.Update? && owner !in s.evals
    ensures var r := Serve(s, owner, c);
            if c.id in s.products && s.products[c.id].org == c.org
               && (c.reorderPoint.Some? ==> IsThreshold(c.reorderPoint.value))
            then
              && c.id in r.products && r.ledger == s.ledger
              && var (was, row) := (s.products[c.id], r.products[c.id]);
                 && row.org == was.org
                 && row.reorderPoint
                    == (if c.reorderPoint.Some? then Some(c.reorderPoint.value.Floor) else was.reorderPoint)
                 && row.active == (if c.active.Some? then c.active.value else was.active)
                 && row.belowReorderPoint
                    == (if c.reorderPoint.Some? || c.active.Some? then Low(r, c.id) else was.belowReorderPoint)
                 && r.products == s.products[c.id := row]
            else r == s
  {
    hide Evaluate, OnHand, IsBelowReorderPoint;
    if Accepted(s, c) && (c.reorderPoint.Some? || c.active.Some?) {
      var p := Patched(s, c.id, c.reorderPoint, c.active);
      EvaluateSettles(Apply(p, See(c.id)), owner, c.id, c.recipients);
    }
  }

  /** A sweep takes distinct active products with a threshold of at least one, and only sets
      their flags. */
  lemma SweepServed(s: Store, owner: Id, c: Call)
    requires c.Sweep? && owner !in s.evals
    ensures var r := Serve(s, owner, c);
            if && (forall i, j | 0 <= i < j < |c.ids| :: c.ids[i] != c.ids[j])
               && (forall id | id in c.ids ::
                     id in s.products && s.products[id].active
                     && s.products[id].reorderPoint.Some? && s.products[id].reorderPoint.value >= 1)
            then
              && r.products.Keys == s.products.Keys && r.ledger == s.ledger
              && forall id | id in s.products ::
                   r.products[id]
                   == if id in c.ids then s.products[id].(belowReorderPoint := Low(s, id)) else s.products[id]
            else r == s
  {
    hide EvaluateAll, SeeAll, OnHand, IsBelowReorderPoint;
    if Accepted(s, c) {
      SeeAllSees(s, c.ids);
      SweepSettles(SeeAll(s, c.ids), owner, c.ids, c.members);
    }
  }

  /** In every interleaving the ledger holds only movements that may be recorded, of
      products that are there. */
  lemma {:induction false} LedgerRecordable(es: seq<Event>)
    ensures forall m | m in Run(es).ledger :: Recordable(m) && m.product in Run(es).products
  {
    hide Recordable, OnHand, IsLow;
    if es != [] { LedgerRecordable(es[..|es| - 1]); }
  }

  function ServeAll(owner: Id, calls: seq<Call>): Store {
    if calls == [] then Init else Serve(ServeAll(owner, calls[..|calls| - 1]), owner, calls[|calls| - 1])
  }

  /** Some call of the run re-evaluated `id`. */
  predicate EverCovered(owner: Id, calls: seq<Call>, id: Id) {
    calls != [] && (EverCovered(owner, calls[..|calls| - 1], id)
                    || Covers(ServeAll(owner, calls[..|calls| - 1]), calls[|calls| - 1], id))
  }

  /** With calls one at a time, a product is flagged exactly when it is low and has been
      evaluated at all: so a flag always means low, and after any movement, threshold or
      active change, or sweep that covered it, low always means a flag. */
  lemma {:induction false} SerialFlagIff(owner: Id, calls: seq<Call>, id: Id)
    ensures var s := ServeAll(owner, calls);
            && s.evals == map[]
            && (id in s.products
                ==> (s.products[id].belowReorderPoint <==> Low(s, id) && EverCovered(owner, calls, id)))
            && (id !in s.products ==> !EverCovered(owner, calls, id))
  {
    hide Serve, Covers, OnHand, IsLow;
    if calls != [] {
      SerialFlagIff(owner, calls[..|calls| - 1], id);
      ServeSettles(ServeAll(owner, calls[..|calls| - 1]), owner, calls[|calls| - 1], id);
    }
  }

  // ---- What interleaving breaks --------------------------------------------

  const ROW := Product(1, Some(10), true, false)
  const SALE := Movement(7, ADJUST, -5)
  const RECEIPT := Movement(7, IN, 105)
  const SOLD := Store(map[7 := ROW], [SALE], map[], [], [], map[], {}, {(7, ROW)})
  const BOTH_MEASURED :=
    SOLD.(ledger := [SALE, RECEIPT], evals := map[1 := Measured(7, ROW, -5), 2 := Measured(7, ROW, 100)])

  /** Two movements at once: the sale's evaluation sums the ledger before the receipt is
      in, the receipt's reads the flag before the sale's has raised it. Both are finished,
      stock is 100 with a reorder point of 10, and the product stays flagged. */
  lemma StaleFlagExample()
    ensures exists es: seq<Event> ::
              var s := Run(es); s.evals == map[] && 7 in s.products && s.products[7].belowReorderPoint && !Low(s, 7)
  {
    hide Apply, OnHand, RunFrom;
    var a, b, c := [Create(7, 1, 10, true), See(7), Append(SALE)],
                   [Measure(1, 7, ROW), Append(RECEIPT), Measure(2, 7, ROW)],
                   [Decide(2), Decide(1), Notify(1, [])];
    StaleFlagStart();
    StaleFlagMiddle();
    StaleFlagEnd(BOTH_MEASURED);
    RunsCompose(Init, a, b);
    RunsCompose(Init, a + b, c);
    assert RunFrom(BOTH_MEASURED, c) == Run(a + b + c);
  }

  lemma ExampleStock()
    ensures OnHand([SALE], 7) == -5 && OnHand([SALE, RECEIPT], 7) == 100
  {
    var f := SignedFor(7);
    assert f(SALE) == -5 && f(RECEIPT) == 105;
    assert [SALE][..0] == [] && [SALE, RECEIPT][..1] == [SALE];
    assert SumOf(f, [SALE]) == -5;
  }

  lemma StaleFlagStart()
    ensures RunFrom(Init, [Create(7, 1, 10, true), See(7), Append(SALE)]) == SOLD
  {
    hide RunFrom;
    Steps3(Init, Create(7, 1, 10, true), See(7), Append(SALE));
  }

  lemma StaleFlagMiddle()
    ensures RunFrom(SOLD, [Measure(1, 7, ROW), Append(RECEIPT), Measure(2, 7, ROW)]) == BOTH_MEASURED
    ensures OnHand(BOTH_MEASURED.ledger, 7) == 100
  {
    hide RunFrom, OnHand;
    ExampleStock();
    Steps3(SOLD, Measure(1, 7, ROW), Append(RECEIPT), Measure(2, 7, ROW));
    var s := SOLD.(evals := map[1 := Measured(7, ROW, -5)]);
    assert Apply(SOLD, Measure(1, 7, ROW)) == s;
    assert Apply(s, Append(RECEIPT)) == s.(ledger := [SALE, RECEIPT]);
    assert BOTH_MEASURED.evals == s.evals[2 := Measured(7, ROW, 100)];
  }

  lemma StaleFlagEnd(t: Store)
    requires t.products == map[7 := ROW] && OnHand(t.ledger, 7) == 100
    requires t.evals == map[1 := Measured(7, ROW, -5), 2 := Measured(7, ROW, 100)]
    ensures var r := RunFrom(t, [Decide(2), Decide(1), Notify(1, [])]);
            r.evals == map[] && 7 in r.products && r.products[7].belowReorderPoint && !Low(r, 7)
  {
    hide OnHand, RunFrom;
    Steps3(t, Decide(2), Decide(1), Notify(1, []));
    assert Apply(t, Decide(2)) == t.(evals := map[1 := Measured(7, ROW, -5)]);
    var u := Apply(Apply(t, Decide(2)), Decide(1));
    assert u.products == map[7 := ROW.(belowReorderPoint := true)] && u.ledger == t.ledger;
    assert u.evals == map[1 := Alerting(|t.flips|)];
  }

  /** A raise whose notification fails: the flag is up, nothing is in flight, and nobody
      was or will be told of this dip. */
  lemma LostAlertExample()
    ensures exists es: seq<Event> ::
              var s := Run(es);
              && s.evals == map[] && 7 in s.products && s.products[7].belowReorderPoint && Low(s, 7)
              && s.flips == [Flip(7, true, 1)] && s.notices == [] && 0 in s.lost && 0 !in s.told
  {
    hide RunFrom;
    var a, b := [Create(7, 1, 10, true), See(7), Measure(1, 7, ROW)], [Decide(1), Fail(1)];
    Steps3(Init, Create(7, 1, 10, true), See(7), Measure(1, 7, ROW));
    NoStock(7);
    hide OnHand;
    var s := Run(a);
    assert s == Store(map[7 := ROW], [], map[1 := Measured(7, ROW, 0)], [], [], map[], {}, {(7, ROW)});
    Steps2(s, Decide(1), Fail(1));
    var t := Apply(s, Decide(1));
    assert t.evals == map[1 := Alerting(0)] && t.products[7].belowReorderPoint && t.ledger == [];
    RunsCompose(Init, a, b);
    assert Run(a + b) == Apply(t, Fail(1));
  }

  lemma NoStock(id: Id)
    ensures OnHand([], id) == 0
  {
  }

  lemma Steps2(s: Store, a: Event, b: Event)
    ensures RunFrom(s, [a, b]) == Apply(Apply(s, a), b)
  {
    hide Apply;
    assert [a, b][..1] == [a] && [a][..0] == [];
    assert RunFrom(s, [a]) == Apply(s, a);
  }

  /** A product created with a threshold is low and not flagged until something evaluates it. */
  lemma NewProductExample(owner: Id)
    ensures var s := ServeAll(owner, [Add(7, 1, Some(10.0), None)]);
            7 in s.products && Low(s, 7) && !s.products[7].belowReorderPoint
  {
    var c := Add(7, 1, Some(10.0), None);
    assert [c][..0] == [];
    assert ServeAll(owner, [c]) == Serve(Init, owner, c);
    NoStock(7);
  }

  lemma Steps3(s: Store, a: Event, b: Event, c: Event)
    ensures RunFrom(s, [a, b, c]) == Apply(Apply(Apply(s, a), b), c)
  {
    hide Apply;
    assert [a, b, c][..2] == [a, b] && [a, b][..1] == [a] && [a][..0] == [];
    assert RunFrom(s, [a]) == Apply(s, a);
    assert RunFrom(s, [a, b]) == Apply(Apply(s, a), b);
  }

  lemma {:induction false} RunsCompose(s: Store, a: seq<Event>, b: seq<Event>)
    ensures RunFrom(s, a + b) == RunFrom(RunFrom(s, a), b)
  {
    hide Apply;
    if b == [] {
      assert a + b == a;
    } else {
      RunsCompose(s, a, b[..|b| - 1]);
      assert (a + b)[..|a + b| - 1] == a + b[..|b| - 1];
    }
  }
}
