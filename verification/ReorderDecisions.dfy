/** When an evaluation leaves the reorder flag right, with anything at all going on between
    its reads and its update. */
module ReorderDecisions {
  import opened Stock
  import opened Reorder

  predicate Right(s: Store, id: Id)
    requires id in s.products
  {
    s.products[id].belowReorderPoint == Low(s, id)
  }

  /** `owner` has read the row and the sum of `id` and is about to update its flag. */
  predicate Decides(s: Store, owner: Id, id: Id) {
    owner in s.evals && s.evals[owner].Measured? && s.evals[owner].id == id && id in s.products
  }

  /** Where an evaluation with these readings leaves a flag that now stands at `flag`. */
  function Verdict(seen: Product, onHand: int, flag: bool): bool {
    if IsLow(seen, onHand) == seen.belowReorderPoint then flag else IsLow(seen, onHand)
  }

  /** However stale its readings, the update leaves the flag right exactly when the verdict
      is what stock now says. */
  lemma DecisionRightIff(s: Store, owner: Id, id: Id)
    requires Decides(s, owner, id)
    ensures var (r, e) := (Apply(s, Decide(owner)), s.evals[owner]);
            && id in r.products
            && (Right(r, id) <==> Verdict(e.seen, e.onHand, s.products[id].belowReorderPoint) == Low(s, id))
  {
    hide OnHand, IsLow;
    var r := Apply(s, Decide(owner));
    assert r.ledger == s.ledger;
    LowIgnoresFlag(s.products[id], r.products[id].belowReorderPoint, OnHand(s.ledger, id));
  }

  lemma LowIgnoresFlag(p: Product, flag: bool, onHand: int)
    ensures IsLow(p.(belowReorderPoint := flag), onHand) == IsLow(p, onHand)
  {
  }

  /** Readings that still stand give the right verdict. */
  lemma StandingReadingsAreRight(s: Store, owner: Id, id: Id)
    requires Decides(s, owner, id)
    requires s.evals[owner].seen == s.products[id] && s.evals[owner].onHand == OnHand(s.ledger, id)
    ensures id in Apply(s, Decide(owner)).products && Right(Apply(s, Decide(owner)), id)
  {
    hide OnHand, IsLow;
    DecisionRightIff(s, owner, id);
  }

  // ---- What touches a product ----------------------------------------------

  /** A patch of the product, or a flip of its flag that takes effect. */
  predicate TouchesRow(s: Store, e: Event, id: Id) {
    (e.Patch? && e.id == id) || (e.Decide? && Decides(s, e.owner, id) && |Apply(s, e).flips| > |s.flips|)
  }

  /** One of these, or a movement of the product. */
  predicate Touches(s: Store, e: Event, id: Id) {
    (e.Append? && e.movement.product == id) || TouchesRow(s, e, id)
  }

  /** No step of the run touches the product, whatever it does to others. */
  ghost predicate LeftAlone(s: Store, es: seq<Event>, id: Id) {
    forall k | 0 <= k < |es| :: !Touches(RunFrom(s, es[..k]), es[k], id)
  }

  lemma ProductStays(s: Store, e: Event, id: Id)
    requires id in s.products
    ensures id in Apply(s, e).products
  {
    hide OnHand, Wish, Recordable;
  }

  lemma UntouchedStep(s: Store, e: Event, id: Id)
    requires id in s.products && !TouchesRow(s, e, id)
    ensures id in Apply(s, e).products && Apply(s, e).products[id] == s.products[id]
    ensures !Touches(s, e, id) ==> OnHand(Apply(s, e).ledger, id) == OnHand(s.ledger, id)
  {
    hide OnHand, Wish, Recordable;
    if e.Append? && e.movement.product != id { OtherMoves(s.ledger, e.movement, id); }
  }

  lemma TouchedRow(s: Store, e: Event, id: Id)
    ensures TouchesRow(s, e, id) ==> Touches(s, e, id)
  {
  }

  lemma LeftAlonePrefix(s: Store, es: seq<Event>, n: nat, id: Id)
    requires LeftAlone(s, es, id) && n <= |es|
    ensures LeftAlone(s, es[..n], id)
  {
    hide Touches, RunFrom;
    forall k | 0 <= k < n ensures !Touches(RunFrom(s, es[..n][..k]), es[..n][k], id) {
      assert es[..n][..k] == es[..k];
      assert !Touches(RunFrom(s, es[..k]), es[k], id);
    }
  }

  /** Row and on-hand stock of a product that is left alone stay as they are. */
  lemma {:induction false} LeftAloneStays(s: Store, es: seq<Event>, id: Id)
    requires id in s.products && LeftAlone(s, es, id)
    ensures var r := RunFrom(s, es);
            id in r.products && r.products[id] == s.products[id] && OnHand(r.ledger, id) == OnHand(s.ledger, id)
  {
    hide Apply, Touches, OnHand;
    if es != [] {
      var n := |es| - 1;
      LeftAlonePrefix(s, es, n, id);
      LeftAloneStays(s, es[..n], id);
      TouchedRow(RunFrom(s, es[..n]), es[n], id);
      UntouchedStep(RunFrom(s, es[..n]), es[n], id);
    }
  }

  /** No step of the run touches the row of the product; movements of it may come in. */
  ghost predicate RowLeftAlone(s: Store, es: seq<Event>, id: Id) {
    forall k | 0 <= k < |es| :: !TouchesRow(RunFrom(s, es[..k]), es[k], id)
  }

  lemma {:induction false} RowStays(s: Store, es: seq<Event>, n: nat, id: Id)
    requires id in s.products && RowLeftAlone(s, es, id) && n <= |es|
    ensures id in RunFrom(s, es[..n]).products && RunFrom(s, es[..n]).products[id] == s.products[id]
  {
    hide Apply, TouchesRow;
    if n > 0 {
      RowStays(s, es, n - 1, id);
      assert es[..n][..n - 1] == es[..n - 1];
      UntouchedStep(RunFrom(s, es[..n - 1]), es[n - 1], id);
    }
  }

  // ---- Whole runs ------------------------------------------------------------

  /** In any run at all: after the last update that any evaluation of the product attempts,
      and with the product left alone since, the flag is right exactly when the verdict of
      that evaluation was. Other products, and other callers, do as they please. */
  lemma LastDecisionIff(es: seq<Event>, n: nat, owner: Id, id: Id)
    requires n < |es| && es[n] == Decide(owner) && Decides(Run(es[..n]), owner, id)
    requires LeftAlone(Run(es[..n + 1]), es[n + 1..], id)
    ensures var (s, r) := (Run(es[..n]), Run(es));
            && id in r.products
            && (Right(r, id)
                <==> Verdict(s.evals[owner].seen, s.evals[owner].onHand, s.products[id].belowReorderPoint)
                     == Low(s, id))
  {
    var s := Run(es[..n]);
    DecisionRightIff(s, owner, id);
    assert es[..n + 1][..n] == es[..n];
    assert Run(es[..n + 1]) == Apply(s, Decide(owner));
    assert es == es[..n + 1] + es[n + 1..];
    RunsCompose(Init, es[..n + 1], es[n + 1..]);
    LeftAloneStays(Run(es[..n + 1]), es[n + 1..], id);
  }

  /** The step is not one of `owner`'s evaluation. */
  predicate Leaves(e: Event, owner: Id) {
    !((e.Measure? || e.Decide? || e.Notify? || e.Fail?) && e.owner == owner)
  }

  ghost predicate AllLeave(es: seq<Event>, owner: Id) { forall e | e in es :: Leaves(e, owner) }

  lemma EvalLeft(s: Store, e: Event, owner: Id)
    requires Leaves(e, owner)
    ensures owner in s.evals <==> owner in Apply(s, e).evals
    ensures owner in s.evals ==> s.evals[owner] == Apply(s, e).evals[owner]
    ensures s.seen <= Apply(s, e).seen
  {
    hide OnHand, Wish, Recordable;
  }

  lemma {:induction false} EvalStays(s: Store, es: seq<Event>, owner: Id)
    requires AllLeave(es, owner)
    ensures owner in s.evals <==> owner in RunFrom(s, es).evals
    ensures owner in s.evals ==> s.evals[owner] == RunFrom(s, es).evals[owner]
    ensures s.seen <= RunFrom(s, es).seen
  {
    hide Apply;
    if es != [] {
      EvalStays(s, es[..|es| - 1], owner);
      EvalLeft(RunFrom(s, es[..|es| - 1]), es[|es| - 1], owner);
    }
  }

  /** The state in which the update of an evaluation of `id` runs that read row `seen` at
      `s`, with `first` before it sums the ledger and `second` before it updates. */
  function AtDecision(s: Store, owner: Id, id: Id, seen: Product, first: seq<Event>, second: seq<Event>): Store {
    RunFrom(Apply(RunFrom(s, first), Measure(owner, id, seen)), second)
  }

  lemma {:induction false} ProductStaysAlong(s: Store, es: seq<Event>, id: Id)
    requires id in s.products
    ensures id in RunFrom(s, es).products
  {
    hide Apply;
    if es != [] {
      ProductStaysAlong(s, es[..|es| - 1], id);
      ProductStays(RunFrom(s, es[..|es| - 1]), es[|es| - 1], id);
    }
  }

  /** The readings an evaluation decides on: the row it was given and the sum it took. */
  lemma ReadingsAtDecision(s: Store, owner: Id, id: Id, seen: Product, first: seq<Event>, second: seq<Event>)
    requires owner !in s.evals && (id, seen) in s.seen && id in s.products
    requires AllLeave(first, owner) && AllLeave(second, owner)
    ensures var t := AtDecision(s, owner, id, seen, first, second);
            Decides(t, owner, id) && t.evals[owner] == Measured(id, seen, OnHand(RunFrom(s, first).ledger, id))
  {
    hide OnHand, AllLeave, RunFrom;
    var a := RunFrom(s, first);
    var b := Apply(a, Measure(owner, id, seen));
    EvalStays(s, first, owner);
    ProductStaysAlong(s, first, id);
    EvalStays(b, second, owner);
    ProductStaysAlong(b, second, id);
  }

  /** One evaluation with arbitrary steps in its gaps leaves the flag right exactly when
      its verdict, on the readings it took, is what stock says at the update. */
  lemma EvaluationRightIff(s: Store, owner: Id, id: Id, seen: Product, first: seq<Event>, second: seq<Event>)
    requires owner !in s.evals && (id, seen) in s.seen && id in s.products
    requires AllLeave(first, owner) && AllLeave(second, owner)
    ensures var t := AtDecision(s, owner, id, seen, first, second);
            var r := Apply(t, Decide(owner));
            && id in t.products && id in r.products
            && (Right(r, id)
                <==> Verdict(seen, OnHand(RunFrom(s, first).ledger, id), t.products[id].belowReorderPoint)
                     == Low(t, id))
  {
    hide OnHand, IsLow, AllLeave, RunFrom, Apply, AtDecision;
    ReadingsAtDecision(s, owner, id, seen, first, second);
    DecisionRightIff(AtDecision(s, owner, id, seen, first, second), owner, id);
  }

  /** If nobody patches the product or flips its flag between reading its row and updating
      it, and no movement of it comes in after its ledger was summed, the update leaves the
      flag right, whatever happens to other products meanwhile. */
  lemma UndisturbedEvaluationRight(s: Store, owner: Id, id: Id, first: seq<Event>, second: seq<Event>)
    requires owner !in s.evals && id in s.products && (id, s.products[id]) in s.seen
    requires AllLeave(first, owner) && AllLeave(second, owner)
    requires RowLeftAlone(s, first, id)
    requires LeftAlone(Apply(RunFrom(s, first), Measure(owner, id, s.products[id])), second, id)
    ensures var r := Apply(AtDecision(s, owner, id, s.products[id], first, second), Decide(owner));
            id in r.products && Right(r, id)
  {
    hide OnHand, IsLow, AllLeave, LeftAlone, RowLeftAlone, RunFrom;
    var a := RunFrom(s, first);
    ReadingsAtDecision(s, owner, id, s.products[id], first, second);
    RowStays(s, first, |first|, id);
    assert first[..|first|] == first;
    LeftAloneStays(Apply(a, Measure(owner, id, s.products[id])), second, id);
    StandingReadingsAreRight(AtDecision(s, owner, id, s.products[id], first, second), owner, id);
  }

  /** A product that is right stays right while it is left alone. */
  lemma RightStays(s: Store, es: seq<Event>, id: Id)
    requires id in s.products && Right(s, id) && LeftAlone(s, es, id)
    ensures id in RunFrom(s, es).products && Right(RunFrom(s, es), id)
  {
    hide OnHand, IsLow, LeftAlone, RunFrom;
    LeftAloneStays(s, es, id);
  }
}
