/** The workflow tables as a sweep changes them, and the sweep itself: every matching pair
    is fired in a transaction of its own while other sweeps do the same. */
module WorkflowSweep {
  import opened Options
  import opened Workflow
  import opened WorkflowPlan

  type Cache = map<Id, seq<Id>>

  // ---- One firing among others ------------------------------------------------

  /** What becomes of one pair: whether the entity matches, whether the look for an earlier
      run fails, the organisation's members as a lookup would find them (or fail), the
      statement of the transaction that fails if one does (by position, the last being the
      commit), and what others do before each. */
  datatype Turn = Turn(
    matched: bool, checkFails: bool, lookup: Option<seq<Id>>, breaksAt: Option<nat>,
    before: seq<Event>, first: seq<Event>, between: seq<seq<Event>>)
  {
    function Gap(i: nat): seq<Event> { if i < |between| then between[i] else [] }

    ghost predicate Leaves(sweep: Id) {
      AllLeave(before, sweep) && AllLeave(first, sweep) && forall i: nat :: AllLeave(Gap(i), sweep)
    }
  }

  /** The steps are all other sweeps'. */
  ghost predicate AllLeave(es: seq<Event>, sweep: Id) { forall e | e in es :: e.sweep != sweep }

  /** An action's recipients come from the batch's cache, else from a lookup. */
  function Recipients(cache: Cache, org: Id, turn: Turn): Option<seq<Id>> {
    if org in cache then Some(cache[org]) else turn.lookup
  }

  /** The first `n` actions of an open firing, and whether all of them went through. */
  function Acting(s: Store, sweep: Id, rule: Rule, turn: Turn, cache: Cache, n: nat): (Store, Cache, bool)
    requires n <= |rule.actions|
  {
    if n == 0 then (s, cache, true)
    else
      var (t, c, ok) := Acting(s, sweep, rule, turn, cache, n - 1);
      if !ok then (t, c, false)
      else
        var u := RunFrom(t, turn.Gap(n - 1));
        if rule.actions[n - 1].CreateTask? then
          if turn.breaksAt == Some(n - 1) then (u, c, false) else (Apply(u, Act(sweep, [])), c, true)
        else
          match Recipients(c, rule.org, turn)
          case None => (u, c, false)
          case Some(recipients) =>
            if turn.breaksAt == Some(n - 1) then (u, c[rule.org := recipients], false)
            else (Apply(u, Act(sweep, recipients)), c[rule.org := recipients], true)
  }

  /** What is left of a firing once its run row is in: actions, then commit or rollback. */
  function Finished(s: Store, sweep: Id, rule: Rule, turn: Turn, cache: Cache): (Store, Cache, bool) {
    var (t, c, ok) := Acting(s, sweep, rule, turn, cache, |rule.actions|);
    if !ok then (Apply(t, Abort(sweep)), c, false)
    else
      var u := RunFrom(t, turn.Gap(|rule.actions|));
      if turn.breaksAt == Some(|rule.actions|) then (Apply(u, Abort(sweep)), c, false)
      else (Apply(u, Commit(sweep)), c, true)
  }

  /** The whole transaction, and whether it committed. */
  function AfterFire(s: Store, sweep: Id, rule: Rule, entity: Id, turn: Turn, cache: Cache): (Store, Cache, bool) {
    var inserted := Apply(RunFrom(s, turn.first), Insert(sweep, rule, entity));
    if sweep in inserted.txs then Finished(inserted, sweep, rule, turn, cache) else (inserted, cache, false)
  }

  /** One pair of the sweep: a match not yet run is fired. */
  function AfterTurn(s: Store, sweep: Id, pair: Pair, turn: Turn, cache: Cache): (Store, Cache, bool) {
    if !turn.matched then (s, cache, false)
    else
      var a := RunFrom(s, turn.before);
      if turn.checkFails || (pair.0.id, pair.1) in a.runs then (a, cache, false)
      else AfterFire(a, sweep, pair.0, pair.1, turn, cache)
  }

  const NoMatch := Turn(false, false, None, None, [], [], [])

  function TurnOf(turns: map<Pair, Turn>, pair: Pair): Turn { if pair in turns then turns[pair] else NoMatch }

  /** A run of pairs, one after another, sharing the cache; and how many of them fired. */
  function Swept(s: Store, sweep: Id, pairs: seq<Pair>, turns: map<Pair, Turn>): (Store, Cache, nat) {
    if pairs == [] then (s, map[], 0)
    else
      var last := pairs[|pairs| - 1];
      var (t, cache, n) := Swept(s, sweep, pairs[..|pairs| - 1], turns);
      var (u, cache', fired) := AfterTurn(t, sweep, last, TurnOf(turns, last), cache);
      (u, cache', n + if fired then 1 else 0)
  }

  /** What a sweep carries along: its cache and its two counters. */
  datatype Progress = Progress(recipientsByOrg: Cache, evaluated: nat, fired: nat)

  /** The sweep that began at `start` has taken `pairs`. */
  ghost predicate Reached(start: Store, sweep: Id, turns: map<Pair, Turn>, pairs: seq<Pair>, now: Store, p: Progress) {
    p.evaluated == |pairs| && Swept(start, sweep, pairs, turns) == (now, p.recipientsByOrg, p.fired)
  }

  // ---- What a sweep's firings add up to --------------------------------------

  ghost predicate SameFor(s: Store, r: Store, sweep: Id) {
    && FiredBy(s.log, sweep) == FiredBy(r.log, sweep)
    && (sweep in s.txs <==> sweep in r.txs) && (sweep in s.txs ==> s.txs[sweep] == r.txs[sweep])
  }

  lemma StepLeaves(s: Store, e: Event, sweep: Id)
    requires e.sweep != sweep
    ensures SameFor(s, Apply(s, e), sweep)
  {
    hide FiredBy, TasksFrom, NoticesFrom, KeyHeld;
    if e.Commit? && e.sweep in s.txs {
      var t := s.txs[e.sweep];
      FiredNext(s.log, Firing(t.key, e.sweep, t.actions, t.executed), sweep);
    }
  }

  lemma {:induction false} RunLeaves(s: Store, es: seq<Event>, sweep: Id)
    requires AllLeave(es, sweep)
    ensures SameFor(s, RunFrom(s, es), sweep)
  {
    hide Apply, FiredBy;
    if es != [] {
      RunLeaves(s, es[..|es| - 1], sweep);
      assert es[|es| - 1] in es;
      StepLeaves(RunFrom(s, es[..|es| - 1]), es[|es| - 1], sweep);
    }
  }

  /** The firing `sweep` has open stands at its `n`th action. */
  predicate Stands(s: Store, sweep: Id, actions: seq<Action>, n: nat) {
    sweep in s.txs && s.txs[sweep].actions == actions && |s.txs[sweep].executed| == n
  }

  lemma {:induction false} ActingStands(s: Store, sweep: Id, rule: Rule, turn: Turn, cache: Cache, n: nat)
    requires n <= |rule.actions| && Stands(s, sweep, rule.actions, 0) && turn.Leaves(sweep)
    ensures var (t, _, ok) := Acting(s, sweep, rule, turn, cache, n);
            FiredBy(t.log, sweep) == FiredBy(s.log, sweep) && (ok ==> Stands(t, sweep, rule.actions, n))
  {
    hide RunFrom, FiredBy, AllLeave;
    if n > 0 {
      var t := Acting(s, sweep, rule, turn, cache, n - 1).0;
      ActingStands(s, sweep, rule, turn, cache, n - 1);
      assert AllLeave(turn.Gap(n - 1), sweep);
      RunLeaves(t, turn.Gap(n - 1), sweep);
    }
  }

  lemma CommitCounts(s: Store, sweep: Id, actions: seq<Action>)
    requires Stands(s, sweep, actions, |actions|)
    ensures var r := Apply(s, Commit(sweep));
            sweep !in r.txs && FiredBy(r.log, sweep) == FiredBy(s.log, sweep) + 1
  {
    var t := s.txs[sweep];
    FiredNext(s.log, Firing(t.key, sweep, t.actions, t.executed), sweep);
  }

  lemma InsertStands(s: Store, sweep: Id, rule: Rule, entity: Id)
    requires sweep !in s.txs
    ensures var r := Apply(s, Insert(sweep, rule, entity));
            r.log == s.log && (sweep in r.txs ==> Stands(r, sweep, rule.actions, 0))
  {
  }

  /** Whatever happens to a pair, the sweep has nothing open afterwards and one commit more
      exactly when the pair fired. */
  lemma TurnCounts(s: Store, sweep: Id, pair: Pair, turn: Turn, cache: Cache)
    requires sweep !in s.txs && turn.Leaves(sweep)
    ensures var (t, _, fired) := AfterTurn(s, sweep, pair, turn, cache);
            sweep !in t.txs && FiredBy(t.log, sweep) == FiredBy(s.log, sweep) + if fired then 1 else 0
  {
    hide RunFrom, FiredBy, AllLeave, AfterInsert, AfterAct, AfterCommit, Acting;
    var rule := pair.0;
    RunLeaves(s, turn.before, sweep);
    var a := RunFrom(s, turn.before);
    RunLeaves(a, turn.first, sweep);
    var b := RunFrom(a, turn.first);
    InsertStands(b, sweep, rule, pair.1);
    var c := Apply(b, Insert(sweep, rule, pair.1));
    if sweep in c.txs {
      ActingStands(c, sweep, rule, turn, cache, |rule.actions|);
      var (d, _, ok) := Acting(c, sweep, rule, turn, cache, |rule.actions|);
      assert AllLeave(turn.Gap(|rule.actions|), sweep);
      RunLeaves(d, turn.Gap(|rule.actions|), sweep);
      if ok { CommitCounts(RunFrom(d, turn.Gap(|rule.actions|)), sweep, rule.actions); }
    }
  }

  /** Nothing fails in the first `n` actions, and whom to notify is known or not needed. */
  ghost predicate ActionsWork(rule: Rule, turn: Turn, cache: Cache, n: nat)
    requires n <= |rule.actions|
  {
    && (turn.breaksAt.None? || turn.breaksAt.value >= n)
    && (rule.org in cache || turn.lookup.Some? || forall i | 0 <= i < n :: rule.actions[i].CreateTask?)
  }

  lemma {:induction false} ActingWorksIff(s: Store, sweep: Id, rule: Rule, turn: Turn, cache: Cache, n: nat)
    requires n <= |rule.actions|
    ensures var (_, c, ok) := Acting(s, sweep, rule, turn, cache, n);
            && (ok <==> ActionsWork(rule, turn, cache, n))
            && (rule.org in cache ==> rule.org in c) && (rule.org in c ==> rule.org in cache || turn.lookup.Some?)
  {
    hide RunFrom, Apply, Turn.Gap;
    if n > 0 {
      ActingWorksIff(s, sweep, rule, turn, cache, n - 1);
      assert !rule.actions[n - 1].CreateTask? ==> !(forall i | 0 <= i < n :: rule.actions[i].CreateTask?);
    }
  }

  lemma InsertHolds(s: Store, sweep: Id, rule: Rule, entity: Id)
    requires sweep !in s.txs
    ensures sweep in Apply(s, Insert(sweep, rule, entity)).txs
            <==> (rule.id, entity) !in s.runs && !KeyHeld(s, (rule.id, entity))
  {
    hide KeyHeld;
  }

  /** A pair's turn: it matches, the look for an earlier run works and finds none, the key is
      neither taken nor held at the insert, no action and no commit fails, and somebody to
      notify is known if any action needs it. */
  ghost predicate Fires(s: Store, sweep: Id, pair: Pair, turn: Turn, cache: Cache) {
    var (key, n) := ((pair.0.id, pair.1), |pair.0.actions|);
    var a := RunFrom(s, turn.before);
    var b := RunFrom(a, turn.first);
    && turn.matched && !turn.checkFails && key !in a.runs && key !in b.runs && !KeyHeld(b, key)
    && (turn.breaksAt.None? || turn.breaksAt.value > n)
    && (pair.0.org in cache || turn.lookup.Some? || forall i | 0 <= i < n :: pair.0.actions[i].CreateTask?)
  }

  /** That is exactly when a pair fires, among whatever others do. */
  lemma TurnFiresIff(s: Store, sweep: Id, pair: Pair, turn: Turn, cache: Cache)
    requires sweep !in s.txs && turn.Leaves(sweep)
    ensures AfterTurn(s, sweep, pair, turn, cache).2 <==> Fires(s, sweep, pair, turn, cache)
  {
    hide RunFrom, Apply, FiredBy, AllLeave, Acting, KeyHeld;
    var rule := pair.0;
    var a := RunFrom(s, turn.before);
    RunLeaves(s, turn.before, sweep);
    RunLeaves(a, turn.first, sweep);
    var b := RunFrom(a, turn.first);
    InsertHolds(b, sweep, rule, pair.1);
    ActingWorksIff(Apply(b, Insert(sweep, rule, pair.1)), sweep, rule, turn, cache, |rule.actions|);
  }

  /** Whom the notification actions of a turn reach: the cached members, else a lookup's. */
  function Members(org: Id, turn: Turn, cache: Cache): seq<Id> {
    if org in cache then cache[org] else turn.lookup.GetOr([])
  }

  /** The first `n` actions were carried out in order, the notifications to `recipients`. */
  ghost predicate CarriedOut(executed: seq<Executed>, actions: seq<Action>, recipients: seq<Id>, n: nat) {
    && |executed| == n <= |actions|
    && forall i | 0 <= i < n ::
         executed[i].action == actions[i] && executed[i].recipients == if actions[i].CreateTask? then [] else recipients
  }

  /** A cache only ever learns what this turn's lookup found for its organisation. */
  predicate Learns(cache: Cache, c: Cache, org: Id, turn: Turn) {
    c == cache || (org !in cache && turn.lookup.Some? && c == cache[org := turn.lookup.value])
  }

  /** `sweep` has a firing of `key` open that has carried out `n` actions. */
  ghost predicate Open(s: Store, sweep: Id, key: Key, actions: seq<Action>, recipients: seq<Id>, n: nat) {
    && sweep in s.txs && s.txs[sweep].key == key && s.txs[sweep].actions == actions
    && CarriedOut(s.txs[sweep].executed, actions, recipients, n)
  }

  lemma ActDoes(s: Store, sweep: Id, key: Key, actions: seq<Action>, recipients: seq<Id>, given: seq<Id>, n: nat)
    requires n < |actions| && Open(s, sweep, key, actions, recipients, n)
    requires actions[n].CreateTask? || given == recipients
    ensures Open(Apply(s, Act(sweep, given)), sweep, key, actions, recipients, n + 1)
  {
  }

  lemma CommitWrites(s: Store, sweep: Id, key: Key, actions: seq<Action>, recipients: seq<Id>)
    requires Open(s, sweep, key, actions, recipients, |actions|)
    ensures var r := Apply(s, Commit(sweep));
            key in r.runs && CarriedOut(r.runs[key], actions, recipients, |actions|)
  {
  }

  lemma OpenStays(s: Store, es: seq<Event>, sweep: Id, key: Key, actions: seq<Action>, recipients: seq<Id>, n: nat)
    requires AllLeave(es, sweep) && Open(s, sweep, key, actions, recipients, n)
    ensures Open(RunFrom(s, es), sweep, key, actions, recipients, n)
  {
    hide RunFrom, CarriedOut;
    RunLeaves(s, es, sweep);
  }

  lemma {:induction false} ActingLearns(s: Store, sweep: Id, rule: Rule, turn: Turn, cache: Cache, n: nat)
    requires n <= |rule.actions|
    ensures var (_, c, ok) := Acting(s, sweep, rule, turn, cache, n);
            && Learns(cache, c, rule.org, turn)
            && (ok && (exists i :: 0 <= i < n && !rule.actions[i].CreateTask?) ==> rule.org in c)
  {
    hide RunFrom, Apply, Turn.Gap;
    if n > 0 { ActingLearns(s, sweep, rule, turn, cache, n - 1); }
  }

  lemma {:induction false} ActingDoes(s: Store, sweep: Id, key: Key, rule: Rule, turn: Turn, cache: Cache, n: nat)
    requires n <= |rule.actions| && turn.Leaves(sweep)
    requires Open(s, sweep, key, rule.actions, Members(rule.org, turn, cache), 0)
    ensures var (t, _, ok) := Acting(s, sweep, rule, turn, cache, n);
            ok ==> Open(t, sweep, key, rule.actions, Members(rule.org, turn, cache), n)
  {
    hide RunFrom, AllLeave, Open, Apply, Turn.Gap, Turn.Leaves, Acting, Members;
    if n == 0 {
      ActingNone(s, sweep, rule, turn, cache);
    } else if Acting(s, sweep, rule, turn, cache, n).2 {
      GapLeaves(turn, n - 1, sweep);
      ActingNext(s, sweep, rule, turn, cache, n - 1);
      ActingDoes(s, sweep, key, rule, turn, cache, n - 1);
      var (t, known) := (Acting(s, sweep, rule, turn, cache, n - 1).0, Members(rule.org, turn, cache));
      OpenStays(t, turn.Gap(n - 1), sweep, key, rule.actions, known, n - 1);
      var given := if rule.actions[n - 1].CreateTask? then [] else known;
      ActDoes(RunFrom(t, turn.Gap(n - 1)), sweep, key, rule.actions, known, given, n - 1);
    }
  }

  lemma ActingNone(s: Store, sweep: Id, rule: Rule, turn: Turn, cache: Cache)
    ensures Acting(s, sweep, rule, turn, cache, 0) == (s, cache, true)
  {
  }

  lemma GapLeaves(turn: Turn, i: nat, sweep: Id)
    requires turn.Leaves(sweep)
    ensures AllLeave(turn.Gap(i), sweep)
  {
  }

  lemma ActingNext(s: Store, sweep: Id, rule: Rule, turn: Turn, cache: Cache, n: nat)
    requires n < |rule.actions| && Acting(s, sweep, rule, turn, cache, n + 1).2
    ensures var (t, _, ok) := Acting(s, sweep, rule, turn, cache, n);
            var given := if rule.actions[n].CreateTask? then [] else Members(rule.org, turn, cache);
            ok && Acting(s, sweep, rule, turn, cache, n + 1).0 == Apply(RunFrom(t, turn.Gap(n)), Act(sweep, given))
  {
    hide RunFrom, Apply, Turn.Gap;
    ActingLearns(s, sweep, rule, turn, cache, n);
  }

  /** What a firing writes: the run row of the pair, every action carried out in order, each
      notification to the members as they were known at the turn. */
  lemma TurnWrites(s: Store, sweep: Id, pair: Pair, turn: Turn, cache: Cache)
    requires sweep !in s.txs && turn.Leaves(sweep)
    ensures var (t, c, fired) := AfterTurn(s, sweep, pair, turn, cache);
            var (key, actions) := ((pair.0.id, pair.1), pair.0.actions);
            && Learns(cache, c, pair.0.org, turn)
            && (fired ==> && key in t.runs
                          && CarriedOut(t.runs[key], actions, Members(pair.0.org, turn, cache), |actions|)
                          && ((exists i :: 0 <= i < |actions| && !actions[i].CreateTask?) ==> pair.0.org in c))
  {
    var (rule, key, known) := (pair.0, (pair.0.id, pair.1), Members(pair.0.org, turn, cache));
    var n := |rule.actions|;
    LearnsNothing(cache, rule.org, turn);
    hide RunFrom, FiredBy, AllLeave, Acting, CarriedOut, Learns;
    var a := RunFrom(s, turn.before);
    var b := RunFrom(a, turn.first);
    RunLeaves(s, turn.before, sweep);
    RunLeaves(a, turn.first, sweep);
    var c := Apply(b, Insert(sweep, rule, pair.1));
    if sweep in c.txs {
      InsertOpens(b, sweep, rule, pair.1, known);
      hide Open, Apply;
      ActingDoes(c, sweep, key, rule, turn, cache, n);
      ActingLearns(c, sweep, rule, turn, cache, n);
      var (d, _, ok) := Acting(c, sweep, rule, turn, cache, n);
      assert AllLeave(turn.Gap(n), sweep);
      if ok {
        OpenStays(d, turn.Gap(n), sweep, key, rule.actions, known, n);
        CommitWrites(RunFrom(d, turn.Gap(n)), sweep, key, rule.actions, known);
      }
    }
  }

  lemma InsertOpens(s: Store, sweep: Id, rule: Rule, entity: Id, recipients: seq<Id>)
    requires sweep !in s.txs && sweep in Apply(s, Insert(sweep, rule, entity)).txs
    ensures Open(Apply(s, Insert(sweep, rule, entity)), sweep, (rule.id, entity), rule.actions, recipients, 0)
  {
  }

  lemma LearnsNothing(cache: Cache, org: Id, turn: Turn)
    ensures Learns(cache, cache, org, turn)
  {
  }

  /** Nothing fails and nobody else does anything. */
  predicate Quiet(turn: Turn) {
    && !turn.checkFails && turn.lookup.Some? && turn.breaksAt.None?
    && turn.before == [] && turn.first == [] && turn.between == []
  }

  lemma {:induction false} QuietActs(s: Store, sweep: Id, rule: Rule, turn: Turn, cache: Cache, n: nat)
    requires n <= |rule.actions| && Stands(s, sweep, rule.actions, 0) && Quiet(turn)
    ensures var (t, _, ok) := Acting(s, sweep, rule, turn, cache, n);
            ok && Stands(t, sweep, rule.actions, n) && t.txs[sweep].key == s.txs[sweep].key
  {
    if n > 0 { QuietActs(s, sweep, rule, turn, cache, n - 1); }
  }

  lemma {:induction false} QuietActsOnly(s: Store, sweep: Id, rule: Rule, turn: Turn, cache: Cache, n: nat)
    requires n <= |rule.actions| && Stands(s, sweep, rule.actions, 0) && Quiet(turn)
    ensures var t := Acting(s, sweep, rule, turn, cache, n).0;
            t.runs == s.runs && t.txs - {sweep} == s.txs - {sweep}
  {
    if n > 0 {
      QuietActs(s, sweep, rule, turn, cache, n);
      QuietActsOnly(s, sweep, rule, turn, cache, n - 1);
      ActingNext(s, sweep, rule, turn, cache, n - 1);
      var t := Acting(s, sweep, rule, turn, cache, n - 1).0;
      hide Acting;
      assert RunFrom(t, turn.Gap(n - 1)) == t;
      ActKeeps(t, sweep, if rule.actions[n - 1].CreateTask? then [] else Members(rule.org, turn, cache));
    }
  }

  lemma ActKeeps(s: Store, sweep: Id, recipients: seq<Id>)
    ensures var t := Apply(s, Act(sweep, recipients)); t.runs == s.runs && t.txs - {sweep} == s.txs - {sweep}
  {
  }

  /** A matching pair that nothing interferes with has its run row afterwards, and fires
      exactly when it had none before. */
  lemma QuietTurnFires(s: Store, sweep: Id, pair: Pair, turn: Turn, cache: Cache)
    requires turn.matched && Quiet(turn) && sweep !in s.txs && !KeyHeld(s, (pair.0.id, pair.1))
    ensures var (t, _, fired) := AfterTurn(s, sweep, pair, turn, cache);
            (pair.0.id, pair.1) in t.runs && (fired <==> (pair.0.id, pair.1) !in s.runs)
  {
    hide KeyHeld, Acting;
    if (pair.0.id, pair.1) !in s.runs {
      QuietActs(Apply(s, Insert(sweep, pair.0, pair.1)), sweep, pair.0, turn, cache, |pair.0.actions|);
    }
  }

  lemma QuietTurnAdds(s: Store, sweep: Id, pair: Pair, turn: Turn, cache: Cache)
    requires turn.matched && Quiet(turn) && sweep !in s.txs
    ensures var ((t, _, fired), key) := (AfterTurn(s, sweep, pair, turn, cache), (pair.0.id, pair.1));
            && t.txs == s.txs && t.runs.Keys == s.runs.Keys + (if fired then {key} else {})
            && forall other | other in s.runs :: t.runs[other] == s.runs[other]
  {
    hide KeyHeld, Acting;
    var inserted := Apply(s, Insert(sweep, pair.0, pair.1));
    if sweep in inserted.txs {
      QuietActs(inserted, sweep, pair.0, turn, cache, |pair.0.actions|);
      QuietActsOnly(inserted, sweep, pair.0, turn, cache, |pair.0.actions|);
      assert inserted.txs - {sweep} == s.txs;
    }
  }

  // ---- A whole sweep ----------------------------------------------------------

  /** The turn of a pair, from one state and cache to the next. It adds a commit of the sweep
      exactly when the pair fires, and then the run row with every action carried out; the
      cache learns only what the turn looked up. Undisturbed it adds no other run row. */
  ghost predicate Turned(s: (Store, Cache), t: (Store, Cache), sweep: Id, pair: Pair, turn: Turn) {
    var (key, actions) := ((pair.0.id, pair.1), pair.0.actions);
    var fires := Fires(s.0, sweep, pair, turn, s.1);
    && FiredBy(t.0.log, sweep) == FiredBy(s.0.log, sweep) + (if fires then 1 else 0)
    && Learns(s.1, t.1, pair.0.org, turn)
    && (fires ==>
          && key in t.0.runs && CarriedOut(t.0.runs[key], actions, Members(pair.0.org, turn, s.1), |actions|)
          && ((exists i :: 0 <= i < |actions| && !actions[i].CreateTask?) ==> pair.0.org in t.1))
    && (!turn.matched ==> t == s)
    && (Quiet(turn) ==>
          && t.0.txs == s.0.txs && t.0.runs.Keys == s.0.runs.Keys + (if fires then {key} else {})
          && forall other | other in s.0.runs :: t.0.runs[other] == s.0.runs[other])
  }

  /** The states and caches between the turns of a sweep: every pair has its turn, in order. */
  ghost predicate Walk(trace: seq<(Store, Cache)>, sweep: Id, pairs: seq<Pair>, turns: map<Pair, Turn>) {
    && |trace| == |pairs| + 1 && trace[0].1 == map[]
    && forall i | 0 <= i < |pairs| ::
         Turned(trace[i], trace[i + 1], sweep, pairs[i], if pairs[i] in turns then turns[pairs[i]] else NoMatch)
  }

  lemma TurnTurns(s: Store, sweep: Id, pair: Pair, turn: Turn, cache: Cache)
    requires sweep !in s.txs && turn.Leaves(sweep)
    ensures var (t, c, _) := AfterTurn(s, sweep, pair, turn, cache);
            Turned((s, cache), (t, c), sweep, pair, turn) && sweep !in t.txs
  {
    TurnFiresIff(s, sweep, pair, turn, cache);
    TurnCounts(s, sweep, pair, turn, cache);
    TurnWrites(s, sweep, pair, turn, cache);
    if turn.matched && Quiet(turn) { QuietTurnAdds(s, sweep, pair, turn, cache); }
    assert !turn.matched ==> AfterTurn(s, sweep, pair, turn, cache) == (s, cache, false);
    hide AfterTurn, Fires, FiredBy, CarriedOut, Learns, Turn.Leaves, Members;
  }

  /** Where a sweep stands after its first `n` pairs. */
  function Point(s: Store, sweep: Id, pairs: seq<Pair>, turns: map<Pair, Turn>): (Store, Cache) {
    var (t, cache, _) := Swept(s, sweep, pairs, turns);
    (t, cache)
  }

  lemma {:induction false} SweepWalks(s: Store, sweep: Id, pairs: seq<Pair>, turns: map<Pair, Turn>)
    returns (trace: seq<(Store, Cache)>)
    requires sweep !in s.txs && forall pair | pair in turns :: turns[pair].Leaves(sweep)
    ensures Walk(trace, sweep, pairs, turns) && trace[0].0 == s && sweep !in trace[|pairs|].0.txs
    ensures trace[|pairs|] == Point(s, sweep, pairs, turns)
  {
    hide AfterTurn, Turned, Swept, Point, TurnOf, Walk, Turn.Leaves;
    if pairs == [] {
      trace := [(s, map[])];
      WalkNone(s, sweep, turns);
    } else {
      var (init, last) := (pairs[..|pairs| - 1], pairs[|pairs| - 1]);
      trace := SweepWalks(s, sweep, init, turns);
      WalkLength(trace, sweep, init, turns);
      PointNext(s, sweep, pairs, turns);
      TurnLeaves(turns, last, sweep);
      var (t, cache) := Point(s, sweep, init, turns);
      TurnTurns(t, sweep, last, TurnOf(turns, last), cache);
      WalkNext(trace, sweep, pairs, turns, Point(s, sweep, pairs, turns));
      trace := trace + [Point(s, sweep, pairs, turns)];
    }
  }

  lemma WalkNone(s: Store, sweep: Id, turns: map<Pair, Turn>)
    ensures Walk([(s, map[])], sweep, [], turns) && Point(s, sweep, [], turns) == (s, map[])
  {
  }

  lemma WalkNext(trace: seq<(Store, Cache)>, sweep: Id, pairs: seq<Pair>, turns: map<Pair, Turn>, next: (Store, Cache))
    requires pairs != [] && Walk(trace, sweep, pairs[..|pairs| - 1], turns)
    requires Turned(trace[|trace| - 1], next, sweep, pairs[|pairs| - 1], TurnOf(turns, pairs[|pairs| - 1]))
    ensures Walk(trace + [next], sweep, pairs, turns)
  {
    hide Turned;
  }

  lemma TurnLeaves(turns: map<Pair, Turn>, pair: Pair, sweep: Id)
    requires pair in turns ==> turns[pair].Leaves(sweep)
    ensures TurnOf(turns, pair).Leaves(sweep)
  {
    assert AllLeave([], sweep);
  }

  lemma PointNext(s: Store, sweep: Id, pairs: seq<Pair>, turns: map<Pair, Turn>)
    requires pairs != []
    ensures var (last, (t, cache)) := (pairs[|pairs| - 1], Point(s, sweep, pairs[..|pairs| - 1], turns));
            var (u, cache', _) := AfterTurn(t, sweep, last, TurnOf(turns, last), cache);
            Point(s, sweep, pairs, turns) == (u, cache')
  {
    hide AfterTurn;
  }

  /** The keys of the pairs that match. */
  function MatchedKeys(pairs: seq<Pair>, turns: map<Pair, Turn>): set<Key> {
    set pair | pair in pairs && pair in turns && turns[pair].matched :: (pair.0.id, pair.1)
  }

  /** From `s` to `r` these run rows were added, with as many commits of the sweep. */
  ghost predicate Added(s: Store, r: Store, sweep: Id, keys: set<Key>) {
    && r.txs == map[] && r.runs.Keys == s.runs.Keys + keys
    && |r.runs.Keys| + FiredBy(s.log, sweep) == |s.runs.Keys| + FiredBy(r.log, sweep)
  }

  /** Left in peace, a sweep leaves a run row for every pair that matches and adds no other,
      and the rows it adds are its commits. */
  lemma {:induction false} QuietWalkRunsAll(trace: seq<(Store, Cache)>, sweep: Id, pairs: seq<Pair>,
                                            turns: map<Pair, Turn>, n: nat)
    requires Walk(trace, sweep, pairs, turns) && n <= |pairs| && trace[0].0.txs == map[]
    requires forall pair | pair in turns && turns[pair].matched :: Quiet(turns[pair])
    ensures Added(trace[0].0, trace[n].0, sweep, MatchedKeys(pairs[..n], turns))
  {
    hide FiredBy, Turned, MatchedKeys, Quiet, TurnOf, Added, Walk;
    WalkLength(trace, sweep, pairs, turns);
    if n == 0 {
      NothingAdded(trace[0].0, sweep, pairs, turns);
    } else {
      WalkTurns(trace, sweep, pairs, turns, n - 1);
      QuietWalkRunsAll(trace, sweep, pairs, turns, n - 1);
      MatchedNext(pairs, turns, n - 1);
      QuietOrUnmatched(turns, pairs[n - 1]);
      QuietStep(trace[0].0, trace[n - 1], trace[n], sweep, pairs[n - 1], TurnOf(turns, pairs[n - 1]),
                MatchedKeys(pairs[..n - 1], turns));
    }
  }

  lemma NothingAdded(s: Store, sweep: Id, pairs: seq<Pair>, turns: map<Pair, Turn>)
    requires s.txs == map[]
    ensures Added(s, s, sweep, MatchedKeys(pairs[..0], turns))
  {
    hide FiredBy;
    assert pairs[..0] == [] && MatchedKeys([], turns) == {};
    assert s.runs.Keys + {} == s.runs.Keys;
  }

  lemma WalkTurns(trace: seq<(Store, Cache)>, sweep: Id, pairs: seq<Pair>, turns: map<Pair, Turn>, i: nat)
    requires Walk(trace, sweep, pairs, turns) && i < |pairs|
    ensures |trace| == |pairs| + 1 && Turned(trace[i], trace[i + 1], sweep, pairs[i], TurnOf(turns, pairs[i]))
  {
    hide Turned;
  }

  lemma QuietOrUnmatched(turns: map<Pair, Turn>, pair: Pair)
    requires pair in turns && turns[pair].matched ==> Quiet(turns[pair])
    ensures TurnOf(turns, pair).matched ==> Quiet(TurnOf(turns, pair))
  {
    hide Quiet;
  }

  lemma MatchedNext(pairs: seq<Pair>, turns: map<Pair, Turn>, n: nat)
    requires n < |pairs|
    ensures MatchedKeys(pairs[..n + 1], turns)
            == MatchedKeys(pairs[..n], turns)
               + if TurnOf(turns, pairs[n]).matched then {(pairs[n].0.id, pairs[n].1)} else {}
  {
    assert pairs[..n + 1] == pairs[..n] + [pairs[n]];
  }

  lemma QuietStep(start: Store, s: (Store, Cache), t: (Store, Cache), sweep: Id, pair: Pair, turn: Turn,
                  keys: set<Key>)
    requires Turned(s, t, sweep, pair, turn) && (turn.matched ==> Quiet(turn)) && Added(start, s.0, sweep, keys)
    ensures Added(start, t.0, sweep, keys + if turn.matched then {(pair.0.id, pair.1)} else {})
  {
    if turn.matched {
      var (key, fires) := ((pair.0.id, pair.1), Fires(s.0, sweep, pair, turn, s.1));
      hide Fires, FiredBy, CarriedOut, Learns, Members, Quiet;
      assert t.0.txs == map[] && t.0.runs.Keys == s.0.runs.Keys + (if fires then {key} else {})
             && FiredBy(t.0.log, sweep) == FiredBy(s.0.log, sweep) + (if fires then 1 else 0);
      hide Turned;
      QuietFires(s.0, sweep, pair, turn, s.1);
      KeyAdded(start.runs.Keys, s.0.runs.Keys, t.0.runs.Keys, keys, key, fires);
    } else {
      assert t == s && keys + {} == keys;
    }
  }

  lemma KeyAdded(start: set<Key>, before: set<Key>, after: set<Key>, keys: set<Key>, key: Key, fires: bool)
    requires before == start + keys && after == before + (if fires then {key} else {}) && fires == (key !in before)
    ensures after == start + (keys + {key}) && |after| == |before| + if fires then 1 else 0
  {
  }

  lemma QuietFires(s: Store, sweep: Id, pair: Pair, turn: Turn, cache: Cache)
    requires turn.matched && Quiet(turn) && s.txs == map[]
    ensures Fires(s, sweep, pair, turn, cache) <==> (pair.0.id, pair.1) !in s.runs
  {
    assert RunFrom(s, turn.before) == s && RunFrom(s, turn.first) == s;
    hide RunFrom;
  }

  // ---- The tables -------------------------------------------------------------

  class Database {
    var runs: map<Key, seq<Executed>>
    var tasks: seq<Task>
    var notices: seq<Notice>
    var txs: map<Id, Tx>
    var log: seq<Firing>

    function Now(): Store
      reads this
    {
      Store(runs, tasks, notices, txs, log)
    }

    constructor ()
      ensures Now() == Init
    {
      runs, tasks, notices, txs, log := map[], [], [], map[], [];
    }

    method Insert(sweep: Id, rule: Rule, entity: Id)
      modifies this
      ensures Now() == Apply(old(Now()), Event.Insert(sweep, rule, entity))
    {
      if sweep in txs || (rule.id, entity) in runs || KeyHeld(Now(), (rule.id, entity)) { return; }
      txs := txs[sweep := Tx((rule.id, entity), rule.actions, [])];
    }

    method Act(sweep: Id, recipients: seq<Id>)
      modifies this
      ensures Now() == Apply(old(Now()), Event.Act(sweep, recipients))
    {
      if sweep !in txs || |txs[sweep].executed| >= |txs[sweep].actions| { return; }
      var t := txs[sweep];
      var action := t.actions[|t.executed|];
      var reached := recipients;
      if action.CreateTask? { reached := []; }
      txs := txs[sweep := t.(executed := t.executed + [Executed(action, reached)])];
    }

    method Commit(sweep: Id)
      modifies this
      ensures Now() == Apply(old(Now()), Event.Commit(sweep))
    {
      if sweep !in txs || |txs[sweep].executed| < |txs[sweep].actions| { return; }
      var t := txs[sweep];
      runs := runs[t.key := t.executed];
      tasks := tasks + TasksFrom(t.key, t.executed);
      notices := notices + NoticesFrom(t.key, t.executed);
      txs := txs - {sweep};
      log := log + [Firing(t.key, sweep, t.actions, t.executed)];
    }

    method Abort(sweep: Id)
      modifies this
      ensures Now() == Apply(old(Now()), Event.Abort(sweep))
    {
      txs := txs - {sweep};
    }

    method Do(e: Event)
      modifies this
      ensures Now() == Apply(old(Now()), e)
    {
      match e
      case Insert(sweep, rule, entity) => Insert(sweep, rule, entity);
      case Act(sweep, recipients) => Act(sweep, recipients);
      case Commit(sweep) => Commit(sweep);
      case Abort(sweep) => Abort(sweep);
    }

    method Others(es: seq<Event>)
      modifies this
      ensures Now() == RunFrom(old(Now()), es)
    {
      hide Apply;
      var i := 0;
      while i < |es|
        invariant 0 <= i <= |es|
        invariant Now() == RunFrom(old(Now()), es[..i])
      {
        Do(es[i]);
        i := i + 1;
        assert es[..i][..i - 1] == es[..i - 1];
      }
      assert es[..i] == es;
    }

    /** Fires a rule on an entity: run row first, then the actions one by one. */
    method Fire(sweep: Id, rule: Rule, entity: Id, turn: Turn, recipientsByOrg: Cache)
      returns (cache: Cache, fired: bool)
      modifies this
      ensures (Now(), cache, fired) == AfterFire(old(Now()), sweep, rule, entity, turn, recipientsByOrg)
    {
      hide Apply, RunFrom;
      cache := recipientsByOrg;
      Others(turn.first);
      Insert(sweep, rule, entity);
      if sweep !in txs { return cache, false; }
      ghost var inserted := Now();
      var i := 0;
      while i < |rule.actions|
        invariant 0 <= i <= |rule.actions|
        invariant (Now(), cache, true) == Acting(inserted, sweep, rule, turn, recipientsByOrg, i)
      {
        Others(turn.Gap(i));
        var recipients: seq<Id> := [];
        var broken := false;
        if !rule.actions[i].CreateTask? {
          ghost var was := cache;
          match Recipients(cache, rule.org, turn)
          case None => broken := true;
          case Some(found) =>
            recipients := found;
            if rule.org !in cache { cache := cache[rule.org := found]; }
            assert cache == was[rule.org := found];
        }
        if broken || turn.breaksAt == Some(i) {
          FailsFor(inserted, sweep, rule, turn, recipientsByOrg, i + 1, |rule.actions|);
          Abort(sweep);
          return cache, false;
        }
        Act(sweep, recipients);
        i := i + 1;
      }
      Others(turn.Gap(|rule.actions|));
      if turn.breaksAt == Some(|rule.actions|) {
        Abort(sweep);
        return cache, false;
      }
      Commit(sweep);
      fired := true;
    }

    /** One pair: nothing to do without a match or after an earlier run. */
    method Take(sweep: Id, pair: Pair, turn: Turn, recipientsByOrg: Cache) returns (cache: Cache, fired: bool)
      modifies this
      ensures (Now(), cache, fired) == AfterTurn(old(Now()), sweep, pair, turn, recipientsByOrg)
    {
      hide RunFrom, AfterFire;
      if !turn.matched { return recipientsByOrg, false; }
      Others(turn.before);
      if turn.checkFails || (pair.0.id, pair.1) in runs { return recipientsByOrg, false; }
      cache, fired := Fire(sweep, pair.0, pair.1, turn, recipientsByOrg);
    }

    /** One rule against the entities of its kind. */
    method SweepRule(sweep: Id, rule: Rule, found: seq<Id>, turns: map<Pair, Turn>, p: Progress,
                     ghost start: Store, ghost visited: seq<Pair>)
      returns (q: Progress)
      requires Reached(start, sweep, turns, visited, Now(), p)
      modifies this
      ensures Reached(start, sweep, turns, visited + Row(rule, found), Now(), q)
    {
      hide Swept, AfterTurn, Row;
      q := p;
      RowNone(rule, found);
      assert visited + [] == visited;
      for i := 0 to |found|
        invariant Reached(start, sweep, turns, visited + Row(rule, found[..i]), Now(), q)
      {
        var pair := (rule, found[i]);
        RowNext(rule, found, i);
        SweptNext(start, sweep, visited + Row(rule, found[..i]), pair, turns);
        assert visited + Row(rule, found[..i + 1]) == visited + Row(rule, found[..i]) + [pair];
        var cache, fired := Take(sweep, pair, TurnOf(turns, pair), q.recipientsByOrg);
        q := Progress(cache, q.evaluated + 1, if fired then q.fired + 1 else q.fired);
      }
      assert found[..|found|] == found;
    }

    /** The rules of one organisation and trigger, against the same entities. */
    method SweepGroup(sweep: Id, group: seq<Rule>, found: seq<Id>, turns: map<Pair, Turn>, p: Progress,
                      ghost start: Store, ghost entities: map<(Id, Id), seq<Id>>, ghost visited: seq<Rule>)
      returns (q: Progress)
      requires forall rule | rule in group :: EntitiesOf(entities, rule) == found
      requires Reached(start, sweep, turns, Pairs(visited, entities), Now(), p)
      modifies this
      ensures Reached(start, sweep, turns, Pairs(visited + group, entities), Now(), q)
    {
      hide Reached, EntitiesOf, Row;
      q := p;
      assert visited + group[..0] == visited;
      for k := 0 to |group|
        invariant Reached(start, sweep, turns, Pairs(visited + group[..k], entities), Now(), q)
      {
        ghost var next := visited + group[..k + 1];
        assert next[..|next| - 1] == visited + group[..k];
        q := SweepRule(sweep, group[k], found, turns, q, start, Pairs(visited + group[..k], entities));
      }
      assert group[..|group|] == group;
    }

    /** The rules of one organisation, grouped by trigger; a failed fetch ends the sweep. */
    method SweepOrg(sweep: Id, rules: seq<Rule>, org: Id, orgRules: seq<Rule>, entities: map<(Id, Id), seq<Id>>,
                    unreachable: set<(Id, Id)>, turns: map<Pair, Turn>, p: Progress, ghost start: Store,
                    ghost visited: seq<Rule>)
      returns (q: Progress, ran: bool)
      requires orgRules == Class(rules, OrgOf, org)
      requires Reached(start, sweep, turns, Pairs(visited, entities), Now(), p)
      modifies this
      ensures Reached(start, sweep, turns, Pairs(visited + Until(PlanOrg(orgRules), unreachable), entities), Now(), q)
      ensures ran <==> Until(PlanOrg(orgRules), unreachable) == PlanOrg(orgRules)
    {
      hide Reached, EntitiesOf, Pairs, Class, Classes, Keys, Until;
      q := p;
      var triggers, rulesByEntity := GroupBy(orgRules, TriggerOf);
      assert triggers[..0] == [] && visited + [] == visited;
      NoClasses(orgRules, TriggerOf);
      UntilNone(unreachable);
      for j := 0 to |triggers|
        invariant Reached(start, sweep, turns, Pairs(visited + Classes(orgRules, TriggerOf, triggers[..j]), entities),
                          Now(), q)
        invariant Until(Classes(orgRules, TriggerOf, triggers[..j]), unreachable)
                  == Classes(orgRules, TriggerOf, triggers[..j])
      {
        var kind := (org, triggers[j]);
        var group := rulesByEntity[triggers[j]];
        ghost var sofar := Classes(orgRules, TriggerOf, triggers[..j]);
        GroupUntil(rules, org, triggers[j], unreachable);
        UntilConcat(sofar, group, unreachable);
        ClassesLast(orgRules, TriggerOf, triggers[..j], triggers[j]);
        assert triggers[..j + 1] == triggers[..j] + [triggers[j]];
        if kind in unreachable {
          ClassesPrefix(orgRules, TriggerOf, triggers, j + 1);
          UntilStops(sofar + group, PlanOrg(orgRules), unreachable);
          assert sofar + [] == sofar;
          return q, false;
        }
        GroupEntities(rules, org, triggers[j], entities);
        var found := if kind in entities then entities[kind] else [];
        q := SweepGroup(sweep, group, found, turns, q, start, entities, visited + sofar);
        assert visited + sofar + group == visited + (sofar + group);
      }
      assert triggers[..|triggers|] == triggers;
      ran := true;
    }

    /** The sweep: groups the rules, takes every pair of a rule and an entity of its kind
        once, and counts what it took and what it committed. A fetch of entities that fails
        ends it there, with its commits kept and its counters lost to the caller. */
    method Process(sweep: Id, rules: seq<Rule>, entities: map<(Id, Id), seq<Id>>, unreachable: set<(Id, Id)>,
                   turns: map<Pair, Turn>)
      returns (ran: bool, evaluated: nat, fired: nat, ghost trace: seq<(Store, Cache)>)
      requires sweep !in txs && forall pair | pair in turns :: turns[pair].Leaves(sweep)
      modifies this
      ensures ran <==> forall rule | rule in rules :: (rule.org, rule.trigger) !in unreachable
      ensures ran ==> evaluated == |Pairs(rules, entities)| && Until(Plan(rules), unreachable) == Plan(rules)
      ensures evaluated == |Pairs(Until(Plan(rules), unreachable), entities)|
      ensures Walk(trace, sweep, Pairs(Until(Plan(rules), unreachable), entities), turns)
      ensures trace[0].0 == old(Now()) && trace[|trace| - 1].0 == Now()
      ensures sweep !in txs && FiredBy(log, sweep) == FiredBy(old(log), sweep) + fired
      ensures ran && old(txs) == map[] && (forall pair | pair in turns && turns[pair].matched :: Quiet(turns[pair]))
              ==> && runs.Keys == old(runs).Keys + MatchedKeys(Pairs(rules, entities), turns)
                  && |runs.Keys| == |old(runs).Keys| + fired
    {
      hide Swept, EntitiesOf, Class, Keys, PlanOrg, Row, FiredBy, Turn.Leaves, Until, Walk, Quiet, MatchedKeys, Pairs;
      ghost var start := Now();
      var p;
      p, ran := SweepAll(sweep, rules, entities, unreachable, turns);
      PlanCoversPairs(rules, entities);
      PlanPermutes(rules);
      UntilWhole(Plan(rules), rules, unreachable);
      SweptCounts(start, sweep, Pairs(Until(Plan(rules), unreachable), entities), turns);
      evaluated, fired := p.evaluated, p.fired;
      trace := SweepWalks(start, sweep, Pairs(Until(Plan(rules), unreachable), entities), turns);
      WalkLength(trace, sweep, Pairs(Until(Plan(rules), unreachable), entities), turns);
      if ran && old(txs) == map[] && forall pair | pair in turns && turns[pair].matched :: Quiet(turns[pair]) {
        QuietEnd(trace, sweep, rules, entities, turns);
      }
    }

    /** The loop over the organisations. */
    method SweepAll(sweep: Id, rules: seq<Rule>, entities: map<(Id, Id), seq<Id>>, unreachable: set<(Id, Id)>,
                    turns: map<Pair, Turn>)
      returns (p: Progress, ran: bool)
      modifies this
      ensures Reached(old(Now()), sweep, turns, Pairs(Until(Plan(rules), unreachable), entities), Now(), p)
      ensures ran <==> Until(Plan(rules), unreachable) == Plan(rules)
    {
      hide Reached, Pairs, Class, Keys, PlanOrg, PlanOrgs, Until;
      p := Progress(map[], 0, 0);
      ghost var start := Now();
      ReachedStart(start, sweep, turns, rules, entities);
      UntilNone(unreachable);
      var orgs, rulesByOrg := GroupBy(rules, OrgOf);
      assert orgs[..0] == [];
      for i := 0 to |orgs|
        invariant Reached(start, sweep, turns, Pairs(PlanOrgs(rules, orgs[..i]), entities), Now(), p)
        invariant Until(PlanOrgs(rules, orgs[..i]), unreachable) == PlanOrgs(rules, orgs[..i])
      {
        ghost var sofar := PlanOrgs(rules, orgs[..i]);
        ghost var next := PlanOrg(Class(rules, OrgOf, orgs[i]));
        PlanOrgsNext(rules, orgs, i);
        UntilConcat(sofar, next, unreachable);
        var going;
        p, going := SweepOrg(sweep, rules, orgs[i], rulesByOrg[orgs[i]], entities, unreachable, turns, p, start, sofar);
        if !going {
          PlanOrgsPrefix(rules, orgs, i + 1);
          UntilStops(sofar + next, Plan(rules), unreachable);
          return p, false;
        }
      }
      assert orgs[..|orgs|] == orgs;
      ran := true;
    }
  }

  lemma WalkLength(trace: seq<(Store, Cache)>, sweep: Id, pairs: seq<Pair>, turns: map<Pair, Turn>)
    requires Walk(trace, sweep, pairs, turns)
    ensures |trace| == |pairs| + 1
  {
  }

  lemma QuietEnd(trace: seq<(Store, Cache)>, sweep: Id, rules: seq<Rule>, entities: map<(Id, Id), seq<Id>>,
                 turns: map<Pair, Turn>)
    requires Walk(trace, sweep, Pairs(Plan(rules), entities), turns) && trace[0].0.txs == map[]
    requires forall pair | pair in turns && turns[pair].matched :: Quiet(turns[pair])
    ensures var (s, r) := (trace[0].0, trace[|trace| - 1].0);
            && r.runs.Keys == s.runs.Keys + MatchedKeys(Pairs(rules, entities), turns)
            && |r.runs.Keys| + FiredBy(s.log, sweep) == |s.runs.Keys| + FiredBy(r.log, sweep)
  {
    hide Pairs, FiredBy, Turned, Quiet;
    var pairs := Pairs(Plan(rules), entities);
    QuietWalkRunsAll(trace, sweep, pairs, turns, |pairs|);
    assert Added(trace[0].0, trace[|pairs|].0, sweep, MatchedKeys(pairs[..|pairs|], turns));
    assert pairs[..|pairs|] == pairs;
    PlanCoversPairs(rules, entities);
    SameKeys(pairs, Pairs(rules, entities), turns);
  }

  lemma SameKeys(a: seq<Pair>, b: seq<Pair>, turns: map<Pair, Turn>)
    requires multiset(a) == multiset(b)
    ensures MatchedKeys(a, turns) == MatchedKeys(b, turns)
  {
    hide TurnOf;
    forall pair ensures pair in a <==> pair in b { assert pair in a <==> pair in multiset(a); }
  }

  lemma ReachedStart(start: Store, sweep: Id, turns: map<Pair, Turn>, rules: seq<Rule>,
                     entities: map<(Id, Id), seq<Id>>)
    ensures PlanOrgs(rules, []) == []
    ensures Reached(start, sweep, turns, Pairs([], entities), start, Progress(map[], 0, 0))
  {
    SweptNone(start, sweep, turns);
  }

  lemma NoClasses(rules: seq<Rule>, f: Rule -> Id)
    ensures Classes(rules, f, []) == []
  {
  }

  lemma GroupEntities(rules: seq<Rule>, org: Id, trigger: Id, entities: map<(Id, Id), seq<Id>>)
    ensures forall rule | rule in Class(Class(rules, OrgOf, org), TriggerOf, trigger) ::
              EntitiesOf(entities, rule) == if (org, trigger) in entities then entities[(org, trigger)] else []
  {
    hide Class, EntitiesOf;
    forall rule | rule in Class(Class(rules, OrgOf, org), TriggerOf, trigger)
      ensures EntitiesOf(entities, rule) == if (org, trigger) in entities then entities[(org, trigger)] else []
    {
      GroupKind(rules, org, trigger, rule, entities);
    }
  }

  lemma UntilNone(unreachable: set<(Id, Id)>)
    ensures Until([], unreachable) == []
  {
  }

  /** A plan that runs through has no rule of a kind that cannot be fetched. */
  lemma UntilWhole(plan: seq<Rule>, rules: seq<Rule>, unreachable: set<(Id, Id)>)
    requires multiset(plan) == multiset(rules)
    ensures Until(plan, unreachable) == plan
            <==> forall rule | rule in rules :: (rule.org, rule.trigger) !in unreachable
  {
    hide Until;
    UntilAllIff(plan, unreachable);
    assert forall rule :: rule in plan <==> rule in multiset(plan);
    assert forall rule :: rule in rules <==> rule in multiset(rules);
  }

  /** A group is taken as a whole or, when its entities cannot be fetched, not at all. */
  lemma GroupUntil(rules: seq<Rule>, org: Id, trigger: Id, unreachable: set<(Id, Id)>)
    requires trigger in Keys(Class(rules, OrgOf, org), TriggerOf)
    ensures var group := Class(Class(rules, OrgOf, org), TriggerOf, trigger);
            && group != []
            && Until(group, unreachable) == if (org, trigger) in unreachable then [] else group
  {
    var group := Class(Class(rules, OrgOf, org), TriggerOf, trigger);
    KeyHasClass(Class(rules, OrgOf, org), TriggerOf, trigger);
    hide Class, Keys;
    forall rule | rule in group ensures (rule.org, rule.trigger) == (org, trigger) {
      ClassMembers(Class(rules, OrgOf, org), TriggerOf, trigger, rule);
      ClassMembers(rules, OrgOf, org, rule);
    }
    assert group[0] in group;
    UntilAllIff(group, unreachable);
  }

  lemma {:induction false} FailsFor(s: Store, sweep: Id, rule: Rule, turn: Turn, cache: Cache, n: nat, m: nat)
    requires n <= m <= |rule.actions| && !Acting(s, sweep, rule, turn, cache, n).2
    ensures Acting(s, sweep, rule, turn, cache, m) == Acting(s, sweep, rule, turn, cache, n)
    decreases m
  {
    if n < m { FailsFor(s, sweep, rule, turn, cache, n, m - 1); }
  }

  lemma SweptNext(s: Store, sweep: Id, pairs: seq<Pair>, pair: Pair, turns: map<Pair, Turn>)
    ensures var (t, cache, n) := Swept(s, sweep, pairs, turns);
            var (u, cache', fired) := AfterTurn(t, sweep, pair, TurnOf(turns, pair), cache);
            Swept(s, sweep, pairs + [pair], turns) == (u, cache', n + if fired then 1 else 0)
  {
    hide AfterTurn;
    assert (pairs + [pair])[..|pairs|] == pairs;
  }

  lemma RowNone(rule: Rule, es: seq<Id>)
    ensures Row(rule, es[..0]) == []
  {
  }

  lemma RowNext(rule: Rule, es: seq<Id>, i: nat)
    requires i < |es|
    ensures Row(rule, es[..i + 1]) == Row(rule, es[..i]) + [(rule, es[i])]
  {
    assert es[..i + 1][..i] == es[..i];
  }

  lemma SweptNone(s: Store, sweep: Id, turns: map<Pair, Turn>)
    ensures Swept(s, sweep, [], turns) == (s, map[], 0)
  {
  }

  lemma {:induction false} SweptCounts(s: Store, sweep: Id, pairs: seq<Pair>, turns: map<Pair, Turn>)
    requires sweep !in s.txs && forall pair | pair in turns :: turns[pair].Leaves(sweep)
    ensures var (t, _, fired) := Swept(s, sweep, pairs, turns);
            sweep !in t.txs && FiredBy(t.log, sweep) == FiredBy(s.log, sweep) + fired
  {
    hide AfterTurn, FiredBy;
    if pairs != [] {
      var last := pairs[|pairs| - 1];
      SweptCounts(s, sweep, pairs[..|pairs| - 1], turns);
      var (t, cache, _) := Swept(s, sweep, pairs[..|pairs| - 1], turns);
      assert AllLeave([], sweep);
      TurnCounts(t, sweep, last, TurnOf(turns, last), cache);
    }
  }

  /** A rule found in a group has the group's organisation and trigger. */
  lemma GroupKind(rules: seq<Rule>, org: Id, trigger: Id, rule: Rule, entities: map<(Id, Id), seq<Id>>)
    requires rule in Class(Class(rules, OrgOf, org), TriggerOf, trigger)
    ensures EntitiesOf(entities, rule) == if (org, trigger) in entities then entities[(org, trigger)] else []
  {
    hide Class;
    ClassMembers(Class(rules, OrgOf, org), TriggerOf, trigger, rule);
    ClassMembers(rules, OrgOf, org, rule);
  }
}
