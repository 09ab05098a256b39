/** Workflow rules firing on entities. Each firing is a transaction that inserts the run
    row of its (rule, entity) pair first, runs the actions of the rule as it was read, and
    commits; the unique key on the pair is what sweeps contend for. */
module Workflow {
  import opened Sums

  type Id = nat
  type Key = (Id, Id) // rule and entity

  datatype Action = CreateTask(title: string) | SendNotification(title: string)

  datatype Rule = Rule(id: Id, org: Id, trigger: Id, actions: seq<Action>)

  /** An action that was carried out, with those it reached. */
  datatype Executed = Executed(action: Action, recipients: seq<Id>)

  datatype Task = Task(key: Key, title: string)
  datatype Notice = Notice(key: Key, user: Id, title: string)

  /** An open firing: it holds the unique key and has carried out some of its actions. */
  datatype Tx = Tx(key: Key, actions: seq<Action>, executed: seq<Executed>)

  /** A committed firing. */
  datatype Firing = Firing(key: Key, sweep: Id, actions: seq<Action>, executed: seq<Executed>)

  datatype Store = Store(
    runs: map<Key, seq<Executed>>,
    tasks: seq<Task>,
    notices: seq<Notice>,
    txs: map<Id, Tx>,     // by sweep: a sweep fires one pair at a time
    log: seq<Firing>)     // record of the commits

  const Init := Store(map[], [], [], map[], [])

  // ---- Steps -------------------------------------------------------------

  datatype Event =
    | Insert(sweep: Id, rule: Rule, entity: Id)
    | Act(sweep: Id, recipients: seq<Id>)
    | Commit(sweep: Id)
    | Abort(sweep: Id)

  /** Some open transaction has inserted the pair's run row. */
  predicate KeyHeld(s: Store, key: Key) { exists t :: t in s.txs && s.txs[t].key == key }

  function Apply(s: Store, e: Event): Store {
    match e
    case Insert(sweep, rule, entity) => AfterInsert(s, sweep, rule, entity)
    case Act(sweep, recipients) => AfterAct(s, sweep, recipients)
    case Commit(sweep) => AfterCommit(s, sweep)
    case Abort(sweep) => s.(txs := s.txs - {sweep})
  }

  /** The insert fails on a committed row with the same key, and waits while another
      transaction holds it. */
  function AfterInsert(s: Store, sweep: Id, rule: Rule, entity: Id): Store {
    if sweep in s.txs || (rule.id, entity) in s.runs || KeyHeld(s, (rule.id, entity)) then s
    else s.(txs := s.txs[sweep := Tx((rule.id, entity), rule.actions, [])])
  }

  function AfterAct(s: Store, sweep: Id, recipients: seq<Id>): Store {
    if sweep !in s.txs || |s.txs[sweep].executed| >= |s.txs[sweep].actions| then s
    else
      var t := s.txs[sweep];
      var action := t.actions[|t.executed|];
      var reached := if action.CreateTask? then [] else recipients;
      s.(txs := s.txs[sweep := t.(executed := t.executed + [Executed(action, reached)])])
  }

  /** Nothing a firing wrote is there before it commits with every action done. */
  function AfterCommit(s: Store, sweep: Id): Store {
    if sweep !in s.txs || |s.txs[sweep].executed| < |s.txs[sweep].actions| then s
    else
      var t := s.txs[sweep];
      s.(runs := s.runs[t.key := t.executed],
         tasks := s.tasks + TasksFrom(t.key, t.executed),
         notices := s.notices + NoticesFrom(t.key, t.executed),
         txs := s.txs - {sweep},
         log := s.log + [Firing(t.key, sweep, t.actions, t.executed)])
  }

  /** The tasks and notifications a list of actions leaves, in order. */
  function TasksFrom(key: Key, executed: seq<Executed>): (r: seq<Task>)
    ensures forall i | 0 <= i < |r| :: r[i].key == key
  {
    if executed == [] then []
    else
      var last := executed[|executed| - 1];
      TasksFrom(key, executed[..|executed| - 1])
      + if last.action.CreateTask? then [Task(key, last.action.title)] else []
  }

  function NoticesFrom(key: Key, executed: seq<Executed>): (r: seq<Notice>)
    ensures forall i | 0 <= i < |r| :: r[i].key == key
  {
    if executed == [] then []
    else
      var last := executed[|executed| - 1];
      NoticesFrom(key, executed[..|executed| - 1]) + if last.action.CreateTask? then [] else Sent(key, last)
  }

  function Sent(key: Key, e: Executed): (r: seq<Notice>)
    ensures |r| == |e.recipients|
    ensures forall i | 0 <= i < |r| :: r[i] == Notice(key, e.recipients[i], e.action.title)
  {
    seq(|e.recipients|, i requires 0 <= i < |e.recipients| => Notice(key, e.recipients[i], e.action.title))
  }

  function RunFrom(s: Store, es: seq<Event>): Store {
    if es == [] then s else Apply(RunFrom(s, es[..|es| - 1]), es[|es| - 1])
  }

  function Run(es: seq<Event>): Store { RunFrom(Init, es) }

  /** Steps run one after another. */
  lemma RunNext(s: Store, es: seq<Event>, e: Event)
    ensures RunFrom(s, []) == s && RunFrom(s, es + [e]) == Apply(RunFrom(s, es), e)
  {
    hide Apply;
    assert (es + [e])[..|es|] == es;
  }

  // ---- What every run keeps ----------------------------------------------

  function TasksOf(tasks: seq<Task>, key: Key): seq<Task> {
    if tasks == [] then []
    else TasksOf(tasks[..|tasks| - 1], key) + if tasks[|tasks| - 1].key == key then [tasks[|tasks| - 1]] else []
  }

  function NoticesOf(notices: seq<Notice>, key: Key): seq<Notice> {
    if notices == [] then []
    else NoticesOf(notices[..|notices| - 1], key)
         + if notices[|notices| - 1].key == key then [notices[|notices| - 1]] else []
  }

  function FiringsOf(log: seq<Firing>, key: Key): seq<Firing> {
    if log == [] then []
    else FiringsOf(log[..|log| - 1], key) + if log[|log| - 1].key == key then [log[|log| - 1]] else []
  }

  /** The actions carried out are the first of those read, in order. */
  ghost predicate Follows(executed: seq<Executed>, actions: seq<Action>) {
    |executed| <= |actions| && forall i | 0 <= i < |executed| :: executed[i].action == actions[i]
  }

  /** What one pair has to show: everything its one committed firing did, or nothing. */
  ghost predicate Shows(s: Store, key: Key) {
    var firings := FiringsOf(s.log, key);
    if key in s.runs
    then
      && |firings| == 1 && firings[0].executed == s.runs[key]
      && |s.runs[key]| == |firings[0].actions| && Follows(s.runs[key], firings[0].actions)
      && TasksOf(s.tasks, key) == TasksFrom(key, s.runs[key])
      && NoticesOf(s.notices, key) == NoticesFrom(key, s.runs[key])
    else firings == [] && TasksOf(s.tasks, key) == [] && NoticesOf(s.notices, key) == []
  }

  /** The pair's unique key is held by one open firing at most, and by none once run. */
  ghost predicate HeldOnce(s: Store, key: Key) {
    && (forall t, u | t in s.txs && u in s.txs && s.txs[t].key == key && s.txs[u].key == key :: t == u)
    && (forall t | t in s.txs && s.txs[t].key == key :: key !in s.runs && Follows(s.txs[t].executed, s.txs[t].actions))
  }

  lemma TasksNext(tasks: seq<Task>, x: Task, key: Key)
    ensures TasksOf(tasks + [x], key) == TasksOf(tasks, key) + if x.key == key then [x] else []
  {
    assert (tasks + [x])[..|tasks|] == tasks;
  }

  lemma {:induction false} TasksAppend(tasks: seq<Task>, more: seq<Task>, owner: Key, key: Key)
    requires forall i | 0 <= i < |more| :: more[i].key == owner
    ensures TasksOf(tasks + more, key) == TasksOf(tasks, key) + if owner == key then more else []
  {
    hide TasksOf;
    if more == [] {
      assert tasks + more == tasks;
    } else {
      var (init, last) := (more[..|more| - 1], more[|more| - 1]);
      TasksAppend(tasks, init, owner, key);
      TasksNext(tasks + init, last, key);
      assert tasks + more == tasks + init + [last] && more == init + [last];
    }
  }

  lemma NoticesNext(notices: seq<Notice>, x: Notice, key: Key)
    ensures NoticesOf(notices + [x], key) == NoticesOf(notices, key) + if x.key == key then [x] else []
  {
    assert (notices + [x])[..|notices|] == notices;
  }

  lemma {:induction false} NoticesAppend(notices: seq<Notice>, more: seq<Notice>, owner: Key, key: Key)
    requires forall i | 0 <= i < |more| :: more[i].key == owner
    ensures NoticesOf(notices + more, key) == NoticesOf(notices, key) + if owner == key then more else []
  {
    hide NoticesOf;
    if more == [] {
      assert notices + more == notices;
    } else {
      var (init, last) := (more[..|more| - 1], more[|more| - 1]);
      NoticesAppend(notices, init, owner, key);
      NoticesNext(notices + init, last, key);
      assert notices + more == notices + init + [last] && more == init + [last];
    }
  }

  lemma FiringsAppend(log: seq<Firing>, f: Firing, key: Key)
    ensures FiringsOf(log + [f], key) == FiringsOf(log, key) + if f.key == key then [f] else []
  {
    assert (log + [f])[..|log|] == log;
  }

  lemma ShowsStep(s: Store, e: Event, key: Key)
    requires Shows(s, key) && HeldOnce(s, key)
    ensures Shows(Apply(s, e), key)
  {
    hide TasksOf, NoticesOf, FiringsOf, TasksFrom, NoticesFrom, KeyHeld;
    if e.Commit? && e.sweep in s.txs {
      var t := s.txs[e.sweep];
      TasksAppend(s.tasks, TasksFrom(t.key, t.executed), t.key, key);
      NoticesAppend(s.notices, NoticesFrom(t.key, t.executed), t.key, key);
      FiringsAppend(s.log, Firing(t.key, e.sweep, t.actions, t.executed), key);
    }
  }

  lemma HeldOnceStep(s: Store, e: Event, key: Key)
    requires HeldOnce(s, key)
    ensures HeldOnce(Apply(s, e), key)
  {
    hide TasksFrom, NoticesFrom;
  }

  /** Exactly once, in every interleaving of any sweeps: a pair has a run row just when
      one firing of it committed, it then has that firing's tasks and notifications and
      no others, and an attempt that did not commit leaves nothing. */
  lemma {:induction false} FiresOnce(es: seq<Event>, key: Key)
    ensures Shows(Run(es), key) && HeldOnce(Run(es), key)
  {
    hide Apply, Shows, HeldOnce;
    if es == [] {
      NothingYet(key);
    } else {
      FiresOnce(es[..|es| - 1], key);
      ShowsStep(Run(es[..|es| - 1]), es[|es| - 1], key);
      HeldOnceStep(Run(es[..|es| - 1]), es[|es| - 1], key);
    }
  }

  lemma NothingYet(key: Key)
    ensures Shows(Init, key) && HeldOnce(Init, key)
  {
  }

  /** The titles of the tasks a rule's actions ask for, in order. */
  function TitlesAsked(actions: seq<Action>): seq<string> {
    if actions == [] then []
    else
      TitlesAsked(actions[..|actions| - 1])
      + if actions[|actions| - 1].CreateTask? then [actions[|actions| - 1].title] else []
  }

  function Titles(tasks: seq<Task>): (r: seq<string>)
    ensures |r| == |tasks|
  {
    seq(|tasks|, i requires 0 <= i < |tasks| => tasks[i].title)
  }

  /** How often an action carried out told `user` this `title`. */
  function Tells(user: Id, title: string): Executed -> int {
    (e: Executed) => if e.action == SendNotification(title) then multiset(e.recipients)[user] else 0
  }

  lemma {:induction false} TitlesOf(key: Key, executed: seq<Executed>, actions: seq<Action>)
    requires |executed| == |actions| && Follows(executed, actions)
    ensures Titles(TasksFrom(key, executed)) == TitlesAsked(actions)
  {
    if executed != [] { TitlesOf(key, executed[..|executed| - 1], actions[..|actions| - 1]); }
  }

  lemma {:induction false} RecipientsCount(r: seq<Notice>, key: Key, title: string, recipients: seq<Id>, n: Notice)
    requires |r| == |recipients| && forall i | 0 <= i < |r| :: r[i] == Notice(key, recipients[i], title)
    ensures multiset(r)[n] == if n.key == key && n.title == title then multiset(recipients)[n.user] else 0
  {
    if r != [] {
      var k := |r| - 1;
      RecipientsCount(r[..k], key, title, recipients[..k], n);
      assert r == r[..k] + [r[k]] && recipients == recipients[..k] + [recipients[k]];
    }
  }

  lemma {:induction false} NoticesCount(key: Key, executed: seq<Executed>, user: Id, title: string)
    ensures multiset(NoticesFrom(key, executed))[Notice(key, user, title)] == SumOf(Tells(user, title), executed)
  {
    if executed != [] {
      var (init, last) := (executed[..|executed| - 1], executed[|executed| - 1]);
      NoticesCount(key, init, user, title);
      RecipientsCount(Sent(key, last), key, last.action.title, last.recipients, Notice(key, user, title));
    }
  }

  lemma {:induction false} NoticesKept(notices: seq<Notice>, n: Notice)
    ensures multiset(NoticesOf(notices, n.key))[n] == multiset(notices)[n]
  {
    if notices != [] {
      NoticesKept(notices[..|notices| - 1], n);
      assert notices == notices[..|notices| - 1] + [notices[|notices| - 1]];
    }
  }

  /** What a firing leaves behind, in every interleaving: each user is told each title as
      often as the notification actions with it reached that user, and the pair's tasks are
      those its CREATE_TASK actions ask for, in order; a pair without a run row has neither. */
  lemma FiringLeaves(es: seq<Event>, key: Key, user: Id, title: string)
    ensures var s := Run(es);
            var firings := FiringsOf(s.log, key);
            && |firings| <= 1 && (key in s.runs <==> |firings| == 1)
            && multiset(s.notices)[Notice(key, user, title)]
               == (if key in s.runs then SumOf(Tells(user, title), s.runs[key]) else 0)
            && Titles(TasksOf(s.tasks, key)) == if key in s.runs then TitlesAsked(firings[0].actions) else []
  {
    hide RunFrom, FiringsOf, TasksOf, NoticesOf, SumOf, TasksFrom, NoticesFrom, Titles, TitlesAsked;
    FiresOnce(es, key);
    var s := Run(es);
    NoticesKept(s.notices, Notice(key, user, title));
    if key in s.runs {
      NoticesCount(key, s.runs[key], user, title);
      TitlesOf(key, s.runs[key], FiringsOf(s.log, key)[0].actions);
    } else {
      assert Titles([]) == [];
    }
  }

  // ---- Run rows and firings --------------------------------------------------

  /** How many committed firings sweep `sweep` made. */
  function FiredBy(log: seq<Firing>, sweep: Id): nat {
    if log == [] then 0
    else FiredBy(log[..|log| - 1], sweep) + if log[|log| - 1].sweep == sweep then 1 else 0
  }

  lemma FiredNext(log: seq<Firing>, f: Firing, sweep: Id)
    ensures FiredBy(log + [f], sweep) == FiredBy(log, sweep) + if f.sweep == sweep then 1 else 0
  {
    assert (log + [f])[..|log|] == log;
  }

  function FiredByAll(log: seq<Firing>, sweeps: seq<Id>): nat {
    if sweeps == [] then 0
    else FiredByAll(log, sweeps[..|sweeps| - 1]) + FiredBy(log, sweeps[|sweeps| - 1])
  }

  lemma {:induction false} AllNext(log: seq<Firing>, f: Firing, sweeps: seq<Id>)
    requires forall i, j | 0 <= i < j < |sweeps| :: sweeps[i] != sweeps[j]
    ensures FiredByAll(log + [f], sweeps) == FiredByAll(log, sweeps) + if f.sweep in sweeps then 1 else 0
  {
    if sweeps != [] {
      var (init, last) := (sweeps[..|sweeps| - 1], sweeps[|sweeps| - 1]);
      AllNext(log, f, init);
      FiredNext(log, f, last);
      assert f.sweep in sweeps <==> f.sweep in init || f.sweep == last;
    }
  }

  /** The firings of all the sweeps together are the run rows: none is lost or doubled. */
  lemma {:induction false} FiringsAreRuns(es: seq<Event>, sweeps: seq<Id>)
    requires forall i, j | 0 <= i < j < |sweeps| :: sweeps[i] != sweeps[j]
    requires forall e | e in es :: e.sweep in sweeps
    ensures FiredByAll(Run(es).log, sweeps) == |Run(es).runs|
  {
    hide TasksFrom, NoticesFrom;
    if es == [] {
      NoFirings(sweeps);
    } else {
      var (init, e) := (es[..|es| - 1], es[|es| - 1]);
      FiringsAreRuns(init, sweeps);
      var s := Run(init);
      assert e in es;
      if e.Commit? && e.sweep in s.txs {
        var t := s.txs[e.sweep];
        AllNext(s.log, Firing(t.key, e.sweep, t.actions, t.executed), sweeps);
        assert HeldOnce(s, t.key) by { FiresOnce(init, t.key); }
      }
    }
  }

  lemma {:induction false} NoFirings(sweeps: seq<Id>)
    ensures FiredByAll([], sweeps) == 0
  {
    if sweeps != [] { NoFirings(sweeps[..|sweeps| - 1]); }
  }
}
