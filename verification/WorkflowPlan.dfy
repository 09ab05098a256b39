/** The order a workflow sweep takes: the rules grouped by organisation, each group by
    trigger, every rule of a group against every entity of its kind. */
module WorkflowPlan {
  import opened Sums
  import opened Workflow

  // ---- Grouping ------------------------------------------------------------

  function OrgOf(r: Rule): Id { r.org }
  function TriggerOf(r: Rule): Id { r.trigger }

  /** The keys in order of first appearance, and the rules of one key in their order. */
  function Keys(rules: seq<Rule>, f: Rule -> Id): seq<Id> {
    if rules == [] then []
    else
      var (init, last) := (rules[..|rules| - 1], rules[|rules| - 1]);
      Keys(init, f) + if f(last) in Keys(init, f) then [] else [f(last)]
  }

  function Class(rules: seq<Rule>, f: Rule -> Id, key: Id): seq<Rule> {
    if rules == [] then []
    else
      var (init, last) := (rules[..|rules| - 1], rules[|rules| - 1]);
      Class(init, f, key) + if f(last) == key then [last] else []
  }

  function Classes(rules: seq<Rule>, f: Rule -> Id, keys: seq<Id>): seq<Rule> {
    if keys == [] then []
    else Classes(rules, f, keys[..|keys| - 1]) + Class(rules, f, keys[|keys| - 1])
  }

  /** Builds the groups one rule at a time, as a map that remembers insertion order. */
  method GroupBy(rules: seq<Rule>, f: Rule -> Id) returns (order: seq<Id>, groups: map<Id, seq<Rule>>)
    ensures order == Keys(rules, f)
    ensures forall key | key in order :: key in groups && groups[key] == Class(rules, f, key)
  {
    order, groups := [], map[];
    for i := 0 to |rules|
      invariant order == Keys(rules[..i], f)
      invariant forall key: Id :: key in order <==> key in groups
      invariant forall key: Id :: Class(rules[..i], f, key) == if key in groups then groups[key] else []
    {
      var rule := rules[i];
      assert rules[..i + 1][..i] == rules[..i];
      if f(rule) !in groups { order := order + [f(rule)]; }
      groups := groups[f(rule) := (if f(rule) in groups then groups[f(rule)] else []) + [rule]];
    }
    assert rules[..|rules|] == rules;
  }

  ghost predicate Distinct(keys: seq<Id>) { forall i, j | 0 <= i < j < |keys| :: keys[i] != keys[j] }

  lemma {:induction false} KeysDistinct(rules: seq<Rule>, f: Rule -> Id)
    ensures Distinct(Keys(rules, f))
  {
    if rules != [] { KeysDistinct(rules[..|rules| - 1], f); }
  }

  lemma {:induction false} NoClass(rules: seq<Rule>, f: Rule -> Id, key: Id)
    requires key !in Keys(rules, f)
    ensures Class(rules, f, key) == []
  {
    if rules != [] { NoClass(rules[..|rules| - 1], f, key); }
  }

  lemma {:induction false} ClassesNext(rules: seq<Rule>, rule: Rule, f: Rule -> Id, keys: seq<Id>)
    requires Distinct(keys)
    ensures multiset(Classes(rules + [rule], f, keys))
            == multiset(Classes(rules, f, keys)) + if f(rule) in keys then multiset{rule} else multiset{}
  {
    if keys != [] {
      var (init, last) := (keys[..|keys| - 1], keys[|keys| - 1]);
      ClassesNext(rules, rule, f, init);
      assert (rules + [rule])[..|rules|] == rules;
      assert f(rule) in keys <==> f(rule) in init || f(rule) == last;
    }
  }

  lemma KeysNext(rules: seq<Rule>, rule: Rule, f: Rule -> Id)
    ensures Keys(rules + [rule], f) == Keys(rules, f) + if f(rule) in Keys(rules, f) then [] else [f(rule)]
    ensures Class(rules + [rule], f, f(rule)) == Class(rules, f, f(rule)) + [rule]
  {
    assert (rules + [rule])[..|rules|] == rules;
  }

  lemma ClassesLast(rules: seq<Rule>, f: Rule -> Id, keys: seq<Id>, key: Id)
    ensures Classes(rules, f, keys + [key]) == Classes(rules, f, keys) + Class(rules, f, key)
  {
    assert (keys + [key])[..|keys|] == keys;
  }

  lemma ClassesPermuteNext(rules: seq<Rule>, rule: Rule, f: Rule -> Id)
    requires multiset(Classes(rules, f, Keys(rules, f))) == multiset(rules)
    ensures multiset(Classes(rules + [rule], f, Keys(rules + [rule], f))) == multiset(rules + [rule])
  {
    hide Keys, Class, Classes, Distinct;
    var keys := Keys(rules, f);
    KeysDistinct(rules, f);
    KeysNext(rules, rule, f);
    ClassesNext(rules, rule, f, keys);
    if f(rule) in keys {
      assert Keys(rules + [rule], f) == keys;
    } else {
      NoClass(rules, f, f(rule));
      ClassesLast(rules + [rule], f, keys, f(rule));
      assert Keys(rules + [rule], f) == keys + [f(rule)];
      assert Class(rules + [rule], f, f(rule)) == [rule];
    }
  }

  /** Grouping loses and doubles nothing. */
  lemma {:induction false} ClassesPermute(rules: seq<Rule>, f: Rule -> Id)
    ensures multiset(Classes(rules, f, Keys(rules, f))) == multiset(rules)
  {
    if rules != [] {
      var (init, last) := (rules[..|rules| - 1], rules[|rules| - 1]);
      assert rules == init + [last];
      ClassesPermute(init, f);
      hide Keys, Classes;
      ClassesPermuteNext(init, last, f);
    }
  }

  // ---- The plan --------------------------------------------------------------

  function PlanOrg(rules: seq<Rule>): seq<Rule> { Classes(rules, TriggerOf, Keys(rules, TriggerOf)) }

  function PlanOrgs(rules: seq<Rule>, orgs: seq<Id>): seq<Rule> {
    if orgs == [] then []
    else PlanOrgs(rules, orgs[..|orgs| - 1]) + PlanOrg(Class(rules, OrgOf, orgs[|orgs| - 1]))
  }

  /** The rules in the order the sweep takes them. */
  function Plan(rules: seq<Rule>): seq<Rule> { PlanOrgs(rules, Keys(rules, OrgOf)) }

  lemma {:induction false} PlanOrgsPermute(rules: seq<Rule>, orgs: seq<Id>)
    ensures multiset(PlanOrgs(rules, orgs)) == multiset(Classes(rules, OrgOf, orgs))
  {
    if orgs != [] {
      PlanOrgsPermute(rules, orgs[..|orgs| - 1]);
      ClassesPermute(Class(rules, OrgOf, orgs[|orgs| - 1]), TriggerOf);
    }
  }

  /** Every rule is taken exactly once. */
  lemma PlanPermutes(rules: seq<Rule>)
    ensures multiset(Plan(rules)) == multiset(rules)
  {
    PlanOrgsPermute(rules, Keys(rules, OrgOf));
    ClassesPermute(rules, OrgOf);
  }

  /** A group takes its rules out of any list in their order, and nothing else. */
  lemma {:induction false} ClassConcat(a: seq<Rule>, b: seq<Rule>, f: Rule -> Id, key: Id)
    ensures Class(a + b, f, key) == Class(a, f, key) + Class(b, f, key)
  {
    if b == [] {
      assert a + b == a;
    } else {
      ClassConcat(a, b[..|b| - 1], f, key);
      assert (a + b)[..|a + b| - 1] == a + b[..|b| - 1];
    }
  }

  lemma ClassOfOne(rule: Rule, f: Rule -> Id, key: Id)
    ensures Class([rule], f, key) == if f(rule) == key then [rule] else []
  {
    assert [rule][..0] == [];
  }

  /** The keys are those that occur, each once. */
  lemma {:induction false} KeysAre(rules: seq<Rule>, f: Rule -> Id, key: Id)
    ensures Distinct(Keys(rules, f))
    ensures key in Keys(rules, f) <==> exists rule :: rule in rules && f(rule) == key
  {
    KeysDistinct(rules, f);
    if rules != [] {
      var (init, last) := (rules[..|rules| - 1], rules[|rules| - 1]);
      KeysAre(init, f, key);
      assert forall rule :: rule in rules <==> rule in init || rule == last;
    }
  }

  /** They come in the order of their first rules: when rule `n` is not the first with its
      key, the keys so far are those of the rules before it. */
  lemma {:induction false} KeysGrow(rules: seq<Rule>, f: Rule -> Id, n: nat)
    requires n < |rules|
    ensures Keys(rules[..n + 1], f)
            == Keys(rules[..n], f) + if exists k :: 0 <= k < n && f(rules[k]) == f(rules[n]) then [] else [f(rules[n])]
    ensures Keys(rules[..n], f) <= Keys(rules, f)
    decreases |rules|
  {
    KeysAre(rules[..n], f, f(rules[n]));
    assert rules[..n + 1][..n] == rules[..n];
    if k :| 0 <= k < n && f(rules[k]) == f(rules[n]) { assert rules[k] in rules[..n]; }
    if n + 1 < |rules| {
      var init := rules[..|rules| - 1];
      KeysGrow(init, f, n);
      assert init[..n] == rules[..n];
    } else {
      assert rules[..n + 1] == rules;
    }
  }

  /** `a` is `b`, or comes before it in `keys`. */
  ghost predicate InOrder(keys: seq<Id>, a: Id, b: Id) {
    exists p, q | 0 <= p <= q < |keys| :: keys[p] == a && keys[q] == b
  }

  /** What `f` says of the rules comes in the order of `keys`. */
  ghost predicate Ordered(rules: seq<Rule>, f: Rule -> Id, keys: seq<Id>) {
    forall i, j | 0 <= i <= j < |rules| :: InOrder(keys, f(rules[i]), f(rules[j]))
  }

  lemma OrderGrows(keys: seq<Id>, last: Id, a: Id, b: Id)
    requires InOrder(keys, a, b)
    ensures InOrder(keys + [last], a, b) && InOrder(keys + [last], a, last)
  {
    var p, q :| 0 <= p <= q < |keys| && keys[p] == a && keys[q] == b;
    assert (keys + [last])[p] == a && (keys + [last])[q] == b && (keys + [last])[|keys|] == last;
  }

  lemma LastInOrder(keys: seq<Id>, last: Id)
    ensures InOrder(keys + [last], last, last)
  {
    assert (keys + [last])[|keys|] == last;
  }

  lemma OrderedAppend(rules: seq<Rule>, more: seq<Rule>, f: Rule -> Id, keys: seq<Id>, last: Id)
    requires Ordered(rules, f, keys) && forall rule | rule in more :: f(rule) == last
    ensures Ordered(rules + more, f, keys + [last])
  {
    hide InOrder;
    var all := rules + more;
    forall i, j | 0 <= i <= j < |all| ensures InOrder(keys + [last], f(all[i]), f(all[j])) {
      if j < |rules| {
        OrderGrows(keys, last, f(rules[i]), f(rules[j]));
      } else {
        assert all[j] in more;
        if i < |rules| {
          OrderGrows(keys, last, f(rules[i]), f(rules[i]));
        } else {
          assert all[i] in more;
          LastInOrder(keys, last);
        }
      }
    }
  }

  lemma {:induction false} ClassMembers(rules: seq<Rule>, f: Rule -> Id, key: Id, rule: Rule)
    requires rule in Class(rules, f, key)
    ensures f(rule) == key && rule in rules
  {
    var (init, last) := (rules[..|rules| - 1], rules[|rules| - 1]);
    if rule in Class(init, f, key) { ClassMembers(init, f, key, rule); }
  }

  lemma {:induction false} ClassesInOrder(rules: seq<Rule>, f: Rule -> Id, keys: seq<Id>)
    ensures Ordered(Classes(rules, f, keys), f, keys)
  {
    if keys != [] {
      var (init, last) := (keys[..|keys| - 1], keys[|keys| - 1]);
      var (before, here) := (Classes(rules, f, init), Class(rules, f, last));
      assert Classes(rules, f, keys) == before + here && init + [last] == keys;
      hide Classes, Class, Ordered;
      ClassesInOrder(rules, f, init);
      forall rule | rule in here ensures f(rule) == last { ClassMembers(rules, f, last, rule); }
      OrderedAppend(before, here, f, init, last);
    }
  }

  lemma {:induction false} OrgsInOrder(rules: seq<Rule>, orgs: seq<Id>)
    ensures Ordered(PlanOrgs(rules, orgs), OrgOf, orgs)
  {
    if orgs != [] {
      var (init, last) := (orgs[..|orgs| - 1], orgs[|orgs| - 1]);
      var (before, here) := (PlanOrgs(rules, init), PlanOrg(Class(rules, OrgOf, last)));
      assert PlanOrgs(rules, orgs) == before + here && init + [last] == orgs;
      hide PlanOrgs, PlanOrg, Class, Ordered;
      OrgsInOrder(rules, init);
      forall rule | rule in here ensures OrgOf(rule) == last { PlanOrgMembers(rules, last, rule); }
      OrderedAppend(before, here, OrgOf, init, last);
    }
  }

  lemma PlanOrgMembers(rules: seq<Rule>, org: Id, rule: Rule)
    requires rule in PlanOrg(Class(rules, OrgOf, org))
    ensures OrgOf(rule) == org
  {
    var group := Class(rules, OrgOf, org);
    ClassesPermute(group, TriggerOf);
    hide Class, Classes, Keys;
    assert rule in multiset(PlanOrg(group));
    ClassMembers(rules, OrgOf, org, rule);
  }

  /** The plan takes the organisations in the order of their first rules, and so each
      organisation's rules together; these it takes trigger by trigger in the same way. */
  lemma PlanInOrder(rules: seq<Rule>, org: Id)
    ensures Ordered(Plan(rules), OrgOf, Keys(rules, OrgOf))
    ensures var orgRules := Class(rules, OrgOf, org);
            Ordered(PlanOrg(orgRules), TriggerOf, Keys(orgRules, TriggerOf))
  {
    hide Ordered;
    OrgsInOrder(rules, Keys(rules, OrgOf));
    ClassesInOrder(Class(rules, OrgOf, org), TriggerOf, Keys(Class(rules, OrgOf, org), TriggerOf));
  }

  // ---- A fetch that fails ------------------------------------------------------

  /** The rules taken before the first whose kind of entity cannot be fetched. */
  function Until(rules: seq<Rule>, unreachable: set<(Id, Id)>): (r: seq<Rule>)
    ensures r <= rules
  {
    if rules == [] || (rules[0].org, rules[0].trigger) in unreachable then []
    else
      assert rules == [rules[0]] + rules[1..];
      [rules[0]] + Until(rules[1..], unreachable)
  }

  lemma {:induction false} UntilAllIff(rules: seq<Rule>, unreachable: set<(Id, Id)>)
    ensures Until(rules, unreachable) == rules
            <==> forall rule | rule in rules :: (rule.org, rule.trigger) !in unreachable
  {
    if rules != [] {
      UntilAllIff(rules[1..], unreachable);
      assert rules == [rules[0]] + rules[1..];
    }
  }

  lemma UntilNext(rules: seq<Rule>, unreachable: set<(Id, Id)>)
    requires rules != []
    ensures Until(rules, unreachable)
            == if (rules[0].org, rules[0].trigger) in unreachable then []
               else [rules[0]] + Until(rules[1..], unreachable)
  {
  }

  lemma {:induction false} UntilConcat(a: seq<Rule>, b: seq<Rule>, unreachable: set<(Id, Id)>)
    ensures Until(a + b, unreachable)
            == if Until(a, unreachable) == a then a + Until(b, unreachable) else Until(a, unreachable)
  {
    if a == [] {
      assert a + b == b;
    } else {
      hide Until;
      var (first, rest) := (a[0], a[1..]);
      assert (a + b)[0] == first && (a + b)[1..] == rest + b && a == [first] + rest;
      UntilNext(a, unreachable);
      UntilNext(a + b, unreachable);
      UntilConcat(rest, b, unreachable);
      if (first.org, first.trigger) !in unreachable {
        assert Until(a, unreachable)[1..] == Until(rest, unreachable);
        assert [first] + (rest + Until(b, unreachable)) == a + Until(b, unreachable);
      }
    }
  }

  lemma {:induction false} KeyHasClass(rules: seq<Rule>, f: Rule -> Id, key: Id)
    requires key in Keys(rules, f)
    ensures Class(rules, f, key) != []
  {
    var (init, last) := (rules[..|rules| - 1], rules[|rules| - 1]);
    if key in Keys(init, f) { KeyHasClass(init, f, key); }
  }

  lemma {:induction false} ClassesPrefix(rules: seq<Rule>, f: Rule -> Id, keys: seq<Id>, n: nat)
    requires n <= |keys|
    ensures Classes(rules, f, keys[..n]) <= Classes(rules, f, keys)
    decreases |keys|
  {
    if n == |keys| {
      assert keys[..n] == keys;
    } else {
      assert keys[..|keys| - 1][..n] == keys[..n];
      ClassesPrefix(rules, f, keys[..|keys| - 1], n);
    }
  }

  lemma PlanOrgsNext(rules: seq<Rule>, orgs: seq<Id>, i: nat)
    requires i < |orgs|
    ensures PlanOrgs(rules, orgs[..i + 1]) == PlanOrgs(rules, orgs[..i]) + PlanOrg(Class(rules, OrgOf, orgs[i]))
  {
    assert orgs[..i + 1][..i] == orgs[..i];
  }

  lemma {:induction false} PlanOrgsPrefix(rules: seq<Rule>, orgs: seq<Id>, n: nat)
    requires n <= |orgs|
    ensures PlanOrgs(rules, orgs[..n]) <= PlanOrgs(rules, orgs)
    decreases |orgs|
  {
    if n == |orgs| {
      assert orgs[..n] == orgs;
    } else {
      assert orgs[..|orgs| - 1][..n] == orgs[..n];
      PlanOrgsPrefix(rules, orgs[..|orgs| - 1], n);
    }
  }

  /** A longer plan stops where a part of it that stops does. */
  lemma UntilStops(part: seq<Rule>, rules: seq<Rule>, unreachable: set<(Id, Id)>)
    requires part <= rules && Until(part, unreachable) != part
    ensures Until(rules, unreachable) == Until(part, unreachable) != rules
  {
    hide Until;
    UntilConcat(part, rules[|part|..], unreachable);
    assert rules == part + rules[|part|..];
  }

  // ---- Rules against entities --------------------------------------------------

  type Pair = (Rule, Id)

  /** The entities of a rule's organisation and kind. */
  function EntitiesOf(entities: map<(Id, Id), seq<Id>>, rule: Rule): seq<Id> {
    if (rule.org, rule.trigger) in entities then entities[(rule.org, rule.trigger)] else []
  }

  function Row(rule: Rule, es: seq<Id>): (r: seq<Pair>)
    ensures |r| == |es|
  {
    if es == [] then [] else Row(rule, es[..|es| - 1]) + [(rule, es[|es| - 1])]
  }

  function Pairs(rules: seq<Rule>, entities: map<(Id, Id), seq<Id>>): seq<Pair> {
    if rules == [] then []
    else
      var last := rules[|rules| - 1];
      Pairs(rules[..|rules| - 1], entities) + Row(last, EntitiesOf(entities, last))
  }

  lemma {:induction false} PairsConcat(a: seq<Rule>, b: seq<Rule>, entities: map<(Id, Id), seq<Id>>)
    ensures Pairs(a + b, entities) == Pairs(a, entities) + Pairs(b, entities)
  {
    hide Row, EntitiesOf;
    if b == [] {
      assert a + b == a;
    } else {
      PairsConcat(a, b[..|b| - 1], entities);
      assert (a + b)[..|a + b| - 1] == a + b[..|b| - 1];
    }
  }

  lemma PairsRemove(rules: seq<Rule>, i: nat, entities: map<(Id, Id), seq<Id>>)
    requires i < |rules|
    ensures multiset(Pairs(rules, entities))
            == multiset(Pairs(rules[..i] + rules[i + 1..], entities))
               + multiset(Row(rules[i], EntitiesOf(entities, rules[i])))
  {
    assert rules == rules[..i + 1] + rules[i + 1..] && rules[..i + 1][..i] == rules[..i];
    PairsConcat(rules[..i + 1], rules[i + 1..], entities);
    PairsConcat(rules[..i], rules[i + 1..], entities);
  }

  lemma {:induction false} PairsPermute(a: seq<Rule>, b: seq<Rule>, entities: map<(Id, Id), seq<Id>>)
    requires multiset(a) == multiset(b)
    ensures multiset(Pairs(a, entities)) == multiset(Pairs(b, entities))
  {
    if a == [] {
      assert |multiset(b)| == 0;
    } else {
      var n := |a| - 1;
      assert a[n] in multiset(b);
      var j :| 0 <= j < |b| && b[j] == a[n];
      MultisetWithout(a, n);
      MultisetWithout(b, j);
      assert a[..n] + a[n + 1..] == a[..n];
      hide Row, EntitiesOf;
      PairsPermute(a[..n], b[..j] + b[j + 1..], entities);
      PairsRemove(b, j, entities);
    }
  }

  lemma {:induction false} RowCount(rule: Rule, es: seq<Id>, pair: Pair)
    ensures multiset(Row(rule, es))[pair] == if rule == pair.0 then multiset(es)[pair.1] else 0
  {
    if es != [] {
      RowCount(rule, es[..|es| - 1], pair);
      assert es == es[..|es| - 1] + [es[|es| - 1]];
    }
  }

  /** A product with a name, so that a proof can leave its arithmetic alone. */
  function Times(n: nat, k: nat): nat { n * k }

  /** A rule and an entity meet as often as both are there, when the entity is one of the
      rule's organisation and kind. */
  lemma {:induction false} PairsCount(rules: seq<Rule>, entities: map<(Id, Id), seq<Id>>, pair: Pair)
    ensures var kind := (pair.0.org, pair.0.trigger);
            multiset(Pairs(rules, entities))[pair]
            == Times(multiset(rules)[pair.0], if kind in entities then multiset(entities[kind])[pair.1] else 0)
  {
    hide Row;
    if rules == [] {
      assert multiset(rules)[pair.0] == 0 && Pairs(rules, entities) == [];
    } else {
      var (init, last) := (rules[..|rules| - 1], rules[|rules| - 1]);
      PairsCount(init, entities, pair);
      PairsNext(rules, entities);
      RowCount(last, EntitiesOf(entities, last), pair);
      assert multiset(rules) == multiset(init) + multiset{last} by { assert rules == init + [last]; }
      var n := multiset(init)[pair.0];
      OneMore(n, multiset(EntitiesOf(entities, pair.0))[pair.1]);
      hide Pairs, Times;
      assert multiset(rules)[pair.0] == if last == pair.0 then n + 1 else n;
    }
  }

  lemma OneMore(n: nat, k: nat)
    ensures Times(n + 1, k) == Times(n, k) + k
  {
  }

  lemma PairsNext(rules: seq<Rule>, entities: map<(Id, Id), seq<Id>>)
    requires rules != []
    ensures var last := rules[|rules| - 1];
            multiset(Pairs(rules, entities))
            == multiset(Pairs(rules[..|rules| - 1], entities)) + multiset(Row(last, EntitiesOf(entities, last)))
  {
  }

  /** The sweep takes every rule with every entity of its organisation and kind, each pair
      once, and no other pair; so it evaluates as many as that comes to. */
  lemma PlanCoversPairs(rules: seq<Rule>, entities: map<(Id, Id), seq<Id>>)
    ensures multiset(Pairs(Plan(rules), entities)) == multiset(Pairs(rules, entities))
    ensures |Pairs(Plan(rules), entities)| == |Pairs(rules, entities)|
  {
    PlanPermutes(rules);
    PairsPermute(Plan(rules), rules, entities);
    assert |multiset(Pairs(Plan(rules), entities))| == |multiset(Pairs(rules, entities))|;
  }
}
