/** Reciprocal Rank Fusion: ranked lists of hits are merged by position alone. */
module Fusion {
  import opened Options
  import opened Sums

  // ---- Hits --------------------------------------------------------------

  datatype Hit = Hit(documentId: string, chunkId: string, text: string, score: real) {
    function Key(): string { KeyOf(documentId, chunkId) }
  }

  function KeyOf(documentId: string, chunkId: string): string { documentId + ":" + chunkId }

  const RRF_K := 60
  const SEARCH_CANDIDATES := 20

  /** What a place in one list is worth. */
  function Contribution(index: nat): (c: real)
    ensures c > 0.0
  {
    1.0 / (RRF_K + index + 1) as real
  }

  datatype Entry = Entry(hit: Hit, score: real)

  // ---- What a key is worth -----------------------------------------------

  /** The sum over the places of `key` among the first `n` of a list. */
  function ListScore(list: seq<Hit>, key: string, n: nat): (r: real)
    requires n <= |list|
    ensures r >= 0.0
  {
    if n == 0 then 0.0
    else ListScore(list, key, n - 1) + if list[n - 1].Key() == key then Contribution(n - 1) else 0.0
  }

  function Score(lists: seq<seq<Hit>>, key: string): (r: real)
    ensures r >= 0.0
  {
    if lists == [] then 0.0
    else Score(lists[..|lists| - 1], key) + ListScore(lists[|lists| - 1], key, |lists[|lists| - 1]|)
  }

  /** The first hit with `key` among the first `n` of a list. */
  function ListFirst(list: seq<Hit>, key: string, n: nat): (r: Option<Hit>)
    requires n <= |list|
    ensures r.Some? ==> r.value.Key() == key
  {
    if n == 0 then None
    else if ListFirst(list, key, n - 1).Some? then ListFirst(list, key, n - 1)
    else if list[n - 1].Key() == key then Some(list[n - 1]) else None
  }

  function First(lists: seq<seq<Hit>>, key: string): (r: Option<Hit>)
    ensures r.Some? ==> r.value.Key() == key
  {
    if lists == [] then None
    else if First(lists[..|lists| - 1], key).Some? then First(lists[..|lists| - 1], key)
    else ListFirst(lists[|lists| - 1], key, |lists[|lists| - 1]|)
  }

  /** The keys in the order they are first seen. */
  function ListOrder(seen: seq<string>, list: seq<Hit>, n: nat): seq<string>
    requires n <= |list|
  {
    if n == 0 then seen
    else
      var before := ListOrder(seen, list, n - 1);
      if list[n - 1].Key() in before then before else before + [list[n - 1].Key()]
  }

  function Order(lists: seq<seq<Hit>>): seq<string> {
    if lists == [] then []
    else ListOrder(Order(lists[..|lists| - 1]), lists[|lists| - 1], |lists[|lists| - 1]|)
  }

  ghost predicate Distinct<T(!new)>(s: seq<T>) { forall i, j | 0 <= i < j < |s| :: s[i] != s[j] }

  /** The fused entries in first-seen order: one a key, with its first hit and its sum. */
  function Entries(lists: seq<seq<Hit>>): (entries: seq<Entry>)
    ensures |entries| == |Order(lists)|
  {
    seq(|Order(lists)|, i requires 0 <= i < |Order(lists)| => EntryOf(lists, Order(lists)[i]))
  }

  function EntryOf(lists: seq<seq<Hit>>, key: string): Entry {
    Entry(First(lists, key).GetOr(Hit("", "", "", 0.0)), Score(lists, key))
  }

  // ---- Sorting and cutting -----------------------------------------------

  /** Puts `e` before the first entry with a smaller score. */
  function Insert(sorted: seq<Entry>, e: Entry): seq<Entry> {
    if sorted == [] then [e]
    else if sorted[0].score >= e.score then [sorted[0]] + Insert(sorted[1..], e)
    else [e] + sorted
  }

  /** The stable sort by descending score. */
  function Sorted(entries: seq<Entry>): seq<Entry> {
    if entries == [] then [] else Insert(Sorted(entries[..|entries| - 1]), entries[|entries| - 1])
  }

  /** `slice(0, limit)`: a negative limit counts from the end. */
  function Cut<T>(s: seq<T>, limit: int): (r: seq<T>)
    ensures r <= s
  {
    if limit >= |s| then s
    else if limit >= 0 then s[..limit]
    else if |s| + limit >= 0 then s[..|s| + limit]
    else []
  }

  /** The hit of each entry, carrying the fused score. */
  function Scored(entries: seq<Entry>): (hits: seq<Hit>)
    ensures |hits| == |entries|
    ensures forall i | 0 <= i < |hits| :: hits[i] == entries[i].hit.(score := entries[i].score)
  {
    seq(|entries|, i requires 0 <= i < |entries| => entries[i].hit.(score := entries[i].score))
  }

  // ---- The loop ----------------------------------------------------------

  /** The map after `l` lists and `n` hits of the next: every key seen, with its first
      hit and what it is worth so far. */
  ghost predicate Tallied(order: seq<string>, fused: map<string, Entry>, before: seq<seq<Hit>>, list: seq<Hit>, n: nat)
    requires n <= |list|
  {
    && order == ListOrder(Order(before), list, n) && Distinct(order)
    && (forall k :: k in fused <==> k in order)
    && (forall k | k in fused ::
          fused[k].score == Score(before, k) + ListScore(list, k, n)
          && Some(fused[k].hit) == if First(before, k).Some? then First(before, k) else ListFirst(list, k, n))
    && (forall k | k !in fused ::
          Score(before, k) + ListScore(list, k, n) == 0.0 && First(before, k) == ListFirst(list, k, n) == None)
  }

  method Fuse(lists: seq<seq<Hit>>, limit: int) returns (hits: seq<Hit>)
    ensures hits == Scored(Cut(Sorted(Entries(lists)), limit))
    ensures Distinct(Order(lists))
  {
    hide Contribution, ListScore, Score, First, ListFirst, ListOrder, Order, Sorted, Hit.Key, Tallied;
    var order: seq<string>, fused: map<string, Entry> := [], map[];
    NothingTallied();
    var l := 0;
    while l < |lists|
      invariant 0 <= l <= |lists|
      invariant Tallied(order, fused, lists[..l], [], 0)
    {
      var list := lists[l];
      NextList(order, fused, lists[..l], list);
      var index := 0;
      while index < |list|
        invariant 0 <= index <= |list|
        invariant Tallied(order, fused, lists[..l], list, index)
      {
        var hit := list[index];
        var key := hit.Key();
        var contribution := 1.0 / (RRF_K + index + 1) as real;
        NextHit(order, fused, lists[..l], list, index);
        if key in fused {
          fused := fused[key := Entry(fused[key].hit, fused[key].score + contribution)];
        } else {
          fused := fused[key := Entry(hit, contribution)];
          order := order + [key];
        }
        index := index + 1;
      }
      ListDone(order, fused, lists[..l], list);
      assert lists[..l] + [list] == lists[..l + 1];
      l := l + 1;
    }
    assert lists[..l] == lists;
    AllTallied(order, fused, lists);
    var entries := seq(|order|, i requires 0 <= i < |order| && order[i] in fused => fused[order[i]]);
    assert entries == Entries(lists);
    hits := Scored(Cut(Sorted(entries), limit));
  }

  lemma NothingTallied()
    ensures Tallied([], map[], [], [], 0)
  {
  }

  lemma NextList(order: seq<string>, fused: map<string, Entry>, before: seq<seq<Hit>>, list: seq<Hit>)
    requires Tallied(order, fused, before, [], 0)
    ensures Tallied(order, fused, before, list, 0)
  {
  }

  lemma NextHit(order: seq<string>, fused: map<string, Entry>, before: seq<seq<Hit>>, list: seq<Hit>, n: nat)
    requires n < |list| && Tallied(order, fused, before, list, n)
    ensures var (hit, key, c) := (list[n], list[n].Key(), 1.0 / (RRF_K + n + 1) as real);
            if key in fused
            then Tallied(order, fused[key := Entry(fused[key].hit, fused[key].score + c)], before, list, n + 1)
            else Tallied(order + [key], fused[key := Entry(hit, c)], before, list, n + 1)
  {
    hide Score, First, Order, Hit.Key;
    assert Contribution(n) == 1.0 / (RRF_K + n + 1) as real;
    hide Contribution;
  }

  lemma ListDone(order: seq<string>, fused: map<string, Entry>, before: seq<seq<Hit>>, list: seq<Hit>)
    requires Tallied(order, fused, before, list, |list|)
    ensures Tallied(order, fused, before + [list], [], 0)
  {
    hide Hit.Key, Contribution;
    assert (before + [list])[..|before|] == before;
  }

  lemma AllTallied(order: seq<string>, fused: map<string, Entry>, lists: seq<seq<Hit>>)
    requires Tallied(order, fused, lists, [], 0)
    ensures order == Order(lists) && Distinct(order)
    ensures forall i | 0 <= i < |order| :: order[i] in fused && fused[order[i]] == EntryOf(lists, order[i])
  {
    hide Hit.Key, Score, First, Order;
  }

  // ---- Ranking -----------------------------------------------------------

  ghost predicate Before(entries: seq<Entry>, a: Entry, b: Entry) {
    exists p, q | 0 <= p < q < |entries| :: entries[p] == a && entries[q] == b
  }

  /** Higher scores first; equal scores in the order of `entries`. */
  ghost predicate Ranked(sorted: seq<Entry>, entries: seq<Entry>) {
    forall i, j | 0 <= i < j < |sorted| ::
      sorted[i].score > sorted[j].score
      || (sorted[i].score == sorted[j].score && Before(entries, sorted[i], sorted[j]))
  }

  lemma {:induction false} InsertSplits(sorted: seq<Entry>, e: Entry) returns (k: nat)
    ensures k <= |sorted| && Insert(sorted, e) == sorted[..k] + [e] + sorted[k..]
    ensures (forall i | 0 <= i < k :: sorted[i].score >= e.score) && (k < |sorted| ==> sorted[k].score < e.score)
  {
    if sorted != [] && sorted[0].score >= e.score {
      var m := InsertSplits(sorted[1..], e);
      k := m + 1;
      assert sorted[..k] == [sorted[0]] + sorted[1..][..m] && sorted[k..] == sorted[1..][m..];
    } else {
      k := 0;
    }
  }

  lemma RankedInsert(s: seq<Entry>, init: seq<Entry>, e: Entry, k: nat)
    requires Ranked(s, init) && multiset(s) == multiset(init) && k <= |s|
    requires (forall i | 0 <= i < k :: s[i].score >= e.score) && (k < |s| ==> s[k].score < e.score)
    ensures Ranked(s[..k] + [e] + s[k..], init + [e])
  {
    hide Before;
    var r := s[..k] + [e] + s[k..];
    forall i, j | 0 <= i < j < |r|
      ensures r[i].score > r[j].score || (r[i].score == r[j].score && Before(init + [e], r[i], r[j]))
    {
      var (a, b) := (if i < k then i else i - 1, if j < k then j else j - 1);
      if i == k {
        Descends(s, init, k, b);
      } else if j == k {
        EarlierThanLast(init, e, s, a);
      } else {
        assert r[i] == s[a] && r[j] == s[b];
        StillBefore(init, e, s[a], s[b]);
      }
    }
  }

  /** The sort keeps the entries, puts higher scores first, and is stable. */
  lemma {:induction false} SortedIsRanked(entries: seq<Entry>)
    ensures multiset(Sorted(entries)) == multiset(entries)
    ensures Ranked(Sorted(entries), entries)
  {
    hide Ranked;
    if entries == [] {
      NothingRanked();
    } else {
      var n := |entries| - 1;
      var (init, e) := (entries[..n], entries[n]);
      SortedIsRanked(init);
      var s := Sorted(init);
      var k := InsertSplits(s, e);
      RankedInsert(s, init, e, k);
      assert entries == init + [e];
      MultisetInsert(s, e, k);
    }
  }

  lemma MultisetInsert(s: seq<Entry>, e: Entry, k: nat)
    requires k <= |s|
    ensures multiset(s[..k] + [e] + s[k..]) == multiset(s + [e])
  {
    assert s == s[..k] + s[k..];
  }

  lemma NothingRanked()
    ensures Ranked([], [])
  {
  }

  lemma Descends(sorted: seq<Entry>, entries: seq<Entry>, i: nat, j: nat)
    requires Ranked(sorted, entries) && i <= j < |sorted|
    ensures sorted[i].score >= sorted[j].score
  {
    if i < j { assert sorted[i].score > sorted[j].score || sorted[i].score == sorted[j].score; }
  }

  lemma EarlierThanLast(init: seq<Entry>, e: Entry, s: seq<Entry>, a: nat)
    requires a < |s| && multiset(s) == multiset(init)
    ensures Before(init + [e], s[a], e)
  {
    assert s[a] in multiset(init);
    var p :| 0 <= p < |init| && init[p] == s[a];
    assert (init + [e])[p] == s[a] && (init + [e])[|init|] == e;
  }

  lemma StillBefore(init: seq<Entry>, e: Entry, a: Entry, b: Entry)
    ensures Before(init, a, b) ==> Before(init + [e], a, b)
  {
    if Before(init, a, b) {
      var p, q :| 0 <= p < q < |init| && init[p] == a && init[q] == b;
      assert (init + [e])[p] == a && (init + [e])[q] == b;
    }
  }

  /** A cut at a non-negative limit keeps the best: nothing left out beats anything
      returned. */
  lemma NothingBetterOmitted(entries: seq<Entry>, limit: nat, i: nat, x: Entry)
    requires i < |Cut(Sorted(entries), limit)| && x in Sorted(entries)[|Cut(Sorted(entries), limit)|..]
    ensures x.score <= Cut(Sorted(entries), limit)[i].score
  {
    hide Sorted;
    SortedIsRanked(entries);
    var s := Sorted(entries);
    var n := |Cut(s, limit)|;
    var j :| 0 <= j < |s[n..]| && s[n..][j] == x;
    Descends(s, entries, i, n + j);
  }

  lemma CutLength(entries: seq<Entry>, limit: nat)
    ensures |Cut(Sorted(entries), limit)| == if limit < |entries| then limit else |entries|
  {
    hide Sorted;
    SortedIsRanked(entries);
    assert |multiset(Sorted(entries))| == |multiset(entries)|;
  }

  // ---- Keys --------------------------------------------------------------

  ghost predicate Occurs(lists: seq<seq<Hit>>, key: string) {
    exists l, i :: 0 <= l < |lists| && 0 <= i < |lists[l]| && lists[l][i].Key() == key
  }

  lemma {:induction false} ListOrderKeys(seen: seq<string>, list: seq<Hit>, n: nat, key: string)
    requires n <= |list| && Distinct(seen)
    ensures Distinct(ListOrder(seen, list, n))
    ensures key in ListOrder(seen, list, n) <==> key in seen || ListScore(list, key, n) > 0.0
    ensures ListScore(list, key, n) > 0.0 <==> exists i :: 0 <= i < n && list[i].Key() == key
  {
    hide Hit.Key, Contribution;
    if n > 0 { ListOrderKeys(seen, list, n - 1, key); }
  }

  /** The fused keys are distinct, and are those that occur, which are those worth
      more than nothing. */
  lemma {:induction false} OrderKeys(lists: seq<seq<Hit>>, key: string)
    ensures Distinct(Order(lists))
    ensures key in Order(lists) <==> Occurs(lists, key)
    ensures key in Order(lists) <==> Score(lists, key) > 0.0
  {
    hide Hit.Key, ListScore, ListOrder;
    if lists != [] {
      var n := |lists| - 1;
      OrderKeys(lists[..n], key);
      ListOrderKeys(Order(lists[..n]), lists[n], |lists[n]|, key);
      assert Occurs(lists, key)
        <==> Occurs(lists[..n], key) || exists i :: 0 <= i < |lists[n]| && lists[n][i].Key() == key;
    }
  }

  lemma {:induction false} CountOnce<T(!new)>(s: seq<T>, x: T)
    requires Distinct(s)
    ensures multiset(s)[x] <= 1
  {
    if s != [] {
      CountOnce(s[..|s| - 1], x);
      assert s == s[..|s| - 1] + [s[|s| - 1]];
      if s[|s| - 1] == x { assert x !in s[..|s| - 1]; }
    }
  }

  lemma CountTwice<T>(s: seq<T>, i: nat, j: nat)
    requires i < j < |s| && s[i] == s[j]
    ensures multiset(s)[s[i]] >= 2
  {
    assert s == s[..i] + [s[i]] + s[i + 1..j] + [s[j]] + s[j + 1..];
  }

  /** Each hit returned stands for one key that occurs, carries exactly that key's sum,
      and no key is returned twice. */
  lemma ReturnedHits(lists: seq<seq<Hit>>, limit: int, i: nat)
    requires i < |Cut(Sorted(Entries(lists)), limit)|
    ensures var hits := Scored(Cut(Sorted(Entries(lists)), limit));
            && Occurs(lists, hits[i].Key()) && hits[i].score == Score(lists, hits[i].Key())
            && forall j | 0 <= j < i :: hits[j].Key() != hits[i].Key()
  {
    hide Score, Sorted, Order, First, Hit.Key, Ranked, Occurs, Distinct;
    var entries := Entries(lists);
    var s := Sorted(entries);
    SortedIsRanked(entries);
    SortedEntry(lists, i);
    forall j | 0 <= j < i ensures s[j].hit.Key() != s[i].hit.Key() {
      SortedEntry(lists, j);
      EntriesDistinct(lists);
      if s[j] == s[i] {
        CountTwice(s, j, i);
        CountOnce(entries, s[i]);
      }
    }
    assert Scored(Cut(s, limit))[i].Key() == s[i].hit.Key() by { KeyIgnoresScore(s[i].hit, s[i].score); }
    forall j | 0 <= j < i ensures Scored(Cut(s, limit))[j].Key() == s[j].hit.Key() {
      KeyIgnoresScore(s[j].hit, s[j].score);
    }
  }

  lemma KeyIgnoresScore(hit: Hit, score: real)
    ensures hit.(score := score).Key() == hit.Key()
  {
  }

  lemma SortedEntry(lists: seq<seq<Hit>>, i: nat)
    requires i < |Sorted(Entries(lists))|
    ensures var e := Sorted(Entries(lists))[i];
            Occurs(lists, e.hit.Key()) && e == EntryOf(lists, e.hit.Key()) && e in Entries(lists)
  {
    hide Score, Sorted, Order, First, Hit.Key, Ranked, Occurs, Distinct;
    var entries := Entries(lists);
    SortedIsRanked(entries);
    var e := Sorted(entries)[i];
    assert e in multiset(entries);
    var k :| 0 <= k < |entries| && entries[k] == e;
    var key := Order(lists)[k];
    OrderKeys(lists, key);
    FirstOccurs(lists, key);
  }

  lemma EntriesDistinct(lists: seq<seq<Hit>>)
    ensures Distinct(Entries(lists))
  {
    hide Score, Order, First, Hit.Key, Occurs;
    OrderKeys(lists, "");
    var order := Order(lists);
    forall k | 0 <= k < |order| ensures EntryOf(lists, order[k]).hit.Key() == order[k] {
      OrderKeys(lists, order[k]);
      FirstOccurs(lists, order[k]);
    }
  }

  lemma {:induction false} ListFirstOccurs(list: seq<Hit>, key: string, n: nat)
    requires n <= |list|
    ensures ListFirst(list, key, n).Some? <==> ListScore(list, key, n) > 0.0
  {
    hide Hit.Key, Contribution;
    if n > 0 { ListFirstOccurs(list, key, n - 1); }
  }

  lemma {:induction false} FirstOccurs(lists: seq<seq<Hit>>, key: string)
    ensures First(lists, key).Some? <==> Score(lists, key) > 0.0
  {
    hide ListFirst, ListScore;
    if lists != [] {
      FirstOccurs(lists[..|lists| - 1], key);
      ListFirstOccurs(lists[|lists| - 1], key, |lists[|lists| - 1]|);
    }
  }

  /** Under these two document ids, whatever the chunk ids, a key stands for one chunk. */
  ghost predicate Identify(d: string, e: string) {
    forall c: string, f: string :: KeyOf(d, c) == KeyOf(e, f) ==> d == e && c == f
  }

  lemma SameKey(d: string, c: string, e: string, f: string)
    requires KeyOf(d, c) == KeyOf(e, f)
    ensures d == e ==> c == f
    ensures |d| < |e| ==> d + ":" <= e
  {
    var key := KeyOf(d, c);
    assert key[..|d| + 1] == d + ":" && key[|d| + 1..] == c;
    assert key[..|e|] == e && key[|e| + 1..] == f;
    if |d| < |e| { assert key[..|e|][..|d| + 1] == key[..|d| + 1]; }
  }

  lemma PrefixCollides(d: string, e: string)
    requires d + ":" <= e
    ensures !Identify(d, e) && !Identify(e, d)
  {
    var c := e[|d| + 1..] + ":";
    assert e == d + ":" + e[|d| + 1..];
    assert KeyOf(d, c) == KeyOf(e, "");
  }

  /** Two ids can share a key exactly when one of them with a colon is the start of the
      other; so ids without a colon never do, and neither do ids of one length, as the
      stored UUIDs are. */
  lemma KeysIdentify(d: string, e: string)
    ensures Identify(d, e) <==> d == e || !(d + ":" <= e || e + ":" <= d)
    ensures |d| == |e| || (':' !in d && ':' !in e) ==> Identify(d, e)
  {
    if d + ":" <= e { PrefixCollides(d, e); }
    if e + ":" <= d { PrefixCollides(e, d); }
    if d == e || !(d + ":" <= e || e + ":" <= d) {
      forall c: string, f: string | KeyOf(d, c) == KeyOf(e, f) ensures d == e && c == f {
        SameKey(d, c, e, f);
        SameKey(e, f, d, c);
        if |d| == |e| { assert KeyOf(d, c)[..|d|] == d && KeyOf(e, f)[..|e|] == e; }
      }
    }
    assert d + ":" <= e ==> e[|d|] == ':';
    assert e + ":" <= d ==> d[|e|] == ':';
  }

  lemma KeysCollideExample()
    ensures Hit("a:b", "c", "", 0.0).Key() == Hit("a", "b:c", "", 0.0).Key()
  {
    assert "a:b" + ":" + "c" == "a:b:c" == "a" + ":" + "b:c";
  }

  // ---- Hit by hit --------------------------------------------------------

  lemma {:induction false} ListPrefix(seen: seq<string>, list: seq<Hit>, hit: Hit, key: string, n: nat)
    requires n <= |list|
    ensures ListScore(list + [hit], key, n) == ListScore(list, key, n)
    ensures ListFirst(list + [hit], key, n) == ListFirst(list, key, n)
    ensures ListOrder(seen, list + [hit], n) == ListOrder(seen, list, n)
  {
    hide Contribution, Hit.Key;
    if n > 0 { ListPrefix(seen, list, hit, key, n - 1); }
  }

  lemma LastList(lists: seq<seq<Hit>>, list: seq<Hit>, key: string)
    ensures Score(lists + [list], key) == Score(lists, key) + ListScore(list, key, |list|)
    ensures First(lists + [list], key)
            == if First(lists, key).Some? then First(lists, key) else ListFirst(list, key, |list|)
    ensures Order(lists + [list]) == ListOrder(Order(lists), list, |list|)
  {
    hide ListScore, ListFirst, ListOrder;
    assert (lists + [list])[..|lists|] == lists;
  }

  /** What one more hit does, at the end of the last list: its key gains 1/(61 + its place in
      that list, from 0); a key not seen before comes last, with this hit; nothing else
      changes. */
  lemma HitAdds(lists: seq<seq<Hit>>, list: seq<Hit>, hit: Hit, key: string)
    ensures var (was, now) := (lists + [list], lists + [list + [hit]]);
            && Score(now, key)
               == Score(was, key) + (if hit.Key() == key then 1.0 / (61 + |list|) as real else 0.0)
            && First(now, key)
               == (if First(was, key).Some? then First(was, key) else if hit.Key() == key then Some(hit) else None)
            && Order(now) == Order(was) + if hit.Key() in Order(was) then [] else [hit.Key()]
  {
    PlaceWorth(|list|);
    hide Contribution, Hit.Key, Score, First, Order;
    LastList(lists, list, key);
    LastList(lists, list + [hit], key);
    ListPrefix(Order(lists), list, hit, key, |list|);
    assert |list + [hit]| == |list| + 1 && (list + [hit])[|list|] == hit;
  }

  lemma PlaceWorth(index: nat)
    ensures Contribution(index) == 1.0 / (61 + index) as real
  {
  }

  /** No list at all, and an empty list, are worth nothing. */
  lemma EmptyAdds(lists: seq<seq<Hit>>, key: string)
    ensures Score([], key) == 0.0 && First([], key) == None && Order([]) == []
    ensures Score(lists + [[]], key) == Score(lists, key) && First(lists + [[]], key) == First(lists, key)
    ensures Order(lists + [[]]) == Order(lists)
  {
    LastList(lists, [], key);
    hide Hit.Key, Contribution;
  }

  /** A negative limit leaves out that many from the end. */
  lemma NegativeLimit<T>(s: seq<T>, limit: int)
    requires limit < 0
    ensures |Cut(s, limit)| == if -limit <= |s| then |s| - -limit else 0
  {
  }

  // ---- Order of the lists ------------------------------------------------

  lemma {:induction false} ScoreConcat(a: seq<seq<Hit>>, b: seq<seq<Hit>>, key: string)
    ensures Score(a + b, key) == Score(a, key) + Score(b, key)
  {
    hide ListScore;
    if b == [] {
      assert a + b == a;
    } else {
      ScoreConcat(a, b[..|b| - 1], key);
      assert (a + b)[..|a + b| - 1] == a + b[..|b| - 1];
    }
  }

  lemma ScoreRemove(lists: seq<seq<Hit>>, i: nat, key: string)
    requires i < |lists|
    ensures Score(lists, key)
            == Score(lists[..i] + lists[i + 1..], key) + ListScore(lists[i], key, |lists[i]|)
  {
    hide ListScore;
    var (before, after) := (lists[..i], lists[i + 1..]);
    ScoreConcat(before, after, key);
    ScoreConcat(before + [lists[i]], after, key);
    LastList(before, lists[i], key);
    assert lists == before + [lists[i]] + after;
  }

  /** The scores do not depend on which store answered first. */
  lemma {:induction false} ScoresIgnoreListOrder(a: seq<seq<Hit>>, b: seq<seq<Hit>>, key: string)
    requires multiset(a) == multiset(b)
    ensures Score(a, key) == Score(b, key)
  {
    hide ListScore, Score;
    if a == [] {
      assert |multiset(b)| == 0;
    } else {
      var n := |a| - 1;
      assert a[n] in multiset(b);
      var j :| 0 <= j < |b| && b[j] == a[n];
      MultisetWithout(a, n);
      MultisetWithout(b, j);
      ScoresIgnoreListOrder(a[..n] + a[n + 1..], b[..j] + b[j + 1..], key);
      ScoreRemove(a, n, key);
      ScoreRemove(b, j, key);
    }
  }

  // ---- Bounds ------------------------------------------------------------

  ghost predicate DistinctKeys(list: seq<Hit>) {
    forall i, j | 0 <= i < j < |list| :: list[i].Key() != list[j].Key()
  }

  lemma ContributionFalls(i: nat, j: nat)
    requires i <= j
    ensures Contribution(i) >= Contribution(j) && (i < j ==> Contribution(i) > Contribution(j))
  {
    Reciprocal((RRF_K + i + 1) as real, (RRF_K + j + 1) as real);
  }

  lemma Reciprocal(a: real, b: real)
    requires 0.0 < a <= b
    ensures 1.0 / a >= 1.0 / b && (a < b ==> 1.0 / a > 1.0 / b)
  {
    var (p, q) := (1.0 / a, 1.0 / b);
    assert p * a == 1.0 && q * b == 1.0;
    assert (p - q) * (a * b) == (p * a) * b - (q * b) * a;
    SameSign(p - q, a * b);
  }

  lemma SameSign(x: real, y: real)
    requires y > 0.0
    ensures x * y >= 0.0 ==> x >= 0.0
    ensures x * y > 0.0 ==> x > 0.0
  {
    assert x < 0.0 ==> x * y < 0.0;
  }

  lemma {:induction false} ListScoreBounds(list: seq<Hit>, key: string, n: nat)
    requires n <= |list| && DistinctKeys(list)
    ensures ListScore(list, key, n) == 0.0
            || (n > 0 && Contribution(n - 1) <= ListScore(list, key, n) <= Contribution(0))
    ensures (forall i | 0 <= i < n :: list[i].Key() != key) ==> ListScore(list, key, n) == 0.0
  {
    hide Contribution, Hit.Key;
    if n > 0 {
      ListScoreBounds(list, key, n - 1);
      ContributionFalls(0, n - 1);
      if n > 1 { ContributionFalls(n - 2, n - 1); }
    }
  }

  /** With stores of at most 20 candidates each, no chunk twice in one list, a fused
      score is at least one last place and at most one first place a store. */
  lemma {:induction false} ScoreBounds(lists: seq<seq<Hit>>, key: string)
    requires forall l | 0 <= l < |lists| :: DistinctKeys(lists[l]) && |lists[l]| <= SEARCH_CANDIDATES
    ensures Score(lists, key) <= |lists| as real / 61.0
    ensures Score(lists, key) == 0.0 || Score(lists, key) >= 1.0 / 80.0
  {
    hide ListScore, DistinctKeys;
    if lists != [] {
      var (n, list) := (|lists| - 1, lists[|lists| - 1]);
      ScoreBounds(lists[..n], key);
      ListScoreBounds(list, key, |list|);
      if list != [] { ContributionFalls(|list| - 1, SEARCH_CANDIDATES - 1); }
    }
  }

  /** So three such stores give every returned hit a score between 1/80 and 3/61. */
  lemma ThreeStoreScores(lists: seq<seq<Hit>>, i: nat)
    requires |lists| <= 3
    requires forall l | 0 <= l < |lists| :: DistinctKeys(lists[l]) && |lists[l]| <= SEARCH_CANDIDATES
    requires i < |Sorted(Entries(lists))|
    ensures 1.0 / 80.0 <= Sorted(Entries(lists))[i].score <= 3.0 / 61.0
  {
    hide Score, Sorted, Order, First, DistinctKeys, Ranked;
    var entries := Entries(lists);
    SortedIsRanked(entries);
    assert Sorted(entries)[i] in multiset(entries);
    var k :| 0 <= k < |entries| && entries[k] == Sorted(entries)[i];
    OrderKeys(lists, Order(lists)[k]);
    ScoreBounds(lists, Order(lists)[k]);
  }

  // ---- A single store ----------------------------------------------------

  lemma {:induction false} SortedStays(entries: seq<Entry>)
    requires forall i, j | 0 <= i < j < |entries| :: entries[i].score >= entries[j].score
    ensures Sorted(entries) == entries
  {
    if entries != [] {
      var n := |entries| - 1;
      SortedStays(entries[..n]);
      InsertAtEnd(entries[..n], entries[n]);
    }
  }

  lemma {:induction false} InsertAtEnd(s: seq<Entry>, e: Entry)
    requires forall x | x in s :: x.score >= e.score
    ensures Insert(s, e) == s + [e]
  {
    if s != [] { InsertAtEnd(s[1..], e); }
  }

  /** In a list without repeats, the key of place `i` is worth that place and no more. */
  lemma {:induction false} OwnPlace(list: seq<Hit>, i: nat, n: nat)
    requires i < |list| && n <= |list| && DistinctKeys(list)
    ensures ListScore(list, list[i].Key(), n) == if i < n then Contribution(i) else 0.0
    ensures ListFirst(list, list[i].Key(), n) == if i < n then Some(list[i]) else None
  {
    hide Contribution, Hit.Key;
    if n > 0 {
      OwnPlace(list, i, n - 1);
      assert i != n - 1 ==> list[i].Key() != list[n - 1].Key();
    }
  }

  lemma {:induction false} OwnOrder(list: seq<Hit>, n: nat)
    requires n <= |list| && DistinctKeys(list)
    ensures |ListOrder([], list, n)| == n && forall i | 0 <= i < n :: ListOrder([], list, n)[i] == list[i].Key()
  {
    hide Hit.Key;
    if n > 0 {
      OwnOrder(list, n - 1);
      assert forall i | 0 <= i < n - 1 :: list[i].Key() != list[n - 1].Key();
    }
  }

  lemma OneList(list: seq<Hit>, key: string)
    ensures Order([list]) == ListOrder([], list, |list|)
    ensures Score([list], key) == ListScore(list, key, |list|) && First([list], key) == ListFirst(list, key, |list|)
  {
    hide ListOrder, ListScore, ListFirst;
    assert [list][..0] == [];
  }

  /** One list without repeats comes back in its own order, cut at the limit. */
  lemma SingleListKeepsOrder(list: seq<Hit>, limit: int)
    requires DistinctKeys(list)
    ensures Scored(Cut(Sorted(Entries([list])), limit))
            == Cut(seq(|list|, i requires 0 <= i < |list| => list[i].(score := Contribution(i))), limit)
  {
    hide Contribution, Hit.Key, ListScore, ListFirst, ListOrder, Sorted, DistinctKeys, Order, Score, First;
    OwnOrder(list, |list|);
    OneList(list, "");
    var entries := Entries([list]);
    forall i | 0 <= i < |list| ensures entries[i] == Entry(list[i], Contribution(i)) {
      OwnPlace(list, i, |list|);
      OneList(list, list[i].Key());
    }
    forall i, j | 0 <= i < j < |entries| ensures entries[i].score >= entries[j].score { ContributionFalls(i, j); }
    SortedStays(entries);
  }
}
