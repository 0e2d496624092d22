/** The orchestration board as a value: cards, lookup, the dependency graph, which cards are
    ready, and why a board can be stuck. */
module BoardModel {
  import opened Text

  datatype CardStatus = Triage | Todo | Doing | Done | Blocked | Archived

  /** The fields the scheduler reads or writes.  `goalMaxTurns == 0` stands for the default of five. */
  datatype Card = Card(
    id: string,
    status: CardStatus,
    priority: int,
    deps: seq<string>,
    result: Option<string>,
    attempts: nat,
    blockKind: Option<string>,
    scheduledAt: Option<int>,
    maxRetries: nat,
    goal: bool,
    goalMaxTurns: nat)

  type Cards = seq<Card>

  function Find(cards: Cards, id: string): Option<Card> {
    if cards == [] then None
    else if cards[0].id == id then Some(cards[0])
    else Find(cards[1..], id)
  }

  function IdsOf(cards: Cards): set<string> {
    set c | c in cards :: c.id
  }

  predicate Unique(cards: Cards) {
    forall i, j :: 0 <= i < j < |cards| ==> cards[i].id != cards[j].id
  }

  lemma {:induction false} FindSpec(cards: Cards, id: string)
    ensures Find(cards, id).Some? <==> id in IdsOf(cards)
    ensures Find(cards, id).Some? ==> Find(cards, id).value in cards && Find(cards, id).value.id == id
  {
    if cards != [] {
      FindSpec(cards[1..], id);
      assert cards == [cards[0]] + cards[1..];
      assert IdsOf(cards) == {cards[0].id} + IdsOf(cards[1..]);
    }
  }

  lemma {:induction false} FindUnique(cards: Cards, c: Card)
    requires Unique(cards) && c in cards
    ensures Find(cards, c.id) == Some(c)
  {
    FindSpec(cards, c.id);
    assert c.id in IdsOf(cards);
    var d := Find(cards, c.id).value;
    var i :| 0 <= i < |cards| && cards[i] == c;
    var j :| 0 <= j < |cards| && cards[j] == d;
  }

  // ---- the dependency graph ----

  function DepsOf(cards: Cards, id: string): seq<string> {
    var c := Find(cards, id);
    if c.Some? then c.value.deps else []
  }

  predicate DepsExist(cards: Cards) {
    forall c :: c in cards ==> forall d :: d in c.deps ==> d in IdsOf(cards)
  }

  predicate NoSelfDeps(cards: Cards) {
    forall c :: c in cards ==> c.id !in c.deps
  }

  predicate DepPath(cards: Cards, path: seq<string>) {
    forall i :: 0 < i < |path| ==> path[i] in DepsOf(cards, path[i - 1])
  }

  /** A closed walk along dependencies. */
  predicate IsCycle(cards: Cards, walk: seq<string>) {
    |walk| > 1 && walk[0] == walk[|walk| - 1] && DepPath(cards, walk)
  }

  ghost predicate Acyclic(cards: Cards) {
    forall walk :: !IsCycle(cards, walk)
  }

  predicate DepsIn(cards: Cards, id: string, known: seq<string>) {
    forall d :: d in DepsOf(cards, id) ==> d in known
  }

  /** Every dependency of a listed id is listed before it. */
  predicate DepsBefore(cards: Cards, order: seq<string>) {
    forall i {:trigger DepsIn(cards, order[i], order[..i])} :: 0 <= i < |order| ==> DepsIn(cards, order[i], order[..i])
  }

  /** `order` lists the card ids once each, dependencies first. */
  predicate TopoOrder(cards: Cards, order: seq<string>) {
    Distinct(order) && DepsBefore(cards, order) && (set id | id in order) == IdsOf(cards)
  }

  lemma DepOfCard(cards: Cards, id: string, d: string)
    requires d in DepsOf(cards, id)
    ensures id in IdsOf(cards) && Find(cards, id).value in cards && d in Find(cards, id).value.deps
  {
    FindSpec(cards, id);
  }

  /** Along a path every id comes strictly earlier in the order. */
  lemma {:induction false} PathDescends(cards: Cards, order: seq<string>, path: seq<string>, i: nat)
    requires TopoOrder(cards, order) && DepPath(cards, path) && |path| > 1 && i < |order| && path[0] == order[i]
    ensures path[|path| - 1] in order[..i]
    decreases |path|
  {
    assert path[1] in DepsOf(cards, path[0]) && DepsIn(cards, order[i], order[..i]);
    if |path| > 2 {
      var j :| 0 <= j < i && order[j] == path[1];
      var rest := path[1..];
      assert DepPath(cards, rest) by {
        forall k | 0 < k < |rest| ensures rest[k] in DepsOf(cards, rest[k - 1]) {
          assert path[k + 1] in DepsOf(cards, path[k]);
        }
      }
      PathDescends(cards, order, rest, j);
    }
  }

  lemma TopoIsAcyclic(cards: Cards, order: seq<string>)
    requires TopoOrder(cards, order)
    ensures Acyclic(cards)
  {
    forall walk ensures !IsCycle(cards, walk) {
      if IsCycle(cards, walk) {
        assert walk[1] in DepsOf(cards, walk[0]);
        DepOfCard(cards, walk[0], walk[1]);
        assert walk[0] in (set id | id in order);
        var i :| 0 <= i < |order| && order[i] == walk[0];
        PathDescends(cards, order, walk, i);
      }
    }
  }

  // ---- ready cards ----

  predicate Due(c: Card, now: int) {
    c.scheduledAt.None? || c.scheduledAt.value <= now
  }

  predicate DepDone(cards: Cards, d: string) {
    var c := Find(cards, d);
    c.Some? && c.value.status == Done
  }

  predicate IsReady(cards: Cards, now: int, c: Card) {
    c.status == Todo && Due(c, now) && forall d :: d in c.deps ==> DepDone(cards, d)
  }

  predicate StringLeq(a: string, b: string) {
    a == [] || (b != [] && (a[0] < b[0] || (a[0] == b[0] && StringLeq(a[1..], b[1..]))))
  }

  /** Higher priority first, then by id. */
  predicate Precedes(a: Card, b: Card) {
    a.priority > b.priority || (a.priority == b.priority && StringLeq(a.id, b.id))
  }

  function FilterReady(all: Cards, now: int, cards: Cards): Cards {
    if cards == [] then []
    else (if IsReady(all, now, cards[0]) then [cards[0]] else []) + FilterReady(all, now, cards[1..])
  }

  function Insert(c: Card, sorted: Cards): Cards {
    if sorted == [] || Precedes(c, sorted[0]) then [c] + sorted
    else [sorted[0]] + Insert(c, sorted[1..])
  }

  function Sort(cards: Cards): Cards {
    if cards == [] then [] else Insert(cards[0], Sort(cards[1..]))
  }

  /** The ready cards, most important first. */
  function Ready(cards: Cards, now: int): Cards {
    Sort(FilterReady(cards, now, cards))
  }

  predicate Sorted(cards: Cards) {
    forall i, j :: 0 <= i < j < |cards| ==> Precedes(cards[i], cards[j])
  }

  lemma {:induction false} StringLeqTotal(a: string, b: string)
    ensures StringLeq(a, b) || StringLeq(b, a)
  {
    if a != [] && b != [] {
      StringLeqTotal(a[1..], b[1..]);
    }
  }

  lemma {:induction false} StringLeqTransitive(a: string, b: string, c: string)
    requires StringLeq(a, b) && StringLeq(b, c)
    ensures StringLeq(a, c)
  {
    if a != [] && a[0] == b[0] && b[0] == c[0] {
      StringLeqTransitive(a[1..], b[1..], c[1..]);
    }
  }

  lemma PrecedesTotal(a: Card, b: Card)
    ensures Precedes(a, b) || Precedes(b, a)
  {
    StringLeqTotal(a.id, b.id);
  }

  lemma PrecedesTransitive(a: Card, b: Card, c: Card)
    requires Precedes(a, b) && Precedes(b, c)
    ensures Precedes(a, c)
  {
    if a.priority == b.priority == c.priority {
      StringLeqTransitive(a.id, b.id, c.id);
    }
  }

  lemma UniqueCons(c: Card, rest: Cards)
    ensures Unique([c] + rest) <==> Unique(rest) && c.id !in IdsOf(rest)
  {
    var cards := [c] + rest;
    if Unique(cards) {
      forall i, j | 0 <= i < j < |rest| ensures rest[i].id != rest[j].id {
        assert rest[i] == cards[i + 1] && rest[j] == cards[j + 1];
      }
      forall j | 0 <= j < |rest| ensures rest[j].id != c.id {
        assert cards[0].id != cards[j + 1].id;
      }
    } else {
      var i, j :| 0 <= i < j < |cards| && cards[i].id == cards[j].id;
      assert cards[j] == rest[j - 1];
      if i > 0 {
        assert cards[i] == rest[i - 1];
      }
    }
  }

  lemma {:induction false} InsertAdds(c: Card, cards: Cards)
    ensures multiset(Insert(c, cards)) == multiset{c} + multiset(cards)
  {
    if cards != [] && !Precedes(c, cards[0]) {
      InsertAdds(c, cards[1..]);
      assert cards == [cards[0]] + cards[1..];
    }
  }

  lemma InsertMembers(c: Card, cards: Cards, x: Card)
    ensures x in Insert(c, cards) <==> x == c || x in cards
  {
    InsertAdds(c, cards);
    assert x in Insert(c, cards) <==> x in multiset(Insert(c, cards));
    assert x in cards <==> x in multiset(cards);
  }

  lemma {:induction false} InsertSorts(c: Card, sorted: Cards)
    requires Sorted(sorted)
    ensures Sorted(Insert(c, sorted))
  {
    if sorted == [] {
    } else if Precedes(c, sorted[0]) {
      forall i | 0 <= i < |sorted| ensures Precedes(c, sorted[i]) {
        if i > 0 {
          PrecedesTransitive(c, sorted[0], sorted[i]);
        }
      }
    } else {
      PrecedesTotal(c, sorted[0]);
      var rest := Insert(c, sorted[1..]);
      InsertSorts(c, sorted[1..]);
      forall i | 0 <= i < |rest| ensures Precedes(sorted[0], rest[i]) {
        InsertMembers(c, sorted[1..], rest[i]);
      }
    }
  }

  lemma {:induction false} InsertUnique(c: Card, cards: Cards)
    requires Unique(cards) && c.id !in IdsOf(cards)
    ensures Unique(Insert(c, cards)) && IdsOf(Insert(c, cards)) == IdsOf(cards) + {c.id}
  {
    if cards == [] || Precedes(c, cards[0]) {
      UniqueCons(c, cards);
      IdsCons(c, cards);
    } else {
      assert cards == [cards[0]] + cards[1..];
      UniqueCons(cards[0], cards[1..]);
      IdsCons(cards[0], cards[1..]);
      InsertUnique(c, cards[1..]);
      UniqueCons(cards[0], Insert(c, cards[1..]));
      IdsCons(cards[0], Insert(c, cards[1..]));
    }
  }

  lemma IdsCons(c: Card, rest: Cards)
    ensures IdsOf([c] + rest) == {c.id} + IdsOf(rest)
  {
    assert forall x :: x in [c] + rest <==> x == c || x in rest;
  }

  /** Sorting orders the cards and neither loses nor repeats any. */
  lemma {:induction false} SortSorts(cards: Cards)
    ensures Sorted(Sort(cards)) && multiset(Sort(cards)) == multiset(cards)
  {
    if cards != [] {
      SortSorts(cards[1..]);
      InsertSorts(cards[0], Sort(cards[1..]));
      InsertAdds(cards[0], Sort(cards[1..]));
      assert cards == [cards[0]] + cards[1..];
    }
  }

  lemma {:induction false} SortUnique(cards: Cards)
    requires Unique(cards)
    ensures Unique(Sort(cards)) && IdsOf(Sort(cards)) == IdsOf(cards)
  {
    if cards != [] {
      assert cards == [cards[0]] + cards[1..];
      UniqueCons(cards[0], cards[1..]);
      IdsCons(cards[0], cards[1..]);
      SortUnique(cards[1..]);
      InsertUnique(cards[0], Sort(cards[1..]));
    }
  }

  lemma {:induction false} FilterReadySpec(all: Cards, now: int, cards: Cards)
    ensures forall c :: c in FilterReady(all, now, cards) <==> c in cards && IsReady(all, now, c)
  {
    if cards != [] {
      FilterReadySpec(all, now, cards[1..]);
      assert cards == [cards[0]] + cards[1..];
    }
  }

  lemma {:induction false} FilterReadyUnique(all: Cards, now: int, cards: Cards)
    requires Unique(cards)
    ensures Unique(FilterReady(all, now, cards))
  {
    if cards != [] {
      var rest := FilterReady(all, now, cards[1..]);
      assert cards == [cards[0]] + cards[1..];
      UniqueCons(cards[0], cards[1..]);
      FilterReadyUnique(all, now, cards[1..]);
      FilterReadySpec(all, now, cards[1..]);
      UniqueCons(cards[0], rest);
    }
  }

  /** `Ready` returns exactly the ready cards, each once, in order of importance; so any prefix
      of it precedes every ready card it leaves out. */
  lemma ReadySpec(cards: Cards, now: int)
    requires Unique(cards)
    ensures forall c :: c in Ready(cards, now) <==> c in cards && IsReady(cards, now, c)
    ensures Sorted(Ready(cards, now)) && Unique(Ready(cards, now))
  {
    var ready := FilterReady(cards, now, cards);
    FilterReadySpec(cards, now, cards);
    FilterReadyUnique(cards, now, cards);
    SortSorts(ready);
    SortUnique(ready);
    forall c ensures c in Ready(cards, now) <==> c in ready {
      assert c in Ready(cards, now) <==> c in multiset(Sort(ready));
      assert c in ready <==> c in multiset(ready);
    }
  }

  /** The same in plain terms: due Todo cards whose every dependency is a Done card, by falling
      priority, cards of one priority in order of their ids. */
  lemma ReadyOrder(cards: Cards, now: int, i: nat, j: nat)
    requires Unique(cards) && i < j < |Ready(cards, now)|
    ensures var a, b := Ready(cards, now)[i], Ready(cards, now)[j];
            a.priority >= b.priority && (a.priority == b.priority ==> a.id != b.id && Before(a.id, b.id))
  {
    ReadySpec(cards, now);
    var a, b := Ready(cards, now)[i], Ready(cards, now)[j];
    assert Precedes(a, b) && a.id != b.id;
    if a.priority == b.priority {
      LeqIsBefore(a.id, b.id);
    }
  }

  lemma ReadyAre(cards: Cards, now: int, c: Card)
    requires Unique(cards)
    ensures c in Ready(cards, now) <==>
            && c in cards && c.status == Todo && (c.scheduledAt.Some? ==> c.scheduledAt.value <= now)
            && forall d :: d in c.deps ==> exists dep :: dep in cards && dep.id == d && dep.status == Done
  {
    ReadySpec(cards, now);
    forall d ensures DepDone(cards, d) <==> exists dep :: dep in cards && dep.id == d && dep.status == Done {
      FindSpec(cards, d);
      if dep :| dep in cards && dep.id == d && dep.status == Done {
        FindUnique(cards, dep);
      }
    }
  }

  /** Lexicographic order: a proper prefix, or smaller at the first difference. */
  predicate Before(a: string, b: string) {
    || (|a| < |b| && b[..|a|] == a)
    || (exists k :: 0 <= k < |a| && k < |b| && a[..k] == b[..k] && a[k] < b[k])
  }

  lemma {:induction false} LeqIsBefore(a: string, b: string)
    requires StringLeq(a, b) && a != b
    ensures Before(a, b)
  {
    if a == [] {
      assert b[..0] == a;
    } else if a[0] < b[0] {
      assert a[..0] == b[..0];
    } else {
      LeqIsBefore(a[1..], b[1..]);
      if |a| < |b| && b[1..][..|a| - 1] == a[1..] {
        assert b[..|a|] == [b[0]] + b[1..][..|a| - 1] == a;
      } else {
        var k :| 0 <= k < |a[1..]| && k < |b[1..]| && a[1..][..k] == b[1..][..k] && a[1..][k] < b[1..][k];
        assert a[..k + 1] == [a[0]] + a[1..][..k] && b[..k + 1] == [b[0]] + b[1..][..k];
        assert a[k + 1] < b[k + 1];
      }
    }
  }

  predicate IsComplete(cards: Cards) {
    && (exists c :: c in cards && c.status != Archived)
    && (forall c :: c in cards && c.status != Archived ==> c.status == Done)
  }

  // ---- stuck only for a reason ----

  /** A card no dispatcher pass will move: parked, given up, hidden, or not yet due. */
  predicate Held(c: Card, now: int) {
    c.status == Triage || c.status == Blocked || c.status == Archived || (c.status == Todo && !Due(c, now))
  }

  ghost predicate HeldBehind(cards: Cards, now: int, id: string, chain: seq<string>) {
    && |chain| > 0 && chain[0] == id && DepPath(cards, chain)
    && Find(cards, chain[|chain| - 1]).Some? && Held(Find(cards, chain[|chain| - 1]).value, now)
  }

  /** On a board in dependency order with nothing in flight and nothing ready, every Todo card
      waits, through its dependencies, for a held card. */
  lemma {:induction false} StuckForAReason(cards: Cards, now: int, order: seq<string>, i: nat)
      returns (chain: seq<string>)
    requires Unique(cards) && TopoOrder(cards, order)
    requires forall c :: c in cards ==> c.status != Doing && !IsReady(cards, now, c)
    requires i < |order| && Find(cards, order[i]).Some? && Find(cards, order[i]).value.status == Todo
    ensures HeldBehind(cards, now, order[i], chain)
    decreases i
  {
    var c := Find(cards, order[i]).value;
    FindSpec(cards, order[i]);
    if !Due(c, now) {
      chain := [order[i]];
    } else {
      var d :| d in c.deps && !DepDone(cards, d);
      assert d in DepsOf(cards, order[i]) && DepsIn(cards, order[i], order[..i]);
      var j :| 0 <= j < i && order[j] == d;
      assert d in (set id | id in order);
      FindSpec(cards, d);
      var e := Find(cards, d).value;
      if e.status == Todo {
        chain := StuckForAReason(cards, now, order, j);
      } else {
        chain := [d];
      }
      chain := [order[i]] + chain;
    }
  }

  /** So a board of due Todo and Done cards always has a ready card until it is complete. */
  lemma DueBoardDrains(cards: Cards, now: int, order: seq<string>)
    requires Unique(cards) && TopoOrder(cards, order) && cards != []
    requires forall c :: c in cards ==> c.status == Done || (c.status == Todo && Due(c, now))
    ensures IsComplete(cards) <==> Ready(cards, now) == []
  {
    ReadySpec(cards, now);
    assert cards[0] in cards;
    if c :| c in cards && c.status == Todo {
      assert !IsComplete(cards);
      TodoMeansReady(cards, now, order, c);
    } else {
      assert IsComplete(cards);
      HeadIsMember(Ready(cards, now));
    }
  }

  lemma HeadIsMember(cards: Cards)
    ensures cards == [] || cards[0] in cards
  {
  }

  lemma TodoMeansReady(cards: Cards, now: int, order: seq<string>, c: Card)
    requires Unique(cards) && TopoOrder(cards, order)
    requires forall d :: d in cards ==> d.status == Done || (d.status == Todo && Due(d, now))
    requires c in cards && c.status == Todo
    ensures Ready(cards, now) != []
  {
    ReadySpec(cards, now);
    if Ready(cards, now) == [] {
      FindUnique(cards, c);
      assert c.id in IdsOf(cards);
      var i :| 0 <= i < |order| && order[i] == c.id;
      var chain := StuckForAReason(cards, now, order, i);
      FindSpec(cards, chain[|chain| - 1]);
    }
  }
}
