/** Editing a board: id assignment, adding, removing, reclaiming and resetting cards, and
    why any sequence of edits leaves a board that validates. */
module BoardEdits {
  import opened Text
  import opened BoardModel

  // ---- numeric ids ----

  const TWO_TO_32: nat := 0x1_0000_0000

  predicate IsDigit(c: char) {
    '0' <= c <= '9'
  }

  function DigitValue(c: char): nat
    requires IsDigit(c)
  {
    c as int - '0' as int
  }

  function Format(n: nat): string {
    if n < 10 then ['0' + n as char] else Format(n / 10) + ['0' + (n % 10) as char]
  }

  function Value(digits: string): nat
    requires forall c :: c in digits ==> IsDigit(c)
  {
    if digits == [] then 0
    else
      10 * Value(digits[..|digits| - 1]) + DigitValue(digits[|digits| - 1])
  }

  /** Unsigned 32-bit parsing: an optional plus sign, then digits that fit. */
  function ParseU32(s: string): Option<nat> {
    var digits := if |s| > 1 && s[0] == '+' then s[1..] else s;
    if digits == [] || (exists c :: c in digits && !IsDigit(c)) then None
    else if Value(digits) < TWO_TO_32 then Some(Value(digits)) else None
  }

  lemma {:induction false} FormatIsDigits(n: nat)
    ensures Format(n) != [] && forall c :: c in Format(n) ==> IsDigit(c)
    ensures Value(Format(n)) == n
  {
    if n >= 10 {
      FormatIsDigits(n / 10);
      var s := Format(n);
      assert s[..|s| - 1] == Format(n / 10);
    } else {
      assert Format(n)[..0] == [];
    }
  }

  lemma ParseFormat(n: nat)
    requires n < TWO_TO_32
    ensures ParseU32(Format(n)) == Some(n)
  {
    FormatIsDigits(n);
    assert Format(n)[0] in Format(n);
  }

  function NumberOf(id: string): Option<nat> {
    if id != [] && id[0] == 'c' then ParseU32(id[1..]) else None
  }

  function MaxNumber(cards: Cards): nat {
    if cards == [] then 0
    else
      var rest := MaxNumber(cards[1..]);
      var n := NumberOf(cards[0].id);
      if n.Some? && n.value > rest then n.value else rest
  }

  function IdFor(n: nat): string {
    "c" + Format(n)
  }

  /** One more than the highest number in use; the 32-bit addition wraps to zero. */
  function NextId(cards: Cards): string {
    IdFor(if MaxNumber(cards) + 1 < TWO_TO_32 then MaxNumber(cards) + 1 else 0)
  }

  lemma {:induction false} MaxNumberBounds(cards: Cards)
    ensures MaxNumber(cards) < TWO_TO_32
    ensures forall c :: c in cards && NumberOf(c.id).Some? ==> NumberOf(c.id).value <= MaxNumber(cards)
  {
    if cards != [] {
      MaxNumberBounds(cards[1..]);
      assert cards == [cards[0]] + cards[1..];
    }
  }

  lemma NumberOfIdFor(n: nat)
    requires n < TWO_TO_32
    ensures NumberOf(IdFor(n)) == Some(n)
  {
    ParseFormat(n);
    assert IdFor(n)[1..] == Format(n);
  }

  lemma {:induction false} MaxNumberAttained(cards: Cards)
    ensures MaxNumber(cards) == 0 || exists c :: c in cards && NumberOf(c.id) == Some(MaxNumber(cards))
  {
    if cards != [] {
      MaxNumberAttained(cards[1..]);
      assert cards == [cards[0]] + cards[1..];
    }
  }

  /** The next id is the letter c and one more than the highest number behind a c, counted from one on
      a board without any. */
  lemma NextIdIsNext(cards: Cards) returns (n: nat)
    ensures forall c :: c in cards && NumberOf(c.id).Some? ==> NumberOf(c.id).value <= n
    ensures n == 0 || exists c :: c in cards && NumberOf(c.id) == Some(n)
    ensures NextId(cards) == "c" + Format(if n + 1 < TWO_TO_32 then n + 1 else 0)
  {
    n := MaxNumber(cards);
    MaxNumberBounds(cards);
    MaxNumberAttained(cards);
  }

  /** The next id is new exactly when the counter has not wrapped onto an existing `c0`. */
  lemma NextIdFreshIff(cards: Cards)
    ensures NextId(cards) !in IdsOf(cards) <==> MaxNumber(cards) + 1 < TWO_TO_32 || IdFor(0) !in IdsOf(cards)
  {
    MaxNumberBounds(cards);
    if MaxNumber(cards) + 1 < TWO_TO_32 {
      FreshAboveMax(cards, MaxNumber(cards) + 1);
    }
  }

  /** And it does wrap: a runnable board with `c0` and the highest 32-bit number gets `c0` again. */
  lemma NextIdCanCollide(wish: Card) returns (cards: Cards)
    ensures Runnable(cards) && NextId(cards) in IdsOf(cards) && !Unique(Added(cards, wish))
  {
    var low, high := wish.(id := IdFor(0), deps := []), wish.(id := IdFor(TWO_TO_32 - 1), deps := []);
    cards := [low, high];
    NumberOfIdFor(0);
    NumberOfIdFor(TWO_TO_32 - 1);
    TwoCards(low, high);
    AddedTwice(cards, NewCard(NextId(cards), wish));
  }

  lemma TwoCards(a: Card, b: Card)
    requires a.deps == [] && b.deps == [] && NumberOf(a.id) == Some(0)
    requires NumberOf(b.id).Some? && NumberOf(b.id).value > 0
    ensures Runnable([a, b]) && a.id in IdsOf([a, b]) && MaxNumber([a, b]) == NumberOf(b.id).value
  {
    assert [b][1..] == [] && [a, b][1..] == [b];
    assert MaxNumber([b]) == NumberOf(b.id).value;
    IdsCons(a, [b]);
    assert [a] + [b] == [a, b];
    IndependentPair(a, b);
  }

  lemma IndependentPair(a: Card, b: Card)
    requires a.deps == [] && b.deps == [] && a.id != b.id
    ensures Runnable([a, b])
  {
    EmptyIsRunnable();
    AppendKeepsRunnable([], a);
    assert [] + [a] == [a];
    AppendKeepsRunnable([a], b);
    assert [a] + [b] == [a, b];
  }

  lemma FreshAboveMax(cards: Cards, n: nat)
    requires MaxNumber(cards) < n < TWO_TO_32
    ensures IdFor(n) !in IdsOf(cards)
  {
    MaxNumberBounds(cards);
    NumberOfIdFor(n);
    assert forall c :: c in cards ==> NumberOf(c.id) != Some(n);
  }

  // ---- edits on values ----

  /** The card is new, under this id, and otherwise as wished for. */
  predicate IsFreshCard(c: Card, id: string, wish: Card) {
    && c.id == id && c.deps == wish.deps && c.priority == wish.priority && c.scheduledAt == wish.scheduledAt
    && c.maxRetries == wish.maxRetries && c.goal == wish.goal && c.goalMaxTurns == wish.goalMaxTurns
    && c.attempts == 0 && c.result.None? && c.blockKind.None?
    && c.status == if wish.status == Triage then Triage else Todo
  }

  /** A new card takes its schedule, limits and dependencies from `wish`. */
  function NewCard(id: string, wish: Card): Card {
    wish.(id := id, status := if wish.status == Triage then Triage else Todo,
          result := None, attempts := 0, blockKind := None)
  }

  function Added(cards: Cards, wish: Card): Cards {
    cards + [NewCard(NextId(cards), wish)]
  }

  function Drop(deps: seq<string>, id: string): (r: seq<string>)
    ensures forall d :: d in r <==> d in deps && d != id
  {
    if deps == [] then []
    else if deps[0] == id then Drop(deps[1..], id)
    else [deps[0]] + Drop(deps[1..], id)
  }

  function Removed(cards: Cards, id: string): Cards {
    if cards == [] then []
    else if cards[0].id == id then Removed(cards[1..], id)
    else [cards[0].(deps := Drop(cards[0].deps, id))] + Removed(cards[1..], id)
  }

  lemma {:induction false} RemovedIds(cards: Cards, id: string)
    ensures IdsOf(Removed(cards, id)) == IdsOf(cards) - {id}
    ensures Unique(cards) ==> Unique(Removed(cards, id))
  {
    if cards != [] {
      RemovedIds(cards[1..], id);
      assert cards == [cards[0]] + cards[1..];
      UniqueCons(cards[0], cards[1..]);
      IdsCons(cards[0], cards[1..]);
      if cards[0].id != id {
        var c, rest := cards[0].(deps := Drop(cards[0].deps, id)), Removed(cards[1..], id);
        UniqueCons(c, rest);
        IdsCons(c, rest);
      }
    }
  }

  lemma {:induction false} RemovedDeps(cards: Cards, id: string, x: string)
    requires x != id
    ensures DepsOf(Removed(cards, id), x) == Drop(DepsOf(cards, x), id)
  {
    if cards != [] {
      RemovedDeps(cards[1..], id, x);
    }
  }

  /** Card `x` is still there, unchanged but for mentions of `id` among its dependencies. */
  ghost predicate KeptWithout(before: Cards, after: Cards, x: string, id: string) {
    && Find(before, x).Some? && Find(after, x).Some?
    && (forall d :: d in Find(after, x).value.deps <==> d in Find(before, x).value.deps && d != id)
    && Find(after, x).value == Find(before, x).value.(deps := Find(after, x).value.deps)
  }

  lemma {:induction false} RemovedKeeps(cards: Cards, id: string, x: string)
    requires x in IdsOf(cards) && x != id
    ensures KeptWithout(cards, Removed(cards, id), x, id)
  {
    assert cards == [cards[0]] + cards[1..];
    IdsCons(cards[0], cards[1..]);
    if cards[0].id != x {
      RemovedKeeps(cards[1..], id, x);
    }
  }

  lemma {:induction false} RemovedMax(cards: Cards, id: string)
    ensures MaxNumber(Removed(cards, id)) <= MaxNumber(cards)
  {
    if cards != [] {
      RemovedMax(cards[1..], id);
    }
  }

  // ---- a board that validates ----

  ghost predicate Runnable(cards: Cards) {
    Unique(cards) && exists order :: TopoOrder(cards, order)
  }

  /** A runnable board is one that validation accepts. */
  lemma RunnableValidates(cards: Cards)
    requires Runnable(cards)
    ensures DepsExist(cards) && NoSelfDeps(cards) && Acyclic(cards)
  {
    var order :| TopoOrder(cards, order);
    TopoIsAcyclic(cards, order);
    forall c, d | c in cards && d in c.deps ensures d in IdsOf(cards) {
      FindUnique(cards, c);
      assert c.id in IdsOf(cards);
      var i :| 0 <= i < |order| && order[i] == c.id;
      assert DepsIn(cards, order[i], order[..i]) && d in DepsOf(cards, order[i]);
      assert d in (set id | id in order);
    }
    forall c | c in cards ensures c.id !in c.deps {
      FindUnique(cards, c);
      if c.id in c.deps {
        assert IsCycle(cards, [c.id, c.id]);
      }
    }
  }

  lemma {:induction false} FindAppend(cards: Cards, c: Card, id: string)
    ensures Find(cards + [c], id) ==
            if Find(cards, id).Some? then Find(cards, id) else if c.id == id then Some(c) else None
  {
    if cards == [] {
      assert cards + [c] == [c];
    } else {
      FindAppend(cards[1..], c, id);
      assert (cards + [c])[1..] == cards[1..] + [c];
    }
  }

  lemma AppendKeepsRunnable(cards: Cards, c: Card)
    requires Runnable(cards) && c.id !in IdsOf(cards) && forall d :: d in c.deps ==> d in IdsOf(cards)
    ensures Runnable(cards + [c])
  {
    var order :| TopoOrder(cards, order);
    AppendIds(cards, c);
    AppendOrder(cards, c, order);
    AppendDistinct(order, c.id);
    assert (set id | id in order + [c.id]) == IdsOf(cards + [c]);
    assert TopoOrder(cards + [c], order + [c.id]);
  }

  lemma AppendIds(cards: Cards, c: Card)
    requires Unique(cards) && c.id !in IdsOf(cards)
    ensures Unique(cards + [c]) && IdsOf(cards + [c]) == IdsOf(cards) + {c.id}
  {
    assert forall x :: x in cards + [c] <==> x in cards || x == c;
    forall i | 0 <= i < |cards| ensures cards[i].id != c.id {
      assert cards[i] in cards;
    }
  }

  lemma AppendDistinct(order: seq<string>, id: string)
    requires Distinct(order) && id !in order
    ensures Distinct(order + [id])
  {
  }

  lemma AppendOrder(cards: Cards, c: Card, order: seq<string>)
    requires TopoOrder(cards, order) && c.id !in IdsOf(cards) && forall d :: d in c.deps ==> d in IdsOf(cards)
    ensures DepsBefore(cards + [c], order + [c.id]) && c.id !in order
  {
    var cards', order' := cards + [c], order + [c.id];
    assert forall v :: v in order <==> v in (set id | id in order);
    forall i | 0 <= i < |order'| ensures DepsIn(cards', order'[i], order'[..i]) {
      FindAppend(cards, c, order'[i]);
      FindSpec(cards, order'[i]);
      if i < |order| {
        assert order[i] in order && order'[..i] == order[..i] && DepsIn(cards, order[i], order[..i]);
      } else {
        assert order'[..i] == order;
      }
    }
  }

  lemma {:induction false} DropOrder(order: seq<string>, id: string, i: nat) returns (j: nat)
    requires Distinct(order) && i < |order| && order[i] != id
    ensures j < |Drop(order, id)| && Drop(order, id)[j] == order[i]
    ensures Drop(order, id)[..j] == Drop(order[..i], id)
    decreases |order|
  {
    if i == 0 {
      j := 0;
      assert order[..0] == [];
    } else {
      assert order[..i][1..] == order[1..][..i - 1];
      j := DropOrder(order[1..], id, i - 1);
      if order[0] != id {
        j := j + 1;
        assert Drop(order, id)[..j] == [order[0]] + Drop(order[1..], id)[..j - 1];
      }
    }
  }

  lemma {:induction false} DropDistinct(order: seq<string>, id: string)
    requires Distinct(order)
    ensures Distinct(Drop(order, id))
  {
    if order != [] {
      assert order == [order[0]] + order[1..] && Distinct(order[1..]) && order[0] !in order[1..];
      DropDistinct(order[1..], id);
    }
  }

  lemma RemoveKeepsRunnable(cards: Cards, id: string)
    requires Runnable(cards)
    ensures Runnable(Removed(cards, id))
  {
    var order :| TopoOrder(cards, order);
    var cards', order' := Removed(cards, id), Drop(order, id);
    RemovedIds(cards, id);
    DropDistinct(order, id);
    assert forall v :: v in order <==> v in (set x | x in order);
    assert (set v | v in order') == IdsOf(cards');
    forall k | 0 <= k < |order'| ensures DepsIn(cards', order'[k], order'[..k]) {
      var x := order'[k];
      assert x in order' && x != id;
      RemovedDeps(cards, id, x);
      var i :| 0 <= i < |order| && order[i] == x;
      var j := DropOrder(order, id, i);
      assert j == k;
      assert DepsIn(cards, order[i], order[..i]);
    }
    assert TopoOrder(cards', order');
  }

  // ---- any sequence of edits ----

  datatype Edit = AddCard(wish: Card) | RemoveCard(id: string)

  /** Adding refuses unknown dependencies and then leaves the board as it was. */
  function Edited(cards: Cards, e: Edit): Cards {
    match e
    case AddCard(wish) =>
      if forall d :: d in wish.deps ==> Find(cards, d).Some? then Added(cards, wish) else cards
    case RemoveCard(id) => Removed(cards, id)
  }

  function AllEdited(cards: Cards, edits: seq<Edit>): Cards
    decreases |edits|
  {
    if edits == [] then cards else AllEdited(Edited(cards, edits[0]), edits[1..])
  }

  lemma {:induction false} MaxNumberAppend(cards: Cards, c: Card)
    ensures MaxNumber(cards + [c]) ==
            if NumberOf(c.id).Some? && NumberOf(c.id).value > MaxNumber(cards) then NumberOf(c.id).value
            else MaxNumber(cards)
  {
    if cards == [] {
      assert cards + [c] == [c];
      assert [c][1..] == [];
    } else {
      MaxNumberAppend(cards[1..], c);
      assert (cards + [c])[1..] == cards[1..] + [c];
    }
  }

  lemma EditKeepsRunnable(cards: Cards, e: Edit)
    requires Runnable(cards) && MaxNumber(cards) + 1 < TWO_TO_32
    ensures Runnable(Edited(cards, e)) && MaxNumber(Edited(cards, e)) <= MaxNumber(cards) + 1
  {
    match e
    case AddCard(wish) =>
      if forall d :: d in wish.deps ==> Find(cards, d).Some? {
        NextIdFreshIff(cards);
        forall d | d in wish.deps ensures d in IdsOf(cards) {
          FindSpec(cards, d);
        }
        AppendKeepsRunnable(cards, NewCard(NextId(cards), wish));
        MaxNumberAppend(cards, NewCard(NextId(cards), wish));
        NumberOfIdFor(MaxNumber(cards) + 1);
      }
    case RemoveCard(id) =>
      RemoveKeepsRunnable(cards, id);
      RemovedMax(cards, id);
  }

  /** The edit adds a card under an id that is already taken: the counter wrapped onto `c0`. */
  predicate Collides(cards: Cards, e: Edit) {
    && e.AddCard? && (forall d :: d in e.wish.deps ==> Find(cards, d).Some?)
    && MaxNumber(cards) + 1 == TWO_TO_32 && IdFor(0) in IdsOf(cards)
  }

  lemma EditKeepsRunnableIff(cards: Cards, e: Edit)
    requires Runnable(cards)
    ensures Runnable(Edited(cards, e)) <==> !Collides(cards, e)
  {
    match e
    case AddCard(wish) =>
      if forall d :: d in wish.deps ==> Find(cards, d).Some? {
        MaxNumberBounds(cards);
        NextIdFreshIff(cards);
        forall d | d in wish.deps ensures d in IdsOf(cards) {
          FindSpec(cards, d);
        }
        if NextId(cards) in IdsOf(cards) {
          AddedTwice(cards, NewCard(NextId(cards), wish));
        } else {
          AppendKeepsRunnable(cards, NewCard(NextId(cards), wish));
        }
      }
    case RemoveCard(id) =>
      RemoveKeepsRunnable(cards, id);
  }

  lemma AddedTwice(cards: Cards, c: Card)
    requires c.id in IdsOf(cards)
    ensures !Unique(cards + [c])
  {
    var i :| 0 <= i < |cards| && cards[i].id == c.id;
    assert (cards + [c])[i].id == (cards + [c])[|cards|].id;
  }

  /** The board is runnable before, between and after the edits. */
  ghost predicate StaysRunnable(cards: Cards, edits: seq<Edit>)
    decreases |edits|
  {
    Runnable(cards) && (edits == [] || StaysRunnable(Edited(cards, edits[0]), edits[1..]))
  }

  predicate SomeCollision(cards: Cards, edits: seq<Edit>)
    decreases |edits|
  {
    edits != [] && (Collides(cards, edits[0]) || SomeCollision(Edited(cards, edits[0]), edits[1..]))
  }

  /** From a runnable board, edits keep the board runnable throughout exactly when none of them
      adds a card under a wrapped id that is taken. */
  lemma {:induction false} EditsKeepRunnableIff(cards: Cards, edits: seq<Edit>)
    requires Runnable(cards)
    ensures StaysRunnable(cards, edits) <==> !SomeCollision(cards, edits)
    decreases |edits|
  {
    if edits != [] {
      EditKeepsRunnableIff(cards, edits[0]);
      if !Collides(cards, edits[0]) {
        EditsKeepRunnableIff(Edited(cards, edits[0]), edits[1..]);
      }
    }
  }

  /** A board built from nothing by fewer than 2^32 edits is runnable. */
  lemma BuiltBoardIsRunnable(edits: seq<Edit>)
    requires |edits| < TWO_TO_32
    ensures Runnable(AllEdited([], edits))
  {
    EmptyIsRunnable();
    EditsKeepRunnable([], edits);
  }

  /** From a runnable board, any edits within the 32-bit id range keep the board runnable. */
  lemma {:induction false} EditsKeepRunnable(cards: Cards, edits: seq<Edit>)
    requires Runnable(cards) && MaxNumber(cards) + |edits| < TWO_TO_32
    ensures Runnable(AllEdited(cards, edits))
    decreases |edits|
  {
    if edits != [] {
      EditKeepsRunnable(cards, edits[0]);
      EditsKeepRunnable(Edited(cards, edits[0]), edits[1..]);
    }
  }

  lemma EmptyIsRunnable()
    ensures Runnable([])
  {
    assert TopoOrder([], []);
  }

  /** Removing the newest card gives its id out again. */
  lemma IdIsReissued(cards: Cards, wish: Card)
    requires Runnable(cards) && MaxNumber(cards) + 1 < TWO_TO_32
    ensures NextId(Removed(Added(cards, wish), NextId(cards))) == NextId(cards)
  {
    NextIdFreshIff(cards);
    RunnableValidates(cards);
    RemoveAppended(cards, NewCard(NextId(cards), wish));
  }

  lemma {:induction false} RemoveAppended(cards: Cards, c: Card)
    requires c.id !in IdsOf(cards)
    ensures MaxNumber(Removed(cards + [c], c.id)) == MaxNumber(cards)
  {
    if cards == [] {
      assert cards + [c] == [c];
      assert [c][1..] == [];
    } else {
      assert cards == [cards[0]] + cards[1..];
      IdsCons(cards[0], cards[1..]);
      assert (cards + [c])[1..] == cards[1..] + [c];
      RemoveAppended(cards[1..], c);
      assert (cards + [c])[0] == cards[0];
      var r := Removed(cards + [c], c.id);
      assert r[1..] == Removed(cards[1..] + [c], c.id);
    }
  }

  // ---- the board object ----

  function Reclaimed(c: Card): Card {
    if c.status == Doing then c.(status := Todo) else c
  }

  predicate IsResettable(c: Card) {
    c.status == Done || c.status == Doing || c.status == Blocked
  }

  function ResetCard(c: Card): Card {
    if IsResettable(c) then c.(status := Todo, result := None) else c
  }

  class Board {
    var cards: Cards

    constructor ()
      ensures cards == []
    {
      cards := [];
    }

    /** Appends a fresh Todo card under the next id. */
    method Add(wish: Card) returns (id: string)
      modifies this
      ensures cards == Added(old(cards), wish) && id == NextId(old(cards))
      ensures |cards| == |old(cards)| + 1 && cards[..|old(cards)|] == old(cards)
      ensures IsFreshCard(cards[|old(cards)|], id, wish)
    {
      id := NextId(cards);
      cards := cards + [NewCard(id, wish)];
    }

    /** The command-line `add`: unknown dependencies are refused. */
    method AddChecked(wish: Card) returns (id: Option<string>)
      modifies this
      ensures cards == Edited(old(cards), AddCard(wish))
      ensures id.Some? <==> forall d :: d in wish.deps ==> d in IdsOf(old(cards))
      ensures id.None? ==> cards == old(cards)
      ensures id.Some? ==> |cards| == |old(cards)| + 1 && cards[..|old(cards)|] == old(cards)
      ensures id.Some? ==> IsFreshCard(cards[|old(cards)|], id.value, wish)
    {
      forall d ensures Find(cards, d).Some? <==> d in IdsOf(cards) {
        FindSpec(cards, d);
      }
      for i := 0 to |wish.deps|
        invariant cards == old(cards) && forall k :: 0 <= k < i ==> Find(cards, wish.deps[k]).Some?
      {
        if Find(cards, wish.deps[i]).None? {
          return None;
        }
      }
      var added := Add(wish);
      return Some(added);
    }

    method Remove(id: string) returns (changed: bool)
      modifies this
      ensures cards == Edited(old(cards), RemoveCard(id))
      ensures changed <==> id in IdsOf(old(cards))
      ensures forall x :: x in IdsOf(old(cards)) && x != id ==> KeptWithout(old(cards), cards, x, id)
      ensures IdsOf(cards) == IdsOf(old(cards)) - {id}
    {
      RemovedIds(cards, id);
      forall x | x in IdsOf(cards) && x != id ensures KeptWithout(cards, Removed(cards, id), x, id) {
        RemovedKeeps(cards, id, x);
      }
      var before := |cards|;
      RemovedLength(cards, id);
      cards := Removed(cards, id);
      changed := |cards| != before;
    }

    /** Doing cards of an interrupted run go back to Todo; attempts are kept. */
    method ReclaimInFlight() returns (n: nat)
      modifies this
      ensures |cards| == |old(cards)| && forall i :: 0 <= i < |cards| ==> cards[i] == Reclaimed(old(cards)[i])
      ensures forall i :: 0 <= i < |cards| && old(cards)[i].status != Doing ==> cards[i] == old(cards)[i]
      ensures forall i :: 0 <= i < |cards| && old(cards)[i].status == Doing ==>
        cards[i] == old(cards)[i].(status := Todo) && cards[i].attempts == old(cards)[i].attempts
      ensures forall c :: c in cards ==> c.status != Doing
      ensures n == |set i | 0 <= i < |cards| && old(cards)[i].status == Doing|
    {
      n := 0;
      ghost var hit: set<int> := {};
      for i := 0 to |cards|
        invariant |cards| == |old(cards)|
        invariant forall k :: 0 <= k < i ==> cards[k] == Reclaimed(old(cards)[k])
        invariant forall k :: i <= k < |cards| ==> cards[k] == old(cards)[k]
        invariant hit == (set k | 0 <= k < i && old(cards)[k].status == Doing) && n == |hit|
      {
        if cards[i].status == Doing {
          hit := hit + {i};
          cards := cards[i := cards[i].(status := Todo)];
          n := n + 1;
        }
      }
    }

    /** Finished, failed and in-flight cards go back to Todo without results; attempts are kept. */
    method ResetForRerun() returns (n: nat)
      modifies this
      ensures |cards| == |old(cards)| && forall i :: 0 <= i < |cards| ==> cards[i] == ResetCard(old(cards)[i])
      ensures forall i :: 0 <= i < |cards| && old(cards)[i].status in {Triage, Todo, Archived} ==>
        cards[i] == old(cards)[i]
      ensures forall i :: 0 <= i < |cards| && old(cards)[i].status in {Done, Doing, Blocked} ==>
        cards[i] == old(cards)[i].(status := Todo, result := None) && cards[i].attempts == old(cards)[i].attempts
      ensures n == |set i | 0 <= i < |cards| && IsResettable(old(cards)[i])|
    {
      n := 0;
      ghost var hit: set<int> := {};
      for i := 0 to |cards|
        invariant |cards| == |old(cards)|
        invariant forall k :: 0 <= k < i ==> cards[k] == ResetCard(old(cards)[k])
        invariant forall k :: i <= k < |cards| ==> cards[k] == old(cards)[k]
        invariant hit == (set k | 0 <= k < i && IsResettable(old(cards)[k])) && n == |hit|
      {
        if IsResettable(cards[i]) {
          hit := hit + {i};
          cards := cards[i := cards[i].(status := Todo, result := None)];
          n := n + 1;
        }
      }
    }
  }

  lemma {:induction false} RemovedLength(cards: Cards, id: string)
    ensures |Removed(cards, id)| <= |cards|
    ensures |Removed(cards, id)| == |cards| <==> id !in IdsOf(cards)
  {
    if cards != [] {
      assert cards == [cards[0]] + cards[1..];
      IdsCons(cards[0], cards[1..]);
      RemovedLength(cards[1..], id);
    }
  }
}
