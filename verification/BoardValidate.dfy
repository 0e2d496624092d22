/** Board validation: dependency existence, self-dependencies, and the three-colour
    depth-first search for cycles. */
module BoardValidate {
  import opened Text
  import opened BoardModel

  datatype Verdict =
    | Ok
    | SelfDependency(card: string)
    | UnknownDependency(card: string, dep: string)
    | Cycle(through: string)

  /** Absent means unvisited. */
  datatype Mark = InProgress | Finished

  type Marks = map<string, Mark>

  predicate IsFinished(marks: Marks, id: string) {
    id in marks && marks[id] == Finished
  }

  ghost predicate StayFinished(before: Marks, after: Marks) {
    forall v :: IsFinished(before, v) ==> IsFinished(after, v)
  }

  ghost predicate AllFinished(marks: Marks, ids: seq<string>) {
    forall v :: v in ids ==> IsFinished(marks, v)
  }

  lemma OneMoreFinished(before: Marks, after: Marks, ids: seq<string>, i: nat)
    requires i < |ids| && AllFinished(before, ids[..i]) && StayFinished(before, after) && IsFinished(after, ids[i])
    ensures AllFinished(after, ids[..i + 1])
  {
    assert ids[..i + 1] == ids[..i] + [ids[i]];
  }

  /** `ids` contains everything the search can come across. */
  ghost predicate Closed(cards: Cards, ids: set<string>) {
    forall id, d :: d in DepsOf(cards, id) ==> d in ids
  }

  /** The ids in progress are the current path of the search, and the finished ones are
      listed dependencies first. */
  ghost predicate SearchState(cards: Cards, ids: set<string>, marks: Marks, path: seq<string>, order: seq<string>) {
    && (forall v :: v in path <==> v in marks && marks[v] == InProgress)
    && (forall v :: v in order <==> IsFinished(marks, v))
    && marks.Keys <= ids
    && DepPath(cards, path) && Distinct(order) && DepsBefore(cards, order)
  }

  lemma EnterKeepsState(cards: Cards, ids: set<string>, marks: Marks, path: seq<string>, order: seq<string>, id: string)
    requires SearchState(cards, ids, marks, path, order) && id !in marks && id in ids
    requires path == [] || id in DepsOf(cards, path[|path| - 1])
    ensures SearchState(cards, ids, marks[id := InProgress], path + [id], order)
  {
  }

  lemma FinishKeepsState(cards: Cards, ids: set<string>, marks: Marks, path: seq<string>, order: seq<string>,
                         id: string)
    requires SearchState(cards, ids, marks, path + [id], order) && id !in path
    requires DepsIn(cards, id, order)
    ensures SearchState(cards, ids, marks[id := Finished], path, order + [id])
  {
    var wider, order', marks' := path + [id], order + [id], marks[id := Finished];
    assert forall i :: 0 <= i < |path| ==> path[i] == wider[i];
    assert id in wider && !IsFinished(marks, id) && id !in order;
    forall v ensures v in path <==> v in marks' && marks'[v] == InProgress {
      assert v in wider <==> v in path || v == id;
    }
    forall v ensures v in order' <==> IsFinished(marks', v) {
      assert v in order' <==> v in order || v == id;
    }
    forall i | 0 <= i < |order'| ensures DepsIn(cards, order'[i], order'[..i]) {
      if i < |order| {
        assert order'[..i] == order[..i] && DepsIn(cards, order[i], order[..i]);
      } else {
        assert order'[..i] == order;
      }
    }
  }

  lemma DepsAreListed(cards: Cards, ids: set<string>, marks: Marks, path: seq<string>, order: seq<string>, id: string)
    requires SearchState(cards, ids, marks, path, order)
    requires AllFinished(marks, DepsOf(cards, id)[..|DepsOf(cards, id)|])
    ensures DepsIn(cards, id, order)
  {
    var deps := DepsOf(cards, id);
    assert deps[..|deps|] == deps;
  }

  /** Meeting an id in progress closes a cycle. */
  lemma BackEdgeIsCycle(cards: Cards, path: seq<string>, id: string) returns (cycle: seq<string>)
    requires DepPath(cards, path) && id in path && id in DepsOf(cards, path[|path| - 1])
    ensures IsCycle(cards, cycle) && cycle[0] == id
  {
    var i :| 0 <= i < |path| && path[i] == id;
    cycle := path[i..] + [id];
    forall k | 0 < k < |cycle| ensures cycle[k] in DepsOf(cards, cycle[k - 1]) {
      assert k < |cycle| - 1 ==> path[i + k] in DepsOf(cards, path[i + k - 1]);
    }
  }

  method Visit(cards: Cards, id: string, before: Marks, ghost ids: set<string>, ghost path: seq<string>,
               ghost done: seq<string>)
    returns (through: Option<string>, marks: Marks, ghost order: seq<string>, ghost cycle: seq<string>)
    requires SearchState(cards, ids, before, path, done) && id in ids
    requires Closed(cards, ids) && (path == [] || id in DepsOf(cards, path[|path| - 1]))
    ensures through.None? ==> SearchState(cards, ids, marks, path, order)
    ensures through.None? ==> IsFinished(marks, id) && StayFinished(before, marks)
    ensures through.None? ==> before.Keys <= marks.Keys
    ensures through.Some? ==> IsCycle(cards, cycle) && cycle[0] == through.value
    decreases |ids - before.Keys|
  {
    marks, order, cycle := before, done, [];
    if id in marks {
      if marks[id] == Finished {
        return None, marks, order, cycle;
      }
      cycle := BackEdgeIsCycle(cards, path, id);
      return Some(id), marks, order, cycle;
    }
    EnterKeepsState(cards, ids, marks, path, order, id);
    marks := marks[id := InProgress];
    var deps := DepsOf(cards, id);
    for i := 0 to |deps|
      invariant SearchState(cards, ids, marks, path + [id], order) && StayFinished(before, marks)
      invariant before.Keys <= marks.Keys && id in marks
      invariant AllFinished(marks, deps[..i])
    {
      ghost var marks0 := marks;
      FewerLeft(ids, before.Keys, marks.Keys, id);
      through, marks, order, cycle := Visit(cards, deps[i], marks, ids, path + [id], order);
      if through.Some? {
        return through, marks, order, cycle;
      }
      OneMoreFinished(marks0, marks, deps, i);
    }
    DepsAreListed(cards, ids, marks, path + [id], order, id);
    FinishKeepsState(cards, ids, marks, path, order, id);
    marks := marks[id := Finished];
    order := order + [id];
    through := None;
  }

  lemma FewerLeft(ids: set<string>, before: set<string>, after: set<string>, id: string)
    requires before <= after && id in ids && id in after && id !in before
    ensures |ids - after| < |ids - before|
  {
    var a, b := ids - after, ids - before;
    assert id in b - a;
    assert b == a + (b - a);
    assert |b| == |a| + |b - a|;
  }

  /** When no two cards share an id, a self-dependency is a cycle too. */
  lemma AcyclicHasNoSelfDeps(cards: Cards)
    requires Unique(cards) && Acyclic(cards)
    ensures NoSelfDeps(cards)
  {
    forall c | c in cards ensures c.id !in c.deps {
      FindUnique(cards, c);
      if c.id in c.deps {
        assert IsCycle(cards, [c.id, c.id]);
      }
    }
  }

  /** Ok exactly when every dependency exists, no card names itself, and there is no cycle;
      then the finish order lists the cards dependencies first. */
  method Validate(cards: Cards) returns (verdict: Verdict, ghost order: seq<string>)
    ensures verdict.Ok? <==> DepsExist(cards) && NoSelfDeps(cards) && Acyclic(cards)
    ensures Unique(cards) ==> (verdict.Ok? <==> DepsExist(cards) && Acyclic(cards))
    ensures verdict.Ok? ==> TopoOrder(cards, order)
    ensures verdict.Cycle? ==> DepsExist(cards) && NoSelfDeps(cards)
    ensures verdict.Cycle? ==> exists walk :: IsCycle(cards, walk) && walk[0] == verdict.through
    ensures verdict.SelfDependency? ==> exists c :: c in cards && c.id == verdict.card && c.id in c.deps
    ensures verdict.UnknownDependency? ==>
      exists c :: c in cards && c.id == verdict.card && verdict.dep in c.deps && verdict.dep !in IdsOf(cards)
  {
    order := [];
    if Unique(cards) && Acyclic(cards) {
      AcyclicHasNoSelfDeps(cards);
    }
    verdict := CheckReferences(cards);
    if !verdict.Ok? {
      return;
    }
    ghost var ids := IdsOf(cards);
    assert Closed(cards, ids) by {
      forall id, d | d in DepsOf(cards, id) ensures d in ids {
        DepOfCard(cards, id, d);
      }
    }
    var marks: Marks := map[];
    for i := 0 to |cards|
      invariant SearchState(cards, ids, marks, [], order)
      invariant forall k :: 0 <= k < i ==> IsFinished(marks, cards[k].id)
    {
      assert cards[i] in cards;
      var through; ghost var cycle;
      through, marks, order, cycle := Visit(cards, cards[i].id, marks, ids, [], order);
      if through.Some? {
        return Cycle(through.value), order;
      }
    }
    assert (set id | id in order) == IdsOf(cards);
    TopoIsAcyclic(cards, order);
    verdict := Ok;
  }

  method CheckReferences(cards: Cards) returns (verdict: Verdict)
    ensures verdict.Ok? <==> DepsExist(cards) && NoSelfDeps(cards)
    ensures !verdict.Cycle?
    ensures verdict.SelfDependency? ==> exists c :: c in cards && c.id == verdict.card && c.id in c.deps
    ensures verdict.UnknownDependency? ==>
      exists c :: c in cards && c.id == verdict.card && verdict.dep in c.deps && verdict.dep !in IdsOf(cards)
  {
    var ids := IdsOf(cards);
    for i := 0 to |cards|
      invariant forall k :: 0 <= k < i ==> cards[k].id !in cards[k].deps && forall d :: d in cards[k].deps ==> d in ids
    {
      var c := cards[i];
      assert c in cards;
      for j := 0 to |c.deps|
        invariant forall k :: 0 <= k < j ==> c.deps[k] != c.id && c.deps[k] in ids
      {
        if c.deps[j] == c.id {
          return SelfDependency(c.id);
        }
        if c.deps[j] !in ids {
          return UnknownDependency(c.id, c.deps[j]);
        }
      }
    }
    verdict := Ok;
  }
}
