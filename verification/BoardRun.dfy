/** What a board run does to the cards, step by step: claiming, settling a reply, and the
    facts every step keeps.  Replies and verdicts are arbitrary. */
module BoardRun {
  import opened Text
  import opened BoardModel

  /** The run log: every claim carries the number of the batch it belongs to. */
  datatype Event =
    | Claimed(id: string, round: nat)
    | Finished(id: string)
    | Revised(id: string)
    | Retried(id: string)
    | GaveUp(id: string)

  /** Goal-mode rounds already used, per card. */
  type Used = map<string, nat>

  datatype RunState = RunState(cards: Cards, used: Used, events: seq<Event>)

  function UsedBy(used: Used, id: string): nat {
    if id in used then used[id] else 0
  }

  function GoalMax(c: Card): nat {
    if c.goalMaxTurns == 0 then 5 else c.goalMaxTurns
  }

  // ---- replacing one card ----

  function Put(cards: Cards, c: Card): Cards {
    if cards == [] then []
    else if cards[0].id == c.id then [c] + cards[1..]
    else [cards[0]] + Put(cards[1..], c)
  }

  lemma {:induction false} PutFind(cards: Cards, c: Card, id: string)
    ensures Find(Put(cards, c), id) == if id == c.id && Find(cards, id).Some? then Some(c) else Find(cards, id)
  {
    if cards != [] && cards[0].id != c.id {
      PutFind(cards[1..], c, id);
    }
  }

  lemma {:induction false} PutSameIds(cards: Cards, c: Card)
    ensures |Put(cards, c)| == |cards| && forall i :: 0 <= i < |cards| ==> Put(cards, c)[i].id == cards[i].id
  {
    if cards != [] && cards[0].id != c.id {
      PutSameIds(cards[1..], c);
      assert forall i :: 1 <= i < |cards| ==>
        Put(cards, c)[i] == Put(cards[1..], c)[i - 1] && cards[i] == cards[1..][i - 1];
    }
  }

  lemma PutIds(cards: Cards, c: Card)
    ensures IdsOf(Put(cards, c)) == IdsOf(cards)
    ensures Unique(cards) ==> Unique(Put(cards, c))
  {
    PutSameIds(cards, c);
    SameIdsSameSet(cards, Put(cards, c));
  }

  lemma SameIdsSameSet(a: Cards, b: Cards)
    requires |a| == |b| && forall i :: 0 <= i < |a| ==> a[i].id == b[i].id
    ensures IdsOf(a) == IdsOf(b)
  {
    forall id ensures id in IdsOf(a) <==> id in IdsOf(b) {
      if id in IdsOf(a) {
        var i :| 0 <= i < |a| && a[i].id == id;
        assert b[i] in b;
      }
      if id in IdsOf(b) {
        var i :| 0 <= i < |b| && b[i].id == id;
        assert a[i] in a;
      }
    }
  }

  // ---- how much work is left ----

  function Max0(n: int): nat {
    if n > 0 then n else 0
  }

  /** How many more times a card can be claimed: once, plus its goal rounds and retries left. */
  function Left(c: Card, used: nat): nat {
    var goal := if c.goal then Max0(GoalMax(c) - used) else 0;
    if c.status == Todo then 1 + goal + Max0(c.maxRetries - c.attempts)
    else if c.status == Doing then goal + Max0(c.maxRetries - c.attempts + 1)
    else 0
  }

  function TotalLeft(cards: Cards, used: Used): nat {
    if cards == [] then 0 else Left(cards[0], UsedBy(used, cards[0].id)) + TotalLeft(cards[1..], used)
  }

  lemma {:induction false} TotalElsewhere(cards: Cards, used: Used, id: string, n: nat)
    requires id !in IdsOf(cards)
    ensures TotalLeft(cards, used[id := n]) == TotalLeft(cards, used)
  {
    if cards != [] {
      assert cards == [cards[0]] + cards[1..];
      IdsCons(cards[0], cards[1..]);
      TotalElsewhere(cards[1..], used, id, n);
    }
  }

  /** Replacing a card moves the total by what that card's own share moved. */
  lemma {:induction false} PutTotal(cards: Cards, used: Used, c: Card, n: nat)
    requires Unique(cards) && Find(cards, c.id).Some?
    ensures TotalLeft(Put(cards, c), used[c.id := n]) ==
            TotalLeft(cards, used) - Left(Find(cards, c.id).value, UsedBy(used, c.id)) + Left(c, n)
  {
    assert cards == [cards[0]] + cards[1..];
    UniqueCons(cards[0], cards[1..]);
    if cards[0].id == c.id {
      TotalElsewhere(cards[1..], used, c.id, n);
      assert Put(cards, c)[1..] == cards[1..];
    } else {
      PutTotal(cards[1..], used, c, n);
      assert Put(cards, c)[1..] == Put(cards[1..], c);
    }
  }

  // ---- the two steps ----

  function ClaimCard(c: Card): Card {
    c.(status := Doing, attempts := c.attempts + 1)
  }

  function Claim(rs: RunState, c: Card, round: nat): RunState {
    rs.(cards := Put(rs.cards, ClaimCard(c)), events := rs.events + [Claimed(c.id, round)])
  }

  datatype WorkerReply = Replied(note: string) | WorkerFailed(error: string)

  /** A judge may be unavailable, accept, or send the card back. */
  datatype Judgement = NoJudge | Accept | SendBack

  /** Whether the judge is asked about this reply, given that a turn can be paid. */
  predicate JudgeWanted(c: Card, used: nat, reply: WorkerReply) {
    reply.Replied? && c.goal && used < GoalMax(c)
  }

  function SettledCard(c: Card, reply: WorkerReply, sentBack: bool): Card {
    match reply
    case Replied(note) =>
      if sentBack then c.(status := Todo, result := Some(note))
      else c.(status := Done, result := Some(note), blockKind := None)
    case WorkerFailed(error) =>
      c.(status := if c.attempts <= c.maxRetries then Todo else Blocked,
         blockKind := Some("transient"), result := Some(error))
  }

  function SettleEvent(c: Card, reply: WorkerReply, sentBack: bool): Event {
    match reply
    case Replied(_) => if sentBack then Revised(c.id) else Finished(c.id)
    case WorkerFailed(_) => if c.attempts <= c.maxRetries then Retried(c.id) else GaveUp(c.id)
  }

  function Settle(rs: RunState, c: Card, reply: WorkerReply, sentBack: bool): RunState {
    RunState(
      Put(rs.cards, SettledCard(c, reply, sentBack)),
      rs.used[c.id := UsedBy(rs.used, c.id) + if sentBack then 1 else 0],
      rs.events + [SettleEvent(c, reply, sentBack)])
  }

  // ---- what every step keeps ----

  function Claims(events: seq<Event>, id: string): nat {
    if events == [] then 0
    else Claims(events[..|events| - 1], id) +
         if events[|events| - 1].Claimed? && events[|events| - 1].id == id then 1 else 0
  }

  lemma ClaimsSnoc(events: seq<Event>, e: Event, id: string)
    ensures Claims(events + [e], id) == Claims(events, id) + if e.Claimed? && e.id == id then 1 else 0
  {
    assert (events + [e])[..|events|] == events;
  }

  /** A card as it was when the run started, and as it is now. */
  ghost predicate Tracks(s: Card, c: Card, used: nat, events: seq<Event>) {
    && c.id == s.id && c.deps == s.deps && c.priority == s.priority && c.scheduledAt == s.scheduledAt
    && c.maxRetries == s.maxRetries && c.goal == s.goal && c.goalMaxTurns == s.goalMaxTurns
    && (c.status == Done <==> s.status == Done || Finished(s.id) in events)
    && (s.status != Todo ==> c == s) && s.status != Doing
    && Claims(events, s.id) + Left(c, used) <= Left(s, 0)
    && (c.status == Doing || Finished(s.id) in events ==> Claims(events, s.id) > 0)
  }

  ghost predicate DoneBy(start: Cards, events: seq<Event>, id: string) {
    DepDone(start, id) || Finished(id) in events
  }

  /** Every claim came after all of its card's dependencies were done, and no two cards claimed
      in one batch depend on each other. */
  ghost predicate ClaimsInOrder(start: Cards, events: seq<Event>) {
    && (forall i :: 0 <= i < |events| && events[i].Claimed? ==> ClaimAfterDeps(start, events, i))
    && (forall i, j :: 0 <= i < |events| && 0 <= j < |events| ==> Independent(start, events[i], events[j]))
  }

  ghost predicate Independent(start: Cards, e: Event, f: Event) {
    e.Claimed? && f.Claimed? && e.round == f.round ==> e.id !in DepsOf(start, f.id)
  }

  ghost predicate ClaimAfterDeps(start: Cards, events: seq<Event>, i: nat)
    requires i < |events|
  {
    forall d :: d in DepsOf(start, events[i].id) ==> DoneBy(start, events[..i], d)
  }

  ghost predicate TracksAll(start: Cards, rs: RunState) {
    forall id :: id in IdsOf(start) ==>
      Find(start, id).Some? && Find(rs.cards, id).Some? &&
      Tracks(Find(start, id).value, Find(rs.cards, id).value, UsedBy(rs.used, id), rs.events)
  }

  ghost predicate RunInv(start: Cards, rs: RunState) {
    && Unique(start) && NoSelfDeps(start) && Unique(rs.cards) && IdsOf(rs.cards) == IdsOf(start)
    && TracksAll(start, rs) && ClaimsInOrder(start, rs.events)
  }

  /** Cards claimed in the current batch are all still in flight, and no batch is ahead of it. */
  ghost predicate BatchOpen(rs: RunState, round: nat) {
    forall e :: e in rs.events && e.Claimed? ==>
      && e.round <= round
      && (e.round == round ==> Find(rs.cards, e.id).Some? && Find(rs.cards, e.id).value.status == Doing)
  }

  lemma StartInv(start: Cards)
    requires Unique(start) && NoSelfDeps(start) && forall c :: c in start ==> c.status != Doing
    ensures RunInv(start, RunState(start, map[], []))
  {
    forall id | id in IdsOf(start) ensures Find(start, id).Some? && Find(start, id).value in start {
      FindSpec(start, id);
    }
  }

  lemma DoneIsDoneBy(start: Cards, rs: RunState, id: string)
    requires RunInv(start, rs)
    ensures DepDone(rs.cards, id) <==> DoneBy(start, rs.events, id) && id in IdsOf(start)
  {
    FindSpec(start, id);
    FindSpec(rs.cards, id);
    if id in IdsOf(start) {
      assert Tracks(Find(start, id).value, Find(rs.cards, id).value, UsedBy(rs.used, id), rs.events);
    }
  }

  // ---- claiming ----

  lemma ClaimTracks(s: Card, c: Card, used: nat, events: seq<Event>, e: Event)
    requires Tracks(s, c, used, events) && e.Claimed?
    ensures e.id != s.id ==> Tracks(s, c, used, events + [e])
    ensures e.id == s.id && c.status == Todo ==> Tracks(s, ClaimCard(c), used, events + [e])
  {
    ClaimsSnoc(events, e, s.id);
    assert Finished(s.id) in events + [e] <==> Finished(s.id) in events;
  }

  lemma ClaimKeepsTracks(start: Cards, rs: RunState, c: Card, round: nat)
    requires RunInv(start, rs) && Find(rs.cards, c.id) == Some(c) && c.status == Todo
    ensures TracksAll(start, Claim(rs, c, round))
  {
    var after := Claim(rs, c, round);
    forall id | id in IdsOf(start)
      ensures Find(start, id).Some? && Find(after.cards, id).Some? &&
              Tracks(Find(start, id).value, Find(after.cards, id).value, UsedBy(after.used, id), after.events)
    {
      PutFind(rs.cards, ClaimCard(c), id);
      var s, now := Find(start, id).value, Find(rs.cards, id).value;
      ClaimTracks(s, now, UsedBy(rs.used, id), rs.events, Claimed(c.id, round));
      FindSpec(start, id);
    }
  }

  lemma ClaimKeepsOrder(start: Cards, rs: RunState, c: Card, round: nat)
    requires RunInv(start, rs) && Find(rs.cards, c.id) == Some(c) && c.status == Todo
    requires forall d :: d in c.deps ==> DepDone(rs.cards, d)
    requires BatchOpen(rs, round)
    ensures ClaimsInOrder(start, rs.events + [Claimed(c.id, round)])
  {
    var e := Claimed(c.id, round);
    var events := rs.events + [e];
    FindSpec(rs.cards, c.id);
    assert Tracks(Find(start, c.id).value, c, UsedBy(rs.used, c.id), rs.events);
    assert DepsOf(start, c.id) == c.deps;
    assert events[..|rs.events|] == rs.events;
    forall d | d in c.deps ensures DoneBy(start, rs.events, d) {
      DoneIsDoneBy(start, rs, d);
    }
    forall i | 0 <= i < |events| && events[i].Claimed? ensures ClaimAfterDeps(start, events, i) {
      if i < |rs.events| {
        assert events[..i] == rs.events[..i];
        assert ClaimAfterDeps(start, rs.events, i);
      }
    }
    forall i | 0 <= i < |rs.events| ensures Independent(start, rs.events[i], e) && Independent(start, e, rs.events[i]) {
      NewClaimIndependent(start, rs, c, round, i);
    }
    assert Independent(start, e, e) by {
      FindSpec(start, c.id);
      assert Find(start, c.id).value in start;
    }
  }

  lemma NewClaimIndependent(start: Cards, rs: RunState, c: Card, round: nat, i: nat)
    requires RunInv(start, rs) && Find(rs.cards, c.id) == Some(c) && c.status == Todo
    requires DepsOf(start, c.id) == c.deps && forall d :: d in c.deps ==> DepDone(rs.cards, d)
    requires BatchOpen(rs, round) && i < |rs.events|
    ensures Independent(start, rs.events[i], Claimed(c.id, round))
    ensures Independent(start, Claimed(c.id, round), rs.events[i])
  {
    var f := rs.events[i];
    if f.Claimed? && f.round == round {
      assert f in rs.events;
      if c.id in DepsOf(start, f.id) {
        assert ClaimAfterDeps(start, rs.events, i);
        assert DoneBy(start, rs.events, c.id);
        FindSpec(rs.cards, c.id);
        DoneIsDoneBy(start, rs, c.id);
      }
    }
  }

  lemma ClaimKeepsInv(start: Cards, rs: RunState, c: Card, round: nat)
    requires RunInv(start, rs) && Find(rs.cards, c.id) == Some(c) && c.status == Todo
    requires forall d :: d in c.deps ==> DepDone(rs.cards, d)
    requires BatchOpen(rs, round)
    ensures RunInv(start, Claim(rs, c, round)) && BatchOpen(Claim(rs, c, round), round)
    ensures TotalLeft(Claim(rs, c, round).cards, rs.used) + 1 == TotalLeft(rs.cards, rs.used)
  {
    var after := Claim(rs, c, round);
    PutIds(rs.cards, ClaimCard(c));
    ClaimKeepsTracks(start, rs, c, round);
    ClaimKeepsOrder(start, rs, c, round);
    PutTotalSame(rs.cards, rs.used, ClaimCard(c));
    forall e | e in after.events && e.Claimed? && e.round == round
      ensures Find(after.cards, e.id).Some? && Find(after.cards, e.id).value.status == Doing
    {
      PutFind(rs.cards, ClaimCard(c), e.id);
    }
  }

  lemma PutTotalSame(cards: Cards, used: Used, c: Card)
    requires Unique(cards) && Find(cards, c.id).Some?
    ensures TotalLeft(Put(cards, c), used) ==
            TotalLeft(cards, used) - Left(Find(cards, c.id).value, UsedBy(used, c.id)) + Left(c, UsedBy(used, c.id))
  {
    PutTotal(cards, used, c, UsedBy(used, c.id));
    SameUsed(Put(cards, c), used, c.id);
  }

  lemma {:induction false} SameUsed(cards: Cards, used: Used, id: string)
    ensures TotalLeft(cards, used[id := UsedBy(used, id)]) == TotalLeft(cards, used)
  {
    if cards != [] {
      SameUsed(cards[1..], used, id);
    }
  }

  // ---- settling ----

  lemma SettleTracksOwn(s: Card, c: Card, used: nat, events: seq<Event>, reply: WorkerReply, sentBack: bool)
    requires Tracks(s, c, used, events) && c.status == Doing
    requires sentBack ==> JudgeWanted(c, used, reply)
    ensures Tracks(s, SettledCard(c, reply, sentBack), used + if sentBack then 1 else 0,
                   events + [SettleEvent(c, reply, sentBack)])
  {
    var e := SettleEvent(c, reply, sentBack);
    ClaimsSnoc(events, e, s.id);
    assert Finished(s.id) in events + [e] <==> Finished(s.id) in events || e == Finished(s.id);
  }

  lemma SettleTracksOther(s: Card, c: Card, used: nat, events: seq<Event>, e: Event)
    requires Tracks(s, c, used, events) && !e.Claimed? && e.id != s.id
    ensures Tracks(s, c, used, events + [e])
  {
    ClaimsSnoc(events, e, s.id);
    assert Finished(s.id) in events + [e] <==> Finished(s.id) in events;
  }

  lemma SettleKeepsOrder(start: Cards, events: seq<Event>, e: Event)
    requires ClaimsInOrder(start, events) && !e.Claimed?
    ensures ClaimsInOrder(start, events + [e])
  {
    var after := events + [e];
    forall i | 0 <= i < |after| && after[i].Claimed? ensures ClaimAfterDeps(start, after, i) {
      assert after[..i] == events[..i];
      assert ClaimAfterDeps(start, events, i);
    }
    forall i, j | 0 <= i < |after| && 0 <= j < |after| ensures Independent(start, after[i], after[j]) {
      if i < |events| && j < |events| {
        assert Independent(start, events[i], events[j]);
      }
    }
  }

  lemma SettleKeepsTracks(start: Cards, rs: RunState, c: Card, reply: WorkerReply, sentBack: bool)
    requires RunInv(start, rs) && Find(rs.cards, c.id) == Some(c) && c.status == Doing
    requires sentBack ==> JudgeWanted(c, UsedBy(rs.used, c.id), reply)
    ensures TracksAll(start, Settle(rs, c, reply, sentBack))
  {
    var after := Settle(rs, c, reply, sentBack);
    forall id | id in IdsOf(start)
      ensures Find(start, id).Some? && Find(after.cards, id).Some? &&
              Tracks(Find(start, id).value, Find(after.cards, id).value, UsedBy(after.used, id), after.events)
    {
      PutFind(rs.cards, SettledCard(c, reply, sentBack), id);
      FindSpec(start, id);
      var s, now := Find(start, id).value, Find(rs.cards, id).value;
      if id == c.id {
        SettleTracksOwn(s, c, UsedBy(rs.used, id), rs.events, reply, sentBack);
      } else {
        SettleTracksOther(s, now, UsedBy(rs.used, id), rs.events, SettleEvent(c, reply, sentBack));
      }
    }
  }

  lemma SettleKeepsInv(start: Cards, rs: RunState, c: Card, reply: WorkerReply, sentBack: bool, after: RunState)
    requires RunInv(start, rs) && Find(rs.cards, c.id) == Some(c) && c.status == Doing
    requires sentBack ==> JudgeWanted(c, UsedBy(rs.used, c.id), reply)
    requires after == Settle(rs, c, reply, sentBack)
    ensures RunInv(start, after) && TotalLeft(after.cards, after.used) <= TotalLeft(rs.cards, rs.used)
  {
    SettleKeepsTracks(start, rs, c, reply, sentBack);
    PutIds(rs.cards, SettledCard(c, reply, sentBack));
    SettleKeepsOrder(start, rs.events, SettleEvent(c, reply, sentBack));
    SettleGivesNothingBack(rs, c, reply, sentBack, after);
  }

  lemma SettleGivesNothingBack(rs: RunState, c: Card, reply: WorkerReply, sentBack: bool, after: RunState)
    requires Unique(rs.cards) && Find(rs.cards, c.id) == Some(c) && c.status == Doing
    requires sentBack ==> JudgeWanted(c, UsedBy(rs.used, c.id), reply)
    requires after == Settle(rs, c, reply, sentBack)
    ensures TotalLeft(after.cards, after.used) <= TotalLeft(rs.cards, rs.used)
  {
    var used := UsedBy(rs.used, c.id);
    SettleLowersLeft(c, used, reply, sentBack);
    PutTotal(rs.cards, rs.used, SettledCard(c, reply, sentBack), used + if sentBack then 1 else 0);
  }

  lemma SettleLowersLeft(c: Card, used: nat, reply: WorkerReply, sentBack: bool)
    requires c.status == Doing && (sentBack ==> JudgeWanted(c, used, reply))
    ensures Left(SettledCard(c, reply, sentBack), used + if sentBack then 1 else 0) <= Left(c, used)
    ensures SettledCard(c, reply, sentBack).id == c.id
  {
  }

  // ---- the log against the answers ----

  /** The run log says what the answers were: entry `k` of a finished or revised card had a reply, of a
      revised one a judge that sent it back, of a retried or given-up one a failure; and a finished card
      is done with the note of its reply. */
  ghost predicate LogTrue(reply: nat -> WorkerReply, judge: nat -> Judgement, rs: RunState) {
    forall k: nat :: k < |rs.events| ==> EntryTrue(reply, judge, rs.cards, rs.events[k], k)
  }

  ghost predicate EntryTrue(reply: nat -> WorkerReply, judge: nat -> Judgement, cards: Cards, e: Event, k: nat) {
    match e
    case Claimed(_, _) => true
    case Finished(id) =>
      reply(k).Replied? && Find(cards, id).Some? && Find(cards, id).value.status == Done
      && Find(cards, id).value.result == Some(reply(k).note)
    case Revised(_) => reply(k).Replied? && judge(k).SendBack?
    case Retried(_) => reply(k).WorkerFailed?
    case GaveUp(id) => reply(k).WorkerFailed?
  }

  /** Replacing a card that is not done, or writing it down as done, leaves the log true. */
  lemma PutKeepsLogTrue(reply: nat -> WorkerReply, judge: nat -> Judgement, rs: RunState, c: Card, e: Event, used: Used)
    requires LogTrue(reply, judge, rs) && Find(rs.cards, c.id).Some? && Find(rs.cards, c.id).value.status != Done
    requires EntryTrue(reply, judge, Put(rs.cards, c), e, |rs.events|)
    ensures LogTrue(reply, judge, RunState(Put(rs.cards, c), used, rs.events + [e]))
  {
    var after := RunState(Put(rs.cards, c), used, rs.events + [e]);
    forall k: nat | k < |after.events| ensures EntryTrue(reply, judge, after.cards, after.events[k], k) {
      if k < |rs.events| {
        assert EntryTrue(reply, judge, rs.cards, rs.events[k], k);
        PutFind(rs.cards, c, rs.events[k].id);
      }
    }
  }

  // ---- batches ----

  /** A ready card as listed at the head of the loop is still there, unclaimed, with its
      dependencies done. */
  ghost predicate StillReady(cards: Cards, c: Card) {
    Find(cards, c.id) == Some(c) && c.status == Todo && forall d :: d in c.deps ==> DepDone(cards, d)
  }

  lemma ClaimKeepsReady(cards: Cards, c: Card, other: Card)
    requires StillReady(cards, c) && StillReady(cards, other) && c.id != other.id
    ensures StillReady(Put(cards, ClaimCard(c)), other)
  {
    PutFind(cards, ClaimCard(c), other.id);
    forall d | d in other.deps ensures DepDone(Put(cards, ClaimCard(c)), d) {
      PutFind(cards, ClaimCard(c), d);
    }
  }

  lemma ReadyIsStillReady(cards: Cards, now: int, c: Card)
    requires Unique(cards) && c in Ready(cards, now)
    ensures StillReady(cards, c)
  {
    ReadySpec(cards, now);
    FindUnique(cards, c);
  }

  /** The cards in flight are exactly these. */
  ghost predicate InFlight(cards: Cards, ids: set<string>) {
    forall id :: Find(cards, id).Some? ==> (Find(cards, id).value.status == Doing <==> id in ids)
  }

  lemma PutInFlight(cards: Cards, c: Card, ids: set<string>)
    requires InFlight(cards, ids)
    ensures InFlight(Put(cards, c), if c.status == Doing then ids + {c.id} else ids - {c.id})
  {
    forall id | Find(Put(cards, c), id).Some?
      ensures Find(Put(cards, c), id).value.status == Doing <==>
              id in if c.status == Doing then ids + {c.id} else ids - {c.id}
    {
      PutFind(cards, c, id);
    }
  }

  ghost predicate AllStillReady(cards: Cards, ready: Cards, k: nat) {
    forall j :: k <= j < |ready| ==> StillReady(cards, ready[j])
  }

  /** Claiming the next card of a batch leaves the later ones ready. */
  lemma BatchStep(cards: Cards, ready: Cards, batch: seq<string>, k: nat)
    requires k < |ready| && Unique(ready) && AllStillReady(cards, ready, k) && InFlight(cards, SetOf(batch))
    ensures AllStillReady(Put(cards, ClaimCard(ready[k])), ready, k + 1)
    ensures InFlight(Put(cards, ClaimCard(ready[k])), SetOf(batch + [ready[k].id]))
  {
    forall j | k < j < |ready| ensures StillReady(Put(cards, ClaimCard(ready[k])), ready[j]) {
      ClaimKeepsReady(cards, ready[k], ready[j]);
    }
    PutInFlight(cards, ClaimCard(ready[k]), SetOf(batch));
    assert SetOf(batch + [ready[k].id]) == SetOf(batch) + {ready[k].id};
  }

  ghost predicate RoundsUpTo(events: seq<Event>, n: nat) {
    forall e :: e in events && e.Claimed? ==> e.round <= n
  }

  lemma StartIdle(start: Cards)
    requires forall c :: c in start ==> c.status != Doing
    ensures InFlight(start, {})
  {
    forall id | Find(start, id).Some? ensures Find(start, id).value.status != Doing {
      FindSpec(start, id);
    }
  }

  lemma ReadyBatch(cards: Cards, now: int)
    requires Unique(cards)
    ensures Unique(Ready(cards, now)) && AllStillReady(cards, Ready(cards, now), 0)
  {
    ReadySpec(cards, now);
    forall j | 0 <= j < |Ready(cards, now)| ensures StillReady(cards, Ready(cards, now)[j]) {
      ReadyIsStillReady(cards, now, Ready(cards, now)[j]);
    }
  }

  // ---- boards nobody parks ----

  /** Waiting, in flight or done: not parked, blocked or archived. */
  predicate Active(c: Card) {
    c.status == Todo || c.status == Doing || c.status == Done
  }

  predicate AllActive(cards: Cards) {
    forall c :: c in cards ==> Active(c)
  }

  lemma {:induction false} PutKeepsActive(cards: Cards, c: Card)
    requires AllActive(cards) && Active(c)
    ensures AllActive(Put(cards, c))
  {
    if cards != [] {
      assert cards == [cards[0]] + cards[1..];
      PutKeepsActive(cards[1..], c);
    }
  }

  /** A card that is due at every reading of the clock. */
  ghost predicate AlwaysDue(c: Card, clock: nat -> int) {
    forall k: nat :: Due(c, clock(k))
  }

  /** With nothing in flight, an active and due board that is not complete has something ready. */
  lemma ActiveBoardIsReady(start: Cards, rs: RunState, clock: nat -> int, k: nat, order: seq<string>)
    requires RunInv(start, rs) && InFlight(rs.cards, {}) && TopoOrder(start, order) && start != []
    requires AllActive(rs.cards) && (forall c :: c in start ==> AlwaysDue(c, clock)) && !IsComplete(rs.cards)
    ensures Ready(rs.cards, clock(k)) != []
  {
    OrderSurvives(start, rs, order);
    forall c | c in rs.cards ensures c.status == Done || (c.status == Todo && Due(c, clock(k))) {
      FindUnique(rs.cards, c);
      assert c.id in IdsOf(rs.cards) && c.id in IdsOf(start);
      FindSpec(start, c.id);
      assert Tracks(Find(start, c.id).value, c, UsedBy(rs.used, c.id), rs.events);
      assert AlwaysDue(Find(start, c.id).value, clock);
    }
    assert start[0] in start && start[0].id in IdsOf(rs.cards);
    DueBoardDrains(rs.cards, clock(k), order);
  }

  // ---- consequences ----

  /** What the invariant says about any card at any time: dependencies are untouched, what was
      done stays done, and the card was claimed at most as often as its limits allow. */
  lemma CardOverRun(start: Cards, rs: RunState, id: string)
    requires RunInv(start, rs) && id in IdsOf(start)
    ensures Find(start, id).Some? && Find(rs.cards, id).Some?
    ensures DepsOf(rs.cards, id) == DepsOf(start, id)
    ensures Find(start, id).value.status == Done ==> Find(rs.cards, id).value.status == Done
    ensures Claims(rs.events, id) <= Left(Find(start, id).value, 0)
    ensures var c := Find(start, id).value;
            var rounds := if !c.goal then 0 else if c.goalMaxTurns == 0 then 5 else c.goalMaxTurns;
            var retries := if c.maxRetries > c.attempts then c.maxRetries - c.attempts else 0;
            Claims(rs.events, id) <= if c.status == Todo then 1 + rounds + retries else 0
  {
    FindSpec(start, id);
    assert Tracks(Find(start, id).value, Find(rs.cards, id).value, UsedBy(rs.used, id), rs.events);
  }

  lemma OrderSurvives(start: Cards, rs: RunState, order: seq<string>)
    requires RunInv(start, rs) && TopoOrder(start, order)
    ensures TopoOrder(rs.cards, order)
  {
    forall i | 0 <= i < |order| ensures DepsIn(rs.cards, order[i], order[..i]) {
      assert DepsIn(start, order[i], order[..i]);
      assert order[i] in (set id | id in order);
      CardOverRun(start, rs, order[i]);
    }
  }

  /** With nothing in flight and nothing ready, every Todo card waits for a held one. */
  lemma StuckBoard(start: Cards, rs: RunState, now: int, order: seq<string>)
    requires RunInv(start, rs) && InFlight(rs.cards, {}) && TopoOrder(start, order) && Ready(rs.cards, now) == []
    ensures forall c :: c in rs.cards && c.status == Todo ==> exists chain :: HeldBehind(rs.cards, now, c.id, chain)
  {
    OrderSurvives(start, rs, order);
    ReadySpec(rs.cards, now);
    forall c | c in rs.cards ensures c.status != Doing && !IsReady(rs.cards, now, c) {
      FindUnique(rs.cards, c);
    }
    forall c | c in rs.cards && c.status == Todo ensures exists chain :: HeldBehind(rs.cards, now, c.id, chain) {
      FindUnique(rs.cards, c);
      assert c.id in IdsOf(rs.cards) && c.id in (set id | id in order);
      var i :| 0 <= i < |order| && order[i] == c.id;
      var chain := StuckForAReason(rs.cards, now, order, i);
    }
  }

  /** A card finished in the run was claimed in it, and at each claim every dependency was
      already done: before the run, or finished earlier in it. */
  lemma FinishedAfterDeps(start: Cards, rs: RunState, id: string) returns (i: nat)
    requires RunInv(start, rs) && Finished(id) in rs.events && id in IdsOf(start)
    ensures i < |rs.events| && rs.events[i].Claimed? && rs.events[i].id == id
    ensures forall j, d ::
              0 <= j < |rs.events| && rs.events[j].Claimed? && rs.events[j].id == id && d in DepsOf(start, id) ==>
                DoneBy(start, rs.events[..j], d)
  {
    FindSpec(start, id);
    assert Tracks(Find(start, id).value, Find(rs.cards, id).value, UsedBy(rs.used, id), rs.events);
    i := SomeClaim(rs.events, id);
    forall j, d | 0 <= j < |rs.events| && rs.events[j].Claimed? && rs.events[j].id == id && d in DepsOf(start, id)
      ensures DoneBy(start, rs.events[..j], d)
    {
      assert ClaimAfterDeps(start, rs.events, j);
    }
  }

  lemma {:induction false} SomeClaim(events: seq<Event>, id: string) returns (i: nat)
    requires Claims(events, id) > 0
    ensures i < |events| && events[i].Claimed? && events[i].id == id
    decreases |events|
  {
    i := |events| - 1;
    if !(events[i].Claimed? && events[i].id == id) {
      i := SomeClaim(events[..i], id);
    }
  }
}
