/** The board dispatcher: batches of ready cards are claimed, sent out, and settled until the
    board is complete, stuck, or out of budget. */
module BoardDispatch {
  import opened Text
  import opened Budget
  import opened BoardModel
  import opened BoardEdits
  import opened BoardRun
  import opened BoardValidate

  /** What the outside world answers, indexed by loop head or by the length of the run log. */
  datatype Environment = Environment(
    clock: nat -> int,
    stopped: nat -> bool,
    resolves: nat -> bool,
    saves: nat -> bool,
    reply: nat -> WorkerReply,
    judge: nat -> Judgement)
  {
    /** No worker ever fails. */
    ghost predicate AllReply() {
      forall k: nat :: reply(k).Replied?
    }

    /** Nothing stops the run, every worker is found and every save succeeds. */
    ghost predicate Calm() {
      && (forall k: nat :: !stopped(k)) && (forall k: nat :: resolves(k)) && (forall k: nat :: saves(k))
    }
  }

  datatype RunEnd = TickCeiling | Stopped | NoTurns | BoardComplete | NothingReady | WorkerMissing | SaveFailed

  ghost predicate Drainable(start: Cards, env: Environment) {
    start != [] && AllActive(start) && env.AllReply() && forall c :: c in start ==> AlwaysDue(c, env.clock)
  }

  /** The run is left in peace, with more ticks than there is work and more than twice as many turns. */
  ghost predicate Ample(start: Cards, env: Environment, ticks: nat, turns: nat) {
    Drainable(start, env) && env.Calm() && ticks > TotalLeft(start, map[]) && turns > 2 * TotalLeft(start, map[])
  }

  /** Where a batch stands: the claimed cards are a prefix of the ready ones and exactly they are in
      flight, and the rest of the list is still ready. */
  ghost predicate Claiming(start: Cards, rs: RunState, ready: Cards, batch: seq<string>, round: nat) {
    && RunInv(start, rs) && BatchOpen(rs, round) && Unique(ready)
    && |batch| <= |ready| && batch == IdsInOrder(ready[..|batch|])
    && InFlight(rs.cards, SetOf(batch)) && AllStillReady(rs.cards, ready, |batch|)
    && (forall id :: id in batch ==> id in IdsOf(start))
    && ClaimedUpTo(rs.cards, ready, |batch|)
  }

  /** The first `n` ready cards are in flight with one more attempt and otherwise as they were. */
  ghost predicate ClaimedUpTo(cards: Cards, ready: Cards, n: nat) {
    forall j :: 0 <= j < n <= |ready| ==>
      Find(cards, ready[j].id) == Some(ready[j].(status := Doing, attempts := ready[j].attempts + 1))
  }

  lemma ClaimOneMore(cards: Cards, ready: Cards, n: nat)
    requires n < |ready| && Unique(ready) && ClaimedUpTo(cards, ready, n) && Find(cards, ready[n].id).Some?
    ensures ClaimedUpTo(Put(cards, ClaimCard(ready[n])), ready, n + 1)
  {
    forall j | 0 <= j < n + 1
      ensures Find(Put(cards, ClaimCard(ready[n])), ready[j].id) ==
              Some(ready[j].(status := Doing, attempts := ready[j].attempts + 1))
    {
      PutFind(cards, ClaimCard(ready[n]), ready[j].id);
    }
  }

  lemma ClaimStep(start: Cards, rs: RunState, ready: Cards, batch: seq<string>, round: nat, after: RunState)
    requires Claiming(start, rs, ready, batch, round) && |batch| < |ready|
    requires after == Claim(rs, ready[|batch|], round)
    ensures Claiming(start, after, ready, batch + [ready[|batch|].id], round)
    ensures TotalLeft(after.cards, after.used) + 1 == TotalLeft(rs.cards, rs.used)
    ensures AllActive(rs.cards) ==> AllActive(after.cards)
  {
    var c := ready[|batch|];
    assert StillReady(rs.cards, c);
    FindSpec(rs.cards, c.id);
    ClaimOneMore(rs.cards, ready, |batch|);
    BatchStep(rs.cards, ready, batch, |batch|);
    ClaimKeepsInv(start, rs, c, round);
    IdsNext(ready, |batch|);
    if AllActive(rs.cards) {
      PutKeepsActive(rs.cards, ClaimCard(c));
    }
  }

  /** The card after its answer: a failure sends it back while it has retries left and blocks it
      otherwise, with the error for its result; a reply finishes it with the note, or leaves it to do
      with the note if the judge sent it back.  Nothing else about it changes. */
  predicate SettledAs(c: Card, settled: Card, reply: WorkerReply, note: Event) {
    && settled.id == c.id && settled.deps == c.deps && settled.priority == c.priority
    && settled.attempts == c.attempts && settled.scheduledAt == c.scheduledAt && settled.maxRetries == c.maxRetries
    && settled.goal == c.goal && settled.goalMaxTurns == c.goalMaxTurns
    && (reply.WorkerFailed? ==>
          && settled.result == Some(reply.error) && settled.blockKind == Some("transient")
          && (c.attempts <= c.maxRetries ==> settled.status == Todo && note == Retried(c.id))
          && (c.attempts > c.maxRetries ==> settled.status == Blocked && note == GaveUp(c.id)))
    && (reply.Replied? ==>
          && settled.result == Some(reply.note)
          && (note == Event.Finished(c.id) || note == Revised(c.id))
          && (note.Finished? ==> settled.status == Done && settled.blockKind.None?)
          && (note.Revised? ==> settled.status == Todo && settled.blockKind == c.blockKind))
  }

  /** The log has grown by one entry for each of the first `n` cards of the batch, in order. */
  ghost predicate SettledInOrder(batch: seq<string>, n: nat, before: seq<Event>, after: seq<Event>) {
    && n <= |batch| && |after| == |before| + n && after[..|before|] == before
    && forall j :: 0 <= j < n ==> !EntryFor(before, after, j).Claimed? && EntryFor(before, after, j).id == batch[j]
  }

  /** The `j`-th entry behind those of `before`. */
  function EntryFor(before: seq<Event>, after: seq<Event>, j: nat): Event
    requires |before| + j < |after|
  {
    after[|before| + j]
  }

  lemma SettledOneMore(batch: seq<string>, n: nat, before: seq<Event>, logged: seq<Event>, note: Event)
    requires SettledInOrder(batch, n, before, logged) && n < |batch| && !note.Claimed? && note.id == batch[n]
    ensures SettledInOrder(batch, n + 1, before, logged + [note])
  {
    var after := logged + [note];
    assert after[..|before|] == logged[..|before|];
    forall j | 0 <= j < n + 1
      ensures !EntryFor(before, after, j).Claimed? && EntryFor(before, after, j).id == batch[j]
    {
      assert j < n ==> EntryFor(before, after, j) == EntryFor(before, logged, j);
    }
  }

  lemma RestOfBatch(batch: seq<string>, k: nat)
    requires k < |batch| && Distinct(batch)
    ensures SetOf(batch[k..]) - {batch[k]} == SetOf(batch[k + 1..])
  {
    assert batch[k..] == [batch[k]] + batch[k + 1..];
  }

  lemma SettleIsTrue(env: Environment, rs: RunState, c: Card, reply: WorkerReply, sentBack: bool)
    requires reply == env.reply(|rs.events|) && Find(rs.cards, c.id) == Some(c) && c.status == Doing
    requires sentBack ==> reply.Replied? && env.judge(|rs.events|).SendBack?
    ensures SettledAs(c, SettledCard(c, reply, sentBack), reply, SettleEvent(c, reply, sentBack))
    ensures LogTrue(env.reply, env.judge, rs) ==> LogTrue(env.reply, env.judge, Settle(rs, c, reply, sentBack))
  {
    var c', e := SettledCard(c, reply, sentBack), SettleEvent(c, reply, sentBack);
    PutFind(rs.cards, c', c.id);
    if LogTrue(env.reply, env.judge, rs) {
      PutKeepsLogTrue(env.reply, env.judge, rs, c', e, Settle(rs, c, reply, sentBack).used);
    }
  }

  lemma ClaimIsTrue(env: Environment, start: Cards, rs: RunState, ready: Cards, batch: seq<string>, round: nat)
    requires Claiming(start, rs, ready, batch, round) && |batch| < |ready|
    ensures LogTrue(env.reply, env.judge, rs) ==> LogTrue(env.reply, env.judge, Claim(rs, ready[|batch|], round))
  {
    var c := ready[|batch|];
    assert StillReady(rs.cards, c);
    if LogTrue(env.reply, env.judge, rs) {
      PutKeepsLogTrue(env.reply, env.judge, rs, ClaimCard(c), Claimed(c.id, round), rs.used);
    }
  }

  class Dispatcher {
    const budget: RunBudget
    const env: Environment
    var state: RunState
    var sends: nat
    var heads: nat

    /** Every message sent was paid for. */
    ghost predicate Valid()
      reads this, budget
    {
      budget.Valid() && sends <= budget.Spent()
    }

    constructor (cards: Cards, caps: Caps, env: Environment)
      ensures this.env == env && fresh(budget) && budget.caps == Clamp(caps)
      ensures Valid() && sends == 0 && state == RunState(cards, map[], [])
      ensures budget.ticksRemaining == budget.caps.maxTicks && budget.turnsRemaining == budget.caps.maxTotalTurns
    {
      this.env := env;
      this.budget := new RunBudget(caps);
      state, sends, heads := RunState(cards, map[], []), 0, 0;
    }

    /** Spend a turn and claim, card by card, up to the parallelism cap. */
    method ClaimBatch(ready: Cards, round: nat, ghost start: Cards) returns (batch: seq<string>, missing: bool)
      requires Valid() && RunInv(start, state) && BatchOpen(state, round) && InFlight(state.cards, {})
      requires Unique(ready) && AllStillReady(state.cards, ready, 0)
      modifies this`state, budget`turnsRemaining
      ensures Valid() && RunInv(start, state) && budget.Spent() >= old(budget.Spent()) + |batch|
      ensures InFlight(state.cards, SetOf(batch)) && Distinct(batch)
      ensures |batch| <= |ready| && batch == IdsInOrder(ready[..|batch|])
      ensures |batch| <= Max(budget.caps.maxParallel, 1)
      ensures RoundsUpTo(state.events, round) && forall id :: id in batch ==> id in IdsOf(start)
      ensures TotalLeft(state.cards, state.used) + |batch| == old(TotalLeft(state.cards, state.used))
      ensures ready != [] && old(budget.turnsRemaining) > 0 && !missing ==> batch != []
      ensures !missing ==> budget.Spent() == old(budget.Spent()) + |batch|
      ensures missing ==> !env.Calm()
      ensures old(AllActive(state.cards)) ==> AllActive(state.cards)
      ensures ClaimedUpTo(state.cards, ready, |batch|)
      ensures old(LogTrue(env.reply, env.judge, state)) ==> LogTrue(env.reply, env.judge, state)
    {
      batch, missing := [], false;
      var limit := Max(budget.caps.maxParallel, 1);
      ghost var left := TotalLeft(state.cards, state.used);
      while |batch| < |ready| && |batch| < limit
        invariant Valid() && Claiming(start, state, ready, batch, round)
        invariant |batch| <= limit && budget.Spent() == old(budget.Spent()) + |batch|
        invariant TotalLeft(state.cards, state.used) + |batch| == left
        invariant old(AllActive(state.cards)) ==> AllActive(state.cards)
        invariant old(LogTrue(env.reply, env.judge, state)) ==> LogTrue(env.reply, env.judge, state)
      {
        var ok := budget.SpendTurn();
        if !ok {
          break;
        }
        if !env.resolves(|state.events|) {
          missing := true;
          break;
        }
        var c := ready[|batch|];
        var next := Claim(state, c, round);
        ClaimStep(start, state, ready, batch, round, next);
        ClaimIsTrue(env, start, state, ready, batch, round);
        state := next;
        batch := batch + [c.id];
      }
      PrefixDistinct(ready, |batch|);
    }

    /** In goal mode, pay for a verdict if rounds and turns are left; no judge means acceptance. */
    method AskJudge(c: Card, reply: WorkerReply) returns (sentBack: bool)
      requires Valid()
      modifies this`sends, budget`turnsRemaining
      ensures Valid() && budget.Spent() - sends >= old(budget.Spent() - sends)
      ensures budget.Spent() <= old(budget.Spent()) + 1
      ensures sentBack <==>
        && reply.Replied? && c.goal && UsedBy(state.used, c.id) < (if c.goalMaxTurns == 0 then 5 else c.goalMaxTurns)
        && old(budget.turnsRemaining) > 0 && env.judge(|state.events|) == SendBack
    {
      sentBack := false;
      if JudgeWanted(c, UsedBy(state.used, c.id), reply) {
        var ok := budget.SpendTurn();
        if ok {
          var verdict := env.judge(|state.events|);
          if !verdict.NoJudge? {
            sends := sends + 1;
            sentBack := verdict.SendBack?;
          }
        }
      }
    }

    /** Apply one worker's answer. */
    method SettleOne(id: string, ghost start: Cards) returns (ghost settled: Card, ghost note: Event)
      requires Valid() && RunInv(start, state)
      requires Find(state.cards, id).Some? && Find(state.cards, id).value.status == Doing
      modifies this`state, this`sends, budget`turnsRemaining
      ensures Valid() && RunInv(start, state) && budget.Spent() - sends >= old(budget.Spent() - sends)
      ensures budget.Spent() <= old(budget.Spent()) + 1
      ensures TotalLeft(state.cards, state.used) <= old(TotalLeft(state.cards, state.used))
      ensures settled.id == id && settled.status != Doing && state.cards == Put(old(state.cards), settled)
      ensures !note.Claimed? && state.events == old(state.events) + [note]
      ensures env.reply(|old(state.events)|).Replied? ==> Active(settled)
      ensures old(LogTrue(env.reply, env.judge, state)) ==> LogTrue(env.reply, env.judge, state)
      ensures
        var c, k := Find(old(state.cards), id).value, |old(state.events)|;
        && SettledAs(c, settled, env.reply(k), note)
        && (note.Revised? <==>
              && env.reply(k).Replied? && c.goal && old(budget.turnsRemaining) > 0 && env.judge(k).SendBack?
              && UsedBy(old(state.used), id) < (if c.goalMaxTurns == 0 then 5 else c.goalMaxTurns))
        && UsedBy(state.used, id) == UsedBy(old(state.used), id) + (if note.Revised? then 1 else 0)
    {
      var c := Find(state.cards, id).value;
      FindSpec(state.cards, id);
      var reply := env.reply(|state.events|);
      var sentBack := AskJudge(c, reply);
      settled, note := SettledCard(c, reply, sentBack), SettleEvent(c, reply, sentBack);
      var next := Settle(state, c, reply, sentBack);
      SettleKeepsInv(start, state, c, reply, sentBack, next);
      SettleIsTrue(env, state, c, reply, sentBack);
      state := next;
    }

    /** Send the whole batch out, then settle the answers in batch order. */
    method SettleBatch(batch: seq<string>, ghost round: nat, ghost start: Cards)
      requires Valid() && RunInv(start, state) && sends + |batch| <= budget.Spent()
      requires Distinct(batch) && InFlight(state.cards, SetOf(batch))
      requires RoundsUpTo(state.events, round) && forall id :: id in batch ==> id in IdsOf(start)
      modifies this`state, this`sends, budget`turnsRemaining
      ensures Valid() && RunInv(start, state) && InFlight(state.cards, {}) && RoundsUpTo(state.events, round)
      ensures TotalLeft(state.cards, state.used) <= old(TotalLeft(state.cards, state.used))
      ensures budget.Spent() <= old(budget.Spent()) + |batch|
      ensures env.AllReply() && old(AllActive(state.cards)) ==> AllActive(state.cards)
      ensures old(LogTrue(env.reply, env.judge, state)) ==> LogTrue(env.reply, env.judge, state)
      ensures SettledInOrder(batch, |batch|, old(state.events), state.events)
    {
      sends := sends + |batch|;
      ghost var events, left, spent := state.events, TotalLeft(state.cards, state.used), budget.Spent();
      ghost var active, true0 := AllActive(state.cards), LogTrue(env.reply, env.judge, state);
      for k := 0 to |batch|
        invariant Valid() && RunInv(start, state)
        invariant InFlight(state.cards, SetOf(batch[k..]))
        invariant RoundsUpTo(state.events, round) && budget.Spent() <= spent + k
        invariant TotalLeft(state.cards, state.used) <= left
        invariant env.AllReply() && active ==> AllActive(state.cards)
        invariant true0 ==> LogTrue(env.reply, env.judge, state)
        invariant SettledInOrder(batch, k, events, state.events)
      {
        ghost var logged := state.events;
        assert batch[k] in batch;
        ghost var note := SettleNext(batch, k, round, start);
        SettledOneMore(batch, k, events, logged, note);
      }
    }

    /** Apply the answer for the `k`-th card of a batch. */
    method SettleNext(batch: seq<string>, k: nat, ghost round: nat, ghost start: Cards) returns (ghost note: Event)
      requires Valid() && RunInv(start, state) && k < |batch| && Distinct(batch) && batch[k] in IdsOf(start)
      requires InFlight(state.cards, SetOf(batch[k..])) && RoundsUpTo(state.events, round)
      modifies this`state, this`sends, budget`turnsRemaining
      ensures Valid() && RunInv(start, state)
      ensures InFlight(state.cards, SetOf(batch[k + 1..])) && RoundsUpTo(state.events, round)
      ensures budget.Spent() <= old(budget.Spent()) + 1
      ensures TotalLeft(state.cards, state.used) <= old(TotalLeft(state.cards, state.used))
      ensures env.AllReply() && old(AllActive(state.cards)) ==> AllActive(state.cards)
      ensures old(LogTrue(env.reply, env.judge, state)) ==> LogTrue(env.reply, env.judge, state)
      ensures !note.Claimed? && note.id == batch[k] && state.events == old(state.events) + [note]
    {
      ghost var cards := state.cards;
      assert batch[k] in batch[k..];
      FindSpec(state.cards, batch[k]);
      ghost var c;
      c, note := SettleOne(batch[k], start);
      PutInFlight(cards, c, SetOf(batch[k..]));
      if AllActive(cards) && Active(c) {
        PutKeepsActive(cards, c);
      }
      RestOfBatch(batch, k);
    }

    /** The stop conditions at the head of the loop, in their order. */
    method CheckHead() returns (end: Option<RunEnd>)
      requires Valid()
      modifies this`heads, budget`ticksRemaining
      ensures Valid() && heads == old(heads) + 1
      ensures end == Some(BoardComplete) ==> AllDone(state.cards)
      ensures end.None? ==> budget.turnsRemaining > 0 && !IsComplete(state.cards)
      ensures end != Some(NothingReady) && end != Some(WorkerMissing) && end != Some(SaveFailed)
      ensures budget.ticksRemaining + 1 >= old(budget.ticksRemaining)
      ensures end == Some(TickCeiling) ==> old(budget.ticksRemaining) == 0
      ensures end == Some(Stopped) ==> env.stopped(heads)
      ensures end == Some(NoTurns) ==> budget.turnsRemaining == 0
      ensures end.None? ==> !env.stopped(heads) && old(budget.ticksRemaining) > 0 && !AllDone(state.cards)
    {
      heads := heads + 1;
      var ticked := budget.Tick();
      if !ticked {
        return Some(TickCeiling);
      }
      if env.stopped(heads) {
        return Some(Stopped);
      }
      if budget.turnsRemaining == 0 {
        return Some(NoTurns);
      }
      if IsComplete(state.cards) {
        return Some(BoardComplete);
      }
      return None;
    }

    /** The dispatch loop.  It ends whatever the world answers, even if the tick and turn budgets
        never bite: each batch uses up claims that nothing gives back.  Every exit but a missing
        worker or a failed save leaves no card in flight, and a run that ends with nothing ready
        ends with every Todo card waiting for a held one.  A board of active, due cards whose
        workers always reply never ends that way, however often the judge sends cards back; left
        in peace, with more ticks than there is work and more than twice as many turns, it is
        completed.  Whatever it did, the log is true: what it calls finished had a reply, and the card
        is done with that reply's note. */
    method Run(ghost start: Cards, ghost order: seq<string>) returns (end: RunEnd)
      requires Valid() && sends == 0 && state == RunState(start, map[], []) && TopoOrder(start, order)
      requires Unique(start) && NoSelfDeps(start) && forall c :: c in start ==> c.status != Doing
      modifies this, budget
      ensures Valid() && RunInv(start, state) && LogTrue(env.reply, env.judge, state)
      ensures sends <= budget.Spent() <= budget.caps.maxTotalTurns <= CEILING.maxTotalTurns
      ensures end != WorkerMissing && end != SaveFailed ==> InFlight(state.cards, {})
      ensures end == BoardComplete ==> AllDone(state.cards)
      ensures end == NothingReady ==>
        forall c :: c in state.cards && c.status == Todo ==>
          exists chain :: HeldBehind(state.cards, env.clock(heads), c.id, chain)
      ensures Drainable(start, env) ==> end != NothingReady
      ensures Ample(start, env, old(budget.ticksRemaining), old(budget.turnsRemaining)) ==> end == BoardComplete
    {
      StartInv(start);
      StartIdle(start);
      ghost var work := TotalLeft(start, map[]);
      ghost var ticks, turns := budget.ticksRemaining, budget.turnsRemaining;
      var halt: Option<RunEnd> := None;
      while halt.None?
        invariant Valid() && RunInv(start, state) && LogTrue(env.reply, env.judge, state)
        invariant halt.None? ==> AtHead(start, order, work, ticks, turns)
        invariant halt.Some? ==> Ended(start, order, work, ticks, turns, halt.value)
        decreases halt.None?, TotalLeft(state.cards, state.used)
      {
        halt := OneRound(start, order, work, ticks, turns);
      }
      end := halt.value;
    }

    /** What holds at every loop head: nothing is in flight, and no more ticks and turns are gone
        than the work done accounts for. */
    ghost predicate AtHead(start: Cards, order: seq<string>, work: nat, ticks: nat, turns: nat)
      reads this, budget
    {
      && InFlight(state.cards, {}) && RoundsUpTo(state.events, heads) && TopoOrder(start, order)
      && (Drainable(start, env) ==> AllActive(state.cards))
      && ticks + TotalLeft(state.cards, state.used) <= budget.ticksRemaining + work
      && turns + 2 * TotalLeft(state.cards, state.used) <= budget.turnsRemaining + 2 * work
    }

    /** What holds however the loop is left. */
    ghost predicate Ended(start: Cards, order: seq<string>, work: nat, ticks: nat, turns: nat, end: RunEnd)
      reads this
    {
      && (end != WorkerMissing && end != SaveFailed ==> InFlight(state.cards, {}))
      && (end == BoardComplete ==> AllDone(state.cards))
      && (end == NothingReady ==>
            forall c :: c in state.cards && c.status == Todo ==>
              exists chain :: HeldBehind(state.cards, env.clock(heads), c.id, chain))
      && (Drainable(start, env) ==> end != NothingReady)
      && (Drainable(start, env) && env.Calm() && ticks > work && turns > 2 * work ==> end == BoardComplete)
    }

    /** One round: the checks at the head, then a batch of ready cards claimed, saved and settled. */
    method OneRound(ghost start: Cards, ghost order: seq<string>, ghost work: nat, ghost ticks: nat, ghost turns: nat)
      returns (halt: Option<RunEnd>)
      requires Valid() && RunInv(start, state) && AtHead(start, order, work, ticks, turns)
      requires LogTrue(env.reply, env.judge, state)
      modifies this, budget
      ensures Valid() && RunInv(start, state) && LogTrue(env.reply, env.judge, state)
      ensures halt.None? ==> AtHead(start, order, work, ticks, turns)
                             && TotalLeft(state.cards, state.used) < old(TotalLeft(state.cards, state.used))
      ensures halt.Some? ==> Ended(start, order, work, ticks, turns, halt.value)
    {
      halt := CheckHead();
      if halt.Some? {
        return;
      }
      var now := env.clock(heads);
      var ready := Ready(state.cards, now);
      if ready == [] {
        StuckBoard(start, state, now, order);
        if Drainable(start, env) {
          ActiveBoardIsReady(start, state, env.clock, heads, order);
        }
        return Some(NothingReady);
      }
      halt := DispatchBatch(ready, now, start);
    }

    method DispatchBatch(ready: Cards, now: int, ghost start: Cards) returns (halt: Option<RunEnd>)
      requires Valid() && RunInv(start, state) && InFlight(state.cards, {}) && budget.turnsRemaining > 0
      requires heads > 0 && RoundsUpTo(state.events, heads - 1) && ready == Ready(state.cards, now) && ready != []
      modifies this`state, this`sends, budget`turnsRemaining
      ensures Valid() && RunInv(start, state)
      ensures old(LogTrue(env.reply, env.judge, state)) ==> LogTrue(env.reply, env.judge, state)
      ensures halt.Some? ==> (halt.value == WorkerMissing || halt.value == SaveFailed) && !env.Calm()
      ensures halt.None? ==>
        && InFlight(state.cards, {}) && RoundsUpTo(state.events, heads)
        && TotalLeft(state.cards, state.used) < old(TotalLeft(state.cards, state.used))
        && old(budget.turnsRemaining) + 2 * TotalLeft(state.cards, state.used)
           <= budget.turnsRemaining + 2 * old(TotalLeft(state.cards, state.used))
        && (env.AllReply() && old(AllActive(state.cards)) ==> AllActive(state.cards))
    {
      ReadyBatch(state.cards, now);
      var batch, missing := ClaimBatch(ready, heads, start);
      if missing {
        return Some(WorkerMissing);
      }
      if !env.saves(2 * heads) {
        return Some(SaveFailed);
      }
      SettleBatch(batch, heads, start);
      if !env.saves(2 * heads + 1) {
        return Some(SaveFailed);
      }
      return None;
    }
  }

  // ---- a run of a stored board ----

  datatype BoardEnd = NoCards | Refused(verdict: Verdict) | Ran(end: RunEnd)

  /** Statuses may differ, the dependency graph does not. */
  predicate SameGraph(a: Cards, b: Cards) {
    |a| == |b| && forall i :: 0 <= i < |a| ==> a[i].id == b[i].id && a[i].deps == b[i].deps
  }

  lemma {:induction false} SameGraphSameDeps(a: Cards, b: Cards, id: string)
    requires SameGraph(a, b)
    ensures DepsOf(a, id) == DepsOf(b, id) && Find(a, id).Some? == Find(b, id).Some?
  {
    if a != [] && a[0].id != id {
      SameGraphSameDeps(a[1..], b[1..], id);
    }
  }

  lemma SameGraphSameOrder(a: Cards, b: Cards, order: seq<string>)
    requires SameGraph(a, b) && Unique(a) && NoSelfDeps(a) && TopoOrder(a, order)
    ensures Unique(b) && NoSelfDeps(b) && TopoOrder(b, order) && IdsOf(a) == IdsOf(b)
  {
    forall id ensures id in IdsOf(a) <==> id in IdsOf(b) {
      SameGraphSameDeps(a, b, id);
      FindSpec(a, id);
      FindSpec(b, id);
    }
    assert IdsOf(a) == IdsOf(b);
    forall i | 0 <= i < |order| ensures DepsIn(b, order[i], order[..i]) {
      assert DepsIn(a, order[i], order[..i]);
      SameGraphSameDeps(a, b, order[i]);
    }
    forall c | c in b ensures c.id !in c.deps {
      var i :| 0 <= i < |b| && b[i] == c;
      assert a[i] in a;
    }
  }

  /** What a run never changes: which cards there are, what they depend on, and that done is done. */
  ghost predicate RunKeeps(before: Cards, after: Cards) {
    && Unique(after) && IdsOf(after) == IdsOf(before)
    && forall id :: id in IdsOf(before) ==> DepsOf(after, id) == DepsOf(before, id)
                                            && (DepDone(before, id) ==> DepDone(after, id))
  }

  lemma RunInvKeeps(before: Cards, start: Cards, rs: RunState)
    requires SameGraph(before, start) && RunInv(start, rs) && IdsOf(before) == IdsOf(start)
    requires forall i :: 0 <= i < |before| ==> start[i] == Reclaimed(before[i])
    ensures RunKeeps(before, rs.cards)
  {
    forall id | id in IdsOf(before)
      ensures DepsOf(rs.cards, id) == DepsOf(before, id) && (DepDone(before, id) ==> DepDone(rs.cards, id))
    {
      SameGraphSameDeps(before, start, id);
      ReclaimKeepsDone(before, start, id);
      CardOverRun(start, rs, id);
    }
  }

  lemma {:induction false} ReclaimKeepsDone(before: Cards, start: Cards, id: string)
    requires |before| == |start| && forall i :: 0 <= i < |before| ==> start[i] == Reclaimed(before[i])
    ensures DepDone(before, id) ==> DepDone(start, id)
  {
    if before != [] && before[0].id != id {
      ReclaimKeepsDone(before[1..], start[1..], id);
    }
  }

  lemma ReclaimKeepsDrainable(before: Cards, start: Cards, env: Environment)
    requires |before| == |start| && forall i :: 0 <= i < |before| ==> start[i] == Reclaimed(before[i])
    requires Drainable(before, env)
    ensures Drainable(start, env)
  {
    forall c | c in start ensures Active(c) && AlwaysDue(c, env.clock) {
      var i :| 0 <= i < |start| && start[i] == c;
      assert before[i] in before;
      forall k: nat ensures Due(c, env.clock(k)) {
        assert Due(before[i], env.clock(k));
      }
    }
  }

  function ReclaimAll(cards: Cards): Cards {
    seq(|cards|, i requires 0 <= i < |cards| => Reclaimed(cards[i]))
  }

  /** A validated board without cards in flight, dispatched under the given caps. */
  method RunCards(start: Cards, caps: Caps, env: Environment, ghost order: seq<string>)
    returns (end: RunEnd, after: Cards, sends: nat, seen: int, log: seq<Event>)
    requires Within(caps, CEILING) && TopoOrder(start, order)
    requires Unique(start) && NoSelfDeps(start) && forall c :: c in start ==> c.status != Doing
    ensures sends <= caps.maxTotalTurns
    ensures exists rs :: RunInv(start, rs) && rs.cards == after && rs.events == log && LogTrue(env.reply, env.judge, rs)
    ensures end != WorkerMissing && end != SaveFailed ==> InFlight(after, {})
    ensures end == BoardComplete ==> AllDone(after)
    ensures end == NothingReady ==>
      forall c :: c in after && c.status == Todo ==> exists chain :: HeldBehind(after, seen, c.id, chain)
    ensures Drainable(start, env) ==> end != NothingReady
    ensures Ample(start, env, caps.maxTicks, caps.maxTotalTurns) ==> end == BoardComplete
  {
    var d := new Dispatcher(start, caps, env);
    assert d.budget.caps == caps;
    end := d.Run(start, order);
    after, sends, seen, log := d.state.cards, d.sends, env.clock(d.heads), d.state.events;
  }

  /** Entry `k` of the log says card `id` is finished, its worker replied, and the card holds that note. */
  ghost predicate FinishedWith(cards: Cards, env: Environment, log: seq<Event>, k: nat, id: string)
    requires k < |log|
  {
    && log[k] == Event.Finished(id) && env.reply(k).Replied?
    && Find(cards, id).Some? && Find(cards, id).value.result == Some(env.reply(k).note)
  }

  /** A card that became done in the run was finished by a reply. */
  lemma NewlyDone(env: Environment, before: Cards, start: Cards, rs: RunState, id: string) returns (k: nat)
    requires |before| == |start| && (forall i :: 0 <= i < |before| ==> start[i] == Reclaimed(before[i]))
    requires RunInv(start, rs) && LogTrue(env.reply, env.judge, rs)
    requires DepDone(rs.cards, id) && !DepDone(before, id)
    ensures k < |rs.events| && FinishedWith(rs.cards, env, rs.events, k, id)
  {
    DoneIsDoneBy(start, rs, id);
    ReclaimMakesNoneDone(before, start, id);
    k :| 0 <= k < |rs.events| && rs.events[k] == Event.Finished(id);
    assert EntryTrue(env.reply, env.judge, rs.cards, rs.events[k], k);
  }

  lemma {:induction false} ReclaimMakesNoneDone(before: Cards, start: Cards, id: string)
    requires |before| == |start| && forall i :: 0 <= i < |before| ==> start[i] == Reclaimed(before[i])
    ensures DepDone(start, id) ==> DepDone(before, id)
  {
    if before != [] && before[0].id != id {
      ReclaimMakesNoneDone(before[1..], start[1..], id);
    }
  }

  /** What is left once the run is over; the board can be run again whatever happened. */
  lemma RunLeaves(before: Cards, start: Cards, rs: RunState, order: seq<string>)
    requires SameGraph(before, start) && RunInv(start, rs) && IdsOf(before) == IdsOf(start) && TopoOrder(start, order)
    requires forall i :: 0 <= i < |before| ==> start[i] == Reclaimed(before[i])
    ensures RunKeeps(before, rs.cards) && Runnable(rs.cards)
  {
    RunInvKeeps(before, start, rs);
    OrderSurvives(start, rs, order);
  }

  /** Validate, take back cards of an interrupted run, then dispatch under the default caps
      tightened by the request.  The board can be run again whatever happened. */
  method RunBoard(board: Board, request: CapsOverride, env: Environment)
    returns (end: BoardEnd, sends: nat, seen: int, log: seq<Event>)
    requires Unique(board.cards)
    modifies board
    ensures end.NoCards? <==> old(board.cards) == []
    ensures end.Ran? <==> old(board.cards) != [] && DepsExist(old(board.cards)) && Acyclic(old(board.cards))
    ensures !end.Ran? ==> board.cards == old(board.cards) && sends == 0
    ensures end.Ran? ==> RunKeeps(old(board.cards), board.cards) && Runnable(board.cards)
    ensures end.Ran? ==> forall id :: DepDone(board.cards, id) && !DepDone(old(board.cards), id) ==>
      exists k: nat :: k < |log| && FinishedWith(board.cards, env, log, k, id)
    ensures sends <= Tighten(DEFAULT_CAPS, request).maxTotalTurns <= DEFAULT_CAPS.maxTotalTurns
    ensures end.Ran? && end.end != WorkerMissing && end.end != SaveFailed ==> InFlight(board.cards, {})
    ensures end == Ran(BoardComplete) ==> AllDone(board.cards)
    ensures end == Ran(NothingReady) ==>
      forall c :: c in board.cards && c.status == Todo ==> exists chain :: HeldBehind(board.cards, seen, c.id, chain)
    ensures Drainable(old(board.cards), env) ==> end != Ran(NothingReady)
    ensures
      var caps := Tighten(DEFAULT_CAPS, request);
      var ample := Ample(ReclaimAll(old(board.cards)), env, caps.maxTicks, caps.maxTotalTurns);
      end.Ran? && ample ==> end == Ran(BoardComplete)
  {
    sends, seen, log := 0, 0, [];
    TightenIsLoosestAllowed(DEFAULT_CAPS, request);
    if board.cards == [] {
      return NoCards, sends, seen, log;
    }
    var before := board.cards;
    var verdict; ghost var order;
    verdict, order := Validate(board.cards);
    if !verdict.Ok? {
      return Refused(verdict), sends, seen, log;
    }
    var reclaimed := board.ReclaimInFlight();
    var start := board.cards;
    assert start == ReclaimAll(before);
    SameGraphSameOrder(before, start, order);
    if Drainable(before, env) {
      ReclaimKeepsDrainable(before, start, env);
    }
    var ended, after;
    ended, after, sends, seen, log := RunCards(start, Tighten(DEFAULT_CAPS, request), env, order);
    ghost var rs :| RunInv(start, rs) && rs.cards == after && rs.events == log && LogTrue(env.reply, env.judge, rs);
    RunLeaves(before, start, rs, order);
    forall id | DepDone(after, id) && !DepDone(before, id)
      ensures exists k: nat :: k < |log| && FinishedWith(after, env, log, k, id)
    {
      var k := NewlyDone(env, before, start, rs, id);
    }
    board.cards := after;
    end := Ran(ended);
  }

  /** There is a card that is not archived, and every such card is done. */
  predicate AllDone(cards: Cards) {
    (exists c :: c in cards && c.status == Done) &&
    forall c :: c in cards ==> c.status == Done || c.status == Archived
  }

  function Max(a: nat, b: nat): nat {
    if a > b then a else b
  }

  function IdsInOrder(cards: Cards): (ids: seq<string>)
    ensures |ids| == |cards|
  {
    seq(|cards|, i requires 0 <= i < |cards| => cards[i].id)
  }

  lemma IdsNext(cards: Cards, k: nat)
    requires k < |cards|
    ensures IdsInOrder(cards[..k + 1]) == IdsInOrder(cards[..k]) + [cards[k].id]
  {
    assert cards[..k + 1] == cards[..k] + [cards[k]];
  }

  lemma PrefixDistinct(cards: Cards, k: nat)
    requires Unique(cards) && k <= |cards|
    ensures Distinct(IdsInOrder(cards[..k]))
  {
  }
}
