/** A goal run: plan, admit, execute each ready step with its bounded review loop, then verify
    or synthesise.  Worker replies, failures, aborts and role resolution are arbitrary. */
module GoalRun {
  import opened Text
  import opened Budget

  datatype Review = Approve | Revise | Unclear

  /** A worker's reply and how the host reads it: as a review, as a verification, as a plan. */
  datatype Reply = Reply(text: string, review: Review, verified: Option<bool>, plan: Option<seq<Step>>)

  datatype Outcome = Aborted | SendFailed | Replied(reply: Reply)

  /** `outcome(k)` is what the dispatch that pays turn `k` comes back with; `resolves(k)` says
      whether the k-th role resolution finds a worker; `stopped(k)` whether the wall clock or an
      abort request stops the loop at its k-th head. */
  datatype Environment = Environment(outcome: nat -> Outcome, resolves: nat -> bool, stopped: nat -> bool)

  /** The run's accounts.  `exhausted` records that a dispatch found no turn to pay with. */
  datatype Ledger = Ledger(turns: nat, spent: nat, sends: nat, asked: nat, exhausted: bool)

  datatype StepStatus = Waiting | Running | Done | Failed

  datatype Step = Step(id: string, deps: seq<string>, review: bool, status: StepStatus, result: Option<string>)

  /** The accounts a run starts with. */
  function Opening(c: Caps): Ledger {
    Ledger(c.maxTotalTurns, 0, 0, 0, false)
  }

  // ---- one dispatch, one review loop, one step ----

  /** Charge first, then check for an abort, then send. */
  function Dispatch(env: Environment, l: Ledger): (Ledger, Option<Reply>) {
    if l.turns == 0 then (l.(exhausted := true), None)
    else
      var paid := l.(turns := l.turns - 1, spent := l.spent + 1);
      match env.outcome(l.spent)
      case Aborted => (paid, None)
      case SendFailed => (paid.(sends := l.sends + 1), None)
      case Replied(reply) => (paid.(sends := l.sends + 1), Some(reply))
  }

  /** One reviewer round accepts the current result, asks for another round on a result, or
      breaks the run because the revision could not be had. */
  datatype Round = Accepted | Again(text: string) | Broken

  function ReviewRound(env: Environment, l: Ledger, current: string): (Ledger, Round) {
    var asked := l.(asked := l.asked + 1);
    if !env.resolves(l.asked) then (asked, Accepted)
    else
      var (l1, verdict) := Dispatch(env, asked);
      if verdict.None? || verdict.value.review.Approve? then (l1, Accepted)
      else if verdict.value.review.Unclear? then (l1, Again(current))
      else
        var (l2, revised) := Dispatch(env, l1);
        (l2, if revised.None? then Broken else Again(revised.value.text))
  }

  /** The reviewer rounds of one step; `None` is the error of a failed revision. */
  function ReviewLoop(env: Environment, l: Ledger, current: string, cyclesLeft: nat): (Ledger, Option<string>)
    decreases cyclesLeft
  {
    if cyclesLeft == 0 then (l, Some(current))
    else
      var (l1, round) := ReviewRound(env, l, current);
      match round
      case Accepted => (l1, Some(current))
      case Broken => (l1, None)
      case Again(text) => ReviewLoop(env, l1, text, cyclesLeft - 1)
  }

  datatype StepEnd = StepFailed | StepDone(text: string) | RunAborts

  function RunWorker(env: Environment, l: Ledger, review: bool, cycles: nat): (Ledger, StepEnd) {
    var (l1, reply) := Dispatch(env, l);
    if reply.None? then (l1, StepFailed)
    else if !review then (l1, StepDone(reply.value.text))
    else
      var (l2, accepted) := ReviewLoop(env, l1, reply.value.text, cycles);
      (l2, if accepted.None? then RunAborts else StepDone(accepted.value))
  }

  function RunStep(env: Environment, l: Ledger, review: bool, cycles: nat): (Ledger, StepEnd) {
    var asked := l.(asked := l.asked + 1);
    if !env.resolves(l.asked) then (asked, StepFailed) else RunWorker(env, asked, review, cycles)
  }

  /** `l'` follows from `l` at a price of at most `price` turns: every send was paid for, and a
      dispatch was refused only if fewer turns than the price were left. */
  predicate CostsAtMost(l: Ledger, l': Ledger, price: nat) {
    && l'.turns + l'.spent == l.turns + l.spent
    && l.spent <= l'.spent <= l.spent + price
    && 0 <= l'.sends - l.sends <= l'.spent - l.spent
    && (l.exhausted ==> l'.exhausted)
    && (l'.exhausted && !l.exhausted ==> l.turns < price)
  }

  lemma DispatchCost(env: Environment, l: Ledger)
    ensures CostsAtMost(l, Dispatch(env, l).0, 1)
    ensures Dispatch(env, l).1.Some? ==> l.turns > 0
  {
  }

  lemma CostsAdd(a: Ledger, b: Ledger, c: Ledger, p: nat, q: nat)
    requires CostsAtMost(a, b, p) && CostsAtMost(b, c, q)
    ensures CostsAtMost(a, c, p + q)
  {
  }

  lemma RoundCost(env: Environment, l: Ledger, current: string)
    ensures CostsAtMost(l, ReviewRound(env, l, current).0, 2)
  {
    var l0 := l.(asked := l.asked + 1);
    DispatchCost(env, l0);
    DispatchCost(env, Dispatch(env, l0).0);
  }

  lemma {:induction false} ReviewCost(env: Environment, l: Ledger, current: string, cyclesLeft: nat)
    ensures CostsAtMost(l, ReviewLoop(env, l, current, cyclesLeft).0, 2 * cyclesLeft)
    decreases cyclesLeft
  {
    if cyclesLeft > 0 {
      var (l1, round) := ReviewRound(env, l, current);
      RoundCost(env, l, current);
      if round.Again? {
        ReviewCost(env, l1, round.text, cyclesLeft - 1);
        CostsAdd(l, l1, ReviewLoop(env, l, current, cyclesLeft).0, 2, 2 * (cyclesLeft - 1));
      }
    }
  }

  /** A step costs at most one turn plus two per review cycle, whatever the reviewers say. */
  lemma StepCost(env: Environment, l: Ledger, review: bool, cycles: nat)
    ensures CostsAtMost(l, RunStep(env, l, review, cycles).0, 1 + 2 * cycles)
  {
    if env.resolves(l.asked) {
      var l0 := l.(asked := l.asked + 1);
      var (l1, reply) := Dispatch(env, l0);
      DispatchCost(env, l0);
      if reply.Some? && review {
        ReviewCost(env, l1, reply.value.text, cycles);
        CostsAdd(l0, l1, RunStep(env, l, review, cycles).0, 1, 2 * cycles);
      }
    }
  }

  // ---- what the outcomes mean ----

  /** The dispatch that paid turn `k` came back with a reply. */
  predicate Answers(env: Environment, k: nat) {
    env.outcome(k).Replied?
  }

  /** It was read as a reviewer's request for a revision. */
  predicate AsksToRevise(env: Environment, k: nat) {
    Answers(env, k) && env.outcome(k).reply.review.Revise?
  }

  /** Turn `k` brought the revision that turn `k - 1` asked for, and no later turn before `end` asks again. */
  predicate LastRevision(env: Environment, k: nat, end: nat, text: string) {
    && 0 < k < end && AsksToRevise(env, k - 1) && Answers(env, k) && env.outcome(k).reply.text == text
    && forall j: nat :: k < j < end ==> !AsksToRevise(env, j)
  }

  /** `text` is what a review paid for by the turns from `start` to `end` leaves of `first`: the last
      revision, or `first` itself if no turn asked for one. */
  ghost predicate Reviewed(env: Environment, start: nat, end: nat, first: string, text: string) {
    || (text == first && forall j: nat :: start <= j < end ==> !AsksToRevise(env, j))
    || (exists k: nat :: start < k && LastRevision(env, k, end, text))
  }

  /** A revision was asked for and could not be had. */
  predicate RevisionFailed(env: Environment, start: nat, end: nat, turnsLeft: nat) {
    || (start < end && AsksToRevise(env, end - 1) && turnsLeft == 0)
    || (start + 1 < end && AsksToRevise(env, end - 2) && !Answers(env, end - 1))
  }

  lemma RoundMeaning(env: Environment, l: Ledger, current: string)
    ensures var (l', round) := ReviewRound(env, l, current);
            match round
            case Accepted => l'.spent <= l.spent + 1 && (l'.spent > l.spent ==> !AsksToRevise(env, l.spent))
            case Broken => RevisionFailed(env, l.spent, l'.spent, l'.turns)
            case Again(text) =>
              || (l'.spent == l.spent + 1 && text == current && !AsksToRevise(env, l.spent))
              || (l'.spent == l.spent + 2 && LastRevision(env, l.spent + 1, l'.spent, text))
  {
  }

  lemma ReviewedLater(env: Environment, start: nat, middle: nat, end: nat, first: string, text: string, final: string)
    requires start <= middle <= end && Reviewed(env, middle, end, text, final)
    requires (text == first && forall j: nat :: start <= j < middle ==> !AsksToRevise(env, j))
             || (start + 2 == middle && LastRevision(env, start + 1, middle, text))
    ensures Reviewed(env, start, end, first, final)
  {
    if k: nat :| middle < k && LastRevision(env, k, end, final) {
    } else if text == first && forall j: nat :: start <= j < middle ==> !AsksToRevise(env, j) {
    } else {
      assert LastRevision(env, start + 1, end, final);
    }
  }

  /** What a review leaves of the worker's reply, and when it breaks. */
  lemma {:induction false} ReviewMeaning(env: Environment, l: Ledger, current: string, cyclesLeft: nat)
    ensures var (l', accepted) := ReviewLoop(env, l, current, cyclesLeft);
            && l.spent <= l'.spent
            && (accepted.Some? ==> Reviewed(env, l.spent, l'.spent, current, accepted.value))
            && (accepted.None? ==> RevisionFailed(env, l.spent, l'.spent, l'.turns))
    decreases cyclesLeft
  {
    if cyclesLeft > 0 {
      var (l1, round) := ReviewRound(env, l, current);
      RoundMeaning(env, l, current);
      RoundCost(env, l, current);
      if round.Again? {
        ReviewMeaning(env, l1, round.text, cyclesLeft - 1);
        var (l', accepted) := ReviewLoop(env, l1, round.text, cyclesLeft - 1);
        if accepted.Some? {
          ReviewedLater(env, l.spent, l1.spent, l'.spent, current, round.text, accepted.value);
        }
      }
    }
  }

  /** How a step ends and why: it fails for want of a worker, a turn or a reply, it is done with what
      review leaves of the reply, and the run aborts when a revision cannot be had. */
  lemma StepMeaning(env: Environment, l: Ledger, review: bool, cycles: nat)
    ensures var (l', end) := RunStep(env, l, review, cycles);
            && (end.StepFailed? <==> !env.resolves(l.asked) || l.turns == 0 || !Answers(env, l.spent))
            && (end.StepDone? ==> env.resolves(l.asked) && Answers(env, l.spent))
            && (end.StepDone? && !review ==> end.text == env.outcome(l.spent).reply.text)
            && (end.StepDone? && review ==>
                  Reviewed(env, l.spent + 1, l'.spent, env.outcome(l.spent).reply.text, end.text))
            && (end.RunAborts? ==> review && RevisionFailed(env, l.spent + 1, l'.spent, l'.turns))
  {
    var l0 := l.(asked := l.asked + 1);
    var (l1, reply) := Dispatch(env, l0);
    if env.resolves(l.asked) && reply.Some? && review {
      ReviewMeaning(env, l1, reply.value.text, cycles);
      var (l2, accepted) := ReviewLoop(env, l1, reply.value.text, cycles);
      assert l1.spent == l.spent + 1 && reply.value == env.outcome(l.spent).reply;
      if accepted.Some? {
        assert Reviewed(env, l.spent + 1, l2.spent, env.outcome(l.spent).reply.text, accepted.value);
        assert RunStep(env, l, review, cycles) == (l2, StepDone(accepted.value));
      }
    }
  }

  // ---- the worst case is real ----

  /** From turn `from` on reviewers always ask for a revision and workers always deliver one. */
  ghost predicate Grinds(env: Environment, from: nat) {
    && (forall k :: env.resolves(k))
    && (forall k :: k >= from ==> env.outcome(k).Replied? && env.outcome(k).reply.review.Revise?)
  }

  function RunSteps(env: Environment, l: Ledger, count: nat, cycles: nat): Ledger
    decreases count
  {
    if count == 0 then l else RunSteps(env, RunStep(env, l, true, cycles).0, count - 1, cycles)
  }

  lemma GrindingRound(env: Environment, l: Ledger, current: string)
    requires Grinds(env, l.spent)
    ensures var (l', round) := ReviewRound(env, l, current);
            if l.turns >= 2 then l'.turns == l.turns - 2 && l'.exhausted == l.exhausted && round.Again?
            else l'.exhausted && !round.Again?
  {
    var asked := l.(asked := l.asked + 1);
    var (l1, verdict) := Dispatch(env, asked);
    assert env.outcome(l.spent).Replied? && env.outcome(l.spent + 1).Replied? && env.resolves(l.asked);
  }

  lemma {:induction false} GrindingReview(env: Environment, l: Ledger, current: string, cyclesLeft: nat)
    requires Grinds(env, l.spent)
    ensures var l' := ReviewLoop(env, l, current, cyclesLeft).0;
            if l.turns >= 2 * cyclesLeft then l'.turns == l.turns - 2 * cyclesLeft && l'.exhausted == l.exhausted
            else l'.exhausted
    decreases cyclesLeft
  {
    if cyclesLeft > 0 {
      var (l1, round) := ReviewRound(env, l, current);
      GrindingRound(env, l, current);
      RoundCost(env, l, current);
      if round.Again? {
        GrindingReview(env, l1, round.text, cyclesLeft - 1);
      }
    }
  }

  /** What `count` fully reviewed steps cost. */
  function Price(count: nat, cycles: nat): nat {
    if count == 0 then 0 else 1 + 2 * cycles + Price(count - 1, cycles)
  }

  lemma {:induction false} PriceIsProduct(count: nat, cycles: nat)
    ensures Price(count, cycles) == count * (1 + 2 * cycles)
  {
    if count > 0 {
      PriceIsProduct(count - 1, cycles);
      assert count * (1 + 2 * cycles) == (1 + 2 * cycles) + (count - 1) * (1 + 2 * cycles);
    }
  }

  /** The bound is tight: such steps lack a turn exactly when fewer turns than their price are left. */
  lemma {:induction false} GrindingSteps(env: Environment, l: Ledger, count: nat, cycles: nat)
    requires Grinds(env, l.spent)
    ensures RunSteps(env, l, count, cycles).exhausted == (l.exhausted || l.turns < Price(count, cycles))
    decreases count
  {
    if count > 0 {
      var l1 := RunStep(env, l, true, cycles).0;
      GrindingStep(env, l, cycles);
      StepCost(env, l, true, cycles);
      if l.turns >= 1 + 2 * cycles {
        GrindingSteps(env, l1, count - 1, cycles);
      } else {
        StaysExhausted(env, l1, count - 1, cycles);
      }
    }
  }

  lemma GrindingStep(env: Environment, l: Ledger, cycles: nat)
    requires Grinds(env, l.spent)
    ensures var l' := RunStep(env, l, true, cycles).0;
            if l.turns >= 1 + 2 * cycles then l'.turns == l.turns - (1 + 2 * cycles) && l'.exhausted == l.exhausted
            else l'.exhausted
  {
    var (l0, reply) := Dispatch(env, l.(asked := l.asked + 1));
    assert env.resolves(l.asked) && env.outcome(l.spent).Replied?;
    if reply.Some? {
      GrindingReview(env, l0, reply.value.text, cycles);
    }
  }

  lemma {:induction false} StaysExhausted(env: Environment, l: Ledger, count: nat, cycles: nat)
    requires l.exhausted
    ensures RunSteps(env, l, count, cycles).exhausted
    decreases count
  {
    if count > 0 {
      StepCost(env, l, true, cycles);
      StaysExhausted(env, RunStep(env, l, true, cycles).0, count - 1, cycles);
    }
  }

  lemma {:induction false} StepsCost(env: Environment, l: Ledger, count: nat, cycles: nat)
    ensures CostsAtMost(l, RunSteps(env, l, count, cycles), Price(count, cycles))
    decreases count
  {
    if count > 0 {
      var l1 := RunStep(env, l, true, cycles).0;
      StepCost(env, l, true, cycles);
      StepsCost(env, l1, count - 1, cycles);
      CostsAdd(l, l1, RunSteps(env, l, count, cycles), 1 + 2 * cycles, Price(count - 1, cycles));
    }
  }

  // ---- admission ----

  /** The worst-case formula covers the real cost: at least one re-plan is allowed for, or there
      is too little reviewing to matter. */
  predicate FormulaCovers(c: Caps, n: nat) {
    c.maxReplans >= 1 || n * c.maxReviewCycles <= 2
  }

  lemma FormulaCoversIff(c: Caps, n: U32)
    requires Within(c, CEILING) && n <= CEILING.maxSteps
    ensures FormulaCovers(c, n) <==> n * (1 + 2 * c.maxReviewCycles) <= WorstCaseTurns(c, n)
    ensures c.maxReplans >= 1 ==> n * (1 + 2 * c.maxReviewCycles) + n + 2 <= WorstCaseTurns(c, n)
  {
    WorstCaseIsExact(c, n);
    var r, p := c.maxReviewCycles, c.maxReplans;
    var x := n * r;
    assert n * (1 + 2 * r) == n + 2 * x;
    Distribute(n, r, p);
    if p == 0 {
      assert (1 + p) * (n + x) == n + x;
    } else {
      ScaleUp(n + x, 2, 1 + p);
    }
  }

  lemma Distribute(n: nat, r: nat, p: nat)
    ensures n * ((1 + r) * (1 + p)) == (1 + p) * (n + n * r)
  {
    assert n * ((1 + r) * (1 + p)) == (n * (1 + r)) * (1 + p);
    assert n * (1 + r) == n + n * r;
  }

  lemma ScaleUp(n: nat, a: int, b: int)
    requires a <= b
    ensures n * a <= b * n
  {
  }

  // ---- planning, then admission ----

  /** Ask the coordinator, and once more if its first reply holds no plan and nothing stops it. */
  function Planning(env: Environment, l: Ledger, head: nat): (Ledger, Option<seq<Step>>) {
    var asked := l.(asked := l.asked + 1);
    if !env.resolves(l.asked) then (asked, None)
    else
      var (l1, first) := Dispatch(env, asked);
      if first.None? then (l1, None)
      else if first.value.plan.Some? || l1.turns == 0 || env.stopped(head) then (l1, first.value.plan)
      else
        var (l2, second) := Dispatch(env, l1);
        (l2, if second.None? then None else second.value.plan)
  }

  /** A plan in hand has cost one turn or two, and nothing was refused on the way. */
  lemma PlanningCost(env: Environment, l: Ledger, head: nat)
    ensures CostsAtMost(l, Planning(env, l, head).0, 2)
    ensures Planning(env, l, head).1.Some? ==>
              Planning(env, l, head).0.exhausted == l.exhausted && Planning(env, l, head).0.spent >= l.spent + 1
  {
    if env.resolves(l.asked) {
      var l0 := l.(asked := l.asked + 1);
      var (l1, first) := Dispatch(env, l0);
      DispatchCost(env, l0);
      if first.Some? && !(first.value.plan.Some? || l1.turns == 0 || env.stopped(head)) {
        DispatchCost(env, l1);
        CostsAdd(l0, l1, Dispatch(env, l1).0, 1, 1);
      }
    }
  }

  /** A plan is what the last turn paid for brought, and a second question is asked only when the first
      brought none, a turn is left and nobody stops the run. */
  lemma PlanningMeaning(env: Environment, l: Ledger, head: nat)
    ensures var (l', plan) := Planning(env, l, head);
            && (plan.Some? ==> l'.spent > l.spent && Answers(env, l'.spent - 1)
                               && env.outcome(l'.spent - 1).reply.plan == plan)
            && (l'.spent == l.spent + 2 ==> Answers(env, l.spent) && env.outcome(l.spent).reply.plan.None?
                                            && l.turns > 1 && !env.stopped(head))
            && (l'.spent == l.spent + 1 && Answers(env, l.spent) && env.outcome(l.spent).reply.plan.None? ==>
                  l.turns == 1 || env.stopped(head))
            && (l'.spent == l.spent ==> !env.resolves(l.asked) || l.turns == 0)
  {
  }

  /** If the run gets a plan of `n` steps and admits it, carrying out all of them, reviews included,
      never lacks a turn. */
  predicate NeverLacksATurn(env: Environment, c: Caps, n: U32)
    requires c.maxReviewCycles < U32_MAX && c.maxReplans < U32_MAX
  {
    var (l, plan) := Planning(env, Opening(c), 0);
    plan.Some? && |plan.value| == n && Admits(c, l.turns, n) ==> !RunSteps(env, l, n, c.maxReviewCycles).exhausted
  }

  /** After a planning that cost `used` turns, a plan of `n` steps is refused or can be paid for. */
  predicate RefusedOrPayable(c: Caps, n: U32, used: nat)
    requires c.maxReviewCycles < U32_MAX && c.maxReplans < U32_MAX
  {
    || c.maxTotalTurns - used < WorstCaseTurns(c, n)
    || n * (1 + 2 * c.maxReviewCycles) <= c.maxTotalTurns - used
  }

  /** Admission is sound for a run under these caps, whatever the world answers, exactly when a plan
      of this size is refused or payable both after one planning turn and after two. */
  lemma AdmissionSoundIff(c: Caps, n: U32)
    requires Within(c, CEILING) && 0 < n <= c.maxSteps
    ensures (forall env: Environment :: NeverLacksATurn(env, c, n))
            <==> RefusedOrPayable(c, n, 1) && RefusedOrPayable(c, n, 2)
  {
    if RefusedOrPayable(c, n, 1) && RefusedOrPayable(c, n, 2) {
      forall env: Environment ensures NeverLacksATurn(env, c, n) {
        PayableNeverLacks(env, c, n);
      }
    } else {
      var used := if RefusedOrPayable(c, n, 1) then 2 else 1;
      GrindingRunLacks(c, n, used);
    }
  }

  lemma PayableNeverLacks(env: Environment, c: Caps, n: U32)
    requires Within(c, CEILING) && 0 < n <= c.maxSteps && RefusedOrPayable(c, n, 1) && RefusedOrPayable(c, n, 2)
    ensures NeverLacksATurn(env, c, n)
  {
    var (l, plan) := Planning(env, Opening(c), 0);
    PlanningCost(env, Opening(c), 0);
    if plan.Some? && Admits(c, l.turns, n) {
      PriceIsProduct(n, c.maxReviewCycles);
      StepsCost(env, l, n, c.maxReviewCycles);
    }
  }

  /** Independent steps, all to be reviewed. */
  function SomePlan(n: nat): (plan: seq<Step>)
    ensures |plan| == n
  {
    seq(n, i requires 0 <= i < n => Step(seq(i + 1, j => 's'), [], true, Waiting, None))
  }

  /** Plan on the `used`-th turn, then grind. */
  function PlanThenGrind(used: nat, n: nat): Environment {
    Environment((k: nat) => Replied(Reply("", Revise, None, if k + 1 == used then Some(SomePlan(n)) else None)),
                (k: nat) => true, (k: nat) => false)
  }

  lemma GrindingRunLacks(c: Caps, n: U32, used: nat)
    requires Within(c, CEILING) && 0 < n <= c.maxSteps && 1 <= used <= 2 && !RefusedOrPayable(c, n, used)
    ensures exists env: Environment :: !NeverLacksATurn(env, c, n)
  {
    PlanOnTurn(c, used, n);
    GrindingLacks(PlanThenGrind(used, n), c, n, used, Planning(PlanThenGrind(used, n), Opening(c), 0));
  }

  lemma GrindingLacks(env: Environment, c: Caps, n: U32, used: nat, planned: (Ledger, Option<seq<Step>>))
    requires Within(c, CEILING) && 0 < n <= c.maxSteps && !RefusedOrPayable(c, n, used)
    requires planned == Planning(env, Opening(c), 0) && planned.1.Some? && |planned.1.value| == n
    requires planned.0.turns == c.maxTotalTurns - used && !planned.0.exhausted && Grinds(env, planned.0.spent)
    ensures !NeverLacksATurn(env, c, n)
  {
    GrindingSteps(env, planned.0, n, c.maxReviewCycles);
    PriceIsProduct(n, c.maxReviewCycles);
  }

  lemma PlanOnTurn(c: Caps, used: nat, n: nat)
    requires 1 <= used <= 2 && used <= c.maxTotalTurns
    ensures var (l, plan) := Planning(PlanThenGrind(used, n), Opening(c), 0);
            && plan.Some? && |plan.value| == n && !l.exhausted && l.turns == c.maxTotalTurns - used
            && Grinds(PlanThenGrind(used, n), l.spent)
  {
    var env := PlanThenGrind(used, n);
    var l0 := Opening(c).(asked := 1);
    var (l1, first) := Dispatch(env, l0);
    assert env.outcome(0) == Replied(Reply("", Revise, None, if used == 1 then Some(SomePlan(n)) else None));
    if used == 2 {
      assert env.outcome(1) == Replied(Reply("", Revise, None, Some(SomePlan(n))));
    }
  }

  /** So a re-plan in the caps, or little enough reviewing, is enough whatever the turn cap. */
  lemma FormulaCoversIsEnough(c: Caps, n: U32)
    requires Within(c, CEILING) && 0 < n <= c.maxSteps && FormulaCovers(c, n)
    ensures forall env: Environment :: NeverLacksATurn(env, c, n)
  {
    FormulaCoversIff(c, n);
    AdmissionSoundIff(c, n);
  }

  /** The default caps lie under the ceiling and admit a plan of the most steps they allow, after one
      planning turn and after two. */
  lemma DefaultsAdmitFullPlan()
    ensures Within(DEFAULT_CAPS, CEILING) && WorstCaseTurns(DEFAULT_CAPS, 6) == 38 && DEFAULT_CAPS.maxSteps == 6
    ensures Admits(DEFAULT_CAPS, DEFAULT_CAPS.maxTotalTurns - 1, 6)
    ensures Admits(DEFAULT_CAPS, DEFAULT_CAPS.maxTotalTurns - 2, 6)
    ensures forall env: Environment :: NeverLacksATurn(env, DEFAULT_CAPS, 6)
  {
    WorstCaseIsExact(DEFAULT_CAPS, 6);
    FormulaCoversIsEnough(DEFAULT_CAPS, 6);
  }

  /** The failure is real: six steps, two review cycles, no re-plan and 21 turns. */
  lemma AdmissionCanFail()
    ensures var c := DEFAULT_CAPS.(maxReplans := 0, maxTotalTurns := 21);
            exists env: Environment :: !NeverLacksATurn(env, c, 6)
  {
    var c := DEFAULT_CAPS.(maxReplans := 0, maxTotalTurns := 21);
    WorstCaseIsExact(c, 6);
    GrindingRunLacks(c, 6, 1);
  }

  // ---- verification ----

  datatype VerifyOutcome = Passed | VerifyFailed | Inconclusive | OutOfTurns | Skipped

  function VerifyLoop(env: Environment, l: Ledger, checksLeft: nat): (Ledger, VerifyOutcome)
    decreases checksLeft
  {
    if checksLeft == 0 then (l, VerifyFailed)
    else if l.turns == 0 then (l, OutOfTurns)
    else
      var (l1, reply) := Dispatch(env, l);
      if reply.None? then (l1, Inconclusive)
      else
        match reply.value.verified
        case None => (l1, Inconclusive)
        case Some(pass) => if pass then (l1, Passed) else VerifyLoop(env, l1, checksLeft - 1)
  }

  /** The check paid with turn `k` was read as a pass, or as a fail. */
  predicate SaysPass(env: Environment, k: nat) {
    Answers(env, k) && env.outcome(k).reply.verified == Some(true)
  }

  predicate SaysFail(env: Environment, k: nat) {
    Answers(env, k) && env.outcome(k).reply.verified == Some(false)
  }

  predicate AllSayFail(env: Environment, start: nat, end: nat) {
    forall k: nat :: start <= k < end ==> SaysFail(env, k)
  }

  /** What a verdict means, given the checks paid for by the turns from `start` to `end`: every check but
      the last said fail; it passed if the last said pass, failed if all allowed checks said fail, ran out
      if turns did, and is open if the last check said neither. */
  predicate VerdictMeans(env: Environment, start: nat, end: nat, checks: nat, turnsLeft: nat, v: VerifyOutcome) {
    && start <= end <= start + checks
    && (start < end ==> AllSayFail(env, start, end - 1))
    && (v.Passed? <==> start < end && SaysPass(env, end - 1))
    && (v.VerifyFailed? <==> end == start + checks && AllSayFail(env, start, end))
    && (v.Inconclusive? <==> start < end && !SaysPass(env, end - 1) && !SaysFail(env, end - 1))
    && (v.OutOfTurns? <==> end < start + checks && AllSayFail(env, start, end))
    && (v.OutOfTurns? ==> turnsLeft == 0)
  }

  lemma {:induction false} VerifyMeaning(env: Environment, l: Ledger, checksLeft: nat)
    ensures var (l', v) := VerifyLoop(env, l, checksLeft);
            VerdictMeans(env, l.spent, l'.spent, checksLeft, l'.turns, v)
    decreases checksLeft
  {
    if checksLeft > 0 && l.turns > 0 {
      var (l1, reply) := Dispatch(env, l);
      if SaysFail(env, l.spent) {
        VerifyMeaning(env, l1, checksLeft - 1);
      }
    }
  }

  /** Verification pays at most one turn per check, never overdraws, and reports a shortage only
      when there were fewer turns than checks. */
  lemma {:induction false} VerifyCost(env: Environment, l: Ledger, checksLeft: nat)
    ensures CostsAtMost(l, VerifyLoop(env, l, checksLeft).0, checksLeft)
    ensures VerifyLoop(env, l, checksLeft).0.exhausted == l.exhausted
    ensures VerifyLoop(env, l, checksLeft).1.OutOfTurns? ==> l.turns < checksLeft
    ensures !VerifyLoop(env, l, checksLeft).1.Skipped?
    decreases checksLeft
  {
    if checksLeft > 0 && l.turns > 0 {
      var (l1, reply) := Dispatch(env, l);
      if reply.Some? && reply.value.verified == Some(false) {
        VerifyCost(env, l1, checksLeft - 1);
      }
    }
  }
}
