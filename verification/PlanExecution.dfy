/** The goal run as it executes: the runner's accounts and the plan's step statuses, updated
    in place. */
module PlanExecution {
  import opened Text
  import opened Budget
  import opened GoalRun

  type Steps = seq<Step>

  // ---- plans ----

  function StatusOf(steps: Steps, id: string): Option<StepStatus> {
    if steps == [] then None
    else if steps[0].id == id then Some(steps[0].status)
    else StatusOf(steps[1..], id)
  }

  predicate DepsDone(steps: Steps, s: Step) {
    forall d :: d in s.deps ==> StatusOf(steps, d) == Some(Done)
  }

  predicate StepReady(steps: Steps, i: nat)
    requires i < |steps|
  {
    steps[i].status == Waiting && DepsDone(steps, steps[i])
  }

  function ReadyFrom(steps: Steps, i: nat): (r: seq<nat>)
    requires i <= |steps|
    ensures forall k :: k in r <==> i <= k < |steps| && StepReady(steps, k)
    ensures forall a, b :: 0 <= a < b < |r| ==> r[a] < r[b]
    decreases |steps| - i
  {
    if i == |steps| then []
    else
      var rest := ReadyFrom(steps, i + 1);
      assert forall k :: 0 <= k < |rest| ==> rest[k] in rest;
      if StepReady(steps, i) then [i] + rest else rest
  }

  predicate Complete(steps: Steps) {
    forall s :: s in steps ==> s.status == Done
  }

  predicate HasFailure(steps: Steps) {
    exists s :: s in steps && s.status == Failed
  }

  /** How many steps have left the waiting state. */
  function Started(steps: Steps): nat {
    if steps == [] then 0 else (if steps[0].status == Waiting then 0 else 1) + Started(steps[1..])
  }

  /** Only statuses and results differ. */
  predicate SamePlan(a: Steps, b: Steps) {
    |a| == |b| && forall i :: 0 <= i < |a| ==>
      a[i].id == b[i].id && a[i].deps == b[i].deps && a[i].review == b[i].review
  }

  /** No step started before its dependencies were done. */
  predicate InOrder(steps: Steps) {
    forall i :: 0 <= i < |steps| && steps[i].status != Waiting ==> DepsDone(steps, steps[i])
  }

  lemma {:induction false} StartedBound(steps: Steps)
    ensures Started(steps) <= |steps|
  {
    if steps != [] {
      StartedBound(steps[1..]);
    }
  }

  lemma {:induction false} StartOne(steps: Steps, i: nat, s: Step)
    requires i < |steps| && s.status != Waiting
    ensures Started(steps[i := s]) == Started(steps) + if steps[i].status == Waiting then 1 else 0
  {
    if i > 0 {
      StartOne(steps[1..], i - 1, s);
      assert steps[i := s][1..] == steps[1..][i - 1 := s];
    } else {
      assert steps[i := s][1..] == steps[1..];
    }
  }

  lemma {:induction false} DoneStays(steps: Steps, i: nat, s: Step, id: string)
    requires i < |steps| && s.id == steps[i].id && steps[i].status != Done && StatusOf(steps, id) == Some(Done)
    ensures StatusOf(steps[i := s], id) == Some(Done)
  {
    if i > 0 {
      assert steps[i := s][1..] == steps[1..][i - 1 := s];
      if steps[0].id != id {
        DoneStays(steps[1..], i - 1, s, id);
      }
    } else {
      assert steps[i := s][1..] == steps[1..];
    }
  }

  lemma UpdateKeepsDepsDone(steps: Steps, i: nat, s: Step, t: Step)
    requires i < |steps| && s.id == steps[i].id && steps[i].status != Done && DepsDone(steps, t)
    ensures DepsDone(steps[i := s], t)
  {
    forall d | d in t.deps ensures StatusOf(steps[i := s], d) == Some(Done) {
      DoneStays(steps, i, s, d);
    }
  }

  lemma UpdateKeepsInOrder(steps: Steps, i: nat, s: Step)
    requires i < |steps| && s.id == steps[i].id && s.deps == steps[i].deps && steps[i].status != Done
    requires InOrder(steps) && DepsDone(steps, steps[i])
    ensures InOrder(steps[i := s])
  {
    var after := steps[i := s];
    forall k | 0 <= k < |after| && after[k].status != Waiting ensures DepsDone(after, after[k]) {
      UpdateKeepsDepsDone(steps, i, s, steps[k]);
      assert after[k].deps == steps[k].deps;
    }
  }

  lemma ReviewLoopStep(env: Environment, l: Ledger, current: string, n: nat, l1: Ledger, round: Round)
    requires n > 0 && (l1, round) == ReviewRound(env, l, current)
    ensures ReviewLoop(env, l, current, n) ==
            match round
            case Accepted => (l1, Some(current))
            case Broken => (l1, None)
            case Again(text) => ReviewLoop(env, l1, text, n - 1)
  {
  }

  /** The listed steps from the `j`-th on are all ready. */
  predicate AllReady(steps: Steps, ready: seq<nat>, j: nat) {
    forall k :: j <= k < |ready| ==> ready[k] < |steps| && StepReady(steps, ready[k])
  }

  predicate Ascending(ready: seq<nat>) {
    forall a, b :: 0 <= a < b < |ready| ==> ready[a] < ready[b]
  }

  /** Steps that are ready together do not depend on each other. */
  lemma RestStaysReady(steps: Steps, ready: seq<nat>, j: nat, s: Step)
    requires j < |ready| && AllReady(steps, ready, j) && Ascending(ready)
    requires s.id == steps[ready[j]].id
    ensures AllReady(steps[ready[j] := s], ready, j + 1)
  {
    forall k | j < k < |ready| ensures StepReady(steps[ready[j] := s], ready[k]) {
      assert ready[j] < ready[k];
      UpdateKeepsDepsDone(steps, ready[j], s, steps[ready[k]]);
    }
  }

  function Ended(s: Step, end: StepEnd): Step {
    match end
    case StepFailed => s.(status := Failed)
    case RunAborts => s.(status := Running)
    case StepDone(text) => s.(status := Done, result := Some(text))
  }

  predicate NoneRunning(steps: Steps) {
    forall i :: 0 <= i < |steps| ==> steps[i].status != Running
  }

  /** `j` of the listed steps have been carried out, the rest are still ready. */
  ghost predicate CarriedOut(steps0: Steps, steps: Steps, ready: seq<nat>, j: nat) {
    && InOrder(steps) && SamePlan(steps0, steps) && Ascending(ready) && AllReady(steps, ready, j)
    && Started(steps) == Started(steps0) + j
  }

  lemma CarryOutOne(steps0: Steps, steps: Steps, ready: seq<nat>, j: nat, end: StepEnd, after: Steps)
    requires CarriedOut(steps0, steps, ready, j) && j < |ready|
    requires after == steps[ready[j] := Ended(steps[ready[j]], end)]
    ensures CarriedOut(steps0, after, ready, j + 1)
    ensures NoneRunning(steps) && !end.RunAborts? ==> NoneRunning(after)
  {
    var i := ready[j];
    var s := Ended(steps[i], end);
    assert StepReady(steps, i);
    StartOne(steps, i, s);
    UpdateKeepsInOrder(steps, i, s);
    RestStaysReady(steps, ready, j, s);
  }

  // ---- valid plans do not get stuck ----

  function DepsFor(steps: Steps, id: string): seq<string> {
    if steps == [] then []
    else if steps[0].id == id then steps[0].deps
    else DepsFor(steps[1..], id)
  }

  predicate DepWalk(steps: Steps, walk: seq<string>) {
    forall i :: 0 < i < |walk| ==> walk[i] in DepsFor(steps, walk[i - 1])
  }

  /** What the planner accepts: every dependency is a step, and no walk along dependencies returns. */
  ghost predicate ValidPlan(steps: Steps) {
    DepsKnown(steps) && UniqueSteps(steps) && forall walk :: !ReturningWalk(steps, walk)
  }

  predicate UniqueSteps(steps: Steps) {
    forall i, j :: 0 <= i < j < |steps| ==> steps[i].id != steps[j].id
  }

  ghost predicate DepsKnown(steps: Steps) {
    forall id, d :: d in DepsFor(steps, id) ==> StatusOf(steps, d).Some?
  }

  predicate ReturningWalk(steps: Steps, walk: seq<string>) {
    |walk| > 1 && walk[0] == walk[|walk| - 1] && DepWalk(steps, walk)
  }

  lemma {:induction false} SamePlanSameDeps(a: Steps, b: Steps, id: string)
    requires SamePlan(a, b)
    ensures DepsFor(a, id) == DepsFor(b, id) && StatusOf(a, id).Some? == StatusOf(b, id).Some?
  {
    if a != [] && a[0].id != id {
      SamePlanSameDeps(a[1..], b[1..], id);
    }
  }

  lemma SamePlanStaysValid(a: Steps, b: Steps)
    requires SamePlan(a, b) && ValidPlan(a)
    ensures ValidPlan(b)
  {
    forall id, d | d in DepsFor(b, id) ensures StatusOf(b, d).Some? {
      SamePlanSameDeps(a, b, id);
      SamePlanSameDeps(a, b, d);
    }
    forall walk ensures !ReturningWalk(b, walk) {
      if ReturningWalk(b, walk) {
        forall i | 0 < i < |walk| ensures walk[i] in DepsFor(a, walk[i - 1]) {
          SamePlanSameDeps(a, b, walk[i - 1]);
        }
        assert ReturningWalk(a, walk);
      }
    }
  }

  lemma {:induction false} FindStep(steps: Steps, id: string) returns (i: nat)
    requires StatusOf(steps, id).Some?
    ensures i < |steps| && steps[i].id == id && StatusOf(steps, id) == Some(steps[i].status)
    ensures DepsFor(steps, id) == steps[i].deps
  {
    if steps[0].id == id {
      i := 0;
    } else {
      i := FindStep(steps[1..], id);
      i := i + 1;
    }
  }

  lemma {:induction false} FindUnique(steps: Steps, i: nat)
    requires i < |steps| && forall k :: 0 <= k < i ==> steps[k].id != steps[i].id
    ensures StatusOf(steps, steps[i].id) == Some(steps[i].status)
    decreases i
  {
    if i > 0 {
      assert steps[0].id != steps[i].id;
      FindUnique(steps[1..], i - 1);
    }
  }

  /** Everything that is not done is waiting, and nothing is ready. */
  ghost predicate Stuck(steps: Steps) {
    && (forall i :: 0 <= i < |steps| ==> steps[i].status == Done || steps[i].status == Waiting)
    && (forall i :: 0 <= i < |steps| ==> !StepReady(steps, i))
  }

  /** In a stuck plan every waiting step waits for another one. */
  lemma WaitsForAnother(steps: Steps, id: string) returns (d: string)
    requires DepsKnown(steps) && Stuck(steps) && StatusOf(steps, id) == Some(Waiting)
    ensures d in DepsFor(steps, id) && StatusOf(steps, d) == Some(Waiting)
  {
    var i := FindStep(steps, id);
    assert !StepReady(steps, i);
    d :| d in steps[i].deps && StatusOf(steps, d) != Some(Done);
    assert d in DepsFor(steps, id);
    var k := FindStep(steps, d);
    assert steps[k].status == Done || steps[k].status == Waiting;
  }

  /** So the waiting goes on and on. */
  lemma {:induction false} EndlessWalk(steps: Steps, id: string, n: nat) returns (walk: seq<string>)
    requires DepsKnown(steps) && Stuck(steps) && StatusOf(steps, id) == Some(Waiting)
    ensures |walk| == n + 1 && walk[0] == id && DepWalk(steps, walk)
    ensures forall i :: 0 <= i < |walk| ==> StatusOf(steps, walk[i]).Some?
    decreases n
  {
    if n == 0 {
      walk := [id];
    } else {
      var d := WaitsForAnother(steps, id);
      var rest := EndlessWalk(steps, d, n - 1);
      walk := [id] + rest;
      PrependWalk(steps, id, rest);
    }
  }

  lemma PrependWalk(steps: Steps, id: string, rest: seq<string>)
    requires DepWalk(steps, rest) && rest != [] && rest[0] in DepsFor(steps, id)
    ensures DepWalk(steps, [id] + rest)
  {
    var walk := [id] + rest;
    forall i | 0 < i < |walk| ensures walk[i] in DepsFor(steps, walk[i - 1]) {
      assert i > 1 ==> rest[i - 1] in DepsFor(steps, rest[i - 2]);
    }
  }

  function StepIds(steps: Steps): set<string> {
    if steps == [] then {} else {steps[0].id} + StepIds(steps[1..])
  }

  lemma {:induction false} StepIdsBound(steps: Steps, id: string)
    ensures |StepIds(steps)| <= |steps|
    ensures StatusOf(steps, id).Some? ==> id in StepIds(steps)
  {
    if steps != [] {
      StepIdsBound(steps[1..], id);
    }
  }

  lemma {:induction false} DistinctCount(s: seq<string>, all: set<string>)
    requires Distinct(s) && forall i :: 0 <= i < |s| ==> s[i] in all
    ensures |s| <= |all|
    decreases |s|
  {
    if s != [] {
      var last := |s| - 1;
      DistinctCount(s[..last], all - {s[last]});
    }
  }

  /** A walk through more ids than there are steps comes back to one. */
  lemma LongWalkReturns(steps: Steps, walk: seq<string>) returns (loop: seq<string>)
    requires DepWalk(steps, walk) && |walk| == |steps| + 1
    requires forall i :: 0 <= i < |walk| ==> StatusOf(steps, walk[i]).Some?
    ensures ReturningWalk(steps, loop)
  {
    forall i | 0 <= i < |walk| ensures walk[i] in StepIds(steps) {
      StepIdsBound(steps, walk[i]);
    }
    StepIdsBound(steps, "");
    if Distinct(walk) {
      DistinctCount(walk, StepIds(steps));
    }
    var i, j :| 0 <= i < j < |walk| && walk[i] == walk[j];
    loop := walk[i..j + 1];
    forall k | 0 < k < |loop| ensures loop[k] in DepsFor(steps, loop[k - 1]) {
      assert walk[i + k] in DepsFor(steps, walk[i + k - 1]);
    }
  }

  /** A valid plan in which every step is done or waiting has a ready step until it is complete. */
  lemma ValidPlanIsNotStuck(steps: Steps)
    requires ValidPlan(steps) && !Complete(steps) && !HasFailure(steps) && NoneRunning(steps)
    ensures ReadyFrom(steps, 0) != []
  {
    if ReadyFrom(steps, 0) == [] {
      forall i | 0 <= i < |steps|
        ensures (steps[i].status == Done || steps[i].status == Waiting) && !StepReady(steps, i)
      {
        assert steps[i] in steps && i !in ReadyFrom(steps, 0);
      }
      var s :| s in steps && s.status != Done;
      var i :| 0 <= i < |steps| && steps[i] == s;
      FindUnique(steps, i);
      var walk := EndlessWalk(steps, s.id, |steps|);
      var loop := LongWalkReturns(steps, walk);
    }
  }

  // ---- the runner ----

  datatype GoalEnd =
    | Unplanned
    | Rejected
    | Errored
    | Unfinished(stop: Stop)
    | Delivered(verdict: VerifyOutcome)
    | Synthesised(text: string)

  /** The most turns a run that ends this way can have spent after its plan was complete. */
  function TurnsAfterPlan(end: GoalEnd, caps: Caps): nat {
    if end.Synthesised? then 1
    else if end.Delivered? && !end.verdict.Skipped? then caps.maxReviewCycles + 1
    else 0
  }

  /** The turn before `end` brought this plan. */
  predicate PlannedBy(env: Environment, end: nat, plan: Steps) {
    end > 0 && Answers(env, end - 1) && env.outcome(end - 1).reply.plan == Some(plan)
  }

  /** The checks paid for by the last turns before `end` mean this verdict. */
  ghost predicate Verified(env: Environment, end: nat, checks: nat, turnsLeft: nat, v: VerifyOutcome) {
    exists start: nat :: VerdictMeans(env, start, end, checks, turnsLeft, v)
  }

  /** What the last answers of a run say about how it ended. */
  ghost predicate EndMeans(env: Environment, end: nat, caps: Caps, turnsLeft: nat, e: GoalEnd) {
    && (e.Delivered? && !e.verdict.Skipped? ==> Verified(env, end, caps.maxReviewCycles + 1, turnsLeft, e.verdict))
    && (e == Delivered(Passed) ==> end > 0 && SaysPass(env, end - 1))
    && (e.Synthesised? ==> end > 0 && Answers(env, end - 1) && env.outcome(end - 1).reply.text == e.text)
  }

  datatype Stop = Completed | TickCeiling | Stopped | NoTurns | StepHasFailed | NothingRunnable

  class Runner {
    const budget: RunBudget
    const env: Environment
    var sends: nat
    var asked: nat
    var heads: nat
    var exhausted: bool
    var steps: Steps

    ghost predicate Valid()
      reads this, budget
    {
      budget.Valid() && sends <= budget.Spent()
    }

    ghost function Accounts(): Ledger
      requires Valid()
      reads this, budget
    {
      Ledger(budget.turnsRemaining, budget.Spent(), sends, asked, exhausted)
    }

    constructor (caps: Caps, env: Environment)
      ensures Valid() && fresh(budget) && budget.caps == Clamp(caps) && this.env == env
      ensures Accounts() == Ledger(budget.caps.maxTotalTurns, 0, 0, 0, false) && steps == []
    {
      this.budget := new RunBudget(caps);
      this.env := env;
      sends, asked, heads, exhausted, steps := 0, 0, 0, false, [];
    }

    method Resolve() returns (found: bool)
      requires Valid()
      modifies this`asked
      ensures Valid() && found == env.resolves(old(asked))
      ensures Accounts() == old(Accounts()).(asked := old(asked) + 1)
    {
      found := env.resolves(asked);
      asked := asked + 1;
    }

    /** Charge one turn, then send and wait.  Without a turn nothing is sent; an abort costs the turn
        but sends nothing; a reply is what that turn's outcome holds. */
    method DispatchAndWait() returns (reply: Option<Reply>)
      requires Valid()
      modifies this`sends, this`exhausted, budget`turnsRemaining
      ensures Valid() && (Accounts(), reply) == Dispatch(env, old(Accounts()))
      ensures old(budget.turnsRemaining) == 0 ==> reply.None? && sends == old(sends) && exhausted
      ensures old(budget.turnsRemaining) > 0 ==>
        var outcome := env.outcome(old(Accounts()).spent);
        && budget.turnsRemaining == old(budget.turnsRemaining) - 1 && exhausted == old(exhausted)
        && sends == old(sends) + (if outcome.Aborted? then 0 else 1)
        && reply == if outcome.Replied? then Some(outcome.reply) else None
    {
      var k := budget.caps.maxTotalTurns - budget.turnsRemaining;
      var ok := budget.SpendTurn();
      if !ok {
        exhausted := true;
        return None;
      }
      match env.outcome(k) {
        case Aborted => return None;
        case SendFailed =>
          sends := sends + 1;
          return None;
        case Replied(r) =>
          sends := sends + 1;
          return Some(r);
      }
    }

    /** The bounded reviewer loop of one step. */
    method FinishStep(review: bool, workerReply: string) returns (accepted: Option<string>)
      requires Valid()
      modifies this`sends, this`asked, this`exhausted, budget`turnsRemaining
      ensures Valid()
      ensures !review ==> Accounts() == old(Accounts()) && accepted == Some(workerReply)
      ensures review ==>
        (Accounts(), accepted) == ReviewLoop(env, old(Accounts()), workerReply, budget.caps.maxReviewCycles)
      ensures review && accepted.Some? ==>
        Reviewed(env, old(Accounts()).spent, Accounts().spent, workerReply, accepted.value)
      ensures accepted.None? ==>
        review && RevisionFailed(env, old(Accounts()).spent, Accounts().spent, budget.turnsRemaining)
    {
      if !review {
        return Some(workerReply);
      }
      ReviewMeaning(env, Accounts(), workerReply, budget.caps.maxReviewCycles);
      accepted := ReviewUntilAccepted(workerReply);
    }

    method ReviewUntilAccepted(workerReply: string) returns (accepted: Option<string>)
      requires Valid()
      modifies this`sends, this`asked, this`exhausted, budget`turnsRemaining
      ensures Valid()
      ensures (Accounts(), accepted) == ReviewLoop(env, old(Accounts()), workerReply, budget.caps.maxReviewCycles)
    {
      var maxCycles: nat := budget.caps.maxReviewCycles;
      ghost var goal := ReviewLoop(env, Accounts(), workerReply, maxCycles);
      var current := workerReply;
      var cycles: nat := 0;
      while cycles < maxCycles
        invariant Valid() && cycles <= maxCycles
        invariant goal == ReviewLoop(env, Accounts(), current, maxCycles - cycles)
      {
        ghost var l := Accounts();
        var round := RunReviewRound(current);
        ReviewLoopStep(env, l, current, maxCycles - cycles, Accounts(), round);
        match round {
          case Accepted => return Some(current);
          case Broken => return None;
          case Again(text) =>
            cycles := cycles + 1;
            current := text;
        }
      }
      return Some(current);
    }

    method RunReviewRound(current: string) returns (round: Round)
      requires Valid()
      modifies this`sends, this`asked, this`exhausted, budget`turnsRemaining
      ensures Valid() && (Accounts(), round) == ReviewRound(env, old(Accounts()), current)
    {
      var found := Resolve();
      if !found {
        return Accepted;
      }
      var verdict := DispatchAndWait();
      if verdict.None? {
        return Accepted;
      }
      match verdict.value.review {
        case Approve => return Accepted;
        case Unclear => return Again(current);
        case Revise =>
          var revised := DispatchAndWait();
          return if revised.None? then Broken else Again(revised.value.text);
      }
    }

    /** Run one ready step and record how it ended: a step whose revision failed stays Running. */
    method ExecuteStep(i: nat) returns (end: StepEnd)
      requires Valid() && i < |steps|
      modifies this`sends, this`asked, this`exhausted, this`steps, budget`turnsRemaining
      ensures Valid()
      ensures (Accounts(), end) == RunStep(env, old(Accounts()), old(steps)[i].review, budget.caps.maxReviewCycles)
      ensures steps == old(steps)[i := Ended(old(steps)[i], end)]
      ensures steps[i].id == old(steps)[i].id && steps[i].deps == old(steps)[i].deps
      ensures steps[i].review == old(steps)[i].review
      ensures end.StepFailed? ==> steps[i].status == Failed && steps[i].result == old(steps)[i].result
      ensures end.RunAborts? ==> steps[i].status == Running && steps[i].result == old(steps)[i].result
      ensures end.StepDone? ==> steps[i].status == Done && steps[i].result == Some(end.text)
    {
      end := Attempt(steps[i].review);
      steps := steps[i := Ended(steps[i], end)];
    }

    method Attempt(review: bool) returns (end: StepEnd)
      requires Valid()
      modifies this`sends, this`asked, this`exhausted, budget`turnsRemaining
      ensures Valid() && (Accounts(), end) == RunStep(env, old(Accounts()), review, budget.caps.maxReviewCycles)
    {
      var found := Resolve();
      if !found {
        return StepFailed;
      }
      end := Work(review);
    }

    method Work(review: bool) returns (end: StepEnd)
      requires Valid()
      modifies this`sends, this`asked, this`exhausted, budget`turnsRemaining
      ensures Valid() && (Accounts(), end) == RunWorker(env, old(Accounts()), review, budget.caps.maxReviewCycles)
    {
      var reply := DispatchAndWait();
      if reply.None? {
        return StepFailed;
      }
      var accepted := FinishStep(review, reply.value.text);
      return if accepted.None? then RunAborts else StepDone(accepted.value);
    }

    /** The steps that were ready together, one after the other. */
    method ExecuteReady(ready: seq<nat>) returns (aborts: bool)
      requires Valid() && InOrder(steps)
      requires AllReady(steps, ready, 0) && Ascending(ready)
      modifies this`sends, this`asked, this`exhausted, this`steps, budget`turnsRemaining
      ensures Valid() && InOrder(steps) && SamePlan(old(steps), steps)
      ensures Started(old(steps)) <= Started(steps) && (ready != [] ==> Started(old(steps)) < Started(steps))
      ensures PaidFor(old(Accounts()), Accounts(), Started(steps) - Started(old(steps)),
                      1 + 2 * budget.caps.maxReviewCycles)
      ensures old(NoneRunning(steps)) && !aborts ==> NoneRunning(steps)
    {
      aborts := false;
      ghost var l0, steps0 := Accounts(), steps;
      ghost var price := 1 + 2 * budget.caps.maxReviewCycles;
      var j := 0;
      while j < |ready| && !aborts
        invariant Valid() && j <= |ready| && CarriedOut(steps0, steps, ready, j) && (aborts ==> j > 0)
        invariant PaidFor(l0, Accounts(), j, price)
        invariant NoneRunning(steps0) && !aborts ==> NoneRunning(steps)
      {
        ghost var before, l := steps, Accounts();
        assert StepReady(steps, ready[j]);
        StepCost(env, l, steps[ready[j]].review, budget.caps.maxReviewCycles);
        var end := ExecuteStep(ready[j]);
        aborts := end.RunAborts?;
        CarryOutOne(steps0, before, ready, j, end, steps);
        PayMore(l0, l, Accounts(), j, 1, price);
        j := j + 1;
      }
    }

    /** The stop conditions at the head of the execution loop, in their order. */
    method CheckHead() returns (stop: Option<Stop>)
      requires Valid()
      modifies this`heads, budget`ticksRemaining
      ensures Valid()
      ensures stop == Some(NoTurns) ==> budget.turnsRemaining == 0
      ensures stop == Some(Completed) ==> Complete(steps)
      ensures stop.None? ==> budget.turnsRemaining > 0 && !HasFailure(steps) && !Complete(steps)
      ensures stop != Some(NothingRunnable)
    {
      heads := heads + 1;
      var ticked := budget.Tick();
      if !ticked {
        return Some(TickCeiling);
      }
      if env.stopped(heads) {
        return Some(Stopped);
      }
      if budget.turnsRemaining == 0 {
        return Some(NoTurns);
      }
      if Complete(steps) {
        return Some(Completed);
      }
      if HasFailure(steps) {
        return Some(StepHasFailed);
      }
      return None;
    }

    /** The execution loop.  However it ends, the cost is bounded by the steps started; if the
        plan's full price was available, no dispatch was ever refused and the loop did not stop
        for lack of turns with a step still waiting.  A valid plan always has a step to run
        until it is complete or something failed. */
    method ExecutePlan() returns (stop: Stop, aborts: bool)
      requires Valid() && (forall s :: s in steps ==> s.status == Waiting) && !exhausted
      modifies this, budget
      ensures Valid() && InOrder(steps) && SamePlan(old(steps), steps)
      ensures CostsAtMost(old(Accounts()), Accounts(), |steps| * (1 + 2 * budget.caps.maxReviewCycles))
      ensures |steps| * (1 + 2 * budget.caps.maxReviewCycles) <= old(budget.turnsRemaining) ==>
        !exhausted && (!aborts && stop == NoTurns ==> forall s :: s in steps ==> s.status != Waiting)
      ensures !aborts && stop == Completed ==> Complete(steps)
      ensures !aborts && stop == NoTurns ==> budget.turnsRemaining == 0
      ensures ValidPlan(old(steps)) && !aborts ==> stop != NothingRunnable
    {
      ghost var l0, steps0 := Accounts(), steps;
      ghost var price := 1 + 2 * budget.caps.maxReviewCycles;
      StartedZero(steps);
      PlanStarts(steps);
      var halt: Option<Stop> := None;
      aborts := false;
      while halt.None?
        invariant Valid() && InOrder(steps) && SamePlan(steps0, steps) && (!aborts ==> NoneRunning(steps))
        invariant PaidFor(l0, Accounts(), Started(steps), price)
        invariant aborts ==> halt.Some?
        invariant !aborts && halt == Some(Completed) ==> Complete(steps)
        invariant !aborts && halt == Some(NoTurns) ==> budget.turnsRemaining == 0
        invariant ValidPlan(steps0) && !aborts ==> halt != Some(NothingRunnable)
        decreases halt.None?, |steps| - Started(steps)
      {
        StartedBound(steps);
        halt, aborts := RunOnce(l0, steps0);
        StartedBound(steps);
      }
      stop := halt.value;
      PlanEnds(l0, Accounts(), steps, price);
    }

    /** One round of the loop: the checks at its head, then all the steps that are ready. */
    method RunOnce(ghost l0: Ledger, ghost steps0: Steps) returns (halt: Option<Stop>, aborts: bool)
      requires Valid() && InOrder(steps) && SamePlan(steps0, steps) && NoneRunning(steps)
      requires PaidFor(l0, Accounts(), Started(steps), 1 + 2 * budget.caps.maxReviewCycles)
      modifies this, budget
      ensures Valid() && InOrder(steps) && SamePlan(steps0, steps) && (!aborts ==> NoneRunning(steps))
      ensures PaidFor(l0, Accounts(), Started(steps), 1 + 2 * budget.caps.maxReviewCycles)
      ensures (halt.None? ==> Started(steps) > Started(old(steps))) && (aborts ==> halt.Some?)
      ensures (exists s :: s in old(steps) && s.status == Failed) ==> halt.Some? && !aborts && steps == old(steps)
      ensures (forall s :: s in old(steps) ==> s.status == Done) ==> halt.Some? && !aborts && steps == old(steps)
      ensures !aborts && halt == Some(Completed) ==> Complete(steps)
      ensures !aborts && halt == Some(NoTurns) ==> budget.turnsRemaining == 0
      ensures ValidPlan(steps0) && !aborts ==> halt != Some(NothingRunnable)
    {
      halt := CheckHead();
      if halt.Some? {
        return halt, false;
      }
      var ready := ReadyFrom(steps, 0);
      ReadyIsListed(steps, ready);
      if ready == [] {
        if ValidPlan(steps0) {
          SamePlanStaysValid(steps0, steps);
          ValidPlanIsNotStuck(steps);
        }
        return Some(NothingRunnable), false;
      }
      ghost var before, l := steps, Accounts();
      var failed := ExecuteReady(ready);
      ghost var price := 1 + 2 * budget.caps.maxReviewCycles;
      PayMore(l0, l, Accounts(), Started(before), Started(steps) - Started(before), price);
      return if failed then Some(NothingRunnable) else None, failed;
    }

    /** One check plus up to `maxReviewCycles` re-checks.  The verdict means what the checks said. */
    method RunVerification() returns (verdict: VerifyOutcome)
      requires Valid()
      modifies this`sends, this`exhausted, budget`turnsRemaining
      ensures Valid() && (Accounts(), verdict) == VerifyLoop(env, old(Accounts()), budget.caps.maxReviewCycles + 1)
      ensures VerdictMeans(env, old(Accounts()).spent, Accounts().spent, budget.caps.maxReviewCycles + 1,
                           budget.turnsRemaining, verdict)
    {
      VerifyMeaning(env, Accounts(), budget.caps.maxReviewCycles + 1);
      verdict := CheckUntilSettled();
    }

    method CheckUntilSettled() returns (verdict: VerifyOutcome)
      requires Valid()
      modifies this`sends, this`exhausted, budget`turnsRemaining
      ensures Valid() && (Accounts(), verdict) == VerifyLoop(env, old(Accounts()), budget.caps.maxReviewCycles + 1)
    {
      var checks: nat := budget.caps.maxReviewCycles + 1;
      ghost var goal := VerifyLoop(env, Accounts(), checks);
      for i := 0 to checks
        invariant Valid() && goal == VerifyLoop(env, Accounts(), checks - i)
      {
        if budget.turnsRemaining == 0 {
          return OutOfTurns;
        }
        var reply := DispatchAndWait();
        if reply.None? || reply.value.verified.None? {
          return Inconclusive;
        }
        if reply.value.verified.value {
          return Passed;
        }
      }
      return VerifyFailed;
    }

    /** A whole verification: at most a turn per check, and a shortage only with fewer turns than checks. */
    method Verify() returns (verdict: VerifyOutcome)
      requires Valid()
      modifies this`sends, this`exhausted, budget`turnsRemaining
      ensures Valid() && exhausted == old(exhausted) && !verdict.Skipped?
      ensures budget.turnsRemaining + budget.caps.maxReviewCycles + 1 >= old(budget.turnsRemaining)
      ensures verdict.OutOfTurns? ==> old(budget.turnsRemaining) <= budget.caps.maxReviewCycles
      ensures Verified(env, Accounts().spent, budget.caps.maxReviewCycles + 1, budget.turnsRemaining, verdict)
    {
      VerifyCost(env, Accounts(), budget.caps.maxReviewCycles + 1);
      verdict := RunVerification();
    }

    /** Ask the coordinator, and once more if its first reply holds no plan. */
    method MakePlan() returns (plan: Option<Steps>)
      requires Valid()
      modifies this`sends, this`asked, this`exhausted, budget`turnsRemaining
      ensures Valid() && (Accounts(), plan) == Planning(env, old(Accounts()), heads)
      ensures plan.Some? ==> PlannedBy(env, Accounts().spent, plan.value)
    {
      PlanningMeaning(env, Accounts(), heads);
      var found := Resolve();
      if !found {
        return None;
      }
      var first := DispatchAndWait();
      if first.None? {
        return None;
      }
      if first.value.plan.Some? || budget.turnsRemaining == 0 || env.stopped(heads) {
        return first.value.plan;
      }
      var second := DispatchAndWait();
      if second.None? {
        return None;
      }
      return second.value.plan;
    }

    /** A whole goal run.  Sends never exceed turns paid, and those never exceed the caps.  When
        re-planning is budgeted for, an admitted plan is never cut short for lack of turns, two
        turns more than there are steps are left once it is complete, and verification has all
        its checks unless the review cap exceeds the number of steps by more than one.  What is
        delivered as passed had a pass as the run's last answer. */
    method RunGoal(verify: bool, files: bool) returns (end: GoalEnd)
      requires Valid() && Accounts() == Ledger(budget.caps.maxTotalTurns, 0, 0, 0, false)
      modifies this, budget
      ensures Valid() && sends <= budget.Spent() <= budget.caps.maxTotalTurns <= CEILING.maxTotalTurns
      ensures end.Delivered? || end.Synthesised? ==> Complete(steps) && InOrder(steps)
      ensures EndMeans(env, Accounts().spent, budget.caps, budget.turnsRemaining, end)
      ensures !end.Unplanned? ==> exists k: nat, plan :: PlannedBy(env, k, plan) && SamePlan(plan, steps)
      ensures budget.caps.maxReplans >= 1 && |steps| <= U32_MAX && !end.Unplanned? ==> !exhausted
      ensures budget.caps.maxReplans >= 1 && |steps| <= U32_MAX ==> end != Unfinished(NoTurns)
      ensures ValidPlan(steps) ==> end != Unfinished(NothingRunnable)
      ensures budget.caps.maxReplans >= 1 && |steps| <= U32_MAX && (end.Delivered? || end.Synthesised?) ==>
        budget.turnsRemaining + TurnsAfterPlan(end, budget.caps) >= |steps| + 2
      ensures budget.caps.maxReplans >= 1 && |steps| <= U32_MAX && budget.caps.maxReviewCycles <= |steps| + 1 ==>
        end != Delivered(OutOfTurns)
    {
      PlanningCost(env, Accounts(), heads);
      var plan := MakePlan();
      if plan.None? {
        return Unplanned;
      }
      steps := seq(|plan.value|, i requires 0 <= i < |plan.value| => plan.value[i].(status := Waiting, result := None));
      ghost var planned := steps;
      assert PlannedBy(env, Accounts().spent, plan.value) && SamePlan(plan.value, planned);
      end := Perform(verify, files);
      if ValidPlan(steps) {
        SamePlanStaysValid(steps, planned);
      }
      assert SamePlan(plan.value, steps);
    }

    /** Admit the plan, carry it out, and conclude. */
    method Perform(verify: bool, files: bool) returns (end: GoalEnd)
      requires Valid() && (forall s :: s in steps ==> s.status == Waiting) && !exhausted
      modifies this, budget
      ensures Valid() && SamePlan(old(steps), steps) && !end.Unplanned?
      ensures end.Delivered? || end.Synthesised? ==> Complete(steps) && InOrder(steps)
      ensures ValidPlan(old(steps)) ==> end != Unfinished(NothingRunnable)
      ensures EndMeans(env, Accounts().spent, budget.caps, budget.turnsRemaining, end)
      ensures budget.caps.maxReplans >= 1 && |steps| <= U32_MAX ==> !exhausted && end != Unfinished(NoTurns)
      ensures budget.caps.maxReplans >= 1 && |steps| <= U32_MAX && (end.Delivered? || end.Synthesised?) ==>
        budget.turnsRemaining + TurnsAfterPlan(end, budget.caps) >= |steps| + 2
      ensures budget.caps.maxReplans >= 1 && |steps| <= U32_MAX && budget.caps.maxReviewCycles <= |steps| + 1 ==>
        end != Delivered(OutOfTurns)
    {
      var admitted := budget.AdmitsPlan(|steps| % 0x1_0000_0000);
      if !admitted {
        return Rejected;
      }
      var n := |steps|;
      ghost var turns, caps := budget.turnsRemaining, budget.caps;
      if caps.maxReplans >= 1 && n <= U32_MAX {
        AdmittedIsPayable(caps, n, turns);
      }
      var stop, aborts := ExecutePlan();
      if aborts {
        return Errored;
      }
      if !Complete(steps) {
        return Unfinished(stop);
      }
      end := Conclude(verify, files);
    }

    /** The plan is complete: hand over the files, checked if asked to, or else ask for a summary. */
    method Conclude(verify: bool, files: bool) returns (end: GoalEnd)
      requires Valid() && Complete(steps)
      modifies this`sends, this`asked, this`exhausted, budget`turnsRemaining
      ensures Valid() && (end.Errored? || end.Delivered? || end.Synthesised?)
      ensures end.Delivered? || end.Synthesised? ==>
        budget.turnsRemaining + TurnsAfterPlan(end, budget.caps) >= old(budget.turnsRemaining)
      ensures old(budget.turnsRemaining) > 0 ==> exhausted == old(exhausted)
      ensures end == Delivered(OutOfTurns) ==> old(budget.turnsRemaining) <= budget.caps.maxReviewCycles
      ensures end == Delivered(Skipped) <==> files && !verify
      ensures end.Delivered? <==> files
      ensures EndMeans(env, Accounts().spent, budget.caps, budget.turnsRemaining, end)
    {
      if files {
        if !verify {
          return Delivered(Skipped);
        }
        var verdict := Verify();
        return Delivered(verdict);
      }
      var found := Resolve();
      if !found {
        return Errored;
      }
      DispatchCost(env, Accounts());
      var answer := DispatchAndWait();
      return if answer.None? then Errored else Synthesised(answer.value.text);
    }
  }

  /** With a re-plan in the caps an admitted plan is payable with turns to spare. */
  lemma AdmittedIsPayable(caps: Caps, n: U32, turns: nat)
    requires Within(caps, CEILING) && caps.maxReplans >= 1 && 0 < n <= caps.maxSteps
    requires n * ((1 + caps.maxReviewCycles) * (1 + caps.maxReplans)) + 2 <= turns
    ensures n * (1 + 2 * caps.maxReviewCycles) + n + 2 <= turns
  {
    WorstCaseIsExact(caps, n);
    FormulaCoversIff(caps, n);
  }

  lemma PlanStarts(steps: Steps)
    requires forall s :: s in steps ==> s.status == Waiting
    ensures InOrder(steps) && NoneRunning(steps) && SamePlan(steps, steps)
  {
    forall i | 0 <= i < |steps| ensures steps[i].status == Waiting {
      assert steps[i] in steps;
    }
  }

  lemma ReadyIsListed(steps: Steps, ready: seq<nat>)
    requires ready == ReadyFrom(steps, 0)
    ensures AllReady(steps, ready, 0) && Ascending(ready)
  {
    forall k | 0 <= k < |ready| ensures ready[k] < |steps| && StepReady(steps, ready[k]) {
      assert ready[k] in ready;
    }
  }

  /** What the price of the steps started says about the whole plan. */
  lemma PlanEnds(l0: Ledger, l: Ledger, steps: Steps, price: nat)
    requires PaidFor(l0, l, Started(steps), price) && price >= 1
    ensures CostsAtMost(l0, l, |steps| * price)
    ensures |steps| * price <= l0.turns && l.turns == 0 ==> forall s :: s in steps ==> s.status != Waiting
  {
    StartedBound(steps);
    PaidForAll(l0, l, Started(steps), |steps|, price);
    if |steps| * price <= l0.turns && l.turns == 0 {
      AllStarted(steps);
    }
  }

  lemma {:induction false} StartedZero(steps: Steps)
    requires forall s :: s in steps ==> s.status == Waiting
    ensures Started(steps) == 0
  {
    if steps != [] {
      assert steps[0] in steps;
      StartedZero(steps[1..]);
    }
  }

  lemma CountAll(started: nat, all: nat, price: nat)
    requires started <= all && price >= 1 && all * price <= started * price
    ensures started == all
  {
    if started < all {
      StrictScale(started, all, price);
    }
  }

  lemma StrictScale(a: nat, b: nat, price: nat)
    requires a < b && price >= 1
    ensures a * price < b * price
  {
    assert b * price == a * price + (b - a) * price;
    assert (b - a) * price >= 1;
  }

  /** Every turn paid between `l0` and `l` was within the price of the steps started. */
  ghost predicate PaidFor(l0: Ledger, l: Ledger, started: nat, price: nat) {
    CostsAtMost(l0, l, started * price)
  }

  lemma PayMore(l0: Ledger, l: Ledger, l': Ledger, a: nat, b: nat, price: nat)
    requires PaidFor(l0, l, a, price) && PaidFor(l, l', b, price)
    ensures PaidFor(l0, l', a + b, price)
  {
    assert a * price + b * price == (a + b) * price;
    CostsAdd(l0, l, l', a * price, b * price);
  }

  lemma PaidForAll(l0: Ledger, l: Ledger, started: nat, all: nat, price: nat)
    requires PaidFor(l0, l, started, price) && started <= all
    ensures CostsAtMost(l0, l, all * price)
    ensures all * price <= l0.turns && l.turns == 0 && price >= 1 ==> started == all
  {
    ScaleUp(price, started, all);
    if all * price <= l0.turns && l.turns == 0 && price >= 1 {
      CountAll(started, all, price);
    }
  }

  lemma {:induction false} AllStarted(steps: Steps)
    requires Started(steps) == |steps|
    ensures forall s :: s in steps ==> s.status != Waiting
  {
    if steps != [] {
      StartedBound(steps[1..]);
      AllStarted(steps[1..]);
      assert steps == [steps[0]] + steps[1..];
    }
  }
}
