/** Hard limits of an orchestration run: caps that can only be lowered, a turn and tick
    budget that can only be spent, and the worst-case admission check. */
module Budget {
  import opened Text

  type U32 = n: int | 0 <= n < 0x1_0000_0000
  type U64 = n: int | 0 <= n < 0x1_0000_0000_0000_0000

  const U32_MAX: U32 := 0xFFFF_FFFF

  datatype Caps = Caps(
    maxTotalTurns: U32,
    maxSteps: U32,
    maxWallSeconds: U64,
    maxTicks: U64,
    maxDepth: U32,
    maxParallel: U32,
    maxConcurrentVms: U32,
    maxReviewCycles: U32,
    maxReplans: U32)

  const CEILING: Caps := Caps(200, 64, 6 * 3600, 100000, 4, 32, 32, 5, 3)

  const DEFAULT_CAPS: Caps := Caps(40, 6, 1800, 1200, 2, 4, 4, 2, 1)

  datatype CapsOverride = CapsOverride(
    maxTotalTurns: Option<U32>,
    maxWallSeconds: Option<U64>,
    maxParallel: Option<U32>,
    maxConcurrentVms: Option<U32>,
    maxSteps: Option<U32>)

  function Min(a: int, b: int): int {
    if a < b then a else b
  }

  function MinOpt(a: int, b: Option<int>): int {
    if b.Some? then Min(a, b.value) else a
  }

  function Clamp(c: Caps): Caps {
    Caps(
      Min(c.maxTotalTurns, CEILING.maxTotalTurns),
      Min(c.maxSteps, CEILING.maxSteps),
      Min(c.maxWallSeconds, CEILING.maxWallSeconds),
      Min(c.maxTicks, CEILING.maxTicks),
      Min(c.maxDepth, CEILING.maxDepth),
      Min(c.maxParallel, CEILING.maxParallel),
      Min(c.maxConcurrentVms, CEILING.maxConcurrentVms),
      Min(c.maxReviewCycles, CEILING.maxReviewCycles),
      Min(c.maxReplans, CEILING.maxReplans))
  }

  function Tighten(c: Caps, o: CapsOverride): Caps {
    Clamp(c.(
      maxTotalTurns := MinOpt(c.maxTotalTurns, o.maxTotalTurns),
      maxWallSeconds := MinOpt(c.maxWallSeconds, o.maxWallSeconds),
      maxParallel := MinOpt(c.maxParallel, o.maxParallel),
      maxConcurrentVms := MinOpt(c.maxConcurrentVms, o.maxConcurrentVms),
      maxSteps := MinOpt(c.maxSteps, o.maxSteps)))
  }

  /** `a` allows no more than `b` in any respect. */
  predicate Within(a: Caps, b: Caps) {
    && a.maxTotalTurns <= b.maxTotalTurns && a.maxSteps <= b.maxSteps
    && a.maxWallSeconds <= b.maxWallSeconds && a.maxTicks <= b.maxTicks && a.maxDepth <= b.maxDepth
    && a.maxParallel <= b.maxParallel && a.maxConcurrentVms <= b.maxConcurrentVms
    && a.maxReviewCycles <= b.maxReviewCycles && a.maxReplans <= b.maxReplans
  }

  predicate AtMost(n: int, limit: Option<int>) {
    limit.Some? ==> n <= limit.value
  }

  predicate Respects(c: Caps, o: CapsOverride) {
    && AtMost(c.maxTotalTurns, o.maxTotalTurns) && AtMost(c.maxWallSeconds, o.maxWallSeconds)
    && AtMost(c.maxParallel, o.maxParallel) && AtMost(c.maxConcurrentVms, o.maxConcurrentVms)
    && AtMost(c.maxSteps, o.maxSteps)
  }

  /** Tightening gives the loosest caps that exceed neither the current ones, nor the request,
      nor the compiled ceiling. */
  lemma TightenIsLoosestAllowed(c: Caps, o: CapsOverride)
    ensures var t := Tighten(c, o);
            Within(t, c) && Within(t, CEILING) && Respects(t, o) &&
            forall d :: Within(d, c) && Within(d, CEILING) && Respects(d, o) ==> Within(d, t)
  {
  }

  datatype CapsChange = ClampAgain | TightenBy(request: CapsOverride)

  function Changed(c: Caps, change: CapsChange): Caps {
    match change
    case ClampAgain => Clamp(c)
    case TightenBy(o) => Tighten(c, o)
  }

  function AllChanged(c: Caps, changes: seq<CapsChange>): Caps
    decreases |changes|
  {
    if changes == [] then c else AllChanged(Changed(c, changes[0]), changes[1..])
  }

  /** No sequence of clamps and overrides ever raises a cap, and one of them is enough to
      bring every cap under the ceiling for good. */
  lemma {:induction false} ChangesNeverRaise(c: Caps, changes: seq<CapsChange>)
    ensures Within(AllChanged(c, changes), c)
    ensures changes != [] || Within(c, CEILING) ==> Within(AllChanged(c, changes), CEILING)
    decreases |changes|
  {
    if changes != [] {
      var c1 := Changed(c, changes[0]);
      if changes[0].TightenBy? {
        TightenIsLoosestAllowed(c, changes[0].request);
      }
      ChangesNeverRaise(c1, changes[1..]);
    }
  }

  function SaturatingMul(a: U32, b: U32): U32 {
    if a * b > U32_MAX then U32_MAX else assert a * b >= 0; a * b
  }

  function SaturatingAdd(a: U32, b: U32): U32 {
    if a + b > U32_MAX then U32_MAX else a + b
  }

  /** The plain additions panic on the largest 32-bit value, so callers stay below it. */
  function WorstCaseTurns(c: Caps, stepCount: U32): U32
    requires c.maxReviewCycles < U32_MAX && c.maxReplans < U32_MAX
  {
    SaturatingAdd(SaturatingMul(stepCount, SaturatingMul(1 + c.maxReviewCycles, 1 + c.maxReplans)), 2)
  }

  /** Under the ceiling nothing saturates. */
  lemma WorstCaseIsExact(c: Caps, n: U32)
    requires Within(c, CEILING) && n <= CEILING.maxSteps
    ensures WorstCaseTurns(c, n) == n * ((1 + c.maxReviewCycles) * (1 + c.maxReplans)) + 2
  {
    var r, p := 1 + c.maxReviewCycles, 1 + c.maxReplans;
    ProductBound(r, p, 6, 4);
    ProductBound(n, r * p, 64, 24);
  }

  lemma ProductBound(a: nat, b: nat, x: nat, y: nat)
    requires a <= x && b <= y
    ensures 0 <= a * b <= x * y
  {
    assert a * b <= x * b <= x * y;
  }

  predicate Admits(c: Caps, turnsRemaining: nat, stepCount: U32)
    requires c.maxReviewCycles < U32_MAX && c.maxReplans < U32_MAX
  {
    0 < stepCount <= c.maxSteps && WorstCaseTurns(c, stepCount) <= turnsRemaining
  }

  class RunBudget {
    var turnsRemaining: nat
    var ticksRemaining: nat
    const caps: Caps

    ghost predicate Valid()
      reads this
    {
      && Within(caps, CEILING)
      && turnsRemaining <= caps.maxTotalTurns && ticksRemaining <= caps.maxTicks
    }

    /** Turns charged so far. */
    ghost function Spent(): int
      reads this
    {
      caps.maxTotalTurns - turnsRemaining
    }

    constructor (requested: Caps)
      ensures Valid() && caps == Clamp(requested) && Spent() == 0 && ticksRemaining == caps.maxTicks
    {
      caps := Clamp(requested);
      turnsRemaining := Min(requested.maxTotalTurns, CEILING.maxTotalTurns);
      ticksRemaining := Min(requested.maxTicks, CEILING.maxTicks);
    }

    /** Charges one turn, or refuses when none is left. */
    method SpendTurn() returns (ok: bool)
      requires Valid()
      modifies this`turnsRemaining
      ensures Valid() && ok == (old(turnsRemaining) > 0)
      ensures Spent() == old(Spent()) + if ok then 1 else 0
    {
      if turnsRemaining == 0 {
        return false;
      }
      turnsRemaining := turnsRemaining - 1;
      return true;
    }

    method Tick() returns (ok: bool)
      requires Valid()
      modifies this`ticksRemaining
      ensures Valid() && ok == (old(ticksRemaining) > 0)
      ensures ticksRemaining == old(ticksRemaining) - if ok then 1 else 0
    {
      if ticksRemaining == 0 {
        return false;
      }
      ticksRemaining := ticksRemaining - 1;
      return true;
    }

    /** Admitted exactly when every step fits with all its reviews in all its plannings, plus two
        turns, in plain numbers: no saturation hides a plan that is too large. */
    method AdmitsPlan(stepCount: U32) returns (ok: bool)
      requires Valid()
      ensures ok <==> 0 < stepCount <= caps.maxSteps &&
                      stepCount * ((1 + caps.maxReviewCycles) * (1 + caps.maxReplans)) + 2 <= turnsRemaining
    {
      if stepCount <= caps.maxSteps {
        WorstCaseIsExact(caps, stepCount);
      }
      ok := stepCount > 0 && stepCount <= caps.maxSteps && WorstCaseTurns(caps, stepCount) <= turnsRemaining;
    }
  }
}
